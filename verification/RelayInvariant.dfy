/** What every reachable state of the relay satisfies. */
module RelayInvariant {
  import opened RelayState

  // ---------------------------------------------------------------- who holds a reference

  function MainHolds(pc: MainPc): nat {
    if pc.MStart? || pc.MDone? then 0 else 1
  }

  function SenderHolds(pc: SenderPc): nat {
    if pc.SNone? || pc.SStart? || pc.SDone? then 0 else 1
  }

  function ReceiverHolds(pc: ReceiverPc): nat {
    if pc.RNone? || pc.RStart? || pc.RDone? then 0 else 1
  }

  // The registry entry of a device exists exactly in these states.
  predicate Registered(dev: Device, pc: ReceiverPc) {
    && dev.connection.Working?
    && !pc.RRegAcquire? && !pc.RInsert? && !pc.RRegRelease? && !pc.RClose?
  }

  // The reference of the registry entry is taken before the insertion and dropped after the erasure.
  function RegistryHolds(dev: Device, pc: ReceiverPc): nat {
    if Registered(dev, pc) || pc.RInsert? || pc.RRegRelease? then 1 else 0
  }

  // The devices a broadcaster has acquired and not yet released.
  function Pending(pc: ReceiverPc): seq<nat> {
    match pc
    case RCollect(_, taken) => taken
    case RTake(_, taken, _) => taken
    case RSend(_, todo) => todo
    case RDrop(_, e, rest) => [e] + rest
    case RSignal(_, _, rest) => rest
    case _ => []
  }

  function Occurs(pc: ReceiverPc, e: nat): nat {
    if e in Pending(pc) then 1 else 0
  }

  // The references to e held by broadcast snapshots.
  function SnapshotHolds(rs: seq<ReceiverPc>, e: nat): nat {
    if rs == [] then 0 else SnapshotHolds(rs[..|rs| - 1], e) + Occurs(rs[|rs| - 1], e)
  }

  ghost function Holders(s: State, d: nat): nat
    requires Shaped(s) && d < |s.devs|
  {
    MainHolds(s.mains[d]) + SenderHolds(s.senders[d]) + ReceiverHolds(s.receivers[d])
    + RegistryHolds(s.devs[d], s.receivers[d]) + SnapshotHolds(s.receivers, d)
  }

  // ---------------------------------------------------------------- the invariant

  ghost predicate Counted(s: State, d: nat)
    requires Shaped(s) && d < |s.devs|
  {
    s.devs[d].refs == Holders(s, d)
  }

  // Nobody is left with a deleted device, except possibly a sender that has not yet run.
  ghost predicate Outlived(s: State, d: nat)
    requires Shaped(s) && d < |s.devs|
  {
    !s.devs[d].live ==>
      && Holders(s, d) == 0
      && s.mains[d].MDone? && s.receivers[d].RDone?
      && (s.senders[d].SStart? || s.senders[d].SDone?)
  }

  predicate BeforeRegistration(pc: ReceiverPc) {
    pc.RNone? || pc.RStart? || pc.RStamp? || pc.RRead? || pc.RVerified? || pc.RPromote?
    || pc.RRefresh? || pc.RLeave? || pc.RClose?
  }

  predicate AfterClose(pc: ReceiverPc) {
    pc.RWake? || pc.RRelease? || pc.RDone?
  }

  predicate OnlyBeforeRegistration(pc: ReceiverPc) {
    pc.RNone? || pc.RStart? || pc.RStamp? || pc.RPromote?
  }

  // The receiver alone moves the connection state, so its program counter determines it up to the
  // choice between Initial and Working at the head of its loop.
  predicate ReceiverFits(dev: Device, r: ReceiverPc) {
    && (dev.connection.Ended? <==> AfterClose(r))
    && (dev.connection.Initial? ==> BeforeRegistration(r))
    && (dev.connection.Working? ==> !OnlyBeforeRegistration(r) && dev.networkId == 0)
  }

  // How the three threads of one device and its connection state move together.
  predicate InPhase(dev: Device, m: MainPc, t: SenderPc, r: ReceiverPc) {
    && ((m.MStart? || m.MSpawnSender?) <==> t.SNone?)
    && ((m.MStart? || m.MSpawnSender? || m.MSpawnReceiver?) <==> r.RNone?)
    && ReceiverFits(dev, r)
    && (m.MRelease? || m.MDone? ==> dev.connection.Ended?)
    && (t.SRelease? || t.SDone? ==> dev.connection.Ended?)
  }

  ghost predicate Phased(s: State, d: nat)
    requires Shaped(s) && d < |s.devs|
  {
    InPhase(s.devs[d], s.mains[d], s.senders[d], s.receivers[d])
  }

  predicate NetworkZero(pc: ReceiverPc) {
    match pc
    case RVerified(m) => m.networkId == 0
    case RPromote(m) => m.networkId == 0
    case RRegAcquire(m) => m.networkId == 0
    case RInsert(m) => m.networkId == 0
    case RBroadcast(m) => m.networkId == 0
    case RCollect(m, _) => m.networkId == 0
    case RTake(m, _, _) => m.networkId == 0
    case RSend(m, _) => m.networkId == 0
    case RDrop(m, _, _) => m.networkId == 0
    case RSignal(m, _, _) => m.networkId == 0
    case _ => true
  }

  predicate NoRepeats(q: seq<nat>) {
    forall i, j :: 0 <= i < j < |q| ==> q[i] != q[j]
  }

  // The insertion into the registry has happened, now or earlier.
  predicate Enrolled(dev: Device, pc: ReceiverPc) {
    !dev.connection.Initial? && !pc.RRegAcquire? && !pc.RInsert?
  }

  ghost predicate HasBeenRegistered(s: State, e: nat)
    requires Shaped(s)
  {
    e < |s.devs| && Enrolled(s.devs[e], s.receivers[e])
  }

  ghost predicate IsRegistered(s: State, e: nat)
    requires Shaped(s)
  {
    e < |s.devs| && Registered(s.devs[e], s.receivers[e])
  }

  // A snapshot lists devices at most once, and while it is being taken they are all registered.
  ghost predicate Snapshot(s: State, r: nat)
    requires Shaped(s) && r < |s.devs|
  {
    var pc := s.receivers[r];
    && NetworkZero(pc)
    && NoRepeats(Pending(pc))
    && (forall e <- Pending(pc) :: HasBeenRegistered(s, e))
    && (pc.RCollect? || pc.RTake? ==> forall e <- Pending(pc) :: IsRegistered(s, e))
    && (pc.RTake? ==> IsRegistered(s, pc.next) && pc.next !in pc.taken)
  }

  // The registry is exactly the set of registered devices, each under its own slot.
  ghost predicate RegistryExact(s: State)
    requires Shaped(s)
  {
    && (forall k <- s.registry :: IsRegistered(s, s.registry[k]) && k == SlotOf(s.devs[s.registry[k]]))
    && (forall d: nat :: IsRegistered(s, d) ==> SlotOf(s.devs[d]) in s.registry && s.registry[SlotOf(s.devs[d])] == d)
  }

  // Descriptors: the live devices and the connections still to be handed over have distinct ones.
  ghost predicate Waiting(s: State, i: nat) {
    s.cursor <= i < |s.accepted|
  }

  ghost predicate Descriptors(s: State) {
    && (s.draining ==> s.cursor <= |s.accepted|)
    && (!s.draining ==> s.cursor == 0)
    && (forall fd <- s.openFds :: 0 <= fd < FD_LIMIT)
    && (forall d: nat :: Live(s, d) ==> s.devs[d].fd in s.openFds)
    && (forall d: nat, e: nat :: Live(s, d) && Live(s, e) && s.devs[d].fd == s.devs[e].fd ==> d == e)
    && (forall i: nat :: Waiting(s, i) ==> s.accepted[i] in s.openFds)
    && (forall i: nat, j: nat :: Waiting(s, i) && Waiting(s, j) && s.accepted[i] == s.accepted[j] ==> i == j)
    && (forall d: nat, i: nat :: Live(s, d) && Waiting(s, i) ==> s.devs[d].fd != s.accepted[i])
  }

  // Every mutex is owned by a thread that carries it or waits to use it.
  ghost predicate LockedRightly(s: State)
    requires Shaped(s)
  {
    && (forall l <- s.locks ::
          && IsThread(s, s.locks[l])
          && (Wants(s, s.locks[l]) == Need(l) || Keeps(s, s.locks[l]) == Need(l)))
    && (forall t :: IsThread(s, t) && Keeps(s, t).Need? ==> Holds(s, t, Keeps(s, t).l))
  }

  function Drained(pc: SenderPc): nat {
    if pc.SDrain? then pc.i else 0
  }

  // Conservation: appended entries are the handed ones followed by the buffered ones, and nobody
  // changes the buffer while it is being drained.
  predicate OutboxKept(dev: Device, pc: SenderPc) {
    && (pc.SDrain? ==> pc.n == |dev.outbox|)
    && Drained(pc) <= |dev.outbox|
    && dev.appended == dev.handed + dev.outbox[Drained(pc)..]
  }

  ghost predicate Conserved(s: State, d: nat)
    requires Shaped(s) && d < |s.devs|
  {
    OutboxKept(s.devs[d], s.senders[d])
  }

  // A device is deleted by a thread that owns its items mutex, and nobody takes that mutex again.
  ghost predicate Unlocked(s: State, d: nat)
    requires Shaped(s) && d < |s.devs|
  {
    !s.devs[d].live ==> Items(d) !in s.locks
  }

  ghost predicate Inv(s: State) {
    && Shaped(s)
    && (forall d :: 0 <= d < |s.devs| ==> Counted(s, d))
    && (forall d :: 0 <= d < |s.devs| ==> Outlived(s, d))
    && (forall d :: 0 <= d < |s.devs| ==> Phased(s, d))
    && (forall d :: 0 <= d < |s.devs| ==> Snapshot(s, d))
    && (forall d :: 0 <= d < |s.devs| ==> Conserved(s, d))
    && (forall d :: 0 <= d < |s.devs| ==> Unlocked(s, d))
    && RegistryExact(s)
    && Descriptors(s)
    && LockedRightly(s)
  }
}

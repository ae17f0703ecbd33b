/**
 The relay server as an interleaved state machine.

 Every accepted connection is a device with three threads: the main handler, the sender and the
 receiver (server/device.cpp).  A state holds the shared memory of every device ever created, the
 program counter and locals of every thread, the registry of server/network.cpp, the owner of every
 mutex, and the descriptors passed from accept() to main().  An action is one atomic step of one
 thread: either it takes the mutex it is waiting for, or it performs the body of a critical section
 and unlocks.
 */
module RelayState {

  import opened Bytes

  // File descriptors are non-negative C ints.
  const FD_LIMIT := 0x8000_0000

  type Frame = seq<byte>

  // A message that passed the checks of handle_recvd_message.
  datatype Message = Message(networkId: nat, frame: Frame, isPing: bool)

  // What an outgoing buffer holds: a ping of the server itself or a message of device `source`.
  datatype Entry = ServerPing | Forwarded(source: nat, frame: Frame)

  datatype Connection = Initial | Working | Ended

  // struct DeviceData.  The last three fields are history: all entries ever put into the outgoing
  // buffer, all entries handed to send_message, and the non-ping messages verified for this device.
  datatype Device = Device(
    fd: int,
    networkId: nat,
    connection: Connection,
    refs: uint32,
    live: bool,
    outbox: seq<Entry>,
    appended: seq<Entry>,
    handed: seq<Entry>,
    heard: seq<Frame>)

  // handle_device
  datatype MainPc = MStart | MSpawnSender | MSpawnReceiver | MPing | MPoll | MRelease | MDone

  // handle_device_sender; SDrain(i, n) is about to send element i of the n
  // elements the buffer had when its loop began
  datatype SenderPc = SNone | SStart | SLock | SWaiting | SDrain(i: nat, n: nat) | SPoll | SRelease | SDone

  // handle_device_receiver with handle_recvd_message, add_device_to_network,
  // remove_device_from_network and broadcast_to_network inlined
  datatype ReceiverPc =
    | RNone
    | RStart
    | RStamp
    | RRead
    | RVerified(m: Message)
    | RPromote(m: Message)
    | RRegAcquire(m: Message)
    | RInsert(m: Message)
    | RBroadcast(m: Message)
    | RCollect(m: Message, taken: seq<nat>)
    | RTake(m: Message, taken: seq<nat>, next: nat)
    | RSend(m: Message, todo: seq<nat>)
    | RDrop(m: Message, e: nat, rest: seq<nat>)
    | RSignal(m: Message, e: nat, rest: seq<nat>)
    | RRefresh
    | RLeave
    | RErase
    | RRegRelease
    | RClose
    | RWake
    | RRelease
    | RDone

  datatype Thread = Main(d: nat) | Sender(d: nat) | Receiver(d: nat)

  // network_devices_mutex, itmes_mutex of a device, new_message_mutex of a device
  datatype Lock = Registry | Items(d: nat) | Outbox(d: nat)

  datatype MaybeLock = NoLock | Need(l: Lock)

  // Two pointers are equal for the unordered_set of a network when their descriptors are equal.
  datatype Slot = Slot(networkId: nat, fd: int)

  datatype State = State(
    devs: seq<Device>,
    mains: seq<MainPc>,
    senders: seq<SenderPc>,
    receivers: seq<ReceiverPc>,
    registry: map<Slot, nat>,
    locks: map<Lock, Thread>,
    openFds: set<int>,
    accepted: seq<int>,
    cursor: nat,
    draining: bool)

  datatype Action =
    | Accept(fd: int)
    | BeginHandOff
    | HandOver
    | EndHandOff
    | TakeLock(t: Thread)
    | Advance(t: Thread)
    | Hear(r: nat, m: Message)
    | Refuse(r: nat)
    | HangUp(r: nat)
    | Pick(r: nat, e: nat)

  const INITIAL := State([], [], [], [], map[], map[], {}, [], 0, false)

  predicate Shaped(s: State) {
    |s.mains| == |s.devs| && |s.senders| == |s.devs| && |s.receivers| == |s.devs|
  }

  predicate IsThread(s: State, t: Thread) {
    t.d < |s.devs|
  }

  // ---------------------------------------------------------------- mutexes

  // The mutex the next step of a thread needs and does not hold from before.
  ghost function Wants(s: State, t: Thread): MaybeLock
    requires Shaped(s) && IsThread(s, t)
  {
    match t
    case Main(d) => MainWants(s.mains[d], d)
    case Sender(d) => SenderWants(s.senders[d], d)
    case Receiver(d) => ReceiverWants(s.receivers[d], d)
  }

  ghost function MainWants(pc: MainPc, d: nat): MaybeLock {
    match pc
    case MStart => Need(Items(d))
    case MPing => Need(Outbox(d))
    case MPoll => Need(Items(d))
    case MRelease => Need(Items(d))
    case _ => NoLock
  }

  ghost function SenderWants(pc: SenderPc, d: nat): MaybeLock {
    match pc
    case SStart => Need(Items(d))
    case SLock => Need(Outbox(d))
    case SWaiting => Need(Outbox(d))
    case SPoll => Need(Items(d))
    case SRelease => Need(Items(d))
    case _ => NoLock
  }

  ghost function ReceiverWants(pc: ReceiverPc, d: nat): MaybeLock {
    match pc
    case RInsert(_) => Need(Registry)
    case RBroadcast(_) => Need(Registry)
    case RErase => Need(Registry)
    case RTake(_, _, e) => Need(Items(e))
    case RSend(_, todo) => if todo == [] then NoLock else Need(Outbox(todo[0]))
    case RDrop(_, e, _) => Need(Items(e))
    case RWake => Need(Outbox(d))
    case RNone => NoLock
    case RRead => NoLock
    case RCollect(_, _) => NoLock
    case RSignal(_, _, _) => NoLock
    case RDone => NoLock
    case _ => Need(Items(d))
  }

  // The mutex a thread carries from one step to the next.
  ghost function Keeps(s: State, t: Thread): MaybeLock
    requires Shaped(s) && IsThread(s, t)
  {
    match t
    case Main(d) => NoLock
    case Sender(d) => if s.senders[d].SDrain? then Need(Outbox(d)) else NoLock
    case Receiver(d) => ReceiverKeeps(s.receivers[d])
  }

  ghost function ReceiverKeeps(pc: ReceiverPc): MaybeLock {
    match pc
    case RCollect(_, _) => Need(Registry)
    case RTake(_, _, _) => Need(Registry)
    case RDrop(_, e, _) => Need(Outbox(e))
    case RSignal(_, e, _) => Need(Outbox(e))
    case _ => NoLock
  }

  ghost predicate Holds(s: State, t: Thread, l: Lock) {
    l in s.locks && s.locks[l] == t
  }

  ghost predicate HasWanted(s: State, t: Thread)
    requires Shaped(s) && IsThread(s, t)
  {
    Wants(s, t).Need? ==> Holds(s, t, Wants(s, t).l)
  }

  // ---------------------------------------------------------------- thread programs

  // What one step does to shared memory; devices not named are those of the stepping thread.
  datatype Effect =
    | Nothing
    | Acquire(e: nat)
    | Release(e: nat)
    | Post(e: nat, entry: Entry)
    | Promote(networkId: nat)
    | Insert
    | Erase
    | Close
    | StartSender
    | StartReceiver
    | Hand(i: nat)
    | Clear
    | Log(m: Message)

  // One step of a thread: an effect, at most one unlock, and the next program counter.
  datatype Move<Pc> = Move(effect: Effect, unlock: MaybeLock, next: Pc)

  // handle_device
  function MainMove(pc: MainPc, dev: Device, d: nat): Move<MainPc> {
    match pc
    case MStart => Move(Acquire(d), Need(Items(d)), MSpawnSender)
    case MSpawnSender => Move(StartSender, NoLock, MSpawnReceiver)
    case MSpawnReceiver => Move(StartReceiver, NoLock, MPing)
    case MPing => Move(Post(d, ServerPing), Need(Outbox(d)), MPoll)
    case MPoll => Move(Nothing, Need(Items(d)), if dev.connection.Ended? then MRelease else MPing)
    case MRelease => Move(Release(d), Need(Items(d)), MDone)
    case MDone => Move(Nothing, NoLock, MDone)
  }

  // handle_device_sender; pthread_cond_wait unlocks, and may return at any time with the mutex locked
  function SenderMove(pc: SenderPc, dev: Device, d: nat): Move<SenderPc> {
    match pc
    case SNone => Move(Nothing, NoLock, SNone)
    case SStart => Move(Acquire(d), Need(Items(d)), SLock)
    case SLock => Move(Nothing, Need(Outbox(d)), SWaiting)
    case SWaiting => Move(Nothing, NoLock, SDrain(0, |dev.outbox|))
    case SDrain(i, n) =>
      if i < n then Move(Hand(i), NoLock, SDrain(i + 1, n)) else Move(Clear, Need(Outbox(d)), SPoll)
    case SPoll => Move(Nothing, Need(Items(d)), if dev.connection.Ended? then SRelease else SLock)
    case SRelease => Move(Release(d), Need(Items(d)), SDone)
    case SDone => Move(Nothing, NoLock, SDone)
  }

  // After the registration step a ping goes back to the loop and anything else is broadcast.
  function Classify(m: Message): ReceiverPc {
    if m.isPing then RRefresh else RBroadcast(m)
  }

  // handle_device_receiver
  function ReceiverMove(pc: ReceiverPc, dev: Device, d: nat): Move<ReceiverPc> {
    match pc
    case RStart => Move(Acquire(d), Need(Items(d)), RStamp)
    case RStamp => Move(Nothing, Need(Items(d)), RRead)
    case RRefresh => Move(Nothing, Need(Items(d)), RRead)
    case RLeave => Move(Nothing, Need(Items(d)), if dev.connection.Working? then RErase else RClose)
    case RErase => Move(Erase, Need(Registry), RRegRelease)
    case RRegRelease => Move(Release(d), Need(Items(d)), RClose)
    case RClose => Move(Close, Need(Items(d)), RWake)
    case RWake => Move(Nothing, Need(Outbox(d)), RRelease)
    case RRelease => Move(Release(d), Need(Items(d)), RDone)
    case _ => HandlerMove(pc, dev, d)
  }

  // handle_recvd_message, once the message is verified
  function HandlerMove(pc: ReceiverPc, dev: Device, d: nat): Move<ReceiverPc> {
    match pc
    case RVerified(m) => Move(Nothing, Need(Items(d)), if dev.connection.Initial? then RPromote(m) else Classify(m))
    case RPromote(m) => Move(Promote(m.networkId), Need(Items(d)), RRegAcquire(m))
    case RRegAcquire(m) => Move(Acquire(d), Need(Items(d)), RInsert(m))
    case RInsert(m) => Move(Insert, Need(Registry), Classify(m))
    case _ => BroadcastMove(pc, d)
  }

  // broadcast_to_network: snapshot under the registry mutex, then one append and one release per device
  function BroadcastMove(pc: ReceiverPc, d: nat): Move<ReceiverPc> {
    match pc
    case RBroadcast(m) => Move(Nothing, NoLock, RCollect(m, []))
    case RCollect(m, taken) => Move(Nothing, Need(Registry), RSend(m, taken))
    case RTake(m, taken, e) => Move(Acquire(e), Need(Items(e)), RCollect(m, taken + [e]))
    case RSend(m, todo) =>
      if todo == [] then Move(Nothing, NoLock, RRefresh)
      else Move(Post(todo[0], Forwarded(d, m.frame)), NoLock, RDrop(m, todo[0], todo[1..]))
    case RDrop(m, e, rest) => Move(Release(e), Need(Items(e)), RSignal(m, e, rest))
    case RSignal(m, e, rest) => Move(Nothing, Need(Outbox(e)), RSend(m, rest))
    case _ => Move(Nothing, NoLock, pc)
  }

  // ---------------------------------------------------------------- effects on shared memory

  function SlotOf(dev: Device): Slot {
    Slot(dev.networkId, dev.fd)
  }

  // release() of server/memory.cpp: at zero the device is deleted.
  function Released(dev: Device): Device {
    var left := Decrement(dev.refs);
    dev.(refs := left, live := dev.live && left != 0)
  }

  function Posted(dev: Device, entry: Entry): Device {
    dev.(outbox := dev.outbox + [entry], appended := dev.appended + [entry])
  }

  // The device a step writes to, and its contents afterwards.
  function Target(effect: Effect, d: nat): nat {
    match effect
    case Acquire(e) => e
    case Release(e) => e
    case Post(e, _) => e
    case _ => d
  }

  function Written(dev: Device, effect: Effect): Device {
    match effect
    case Acquire(_) => dev.(refs := Increment(dev.refs))
    case Release(_) => Released(dev)
    case Post(_, entry) => Posted(dev, entry)
    case Promote(networkId) => dev.(networkId := networkId, connection := Working)
    case Close => dev.(connection := Ended)
    case Hand(i) => if i < |dev.outbox| then dev.(handed := dev.handed + [dev.outbox[i]]) else dev
    case Clear => dev.(outbox := [])
    case Log(m) => if m.isPing then dev else dev.(heard := dev.heard + [m.frame])
    case _ => dev
  }

  // server/network.cpp: unordered_set::insert leaves the set unchanged when an equal element is
  // present, and erase removes whichever element is equal.
  function RegistryAfter(registry: map<Slot, nat>, dev: Device, effect: Effect, d: nat): map<Slot, nat> {
    match effect
    case Insert => if SlotOf(dev) in registry then registry else registry[SlotOf(dev) := d]
    case Erase => registry - {SlotOf(dev)}
    case _ => registry
  }

  // release() closes the descriptor when the count reaches zero.
  function FdsAfter(openFds: set<int>, dev: Device, effect: Effect): set<int> {
    if effect.Release? && Decrement(dev.refs) == 0 then openFds - {dev.fd} else openFds
  }

  function LocksAfter(locks: map<Lock, Thread>, unlock: MaybeLock): map<Lock, Thread> {
    if unlock.Need? then locks - {unlock.l} else locks
  }

  // The shared state after a step of a thread of device d, program counters left aside.
  function Perform(s: State, d: nat, effect: Effect, unlock: MaybeLock): State
    requires d < |s.devs| && Target(effect, d) < |s.devs|
  {
    var e := Target(effect, d);
    s.(devs := s.devs[e := Written(s.devs[e], effect)],
       registry := RegistryAfter(s.registry, s.devs[d], effect, d),
       openFds := FdsAfter(s.openFds, s.devs[e], effect),
       locks := LocksAfter(s.locks, unlock))
  }

  function Spawned<Pc>(pcs: seq<Pc>, d: nat, starts: bool, first: Pc): seq<Pc>
    requires d < |pcs|
  {
    if starts then pcs[d := first] else pcs
  }

  // ---------------------------------------------------------------- the machine

  ghost predicate IsMember(s: State, networkId: nat, e: nat) {
    exists k :: k in s.registry && k.networkId == networkId && s.registry[k] == e
  }

  ghost predicate AllTaken(s: State, networkId: nat, taken: seq<nat>) {
    forall k :: k in s.registry && k.networkId == networkId ==> s.registry[k] in taken
  }

  // A thread that has not been created, has exited or waits for input performs no step of its own.
  ghost predicate Runnable(s: State, t: Thread)
    requires Shaped(s) && IsThread(s, t)
  {
    match t
    case Main(d) => !s.mains[d].MDone?
    case Sender(d) => !s.senders[d].SNone? && !s.senders[d].SDone?
    case Receiver(d) =>
      && !s.receivers[d].RNone? && !s.receivers[d].RDone? && !s.receivers[d].RRead?
      && (s.receivers[d].RCollect? ==> AllTaken(s, s.receivers[d].m.networkId, s.receivers[d].taken))
  }

  ghost predicate Enabled(s: State, a: Action)
    requires Shaped(s)
  {
    match a
    case Accept(fd) => 0 <= fd < FD_LIMIT && fd !in s.openFds && !s.draining
    case BeginHandOff => s.accepted != [] && !s.draining
    case HandOver => s.draining && s.cursor < |s.accepted|
    case EndHandOff => s.draining && s.cursor >= |s.accepted|
    case TakeLock(t) => IsThread(s, t) && Wants(s, t).Need? && Wants(s, t).l !in s.locks
    case Advance(t) => IsThread(s, t) && Runnable(s, t) && HasWanted(s, t)
    case Hear(r, m) => r < |s.devs| && s.receivers[r].RRead? && m.networkId == 0
    case Refuse(r) => r < |s.devs| && s.receivers[r].RRead?
    case HangUp(r) => r < |s.devs| && s.receivers[r].RRead?
    case Pick(r, e) =>
      && r < |s.devs| && s.receivers[r].RCollect?
      && IsMember(s, s.receivers[r].m.networkId, e) && e !in s.receivers[r].taken
  }

  function Create(s: State, fd: int): State {
    s.(devs := s.devs + [Device(fd, 0, Initial, 0, true, [], [], [], [])],
       mains := s.mains + [MStart], senders := s.senders + [SNone], receivers := s.receivers + [RNone])
  }

  // A thread of device d performs a move.
  function StepMain(s: State, d: nat, move: Move<MainPc>): State
    requires Shaped(s) && d < |s.devs| && Target(move.effect, d) < |s.devs|
  {
    Perform(s, d, move.effect, move.unlock).(
      mains := s.mains[d := move.next],
      senders := Spawned(s.senders, d, move.effect.StartSender?, SStart),
      receivers := Spawned(s.receivers, d, move.effect.StartReceiver?, RStart))
  }

  function StepSender(s: State, d: nat, move: Move<SenderPc>): State
    requires Shaped(s) && d < |s.devs| && Target(move.effect, d) < |s.devs|
  {
    Perform(s, d, move.effect, move.unlock).(senders := s.senders[d := move.next])
  }

  function StepReceiver(s: State, d: nat, move: Move<ReceiverPc>): State
    requires Shaped(s) && d < |s.devs| && Target(move.effect, d) < |s.devs|
  {
    Perform(s, d, move.effect, move.unlock).(receivers := s.receivers[d := move.next])
  }

  function AdvanceMain(s: State, d: nat): State
    requires Shaped(s) && d < |s.devs|
  {
    StepMain(s, d, MainMove(s.mains[d], s.devs[d], d))
  }

  function AdvanceSender(s: State, d: nat): State
    requires Shaped(s) && d < |s.devs|
  {
    StepSender(s, d, SenderMove(s.senders[d], s.devs[d], d))
  }

  // Pointers in a snapshot always denote existing devices.
  function AdvanceReceiver(s: State, d: nat): State
    requires Shaped(s) && d < |s.devs|
  {
    var move := ReceiverMove(s.receivers[d], s.devs[d], d);
    if Target(move.effect, d) < |s.devs| then StepReceiver(s, d, move) else s
  }

  ghost function Apply(s: State, a: Action): (s': State)
    requires Shaped(s) && Enabled(s, a)
    ensures Shaped(s')
  {
    match a
    case Accept(fd) => s.(openFds := s.openFds + {fd}, accepted := [fd] + s.accepted)
    case BeginHandOff => s.(draining := true, cursor := 0)
    case HandOver => Create(s, s.accepted[s.cursor]).(cursor := s.cursor + 1)
    case EndHandOff => s.(draining := false, cursor := 0, accepted := [])
    case TakeLock(t) => s.(locks := s.locks[Wants(s, t).l := t])
    case Advance(Main(d)) => AdvanceMain(s, d)
    case Advance(Sender(d)) => AdvanceSender(s, d)
    case Advance(Receiver(d)) => AdvanceReceiver(s, d)
    case Hear(r, m) => StepReceiver(s, r, Move(Log(m), NoLock, RVerified(m)))
    case Refuse(r) => StepReceiver(s, r, Move(Nothing, NoLock, RRefresh))
    case HangUp(r) => StepReceiver(s, r, Move(Nothing, NoLock, RLeave))
    case Pick(r, e) =>
      var pc := s.receivers[r];
      StepReceiver(s, r, Move(Nothing, NoLock, RTake(pc.m, pc.taken, e)))
  }

  // The registered devices: hashing and comparing the elements of a set reads their descriptors.
  function Members(s: State): set<nat> {
    set k | k in s.registry :: s.registry[k]
  }

  // The devices whose memory the next step of a thread reads or writes.  The signal and the unlock
  // that follow a broadcaster's release are not part of this.
  ghost function Touched(s: State, t: Thread): set<nat>
    requires Shaped(s) && IsThread(s, t)
  {
    match t
    case Main(d) => if s.mains[d].MDone? then {} else {d}
    case Sender(d) => if s.senders[d].SNone? || s.senders[d].SDone? then {} else {d}
    case Receiver(d) =>
      match s.receivers[d]
      case RNone => {}
      case RDone => {}
      case RInsert(_) => {d} + Members(s)
      case RErase => {d} + Members(s)
      case RCollect(_, _) => {d} + Members(s)
      case RTake(_, _, e) => {d, e}
      case RSend(_, todo) => if todo == [] then {d} else {d, todo[0]}
      case RDrop(_, e, _) => {d, e}
      case _ => {d}
  }

  ghost predicate Live(s: State, d: nat) {
    d < |s.devs| && s.devs[d].live
  }

  ghost predicate TouchesDead(s: State, t: Thread)
    requires Shaped(s)
  {
    IsThread(s, t) && exists e <- Touched(s, t) :: !Live(s, e)
  }

  // An action whose thread would use the memory of a deleted device: undefined behaviour in C++.
  ghost predicate Faulty(s: State, a: Action)
    requires Shaped(s)
  {
    match a
    case TakeLock(t) => TouchesDead(s, t)
    case Advance(t) => TouchesDead(s, t)
    case Hear(r, _) => TouchesDead(s, Receiver(r))
    case Refuse(r) => TouchesDead(s, Receiver(r))
    case HangUp(r) => TouchesDead(s, Receiver(r))
    case Pick(r, _) => TouchesDead(s, Receiver(r))
    case _ => false
  }

  // A defined step of the program.
  ghost predicate Step(s: State, a: Action, s': State) {
    Shaped(s) && Enabled(s, a) && !Faulty(s, a) && s' == Apply(s, a)
  }

  // A finite run: every state follows from the one before by a defined step.
  datatype Run = Start | Then(before: Run, a: Action, s: State)

  function Last(run: Run): State {
    if run.Start? then INITIAL else run.s
  }

  ghost predicate IsRun(run: Run)
    ensures IsRun(run) ==> Shaped(Last(run))
  {
    run.Then? ==> IsRun(run.before) && Step(Last(run.before), run.a, run.s)
  }
}

/** What the threads of the relay do again and again: pings, wake-ups, registrations, and nothing leaks. */
module RelayRounds {
  import opened RelayState
  import opened RelayInvariant
  import opened RelaySteps
  import opened RelayCounting
  import opened RelayInduction
  import opened RelaySafety
  import opened RelayLifecycle

  // ---------------------------------------------------------------- the main handler pings

  function Pings(log: seq<Entry>): nat {
    if log == [] then 0 else Pings(log[..|log| - 1]) + if log[|log| - 1].ServerPing? then 1 else 0
  }

  lemma PingsSnoc(log: seq<Entry>, entry: Entry)
    ensures Pings(log + [entry]) == Pings(log) + if entry.ServerPing? then 1 else 0
  {
    assert (log + [entry])[..|log|] == log;
  }

  predicate MainAt(s: State, d: nat, pc: MainPc) {
    d < |s.mains| && s.mains[d] == pc
  }

  predicate Alive(s: State, d: nat) {
    d < |s.devs| && !s.devs[d].connection.Ended?
  }

  // How often the main handler of d has come to its ping, and how often its poll has found the
  // connection not ended.
  function Rounds(run: Run, d: nat): nat {
    match run
    case Start => 0
    case Then(before, a, _) => Rounds(before, d) + if a == Advance(Main(d)) && MainAt(Last(before), d, MPing) then 1 else 0
  }

  function Polls(run: Run, d: nat): nat {
    match run
    case Start => 0
    case Then(before, a, _) =>
      Polls(before, d) + if a == Advance(Main(d)) && MainAt(Last(before), d, MPoll) && Alive(Last(before), d) then 1 else 0
  }

  lemma PingsStep(s: State, a: Action, s': State, d: nat)
    requires Inv(s) && Step(s, a, s') && d < |s'.devs|
    ensures d >= |s.devs| ==> s'.devs[d].appended == []
    ensures d < |s.devs| ==>
              Pings(s'.devs[d].appended) == Pings(s.devs[d].appended) + if a == Advance(Main(d)) && MainAt(s, d, MPing) then 1 else 0
  {
    StepPerforms(s, a, s');
    hide Inv, Faulty, Apply, Runnable, HasWanted;
    var deed := DeedOf(s, a);
    if deed.Deed? && d < |s.devs| {
      OnlyMainPosts(s, a, d);
      PingsAfter(s, s', deed.d, deed.effect, deed.unlock, d);
    }
  }

  lemma OnlyMainPosts(s: State, a: Action, d: nat)
    requires Shaped(s) && Enabled(s, a) && DeedOf(s, a).Deed?
    ensures DeedOf(s, a).effect == Post(d, ServerPing) <==> a == Advance(Main(d)) && MainAt(s, d, MPing)
  {
    hide Runnable, HasWanted;
  }

  lemma PingsAfter(s: State, s': State, d: nat, effect: Effect, unlock: MaybeLock, e: nat)
    requires Performed(s, s', d, effect, unlock) && e < |s.devs|
    ensures Pings(s'.devs[e].appended) == Pings(s.devs[e].appended) + if effect == Post(e, ServerPing) then 1 else 0
  {
    if effect.Post? && effect.e == e {
      PingsSnoc(s.devs[e].appended, effect.entry);
    }
  }

  lemma NoRoundBefore(s: State, a: Action, s': State, d: nat)
    requires Inv(s) && Step(s, a, s')
    ensures |s.devs| <= |s'.devs|
    ensures d >= |s.devs| ==> !(a == Advance(Main(d)))
    ensures |s.devs| <= d < |s'.devs| ==> s'.mains[d] == MStart && s'.senders[d] == SNone
  {
    StepPerforms(s, a, s');
  }

  lemma {:induction false} NothingBefore(run: Run, d: nat)
    requires IsRun(run) && d >= |Last(run).devs|
    ensures Rounds(run, d) == 0 && Polls(run, d) == 0 && Waits(run, d) == 0 && SenderPolls(run, d) == 0
  {
    hide Inv, Step;
    if run.Then? {
      RunKeepsInv(run.before);
      NoRoundBefore(Last(run.before), run.a, run.s, d);
      NothingBefore(run.before, d);
      ShapedRun(run.before);
    }
  }

  lemma ShapedRun(run: Run)
    requires IsRun(run)
    ensures Shaped(Last(run))
  {
  }

  // Every round of the main handler appends one ping, and nothing else does.
  lemma {:induction false} PingsAreRounds(run: Run, d: nat)
    requires IsRun(run) && d < |Last(run).devs|
    ensures Pings(Last(run).devs[d].appended) == Rounds(run, d)
  {
    hide Inv, Step;
    if run.Then? {
      RunKeepsInv(run.before);
      PingsStep(Last(run.before), run.a, run.s, d);
      if d < |Last(run.before).devs| {
        PingsAreRounds(run.before, d);
      } else {
        NothingBefore(run.before, d);
        ShapedRun(run.before);
      }
    }
  }

  // There is a first ping, and one more after every poll that finds the connection not ended; the main
  // handler leaves its loop after a poll that finds it ended.
  predicate MainInRound(pc: MainPc, rounds: nat, polls: nat) {
    match pc
    case MStart => rounds == polls == 0
    case MSpawnSender => rounds == polls == 0
    case MSpawnReceiver => rounds == polls == 0
    case MPing => rounds == polls
    case MPoll => rounds == polls + 1
    case MRelease => rounds == polls + 1
    case MDone => rounds == polls + 1
  }

  lemma MainStep(s: State, a: Action, s': State, d: nat)
    requires Inv(s) && Step(s, a, s') && d < |s.devs|
    ensures d < |s'.devs|
    ensures a != Advance(Main(d)) ==> s'.mains[d] == s.mains[d]
    ensures a == Advance(Main(d)) ==> s'.mains[d] == MainMove(s.mains[d], s.devs[d], d).next && s.mains[d] != MDone
  {
    StepPerforms(s, a, s');
    hide Inv, Faulty, ReceiverMove, SenderMove, MainMove;
  }

  lemma {:induction false} MainGoesRound(run: Run, d: nat)
    requires IsRun(run) && d < |Last(run).mains|
    ensures MainInRound(Last(run).mains[d], Rounds(run, d), Polls(run, d))
  {
    hide Inv, Step;
    ShapedRun(run);
    if run.Then? {
      var s := Last(run.before);
      RunKeepsInv(run.before);
      ShapedRun(run.before);
      if d < |s.devs| {
        MainGoesRound(run.before, d);
        MainStep(s, run.a, run.s, d);
      } else {
        NoRoundBefore(s, run.a, run.s, d);
        NothingBefore(run.before, d);
      }
    }
  }

  // ---------------------------------------------------------------- the sender hands over

  predicate SenderAt(s: State, d: nat, pc: SenderPc) {
    d < |s.senders| && s.senders[d] == pc
  }

  // How often the sender of d has gone to wait, and how often its poll has found the connection not ended.
  function Waits(run: Run, d: nat): nat {
    match run
    case Start => 0
    case Then(before, a, _) => Waits(before, d) + if a == Advance(Sender(d)) && SenderAt(Last(before), d, SLock) then 1 else 0
  }

  function SenderPolls(run: Run, d: nat): nat {
    match run
    case Start => 0
    case Then(before, a, _) =>
      SenderPolls(before, d) + if a == Advance(Sender(d)) && SenderAt(Last(before), d, SPoll) && Alive(Last(before), d) then 1 else 0
  }

  // It waits a first time and once more after every poll that finds the connection not ended.
  predicate SenderInRound(pc: SenderPc, waits: nat, polls: nat) {
    match pc
    case SNone => waits == polls == 0
    case SStart => waits == polls == 0
    case SLock => waits == polls
    case _ => waits == polls + 1
  }

  lemma SenderStep(s: State, a: Action, s': State, d: nat)
    requires Inv(s) && Step(s, a, s') && d < |s.devs|
    ensures d < |s'.devs|
    ensures a == Advance(Sender(d)) ==> s'.senders[d] == SenderMove(s.senders[d], s.devs[d], d).next && !s.senders[d].SNone? && !s.senders[d].SDone?
    ensures a != Advance(Sender(d)) ==> s'.senders[d] == s.senders[d] || (s.senders[d].SNone? && s'.senders[d].SStart?)
  {
    StepPerforms(s, a, s');
    assert Phased(s, d);
    hide Inv, Faulty, ReceiverMove, SenderMove;
  }

  lemma {:induction false} SenderGoesRound(run: Run, d: nat)
    requires IsRun(run) && d < |Last(run).senders|
    ensures SenderInRound(Last(run).senders[d], Waits(run, d), SenderPolls(run, d))
  {
    hide Inv, Step;
    ShapedRun(run);
    if run.Then? {
      var s := Last(run.before);
      RunKeepsInv(run.before);
      ShapedRun(run.before);
      if d < |s.devs| {
        SenderGoesRound(run.before, d);
        SenderStep(s, run.a, run.s, d);
      } else {
        NoRoundBefore(s, run.a, run.s, d);
        NothingBefore(run.before, d);
      }
    }
  }

  // The run ends with the return of the sender of d from its wait.
  predicate Wakes(run: Run, d: nat) {
    run.Then? && run.a == Advance(Sender(d)) && SenderAt(Last(run.before), d, SWaiting)
  }

  // Logs only grow.
  lemma StepGrows(s: State, a: Action, s': State, d: nat)
    requires Inv(s) && Step(s, a, s') && d < |s.devs|
    ensures d < |s'.devs| && s.devs[d].appended <= s'.devs[d].appended && s.devs[d].handed <= s'.devs[d].handed
  {
    StepPerforms(s, a, s');
    hide Inv, Faulty, Apply, DeedOf;
  }

  // Leaving the drain, the sender has handed over everything.
  lemma DrainEnds(s: State, a: Action, s': State, d: nat)
    requires Inv(s) && Step(s, a, s') && d < |s.devs| && s.senders[d].SDrain? && d < |s'.senders| && !s'.senders[d].SDrain?
    ensures s.devs[d].appended == s.devs[d].handed
  {
    assert Conserved(s, d);
    SenderStep(s, a, s', d);
    hide Inv, Step;
  }

  // Whatever is in the buffer when the sender wakes up has been handed over when it next leaves its loop
  // over the buffer.
  lemma {:induction false} WokenHandsOver(run: Run, later: Run, d: nat)
    requires IsRun(run) && IsRun(later) && Extends(run, later) && Wakes(run, d) && d < |Last(run).devs|
    ensures d < |Last(later).devs| && d < |Last(later).senders|
    ensures Last(run).devs[d].appended <= Last(later).devs[d].appended
    ensures Last(later).senders[d].SDrain? || Last(run).devs[d].appended <= Last(later).devs[d].handed
  {
    hide Inv, Step;
    ShapedRun(later);
    if run == later {
      RunKeepsInv(run.before);
      WakeDrains(Last(run.before), run.a, run.s, d);
    } else {
      RunKeepsInv(later.before);
      WokenHandsOver(run, later.before, d);
      StepGrows(Last(later.before), later.a, later.s, d);
      if Last(later.before).senders[d].SDrain? && !later.s.senders[d].SDrain? {
        DrainEnds(Last(later.before), later.a, later.s, d);
      } else if !Last(later.before).senders[d].SDrain? {
        assert Last(run).devs[d].appended <= Last(later.before).devs[d].handed <= later.s.devs[d].handed;
      }
    }
  }

  lemma WakeDrains(s: State, a: Action, s': State, d: nat)
    requires Inv(s) && Step(s, a, s') && d < |s'.devs| && a == Advance(Sender(d)) && SenderAt(s, d, SWaiting)
    ensures d < |s'.senders| && s'.senders[d].SDrain?
  {
    SenderStep(s, a, s', d);
    hide Inv, Step;
  }

  // ---------------------------------------------------------------- a verified message registers

  predicate HasHeard(run: Run, r: nat) {
    run.Then? && (HasHeard(run.before, r) || (run.a.Hear? && run.a.r == r))
  }

  // Between the verdict and the insertion into the registry.
  predicate Registering(pc: ReceiverPc) {
    pc.RVerified? || pc.RPromote? || pc.RRegAcquire? || pc.RInsert?
  }

  lemma RegisteringStep(s: State, a: Action, s': State, r: nat)
    requires Inv(s) && Step(s, a, s') && r < |s.devs| && (HasBeenRegistered(s, r) || Registering(s.receivers[r]))
    ensures r < |s'.devs| && r < |s'.receivers| && (HasBeenRegistered(s', r) || Registering(s'.receivers[r]))
  {
    assert Phased(s, r);
    StepProgresses(s, a, s', r);
    if !HasBeenRegistered(s, r) {
      StepPerforms(s, a, s');
      hide Inv, Faulty, MainMove, SenderMove;
    }
  }

  lemma HearingStep(s: State, a: Action, s': State)
    requires Inv(s) && Step(s, a, s') && a.Hear?
    ensures a.r < |s'.receivers| && s'.receivers[a.r].RVerified? && a.r < |s'.devs|
  {
    StepPerforms(s, a, s');
  }

  // A device whose message has been verified is registered before it reads the next one.
  lemma {:induction false} HeardIsRegistered(run: Run, r: nat)
    requires IsRun(run) && HasHeard(run, r)
    ensures r < |Last(run).devs| && r < |Last(run).receivers|
    ensures HasBeenRegistered(Last(run), r) || Registering(Last(run).receivers[r])
  {
    hide Inv, Step, HasBeenRegistered, Registering;
    RunKeepsInv(run.before);
    if run.a.Hear? && run.a.r == r {
      HearingStep(Last(run.before), run.a, run.s);
      RegisteringNow(run.s.receivers[r]);
    } else {
      HeardIsRegistered(run.before, r);
      RegisteringStep(Last(run.before), run.a, run.s, r);
    }
  }

  lemma RegisteringNow(pc: ReceiverPc)
    requires pc.RVerified?
    ensures Registering(pc)
  {
  }

  // ---------------------------------------------------------------- nothing leaks

  // From the first acquire on a device lives exactly as long as somebody holds it.
  ghost predicate Kept(s: State, d: nat)
    requires Shaped(s) && d < |s.devs|
  {
    if s.mains[d].MStart? then s.devs[d].live else s.devs[d].live <==> s.devs[d].refs != 0
  }

  lemma KeptByStep(s: State, s': State, d: nat, effect: Effect, unlock: MaybeLock, e: nat)
    requires Performed(s, s', d, effect, unlock) && e < |s.devs| && Kept(s, e) && Live(s, Target(effect, d))
    requires effect.Acquire? ==> s.devs[effect.e].refs < 0xFFFF_FFFF
    requires effect.Release? ==> s.devs[effect.e].refs > 0 && !s.mains[effect.e].MStart?
    requires s'.mains[e].MStart? ==> s.mains[e].MStart? && !(effect.Acquire? && effect.e == e)
    requires s.mains[e].MStart? && !s'.mains[e].MStart? ==> effect == Acquire(e)
    ensures Kept(s', e)
  {
  }

  // Until its main handler has run, nobody else acquires or releases a device.
  lemma StartsAlone(s: State, a: Action, e: nat)
    requires Inv(s) && Enabled(s, a) && DeedOf(s, a).Deed? && e < |s.devs| && s.mains[e].MStart?
    ensures var effect := DeedOf(s, a).effect;
            && effect != Release(e)
            && (effect == Acquire(e) <==> a == Advance(Main(e)))
  {
    assert Phased(s, e);
    if a.Advance? {
      assert Phased(s, a.t.d);
      if a.t.Receiver? {
        var pc := s.receivers[a.t.d];
        assert Snapshot(s, a.t.d);
        assert pc.RDrop? ==> pc.e in Pending(pc);
        assert pc.RTake? ==> HasBeenRegistered(s, pc.next);
        assert pc.RDrop? ==> HasBeenRegistered(s, pc.e);
      }
    }
    hide Inv, Runnable, HasWanted;
  }

  lemma RefsHaveRoom(s: State, e: nat)
    requires Inv(s) && e < |s.devs|
    ensures s.devs[e].refs < 0xFFFF_FFFF
  {
    HoldersBound(s, e);
    assert Counted(s, e);
  }

  lemma StepKeeps(s: State, a: Action, s': State, e: nat)
    requires Inv(s) && Step(s, a, s') && e < |s'.devs|
    requires forall d :: 0 <= d < |s.devs| ==> Kept(s, d)
    ensures Kept(s', e)
  {
    StepPerforms(s, a, s');
    var deed := DeedOf(s, a);
    if deed.NoDeed? {
      NewIsKept(s, s', e);
    } else {
      MainStep(s, a, s', e);
      if s.mains[e].MStart? {
        StartsAlone(s, a, e);
      }
      var f := Target(deed.effect, deed.d);
      if s.mains[f].MStart? {
        StartsAlone(s, a, f);
      }
      RefsHaveRoom(s, f);
      hide Inv, Step, DeedOf;
      StartIsLeft(s.mains[e], s.devs[e], e);
      assert Kept(s, e) && Kept(s, f);
      KeptByStep(s, s', deed.d, deed.effect, deed.unlock, e);
    }
  }

  lemma StartIsLeft(pc: MainPc, dev: Device, e: nat)
    ensures MainMove(pc, dev, e).next != MStart
  {
  }

  lemma NewIsKept(s: State, s': State, e: nat)
    requires Shaped(s) && Shaped(s') && Quiet(s, s') && e < |s'.devs|
    requires forall d :: 0 <= d < |s.devs| ==> Kept(s, d)
    ensures Kept(s', e)
  {
    assert e < |s.devs| ==> Kept(s, e);
  }

  // A device is deleted by the release of its last holder and not kept any longer.
  lemma {:induction false} DeletedWithLastHolder(run: Run, e: nat)
    requires IsRun(run) && e < |Last(run).devs|
    ensures Shaped(Last(run)) && Kept(Last(run), e)
    ensures !Last(run).mains[e].MStart? ==> (Last(run).devs[e].live <==> Holders(Last(run), e) > 0)
  {
    hide Inv, Step, Kept;
    AllKept(run);
    CountsAreExact(run, e);
    KeptMeans(Last(run), e);
  }

  lemma KeptMeans(s: State, e: nat)
    requires Shaped(s) && e < |s.devs| && Kept(s, e) && s.devs[e].refs == Holders(s, e)
    ensures !s.mains[e].MStart? ==> (s.devs[e].live <==> Holders(s, e) > 0)
  {
    hide Holders;
  }

  lemma {:induction false} AllKept(run: Run)
    requires IsRun(run)
    ensures Shaped(Last(run)) && forall e :: 0 <= e < |Last(run).devs| ==> Kept(Last(run), e)
  {
    hide Inv, Step, Kept;
    if run.Then? {
      AllKept(run.before);
      RunKeepsInv(run.before);
      ShapedRun(run);
      forall e | 0 <= e < |run.s.devs| ensures Kept(run.s, e) {
        StepKeeps(Last(run.before), run.a, run.s, e);
      }
    }
  }

  // ---------------------------------------------------------------- descriptors

  // An open descriptor is that of a live device or of an accepted connection that still waits for one.
  ghost predicate HasOwner(s: State, fd: int) {
    (exists d: nat :: Live(s, d) && s.devs[d].fd == fd) || (exists i: nat :: Waiting(s, i) && s.accepted[i] == fd)
  }

  ghost predicate Owned(s: State) {
    forall fd <- s.openFds :: HasOwner(s, fd)
  }

  lemma StepKeepsOwned(s: State, a: Action, s': State)
    requires Inv(s) && Step(s, a, s') && Owned(s)
    ensures Owned(s')
  {
    forall fd <- s'.openFds ensures HasOwner(s', fd) {
      if fd in s.openFds {
        OwnerStays(s, a, s', fd);
      } else {
        NewOwner(s, a, s', fd);
      }
    }
  }

  lemma NewOwner(s: State, a: Action, s': State, fd: int)
    requires Inv(s) && Step(s, a, s') && fd in s'.openFds && fd !in s.openFds
    ensures HasOwner(s', fd)
  {
    OnlyAcceptOpens(s, a, fd);
    assert Waiting(s', 0) && s'.accepted[0] == fd;
    hide Inv;
  }

  lemma OnlyAcceptOpens(s: State, a: Action, fd: int)
    requires Inv(s) && Enabled(s, a) && !Faulty(s, a) && fd in Apply(s, a).openFds && fd !in s.openFds
    ensures a == Accept(fd) && !s.draining && s.cursor == 0
  {
    assert Descriptors(s);
    StepPerforms(s, a, Apply(s, a));
    hide Inv, Faulty, Runnable, HasWanted, ReceiverMove, SenderMove, MainMove;
  }

  lemma OwnerStays(s: State, a: Action, s': State, fd: int)
    requires Inv(s) && Step(s, a, s') && fd in s.openFds && fd in s'.openFds && HasOwner(s, fd)
    ensures HasOwner(s', fd)
  {
    if d: nat :| Live(s, d) && s.devs[d].fd == fd {
      DeletionClosesDescriptor(s, a, s', d);
      assert Live(s', d) && s'.devs[d].fd == fd;
    } else {
      var i: nat :| Waiting(s, i) && s.accepted[i] == fd;
      WaitingStays(s, a, s', i);
    }
  }

  // A waiting connection keeps waiting or is handed over; the list is emptied only when nothing waits.
  lemma WaitingStays(s: State, a: Action, s': State, i: nat)
    requires Inv(s) && Step(s, a, s') && Waiting(s, i)
    ensures HasOwner(s', s.accepted[i])
  {
    assert Descriptors(s);
    var fd := s.accepted[i];
    match a
    case Accept(x) =>
      assert Waiting(s', i + 1) && s'.accepted[i + 1] == fd;
    case HandOver =>
      if i == s.cursor {
        assert Live(s', |s.devs|) && s'.devs[|s.devs|].fd == fd;
      } else {
        assert Waiting(s', i) && s'.accepted[i] == fd;
      }
    case BeginHandOff => assert Waiting(s', i) && s'.accepted[i] == fd;
    case EndHandOff =>
    case _ =>
      ListStays(s, a);
      assert Waiting(s', i) && s'.accepted[i] == fd;
  }

  lemma ListStays(s: State, a: Action)
    requires Shaped(s) && Enabled(s, a) && !a.Accept? && !a.HandOver? && !a.BeginHandOff? && !a.EndHandOff?
    ensures Apply(s, a).accepted == s.accepted && Apply(s, a).cursor == s.cursor
  {
    hide ReceiverMove, MainMove, SenderMove, Runnable, HasWanted;
  }

  // No accepted connection is lost, and no descriptor stays open without one.
  lemma {:induction false} EveryDescriptorOwned(run: Run)
    requires IsRun(run)
    ensures Owned(Last(run))
    ensures forall d: nat :: Live(Last(run), d) ==> Last(run).devs[d].fd in Last(run).openFds
    ensures forall i: nat :: Waiting(Last(run), i) ==> Last(run).accepted[i] in Last(run).openFds
  {
    RunKeepsInv(run);
    assert Descriptors(Last(run));
    hide Inv, Step, Owned;
    if run.Then? {
      EveryDescriptorOwned(run.before);
      RunKeepsInv(run.before);
      StepKeepsOwned(Last(run.before), run.a, run.s);
    } else {
      NothingOpen();
    }
  }

  lemma NothingOpen()
    ensures Owned(INITIAL)
  {
  }

  // ---------------------------------------------------------------- shared memory is guarded

  // The mutex that must be held for an effect on shared memory.
  function Guard(effect: Effect, d: nat): MaybeLock {
    match effect
    case Acquire(e) => Need(Items(e))
    case Release(e) => Need(Items(e))
    case Promote(_) => Need(Items(d))
    case Close => Need(Items(d))
    case Post(e, _) => Need(Outbox(e))
    case Hand(_) => Need(Outbox(d))
    case Clear => Need(Outbox(d))
    case Insert => Need(Registry)
    case Erase => Need(Registry)
    case _ => NoLock
  }

  // In every reachable state a thread about to change a count, a connection state, a buffer or the
  // registry holds its mutex, and the device it changes is one that the step is accounted to touch.
  lemma Guarded(run: Run, t: Thread)
    requires IsRun(run) && Enabled(Last(run), Advance(t)) && !Faulty(Last(run), Advance(t))
    ensures var deed := DeedOf(Last(run), Advance(t));
            && deed.Deed? && t.d in Touched(Last(run), t)
            && (Guard(deed.effect, t.d).Need? ==> Holds(Last(run), t, Guard(deed.effect, t.d).l))
            && (deed.unlock.Need? ==> Holds(Last(run), t, deed.unlock.l))
            && Target(deed.effect, t.d) in Touched(Last(run), t)
  {
    RunKeepsInv(run);
    var s := Last(run);
    assert LockedRightly(s) && Shaped(s);
    GuardWanted(s, t);
    AdvanceTouches(s, t);
    hide IsRun, Inv, DeedOf, Touched, Wants, Keeps, Guard, Runnable;
  }

  // The mutex is one that the thread waits to use or carries.
  lemma GuardWanted(s: State, t: Thread)
    requires Shaped(s) && Enabled(s, Advance(t))
    ensures var deed := DeedOf(s, Advance(t));
            && (Guard(deed.effect, t.d).Need? ==> Wants(s, t) == Guard(deed.effect, t.d) || Keeps(s, t) == Guard(deed.effect, t.d))
            && (deed.unlock.Need? ==> Wants(s, t) == deed.unlock || Keeps(s, t) == deed.unlock)
  {
    hide Runnable, HasWanted;
  }

  lemma AdvanceTouches(s: State, t: Thread)
    requires Shaped(s) && Enabled(s, Advance(t))
    ensures var deed := DeedOf(s, Advance(t));
            deed.Deed? && t.d in Touched(s, t) && Target(deed.effect, t.d) in Touched(s, t)
  {
    hide HasWanted, AllTaken;
  }

  // A snapshot is taken under the registry mutex, from its first device to its last.
  lemma SnapshotGuarded(run: Run, r: nat)
    requires IsRun(run) && r < |Last(run).receivers| && (Last(run).receivers[r].RCollect? || Last(run).receivers[r].RTake?)
    ensures Holds(Last(run), Receiver(r), Registry)
  {
    RunKeepsInv(run);
    hide IsRun;
    var s := Last(run);
    assert LockedRightly(s) && IsThread(s, Receiver(r)) && Keeps(s, Receiver(r)).Need?;
  }
}

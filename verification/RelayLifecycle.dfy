/** How a connection's state and registration evolve over a run. */
module RelayLifecycle {
  import opened RelayState
  import opened RelayInvariant
  import opened RelayInduction
  import opened RelaySafety

  function Phase(c: Connection): nat {
    match c
    case Initial => 0
    case Working => 1
    case Ended => 2
  }

  // What one step, and therefore any run, preserves about device d.
  ghost predicate Progresses(s: State, s': State, d: nat)
    requires Shaped(s) && Shaped(s') && d < |s.devs|
  {
    && d < |s'.devs|
    && s'.devs[d].fd == s.devs[d].fd
    && Phase(s.devs[d].connection) <= Phase(s'.devs[d].connection)
    && (!s.devs[d].connection.Initial? ==> s'.devs[d].networkId == s.devs[d].networkId)
    && (HasBeenRegistered(s, d) ==> HasBeenRegistered(s', d))
    && (HasBeenRegistered(s, d) && !IsRegistered(s, d) ==> !IsRegistered(s', d))
  }

  lemma StepProgresses(s: State, a: Action, s': State, d: nat)
    requires Inv(s) && Step(s, a, s') && d < |s.devs|
    ensures Progresses(s, s', d)
  {
    StepPerforms(s, a, s');
    assert Phased(s, d);
    match a
    case Advance(t) => AdvanceProgresses(s, t, d);
    case _ =>
  }

  lemma AdvanceProgresses(s: State, t: Thread, d: nat)
    requires Inv(s) && Enabled(s, Advance(t)) && !Faulty(s, Advance(t)) && d < |s.devs|
    ensures Progresses(s, Apply(s, Advance(t)), d)
  {
    assert Phased(s, d);
    assert t.d in Touched(s, t);
    if t.Receiver? {
      ReceiverMoveIsGood(s, t.d);
      GoodMoveProgresses(s, t.d, ReceiverMove(s.receivers[t.d], s.devs[t.d], t.d), d);
    } else {
      OthersProgress(s, t, d);
    }
  }

  lemma GoodMoveProgresses(s: State, r: nat, move: Move<ReceiverPc>, d: nat)
    requires Shaped(s) && r < |s.devs| && d < |s.devs| && Phased(s, d) && GoodMove(s, r, move)
    ensures Progresses(s, StepReceiver(s, r, move), d)
  {
    GoodMoveMembership(s, r, move);
  }

  lemma OthersProgress(s: State, t: Thread, d: nat)
    requires Shaped(s) && IsThread(s, t) && !t.Receiver? && d < |s.devs| && Phased(s, t.d)
    ensures Progresses(s, if t.Main? then AdvanceMain(s, t.d) else AdvanceSender(s, t.d), d)
  {
  }

  // Over any run the state moves Initial, Working, Ended; descriptor and network id are fixed; and a
  // device that was registered and is not any more is never registered again.
  lemma {:induction false} LifeOfDevice(run: Run, later: Run, d: nat)
    requires IsRun(later) && Extends(run, later) && d < |Last(run).devs| && Shaped(Last(run))
    ensures Progresses(Last(run), Last(later), d)
  {
    if run != later {
      LifeOfDevice(run, later.before, d);
      RunKeepsInv(later.before);
      StepProgresses(Last(later.before), later.a, later.s, d);
    }
  }

  // Once the connection has ended the device is in no registry set ...
  lemma EndedIsUnregistered(run: Run, d: nat)
    requires IsRun(run) && d < |Last(run).devs| && Last(run).devs[d].connection.Ended?
    ensures forall k <- Last(run).registry :: Last(run).registry[k] != d
  {
    RunKeepsInv(run);
  }

  // ... and in no snapshot it was not already in.
  lemma NoNewSnapshot(s: State, a: Action, s': State, d: nat, r: nat)
    requires Inv(s) && Step(s, a, s') && d < |s.devs| && r < |s.devs|
    requires s.devs[d].connection.Ended?
    requires d in Pending(s'.receivers[r])
    ensures d in Pending(s.receivers[r])
  {
    if a == Advance(Receiver(r)) {
      AdvanceAddsRegistered(s, r, d);
    } else {
      PendingElsewhere(s, a, r, d);
    }
  }

  lemma AdvanceAddsRegistered(s: State, r: nat, d: nat)
    requires Inv(s) && r < |s.devs| && d < |s.devs| && s.devs[d].connection.Ended?
    requires d in Pending(AdvanceReceiver(s, r).receivers[r])
    ensures d in Pending(s.receivers[r])
  {
    assert Snapshot(s, r);
    PendingAfter(s.receivers[r], s.devs[r], r, d);
    hide Inv, ReceiverMove;
  }

  lemma PendingElsewhere(s: State, a: Action, r: nat, d: nat)
    requires Shaped(s) && Enabled(s, a) && r < |s.devs| && a != Advance(Receiver(r))
    ensures d in Pending(Apply(s, a).receivers[r]) ==> d in Pending(s.receivers[r])
  {
    hide ReceiverMove, MainMove, SenderMove, HasWanted, AllTaken, IsMember;
  }

  // A move adds to a snapshot only the device just acquired for it.
  lemma PendingAfter(pc: ReceiverPc, dev: Device, x: nat, d: nat)
    ensures d in Pending(ReceiverMove(pc, dev, x).next) ==> d in Pending(pc) || (pc.RTake? && pc.next == d)
  {
  }

  lemma NewcomersHaveNoSnapshot(s: State, a: Action, s': State, r: nat)
    requires Inv(s) && Step(s, a, s') && |s.devs| <= r < |s'.devs|
    ensures Pending(s'.receivers[r]) == []
  {
    StepPerforms(s, a, s');
  }

  // This holds for the snapshots of every broadcaster, also of one that connects later.
  lemma {:induction false} EndedJoinsNoSnapshot(run: Run, later: Run, d: nat, r: nat)
    requires IsRun(later) && Extends(run, later) && Shaped(Last(run))
    requires d < |Last(run).devs| && r < |Last(later).devs| && Last(run).devs[d].connection.Ended?
    ensures |Last(run).devs| <= |Last(later).devs|
    ensures d in Pending(Last(later).receivers[r]) ==> r < |Last(run).devs| && d in Pending(Last(run).receivers[r])
  {
    LifeOfDevice(run, later, |Last(run).devs| - 1);
    if run != later && d in Pending(Last(later).receivers[r]) {
      LifeOfDevice(run, later.before, d);
      RunKeepsInv(later.before);
      hide Inv;
      if r >= |Last(later.before).devs| {
        NewcomersHaveNoSnapshot(Last(later.before), later.a, later.s, r);
      } else {
        NoNewSnapshot(Last(later.before), later.a, later.s, d, r);
        EndedJoinsNoSnapshot(run, later.before, d, r);
      }
    }
  }
}

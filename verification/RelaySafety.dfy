/** Reference counts and lifetimes over whole runs, and exactly when the lifetime scheme breaks. */
module RelaySafety {
  import opened Bytes
  import opened RelayState
  import opened RelayInvariant
  import opened RelayCounting
  import opened RelayInduction

  // ---------------------------------------------------------------- counting

  // memory_pointers is the number of holders and its 32 bits never overflow.
  lemma CountsAreExact(run: Run, d: nat)
    requires IsRun(run) && d < |Last(run).devs|
    ensures Last(run).devs[d].refs == Holders(Last(run), d) < WRAP_32 - 1
  {
    RunKeepsInv(run);
    HoldersBound(Last(run), d);
    assert Counted(Last(run), d);
  }

  // ---------------------------------------------------------------- deletion

  // Nothing but a sender that has not yet run refers to the device any more.
  ghost predicate Abandoned(s: State, d: nat)
    requires Shaped(s) && d < |s.devs|
  {
    && s.mains[d].MDone? && s.receivers[d].RDone? && (s.senders[d].SStart? || s.senders[d].SDone?)
    && (forall k <- s.registry :: s.registry[k] != d)
    && (forall r :: 0 <= r < |s.receivers| ==> d !in Pending(s.receivers[r]))
  }

  lemma DeadIsAbandoned(s: State, d: nat)
    requires Inv(s) && d < |s.devs| && !s.devs[d].live
    ensures Abandoned(s, d)
  {
    assert Outlived(s, d) && Phased(s, d);
    forall r | 0 <= r < |s.receivers| ensures d !in Pending(s.receivers[r]) {
      SnapshotIncludes(s.receivers, r, d);
    }
  }

  lemma LiveIsOpen(s: State, d: nat)
    requires Inv(s) && Live(s, d)
    ensures s.devs[d].fd in s.openFds
  {
  }

  // One step deletes at most the device it releases; that device is abandoned, and its descriptor is
  // closed at that moment.
  lemma DeletionClosesDescriptor(s: State, a: Action, s': State, d: nat)
    requires Inv(s) && Step(s, a, s') && d < |s.devs|
    ensures d < |s'.devs| && s'.devs[d].fd == s.devs[d].fd
    ensures s'.devs[d].live ==> s.devs[d].live
    ensures s.devs[d].live && !s'.devs[d].live ==>
              Abandoned(s', d) && s.devs[d].fd in s.openFds && s'.openFds == s.openFds - {s.devs[d].fd}
  {
    StepKeepsInv(s, a, s');
    StepPerforms(s, a, s');
    if d < |s'.devs| && s.devs[d].live && !s'.devs[d].live {
      DeadIsAbandoned(s', d);
      LiveIsOpen(s, d);
    }
    hide Inv, Faulty, Abandoned;
    if DeedOf(s, a).Deed? {
      hide Apply;
    }
  }

  // No descriptor is closed otherwise.
  lemma ClosedIsDeleted(s: State, a: Action, s': State, fd: int) returns (d: nat)
    requires Inv(s) && Step(s, a, s') && fd in s.openFds && fd !in s'.openFds
    ensures d < |s.devs| && |s.devs| == |s'.devs| && s.devs[d].fd == fd && s.devs[d].live && !s'.devs[d].live
  {
    StepPerforms(s, a, s');
    hide Inv, Faulty;
    var deed := DeedOf(s, a);
    d := if deed.Deed? then Target(deed.effect, deed.d) else 0;
    if deed.NoDeed? {
      OnlyReleasesClose(s, a);
    }
    hide Apply, DeedOf;
  }

  // Taking a mutex and the hand-off close nothing.
  lemma OnlyReleasesClose(s: State, a: Action)
    requires Shaped(s) && Enabled(s, a) && DeedOf(s, a).NoDeed?
    ensures s.openFds <= Apply(s, a).openFds
  {
  }

  // A deleted device stays deleted for the rest of any run: it is never closed or deleted again.
  ghost predicate Extends(run: Run, later: Run) {
    run == later || (later.Then? && Extends(run, later.before))
  }

  lemma {:induction false} DeletedOnce(run: Run, later: Run, d: nat)
    requires IsRun(later) && Extends(run, later) && d < |Last(run).devs|
    ensures d < |Last(later).devs| && (!Last(run).devs[d].live ==> !Last(later).devs[d].live && Abandoned(Last(later), d))
  {
    RunKeepsInv(later);
    if run != later {
      DeletedOnce(run, later.before, d);
      RunKeepsInv(later.before);
      DeletionClosesDescriptor(Last(later.before), later.a, later.s, d);
    }
    if !Last(run).devs[d].live {
      DeadIsAbandoned(Last(later), d);
    }
  }

  // ---------------------------------------------------------------- use after deletion

  // A sender that was created, has not executed acquire(), and whose device is already deleted.
  ghost predicate LateSender(s: State, d: nat)
    requires Shaped(s)
  {
    d < |s.devs| && s.senders[d].SStart? && !s.devs[d].live
  }

  // In a state satisfying the invariant the only access to a deleted device is a late sender's acquire().
  lemma OnlyLateSendersFault(s: State, a: Action)
    requires Inv(s) && Enabled(s, a)
    ensures Faulty(s, a) <==> (a.TakeLock? || a.Advance?) && a.t.Sender? && LateSender(s, a.t.d)
  {
    hide Inv, Touched, LateSender;
    match a
    case TakeLock(t) => OnlyLateSendersTouchDead(s, t);
    case Advance(t) => OnlyLateSendersTouchDead(s, t);
    case Hear(r, _) => OnlyLateSendersTouchDead(s, Receiver(r));
    case Refuse(r) => OnlyLateSendersTouchDead(s, Receiver(r));
    case HangUp(r) => OnlyLateSendersTouchDead(s, Receiver(r));
    case Pick(r, _) => OnlyLateSendersTouchDead(s, Receiver(r));
    case _ =>
  }

  lemma OnlyLateSendersTouchDead(s: State, t: Thread)
    requires Inv(s) && IsThread(s, t)
    ensures TouchesDead(s, t) <==> t.Sender? && LateSender(s, t.d)
  {
    var d := t.d;
    assert Outlived(s, d) && Phased(s, d);
    if t.Receiver? && !s.receivers[d].RNone? && !s.receivers[d].RDone? {
      ReceiverTouchesLive(s, d);
    }
    if t.Sender? && LateSender(s, d) {
      assert d in Touched(s, t) && !Live(s, d);
    }
  }

  lemma ReceiverTouchesLive(s: State, r: nat)
    requires Inv(s) && r < |s.devs| && !s.receivers[r].RNone? && !s.receivers[r].RDone?
    ensures forall e <- Touched(s, Receiver(r)) :: Live(s, e)
  {
    assert Outlived(s, r) && Snapshot(s, r);
    forall e <- Touched(s, Receiver(r)) ensures Live(s, e) {
      var pc := s.receivers[r];
      if e in Pending(pc) {
        PendingIsLive(s, r, e);
      } else if (pc.RTake? && e == pc.next) || e in Members(s) {
        MemberIsLive(s, e);
      }
    }
  }

  lemma MemberIsLive(s: State, e: nat)
    requires Inv(s) && (e in Members(s) || IsRegistered(s, e))
    ensures Live(s, e)
  {
    assert RegistryExact(s);
    assert IsRegistered(s, e);
    assert Outlived(s, e) && Phased(s, e);
  }

  // Every device in a snapshot stays alive until the broadcaster has released it.
  lemma PendingIsLive(s: State, r: nat, e: nat)
    requires Inv(s) && r < |s.devs| && e in Pending(s.receivers[r])
    ensures Live(s, e)
  {
    assert Snapshot(s, r);
    assert HasBeenRegistered(s, e);
    assert Outlived(s, e);
    SnapshotIncludes(s.receivers, r, e);
  }

  // Exactly when a run can go wrong next: some device has been deleted before its sender started.
  lemma FaultsExactly(run: Run)
    requires IsRun(run)
    ensures (exists a :: Enabled(Last(run), a) && Faulty(Last(run), a))
            <==> (exists d :: LateSender(Last(run), d))
  {
    var s := Last(run);
    RunKeepsInv(run);
    if a :| Enabled(s, a) && Faulty(s, a) {
      OnlyLateSendersFault(s, a);
      assert LateSender(s, a.t.d);
    }
    if d :| LateSender(s, d) {
      assert Unlocked(s, d);
      var a := TakeLock(Sender(d));
      OnlyLateSendersFault(s, a);
      assert Enabled(s, a);
    }
  }

  // ---------------------------------------------------------------- the scheduling hypothesis

  // No main handler releases its device before the device's sender has executed acquire().
  ghost predicate SendersStartInTime(run: Run) {
    run.Then? ==>
      && SendersStartInTime(run.before)
      && StartsInTime(Last(run.before), run.a)
  }

  ghost predicate StartsInTime(s: State, a: Action) {
    Shaped(s) && a.Advance? && a.t.Main? && IsThread(s, a.t) && s.mains[a.t.d].MRelease? ==>
      !s.senders[a.t.d].SStart?
  }

  ghost predicate NoneLate(s: State)
    requires Shaped(s)
  {
    forall d :: 0 <= d < |s.devs| && s.mains[d].MDone? ==> !s.senders[d].SStart?
  }

  lemma AdvanceStaysInTime(s: State, t: Thread)
    requires Inv(s) && Enabled(s, Advance(t)) && NoneLate(s) && StartsInTime(s, Advance(t))
    ensures NoneLate(Apply(s, Advance(t)))
  {
    var s' := Apply(s, Advance(t));
    assert Phased(s, t.d);
    forall d | 0 <= d < |s'.devs| && s'.mains[d].MDone? ensures !s'.senders[d].SStart? {
    }
  }

  lemma StepStaysInTime(s: State, a: Action, s': State)
    requires Inv(s) && Step(s, a, s') && NoneLate(s) && StartsInTime(s, a)
    ensures NoneLate(s')
  {
    if a.Advance? {
      AdvanceStaysInTime(s, a.t);
    }
  }

  lemma {:induction false} InTimeRun(run: Run)
    requires IsRun(run) && SendersStartInTime(run)
    ensures Shaped(Last(run)) && NoneLate(Last(run))
  {
    RunKeepsInv(run);
    if run.Then? {
      InTimeRun(run.before);
      RunKeepsInv(run.before);
      StepStaysInTime(Last(run.before), run.a, run.s);
    }
  }

  // Under the hypothesis no thread ever uses the memory of a deleted device, and deleted devices
  // have no thread left at all.
  lemma NoUseAfterDeletion(run: Run)
    requires IsRun(run) && SendersStartInTime(run)
    ensures forall a :: Enabled(Last(run), a) ==> !Faulty(Last(run), a)
    ensures forall d: nat :: d < |Last(run).devs| && !Last(run).devs[d].live ==> Last(run).senders[d].SDone?
  {
    var s := Last(run);
    InTimeRun(run);
    RunKeepsInv(run);
    forall d: nat | d < |s.devs| && !s.devs[d].live ensures s.senders[d].SDone? {
      assert Outlived(s, d);
    }
    forall a | Enabled(s, a) ensures !Faulty(s, a) {
      OnlyLateSendersFault(s, a);
    }
  }
}

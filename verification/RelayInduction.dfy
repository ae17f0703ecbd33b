/** Every defined step of the relay keeps the invariant. */
module RelayInduction {
  import opened RelayState
  import opened RelayInvariant
  import opened RelayPrograms
  import opened RelayCounting
  import opened RelaySteps

  lemma AllHaveRoom(s: State)
    requires Inv(s)
    ensures forall e :: 0 <= e < |s.devs| ==> HasRoom(s, e)
  {
    forall e | 0 <= e < |s.devs| ensures HasRoom(s, e) {
      HoldersBound(s, e);
      assert Counted(s, e);
    }
  }

  // ---------------------------------------------------------------- main handler

  ghost predicate MainCanMove(s: State, d: nat) {
    Inv(s) && d < |s.devs| && !s.mains[d].MDone? && HasWanted(s, Main(d)) && Live(s, d)
  }

  lemma MainKeepsCounts(s: State, d: nat)
    requires MainCanMove(s, d)
    ensures forall e :: 0 <= e < |s.devs| ==> Counted(AdvanceMain(s, d), e)
  {
    AllHaveRoom(s);
    assert Phased(s, d);
    MainBalance(s.mains[d], s.devs[d], d);
    forall e | 0 <= e < |s.devs| ensures Counted(AdvanceMain(s, d), e) {
      MainCounted(s, d, MainMove(s.mains[d], s.devs[d], d), e);
    }
  }

  lemma MainKeepsPhases(s: State, d: nat)
    requires MainCanMove(s, d)
    ensures forall e :: 0 <= e < |s.devs| ==> Phased(AdvanceMain(s, d), e)
  {
    forall e | 0 <= e < |s.devs| ensures Phased(AdvanceMain(s, d), e) {
      assert Phased(s, e);
    }
  }

  lemma MainKeepsSnapshots(s: State, d: nat)
    requires MainCanMove(s, d)
    ensures forall r :: 0 <= r < |s.devs| ==> Snapshot(AdvanceMain(s, d), r)
  {
    var s' := AdvanceMain(s, d);
    assert Phased(s, d);
    assert forall e: nat :: IsRegistered(s, e) ==> IsRegistered(s', e);
    assert forall e: nat :: HasBeenRegistered(s, e) ==> HasBeenRegistered(s', e);
    forall r | 0 <= r < |s.devs| ensures Snapshot(s', r) {
      assert Snapshot(s, r);
    }
  }

  lemma MainKeepsOutboxes(s: State, d: nat)
    requires MainCanMove(s, d)
    ensures forall e :: 0 <= e < |s.devs| ==> Conserved(AdvanceMain(s, d), e)
  {
    var move := MainMove(s.mains[d], s.devs[d], d);
    forall e | 0 <= e < |s.devs| ensures Conserved(AdvanceMain(s, d), e) {
      assert Conserved(s, e) && Phased(s, d);
      if s.mains[d].MPing? && s.senders[d].SDrain? {
        OneOwner(s, Main(d), Sender(d), Outbox(d));
      }
      if e == d {
        OutboxUntouched(s.devs[e], s.senders[e], move.effect);
      }
    }
  }

  lemma MainKeepsLifetimes(s: State, d: nat)
    requires MainCanMove(s, d)
    ensures forall e :: 0 <= e < |s.devs| ==> Outlived(AdvanceMain(s, d), e) && Unlocked(AdvanceMain(s, d), e)
  {
    MainKeepsCounts(s, d);
    MainKeepsPhases(s, d);
    var move := MainMove(s.mains[d], s.devs[d], d);
    forall e | 0 <= e < |s.devs| ensures Outlived(AdvanceMain(s, d), e) && Unlocked(AdvanceMain(s, d), e) {
      assert Outlived(s, e) && Counted(s, e) && Unlocked(s, e);
      OutlivedKept(s, AdvanceMain(s, d), d, move.effect, move.unlock, e);
      UnlockedKept(s, AdvanceMain(s, d), d, move.effect, move.unlock, e);
    }
  }

  lemma MainKeepsShared(s: State, d: nat)
    requires MainCanMove(s, d)
    ensures RegistryExact(AdvanceMain(s, d)) && Descriptors(AdvanceMain(s, d)) && LockedRightly(AdvanceMain(s, d))
  {
    var s' := AdvanceMain(s, d);
    var move := MainMove(s.mains[d], s.devs[d], d);
    assert Phased(s, d);
    DescriptorsKept(s, s', d, move.effect, move.unlock);
    RegistryKept(s, s', d, move.effect, move.unlock);
    LocksKept(s, s', Main(d), move.unlock);
  }

  // ---------------------------------------------------------------- sender

  ghost predicate SenderCanMove(s: State, d: nat) {
    && Inv(s) && d < |s.devs| && !s.senders[d].SNone? && !s.senders[d].SDone?
    && HasWanted(s, Sender(d)) && Live(s, d)
  }

  lemma SenderKeepsCounts(s: State, d: nat)
    requires SenderCanMove(s, d)
    ensures forall e :: 0 <= e < |s.devs| ==> Counted(AdvanceSender(s, d), e)
  {
    AllHaveRoom(s);
    SenderBalance(s.senders[d], s.devs[d], d);
    forall e | 0 <= e < |s.devs| ensures Counted(AdvanceSender(s, d), e) {
      SenderCounted(s, d, SenderMove(s.senders[d], s.devs[d], d), e);
    }
  }

  lemma SenderKeepsPhases(s: State, d: nat)
    requires SenderCanMove(s, d)
    ensures forall e :: 0 <= e < |s.devs| ==> Phased(AdvanceSender(s, d), e)
  {
    forall e | 0 <= e < |s.devs| ensures Phased(AdvanceSender(s, d), e) {
      assert Phased(s, e);
    }
  }

  lemma SenderKeepsSnapshots(s: State, d: nat)
    requires SenderCanMove(s, d)
    ensures forall r :: 0 <= r < |s.devs| ==> Snapshot(AdvanceSender(s, d), r)
  {
    var s' := AdvanceSender(s, d);
    assert forall e: nat :: IsRegistered(s, e) ==> IsRegistered(s', e);
    assert forall e: nat :: HasBeenRegistered(s, e) ==> HasBeenRegistered(s', e);
    forall r | 0 <= r < |s.devs| ensures Snapshot(s', r) {
      assert Snapshot(s, r);
    }
  }

  lemma SenderKeepsOutboxes(s: State, d: nat)
    requires SenderCanMove(s, d)
    ensures forall e :: 0 <= e < |s.devs| ==> Conserved(AdvanceSender(s, d), e)
  {
    forall e | 0 <= e < |s.devs| ensures Conserved(AdvanceSender(s, d), e) {
      assert Conserved(s, e);
      if e == d {
        OutboxStep(s.devs[d], s.senders[d], d);
      }
    }
  }

  lemma SenderKeepsLifetimes(s: State, d: nat)
    requires SenderCanMove(s, d)
    ensures forall e :: 0 <= e < |s.devs| ==> Outlived(AdvanceSender(s, d), e) && Unlocked(AdvanceSender(s, d), e)
  {
    SenderKeepsCounts(s, d);
    SenderKeepsPhases(s, d);
    var move := SenderMove(s.senders[d], s.devs[d], d);
    forall e | 0 <= e < |s.devs| ensures Outlived(AdvanceSender(s, d), e) && Unlocked(AdvanceSender(s, d), e) {
      assert Outlived(s, e) && Counted(s, e) && Phased(s, d) && Unlocked(s, e);
      OutlivedKept(s, AdvanceSender(s, d), d, move.effect, move.unlock, e);
      UnlockedKept(s, AdvanceSender(s, d), d, move.effect, move.unlock, e);
    }
  }

  lemma SenderKeepsShared(s: State, d: nat)
    requires SenderCanMove(s, d)
    ensures RegistryExact(AdvanceSender(s, d)) && Descriptors(AdvanceSender(s, d)) && LockedRightly(AdvanceSender(s, d))
  {
    var s' := AdvanceSender(s, d);
    var move := SenderMove(s.senders[d], s.devs[d], d);
    DescriptorsKept(s, s', d, move.effect, move.unlock);
    RegistryKept(s, s', d, move.effect, move.unlock);
    LocksKept(s, s', Sender(d), move.unlock);
  }

  // ---------------------------------------------------------------- receiver

  ghost predicate ReceiverCanMove(s: State, d: nat) {
    && Inv(s) && d < |s.devs| && Runnable(s, Receiver(d)) && HasWanted(s, Receiver(d))
    && (forall e <- Touched(s, Receiver(d)) :: Live(s, e))
  }

  // What the rest of the machine needs to know about a receiver's move.
  ghost predicate GoodMove(s: State, d: nat, move: Move<ReceiverPc>)
    requires Shaped(s) && d < |s.devs|
  {
    var pc, dev := s.receivers[d], s.devs[d];
    && Target(move.effect, d) < |s.devs|
    && Live(s, d) && Live(s, Target(move.effect, d))
    && KeepsFit(dev, move)
    && MembershipMove(pc, dev, move)
    && (pc.RCollect? || pc.RTake? ==> !move.effect.Insert? && !move.effect.Erase?)
    && !pc.RNone? && !pc.RDone? && !move.next.RNone?
    && !move.effect.Hand? && !move.effect.Clear? && !move.effect.StartSender? && !move.effect.StartReceiver?
    && (move.effect.Promote? ==> dev.connection.Initial?)
    && (move.effect.Release? ==> !s.mains[move.effect.e].MStart? && move.unlock == Need(Items(move.effect.e)))
    && (move.effect.Insert? || move.effect.Erase? ==> Holds(s, Receiver(d), Registry))
    && (move.effect.Post? ==> Holds(s, Receiver(d), Outbox(move.effect.e)))
  }

  lemma ReceiverMoveIsGood(s: State, d: nat)
    requires ReceiverCanMove(s, d)
    ensures var move := ReceiverMove(s.receivers[d], s.devs[d], d);
            && GoodMove(s, d, move) && CarriesOver(s.receivers[d], move)
            && AdvanceReceiver(s, d) == StepReceiver(s, d, move)
  {
    var pc, dev := s.receivers[d], s.devs[d];
    assert Phased(s, d) && Snapshot(s, d);
    ReceiverKeepsFit(pc, dev, d);
    ReceiverMembership(pc, dev, d);
    ReceiverCarriesOver(pc, dev, d);
    ReceiverMoveShape(pc, dev, d);
    ReceiverTarget(s, d);
    ReceiverReleases(s, d);
    hide Inv, ReceiverMove, Touched, InPhase, KeepsFit, MembershipMove, CarriesOver, StepReceiver;
  }

  lemma ReceiverMoveShape(pc: ReceiverPc, dev: Device, d: nat)
    requires ReceiverFits(dev, pc) && !pc.RNone? && !pc.RDone? && !pc.RRead?
    ensures var move := ReceiverMove(pc, dev, d);
            && (pc.RCollect? || pc.RTake? ==> !move.effect.Insert? && !move.effect.Erase?)
            && !move.next.RNone?
            && !move.effect.Hand? && !move.effect.Clear? && !move.effect.StartSender? && !move.effect.StartReceiver?
            && (move.effect.Promote? ==> dev.connection.Initial?)
            && (move.effect.Release? ==> move.unlock == Need(Items(move.effect.e)))
            && (move.effect.Insert? || move.effect.Erase? ==> ReceiverWants(pc, d) == Need(Registry))
            && (move.effect.Post? ==> ReceiverWants(pc, d) == Need(Outbox(move.effect.e)))
  {
  }

  lemma ReceiverTarget(s: State, d: nat)
    requires ReceiverCanMove(s, d)
    ensures var effect := ReceiverMove(s.receivers[d], s.devs[d], d).effect;
            Live(s, d) && Live(s, Target(effect, d))
  {
    assert Shaped(s);
    hide Inv;
    assert d in Touched(s, Receiver(d));
    var effect := ReceiverMove(s.receivers[d], s.devs[d], d).effect;
    assert Target(effect, d) in Touched(s, Receiver(d));
  }

  // A device whose reference is dropped has a running main handler or had one.
  lemma ReceiverReleases(s: State, d: nat)
    requires ReceiverCanMove(s, d)
    ensures var effect := ReceiverMove(s.receivers[d], s.devs[d], d).effect;
            effect.Release? ==> effect.e < |s.devs| && !s.mains[effect.e].MStart?
  {
    var pc := s.receivers[d];
    assert Phased(s, d) && Snapshot(s, d);
    if pc.RDrop? {
      assert pc.e in Pending(pc);
      assert HasBeenRegistered(s, pc.e) && Phased(s, pc.e);
    }
    hide Inv;
  }

  lemma ReceiverKeepsCounts(s: State, d: nat)
    requires ReceiverCanMove(s, d)
    ensures forall e :: 0 <= e < |s.devs| ==> Counted(AdvanceReceiver(s, d), e)
  {
    AllHaveRoom(s);
    var move := ReceiverMove(s.receivers[d], s.devs[d], d);
    ReceiverMoveIsGood(s, d);
    assert Phased(s, d) && Snapshot(s, d);
    forall e | 0 <= e < |s.devs| ensures Counted(AdvanceReceiver(s, d), e) {
      ReceiverBalance(s.receivers[d], s.devs[d], d, e);
      ReceiverCounted(s, d, move, e);
    }
  }

  lemma GoodMoveKeepsPhases(s: State, d: nat, move: Move<ReceiverPc>)
    requires Inv(s) && d < |s.devs| && GoodMove(s, d, move)
    ensures forall e :: 0 <= e < |s.devs| ==> Phased(StepReceiver(s, d, move), e)
  {
    forall e | 0 <= e < |s.devs| ensures Phased(StepReceiver(s, d, move), e) {
      assert Phased(s, e);
    }
  }

  lemma GoodMoveMembership(s: State, d: nat, move: Move<ReceiverPc>)
    requires Shaped(s) && d < |s.devs| && GoodMove(s, d, move)
    ensures MembershipFollows(s, StepReceiver(s, d, move), d, move.effect)
    ensures forall e: nat :: HasBeenRegistered(s, e) ==> HasBeenRegistered(StepReceiver(s, d, move), e)
  {
  }

  lemma GoodMoveKeepsSnapshots(s: State, d: nat, move: Move<ReceiverPc>)
    requires Inv(s) && d < |s.devs| && GoodMove(s, d, move) && CarriesOver(s.receivers[d], move)
    ensures forall r :: 0 <= r < |s.devs| ==> Snapshot(StepReceiver(s, d, move), r)
  {
    var s' := StepReceiver(s, d, move);
    GoodMoveMembership(s, d, move);
    forall r | 0 <= r < |s.devs| ensures Snapshot(s', r) {
      assert Snapshot(s, r);
      var pc := s.receivers[r];
      if r != d && (pc.RCollect? || pc.RTake?) && (move.effect.Insert? || move.effect.Erase?) {
        OneOwner(s, Receiver(d), Receiver(r), Registry);
      }
    }
  }

  lemma GoodMoveKeepsOutboxes(s: State, d: nat, move: Move<ReceiverPc>)
    requires Inv(s) && d < |s.devs| && GoodMove(s, d, move)
    ensures forall e :: 0 <= e < |s.devs| ==> Conserved(StepReceiver(s, d, move), e)
  {
    forall e | 0 <= e < |s.devs| ensures Conserved(StepReceiver(s, d, move), e) {
      assert Conserved(s, e);
      if e == Target(move.effect, d) {
        if move.effect.Post? && s.senders[e].SDrain? {
          OneOwner(s, Receiver(d), Sender(e), Outbox(e));
        }
        OutboxUntouched(s.devs[e], s.senders[e], move.effect);
      }
    }
  }

  lemma GoodMoveKeepsLifetimes(s: State, d: nat, move: Move<ReceiverPc>)
    requires Inv(s) && d < |s.devs| && GoodMove(s, d, move)
    requires forall e :: 0 <= e < |s.devs| ==> Counted(StepReceiver(s, d, move), e)
    ensures forall e :: 0 <= e < |s.devs| ==> Outlived(StepReceiver(s, d, move), e) && Unlocked(StepReceiver(s, d, move), e)
  {
    GoodMoveKeepsPhases(s, d, move);
    var s' := StepReceiver(s, d, move);
    forall e | 0 <= e < |s.devs| ensures Outlived(s', e) && Unlocked(s', e) {
      assert Outlived(s, e) && Counted(s, e) && Counted(s', e) && Phased(s', e) && Unlocked(s, e);
      OutlivedKept(s, s', d, move.effect, move.unlock, e);
      UnlockedKept(s, s', d, move.effect, move.unlock, e);
    }
  }

  lemma GoodMoveKeepsRegistry(s: State, d: nat, move: Move<ReceiverPc>)
    requires Inv(s) && d < |s.devs| && GoodMove(s, d, move)
    ensures RegistryExact(StepReceiver(s, d, move)) && Descriptors(StepReceiver(s, d, move))
  {
    var s' := StepReceiver(s, d, move);
    DescriptorsKept(s, s', d, move.effect, move.unlock);
    GoodMoveMembership(s, d, move);
    if move.effect.Insert? {
      SlotIsFree(s, d);
    }
    RegistryKept(s, s', d, move.effect, move.unlock);
  }

  lemma GoodMoveKeepsLocks(s: State, d: nat, move: Move<ReceiverPc>)
    requires Inv(s) && d < |s.devs| && GoodMove(s, d, move) && HasWanted(s, Receiver(d))
    requires LockMove(ReceiverWants(s.receivers[d], d), ReceiverKeeps(s.receivers[d]), move.unlock, ReceiverKeeps(move.next))
    ensures LockedRightly(StepReceiver(s, d, move))
  {
    LocksKept(s, StepReceiver(s, d, move), Receiver(d), move.unlock);
  }

  lemma GoodMoveKeepsInv(s: State, d: nat, move: Move<ReceiverPc>)
    requires Inv(s) && d < |s.devs| && GoodMove(s, d, move) && HasWanted(s, Receiver(d))
    requires LockMove(ReceiverWants(s.receivers[d], d), ReceiverKeeps(s.receivers[d]), move.unlock, ReceiverKeeps(move.next))
    requires forall e :: 0 <= e < |s.devs| ==> Counted(StepReceiver(s, d, move), e)
    requires forall r :: 0 <= r < |s.devs| ==> Snapshot(StepReceiver(s, d, move), r)
    ensures Inv(StepReceiver(s, d, move))
  {
    GoodMoveKeepsPhases(s, d, move);
    GoodMoveKeepsOutboxes(s, d, move);
    GoodMoveKeepsLifetimes(s, d, move);
    GoodMoveKeepsRegistry(s, d, move);
    GoodMoveKeepsLocks(s, d, move);
  }

  lemma ReceiverKeepsInv(s: State, d: nat)
    requires ReceiverCanMove(s, d)
    ensures Inv(AdvanceReceiver(s, d))
  {
    var move := ReceiverMove(s.receivers[d], s.devs[d], d);
    ReceiverMoveIsGood(s, d);
    ReceiverKeepsCounts(s, d);
    assert forall e :: 0 <= e < |s.devs| ==> Counted(AdvanceReceiver(s, d), e);
    GoodMoveKeepsSnapshots(s, d, move);
    ReceiverLockMove(s.receivers[d], s.devs[d], d);
    GoodMoveKeepsInv(s, d, move);
  }

  // ---------------------------------------------------------------- what a receiver reads from its socket

  predicate IsInput(move: Move<ReceiverPc>) {
    && move.unlock == NoLock
    && (move == Move(Nothing, NoLock, RRefresh) || move == Move(Nothing, NoLock, RLeave)
        || (move.effect.Log? && move.next == RVerified(move.effect.m) && move.effect.m.networkId == 0))
  }

  lemma InputKeepsCounts(s: State, r: nat, move: Move<ReceiverPc>)
    requires Inv(s) && r < |s.devs| && s.receivers[r].RRead? && IsInput(move)
    ensures forall e :: 0 <= e < |s.devs| ==> Counted(StepReceiver(s, r, move), e)
  {
    AllHaveRoom(s);
    forall e | 0 <= e < |s.devs| ensures Counted(StepReceiver(s, r, move), e) {
      assert Balanced(s.receivers[r], s.devs[r], r, e, move);
      ReceiverCounted(s, r, move, e);
    }
  }

  lemma InputIsGood(s: State, r: nat, move: Move<ReceiverPc>)
    requires Inv(s) && r < |s.devs| && s.receivers[r].RRead? && IsInput(move)
    ensures GoodMove(s, r, move) && CarriesOver(s.receivers[r], move)
  {
    assert Phased(s, r) && Outlived(s, r);
  }

  lemma InputKeepsInv(s: State, r: nat, move: Move<ReceiverPc>)
    requires Inv(s) && r < |s.devs| && s.receivers[r].RRead? && IsInput(move)
    ensures Inv(StepReceiver(s, r, move))
  {
    InputIsGood(s, r, move);
    InputKeepsCounts(s, r, move);
    GoodMoveKeepsSnapshots(s, r, move);
    GoodMoveKeepsInv(s, r, move);
  }

  // ---------------------------------------------------------------- one device added to a snapshot

  function PickMove(pc: ReceiverPc, e: nat): Move<ReceiverPc>
    requires pc.RCollect?
  {
    Move(Nothing, NoLock, RTake(pc.m, pc.taken, e))
  }

  lemma PickIsGood(s: State, r: nat, e: nat)
    requires Inv(s) && Enabled(s, Pick(r, e))
    ensures GoodMove(s, r, PickMove(s.receivers[r], e)) && IsRegistered(s, e)
  {
    assert Phased(s, r) && Outlived(s, r) && Snapshot(s, r);
    assert RegistryExact(s);
    hide Inv, InPhase;
  }

  lemma PickKeepsCounts(s: State, r: nat, e: nat)
    requires Inv(s) && Enabled(s, Pick(r, e))
    ensures forall x :: 0 <= x < |s.devs| ==> Counted(StepReceiver(s, r, PickMove(s.receivers[r], e)), x)
  {
    AllHaveRoom(s);
    var move := PickMove(s.receivers[r], e);
    forall x | 0 <= x < |s.devs| ensures Counted(StepReceiver(s, r, move), x) {
      assert Balanced(s.receivers[r], s.devs[r], r, x, move);
      ReceiverCounted(s, r, move, x);
    }
  }

  lemma PickKeepsSnapshots(s: State, r: nat, e: nat)
    requires Inv(s) && r < |s.devs| && s.receivers[r].RCollect? && GoodMove(s, r, PickMove(s.receivers[r], e))
    requires IsRegistered(s, e) && e !in s.receivers[r].taken
    ensures forall x :: 0 <= x < |s.devs| ==> Snapshot(StepReceiver(s, r, PickMove(s.receivers[r], e)), x)
  {
    var s' := StepReceiver(s, r, PickMove(s.receivers[r], e));
    GoodMoveMembership(s, r, PickMove(s.receivers[r], e));
    forall x | 0 <= x < |s.devs| ensures Snapshot(s', x) {
      assert Snapshot(s, x);
    }
  }

  lemma PickKeepsInv(s: State, r: nat, e: nat)
    requires Inv(s) && Enabled(s, Pick(r, e))
    ensures Inv(Apply(s, Pick(r, e)))
  {
    PickIsGood(s, r, e);
    PickKeepsCounts(s, r, e);
    PickKeepsSnapshots(s, r, e);
    GoodMoveKeepsInv(s, r, PickMove(s.receivers[r], e));
  }

  // ---------------------------------------------------------------- a mutex taken

  lemma TakeLockKeepsInv(s: State, t: Thread)
    requires Inv(s) && Enabled(s, TakeLock(t)) && !Faulty(s, TakeLock(t))
    ensures Inv(Apply(s, TakeLock(t)))
  {
    var s' := Apply(s, TakeLock(t));
    assert forall d: nat :: IsRegistered(s', d) == IsRegistered(s, d);
    forall d | 0 <= d < |s.devs|
      ensures Counted(s', d) && Outlived(s', d) && Phased(s', d) && Snapshot(s', d) && Conserved(s', d)
    {
      assert Counted(s, d) && Outlived(s, d) && Phased(s, d) && Snapshot(s, d) && Conserved(s, d);
    }
    TakeLockKeepsLocks(s, t);
    TakeLockKeepsUnlocked(s, t);
    assert forall d: nat :: Live(s', d) == Live(s, d);
    assert forall i: nat :: Waiting(s', i) == Waiting(s, i);
  }

  lemma TakeLockKeepsUnlocked(s: State, t: Thread)
    requires Inv(s) && Enabled(s, TakeLock(t)) && !Faulty(s, TakeLock(t))
    ensures forall d :: 0 <= d < |s.devs| ==> Unlocked(Apply(s, TakeLock(t)), d)
  {
    forall d | 0 <= d < |s.devs| ensures Unlocked(Apply(s, TakeLock(t)), d) {
      assert Unlocked(s, d);
      assert Wants(s, t) == Need(Items(d)) ==> d in Touched(s, t);
    }
  }

  lemma TakeLockKeepsLocks(s: State, t: Thread)
    requires Shaped(s) && LockedRightly(s) && Enabled(s, TakeLock(t))
    ensures LockedRightly(Apply(s, TakeLock(t)))
  {
    var s' := Apply(s, TakeLock(t));
    assert forall u :: IsThread(s, u) ==> Wants(s', u) == Wants(s, u) && Keeps(s', u) == Keeps(s, u);
  }

  // ---------------------------------------------------------------- connections handed over to main()

  ghost predicate SameDevices(s: State, s': State) {
    && s'.devs == s.devs && s'.mains == s.mains && s'.senders == s.senders && s'.receivers == s.receivers
    && s'.registry == s.registry && s'.locks == s.locks
  }

  lemma SameDevicesKeepInv(s: State, s': State)
    requires Inv(s) && SameDevices(s, s') && Descriptors(s')
    ensures Inv(s')
  {
    forall d | 0 <= d < |s.devs|
      ensures Counted(s', d) && Outlived(s', d) && Phased(s', d) && Snapshot(s', d) && Conserved(s', d) && Unlocked(s', d)
    {
      assert Counted(s, d) && Outlived(s, d) && Phased(s, d) && Snapshot(s, d) && Conserved(s, d) && Unlocked(s, d);
    }
    assert forall d: nat :: IsRegistered(s', d) == IsRegistered(s, d);
    assert forall u :: IsThread(s, u) ==> Wants(s', u) == Wants(s, u) && Keeps(s', u) == Keeps(s, u);
  }

  lemma AcceptKeepsDescriptors(s: State, fd: int)
    requires Shaped(s) && Descriptors(s) && Enabled(s, Accept(fd))
    ensures Descriptors(Apply(s, Accept(fd)))
  {
    var s' := Apply(s, Accept(fd));
    assert forall d: nat :: Live(s', d) == Live(s, d);
    forall i: nat | Waiting(s', i) ensures s'.accepted[i] == fd || (i > 0 && Waiting(s, i - 1) && s'.accepted[i] == s.accepted[i - 1]) {
    }
  }

  lemma HandOffKeepsInv(s: State, a: Action)
    requires Inv(s) && Enabled(s, a) && (a.Accept? || a.BeginHandOff? || a.EndHandOff?)
    ensures Inv(Apply(s, a))
  {
    var s' := Apply(s, a);
    assert Descriptors(s') by {
      if a.Accept? {
        AcceptKeepsDescriptors(s, a.fd);
      } else {
        assert forall d: nat :: Live(s', d) == Live(s, d);
        assert forall i: nat :: Waiting(s', i) ==> Waiting(s, i);
      }
    }
    SameDevicesKeepInv(s, s');
  }

  lemma HandOverKeepsDevices(s: State)
    requires Inv(s) && Enabled(s, HandOver)
    ensures var s' := Apply(s, HandOver);
            && Shaped(s') && |s'.devs| == |s.devs| + 1
            && forall d :: 0 <= d < |s'.devs| ==> Counted(s', d) && Outlived(s', d)
  {
    var s' := Apply(s, HandOver);
    var n := |s.devs|;
    forall r | 0 <= r < n ensures n !in Pending(s.receivers[r]) {
      assert Snapshot(s, r);
      assert forall e <- Pending(s.receivers[r]) :: HasBeenRegistered(s, e);
    }
    SnapshotOfNobody(s.receivers, n);
    forall d | 0 <= d < n + 1 ensures Counted(s', d) && Outlived(s', d) {
      SnapshotOfNewDevice(s.receivers, d);
      assert d < n ==> Counted(s, d) && Outlived(s, d);
    }
  }

  lemma HandOverKeepsLocal(s: State)
    requires Inv(s) && Enabled(s, HandOver)
    ensures var s' := Apply(s, HandOver);
            && forall d :: 0 <= d < |s'.devs| ==> Phased(s', d) && Snapshot(s', d) && Conserved(s', d) && Unlocked(s', d)
  {
    var s' := Apply(s, HandOver);
    assert forall d: nat :: IsRegistered(s, d) ==> IsRegistered(s', d);
    assert forall d: nat :: HasBeenRegistered(s, d) ==> HasBeenRegistered(s', d);
    forall d | 0 <= d < |s'.devs| ensures Phased(s', d) && Snapshot(s', d) && Conserved(s', d) && Unlocked(s', d) {
      assert d < |s.devs| ==> Phased(s, d) && Snapshot(s, d) && Conserved(s, d) && Unlocked(s, d);
    }
  }

  lemma HandOverKeepsShared(s: State)
    requires Inv(s) && Enabled(s, HandOver)
    ensures RegistryExact(Apply(s, HandOver)) && LockedRightly(Apply(s, HandOver)) && Descriptors(Apply(s, HandOver))
  {
    var s' := Apply(s, HandOver);
    assert forall d: nat :: IsRegistered(s', d) == IsRegistered(s, d);
    assert forall d :: 0 <= d < |s.devs| ==> s'.devs[d] == s.devs[d];
    assert forall u :: IsThread(s, u) ==> Wants(s', u) == Wants(s, u) && Keeps(s', u) == Keeps(s, u);
    assert forall u :: IsThread(s', u) && !IsThread(s, u) ==> Keeps(s', u) == NoLock;
    HandOverKeepsDescriptors(s);
  }

  lemma HandOverKeepsDescriptors(s: State)
    requires Shaped(s) && Descriptors(s) && Enabled(s, HandOver)
    ensures Descriptors(Apply(s, HandOver))
  {
    var s' := Apply(s, HandOver);
    assert Waiting(s, s.cursor);
    assert forall d: nat :: d < |s.devs| ==> s'.devs[d] == s.devs[d] && Live(s', d) == Live(s, d);
    assert forall d: nat :: Live(s', d) ==> d < |s.devs| || (d == |s.devs| && s'.devs[d].fd == s.accepted[s.cursor]);
    assert forall i: nat :: Waiting(s', i) ==> Waiting(s, i) && i != s.cursor;
  }

  lemma HandOverKeepsInv(s: State)
    requires Inv(s) && Enabled(s, HandOver)
    ensures Inv(Apply(s, HandOver))
  {
    HandOverKeepsDevices(s);
    HandOverKeepsLocal(s);
    HandOverKeepsShared(s);
  }

  // ---------------------------------------------------------------- every step, every run

  lemma MainKeepsInv(s: State, d: nat)
    requires MainCanMove(s, d)
    ensures Inv(AdvanceMain(s, d))
  {
    MainKeepsCounts(s, d);
    MainKeepsPhases(s, d);
    MainKeepsSnapshots(s, d);
    MainKeepsOutboxes(s, d);
    MainKeepsLifetimes(s, d);
    MainKeepsShared(s, d);
  }

  lemma SenderKeepsInv(s: State, d: nat)
    requires SenderCanMove(s, d)
    ensures Inv(AdvanceSender(s, d))
  {
    SenderKeepsCounts(s, d);
    SenderKeepsPhases(s, d);
    SenderKeepsSnapshots(s, d);
    SenderKeepsOutboxes(s, d);
    SenderKeepsLifetimes(s, d);
    SenderKeepsShared(s, d);
  }

  lemma StepKeepsInv(s: State, a: Action, s': State)
    requires Inv(s) && Step(s, a, s')
    ensures Inv(s')
  {
    match a
    case HandOver => HandOverKeepsInv(s);
    case TakeLock(t) => TakeLockKeepsInv(s, t);
    case Advance(t) => AdvanceKeepsInv(s, t);
    case Pick(r, e) => PickKeepsInv(s, r, e);
    case Hear(r, m) => InputKeepsInv(s, r, Move(Log(m), NoLock, RVerified(m)));
    case Refuse(r) => InputKeepsInv(s, r, Move(Nothing, NoLock, RRefresh));
    case HangUp(r) => InputKeepsInv(s, r, Move(Nothing, NoLock, RLeave));
    case _ => HandOffKeepsInv(s, a);
  }

  lemma AdvanceKeepsInv(s: State, t: Thread)
    requires Inv(s) && Enabled(s, Advance(t)) && !Faulty(s, Advance(t))
    ensures Inv(Apply(s, Advance(t)))
  {
    assert t.d in Touched(s, t);
    match t
    case Main(d) => MainKeepsInv(s, d);
    case Sender(d) => SenderKeepsInv(s, d);
    case Receiver(d) => ReceiverKeepsInv(s, d);
  }

  // ---------------------------------------------------------------- a uniform view of steps

  datatype Deed = NoDeed | Deed(d: nat, effect: Effect, unlock: MaybeLock)

  // Which thread's effect an action performs; taking a mutex and the hand-off perform none.
  ghost function DeedOf(s: State, a: Action): Deed
    requires Shaped(s) && Enabled(s, a)
  {
    match a
    case Advance(Main(d)) => var move := MainMove(s.mains[d], s.devs[d], d); Deed(d, move.effect, move.unlock)
    case Advance(Sender(d)) => var move := SenderMove(s.senders[d], s.devs[d], d); Deed(d, move.effect, move.unlock)
    case Advance(Receiver(d)) => var move := ReceiverMove(s.receivers[d], s.devs[d], d); Deed(d, move.effect, move.unlock)
    case Hear(r, m) => Deed(r, Log(m), NoLock)
    case Refuse(r) => Deed(r, Nothing, NoLock)
    case HangUp(r) => Deed(r, Nothing, NoLock)
    case Pick(r, e) => Deed(r, Nothing, NoLock)
    case _ => NoDeed
  }

  // Existing devices, their threads and the registry are as before; new devices are fresh.
  ghost predicate Quiet(s: State, s': State)
    requires Shaped(s) && Shaped(s')
  {
    && |s.devs| <= |s'.devs|
    && (forall d :: 0 <= d < |s.devs| ==>
          s'.devs[d] == s.devs[d] && s'.mains[d] == s.mains[d]
          && s'.senders[d] == s.senders[d] && s'.receivers[d] == s.receivers[d])
    && (forall d :: |s.devs| <= d < |s'.devs| ==>
          s'.devs[d] == Device(s'.devs[d].fd, 0, Initial, 0, true, [], [], [], [])
          && s'.mains[d] == MStart && s'.senders[d] == SNone && s'.receivers[d] == RNone)
    && s'.registry == s.registry
  }

  lemma StepPerforms(s: State, a: Action, s': State)
    requires Inv(s) && Step(s, a, s')
    ensures var deed := DeedOf(s, a);
            if deed.NoDeed? then Quiet(s, s')
            else Performed(s, s', deed.d, deed.effect, deed.unlock) && Live(s, Target(deed.effect, deed.d))
  {
    match a
    case Advance(t) => AdvancePerforms(s, t);
    case Hear(r, m) => ReaderIsLive(s, r);
    case Refuse(r) => ReaderIsLive(s, r);
    case HangUp(r) => ReaderIsLive(s, r);
    case Pick(r, e) => ReaderIsLive(s, r);
    case _ =>
  }

  lemma AdvancePerforms(s: State, t: Thread)
    requires Inv(s) && Enabled(s, Advance(t)) && !Faulty(s, Advance(t))
    ensures var deed := DeedOf(s, Advance(t));
            && deed.Deed? && Performed(s, Apply(s, Advance(t)), deed.d, deed.effect, deed.unlock)
            && Live(s, Target(deed.effect, deed.d))
  {
    assert t.d in Touched(s, t);
    if t.Receiver? {
      ReceiverMoveIsGood(s, t.d);
    }
  }

  lemma ReaderIsLive(s: State, r: nat)
    requires Inv(s) && r < |s.devs| && !s.receivers[r].RDone?
    ensures Live(s, r)
  {
    assert Outlived(s, r);
  }

  lemma InitialInv()
    ensures Inv(INITIAL)
  {
  }

  lemma {:induction false} RunKeepsInv(run: Run)
    requires IsRun(run)
    ensures Inv(Last(run))
  {
    if run.Start? {
      InitialInv();
    } else {
      RunKeepsInv(run.before);
      StepKeepsInv(Last(run.before), run.a, run.s);
    }
  }
}

/** Facts about single moves of the three thread programs, without the rest of the machine. */
module RelayPrograms {
  import opened RelayState
  import opened RelayInvariant

  function RefChange(effect: Effect, e: nat): int {
    if effect == Acquire(e) then 1 else if effect == Release(e) then -1 else 0
  }

  // The part of the count of e that receiver d accounts for.
  function ReceiverShare(dev: Device, pc: ReceiverPc, d: nat, e: nat): nat {
    (if e == d then ReceiverHolds(pc) + RegistryHolds(dev, pc) else 0) + Occurs(pc, e)
  }

  lemma MainBalance(pc: MainPc, dev: Device, d: nat)
    ensures MainHolds(MainMove(pc, dev, d).next) == MainHolds(pc) + RefChange(MainMove(pc, dev, d).effect, d)
  {
  }

  lemma SenderBalance(pc: SenderPc, dev: Device, d: nat)
    ensures SenderHolds(SenderMove(pc, dev, d).next) == SenderHolds(pc) + RefChange(SenderMove(pc, dev, d).effect, d)
  {
  }

  predicate SnapshotFits(pc: ReceiverPc) {
    NoRepeats(Pending(pc)) && (pc.RTake? ==> pc.next !in pc.taken)
  }

  lemma NoRepeatsHead(x: nat, rest: seq<nat>)
    requires NoRepeats([x] + rest)
    ensures x !in rest && NoRepeats(rest)
  {
    var q := [x] + rest;
    assert forall i :: 0 <= i < |rest| ==> q[i + 1] == rest[i];
    forall i | 0 <= i < |rest| ensures rest[i] != x {
      assert q[0] != q[i + 1];
    }
    forall i, j | 0 <= i < j < |rest| ensures rest[i] != rest[j] {
      assert q[i + 1] != q[j + 1];
    }
  }

  predicate InBroadcast(pc: ReceiverPc) {
    pc.RBroadcast? || pc.RCollect? || pc.RTake? || pc.RSend? || pc.RDrop? || pc.RSignal?
  }

  predicate InHandler(pc: ReceiverPc) {
    pc.RVerified? || pc.RPromote? || pc.RRegAcquire? || pc.RInsert?
  }

  ghost predicate Balanced(pc: ReceiverPc, dev: Device, d: nat, e: nat, move: Move<ReceiverPc>) {
    ReceiverShare(Written(dev, move.effect), move.next, d, e)
    == ReceiverShare(dev, pc, d, e) + RefChange(move.effect, e)
  }

  lemma BroadcastBalance(pc: ReceiverPc, dev: Device, d: nat, e: nat)
    requires ReceiverFits(dev, pc) && SnapshotFits(pc) && InBroadcast(pc)
    ensures Balanced(pc, dev, d, e, BroadcastMove(pc, d))
  {
    var move := BroadcastMove(pc, d);
    assert Registered(dev, pc) && Registered(Written(dev, move.effect), move.next);
    assert ReceiverHolds(pc) == 1 == ReceiverHolds(move.next);
    BroadcastShare(pc, d, e);
  }

  lemma BroadcastShare(pc: ReceiverPc, d: nat, e: nat)
    requires SnapshotFits(pc) && InBroadcast(pc)
    ensures Occurs(BroadcastMove(pc, d).next, e) == Occurs(pc, e) + RefChange(BroadcastMove(pc, d).effect, e)
  {
    match pc
    case RSend(m, todo) =>
      if todo != [] { assert todo == [todo[0]] + todo[1..]; }
    case RDrop(m, x, rest) => NoRepeatsHead(x, rest);
    case _ =>
  }

  lemma HandlerBalance(pc: ReceiverPc, dev: Device, d: nat, e: nat)
    requires ReceiverFits(dev, pc) && InHandler(pc)
    ensures Balanced(pc, dev, d, e, HandlerMove(pc, dev, d))
  {
  }

  lemma LoopBalance(pc: ReceiverPc, dev: Device, d: nat, e: nat)
    requires ReceiverFits(dev, pc) && !InBroadcast(pc) && !InHandler(pc)
    ensures Balanced(pc, dev, d, e, ReceiverMove(pc, dev, d))
  {
  }

  lemma ReceiverBalance(pc: ReceiverPc, dev: Device, d: nat, e: nat)
    requires ReceiverFits(dev, pc) && SnapshotFits(pc)
    ensures Balanced(pc, dev, d, e, ReceiverMove(pc, dev, d))
  {
    if InBroadcast(pc) {
      BroadcastBalance(pc, dev, d, e);
    } else if InHandler(pc) {
      HandlerBalance(pc, dev, d, e);
    } else {
      LoopBalance(pc, dev, d, e);
    }
  }

  ghost predicate KeepsFit(dev: Device, move: Move<ReceiverPc>) {
    ReceiverFits(Written(dev, move.effect), move.next) && SnapshotFits(move.next) && NetworkZero(move.next)
  }

  lemma BroadcastKeepsFit(pc: ReceiverPc, dev: Device, d: nat)
    requires ReceiverFits(dev, pc) && SnapshotFits(pc) && NetworkZero(pc) && InBroadcast(pc)
    ensures KeepsFit(dev, BroadcastMove(pc, d))
  {
    match pc
    case RSend(m, todo) =>
      if todo != [] { assert todo == [todo[0]] + todo[1..]; }
    case RDrop(m, x, rest) => NoRepeatsHead(x, rest);
    case _ =>
  }

  lemma HandlerKeepsFit(pc: ReceiverPc, dev: Device, d: nat)
    requires ReceiverFits(dev, pc) && NetworkZero(pc) && InHandler(pc)
    ensures KeepsFit(dev, HandlerMove(pc, dev, d))
  {
  }

  lemma LoopKeepsFit(pc: ReceiverPc, dev: Device, d: nat)
    requires ReceiverFits(dev, pc) && !InBroadcast(pc) && !InHandler(pc) && !pc.RNone?
    ensures KeepsFit(dev, ReceiverMove(pc, dev, d))
  {
  }

  lemma ReceiverKeepsFit(pc: ReceiverPc, dev: Device, d: nat)
    requires ReceiverFits(dev, pc) && SnapshotFits(pc) && NetworkZero(pc) && !pc.RNone?
    ensures KeepsFit(dev, ReceiverMove(pc, dev, d))
  {
    if InBroadcast(pc) {
      BroadcastKeepsFit(pc, dev, d);
    } else if InHandler(pc) {
      HandlerKeepsFit(pc, dev, d);
    } else {
      LoopKeepsFit(pc, dev, d);
    }
  }

  // Only the insertion and the erasure change whether the device is registered.
  predicate MembershipMove(pc: ReceiverPc, dev: Device, move: Move<ReceiverPc>) {
    && (move.effect.Insert? || move.effect.Promote? ==> !Registered(dev, pc))
    && (move.effect.Insert? ==> !Enrolled(dev, pc))
    && (move.effect.Erase? ==> Registered(dev, pc))
    && (Enrolled(dev, pc) ==> Enrolled(Written(dev, move.effect), move.next))
    && Registered(Written(dev, move.effect), move.next) ==
         if move.effect.Insert? then true else if move.effect.Erase? then false else Registered(dev, pc)
  }

  lemma ReceiverMembership(pc: ReceiverPc, dev: Device, d: nat)
    requires ReceiverFits(dev, pc)
    ensures MembershipMove(pc, dev, ReceiverMove(pc, dev, d))
  {
    if InBroadcast(pc) {
      assert Registered(dev, pc);
      var move := BroadcastMove(pc, d);
      assert Written(dev, move.effect).connection == dev.connection;
    }
  }

  // A move adds at most the device just acquired to the snapshot, and never starts to acquire one.
  ghost predicate CarriesOver(pc: ReceiverPc, move: Move<ReceiverPc>) {
    && (forall e <- Pending(move.next) :: e in Pending(pc) || (pc.RTake? && e == pc.next))
    && !move.next.RTake?
    && (move.next.RCollect? ==> pc.RTake? || Pending(move.next) == [])
    && (pc.RCollect? || pc.RTake? ==> !move.effect.Insert? && !move.effect.Erase?)
  }

  lemma ReceiverCarriesOver(pc: ReceiverPc, dev: Device, d: nat)
    ensures CarriesOver(pc, ReceiverMove(pc, dev, d))
  {
    if pc.RSend? && pc.todo != [] {
      assert pc.todo == [pc.todo[0]] + pc.todo[1..];
    }
  }

  // A thread that had `wants` and `keeps` and unlocks `unlock` still has exactly `left`.
  predicate LockMove(wants: MaybeLock, keeps: MaybeLock, unlock: MaybeLock, left: MaybeLock) {
    && (unlock.Need? ==> unlock == wants || unlock == keeps)
    && (wants.Need? && unlock != wants ==> left == wants)
    && (keeps.Need? && unlock != keeps ==> left == keeps)
    && (left.Need? ==> unlock != left && (left == wants || left == keeps))
  }

  lemma ReceiverLockMove(pc: ReceiverPc, dev: Device, d: nat)
    ensures var move := ReceiverMove(pc, dev, d);
            LockMove(ReceiverWants(pc, d), ReceiverKeeps(pc), move.unlock, ReceiverKeeps(move.next))
  {
    if InBroadcast(pc) {
      BroadcastLockMove(pc, d);
    } else if InHandler(pc) {
      HandlerLockMove(pc, dev, d);
    }
  }

  lemma BroadcastLockMove(pc: ReceiverPc, d: nat)
    requires InBroadcast(pc)
    ensures var move := BroadcastMove(pc, d);
            LockMove(ReceiverWants(pc, d), ReceiverKeeps(pc), move.unlock, ReceiverKeeps(move.next))
  {
  }

  lemma HandlerLockMove(pc: ReceiverPc, dev: Device, d: nat)
    requires InHandler(pc)
    ensures var move := HandlerMove(pc, dev, d);
            LockMove(ReceiverWants(pc, d), ReceiverKeeps(pc), move.unlock, ReceiverKeeps(move.next))
  {
  }
}

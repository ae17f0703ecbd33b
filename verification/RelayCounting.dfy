/** The reference counts: sums over all snapshots, the 32-bit bound, and preservation by every step. */
module RelayCounting {
  import opened Bytes
  import opened RelayState
  import opened RelayInvariant
  import opened RelayPrograms

  // ---------------------------------------------------------------- sums over snapshots

  lemma {:induction false} SnapshotUpdate(rs: seq<ReceiverPc>, r: nat, pc: ReceiverPc, e: nat)
    requires r < |rs|
    ensures SnapshotHolds(rs[r := pc], e) == SnapshotHolds(rs, e) - Occurs(rs[r], e) + Occurs(pc, e)
  {
    var n := |rs| - 1;
    if r == n {
      assert rs[r := pc][..n] == rs[..n];
    } else {
      assert rs[r := pc][..n] == rs[..n][r := pc];
      SnapshotUpdate(rs[..n], r, pc, e);
    }
  }

  lemma {:induction false} SnapshotIncludes(rs: seq<ReceiverPc>, r: nat, e: nat)
    requires r < |rs|
    ensures SnapshotHolds(rs, e) >= Occurs(rs[r], e)
  {
    var n := |rs| - 1;
    if r < n {
      SnapshotIncludes(rs[..n], r, e);
    }
  }

  lemma SnapshotOfNewDevice(rs: seq<ReceiverPc>, e: nat)
    ensures SnapshotHolds(rs + [RNone], e) == SnapshotHolds(rs, e)
  {
    assert (rs + [RNone])[..|rs|] == rs;
  }

  // A device nobody has snapshotted is in no sum.
  lemma {:induction false} SnapshotOfNobody(rs: seq<ReceiverPc>, e: nat)
    requires forall r :: 0 <= r < |rs| ==> e !in Pending(rs[r])
    ensures SnapshotHolds(rs, e) == 0
  {
    if rs != [] {
      SnapshotOfNobody(rs[..|rs| - 1], e);
    }
  }

  // ---------------------------------------------------------------- the counter never wraps

  function LiveFds(devs: seq<Device>): set<int> {
    if devs == [] then {}
    else LiveFds(devs[..|devs| - 1]) + if devs[|devs| - 1].live then {devs[|devs| - 1].fd} else {}
  }

  lemma {:induction false} LiveFdsMember(devs: seq<Device>, fd: int) returns (i: nat)
    requires fd in LiveFds(devs)
    ensures i < |devs| && devs[i].live && devs[i].fd == fd
  {
    i := |devs| - 1;
    if !(devs[i].live && devs[i].fd == fd) {
      i := LiveFdsMember(devs[..i], fd);
    }
  }

  ghost predicate DistinctLive(devs: seq<Device>) {
    forall i, j :: 0 <= i < j < |devs| && devs[i].live && devs[j].live ==> devs[i].fd != devs[j].fd
  }

  lemma {:induction false} SnapshotBound(devs: seq<Device>, rs: seq<ReceiverPc>, e: nat)
    requires |devs| == |rs| && DistinctLive(devs)
    requires forall r :: 0 <= r < |rs| && Occurs(rs[r], e) != 0 ==> devs[r].live
    ensures SnapshotHolds(rs, e) <= |LiveFds(devs)|
  {
    if rs != [] {
      var n := |rs| - 1;
      SnapshotBound(devs[..n], rs[..n], e);
      if devs[n].live && devs[n].fd in LiveFds(devs[..n]) {
        var i := LiveFdsMember(devs[..n], devs[n].fd);
        assert false;
      }
    }
  }

  lemma {:induction false} SmallSet(q: set<int>, n: nat)
    requires forall x <- q :: 0 <= x < n
    ensures |q| <= n
  {
    if n == 0 {
      assert forall x <- q :: false;
    } else {
      SmallSet(q - {n - 1}, n - 1);
    }
  }

  // Descriptors are distinct C ints, so a count stays far below the width of memory_pointers.
  lemma HoldersBound(s: State, d: nat)
    requires Shaped(s) && d < |s.devs| && Descriptors(s)
    requires forall r :: 0 <= r < |s.devs| ==> Outlived(s, r)
    ensures Holders(s, d) <= 4 + FD_LIMIT < WRAP_32 - 1
  {
    forall r | 0 <= r < |s.devs| && Occurs(s.receivers[r], d) != 0
      ensures s.devs[r].live
    {
      assert Outlived(s, r);
    }
    forall i, j | 0 <= i < j < |s.devs| && s.devs[i].live && s.devs[j].live
      ensures s.devs[i].fd != s.devs[j].fd
    {
      assert Live(s, i) && Live(s, j);
    }
    SnapshotBound(s.devs, s.receivers, d);
    forall x <- LiveFds(s.devs) ensures 0 <= x < FD_LIMIT {
      var i := LiveFdsMember(s.devs, x);
      assert Live(s, i);
    }
    SmallSet(LiveFds(s.devs), FD_LIMIT);
  }


  // ---------------------------------------------------------------- preservation

  // A count that can take one more reference without wrapping.
  ghost predicate HasRoom(s: State, e: nat)
    requires Shaped(s)
  {
    e < |s.devs| && Counted(s, e) && Holders(s, e) < WRAP_32 - 1
  }

  // An effect changes the count of e by exactly the references it takes or drops.
  lemma RefsAfter(s: State, d: nat, effect: Effect, unlock: MaybeLock, e: nat)
    requires Shaped(s) && d < |s.devs| && Target(effect, d) < |s.devs| && e < |s.devs|
    requires effect == Acquire(e) ==> s.devs[e].refs < WRAP_32 - 1
    requires effect == Release(e) ==> s.devs[e].refs > 0
    ensures Perform(s, d, effect, unlock).devs[e].refs == s.devs[e].refs + RefChange(effect, e)
  {
  }

  lemma MainCounted(s: State, d: nat, move: Move<MainPc>, e: nat)
    requires Shaped(s) && d < |s.devs| && HasRoom(s, e) && Target(move.effect, d) == d
    requires move.effect.StartSender? ==> s.senders[d].SNone?
    requires move.effect.StartReceiver? ==> s.receivers[d].RNone? && s.devs[d].connection.Initial?
    requires !move.effect.Promote? && !move.effect.Close?
    requires MainHolds(move.next) == MainHolds(s.mains[d]) + RefChange(move.effect, d)
    ensures Counted(StepMain(s, d, move), e)
  {
    RefsAfter(s, d, move.effect, move.unlock, e);
    if move.effect.StartReceiver? {
      SnapshotUpdate(s.receivers, d, RStart, e);
    }
  }

  lemma SenderCounted(s: State, d: nat, move: Move<SenderPc>, e: nat)
    requires Shaped(s) && d < |s.devs| && HasRoom(s, e) && Target(move.effect, d) == d
    requires !move.effect.Promote? && !move.effect.Close?
    requires SenderHolds(move.next) == SenderHolds(s.senders[d]) + RefChange(move.effect, d)
    ensures Counted(StepSender(s, d, move), e)
  {
    RefsAfter(s, d, move.effect, move.unlock, e);
  }

  lemma ReceiverCounted(s: State, d: nat, move: Move<ReceiverPc>, e: nat)
    requires Shaped(s) && d < |s.devs| && HasRoom(s, e) && Target(move.effect, d) < |s.devs|
    requires Balanced(s.receivers[d], s.devs[d], d, e, move)
    ensures Counted(StepReceiver(s, d, move), e)
  {
    SnapshotIncludes(s.receivers, d, e);
    SnapshotUpdate(s.receivers, d, move.next, e);
    RefsAfter(s, d, move.effect, move.unlock, e);
  }
}

/** No deadlock on mutexes. */
module RelayMutexes {
  import opened RelayState
  import opened RelayInvariant
  import opened RelayInduction
  import opened RelaySafety

  // t needs a mutex that u owns.
  ghost predicate WaitsFor(s: State, t: Thread, u: Thread)
    requires Shaped(s)
  {
    IsThread(s, t) && t != u && Wants(s, t).Need? && Holds(s, u, Wants(s, t).l)
  }

  ghost predicate Blocked(s: State, t: Thread)
    requires Shaped(s)
  {
    exists u :: WaitsFor(s, t, u)
  }

  // Threads waiting for an items mutex rank below threads waiting for the registry or a buffer.
  ghost function Rank(s: State, t: Thread): nat
    requires Shaped(s)
  {
    if !Blocked(s, t) then 0 else if Wants(s, t).l.Items? then 1 else 2
  }

  lemma OwnerOfWanted(s: State, t: Thread)
    requires Shaped(s) && IsThread(s, t) && HasWanted(s, t)
    ensures !Blocked(s, t)
  {
  }

  lemma WaitingLowersRank(s: State, t: Thread, u: Thread)
    requires Shaped(s) && LockedRightly(s) && WaitsFor(s, t, u)
    ensures IsThread(s, u) && Rank(s, u) < Rank(s, t)
  {
    var l := Wants(s, t).l;
    assert l in s.locks && s.locks[l] == u;
    if Wants(s, u) == Need(l) {
      OwnerOfWanted(s, u);
    }
  }

  // A closed chain of threads, each waiting for the next.
  ghost predicate IsCycle(s: State, q: seq<Thread>)
    requires Shaped(s)
  {
    && |q| > 0
    && (forall i :: 0 <= i < |q| - 1 ==> WaitsFor(s, q[i], q[i + 1]))
    && WaitsFor(s, q[|q| - 1], q[0])
  }

  lemma {:induction false} RanksFall(s: State, q: seq<Thread>, i: nat)
    requires Shaped(s) && LockedRightly(s) && i < |q|
    requires forall j :: 0 <= j < |q| - 1 ==> WaitsFor(s, q[j], q[j + 1])
    ensures Rank(s, q[i]) <= Rank(s, q[0]) - i
  {
    if i > 0 {
      RanksFall(s, q, i - 1);
      WaitingLowersRank(s, q[i - 1], q[i]);
    }
  }

  lemma NoCycle(s: State, q: seq<Thread>)
    requires Shaped(s) && LockedRightly(s)
    ensures !IsCycle(s, q)
  {
    if IsCycle(s, q) {
      RanksFall(s, q, |q| - 1);
      WaitingLowersRank(s, q[|q| - 1], q[0]);
    }
  }

  // In every reachable state the waits-for graph is acyclic.
  lemma NoDeadlock(run: Run, q: seq<Thread>)
    requires IsRun(run)
    ensures !IsCycle(Last(run), q)
  {
    RunKeepsInv(run);
    hide IsRun;
    NoCycle(Last(run), q);
  }

  ghost predicate ActsFor(s: State, a: Action, t: Thread)
    requires Shaped(s)
  {
    Enabled(s, a) && ((a.Advance? && a.t == t) || (a.TakeLock? && a.t == t) || (a.Pick? && t == Receiver(a.r)))
  }

  // A thread that owns a mutex and is not blocked has a step to take.
  lemma OwnerCanAct(s: State, u: Thread, l: Lock) returns (a: Action)
    requires Shaped(s) && LockedRightly(s) && Holds(s, u, l) && !Blocked(s, u)
    ensures ActsFor(s, a, u)
  {
    assert l in s.locks && IsThread(s, u);
    if HasWanted(s, u) {
      a := Advance(u);
      if !Runnable(s, u) {
        var pc := s.receivers[u.d];
        var k :| k in s.registry && k.networkId == pc.m.networkId && s.registry[k] !in pc.taken;
        a := Pick(u.d, s.registry[k]);
        assert IsMember(s, pc.m.networkId, s.registry[k]);
      }
    } else {
      a := TakeLock(u);
      if Wants(s, u).l in s.locks {
        assert WaitsFor(s, u, s.locks[Wants(s, u).l]);
      }
    }
  }

  // The owner of a mutex is no late sender, so its step is defined.
  lemma OwnerIsSafe(s: State, u: Thread, l: Lock, a: Action)
    requires Inv(s) && Holds(s, u, l) && ActsFor(s, a, u)
    ensures !Faulty(s, a)
  {
    OnlyLateSendersFault(s, a);
    if u.Sender? && LateSender(s, u.d) {
      assert LockedRightly(s) && Unlocked(s, u.d);
    }
    hide Inv, Faulty;
  }

  // Behind every blocked thread stands one that can move: following the owners of the wanted
  // mutexes leads, in at most two hops, to a thread with an enabled step.
  lemma SomebodyCanMove(run: Run, t: Thread) returns (u: Thread, v: Thread, a: Action)
    requires IsRun(run) && Blocked(Last(run), t)
    ensures WaitsFor(Last(run), t, u) && (v == u || WaitsFor(Last(run), u, v))
    ensures !Blocked(Last(run), v) && ActsFor(Last(run), a, v) && !Faulty(Last(run), a)
  {
    var s := Last(run);
    RunKeepsInv(run);
    hide IsRun;
    u :| WaitsFor(s, t, u);
    v := u;
    WaitingLowersRank(s, t, u);
    if Blocked(s, u) {
      v :| WaitsFor(s, u, v);
      WaitingLowersRank(s, u, v);
      a := OwnerCanAct(s, v, Wants(s, u).l);
      OwnerIsSafe(s, v, Wants(s, u).l, a);
    } else {
      a := OwnerCanAct(s, v, Wants(s, t).l);
      OwnerIsSafe(s, v, Wants(s, t).l, a);
    }
  }
}

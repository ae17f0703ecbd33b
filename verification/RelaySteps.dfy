/** Each part of the invariant is kept by any move with the right local properties. */
module RelaySteps {
  import opened RelayState
  import opened RelayInvariant
  import opened RelayPrograms

  // s' has the shared memory that the effect leaves; program counters may be anything.
  ghost predicate Performed(s: State, s': State, d: nat, effect: Effect, unlock: MaybeLock) {
    && Shaped(s) && Shaped(s') && |s'.devs| == |s.devs|
    && d < |s.devs| && Target(effect, d) < |s.devs|
    && var p := Perform(s, d, effect, unlock);
       s' == p.(mains := s'.mains, senders := s'.senders, receivers := s'.receivers)
  }

  // ---------------------------------------------------------------- descriptors

  lemma DescriptorsKept(s: State, s': State, d: nat, effect: Effect, unlock: MaybeLock)
    requires Performed(s, s', d, effect, unlock) && Descriptors(s)
    requires effect.Release? ==> Live(s, effect.e)
    ensures Descriptors(s')
  {
    assert forall e :: 0 <= e < |s.devs| ==> s'.devs[e].fd == s.devs[e].fd;
    assert forall e: nat :: Live(s', e) ==> Live(s, e);
    assert forall i: nat :: Waiting(s', i) == Waiting(s, i);
  }

  // ---------------------------------------------------------------- registry

  ghost predicate MembershipFollows(s: State, s': State, d: nat, effect: Effect)
    requires Shaped(s) && Shaped(s')
  {
    && (effect.Insert? ==> !IsRegistered(s, d))
    && (effect.Promote? ==> !IsRegistered(s, d))
    && (effect.Erase? ==> IsRegistered(s, d))
    && (forall e: nat {:trigger IsRegistered(s', e)} {:trigger IsRegistered(s, e)} ::
          IsRegistered(s', e) == if e == d && effect.Insert? then true else if e == d && effect.Erase? then false else IsRegistered(s, e))
  }

  lemma RegisteredIsLive(s: State, e: nat)
    requires Shaped(s) && IsRegistered(s, e) && Outlived(s, e) && Phased(s, e)
    ensures Live(s, e)
  {
  }

  // Live devices have distinct descriptors, so an insertion finds no equal element.
  lemma SlotIsFree(s: State, d: nat)
    requires Shaped(s) && RegistryExact(s) && Descriptors(s)
    requires forall e :: 0 <= e < |s.devs| ==> Outlived(s, e)
    requires forall e :: 0 <= e < |s.devs| ==> Phased(s, e)
    requires Live(s, d) && !IsRegistered(s, d)
    ensures SlotOf(s.devs[d]) !in s.registry
  {
    if SlotOf(s.devs[d]) in s.registry {
      var e := s.registry[SlotOf(s.devs[d])];
      RegisteredIsLive(s, e);
      assert false;
    }
  }

  lemma RegistryKept(s: State, s': State, d: nat, effect: Effect, unlock: MaybeLock)
    requires Performed(s, s', d, effect, unlock) && RegistryExact(s)
    requires MembershipFollows(s, s', d, effect)
    requires effect.Insert? ==> SlotOf(s.devs[d]) !in s.registry
    ensures RegistryExact(s')
  {
    forall e: nat | e < |s.devs| && !(e == d && effect.Promote?)
      ensures SlotOf(s'.devs[e]) == SlotOf(s.devs[e])
    {
    }
  }

  // ---------------------------------------------------------------- outgoing buffers

  lemma OutboxStep(dev: Device, pc: SenderPc, d: nat)
    requires OutboxKept(dev, pc)
    ensures OutboxKept(Written(dev, SenderMove(pc, dev, d).effect), SenderMove(pc, dev, d).next)
  {
    if pc.SDrain? && pc.i < pc.n {
      assert dev.outbox[pc.i..] == [dev.outbox[pc.i]] + dev.outbox[pc.i + 1..];
    }
  }

  // Any effect of another thread leaves a buffer conserved; a drained buffer is never posted to.
  lemma OutboxUntouched(dev: Device, pc: SenderPc, effect: Effect)
    requires OutboxKept(dev, pc) && !effect.Hand? && !effect.Clear?
    requires effect.Post? ==> !pc.SDrain?
    ensures OutboxKept(Written(dev, effect), pc)
  {
    if effect.Post? {
      var k := Drained(pc);
      assert (dev.outbox + [effect.entry])[k..] == dev.outbox[k..] + [effect.entry];
    }
  }

  // ---------------------------------------------------------------- mutexes

  lemma OneOwner(s: State, t: Thread, u: Thread, l: Lock)
    requires Shaped(s) && LockedRightly(s)
    requires Holds(s, t, l) && IsThread(s, u) && Keeps(s, u) == Need(l)
    ensures t == u
  {
    assert Holds(s, u, l);
  }

  ghost predicate LocksFollow(s: State, s': State, t: Thread, unlock: MaybeLock)
    requires Shaped(s) && Shaped(s') && IsThread(s, t) && IsThread(s', t)
  {
    && s'.locks == LocksAfter(s.locks, unlock)
    && HasWanted(s, t)
    && LockMove(Wants(s, t), Keeps(s, t), unlock, Keeps(s', t))
  }

  ghost predicate SameLockUse(s: State, s': State, u: Thread)
    requires Shaped(s) && Shaped(s') && |s'.devs| == |s.devs|
  {
    IsThread(s, u) ==>
      && Keeps(s', u) == Keeps(s, u)
      && (Wants(s, u).Need? ==> Wants(s', u) == Wants(s, u))
  }

  lemma LocksKept(s: State, s': State, t: Thread, unlock: MaybeLock)
    requires Shaped(s) && Shaped(s') && |s'.devs| == |s.devs| && IsThread(s, t)
    requires LockedRightly(s) && LocksFollow(s, s', t, unlock)
    requires forall u :: u != t ==> SameLockUse(s, s', u)
    ensures LockedRightly(s')
  {
    forall l <- s'.locks
      ensures IsThread(s', s'.locks[l]) && (Wants(s', s'.locks[l]) == Need(l) || Keeps(s', s'.locks[l]) == Need(l))
    {
      assert l in s.locks && s'.locks[l] == s.locks[l];
      assert s.locks[l] != t ==> SameLockUse(s, s', s.locks[l]);
    }
    forall u | IsThread(s', u) && Keeps(s', u).Need?
      ensures Holds(s', u, Keeps(s', u).l)
    {
      assert u != t ==> SameLockUse(s, s', u);
    }
  }

  // ---------------------------------------------------------------- lifetimes

  lemma OutlivedKept(s: State, s': State, d: nat, effect: Effect, unlock: MaybeLock, e: nat)
    requires Performed(s, s', d, effect, unlock) && e < |s.devs|
    requires Outlived(s, e) && Counted(s, e) && Counted(s', e) && Phased(s', e)
    requires Target(effect, d) == e ==> Live(s, e)
    requires s.devs[e].live || (s'.mains[e] == s.mains[e] && s'.receivers[e] == s.receivers[e] && s'.senders[e] == s.senders[e])
    requires effect == Release(e) ==> !s'.mains[e].MStart?
    ensures Outlived(s', e)
  {
  }

  lemma UnlockedKept(s: State, s': State, d: nat, effect: Effect, unlock: MaybeLock, e: nat)
    requires Performed(s, s', d, effect, unlock) && e < |s.devs| && Unlocked(s, e)
    requires effect.Release? ==> unlock == Need(Items(effect.e))
    ensures Unlocked(s', e)
  {
  }
}

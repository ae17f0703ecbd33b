/** The descriptor-keyed registry behaves as a set of devices. */
module RelayRegistry {
  import opened RelayState
  import opened RelayInvariant
  import opened RelaySteps
  import opened RelayInduction

  lemma MembersAreRegistered(s: State, e: nat)
    requires Shaped(s) && RegistryExact(s)
    ensures e in Members(s) <==> IsRegistered(s, e)
  {
    if IsRegistered(s, e) {
      assert s.registry[SlotOf(s.devs[e])] == e;
    }
  }

  // Every registered device is alive and sits under its own descriptor, and live devices have
  // distinct descriptors, so the registry maps slots to devices one to one.
  lemma RegistryIsExact(run: Run, k: Slot, k': Slot)
    requires IsRun(run) && k in Last(run).registry && k' in Last(run).registry
    ensures Live(Last(run), Last(run).registry[k])
    ensures k.fd == Last(run).devs[Last(run).registry[k]].fd && k.networkId == 0
    ensures Last(run).registry[k] == Last(run).registry[k'] ==> k == k'
    ensures k.fd == k'.fd ==> Last(run).registry[k] == Last(run).registry[k']
  {
    var s := Last(run);
    RunKeepsInv(run);
    hide IsRun;
    var e, e' := s.registry[k], s.registry[k'];
    assert IsRegistered(s, e) && IsRegistered(s, e');
    assert Outlived(s, e) && Outlived(s, e') && Phased(s, e) && Phased(s, e');
    RegisteredIsLive(s, e);
    RegisteredIsLive(s, e');
  }

  ghost predicate SetFollows(deed: Deed, before: set<nat>, after: set<nat>) {
    if deed.Deed? && deed.effect.Insert? then deed.d !in before && after == before + {deed.d}
    else if deed.Deed? && deed.effect.Erase? then deed.d in before && after == before - {deed.d}
    else after == before
  }

  lemma StepRefinesSet(s: State, a: Action, s': State)
    requires Inv(s) && Step(s, a, s')
    ensures SetFollows(DeedOf(s, a), Members(s), Members(s'))
  {
    hide Inv;
    StepKeepsInv(s, a, s');
    StepPerforms(s, a, s');
    var deed := DeedOf(s, a);
    if deed.Deed? && (deed.effect.Insert? || deed.effect.Erase?) {
      RegistrationFollows(s, a);
    } else {
      hide Step;
      assert s'.registry == s.registry;
    }
  }

  lemma RegistrationFollows(s: State, a: Action)
    requires Inv(s) && Enabled(s, a) && !Faulty(s, a)
    requires DeedOf(s, a).Deed? && (DeedOf(s, a).effect.Insert? || DeedOf(s, a).effect.Erase?)
    ensures SetFollows(DeedOf(s, a), Members(s), Members(Apply(s, a)))
  {
    var deed, s' := DeedOf(s, a), Apply(s, a);
    RegistrationStep(s, a);
    hide Apply, Inv, Faulty, Enabled, DeedOf;
    forall e: nat ensures e in Members(s') <==> if e == deed.d then deed.effect.Insert? else e in Members(s) {
      MembersAreRegistered(s, e);
      MembersAreRegistered(s', e);
    }
    MembersAreRegistered(s, deed.d);
  }

  lemma RegistrationStep(s: State, a: Action)
    requires Inv(s) && Enabled(s, a) && !Faulty(s, a)
    requires DeedOf(s, a).Deed? && (DeedOf(s, a).effect.Insert? || DeedOf(s, a).effect.Erase?)
    ensures RegistryExact(s) && RegistryExact(Apply(s, a))
    ensures MembershipFollows(s, Apply(s, a), DeedOf(s, a).d, DeedOf(s, a).effect)
  {
    StepKeepsInv(s, a, Apply(s, a));
    assert RegistryExact(s) && RegistryExact(Apply(s, a));
    OnlyReceiversRegister(s, a);
    var d := DeedOf(s, a).d;
    ReceiverMoveIsGood(s, d);
    hide Inv, ReceiverMove, RegistryExact;
    GoodMoveMembership(s, d, ReceiverMove(s.receivers[d], s.devs[d], d));
  }

  lemma OnlyReceiversRegister(s: State, a: Action)
    requires Shaped(s) && Enabled(s, a)
    requires DeedOf(s, a).Deed? && (DeedOf(s, a).effect.Insert? || DeedOf(s, a).effect.Erase?)
    ensures a == Advance(Receiver(DeedOf(s, a).d))
  {
    hide Runnable, HasWanted;
  }

  // In every run an insertion is never dropped and adds exactly this device, an erasure removes
  // exactly it, and nothing else changes the set.
  lemma RegistryRefinesSet(run: Run)
    requires run.Then? && IsRun(run)
    ensures SetFollows(DeedOf(Last(run.before), run.a), Members(Last(run.before)), Members(run.s))
  {
    RunKeepsInv(run.before);
    hide Inv;
    StepRefinesSet(Last(run.before), run.a, run.s);
  }

  // A finished snapshot lists every registered device exactly once, the broadcaster itself included.
  lemma SnapshotIsMembership(run: Run, r: nat)
    requires IsRun(run) && r < |Last(run).devs| && Last(run).receivers[r].RCollect?
    requires Enabled(Last(run), Advance(Receiver(r)))
    ensures var taken := Last(run).receivers[r].taken;
            NoRepeats(taken) && r in taken && (set e | e in taken) == Members(Last(run))
  {
    var s := Last(run);
    RunKeepsInv(run);
    hide IsRun;
    var taken := s.receivers[r].taken;
    assert Snapshot(s, r) && Phased(s, r);
    forall e: nat ensures e in taken <==> e in Members(s) {
      MembersAreRegistered(s, e);
      if IsRegistered(s, e) {
        assert Phased(s, e);
        assert SlotOf(s.devs[e]).networkId == 0;
        assert s.registry[SlotOf(s.devs[e])] == e;
      }
    }
    assert IsRegistered(s, r);
    MembersAreRegistered(s, r);
  }
}

/** What reaches the outgoing buffers: conservation, order and exactly-once delivery. */
module RelayDelivery {
  import opened RelayState
  import opened RelayInvariant
  import opened RelayPrograms
  import opened RelaySteps
  import opened RelayInduction
  import opened RelayLifecycle

  // ---------------------------------------------------------------- conservation

  // Everything ever appended is what was handed to send_message followed by the buffer; while the
  // sender drains, the first i elements of the buffer count as handed.
  lemma OutboxConserved(run: Run, d: nat)
    requires IsRun(run) && d < |Last(run).devs|
    ensures Drained(Last(run).senders[d]) <= |Last(run).devs[d].outbox|
    ensures Last(run).devs[d].appended
            == Last(run).devs[d].handed + Last(run).devs[d].outbox[Drained(Last(run).senders[d])..]
    ensures !Last(run).senders[d].SDrain? ==>
              Last(run).devs[d].appended == Last(run).devs[d].handed + Last(run).devs[d].outbox
  {
    RunKeepsInv(run);
    assert Conserved(Last(run), d);
  }

  // ---------------------------------------------------------------- order and exactly-once

  // The entries of a log that come from device r, as messages.
  function From(log: seq<Entry>, r: nat): seq<Frame> {
    if log == [] then []
    else From(log[..|log| - 1], r) + FromEntry(log[|log| - 1], r)
  }

  function FromEntry(entry: Entry, r: nat): seq<Frame> {
    if entry.Forwarded? && entry.source == r then [entry.frame] else []
  }

  lemma FromSnoc(log: seq<Entry>, entry: Entry, r: nat)
    ensures From(log + [entry], r) == From(log, r) + FromEntry(entry, r)
  {
    assert (log + [entry])[..|log|] == log;
  }

  function Payload(m: Message): seq<Frame> {
    if m.isPing then [] else [m.frame]
  }

  // The message that receiver r has verified and not yet appended to the buffer of e.
  function InFlight(pc: ReceiverPc, e: nat): seq<Frame> {
    match pc
    case RVerified(m) => Payload(m)
    case RPromote(m) => Payload(m)
    case RRegAcquire(m) => Payload(m)
    case RInsert(m) => Payload(m)
    case RBroadcast(m) => [m.frame]
    case RCollect(m, _) => [m.frame]
    case RTake(m, _, _) => [m.frame]
    case RSend(m, todo) => if e in todo then [m.frame] else []
    case RDrop(m, _, rest) => if e in rest then [m.frame] else []
    case RSignal(m, _, rest) => if e in rest then [m.frame] else []
    case _ => []
  }

  // What e has been or is about to be given from r.
  ghost function Due(s: State, r: nat, e: nat): seq<Frame>
    requires Shaped(s) && r < |s.devs| && e < |s.devs|
  {
    From(s.devs[e].appended, r) + InFlight(s.receivers[r], e)
  }

  function PostedTo(effect: Effect, r: nat, e: nat): seq<Frame> {
    if effect.Post? && effect.e == e then FromEntry(effect.entry, r) else []
  }

  function Heard(effect: Effect): seq<Frame> {
    if effect.Log? then Payload(effect.m) else []
  }

  // A move of receiver r appends what was in flight and puts in flight what was heard.
  ghost predicate Delivers(pc: ReceiverPc, move: Move<ReceiverPc>, r: nat, e: nat) {
    PostedTo(move.effect, r, e) + InFlight(move.next, e) == InFlight(pc, e) + Heard(move.effect)
  }

  lemma ReceiverDelivers(pc: ReceiverPc, dev: Device, r: nat, e: nat)
    requires SnapshotFits(pc) && (pc.RCollect? ==> e in pc.taken)
    ensures Delivers(pc, ReceiverMove(pc, dev, r), r, e)
  {
    if InBroadcast(pc) {
      BroadcastDelivers(pc, dev, r, e);
    }
  }

  lemma BroadcastDelivers(pc: ReceiverPc, dev: Device, r: nat, e: nat)
    requires SnapshotFits(pc) && InBroadcast(pc) && (pc.RCollect? ==> e in pc.taken)
    ensures Delivers(pc, BroadcastMove(pc, r), r, e)
  {
    if pc.RSend? {
      SendDelivers(pc, r, e);
    } else {
      hide SnapshotFits;
    }
  }

  lemma SendDelivers(pc: ReceiverPc, r: nat, e: nat)
    requires SnapshotFits(pc) && pc.RSend?
    ensures Delivers(pc, BroadcastMove(pc, r), r, e)
  {
    if pc.todo != [] {
      assert pc.todo == [pc.todo[0]] + pc.todo[1..];
      NoRepeatsHead(pc.todo[0], pc.todo[1..]);
    }
  }

  // The log of e after any effect.
  lemma LogAfter(s: State, s': State, d: nat, effect: Effect, unlock: MaybeLock, r: nat, e: nat)
    requires Performed(s, s', d, effect, unlock) && e < |s.devs|
    ensures From(s'.devs[e].appended, r) == From(s.devs[e].appended, r) + PostedTo(effect, r, e)
  {
    if effect.Post? && effect.e == e {
      FromSnoc(s.devs[e].appended, effect.entry, r);
    }
  }

  // One step while e is registered: what is due to e from r grows by exactly what r heard.
  ghost predicate DueFollows(s: State, s': State, r: nat, e: nat)
    requires Shaped(s) && Shaped(s') && r < |s.devs| && e < |s.devs|
  {
    && |s.devs| <= |s'.devs|
    && s.devs[r].heard <= s'.devs[r].heard
    && Due(s', r, e) == Due(s, r, e) + s'.devs[r].heard[|s.devs[r].heard|..]
  }

  lemma HeardAfter(s: State, s': State, d: nat, effect: Effect, unlock: MaybeLock, r: nat)
    requires Performed(s, s', d, effect, unlock) && r < |s.devs|
    ensures s'.devs[r].heard == s.devs[r].heard + if d == r then Heard(effect) else []
  {
  }

  lemma PostThenHear<T>(log: seq<T>, posted: seq<T>, later: seq<T>, before: seq<T>, heard: seq<T>)
    requires posted + later == before + heard
    ensures (log + posted) + later == (log + before) + heard
  {
    assert (log + posted) + later == log + (posted + later);
    assert (log + before) + heard == log + (before + heard);
  }

  // Thread d performs a move; either receiver r stays as it is or it delivers by this move.
  lemma MoveDelivers(s: State, s': State, d: nat, effect: Effect, unlock: MaybeLock, r: nat, e: nat)
    requires Performed(s, s', d, effect, unlock) && r < |s.devs| && e < |s.devs|
    requires PostedTo(effect, r, e) + InFlight(s'.receivers[r], e)
             == InFlight(s.receivers[r], e) + (if d == r then Heard(effect) else [])
    ensures DueFollows(s, s', r, e)
  {
    LogAfter(s, s', d, effect, unlock, r, e);
    HeardAfter(s, s', d, effect, unlock, r);
    hide Performed, InFlight, PostedTo, Heard, From;
    var heard := if d == r then Heard(effect) else [];
    assert s'.devs[r].heard[|s.devs[r].heard|..] == heard;
    PostThenHear(From(s.devs[e].appended, r), PostedTo(effect, r, e), InFlight(s'.receivers[r], e), InFlight(s.receivers[r], e), heard);
  }

  lemma QuietDelivers(s: State, s': State, r: nat, e: nat)
    requires Shaped(s) && Shaped(s') && Quiet(s, s') && r < |s.devs| && e < |s.devs|
    ensures DueFollows(s, s', r, e)
  {
    assert s'.devs[r].heard[|s.devs[r].heard|..] == [];
  }

  // A receiver that finishes its snapshot has taken every registered device.
  lemma RegisteredIsTaken(s: State, r: nat, e: nat)
    requires Inv(s) && r < |s.devs| && s.receivers[r].RCollect? && Runnable(s, Receiver(r)) && IsRegistered(s, e)
    ensures e in s.receivers[r].taken
  {
    assert Snapshot(s, r) && Phased(s, e);
    var k := SlotOf(s.devs[e]);
    assert k in s.registry && s.registry[k] == e && k.networkId == 0;
  }

  lemma AdvanceDelivers(s: State, t: Thread, r: nat, e: nat)
    requires Inv(s) && Enabled(s, Advance(t)) && !Faulty(s, Advance(t))
    requires r < |s.devs| && IsRegistered(s, e)
    ensures DueFollows(s, Apply(s, Advance(t)), r, e)
  {
    var s', deed := Apply(s, Advance(t)), DeedOf(s, Advance(t));
    AdvancePerforms(s, t);
    if t == Receiver(r) {
      assert Snapshot(s, r);
      if s.receivers[r].RCollect? {
        RegisteredIsTaken(s, r, e);
      }
      ReceiverDelivers(s.receivers[r], s.devs[r], r, e);
    }
    AdvanceOfOther(s, t, r, e);
    MoveDelivers(s, s', deed.d, deed.effect, deed.unlock, r, e);
  }

  // A thread other than receiver r neither moves r's program counter nor posts in r's name.
  lemma AdvanceOfOther(s: State, t: Thread, r: nat, e: nat)
    requires Inv(s) && Enabled(s, Advance(t)) && r < |s.devs| && e < |s.devs|
    ensures var deed := DeedOf(s, Advance(t));
            && !deed.effect.Log?
            && (t != Receiver(r) ==>
                  PostedTo(deed.effect, r, e) == []
                  && InFlight(Apply(s, Advance(t)).receivers[r], e) == InFlight(s.receivers[r], e))
  {
    assert Phased(s, t.d);
    hide Inv, ReceiverFits, Written;
  }

  lemma InputDelivers(s: State, a: Action, r: nat, e: nat)
    requires Shaped(s) && Enabled(s, a) && (a.Hear? || a.Refuse? || a.HangUp? || a.Pick?)
    requires r < |s.devs| && e < |s.devs|
    ensures DueFollows(s, Apply(s, a), r, e)
  {
    var deed := DeedOf(s, a);
    MoveDelivers(s, Apply(s, a), deed.d, deed.effect, deed.unlock, r, e);
  }

  lemma StepDelivers(s: State, a: Action, s': State, r: nat, e: nat)
    requires Inv(s) && Step(s, a, s') && r < |s.devs| && IsRegistered(s, e)
    ensures DueFollows(s, s', r, e)
  {
    if a.Advance? {
      AdvanceDelivers(s, a.t, r, e);
    } else if a.Hear? || a.Refuse? || a.HangUp? || a.Pick? {
      InputDelivers(s, a, r, e);
    } else {
      StepPerforms(s, a, s');
      QuietDelivers(s, s', r, e);
    }
  }

  // e is registered in every state of the run from `run` up to, but not including, `later`.
  ghost predicate RegisteredThroughout(run: Run, later: Run, e: nat) {
    run == later ||
    (later.Then? && RegisteredThroughout(run, later.before, e)
     && Shaped(Last(later.before)) && IsRegistered(Last(later.before), e))
  }

  // First in, first out and exactly once: over any stretch of a run during which e is registered, the
  // log of e restricted to source r, completed by the message r is still sending, grows by exactly
  // the valid non-ping messages r heard, in order.
  lemma {:induction false} PerSourceFifo(run: Run, later: Run, r: nat, e: nat)
    requires IsRun(run) && IsRun(later) && RegisteredThroughout(run, later, e)
    requires r < |Last(run).devs| && e < |Last(run).devs|
    ensures |Last(run).devs| <= |Last(later).devs|
    ensures DueFollows(Last(run), Last(later), r, e)
  {
    if run == later {
      assert Last(run).devs[r].heard[|Last(run).devs[r].heard|..] == [];
    } else {
      PerSourceFifo(run, later.before, r, e);
      RunKeepsInv(later.before);
      StepDelivers(Last(later.before), later.a, later.s, r, e);
      hide IsRun, Inv, Step;
      DueComposes(Last(run), Last(later.before), Last(later), r, e);
    }
  }

  lemma DueComposes(s: State, s1: State, s2: State, r: nat, e: nat)
    requires Shaped(s) && Shaped(s1) && Shaped(s2) && r < |s.devs| <= |s1.devs| && e < |s.devs|
    requires DueFollows(s, s1, r, e) && DueFollows(s1, s2, r, e)
    ensures DueFollows(s, s2, r, e)
  {
    hide Due;
    Compose(Due(s, r, e), Due(s1, r, e), Due(s2, r, e), s.devs[r].heard, s1.devs[r].heard, s2.devs[r].heard);
  }

  lemma Compose<T(!new)>(due: seq<T>, due1: seq<T>, due2: seq<T>, q: seq<T>, q1: seq<T>, q2: seq<T>)
    requires q <= q1 <= q2 && due1 == due + q1[|q|..] && due2 == due1 + q2[|q1|..]
    ensures q <= q2 && due2 == due + q2[|q|..]
  {
  }

  // Before a device is inserted into the registry its buffer only ever held the server's pings.
  ghost predicate OnlyPings(log: seq<Entry>) {
    forall i :: 0 <= i < |log| ==> log[i].ServerPing?
  }

  lemma {:induction false} PingsAreFromNobody(log: seq<Entry>, r: nat)
    requires OnlyPings(log)
    ensures From(log, r) == []
  {
    if log != [] {
      PingsAreFromNobody(log[..|log| - 1], r);
    }
  }

  // A broadcast is appended only to a device that has been registered.
  lemma PostsToEnrolled(s: State, a: Action)
    requires Inv(s) && Enabled(s, a) && DeedOf(s, a).Deed?
    ensures var effect := DeedOf(s, a).effect;
            effect.Post? && effect.entry.Forwarded? ==> HasBeenRegistered(s, effect.e)
  {
    if a.Advance? && a.t.Receiver? {
      assert Snapshot(s, a.t.d);
      hide Inv, IsRegistered;
      var pc := s.receivers[a.t.d];
      assert pc.RSend? && pc.todo != [] ==> pc.todo[0] in Pending(pc);
    }
  }

  lemma StepPostsToEnrolled(s: State, a: Action, s': State, d: nat)
    requires Inv(s) && Step(s, a, s') && d < |s'.devs| && !HasBeenRegistered(s', d)
    requires d < |s.devs| ==> OnlyPings(s.devs[d].appended)
    ensures OnlyPings(s'.devs[d].appended)
  {
    StepPerforms(s, a, s');
    hide Apply, Inv, Faulty, HasBeenRegistered;
    var deed := DeedOf(s, a);
    if d < |s.devs| && deed.Deed? {
      StepProgresses(s, a, s', d);
      PostsToEnrolled(s, a);
      hide Step, DeedOf;
    }
  }

  lemma {:induction false} NothingBeforeRegistration(run: Run, d: nat)
    requires IsRun(run) && d < |Last(run).devs| && !HasBeenRegistered(Last(run), d)
    ensures OnlyPings(Last(run).devs[d].appended)
  {
    if run.Then? {
      RunKeepsInv(run.before);
      if d < |Last(run.before).devs| {
        StepProgresses(Last(run.before), run.a, run.s, d);
        NothingBeforeRegistration(run.before, d);
      }
      StepPostsToEnrolled(Last(run.before), run.a, run.s, d);
    }
  }

  lemma InsertionPostsNothing(s: State, a: Action, s': State, d: nat)
    requires Inv(s) && Step(s, a, s') && d < |s.devs| && !HasBeenRegistered(s, d) && IsRegistered(s', d)
    ensures s'.devs[d].appended == s.devs[d].appended
  {
    assert Phased(s, d);
    StepPerforms(s, a, s');
    hide Inv, Faulty, ReceiverFits;
  }

  // The run ends with the insertion of e.
  ghost predicate JustRegistered(run: Run, e: nat) {
    run.Then? && Shaped(Last(run.before)) && Shaped(run.s)
    && e < |Last(run.before).devs| && !HasBeenRegistered(Last(run.before), e) && IsRegistered(run.s, e)
  }

  lemma DeliveredFromPresent(run: Run, later: Run, r: nat, e: nat)
    requires IsRun(run) && IsRun(later) && JustRegistered(run, e) && RegisteredThroughout(run, later, e)
    requires r < |Last(run).devs|
    ensures |Last(run).devs| <= |Last(later).devs| && Last(run).devs[r].heard <= Last(later).devs[r].heard
    ensures From(Last(later).devs[e].appended, r) + InFlight(Last(later).receivers[r], e)
            == InFlight(Last(run).receivers[r], e) + Last(later).devs[r].heard[|Last(run).devs[r].heard|..]
  {
    RunKeepsInv(run.before);
    NothingBeforeRegistration(run.before, e);
    InsertionPostsNothing(Last(run.before), run.a, run.s, e);
    PingsAreFromNobody(run.s.devs[e].appended, r);
    hide IsRun, Inv;
    PerSourceFifo(run, later, r, e);
    assert [] + InFlight(Last(run).receivers[r], e) == InFlight(Last(run).receivers[r], e);
  }

  // ---------------------------------------------------------------- sources that connect later

  ghost predicate SourcesExist(s: State) {
    Shaped(s) && forall d, i :: 0 <= d < |s.devs| && 0 <= i < |s.devs[d].appended| ==> IsFrom(s.devs[d].appended[i], |s.devs|)
  }

  predicate IsFrom(entry: Entry, n: nat) {
    entry.Forwarded? ==> entry.source < n
  }

  lemma PostsOwnSource(s: State, a: Action)
    requires Shaped(s) && Enabled(s, a) && DeedOf(s, a).Deed?
    ensures var effect := DeedOf(s, a).effect; effect.Post? ==> IsFrom(effect.entry, |s.devs|)
  {
    hide Runnable, HasWanted;
  }

  lemma StepKeepsSources(s: State, a: Action, s': State)
    requires Inv(s) && Step(s, a, s') && SourcesExist(s)
    ensures SourcesExist(s')
  {
    StepPerforms(s, a, s');
    hide Inv, Faulty, Apply, Enabled;
    var deed := DeedOf(s, a);
    if deed.Deed? {
      PostsOwnSource(s, a);
      PostKeepsSources(s, s', deed.d, deed.effect, deed.unlock);
    } else {
      hide Step;
      assert forall d :: 0 <= d < |s'.devs| ==> s'.devs[d].appended == if d < |s.devs| then s.devs[d].appended else [];
    }
  }

  lemma PostKeepsSources(s: State, s': State, d: nat, effect: Effect, unlock: MaybeLock)
    requires Performed(s, s', d, effect, unlock) && SourcesExist(s)
    requires effect.Post? ==> IsFrom(effect.entry, |s.devs|)
    ensures SourcesExist(s')
  {
    assert forall e :: 0 <= e < |s.devs| ==>
             s'.devs[e].appended == s.devs[e].appended + if effect.Post? && effect.e == e then [effect.entry] else [];
    hide Performed, IsFrom;
  }

  lemma {:induction false} RunKeepsSources(run: Run)
    requires IsRun(run)
    ensures SourcesExist(Last(run))
  {
    if run.Then? {
      RunKeepsSources(run.before);
      RunKeepsInv(run.before);
      hide Inv, Step;
      StepKeepsSources(Last(run.before), run.a, run.s);
    }
  }

  lemma {:induction false} NothingFromAbsent(log: seq<Entry>, r: nat)
    requires forall i :: 0 <= i < |log| ==> IsFrom(log[i], r)
    ensures From(log, r) == []
  {
    if log != [] {
      NothingFromAbsent(log[..|log| - 1], r);
    }
  }

  // What a source has heard and has in flight; nothing as long as it has not connected.
  function HeardBy(s: State, r: nat): seq<Frame> {
    if r < |s.devs| then s.devs[r].heard else []
  }

  function Flying(s: State, r: nat, e: nat): seq<Frame> {
    if r < |s.receivers| then InFlight(s.receivers[r], e) else []
  }

  // The device r is created by the step.
  lemma Arrives(before: Run, a: Action, s': State, r: nat, e: nat)
    requires IsRun(before) && Step(Last(before), a, s') && |Last(before).devs| <= r < |s'.devs| && e < |Last(before).devs|
    ensures From(s'.devs[e].appended, r) == [] && Flying(s', r, e) == [] && HeardBy(s', r) == []
  {
    RunKeepsInv(before);
    RunKeepsSources(before);
    StepPerforms(Last(before), a, s');
    hide IsRun, Inv, Faulty, Apply, DeedOf;
    var log := s'.devs[e].appended;
    assert log == Last(before).devs[e].appended;
    forall i | 0 <= i < |log| ensures IsFrom(log[i], r) {
      assert IsFrom(Last(before).devs[e].appended[i], |Last(before).devs|);
    }
    NothingFromAbsent(log, r);
  }

  // From its registration on, a device is given exactly what each source, present or not, has in flight
  // at that moment and hears afterwards: nothing is lost, repeated, reordered or invented.
  lemma {:induction false} DeliveredSinceRegistration(run: Run, later: Run, r: nat, e: nat)
    requires IsRun(run) && IsRun(later) && JustRegistered(run, e) && RegisteredThroughout(run, later, e)
    ensures |Last(run).devs| <= |Last(later).devs| && HeardBy(Last(run), r) <= HeardBy(Last(later), r)
    ensures From(Last(later).devs[e].appended, r) + Flying(Last(later), r, e)
            == Flying(Last(run), r, e) + HeardBy(Last(later), r)[|HeardBy(Last(run), r)|..]
    decreases later
  {
    hide Inv, InFlight, From, JustRegistered;
    RegisteredExists(run, e);
    if r < |Last(run).devs| {
      DeliveredFromPresent(run, later, r, e);
    } else if run != later {
      DeliveredSinceRegistration(run, later.before, r, e);
      DeliveredStep(run, later.before, later.a, later.s, r, e);
    }
    if r >= |Last(later).devs| {
      Absent(later, r, e);
    }
  }

  lemma Absent(run: Run, r: nat, e: nat)
    requires IsRun(run) && e < |Last(run).devs| <= r
    ensures From(Last(run).devs[e].appended, r) == [] && Flying(Last(run), r, e) == []
  {
    RunKeepsSources(run);
    hide IsRun;
    var s := Last(run);
    forall i | 0 <= i < |s.devs[e].appended| ensures IsFrom(s.devs[e].appended[i], r) {
      assert IsFrom(s.devs[e].appended[i], |s.devs|);
    }
    NothingFromAbsent(s.devs[e].appended, r);
  }

  lemma RegisteredExists(run: Run, e: nat)
    requires IsRun(run) && JustRegistered(run, e)
    ensures e < |Last(run).devs|
  {
  }

  lemma DevicesStay(s: State, a: Action, s': State)
    requires Inv(s) && Step(s, a, s')
    ensures |s.devs| <= |s'.devs|
  {
    StepPerforms(s, a, s');
  }

  lemma CatchUp<T(!new)>(due: seq<T>, due1: seq<T>, q: seq<T>, q1: seq<T>)
    requires q <= q1 && due == q && due1 == due + q1[|q|..]
    ensures due1 == q1
  {
  }

  lemma DeliveredStep(run: Run, before: Run, a: Action, s': State, r: nat, e: nat)
    requires IsRun(before) && Step(Last(before), a, s') && e < |Last(run).devs| <= |Last(before).devs| && IsRegistered(Last(before), e)
    requires Shaped(Last(run)) && r >= |Last(run).devs|
    requires r < |Last(before).devs| ==>
              From(Last(before).devs[e].appended, r) + Flying(Last(before), r, e) == HeardBy(Last(before), r)
    ensures |Last(before).devs| <= |s'.devs|
    ensures r < |s'.devs| ==> From(s'.devs[e].appended, r) + Flying(s', r, e) == HeardBy(s', r)
  {
    RunKeepsInv(before);
    hide IsRun, Inv, Step, InFlight, From;
    DevicesStay(Last(before), a, s');
    if r < |Last(before).devs| {
      StepDelivers(Last(before), a, s', r, e);
      CatchUp(Due(Last(before), r, e), Due(s', r, e), Last(before).devs[r].heard, s'.devs[r].heard);
    } else if r < |s'.devs| {
      Arrives(before, a, s', r, e);
    }
  }
}

/**
 The relay machine together with the digest that its threads share.  A trace interleaves the steps of the
 machine with the computations of all threads; verdicts and the tags of pings come out of one digest.
 */
module RelayTrace {
  import opened Bytes
  import opened Wire
  import opened Framing
  import opened RelayState
  import opened RelayInvariant
  import opened RelayInduction
  import opened RelayDelivery
  import opened RelayRounds
  import opened RelayReading
  import opened EndToEnd
  import RelayDigest

  datatype Trace =
    | Empty
    // a thread computes the HMAC of q
    | Computed(before: Trace, t: nat, q: seq<byte>)
    // the main handler of d copies the tag of its next ping
    | Copied(before: Trace, d: nat)
    // a step of the machine; f is the frame that the receiver has read when the step is its input
    | Moved(before: Trace, a: Action, s: State, f: seq<byte>)

  function ReceiverId(r: nat): nat {
    2 * r
  }

  function MainId(d: nat): nat {
    2 * d + 1
  }

  // The run of the machine, the history of the digest, the frames a receiver has read, and the tags a
  // main handler has copied.
  function RunOf(trace: Trace): Run {
    match trace
    case Empty => Start
    case Computed(before, _, _) => RunOf(before)
    case Copied(before, _) => RunOf(before)
    case Moved(before, a, s, _) => Then(RunOf(before), a, s)
  }

  predicate IsInput(a: Action) {
    a.Hear? || a.Refuse?
  }

  // A receiver compares tags only for network 0.
  predicate Compares(a: Action, f: seq<byte>) {
    IsInput(a) && IsFrame(f) && U32(Reverse(NetworkId(f))) == 0
  }

  function History(trace: Trace): seq<RelayDigest.Action> {
    match trace
    case Empty => []
    case Computed(before, t, q) => History(before) + [RelayDigest.Compute(t, q)]
    case Copied(before, d) => History(before) + [RelayDigest.Use(MainId(d))]
    case Moved(before, a, _, f) => History(before) + if Compares(a, f) then [RelayDigest.Use(ReceiverId(a.r))] else []
  }

  function FramesRead(trace: Trace, r: nat): seq<seq<byte>> {
    match trace
    case Empty => []
    case Computed(before, _, _) => FramesRead(before, r)
    case Copied(before, _) => FramesRead(before, r)
    case Moved(before, a, _, f) => FramesRead(before, r) + if IsInput(a) && a.r == r then [f] else []
  }

  function Shared(c: Crypto, key: seq<byte>, trace: Trace): RelayDigest.State {
    RelayDigest.After(c, key, History(trace))
  }

  function PingTags(c: Crypto, key: seq<byte>, trace: Trace, d: nat): seq<seq<byte>> {
    match trace
    case Empty => []
    case Computed(before, _, _) => PingTags(c, key, before, d)
    case Copied(before, e) =>
      PingTags(c, key, before, d) + if e == d then [Shared(c, key, before).digest] else []
    case Moved(before, _, _, _) => PingTags(c, key, before, d)
  }

  // ---------------------------------------------------------------- the link

  // The verdict of handle_recvd_message when it compares with what the shared digest holds.
  function FoundVerdict(c: Crypto, key: seq<byte>, actions: seq<RelayDigest.Action>, f: seq<byte>): Verdict
    requires IsFrame(f)
  {
    if U32(Reverse(NetworkId(f))) != 0 || !RelayDigest.Found(c, key, actions, Reverse(ServerTag(f))) then Ignored
    else if LooksLikePing(f) then KeepAlive
    else Broadcast
  }

  function InputVerdict(a: Action): Verdict
    requires IsInput(a)
  {
    if a.Refuse? then Ignored else if a.m.isPing then KeepAlive else Broadcast
  }

  // An input follows the verdict found on the frame read; before a comparison its thread has computed the
  // HMAC of that frame.
  ghost predicate InputLinked(c: Crypto, key: seq<byte>, trace: Trace, a: Action, f: seq<byte>)
    requires IsInput(a)
  {
    && IsFrame(f) && (a.Hear? ==> a.m.frame == f)
    && (Compares(a, f) ==> IsSigning(c, key, trace, ReceiverId(a.r), Signed(WithIdSwapped(f))))
    && FoundVerdict(c, key, History(trace), f) == InputVerdict(a)
  }

  // Thread t has computed the HMAC of q and not yet used it.
  predicate IsSigning(c: Crypto, key: seq<byte>, trace: Trace, t: nat, q: seq<byte>) {
    t in Shared(c, key, trace).signing && Shared(c, key, trace).signing[t] == q
  }

  // A main handler about to append a ping has copied the tag for it.
  predicate PingLinked(c: Crypto, key: seq<byte>, trace: Trace, a: Action) {
    var s := Last(RunOf(trace));
    a.Advance? && a.t.Main? && a.t.d < |s.mains| && a.t.d < |s.devs| && s.mains[a.t.d].MPing? ==>
      Pings(s.devs[a.t.d].appended) < |PingTags(c, key, trace, a.t.d)|
  }

  // Nothing is said here of what other threads compute in between.
  ghost predicate IsTrace(c: Crypto, key: seq<byte>, trace: Trace) {
    match trace
    case Empty => true
    case Computed(before, t, q) => IsTrace(c, key, before) && t !in Shared(c, key, before).signing
    case Copied(before, d) => IsTrace(c, key, before) && IsSigning(c, key, before, MainId(d), PingBody())
    case Moved(before, a, s, f) =>
      && IsTrace(c, key, before) && Step(Last(RunOf(before)), a, s)
      && (IsInput(a) ==> InputLinked(c, key, before, a, f))
      && PingLinked(c, key, before, a)
  }

  // No other thread computes between a thread's computation and its comparison or copy.
  ghost predicate NoneDisturbed(trace: Trace) {
    match trace
    case Empty => true
    case Computed(before, _, _) => NoneDisturbed(before)
    case Copied(before, d) => NoneDisturbed(before) && RelayDigest.Undisturbed(History(before), MainId(d))
    case Moved(before, a, _, f) =>
      NoneDisturbed(before) && (Compares(a, f) ==> RelayDigest.Undisturbed(History(before), ReceiverId(a.r)))
  }

  // ---------------------------------------------------------------- both halves of a trace

  lemma {:induction false} TraceIsRun(c: Crypto, key: seq<byte>, trace: Trace)
    requires IsTrace(c, key, trace)
    ensures IsRun(RunOf(trace))
  {
    hide InputLinked, PingLinked, Step;
    if !trace.Empty? {
      TraceIsRun(c, key, trace.before);
    }
  }

  lemma HistorySnoc(c: Crypto, key: seq<byte>, actions: seq<RelayDigest.Action>, a: RelayDigest.Action)
    requires RelayDigest.IsRun(c, key, actions) && RelayDigest.Enabled(RelayDigest.After(c, key, actions), a)
    ensures RelayDigest.IsRun(c, key, actions + [a])
    ensures RelayDigest.After(c, key, actions + [a]) == RelayDigest.Apply(c, key, RelayDigest.After(c, key, actions), a)
  {
    assert (actions + [a])[..|actions|] == actions;
  }

  lemma {:induction false} TraceIsHistory(c: Crypto, key: seq<byte>, trace: Trace)
    requires IsTrace(c, key, trace)
    ensures RelayDigest.IsRun(c, key, History(trace))
  {
    hide Step, PingLinked, FoundVerdict, U32, Signed, WithIdSwapped, RelayDigest.IsRun, RelayDigest.After, RelayDigest.Apply;
    match trace
    case Empty => NoHistory(c, key);
    case Computed(before, t, q) =>
      TraceIsHistory(c, key, before);
      HistorySnoc(c, key, History(before), RelayDigest.Compute(t, q));
    case Copied(before, d) =>
      TraceIsHistory(c, key, before);
      HistorySnoc(c, key, History(before), RelayDigest.Use(MainId(d)));
    case Moved(before, a, _, f) =>
      TraceIsHistory(c, key, before);
      if Compares(a, f) {
        HistorySnoc(c, key, History(before), RelayDigest.Use(ReceiverId(a.r)));
      } else {
        assert History(before) + [] == History(before);
      }
  }

  lemma NoHistory(c: Crypto, key: seq<byte>)
    ensures RelayDigest.IsRun(c, key, [])
  {
  }

  // ---------------------------------------------------------------- verdicts

  lemma UndisturbedVerdict(c: Crypto, key: seq<byte>, trace: Trace, a: Action, f: seq<byte>)
    requires IsTrace(c, key, trace) && IsInput(a) && InputLinked(c, key, trace, a, f)
    requires Compares(a, f) ==> RelayDigest.Undisturbed(History(trace), ReceiverId(a.r))
    ensures IsFrame(f) && ServerVerdict(c, key, f) == InputVerdict(a)
  {
    TraceIsHistory(c, key, trace);
    hide IsTrace, Signed, WithIdSwapped, RelayDigest.IsRun, RelayDigest.After, RelayDigest.Found, RelayDigest.Undisturbed;
    if Compares(a, f) {
      RelayDigest.UndisturbedIsRight(c, key, History(trace), ReceiverId(a.r), Reverse(ServerTag(f)));
    }
  }

  // In every trace in which no use of the digest is disturbed, all verdicts are right, and what a receiver
  // has read determines what it hears.
  lemma {:induction false} UndisturbedIsGenuine(c: Crypto, key: seq<byte>, trace: Trace)
    requires IsTrace(c, key, trace) && NoneDisturbed(trace)
    ensures Genuine(ServerJudge(c, key), RunOf(trace))
  {
    hide Step, PingLinked, InputLinked, Compares, ServerVerdict, RelayDigest.Undisturbed;
    if !trace.Empty? {
      UndisturbedIsGenuine(c, key, trace.before);
      if trace.Moved? && IsInput(trace.a) {
        UndisturbedVerdict(c, key, trace.before, trace.a, trace.f);
        HeardFrame(c, key, trace.before, trace.a, trace.f);
      }
    }
  }

  lemma HeardFrame(c: Crypto, key: seq<byte>, trace: Trace, a: Action, f: seq<byte>)
    requires IsInput(a) && InputLinked(c, key, trace, a, f)
    ensures IsFrame(f) && (a.Hear? ==> a.m.frame == f)
  {
  }

  lemma ReadsOn(judge: Judge, run: Run, a: Action, s: State, r: nat, fs: seq<seq<byte>>, f: seq<byte>)
    requires Reads(judge, run, r, fs) && IsInput(a) && a.r == r
    requires (a.Hear? ==> a.m.frame == f) && (a.Refuse? ==> judge(f).Ignored?)
    ensures Reads(judge, Then(run, a, s), r, fs + [f])
  {
    assert (fs + [f])[..|fs|] == fs;
  }

  lemma {:induction false} UndisturbedReads(c: Crypto, key: seq<byte>, trace: Trace, r: nat)
    requires IsTrace(c, key, trace) && NoneDisturbed(trace)
    ensures Reads(ServerJudge(c, key), RunOf(trace), r, FramesRead(trace, r))
  {
    hide Step, PingLinked, InputLinked, Compares, ServerVerdict, IsFrame, RelayDigest.Undisturbed, Reads;
    match trace
    case Empty => NothingRead(ServerJudge(c, key), r);
    case Computed(before, _, _) => UndisturbedReads(c, key, before, r);
    case Copied(before, _) => UndisturbedReads(c, key, before, r);
    case Moved(before, a, s, f) =>
      UndisturbedReads(c, key, before, r);
      if IsInput(a) && a.r == r {
        UndisturbedVerdict(c, key, before, a, f);
        HeardFrame(c, key, before, a, f);
        ReadsOn(ServerJudge(c, key), RunOf(before), a, s, r, FramesRead(before, r), f);
      } else {
        assert FramesRead(before, r) + [] == FramesRead(before, r);
        ReadsPast(ServerJudge(c, key), RunOf(before), a, s, r, FramesRead(before, r));
      }
  }

  lemma NothingRead(judge: Judge, r: nat)
    ensures Reads(judge, Start, r, [])
  {
  }

  lemma ReadsPast(judge: Judge, run: Run, a: Action, s: State, r: nat, fs: seq<seq<byte>>)
    requires Reads(judge, run, r, fs) && !(IsInput(a) && a.r == r)
    ensures Reads(judge, Then(run, a, s), r, fs)
  {
  }

  // ---------------------------------------------------------------- pings

  // A ping of the relay with whatever digest its tag was copied from.
  function PingWith(digest: seq<byte>): seq<byte> {
    Reverse(if |digest| >= 4 then digest[..4] else []) + ONES_4 + PingBody()
  }

  // The bytes of the entries, the k-th ping with the k-th digest.
  function OnWireWith(tags: seq<seq<byte>>, log: seq<Entry>): seq<seq<byte>> {
    if log == [] then []
    else
      var front := log[..|log| - 1];
      OnWireWith(tags, front)
      + [match log[|log| - 1]
         case ServerPing => PingWith(if Pings(front) < |tags| then tags[Pings(front)] else [])
         case Forwarded(_, q) => q]
  }

  lemma {:induction false} UndisturbedTags(c: Crypto, key: seq<byte>, trace: Trace, d: nat)
    requires IsTrace(c, key, trace) && NoneDisturbed(trace)
    ensures forall k :: 0 <= k < |PingTags(c, key, trace, d)| ==> PingTags(c, key, trace, d)[k] == c.hmac(key, PingBody())
  {
    hide Step, PingLinked, InputLinked, Compares, PingBody, RelayDigest.Undisturbed, RelayDigest.After;
    if !trace.Empty? {
      UndisturbedTags(c, key, trace.before, d);
      if trace.Copied? {
        TraceIsHistory(c, key, trace.before);
        CopiesOwn(c, key, trace.before, trace.d);
      }
    }
  }

  lemma CopiesOwn(c: Crypto, key: seq<byte>, trace: Trace, d: nat)
    requires RelayDigest.IsRun(c, key, History(trace)) && RelayDigest.Undisturbed(History(trace), MainId(d))
    requires IsSigning(c, key, trace, MainId(d), PingBody())
    ensures Shared(c, key, trace).digest == c.hmac(key, PingBody())
  {
    hide PingBody;
    RelayDigest.OwnDigest(c, key, History(trace), MainId(d));
  }

  lemma {:induction false} RightOnWire(c: Crypto, key: seq<byte>, tags: seq<seq<byte>>, log: seq<Entry>)
    requires Pings(log) <= |tags| && forall k :: 0 <= k < |tags| ==> tags[k] == c.hmac(key, PingBody())
    ensures OnWireWith(tags, log) == OnWire(c, key, log)
  {
    hide PingBody;
    if log != [] {
      RightOnWire(c, key, tags, log[..|log| - 1]);
    }
  }

  // Every ping in a buffer has had its tag copied.
  lemma {:induction false} PingsAreCopied(c: Crypto, key: seq<byte>, trace: Trace, d: nat)
    requires IsTrace(c, key, trace) && IsRun(RunOf(trace)) && d < |Last(RunOf(trace)).devs|
    ensures Pings(Last(RunOf(trace)).devs[d].appended) <= |PingTags(c, key, trace, d)|
  {
    hide Step, InputLinked, IsSigning, Inv;
    match trace
    case Empty =>
    case Computed(before, _, _) => PingsAreCopied(c, key, before, d);
    case Copied(before, _) => PingsAreCopied(c, key, before, d);
    case Moved(before, a, s, _) =>
      RunKeepsInv(RunOf(before));
      PingsStep(Last(RunOf(before)), a, s, d);
      if d < |Last(RunOf(before)).devs| {
        PingsAreCopied(c, key, before, d);
      }
  }

  lemma {:induction false} PingsOfPrefix(p: seq<Entry>, q: seq<Entry>)
    ensures Pings(p) <= Pings(p + q)
  {
    if q == [] {
      assert p + q == p;
    } else {
      PingsOfPrefix(p, q[..|q| - 1]);
      PingsSnoc(p + q[..|q| - 1], q[|q| - 1]);
      assert p + q == (p + q[..|q| - 1]) + [q[|q| - 1]];
    }
  }

  // The bytes handed to a peer in an undisturbed trace are those of right pings and forwarded frames.
  lemma UndisturbedOnWire(c: Crypto, key: seq<byte>, trace: Trace, e: nat)
    requires IsTrace(c, key, trace) && NoneDisturbed(trace) && e < |Last(RunOf(trace)).devs|
    ensures OnWireWith(PingTags(c, key, trace, e), Last(RunOf(trace)).devs[e].handed)
            == OnWire(c, key, Last(RunOf(trace)).devs[e].handed)
  {
    hide PingBody, IsRun, RelayDigest.After;
    TraceIsRun(c, key, trace);
    PingsAreCopied(c, key, trace, e);
    UndisturbedTags(c, key, trace, e);
    hide IsTrace, NoneDisturbed, PingTags, Pings;
    OutboxConserved(RunOf(trace), e);
    var dev := Last(RunOf(trace)).devs[e];
    PingsOfPrefix(dev.handed, dev.outbox[Drained(Last(RunOf(trace)).senders[e])..]);
    RightOnWire(c, key, PingTags(c, key, trace, e), dev.handed);
  }

  // ---------------------------------------------------------------- end to end

  ghost predicate Continues(trace: Trace, later: Trace) {
    trace == later || (!later.Empty? && Continues(trace, later.before))
  }

  lemma {:induction false} PartOfTrace(c: Crypto, key: seq<byte>, trace: Trace, later: Trace)
    requires Continues(trace, later) && IsTrace(c, key, later) && NoneDisturbed(later)
    ensures IsTrace(c, key, trace) && NoneDisturbed(trace)
  {
    hide Step, InputLinked, PingLinked, IsSigning, RelayDigest.Undisturbed;
    if trace != later {
      PartOfTrace(c, key, trace, later.before);
    }
  }

  lemma UndisturbedMeanwhile(c: Crypto, key: seq<byte>, trace: Trace, later: Trace, r: nat, fs: seq<seq<byte>>)
    requires Continues(trace, later) && IsTrace(c, key, later) && NoneDisturbed(later)
    requires FramesRead(later, r) == FramesRead(trace, r) + fs
    ensures Meanwhile(ServerJudge(c, key), RunOf(trace), RunOf(later), r, FramesRead(trace, r), fs)
  {
    PartOfTrace(c, key, trace, later);
    hide IsTrace, NoneDisturbed, IsRun, Genuine, Reads, ServerJudge, FramesRead;
    TraceIsRun(c, key, trace);
    TraceIsRun(c, key, later);
    UndisturbedIsGenuine(c, key, trace);
    UndisturbedIsGenuine(c, key, later);
    UndisturbedReads(c, key, trace, r);
    UndisturbedReads(c, key, later, r);
  }

  // The end-to-end theorem with nothing taken for granted about verdicts and pings: they come out of the
  // shared digest, and nobody computes between a thread's computation and its use.
  lemma EndToEndShared(c: Crypto, keys: Keys, trace: Trace, later: Trace, r: nat, e: nat, ts: seq<Typed>)
    requires Continues(trace, later) && IsTrace(c, keys.server, later) && NoneDisturbed(later) && AllFit(ts)
    requires JustRegistered(RunOf(trace), e) && RegisteredThroughout(RunOf(trace), RunOf(later), e)
    requires FramesRead(later, r) == FramesRead(trace, r) + Frames(Concat(EncodeAll(c, keys, ts)))
    ensures e < |Last(RunOf(later)).devs|
    ensures var handed := Last(RunOf(later)).devs[e].handed;
            && Received(c, keys, 0, Concat(OnWireWith(PingTags(c, keys.server, later, e), handed))) == Untagged(Tagged(c, keys, 0, handed))
            && OfSource(Tagged(c, keys, 0, handed), r)
               + Readable(c, keys, 0, From(Unsent(RunOf(later), e), r)) + Readable(c, keys, 0, Flying(Last(RunOf(later)), r, e))
               == Readable(c, keys, 0, Flying(Last(RunOf(trace)), r, e)) + Arriving(c, keys, ts)
  {
    hide JustRegistered, RegisteredThroughout, IsTrace, NoneDisturbed, Continues, FramesRead, Meanwhile, PingTags, OnWireWith, OnWire;
    hide Received, Tagged, OfSource, Readable, Arriving, Flying, Unsent, EncodeAll, Frames, Concat, RunOf;
    UndisturbedMeanwhile(c, keys.server, trace, later, r, Frames(Concat(EncodeAll(c, keys, ts))));
    EndToEnd.EndToEnd(c, keys, RunOf(trace), RunOf(later), r, e, FramesRead(trace, r), ts);
    UndisturbedOnWire(c, keys.server, later, e);
  }
}

/**
 What traces there are: every run with right verdicts has one in which no use of the shared digest is
 disturbed, and one disturbance is enough for a wrong verdict or a wrong ping.
 */
module RelayRaces {
  import opened Bytes
  import opened Wire
  import opened RelayState
  import opened RelayReading
  import opened RelayTrace
  import RelayDefect
  import RelayWitness

  // No thread is between its computation and its use.
  ghost predicate Settled(c: Crypto, key: seq<byte>, trace: Trace) {
    IsTrace(c, key, trace) && NoneDisturbed(trace) && Shared(c, key, trace).signing == map[]
  }

  lemma ComputedDigest(c: Crypto, key: seq<byte>, trace: Trace, t: nat, q: seq<byte>)
    ensures Shared(c, key, Computed(trace, t, q)) == RelayDigest.State(c.hmac(key, q), Shared(c, key, trace).signing[t := q])
    ensures RelayDigest.Undisturbed(History(Computed(trace, t, q)), t)
  {
    var actions := History(trace) + [RelayDigest.Compute(t, q)];
    assert actions[..|actions| - 1] == History(trace);
    assert actions[|actions| - 1] == RelayDigest.Compute(t, q);
  }

  lemma UsedDigest(c: Crypto, key: seq<byte>, before: seq<RelayDigest.Action>, t: nat)
    ensures RelayDigest.After(c, key, before + [RelayDigest.Use(t)])
            == RelayDigest.After(c, key, before).(signing := RelayDigest.After(c, key, before).signing - {t})
  {
    assert (before + [RelayDigest.Use(t)])[..|before|] == before;
  }

  // ---------------------------------------------------------------- undisturbed traces

  lemma FoundWhenOwn(c: Crypto, key: seq<byte>, trace: Trace, f: seq<byte>)
    requires IsFrame(f) && Shared(c, key, trace).digest == c.hmac(key, Signed(WithIdSwapped(f)))
    ensures FoundVerdict(c, key, History(trace), f) == ServerVerdict(c, key, f)
  {
    hide Signed, WithIdSwapped, U32, RelayDigest.After;
  }

  // A receiver computes, compares at once, and goes on.
  lemma SerialInput(c: Crypto, key: seq<byte>, trace: Trace, a: Action, s: State, f: seq<byte>) returns (trace': Trace)
    requires Settled(c, key, trace) && Step(Last(RunOf(trace)), a, s) && IsInput(a)
    requires IsFrame(f) && (a.Hear? ==> a.m.frame == f) && ServerVerdict(c, key, f) == InputVerdict(a)
    ensures Settled(c, key, trace') && RunOf(trace') == Then(RunOf(trace), a, s)
    ensures forall r :: FramesRead(trace', r) == FramesRead(trace, r) + if a.r == r then [f] else []
  {
    hide Step, Signed, WithIdSwapped, U32, RelayDigest.After, RelayDigest.Undisturbed, RelayDigest.Found;
    var t, q := ReceiverId(a.r), Signed(WithIdSwapped(f));
    if Compares(a, f) {
      var own := Computed(trace, t, q);
      ComputedDigest(c, key, trace, t, q);
      assert Shared(c, key, own).signing == map[t := q];
      FoundWhenOwn(c, key, own, f);
      UsedDigest(c, key, History(own), t);
      trace' := Moved(own, a, s, f);
      assert IsTrace(c, key, own) && NoneDisturbed(own) && InputLinked(c, key, own, a, f);
      assert IsTrace(c, key, trace') && NoneDisturbed(trace');
      assert Shared(c, key, trace').signing == map[t := q] - {t} == map[];
    } else {
      trace' := Moved(trace, a, s, f);
      assert History(trace) + [] == History(trace);
    }
  }

  // Any other step; a main handler signs its ping before appending it.
  lemma SerialStep(c: Crypto, key: seq<byte>, trace: Trace, a: Action, s: State) returns (trace': Trace)
    requires Settled(c, key, trace) && Step(Last(RunOf(trace)), a, s) && !IsInput(a)
    ensures Settled(c, key, trace') && RunOf(trace') == Then(RunOf(trace), a, s)
    ensures forall r :: FramesRead(trace', r) == FramesRead(trace, r)
  {
    hide Step, PingBody, RelayDigest.After, RelayDigest.Undisturbed;
    if PingLinked(c, key, trace, a) {
      trace' := Moved(trace, a, s, []);
      assert History(trace) + [] == History(trace);
    } else {
      var signed := SerialPing(c, key, trace, a.t.d);
      TraceIsRun(c, key, trace);
      PingsAreCopied(c, key, trace, a.t.d);
      trace' := Moved(signed, a, s, []);
      assert History(signed) + [] == History(signed);
    }
    assert forall r :: FramesRead(trace, r) + [] == FramesRead(trace, r);
  }

  lemma SerialPing(c: Crypto, key: seq<byte>, trace: Trace, d: nat) returns (trace': Trace)
    requires Settled(c, key, trace)
    ensures Settled(c, key, trace') && RunOf(trace') == RunOf(trace)
    ensures |PingTags(c, key, trace', d)| == |PingTags(c, key, trace, d)| + 1
    ensures forall r :: FramesRead(trace', r) == FramesRead(trace, r)
  {
    hide PingBody, RelayDigest.After, RelayDigest.Undisturbed;
    var t, own := MainId(d), Computed(trace, MainId(d), PingBody());
    ComputedDigest(c, key, trace, t, PingBody());
    assert Shared(c, key, own).signing == map[t := PingBody()];
    UsedDigest(c, key, History(own), t);
    trace' := Copied(own, d);
    assert IsTrace(c, key, own) && NoneDisturbed(own) && IsSigning(c, key, own, t, PingBody());
    assert IsTrace(c, key, trace') && NoneDisturbed(trace');
    assert Shared(c, key, trace').signing == map[t := PingBody()] - {t} == map[];
  }

  // A frame of another network.
  function Foreign(): (f: seq<byte>)
    ensures IsFrame(f) && U32(Reverse(NetworkId(f))) != 0
  {
    var f := seq<byte>(12, _ => 0) + [1] + seq<byte>(35, _ => 0);
    assert Reverse(NetworkId(f))[0] == 1;
    f
  }

  // Whatever a relay with right verdicts can do it can do undisturbed.
  lemma {:induction false} Serial(c: Crypto, key: seq<byte>, run: Run, r: nat, fs: seq<seq<byte>>) returns (trace: Trace)
    requires IsRun(run) && Genuine(ServerJudge(c, key), run) && Reads(ServerJudge(c, key), run, r, fs)
    requires forall i :: 0 <= i < |fs| ==> IsFrame(fs[i])
    ensures Settled(c, key, trace) && RunOf(trace) == run && FramesRead(trace, r) == fs
    decreases run
  {
    hide Step, ServerVerdict, IsFrame, Settled, FramesRead;
    if run.Start? {
      trace := Empty;
      NothingYet(c, key, r);
    } else {
      var mine := IsInput(run.a) && run.a.r == r;
      var front := if mine then fs[..|fs| - 1] else fs;
      trace := Serial(c, key, run.before, r, front);
      if IsInput(run.a) {
        var f := if run.a.Hear? then run.a.m.frame else if mine then fs[|fs| - 1] else Foreign();
        ForeignIsIgnored(c, key);
        trace := SerialInput(c, key, trace, run.a, run.s, f);
      } else {
        trace := SerialStep(c, key, trace, run.a, run.s);
      }
    }
  }

  lemma NothingYet(c: Crypto, key: seq<byte>, r: nat)
    ensures Settled(c, key, Empty) && FramesRead(Empty, r) == []
  {
  }

  lemma ForeignIsIgnored(c: Crypto, key: seq<byte>)
    ensures ServerVerdict(c, key, Foreign()) == Ignored
  {
  }

  // ---------------------------------------------------------------- disturbed traces

  // A device that is connected and has sent nothing.
  lemma Connected(c: Crypto, key: seq<byte>, fd: int) returns (trace: Trace, s: State)
    requires 0 <= fd < FD_LIMIT
    ensures Settled(c, key, trace) && FramesRead(trace, 0) == [] && Last(RunOf(trace)) == s
    ensures |s.devs| == 1 && s.devs[0].live && Shaped(s) && s.receivers[0] == RRead
  {
    hide IsRun, Genuine, Reads, Settled, FramesRead;
    var run, dev := RelayDefect.ConnectsAndStarts(fd);
    RelayWitness.SilentReads(ServerJudge(c, key), run);
    trace := Serial(c, key, run, 0, []);
    s := Last(run);
  }

  // The receiver computes the HMAC of the frame it has read, and the main handler that of its next ping.
  lemma BothSign(c: Crypto, key: seq<byte>, trace: Trace, q: seq<byte>) returns (later: Trace)
    requires Settled(c, key, trace)
    ensures IsTrace(c, key, later) && RunOf(later) == RunOf(trace) && FramesRead(later, 0) == FramesRead(trace, 0)
    ensures IsSigning(c, key, later, ReceiverId(0), q) && Shared(c, key, later).digest == c.hmac(key, PingBody())
  {
    hide PingBody, RelayDigest.After, RelayDigest.Undisturbed;
    var first := Computed(trace, ReceiverId(0), q);
    ComputedDigest(c, key, trace, ReceiverId(0), q);
    ComputedDigest(c, key, first, MainId(0), PingBody());
    later := Computed(first, MainId(0), PingBody());
  }

  // The link alone: a correctly signed frame is refused because the main handler signs its ping between
  // the computation and the comparison.
  lemma WrongRefusal(c: Crypto, key: seq<byte>, fd: int, f: seq<byte>) returns (trace: Trace)
    requires 0 <= fd < FD_LIMIT && IsFrame(f) && !ServerVerdict(c, key, f).Ignored?
    requires Tag(c, key, PingBody()) != Tag(c, key, Signed(WithIdSwapped(f)))
    ensures IsTrace(c, key, trace) && FramesRead(trace, 0) == [f]
    ensures !Reads(ServerJudge(c, key), RunOf(trace), 0, [f])
  {
    hide IsRun, Settled, PingBody, Signed, WithIdSwapped, U32, RelayDigest.After, Step;
    var s;
    trace, s := Connected(c, key, fd);
    trace := BothSign(c, key, trace, Signed(WithIdSwapped(f)));
    var a := Refuse(0);
    var s' := StepReceiver(s, 0, Move(Nothing, NoLock, RRefresh));
    InputIsStep(s, a);
    assert InputLinked(c, key, trace, a, f);
    assert [] + [f] == [f];
    trace := Moved(trace, a, s', f);
  }

  lemma InputIsStep(s: State, a: Action)
    requires Shaped(s) && |s.devs| == 1 && s.devs[0].live && s.receivers[0] == RRead
    requires a == Refuse(0) || (a.Hear? && a.r == 0 && a.m.networkId == 0)
    ensures Step(s, a, Apply(s, a))
    ensures a.Refuse? ==> Apply(s, a) == StepReceiver(s, 0, Move(Nothing, NoLock, RRefresh))
  {
  }

  // A frame that carries the tag of the ping instead of its own is taken for verified.
  lemma WrongAcceptance(c: Crypto, key: seq<byte>, fd: int, f: seq<byte>) returns (trace: Trace)
    requires 0 <= fd < FD_LIMIT && IsFrame(f) && U32(Reverse(NetworkId(f))) == 0
    requires Reverse(ServerTag(f)) == Tag(c, key, PingBody()) != Tag(c, key, Signed(WithIdSwapped(f)))
    ensures IsTrace(c, key, trace) && FramesRead(trace, 0) == [f]
    ensures !Genuine(ServerJudge(c, key), RunOf(trace))
  {
    hide IsRun, Settled, PingBody, Signed, WithIdSwapped, U32, RelayDigest.After, Step;
    var s;
    trace, s := Connected(c, key, fd);
    trace := BothSign(c, key, trace, Signed(WithIdSwapped(f)));
    var a := Hear(0, Message(0, f, LooksLikePing(f)));
    InputIsStep(s, a);
    assert InputLinked(c, key, trace, a, f);
    assert [] + [f] == [f];
    trace := Moved(trace, a, Apply(s, a), f);
  }

  // A ping is sent with the tag of the message that a receiver verifies in between.
  lemma WrongPing(c: Crypto, key: seq<byte>, fd: int, q: seq<byte>) returns (trace: Trace)
    requires 0 <= fd < FD_LIMIT && Tag(c, key, q) != Tag(c, key, PingBody())
    ensures IsTrace(c, key, trace) && PingTags(c, key, trace, 0) != []
    ensures var tags := PingTags(c, key, trace, 0); PingWith(tags[|tags| - 1]) != PingFrame(c, key)
  {
    hide IsRun, PingBody, RelayDigest.After, RelayDigest.Undisturbed, Step;
    var s;
    trace, s := Connected(c, key, fd);
    var first := Computed(trace, MainId(0), PingBody());
    ComputedDigest(c, key, trace, MainId(0), PingBody());
    var second := Computed(first, ReceiverId(0), q);
    ComputedDigest(c, key, first, ReceiverId(0), q);
    assert IsTrace(c, key, first) && IsTrace(c, key, second) && IsSigning(c, key, second, MainId(0), PingBody());
    trace := Copied(second, 0);
    TagsDiffer(c, key, q);
  }

  lemma TagsDiffer(c: Crypto, key: seq<byte>, q: seq<byte>)
    requires Tag(c, key, q) != Tag(c, key, PingBody())
    ensures PingWith(c.hmac(key, q)) != PingFrame(c, key)
  {
    hide PingBody;
    var x, y := Tag(c, key, q), Tag(c, key, PingBody());
    if PingWith(c.hmac(key, q)) == PingFrame(c, key) {
      assert PingWith(c.hmac(key, q))[..4] == Reverse(x) && PingFrame(c, key)[..4] == Reverse(y);
      ReverseTwice(x);
      ReverseTwice(y);
    }
  }
}

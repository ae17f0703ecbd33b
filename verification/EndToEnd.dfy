/** The relay machine and the message format together: what an Arduino sends is what a peer receives. */
module EndToEnd {
  import opened Bytes
  import opened Wire
  import opened WireProofs
  import opened Framing
  import opened RelayState
  import opened RelayInvariant
  import opened RelayDelivery
  import opened RelayReading

  datatype Typed = Typed(messageType: byte, payload: seq<byte>)

  predicate AllFit(ts: seq<Typed>) {
    forall i :: 0 <= i < |ts| ==> |ts[i].payload| <= MAX_PAYLOAD
  }

  function EncodeAll(c: Crypto, keys: Keys, ts: seq<Typed>): (fs: seq<seq<byte>>)
    requires AllFit(ts)
    ensures |fs| == |ts|
  {
    if ts == [] then [] else [Encode(c, keys, 0, ts[0].messageType, ts[0].payload)] + EncodeAll(c, keys, ts[1..])
  }

  // What the relay broadcasts of what an Arduino sends: everything but its pings.
  function Relayed(c: Crypto, keys: Keys, ts: seq<Typed>): (us: seq<Typed>)
    requires AllFit(ts)
    ensures AllFit(us)
  {
    if ts == [] then []
    else (if PassesForPing(c, keys, 0, ts[0].messageType, ts[0].payload) then [] else [ts[0]]) + Relayed(c, keys, ts[1..])
  }

  // What a peer receives of it: not the messages of type 0, whose network tag is overwritten.
  predicate Arrives(c: Crypto, keys: Keys, t: Typed)
    requires |t.payload| <= MAX_PAYLOAD
  {
    !PassesForPing(c, keys, 0, t.messageType, t.payload) && TagSurvives(c, keys, 0, t.messageType, t.payload)
  }

  function Arriving(c: Crypto, keys: Keys, ts: seq<Typed>): seq<Application>
    requires AllFit(ts)
  {
    if ts == [] then []
    else
      (if Arrives(c, keys, ts[0]) then [Application(SENDER, ts[0].messageType, ts[0].payload)] else [])
      + Arriving(c, keys, ts[1..])
  }

  // Typed messages arrive unless they have no payload and a network tag that is all ones by accident.
  lemma TypedArrives(c: Crypto, keys: Keys, t: Typed)
    requires |t.payload| <= MAX_PAYLOAD && t.messageType != 0
    ensures Arrives(c, keys, t) <==> !PassesForPing(c, keys, 0, t.messageType, t.payload)
    ensures t.payload != [] ==> Arrives(c, keys, t)
  {
  }

  // ---------------------------------------------------------------- first hop

  lemma {:induction false} EncodedAreFrames(c: Crypto, keys: Keys, ts: seq<Typed>)
    requires AllFit(ts)
    ensures forall i :: 0 <= i < |ts| ==> IsFrame(EncodeAll(c, keys, ts)[i])
  {
    hide Encode, IsFrame;
    if ts != [] {
      EncodedAreFrames(c, keys, ts[1..]);
      VerdictOnEncode(c, keys, 0, ts[0].messageType, ts[0].payload);
    }
  }

  lemma {:induction false} EncodedAreRelayed(c: Crypto, keys: Keys, ts: seq<Typed>)
    requires AllFit(ts)
    ensures forall i :: 0 <= i < |ts| ==> IsFrame(EncodeAll(c, keys, ts)[i])
    ensures Broadcasts(ServerJudge(c, keys.server), EncodeAll(c, keys, ts)) == EncodeAll(c, keys, Relayed(c, keys, ts))
  {
    hide Encode, ServerVerdict, PassesForPing, IsFrame;
    EncodedAreFrames(c, keys, ts);
    if ts != [] {
      EncodedAreRelayed(c, keys, ts[1..]);
      VerdictOnEncode(c, keys, 0, ts[0].messageType, ts[0].payload);
      var one, rest := [Encode(c, keys, 0, ts[0].messageType, ts[0].payload)], EncodeAll(c, keys, ts[1..]);
      BroadcastsAppend(ServerJudge(c, keys.server), one, rest);
      assert one[..0] == [];
      assert EncodeAll(c, keys, ts) == one + rest;
      if !PassesForPing(c, keys, 0, ts[0].messageType, ts[0].payload) {
        assert Relayed(c, keys, ts)[1..] == Relayed(c, keys, ts[1..]);
      } else {
        assert Relayed(c, keys, ts) == Relayed(c, keys, ts[1..]);
      }
    }
  }

  // What the relay broadcasts from the byte stream of an Arduino is what the Arduino encoded, whatever
  // it sent, without its pings.
  lemma FirstHop(c: Crypto, keys: Keys, ts: seq<Typed>)
    requires AllFit(ts)
    ensures Frames(Concat(EncodeAll(c, keys, ts))) == EncodeAll(c, keys, ts)
    ensures Broadcasts(ServerJudge(c, keys.server), Frames(Concat(EncodeAll(c, keys, ts)))) == EncodeAll(c, keys, Relayed(c, keys, ts))
  {
    EncodedAreRelayed(c, keys, ts);
    FramesOfConcat(EncodeAll(c, keys, ts), []);
    assert Concat(EncodeAll(c, keys, ts)) + [] == Concat(EncodeAll(c, keys, ts));
  }

  lemma OneArrives(c: Crypto, keys: Keys, t: Typed)
    requires |t.payload| <= MAX_PAYLOAD && !PassesForPing(c, keys, 0, t.messageType, t.payload)
    ensures ReadableFrame(c, keys, 0, Encode(c, keys, 0, t.messageType, t.payload))
            == if Arrives(c, keys, t) then [Application(SENDER, t.messageType, t.payload)] else []
  {
    hide Encode, Decode, PassesForPing, TagSurvives, IsFrame, U32, U32Bytes;
    DecodeOfEncode(c, keys, 0, t.messageType, t.payload);
    ZeroBytes();
  }

  // What a peer with the same keys makes of the broadcast frames.
  lemma {:induction false} RelayedArrive(c: Crypto, keys: Keys, ts: seq<Typed>)
    requires AllFit(ts)
    ensures Readable(c, keys, 0, EncodeAll(c, keys, Relayed(c, keys, ts))) == Arriving(c, keys, ts)
  {
    hide Encode, PassesForPing, TagSurvives, Readable, ReadableFrame;
    if ts == [] {
      ReadableNone(c, keys, 0);
    } else {
      var t, us := ts[0], Relayed(c, keys, ts[1..]);
      RelayedArrive(c, keys, ts[1..]);
      if PassesForPing(c, keys, 0, t.messageType, t.payload) {
        assert Relayed(c, keys, ts) == us;
      } else {
        var f := Encode(c, keys, 0, t.messageType, t.payload);
        OneArrives(c, keys, t);
        assert Relayed(c, keys, ts)[1..] == us;
        ReadableAppend(c, keys, 0, [f], EncodeAll(c, keys, us));
        ReadableOne(c, keys, 0, f);
      }
    }
  }

  // ---------------------------------------------------------------- what can be read from a sequence of frames

  function Readable(c: Crypto, keys: Keys, id: uint32, fs: seq<seq<byte>>): seq<Application> {
    if fs == [] then []
    else Readable(c, keys, id, fs[..|fs| - 1]) + ReadableFrame(c, keys, id, fs[|fs| - 1])
  }

  function ReadableFrame(c: Crypto, keys: Keys, id: uint32, f: seq<byte>): seq<Application> {
    if !IsFrame(f) then [] else match Decode(c, keys, id, f) case Delivered(m) => [m] case _ => []
  }

  lemma ReadableNone(c: Crypto, keys: Keys, id: uint32)
    ensures Readable(c, keys, id, []) == []
  {
  }

  lemma ReadableOne(c: Crypto, keys: Keys, id: uint32, f: seq<byte>)
    ensures Readable(c, keys, id, [f]) == ReadableFrame(c, keys, id, f)
  {
    hide ReadableFrame;
    var one := [f];
    assert one[..0] == [];
  }

  lemma {:induction false} ReadableAppend(c: Crypto, keys: Keys, id: uint32, fs: seq<seq<byte>>, gs: seq<seq<byte>>)
    ensures Readable(c, keys, id, fs + gs) == Readable(c, keys, id, fs) + Readable(c, keys, id, gs)
  {
    hide ReadableFrame;
    if gs == [] {
      assert fs + gs == fs;
    } else {
      assert (fs + gs)[..|fs + gs| - 1] == fs + gs[..|gs| - 1];
      ReadableAppend(c, keys, id, fs, gs[..|gs| - 1]);
    }
  }

  // ---------------------------------------------------------------- second hop

  // The bytes of an entry of an outgoing buffer.
  function OnWire(c: Crypto, serverKey: seq<byte>, log: seq<Entry>): seq<seq<byte>> {
    if log == [] then []
    else OnWire(c, serverKey, log[..|log| - 1])
         + [match log[|log| - 1] case ServerPing => PingFrame(c, serverKey) case Forwarded(_, q) => q]
  }

  // One frame for every entry, in order: a ping of the relay, or the forwarded bytes.
  lemma {:induction false} OnWireExactly(c: Crypto, serverKey: seq<byte>, log: seq<Entry>)
    ensures |OnWire(c, serverKey, log)| == |log|
    ensures forall i :: 0 <= i < |log| ==>
              OnWire(c, serverKey, log)[i] == if log[i].ServerPing? then PingFrame(c, serverKey) else log[i].frame
  {
    hide PingFrame;
    if log != [] {
      OnWireExactly(c, serverKey, log[..|log| - 1]);
    }
  }

  // The messages a peer reads, each with the device it came from.
  function Tagged(c: Crypto, keys: Keys, id: uint32, log: seq<Entry>): seq<(nat, Application)> {
    if log == [] then []
    else Tagged(c, keys, id, log[..|log| - 1]) + TaggedEntry(c, keys, id, log[|log| - 1])
  }

  function TaggedEntry(c: Crypto, keys: Keys, id: uint32, entry: Entry): seq<(nat, Application)> {
    match entry
    case ServerPing => []
    case Forwarded(r, f) =>
      if !IsFrame(f) then [] else match Decode(c, keys, id, f) case Delivered(m) => [(r, m)] case _ => []
  }

  function Untagged(q: seq<(nat, Application)>): seq<Application> {
    seq(|q|, i requires 0 <= i < |q| => q[i].1)
  }

  function OfSource(q: seq<(nat, Application)>, r: nat): seq<Application> {
    if q == [] then []
    else OfSource(q[..|q| - 1], r) + if q[|q| - 1].0 == r then [q[|q| - 1].1] else []
  }

  lemma {:induction false} WireFrames(c: Crypto, keys: Keys, id: uint32, log: seq<Entry>)
    requires AllFrames(log)
    ensures forall i :: 0 <= i < |OnWire(c, keys.server, log)| ==> IsFrame(OnWire(c, keys.server, log)[i])
    ensures Messages(c, keys, id, OnWire(c, keys.server, log)) == Untagged(Tagged(c, keys, id, log))
  {
    hide Decode, PingFrame;
    if log != [] {
      var front, last := log[..|log| - 1], log[|log| - 1];
      WireFrames(c, keys, id, front);
      ServerPingIsPing(c, keys, id);
      var f: seq<byte> := match last case ServerPing => PingFrame(c, keys.server) case Forwarded(_, q) => q;
      MessagesAppend(c, keys, id, OnWire(c, keys.server, front), [f]);
      var one := [f];
      assert one[1..] == [];
    }
  }

  // However the bytes handed to a peer's connection are cut on the way, the peer reads the messages of
  // the entries in order; the relay's own pings deliver nothing.
  lemma SecondHop(c: Crypto, keys: Keys, id: uint32, log: seq<Entry>)
    requires AllFrames(log)
    ensures Received(c, keys, id, Concat(OnWire(c, keys.server, log))) == Untagged(Tagged(c, keys, id, log))
  {
    WireFrames(c, keys, id, log);
    FramesOfConcat(OnWire(c, keys.server, log), []);
    assert Concat(OnWire(c, keys.server, log)) + [] == Concat(OnWire(c, keys.server, log));
  }

  lemma EntryOfSource(c: Crypto, keys: Keys, id: uint32, entry: Entry, r: nat)
    ensures OfSource(TaggedEntry(c, keys, id, entry), r) == Readable(c, keys, id, FromEntry(entry, r))
    ensures |TaggedEntry(c, keys, id, entry)| <= 1
  {
    hide Decode, IsFrame;
    var tagged := TaggedEntry(c, keys, id, entry);
    assert tagged != [] ==> tagged[..0] == [];
    if entry.Forwarded? {
      ReadableOne(c, keys, id, entry.frame);
    }
  }

  lemma OfSourceAppend(q: seq<(nat, Application)>, p: seq<(nat, Application)>, r: nat)
    requires |p| <= 1
    ensures OfSource(q + p, r) == OfSource(q, r) + OfSource(p, r)
  {
    if p == [] {
      assert q + p == q;
    } else {
      assert (q + p)[..|q|] == q && p[..0] == [];
    }
  }

  // Among them, those of device r are the decoded frames of r in the log.
  lemma {:induction false} SourceOfTagged(c: Crypto, keys: Keys, id: uint32, log: seq<Entry>, r: nat)
    ensures OfSource(Tagged(c, keys, id, log), r) == Readable(c, keys, id, From(log, r))
  {
    hide TaggedEntry, FromEntry, IsFrame;
    if log != [] {
      var front, last := log[..|log| - 1], log[|log| - 1];
      SourceOfTagged(c, keys, id, front, r);
      EntryOfSource(c, keys, id, last, r);
      ReadableAppend(c, keys, id, From(front, r), FromEntry(last, r));
      OfSourceAppend(Tagged(c, keys, id, front), TaggedEntry(c, keys, id, last), r);
    }
  }

  // ---------------------------------------------------------------- both hops

  // Receiver r has no message on its way to the buffer of e.
  ghost predicate Idle(run: Run, r: nat, e: nat) {
    Flying(Last(run), r, e) == []
  }

  // What has been appended to the buffer of e and not yet handed to send_message.
  function Unsent(run: Run, e: nat): seq<Entry> {
    var s := Last(run);
    if e < |s.devs| && e < |s.senders| && Drained(s.senders[e]) <= |s.devs[e].outbox| then
      s.devs[e].outbox[Drained(s.senders[e])..]
    else []
  }

  // Receiver r reads the frames fs from `run` to `later`, and all its verdicts are right.
  ghost predicate Meanwhile(judge: Judge, run: Run, later: Run, r: nat, before: seq<seq<byte>>, fs: seq<seq<byte>>) {
    && IsRun(run) && IsRun(later) && Genuine(judge, run) && Genuine(judge, later)
    && Reads(judge, run, r, before) && Reads(judge, later, r, before + fs)
  }

  // What a device hears between two moments of a run while its socket delivers the frames fs.
  lemma HeardMeanwhile(judge: Judge, run: Run, later: Run, r: nat, before: seq<seq<byte>>, fs: seq<seq<byte>>)
    requires Meanwhile(judge, run, later, r, before, fs) && |Last(run).devs| <= |Last(later).devs|
    ensures HeardBy(Last(later), r) == HeardBy(Last(run), r) + Broadcasts(judge, fs)
  {
    hide IsRun, Genuine, Reads;
    HeardIsBroadcast(judge, run, r, before);
    HeardIsBroadcast(judge, later, r, before + fs);
    BroadcastsAppend(judge, before, fs);
  }

  // While r's socket delivers the frames fs, the relay appends for e what r had in flight and what of fs
  // is broadcast; the last message may still be on its way.
  lemma RelayedFrames(judge: Judge, run: Run, later: Run, r: nat, e: nat, before: seq<seq<byte>>, fs: seq<seq<byte>>)
    requires Meanwhile(judge, run, later, r, before, fs)
    requires JustRegistered(run, e) && RegisteredThroughout(run, later, e)
    ensures e < |Last(run).devs| <= |Last(later).devs|
    ensures From(Last(later).devs[e].appended, r) + Flying(Last(later), r, e)
            == Flying(Last(run), r, e) + Broadcasts(judge, fs)
  {
    assert IsRun(run) && IsRun(later);
    hide IsRun, Meanwhile, From, InFlight, JustRegistered, RegisteredThroughout, Broadcasts;
    DeliveredSinceRegistration(run, later, r, e);
    RegisteredExists(run, e);
    HeardMeanwhile(judge, run, later, r, before, fs);
  }

  lemma {:induction false} FromAppend(p: seq<Entry>, q: seq<Entry>, r: nat)
    ensures From(p + q, r) == From(p, r) + From(q, r)
  {
    if q == [] {
      assert p + q == p;
    } else {
      assert (p + q)[..|p + q| - 1] == p + q[..|q| - 1];
      FromAppend(p, q[..|q| - 1], r);
    }
  }

  // What has been handed over, what is still buffered and what is in flight, as messages of r.
  lemma Accounted(c: Crypto, keys: Keys, later: Run, r: nat, e: nat)
    requires IsRun(later) && e < |Last(later).devs|
    ensures Readable(c, keys, 0, From(Last(later).devs[e].appended, r) + Flying(Last(later), r, e))
            == OfSource(Tagged(c, keys, 0, Last(later).devs[e].handed), r)
               + Readable(c, keys, 0, From(Unsent(later, e), r)) + Readable(c, keys, 0, Flying(Last(later), r, e))
  {
    OutboxConserved(later, e);
    hide IsRun, From, Readable, Tagged, OfSource, InFlight;
    var handed, unsent := Last(later).devs[e].handed, Unsent(later, e);
    assert Last(later).devs[e].appended == handed + unsent;
    FromAppend(handed, unsent, r);
    ReadableAppend(c, keys, 0, From(handed, r), From(unsent, r));
    ReadableAppend(c, keys, 0, From(handed + unsent, r), Flying(Last(later), r, e));
    SourceOfTagged(c, keys, 0, handed, r);
  }

  lemma AppendedArrive(c: Crypto, keys: Keys, run: Run, later: Run, r: nat, e: nat, before: seq<seq<byte>>, ts: seq<Typed>)
    requires AllFit(ts) && JustRegistered(run, e) && RegisteredThroughout(run, later, e)
    requires Meanwhile(ServerJudge(c, keys.server), run, later, r, before, Frames(Concat(EncodeAll(c, keys, ts))))
    ensures e < |Last(later).devs|
    ensures Readable(c, keys, 0, From(Last(later).devs[e].appended, r) + Flying(Last(later), r, e))
            == Readable(c, keys, 0, Flying(Last(run), r, e)) + Arriving(c, keys, ts)
  {
    hide IsRun, Meanwhile, From, Flying, JustRegistered, RegisteredThroughout, Readable, Broadcasts, EncodeAll, Relayed, Arriving;
    var fs := Frames(Concat(EncodeAll(c, keys, ts)));
    RelayedFrames(ServerJudge(c, keys.server), run, later, r, e, before, fs);
    FirstHop(c, keys, ts);
    RelayedArrive(c, keys, ts);
    ReadableAppend(c, keys, 0, Flying(Last(run), r, e), Broadcasts(ServerJudge(c, keys.server), fs));
  }

  // A source r sends any messages ts, pings included, while a peer e is registered.  At every moment and
  // through any interleaving of any number of devices, what the peer reads of r from the bytes handed to
  // its connection, what the relay still has to hand over and what it is about to append are together
  // what r had in flight when the peer was registered and the messages of ts that arrive, in order.
  lemma EndToEnd(c: Crypto, keys: Keys, run: Run, later: Run, r: nat, e: nat, before: seq<seq<byte>>, ts: seq<Typed>)
    requires AllFit(ts) && JustRegistered(run, e) && RegisteredThroughout(run, later, e)
    requires Meanwhile(ServerJudge(c, keys.server), run, later, r, before, Frames(Concat(EncodeAll(c, keys, ts))))
    ensures e < |Last(later).devs| && AllFrames(Last(later).devs[e].handed)
    ensures Received(c, keys, 0, Concat(OnWire(c, keys.server, Last(later).devs[e].handed)))
            == Untagged(Tagged(c, keys, 0, Last(later).devs[e].handed))
    ensures OfSource(Tagged(c, keys, 0, Last(later).devs[e].handed), r)
            + Readable(c, keys, 0, From(Unsent(later, e), r)) + Readable(c, keys, 0, Flying(Last(later), r, e))
            == Readable(c, keys, 0, Flying(Last(run), r, e)) + Arriving(c, keys, ts)
  {
    assert IsRun(later) && Genuine(ServerJudge(c, keys.server), later);
    hide IsRun, Meanwhile, Genuine, From, Flying, JustRegistered, RegisteredThroughout, Readable, Tagged, OfSource, Received, EncodeAll, Arriving;
    AppendedArrive(c, keys, run, later, r, e, before, ts);
    Accounted(c, keys, later, r, e);
    HandedFrames(ServerJudge(c, keys.server), later, e);
    SecondHop(c, keys, 0, Last(later).devs[e].handed);
  }

  lemma HandedFrames(judge: Judge, later: Run, e: nat)
    requires IsRun(later) && Genuine(judge, later) && e < |Last(later).devs|
    ensures AllFrames(Last(later).devs[e].handed)
  {
    OutboxConserved(later, e);
    RunKeepsFrames(judge, later);
    hide IsRun, Genuine, IsFrame;
    var d := Last(later).devs[e];
    assert AllFrames(d.appended);
    assert forall i :: 0 <= i < |d.handed| ==> d.handed[i] == d.appended[i];
  }

  // So the peer never reads anything else of r, and when nothing of r is left in the relay it has read
  // all messages that arrive.
  lemma AllArrive(c: Crypto, keys: Keys, run: Run, later: Run, r: nat, e: nat, before: seq<seq<byte>>, ts: seq<Typed>)
    requires AllFit(ts) && JustRegistered(run, e) && RegisteredThroughout(run, later, e)
    requires Meanwhile(ServerJudge(c, keys.server), run, later, r, before, Frames(Concat(EncodeAll(c, keys, ts))))
    ensures e < |Last(later).devs|
    ensures var read, all := OfSource(Tagged(c, keys, 0, Last(later).devs[e].handed), r),
                             Readable(c, keys, 0, Flying(Last(run), r, e)) + Arriving(c, keys, ts);
            read <= all && (Idle(later, r, e) && Unsent(later, e) == [] ==> read == all)
  {
    hide Meanwhile, Flying, JustRegistered, RegisteredThroughout, Tagged, OfSource, EncodeAll, Arriving, Received, Readable, From, Unsent;
    EndToEnd(c, keys, run, later, r, e, before, ts);
    ReadableNone(c, keys, 0);
    FromNone(r);
    IsPrefix(OfSource(Tagged(c, keys, 0, Last(later).devs[e].handed), r),
             Readable(c, keys, 0, From(Unsent(later, e), r)), Readable(c, keys, 0, Flying(Last(later), r, e)));
  }

  lemma FromNone(r: nat)
    ensures From([], r) == []
  {
  }

  lemma IsPrefix<T(!new)>(p: seq<T>, q: seq<T>, q': seq<T>)
    ensures p <= p + q + q' && (q == [] && q' == [] ==> p == p + q + q')
  {
  }
}

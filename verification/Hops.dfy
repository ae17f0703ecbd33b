/** Both hops of the end-to-end theorem, run by the loops of the library and of the relay. */
module Hops {
  import opened Bytes
  import opened Wire
  import opened Framing
  import opened NetworkSender
  import opened NetworkReceiver
  import opened RelayIo
  import opened RelayState
  import opened RelayDelivery
  import opened RelayReading
  import opened EndToEnd
  import opened RelayTrace
  import Session

  // What one call of send() meets: connected(), and which offered bytes the client takes.
  datatype Attempt = Attempt(connected: bool, taken: seq<bool>)

  predicate AreAttempts(attempts: seq<Attempt>) {
    forall i :: 0 <= i < |attempts| ==> |attempts[i].taken| >= SEND_TRIES * MAX_MESSAGE
  }

  function Stream(c: Crypto, keys: Keys, ts: seq<Typed>): seq<byte>
    requires AllFit(ts)
  {
    Concat(EncodeAll(c, keys, ts))
  }

  // The stream of the first i messages, the next one, and the rest.
  lemma {:induction false} StreamAt(c: Crypto, keys: Keys, ts: seq<Typed>, i: nat)
    requires AllFit(ts) && i < |ts|
    ensures Stream(c, keys, ts[..i + 1]) == Stream(c, keys, ts[..i]) + Encode(c, keys, 0, ts[i].messageType, ts[i].payload)
    ensures Stream(c, keys, ts[..i + 1]) <= Stream(c, keys, ts)
    decreases i
  {
    hide Encode;
    if i == 0 {
      var one := ts[..1];
      assert one[1..] == [] && ts[..0] == [];
    } else {
      StreamAt(c, keys, ts[1..], i - 1);
      assert ts[..i + 1][1..] == ts[1..][..i] && ts[..i][1..] == ts[1..][..i - 1];
    }
  }

  method SendOne(sender: Sender, t: Typed, attempt: Attempt) returns (ok: bool)
    requires |t.payload| <= MAX_PAYLOAD && sender.info.networkId == 0 && |attempt.taken| >= SEND_TRIES * MAX_MESSAGE
    modifies sender.info.client`sent
    ensures var message := Encode(sender.info.crypto, sender.info.keys, 0, t.messageType, t.payload);
            && old(sender.info.client.sent) <= sender.info.client.sent <= old(sender.info.client.sent) + message
            && (ok <==> sender.info.client.sent == old(sender.info.client.sent) + message)
  {
    hide Encode, GetsThrough;
    var payload := new byte[|t.payload|](j requires 0 <= j < |t.payload| => t.payload[j]);
    assert payload[..|t.payload|] == t.payload;
    ok := sender.Send(t.messageType, payload, |t.payload|, attempt.connected, attempt.taken);
  }

  // A stream that goes on with x, of which y has been taken.
  lemma Onward(before: seq<byte>, p: seq<byte>, x: seq<byte>, y: seq<byte>, stream: seq<byte>)
    requires p + x <= stream && before + p <= y <= (before + p) + x
    ensures before <= y <= before + stream
    ensures y == (before + p) + x ==> y == before + (p + x)
    ensures y != (before + p) + x ==> |y| < |before + stream|
  {
    assert (before + p) + x == before + (p + x);
    assert before + (p + x) <= before + stream;
  }

  // send() for one message after the other, up to the first failure: the connection takes the stream of
  // all messages or, on a failure, a proper prefix of it.
  method SendAll(sender: Sender, ts: seq<Typed>, attempts: seq<Attempt>) returns (ok: bool)
    requires AllFit(ts) && sender.info.networkId == 0 && |attempts| == |ts| && AreAttempts(attempts)
    modifies sender.info.client`sent
    ensures var stream := Stream(sender.info.crypto, sender.info.keys, ts);
            && old(sender.info.client.sent) <= sender.info.client.sent <= old(sender.info.client.sent) + stream
            && (ok <==> sender.info.client.sent == old(sender.info.client.sent) + stream)
  {
    ghost var c, keys := sender.info.crypto, sender.info.keys;
    ghost var before, stream := sender.info.client.sent, Stream(c, keys, ts);
    ok := true;
    var i := 0;
    EmptyStream(c, keys);
    assert ts[..0] == [] && ts[..|ts|] == ts;
    hide Encode, Stream;
    while i < |ts| && ok
      invariant 0 <= i <= |ts|
      invariant before <= sender.info.client.sent <= before + stream
      invariant ok ==> sender.info.client.sent == before + Stream(c, keys, ts[..i])
      invariant !ok ==> |sender.info.client.sent| < |before + stream|
    {
      ghost var p, x := Stream(c, keys, ts[..i]), Encode(c, keys, 0, ts[i].messageType, ts[i].payload);
      StreamAt(c, keys, ts, i);
      ok := SendOne(sender, ts[i], attempts[i]);
      Onward(before, p, x, sender.info.client.sent, stream);
      i := i + 1;
    }
  }

  lemma EmptyStream(c: Crypto, keys: Keys)
    ensures Stream(c, keys, []) == []
  {
  }

  lemma FramesOfPrefix(p: seq<byte>, q: seq<byte>)
    requires p <= q
    ensures |Frames(p)| <= |Frames(q)| && Frames(p) == Frames(q)[..|Frames(p)|]
  {
    SplitResumes(p, q[|p|..]);
    assert p + q[|p|..] == q;
  }

  // What the relay splits a part of the stream into.
  lemma FramesOfStream(c: Crypto, keys: Keys, ts: seq<Typed>, p: seq<byte>)
    requires AllFit(ts) && p <= Stream(c, keys, ts)
    ensures |Frames(p)| <= |ts| && Frames(p) == EncodeAll(c, keys, ts)[..|Frames(p)|]
    ensures p == Stream(c, keys, ts) ==> Frames(p) == EncodeAll(c, keys, ts)
  {
    FirstHop(c, keys, ts);
    hide Frames, Concat, EncodeAll;
    FramesOfPrefix(p, Stream(c, keys, ts));
  }

  // The first hop on a new connection, for every outcome of every write() and recv(): the relay reads the
  // first of the messages sent, and all of them when nothing fails.
  method FirstHopOverSockets(sender: Sender, socket: Socket, ts: seq<Typed>, attempts: seq<Attempt>,
                             schedule: seq<(seq<RecvRound>, seq<RecvRound>)>) returns (ok: bool, messages: seq<seq<byte>>)
    requires AllFit(ts) && sender.info.networkId == 0 && |attempts| == |ts| && AreAttempts(attempts)
    requires sender.info.client.sent == []
    requires forall i :: 0 <= i < |schedule| ==> |schedule[i].0| > HEADER && |schedule[i].1| > MAX_PAYLOAD
    modifies sender.info.client`sent, socket`incoming
    ensures |messages| <= |ts| && messages == EncodeAll(sender.info.crypto, sender.info.keys, ts)[..|messages|]
    ensures ok && AllWork(schedule) && |schedule| >= |ts| ==>
              messages == EncodeAll(sender.info.crypto, sender.info.keys, ts)
  {
    ghost var c, keys := sender.info.crypto, sender.info.keys;
    hide AllWork, Stream, Frames, EncodeAll, AllFit;
    ok := SendAll(sender, ts, attempts);
    assert [] + Stream(c, keys, ts) == Stream(c, keys, ts);
    socket.incoming := sender.info.client.sent;
    FramesOfStream(c, keys, ts, socket.incoming);
    messages := ReadMessages(socket, schedule);
  }

  // The relay's sender: one send_message for each message, whatever the result of the one before.  The
  // socket gets all messages one after the other exactly when every one of them is sent whole.
  method SendHanded(socket: Socket, messages: seq<seq<byte>>, outcomes: seq<seq<int>>) returns (ok: bool)
    requires |outcomes| == |messages| && forall i :: 0 <= i < |messages| ==> IsFrame(messages[i])
    modifies socket`outgoing
    ensures ok <==> socket.outgoing == old(socket.outgoing) + Concat(messages)
  {
    ghost var before := socket.outgoing;
    ghost var stream: seq<byte> := [];
    ok := true;
    var i := 0;
    assert messages[..0] == [] && Concat(messages[..0]) == [];
    while i < |messages|
      invariant 0 <= i <= |messages| && socket.outgoing == before + stream
      invariant |stream| <= |Concat(messages[..i])|
      invariant if ok then stream == Concat(messages[..i]) else |stream| < |Concat(messages[..i])|
    {
      Session.ConcatSnoc(messages[..i], messages[i]);
      assert messages[..i] + [messages[i]] == messages[..i + 1];
      ghost var part;
      var whole;
      whole, part := SendFrame(socket, messages[i], outcomes[i]);
      assert (before + stream) + part == before + (stream + part);
      stream := stream + part;
      ok := ok && whole;
      i := i + 1;
    }
    assert messages[..|messages|] == messages;
  }

  // A frame is too short for its sending to be taken for an error.
  method SendFrame(socket: Socket, message: seq<byte>, outcomes: seq<int>) returns (whole: bool, ghost part: seq<byte>)
    requires IsFrame(message)
    modifies socket`outgoing
    ensures part <= message && socket.outgoing == old(socket.outgoing) + part
    ensures whole <==> part == message
  {
    ghost var before := socket.outgoing;
    ghost var m;
    whole, m := SendMessage(socket, message, outcomes);
    assert m == 0 && before + Repeated(message, m) == before;
    ghost var k :| 0 <= k <= |message| && (whole <==> k == |message|)
                   && socket.outgoing == before + Repeated(message, m) + message[..k];
    part := message[..k];
  }

  // A stream cut into pieces of the given lengths; the last piece is whatever is left.
  function Cut(stream: seq<byte>, lengths: seq<nat>): seq<seq<byte>> {
    if lengths == [] || |stream| < lengths[0] then [stream]
    else [stream[..lengths[0]]] + Cut(stream[lengths[0]..], lengths[1..])
  }

  lemma {:induction false} CutLosesNothing(stream: seq<byte>, lengths: seq<nat>)
    ensures Concat(Cut(stream, lengths)) == stream
    decreases |lengths|
  {
    if lengths == [] || |stream| < lengths[0] {
      var one := [stream];
      assert one[1..] == [];
    } else {
      CutLosesNothing(stream[lengths[0]..], lengths[1..]);
      ConcatCons(stream[..lengths[0]], Cut(stream[lengths[0]..], lengths[1..]));
    }
  }

  // The second hop on a new connection, the first or a later one: the relay sends the entries handed to
  // the peer, the stream is cut in any way, and the messages the peer takes are those of the entries, in
  // order.
  method SecondHopOverSockets(socket: Socket, receiver: Receiver, frames: seq<seq<byte>>, outcomes: seq<seq<int>>,
                              lengths: seq<nat>, clock: nat -> uint32, ghost log: seq<Entry>)
    returns (ok: bool, messages: seq<Application>)
    requires receiver.Valid() && Session.Taken(receiver)
    requires receiver.info.client.consumed == [] && receiver.info.client.pending == [] && socket.outgoing == []
    requires AllFrames(log) && frames == OnWire(receiver.info.crypto, receiver.info.keys.server, log) && |outcomes| == |frames|
    modifies socket`outgoing
    modifies receiver, receiver.buffer, receiver.info, receiver.info.client`pending, receiver.info.client`consumed
    ensures ok <==> socket.outgoing == Concat(frames)
    ensures ok ==> messages == Untagged(Tagged(receiver.info.crypto, receiver.info.keys, receiver.info.networkId, log))
  {
    ghost var c, keys, id := receiver.info.crypto, receiver.info.keys, receiver.info.networkId;
    WireFrames(c, keys, id, log);
    SecondHop(c, keys, id, log);
    hide Received, Tagged, OnWire, Concat, Rest, AllFrames, IsFrame, Session.Taken;
    ok := SendHanded(socket, frames, outcomes);
    assert [] + Concat(frames) == Concat(frames);
    var stream := socket.outgoing;
    CutLosesNothing(stream, lengths);
    messages := Session.ReceiveChunks(receiver, Cut(stream, lengths), clock);
  }

  lemma {:induction false} EncodedPrefix(c: Crypto, keys: Keys, ts: seq<Typed>, k: nat)
    requires AllFit(ts) && k <= |ts|
    ensures EncodeAll(c, keys, ts[..k]) == EncodeAll(c, keys, ts)[..k]
  {
    hide Encode;
    if k > 0 {
      EncodedPrefix(c, keys, ts[1..], k - 1);
      assert ts[..k][1..] == ts[1..][..k - 1];
    }
  }

  // What the trace says when receiver r has read the first k messages of ts meanwhile.
  lemma ReadMeanwhile(c: Crypto, keys: Keys, trace: Trace, later: Trace, r: nat, e: nat, ts: seq<Typed>, k: nat)
    requires Continues(trace, later) && IsTrace(c, keys.server, later) && NoneDisturbed(later) && AllFit(ts) && k <= |ts|
    requires JustRegistered(RunOf(trace), e) && RegisteredThroughout(RunOf(trace), RunOf(later), e)
    requires FramesRead(later, r) == FramesRead(trace, r) + EncodeAll(c, keys, ts)[..k]
    ensures e < |Last(RunOf(later)).devs|
    ensures Passed(c, keys, RunOf(trace), RunOf(later), r, e, ts[..k])
  {
    hide Continues, IsTrace, NoneDisturbed, JustRegistered, RegisteredThroughout, FramesRead, Meanwhile, Tagged, OfSource;
    hide Readable, Arriving, Flying, Unsent, EncodeAll, Frames, Concat, RunOf;
    EncodedPrefix(c, keys, ts, k);
    FirstHop(c, keys, ts[..k]);
    UndisturbedMeanwhile(c, keys.server, trace, later, r, EncodeAll(c, keys, ts[..k]));
    AllArrive(c, keys, RunOf(trace), RunOf(later), r, e, FramesRead(trace, r), ts[..k]);
  }

  // Of the messages ts of source r, peer e has been handed a part of those that arrive, in order after
  // what r had in flight, and all of them when nothing of r is left in the relay.
  ghost predicate Passed(c: Crypto, keys: Keys, run: Run, later: Run, r: nat, e: nat, ts: seq<Typed>)
    requires AllFit(ts) && e < |Last(later).devs|
  {
    var read, all := OfSource(Tagged(c, keys, 0, Last(later).devs[e].handed), r),
                     Readable(c, keys, 0, Flying(Last(run), r, e)) + Arriving(c, keys, ts);
    read <= all && (Idle(later, r, e) && Unsent(later, e) == [] ==> read == all)
  }

  lemma HandedUndisturbed(c: Crypto, key: seq<byte>, later: Trace, e: nat)
    requires IsTrace(c, key, later) && NoneDisturbed(later) && e < |Last(RunOf(later)).devs|
    ensures AllFrames(Last(RunOf(later)).devs[e].handed)
    ensures OnWireWith(PingTags(c, key, later, e), Last(RunOf(later)).devs[e].handed)
            == OnWire(c, key, Last(RunOf(later)).devs[e].handed)
  {
    TraceIsRun(c, key, later);
    UndisturbedIsGenuine(c, key, later);
    UndisturbedOnWire(c, key, later, e);
    hide IsTrace, NoneDisturbed, IsRun, Genuine, ServerJudge, AllFrames;
    HandedFrames(ServerJudge(c, key), RunOf(later), e);
  }

  // The second hop of an undisturbed trace: pings carry the tags copied in it.
  method PeerHop(outgoing: Socket, receiver: Receiver, frames: seq<seq<byte>>, outcomes: seq<seq<int>>,
                 lengths: seq<nat>, clock: nat -> uint32, ghost later: Trace, ghost e: nat)
    returns (ok: bool, messages: seq<Application>)
    requires receiver.Valid() && Session.Taken(receiver) && receiver.info.networkId == 0
    requires receiver.info.client.consumed == [] && receiver.info.client.pending == [] && outgoing.outgoing == []
    requires IsTrace(receiver.info.crypto, receiver.info.keys.server, later) && NoneDisturbed(later)
    requires e < |Last(RunOf(later)).devs| && |outcomes| == |frames|
    requires frames == OnWireWith(PingTags(receiver.info.crypto, receiver.info.keys.server, later, e), Last(RunOf(later)).devs[e].handed)
    modifies outgoing`outgoing
    modifies receiver, receiver.buffer, receiver.info, receiver.info.client`pending, receiver.info.client`consumed
    ensures ok <==> outgoing.outgoing == Concat(frames)
    ensures ok ==> messages == Untagged(Tagged(receiver.info.crypto, receiver.info.keys, 0, Last(RunOf(later)).devs[e].handed))
  {
    hide IsTrace, NoneDisturbed, Tagged, OnWire, OnWireWith, PingTags, Concat, AllFrames, RunOf, Received, AllReceived, Rest;
    HandedUndisturbed(receiver.info.crypto, receiver.info.keys.server, later, e);
    ok, messages := SecondHopOverSockets(outgoing, receiver, frames, outcomes, lengths, clock, Last(RunOf(later)).devs[e].handed);
  }

  // Everything together.  A source sends ts, the relay reads the first of them, maybe all; in any trace in
  // which nobody disturbs the shared digest and receiver r reads just these meanwhile, the relay's sends to
  // the peer, cut in any way, are read by the peer as the messages of the entries handed to it, and those
  // of r are what it has read that arrives.
  method EndToEndOverSockets(sender: Sender, incoming: Socket, ts: seq<Typed>, attempts: seq<Attempt>,
                             schedule: seq<(seq<RecvRound>, seq<RecvRound>)>,
                             outgoing: Socket, receiver: Receiver, frames: seq<seq<byte>>, outcomes: seq<seq<int>>,
                             lengths: seq<nat>, clock: nat -> uint32,
                             ghost trace: Trace, ghost later: Trace, ghost r: nat, ghost e: nat)
    returns (sent: bool, read: seq<seq<byte>>, ok: bool, messages: seq<Application>)
    requires AllFit(ts) && sender.info.networkId == 0 && |attempts| == |ts| && AreAttempts(attempts) && sender.info.client.sent == []
    requires forall i :: 0 <= i < |schedule| ==> |schedule[i].0| > HEADER && |schedule[i].1| > MAX_PAYLOAD
    requires receiver.Valid() && Session.Taken(receiver) && receiver.info.networkId == 0
    requires sender.info.crypto == receiver.info.crypto && sender.info.keys == receiver.info.keys
    requires receiver.info.client.consumed == [] && receiver.info.client.pending == [] && outgoing.outgoing == []
    requires Continues(trace, later) && IsTrace(receiver.info.crypto, receiver.info.keys.server, later) && NoneDisturbed(later)
    requires JustRegistered(RunOf(trace), e) && RegisteredThroughout(RunOf(trace), RunOf(later), e)
    requires e < |Last(RunOf(later)).devs| && |outcomes| == |frames|
    requires frames == OnWireWith(PingTags(receiver.info.crypto, receiver.info.keys.server, later, e), Last(RunOf(later)).devs[e].handed)
    modifies sender.info.client`sent, incoming`incoming, outgoing`outgoing
    modifies receiver, receiver.buffer, receiver.info, receiver.info.client`pending, receiver.info.client`consumed
    ensures |read| <= |ts| && (sent && AllWork(schedule) && |schedule| >= |ts| ==> |read| == |ts|)
    ensures ok <==> outgoing.outgoing == Concat(frames)
    ensures ok ==> messages == Untagged(Tagged(receiver.info.crypto, receiver.info.keys, 0, Last(RunOf(later)).devs[e].handed))
    ensures FramesRead(later, r) == FramesRead(trace, r) + read ==>
              Passed(receiver.info.crypto, receiver.info.keys, RunOf(trace), RunOf(later), r, e, ts[..|read|])
  {
    ghost var c, keys := receiver.info.crypto, receiver.info.keys;
    hide Continues, IsTrace, NoneDisturbed, JustRegistered, RegisteredThroughout, FramesRead, Passed, Tagged, OnWire, OnWireWith, PingTags;
    hide Concat, EncodeAll, AllWork, AllFrames, RunOf, Received, AllReceived, Frames, Rest;
    sent, read := FirstHopOverSockets(sender, incoming, ts, attempts, schedule);
    ok, messages := PeerHop(outgoing, receiver, frames, outcomes, lengths, clock, later, e);
    if FramesRead(later, r) == FramesRead(trace, r) + read {
      ReadMeanwhile(c, keys, trace, later, r, e, ts, |read|);
    }
  }
}

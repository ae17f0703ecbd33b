/** The receiver's result does not depend on how a stream is cut into pieces. */
module Session {
  import opened Bytes
  import opened Wire
  import opened Framing
  import opened NetworkReceiver

  // Every message of the current connection has been taken.
  ghost predicate Taken(receiver: Receiver)
    reads receiver, receiver.info
  {
    receiver.Synchronised() ==> !receiver.isMessageReceived
  }

  // One round of the sketch's loop(): the receiver runs once, then a received message is taken.
  method Round(receiver: Receiver, now: uint32) returns (taken: seq<Application>)
    requires receiver.Valid() && Taken(receiver)
    modifies receiver, receiver.buffer, receiver.info, receiver.info.client`pending, receiver.info.client`consumed
    ensures receiver.Valid() && receiver.Synchronised() && !receiver.isMessageReceived
    ensures receiver.log == old(receiver.log) + taken
    ensures receiver.info.client.consumed + receiver.info.client.pending
            == old(receiver.info.client.consumed + receiver.info.client.pending)
    ensures old(receiver.info.client.pending) != [] ==>
              |receiver.info.client.pending| < |old(receiver.info.client.pending)|
    ensures old(receiver.info.client.pending) == [] ==> receiver.info.client.pending == []
  {
    hide Decode, Received, Rest, AllReceived;
    receiver.Loop(now);
    taken := [];
    var received := receiver.IsReceived();
    if received {
      var q := receiver.GetReceivedMessage();
      taken := [Held(q)];
    }
  }

  lemma ConcatSnoc(fs: seq<seq<byte>>, f: seq<byte>)
    ensures Concat(fs + [f]) == Concat(fs) + f
  {
    if fs == [] {
      assert fs + [f] == [f];
    } else {
      assert (fs + [f])[1..] == fs[1..] + [f];
      ConcatSnoc(fs[1..], f);
    }
  }

  // All messages of earlier connections.
  ghost function Before(receiver: Receiver): seq<Application>
    reads receiver.info.client
  {
    AllReceived(receiver.info.crypto, receiver.info.keys, receiver.info.networkId, receiver.info.client.earlier)
  }

  // The messages taken so far on this connection are exactly those of its bytes read so far.
  ghost predicate Tracks(receiver: Receiver, stream: seq<byte>, messages: seq<Application>)
    reads receiver, receiver.buffer, receiver.info, receiver.info.client
  {
    && receiver.Valid() && Taken(receiver)
    && receiver.info.client.consumed + receiver.info.client.pending == stream
    && receiver.log == Before(receiver) + messages
  }

  lemma TrackedMessages(receiver: Receiver, stream: seq<byte>, messages: seq<Application>)
    requires Tracks(receiver, stream, messages)
    ensures messages == Received(receiver.info.crypto, receiver.info.keys, receiver.info.networkId, receiver.info.client.consumed)
    ensures receiver.Synchronised() ==> receiver.buffer[..receiver.index] == Rest(receiver.info.client.consumed)
  {
    var received := Received(receiver.info.crypto, receiver.info.keys, receiver.info.networkId, receiver.info.client.consumed);
    hide AllReceived, Received, Rest;
    var log, before := receiver.log, Before(receiver);
    assert log == before + received == before + messages;
    assert log[|before|..] == received && log[|before|..] == messages;
  }

  method Piece(receiver: Receiver, ghost stream: seq<byte>, chunk: seq<byte>, messages: seq<Application>, now: uint32)
    returns (all: seq<Application>)
    requires Tracks(receiver, stream, messages)
    modifies receiver, receiver.buffer, receiver.info, receiver.info.client`pending, receiver.info.client`consumed
    ensures Tracks(receiver, stream + chunk, all) && receiver.Synchronised()
    ensures chunk == [] && old(receiver.info.client.pending) != [] ==>
              |receiver.info.client.pending| < |old(receiver.info.client.pending)|
    ensures chunk == [] && old(receiver.info.client.pending) == [] ==> receiver.info.client.pending == []
  {
    hide Received, Rest, AllReceived, Decode;
    receiver.info.client.Arrive(chunk);
    assert receiver.info.client.consumed + receiver.info.client.pending == stream + chunk;
    var taken := Round(receiver, now);
    all := messages + taken;
    assert (Before(receiver) + messages) + taken == Before(receiver) + all;
  }

  // However the stream of a connection is cut, with one call of loop() after each piece and at least one
  // at the end, the messages taken are those of the whole stream read at once, and the buffer holds
  // exactly the frame left incomplete.  `clock` is the reading of millis() in each call.  The connection may be the first or follow earlier ones, and then
  // the receiver may not have noticed the change yet and hold a partial frame or a message of the old one.
  method ReceiveChunks(receiver: Receiver, chunks: seq<seq<byte>>, clock: nat -> uint32) returns (messages: seq<Application>)
    requires receiver.Valid() && Taken(receiver)
    requires receiver.info.client.consumed == [] && receiver.info.client.pending == []
    modifies receiver, receiver.buffer, receiver.info, receiver.info.client`pending, receiver.info.client`consumed
    ensures messages == Received(receiver.info.crypto, receiver.info.keys, receiver.info.networkId, Concat(chunks))
    ensures receiver.index <= receiver.buffer.Length && receiver.buffer[..receiver.index] == Rest(Concat(chunks))
    ensures receiver.info.client.pending == []
  {
    messages := [];
    EmptyStream(receiver.info.crypto, receiver.info.keys, receiver.info.networkId);
    assert Tracks(receiver, [], messages);
    hide Tracks;
    for i := 0 to |chunks|
      invariant Tracks(receiver, Concat(chunks[..i]), messages)
    {
      ConcatSnoc(chunks[..i], chunks[i]);
      assert chunks[..i] + [chunks[i]] == chunks[..i + 1];
      messages := Piece(receiver, Concat(chunks[..i]), chunks[i], messages, clock(i));
    }
    assert chunks[..|chunks|] == chunks;
    messages := Drain(receiver, Concat(chunks), messages, clock, |chunks|);
  }

  method Drain(receiver: Receiver, ghost stream: seq<byte>, messages: seq<Application>, clock: nat -> uint32, calls: nat)
    returns (all: seq<Application>)
    requires Tracks(receiver, stream, messages)
    modifies receiver, receiver.buffer, receiver.info, receiver.info.client`pending, receiver.info.client`consumed
    ensures receiver.index <= receiver.buffer.Length && receiver.info.client.pending == []
    ensures all == Received(receiver.info.crypto, receiver.info.keys, receiver.info.networkId, stream)
    ensures receiver.buffer[..receiver.index] == Rest(stream)
  {
    hide Received, Rest;
    assert stream + [] == stream;
    all := Piece(receiver, stream, [], messages, clock(calls));
    var n := calls;
    var available := receiver.info.client.Available();
    while available > 0
      invariant Tracks(receiver, stream, all) && receiver.Synchronised() && available == |receiver.info.client.pending|
      decreases available
    {
      n := n + 1;
      all := Piece(receiver, stream, [], all, clock(n));
      available := receiver.info.client.Available();
    }
    assert receiver.info.client.consumed + [] == receiver.info.client.consumed;
    TrackedMessages(receiver, stream, all);
  }
}

/** Encoding and decoding are inverse exactly as far as the code makes them so. */
module WireProofs {
  import opened Bytes
  import opened Wire

  // Where the parts of an assembled frame lie.
  lemma Parts(tagS: seq<byte>, tagN: seq<byte>, clear: seq<byte>, secret: seq<byte>)
    requires |tagS| == 4 && |tagN| == 4 && |clear| == 24 && |secret| >= 16
    ensures var q := tagS + tagN + (clear + secret);
            && ServerTag(q) == tagS && NetworkTag(q) == tagN && Signed(q) == clear + secret && Secret(q) == secret
            && PayloadLength(q) == clear[0] && NetworkId(q) == clear[1..5]
            && Vector(q) == clear[8..16] && Timestamp(q) == clear[16..24]
  {
  }

  lemma ClearParts(id: uint32, length: byte)
    ensures Clear(id, length)[0] == length && Clear(id, length)[1..5] == Reverse(U32Bytes(id))
    ensures Clear(id, length)[8..16] == ONES_8 && Clear(id, length)[16..24] == ONES_8
  {
  }

  lemma EncodedParts(c: Crypto, keys: Keys, id: uint32, messageType: byte, payload: seq<byte>)
    requires |payload| <= MAX_PAYLOAD
    ensures var q := Encode(c, keys, id, messageType, payload);
            var body := Body(c, keys, id, messageType, payload);
            && IsFrame(q) && PayloadLength(q) == |payload| && Vector(q) == ONES_8
            && NetworkId(q) == Reverse(U32Bytes(id)) && Signed(q) == body
            && ServerTag(q) == Reverse(Tag(c, keys.server, body))
            && NetworkTag(q) == (if messageType == 0 then ONES_4 else Reverse(Tag(c, keys.network, body)))
            && Decrypted(c, keys, q) == Plain(messageType, payload)
  {
    var body := Body(c, keys, id, messageType, payload);
    var secret := Ctr(c, keys.network, Iv(c, keys.network, ONES_8), Plain(messageType, payload));
    Parts(Reverse(Tag(c, keys.server, body)),
          if messageType == 0 then ONES_4 else Reverse(Tag(c, keys.network, body)),
          Clear(id, |payload|), secret);
    ClearParts(id, |payload|);
    CtrTwice(c, keys.network, Iv(c, keys.network, ONES_8), Plain(messageType, payload));
  }

  // ---------------------------------------------------------------- Arduino to Arduino

  // A message that the receiver takes for a ping: no payload, and a network tag of all ones, either
  // forced by type 0 or by accident.
  predicate PassesForPing(c: Crypto, keys: Keys, id: uint32, messageType: byte, payload: seq<byte>)
    requires |payload| <= MAX_PAYLOAD
  {
    payload == [] && (messageType == 0 || Tag(c, keys.network, Body(c, keys, id, messageType, payload)) == ONES_4)
  }

  // Type 0 overwrites the network tag, so its messages survive validation only by accident.
  predicate TagSurvives(c: Crypto, keys: Keys, id: uint32, messageType: byte, payload: seq<byte>)
    requires |payload| <= MAX_PAYLOAD
  {
    messageType != 0 || Tag(c, keys.network, Body(c, keys, id, messageType, payload)) == ONES_4
  }

  // The id survives the comparison exactly when swapping its bytes does not change it.
  predicate IdSurvives(id: uint32) {
    Swap32(id) == id
  }

  lemma OnesReverse(t: seq<byte>)
    requires |t| == 4
    ensures Reverse(t) == ONES_4 <==> t == ONES_4
  {
    ReverseTwice(t);
    assert Reverse(ONES_4) == ONES_4;
  }

  // What any message becomes at a peer with the same keys and network id, for every type, payload
  // and id.
  lemma DecodeOfEncode(c: Crypto, keys: Keys, id: uint32, messageType: byte, payload: seq<byte>)
    requires |payload| <= MAX_PAYLOAD
    ensures IsFrame(Encode(c, keys, id, messageType, payload))
    ensures Decode(c, keys, id, Encode(c, keys, id, messageType, payload)) ==
              if PassesForPing(c, keys, id, messageType, payload) then Ping
              else if IdSurvives(id) && TagSurvives(c, keys, id, messageType, payload)
              then Delivered(Application(SENDER, messageType, payload))
              else Rejected
  {
    hide Encode, Body, Decrypted, U32, U32Bytes, Plain, Tag;
    var q := Encode(c, keys, id, messageType, payload);
    var body := Body(c, keys, id, messageType, payload);
    EncodedParts(c, keys, id, messageType, payload);
    ReverseTwice(Tag(c, keys.server, body));
    ReverseTwice(Tag(c, keys.network, body));
    OnesReverse(Tag(c, keys.network, body));
    OnesReverse(ONES_4);
    PlainReads(messageType, payload);
  }

  lemma PlainReads(messageType: byte, payload: seq<byte>)
    ensures Read(Plain(messageType, payload)) == Application(SENDER, messageType, payload)
  {
    var plain := Plain(messageType, payload);
    assert plain[..8] == SENDER && plain[16..] == payload;
  }

  lemma ZeroBytes()
    ensures U32Bytes(0) == [0, 0, 0, 0] && Reverse(U32Bytes(0)) == U32Bytes(0)
    ensures U32(U32Bytes(0)) == 0 && Swap32(0) == 0
  {
    var q := [0, 0, 0, 0];
    assert Number(q) == 0 by {
      assert q[1..] == [0, 0, 0] && q[1..][1..] == [0, 0] && q[1..][1..][1..] == [0];
    }
    LittleEndianInverse(q);
    assert Reverse(q) == q;
    hide LittleEndian, Number, Reverse;
  }

  // On network 0 every typed message that does not pass for a ping arrives unchanged.
  lemma RoundTrip(c: Crypto, keys: Keys, messageType: byte, payload: seq<byte>)
    requires |payload| <= MAX_PAYLOAD && messageType != 0
    requires !PassesForPing(c, keys, 0, messageType, payload)
    ensures IsFrame(Encode(c, keys, 0, messageType, payload))
    ensures Decode(c, keys, 0, Encode(c, keys, 0, messageType, payload))
            == Delivered(Application(SENDER, messageType, payload))
  {
    hide Encode, Body, Decode, Tag, U32, U32Bytes;
    DecodeOfEncode(c, keys, 0, messageType, payload);
    ZeroBytes();
  }

  // Network 1 is one of the networks whose members reject each other's messages.
  lemma NetworkOneIsDeaf(c: Crypto, keys: Keys, messageType: byte, payload: seq<byte>)
    requires 0 < |payload| <= MAX_PAYLOAD
    ensures IsFrame(Encode(c, keys, 1, messageType, payload))
    ensures Decode(c, keys, 1, Encode(c, keys, 1, messageType, payload)) == Rejected
  {
    hide Encode, Decode, U32, U32Bytes;
    DecodeOfEncode(c, keys, 1, messageType, payload);
    SwapOne();
  }

  lemma SwapOne()
    ensures Swap32(1) == 0x100_0000
  {
    var q, r := [1, 0, 0, 0], [0, 0, 0, 1];
    assert Number(q) == 1 by {
      assert q[1..] == [0, 0, 0] && Number([0, 0, 0]) == 0;
    }
    LittleEndianInverse(q);
    assert Reverse(q) == r;
    assert r[1..] == [0, 0, 1] && r[1..][1..] == [0, 1] && r[1..][1..][1..] == [1];
    assert Number([1]) == 1 && Number([0, 1]) == 0x100 && Number([0, 0, 1]) == 0x1_0000;
    hide LittleEndian, Reverse;
  }

  // ---------------------------------------------------------------- Arduino to relay

  lemma SwapZero(id: uint32)
    ensures U32(Reverse(Reverse(U32Bytes(id)))) == id
    ensures id == 0 ==> Reverse(U32Bytes(id)) == U32Bytes(id)
  {
    ReverseTwice(U32Bytes(id));
    U32Inverse(id);
    ZeroBytes();
    hide U32, U32Bytes;
  }

  // The relay accepts a message of an Arduino with the relay's key exactly when its network id is 0.
  lemma VerdictOnEncode(c: Crypto, keys: Keys, id: uint32, messageType: byte, payload: seq<byte>)
    requires |payload| <= MAX_PAYLOAD
    ensures IsFrame(Encode(c, keys, id, messageType, payload))
    ensures ServerVerdict(c, keys.server, Encode(c, keys, id, messageType, payload)) ==
              if id != 0 then Ignored
              else if PassesForPing(c, keys, id, messageType, payload) then KeepAlive
              else Broadcast
  {
    var q := Encode(c, keys, id, messageType, payload);
    var body := Body(c, keys, id, messageType, payload);
    EncodedParts(c, keys, id, messageType, payload);
    SwapZero(id);
    OnesReverse(Tag(c, keys.network, body));
    ReverseTwice(Tag(c, keys.server, body));
    hide Encode, Body, Decrypted;
    if id == 0 {
      assert WithIdSwapped(q) == q;
    }
  }

  // ---------------------------------------------------------------- pings

  lemma PingParts(c: Crypto, serverKey: seq<byte>)
    ensures var q := PingFrame(c, serverKey);
            && IsFrame(q) && LooksLikePing(q) && Signed(q) == PingBody()
            && ServerTag(q) == Reverse(Tag(c, serverKey, PingBody())) && NetworkId(q) == U32Bytes(0)
  {
    var body := PingBody();
    assert body == body[..24] + body[24..];
    Parts(Reverse(Tag(c, serverKey, body)), ONES_4, body[..24], body[24..]);
  }

  // A ping built by the relay is a ping for every Arduino with the same server key, whatever its
  // network id and network key, and for the relay itself.
  lemma ServerPingIsPing(c: Crypto, keys: Keys, id: uint32)
    ensures IsFrame(PingFrame(c, keys.server))
    ensures Decode(c, keys, id, PingFrame(c, keys.server)) == Ping
    ensures ServerVerdict(c, keys.server, PingFrame(c, keys.server)) == KeepAlive
  {
    var q := PingFrame(c, keys.server);
    PingParts(c, keys.server);
    ReverseTwice(Tag(c, keys.server, PingBody()));
    SwapZero(0);
    ZeroBytes();
    hide PingFrame, PingBody, U32, U32Bytes, Tag;
    assert WithIdSwapped(q) == q;
  }

  // A ping sent by an Arduino on network 0 keeps its connection alive and is not broadcast; on any
  // other network the relay ignores it.
  lemma ArduinoPing(c: Crypto, keys: Keys, id: uint32)
    ensures IsFrame(Encode(c, keys, id, 0, []))
    ensures ServerVerdict(c, keys.server, Encode(c, keys, id, 0, [])) == if id == 0 then KeepAlive else Ignored
  {
    VerdictOnEncode(c, keys, id, 0, []);
  }

  // ---------------------------------------------------------------- Arduino to relay to Arduino

  // What a peer on network 0 makes of a message that went through the relay.
  lemma RelayedMessage(c: Crypto, keys: Keys, messageType: byte, payload: seq<byte>)
    requires |payload| <= MAX_PAYLOAD && messageType != 0
    ensures var q := Encode(c, keys, 0, messageType, payload);
            && IsFrame(q)
            && (ServerVerdict(c, keys.server, q) == Broadcast <==> !PassesForPing(c, keys, 0, messageType, payload))
            && (ServerVerdict(c, keys.server, q) == Broadcast ==>
                  Decode(c, keys, 0, q) == Delivered(Application(SENDER, messageType, payload)))
  {
    VerdictOnEncode(c, keys, 0, messageType, payload);
    if !PassesForPing(c, keys, 0, messageType, payload) {
      RoundTrip(c, keys, messageType, payload);
    }
  }
}

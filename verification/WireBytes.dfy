/** The message format byte by byte, at its offsets: what is sent, and what both receivers make of any frame. */
module WireBytes {
  import opened Bytes
  import opened Wire
  import opened WireProofs

  // Bit by bit, x is the exclusive or of y and z.
  predicate Combines(x: byte, y: byte, z: byte) {
    forall i :: 0 <= i < 8 ==> Digit(x, i) == (Digit(y, i) + Digit(z, i)) % 2
  }

  lemma XorCombines(y: byte, z: byte)
    ensures Combines(Xor(y, z), y, z)
  {
    forall i | 0 <= i < 8 ensures Digit(Xor(y, z), i) == (Digit(y, i) + Digit(z, i)) % 2 {
      XorDigits(y, z, i);
    }
  }

  // The value of four bytes, lowest first.
  function Value4(a: int, b: int, c: int, d: int): int {
    a + 0x100 * b + 0x1_0000 * c + 0x100_0000 * d
  }

  lemma NumberOf4(q: seq<byte>)
    requires |q| == 4
    ensures U32(q) == Value4(q[0], q[1], q[2], q[3])
  {
    assert q[1..][1..] == q[2..] && q[2..][1..] == q[3..] && q[3..][1..] == [];
    assert Number(q[3..]) == q[3];
    assert Number(q[2..]) == q[2] + 0x100 * Number(q[3..]);
    assert Number(q[1..]) == q[1] + 0x100 * Number(q[2..]);
  }

  // The four bytes at lo are the first four of the digest, last first.
  predicate HasTag(q: seq<byte>, lo: nat, digest: seq<byte>)
    requires lo + 4 <= |q| && |digest| == 32
  {
    q[lo] == digest[3] && q[lo + 1] == digest[2] && q[lo + 2] == digest[1] && q[lo + 3] == digest[0]
  }

  predicate AllOnes(q: seq<byte>, lo: nat, hi: nat)
    requires lo <= hi <= |q|
  {
    forall i :: lo <= i < hi ==> q[i] == 0xFF
  }

  lemma TagAt(q: seq<byte>, lo: nat, digest: seq<byte>)
    requires lo + 4 <= |q| && |digest| == 32
    ensures HasTag(q, lo, digest) <==> Reverse(q[lo..lo + 4]) == digest[..4]
  {
    var t, r := q[lo..lo + 4], Reverse(q[lo..lo + 4]);
    assert r == [t[3], t[2], t[1], t[0]];
    assert digest[..4] == [digest[0], digest[1], digest[2], digest[3]];
  }

  lemma OnesAt4(q: seq<byte>, lo: nat)
    requires lo + 4 <= |q|
    ensures AllOnes(q, lo, lo + 4) <==> q[lo..lo + 4] == ONES_4
  {
    if q[lo..lo + 4] == ONES_4 {
      assert forall i :: lo <= i < lo + 4 ==> q[i] == q[lo..lo + 4][i - lo];
    }
  }

  lemma OnesAt8(q: seq<byte>, lo: nat)
    requires lo + 8 <= |q|
    ensures AllOnes(q, lo, lo + 8) <==> q[lo..lo + 8] == ONES_8
  {
    if q[lo..lo + 8] == ONES_8 {
      assert forall i :: lo <= i < lo + 8 ==> q[i] == q[lo..lo + 8][i - lo];
    }
  }

  // ---------------------------------------------------------------- what an Arduino sends

  // Byte k of the encrypted part before encryption: "ARDUINO" and a zero, the type, seven bytes that are
  // all ones, the payload.
  function PlainByte(messageType: byte, payload: seq<byte>, k: nat): byte
    requires k < 16 + |payload|
  {
    if k < 8 then [0x41, 0x52, 0x44, 0x55, 0x49, 0x4E, 0x4F, 0x00][k]
    else if k == 8 then messageType
    else if k < 16 then 0xFF
    else payload[k - 16]
  }

  lemma PlainAt(messageType: byte, payload: seq<byte>, k: nat)
    requires k < 16 + |payload|
    ensures Plain(messageType, payload)[k] == PlainByte(messageType, payload, k)
  {
  }

  lemma ClearAt(id: uint32, length: byte)
    ensures var q := Clear(id, length);
            && q[0] == length && Value4(q[4], q[3], q[2], q[1]) == id && AllOnes(q, 5, 24)
  {
    var r := U32Bytes(id);
    NumberOf4(r);
    U32Inverse(id);
    hide U32Bytes, U32;
    assert Clear(id, length)[1..5] == Reverse(r);
    assert forall i :: 0 <= i < 4 ==> Clear(id, length)[1 + i] == Reverse(r)[i];
  }

  lemma BodyAt(c: Crypto, keys: Keys, id: uint32, messageType: byte, payload: seq<byte>, k: nat)
    requires |payload| <= MAX_PAYLOAD && k < 16 + |payload|
    ensures Combines(Body(c, keys, id, messageType, payload)[24 + k], PlainByte(messageType, payload, k),
                     c.keystream(keys.network, c.hmac(keys.network, ONES_8)[..16], k))
  {
    PlainAt(messageType, payload, k);
    XorCombines(Plain(messageType, payload)[k], c.keystream(keys.network, c.hmac(keys.network, ONES_8)[..16], k));
    hide Plain, Clear, Xor;
  }

  // Every byte of an encoded message.
  lemma EncodeBytes(c: Crypto, keys: Keys, id: uint32, messageType: byte, payload: seq<byte>)
    requires |payload| <= MAX_PAYLOAD
    ensures var q := Encode(c, keys, id, messageType, payload);
            && |q| == 48 + |payload|
            && HasTag(q, 0, c.hmac(keys.server, q[8..]))
            && (if messageType == 0 then AllOnes(q, 4, 8) else HasTag(q, 4, c.hmac(keys.network, q[8..])))
            && q[8] == |payload|
            && Value4(q[12], q[11], q[10], q[9]) == id
            && AllOnes(q, 13, 32)
            && forall k :: 0 <= k < 16 + |payload| ==>
                 Combines(q[32 + k], PlainByte(messageType, payload, k),
                          c.keystream(keys.network, c.hmac(keys.network, q[16..24])[..16], k))
  {
    var q, body := Encode(c, keys, id, messageType, payload), Body(c, keys, id, messageType, payload);
    EncodedParts(c, keys, id, messageType, payload);
    TagAt(q, 0, c.hmac(keys.server, body));
    TagAt(q, 4, c.hmac(keys.network, body));
    OnesAt4(q, 4);
    ReverseTwice(Tag(c, keys.server, body));
    ReverseTwice(Tag(c, keys.network, body));
    BodyBytes(c, keys, id, messageType, payload);
    hide Encode, Body, Decrypted, Plain, Reverse, U32Bytes, PlainByte, Combines;
    assert q[8..] == body && q[16..24] == ONES_8;
    assert forall i :: 0 <= i < 5 ==> q[8..][i] == body[i];
    assert forall i :: 13 <= i < 32 ==> q[i] == body[i - 8];
    forall k | 0 <= k < 16 + |payload|
      ensures Combines(q[32 + k], PlainByte(messageType, payload, k), c.keystream(keys.network, c.hmac(keys.network, q[16..24])[..16], k))
    {
      assert q[32 + k] == q[8..][24 + k] == body[24 + k];
    }
  }

  lemma BodyBytes(c: Crypto, keys: Keys, id: uint32, messageType: byte, payload: seq<byte>)
    requires |payload| <= MAX_PAYLOAD
    ensures var body := Body(c, keys, id, messageType, payload);
            && body[0] == |payload| && Value4(body[4], body[3], body[2], body[1]) == id
            && AllOnes(body, 5, 24)
            && forall k :: 0 <= k < 16 + |payload| ==>
                 Combines(body[24 + k], PlainByte(messageType, payload, k),
                          c.keystream(keys.network, c.hmac(keys.network, ONES_8)[..16], k))
  {
    var body := Body(c, keys, id, messageType, payload);
    ClearAt(id, |payload|);
    assert forall i :: 0 <= i < 24 ==> body[i] == Clear(id, |payload|)[i];
    hide Combines, PlainByte, Clear, Body;
    forall k | 0 <= k < 16 + |payload|
      ensures Combines(body[24 + k], PlainByte(messageType, payload, k), c.keystream(keys.network, c.hmac(keys.network, ONES_8)[..16], k))
    {
      BodyAt(c, keys, id, messageType, payload, k);
    }
  }

  // ---------------------------------------------------------------- what an Arduino accepts

  predicate IsPingOf(c: Crypto, serverKey: seq<byte>, q: seq<byte>)
    requires |q| >= 48
  {
    q[8] == 0 && AllOnes(q, 4, 8) && AllOnes(q, 16, 24) && HasTag(q, 0, c.hmac(serverKey, q[8..]))
  }

  predicate IsMessageOf(c: Crypto, networkKey: seq<byte>, id: uint32, q: seq<byte>)
    requires |q| >= 48
  {
    Value4(q[9], q[10], q[11], q[12]) == id && HasTag(q, 4, c.hmac(networkKey, q[8..]))
  }

  // The bytes of a message that the application sees.
  predicate Opens(c: Crypto, networkKey: seq<byte>, q: seq<byte>, m: Application)
    requires |q| >= 48
  {
    && |m.sender| == 8 && |m.payload| == |q| - 48
    && (forall k :: 0 <= k < 8 ==> Combines(m.sender[k], q[32 + k], Key(c, networkKey, q, k)))
    && Combines(m.messageType, q[40], Key(c, networkKey, q, 8))
    && (forall k :: 0 <= k < |m.payload| ==> Combines(m.payload[k], q[48 + k], Key(c, networkKey, q, 16 + k)))
  }

  function Key(c: Crypto, networkKey: seq<byte>, q: seq<byte>, k: nat): byte
    requires |q| >= 48
  {
    c.keystream(networkKey, c.hmac(networkKey, q[16..24])[..16], k)
  }

  // What becomes of any frame at all.
  lemma DecodeBytes(c: Crypto, keys: Keys, id: uint32, q: seq<byte>)
    requires IsFrame(q)
    ensures Decode(c, keys, id, q).Ping? <==> IsPingOf(c, keys.server, q)
    ensures Decode(c, keys, id, q).Delivered? <==> !IsPingOf(c, keys.server, q) && IsMessageOf(c, keys.network, id, q)
    ensures Decode(c, keys, id, q).Delivered? ==> Opens(c, keys.network, q, Decode(c, keys, id, q).message)
  {
    TagAt(q, 0, c.hmac(keys.server, q[8..]));
    TagAt(q, 4, c.hmac(keys.network, q[8..]));
    OnesAt4(q, 4);
    OnesAt8(q, 16);
    NumberOf4(NetworkId(q));
    OpenedBytes(c, keys, q);
    hide U32, Reverse, Opens, Decrypted, Read;
  }

  lemma OpenedBytes(c: Crypto, keys: Keys, q: seq<byte>)
    requires IsFrame(q)
    ensures Opens(c, keys.network, q, Read(Decrypted(c, keys, q)))
  {
    var plain := Decrypted(c, keys, q);
    forall k | 0 <= k < |plain| ensures Combines(plain[k], q[32 + k], Key(c, keys.network, q, k)) {
      XorCombines(q[32 + k], Key(c, keys.network, q, k));
    }
    hide Combines, Decrypted;
    var m := Read(plain);
    assert forall k :: 0 <= k < 8 ==> m.sender[k] == plain[k];
    assert forall k :: 0 <= k < |m.payload| ==> m.payload[k] == plain[16 + k];
  }

  // ---------------------------------------------------------------- what the relay accepts and sends

  predicate IsForRelay(c: Crypto, serverKey: seq<byte>, q: seq<byte>)
    requires |q| >= 48
  {
    q[9] == q[10] == q[11] == q[12] == 0 && HasTag(q, 0, c.hmac(serverKey, q[8..]))
  }

  lemma VerdictBytes(c: Crypto, serverKey: seq<byte>, q: seq<byte>)
    requires IsFrame(q)
    ensures ServerVerdict(c, serverKey, q).Ignored? <==> !IsForRelay(c, serverKey, q)
    ensures ServerVerdict(c, serverKey, q).KeepAlive? <==>
              IsForRelay(c, serverKey, q) && q[8] == 0 && AllOnes(q, 4, 8) && AllOnes(q, 16, 24)
  {
    TagAt(q, 0, c.hmac(serverKey, q[8..]));
    OnesAt4(q, 4);
    OnesAt8(q, 16);
    ZeroId(q);
    hide U32, Reverse, WithIdSwapped;
  }

  lemma ZeroId(q: seq<byte>)
    requires |q| >= 48
    ensures U32(Reverse(NetworkId(q))) == 0 <==> q[9] == q[10] == q[11] == q[12] == 0
    ensures U32(Reverse(NetworkId(q))) == 0 ==> WithIdSwapped(q) == q
  {
    var r := Reverse(NetworkId(q));
    NumberOf4(r);
    hide U32;
    assert r[0] == q[12] && r[1] == q[11] && r[2] == q[10] && r[3] == q[9];
    hide Reverse;
    if q[9] == q[10] == q[11] == q[12] == 0 {
      ZeroIdSwapped(q);
    }
  }

  lemma ZeroIdSwapped(q: seq<byte>)
    requires |q| >= 48 && q[9] == q[10] == q[11] == q[12] == 0
    ensures WithIdSwapped(q) == q
  {
    var t := q[9..13];
    assert forall i :: 0 <= i < 4 ==> t[i] == 0;
    assert Reverse(t) == t;
    hide Reverse;
    assert q == q[..9] + t + q[13..];
  }

  // Every byte of the relay's ping: length and network id 0, everything else all ones.
  lemma PingBytes(c: Crypto, serverKey: seq<byte>)
    ensures var q := PingFrame(c, serverKey);
            && |q| == 48 && HasTag(q, 0, c.hmac(serverKey, q[8..])) && AllOnes(q, 4, 8)
            && q[8] == q[9] == q[10] == q[11] == q[12] == 0 && AllOnes(q, 13, 48)
  {
    var q, body := PingFrame(c, serverKey), PingBody();
    PingTag(c, serverKey);
    PingBodyBytes();
    OnesAt4(q, 4);
    hide PingFrame, PingBody, Reverse;
    assert forall i :: 8 <= i < 48 ==> q[i] == q[8..][i - 8];
  }

  lemma PingTag(c: Crypto, serverKey: seq<byte>)
    ensures var q := PingFrame(c, serverKey);
            q[8..] == PingBody() && q[4..8] == ONES_4 && HasTag(q, 0, c.hmac(serverKey, q[8..]))
  {
    var q, body := PingFrame(c, serverKey), PingBody();
    var r := Reverse(Tag(c, serverKey, body));
    hide PingBody, Reverse;
    assert q[8..] == body && q[4..8] == ONES_4 && q[0..4] == r;
    ReverseTwice(Tag(c, serverKey, body));
    TagAt(q, 0, c.hmac(serverKey, body));
  }

  lemma PingBodyBytes()
    ensures var body := PingBody(); body[0] == body[1] == body[2] == body[3] == body[4] == 0 && AllOnes(body, 5, 40)
  {
    ZeroBytes();
    hide U32Bytes;
  }
}

/** arduino/library/NetworkSender.cpp: framing, encryption and signing in one buffer. */
module NetworkSender {
  import opened Bytes
  import opened Wire
  import opened WireProofs
  import opened WireBytes
  import opened Buffers
  import opened NetworkInfo

  const SEND_TRIES := 3

  // ---------------------------------------------------------------- the buffer after each stage

  // What send() fills in at offset 8 and up, before any conversion.
  function Filled(id: uint32, messageType: byte, payload: seq<byte>): (q: seq<byte>)
    requires |payload| <= MAX_PAYLOAD
    ensures |q| == 40 + |payload|
  {
    [|payload| as byte] + U32Bytes(id) + ONES_4[..3] + ONES_8 + ONES_8 + Plain(messageType, payload)
  }

  function Hton(q: seq<byte>): (r: seq<byte>)
    requires |q| >= HEADER
    ensures |r| == |q|
  {
    SwapAt(SwapAt(q, 9, 4), 24, 8)
  }

  function Encrypted(c: Crypto, keys: Keys, q: seq<byte>): (r: seq<byte>)
    requires |q| >= HEADER && |q| >= HEADER + PayloadLength(q)
    ensures |r| == |q|
  {
    CtrAt(c, keys.network, Iv(c, keys.network, Vector(q)), q, 32, PayloadLength(q) + 16)
  }

  lemma SliceOfSlice(q: seq<byte>, a: nat, b: nat, lo: nat, hi: nat)
    requires a <= b <= |q| && lo <= hi <= b - a
    ensures q[a..b][lo..hi] == q[a + lo..a + hi]
  {
    assert forall i :: 0 <= i < hi - lo ==> q[a..b][lo..hi][i] == q[a + lo..a + hi][i];
  }

  lemma FilledParts(id: uint32, messageType: byte, payload: seq<byte>)
    requires |payload| <= MAX_PAYLOAD
    ensures var body := Filled(id, messageType, payload);
            && body[0..1] == [|payload| as byte] && body[1..5] == U32Bytes(id) && body[5..16] == ONES_4[..3] + ONES_8
            && body[16..24] == ONES_8 && body[24..] == Plain(messageType, payload)
  {
  }

  lemma FieldsInPlace(head: seq<byte>, clear: seq<byte>, fixed: seq<byte>, text: seq<byte>, q: seq<byte>, r: seq<byte>)
    requires |head| == 8 && |clear| == 24 && |fixed| == 16 && |q| >= HEADER + |text|
    requires q[..HEADER] == head + clear + fixed && r == q[..HEADER] + text + q[HEADER + |text|..]
    ensures r[8..HEADER + |text|] == clear + (fixed + text)
  {
    var all := head + (clear + (fixed + text));
    assert r[..HEADER + |text|] == all;
    assert all[8..] == clear + (fixed + text);
  }

  lemma PlainInParts(messageType: byte, payload: seq<byte>)
    ensures Plain(messageType, payload) == (SENDER + [messageType] + ONES_8[..7]) + payload
  {
  }

  // Swapping two fields leaves everything else in place.
  lemma HtonParts(q: seq<byte>, n: nat)
    requires |q| >= n >= HEADER
    ensures Hton(q)[8..n] == q[8..9] + Reverse(q[9..13]) + q[13..24] + Reverse(q[24..32]) + q[32..n]
  {
    var r := SwapAt(q, 9, 4);
    SwapSlice(q, 9, 4, 8, 9);
    SwapReverses(q, 9, 4);
    SwapSlice(q, 9, 4, 13, 24);
    SwapSlice(q, 9, 4, 24, 32);
    SwapSlice(q, 9, 4, 32, n);
    SwapSlice(r, 24, 8, 8, 9);
    SwapSlice(r, 24, 8, 9, 13);
    SwapSlice(r, 24, 8, 13, 24);
    SwapReverses(r, 24, 8);
    SwapSlice(r, 24, 8, 32, n);
    hide SwapAt, Reverse;
    InFields(Hton(q), n);
  }

  lemma InFields(q: seq<byte>, n: nat)
    requires |q| >= n >= HEADER
    ensures q[8..n] == q[8..9] + q[9..13] + q[13..24] + q[24..32] + q[32..n]
  {
  }

  // The first conversion and the encryption turn the filled buffer into the signed part.
  lemma HtonOfFilled(q: seq<byte>, id: uint32, messageType: byte, payload: seq<byte>)
    requires |payload| <= MAX_PAYLOAD && |q| >= HEADER + |payload|
    requires q[8..HEADER + |payload|] == Filled(id, messageType, payload)
    ensures Hton(q)[8..HEADER + |payload|] == Clear(id, |payload|) + Plain(messageType, payload)
  {
    var n := HEADER + |payload|;
    FilledParts(id, messageType, payload);
    HtonParts(q, n);
    SliceOfSlice(q, 8, n, 0, 1);
    SliceOfSlice(q, 8, n, 1, 5);
    SliceOfSlice(q, 8, n, 5, 16);
    SliceOfSlice(q, 8, n, 16, 24);
    SliceOfSlice(q, 8, n, 24, n - 8);
    assert Reverse(ONES_8) == ONES_8;
    hide Filled, Hton, Plain, U32Bytes, Reverse;
  }

  // Encryption bit by bit.
  lemma EncryptedBytes(c: Crypto, keys: Keys, q: seq<byte>)
    requires |q| >= HEADER && |q| >= HEADER + PayloadLength(q)
    ensures forall k :: 0 <= k < 16 + PayloadLength(q) as nat ==>
              Combines(Encrypted(c, keys, q)[32 + k], q[32 + k], Key(c, keys.network, q, k))
  {
    forall k | 0 <= k < 16 + PayloadLength(q) as nat
      ensures Combines(Encrypted(c, keys, q)[32 + k], q[32 + k], Key(c, keys.network, q, k))
    {
      XorCombines(q[32 + k], Key(c, keys.network, q, k));
      CtrByte(c, keys, q, k);
    }
  }

  lemma CtrByte(c: Crypto, keys: Keys, q: seq<byte>, k: nat)
    requires |q| >= HEADER && |q| >= HEADER + PayloadLength(q) && k < 16 + PayloadLength(q) as nat
    ensures Encrypted(c, keys, q)[32 + k] == Xor(q[32 + k], Key(c, keys.network, q, k))
  {
    hide Xor;
    var n := PayloadLength(q) + 16;
    assert q[32..32 + n][k] == q[32 + k];
  }

  lemma EncryptedParts(c: Crypto, keys: Keys, q: seq<byte>, n: nat)
    requires |q| >= HEADER && |q| >= n == HEADER + PayloadLength(q)
    ensures Encrypted(c, keys, q)[8..n]
            == q[8..32] + Ctr(c, keys.network, Iv(c, keys.network, Vector(q)), q[32..n])
    ensures PayloadLength(Encrypted(c, keys, q)) == PayloadLength(q)
  {
  }

  lemma EncryptedBody(c: Crypto, keys: Keys, q: seq<byte>, id: uint32, messageType: byte, payload: seq<byte>)
    requires |payload| <= MAX_PAYLOAD && |q| >= HEADER + |payload|
    requires q[8..HEADER + |payload|] == Clear(id, |payload|) + Plain(messageType, payload)
    ensures PayloadLength(q) == |payload|
    ensures Encrypted(c, keys, q)[8..HEADER + |payload|] == Body(c, keys, id, messageType, payload)
    ensures PayloadLength(Encrypted(c, keys, q)) == |payload|
  {
    var n := HEADER + |payload|;
    ClearParts(id, |payload|);
    SliceOfSlice(q, 8, n, 0, 1);
    SliceOfSlice(q, 8, n, 8, 16);
    SliceOfSlice(q, 8, n, 0, 24);
    SliceOfSlice(q, 8, n, 24, n - 8);
    hide Clear, Plain, Encrypted;
    assert q[8..9] == [|payload| as byte];
    assert q[16..24] == (Clear(id, |payload|) + Plain(messageType, payload))[8..16] == ONES_8;
    EncryptedParts(c, keys, q, n);
  }

  // ---------------------------------------------------------------- bounded retries

  // How many of the first n offers the client takes.
  function Taken(taken: seq<bool>, n: nat): nat {
    if n == 0 then 0 else Taken(taken, n - 1) + if n - 1 < |taken| && taken[n - 1] then 1 else 0
  }

  // A message of this length is taken whole within the allowed number of offers: of the first three
  // times as many, at most twice as many are refused.
  predicate GetsThrough(taken: seq<bool>, length: nat) {
    Taken(taken, 3 * length) >= length
  }

  lemma {:induction false} TakenGrows(taken: seq<bool>, m: nat, n: nat)
    requires m <= n
    ensures Taken(taken, m) <= Taken(taken, n) <= Taken(taken, m) + (n - m)
  {
    if m < n {
      TakenGrows(taken, m, n - 1);
    }
  }

  // ---------------------------------------------------------------- NetworkSender

  class Sender {
    const info: Info

    constructor (info: Info)
      ensures this.info == info
    {
      this.info := info;
    }

    method HtonHandling(buffer: array<byte>)
      requires buffer.Length >= HEADER
      modifies buffer
      ensures buffer[..] == Hton(old(buffer[..]))
    {
      SwapBytes(buffer, 9, 4);
      SwapBytes(buffer, 24, 8);
    }

    method EncryptMessage(buffer: array<byte>)
      requires buffer.Length >= HEADER && buffer.Length >= HEADER + buffer[8]
      modifies buffer
      ensures buffer[..] == Encrypted(info.crypto, info.keys, old(buffer[..]))
      ensures forall k :: 0 <= k < 16 + old(buffer[8]) as nat ==>
                Combines(buffer[32 + k], old(buffer[..])[32 + k], Key(info.crypto, info.keys.network, old(buffer[..]), k))
    {
      EncryptedBytes(info.crypto, info.keys, buffer[..]);
      var iv := Iv(info.crypto, info.keys.network, buffer[16..24]);
      assert buffer[16..24] == buffer[..][16..24];
      var n := 16 + buffer[8] as nat;
      Cipher(buffer, info.crypto, info.keys.network, iv, 32, n);
    }

    // A signature is written as the HMAC yields it and then swapped in place.
    method WriteTag(buffer: array<byte>, lo: nat, tag: seq<byte>)
      requires |tag| == 4 && lo + 4 <= buffer.Length
      modifies buffer
      ensures buffer[..] == old(buffer[..lo]) + Reverse(tag) + old(buffer[lo + 4..])
    {
      ghost var q := buffer[..];
      Store(buffer, lo, tag);
      Patched(q, lo, tag);
      SwapBytes(buffer, lo, 4);
      hide Reverse;
      assert buffer[..] == q[..lo] + Reverse(tag) + q[lo + 4..];
    }

    method SignMessage(buffer: array<byte>)
      requires buffer.Length >= HEADER && buffer.Length >= HEADER + buffer[8]
      modifies buffer
      ensures buffer[8..] == old(buffer[8..])
      ensures buffer[..4] == Reverse(Tag(info.crypto, info.keys.server, old(buffer[8..HEADER + buffer[8]])))
      ensures buffer[4..8] == Reverse(Tag(info.crypto, info.keys.network, old(buffer[8..HEADER + buffer[8]])))
    {
      hide Reverse, Tag;
      ghost var q, n := buffer[..], HEADER + buffer[8];
      var serverTag := Tag(info.crypto, info.keys.server, buffer[8..HEADER + buffer[8]]);
      WriteTag(buffer, 0, serverTag);
      ghost var q1 := buffer[..];
      assert q1[4..] == q[4..] && q1[..4] == Reverse(serverTag);
      assert q1[8] == q[8] && buffer[8..n] == q1[8..n] == q1[4..][4..n - 4] == q[8..n];
      var networkTag := Tag(info.crypto, info.keys.network, buffer[8..HEADER + buffer[8]]);
      WriteTag(buffer, 4, networkTag);
      ghost var q2 := buffer[..];
      Patched(q1, 4, Reverse(networkTag));
      assert q2[..4] == q1[..4] && q2[8..] == q1[8..] == q1[4..][4..] == q[8..];
    }

    // Every byte is offered until it is taken, at most SEND_TRIES times the length in all.
    method EthernetSendMessage(buffer: array<byte>, connected: bool, taken: seq<bool>) returns (ok: bool)
      requires buffer.Length >= HEADER && buffer.Length >= HEADER + buffer[8]
      requires |taken| >= SEND_TRIES * MAX_MESSAGE
      modifies info.client`sent
      ensures exists k :: 0 <= k <= HEADER + buffer[8] && info.client.sent == old(info.client.sent) + buffer[..k]
                          && (ok <==> k == HEADER + buffer[8])
      ensures ok <==> connected && GetsThrough(taken, HEADER + buffer[8])
    {
      var length: nat := HEADER + buffer[8];
      if !connected {
        assert info.client.sent == old(info.client.sent) + buffer[..0];
        return false;
      }
      var tries, sent := 0, 0;
      while sent < length && tries < SEND_TRIES * length
        invariant 0 <= tries <= SEND_TRIES * length && sent <= length
        invariant sent == Taken(taken, tries)
        invariant info.client.sent == old(info.client.sent) + buffer[..sent]
      {
        var n := info.client.Write(buffer[sent], taken[tries]);
        assert buffer[..sent + 1] == buffer[..sent] + [buffer[sent]];
        sent := sent + n;
        tries := tries + 1;
      }
      TakenGrows(taken, tries, SEND_TRIES * length);
      ok := sent == length;
    }

    // The header and payload before any conversion, in a new buffer.
    method Fill(messageType: byte, payload: array<byte>, length: byte) returns (buffer: array<byte>)
      requires length <= payload.Length
      ensures fresh(buffer) && buffer.Length == MAX_MESSAGE
      ensures buffer[..][8..HEADER + length] == Filled(info.networkId, messageType, payload[..length])
    {
      buffer := new byte[MAX_MESSAGE];
      hide U32Bytes, Plain;
      var clear := [length] + U32Bytes(info.networkId) + ONES_4[..3] + ONES_8 + ONES_8;
      var fixed := SENDER + [messageType] + ONES_8[..7];
      ghost var q := buffer[..];
      Store(buffer, 8, clear);
      assert buffer[..] == q[..8] + clear + q[32..];
      Store(buffer, 32, fixed);
      ghost var q1 := buffer[..];
      assert q1 == q[..8] + clear + fixed + q[HEADER..];
      Store(buffer, HEADER, payload[..length]);
      assert buffer[..] == q1[..HEADER] + payload[..length] + q1[HEADER + length..];
      FieldsInPlace(q[..8], clear, fixed, payload[..length], q1, buffer[..]);
      PlainInParts(messageType, payload[..length]);
    }

    // The wire form of a filled buffer.
    method Seal(buffer: array<byte>, messageType: byte, ghost text: seq<byte>)
      requires |text| <= MAX_PAYLOAD && buffer.Length == MAX_MESSAGE
      requires buffer[..][8..HEADER + |text|] == Filled(info.networkId, messageType, text)
      modifies buffer
      ensures buffer[8] == |text|
      ensures buffer[..HEADER + |text|] == Encode(info.crypto, info.keys, info.networkId, messageType, text)
    {
      hide Filled, Clear, Plain, Body, U32Bytes, Hton, Encrypted;
      HtonOfFilled(buffer[..], info.networkId, messageType, text);
      HtonHandling(buffer);
      EncryptedBody(info.crypto, info.keys, buffer[..], info.networkId, messageType, text);
      EncryptMessage(buffer);
      SealTags(buffer, messageType, text);
    }

    method SealTags(buffer: array<byte>, messageType: byte, ghost text: seq<byte>)
      requires |text| <= MAX_PAYLOAD && buffer.Length == MAX_MESSAGE && buffer[8] == |text|
      requires buffer[..][8..HEADER + |text|] == Body(info.crypto, info.keys, info.networkId, messageType, text)
      modifies buffer
      ensures buffer[8] == |text|
      ensures buffer[..HEADER + |text|] == Encode(info.crypto, info.keys, info.networkId, messageType, text)
    {
      hide Body;
      ghost var n, body := HEADER + |text|, Body(info.crypto, info.keys, info.networkId, messageType, text);
      assert buffer[8..n] == buffer[..][8..n];
      ghost var tail := buffer[8..];
      assert tail[..n - 8] == body && tail[0] == |text|;
      SignMessage(buffer);
      if messageType == 0 {
        Store(buffer, 4, ONES_4);
      }
      assert buffer[8..] == tail;
      assert buffer[8..n] == tail[..n - 8];
      assert buffer[..n] == buffer[..4] + buffer[4..8] + buffer[8..n];
    }

    // send(): the client accepts the whole encoded message, or only part of it and the call fails.
    method Send(messageType: byte, payload: array<byte>, length: byte, connected: bool, taken: seq<bool>) returns (ok: bool)
      requires length <= payload.Length
      requires |taken| >= SEND_TRIES * MAX_MESSAGE
      modifies info.client`sent
      ensures var message := Encode(info.crypto, info.keys, info.networkId, messageType, payload[..length]);
              && old(info.client.sent) <= info.client.sent <= old(info.client.sent) + message
              && (ok <==> info.client.sent == old(info.client.sent) + message)
      ensures ok <==> connected && GetsThrough(taken, HEADER + length)
    {
      var buffer := Fill(messageType, payload, length);
      hide Filled, Encode;
      Seal(buffer, messageType, payload[..length]);
      ok := EthernetSendMessage(buffer, connected, taken);
      ghost var message := buffer[..HEADER + length];
      assert forall k :: 0 <= k <= HEADER + length ==> buffer[..k] == message[..k];
      assert forall k :: 0 <= k < HEADER + length ==> |message[..k]| < |message|;
    }
  }
}

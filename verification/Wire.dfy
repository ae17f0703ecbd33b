/**
 The message format shared by the Arduino library and the relay: layout, encoding, the checks of both
 receivers, and what decoding returns.  HMAC (section 2 of RFC 2104) is a parameter, and AES-CTR
 (section 6.5 of NIST SP 800-38A) is exclusive or with a keystream that is a parameter too.
 */
module Wire {
  import opened Bytes

  const HEADER: nat := 48
  const MAX_PAYLOAD: nat := 255
  const MAX_MESSAGE: nat := 303
  const ONES_4: seq<byte> := [0xFF, 0xFF, 0xFF, 0xFF]
  const ONES_8: seq<byte> := [0xFF, 0xFF, 0xFF, 0xFF, 0xFF, 0xFF, 0xFF, 0xFF]
  // "ARDUINO" with its terminating zero
  const SENDER: seq<byte> := [0x41, 0x52, 0x44, 0x55, 0x49, 0x4E, 0x4F, 0]

  type Digest = d: seq<byte> | |d| == 32 witness seq(32, i => 0)

  datatype Crypto = Crypto(hmac: (seq<byte>, seq<byte>) -> Digest, keystream: (seq<byte>, seq<byte>, nat) -> byte)

  datatype Keys = Keys(server: seq<byte>, network: seq<byte>)

  // ---------------------------------------------------------------- layout

  predicate IsFrame(q: seq<byte>) {
    |q| >= HEADER && |q| == HEADER + q[8]
  }

  function ServerTag(q: seq<byte>): seq<byte> requires |q| >= HEADER { q[0..4] }
  function NetworkTag(q: seq<byte>): seq<byte> requires |q| >= HEADER { q[4..8] }
  function PayloadLength(q: seq<byte>): byte requires |q| >= HEADER { q[8] }
  function NetworkId(q: seq<byte>): seq<byte> requires |q| >= HEADER { q[9..13] }
  function Vector(q: seq<byte>): seq<byte> requires |q| >= HEADER { q[16..24] }
  function Timestamp(q: seq<byte>): seq<byte> requires |q| >= HEADER { q[24..32] }
  function Secret(q: seq<byte>): seq<byte> requires |q| >= HEADER { q[32..] }
  function Signed(q: seq<byte>): seq<byte> requires |q| >= HEADER { q[8..] }

  // ---------------------------------------------------------------- primitives

  // First four bytes of the HMAC.
  function Tag(c: Crypto, key: seq<byte>, q: seq<byte>): (t: seq<byte>)
    ensures |t| == 4
  {
    c.hmac(key, q)[..4]
  }

  function Iv(c: Crypto, key: seq<byte>, vector: seq<byte>): seq<byte> {
    c.hmac(key, vector)[..16]
  }

  // AES-CTR, in both directions.
  function Ctr(c: Crypto, key: seq<byte>, iv: seq<byte>, q: seq<byte>): (r: seq<byte>)
    ensures |r| == |q|
  {
    seq<byte>(|q|, i requires 0 <= i < |q| => Xor(q[i], c.keystream(key, iv, i)))
  }

  lemma CtrTwice(c: Crypto, key: seq<byte>, iv: seq<byte>, q: seq<byte>)
    ensures Ctr(c, key, iv, Ctr(c, key, iv, q)) == q
  {
    forall i | 0 <= i < |q| ensures Ctr(c, key, iv, Ctr(c, key, iv, q))[i] == q[i] {
      XorInvolution(q[i], c.keystream(key, iv, i));
    }
  }

  // ---------------------------------------------------------------- what NetworkSender::send puts on the wire

  // Offsets 8 to 31: length, network id in network order, future use, vector, timestamp.
  function Clear(id: uint32, length: byte): (q: seq<byte>)
    ensures |q| == 24
  {
    [length] + Reverse(U32Bytes(id)) + ONES_4[..3] + ONES_8 + ONES_8
  }

  // Offsets 32 and up before encryption: sender, type, future use, payload.
  function Plain(messageType: byte, payload: seq<byte>): (q: seq<byte>)
    ensures |q| == 16 + |payload|
  {
    SENDER + [messageType] + ONES_8[..7] + payload
  }

  function Body(c: Crypto, keys: Keys, id: uint32, messageType: byte, payload: seq<byte>): (q: seq<byte>)
    requires |payload| <= MAX_PAYLOAD
    ensures |q| == 40 + |payload|
  {
    Clear(id, |payload|) + Ctr(c, keys.network, Iv(c, keys.network, ONES_8), Plain(messageType, payload))
  }

  function Encode(c: Crypto, keys: Keys, id: uint32, messageType: byte, payload: seq<byte>): (q: seq<byte>)
    requires |payload| <= MAX_PAYLOAD
    ensures |q| == HEADER + |payload|
  {
    var body := Body(c, keys, id, messageType, payload);
    Reverse(Tag(c, keys.server, body))
    + (if messageType == 0 then ONES_4 else Reverse(Tag(c, keys.network, body)))
    + body
  }

  // ---------------------------------------------------------------- what NetworkReceiver does with a frame

  datatype Application = Application(sender: seq<byte>, messageType: byte, payload: seq<byte>)

  datatype Outcome = Ping | Rejected | Delivered(message: Application)

  predicate LooksLikePing(q: seq<byte>)
    requires |q| >= HEADER
  {
    PayloadLength(q) == 0 && NetworkTag(q) == ONES_4 && Vector(q) == ONES_8
  }

  predicate IsServerPing(c: Crypto, keys: Keys, q: seq<byte>)
    requires |q| >= HEADER
  {
    LooksLikePing(q) && Reverse(ServerTag(q)) == Tag(c, keys.server, Signed(q))
  }

  // The network id is compared as it stands on the wire, before any byte swap.
  predicate IsValid(c: Crypto, keys: Keys, id: uint32, q: seq<byte>)
    requires |q| >= HEADER
  {
    U32(NetworkId(q)) == id && Reverse(NetworkTag(q)) == Tag(c, keys.network, Signed(q))
  }

  function Decrypted(c: Crypto, keys: Keys, q: seq<byte>): (r: seq<byte>)
    requires |q| >= HEADER
    ensures |r| == |q| - 32
  {
    Ctr(c, keys.network, Iv(c, keys.network, Vector(q)), Secret(q))
  }

  function Read(plain: seq<byte>): Application
    requires |plain| >= 16
  {
    Application(plain[..8], plain[8], plain[16..])
  }

  function Decode(c: Crypto, keys: Keys, id: uint32, q: seq<byte>): Outcome
    requires IsFrame(q)
  {
    if IsServerPing(c, keys, q) then Ping
    else if IsValid(c, keys, id, q) then Delivered(Read(Decrypted(c, keys, q)))
    else Rejected
  }

  // ---------------------------------------------------------------- what the relay does with a frame

  datatype Verdict = Ignored | KeepAlive | Broadcast

  // The network id is swapped in place before the HMAC over offset 8 and up is computed.
  function WithIdSwapped(q: seq<byte>): (r: seq<byte>)
    requires |q| >= HEADER
    ensures |r| == |q|
  {
    q[..9] + Reverse(NetworkId(q)) + q[13..]
  }

  function ServerVerdict(c: Crypto, serverKey: seq<byte>, q: seq<byte>): Verdict
    requires IsFrame(q)
  {
    if U32(Reverse(NetworkId(q))) != 0 then Ignored
    else if Tag(c, serverKey, Signed(WithIdSwapped(q))) != Reverse(ServerTag(q)) then Ignored
    else if LooksLikePing(q) then KeepAlive
    else Broadcast
  }

  // create_ping_message
  function PingBody(): (q: seq<byte>)
    ensures |q| == 40
  {
    [0] + U32Bytes(0) + ONES_4[..3] + ONES_8 + ONES_8 + ONES_8 + [0xFF] + ONES_8[..7]
  }

  function PingFrame(c: Crypto, serverKey: seq<byte>): (q: seq<byte>)
    ensures |q| == HEADER
  {
    Reverse(Tag(c, serverKey, PingBody())) + ONES_4 + PingBody()
  }
}

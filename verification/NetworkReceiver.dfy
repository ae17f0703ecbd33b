/** arduino/library/NetworkReceiver.cpp: the resumable frame parser and the decoder. */
module NetworkReceiver {
  import opened Bytes
  import opened Wire
  import opened WireBytes
  import opened Framing
  import opened Buffers
  import opened NetworkInfo

  // The messages read on a sequence of connections, each parsed on its own.
  function AllReceived(c: Crypto, keys: Keys, id: uint32, streams: seq<seq<byte>>): seq<Application> {
    if streams == [] then []
    else AllReceived(c, keys, id, streams[..|streams| - 1]) + Received(c, keys, id, streams[|streams| - 1])
  }

  lemma AllReceivedSnoc(c: Crypto, keys: Keys, id: uint32, streams: seq<seq<byte>>, stream: seq<byte>)
    ensures AllReceived(c, keys, id, streams + [stream])
            == AllReceived(c, keys, id, streams) + Received(c, keys, id, stream)
  {
    assert (streams + [stream])[..|streams|] == streams;
  }

  // All messages read so far on any connection.
  ghost function Everything(info: Info): seq<Application>
    reads info.client
  {
    AllReceived(info.crypto, info.keys, info.networkId, info.client.earlier)
    + Received(info.crypto, info.keys, info.networkId, info.client.consumed)
  }

  // What the application reads from a buffer holding a decoded message.
  function Held(q: seq<byte>): Application
    requires |q| >= HEADER && |q| >= HEADER + q[8]
  {
    Application(q[32..40], q[40], q[HEADER..HEADER + q[8]])
  }

  // The buffer after the byte swaps and the decryption of an accepted message.
  function Opened(c: Crypto, keys: Keys, q: seq<byte>): (r: seq<byte>)
    requires |q| >= HEADER && |q| >= HEADER + q[8]
    ensures |r| == |q|
  {
    CtrAt(c, keys.network, Iv(c, keys.network, Vector(q)), Swapped(q), 32, q[8] as nat + 16)
  }

  // The four swapped fields are disjoint from the length and from everything decrypted.
  function Swapped(q: seq<byte>): (r: seq<byte>)
    requires |q| >= HEADER
    ensures |r| == |q|
  {
    SwapAt(SwapAt(SwapAt(SwapAt(q, 4, 4), 0, 4), 9, 4), 24, 8)
  }

  lemma SwappedKeeps(q: seq<byte>)
    requires |q| >= HEADER
    ensures Swapped(q)[8] == q[8] && Swapped(q)[16..24] == q[16..24] && Swapped(q)[32..] == q[32..]
  {
    var r1 := SwapAt(q, 4, 4);
    var r2 := SwapAt(r1, 0, 4);
    var r3 := SwapAt(r2, 9, 4);
    SwapKeeps(q, 4, 4);
    SwapKeeps(r1, 0, 4);
    SwapKeeps(r2, 9, 4);
    SwapKeeps(r3, 24, 8);
    hide SwapAt;
  }

  lemma OpenedHolds(c: Crypto, keys: Keys, q: seq<byte>)
    requires |q| >= HEADER && |q| >= HEADER + q[8]
    ensures var f := q[..HEADER + q[8]];
            IsFrame(f) && Opened(c, keys, q)[8] == q[8] && Held(Opened(c, keys, q)) == Read(Decrypted(c, keys, f))
  {
    var n := HEADER + q[8];
    var f, o, r := q[..n], Opened(c, keys, q), Swapped(q);
    SwappedKeeps(q);
    hide Swapped, Ctr;
    assert r[32..n] == r[32..][..n - 32];
    assert f[32..] == q[32..n] == q[32..][..n - 32];
    assert Vector(f) == Vector(q);
    var secret := Ctr(c, keys.network, Iv(c, keys.network, Vector(q)), r[32..n]);
    assert o == r[..32] + secret + r[n..];
    assert o[32..n] == secret == Decrypted(c, keys, f);
    var plain := o[32..n];
    assert plain[..8] == o[32..40] && plain[16..] == o[HEADER..n];
  }

  // Decryption bit by bit.
  lemma DecryptedBytes(c: Crypto, keys: Keys, q: seq<byte>)
    requires |q| >= HEADER && |q| >= HEADER + q[8]
    ensures var r := CtrAt(c, keys.network, Iv(c, keys.network, q[16..24]), q, 32, q[8] as nat + 16);
            forall k :: 0 <= k < 16 + q[8] as nat ==> Combines(r[32 + k], q[32 + k], Key(c, keys.network, q, k))
  {
    var n := q[8] as nat + 16;
    var r := CtrAt(c, keys.network, Iv(c, keys.network, q[16..24]), q, 32, n);
    forall k | 0 <= k < n ensures Combines(r[32 + k], q[32 + k], Key(c, keys.network, q, k)) {
      XorCombines(q[32 + k], Key(c, keys.network, q, k));
      assert q[32..32 + n][k] == q[32 + k];
    }
  }

  lemma EmptyStream(c: Crypto, keys: Keys, id: uint32)
    ensures Rest([]) == [] && Received(c, keys, id, []) == []
  {
  }

  class Receiver {
    const info: Info
    const buffer: array<byte>
    var index: nat
    var isMessageReceived: bool
    var connectionNumber: byte
    // every message that became available, in order
    ghost var log: seq<Application>

    constructor (info: Info)
      requires info.client.consumed == [] && info.client.earlier == []
      ensures Valid() && fresh(buffer) && this.info == info && log == [] && Synchronised()
    {
      this.info := info;
      buffer := new byte[MAX_MESSAGE];
      index, isMessageReceived, connectionNumber, log := 0, false, info.connectionNumber, [];
    }

    // The bytes of a frame still being read.
    function Partial(): seq<byte>
      requires buffer.Length == MAX_MESSAGE && index <= MAX_MESSAGE
      reads this, buffer
    {
      if isMessageReceived then [] else buffer[..index]
    }

    ghost predicate Valid()
      reads this, buffer, info, info.client
    {
      && buffer.Length == MAX_MESSAGE && index <= MAX_MESSAGE
      && !HasFrame(Partial())
      && (isMessageReceived ==> index >= HEADER && index == HEADER + buffer[8] && log != [] && Held(buffer[..]) == log[|log| - 1])
      && log == Everything(info)
      && (if connectionNumber == info.connectionNumber then Partial() == Rest(info.client.consumed)
          else info.client.consumed == [])
    }

    ghost predicate Synchronised()
      reads this, info
    {
      connectionNumber == info.connectionNumber
    }

    method NtohHandling()
      requires buffer.Length == MAX_MESSAGE
      modifies buffer
      ensures buffer[..] == SwapAt(SwapAt(SwapAt(old(buffer[..]), 0, 4), 9, 4), 24, 8)
    {
      SwapBytes(buffer, 0, 4);
      SwapBytes(buffer, 9, 4);
      SwapBytes(buffer, 24, 8);
    }

    method DecryptMessage()
      requires buffer.Length == MAX_MESSAGE
      modifies buffer
      ensures buffer[..] == CtrAt(info.crypto, info.keys.network,
                                  Iv(info.crypto, info.keys.network, old(buffer[16..24])), old(buffer[..]), 32,
                                  old(buffer[8]) as nat + 16)
      ensures forall k :: 0 <= k < 16 + old(buffer[8]) as nat ==>
                Combines(buffer[32 + k], old(buffer[..])[32 + k], Key(info.crypto, info.keys.network, old(buffer[..]), k))
    {
      DecryptedBytes(info.crypto, info.keys, buffer[..]);
      var iv := Iv(info.crypto, info.keys.network, buffer[16..24]);
      Cipher(buffer, info.crypto, info.keys.network, iv, 32, buffer[8] as nat + 16);
    }

    // The tag is swapped for the comparison and swapped back; an accepted ping refreshes the timer.
    method HandlePingMessage(now: uint32) returns (ping: bool)
      requires buffer.Length == MAX_MESSAGE && index >= HEADER && index == HEADER + buffer[8]
      modifies buffer, info`lastPokeFromServer
      ensures buffer[..] == old(buffer[..])
      ensures ping <==> IsServerPing(info.crypto, info.keys, buffer[..index])
      ensures info.lastPokeFromServer == if ping then now else old(info.lastPokeFromServer)
    {
      ghost var f := buffer[..index];
      assert f[8] == buffer[8] && f[4..8] == buffer[4..8] && f[16..24] == buffer[16..24];
      if buffer[8] != 0 {
        return false;
      }
      if buffer[4..8] != ONES_4 {
        return false;
      }
      if buffer[16..24] != ONES_8 {
        return false;
      }
      SwapBytes(buffer, 0, 4);
      var receivedHash := buffer[..4];
      assert receivedHash == Reverse(f[0..4]);
      SwapBytes(buffer, 0, 4);
      SwapTwice(old(buffer[..]), 0, 4);
      assert buffer[8..index] == f[8..];
      var hash := Tag(info.crypto, info.keys.server, buffer[8..index]);
      if hash != receivedHash {
        return false;
      }
      info.lastPokeFromServer := now;
      return true;
    }

    // The network id is compared unswapped; the network tag stays swapped in the buffer.
    method IsValidMessage() returns (valid: bool)
      requires buffer.Length == MAX_MESSAGE && index >= HEADER && index == HEADER + buffer[8]
      modifies buffer
      ensures valid <==> IsValid(info.crypto, info.keys, info.networkId, old(buffer[..index]))
      ensures valid ==> buffer[..] == SwapAt(old(buffer[..]), 4, 4)
    {
      ghost var f := buffer[..index];
      assert f[9..13] == buffer[9..13];
      if info.networkId != U32(buffer[9..13]) {
        return false;
      }
      SwapBytes(buffer, 4, 4);
      assert buffer[4..8] == Reverse(f[4..8]);
      assert buffer[8..index] == f[8..];
      valid := Tag(info.crypto, info.keys.network, buffer[8..index]) == buffer[4..8];
    }
  
    // A new connection number or a message not taken empties the buffer, as at the start of loop().
    function Resumed(): seq<byte>
      requires buffer.Length == MAX_MESSAGE && index <= MAX_MESSAGE
      reads this, buffer, info
    {
      if connectionNumber != info.connectionNumber then [] else Partial()
    }

    // The while loop of loop(): reads until nothing is available or the frame is complete.
    method ReadBytes() returns (complete: bool, ghost more: seq<byte>)
      requires buffer.Length == MAX_MESSAGE && index < MAX_MESSAGE && !HasFrame(buffer[..index])
      requires info.client.pending != []
      modifies buffer, this`index, info.client`pending, info.client`consumed
      ensures index <= MAX_MESSAGE
      ensures more != [] && more + info.client.pending == old(info.client.pending)
      ensures buffer[..index] == old(buffer[..index]) + more
      ensures info.client.consumed == old(info.client.consumed) + more
      ensures complete ==> IsFrame(buffer[..index])
      ensures !complete ==> !HasFrame(buffer[..index]) && info.client.pending == []
    {
      ghost var start, incoming := buffer[..index], info.client.pending;
      ghost var k := 0;
      var limit := MAX_MESSAGE;
      var available := info.client.Available();
      while available > 0 && index < limit
        invariant available == |info.client.pending|
        invariant 0 <= k <= |incoming| && index == |start| + k && index <= limit <= MAX_MESSAGE
        invariant buffer[..index] == start + incoming[..k]
        invariant info.client.consumed == old(info.client.consumed) + incoming[..k]
        invariant info.client.pending == incoming[k..]
        invariant limit == if k > 0 && index >= HEADER then HEADER + buffer[8] else MAX_MESSAGE
        invariant k == 0 ==> !HasFrame(buffer[..index]) && index < MAX_MESSAGE
        decreases available
      {
        var b := info.client.Read();
        buffer[index] := b;
        index := index + 1;
        k := k + 1;
        assert incoming[..k] == incoming[..k - 1] + [b];
        if index >= HEADER {
          limit := HEADER + buffer[8];
        }
        available := info.client.Available();
      }
      complete, more := index == limit, incoming[..k];
    }
  
    // Decides what a complete frame is, and opens it in place when it is a valid message.
    method HandleFrame(now: uint32)
      requires buffer.Length == MAX_MESSAGE && index <= MAX_MESSAGE && IsFrame(buffer[..index])
      modifies buffer, this`index, this`isMessageReceived, this`log, info`lastPokeFromServer
      ensures index <= MAX_MESSAGE
      ensures var outcome := Decode(info.crypto, info.keys, info.networkId, old(buffer[..index]));
              && isMessageReceived == outcome.Delivered?
              && (isMessageReceived ==> index == old(index) == HEADER + buffer[8] && Held(buffer[..]) == outcome.message)
              && (!isMessageReceived ==> index == 0)
              && log == old(log) + (match outcome case Delivered(m) => [m] case _ => [])
              && info.lastPokeFromServer == if outcome.Ping? then now else old(info.lastPokeFromServer)
    {
      ghost var q := buffer[..];
      assert q[..index] == buffer[..index];
      var ping := HandlePingMessage(now);
      assert buffer[..index] == q[..index];
      if ping {
        isMessageReceived := false;
        index := 0;
      } else {
        var valid := IsValidMessage();
        if valid {
          NtohHandling();
          assert buffer[..] == Swapped(q);
          SwappedKeeps(q);
          assert buffer[16..24] == buffer[..][16..24];
          DecryptMessage();
          OpenedHolds(info.crypto, info.keys, q);
          isMessageReceived := true;
          log := log + [Held(buffer[..])];
        } else {
          isMessageReceived := false;
          index := 0;
        }
      }
    }

    // The outcome of a call that has read the bytes completing or continuing q.
    ghost predicate Handled(q: seq<byte>, now: uint32, logged: seq<Application>, poke: uint32)
      reads this, info, info.client
    {
      if IsFrame(q) then
        var outcome := Decode(info.crypto, info.keys, info.networkId, q);
        && isMessageReceived == outcome.Delivered?
        && log == logged + (match outcome case Delivered(m) => [m] case _ => [])
        && info.lastPokeFromServer == if outcome.Ping? then now else poke
      else
        && !HasFrame(q) && info.client.pending == []
        && !isMessageReceived && log == logged && info.lastPokeFromServer == poke
    }

    method ResetIfReconnected()
      requires Valid()
      modifies this`index, this`isMessageReceived, this`connectionNumber
      ensures Valid() && Synchronised() && Partial() == old(Resumed())
      ensures isMessageReceived ==> old(isMessageReceived && Synchronised())
    {
      if connectionNumber != info.connectionNumber {
        connectionNumber := info.connectionNumber;
        isMessageReceived := false;
        index := 0;
      }
    }

    method ReadAndHandle(now: uint32)
      requires Valid() && Synchronised() && !isMessageReceived && info.client.pending != []
      modifies this`index, this`isMessageReceived, this`log, buffer
      modifies info`lastPokeFromServer, info.client`pending, info.client`consumed
      ensures Valid() && Synchronised()
      ensures old(info.client.consumed) <= info.client.consumed
      ensures info.client.consumed + info.client.pending == old(info.client.consumed) + old(info.client.pending)
      ensures |info.client.pending| < |old(info.client.pending)|
      ensures Handled(old(Partial()) + info.client.consumed[|old(info.client.consumed)|..], now,
                      old(log), old(info.lastPokeFromServer))
    {
      hide Decode, Received, Rest, AllReceived, Held;
      ghost var stream := info.client.consumed;
      var complete, more := ReadBytes();
      assert info.client.consumed[|stream|..] == more;
      if complete {
        FrameCompleted(info.crypto, info.keys, info.networkId, stream, more);
        HandleFrame(now);
      } else {
        FrameContinued(info.crypto, info.keys, info.networkId, stream, more);
      }
    }

    // One call of loop(): what it reads is a non-empty prefix of what is available and ends no later
    // than the frame it continues.
    method Loop(now: uint32)
      requires Valid()
      modifies this`index, this`isMessageReceived, this`connectionNumber, this`log, buffer
      modifies info`lastPokeFromServer, info.client`pending, info.client`consumed
      ensures Valid() && Synchronised()
      ensures old(info.client.consumed) <= info.client.consumed
      ensures info.client.consumed + info.client.pending == old(info.client.consumed) + old(info.client.pending)
      ensures if old(info.client.pending) == [] then
                && log == old(log) && info.lastPokeFromServer == old(info.lastPokeFromServer)
                && (isMessageReceived ==> old(isMessageReceived && Synchronised()))
              else
                && |info.client.pending| < |old(info.client.pending)|
                && Handled(old(Resumed()) + info.client.consumed[|old(info.client.consumed)|..], now,
                           old(log), old(info.lastPokeFromServer))
    {
      hide Decode, Received, Rest, AllReceived, Held;
      ResetIfReconnected();
      var available := info.client.Available();
      if available > 0 {
        if isMessageReceived {
          isMessageReceived := false;
          index := 0;
        }
        ReadAndHandle(now);
      }
    }

    method IsReceived() returns (received: bool)
      ensures received == isMessageReceived
    {
      received := isMessageReceived;
    }

    // The buffer is copied out and the receiver is ready for the next frame.
    method GetReceivedMessage() returns (message: seq<byte>)
      requires Valid()
      modifies this`index, this`isMessageReceived
      ensures message == buffer[..] && index == 0 && !isMessageReceived
      ensures old(isMessageReceived) ==> Valid() && old(Partial()) == Partial()
      ensures old(isMessageReceived) ==> message[8] == old(buffer[8]) && Held(message) == log[|log| - 1]
    {
      message := buffer[..];
      isMessageReceived := false;
      index := 0;
    }
  }
}

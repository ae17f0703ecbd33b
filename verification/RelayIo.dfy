/** server/utility.cpp and the message handling of server/device.cpp. */
module RelayIo {
  import opened Bytes
  import opened Wire
  import opened Framing
  import opened Buffers

  // (int16_t) x, and addition on a uint16_t
  function Int16(x: int): int {
    var y := x % WRAP_16;
    if y < 0x8000 then y else y - WRAP_16
  }

  function Plus16(x: uint16, y: int): uint16 {
    (x + y) % WRAP_16
  }

  // The conversions keep the value modulo 2^16.
  lemma ConversionsExactly(x: int, counter: uint16)
    ensures -0x8000 <= Int16(x) < 0x8000 && (x - Int16(x)) % 0x1_0000 == 0
    ensures (counter + x - Plus16(counter, x)) % 0x1_0000 == 0
  {
  }

  // The buffer holds the first n bytes of the stream at the offset, and the rest of the stream is left.
  ghost predicate Filled(before: seq<byte>, after: seq<byte>, offset: nat, stream: seq<byte>, left: seq<byte>, n: nat)
    requires offset + n <= |before|
    ensures Filled(before, after, offset, stream, left, n) ==> n + |left| == |stream| && |after| == |before|
  {
    n <= |stream| && left == stream[n..] && after == before[..offset] + stream[..n] + before[offset + n..]
  }

  lemma FilledNone(q: seq<byte>, offset: nat, stream: seq<byte>)
    requires offset <= |q|
    ensures Filled(q, q, offset, stream, stream, 0)
  {
    assert q == q[..offset] + stream[..0] + q[offset..];
  }

  // A connected socket: bytes not yet received, and bytes accepted for sending.
  class Socket {
    var incoming: seq<byte>
    var outgoing: seq<byte>

    // recv() with any outcome: an error, or at most `want` bytes, of which there are `offer` at hand.
    method Recv(buffer: array<byte>, offset: nat, want: nat, offer: int) returns (n: int)
      requires offset + want <= buffer.Length
      modifies this`incoming, buffer
      ensures n == if offer < 0 then -1 else Least(offer, Least(want, |old(incoming)|))
      ensures n == -1 ==> incoming == old(incoming) && buffer[..] == old(buffer[..])
      ensures n >= 0 ==> Filled(old(buffer[..]), buffer[..], offset, old(incoming), incoming, n)
    {
      if offer < 0 {
        return -1;
      }
      n := Least(offer, Least(want, |incoming|));
      Store(buffer, offset, incoming[..n]);
      incoming := incoming[n..];
    }

    // send() with any outcome: an error, or any number of bytes up to the length.
    method Send(q: seq<byte>, accepts: int) returns (n: int)
      modifies this`outgoing
      ensures n == if accepts < 0 then -1 else Least(accepts, |q|)
      ensures outgoing == old(outgoing) + if n == -1 then [] else q[..n]
    {
      n := if accepts < 0 then -1 else Least(accepts, |q|);
      outgoing := outgoing + if n == -1 then [] else q[..n];
    }
  }

  // What recv() can yield in one round, and whether the clock has run out before it.
  datatype RecvRound = RecvRound(expired: bool, offer: int)

  predicate Goes(rounds: seq<RecvRound>, length: nat, i: nat) {
    i < |rounds| && !rounds[i].expired && rounds[i].offer >= if length == 0 then 0 else 1
  }

  // No error, no timeout, and no empty read unless nothing is wanted.
  predicate Works(rounds: seq<RecvRound>, length: nat) {
    forall i :: 0 <= i < |rounds| ==> Goes(rounds, length, i)
  }

  lemma WorksRound(rounds: seq<RecvRound>, length: nat, i: nat)
    requires Works(rounds, length) && i < |rounds|
    ensures Goes(rounds, length, i)
  {
  }

  // Adding the result of recv() to the uint16_t counter: exact for a count, and after an error the
  // counter can only meet a requested length that reads as -1 itself.
  lemma CounterAdds(counter: uint16, got: int, length: uint16)
    requires -1 <= got && counter <= length && counter + got <= length
    ensures got >= 0 ==> Plus16(counter, Int16(got)) == counter + got
    ensures got == -1 && Plus16(counter, Int16(got)) == length ==> Int16(length) == -1
    ensures 0 < got < 0x8000 ==> Int16(got) > 0
    ensures got <= 0 ==> Int16(got) <= 0
    ensures got == -1 && length < 0x8000 ==> Plus16(counter, Int16(got)) != length
  {
  }

  lemma FilledMore(q0: seq<byte>, q1: seq<byte>, q2: seq<byte>, offset: nat, s0: seq<byte>, s1: seq<byte>, s2: seq<byte>, n: nat, m: nat)
    requires offset + n + m <= |q0| == |q1| && Filled(q0, q1, offset, s0, s1, n) && Filled(q1, q2, offset + n, s1, s2, m)
    ensures Filled(q0, q2, offset, s0, s2, n + m)
  {
    assert s0[..n + m] == s0[..n] + s1[..m];
    assert q1[..offset + n] == q0[..offset] + s0[..n];
    assert q1[offset + n + m..] == q0[offset + n + m..];
  }

  // How many bytes one recv() yields when `want` are asked for and `there` are on the way.
  function Gets(offer: int, want: nat, there: nat): nat {
    if offer < 0 then 0 else Least(offer, Least(want, there))
  }

  // From round i on, with `have` of `length` bytes read: the rest comes before an error, an empty read or
  // the deadline.
  predicate Completes(rounds: seq<RecvRound>, i: nat, have: nat, length: nat, there: nat)
    requires have <= length && have <= there
    decreases |rounds| - i
  {
    i < |rounds| && !rounds[i].expired && rounds[i].offer >= 0
    && var n := have + Gets(rounds[i].offer, length - have, there - have);
       n == length || (n > have && Completes(rounds, i + 1, n, length, there))
  }

  // The body of the loop in receive_message: one recv() and the update of the counter.
  method ReceiveOnce(socket: Socket, buffer: array<byte>, offset: nat, length: uint16, counter: uint16, offer: int,
                     ghost whole: seq<byte>, ghost stream: seq<byte>)
    returns (counter': uint16, last: int, ghost n: nat)
    requires offset + length <= buffer.Length == |whole| && (counter < length || counter == length == 0)
    requires Filled(whole, buffer[..], offset, stream, socket.incoming, counter)
    modifies socket`incoming, buffer
    ensures counter <= n <= length
    ensures Filled(whole, buffer[..], offset, stream, socket.incoming, n)
    ensures last > 0 ==> counter' == n > counter
    ensures counter' == length && Int16(length) != -1 ==> n == length
    ensures 0 <= offer && |stream| >= length && length <= 0x8000 && (offer > 0 || length == 0) ==>
              last > 0 || counter' == length
    ensures n == counter + Gets(offer, length - counter, |stream| - counter)
    ensures length < 0x8000 ==> (last > 0 <==> n > counter) && (counter' == length <==> n == length && offer >= 0)
  {
    hide Plus16, Int16, Filled;
    ghost var mid, unread := buffer[..], socket.incoming;
    var got := socket.Recv(buffer, offset + counter, length - counter, offer);
    CounterAdds(counter, got, length);
    n := counter + if got >= 0 then got else 0;
    if got < 0 {
      FilledNone(buffer[..], offset + counter, socket.incoming);
    }
    FilledMore(whole, mid, buffer[..], offset, stream, unread, socket.incoming, counter, n - counter);
    last := Int16(got);
    counter' := Plus16(counter, last);
  }

  // receive_message: for every schedule of short reads, errors and timeouts the result is the length,
  // as an int16_t, only if the next bytes of the stream fill the buffer; otherwise it is -1.
  method ReceiveMessage(socket: Socket, buffer: array<byte>, offset: nat, length: uint16, rounds: seq<RecvRound>)
    returns (r: int, ghost n: nat)
    requires offset + length <= buffer.Length && |rounds| > length
    modifies socket`incoming, buffer
    ensures r == -1 || r == Int16(length)
    ensures length < 0x8000 ==> r == -1 || r == length
    ensures n <= |old(socket.incoming)| && n <= length
    ensures Filled(old(buffer[..]), buffer[..], offset, old(socket.incoming), socket.incoming, n)
    ensures r != -1 ==> n == length
    ensures Works(rounds, length) && |old(socket.incoming)| >= length && length <= 0x8000 ==> r == Int16(length) && n == length
    ensures length < 0x8000 ==> (r == length <==> Completes(rounds, 0, 0, length, |old(socket.incoming)|))
  {
    ghost var stream, whole := socket.incoming, buffer[..];
    FilledNone(whole, offset, stream);
    hide Filled, Int16, Works;
    ghost var works := Works(rounds, length) && |stream| >= length && length <= 0x8000;
    var counter: uint16 := 0;
    var last, i := 1, 0;
    n := 0;
    if works {
      WorksRound(rounds, length, 0);
    }
    while last > 0 && !rounds[i].expired
      invariant n <= length && n <= |stream|
      invariant Filled(whole, buffer[..], offset, stream, socket.incoming, n)
      invariant last > 0 ==> i <= n && counter == n && (n < length || length == 0)
      invariant works ==> last > 0 && Goes(rounds, length, i)
      invariant n <= |stream|
      invariant length < 0x8000 ==>
                  Completes(rounds, 0, 0, length, |stream|) == (last > 0 && Completes(rounds, i, n, length, |stream|))
      decreases length - n + if last > 0 then 1 else 0
    {
      counter, last, n := ReceiveOnce(socket, buffer, offset, length, counter, rounds[i].offer, whole, stream);
      i := i + 1;
      if counter == length {
        return Int16(length), n;
      }
      if works {
        WorksRound(rounds, length, i);
      }
    }
    r := -1;
  }

  // What handle_device_receiver does in one round of its loop: the header, then as many bytes as the
  // header announces.  On success the buffer holds the first frame of the stream and the rest is left.
  method ReadMessage(socket: Socket, buffer: array<byte>, headerRounds: seq<RecvRound>, payloadRounds: seq<RecvRound>)
    returns (ok: bool)
    requires buffer.Length == MAX_MESSAGE && |headerRounds| > HEADER && |payloadRounds| > MAX_PAYLOAD
    modifies socket`incoming, buffer
    ensures ok ==> HasFrame(old(socket.incoming))
                   && var n := FrameLength(old(socket.incoming));
                      IsFrame(buffer[..n]) && buffer[..n] == old(socket.incoming)[..n]
                      && socket.incoming == old(socket.incoming)[n..]
    ensures HasFrame(old(socket.incoming)) && Works(headerRounds, HEADER) ==>
              Works(payloadRounds, PayloadLength(old(socket.incoming))) ==> ok
  {
    ghost var stream, n := socket.incoming, 0;
    var r;
    r, n := ReceiveMessage(socket, buffer, 0, HEADER, headerRounds);
    if r == -1 {
      return false;
    }
    assert buffer[..HEADER] == stream[..HEADER];
    assert buffer[8] == stream[8];
    ghost var rest := socket.incoming;
    r, n := ReceiveMessage(socket, buffer, HEADER, buffer[8], payloadRounds);
    if r == -1 {
      return false;
    }
    assert stream[..HEADER + n] == stream[..HEADER] + rest[..n];
    assert buffer[..HEADER + n] == stream[..HEADER + n];
    ok := true;
  }

  // One schedule per message: for the header, and for the payload whatever its length.
  predicate AllWork(schedule: seq<(seq<RecvRound>, seq<RecvRound>)>) {
    forall i :: 0 <= i < |schedule| ==> Works(schedule[i].0, HEADER) && Works(schedule[i].1, 1)
  }

  lemma WorksForAny(rounds: seq<RecvRound>, length: nat)
    requires Works(rounds, 1)
    ensures Works(rounds, length)
  {
    forall i | 0 <= i < |rounds| ensures Goes(rounds, length, i) {
      assert Goes(rounds, 1, i);
    }
  }

  // Reading messages until one read fails refines the splitter of the receiving library: the messages
  // are the first frames of the stream, and all of them when no read fails.
  method ReadMessages(socket: Socket, schedule: seq<(seq<RecvRound>, seq<RecvRound>)>) returns (messages: seq<seq<byte>>)
    requires forall i :: 0 <= i < |schedule| ==> |schedule[i].0| > HEADER && |schedule[i].1| > MAX_PAYLOAD
    modifies socket`incoming
    ensures |messages| <= |Frames(old(socket.incoming))|
    ensures messages == Frames(old(socket.incoming))[..|messages|]
    ensures AllWork(schedule) ==> |messages| == Least(|schedule|, |Frames(old(socket.incoming))|)
  {
    hide Works;
    ghost var stream := socket.incoming;
    ghost var unread := stream;
    var buffer := new byte[MAX_MESSAGE];
    messages := [];
    var i := 0;
    var ok := true;
    while i < |schedule| && ok
      invariant 0 <= i <= |schedule|
      invariant Frames(stream) == messages + Frames(unread)
      invariant ok ==> unread == socket.incoming && |messages| == i
      invariant AllWork(schedule) && !ok ==> Frames(unread) == [] && |messages| <= |schedule|
    {
      if AllWork(schedule) && HasFrame(unread) {
        WorksForAny(schedule[i].1, PayloadLength(unread));
      }
      ok := ReadMessage(socket, buffer, schedule[i].0, schedule[i].1);
      if ok {
        var n := HEADER + buffer[8];
        assert buffer[..n][8] == buffer[8];
        assert Frames(unread) == [buffer[..n]] + Frames(socket.incoming);
        messages := messages + [buffer[..n]];
        unread := socket.incoming;
      }
      i := i + 1;
    }
  }

  // ---------------------------------------------------------------- handle_recvd_message

  predicate Accepted(c: Crypto, serverKey: seq<byte>, q: seq<byte>)
    requires |q| >= HEADER
  {
    U32(Reverse(NetworkId(q))) == 0 && Tag(c, serverKey, Signed(WithIdSwapped(q))) == Reverse(ServerTag(q))
  }

  // The comparisons on a message with both fields swapped.
  predicate CheckedHere(c: Crypto, serverKey: seq<byte>, r: seq<byte>)
    requires |r| >= HEADER && |r| >= HEADER + r[8]
  {
    U32(r[9..13]) == 0 && Tag(c, serverKey, r[8..HEADER + r[8]]) == r[0..4]
  }

  method CheckSwapped(c: Crypto, serverKey: seq<byte>, message: array<byte>) returns (ok: bool)
    requires message.Length >= HEADER && message.Length >= HEADER + message[8]
    ensures ok <==> CheckedHere(c, serverKey, message[..])
  {
    ghost var r := message[..];
    var end := HEADER + message[8];
    assert message[9..13] == r[9..13] && message[0..4] == r[0..4] && message[8..end] == r[8..end];
    if U32(message[9..13]) != 0 {
      return false;
    }
    var hash := Tag(c, serverKey, message[8..end]);
    ok := hash == message[0..4];
  }

  // Network id and server tag are swapped in place for the checks, and swapped back afterwards.
  method CheckSignature(c: Crypto, serverKey: seq<byte>, message: array<byte>) returns (ok: bool)
    requires message.Length >= HEADER && message.Length >= HEADER + message[8]
    modifies message
    ensures ok <==> Accepted(c, serverKey, old(message[..])[..HEADER + old(message[8])])
    ensures ok ==> message[..] == old(message[..])
  {
    ghost var q := message[..];
    SwappedAccepted(c, serverKey, q, HEADER + message[8]);
    SwapBack(q);
    hide SwapAt, Accepted, CheckedHere;
    SwapBytes(message, 9, 4);
    SwapBytes(message, 0, 4);
    ok := CheckSwapped(c, serverKey, message);
    if !ok {
      return;
    }
    SwapBytes(message, 9, 4);
    SwapBytes(message, 0, 4);
  }

  // The checks of a received message; what is broadcast is what was received.  `last` is the device's
  // last_message_from_client, refreshed by every verified message, pings included.
  method HandleReceivedMessage(c: Crypto, serverKey: seq<byte>, message: array<byte>, last: int, now: int)
    returns (verdict: Verdict, last': int)
    requires message.Length >= HEADER && message.Length >= HEADER + message[8]
    modifies message
    ensures verdict == ServerVerdict(c, serverKey, old(message[..])[..HEADER + old(message[8])])
    ensures !verdict.Ignored? ==> message[..] == old(message[..])
    ensures last' == if verdict.Ignored? then last else now
  {
    ghost var q, f := message[..], message[..][..HEADER + message[8]];
    assert f[4..8] == message[4..8] && f[16..24] == message[16..24];
    var ok := CheckSignature(c, serverKey, message);
    if !ok {
      return Ignored, last;
    }
    last' := now;
    assert message[4..8] == q[4..8] && message[16..24] == q[16..24];
    if message[8] == 0 && message[4..8] == ONES_4 && message[16..24] == ONES_8 {
      return KeepAlive, last';
    }
    verdict := Broadcast;
  }

  lemma SwappedChecks(q: seq<byte>, n: nat)
    requires HEADER <= n <= |q|
    ensures var f, r := q[..n], SwapAt(SwapAt(q, 9, 4), 0, 4);
            && r[8] == q[8] && r[9..13] == Reverse(NetworkId(f)) && r[0..4] == Reverse(ServerTag(f))
            && r[8..n] == Signed(WithIdSwapped(f))
  {
    var f, q1 := q[..n], SwapAt(q, 9, 4);
    var r := SwapAt(q1, 0, 4);
    SwapKeeps(q, 9, 4);
    SwapKeeps(q1, 0, 4);
    assert f[9..13] == q[9..13] && f[0..4] == q[0..4] == q1[0..4];
    assert q1[9..13] == Reverse(q[9..13]) && r[9..13] == q1[9..13];
    assert q1[8..n] == [q[8]] + Reverse(q[9..13]) + q[13..n];
    assert Signed(WithIdSwapped(f)) == [f[8]] + Reverse(f[9..13]) + f[13..];
    assert r[8..n] == q1[8..n];
  }

  lemma SwappedAccepted(c: Crypto, serverKey: seq<byte>, q: seq<byte>, n: nat)
    requires HEADER <= n <= |q| && n == HEADER + q[8]
    ensures var r := SwapAt(SwapAt(q, 9, 4), 0, 4);
            r[8] == q[8] && (CheckedHere(c, serverKey, r) <==> Accepted(c, serverKey, q[..n]))
  {
    SwappedChecks(q, n);
    hide SwapAt, U32, Tag, WithIdSwapped, Signed, NetworkId, ServerTag, Reverse;
  }

  lemma SwapBack(q: seq<byte>)
    requires |q| >= HEADER
    ensures SwapAt(SwapAt(SwapAt(SwapAt(q, 9, 4), 0, 4), 9, 4), 0, 4) == q
  {
    var r := SwapAt(q, 9, 4);
    assert SwapAt(SwapAt(r, 0, 4), 9, 4) == SwapAt(SwapAt(r, 9, 4), 0, 4) by {
      var x, y := SwapAt(SwapAt(r, 0, 4), 9, 4), SwapAt(SwapAt(r, 9, 4), 0, 4);
      assert forall i :: 0 <= i < |q| ==> x[i] == y[i];
    }
    SwapTwice(q, 9, 4);
    SwapTwice(q, 0, 4);
  }

  // create_ping_message
  method CreatePingMessage(c: Crypto, serverKey: seq<byte>) returns (message: array<byte>)
    ensures fresh(message) && message.Length == MAX_MESSAGE && message[..HEADER] == PingFrame(c, serverKey)
  {
    message := new byte[MAX_MESSAGE];
    var body := PingBody();
    hide PingBody, Tag, Reverse;
    FillPing(message, body);
    SignPing(c, serverKey, message, body);
  }

  method FillPing(message: array<byte>, body: seq<byte>)
    requires message.Length == MAX_MESSAGE && |body| == HEADER - 8
    modifies message
    ensures message[..][4..HEADER] == ONES_4 + body && message[..][8..HEADER] == body
  {
    ghost var q := message[..];
    Store(message, 8, body);
    ghost var q1 := message[..];
    assert q1 == q[..8] + body + q[HEADER..];
    Store(message, 4, ONES_4);
    assert message[..] == q1[..4] + ONES_4 + q1[8..];
    TagAndBody(q, body, q1, message[..]);
  }

  // The server's tag is written and then swapped in place.
  method SignPing(c: Crypto, serverKey: seq<byte>, message: array<byte>, ghost body: seq<byte>)
    requires message.Length == MAX_MESSAGE && message[..][8..HEADER] == body
    modifies message
    ensures message[..HEADER] == Reverse(Tag(c, serverKey, body)) + old(message[..])[4..HEADER]
  {
    hide SwapAt, Reverse, Tag;
    ghost var stored := message[..];
    assert message[8..HEADER] == stored[8..HEADER];
    var hash := Tag(c, serverKey, message[8..HEADER]);
    Store(message, 0, hash);
    assert message[..] == hash + stored[4..];
    SwapBytes(message, 0, 4);
    PingAssembled(hash, stored);
    assert message[..HEADER] == message[..][..HEADER];
  }

  lemma TagAndBody(q: seq<byte>, body: seq<byte>, q1: seq<byte>, stored: seq<byte>)
    requires |q| == MAX_MESSAGE && |body| == HEADER - 8
    requires q1 == q[..8] + body + q[HEADER..] && stored == q1[..4] + ONES_4 + q1[8..]
    ensures stored[4..HEADER] == ONES_4 + body && stored[8..HEADER] == body
  {
    assert q1[8..HEADER] == body;
    assert stored[8..] == q1[8..] && stored[4..8] == ONES_4;
    assert stored[8..HEADER] == q1[8..HEADER];
    assert stored[4..HEADER] == stored[4..8] + stored[8..HEADER];
  }

  lemma PingAssembled(hash: seq<byte>, stored: seq<byte>)
    requires |hash| == 4 && |stored| == MAX_MESSAGE
    ensures SwapAt(hash + stored[4..], 0, 4)[..HEADER] == Reverse(hash) + stored[4..HEADER]
  {
    assert (hash + stored[4..])[0..4] == hash && (hash + stored[4..])[4..] == stored[4..];
  }

  // ---------------------------------------------------------------- send_message

  function Repeated(q: seq<byte>, m: nat): seq<byte> {
    if m == 0 then [] else Repeated(q, m - 1) + q
  }

  // The first successful send takes all of a message of 65535 bytes; the int16_t result is then -1.
  predicate Misread(message: seq<byte>, outcomes: seq<int>) {
    |message| == 0xFFFF
    && exists i :: 0 <= i < |outcomes| && outcomes[i] >= 0xFFFF && forall j :: 0 <= j < i ==> outcomes[j] <= 0
  }

  // How many bytes the first n outcomes allow; errors count for nothing.
  function Offered(outcomes: seq<int>, n: nat): nat
    requires n <= |outcomes|
  {
    if n == 0 then 0 else Offered(outcomes, n - 1) + if outcomes[n - 1] > 0 then outcomes[n - 1] else 0
  }

  lemma {:induction false} OfferedGrows(outcomes: seq<int>, m: nat, n: nat)
    requires m <= n <= |outcomes|
    ensures Offered(outcomes, m) <= Offered(outcomes, n)
  {
    if m < n {
      OfferedGrows(outcomes, m, n - 1);
    }
  }

  // The body of the loop in send_message.
  method SendOnce(socket: Socket, message: seq<byte>, sent: uint16, outcome: int) returns (sent': uint16, ghost misread: bool)
    requires sent < |message| <= 0xFFFF
    modifies socket`outgoing
    ensures misread <==> sent == 0 && |message| == 0xFFFF && outcome >= 0xFFFF
    ensures misread ==> sent' == sent && socket.outgoing == old(socket.outgoing) + message
    ensures !misread ==> sent <= sent' <= |message| && socket.outgoing == old(socket.outgoing) + message[sent..sent']
                         && (sent' > sent <==> outcome > 0)
                         && sent' == sent + Least(|message| - sent, if outcome > 0 then outcome else 0)
  {
    sent' := sent;
    var n := socket.Send(message[sent..], outcome);
    var temp := Int16(n);
    if temp != -1 {
      assert message[sent..][..n] == message[sent..sent + n];
      sent' := Plus16(sent, temp);
    }
    misread := n == 0xFFFF;
  }

  // What has been seen of a schedule: m copies were misread, or there was no success, or a good one.
  ghost predicate Seen(message: seq<byte>, outcomes: seq<int>, i: nat, m: nat, sent: nat) {
    i <= |outcomes|
    && if m > 0 then Misread(message, outcomes)
       else if sent > 0 then !Misread(message, outcomes)
       else forall j :: 0 <= j < i ==> outcomes[j] <= 0
  }

  lemma SeenMore(message: seq<byte>, outcomes: seq<int>, i: nat, m: nat, sent: nat, m': nat, sent': nat)
    requires i < |outcomes| && Seen(message, outcomes, i, m, sent) && sent <= sent'
    requires m' == m + if sent == 0 && |message| == 0xFFFF && outcomes[i] >= 0xFFFF then 1 else 0
    requires m' == m ==> (sent' > sent <==> outcomes[i] > 0)
    ensures Seen(message, outcomes, i + 1, m', sent')
  {
  }

  // For every schedule of partial sends and errors before the deadline: after m whole copies whose
  // sending was taken for an error, the socket takes a prefix of the message, and the result tells
  // whether it is the whole message.  There are such copies exactly when the first success is misread,
  // which takes a message of 65535 bytes; otherwise the whole message is sent exactly when the successes
  // before the deadline allow for it, whatever errors come in between.
  method SendMessage(socket: Socket, message: seq<byte>, outcomes: seq<int>) returns (ok: bool, ghost m: nat)
    requires |message| <= 0xFFFF
    modifies socket`outgoing
    ensures exists k :: 0 <= k <= |message| && (ok <==> k == |message|)
                        && socket.outgoing == old(socket.outgoing) + Repeated(message, m) + message[..k]
    ensures m > 0 <==> Misread(message, outcomes)
    ensures !Misread(message, outcomes) ==> (ok <==> Offered(outcomes, |outcomes|) >= |message|)
  {
    var sent: uint16 := 0;
    var i := 0;
    m := 0;
    ghost var before := socket.outgoing;
    while sent < |message| && i < |outcomes|
      invariant 0 <= i <= |outcomes| && sent <= |message|
      invariant socket.outgoing == before + Repeated(message, m) + message[..sent]
      invariant Seen(message, outcomes, i, m, sent)
      invariant m == 0 ==> sent == Least(|message|, Offered(outcomes, i))
      decreases |outcomes| - i
    {
      hide Misread, Seen;
      ghost var misread;
      ghost var was := sent;
      sent, misread := SendOnce(socket, message, sent, outcomes[i]);
      assert !misread ==> message[..sent] == message[..was] + message[was..sent];
      SeenMore(message, outcomes, i, m, was, if misread then m + 1 else m, sent);
      m := if misread then m + 1 else m;
      i := i + 1;
    }
    OfferedGrows(outcomes, i, |outcomes|);
    ok := sent == |message|;
  }
}

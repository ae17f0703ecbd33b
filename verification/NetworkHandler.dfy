/** arduino/library/NetworkHandler.cpp: connection and receiver in sequence, and what the application gets. */
module NetworkHandler {
  import opened Bytes
  import opened Wire
  import opened WireProofs
  import opened Framing
  import opened NetworkInfo
  import opened NetworkSender
  import opened NetworkReceiver
  import opened NetworkConnection

  // struct Message: the sender's name and the payload are followed by zeros.
  datatype Message = Message(sender: seq<byte>, messageType: byte, payloadLength: byte, payload: seq<byte>)

  function Zeros(n: nat): (q: seq<byte>)
    ensures |q| == n
  {
    seq<byte>(n, _ => 0)
  }

  function Delivery(m: Application): Message
    requires |m.sender| == 8 && |m.payload| <= MAX_PAYLOAD
  {
    Message(m.sender + Zeros(1), m.messageType, |m.payload|, m.payload + Zeros(MAX_PAYLOAD + 1 - |m.payload|))
  }

  // Type, length, name and payload of m, each followed by zeros to the end of its array.
  predicate Delivers(message: Message, m: Application) {
    && message.messageType == m.messageType && message.payloadLength == |m.payload|
    && |message.sender| == 9 && |m.sender| == 8 && message.sender[..8] == m.sender && message.sender[8] == 0
    && |message.payload| == 256 && |m.payload| < 256 && message.payload[..|m.payload|] == m.payload
    && forall i :: |m.payload| <= i < 256 ==> message.payload[i] == 0
  }

  lemma DeliveryDelivers(m: Application)
    requires |m.sender| == 8 && |m.payload| <= MAX_PAYLOAD
    ensures Delivers(Delivery(m), m)
  {
  }

  // What the application gets of a message that a peer on network 0 has sent.
  lemma SentIsDelivered(c: Crypto, keys: Keys, messageType: byte, payload: seq<byte>)
    requires |payload| <= MAX_PAYLOAD && messageType != 0 && !PassesForPing(c, keys, 0, messageType, payload)
    ensures IsFrame(Encode(c, keys, 0, messageType, payload))
    ensures var outcome := Decode(c, keys, 0, Encode(c, keys, 0, messageType, payload));
            && outcome.Delivered? && |outcome.message.sender| == 8 && |outcome.message.payload| <= MAX_PAYLOAD
            && var message := Delivery(outcome.message);
               message.messageType == messageType && message.payloadLength == |payload| && message.payload[..|payload|] == payload
  {
    RoundTrip(c, keys, messageType, payload);
    hide Encode, Decode, PassesForPing;
  }

  predicate AllZero(message: Message) {
    && message.messageType == message.payloadLength == 0 && |message.sender| == 9 && |message.payload| == 256
    && (forall i :: 0 <= i < 9 ==> message.sender[i] == 0) && forall i :: 0 <= i < 256 ==> message.payload[i] == 0
  }

  const NO_MESSAGE := Message(Zeros(9), 0, 0, Zeros(MAX_PAYLOAD + 1))

  // Both C strings of a delivered message end inside their arrays, and the payload can be recovered.
  lemma DeliveryIsTerminated(m: Application)
    requires |m.sender| == 8 && |m.payload| <= MAX_PAYLOAD
    ensures |Delivery(m).sender| == 9 && Delivery(m).sender[8] == 0
    ensures |Delivery(m).payload| == MAX_PAYLOAD + 1 && Delivery(m).payload[|m.payload|] == 0
    ensures Delivery(m).payload[..Delivery(m).payloadLength] == m.payload && Delivery(m).sender[..8] == m.sender
  {
  }

  class Handler {
    const info: Info
    const connection: Connection
    const receiver: Receiver

    constructor (info: Info, connection: Connection, receiver: Receiver)
      requires connection.info == info && connection.sender.info == info && receiver.info == info
      requires receiver.Valid() && receiver.Synchronised()
      ensures this.info == info && this.receiver == receiver && this.connection == connection && Valid()
    {
      this.info, this.connection, this.receiver := info, connection, receiver;
    }

    // In particular every message ever logged was parsed from the bytes of a single connection.
    ghost predicate Valid()
      reads this, receiver, receiver.buffer, info, info.client
    {
      && connection.info == info && connection.sender.info == info && receiver.info == info
      && receiver.Valid() && receiver.Synchronised()
    }

    // loop(): after the connection is looked after, the receiver reads.  Bytes may arrive in between, also
    // the first ones of a new connection.
    method Loop(x: Readings, arrived: seq<byte>, now: uint32)
      requires Valid() && |x.taken| >= SEND_TRIES * MAX_MESSAGE
      modifies receiver, receiver.buffer, info, info.client
      ensures Valid()
      ensures receiver.log == Everything(info) && receiver.Partial() == Rest(info.client.consumed)
      ensures var l := AfterKeepConnected(old(LinkOf(info)), x);
              LinkOf(info) == l || LinkOf(info) == l.(lastFrom := now)
      ensures LinkOf(info).reconnects == old(LinkOf(info).reconnects) ==> old(info.client.consumed) <= info.client.consumed
    {
      ghost var before := LinkOf(info);
      hide Received, AllReceived, Rest, Held, Decode, AfterKeepConnected;
      connection.KeepConnected(x);
      NumberTellsReconnection(before, x);
      info.client.Arrive(arrived);
      assert receiver.Valid();
      ghost var l := LinkOf(info);
      receiver.Loop(now);
      assert LinkOf(info).reconnects == l.reconnects;
    }

    method IsReceived() returns (received: bool)
      ensures received == receiver.isMessageReceived
    {
      received := receiver.IsReceived();
    }

    // receive(): the last logged message, once, or an all-zero structure.
    method Receive() returns (message: Message)
      requires Valid()
      modifies receiver`index, receiver`isMessageReceived
      ensures Valid() && !receiver.isMessageReceived
      ensures if old(receiver.isMessageReceived) then
                var m := receiver.log[|receiver.log| - 1];
                |m.sender| == 8 && |m.payload| <= MAX_PAYLOAD && message == Delivery(m) && Delivers(message, m)
              else message == NO_MESSAGE && AllZero(message)
    {
      var received := receiver.IsReceived();
      if !received {
        return NO_MESSAGE;
      }
      var q := receiver.GetReceivedMessage();
      var n: nat := q[8];
      DeliveryDelivers(Held(q));
      message := Message(q[32..40] + Zeros(1), q[40], q[8], q[HEADER..HEADER + n] + Zeros(MAX_PAYLOAD + 1 - n));
    }
  }
}

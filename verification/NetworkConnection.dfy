/** arduino/library/NetworkConnection.cpp: keeping a connection to the relay alive. */
module NetworkConnection {
  import opened Bytes
  import opened Wire
  import opened WireProofs
  import opened Framing
  import opened NetworkInfo
  import opened NetworkSender
  import opened NetworkReceiver

  const RECEIVE_POKE_TIME := 12000
  const SEND_POKE_TIME := 5000

  // What one call of keep_connected() reads from outside: connected() at both places, millis() at
  // every place, and which bytes of the ping the client takes.
  datatype Readings = Readings(
    connected: bool, openedTo: uint32, openedFrom: uint32,
    checkFrom: uint32, staleTo: uint32, staleFrom: uint32,
    checkTo: uint32, sendConnected: bool, taken: seq<bool>, pokedAt: uint32, failedTo: uint32, failedFrom: uint32)

  // The connection number, the two timers, and how many connections have been given up.
  datatype Link = Link(number: byte, lastTo: uint32, lastFrom: uint32, reconnects: nat)

  function Reopened(l: Link, to: uint32, from: uint32): Link {
    Link(NextNumber(l.number), to, from, l.reconnects + 1)
  }

  function AfterKeep(l: Link, x: Readings): Link {
    if x.connected then l else Reopened(l, x.openedTo, x.openedFrom)
  }

  predicate IsStale(l: Link, x: Readings) {
    Elapsed(x.checkFrom, l.lastFrom) > RECEIVE_POKE_TIME
  }

  function AfterListen(l: Link, x: Readings): Link {
    if IsStale(l, x) then Reopened(l, x.staleTo, x.staleFrom) else l
  }

  predicate NeedsPoke(l: Link, x: Readings) {
    Elapsed(x.checkTo, l.lastTo) > SEND_POKE_TIME
  }

  // The ping, an encoded header, leaves whole.
  predicate PingLeaves(x: Readings) {
    x.sendConnected && GetsThrough(x.taken, HEADER)
  }

  function AfterPoke(l: Link, x: Readings): Link {
    if !NeedsPoke(l, x) then l
    else if PingLeaves(x) then l.(lastTo := x.pokedAt)
    else Reopened(l, x.failedTo, x.failedFrom)
  }

  function AfterKeepConnected(l: Link, x: Readings): Link {
    AfterPoke(AfterListen(AfterKeep(l, x), x), x)
  }

  // Nothing heard for 12 s, counted from the opening of a connection just opened.
  predicate Stale(l: Link, x: Readings) {
    (x.checkFrom - (if x.connected then l.lastFrom else x.openedFrom)) % 0x1_0000_0000 > 12000
  }

  // Nothing said to the server for 5 s, after both checks before.
  predicate Due(l: Link, x: Readings) {
    (x.checkTo - (if Stale(l, x) then x.staleTo else if x.connected then l.lastTo else x.openedTo)) % 0x1_0000_0000 > 5000
  }

  lemma Checks(l: Link, x: Readings)
    ensures Stale(l, x) <==> IsStale(AfterKeep(l, x), x)
    ensures Due(l, x) <==> NeedsPoke(AfterListen(AfterKeep(l, x), x), x)
    ensures var l' := AfterKeepConnected(l, x);
            l'.reconnects == l.reconnects <==> x.connected && !Stale(l, x) && (Due(l, x) ==> PingLeaves(x))
    ensures AfterKeepConnected(l, x) == AfterPoke(AfterListen(AfterKeep(l, x), x), x)
  {
    hide PingLeaves;
  }

  lemma KeptLink(l: Link, x: Readings)
    ensures AfterKeep(l, x) == if x.connected then l else Reopened(l, x.openedTo, x.openedFrom)
  {
  }

  // The link after a call, in terms of what was read.
  lemma LinkAfter(l: Link, x: Readings)
    ensures var l' := AfterKeepConnected(l, x);
            var fails := Due(l, x) && !PingLeaves(x);
            && l'.reconnects == l.reconnects + (if x.connected then 0 else 1) + (if Stale(l, x) then 1 else 0) + (if fails then 1 else 0)
            && l'.lastTo == (if Due(l, x) then if PingLeaves(x) then x.pokedAt else x.failedTo
                             else if Stale(l, x) then x.staleTo else if x.connected then l.lastTo else x.openedTo)
            && l'.lastFrom == (if fails then x.failedFrom else if Stale(l, x) then x.staleFrom
                               else if x.connected then l.lastFrom else x.openedFrom)
  {
    hide PingLeaves;
  }

  // The 8-bit number counts the reconnections of one call without ambiguity: it stays the same
  // exactly when the connection does.
  lemma NumberTellsReconnection(l: Link, x: Readings)
    ensures var l' := AfterKeepConnected(l, x);
            && l.reconnects <= l'.reconnects <= l.reconnects + 3
            && l'.number == (l.number + (l'.reconnects - l.reconnects)) % WRAP_8
            && (l'.number == l.number <==> l'.reconnects == l.reconnects)
  {
    var l1 := AfterKeep(l, x);
    var l2 := AfterListen(l1, x);
    var l3 := AfterPoke(l2, x);
    Steps(l, l1);
    Steps(l1, l2);
    Steps(l2, l3);
  }

  lemma Steps(l: Link, l': Link)
    requires l'.number == l.number || l'.number == NextNumber(l.number)
    ensures l'.number == l.number || l'.number == l.number + 1 || (l.number == 255 && l'.number == 0)
  {
  }

  // A connection on which nothing was heard for more than the limit, by the reading of this call, is
  // replaced; one that was heard from recently, is up and needs no ping is left alone.
  lemma SilenceReconnects(l: Link, x: Readings)
    ensures x.connected && Elapsed(x.checkFrom, l.lastFrom) > RECEIVE_POKE_TIME ==>
              AfterKeepConnected(l, x).reconnects > l.reconnects
    ensures x.connected && Elapsed(x.checkFrom, l.lastFrom) <= RECEIVE_POKE_TIME && Elapsed(x.checkTo, l.lastTo) <= SEND_POKE_TIME ==>
              AfterKeepConnected(l, x) == l
  {
  }

  ghost function LinkOf(info: Info): Link
    reads info, info.client
  {
    Link(info.connectionNumber, info.lastPokeToServer, info.lastPokeFromServer, |info.client.earlier|)
  }

  class Connection {
    const info: Info
    const sender: Sender

    constructor (info: Info, sender: Sender)
      ensures this.info == info && this.sender == sender
    {
      this.info, this.sender := info, sender;
    }

    // is_connected()
    method IsConnected(now: uint32) returns (connected: bool)
      ensures connected <==> (now - info.lastPokeFromServer) % 0x1_0000_0000 <= 12000
    {
      connected := Elapsed(now, info.lastPokeFromServer) <= RECEIVE_POKE_TIME;
    }

    method CloseAndConnect(to: uint32, from: uint32)
      modifies info`connectionNumber, info`lastPokeToServer, info`lastPokeFromServer, info.client
      ensures LinkOf(info) == Reopened(old(LinkOf(info)), to, from)
      ensures info.client.consumed == [] && info.client.pending == [] && info.client.sent == []
      ensures Everything(info) == old(Everything(info))
    {
      AllReceivedSnoc(info.crypto, info.keys, info.networkId, info.client.earlier, info.client.consumed);
      EmptyStream(info.crypto, info.keys, info.networkId);
      info.client.Reconnect();
      info.lastPokeToServer := to;
      info.lastPokeFromServer := from;
      info.connectionNumber := NextNumber(info.connectionNumber);
    }

    // keep_connection(): a lost connection is closed and opened again.
    method KeepConnection(connected: bool, to: uint32, from: uint32)
      modifies info`connectionNumber, info`lastPokeToServer, info`lastPokeFromServer, info.client
      ensures LinkOf(info) == if connected then old(LinkOf(info)) else Reopened(old(LinkOf(info)), to, from)
      ensures connected ==> info.client.consumed == old(info.client.consumed) && info.client.pending == old(info.client.pending)
                            && info.client.sent == old(info.client.sent)
      ensures !connected ==> info.client.consumed == [] && info.client.pending == [] && info.client.sent == []
      ensures Everything(info) == old(Everything(info))
    {
      if !connected {
        CloseAndConnect(to, from);
      }
    }

    // The connection is replaced when it is lost, when nothing was heard for 12 s by the reading of this
    // call, and when a ping that is due after 5 s does not leave whole.  The ping, and nothing else, is sent.
    method KeepConnected(x: Readings)
      requires sender.info == info && |x.taken| >= SEND_TRIES * MAX_MESSAGE
      modifies info`connectionNumber, info`lastPokeToServer, info`lastPokeFromServer, info.client
      ensures LinkOf(info) == AfterKeepConnected(old(LinkOf(info)), x)
      ensures info.client.sent ==
                (if x.connected && !Stale(old(LinkOf(info)), x) && (Due(old(LinkOf(info)), x) ==> PingLeaves(x)) then old(info.client.sent) else [])
                + (if Due(old(LinkOf(info)), x) && PingLeaves(x) then Encode(info.crypto, info.keys, info.networkId, 0, []) else [])
      ensures info.networkId == 0 ==>
                ServerVerdict(info.crypto, info.keys.server, Encode(info.crypto, info.keys, info.networkId, 0, [])) == KeepAlive
      ensures LinkOf(info).reconnects == old(LinkOf(info)).reconnects ==>
                info.client.consumed == old(info.client.consumed) && info.client.pending == old(info.client.pending)
      ensures LinkOf(info).reconnects != old(LinkOf(info)).reconnects ==>
                info.client.consumed == [] && info.client.pending == []
      ensures Everything(info) == old(Everything(info))
    {
      ArduinoPing(info.crypto, info.keys, info.networkId);
      Checks(LinkOf(info), x);
      hide Encode, ServerVerdict, Everything, PingLeaves, Stale, Due, NeedsPoke, AfterKeep, AfterListen, AfterPoke, IsStale;
      ghost var l := LinkOf(info);
      ghost var l1 := AfterKeep(l, x);
      KeepConnection(x.connected, x.openedTo, x.openedFrom);
      assert LinkOf(info) == l1 by {
        KeptLink(l, x);
      }
      Listen(x);
      Poke(x);
    }

    // The middle part: a silent connection is replaced.
    method Listen(x: Readings)
      modifies info`connectionNumber, info`lastPokeToServer, info`lastPokeFromServer, info.client
      ensures LinkOf(info) == AfterListen(old(LinkOf(info)), x)
      ensures IsStale(old(LinkOf(info)), x) ==> info.client.sent == [] && info.client.consumed == [] && info.client.pending == []
      ensures !IsStale(old(LinkOf(info)), x) ==>
                info.client.sent == old(info.client.sent) && info.client.consumed == old(info.client.consumed)
                && info.client.pending == old(info.client.pending)
      ensures Everything(info) == old(Everything(info))
    {
      if Elapsed(x.checkFrom, info.lastPokeFromServer) > RECEIVE_POKE_TIME {
        CloseAndConnect(x.staleTo, x.staleFrom);
      }
    }

    // The last part of keep_connected(): a ping that does not leave whole costs the connection.
    method Poke(x: Readings)
      requires sender.info == info && |x.taken| >= SEND_TRIES * MAX_MESSAGE
      modifies info`connectionNumber, info`lastPokeToServer, info`lastPokeFromServer, info.client
      ensures LinkOf(info) == AfterPoke(old(LinkOf(info)), x)
      ensures NeedsPoke(old(LinkOf(info)), x) && !PingLeaves(x) ==>
                info.client.sent == [] && info.client.consumed == [] && info.client.pending == []
      ensures !NeedsPoke(old(LinkOf(info)), x) || PingLeaves(x) ==>
                info.client.consumed == old(info.client.consumed) && info.client.pending == old(info.client.pending)
                && info.client.sent == old(info.client.sent)
                   + if NeedsPoke(old(LinkOf(info)), x) then Encode(info.crypto, info.keys, info.networkId, 0, []) else []
      ensures Everything(info) == old(Everything(info))
    {
      hide Encode, GetsThrough, Received, AllReceived;
      if Elapsed(x.checkTo, info.lastPokeToServer) > SEND_POKE_TIME {
        var empty := new byte[0];
        assert empty[..0] == [];
        var ok := sender.Send(0, empty, 0, x.sendConnected, x.taken);
        if ok {
          info.lastPokeToServer := x.pokedAt;
        } else {
          CloseAndConnect(x.failedTo, x.failedFrom);
        }
      }
    }
  }
}

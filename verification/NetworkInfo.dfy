/** State shared by the parts of the Arduino network library. */
module NetworkInfo {
  import opened Bytes
  import opened Wire

  /**
   The Ethernet client as seen by the library.  `pending` are bytes that have arrived and were not read,
   `sent` the bytes accepted by write() on the current connection.  Two histories: what was read on the
   current connection, and what was read on each earlier one.
   */
  class EthernetClient {
    var pending: seq<byte>
    var sent: seq<byte>
    ghost var consumed: seq<byte>
    ghost var earlier: seq<seq<byte>>

    constructor ()
      ensures pending == [] && sent == [] && consumed == [] && earlier == []
    {
      pending, sent, consumed, earlier := [], [], [], [];
    }

    method Available() returns (n: nat)
      ensures n == |pending|
    {
      n := |pending|;
    }

    method Read() returns (b: byte)
      requires pending != []
      modifies this`pending, this`consumed
      ensures b == old(pending[0]) && pending == old(pending[1..]) && consumed == old(consumed) + [b]
    {
      b := pending[0];
      pending := pending[1..];
      consumed := consumed + [b];
    }

    // More bytes of the current connection arrive.
    method Arrive(chunk: seq<byte>)
      modifies this`pending
      ensures pending == old(pending) + chunk
    {
      pending := pending + chunk;
    }

    // write() of one byte returns 1 or, when the chip does not take it, 0.
    method Write(b: byte, taken: bool) returns (n: nat)
      modifies this`sent
      ensures n == (if taken then 1 else 0) && sent == old(sent) + if taken then [b] else []
    {
      sent := sent + if taken then [b] else [];
      n := if taken then 1 else 0;
    }

    // stop() followed by connect(): unread bytes of the old connection are gone.
    method Reconnect()
      modifies this
      ensures pending == [] && sent == [] && consumed == [] && earlier == old(earlier) + [old(consumed)]
    {
      earlier := earlier + [consumed];
      pending, sent, consumed := [], [], [];
    }
  }

  class Info {
    const crypto: Crypto
    const keys: Keys
    const networkId: uint32
    const client: EthernetClient
    var connectionNumber: byte
    var lastPokeToServer: uint32
    var lastPokeFromServer: uint32

    constructor (crypto: Crypto, keys: Keys, networkId: uint32, client: EthernetClient, now: uint32, later: uint32)
      ensures this.crypto == crypto && this.keys == keys && this.networkId == networkId && this.client == client
      ensures connectionNumber == 0 && lastPokeToServer == now && lastPokeFromServer == later
    {
      this.crypto, this.keys, this.networkId, this.client := crypto, keys, networkId, client;
      connectionNumber, lastPokeToServer, lastPokeFromServer := 0, now, later;
    }
  }

  // uint8_t connection_number++
  function NextNumber(n: byte): byte {
    (n + 1) % WRAP_8
  }
}

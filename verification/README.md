# Verified model of a home-automation relay and its Arduino library

The repository has two programs. A relay server accepts TCP connections from Arduinos and forwards every
verified message to all registered devices. An Arduino library frames, encrypts, signs and parses those
messages, keeps the connection alive, and drives the power relays of other machines. This project models
both and proves what they promise, over every interleaving, every byte stream and every sequence of calls.

## The parts

**The relay as a state machine** (`Relay*.dfy`). A state holds any number of devices, the program counter
of each device's three threads, the registry keyed by descriptor, the owner of every mutex, the open
descriptors and the connections that wait to be handed over. An action is one atomic step: a thread takes a
mutex, or performs the body of a critical section and unlocks. `Run` is a finite sequence of defined steps;
a step of a thread that would touch the memory of a deleted device is not defined (`Faulty`).

- `RelayState` is the machine, `RelayInvariant` its invariant, `RelayPrograms`, `RelayCounting`,
  `RelaySteps` and `RelayInduction` the proof that every step keeps it.
- `RelaySafety` has reference counts, lifetimes and the exact condition for a use after deletion;
  `RelayDefect` is a run that gets there.
- `RelayRegistry`, `RelayMutexes`, `RelayLifecycle` and `RelayDelivery` prove the registry a set, the
  mutexes free of deadlock, the life of a connection, and order and conservation of what is delivered.
- `RelayRounds` counts what the threads do again and again, and shows that nothing leaks and everything
  shared is guarded.
- `RelayReading` feeds the machine with byte frames and a way of judging them.

**The wire protocol**. `Wire` is the message format as plain functions, `WireProofs` what one side makes of
the other's messages, `WireBytes` the same byte by byte, `Framing` the splitting of a stream. The classes in `NetworkInfo`, `NetworkSender`,
`NetworkReceiver`, `NetworkConnection` and `NetworkHandler` update buffers in place as the library does and
are proved against those functions; `Session` shows that cutting a stream does not matter. `RelayIo` has the
relay's socket loops and checks. `EndToEnd` joins both hops with the state machine, `Hops` runs them by the loops
of the two programs, and `RelayWitness` builds a run that meets the hypotheses of the theorem. `RelayDigest` is the
digest buffer that the relay's threads share; `RelayTrace` interleaves it with the state machine, and `RelayRaces`
has the traces that exist, undisturbed ones for every run with right verdicts and disturbed ones that go wrong.

**Devices**. `ServersHandler` is the timed power-relay controller, `Dht22` the sensor decoder.

`Bytes` and `Buffers` hold fixed-width arithmetic and the in-place operations both programs share.

## How the source is represented

- HMAC (section 2 of RFC 2104) and the AES-CTR keystream (section 6.5 of NIST SP 800-38A) are parameters, so
  the results hold for any functions in their place.
- Clocks, `recv`, `send`, `connected()`, `write()`, button levels and sensor pulses are arguments of the
  methods; every outcome is allowed. Reading the clock twice takes two arguments.
- `uint32_t`, `uint16_t`, `int16_t` and `uint8_t` wrap where the source's do. That the 32-bit reference
  count never wraps is proved, not assumed: live devices have distinct descriptors below 2^31.
- `acquire` and `release` are one step under the items mutex. Deletion, closing and the unlock after it are
  one step. A broadcaster's signal and unlock after its release are not counted as accesses to the device.
- `pthread_cond_wait` may return at any time with the mutex held; signals therefore need no representation.
- A buffer is drained one element per step while its mutex is held.
- `EndToEnd` takes for granted that the relay's verdicts are right (`RelayReading.Genuine`) and that its pings
  carry their own tag. `RelayTrace.EndToEndShared` does not: there both come out of the one digest that all
  threads share, and the hypothesis is that between a thread's computation and its comparison or copy no other
  thread computes. All end-to-end results take for granted that the sends to the peer succeed.

## Where code and documentation differ

The model follows the code.

- The HMACs cover everything from offset 8 of the header on, not its last 32 bytes.
- The CTR initial vector is an HMAC of the header's vector under the network key, not a SHA-256 of it.
- The Arduino compares the network id before converting its byte order. Devices of one network therefore
  understand each other exactly when the id reads the same in both byte orders (`WireProofs.DecodeOfEncode`;
  `WireProofs.NetworkOneIsDeaf` is a network on which they do not).
- The relay accepts network 0 only, and nobody checks the timestamp.
- A sender thread takes its reference only once it runs. If the main handler releases the device first, the
  sender uses freed memory. `RelayDefect.SenderCanBeLate` is such a run; `RelaySafety.FaultsExactly` shows
  that nothing else goes wrong, in either direction, and `RelaySafety.NoUseAfterDeletion` that none does when
  senders start in time.
- All threads of the relay share the static buffer that `HMAC` uses when it is given none, so a verdict can be
  wrong in either direction and a ping can carry a wrong tag (`RelayRaces`); `RelayDigest.VerdictIsRight` has the
  exact condition.
- A message of type 0 loses its network tag. Without payload it is a ping; with one the relay broadcasts it and
  the peers reject it, unless the tag is all ones by accident (`EndToEnd.Arrives`).
- `send_message` takes the successful sending of 65535 bytes for an error and repeats it (`RelayIo.SendMessage`).
- The timing of the power relays needs calls of `loop()` less than a turn of the clock apart, minus the
  delay; beyond that an operation may never end (`ServersHandler.LateCallsCanMiss`).
- `DHT22::read` answers `true` for two seconds after an attempt even if that attempt failed. Reading humidity and
  then temperature of an unplugged sensor reports 0 degrees; `Dht22.MisleadsExactly` says when an answer misleads.
- After one reading that is not a number the temperature wrapper never reads its sensor again
  (`Dht22.Thermometer.Loops`), so an unplugged sensor reports 0 degrees for ever (`Dht22.Unplugged`).

## Model

| member | source | states |
|---|---|---|
| RelayInduction.RunKeepsInv | server/device.cpp:72-219 | every reachable state of any number of devices satisfies the whole invariant: counts, lifetimes, phases, snapshots, buffers, registry, descriptors and mutex ownership |
| RelayInduction.StepKeepsInv | server/device.cpp:72-219 | each atomic step of each thread, and each step of the accept loop and the hand-off, keeps the invariant |
| RelayInduction.HandOverKeepsInv | server/main.cpp:16-32 | creating a device for an accepted descriptor keeps the invariant, in particular no two devices share a descriptor |
| RelayCounting.HoldersBound | server/memory.cpp:8-25 | a device never has as many holders as a 32-bit counter could not count, because broadcasters are live devices with distinct descriptors |
| RelaySafety.CountsAreExact | server/memory.cpp:8-25 | in every reachable state `memory_pointers` is the number of holders: main, sender, receiver, registry entry, and one per unreleased snapshot occurrence; it never wraps |
| RelaySafety.DeadIsAbandoned | server/memory.cpp:15-25 | a deleted device is in no registry set and no snapshot, and no thread refers to it except possibly a sender that has not run |
| RelaySafety.DeletionClosesDescriptor | server/memory.cpp:15-25 | a step that deletes a device closes exactly that device's open descriptor, and the device is abandoned; no step revives a device |
| RelaySafety.ClosedIsDeleted | server/memory.cpp:19-22 | a descriptor is closed only by the step that deletes the device it belongs to |
| RelaySafety.DeletedOnce | server/memory.cpp:15-25 | over any continuation of a run a deleted device stays deleted and abandoned, so it is closed and deleted at most once |
| RelaySafety.PendingIsLive | server/network.cpp:46-65 | a device a broadcaster has acquired and not yet released is alive, so every append lands on a live device |
| RelaySafety.OnlyLateSendersFault | server/device.cpp:130-135 | a step touches deleted memory if and only if it is a step of a sender that has not acquired and whose device is already deleted; the reads of registered devices by the registry's hash and equality count as accesses |
| RelaySafety.FaultsExactly | server/device.cpp:130-135 | a run can go wrong in its next step if and only if some device was deleted before its sender acquired it |
| RelaySafety.NoUseAfterDeletion | server/device.cpp:182-219 | if each sender acquires before its main handler releases, no enabled step ever touches a deleted device, and the threads of deleted devices have finished |
| RelayDefect.SenderCanBeLate | server/device.cpp:186-217 | for every descriptor a concrete run in which the peer hangs up at once, main releases and the sender's first step uses the deleted device |
| RelayRegistry.RegistryIsExact | server/network.cpp:16-27 | in every reachable state registry slots and live registered devices correspond one to one, although equality looks at descriptors only |
| RelayRegistry.RegistryRefinesSet | server/network.cpp:30-44 | insertion adds exactly this device and is never dropped, erasure removes exactly this device, every other step leaves the set of devices alone |
| RelayRegistry.SnapshotIsMembership | server/network.cpp:46-55 | the snapshot a broadcast works on lists every registered device exactly once, including its source, and nothing else |
| RelayMutexes.WaitingLowersRank | server/network.cpp:46-66 | a thread waiting for a registry or buffer mutex can only be blocked behind a thread waiting for an items mutex or a free one |
| RelayMutexes.NoDeadlock | server/network.cpp:46-66 | in every reachable state the waits-for graph of all threads has no cycle of any length |
| RelayMutexes.SomebodyCanMove | server/device.cpp:138-154 | behind every blocked thread, at most two owners away, stands a thread with an enabled step that touches no deleted device |
| RelayLifecycle.LifeOfDevice | server/device.cpp:46-54 | over any run the connection state only moves forward, descriptor and network id stay fixed, and a device removed from the registry is never registered again |
| RelayLifecycle.EndedIsUnregistered | server/device.cpp:108-119 | a device whose connection has ended is in no registry set |
| RelayLifecycle.EndedJoinsNoSnapshot | server/device.cpp:108-119 | after the end of its connection a device enters no broadcast snapshot any more, not even of a broadcaster that connects later |
| RelayDelivery.OutboxConserved | server/device.cpp:137-149 | everything ever appended to a buffer equals what was handed to `send_message` followed by what is still to be handed, in order, also in the middle of a drain |
| RelayDelivery.PerSourceFifo | server/network.cpp:46-67 | while a device is registered its log restricted to one source grows by exactly the verified non-ping messages of that source, each once and in order |
| RelayDelivery.NothingBeforeRegistration | server/network.cpp:46-67 | before a device is registered only the server's pings reach its buffer |
| RelayDelivery.DeliveredSinceRegistration | server/device.cpp:46-69 | from its registration on a device's log of any source, even one that connects later, is exactly what that source had in flight and has heard since |
| RelayRounds.PingsAreRounds | server/device.cpp:201-208 | in every run the pings appended for a device are exactly as many as its main handler has come to its ping, whatever state the connection is in |
| RelayRounds.MainGoesRound | server/device.cpp:200-219 | there is a first ping and one more after every poll that finds the connection not ended, and the main handler leaves its loop after the poll that finds it ended |
| RelayRounds.SenderGoesRound | server/device.cpp:137-158 | the sender waits once, and once more after every poll that finds the connection not ended, and leaves its loop after the poll that finds it ended |
| RelayRounds.WokenHandsOver | server/device.cpp:139-149 | everything in a buffer when the sender wakes up has been handed over by the time the sender has left its loop over the buffer |
| RelayRounds.HeardIsRegistered | server/device.cpp:46-54 | a device one of whose messages, ping or not, has been verified is registered before its receiver reads the next one |
| RelayRounds.DeletedWithLastHolder | server/memory.cpp:15-25 | once its main handler has acquired it a device is alive exactly as long as somebody holds it, so the last release deletes it and nothing leaks |
| RelayRounds.EveryDescriptorOwned | server/main.cpp:16-32 | in every run the open descriptors are exactly those of live devices and of accepted connections that still wait to be handed over: no connection is lost and no descriptor leaks |
| RelayRounds.Guarded | server/memory.cpp:8-25 | in every reachable state a thread about to change a count, a connection state, a buffer or the registry holds its mutex, unlocks only what it holds, and touches what it changes |
| RelayRounds.SnapshotGuarded | server/network.cpp:46-55 | a snapshot is taken under the registry mutex from its first device to its last |
| RelayReading.HeardIsBroadcast | server/device.cpp:87-101 | over any run whose verdicts are right (`RelayTrace.UndisturbedIsGenuine` has when they are) a device has heard exactly the frames among those its receiver read that the relay's checks let through to a broadcast |
| RelayReading.RunKeepsFrames | server/network.cpp:58-60 | every entry ever put in a buffer is a ping of the relay or a well-formed frame |
| RelayIo.ReceiveMessage | server/utility.cpp:20-34 | for every schedule of short reads, errors and timeouts: the result is the length if and only if the rest comes before an error, an empty read or the deadline, the buffer then holds exactly the next that-many bytes, and the 16-bit wrap never fakes completion |
| RelayIo.ReceiveOnce | server/utility.cpp:25-31 | one `recv` and the wrapping update of the counter: the counter meets the length only when that many bytes were read |
| RelayIo.ConversionsExactly | server/utility.cpp:7-34 | the conversions to `int16_t` and `uint16_t` keep the value modulo 2^16 and lie in their ranges |
| RelayIo.ReadMessage | server/device.cpp:88-100 | header and payload reads together take exactly the first frame off the stream, or fail |
| RelayIo.ReadMessages | server/device.cpp:87-101 | the messages read until the first failure are the first frames of the stream as the Arduino's splitter finds them, and when no read fails they are all of them, as far as the schedule goes |
| RelayIo.SendMessage | server/utility.cpp:7-18 | for every message length, partial sends and errors: a prefix of the message follows m whole copies whose sending was taken for an error, m is positive exactly when the first success takes all of a 65535-byte message at once, and otherwise the whole message is sent exactly when the successes before the deadline allow for it, errors in between or not |
| RelayIo.CheckSignature | server/device.cpp:18-35 | swapping in place, comparing and swapping back accepts exactly the messages of network 0 with a correct server HMAC and leaves an accepted message unchanged |
| RelayIo.HandleReceivedMessage | server/device.cpp:16-70 | the verdict on every message (ignored, ping, broadcast), that what is broadcast is byte for byte what was received, and that exactly the verified messages, pings included, refresh the client's time |
| RelayIo.CreatePingMessage | server/device.cpp:161-180 | the buffer filled and signed in place is the ping frame the Arduino side is proved to accept, if the digest is undisturbed until its tag is copied |
| WireProofs.DecodeOfEncode | arduino/library/NetworkReceiver.cpp:70-104 | for every network id, type and payload, exactly what a peer makes of an encoded message: ping, rejection or the original, with the condition for each |
| WireProofs.RoundTrip | arduino/library/NetworkSender.cpp:76-110 | on network 0 every typed message that does not pass for a ping is decoded to itself |
| WireProofs.NetworkOneIsDeaf | arduino/library/NetworkReceiver.cpp:77-81 | on network 1 no message with a payload is accepted by a peer of the same network, because the id is compared unswapped |
| WireProofs.VerdictOnEncode | server/device.cpp:16-69 | the relay's verdict on every message an Arduino can encode: ignored unless network 0, then ping or broadcast |
| WireProofs.ServerPingIsPing | server/device.cpp:161-180 | a ping built by the relay is a ping for every Arduino with the same server key, whatever its network id and network key |
| WireProofs.ArduinoPing | arduino/library/NetworkSender.cpp:100-109 | an Arduino's ping passes the relay's checks and is not broadcast on network 0, and is ignored on every other network |
| WireProofs.RelayedMessage | server/device.cpp:16-70 | one sendable message is broadcast by the relay and decoded by the peer to the original |
| WireBytes.EncodeBytes | arduino/library/NetworkSender.cpp:3-109 | every byte of an encoded message at its offset: both tags from the HMACs over offset 8 and up, length, big-endian id, filler, and from offset 32 on the plain bytes combined bit by bit with the keystream of the network key and the first 16 bytes of the HMAC of the vector |
| WireBytes.DecodeBytes | arduino/library/NetworkReceiver.cpp:15-104 | for any frame at all: it is a ping, is delivered or is rejected exactly by the bytes at their offsets, a ping with a wrong tag included, and every delivered byte is combined bit by bit with the keystream |
| WireBytes.VerdictBytes | server/device.cpp:18-66 | for any frame at all: the relay ignores it unless the id bytes are 0 and the tag is the HMAC over offset 8 and up, and takes it for a ping exactly by length, tag and vector bytes |
| WireBytes.PingBytes | server/device.cpp:161-180 | every byte of the relay's ping at its offset |
| Wire.CtrTwice | arduino/library/NetworkReceiver.cpp:53-68 | decryption with the same key and vector undoes encryption, which combines bit by bit (`Bytes.XorDigits`) |
| Bytes.XorInvolution | arduino/library/NetworkReceiver.cpp:63-67 | exclusive or with the same byte twice is the identity |
| Bytes.XorDigits | arduino/library/NetworkReceiver.cpp:63-67 | bit i of the combination of two bytes is set exactly when bit i of one of them is and that of the other is not |
| Bytes.Swap32Reverses | arduino/library/NetworkSender.cpp:3-6 | `htonl` on a little-endian machine reverses the bytes in memory and is its own inverse |
| Bytes.Swap64Reverses | arduino/library/NetworkHandler.h:27-35 | the shift-and-mask macro `htonll` reverses the eight bytes |
| Buffers.SwapTwice | arduino/library/NetworkReceiver.cpp:33-36 | converting a field in place twice restores the message |
| Framing.FramesAndRest | arduino/library/NetworkReceiver.cpp:127-144 | splitting a stream into frames and a leftover loses nothing |
| Framing.SplitResumes | arduino/library/NetworkReceiver.cpp:127-144 | splitting may stop after any prefix and go on with the leftover |
| Framing.FramesOfConcat | arduino/library/NetworkReceiver.cpp:127-144 | a concatenation of frames with an incomplete tail splits into those frames and that tail |
| Framing.FrameCompleted | arduino/library/NetworkReceiver.cpp:141-162 | bytes that complete the leftover add exactly the decoding of that one frame to the messages received |
| NetworkSender.Sender.SignMessage | arduino/library/NetworkSender.cpp:24-42 | both tags are the reversed HMACs of the bytes from offset 8 on, which stay unchanged |
| NetworkSender.EncryptedBody | arduino/library/NetworkSender.cpp:8-22 | encrypting the converted header and payload in place yields the body of the reference encoder |
| NetworkSender.Sender.EncryptMessage | arduino/library/NetworkSender.cpp:8-22 | each of the payload length + 16 bytes from offset 32 on is combined bit by bit with its keystream byte, in place |
| NetworkSender.HtonOfFilled | arduino/library/NetworkSender.cpp:87-103 | converting the filled buffer in place yields the clear header and plain text of the reference encoder |
| NetworkSender.Sender.EthernetSendMessage | arduino/library/NetworkSender.cpp:44-68 | for every pattern of refused bytes a prefix is sent; success means all of it, and happens exactly when connected and as many bytes as the message has are taken among the first three times as many offers |
| NetworkSender.Sender.Send | arduino/library/NetworkSender.cpp:76-110 | the connection gets the reference encoding of the message or a proper prefix of it, and all of it exactly when connected and not refused too often |
| NetworkReceiver.OpenedHolds | arduino/library/NetworkReceiver.cpp:147-157 | after the in-place byte swaps and decryption the buffer holds the message of the reference decoder |
| NetworkReceiver.Receiver.DecryptMessage | arduino/library/NetworkReceiver.cpp:53-68 | each of the payload length + 16 bytes from offset 32 on is combined bit by bit with its keystream byte, in place |
| NetworkReceiver.Receiver.HandlePingMessage | arduino/library/NetworkReceiver.cpp:15-51 | true exactly for a correctly signed ping, whose only effect is to refresh the timer; the buffer is unchanged in every case |
| NetworkReceiver.Receiver.IsValidMessage | arduino/library/NetworkReceiver.cpp:70-104 | true exactly for this network's id as it stands and a correct network HMAC; then only the network tag has been swapped |
| NetworkReceiver.Receiver.ReadBytes | arduino/library/NetworkReceiver.cpp:127-144 | reads until the frame is complete or nothing is available, and never past the end of the frame |
| NetworkReceiver.Receiver.HandleFrame | arduino/library/NetworkReceiver.cpp:146-162 | the outcome of the reference decoder decides flag, index, buffer and timer |
| NetworkReceiver.Receiver.Loop | arduino/library/NetworkReceiver.cpp:107-163 | each call keeps: all messages so far are those of the bytes read on each connection, parsed separately, and the buffer is the leftover of the current connection; a changed connection number drops the partial frame first |
| NetworkReceiver.Receiver.GetReceivedMessage | arduino/library/NetworkReceiver.cpp:169-173 | hands out the buffer with the last message once and makes room for the next frame |
| Session.ReceiveChunks | arduino/library/NetworkReceiver.cpp:107-173 | for every stream and every way to cut it, on a first or a later connection, taking a message after each call, the messages are those of the whole stream read at once and the buffer holds exactly the incomplete frame |
| Session.Round | arduino/main/main.ino:119-125 | one pass of the sketch: the receiver runs, then a message is taken if there is one; the messages taken are exactly those logged |
| NetworkConnection.Connection.KeepConnected | arduino/library/NetworkConnection.cpp:31-48 | when the connection is replaced (lost, silent for more than 12 s, or a ping due after 5 s does not leave whole), and what is sent: the encoded ping exactly when one is due and leaves, and nothing else; on network 0 it is a keep-alive for the relay; unread and partly read bytes survive exactly when nothing was reconnected |
| NetworkConnection.LinkAfter | arduino/library/NetworkConnection.cpp:31-48 | how often a call reconnects and both timers afterwards, from the readings of the call |
| NetworkConnection.Connection.CloseAndConnect | arduino/library/NetworkConnection.cpp:14-20 | a new connection with the next 8-bit number and both timers set; messages already read are kept |
| NetworkConnection.NumberTellsReconnection | arduino/library/NetworkConnection.cpp:3-48 | one call reconnects at most three times, so the 8-bit number changes if and only if the connection did |
| NetworkConnection.SilenceReconnects | arduino/library/NetworkConnection.cpp:34-48 | silence of the server for more than 12 s forces a new connection, and with both timers fresh nothing happens |
| NetworkHandler.Handler.Loop | arduino/library/NetworkHandler.cpp:19-22 | connection first and receiver second, with bytes arriving also in between: no message ever logged mixes bytes of two connections |
| NetworkHandler.Handler.Receive | arduino/library/NetworkHandler.cpp:32-45 | returns once the last logged message, with its type, length, sender and payload, each followed by zeros, or an all-zero structure |
| NetworkHandler.DeliveryIsTerminated | arduino/library/NetworkHandler.cpp:32-45 | sender and payload end in a zero inside their arrays for every payload up to 255 bytes and can be recovered |
| NetworkHandler.SentIsDelivered | arduino/library/NetworkHandler.cpp:32-45 | what the application gets of a typed message that a peer on network 0 has sent has that type, length and payload |
| EndToEnd.FirstHop | server/device.cpp:87-101 | for any messages an Arduino sends, pings and type 0 included, the relay splits the stream into their encodings and broadcasts exactly those that are not pings |
| EndToEnd.OnWireExactly | server/device.cpp:142-145 | the bytes handed to a connection are one frame for every entry, in order: a ping of the relay or the forwarded bytes |
| EndToEnd.SecondHop | server/device.cpp:142-148 | a peer reads the messages of the entries handed to its connection, in order; the relay's pings deliver nothing |
| EndToEnd.RelayedFrames | server/network.cpp:46-67 | in any interleaving, a registered peer's log of a source, with the message still on its way, is what the source had in flight at the registration and the broadcast frames its socket delivered since |
| EndToEnd.EndToEnd | server/device.cpp:16-101 | given right verdicts, for any messages of a source, its pings included, and any interleaving: what a registered peer reads of it, what is buffered for the peer and what is in flight are together, at every moment, what was in flight at the registration and the messages that arrive, in order and once each |
| EndToEnd.AllArrive | server/device.cpp:137-149 | at every moment what the peer has read of a source is a prefix of the messages that arrive, and all of them once nothing is buffered or in flight |
| EndToEnd.TypedArrives | arduino/library/NetworkSender.cpp:100-109 | a message with a type arrives unless it passes for a ping, and one with a payload always does |
| Hops.SendAll | arduino/library/NetworkSender.cpp:76-110 | for every outcome of every write, sending one message after the other puts the stream of all of them on the connection, or a proper prefix on a failure |
| Hops.FirstHopOverSockets | server/device.cpp:87-101 | for every outcome of every write and `recv`, the relay reads the first of the messages sent, and all of them when nothing fails |
| Hops.SendHanded | server/device.cpp:142-145 | one `send_message` after the other puts all messages on the peer's socket, one behind the other, exactly when every one is sent whole |
| Hops.SecondHopOverSockets | arduino/library/NetworkReceiver.cpp:107-173 | on a first or a later connection: the relay sends the entries, the stream is cut in any way, and the messages the peer's parser yields are those of the entries, in order |
| Hops.EndToEndOverSockets | arduino/main/main.ino:119-125 | both hops together, for every outcome of every write, `recv` and `send` and any cut of the streams: of the messages the relay has read the peer's sketch takes those that arrive, in order, whenever the relay's sends to the peer succeed and nobody disturbs the shared digest |
| RelayWitness.ForwardingHappens | server/device.cpp:16-70 | for any keys, descriptors and message that is not a ping there is a run from an empty server in which two devices register with an Arduino's ping and the message of one is handed to the other, meeting all hypotheses of the end-to-end theorem |
| RelayDigest.DigestIsLatest | server/device.cpp:32-35 | in every interleaving a thread about to compare finds the HMAC of the latest message any thread has signed |
| RelayDigest.VerdictIsRight | server/device.cpp:32-35 | a comparison gives the right answer for every tag if and only if the latest message signed by anybody has the same tag as the thread's own |
| RelayDigest.SignerIsUndisturbed | server/device.cpp:32-35 | a thread about to compare is the latest signer if and only if no other thread has computed since it did |
| RelayDigest.OwnDigest | server/device.cpp:32-35 | a thread finds the digest of its own message whenever no other thread computes between the two steps |
| RelayDigest.UndisturbedIsRight | server/device.cpp:32-35 | a comparison is right whenever no other thread computes between the two steps |
| RelayDigest.Disturbed | server/device.cpp:32-35 | two threads suffice for a correctly signed message to be refused and a wrongly signed one to be accepted |
| RelayTrace.UndisturbedIsGenuine | server/device.cpp:16-70 | in every trace of relay steps and computations of all threads on one shared digest in which none is disturbed, every verdict on a message heard is right |
| RelayTrace.UndisturbedReads | server/device.cpp:87-101 | in such a trace a receiver hears and refuses exactly as the frames it has read deserve |
| RelayTrace.UndisturbedTags | server/device.cpp:178-179 | in such a trace every ping tag that a main handler copies is the one of the ping |
| RelayTrace.PingsAreCopied | server/device.cpp:200-208 | in every trace, disturbed or not, each ping in a buffer has a tag copied for it |
| RelayTrace.UndisturbedOnWire | server/device.cpp:142-145 | in an undisturbed trace the bytes handed to a peer are those of correctly signed pings and of the forwarded frames |
| RelayTrace.EndToEndShared | server/device.cpp:16-219 | the end-to-end theorem with verdicts and ping tags taken from the shared digest, for every undisturbed trace |
| RelayRaces.Serial | server/device.cpp:32-35 | every run with right verdicts, with the frames any one receiver reads in it, is the run of an undisturbed trace |
| RelayRaces.WrongRefusal | server/device.cpp:32-35 | for every correctly signed frame whose tag differs from the ping's a trace in which the main handler signs its ping in between and the frame is refused |
| RelayRaces.WrongAcceptance | server/device.cpp:32-35 | for every frame that carries the ping's tag instead of its own a trace in which it is heard as verified |
| RelayRaces.WrongPing | server/device.cpp:178-179 | a trace in which a receiver's computation in between gives a ping a wrong tag |
| ServersHandler.ClosedOnlyDuringPress | arduino/library/ServersHandler.cpp:23-82 | from an open relay, under every sequence of calls, a closed relay means a switching operation; without button presses also the converse |
| ServersHandler.PhaseEnds | arduino/library/ServersHandler.cpp:39-68 | whatever commands and pings come between the calls of `loop`, nothing but the time of the last ping changes until the first call later than the delay, which comes at most d after it, across clock wrap |
| ServersHandler.HoldIsTimed | arduino/library/ServersHandler.cpp:39-52 | whatever commands and pings come, the relay is held for more than the delay and at most delay + d, and then the server is idle with its relay open until a command is accepted |
| ServersHandler.CommandIsTimed | arduino/library/ServersHandler.cpp:110-139 | an accepted `turnOn` or `turnOff` holds the relay closed for that long from the moment of the command, whatever commands and pings follow |
| ServersHandler.RestartCommandIsTimed | arduino/library/ServersHandler.cpp:141-154 | from an accepted `restart` on: the relay is closed for more than 5 s and at most 5 s + d, then open for as long, then closed for more than 2 s and at most 2 s + d, whatever commands and pings follow |
| ServersHandler.PingLastsAMinute | arduino/library/ServersHandler.cpp:84-86 | after a ping a server counts as on for 60 s and not longer, across clock wrap |
| ServersHandler.PressReleases | arduino/library/ServersHandler.cpp:27-37 | a press ends with an open relay in every operation, unless the same call begins the second press of a restart |
| ServersHandler.RestartIsTimed | arduino/library/ServersHandler.cpp:54-68 | `restart` presses, releases and presses, each phase within its bounds, and then is idle, whatever commands and pings come in between |
| ServersHandler.RankFalls | arduino/library/ServersHandler.cpp:39-68 | a rank on operations stays constant within a phase and falls with its end, down to that of NO_OP |
| ServersHandler.LateCallsCanMiss | arduino/library/ServersHandler.cpp:39-68 | when delay + d reaches 2^32 there are schedules of any length in which the operation never ends |
| ServersHandler.ElapsedIsExact | arduino/library/ServersHandler.cpp:41-41 | the wrapping clock difference is exact for less than a full turn |
| ServersHandler.Handler.Loop | arduino/library/ServersHandler.cpp:23-74 | every server moves on its own, button first; with distinct pins no server disturbs another |
| ServersHandler.Handler.HandleButton | arduino/library/ServersHandler.cpp:27-37 | after each sample the relay is closed exactly if it was before or a press has been confirmed; it is open after a press and untouched without one |
| ServersHandler.Handler.TurnOnServer | arduino/library/ServersHandler.cpp:110-124 | accepted exactly for an idle, existing server not heard of for 60 s: relay closed, operation and timer set; otherwise, and for every other server, nothing changes |
| ServersHandler.Handler.TurnOffServer | arduino/library/ServersHandler.cpp:126-139 | accepted exactly for an idle, existing server heard of within 60 s: relay closed, operation and timer set; otherwise, and for every other server, nothing changes |
| ServersHandler.Handler.RestartServer | arduino/library/ServersHandler.cpp:141-154 | accepted exactly for an idle, existing server heard of within 60 s: relay closed, operation and timer set; otherwise, and for every other server, nothing changes |
| ServersHandler.Handler.PingFromServer | arduino/library/ServersHandler.cpp:156-161 | only the time of the last ping of that server changes |
| Dht22.Sensor.ReadBits | arduino/library/cactus_io_DHT22.cpp:119-141 | at most 41 bits are stored, in bounds, and the five data bytes are the big-endian packing of the bits before the first timeout; a 41st bit disturbs none |
| Dht22.PackedDigits | arduino/library/cactus_io_DHT22.cpp:133-139 | bit i of k packed bits is binary digit k - 1 - i of the result |
| Dht22.UsableExactly | arduino/library/cactus_io_DHT22.cpp:119-130 | the pulses that count are those before the first timeout |
| Dht22.GoodSampleExactly | arduino/library/cactus_io_DHT22.cpp:145-148 | a sample is good if and only if 83 pulses come before a timeout and the first four bytes add up to the fifth modulo 256 |
| Dht22.ReadingsExactly | arduino/library/cactus_io_DHT22.cpp:24-47 | humidity is a tenth of the 16-bit number, and so is temperature, whose highest bit is its sign |
| Dht22.Sensor.Read | arduino/library/cactus_io_DHT22.cpp:82-154 | the answer is true exactly on a complete sample with a matching checksum or within two seconds of the last attempt, which then is neither sampled nor changed; in every case the data bytes are what the last attempt left |
| Dht22.Sensor.BackedData | arduino/library/cactus_io_DHT22.cpp:145-148 | when the last attempt was good the data bytes are its first 40 bits and satisfy the checksum |
| Dht22.AnswersAreBacked | arduino/library/cactus_io_DHT22.cpp:88-100 | over every sequence of calls, with i the last one that sampled: all later ones answer true, and the data is a checked sample if and only if call i answered true |
| Dht22.MisleadsExactly | arduino/library/cactus_io_DHT22.cpp:88-100 | the latest answer is true without a checked sample behind it if and only if it comes from an earlier attempt and that attempt answered false |
| Dht22.Sensor.ReadHumidity | arduino/library/cactus_io_DHT22.cpp:24-34 | humidity in tenths from two data bytes, a number exactly when `read` answers true |
| Dht22.Sensor.ReadTemperature | arduino/library/cactus_io_DHT22.cpp:36-53 | temperature as 15-bit magnitude with a sign bit, a number exactly when `read` answers true |
| Dht22.Sensor.ReadBoth | arduino/library/TemperatureHumidityHandler.cpp:22-26 | humidity and then temperature: when the second call is answered from the first, the temperature is always a number, and of a checked sample if and only if the humidity is a number |
| Dht22.Thermometer.Loop | arduino/library/TemperatureHumidityHandler.cpp:12-28 | the sensor is read exactly when its time has come and both values are numbers; a temperature read is that of a checked sample if and only if the humidity is a number too or the second call sampled |
| Dht22.Thermometer.Loops | arduino/library/TemperatureHumidityHandler.cpp:17-20 | over every sequence of calls: as long as all values are numbers the data is that of a checked sample, and once a value is not a number the sensor is never read and the values never change again |
| Dht22.Unplugged | arduino/library/TemperatureHumidityHandler.cpp:12-28 | a sensor unplugged for its first reading yields no humidity and a temperature of 0 degrees, for ever, whatever it would show later |

## Left out

- Eventual delivery and termination of the sender: a signal can be missed, so only safety is claimed.
- The 30 s limit on `last_message_from_client`: in the state machine the receiver may leave its loop in any round.
- The signal and unlock of a broadcaster after its release (`server/network.cpp:63-64`) and the unlock after deletion (`server/memory.cpp:24`), which touch memory that may be freed.
- The writes and reads of the shared digest buffer are single steps.
- Failed `pthread_create`, socket setup, signals and printing; of `accept` only that it returns a descriptor that is not open.
- `arduino/server/`, a copy of `server/`.
- Secrecy, forgery and replay: HMAC and keystream are arbitrary functions.
- RelayIo.ReceiveMessage: that a working socket always completes is claimed for lengths up to 32768; for longer ones the 16-bit result of one `recv` can be negative and stop the loop.
- EndToEnd.EndToEnd: takes right verdicts, right ping tags and successful sends to the peer for granted; `RelayTrace.EndToEndShared` replaces the first two by an undisturbed digest.
- RelayReading.HeardIsBroadcast: takes right verdicts for granted; `RelayTrace.UndisturbedIsGenuine` has when they are.
- RelayIo.CreatePingMessage: takes the digest as private to the call; `RelayTrace.UndisturbedTags` has when that is right.
- NetworkSender.Sender.Send: bytes of the header that the source leaves uninitialised do not exist in this format; the result of `connected()` is one reading.
- Bytes that arrived but were not read when the client is stopped are dropped, as the Ethernet library does.
- Return values of `turnOn`, `turnOff` and `restart`, which are undefined on success.
- Power-up relay levels: `setRelayPin` writes none, so open relays and distinct pins are hypotheses of the constructor.
- Command dispatch in `arduino/main/main.ino`, which maps 0x51 to `turnOff` and 0x52 to `restart`, against its own comments.
- Dht22.Sensor.Read: real arithmetic stands for `float`, and the Fahrenheit value and the heat-index formulas are not part of the model.
- Flame, smoke and motion wrappers and the error handler, which add only easy members.

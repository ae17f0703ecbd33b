/**
 The hypotheses of the end-to-end theorem can be met: a run of the empty server in which two devices
 connect and register with the ping of an Arduino, and a message of one is handed to the other.
 */
module RelayWitness {
  import opened Bytes
  import opened Wire
  import opened WireProofs
  import opened Framing
  import opened RelayState
  import opened RelayInvariant
  import opened RelayDelivery
  import opened RelayReading
  import opened EndToEnd
  import RelayDefect

  // A device with its three threads, and a server that has two of them.
  datatype Half = Half(dev: Device, m: MainPc, t: SenderPc, r: ReceiverPc)

  datatype View = View(p: Half, q: Half, registry: map<Slot, nat>, locks: map<Lock, Thread>)

  function World(v: View): State {
    State([v.p.dev, v.q.dev], [v.p.m, v.q.m], [v.p.t, v.q.t], [v.p.r, v.q.r], v.registry, v.locks, {v.p.dev.fd, v.q.dev.fd}, [], 0, false)
  }

  function Nth(v: View, d: nat): Half {
    if d == 0 then v.p else v.q
  }

  function Put(v: View, d: nat, h: Half): View {
    if d == 0 then v.(p := h) else v.(q := h)
  }

  // The devices of the message's way: 0 is the source and 1 the peer, registered since `base`.
  datatype Setting = Setting(judge: Judge, base: Run)

  ghost predicate Path(x: Setting, run: Run, s: State, fs: seq<seq<byte>>) {
    && IsRun(run) && Last(run) == s && Genuine(x.judge, run)
    && Reads(x.judge, run, 0, fs)
    && (x.base.Start? || RegisteredThroughout(x.base, run, 1))
  }

  predicate Ready(x: Setting, v: View) {
    && v.p.dev.live && v.q.dev.live && (forall k <- v.registry :: v.registry[k] < 2)
    && (x.base.Start? || Registered(v.q.dev, v.q.r))
  }

  // ---------------------------------------------------------------- single steps

  lemma Goes(x: Setting, run: Run, s: State, a: Action, s': State, fs: seq<seq<byte>>) returns (run': Run)
    requires Path(x, run, s, fs) && Step(s, a, s') && (x.base.Start? || (Shaped(s) && IsRegistered(s, 1)))
    requires !a.Hear? && !a.Refuse?
    ensures Path(x, run', s', fs) && run'.Then? && Last(run'.before) == s
  {
    hide Step, IsRegistered;
    run' := Then(run, a, s');
  }

  // After a move of a thread of device d.
  function Affected(v: View, d: nat, effect: Effect, unlock: MaybeLock): View
    requires d < 2 && Target(effect, d) < 2
  {
    var e := Target(effect, d);
    Put(v, e, Nth(v, e).(dev := Written(Nth(v, e).dev, effect)))
      .(registry := RegistryAfter(v.registry, Nth(v, d).dev, effect, d), locks := LocksAfter(v.locks, unlock))
  }

  function AfterMain(v: View, d: nat, move: Move<MainPc>): View
    requires d < 2 && Target(move.effect, d) < 2
  {
    var w := Affected(v, d, move.effect, move.unlock);
    Put(w, d, Nth(w, d).(m := move.next, t := if move.effect.StartSender? then SStart else Nth(w, d).t,
                         r := if move.effect.StartReceiver? then RStart else Nth(w, d).r))
  }

  function AfterSender(v: View, d: nat, move: Move<SenderPc>): View
    requires d < 2 && Target(move.effect, d) < 2
  {
    var w := Affected(v, d, move.effect, move.unlock);
    Put(w, d, Nth(w, d).(t := move.next))
  }

  function AfterReceiver(v: View, d: nat, move: Move<ReceiverPc>): View
    requires d < 2 && Target(move.effect, d) < 2
  {
    var w := Affected(v, d, move.effect, move.unlock);
    Put(w, d, Nth(w, d).(r := move.next))
  }

  // No device is deleted by the effect.
  predicate Harmless(v: View, d: nat, effect: Effect) {
    Target(effect, d) < 2 && (effect.Release? ==> Nth(v, effect.e).dev.refs > 1)
  }

  lemma PerformedView(v: View, d: nat, effect: Effect, unlock: MaybeLock)
    requires d < 2 && Harmless(v, d, effect)
    ensures Perform(World(v), d, effect, unlock) == World(Affected(v, d, effect, unlock))
  {
    hide RegistryAfter, LocksAfter;
    var e := Target(effect, d);
    var dev := Written(Nth(v, e).dev, effect);
    assert World(v).devs[e := dev] == if e == 0 then [dev, v.q.dev] else [v.p.dev, dev];
  }

  ghost predicate Alive(v: View, t: Thread) {
    t.d < 2 && forall e <- Touched(World(v), t) :: e < 2
  }

  lemma Locks(x: Setting, run: Run, v: View, t: Thread, l: Lock, fs: seq<seq<byte>>) returns (run': Run)
    requires Path(x, run, World(v), fs) && Ready(x, v) && Alive(v, t)
    requires Wants(World(v), t) == Need(l) && l !in v.locks
    ensures Path(x, run', World(v.(locks := v.locks[l := t])), fs)
  {
    hide Path, Touched, Wants;
    run' := Goes(x, run, World(v), TakeLock(t), World(v.(locks := v.locks[l := t])), fs);
  }

  lemma MainMoves(x: Setting, run: Run, v: View, d: nat, move: Move<MainPc>, fs: seq<seq<byte>>) returns (run': Run)
    requires Path(x, run, World(v), fs) && Ready(x, v) && Alive(v, Main(d))
    requires move == MainMove(Nth(v, d).m, Nth(v, d).dev, d) && Harmless(v, d, move.effect)
    requires Runnable(World(v), Main(d)) && HasWanted(World(v), Main(d))
    ensures Path(x, run', World(AfterMain(v, d, move)), fs)
  {
    hide Path, Touched, MainMove;
    MainView(v, d, move);
    hide AfterMain;
    run' := Goes(x, run, World(v), Advance(Main(d)), World(AfterMain(v, d, move)), fs);
  }

  lemma MainView(v: View, d: nat, move: Move<MainPc>)
    requires d < 2 && Harmless(v, d, move.effect)
    ensures StepMain(World(v), d, move) == World(AfterMain(v, d, move))
  {
    PerformedView(v, d, move.effect, move.unlock);
    hide Perform, Written, RegistryAfter, LocksAfter;
    var s, s' := StepMain(World(v), d, move), World(AfterMain(v, d, move));
    assert s.mains == s'.mains;
    assert s.senders == s'.senders;
    assert s.receivers == s'.receivers;
  }

  lemma SenderMoves(x: Setting, run: Run, v: View, d: nat, move: Move<SenderPc>, fs: seq<seq<byte>>) returns (run': Run)
    requires Path(x, run, World(v), fs) && Ready(x, v) && Alive(v, Sender(d))
    requires move == SenderMove(Nth(v, d).t, Nth(v, d).dev, d) && Harmless(v, d, move.effect)
    requires Runnable(World(v), Sender(d)) && HasWanted(World(v), Sender(d))
    ensures Path(x, run', World(AfterSender(v, d, move)), fs)
  {
    hide Path, Touched, SenderMove;
    SenderView(v, d, move);
    hide AfterSender;
    run' := Goes(x, run, World(v), Advance(Sender(d)), World(AfterSender(v, d, move)), fs);
  }

  lemma SenderView(v: View, d: nat, move: Move<SenderPc>)
    requires d < 2 && Harmless(v, d, move.effect)
    ensures StepSender(World(v), d, move) == World(AfterSender(v, d, move))
  {
    PerformedView(v, d, move.effect, move.unlock);
    hide Perform, Written, RegistryAfter, LocksAfter;
    var s, s' := StepSender(World(v), d, move), World(AfterSender(v, d, move));
    assert s.senders == s'.senders;
  }

  lemma ReceiverMoves(x: Setting, run: Run, v: View, d: nat, move: Move<ReceiverPc>, fs: seq<seq<byte>>) returns (run': Run)
    requires Path(x, run, World(v), fs) && Ready(x, v) && Alive(v, Receiver(d))
    requires move == ReceiverMove(Nth(v, d).r, Nth(v, d).dev, d) && Harmless(v, d, move.effect)
    requires Runnable(World(v), Receiver(d)) && HasWanted(World(v), Receiver(d))
    ensures Path(x, run', World(AfterReceiver(v, d, move)), fs)
    ensures run'.Then? && Last(run'.before) == World(v)
  {
    hide Path, Touched, ReceiverMove;
    ReceiverView(v, d, move);
    hide AfterReceiver;
    run' := Goes(x, run, World(v), Advance(Receiver(d)), World(AfterReceiver(v, d, move)), fs);
  }

  lemma ReceiverView(v: View, d: nat, move: Move<ReceiverPc>)
    requires d < 2 && Harmless(v, d, move.effect)
    ensures StepReceiver(World(v), d, move) == World(AfterReceiver(v, d, move))
  {
    PerformedView(v, d, move.effect, move.unlock);
    hide Perform, Written, RegistryAfter, LocksAfter;
    var s, s' := StepReceiver(World(v), d, move), World(AfterReceiver(v, d, move));
    assert s.receivers == s'.receivers;
  }

  predicate Simple(pc: ReceiverPc) {
    pc.RStart? || pc.RStamp? || pc.RVerified? || pc.RPromote? || pc.RRegAcquire? || pc.RInsert? || pc.RRefresh?
  }

  // A receiver that carries no mutex takes the one it needs, moves and unlocks it.
  lemma ReceiverGoes(x: Setting, run: Run, v: View, d: nat, move: Move<ReceiverPc>, fs: seq<seq<byte>>) returns (run': Run)
    requires d < 2 && Path(x, run, World(v), fs) && Ready(x, v) && v.locks == map[]
    requires Simple(Nth(v, d).r) && move == ReceiverMove(Nth(v, d).r, Nth(v, d).dev, d)
    ensures Harmless(v, d, move.effect)
    ensures Path(x, run', World(AfterReceiver(v, d, move)), fs)
    ensures run'.Then? && Last(run'.before) == World(v.(locks := Last(run'.before).locks))
  {
    hide Path, AfterReceiver;
    var l := ReceiverWants(Nth(v, d).r, d).l;
    run' := Locks(x, run, v, Receiver(d), l, fs);
    var w := v.(locks := map[l := Receiver(d)]);
    run' := ReceiverMoves(x, run', w, d, move, fs);
    UnlockedView(v, w, d, move);
  }

  lemma UnlockedView(v: View, w: View, d: nat, move: Move<ReceiverPc>)
    requires d < 2 && Target(move.effect, d) < 2 && v.locks == map[] && move.unlock.Need?
    requires w == v.(locks := w.locks) && w.locks.Keys == {move.unlock.l}
    ensures AfterReceiver(w, d, move) == AfterReceiver(v, d, move)
  {
    assert LocksAfter(w.locks, move.unlock) == map[] == LocksAfter(v.locks, move.unlock);
  }

  lemma Hears(x: Setting, run: Run, v: View, d: nat, m: Message, fs: seq<seq<byte>>) returns (run': Run)
    requires d < 2 && Path(x, run, World(v), fs) && Ready(x, v) && Nth(v, d).r.RRead? && Touched(World(v), Receiver(d)) <= {d}
    requires m.networkId == 0 && HeardRightly(x.judge, m)
    ensures Path(x, run', World(AfterReceiver(v, d, Move(Log(m), NoLock, RVerified(m)))), if d == 0 then fs + [m.frame] else fs)
  {
    var move := Move(Log(m), NoLock, RVerified(m));
    ReceiverView(v, d, move);
    var s' := World(AfterReceiver(v, d, move));
    hide AfterReceiver, HeardRightly, Path, Touched;
    run' := Then(run, Hear(d, m), s');
    HearPath(x, run, World(v), d, m, s', fs);
  }

  lemma HearPath(x: Setting, run: Run, s: State, d: nat, m: Message, s': State, fs: seq<seq<byte>>)
    requires Path(x, run, s, fs) && Step(s, Hear(d, m), s') && HeardRightly(x.judge, m)
    requires x.base.Start? || (Shaped(s) && IsRegistered(s, 1))
    ensures Path(x, Then(run, Hear(d, m), s'), s', if d == 0 then fs + [m.frame] else fs)
  {
    hide Step, IsRegistered;
    assert (fs + [m.frame])[..|fs|] == fs;
  }

  // ---------------------------------------------------------------- both devices connect and register

  function Fresh(fd: int): Half {
    Half(Device(fd, 0, Initial, 0, true, [], [], [], []), MStart, SNone, RNone)
  }

  // Connected, with the three threads started and nothing read.
  function Started(fd: int): Half {
    Half(Device(fd, 0, Initial, 2, true, [], [], [], []), MPing, SStart, RRead)
  }

  // Registered by a ping.
  function Enlisted(fd: int): Half {
    Half(Device(fd, 0, Working, 3, true, [], [], [], []), MPing, SStart, RRefresh)
  }

  predicate AreFds(fd: int, fd': int) {
    0 <= fd < FD_LIMIT && 0 <= fd' < FD_LIMIT && fd != fd'
  }

  lemma {:induction false} SilentReads(judge: Judge, run: Run)
    requires RelayDefect.Silent(run)
    ensures Genuine(judge, run) && Reads(judge, run, 0, [])
  {
    if run.Then? {
      SilentReads(judge, run.before);
    }
  }

  lemma Accepted(fd: int, fd': int) returns (run: Run)
    requires AreFds(fd, fd')
    ensures IsRun(run) && Last(run) == INITIAL.(openFds := {fd, fd'}, accepted := [fd, fd'], draining := true)
    ensures RelayDefect.Silent(run)
  {
    var s1 := INITIAL.(openFds := {fd'}, accepted := [fd']);
    var s2 := INITIAL.(openFds := {fd, fd'}, accepted := [fd, fd']);
    assert Step(Last(Start), Accept(fd'), s1) by {
      assert Last(Start) == INITIAL;
    }
    assert Step(s1, Accept(fd), s2);
    assert Step(s2, BeginHandOff, s2.(draining := true));
    assert IsRun(Start);
    run := Then(Start, Accept(fd'), s1);
    assert IsRun(run) && RelayDefect.Silent(run);
    run := Then(run, Accept(fd), s2);
    assert IsRun(run) && RelayDefect.Silent(run);
    run := Then(run, BeginHandOff, s2.(draining := true));
  }

  lemma HandedOver(x: Setting, fd: int, fd': int) returns (run: Run)
    requires AreFds(fd, fd') && x.base.Start?
    ensures Path(x, run, World(View(Fresh(fd), Fresh(fd'), map[], map[])), [])
  {
    run := Accepted(fd, fd');
    SilentReads(x.judge, run);
    hide IsRun, Genuine, Reads;
    var s := INITIAL.(openFds := {fd, fd'}, accepted := [fd, fd'], draining := true);
    assert Path(x, run, s, []);
    hide Path;
    var a := Fresh(fd);
    var s1 := s.(devs := [a.dev], mains := [MStart], senders := [SNone], receivers := [RNone], cursor := 1);
    run := Goes(x, run, s, HandOver, s1, []);
    var w := World(View(a, Fresh(fd'), map[], map[]));
    var s2 := w.(accepted := [fd, fd'], cursor := 2, draining := true);
    run := Goes(x, run, s1, HandOver, s2, []);
    run := Goes(x, run, s2, EndHandOff, w, []);
  }

  lemma MainAcquires(x: Setting, run0: Run, v0: View, d: nat, fd: int, fs: seq<seq<byte>>) returns (run: Run, v: View)
    requires d < 2 && Path(x, run0, World(v0), fs) && Ready(x, v0) && v0.locks == map[] && x.base.Start?
    requires Nth(v0, d) == Fresh(fd)
    ensures v == Put(v0, d, Half(Fresh(fd).dev.(refs := 1), MSpawnSender, SNone, RNone)) && Path(x, run, World(v), fs)
  {
    hide Path;
    run := Locks(x, run0, v0, Main(d), Items(d), fs);
    v := v0.(locks := map[Items(d) := Main(d)]);
    run := MainMoves(x, run, v, d, Move(Acquire(d), Need(Items(d)), MSpawnSender), fs);
    assert v.locks - {Items(d)} == map[];
    v := Put(v0, d, Half(Fresh(fd).dev.(refs := 1), MSpawnSender, SNone, RNone));
  }

  lemma MainStarts(x: Setting, run0: Run, v0: View, d: nat, fd: int, fs: seq<seq<byte>>) returns (run: Run, v: View)
    requires d < 2 && Path(x, run0, World(v0), fs) && Ready(x, v0) && v0.locks == map[] && x.base.Start?
    requires Nth(v0, d) == Fresh(fd)
    ensures v == Put(v0, d, Half(Fresh(fd).dev.(refs := 1), MPing, SStart, RStart)) && Path(x, run, World(v), fs)
  {
    hide Path;
    run, v := MainAcquires(x, run0, v0, d, fd, fs);
    var h := Nth(v, d);
    run := MainMoves(x, run, v, d, Move(StartSender, NoLock, MSpawnReceiver), fs);
    v := Put(v0, d, h.(m := MSpawnReceiver, t := SStart));
    run := MainMoves(x, run, v, d, Move(StartReceiver, NoLock, MPing), fs);
    v := Put(v0, d, h.(m := MPing, t := SStart, r := RStart));
  }

  lemma Starts(x: Setting, run0: Run, v0: View, d: nat, fd: int, fs: seq<seq<byte>>) returns (run: Run, v: View)
    requires d < 2 && Path(x, run0, World(v0), fs) && Ready(x, v0) && v0.locks == map[] && x.base.Start?
    requires Nth(v0, d) == Fresh(fd)
    ensures v == Put(v0, d, Started(fd)) && Path(x, run, World(v), fs)
  {
    hide Path;
    var items := Need(Items(d));
    run, v := MainStarts(x, run0, v0, d, fd, fs);
    var h := Nth(v, d);
    run := ReceiverGoes(x, run, v, d, Move(Acquire(d), items, RStamp), fs);
    v := Put(v0, d, h.(dev := h.dev.(refs := 2), r := RStamp));
    run := ReceiverGoes(x, run, v, d, Move(Nothing, items, RRead), fs);
    v := Put(v0, d, Started(fd));
  }

  // The ping of an Arduino on network 0.
  function PingOf(c: Crypto, keys: Keys): seq<byte> {
    Encode(c, keys, 0, 0, [])
  }

  lemma PingIsHeard(c: Crypto, keys: Keys)
    ensures HeardRightly(ServerJudge(c, keys.server), Message(0, PingOf(c, keys), true))
  {
    hide Encode, ServerVerdict;
    ArduinoPing(c, keys, 0);
  }

  lemma Promoted(x: Setting, run0: Run, v0: View, d: nat, fd: int, m: Message, fs: seq<seq<byte>>) returns (run: Run, v: View)
    requires d < 2 && Path(x, run0, World(v0), fs) && Ready(x, v0) && v0.locks == map[] && x.base.Start? && m.networkId == 0
    requires Nth(v0, d) == Started(fd).(r := RVerified(m))
    ensures v == Put(v0, d, Half(Started(fd).dev.(connection := Working), MPing, SStart, RRegAcquire(m)))
    ensures Path(x, run, World(v), fs)
  {
    hide Path;
    var items, h := Need(Items(d)), Started(fd);
    run := ReceiverGoes(x, run0, v0, d, Move(Nothing, items, RPromote(m)), fs);
    v := Put(v0, d, h.(r := RPromote(m)));
    run := ReceiverGoes(x, run, v, d, Move(Promote(0), items, RRegAcquire(m)), fs);
    v := Put(v0, d, Half(h.dev.(connection := Working), MPing, SStart, RRegAcquire(m)));
  }

  lemma Inserted(x: Setting, run0: Run, v0: View, d: nat, fd: int, m: Message, fs: seq<seq<byte>>) returns (run: Run, v: View)
    requires d < 2 && Path(x, run0, World(v0), fs) && Ready(x, v0) && v0.locks == map[] && x.base.Start? && m.isPing
    requires Nth(v0, d) == Half(Started(fd).dev.(connection := Working), MPing, SStart, RRegAcquire(m)) && Slot(0, fd) !in v0.registry
    ensures v == Put(v0, d, Enlisted(fd)).(registry := v0.registry[Slot(0, fd) := d])
    ensures Path(x, run, World(v), fs) && JustRegistered(run, d)
  {
    hide Path;
    var h := Nth(v0, d);
    run := ReceiverGoes(x, run0, v0, d, Move(Acquire(d), Need(Items(d)), RInsert(m)), fs);
    v := Put(v0, d, h.(dev := h.dev.(refs := 3), r := RInsert(m)));
    run := ReceiverGoes(x, run, v, d, Move(Insert, Need(Registry), RRefresh), fs);
    ghost var w := v.(locks := Last(run.before).locks);
    v := Put(v0, d, Enlisted(fd)).(registry := v0.registry[Slot(0, fd) := d]);
    EndsIn(x, run, World(v), fs);
    hide AfterReceiver, IsRun, Genuine, Reads, Ready;
    InsertedNow(run, w, v, d);
  }

  lemma InsertedNow(run: Run, w: View, v: View, d: nat)
    requires d < 2 && run.Then? && Last(run.before) == World(w) && Last(run) == World(v)
    requires Nth(w, d).r.RInsert? && Nth(v, d).r.RRefresh? && Nth(v, d).dev.connection.Working?
    ensures JustRegistered(run, d)
  {
  }

  lemma Enlists(x: Setting, run0: Run, v0: View, d: nat, fd: int, f: seq<byte>, fs: seq<seq<byte>>) returns (run: Run, v: View)
    requires d < 2 && Path(x, run0, World(v0), fs) && Ready(x, v0) && v0.locks == map[] && x.base.Start?
    requires Nth(v0, d) == Started(fd) && Slot(0, fd) !in v0.registry && HeardRightly(x.judge, Message(0, f, true))
    ensures v == Put(v0, d, Enlisted(fd)).(registry := v0.registry[Slot(0, fd) := d])
    ensures Path(x, run, World(v), if d == 0 then fs + [f] else fs) && JustRegistered(run, d)
  {
    hide Path, HeardRightly, JustRegistered;
    var m, gs := Message(0, f, true), if d == 0 then fs + [f] else fs;
    run := Hears(x, run0, v0, d, m, fs);
    v := Put(v0, d, Started(fd).(r := RVerified(m)));
    run, v := Promoted(x, run, v, d, fd, m, gs);
    run, v := Inserted(x, run, v, d, fd, m, gs);
  }

  lemma EndsIn(x: Setting, run: Run, s: State, fs: seq<seq<byte>>)
    requires Path(x, run, s, fs)
    ensures IsRun(run) && Last(run) == s && Genuine(x.judge, run)
    ensures Reads(x.judge, run, 0, fs)
    ensures x.base.Start? || RegisteredThroughout(x.base, run, 1)
  {
  }

  function BothSlots(fd: int, fd': int): map<Slot, nat> {
    map[Slot(0, fd) := 0, Slot(0, fd') := 1]
  }

  // The source registers first, and the peer last.
  lemma BothEnlist(c: Crypto, keys: Keys, fd: int, fd': int) returns (run: Run)
    requires AreFds(fd, fd')
    ensures Path(Setting(ServerJudge(c, keys.server), Start), run, World(View(Enlisted(fd), Enlisted(fd'), BothSlots(fd, fd'), map[])), [PingOf(c, keys)])
    ensures JustRegistered(run, 1)
  {
    hide Path, PingOf, HeardRightly, ServerJudge;
    var x, v := Setting(ServerJudge(c, keys.server), Start), View(Fresh(fd), Fresh(fd'), map[], map[]);
    PingIsHeard(c, keys);
    run := HandedOver(x, fd, fd');
    run, v := Starts(x, run, v, 0, fd, []);
    run, v := Starts(x, run, v, 1, fd', []);
    run, v := Enlists(x, run, v, 0, fd, PingOf(c, keys), []);
    assert [] + [PingOf(c, keys)] == [PingOf(c, keys)];
    run, v := Enlists(x, run, v, 1, fd', PingOf(c, keys), [PingOf(c, keys)]);
  }

  // ---------------------------------------------------------------- one message

  // The relay while the source broadcasts m: everybody else is as after the registration.
  function Broadcasting(fd: int, fd': int, heard: seq<Frame>, r: ReceiverPc, refs: uint32, refs': uint32,
                        sent: seq<Entry>, sent': seq<Entry>, locks: map<Lock, Thread>): View {
    View(Half(Device(fd, 0, Working, refs, true, sent, sent, [], heard), MPing, SStart, r),
         Half(Device(fd', 0, Working, refs', true, sent', sent', [], []), MPing, SStart, RRefresh), BothSlots(fd, fd'), locks)
  }

  lemma HearsMessage(x: Setting, run0: Run, fd: int, fd': int, f: seq<byte>, fs: seq<seq<byte>>) returns (run: Run)
    requires HeardRightly(x.judge, Message(0, f, false))
    requires Path(x, run0, World(Broadcasting(fd, fd', [], RRefresh, 3, 3, [], [], map[])), fs)
    ensures Path(x, run, World(Broadcasting(fd, fd', [f], RBroadcast(Message(0, f, false)), 3, 3, [], [], map[])), fs + [f])
  {
    hide Path, HeardRightly;
    var m, items := Message(0, f, false), Need(Items(0));
    run := ReceiverGoes(x, run0, Broadcasting(fd, fd', [], RRefresh, 3, 3, [], [], map[]), 0, Move(Nothing, items, RRead), fs);
    run := Hears(x, run, Broadcasting(fd, fd', [], RRead, 3, 3, [], [], map[]), 0, m, fs);
    assert [] + [f] == [f];
    run := ReceiverGoes(x, run, Broadcasting(fd, fd', [f], RVerified(m), 3, 3, [], [], map[]), 0, Move(Nothing, items, RBroadcast(m)), fs + [f]);
  }

  lemma Picks(x: Setting, run: Run, v: View, m: Message, taken: seq<nat>, e: nat, k: Slot, fs: seq<seq<byte>>) returns (run': Run)
    requires Path(x, run, World(v), fs) && Ready(x, v) && v.p.r == RCollect(m, taken) && m.networkId == 0
    requires k in v.registry && k.networkId == 0 && v.registry[k] == e && e !in taken
    ensures Path(x, run', World(v.(p := v.p.(r := RTake(m, taken, e)))), fs)
  {
    hide Path;
    var move := Move(Nothing, NoLock, RTake(m, taken, e));
    ReceiverView(v, 0, move);
    assert IsMember(World(v), 0, e);
    assert Alive(v, Receiver(0));
    hide Touched, IsMember;
    run' := Goes(x, run, World(v), Pick(0, e), World(AfterReceiver(v, 0, move)), fs);
  }

  // The snapshot is taken: first the source itself, then the peer.
  lemma Collects(x: Setting, run0: Run, fd: int, fd': int, f: seq<byte>, fs: seq<seq<byte>>) returns (run: Run)
    requires fd != fd' && Path(x, run0, World(Broadcasting(fd, fd', [f], RBroadcast(Message(0, f, false)), 3, 3, [], [], map[])), fs)
    ensures Path(x, run, World(Broadcasting(fd, fd', [f], RCollect(Message(0, f, false), [0]), 4, 3, [], [], map[Registry := Receiver(0)])), fs)
  {
    hide Path;
    var m, locks := Message(0, f, false), map[Registry := Receiver(0)];
    run := Locks(x, run0, Broadcasting(fd, fd', [f], RBroadcast(m), 3, 3, [], [], map[]), Receiver(0), Registry, fs);
    run := ReceiverMoves(x, run, Broadcasting(fd, fd', [f], RBroadcast(m), 3, 3, [], [], locks), 0, Move(Nothing, NoLock, RCollect(m, [])), fs);
    run := Picks(x, run, Broadcasting(fd, fd', [f], RCollect(m, []), 3, 3, [], [], locks), m, [], 0, Slot(0, fd), fs);
    run := Locks(x, run, Broadcasting(fd, fd', [f], RTake(m, [], 0), 3, 3, [], [], locks), Receiver(0), Items(0), fs);
    assert [] + [0] == [0];
    run := ReceiverMoves(x, run, Broadcasting(fd, fd', [f], RTake(m, [], 0), 3, 3, [], [], locks[Items(0) := Receiver(0)]), 0,
                         Move(Acquire(0), Need(Items(0)), RCollect(m, [0])), fs);
    assert locks[Items(0) := Receiver(0)] - {Items(0)} == locks;
  }

  lemma CollectsPeer(x: Setting, run0: Run, fd: int, fd': int, f: seq<byte>, fs: seq<seq<byte>>) returns (run: Run)
    requires fd != fd' && Path(x, run0, World(Broadcasting(fd, fd', [f], RCollect(Message(0, f, false), [0]), 4, 3, [], [], map[Registry := Receiver(0)])), fs)
    ensures Path(x, run, World(Broadcasting(fd, fd', [f], RSend(Message(0, f, false), [0, 1]), 4, 4, [], [], map[])), fs)
  {
    hide Path;
    var m, locks := Message(0, f, false), map[Registry := Receiver(0)];
    run := Picks(x, run0, Broadcasting(fd, fd', [f], RCollect(m, [0]), 4, 3, [], [], locks), m, [0], 1, Slot(0, fd'), fs);
    run := Locks(x, run, Broadcasting(fd, fd', [f], RTake(m, [0], 1), 4, 3, [], [], locks), Receiver(0), Items(1), fs);
    assert [0] + [1] == [0, 1];
    run := ReceiverMoves(x, run, Broadcasting(fd, fd', [f], RTake(m, [0], 1), 4, 3, [], [], locks[Items(1) := Receiver(0)]), 0,
                         Move(Acquire(1), Need(Items(1)), RCollect(m, [0, 1])), fs);
    assert locks[Items(1) := Receiver(0)] - {Items(1)} == locks;
    run := ReceiverMoves(x, run, Broadcasting(fd, fd', [f], RCollect(m, [0, 1]), 4, 4, [], [], locks), 0, Move(Nothing, Need(Registry), RSend(m, [0, 1])), fs);
    assert locks - {Registry} == map[];
  }

  lemma PostsToSource(x: Setting, run0: Run, fd: int, fd': int, f: seq<byte>, fs: seq<seq<byte>>) returns (run: Run)
    requires Path(x, run0, World(Broadcasting(fd, fd', [f], RSend(Message(0, f, false), [0, 1]), 4, 4, [], [], map[])), fs)
    ensures Path(x, run, World(Broadcasting(fd, fd', [f], RDrop(Message(0, f, false), 0, [1]), 4, 4, [Forwarded(0, f)], [], map[Outbox(0) := Receiver(0)])), fs)
  {
    hide Path;
    var m, locks, todo, entry := Message(0, f, false), map[Outbox(0) := Receiver(0)], [0, 1], Forwarded(0, f);
    assert todo[1..] == [1] && [] + [entry] == [entry];
    run := Locks(x, run0, Broadcasting(fd, fd', [f], RSend(m, todo), 4, 4, [], [], map[]), Receiver(0), Outbox(0), fs);
    run := ReceiverMoves(x, run, Broadcasting(fd, fd', [f], RSend(m, todo), 4, 4, [], [], locks), 0, Move(Post(0, entry), NoLock, RDrop(m, 0, [1])), fs);
  }

  lemma DropsSource(x: Setting, run0: Run, fd: int, fd': int, f: seq<byte>, sent: seq<Entry>, fs: seq<seq<byte>>) returns (run: Run)
    requires Path(x, run0, World(Broadcasting(fd, fd', [f], RDrop(Message(0, f, false), 0, [1]), 4, 4, sent, [], map[Outbox(0) := Receiver(0)])), fs)
    ensures Path(x, run, World(Broadcasting(fd, fd', [f], RSend(Message(0, f, false), [1]), 3, 4, sent, [], map[])), fs)
  {
    hide Path;
    var m, locks := Message(0, f, false), map[Outbox(0) := Receiver(0)];
    run := Locks(x, run0, Broadcasting(fd, fd', [f], RDrop(m, 0, [1]), 4, 4, sent, [], locks), Receiver(0), Items(0), fs);
    run := ReceiverMoves(x, run, Broadcasting(fd, fd', [f], RDrop(m, 0, [1]), 4, 4, sent, [], locks[Items(0) := Receiver(0)]), 0,
                         Move(Release(0), Need(Items(0)), RSignal(m, 0, [1])), fs);
    assert locks[Items(0) := Receiver(0)] - {Items(0)} == locks;
    run := ReceiverMoves(x, run, Broadcasting(fd, fd', [f], RSignal(m, 0, [1]), 3, 4, sent, [], locks), 0, Move(Nothing, Need(Outbox(0)), RSend(m, [1])), fs);
    assert locks - {Outbox(0)} == map[];
  }

  lemma PostsToPeer(x: Setting, run0: Run, fd: int, fd': int, f: seq<byte>, sent: seq<Entry>, fs: seq<seq<byte>>) returns (run: Run)
    requires Path(x, run0, World(Broadcasting(fd, fd', [f], RSend(Message(0, f, false), [1]), 3, 4, sent, [], map[])), fs)
    ensures Path(x, run, World(Broadcasting(fd, fd', [f], RDrop(Message(0, f, false), 1, []), 3, 4, sent, [Forwarded(0, f)], map[Outbox(1) := Receiver(0)])), fs)
  {
    hide Path;
    var m, locks, todo: seq<nat>, entry := Message(0, f, false), map[Outbox(1) := Receiver(0)], [1], Forwarded(0, f);
    assert todo[1..] == [] && [] + [entry] == [entry];
    run := Locks(x, run0, Broadcasting(fd, fd', [f], RSend(m, todo), 3, 4, sent, [], map[]), Receiver(0), Outbox(1), fs);
    run := ReceiverMoves(x, run, Broadcasting(fd, fd', [f], RSend(m, todo), 3, 4, sent, [], locks), 0, Move(Post(1, entry), NoLock, RDrop(m, 1, [])), fs);
  }

  lemma DropsPeer(x: Setting, run0: Run, fd: int, fd': int, f: seq<byte>, sent: seq<Entry>, fs: seq<seq<byte>>) returns (run: Run)
    requires Path(x, run0, World(Broadcasting(fd, fd', [f], RDrop(Message(0, f, false), 1, []), 3, 4, sent, sent, map[Outbox(1) := Receiver(0)])), fs)
    ensures Path(x, run, World(Broadcasting(fd, fd', [f], RRefresh, 3, 3, sent, sent, map[])), fs)
  {
    hide Path;
    var m, locks := Message(0, f, false), map[Outbox(1) := Receiver(0)];
    run := Locks(x, run0, Broadcasting(fd, fd', [f], RDrop(m, 1, []), 3, 4, sent, sent, locks), Receiver(0), Items(1), fs);
    run := ReceiverMoves(x, run, Broadcasting(fd, fd', [f], RDrop(m, 1, []), 3, 4, sent, sent, locks[Items(1) := Receiver(0)]), 0,
                         Move(Release(1), Need(Items(1)), RSignal(m, 1, [])), fs);
    assert locks[Items(1) := Receiver(0)] - {Items(1)} == locks;
    run := ReceiverMoves(x, run, Broadcasting(fd, fd', [f], RSignal(m, 1, []), 3, 3, sent, sent, locks), 0, Move(Nothing, Need(Outbox(1)), RSend(m, [])), fs);
    assert locks - {Outbox(1)} == map[];
    run := ReceiverMoves(x, run, Broadcasting(fd, fd', [f], RSend(m, []), 3, 3, sent, sent, map[]), 0, Move(Nothing, NoLock, RRefresh), fs);
  }

  // ---------------------------------------------------------------- the peer's sender

  function Sending(v: View, t: SenderPc, refs: uint32, outbox: seq<Entry>, handed: seq<Entry>, locks: map<Lock, Thread>): View {
    v.(q := v.q.(t := t, dev := v.q.dev.(refs := refs, outbox := outbox, handed := handed)), locks := locks)
  }

  lemma SenderStarts(x: Setting, run0: Run, v: View, entry: Entry, fs: seq<seq<byte>>) returns (run: Run)
    requires Ready(x, v) && Path(x, run0, World(Sending(v, SStart, 3, [entry], [], map[])), fs)
    ensures Path(x, run, World(Sending(v, SWaiting, 4, [entry], [], map[])), fs)
  {
    hide Path;
    var items, outbox := map[Items(1) := Sender(1)], map[Outbox(1) := Sender(1)];
    run := Locks(x, run0, Sending(v, SStart, 3, [entry], [], map[]), Sender(1), Items(1), fs);
    run := SenderMoves(x, run, Sending(v, SStart, 3, [entry], [], items), 1, Move(Acquire(1), Need(Items(1)), SLock), fs);
    assert items - {Items(1)} == map[];
    run := Locks(x, run, Sending(v, SLock, 4, [entry], [], map[]), Sender(1), Outbox(1), fs);
    run := SenderMoves(x, run, Sending(v, SLock, 4, [entry], [], outbox), 1, Move(Nothing, Need(Outbox(1)), SWaiting), fs);
    assert outbox - {Outbox(1)} == map[];
  }

  lemma SenderWakes(x: Setting, run0: Run, v: View, entry: Entry, fs: seq<seq<byte>>) returns (run: Run)
    requires Ready(x, v) && Path(x, run0, World(Sending(v, SWaiting, 4, [entry], [], map[])), fs)
    ensures Path(x, run, World(Sending(v, SDrain(0, 1), 4, [entry], [], map[Outbox(1) := Sender(1)])), fs)
  {
    hide Path;
    run := Locks(x, run0, Sending(v, SWaiting, 4, [entry], [], map[]), Sender(1), Outbox(1), fs);
    run := SenderMoves(x, run, Sending(v, SWaiting, 4, [entry], [], map[Outbox(1) := Sender(1)]), 1, Move(Nothing, NoLock, SDrain(0, 1)), fs);
  }

  lemma SenderSends(x: Setting, run0: Run, v: View, entry: Entry, fs: seq<seq<byte>>) returns (run: Run)
    requires Ready(x, v) && Path(x, run0, World(Sending(v, SDrain(0, 1), 4, [entry], [], map[Outbox(1) := Sender(1)])), fs)
    ensures Path(x, run, World(Sending(v, SPoll, 4, [], [entry], map[])), fs)
  {
    hide Path;
    var outbox := map[Outbox(1) := Sender(1)];
    assert [] + [entry] == [entry];
    run := SenderMoves(x, run0, Sending(v, SDrain(0, 1), 4, [entry], [], outbox), 1, Move(Hand(0), NoLock, SDrain(1, 1)), fs);
    run := SenderMoves(x, run, Sending(v, SDrain(1, 1), 4, [entry], [entry], outbox), 1, Move(Clear, Need(Outbox(1)), SPoll), fs);
    assert outbox - {Outbox(1)} == map[];
  }

  // ---------------------------------------------------------------- the whole run

  // A message of any type that is not taken for a ping.
  predicate Sendable(c: Crypto, keys: Keys, t: Typed) {
    |t.payload| <= MAX_PAYLOAD && !PassesForPing(c, keys, 0, t.messageType, t.payload)
  }

  lemma HearsRightly(c: Crypto, keys: Keys, t: Typed)
    requires Sendable(c, keys, t)
    ensures HeardRightly(ServerJudge(c, keys.server), Message(0, Encode(c, keys, 0, t.messageType, t.payload), false))
  {
    hide Encode, ServerVerdict;
    VerdictOnEncode(c, keys, 0, t.messageType, t.payload);
  }

  lemma OneFrame(c: Crypto, keys: Keys, t: Typed)
    requires Sendable(c, keys, t)
    ensures Frames(Concat(EncodeAll(c, keys, [t]))) == [Encode(c, keys, 0, t.messageType, t.payload)]
    ensures IsFrame(Encode(c, keys, 0, t.messageType, t.payload))
  {
    hide Encode, Broadcasts, Frames, IsFrame;
    FirstHop(c, keys, [t]);
    VerdictOnEncode(c, keys, 0, t.messageType, t.payload);
    var ts := [t];
    assert ts[1..] == [];
  }

  lemma Rebased(judge: Judge, run: Run, s: State, fs: seq<seq<byte>>)
    requires Path(Setting(judge, Start), run, s, fs)
    ensures Path(Setting(judge, run), run, s, fs)
  {
  }

  lemma Forwards(judge: Judge, run: Run, fd: int, fd': int, f: seq<byte>, fs: seq<seq<byte>>) returns (later: Run, v: View)
    requires AreFds(fd, fd') && HeardRightly(judge, Message(0, f, false))
    requires Path(Setting(judge, Start), run, World(View(Enlisted(fd), Enlisted(fd'), BothSlots(fd, fd'), map[])), fs)
    ensures Path(Setting(judge, run), later, World(v), fs + [f])
    ensures v.p.r == RRefresh && v.q.t == SPoll && v.q.dev.outbox == [] && v.q.dev.handed == [Forwarded(0, f)]
  {
    hide Path, HeardRightly;
    var x, gs, entry := Setting(judge, run), fs + [f], Forwarded(0, f);
    Rebased(judge, run, World(View(Enlisted(fd), Enlisted(fd'), BothSlots(fd, fd'), map[])), fs);
    later := HearsMessage(x, run, fd, fd', f, fs);
    later := Collects(x, later, fd, fd', f, gs);
    later := CollectsPeer(x, later, fd, fd', f, gs);
    later := PostsToSource(x, later, fd, fd', f, gs);
    later := DropsSource(x, later, fd, fd', f, [entry], gs);
    later := PostsToPeer(x, later, fd, fd', f, [entry], gs);
    later := DropsPeer(x, later, fd, fd', f, [entry], gs);
    v := Broadcasting(fd, fd', [f], RRefresh, 3, 3, [entry], [entry], map[]);
    assert Sending(v, SStart, 3, [entry], [], map[]) == v;
    later := SenderStarts(x, later, v, entry, gs);
    later := SenderWakes(x, later, v, entry, gs);
    later := SenderSends(x, later, v, entry, gs);
    v := Sending(v, SPoll, 4, [], [entry], map[]);
  }

  // Every message that is not a ping can travel from one device to another by a run that meets the
  // hypotheses of the end-to-end theorem and leaves nothing behind.
  lemma ForwardingHappens(c: Crypto, keys: Keys, t: Typed, fd: int, fd': int) returns (run: Run, later: Run)
    requires Sendable(c, keys, t) && AreFds(fd, fd')
    ensures JustRegistered(run, 1) && RegisteredThroughout(run, later, 1)
    ensures Meanwhile(ServerJudge(c, keys.server), run, later, 0, [PingOf(c, keys)], Frames(Concat(EncodeAll(c, keys, [t]))))
    ensures Idle(run, 0, 1) && Idle(later, 0, 1) && Unsent(later, 1) == []
    ensures |Last(later).devs| == 2
            && Last(later).devs[1].handed == [Forwarded(0, Encode(c, keys, 0, t.messageType, t.payload))]
  {
    hide IsRun, Path, PingOf, Encode, ServerJudge, HeardRightly, Genuine, Reads, JustRegistered, RegisteredThroughout, Frames, EncodeAll, IsFrame;
    var f, fs := Encode(c, keys, 0, t.messageType, t.payload), [PingOf(c, keys)];
    var v;
    run := BothEnlist(c, keys, fd, fd');
    HearsRightly(c, keys, t);
    OneFrame(c, keys, t);
    later, v := Forwards(ServerJudge(c, keys.server), run, fd, fd', f, fs);
    EndsIn(Setting(ServerJudge(c, keys.server), Start), run, World(View(Enlisted(fd), Enlisted(fd'), BothSlots(fd, fd'), map[])), fs);
    EndsIn(Setting(ServerJudge(c, keys.server), run), later, World(v), fs + [f]);
  }
}

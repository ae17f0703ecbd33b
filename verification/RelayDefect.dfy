/**
 The lifetime scheme relies on scheduling: a run of the server in which the sender thread of a
 connection is delayed until its device has been deleted.
 */
module RelayDefect {
  import opened RelayState
  import opened RelaySafety

  // One connected device and nothing else.
  function Solo(dev: Device, m: MainPc, t: SenderPc, r: ReceiverPc): State {
    State([dev], [m], [t], [r], map[], map[], if dev.live then {dev.fd} else {}, [], 0, false)
  }

  // Nothing has been read from any connection.
  predicate Silent(run: Run) {
    run.Then? ==> Silent(run.before) && !run.a.Hear? && !run.a.Refuse?
  }

  ghost predicate Reaches(run: Run, dev: Device, m: MainPc, t: SenderPc, r: ReceiverPc) {
    IsRun(run) && Silent(run) && Last(run) == Solo(dev, m, t, r)
  }

  lemma Connects(fd: int) returns (run: Run)
    requires 0 <= fd < FD_LIMIT
    ensures Reaches(run, Device(fd, 0, Initial, 0, true, [], [], [], []), MStart, SNone, RNone)
  {
    var s1 := INITIAL.(openFds := {fd}, accepted := [fd]);
    var s2 := s1.(draining := true);
    var s3 := Solo(Device(fd, 0, Initial, 0, true, [], [], [], []), MStart, SNone, RNone)
              .(accepted := [fd], cursor := 1, draining := true);
    assert Step(Last(Start), Accept(fd), s1) by {
      assert Last(Start) == INITIAL;
    }
    var run1 := Then(Start, Accept(fd), s1);
    assert IsRun(Start) && IsRun(run1);
    var run2 := Then(run1, BeginHandOff, s2);
    assert Step(s1, BeginHandOff, s2);
    assert IsRun(run2) && Silent(run2);
    var run3 := Then(run2, HandOver, s3);
    assert Step(s2, HandOver, s3);
    assert IsRun(run3);
    run := Then(run3, EndHandOff, s3.(accepted := [], cursor := 0, draining := false));
    assert Step(s3, EndHandOff, run.s);
  }

  // A thread that needs a free mutex takes it, moves and unlocks it.
  lemma MainGoes(run: Run, dev: Device, m: MainPc, t: SenderPc, r: ReceiverPc, move: Move<MainPc>) returns (run': Run)
    requires Reaches(run, dev, m, t, r) && dev.live && move == MainMove(m, dev, 0) && !m.MDone?
    requires move.unlock.Need? && move.unlock == MainWants(m, 0)
    requires Target(move.effect, 0) == 0 && !move.effect.StartSender? && !move.effect.StartReceiver?
    requires !move.effect.Insert? && !move.effect.Erase?
    ensures Reaches(run', Written(dev, move.effect), move.next, t, r)
  {
    var s := Last(run);
    var s1 := s.(locks := map[move.unlock.l := Main(0)]);
    assert Step(s, TakeLock(Main(0)), s1);
    var run1 := Then(run, TakeLock(Main(0)), s1);
    assert IsRun(run1);
    var s2 := StepMain(s1, 0, move);
    assert Step(s1, Advance(Main(0)), s2);
    run' := Then(run1, Advance(Main(0)), s2);
    assert s2.locks == map[];
  }

  lemma MainSpawns(run: Run, dev: Device) returns (run': Run)
    requires Reaches(run, dev, MSpawnSender, SNone, RNone) && dev.live
    ensures Reaches(run', dev, MPing, SStart, RStart)
  {
    var s1 := Solo(dev, MSpawnReceiver, SStart, RNone);
    var run1 := Then(run, Advance(Main(0)), s1);
    assert IsRun(run1);
    run' := Then(run1, Advance(Main(0)), Solo(dev, MPing, SStart, RStart));
  }

  lemma ReceiverGoes(run: Run, dev: Device, m: MainPc, t: SenderPc, r: ReceiverPc, move: Move<ReceiverPc>) returns (run': Run)
    requires Reaches(run, dev, m, t, r) && dev.live && move == ReceiverMove(r, dev, 0)
    requires !r.RNone? && !r.RDone? && !r.RRead? && !r.RCollect? && !r.RTake? && !r.RSend? && !r.RDrop?
    requires move.unlock.Need? && move.unlock == ReceiverWants(r, 0)
    requires Target(move.effect, 0) == 0 && !move.effect.Insert? && !move.effect.Erase?
    ensures Reaches(run', Written(dev, move.effect), m, t, move.next)
  {
    run' := ReceiverLocksAndMoves(run, Last(run), r, move);
  }

  lemma ReceiverLocksAndMoves(run: Run, s: State, r: ReceiverPc, move: Move<ReceiverPc>) returns (run': Run)
    requires IsRun(run) && Silent(run) && Last(run) == s && |s.devs| == 1 && s.receivers == [r] && s.locks == map[] && Live(s, 0)
    requires s.registry == map[]
    requires !r.RNone? && !r.RDone? && !r.RRead? && !r.RCollect? && !r.RTake? && !r.RSend? && !r.RDrop?
    requires move == ReceiverMove(r, s.devs[0], 0)
    requires move.unlock.Need? && move.unlock == ReceiverWants(r, 0) && Target(move.effect, 0) == 0
    ensures IsRun(run') && Silent(run') && Last(run') == StepReceiver(s, 0, move).(locks := map[])
  {
    var s1 := s.(locks := map[move.unlock.l := Receiver(0)]);
    hide ReceiverMove, ReceiverWants;
    assert Touched(s, Receiver(0)) == Touched(s1, Receiver(0)) == {0};
    hide Touched;
    assert Step(s, TakeLock(Receiver(0)), s1);
    var run1 := Then(run, TakeLock(Receiver(0)), s1);
    assert IsRun(run1);
    var s2 := StepReceiver(s1, 0, move);
    assert Step(s1, Advance(Receiver(0)), s2);
    run' := Then(run1, Advance(Receiver(0)), s2);
    assert s2.locks == map[];
  }

  lemma ReceiverHangsUp(run: Run, dev: Device, m: MainPc, t: SenderPc) returns (run': Run)
    requires Reaches(run, dev, m, t, RRead) && dev.live
    ensures Reaches(run', dev, m, t, RLeave)
  {
    run' := Then(run, HangUp(0), Solo(dev, m, t, RLeave));
  }

  lemma ConnectsAndStarts(fd: int) returns (run: Run, dev: Device)
    requires 0 <= fd < FD_LIMIT
    ensures dev == Device(fd, 0, Initial, 2, true, [ServerPing], [ServerPing], [], [])
    ensures Reaches(run, dev, MPoll, SStart, RRead)
  {
    hide IsRun;
    run := Connects(fd);
    dev := Device(fd, 0, Initial, 0, true, [], [], [], []);
    run := MainGoes(run, dev, MStart, SNone, RNone, Move(Acquire(0), Need(Items(0)), MSpawnSender));
    dev := dev.(refs := 1);
    run := MainSpawns(run, dev);
    run := MainGoes(run, dev, MPing, SStart, RStart, Move(Post(0, ServerPing), Need(Outbox(0)), MPoll));
    assert [] + [ServerPing] == [ServerPing];
    dev := dev.(outbox := [ServerPing], appended := [ServerPing]);
    run := ReceiverGoes(run, dev, MPoll, SStart, RStart, Move(Acquire(0), Need(Items(0)), RStamp));
    dev := dev.(refs := 2);
    run := ReceiverGoes(run, dev, MPoll, SStart, RStamp, Move(Nothing, Need(Items(0)), RRead));
  }

  lemma ReceiverGivesUp(run0: Run, dev0: Device) returns (run: Run, dev: Device)
    requires Reaches(run0, dev0, MPoll, SStart, RRead) && dev0.live && dev0.refs == 2 && dev0.connection.Initial?
    ensures dev == dev0.(connection := Ended, refs := 1)
    ensures Reaches(run, dev, MPoll, SStart, RDone)
  {
    hide IsRun;
    dev := dev0;
    run := ReceiverHangsUp(run0, dev, MPoll, SStart);
    run := ReceiverGoes(run, dev, MPoll, SStart, RLeave, Move(Nothing, Need(Items(0)), RClose));
    run := ReceiverGoes(run, dev, MPoll, SStart, RClose, Move(Close, Need(Items(0)), RWake));
    dev := dev.(connection := Ended);
    run := ReceiverGoes(run, dev, MPoll, SStart, RWake, Move(Nothing, Need(Outbox(0)), RRelease));
    run := ReceiverGoes(run, dev, MPoll, SStart, RRelease, Move(Release(0), Need(Items(0)), RDone));
    dev := dev.(refs := 1);
  }

  // The peer closes the connection at once, the main handler polls, and only then the sender starts.
  lemma SenderCanBeLate(fd: int) returns (run: Run)
    requires 0 <= fd < FD_LIMIT
    ensures IsRun(run) && LateSender(Last(run), 0)
    ensures exists a :: Enabled(Last(run), a) && Faulty(Last(run), a)
  {
    hide IsRun;
    var dev;
    run, dev := ConnectsAndStarts(fd);
    run, dev := ReceiverGivesUp(run, dev);
    run := MainGoes(run, dev, MPoll, SStart, RDone, Move(Nothing, Need(Items(0)), MRelease));
    run := MainGoes(run, dev, MRelease, SStart, RDone, Move(Release(0), Need(Items(0)), MDone));
    FaultsExactly(run);
  }
}

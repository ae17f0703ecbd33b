/** The relay machine fed with byte frames: what its receiver threads read decides their input actions. */
module RelayReading {
  import opened Bytes
  import opened Wire
  import opened RelayState
  import opened RelayInvariant
  import opened RelaySteps
  import opened RelayInduction
  import opened RelayDelivery

  // How a receiver judges the bytes it has read.
  type Judge = seq<byte> -> Verdict

  function ServerJudge(c: Crypto, serverKey: seq<byte>): Judge {
    (f: seq<byte>) => if IsFrame(f) then ServerVerdict(c, serverKey, f) else Ignored
  }

  // A message is heard because of a well-formed frame and the verdict on it.
  ghost predicate HeardRightly(judge: Judge, m: Message) {
    IsFrame(m.frame) && judge(m.frame) == if m.isPing then KeepAlive else Broadcast
  }

  // Every input of every receiver follows the verdict on the frame it read.
  ghost predicate Genuine(judge: Judge, run: Run) {
    run.Then? ==>
      && Genuine(judge, run.before)
      && (run.a.Hear? ==> HeardRightly(judge, run.a.m))
  }

  // During the run receiver r has read exactly the frames fs: it heard those that were accepted and
  // went back to its loop on the others.
  ghost predicate Reads(judge: Judge, run: Run, r: nat, fs: seq<seq<byte>>)
  {
    match run
    case Start => fs == []
    case Then(before, a, _) =>
      if (a.Hear? || a.Refuse?) && a.r == r then
        && fs != []
        && (a.Hear? ==> a.m.frame == fs[|fs| - 1])
        && (a.Refuse? ==> judge(fs[|fs| - 1]).Ignored?)
        && Reads(judge, before, r, fs[..|fs| - 1])
      else Reads(judge, before, r, fs)
  }

  // The frames that are broadcast, in order.
  function Broadcasts(judge: Judge, fs: seq<seq<byte>>): seq<seq<byte>>
  {
    if fs == [] then []
    else
      Broadcasts(judge, fs[..|fs| - 1])
      + if judge(fs[|fs| - 1]).Broadcast? then [fs[|fs| - 1]] else []
  }

  lemma {:induction false} BroadcastsAppend(judge: Judge, fs: seq<seq<byte>>, gs: seq<seq<byte>>)
    ensures Broadcasts(judge, fs + gs) == Broadcasts(judge, fs) + Broadcasts(judge, gs)
  {
    if gs == [] {
      assert fs + gs == fs;
    } else {
      assert (fs + gs)[..|fs + gs| - 1] == fs + gs[..|gs| - 1];
      BroadcastsAppend(judge, fs, gs[..|gs| - 1]);
    }
  }

  lemma LogsOnlyWhenHearing(s: State, a: Action)
    requires Shaped(s) && Enabled(s, a)
    ensures DeedOf(s, a).Deed? && DeedOf(s, a).effect.Log? ==> a.Hear?
  {
    hide Runnable, HasWanted;
  }

  // What is heard after one step.
  lemma StepHears(s: State, a: Action, s': State, r: nat)
    requires Inv(s) && Step(s, a, s') && r < |s'.devs|
    ensures r >= |s.devs| ==> s'.devs[r].heard == [] && !(a.Hear? && a.r == r) && !(a.Refuse? && a.r == r)
    ensures r < |s.devs| ==>
              s'.devs[r].heard == s.devs[r].heard + if a.Hear? && a.r == r && !a.m.isPing then [a.m.frame] else []
  {
    StepPerforms(s, a, s');
    hide Inv, Faulty, Apply, HasWanted, Runnable, IsMember, ReceiverMove, MainMove, SenderMove;
    LogsOnlyWhenHearing(s, a);
    var deed := DeedOf(s, a);
    if deed.Deed? && r < |s.devs| {
      HeardAfter(s, s', deed.d, deed.effect, deed.unlock, r);
      hide Performed;
    }
  }

  lemma StepKeepsDevices(s: State, a: Action, s': State)
    requires Inv(s) && Step(s, a, s')
    ensures |s.devs| <= |s'.devs|
    ensures (a.Hear? || a.Refuse?) ==> a.r < |s.devs|
  {
    StepPerforms(s, a, s');
  }

  // A device has heard exactly the broadcast messages among the frames its receiver has read.
  lemma {:induction false} HeardIsBroadcast(judge: Judge, run: Run, r: nat, fs: seq<seq<byte>>)
    requires IsRun(run) && Genuine(judge, run)
    requires Reads(judge, run, r, fs)
    ensures r >= |Last(run).devs| ==> fs == []
    ensures r < |Last(run).devs| ==> Last(run).devs[r].heard == Broadcasts(judge, fs)
    decreases run
  {
    hide Step, Inv;
    if run.Then? {
      RunKeepsInv(run.before);
      StepKeepsDevices(Last(run.before), run.a, run.s);
      if r < |run.s.devs| {
        StepHears(Last(run.before), run.a, run.s, r);
      }
      if (run.a.Hear? || run.a.Refuse?) && run.a.r == r {
        HeardIsBroadcast(judge, run.before, r, fs[..|fs| - 1]);
      } else {
        HeardIsBroadcast(judge, run.before, r, fs);
      }
    }
  }

  // ---------------------------------------------------------------- only frames are in transit

  predicate AllFrames(log: seq<Entry>) {
    forall i :: 0 <= i < |log| && log[i].Forwarded? ==> IsFrame(log[i].frame)
  }

  predicate CarriesFrame(pc: ReceiverPc) {
    match pc
    case RVerified(m) => IsFrame(m.frame)
    case RPromote(m) => IsFrame(m.frame)
    case RRegAcquire(m) => IsFrame(m.frame)
    case RInsert(m) => IsFrame(m.frame)
    case RBroadcast(m) => IsFrame(m.frame)
    case RCollect(m, _) => IsFrame(m.frame)
    case RTake(m, _, _) => IsFrame(m.frame)
    case RSend(m, _) => IsFrame(m.frame)
    case RDrop(m, _, _) => IsFrame(m.frame)
    case RSignal(m, _, _) => IsFrame(m.frame)
    case _ => true
  }

  ghost predicate OnlyFrames(s: State) {
    && Shaped(s)
    && (forall d :: 0 <= d < |s.devs| ==> AllFrames(s.devs[d].appended))
    && (forall d :: 0 <= d < |s.devs| ==> CarriesFrame(s.receivers[d]))
  }

  lemma PostKeepsFrames(s: State, s': State, d: nat, effect: Effect, unlock: MaybeLock)
    requires Performed(s, s', d, effect, unlock)
    requires forall e :: 0 <= e < |s.devs| ==> AllFrames(s.devs[e].appended)
    requires effect.Post? && effect.entry.Forwarded? ==> IsFrame(effect.entry.frame)
    ensures forall e :: 0 <= e < |s'.devs| ==> AllFrames(s'.devs[e].appended)
  {
  }

  lemma MoveKeepsFrames(pc: ReceiverPc, dev: Device, d: nat)
    requires CarriesFrame(pc)
    ensures CarriesFrame(ReceiverMove(pc, dev, d).next)
    ensures var effect := ReceiverMove(pc, dev, d).effect;
            effect.Post? && effect.entry.Forwarded? ==> IsFrame(effect.entry.frame)
  {
  }

  lemma PostsFrame(s: State, a: Action)
    requires Shaped(s) && Enabled(s, a) && OnlyFrames(s) && DeedOf(s, a).Deed?
    ensures var effect := DeedOf(s, a).effect;
            effect.Post? && effect.entry.Forwarded? ==> IsFrame(effect.entry.frame)
  {
    hide IsFrame, Touched, ReceiverMove;
    if a.Advance? && a.t.Receiver? {
      MoveKeepsFrames(s.receivers[a.t.d], s.devs[a.t.d], a.t.d);
    }
  }

  lemma CarriersKept(s: State, a: Action)
    requires Shaped(s) && Enabled(s, a) && OnlyFrames(s) && (a.Hear? ==> IsFrame(a.m.frame))
    ensures forall d :: 0 <= d < |Apply(s, a).devs| ==> CarriesFrame(Apply(s, a).receivers[d])
  {
    hide IsFrame, Touched, ReceiverMove, HasWanted, AllTaken, IsMember, MainMove, SenderMove, Written;
    if a.Advance? && a.t.Receiver? {
      MoveKeepsFrames(s.receivers[a.t.d], s.devs[a.t.d], a.t.d);
    }
  }

  lemma StepKeepsFrames(s: State, a: Action, s': State)
    requires Inv(s) && Step(s, a, s') && OnlyFrames(s) && (a.Hear? ==> IsFrame(a.m.frame))
    ensures OnlyFrames(s')
  {
    StepPerforms(s, a, s');
    CarriersKept(s, a);
    hide Inv, Faulty, Apply, Enabled, IsFrame, CarriesFrame;
    var deed := DeedOf(s, a);
    if deed.Deed? {
      PostsFrame(s, a);
      PostKeepsFrames(s, s', deed.d, deed.effect, deed.unlock);
    }
  }

  // Every entry ever appended to an outgoing buffer is a ping of the relay or a well-formed frame.
  lemma {:induction false} RunKeepsFrames(judge: Judge, run: Run)
    requires IsRun(run) && Genuine(judge, run)
    ensures OnlyFrames(Last(run))
  {
    if run.Then? {
      RunKeepsFrames(judge, run.before);
      RunKeepsInv(run.before);
      hide Inv, Step;
      StepKeepsFrames(Last(run.before), run.a, run.s);
    }
  }
}

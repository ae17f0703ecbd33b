/** arduino/library/ServersHandler.cpp: one timed relay per controlled server. */
module ServersHandler {
  import opened Bytes

  const SERVER_PING_TIME := 60000
  const TURN_ON_DELAY := 2000
  const TURN_OFF_DELAY := 5000
  const RESTART_OFF_ON_DELAY := 5000

  datatype Operation = NoOp | TurnOn | TurnOff | Restart | Restart2

  // Everything that belongs to one server; `closed` tells whether its relay pin is driven low.
  datatype Server = Server(op: Operation, timer: uint32, lastPing: uint32, closed: bool)

  function Delay(op: Operation): nat {
    match op
    case NoOp => 0
    case TurnOn => TURN_ON_DELAY
    case TurnOff => TURN_OFF_DELAY
    case Restart => TURN_OFF_DELAY
    case Restart2 => RESTART_OFF_ON_DELAY
  }

  // ---------------------------------------------------------------- one server, one call

  // A push button closes the relay while it is held and leaves it open.
  function AfterButton(v: Server, pressed: bool): Server {
    if pressed then v.(closed := false) else v
  }

  // The switch in loop(): `now` is the reading compared with the timer, `later` the one stored.
  function AfterOperation(v: Server, now: uint32, later: uint32): Server {
    if v.op.NoOp? || Elapsed(now, v.timer) <= Delay(v.op) then v
    else match v.op
      case TurnOn => v.(closed := false, op := NoOp)
      case TurnOff => v.(closed := false, op := NoOp)
      case Restart => v.(closed := false, op := Restart2, timer := later)
      case Restart2 => v.(closed := true, op := TurnOn, timer := later)
  }

  function AfterLoop(v: Server, pressed: bool, now: uint32, later: uint32): Server {
    AfterOperation(AfterButton(v, pressed), now, later)
  }

  predicate IsOn(v: Server, now: uint32) {
    Elapsed(now, v.lastPing) < SERVER_PING_TIME
  }

  // turnOn, turnOff and restart: refused during an operation or when the server is in the wrong state.
  function AfterCommand(v: Server, op: Operation, seen: uint32, now: uint32): Server {
    if !v.op.NoOp? || IsOn(v, seen) == op.TurnOn? then v else v.(op := op, closed := true, timer := now)
  }

  // A command is accepted by an idle server only: turnOn when nothing was heard of it for 60 s, turnOff
  // and restart when something was.
  predicate Accepts(v: Server, op: Operation, seen: uint32) {
    v.op.NoOp? && if op.TurnOn? then (seen - v.lastPing) % 0x1_0000_0000 >= 60000 else (seen - v.lastPing) % 0x1_0000_0000 < 60000
  }

  lemma CommandExactly(v: Server, op: Operation, seen: uint32, now: uint32)
    ensures AfterCommand(v, op, seen, now) == if Accepts(v, op, seen) then Server(op, now, v.lastPing, true) else v
  {
  }

  // A ping makes the server count as on for a minute and not longer.
  lemma PingLastsAMinute(v: Server, t: nat, u: nat)
    requires t <= u < t + WRAP_32
    ensures IsOn(AfterEvent(v, PingFrom(Millis(t))), Millis(u)) <==> u - t < 60000
  {
    ElapsedIsExact(t, u);
  }

  // A press ends with an open relay, unless the same call begins the second press of a restart.
  lemma PressReleases(v: Server, now: uint32, later: uint32)
    ensures AfterLoop(v, true, now, later).closed <==> v.op.Restart2? && (now - v.timer) % 0x1_0000_0000 > 5000
    ensures AfterLoop(v, true, now, later) == AfterLoop(v.(closed := false), false, now, later)
  {
  }

  // ---------------------------------------------------------------- safety over every sequence of calls

  datatype Event =
    | Loop(pressed: bool, now: uint32, later: uint32)
    | Command(op: Operation, seen: uint32, now: uint32)
    | PingFrom(now: uint32)

  predicate IsCommand(op: Operation) {
    op.TurnOn? || op.TurnOff? || op.Restart?
  }

  predicate IsEvent(e: Event) {
    e.Command? ==> IsCommand(e.op)
  }

  function AfterEvent(v: Server, e: Event): Server {
    match e
    case Loop(pressed, now, later) => AfterLoop(v, pressed, now, later)
    case Command(op, seen, now) => AfterCommand(v, op, seen, now)
    case PingFrom(now) => v.(lastPing := now)
  }

  function AfterEvents(v: Server, es: seq<Event>): Server {
    if es == [] then v else AfterEvent(AfterEvents(v, es[..|es| - 1]), es[|es| - 1])
  }

  // A relay that starts open is left closed only while its server is being switched; without button
  // presses, exactly then.
  lemma {:induction false} ClosedOnlyDuringPress(v: Server, es: seq<Event>)
    requires v.op.NoOp? && !v.closed && forall i :: 0 <= i < |es| ==> IsEvent(es[i])
    ensures AfterEvents(v, es).closed ==> IsCommand(AfterEvents(v, es).op)
    ensures (forall i :: 0 <= i < |es| && es[i].Loop? ==> !es[i].pressed) ==>
              (AfterEvents(v, es).closed <==> IsCommand(AfterEvents(v, es).op))
  {
    if es != [] {
      ClosedOnlyDuringPress(v, es[..|es| - 1]);
    }
  }

  // ---------------------------------------------------------------- timing

  // What happens to a server over time: a call of loop() without a press, with the true times of the
  // reading compared and of the reading stored, or a command or a ping with whatever readings.
  datatype Item = Tick(at: nat, later: nat) | Other(e: Event)

  function Millis(t: nat): uint32 {
    t % WRAP_32
  }

  predicate AreItems(items: seq<Item>) {
    forall i :: 0 <= i < |items| && items[i].Other? ==> !items[i].e.Loop?
  }

  function AfterItem(v: Server, item: Item): Server {
    match item
    case Tick(at, later) => AfterLoop(v, false, Millis(at), Millis(later))
    case Other(e) => AfterEvent(v, e)
  }

  function Played(v: Server, items: seq<Item>): Server
    decreases |items|
  {
    if items == [] then v else Played(AfterItem(v, items[0]), items[1..])
  }

  // Each call of loop() comes after the previous one is over, and at most d after its reading.  Before the
  // first call stand the end `over` and the reading `last` of an earlier one.
  predicate Paced(over: nat, last: nat, items: seq<Item>, d: nat)
    decreases |items|
  {
    items == [] ||
    match items[0]
    case Tick(at, later) => over <= at <= last + d && at <= later && Paced(later, at, items[1..], d)
    case Other(_) => Paced(over, last, items[1..], d)
  }

  lemma {:induction false} PacedLater(over: nat, last: nat, last': nat, items: seq<Item>, d: nat)
    requires Paced(over, last, items, d) && last <= last'
    ensures Paced(over, last', items, d)
    decreases |items|
  {
    if items != [] && items[0].Other? {
      PacedLater(over, last, last', items[1..], d);
    }
  }

  // The clock difference is exact while less than a full turn of the clock has passed.
  lemma ElapsedIsExact(start: nat, t: nat)
    requires start <= t < start + WRAP_32
    ensures Elapsed(Millis(t), Millis(start)) == t - start
  {
  }

  // As v, whatever pings have come.
  predicate SameButPings(w: Server, v: Server) {
    w == v.(lastPing := w.lastPing)
  }

  lemma {:induction false} PlayedInParts(v: Server, items: seq<Item>, j: nat, k: nat)
    requires j <= k <= |items|
    ensures Played(v, items[..k]) == Played(Played(v, items[..j]), items[j..k])
    decreases j
  {
    if j > 0 {
      PlayedInParts(AfterItem(v, items[0]), items[1..], j - 1, k - 1);
      assert items[..k][1..] == items[1..][..k - 1] && items[..j][1..] == items[1..][..j - 1];
      assert items[1..][j - 1..k - 1] == items[j..k];
    }
  }

  lemma PlayedNext(v: Server, items: seq<Item>, j: nat)
    requires j < |items|
    ensures Played(v, items[..j + 1]) == AfterItem(Played(v, items[..j]), items[j])
  {
    PlayedInParts(v, items, j, j + 1);
    var one := items[j..j + 1];
    assert one == [items[j]] && one[1..] == [];
  }

  // What PhaseEnds finds: up to item j nothing but pings changes the server, and item j, if there is one,
  // is the first call of loop() later than the delay.
  predicate Phase(v: Server, start: nat, items: seq<Item>, d: nat, j: nat) {
    && j <= |items|
    && (forall k :: 0 <= k <= j ==> SameButPings(Played(v, items[..k]), v))
    && (forall k :: 0 <= k < j && items[k].Tick? ==> items[k].at - start <= Delay(v.op))
    && (j < |items| ==>
          items[j].Tick? && Delay(v.op) < items[j].at - start <= Delay(v.op) + d
          && Paced(items[j].later, items[j].later, items[j + 1..], d))
  }

  lemma PhaseCons(v: Server, w: Server, start: nat, items: seq<Item>, d: nat, j: nat)
    requires items != [] && SameButPings(w, v) && w == AfterItem(v, items[0]) && Phase(w, start, items[1..], d, j)
    requires items[0].Tick? ==> items[0].at - start <= Delay(v.op)
    ensures Phase(v, start, items, d, j + 1)
  {
    forall k | 0 < k <= j + 1 ensures SameButPings(Played(v, items[..k]), v) {
      assert items[..k][1..] == items[1..][..k - 1];
      assert SameButPings(Played(w, items[1..][..k - 1]), w);
    }
    assert items[..0] == [];
    assert forall k :: 0 < k < j + 1 ==> items[k] == items[1..][k - 1];
    assert j + 1 < |items| ==> items[1..][j] == items[j + 1] && items[1..][j + 1..] == items[j + 2..];
  }

  // In a phase every command is refused, and the server stays as it is for every call up to its delay;
  // the first later call comes no later than delay + d.
  lemma {:induction false} PhaseEnds(v: Server, start: nat, over: nat, last: nat, items: seq<Item>, d: nat) returns (j: nat)
    requires !v.op.NoOp? && v.timer == Millis(start) && Delay(v.op) + d < WRAP_32 && AreItems(items)
    requires start <= over && last <= start + Delay(v.op) && Paced(over, last, items, d)
    ensures Phase(v, start, items, d, j)
    decreases |items|
  {
    if items == [] {
      j := 0;
    } else if items[0].Tick? && items[0].at - start > Delay(v.op) {
      j := 0;
      PacedLater(items[0].later, items[0].at, items[0].later, items[1..], d);
      assert items[..0] == [];
    } else {
      var w := AfterItem(v, items[0]);
      if items[0].Tick? {
        ElapsedIsExact(start, items[0].at);
        j := PhaseEnds(w, start, items[0].later, items[0].at, items[1..], d);
      } else {
        j := PhaseEnds(w, start, over, last, items[1..], d);
      }
      PhaseCons(v, w, start, items, d, j);
      j := j + 1;
    }
  }

  // The server after the call that ends a phase.
  lemma PhaseFollows(v: Server, start: nat, items: seq<Item>, d: nat, j: nat)
    requires !v.op.NoOp? && v.timer == Millis(start) && Delay(v.op) + d < WRAP_32 && Phase(v, start, items, d, j) && j < |items|
    ensures var w := Played(v, items[..j + 1]);
            SameButPings(w, match v.op
                            case Restart => v.(closed := false, op := Restart2, timer := Millis(items[j].later))
                            case Restart2 => v.(closed := true, op := TurnOn, timer := Millis(items[j].later))
                            case _ => v.(closed := false, op := NoOp))
  {
    PlayedNext(v, items, j);
    assert SameButPings(Played(v, items[..j]), v);
    ElapsedIsExact(start, items[j].at);
  }

  // No command among the items is accepted.
  predicate AllRefused(v: Server, items: seq<Item>)
    decreases |items|
  {
    items == [] || ((items[0].Other? && items[0].e.Command? ==> AfterItem(v, items[0]) == v)
                    && AllRefused(AfterItem(v, items[0]), items[1..]))
  }

  lemma {:induction false} Idle(v: Server, items: seq<Item>)
    requires v.op.NoOp? && AreItems(items) && AllRefused(v, items)
    ensures SameButPings(Played(v, items), v)
    decreases |items|
  {
    if items != [] {
      Idle(AfterItem(v, items[0]), items[1..]);
    }
  }

  // After item j the server is idle with its relay open, until a command is accepted.
  ghost predicate IdleAfter(v: Server, items: seq<Item>, j: nat)
    requires j < |items|
  {
    forall k :: j < k <= |items| && AllRefused(Played(v, items[..j + 1]), items[j + 1..k]) ==>
      Played(v, items[..k]).op.NoOp? && !Played(v, items[..k]).closed
  }

  lemma StaysIdle(v: Server, items: seq<Item>, j: nat)
    requires j < |items| && AreItems(items) && Played(v, items[..j + 1]).op.NoOp? && !Played(v, items[..j + 1]).closed
    ensures IdleAfter(v, items, j)
  {
    forall k | j < k <= |items| && AllRefused(Played(v, items[..j + 1]), items[j + 1..k])
      ensures Played(v, items[..k]).op.NoOp? && !Played(v, items[..k]).closed
    {
      PlayedInParts(v, items, j + 1, k);
      Idle(Played(v, items[..j + 1]), items[j + 1..k]);
    }
  }

  // turnOn and turnOff: whatever commands and pings come, the relay is held for more than the delay and
  // at most delay + d.  Item j, if there is one, is the call that ends the operation.
  ghost predicate Held(v: Server, start: nat, items: seq<Item>, d: nat, j: nat) {
    && Phase(v, start, items, d, j)
    && (j < |items| ==> IdleAfter(v, items, j))
  }

  lemma HoldIsTimed(v: Server, start: nat, items: seq<Item>, d: nat) returns (j: nat)
    requires (v.op.TurnOn? || v.op.TurnOff?) && v.closed && v.timer == Millis(start) && AreItems(items)
    requires Delay(v.op) + d < WRAP_32 && Paced(start, start, items, d)
    ensures Held(v, start, items, d, j)
    ensures forall k :: 0 <= k <= j ==> Played(v, items[..k]).closed && Played(v, items[..k]).op == v.op
    ensures (exists k :: 0 <= k < |items| && items[k].Tick? && items[k].at - start > Delay(v.op)) ==> j < |items|
  {
    j := PhaseEnds(v, start, start, start, items, d);
    if j < |items| {
      PhaseFollows(v, start, items, d, j);
      StaysIdle(v, items, j);
    }
  }

  // From the command on: an idle server that is not yet as wanted has its relay held for that long.
  lemma CommandIsTimed(v: Server, op: Operation, seen: uint32, start: nat, items: seq<Item>, d: nat) returns (j: nat)
    requires (op.TurnOn? || op.TurnOff?) && Accepts(v, op, seen) && AreItems(items)
    requires Delay(op) + d < WRAP_32 && Paced(start, start, items, d)
    ensures Held(AfterCommand(v, op, seen, Millis(start)), start, items, d, j)
    ensures j < |items| ==>
              items[j].Tick? && var delay := if op.TurnOn? then 2000 else 5000; delay < items[j].at - start <= delay + d
    ensures forall k :: 0 <= k <= j ==>
              var w := Played(AfterCommand(v, op, seen, Millis(start)), items[..k]); w.closed && w.op == op
    ensures (exists k :: 0 <= k < |items| && items[k].Tick? && items[k].at - start > Delay(op)) ==> j < |items|
  {
    j := HoldIsTimed(AfterCommand(v, op, seen, Millis(start)), start, items, d);
  }

  // restart: press, release and press again, each timed, and then idle, whatever commands and pings come.
  // Items a, b and c are the calls that end the three phases, as far as the schedule goes.
  lemma RestartIsTimed(v: Server, start: nat, items: seq<Item>, d: nat) returns (a: nat, b: nat, c: nat)
    requires v.op.Restart? && v.closed && v.timer == Millis(start) && AreItems(items)
    requires TURN_OFF_DELAY + d < WRAP_32 && Paced(start, start, items, d)
    ensures Phase(v, start, items, d, a)
    ensures forall k :: 0 <= k <= a ==> Played(v, items[..k]).closed && Played(v, items[..k]).op.Restart?
    ensures a < |items| ==>
              var w := Played(v, items[..a + 1]);
              w.op.Restart2? && !w.closed && SecondHalf(w, items[a].later, items[a + 1..], d, b, c)
  {
    a := PhaseEnds(v, start, start, start, items, d);
    b, c := 0, 0;
    if a < |items| {
      PhaseFollows(v, start, items, d, a);
      b, c := ReleaseIsTimed(Played(v, items[..a + 1]), items[a].later, items[a + 1..], d);
    }
  }

  // The calls that end the first press, the release and the second press of a restart.
  predicate RestartTimes(start: nat, items: seq<Item>, d: nat, a: nat, b: nat, c: nat) {
    && a <= |items|
    && (a < |items| ==>
          && items[a].Tick? && 5000 < items[a].at - start <= 5000 + d
          && var rest := items[a + 1..];
             && b <= |rest|
             && (b < |rest| ==>
                   && rest[b].Tick? && 5000 < rest[b].at - items[a].later <= 5000 + d
                   && var last := rest[b + 1..];
                      c <= |last| && (c < |last| ==> last[c].Tick? && 2000 < last[c].at - rest[b].later <= 2000 + d)))
  }

  // From the command on: an idle server that is heard of has its relay pressed, released and pressed.
  lemma RestartCommandIsTimed(v: Server, seen: uint32, start: nat, items: seq<Item>, d: nat) returns (a: nat, b: nat, c: nat)
    requires Accepts(v, Operation.Restart, seen) && AreItems(items)
    requires TURN_OFF_DELAY + d < WRAP_32 && Paced(start, start, items, d)
    ensures RestartTimes(start, items, d, a, b, c)
    ensures var w := AfterCommand(v, Operation.Restart, seen, Millis(start));
            && (forall k :: 0 <= k <= a ==> Played(w, items[..k]).closed && Played(w, items[..k]).op.Restart?)
            && (a < |items| ==> SecondHalf(Played(w, items[..a + 1]), items[a].later, items[a + 1..], d, b, c))
    ensures (exists k :: 0 <= k < |items| && items[k].Tick? && items[k].at - start > 5000) ==> a < |items|
  {
    a, b, c := RestartIsTimed(AfterCommand(v, Operation.Restart, seen, Millis(start)), start, items, d);
  }

  // The release and the second press, counted from the end of the first.
  ghost predicate SecondHalf(v: Server, start: nat, items: seq<Item>, d: nat, b: nat, c: nat) {
    && Phase(v, start, items, d, b)
    && (forall k :: 0 <= k <= b ==> !Played(v, items[..k]).closed && Played(v, items[..k]).op.Restart2?)
    && (b < |items| ==>
          var w, rest := Played(v, items[..b + 1]), items[b + 1..];
          && w.closed && w.op.TurnOn? && Held(w, items[b].later, rest, d, c)
          && forall k :: 0 <= k <= c ==> Played(w, rest[..k]).closed && Played(w, rest[..k]).op.TurnOn?)
  }

  lemma ReleaseIsTimed(v: Server, start: nat, items: seq<Item>, d: nat) returns (b: nat, c: nat)
    requires v.op.Restart2? && !v.closed && v.timer == Millis(start) && AreItems(items)
    requires TURN_OFF_DELAY + d < WRAP_32 && Paced(start, start, items, d)
    ensures SecondHalf(v, start, items, d, b, c)
  {
    b := PhaseEnds(v, start, start, start, items, d);
    c := 0;
    if b < |items| {
      PhaseFollows(v, start, items, d, b);
      c := HoldIsTimed(Played(v, items[..b + 1]), items[b].later, items[b + 1..], d);
    }
  }

  // A rank of operations: it never rises while commands are refused, and a phase that ends lowers it.
  function Rank(op: Operation): nat {
    match op
    case NoOp => 0
    case TurnOn => 1
    case TurnOff => 1
    case Restart2 => 2
    case Restart => 3
  }

  lemma RankFalls(v: Server, start: nat, items: seq<Item>, d: nat, j: nat)
    requires !v.op.NoOp? && v.timer == Millis(start) && Delay(v.op) + d < WRAP_32 && Phase(v, start, items, d, j) && j < |items|
    ensures forall k :: 0 <= k <= j ==> Rank(Played(v, items[..k]).op) == Rank(v.op)
    ensures Rank(Played(v, items[..j + 1]).op) < Rank(v.op)
  {
    PhaseFollows(v, start, items, d, j);
  }

  // The bound on d is needed: calls that are late enough can hit the same clock values for ever.
  function Aliased(start: nat, delay: nat, n: nat): seq<Item>
    decreases n
  {
    if n == 0 then []
    else [Tick(start + delay, start + delay), Tick(start + WRAP_32, start + WRAP_32)] + Aliased(start + WRAP_32, delay, n - 1)
  }

  lemma FullTurn(start: nat)
    ensures Millis(start + WRAP_32) == Millis(start) && Elapsed(Millis(start + WRAP_32), Millis(start)) == 0
  {
  }

  // Two calls that both come too early by the clock.
  lemma MissedPair(v: Server, start: nat, rest: seq<Item>)
    requires !v.op.NoOp? && v.timer == Millis(start)
    ensures var delay := Delay(v.op);
            Played(v, [Tick(start + delay, start + delay), Tick(start + WRAP_32, start + WRAP_32)] + rest) == Played(v, rest)
  {
    var delay := Delay(v.op);
    var first, second := Tick(start + delay, start + delay), Tick(start + WRAP_32, start + WRAP_32);
    ElapsedIsExact(start, start + delay);
    FullTurn(start);
    hide Millis, Elapsed;
    assert ([first, second] + rest)[1..] == [second] + rest && ([second] + rest)[1..] == rest;
  }

  lemma AliasedIsPaced(start: nat, delay: nat, d: nat, n: nat)
    requires delay <= d && delay <= WRAP_32 <= delay + d
    ensures Paced(start, start, Aliased(start, delay, n), d) && AreItems(Aliased(start, delay, n))
    ensures n > 0 ==> |Aliased(start, delay, n)| > 0 && Aliased(start, delay, n)[|Aliased(start, delay, n)| - 1] == Tick(start + n * WRAP_32, start + n * WRAP_32)
    decreases n
  {
    if n > 0 {
      AliasedIsPaced(start + WRAP_32, delay, d, n - 1);
      var rest := Aliased(start + WRAP_32, delay, n - 1);
      PairIsPaced(start, delay, d, rest);
    }
  }

  lemma PairIsPaced(start: nat, delay: nat, d: nat, rest: seq<Item>)
    requires delay <= d && delay <= WRAP_32 <= delay + d && Paced(start + WRAP_32, start + WRAP_32, rest, d) && AreItems(rest)
    ensures var items := [Tick(start + delay, start + delay), Tick(start + WRAP_32, start + WRAP_32)] + rest;
            Paced(start, start, items, d) && AreItems(items)
  {
    var first, second := Tick(start + delay, start + delay), Tick(start + WRAP_32, start + WRAP_32);
    var items := [first, second] + rest;
    assert items[1..] == [second] + rest && ([second] + rest)[1..] == rest;
    assert Paced(start + delay, start + delay, [second] + rest, d);
  }

  lemma {:induction false} LateCallsCanMiss(v: Server, start: nat, d: nat, n: nat)
    requires !v.op.NoOp? && v.timer == Millis(start) && WRAP_32 <= Delay(v.op) + d
    ensures var items := Aliased(start, Delay(v.op), n);
            && Paced(start, start, items, d) && Played(v, items) == v
            && (n > 0 ==> |items| > 0 && items[|items| - 1] == Tick(start + n * WRAP_32, start + n * WRAP_32))
    decreases n
  {
    AliasedIsPaced(start, Delay(v.op), d, n);
    if n > 0 {
      FullTurn(start);
      hide Millis, Elapsed, Paced;
      LateCallsCanMiss(v, start + WRAP_32, d, n - 1);
      MissedPair(v, start, Aliased(start + WRAP_32, Delay(v.op), n - 1));
    }
  }

  // ---------------------------------------------------------------- the class

  class Handler {
    const count: byte
    const relayPins: array<byte>
    const operations: array<Operation>
    const timers: array<uint32>
    const lastPings: array<uint32>
    // the pins driven low
    var low: set<byte>

    constructor (count: byte, pins: seq<byte>, now: uint32)
      requires |pins| == count && forall i, j :: 0 <= i < j < |pins| ==> pins[i] != pins[j]
      ensures Valid() && this.count == count && relayPins[..] == pins
      ensures fresh(relayPins) && fresh(operations) && fresh(timers) && fresh(lastPings)
      ensures forall i :: 0 <= i < count ==> At(i) == Server(NoOp, now, now, false)
    {
      this.count := count;
      relayPins := new byte[count](i requires 0 <= i < |pins| => pins[i]);
      operations := new Operation[count](_ => NoOp);
      timers := new uint32[count](_ => now);
      lastPings := new uint32[count](_ => now);
      low := {};
    }

    // Every server has its own relay pin.
    ghost predicate Valid()
      reads this, relayPins
    {
      && relayPins.Length == operations.Length == timers.Length == lastPings.Length == count
      && timers != lastPings
      && (forall i, j :: 0 <= i < j < count ==> relayPins[i] != relayPins[j])
    }

    // All that belongs to server i.
    ghost function At(i: nat): Server
      requires Valid() && i < count
      reads this, relayPins, operations, timers, lastPings
    {
      Server(operations[i], timers[i], lastPings[i], relayPins[i] in low)
    }

    method Connect(i: nat)
      requires Valid() && i < count
      modifies this`low
      ensures Valid() && At(i) == old(At(i)).(closed := true)
      ensures forall j :: 0 <= j < count && j != i ==> At(j) == old(At(j))
    {
      low := low + {relayPins[i]};
    }

    method Disconnect(i: nat)
      requires Valid() && i < count
      modifies this`low
      ensures Valid() && At(i) == old(At(i)).(closed := false)
      ensures forall j :: 0 <= j < count && j != i ==> At(j) == old(At(j))
    {
      low := low - {relayPins[i]};
    }

    // The push button of server i: each sample tells whether the button is still down after 50 ms.
    // `levels` are the relay's positions after each sample: closed from the first confirmed one on.
    method HandleButton(i: nat, samples: seq<bool>) returns (ghost levels: seq<bool>)
      requires Valid() && i < count
      modifies this`low
      ensures Valid() && At(i) == AfterButton(old(At(i)), true in samples)
      ensures if true in samples then !At(i).closed else At(i) == old(At(i))
      ensures |levels| == |samples|
      ensures forall n :: 0 <= n < |samples| ==> levels[n] == (old(At(i)).closed || true in samples[..n + 1])
      ensures forall j :: 0 <= j < count && j != i ==> At(j) == old(At(j))
    {
      var flag, n := false, 0;
      levels := [];
      while n < |samples|
        invariant 0 <= n <= |samples| && flag == (true in samples[..n])
        invariant At(i) == old(At(i)).(closed := flag || old(At(i)).closed)
        invariant |levels| == n
        invariant forall m :: 0 <= m < n ==> levels[m] == (old(At(i)).closed || true in samples[..m + 1])
        invariant forall j :: 0 <= j < count && j != i ==> At(j) == old(At(j))
      {
        assert samples[..n + 1] == samples[..n] + [samples[n]];
        if samples[n] {
          Connect(i);
          flag := true;
        }
        levels := levels + [relayPins[i] in low];
        n := n + 1;
      }
      if flag {
        Disconnect(i);
      }
    }

    method HandleOperation(i: nat, now: uint32, later: uint32)
      requires Valid() && i < count
      modifies this`low, operations, timers
      ensures Valid() && At(i) == AfterOperation(old(At(i)), now, later)
      ensures forall j :: 0 <= j < count && j != i ==> At(j) == old(At(j))
    {
      match operations[i]
      case NoOp =>
      case TurnOn =>
        if Elapsed(now, timers[i]) > TURN_ON_DELAY {
          Disconnect(i);
          operations[i] := NoOp;
        }
      case TurnOff =>
        if Elapsed(now, timers[i]) > TURN_OFF_DELAY {
          Disconnect(i);
          operations[i] := NoOp;
        }
      case Restart =>
        if Elapsed(now, timers[i]) > TURN_OFF_DELAY {
          Disconnect(i);
          operations[i] := Restart2;
          timers[i] := later;
        }
      case Restart2 =>
        if Elapsed(now, timers[i]) > RESTART_OFF_ON_DELAY {
          Connect(i);
          timers[i] := later;
          operations[i] := TurnOn;
        }
    }

    // loop(): every server is handled on its own, button first.
    method Loop(samples: seq<seq<bool>>, now: seq<uint32>, later: seq<uint32>)
      requires Valid() && |samples| == |now| == |later| == count
      modifies this`low, operations, timers
      ensures Valid()
      ensures forall i :: 0 <= i < count ==> At(i) == AfterLoop(old(At(i)), true in samples[i], now[i], later[i])
    {
      for i := 0 to count as nat
        invariant Valid()
        invariant forall j :: 0 <= j < i ==> At(j) == AfterLoop(old(At(j)), true in samples[j], now[j], later[j])
        invariant forall j :: i <= j < count ==> At(j) == old(At(j))
      {
        ghost var levels := HandleButton(i, samples[i]);
        HandleOperation(i, now[i], later[i]);
      }
    }

    method IsServerOn(i: nat, now: uint32) returns (on: bool)
      requires Valid() && i < count
      ensures on == IsOn(At(i), now)
    {
      on := Elapsed(now, lastPings[i]) < SERVER_PING_TIME;
    }

    method Begin(i: nat, op: Operation, now: uint32)
      requires Valid() && i < count
      modifies this`low, operations, timers
      ensures Valid() && At(i) == old(At(i)).(op := op, closed := true, timer := now)
      ensures forall j :: 0 <= j < count && j != i ==> At(j) == old(At(j))
    {
      operations[i] := op;
      assert forall j :: 0 <= j < count && j != i ==> At(j) == old(At(j));
      Connect(i);
      assert forall j :: 0 <= j < count && j != i ==> At(j) == old(At(j));
      timers[i] := now;
    }

    method TurnOnServer(i: byte, seen: uint32, now: uint32)
      requires Valid()
      modifies this`low, operations, timers
      ensures Valid()
      ensures forall j :: 0 <= j < count ==>
                At(j) == if j == i && Accepts(old(At(j)), TurnOn, seen) then Server(TurnOn, now, old(At(j)).lastPing, true) else old(At(j))
    {
      if i >= count || operations[i] != NoOp { return; }
      var on := IsServerOn(i, seen);
      if on { return; }
      Begin(i, TurnOn, now);
    }

    method TurnOffServer(i: byte, seen: uint32, now: uint32)
      requires Valid()
      modifies this`low, operations, timers
      ensures Valid()
      ensures forall j :: 0 <= j < count ==>
                At(j) == if j == i && Accepts(old(At(j)), TurnOff, seen) then Server(TurnOff, now, old(At(j)).lastPing, true) else old(At(j))
    {
      if i >= count || operations[i] != NoOp { return; }
      var on := IsServerOn(i, seen);
      if !on { return; }
      Begin(i, TurnOff, now);
    }

    method RestartServer(i: byte, seen: uint32, now: uint32)
      requires Valid()
      modifies this`low, operations, timers
      ensures Valid()
      ensures forall j :: 0 <= j < count ==>
                At(j) == if j == i && Accepts(old(At(j)), Restart, seen) then Server(Restart, now, old(At(j)).lastPing, true) else old(At(j))
    {
      if i >= count || operations[i] != NoOp { return; }
      var on := IsServerOn(i, seen);
      if !on { return; }
      Begin(i, Restart, now);
    }

    method PingFromServer(i: byte, now: uint32)
      requires Valid()
      modifies lastPings
      ensures Valid()
      ensures forall j :: 0 <= j < count ==> At(j) == if j == i then old(At(j)).(lastPing := now) else old(At(j))
    {
      if i >= count { return; }
      lastPings[i] := now;
    }
  }
}

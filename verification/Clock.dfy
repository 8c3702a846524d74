/**
 The simulated clock (src/mitosis/clock.py): one checkpoint, projected forward at the rate of
 the current mode. Times are seconds; the program's microsecond rounding is not modelled.
 */
module Clock {
  import opened Basics

  const DEFAULT_ACCELERATED_RATE := 86400.0

  datatype Mode = Paused | Step | Realtime | Accelerated

  datatype Checkpoint = Checkpoint(mode: Mode, rate: real, simulatedAt: real, wallAt: real)

  function RateFor(mode: Mode, rate: real): real {
    match mode
    case Accelerated => rate
    case Realtime => 1.0
    case Paused => 0.0
    case Step => 0.0
  }

  function Elapsed(from: real, to: real): real {
    if to > from then to - from else 0.0
  }

  /** Simulated time that passes over a stretch of wall time. */
  function Accrued(from: real, to: real, rate: real): real {
    Elapsed(from, to) * rate
  }

  /** `get_state`: a clock never initialised is a paused one anchored at the moment it is read. */
  function StateAt(c: Option<Checkpoint>, wall: real): Checkpoint {
    if c.Some? then c.value else Checkpoint(Paused, DEFAULT_ACCELERATED_RATE, wall, wall)
  }

  /** `now`. */
  function Now(c: Option<Checkpoint>, wall: real): real {
    var s := StateAt(c, wall);
    s.simulatedAt + Accrued(s.wallAt, wall, RateFor(s.mode, s.rate))
  }

  datatype Op =
    | Advance(delta: real, wall: real)
    | SetMode(mode: Mode, rate: Option<real>, wall: real)

  datatype Error = BackwardsAdvance

  /** `advance`. */
  function Advanced(c: Option<Checkpoint>, delta: real, wall: real): Result<Option<Checkpoint>, Error> {
    if delta < 0.0 then Err(BackwardsAdvance)
    else Ok(Some(StateAt(c, wall).(simulatedAt := Now(c, wall) + delta, wallAt := wall)))
  }

  /** `set_mode`. The rate is taken as given, negative ones included. */
  function ModeSet(c: Option<Checkpoint>, mode: Mode, rate: Option<real>, wall: real): Option<Checkpoint> {
    Some(Checkpoint(mode, if rate.Some? then rate.value else StateAt(c, wall).rate, Now(c, wall), wall))
  }

  function Next(c: Option<Checkpoint>, op: Op): Option<Checkpoint> {
    match op
    case Advance(delta, wall) => var r := Advanced(c, delta, wall); if r.Ok? then r.value else c
    case SetMode(mode, rate, wall) => ModeSet(c, mode, rate, wall)
  }

  function Run(c: Option<Checkpoint>, ops: seq<Op>): Option<Checkpoint> {
    if ops == [] then c else Next(Run(c, ops[..|ops| - 1]), ops[|ops| - 1])
  }

  // ---- the clock as the program keeps it ---------------------------------------------------

  class SimulationClock {
    var initialised: bool
    var mode: Mode
    var rate: real
    var simulatedAt: real
    var wallAt: real

    constructor ()
      ensures State() == None
    {
      initialised, mode, rate, simulatedAt, wallAt := false, Paused, 0.0, 0.0, 0.0;
    }

    function State(): Option<Checkpoint>
      reads this
    {
      if initialised then Some(Checkpoint(mode, rate, simulatedAt, wallAt)) else None
    }

    /** `initialize_if_absent`. */
    method InitializeIfAbsent(m: Mode, r: real, start: real, wall: real)
      modifies this
      ensures State() == old(if initialised then State() else Some(Checkpoint(m, r, start, wall)))
    {
      if !initialised {
        initialised, mode, rate, simulatedAt, wallAt := true, m, r, start, wall;
      }
    }

    method Read(wall: real) returns (t: real)
      ensures t == Now(State(), wall)
    {
      if !initialised {
        return wall;
      }
      var elapsed := wall - wallAt;
      if elapsed < 0.0 {
        elapsed := 0.0;
      }
      var r := RateFor(mode, rate);
      return simulatedAt + elapsed * r;
    }

    method AdvanceBy(delta: real, wall: real) returns (failed: bool)
      modifies this
      ensures State() == Next(old(State()), Advance(delta, wall)) && failed == (delta < 0.0)
      ensures !failed ==> Now(State(), wall) == old(Now(State(), wall)) + delta
    {
      if delta < 0.0 {
        return true;
      }
      var t := Read(wall);
      if !initialised {
        mode, rate := Paused, DEFAULT_ACCELERATED_RATE;
      }
      initialised, simulatedAt, wallAt := true, t + delta, wall;
      return false;
    }

    method ChangeMode(m: Mode, r: Option<real>, wall: real)
      modifies this
      ensures State() == Next(old(State()), SetMode(m, r, wall))
      ensures Now(State(), wall) == old(Now(State(), wall))
    {
      var t := Read(wall);
      if r.Some? {
        rate := r.value;
      } else if !initialised {
        rate := DEFAULT_ACCELERATED_RATE;
      }
      initialised, mode, simulatedAt, wallAt := true, m, t, wall;
    }
  }

  // ---- the whole history -----------------------------------------------------------------------

  /** The rate in force after some of the history. */
  function RateAfter(start: Checkpoint, ops: seq<Op>): real {
    RateFor(ModeAfter(start, ops), DialAfter(start, ops))
  }

  function ModeAfter(start: Checkpoint, ops: seq<Op>): Mode {
    if ops == [] then start.mode
    else
      match ops[|ops| - 1]
      case SetMode(mode, _, _) => mode
      case Advance(_, _) => ModeAfter(start, ops[..|ops| - 1])
  }

  function DialAfter(start: Checkpoint, ops: seq<Op>): real {
    if ops == [] then start.rate
    else
      match ops[|ops| - 1]
      case SetMode(_, Some(rate), _) => rate
      case _ => DialAfter(start, ops[..|ops| - 1])
  }

  /** An advance that is refused leaves no trace; every other operation re-anchors. */
  predicate Anchors(op: Op) {
    op.SetMode? || op.delta >= 0.0
  }

  function WallAfter(start: Checkpoint, ops: seq<Op>): real {
    if ops == [] then start.wallAt
    else if Anchors(ops[|ops| - 1]) then ops[|ops| - 1].wall
    else WallAfter(start, ops[..|ops| - 1])
  }

  /** Rate times interval, summed over every interval of the history. */
  function Flow(start: Checkpoint, ops: seq<Op>): real {
    if ops == [] then 0.0
    else
      var before := ops[..|ops| - 1];
      Flow(start, before)
      + if !Anchors(ops[|ops| - 1]) then 0.0
        else Accrued(WallAfter(start, before), ops[|ops| - 1].wall, RateAfter(start, before))
  }

  function Jumps(ops: seq<Op>): real {
    if ops == [] then 0.0
    else
      var last := ops[|ops| - 1];
      Jumps(ops[..|ops| - 1]) + if last.Advance? && last.delta >= 0.0 then last.delta else 0.0
  }

  lemma {:induction false} CheckpointIsTheHistory(start: Checkpoint, ops: seq<Op>)
    ensures Run(Some(start), ops)
         == Some(Checkpoint(ModeAfter(start, ops), DialAfter(start, ops),
                            start.simulatedAt + Flow(start, ops) + Jumps(ops), WallAfter(start, ops)))
  {
    if ops == [] {
    } else {
      hide Accrued;
      CheckpointIsTheHistory(start, ops[..|ops| - 1]);
      match ops[|ops| - 1]
      case Advance(delta, wall) =>
      case SetMode(mode, rate, wall) =>
    }
  }

  /** The one checkpoint loses nothing: simulated time is the start, plus every interval at the
      rate in force during it, plus every explicit advance, whatever the wall clock did. */
  lemma NowIsTheWholeHistory(start: Checkpoint, ops: seq<Op>, wall: real)
    ensures Now(Run(Some(start), ops), wall)
         == start.simulatedAt + Flow(start, ops) + Accrued(WallAfter(start, ops), wall, RateAfter(start, ops))
            + Jumps(ops)
  {
    CheckpointIsTheHistory(start, ops);
  }

  /** Switching modes never jumps, on any clock, at any moment, to any rate. */
  lemma SwitchingNeverJumps(c: Option<Checkpoint>, mode: Mode, rate: Option<real>, wall: real)
    ensures Now(ModeSet(c, mode, rate, wall), wall) == Now(c, wall)
  {}

  /** A switch that changes neither mode nor rate still moves the anchor. A reading shows it unless
      the clock stands still, or the switch came between the anchor and the reading, or both came
      before the anchor; so a wall that stepped back is counted twice. */
  lemma ReanchoringShowsExactly(c: Checkpoint, wall: real, later: real)
    ensures Now(ModeSet(Some(c), c.mode, None, wall), later) == Now(Some(c), later)
       <==> || RateFor(c.mode, c.rate) == 0.0 || wall == c.wallAt
            || c.wallAt <= wall <= later || later <= wall < c.wallAt
  {
    var r := RateFor(c.mode, c.rate);
    var twice := Elapsed(c.wallAt, wall) + Elapsed(wall, later);
    assert Now(ModeSet(Some(c), c.mode, None, wall), later) == c.simulatedAt + twice * r;
    CancelRate(twice, Elapsed(c.wallAt, later), r);
  }

  lemma CancelRate(a: real, b: real, r: real)
    ensures a * r == b * r <==> a == b || r == 0.0
  {
    if r != 0.0 {
      assert a == a * r / r && b == b * r / r;
    }
  }

  // ---- going backwards ------------------------------------------------------------------------------

  function Later(a: real, b: real): real {
    if a >= b then a else b
  }

  /** Two reads of one checkpoint are in order exactly when the clock stands still, or it runs
      forward and the wall did not step back past the later of the first read and the anchor,
      or the reverse. The guard against skew covers the time before the anchor only. */
  lemma ReadsInOrderExactly(c: Checkpoint, first: real, second: real)
    ensures var r := RateFor(c.mode, c.rate);
            Now(Some(c), first) <= Now(Some(c), second) <==>
              || r == 0.0
              || (r > 0.0 && Later(first, c.wallAt) <= Later(second, c.wallAt))
              || (r < 0.0 && Later(first, c.wallAt) >= Later(second, c.wallAt))
  {
    var r := RateFor(c.mode, c.rate);
    var a, b := Elapsed(c.wallAt, first), Elapsed(c.wallAt, second);
    assert a == Later(first, c.wallAt) - c.wallAt && b == Later(second, c.wallAt) - c.wallAt;
    SameSign(b - a, r);
    assert b * r - a * r == (b - a) * r;
  }

  lemma SameSign(d: real, r: real)
    ensures d * r >= 0.0 <==> r == 0.0 || (r > 0.0 && d >= 0.0) || (r < 0.0 && d <= 0.0)
  {
    if r > 0.0 && d < 0.0 { assert d * r < 0.0; }
    if r < 0.0 && d > 0.0 { assert d * r < 0.0; }
  }

  /** A wall clock that steps back between two reads of any running clock takes simulated time
      back with it, if it stays past the anchor. */
  lemma SkewRunsBackwards(c: Checkpoint, first: real, second: real)
    requires RateFor(c.mode, c.rate) > 0.0 && c.wallAt <= second < first
    ensures Now(Some(c), second) < Now(Some(c), first)
  {
    hide Accrued;
    ReadsInOrderExactly(c, first, second);
  }

  ghost predicate NonNegativeRates(start: Checkpoint, ops: seq<Op>) {
    start.rate >= 0.0 && forall i :: 0 <= i < |ops| && ops[i].SetMode? && ops[i].rate.Some? ==> ops[i].rate.value >= 0.0
  }

  lemma {:induction false} DialIsNonNegative(start: Checkpoint, ops: seq<Op>)
    requires NonNegativeRates(start, ops)
    ensures DialAfter(start, ops) >= 0.0
  {
    if ops == [] {
    } else {
      DialIsNonNegative(start, ops[..|ops| - 1]);
    }
  }

  /** Even with a wall clock that jumps about, no operation ever lowers the simulated time the
      checkpoint holds, as long as no rate is negative. */
  lemma {:induction false} AnchorsNeverFall(start: Checkpoint, ops: seq<Op>, n: nat)
    requires NonNegativeRates(start, ops) && n <= |ops|
    ensures Run(Some(start), ops[..n]).Some? && Run(Some(start), ops).Some?
    ensures Run(Some(start), ops[..n]).value.simulatedAt <= Run(Some(start), ops).value.simulatedAt
    decreases |ops|
  {
    CheckpointIsTheHistory(start, ops);
    CheckpointIsTheHistory(start, ops[..n]);
    if n < |ops| {
      var before := ops[..|ops| - 1];
      AnchorsNeverFall(start, before, n);
      assert before[..n] == ops[..n];
      CheckpointIsTheHistory(start, before);
      DialIsNonNegative(start, before);
      FlowIsForward(Elapsed(WallAfter(start, before), ops[|ops| - 1].wall), RateAfter(start, before));
    } else {
      assert ops[..n] == ops;
    }
  }

  lemma FlowIsForward(elapsed: real, rate: real)
    requires elapsed >= 0.0 && rate >= 0.0
    ensures elapsed * rate >= 0.0
  {}

  /** The wall clock never stepped back, from the start through every operation to `wall`. */
  ghost predicate WallForward(start: Checkpoint, ops: seq<Op>, wall: real) {
    && (forall i :: 0 <= i < |ops| ==> start.wallAt <= ops[i].wall <= wall)
    && (forall i, j :: 0 <= i < j < |ops| ==> ops[i].wall <= ops[j].wall)
    && start.wallAt <= wall
  }

  lemma {:induction false} WallAfterIsPast(start: Checkpoint, ops: seq<Op>, wall: real)
    requires WallForward(start, ops, wall)
    ensures WallAfter(start, ops) <= wall
  {
    if ops == [] {
    } else if !Anchors(ops[|ops| - 1]) {
      WallAfterIsPast(start, ops[..|ops| - 1], wall);
    }
  }

  /** Simulated time never decreases: whatever is read at `wall` after some operations is at
      most what is read later after more of them. */
  lemma {:induction false} TimeNeverDecreases(start: Checkpoint, ops: seq<Op>, n: nat, wall: real, wall': real)
    requires NonNegativeRates(start, ops) && n <= |ops|
    requires WallForward(start, ops, wall') && WallForward(start, ops[..n], wall) && wall <= wall'
    requires forall i :: n <= i < |ops| ==> wall <= ops[i].wall
    ensures Now(Run(Some(start), ops[..n]), wall) <= Now(Run(Some(start), ops), wall')
    decreases |ops|
  {
    CheckpointIsTheHistory(start, ops);
    DialIsNonNegative(start, ops);
    if n == |ops| {
      assert ops[..n] == ops;
      WallAfterIsPast(start, ops, wall);
      ReadsInOrderExactly(Run(Some(start), ops).value, wall, wall');
    } else {
      var before, last := ops[..|ops| - 1], ops[|ops| - 1];
      assert before[..n] == ops[..n];
      TimeNeverDecreases(start, before, n, wall, last.wall);
      var c := Run(Some(start), before);
      CheckpointIsTheHistory(start, before);
      DialIsNonNegative(start, before);
      WallAfterIsPast(start, before, last.wall);
      ReadsInOrderExactly(c.value, last.wall, wall');
      var c' := Next(c, last);
      assert c' == Run(Some(start), ops);
      if Anchors(last) {
        assert Now(c, last.wall) <= Now(c', last.wall);
        ReadsInOrderExactly(c'.value, last.wall, wall');
      }
    }
  }

  /** What the modes mean: between two readings after its anchor a paused or stepped clock stands
      still, a realtime clock moves with the wall, and an accelerated one at its rate; a reading from
      before the anchor is the anchor's. */
  lemma ModesAreExact(c: Checkpoint, wall: real, wall': real)
    requires c.wallAt <= wall <= wall'
    ensures var moved := Now(Some(c), wall') - Now(Some(c), wall);
            match c.mode
            case Paused => moved == 0.0
            case Step => moved == 0.0
            case Realtime => moved == wall' - wall
            case Accelerated => moved == c.rate * (wall' - wall)
    ensures forall early: real :: early <= c.wallAt ==> Now(Some(c), early) == c.simulatedAt
  {}

  /** A negative rate is accepted, and runs time backwards: after a switch to accelerated mode
      later reads never fall exactly when its rate is not negative. */
  lemma AcceleratedRunsForwardExactly(c: Option<Checkpoint>, rate: real, wall: real)
    ensures (forall later: real :: later >= wall ==>
             Now(ModeSet(c, Accelerated, Some(rate), wall), later) >= Now(c, wall))
       <==> rate >= 0.0
  {
    var c' := ModeSet(c, Accelerated, Some(rate), wall);
    forall later: real | later >= wall
      ensures Now(c', later) >= Now(c, wall) <==> rate >= 0.0 || later == wall
    {
      ReadsInOrderExactly(c'.value, wall, later);
    }
    assert Now(c', wall + 1.0) >= Now(c, wall) <==> rate >= 0.0;
  }

  /** The checkpoint of a clock first read, and so begun, at this moment. */
  function BegunAt(wall: real): Checkpoint {
    Checkpoint(Paused, DEFAULT_ACCELERATED_RATE, wall, wall)
  }

  lemma {:induction false} UninitialisedExactly(ops: seq<Op>)
    ensures Run(None, ops) == None <==> forall i :: 0 <= i < |ops| ==> !Anchors(ops[i])
  {
    if ops != [] {
      UninitialisedExactly(ops[..|ops| - 1]);
      assert forall i :: 0 <= i < |ops| - 1 ==> ops[..|ops| - 1][i] == ops[i];
      hide Now;
    }
  }

  /** A clock never initialised stays so until the first operation that is not refused, and from
      there on runs as one begun at that moment. */
  lemma {:induction false} UninitialisedBeginsAtFirstChange(ops: seq<Op>, k: nat)
    requires k < |ops| && Anchors(ops[k]) && forall i :: 0 <= i < k ==> !Anchors(ops[i])
    ensures Run(None, ops[..k]) == None
    ensures Run(None, ops) == Run(Some(BegunAt(ops[k].wall)), ops[k..])
    decreases |ops|
  {
    var before, last := ops[..|ops| - 1], ops[|ops| - 1];
    var tail := ops[k..];
    assert tail[|tail| - 1] == last && tail[..|tail| - 1] == before[k..];
    UninitialisedExactly(ops[..k]);
    if k == |ops| - 1 {
      assert ops[..k] == before && tail[..0] == [];
      assert Next(None, last) == Next(Some(BegunAt(last.wall)), last);
    } else {
      hide Now;
      assert before[..k] == ops[..k];
      UninitialisedBeginsAtFirstChange(before, k);
    }
  }

  /** A clock never initialised is called paused and reports the wall clock. */
  lemma UninitialisedIsTheWall(wall: real)
    ensures Now(None, wall) == wall && StateAt(None, wall).mode == Paused
  {}

  // ---- epochs -----------------------------------------------------------------------------------------

  /** `current_epoch`, for epochs anchored at `genesis`. */
  function Epoch(now: real, genesis: real, duration: nat): nat
    requires duration > 0
  {
    var e := ((now - genesis) / (duration as real)).Floor;
    if e > 0 then e else 0
  }

  lemma ScaleStrictly(a: real, b: real, d: real)
    requires a < b && d > 0.0
    ensures a * d < b * d
  {}

  lemma Scale(a: real, b: real, d: real)
    requires a <= b && d > 0.0
    ensures a * d <= b * d
  {
    if a < b { ScaleStrictly(a, b, d); }
  }

  lemma DivisionIsMonotone(a: real, b: real, d: real)
    requires a <= b && d > 0.0
    ensures a / d <= b / d
  {
    var x, y := a / d, b / d;
    assert x * d == a && y * d == b;
    if y < x { ScaleStrictly(y, x, d); }
  }

  /** The epoch number never decreases as time moves on. */
  lemma EpochsMoveForward(now: real, now': real, genesis: real, duration: nat)
    requires duration > 0 && now <= now'
    ensures Epoch(now, genesis, duration) <= Epoch(now', genesis, duration)
  {
    DivisionIsMonotone(now - genesis, now' - genesis, duration as real);
  }

  lemma QuotientBounds(t: real, d: real, x: real, low: real, high: real)
    requires d > 0.0 && x * d == t && low <= x < high
    ensures low * d <= t < high * d
  {
    Scale(low, x, d);
    ScaleStrictly(x, high, d);
  }

  lemma FloorBounds(t: real, d: real, e: int)
    requires d > 0.0 && e == (t / d).Floor
    ensures e as real * d <= t < (e as real + 1.0) * d
  {
    QuotientBounds(t, d, t / d, e as real, e as real + 1.0);
  }

  /** From genesis on, the epoch is the one the time falls in; before it, zero. */
  lemma EpochIsWhereTimeFalls(now: real, genesis: real, duration: nat)
    requires duration > 0
    ensures var d, e := duration as real, Epoch(now, genesis, duration) as real;
            if now >= genesis then genesis + e * d <= now < genesis + (e + 1.0) * d
            else Epoch(now, genesis, duration) == 0
  {
    var d := duration as real;
    FloorBounds(now - genesis, d, ((now - genesis) / d).Floor);
    if now >= genesis {
      DivisionIsMonotone(0.0, now - genesis, d);
    } else {
      DivisionIsMonotone(now - genesis, 0.0, d);
    }
  }
}

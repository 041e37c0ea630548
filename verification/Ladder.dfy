/** The simulated exit ladder: one daily bar at a time, shared by the single-ticker and the
    portfolio backtests, and the walk that follows one position to its exit. */
module Ladder {
  import opened Prelude
  import opened Indicators

  const TRAIL_ATR_MULT := 2.0
  const ATR_PERIOD := 14

  datatype Reason =
    | StopGap | Stop
    | Target1Gap | Target1 | TargetGap
    | TrailGap | Trail
    | Target2Gap | Target2
    | Time | End

  datatype Event =
    | ExitAll(price: real, reason: Reason)
    | ScaleOut(price: real, reason: Reason)
    | ExitRunner(price: real, reason: Reason)

  datatype Plan = Plan(stop: real, target1: real, target2: real)

  /** A step's exits and the trail afterwards; a position without a trail is in phase 1. */
  datatype Step = Step(events: seq<Event>, trail: Option<real>)

  /** After the first target half is out: the runner is checked against the same bar. */
  function ScaledStep(bar: Candle, plan: Plan, breakeven: real, atr: real, fill: real, reason: Reason): Step {
    var out := ScaleOut(fill, reason);
    var trail := Max(breakeven, fill - TRAIL_ATR_MULT * atr);
    if bar.low <= trail then Step([out, ExitRunner(trail, Trail)], Some(trail))
    else if bar.high >= plan.target2 then Step([out, ExitRunner(plan.target2, Target2)], Some(trail))
    else Step([out], Some(Max(trail, bar.close - TRAIL_ATR_MULT * atr)))
  }

  function LadderStep(bar: Candle, plan: Plan, trail: Option<real>, breakeven: real, atr: real,
          splitExits: bool): Step {
    if trail.None? then
      if bar.open <= plan.stop then Step([ExitAll(bar.open, StopGap)], None)
      else if bar.open >= plan.target1 then
        if splitExits then ScaledStep(bar, plan, breakeven, atr, bar.open, Target1Gap)
        else Step([ExitAll(bar.open, TargetGap)], None)
      else if bar.low <= plan.stop then Step([ExitAll(plan.stop, Stop)], None)
      else if bar.high >= plan.target1 then
        if splitExits then ScaledStep(bar, plan, breakeven, atr, plan.target1, Target1)
        else Step([ExitAll(plan.target1, Target1)], None)
      else Step([], None)
    else if bar.open <= trail.value then Step([ExitRunner(bar.open, TrailGap)], trail)
    else if bar.open >= plan.target2 then Step([ExitRunner(bar.open, Target2Gap)], trail)
    else if bar.low <= trail.value then Step([ExitRunner(trail.value, Trail)], trail)
    else if bar.high >= plan.target2 then Step([ExitRunner(plan.target2, Target2)], trail)
    else Step([], Some(Max(trail.value, bar.close - TRAIL_ATR_MULT * atr)))
  }

  predicate WellFormed(bar: Candle) {
    && 0.0 < bar.low <= bar.open <= bar.high && bar.low <= bar.close <= bar.high
  }

  predicate ScalesOut(step: Step) {
    step.events != [] && step.events[0].ScaleOut?
  }

  /** The shapes a step can take: nothing, one full exit, a runner exit, or a scale-out that
      may be followed by a runner exit; the trail exists from the scale-out on, starts at
      breakeven or above, and never falls. */
  lemma StepShape(bar: Candle, plan: Plan, trail: Option<real>, breakeven: real, atr: real, splitExits: bool)
    requires atr >= 0.0
    ensures var step := LadderStep(bar, plan, trail, breakeven, atr, splitExits);
            && |step.events| <= 2
            && (forall i :: 0 <= i < |step.events| ==> (step.events[i].ScaleOut? <==> i == 0 && ScalesOut(step)))
            && (|step.events| == 2 ==> ScalesOut(step) && step.events[1].ExitRunner?)
            && (|step.events| == 1 && !ScalesOut(step) ==> (step.events[0].ExitAll? <==> trail.None?))
            && (ScalesOut(step) ==> trail.None? && splitExits)
            && (step.trail.Some? <==> trail.Some? || ScalesOut(step))
            && (step.trail.Some? ==> step.trail.value >= if trail.Some? then trail.value else breakeven)
            // a runner that is held has its trail raised to the close less twice the ATR
            && (step.trail.Some? && (step.events == [] || (|step.events| == 1 && ScalesOut(step))) ==>
                  step.trail.value >= bar.close - 2.0 * atr)
  {
  }

  /** On a well-formed bar every fill is a price the bar reached, with exactly two exceptions,
      both on the bar of the scale-out: the runner is stopped at a breakeven that lies
      above the bar, or is sold at a second target that lies below it. */
  lemma FillsAreReachedIff(bar: Candle, plan: Plan, trail: Option<real>, breakeven: real, atr: real, splitExits: bool)
    requires WellFormed(bar) && atr >= 0.0
    ensures var step := LadderStep(bar, plan, trail, breakeven, atr, splitExits);
            && ((exists e :: e in step.events && e.price > bar.high) <==> ScalesOut(step) && breakeven > bar.high)
            && ((exists e :: e in step.events && e.price < bar.low) <==>
                ScalesOut(step) && bar.low > Max(breakeven, step.events[0].price - TRAIL_ATR_MULT * atr) && plan.target2 < bar.low)
  {
    var step := LadderStep(bar, plan, trail, breakeven, atr, splitExits);
    if ScalesOut(step) {
      assert step == ScaledStep(bar, plan, breakeven, atr, step.events[0].price, step.events[0].reason);
      assert bar.low <= step.events[0].price <= bar.high;
      if |step.events| == 2 {
        assert step.events[1] in step.events;
      }
    }
  }

  /** Within a bar the worst case comes first. In phase 1 the stop takes everything, at the
      stop or a lower open, exactly when the bar touches it without opening at the target;
      otherwise the first target is sold, at the target or a higher open, exactly when the
      bar reaches it. */
  lemma StopComesFirst(bar: Candle, plan: Plan, breakeven: real, atr: real, splitExits: bool)
    requires WellFormed(bar)
    ensures var step := LadderStep(bar, plan, None, breakeven, atr, splitExits);
            var stopped := bar.open <= plan.stop || (bar.low <= plan.stop && bar.open < plan.target1);
            && (stopped ==> |step.events| == 1 && step.events[0].ExitAll? && step.events[0].price == Min(bar.open, plan.stop)
                            && (step.events[0].reason.StopGap? || step.events[0].reason.Stop?))
            && (!stopped && bar.high >= plan.target1 ==>
                  && step.events != [] && step.events[0].price == Max(bar.open, plan.target1)
                  && (if splitExits then step.events[0].ScaleOut? else step.events[0].ExitAll?))
            && (!stopped && bar.high < plan.target1 ==> step == Step([], None))
  {
  }

  /** In phase 2 the trail takes the runner, at the trail or a lower open, exactly when the
      bar touches it without opening at the second target; otherwise the second target
      does, at the target or a higher open, exactly when the bar reaches it. */
  lemma TrailComesFirst(bar: Candle, plan: Plan, trail: real, breakeven: real, atr: real, splitExits: bool)
    requires WellFormed(bar)
    ensures var step := LadderStep(bar, plan, Some(trail), breakeven, atr, splitExits);
            var stopped := bar.open <= trail || (bar.low <= trail && bar.open < plan.target2);
            && (stopped ==> |step.events| == 1 && step.events[0].ExitRunner? && step.events[0].price == Min(bar.open, trail))
            && (!stopped && bar.high >= plan.target2 ==>
                  |step.events| == 1 && step.events[0].ExitRunner? && step.events[0].price == Max(bar.open, plan.target2))
            && (!stopped && bar.high < plan.target2 ==> step.events == [])
  {
  }

  /** The limit lies a margin above the signal's close; the bar is the next one. */
  function LimitEntryFill(bar: Candle, signalClose: real, limitPct: Option<real>): Option<real> {
    if limitPct.None? then Some(bar.open) else
      var limit := signalClose * (1.0 + limitPct.value);
      if bar.open <= limit then Some(bar.open)
      else if bar.low <= limit then Some(limit)
      else None
  }

  /** The order fills exactly when the bar trades at the limit or below, at a price the bar
      reached, never above the limit and never above the open. */
  lemma EntryFillsIff(bar: Candle, signalClose: real, limitPct: real)
    requires WellFormed(bar)
    ensures var limit, fill := signalClose * (1.0 + limitPct), LimitEntryFill(bar, signalClose, Some(limitPct));
            && (fill.Some? <==> bar.low <= limit)
            && (fill.Some? ==> fill.value == Min(bar.open, limit) && bar.low <= fill.value <= bar.high)
  {
  }

  // ---- the walk ----

  /** A sold part of the position, and the bar on which it was filled. */
  datatype Leg = Leg(bar: nat, weight: real, price: real)

  datatype Outcome = Whole(reason: Reason) | Halves(first: Reason, second: Reason)

  datatype Walk =
    | Holding(trail: Option<real>, legs: seq<Leg>, first: Reason)
    | Left(legs: seq<Leg>, exitAt: nat, outcome: Outcome)

  /** What the events of bar j do to the walk. */
  function Taken(w: Walk, events: seq<Event>, j: nat): Walk
    requires w.Holding?
    decreases |events|
  {
    if events == [] then w
    else match events[0]
      case ExitAll(price, reason) => Left(w.legs + [Leg(j, 1.0, price)], j, Whole(reason))
      case ScaleOut(price, reason) => Taken(w.(legs := w.legs + [Leg(j, 0.5, price)], first := reason), events[1..], j)
      case ExitRunner(price, reason) => Left(w.legs + [Leg(j, 0.5, price)], j, Halves(w.first, reason))
  }

  /** How the ladder measures volatility: a function of the bars it is shown. */
  type Measure = seq<Candle> -> real

  /** The measure in use. */
  function LatestAtr14(): Measure {
    candles => LatestAtr(candles, ATR_PERIOD)
  }

  /** The measure at each bar, as `ladder_step` is handed it: it sees no later bar. */
  function AtrOf(candles: seq<Candle>, measure: Measure): nat -> real {
    (j: nat) => if j < |candles| then measure(candles[..j + 1]) else 0.0
  }

  /** A volatility measure that is never negative from some bar on. */
  ghost predicate RangesFrom(atr: nat -> real, start: nat) {
    forall j: nat :: start <= j ==> atr(j) >= 0.0
  }

  /** The ATR is such a measure from bar 1 on, where a true range exists. */
  lemma AtrRanges(candles: seq<Candle>)
    ensures RangesFrom(AtrOf(candles, LatestAtr14()), 1)
  {
    forall j: nat | 1 <= j < |candles| ensures AtrOf(candles, LatestAtr14())(j) >= 0.0 {
      LatestAtrIsNotNegative(candles[..j + 1], ATR_PERIOD);
    }
  }

  function StepAt(candles: seq<Candle>, atr: nat -> real, j: nat, plan: Plan, trail: Option<real>, entry: real,
          splitExits: bool): Step
    requires j < |candles|
  {
    LadderStep(candles[j], plan, trail, entry, atr(j), splitExits)
  }

  /** The walk after the bars from `start` up to, not including, j. */
  function WalkTo(candles: seq<Candle>, atr: nat -> real, start: nat, j: nat, plan: Plan, entry: real,
          splitExits: bool): Walk
    requires start <= j <= |candles|
  {
    if j == start then Holding(None, [], Time)
    else
      var w := WalkTo(candles, atr, start, j - 1, plan, entry, splitExits);
      if w.Left? then w else
        var step := StepAt(candles, atr, j - 1, plan, w.trail, entry, splitExits);
        Taken(w.(trail := step.trail), step.events, j - 1)
  }

  /** A walk that no exit has ended by the last bar ends at its close. */
  function Expired(w: Walk, last: nat, close: real): Walk {
    if w.Left? then w
    else if w.trail.None? then Left([Leg(last, 1.0, close)], last, Whole(Time))
    else Left(w.legs + [Leg(last, 0.5, close)], last, Halves(w.first, Time))
  }

  /** The whole walk; with no bar to walk (`last` before `start`) it closes at `last` at once. */
  function WholeWalk(candles: seq<Candle>, atr: nat -> real, start: nat, last: nat, plan: Plan, entry: real,
          splitExits: bool): (w: Walk)
    requires last < |candles| && start <= last + 1
    ensures w.Left?
  {
    Expired(WalkTo(candles, atr, start, last + 1, plan, entry, splitExits), last, candles[last].close)
  }

  lemma LeftStaysLeft(candles: seq<Candle>, atr: nat -> real, start: nat, j: nat, k: nat, plan: Plan, entry: real,
          splitExits: bool)
    requires start <= j <= k <= |candles| && WalkTo(candles, atr, start, j, plan, entry, splitExits).Left?
    ensures WalkTo(candles, atr, start, k, plan, entry, splitExits) == WalkTo(candles, atr, start, j, plan, entry, splitExits)
    decreases k
  {
    if j < k {
      LeftStaysLeft(candles, atr, start, j, k - 1, plan, entry, splitExits);
    }
  }

  /** The loop over one bar's events. */
  method TakeEvents(trail: Option<real>, legs: seq<Leg>, first: Reason, events: seq<Event>, j: nat) returns (w: Walk)
    ensures w == Taken(Holding(trail, legs, first), events, j)
  {
    var now, reason := legs, first;
    for e := 0 to |events|
      invariant Taken(Holding(trail, legs, first), events, j) == Taken(Holding(trail, now, reason), events[e..], j)
    {
      assert events[e..][1..] == events[e + 1..];
      match events[e] {
        case ExitAll(price, why) => return Left(now + [Leg(j, 1.0, price)], j, Whole(why));
        case ScaleOut(price, why) => now, reason := now + [Leg(j, 0.5, price)], why;
        case ExitRunner(price, why) => return Left(now + [Leg(j, 0.5, price)], j, Halves(reason, why));
      }
    }
    w := Holding(trail, now, reason);
  }

  /** One round of the loop over the bars. */
  method WalkBar(candles: seq<Candle>, atr: nat -> real, ghost start: nat, j: nat, entry: real, plan: Plan,
          splitExits: bool,
                 trail: Option<real>, legs: seq<Leg>, first: Reason)
    returns (w: Walk)
    requires start <= j < |candles|
    requires WalkTo(candles, atr, start, j, plan, entry, splitExits) == Holding(trail, legs, first)
    ensures w == WalkTo(candles, atr, start, j + 1, plan, entry, splitExits)
  {
    var step := StepAt(candles, atr, j, plan, trail, entry, splitExits);
    w := TakeEvents(step.trail, legs, first, step.events, j);
  }

  /** The loop over the bars, with its trail, legs and first outcome. */
  method WalkExits(candles: seq<Candle>, atr: nat -> real, start: nat, last: nat, entry: real, plan: Plan,
          splitExits: bool)
    returns (legs: seq<Leg>, exitAt: nat, outcome: Outcome)
    requires last < |candles| && start <= last + 1
    ensures Left(legs, exitAt, outcome) == WholeWalk(candles, atr, start, last, plan, entry, splitExits)
  {
    var trail: Option<real>, first := None, Time;
    legs := [];
    for j := start to last + 1
      invariant WalkTo(candles, atr, start, j, plan, entry, splitExits) == Holding(trail, legs, first)
    {
      var w := WalkBar(candles, atr, start, j, entry, plan, splitExits, trail, legs, first);
      if w.Left? {
        LeftStaysLeft(candles, atr, start, j + 1, last + 1, plan, entry, splitExits);
        return w.legs, w.exitAt, w.outcome;
      }
      trail, legs, first := w.trail, w.legs, w.first;
    }
    var close := candles[last].close;
    if trail.None? { return [Leg(last, 1.0, close)], last, Whole(Time); }
    legs, exitAt, outcome := legs + [Leg(last, 0.5, close)], last, Halves(first, Time);
  }

  // ---- what every walk keeps ----

  lemma {:induction false} TakenEndsHere(w: Walk, events: seq<Event>, j: nat)
    requires w.Holding?
    ensures Taken(w, events, j).Left? ==> Taken(w, events, j).exitAt == j
    decreases |events|
  {
    if events != [] && events[0].ScaleOut? {
      TakenEndsHere(w.(legs := w.legs + [Leg(j, 0.5, events[0].price)], first := events[0].reason), events[1..], j);
    }
  }

  /** A walk ends on a bar it walked. */
  lemma {:induction false} WalkEndsInside(candles: seq<Candle>, atr: nat -> real, start: nat, j: nat, plan: Plan,
          entry: real, splitExits: bool)
    requires start <= j <= |candles|
    ensures var w := WalkTo(candles, atr, start, j, plan, entry, splitExits); w.Left? ==> start <= w.exitAt < j
    decreases j
  {
    if start < j {
      WalkEndsInside(candles, atr, start, j - 1, plan, entry, splitExits);
      var w := WalkTo(candles, atr, start, j - 1, plan, entry, splitExits);
      if w.Holding? {
        var step := StepAt(candles, atr, j - 1, plan, w.trail, entry, splitExits);
        TakenEndsHere(w.(trail := step.trail), step.events, j - 1);
      }
    }
  }

  function TotalWeight(legs: seq<Leg>): real {
    if legs == [] then 0.0 else TotalWeight(legs[..|legs| - 1]) + legs[|legs| - 1].weight
  }

  lemma HalfAdded(legs: seq<Leg>, leg: Leg)
    ensures TotalWeight(legs + [leg]) == TotalWeight(legs) + leg.weight
  {
    assert (legs + [leg])[..|legs|] == legs;
  }

  /** Before the scale-out nothing is sold; after it, exactly one half, and the trail is at
      breakeven or above. */
  predicate Consistent(w: Walk, entry: real) {
    if w.Holding? then
      if w.trail.None? then w.legs == [] else |w.legs| == 1 && w.legs[0].weight == 0.5 && w.trail.value >= entry
    else
      || (|w.legs| == 1 && w.legs[0].weight == 1.0)
      || (|w.legs| == 2 && w.legs[0].weight == 0.5 == w.legs[1].weight)
  }

  lemma StepKeepsConsistent(w: Walk, candles: seq<Candle>, atr: nat -> real, j: nat, plan: Plan, entry: real,
          splitExits: bool)
    requires j < |candles| && w.Holding? && Consistent(w, entry) && atr(j) >= 0.0
    ensures var step := StepAt(candles, atr, j, plan, w.trail, entry, splitExits);
            var next := Taken(w.(trail := step.trail), step.events, j);
            && Consistent(next, entry)
            && (next.Holding? && w.trail.Some? ==> next.trail.Some? && next.trail.value >= w.trail.value)
  {
    var step := StepAt(candles, atr, j, plan, w.trail, entry, splitExits);
    StepShape(candles[j], plan, w.trail, entry, atr(j), splitExits);
  }

  lemma {:induction false} WalkStaysConsistent(candles: seq<Candle>, atr: nat -> real, start: nat, j: nat,
          plan: Plan, entry: real, splitExits: bool)
    requires start <= j <= |candles| && RangesFrom(atr, start)
    ensures var w := WalkTo(candles, atr, start, j, plan, entry, splitExits);
            Consistent(w, entry)
    decreases j
  {
    if start < j {
      WalkStaysConsistent(candles, atr, start, j - 1, plan, entry, splitExits);
      var w := WalkTo(candles, atr, start, j - 1, plan, entry, splitExits);
      if w.Holding? {
        StepKeepsConsistent(w, candles, atr, j - 1, plan, entry, splitExits);
      }
    }
  }

  /** Once the runner phase has begun the trail never falls and stays at breakeven or above. */
  lemma {:induction false} TrailNeverFalls(candles: seq<Candle>, atr: nat -> real, start: nat, j: nat, k: nat,
          plan: Plan, entry: real, splitExits: bool)
    requires start <= j <= k <= |candles| && RangesFrom(atr, start)
    requires WalkTo(candles, atr, start, j, plan, entry, splitExits).Holding? && WalkTo(candles, atr, start, k, plan, entry, splitExits).Holding?
    requires WalkTo(candles, atr, start, j, plan, entry, splitExits).trail.Some?
    ensures WalkTo(candles, atr, start, k, plan, entry, splitExits).trail.Some?
    ensures entry <= WalkTo(candles, atr, start, j, plan, entry, splitExits).trail.value
    ensures WalkTo(candles, atr, start, j, plan, entry, splitExits).trail.value <= WalkTo(candles, atr, start, k, plan, entry, splitExits).trail.value
    decreases k
  {
    WalkStaysConsistent(candles, atr, start, j, plan, entry, splitExits);
    if j < k {
      WalkStaysConsistent(candles, atr, start, k - 1, plan, entry, splitExits);
      TrailNeverFalls(candles, atr, start, j, k - 1, plan, entry, splitExits);
      StepKeepsConsistent(WalkTo(candles, atr, start, k - 1, plan, entry, splitExits), candles, atr, k - 1, plan, entry, splitExits);
    }
  }

  /** Every walk sells the whole position, once, on a bar it walked. */
  lemma WeightsSumToOne(candles: seq<Candle>, atr: nat -> real, start: nat, last: nat, plan: Plan, entry: real,
          splitExits: bool)
    requires start <= last + 1 && last < |candles| && RangesFrom(atr, start)
    ensures var w := WholeWalk(candles, atr, start, last, plan, entry, splitExits);
            TotalWeight(w.legs) == 1.0 && w.exitAt <= last && (start <= last ==> start <= w.exitAt)
  {
    WalkStaysConsistent(candles, atr, start, last + 1, plan, entry, splitExits);
    WalkEndsInside(candles, atr, start, last + 1, plan, entry, splitExits);
    var w := WholeWalk(candles, atr, start, last, plan, entry, splitExits);
    HalfAdded([], w.legs[0]);
    assert w.legs[..1] == [] + [w.legs[0]];
    if |w.legs| == 2 {
      HalfAdded(w.legs[..1], w.legs[1]);
      assert w.legs == w.legs[..1] + [w.legs[1]];
    } else {
      assert w.legs == w.legs[..1];
    }
  }

  // ---- no fill above the bar ----

  predicate AboveItsBar(leg: Leg, candles: seq<Candle>) {
    leg.bar < |candles| && leg.price > candles[leg.bar].high
  }

  /** So far nothing was filled above its bar, unless the walk is over, and then only by a
      runner stopped on the bar of its scale-out at a breakeven above that bar. */
  ghost predicate HonestFills(w: Walk, candles: seq<Candle>, entry: real) {
    (exists i :: 0 <= i < |w.legs| && AboveItsBar(w.legs[i], candles)) <==> StoppedAboveScaleOut(w, candles, entry)
  }

  predicate StoppedAboveScaleOut(w: Walk, candles: seq<Candle>, entry: real) {
    w.Left? && |w.legs| == 2 && w.legs[0].bar < |candles| && entry > candles[w.legs[0].bar].high
  }

  /** While the runner is held, its scale-out bar reached breakeven. */
  predicate ReachedBreakeven(w: Walk, candles: seq<Candle>, entry: real) {
    w.Holding? && w.legs != [] ==> w.legs[0].bar < |candles| && entry <= candles[w.legs[0].bar].high
  }

  lemma TakenTwo(w: Walk, events: seq<Event>, j: nat)
    requires w.Holding? && |events| == 2 && events[0].ScaleOut? && events[1].ExitRunner?
    ensures Taken(w, events, j) ==
            Left(w.legs + [Leg(j, 0.5, events[0].price)] + [Leg(j, 0.5, events[1].price)], j, Halves(events[0].reason, events[1].reason))
  {
    assert events[1..][0] == events[1];
  }

  lemma StepKeepsHonest(w: Walk, candles: seq<Candle>, j: nat, plan: Plan, entry: real, atr: real, splitExits: bool)
    requires j < |candles| && w.Holding? && Consistent(w, entry) && HonestFills(w, candles, entry) && ReachedBreakeven(w, candles, entry)
    requires WellFormed(candles[j]) && atr >= 0.0
    ensures var step := LadderStep(candles[j], plan, w.trail, entry, atr, splitExits);
            var next := Taken(w.(trail := step.trail), step.events, j);
            HonestFills(next, candles, entry) && ReachedBreakeven(next, candles, entry)
  {
    var step := LadderStep(candles[j], plan, w.trail, entry, atr, splitExits);
    StepShape(candles[j], plan, w.trail, entry, atr, splitExits);
    FillsAreReachedIff(candles[j], plan, w.trail, entry, atr, splitExits);
    var next := Taken(w.(trail := step.trail), step.events, j);
    assert forall i :: 0 <= i < |step.events| ==> step.events[i] in step.events;
    assert forall i :: 0 <= i < |w.legs| ==> !AboveItsBar(w.legs[i], candles);
    if |step.events| == 2 {
      TakenTwo(w.(trail := step.trail), step.events, j);
      assert next.legs[1] == Leg(j, 0.5, step.events[1].price);
    }
  }

  lemma {:induction false} WalkStaysHonest(candles: seq<Candle>, atr: nat -> real, start: nat, j: nat, plan: Plan,
          entry: real, splitExits: bool)
    requires start <= j <= |candles| && RangesFrom(atr, start)
    requires forall i :: start <= i < j ==> WellFormed(candles[i])
    ensures var w := WalkTo(candles, atr, start, j, plan, entry, splitExits);
            HonestFills(w, candles, entry) && ReachedBreakeven(w, candles, entry)
    decreases j
  {
    if start < j {
      WalkStaysHonest(candles, atr, start, j - 1, plan, entry, splitExits);
      WalkStaysConsistent(candles, atr, start, j - 1, plan, entry, splitExits);
      var w := WalkTo(candles, atr, start, j - 1, plan, entry, splitExits);
      if w.Holding? {
        StepKeepsHonest(w, candles, j - 1, plan, entry, atr(j - 1), splitExits);
      }
    }
  }

  /** The first half was sold at the first target or better, within its bar. */
  predicate SoldAtTarget(w: Walk, candles: seq<Candle>, plan: Plan) {
    w.legs != [] && w.legs[0].weight == 0.5 ==>
      w.legs[0].bar < |candles| && plan.target1 <= w.legs[0].price <= candles[w.legs[0].bar].high
  }

  lemma StepKeepsSoldAtTarget(w: Walk, candles: seq<Candle>, j: nat, plan: Plan, entry: real, atr: real,
          splitExits: bool)
    requires j < |candles| && w.Holding? && Consistent(w, entry) && SoldAtTarget(w, candles, plan)
    requires WellFormed(candles[j]) && atr >= 0.0
    ensures var step := LadderStep(candles[j], plan, w.trail, entry, atr, splitExits);
            SoldAtTarget(Taken(w.(trail := step.trail), step.events, j), candles, plan)
  {
    var step := LadderStep(candles[j], plan, w.trail, entry, atr, splitExits);
    StepShape(candles[j], plan, w.trail, entry, atr, splitExits);
    if |step.events| == 2 {
      TakenTwo(w.(trail := step.trail), step.events, j);
    }
  }

  lemma {:induction false} FirstHalfAtTarget(candles: seq<Candle>, atr: nat -> real, start: nat, j: nat,
          plan: Plan, entry: real, splitExits: bool)
    requires start <= j <= |candles| && RangesFrom(atr, start)
    requires forall i :: start <= i < j ==> WellFormed(candles[i])
    ensures SoldAtTarget(WalkTo(candles, atr, start, j, plan, entry, splitExits), candles, plan)
    decreases j
  {
    if start < j {
      FirstHalfAtTarget(candles, atr, start, j - 1, plan, entry, splitExits);
      WalkStaysConsistent(candles, atr, start, j - 1, plan, entry, splitExits);
      var w := WalkTo(candles, atr, start, j - 1, plan, entry, splitExits);
      if w.Holding? {
        StepKeepsSoldAtTarget(w, candles, j - 1, plan, entry, atr(j - 1), splitExits);
      }
    }
  }

  lemma ExpiryIsHonest(w: Walk, candles: seq<Candle>, last: nat, entry: real)
    requires last < |candles| && WellFormed(candles[last]) && Consistent(w, entry)
    requires HonestFills(w, candles, entry) && ReachedBreakeven(w, candles, entry)
    ensures HonestFills(Expired(w, last, candles[last].close), candles, entry)
  {
    var x := Expired(w, last, candles[last].close);
    if w.Holding? && w.trail.Some? {
      assert !AboveItsBar(w.legs[0], candles);
      assert x.legs[0] == w.legs[0] && |x.legs| == 2;
    }
  }

  lemma FillAboveHighOfWalk(candles: seq<Candle>, atr: nat -> real, start: nat, last: nat, plan: Plan, entry: real,
          splitExits: bool)
    requires start <= last < |candles| && RangesFrom(atr, start)
    requires forall i :: start <= i <= last ==> WellFormed(candles[i])
    ensures var w := WholeWalk(candles, atr, start, last, plan, entry, splitExits);
            && ((exists i :: 0 <= i < |w.legs| && AboveItsBar(w.legs[i], candles)) <==>
                |w.legs| == 2 && w.legs[0].bar < |candles| && entry > candles[w.legs[0].bar].high)
            && (entry <= plan.target1 ==> forall i :: 0 <= i < |w.legs| ==> !AboveItsBar(w.legs[i], candles))
  {
    var w := WalkTo(candles, atr, start, last + 1, plan, entry, splitExits);
    WalkStaysHonest(candles, atr, start, last + 1, plan, entry, splitExits);
    WalkStaysConsistent(candles, atr, start, last + 1, plan, entry, splitExits);
    FirstHalfAtTarget(candles, atr, start, last + 1, plan, entry, splitExits);
    ExpiryIsHonest(w, candles, last, entry);
  }

  /** A bar that touches neither the stop nor the first target. */
  predicate Quiet(bar: Candle, plan: Plan) {
    plan.stop < bar.low && bar.high < plan.target1
  }

  /** The stop is touched, and not behind an open at the target. */
  predicate StopsOut(bar: Candle, plan: Plan) {
    bar.open <= plan.stop || (bar.low <= plan.stop && bar.open < plan.target1)
  }

  /** The first bar that is not quiet is j, and it reaches the first target before the stop. */
  predicate TargetFirstAt(candles: seq<Candle>, start: nat, j: nat, plan: Plan)
    requires start <= j < |candles|
  {
    && (forall i :: start <= i < j ==> Quiet(candles[i], plan))
    && !Quiet(candles[j], plan) && !StopsOut(candles[j], plan)
  }

  lemma {:induction false} QuietWalk(candles: seq<Candle>, atr: nat -> real, start: nat, j: nat, plan: Plan, entry: real,
          splitExits: bool)
    requires start <= j <= |candles|
    requires forall i :: start <= i < j ==> WellFormed(candles[i]) && Quiet(candles[i], plan)
    ensures WalkTo(candles, atr, start, j, plan, entry, splitExits) == Holding(None, [], Time)
    decreases j
  {
    if start < j {
      QuietWalk(candles, atr, start, j - 1, plan, entry, splitExits);
    }
  }

  lemma {:induction false} TakenKeepsLegs(w: Walk, events: seq<Event>, j: nat)
    requires w.Holding?
    ensures w.legs <= Taken(w, events, j).legs
    decreases |events|
  {
    if events != [] && events[0].ScaleOut? {
      TakenKeepsLegs(w.(legs := w.legs + [Leg(j, 0.5, events[0].price)], first := events[0].reason), events[1..], j);
    }
  }

  lemma {:induction false} LegsStay(candles: seq<Candle>, atr: nat -> real, start: nat, j: nat, k: nat, plan: Plan, entry: real,
          splitExits: bool)
    requires start <= j <= k <= |candles|
    ensures WalkTo(candles, atr, start, j, plan, entry, splitExits).legs <= WalkTo(candles, atr, start, k, plan, entry, splitExits).legs
    decreases k
  {
    if j < k {
      LegsStay(candles, atr, start, j, k - 1, plan, entry, splitExits);
      var w := WalkTo(candles, atr, start, k - 1, plan, entry, splitExits);
      if w.Holding? {
        var step := StepAt(candles, atr, k - 1, plan, w.trail, entry, splitExits);
        TakenKeepsLegs(w.(trail := step.trail), step.events, k - 1);
      }
    }
  }

  /** The first bar that is not quiet decides: one half is sold, or everything. */
  lemma FirstLoudBar(bar: Candle, j: nat, plan: Plan, entry: real, atr: real, splitExits: bool)
    requires WellFormed(bar) && !Quiet(bar, plan)
    ensures var step := LadderStep(bar, plan, None, entry, atr, splitExits);
            var next := Taken(Holding(step.trail, [], Time), step.events, j);
            if splitExits && !StopsOut(bar, plan) then next.legs != [] && next.legs[0].bar == j && next.legs[0].weight == 0.5
            else next.Left? && |next.legs| == 1
  {
    var step := LadderStep(bar, plan, None, entry, atr, splitExits);
    if |step.events| == 2 {
      TakenTwo(Holding(step.trail, [], Time), step.events, j);
    }
  }

  lemma {:induction false} FindFirstLoud(candles: seq<Candle>, start: nat, end: nat, plan: Plan) returns (j: nat)
    requires start <= end <= |candles|
    ensures start <= j <= end && (forall i :: start <= i < j ==> Quiet(candles[i], plan))
    ensures j < end ==> !Quiet(candles[j], plan)
  {
    j := start;
    while j < end && Quiet(candles[j], plan)
      invariant start <= j <= end && forall i :: start <= i < j ==> Quiet(candles[i], plan)
    {
      j := j + 1;
    }
  }

  /** The walk sells in two halves, the first on bar j, exactly if target 1 comes first there. */
  lemma HalvesIff(candles: seq<Candle>, atr: nat -> real, start: nat, last: nat, plan: Plan, entry: real, splitExits: bool, j: nat)
    requires start <= last < |candles| && RangesFrom(atr, start) && start <= j <= last + 1
    requires forall i :: start <= i <= last ==> WellFormed(candles[i])
    requires forall i :: start <= i < j ==> Quiet(candles[i], plan)
    requires j <= last ==> !Quiet(candles[j], plan)
    ensures var w := WholeWalk(candles, atr, start, last, plan, entry, splitExits);
            if j <= last && splitExits && !StopsOut(candles[j], plan) then |w.legs| == 2 && w.legs[0].bar == j
            else |w.legs| == 1
  {
    if j <= last {
      HalvesFrom(candles, atr, start, last, plan, entry, splitExits, j);
    } else {
      QuietWalk(candles, atr, start, j, plan, entry, splitExits);
    }
  }

  lemma HalvesFrom(candles: seq<Candle>, atr: nat -> real, start: nat, last: nat, plan: Plan, entry: real, splitExits: bool, j: nat)
    requires start <= j <= last < |candles| && RangesFrom(atr, start)
    requires forall i :: start <= i <= last ==> WellFormed(candles[i])
    requires forall i :: start <= i < j ==> Quiet(candles[i], plan)
    requires !Quiet(candles[j], plan)
    ensures var w := WholeWalk(candles, atr, start, last, plan, entry, splitExits);
            if splitExits && !StopsOut(candles[j], plan) then |w.legs| == 2 && w.legs[0].bar == j else |w.legs| == 1
  {
    QuietWalk(candles, atr, start, j, plan, entry, splitExits);
    FirstLoudBar(candles[j], j, plan, entry, atr(j), splitExits);
    if splitExits && !StopsOut(candles[j], plan) {
      LegsStay(candles, atr, start, j + 1, last + 1, plan, entry, splitExits);
      WalkStaysConsistent(candles, atr, start, last + 1, plan, entry, splitExits);
      HalfBecomesTwo(WalkTo(candles, atr, start, last + 1, plan, entry, splitExits), last, candles[last].close, entry);
    } else {
      LeftStaysLeft(candles, atr, start, j + 1, last + 1, plan, entry, splitExits);
    }
  }

  lemma HalfBecomesTwo(w: Walk, last: nat, close: real, entry: real)
    requires Consistent(w, entry) && w.legs != [] && w.legs[0].weight == 0.5
    ensures |Expired(w, last, close).legs| == 2 && Expired(w, last, close).legs[0] == w.legs[0]
  {
  }

  /** The walk fills above a bar's high exactly when exits are split and, on the first bar that
      touches stop or target, the target comes first while the bar stays below the entry
      price; an entry at or below the first target rules that out. */
  lemma FillAboveHighIff(candles: seq<Candle>, atr: nat -> real, start: nat, last: nat, plan: Plan, entry: real,
          splitExits: bool)
    requires start <= last < |candles| && RangesFrom(atr, start)
    requires forall i :: start <= i <= last ==> WellFormed(candles[i])
    ensures var w := WholeWalk(candles, atr, start, last, plan, entry, splitExits);
            && ((exists i :: 0 <= i < |w.legs| && AboveItsBar(w.legs[i], candles)) <==>
                splitExits && exists j :: start <= j <= last && TargetFirstAt(candles, start, j, plan) && candles[j].high < entry)
            && (entry <= plan.target1 ==> forall i :: 0 <= i < |w.legs| ==> !AboveItsBar(w.legs[i], candles))
  {
    var j := FindFirstLoud(candles, start, last + 1, plan);
    FillAboveHighOfWalk(candles, atr, start, last, plan, entry, splitExits);
    HalvesIff(candles, atr, start, last, plan, entry, splitExits, j);
    assert forall k :: start <= k <= last && TargetFirstAt(candles, start, k, plan) ==> k == j;
    assert j <= last && !StopsOut(candles[j], plan) ==> TargetFirstAt(candles, start, j, plan);
  }

  /** It does happen: a target below the entry price is touched, the runner's stop sits at
      breakeven above the bar, and the simulator sells it there. */
  lemma RunnerSoldAboveTheBar(bar: Candle, plan: Plan, entry: real, atr: real)
    requires WellFormed(bar) && bar.open > plan.stop && bar.low > plan.stop && atr >= 0.0
    requires bar.open < plan.target1 <= bar.high < entry
    ensures var step := LadderStep(bar, plan, None, entry, atr, true);
            step.events == [ScaleOut(plan.target1, Target1), ExitRunner(entry, Trail)] && entry > bar.high
  {
  }
}

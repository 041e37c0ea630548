/** The live trail moves in steps of a tenth of the ATR, the simulated one continuously. Fed
    the same prices, how far can they drift apart, and who sells first? */
module TrailLag {
  import opened Prelude
  import opened Indicators
  import opened Ladder
  import opened Orders
  import Stops = ProtectiveStops
  import Live = PositionManager
  import Venue

  /** One evaluation: the price, and the ATR known at that time. */
  datatype Reading = Reading(price: real, atr: real)

  function FlatBar(price: real): Candle {
    Candle(0, price, price, price, price, 0)
  }

  /** The simulated trail after n readings; none once the runner is sold. */
  function Simulated(readings: seq<Reading>, n: nat, plan: Plan, entry: real, trail: real): Option<real>
    requires n <= |readings|
  {
    if n == 0 then Some(trail) else
      var before := Simulated(readings, n - 1, plan, entry, trail);
      if before.None? then None else
        var step := LadderStep(FlatBar(readings[n - 1].price), plan, before, entry, readings[n - 1].atr, true);
        if step.events == [] then step.trail else None
  }

  /** The live row after n evaluations; none once the runner is sold. */
  function Held(readings: seq<Reading>, n: nat, buy: Order, quantity: int): Option<Order>
    requires n <= |readings| && buy.avgFill.Some?
    ensures Held(readings, n, buy, quantity).Some? ==>
              Held(readings, n, buy, quantity).value == buy.(trail := Held(readings, n, buy, quantity).value.trail)
  {
    if n == 0 then Some(buy) else
      var before := Held(readings, n - 1, buy, quantity);
      var now := readings[n - 1];
      if before.None? || Live.EvaluateExit(before.value, now.price, quantity, true).Some? then None
      else Some(before.value.(trail := Some(Live.Ratcheted(before.value.trail, now.price, now.atr, buy.avgFill.value))))
  }

  /** The live trail is never above the simulated one, and at most a tenth of the largest ATR below. */
  predicate Lags(live: real, simulated: real, largest: real) {
    live <= simulated <= live + Live.RATCHET_STEP * largest
  }

  /** Both ladders start the runner on the same price and with the same trail. */
  lemma RunnersStartAlike(buy: Order, sellId: string, held: int, q: Live.Quote, plan: Plan)
    requires buy.avgFill.Some? && buy.stopLoss == Some(plan.stop) && buy.target1 == Some(plan.target1)
    requires q.atr >= 0.0 && held > 1
    ensures var step := LadderStep(FlatBar(q.current), plan, None, buy.avgFill.value, q.atr, true);
            var decision := Live.EvaluateExit(buy, q.current, held, false);
            && (ScalesOut(step) <==> decision.Some? && decision.value.scaleOut)
            && (ScalesOut(step) ==> step.trail == Live.ExitLink(buy, sellId, decision.value, q).trail)
  {
  }

  /** The live trail moves up by at least a tenth of the ATR, or not at all. */
  lemma RatchetIsQuantised(trail: real, price: real, atr: real, entry: real)
    requires atr >= 0.0
    ensures var next := Live.Ratcheted(Some(trail), price, atr, entry);
            && (next == trail || next >= trail + 0.1 * atr)
            && (next == trail ==> price - 2.0 * atr < trail + 0.1 * atr || atr == 0.0)
  {
  }

  lemma RatchetKeepsLag(live: real, simulated: real, now: Reading, entry: real, largest: real)
    requires Lags(live, simulated, largest) && entry <= live && 0.0 <= now.atr <= largest
    ensures var l := Live.Ratcheted(Some(live), now.price, now.atr, entry);
            var s := Max(simulated, now.price - TRAIL_ATR_MULT * now.atr);
            Lags(l, s, largest) && entry <= l && live <= l
  {
  }

  /** While the simulator holds the runner, the live ladder holds it too, with a trail that
      lags by at most a tenth of the largest ATR. */
  lemma {:induction false} LagIsBounded(readings: seq<Reading>, n: nat, plan: Plan, buy: Order, quantity: int,
          largest: real)
    requires n <= |readings| && buy.avgFill.Some? && buy.trail.Some? && buy.target2 == Some(plan.target2)
    requires buy.avgFill.value <= buy.trail.value && largest >= 0.0
    requires forall i :: 0 <= i < n ==> 0.0 <= readings[i].atr <= largest
    ensures var s := Simulated(readings, n, plan, buy.avgFill.value, buy.trail.value);
            s.Some? ==>
              var h := Held(readings, n, buy, quantity);
              h.Some? && h.value.trail.Some? && Lags(h.value.trail.value, s.value, largest) && buy.avgFill.value <= h.value.trail.value
  {
    if n > 0 {
      LagIsBounded(readings, n - 1, plan, buy, quantity, largest);
      var s := Simulated(readings, n - 1, plan, buy.avgFill.value, buy.trail.value);
      if s.Some? {
        RatchetKeepsLag(Held(readings, n - 1, buy, quantity).value.trail.value, s.value, readings[n - 1], buy.avgFill.value, largest);
      }
    }
  }

  /** When the simulator sells, the live ladder sells on the same price, unless that price
      lies in the lag: above the live trail and at or below the simulated one. */
  lemma SalesAgreeOutsideTheLag(readings: seq<Reading>, n: nat, plan: Plan, buy: Order, quantity: int, largest: real)
    requires 0 < n <= |readings| && buy.avgFill.Some? && buy.trail.Some? && buy.target2 == Some(plan.target2)
    requires buy.avgFill.value <= buy.trail.value && largest >= 0.0
    requires forall i :: 0 <= i < n ==> 0.0 <= readings[i].atr <= largest
    requires Simulated(readings, n - 1, plan, buy.avgFill.value, buy.trail.value).Some?
    ensures var s := Simulated(readings, n - 1, plan, buy.avgFill.value, buy.trail.value).value;
            var h := Held(readings, n - 1, buy, quantity);
            var price := readings[n - 1].price;
            && h.Some? && h.value.trail.Some?
            && (Simulated(readings, n, plan, buy.avgFill.value, buy.trail.value).None? <==> price <= s || price >= plan.target2)
            && (Held(readings, n, buy, quantity).None? <==> price <= h.value.trail.value || price >= plan.target2)
            && (price <= s - Live.RATCHET_STEP * largest ==> Held(readings, n, buy, quantity).None?)
  {
    LagIsBounded(readings, n - 1, plan, buy, quantity, largest);
  }

  /** The slack of one undisturbed pass, widened to the largest ATR and to the simulated trail. */
  lemma ArmedStopIsNear(row: Order, stops: Venue.Stops, quantity: int, live: real, simulated: real, atr: real,
          largest: real)
    requires Stops.Armed(row, stops, quantity, live, Stops.Slack(live, Live.AMEND_TOLERANCE * atr))
    requires Lags(live, simulated, largest) && 0.0 <= atr <= largest
    ensures var price := stops[row.stop.id.value].price;
            var slack := Max(0.25 * largest, Max(0.000001, Abs(live) * 0.000001));
            Abs(price - live) <= slack && Abs(price - simulated) <= slack + 0.1 * largest
  {
  }

  /** After any number of readings during which the simulator holds the runner: once a calm pass
      has mirrored the live trail at the venue, a stop for exactly the held shares is live
      there, within a quarter of the largest ATR of the live trail (or the price epsilon),
      and within that plus a tenth of the simulated one. */
  lemma MirroredStopIsNear(readings: seq<Reading>, n: nat, plan: Plan, buy: Order, quantity: int, largest: real,
          row: Order, before: Venue.Stops, after: Venue.Stops, freesKeys: bool)
    requires 0 < n <= |readings| && buy.avgFill.Some? && buy.trail.Some? && buy.target2 == Some(plan.target2)
    requires 0.0 < buy.avgFill.value <= buy.trail.value && quantity > 0
    requires forall i :: 0 <= i < n ==> 0.0 <= readings[i].atr <= largest
    requires Simulated(readings, n, plan, buy.avgFill.value, buy.trail.value).Some?
    requires var h := Held(readings, n, buy, quantity);
             h.Some? && h.value.trail.Some? ==>
               && Stops.Converged(h.value, row, before, after, freesKeys, quantity, true, Live.AMEND_TOLERANCE * readings[n - 1].atr)
               && (freesKeys || !Venue.HasGoneKey(before, Stops.KeyOf(buy.id, quantity, h.value.trail.value)))
    ensures var simulated, h := Simulated(readings, n, plan, buy.avgFill.value, buy.trail.value).value, Held(readings, n, buy, quantity);
            && h.Some? && h.value.trail.Some?
            && var live := h.value.trail.value;
            var slack := Max(0.25 * largest, Max(0.000001, Abs(live) * 0.000001));
            && row.stop.id.Some? && Venue.Live(after, row.stop.id.value) && after[row.stop.id.value].quantity == quantity
            && Abs(after[row.stop.id.value].price - live) <= slack
            && Abs(after[row.stop.id.value].price - simulated) <= slack + 0.1 * largest
  {
    LagIsBounded(readings, n, plan, buy, quantity, largest);
    var simulated, live := Simulated(readings, n, plan, buy.avgFill.value, buy.trail.value).value, Held(readings, n, buy, quantity).value.trail.value;
    ArmedStopIsNear(row, after, quantity, live, simulated, readings[n - 1].atr, largest);
  }
}

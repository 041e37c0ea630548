/** The exit ladder of one held buy: evaluate, ratchet the trail, mirror the effective stop
    at the venue, or release the venue stop and submit the bot's own sell. */
module PositionManager {
  import opened Prelude
  import opened Orders
  import opened Venue
  import opened ProtectiveStops
  import opened Conservation
  import Queue = ApprovalQueue

  const TRAIL_ATR_MULT := 2.0
  const RATCHET_STEP := 0.1
  const AMEND_TOLERANCE := 0.25

  datatype Trigger = StopLoss | Target1 | TrailStop | Target2

  datatype Decision = Decision(trigger: Trigger, atMarket: bool, limit: Option<real>, scaleOut: bool)

  /** Maps the position's state and the current price to an exit, or to holding. */
  function EvaluateExit(buy: Order, current: real, held: int, scaledOut: bool): Option<Decision> {
    if scaledOut then
      var effective := if buy.trail.Some? then buy.trail else buy.stopLoss;
      if effective.Some? && current <= effective.value then Some(Decision(TrailStop, true, None, false))
      else if buy.target2.Some? && current >= buy.target2.value then Some(Decision(Target2, false, Some(current), false))
      else None
    else if buy.stopLoss.Some? && current <= buy.stopLoss.value then Some(Decision(StopLoss, true, None, false))
    else if buy.target1.Some? && current >= buy.target1.value then Some(Decision(Target1, false, Some(current), held > 1))
    else None
  }

  /** The target in force: the first before the scale-out, the second after it. */
  function TargetInForce(buy: Order, scaledOut: bool): Option<real> {
    if scaledOut then buy.target2 else buy.target1
  }

  /** The level mirrored at the venue is the level the ladder enforces: the ladder leaves
      through a stop, at market, exactly when the price is at or below the effective stop;
      otherwise through a target, at the current price, exactly when that is reached; it
      keeps a runner exactly at the first target with more than one share. */
  lemma LadderEnforcesEffectiveStop(buy: Order, current: real, held: int, scaledOut: bool)
    ensures var level, target, exit := EffectiveStop(buy, scaledOut), TargetInForce(buy, scaledOut), EvaluateExit(buy, current, held, scaledOut);
            && (level.Some? && current <= level.value <==>
                exit == Some(Decision(if scaledOut then TrailStop else StopLoss, true, None, false)))
            && (target.Some? && current >= target.value && !(level.Some? && current <= level.value) <==>
                exit == Some(Decision(if scaledOut then Target2 else Target1, false, Some(current), !scaledOut && held > 1)))
            && (exit.Some? ==> (exit.value.atMarket <==> level.Some? && current <= level.value))
  {
  }

  predicate HasCompletedScaleOut(buy: Order, book: Book) {
    exists id :: id in buy.partialIds && id in book
      && (book[id].filled > 0 || (book[id].status == Filled && book[id].request.quantity > 0))
  }

  /** The trail a runner is armed with. */
  function InitialTrail(current: real, atr: real, breakeven: real): real {
    Max(current - TRAIL_ATR_MULT * atr, breakeven)
  }

  /** The trail after one evaluation: raised only by at least a tenth of the ATR. */
  function Ratcheted(trail: Option<real>, current: real, atr: real, breakeven: real): real {
    var candidate := InitialTrail(current, atr, breakeven);
    if trail.Some? && candidate - trail.value < RATCHET_STEP * atr then trail.value else candidate
  }

  /** The larger half leaves at the first target; every other exit takes all. */
  function ExitQuantity(held: int, decision: Decision): int {
    if decision.scaleOut then (held + 1) / 2 else held
  }

  /** A scale-out sells the larger half and keeps a runner; every other exit sells all. */
  lemma ScaleOutKeepsARunner(held: int, decision: Decision)
    requires held > 0 && (decision.scaleOut ==> held > 1)
    ensures var sold := ExitQuantity(held, decision);
            if decision.scaleOut then 0 < held - sold <= sold <= held - sold + 1 else sold == held
  {
  }

  /** What one pass learns from outside: the market, the quote, the ATR, the broker's holding. */
  datatype Quote = Quote(marketOpen: bool, current: real, atr: real, actual: Option<int>)

  /** The queue operations of one pass: does each write land, does the queue admit the sell,
      and how does its approval end (or is it refused before the broker is called). */
  datatype Writes = Writes(trailSaved: bool, linkSaved: bool, admitted: bool, placement: Option<Queue.Placement>)

  /** The link of a submitted sell was saved, or its approval ended in a rejection, after which
      nothing needs the link. */
  predicate LinkHolds(w: Writes) {
    w.linkSaved || (w.placement.Some? && !Working(Queue.PlacedStatus(w.placement.value)))
  }

  datatype Report =
    | Skipped
    | Deferred
    | Holding
    | ClosedOutside(stopReleased: bool)
    | StopNotReleased
    | NotQueued
    | SellSubmitted

  /** While a sell the bot placed for a position is working, it is the only one, the position
      links to it and has no live venue stop. */
  ghost predicate OneSeller(placedFor: map<string, string>, rows: Book, stops: Stops) {
    && (forall s :: s in placedFor ==>
          && s in rows && rows[s].request.side == Sell && placedFor[s] in rows
          && (Working(rows[s].status) ==> s in LinkIds(rows[placedFor[s]]) && NothingLive(placedFor[s], stops)))
    && OnlyWorker(placedFor, rows)
  }

  /** No two sells of one position are working. */
  ghost predicate OnlyWorker(placedFor: map<string, string>, rows: Book) {
    forall s, t :: WorksFor(placedFor, rows, s) && WorksFor(placedFor, rows, t) && placedFor[s] == placedFor[t] ==> s == t
  }

  predicate WorksFor(placedFor: map<string, string>, rows: Book, s: string) {
    s in placedFor && s in rows && Working(rows[s].status)
  }

  /** The shares of one position are on offer twice: by a working sell and by a live venue stop
      or a second working sell. */
  ghost predicate TwoSellers(placedFor: map<string, string>, rows: Book, stops: Stops, b: string) {
    exists s :: WorksFor(placedFor, rows, s) && placedFor[s] == b
      && (!NothingLive(b, stops) || exists t :: t != s && WorksFor(placedFor, rows, t) && placedFor[t] == b)
  }

  /** What the invariant promises. */
  lemma OneSellerMeansNotTwo(placedFor: map<string, string>, rows: Book, stops: Stops, b: string)
    requires OneSeller(placedFor, rows, stops)
    ensures !TwoSellers(placedFor, rows, stops, b)
  {
  }

  /** A generated id that no row, link, stop or earlier sell uses. */
  predicate Unused(id: string, rows: Book, stops: Stops, placedFor: map<string, string>) {
    && id !in rows && id !in placedFor
    && (forall b :: b in rows ==> id !in LinkIds(rows[b]))
    && forall s :: s in stops ==> stops[s].key.buyId != id
  }

  lemma AddRowKeepsProtected(rows: Book, row: Order, stops: Stops, next: nat)
    requires Protected(rows, stops, next) && row.stop == NO_STOP
    requires forall s :: s in stops ==> stops[s].key.buyId != row.id
    ensures Protected(rows[row.id := row], stops, next)
  {
  }

  /** With nothing live, a position's row may be written whole. */
  lemma WriteKeepsProtected(rows: Book, row: Order, stops: Stops, next: nat)
    requires Protected(rows, stops, next) && NothingLive(row.id, stops) && Sound(row, stops, next)
    ensures Protected(rows[row.id := row], stops, next)
  {
  }

  /** A working sell that keeps its links may change its status and its fills. */
  lemma ProgressKeepsOneSeller(placedFor: map<string, string>, rows: Book, stops: Stops, row: Order)
    requires OneSeller(placedFor, rows, stops) && row.id in rows && IsProgress(rows[row.id], row)
    ensures OneSeller(placedFor, rows[row.id := row], stops)
  {
    assert LinkIds(row) == LinkIds(rows[row.id]);
  }

  lemma LinkingKeepsOnlyWorker(placedFor: map<string, string>, rows: Book, stops: Stops, sell: Order, linked: Order)
    requires OneSeller(placedFor, rows, stops) && Unused(sell.id, rows, stops, placedFor)
    requires linked.id in rows && rows[linked.id].request.side == Buy && !HasWorkingSell(rows[linked.id], rows)
    ensures OnlyWorker(placedFor[sell.id := linked.id], AfterExit(rows, sell, linked, true))
  {
    var placed, after := placedFor[sell.id := linked.id], AfterExit(rows, sell, linked, true);
    forall s | WorksFor(placed, after, s) && s != sell.id ensures WorksFor(placedFor, rows, s) && placedFor[s] != linked.id {
      assert s != linked.id && s in LinkIds(rows[placedFor[s]]);
    }
  }

  /** An idle, unarmed position may take on a sell that it links to, replacing its exit or not. */
  lemma LinkingKeepsOneSeller(placedFor: map<string, string>, rows: Book, stops: Stops, sell: Order, linked: Order)
    requires OneSeller(placedFor, rows, stops) && Unused(sell.id, rows, stops, placedFor) && sell.request.side == Sell
    requires linked.id in rows && rows[linked.id].request.side == Buy && !HasWorkingSell(rows[linked.id], rows)
    requires sell.id in LinkIds(linked) && NothingLive(linked.id, stops)
    ensures OneSeller(placedFor[sell.id := linked.id], AfterExit(rows, sell, linked, true), stops)
  {
    var after := AfterExit(rows, sell, linked, true);
    LinkingKeepsOnlyWorker(placedFor, rows, stops, sell, linked);
    forall s | s in placedFor && Working(after[s].status)
      ensures s in LinkIds(after[placedFor[s]]) && NothingLive(placedFor[s], stops)
    {
      assert s != linked.id && s in LinkIds(rows[placedFor[s]]);
    }
  }

  /** The exact price of a lost link: with or without it the sell is placed, and the single
      seller is kept exactly if the link was saved or the sell is already done for. */
  lemma ExitKeepsOneSellerIff(placedFor: map<string, string>, rows: Book, stops: Stops, sell: Order, linked: Order, linkSaved: bool)
    requires OneSeller(placedFor, rows, stops) && Unused(sell.id, rows, stops, placedFor) && sell.request.side == Sell
    requires linked.id in rows && rows[linked.id].request.side == Buy && !HasWorkingSell(rows[linked.id], rows)
    requires sell.id in LinkIds(linked) && NothingLive(linked.id, stops)
    ensures OneSeller(placedFor[sell.id := linked.id], AfterExit(rows, sell, linked, linkSaved), stops) <==>
            linkSaved || !Working(sell.status)
  {
    if linkSaved {
      LinkingKeepsOneSeller(placedFor, rows, stops, sell, linked);
    } else {
      var after := AfterExit(rows, sell, linked, false);
      forall s | s in placedFor ensures s in after && after[s] == rows[s] && placedFor[s] != sell.id {
      }
    }
  }

  class PositionManager {
    const keeper: StopKeeper
    const account: Scope
    /** Every sell the bot placed, with the buy it was placed for. */
    var placedFor: map<string, string>

    ghost predicate SingleSeller()
      reads this, keeper, keeper.venue
    {
      OneSeller(placedFor, keeper.rows, keeper.venue.stops)
    }

    constructor (keeper: StopKeeper, account: Scope)
      ensures this.keeper == keeper && this.account == account && SingleSeller()
    {
      this.keeper, this.account := keeper, account;
      placedFor := map[];
    }

    /** The sell joins the queue, and the buy is linked to it unless that write is lost. */
    method EnqueueAndLink(buy: Order, sell: Order, linked: Order, linkSaved: bool)
      requires keeper.Valid() && buy.id in keeper.rows && linked.id == buy.id && sell.stop == NO_STOP
      requires Unused(sell.id, keeper.rows, keeper.venue.stops, placedFor)
      requires NothingLive(buy.id, keeper.venue.stops) && Sound(linked, keeper.venue.stops, keeper.venue.next)
      requires sell.id in LinkIds(linked) && sell.request.side == Sell && keeper.rows[buy.id].request.side == Buy
      requires !HasWorkingSell(keeper.rows[buy.id], keeper.rows)
      modifies this`placedFor, keeper`rows
      ensures keeper.Valid() && placedFor == old(placedFor)[sell.id := buy.id]
      ensures keeper.rows == AfterExit(old(keeper.rows), sell, linked, linkSaved)
      ensures old(SingleSeller()) && linkSaved ==> SingleSeller()
    {
      AddRowKeepsProtected(keeper.rows, sell, keeper.venue.stops, keeper.venue.next);
      keeper.rows := keeper.rows[sell.id := sell];
      placedFor := placedFor[sell.id := buy.id];
      WriteKeepsProtected(keeper.rows, linked, keeper.venue.stops, keeper.venue.next);
      if old(SingleSeller()) {
        LinkingKeepsOneSeller(old(placedFor), old(keeper.rows), keeper.venue.stops, sell, linked);
      }
      var _ := keeper.Update(linked, linkSaved);
    }

    /** Approval of the sell, which may be refused before the broker is called. */
    method ApproveSell(sellId: string, placement: Option<Queue.Placement>, now: int)
      requires keeper.Valid() && sellId in keeper.rows && Working(keeper.rows[sellId].status) && keeper.rows[sellId].stop == NO_STOP
      requires forall s :: s in keeper.venue.stops ==> keeper.venue.stops[s].key.buyId != sellId
      modifies keeper`rows
      ensures keeper.Valid()
      ensures placement.None? ==> keeper.rows == old(keeper.rows)
      ensures placement.Some? ==>
                keeper.rows == old(keeper.rows)[sellId :=
                  Queue.PlacedRow(Queue.SubmittingRow(old(keeper.rows)[sellId], account, now), account, placement.value, now)]
      ensures old(SingleSeller()) ==> SingleSeller()
    {
      if placement.Some? {
        var placed := Queue.PlacedRow(Queue.SubmittingRow(keeper.rows[sellId], account, now), account, placement.value, now);
        AddRowKeepsProtected(keeper.rows, placed, keeper.venue.stops, keeper.venue.next);
        if SingleSeller() {
          ProgressKeepsOneSeller(placedFor, keeper.rows, keeper.venue.stops, placed);
        }
        keeper.rows := keeper.rows[sellId := placed];
      }
    }

    /** The sell joins the queue, is linked and goes out: if the link write is lost, all the same. */
    method SubmitExit(buy: Order, sellId: string, decision: Decision, quantity: int, q: Quote, now: int, w: Writes)
      returns (report: Report)
      requires keeper.Valid() && buy.id in keeper.rows && (decision.scaleOut ==> buy.avgFill.Some?) && keeper.rows[buy.id].request.side == Buy
      requires Unused(sellId, keeper.rows, keeper.venue.stops, placedFor)
      requires NothingLive(buy.id, keeper.venue.stops) && Sound(buy, keeper.venue.stops, keeper.venue.next)
      requires !HasWorkingSell(keeper.rows[buy.id], keeper.rows)
      modifies this`placedFor, keeper`rows
      ensures keeper.Valid()
      ensures report == if w.admitted then SellSubmitted else NotQueued
      ensures placedFor == if w.admitted then old(placedFor)[sellId := buy.id] else old(placedFor)
      ensures w.admitted ==>
                keeper.rows == AfterExit(old(keeper.rows), ExitSell(buy, sellId, quantity, account, now, w.placement),
                                         ExitLink(buy, sellId, decision, q), w.linkSaved)
      ensures !w.admitted ==> keeper.rows == old(keeper.rows)
      ensures old(SingleSeller()) ==> (SingleSeller() <==> !report.SellSubmitted? || LinkHolds(w))
    {
      if !w.admitted { return NotQueued; }
      var linked := ExitLink(buy, sellId, decision, q);
      ExitLinkIsSafe(buy, sellId, decision, q, keeper.venue.stops, keeper.venue.next);
      EnqueueAndLink(buy, PendingSell(sellId, buy, quantity), linked, w.linkSaved);
      ApproveSell(sellId, w.placement, now);
      report := SellSubmitted;
      if old(SingleSeller()) {
        ExitKeepsOneSellerIff(old(placedFor), old(keeper.rows), keeper.venue.stops,
                              ExitSell(buy, sellId, quantity, account, now, w.placement), linked, w.linkSaved);
      }
      WritesCommute(old(keeper.rows), PendingSell(sellId, buy, quantity),
                    ExitSell(buy, sellId, quantity, account, now, w.placement), linked, w.linkSaved);
    }

    /** The runner's trail is raised, then the effective stop is mirrored at the venue. */
    method Hold(buy: Order, held: int, scaledOut: bool, q: Quote, enabled: bool, now: int, f: Faults, trailSaved: bool)
      returns (r: Order)
      requires keeper.Valid() && Stored(buy, keeper.rows) && buy.avgFill.Some?
      requires !HasWorkingSell(buy, keeper.rows) && buy.request.side == Buy
      modifies keeper, keeper.venue
      ensures keeper.Valid() && Touches(buy.id, old(keeper.rows), keeper.rows) && OnlyOf(buy.id, old(keeper.venue.stops), keeper.venue.stops)
      ensures r == buy.(trail := HeldTrail(buy, scaledOut, q, trailSaved), stop := r.stop)
      ensures enabled && keeper.venue.supported && Calm(buy, old(keeper.venue.stops), old(keeper.cache), now, f) ==>
                keeper.InStep(r) && Converged(buy.(trail := r.trail), r, old(keeper.venue.stops), keeper.venue.stops,
                                              keeper.venue.freesKeys, held, scaledOut, AMEND_TOLERANCE * q.atr)
      ensures !enabled ==> keeper.venue.stops == old(keeper.venue.stops)
      ensures old(SingleSeller()) ==> SingleSeller()
    {
      r := buy;
      if scaledOut {
        var raised := buy.(trail := Some(Ratcheted(buy.trail, q.current, q.atr, buy.avgFill.value)));
        if raised != buy {
          RewriteKeepsProtected(keeper.rows, raised, keeper.venue.stops, keeper.venue.next);
          var saved := keeper.Update(raised, trailSaved);
          r := if saved then raised else buy;
        }
      }
      r := keeper.Sync(r, held, scaledOut, enabled, AMEND_TOLERANCE * q.atr, now, f);
      if old(SingleSeller()) {
        TouchingKeepsOneSeller(placedFor, old(keeper.rows), keeper.rows, old(keeper.venue.stops), keeper.venue.stops, buy.id);
      }
    }

    /** The position is gone at the broker: a synthetic sell closes it in the queue. */
    method CloseOutside(b: string, syntheticId: string, now: int)
      requires keeper.Valid() && b in keeper.rows && keeper.rows[b].request.side == Buy
      requires Unused(syntheticId, keeper.rows, keeper.venue.stops, placedFor) && !HasWorkingSell(keeper.rows[b], keeper.rows)
      modifies keeper`rows
      ensures keeper.Valid()
      ensures old(SingleSeller()) ==> SingleSeller()
    {
      var confirmed := ConfirmedRemainingQuantity(keeper.rows[b], keeper.rows);
      if confirmed > 0 {
        var sell, closed := Queue.SyntheticSell(syntheticId, keeper.rows[b], confirmed, now), keeper.rows[b].(exitId := Some(syntheticId));
        CloseKeeps(placedFor, keeper.rows, keeper.venue.stops, keeper.venue.next, sell, closed);
        keeper.rows := keeper.rows[syntheticId := sell][b := closed];
      }
    }

    /** Releases the venue stop of an idle position. */
    method ReleaseIdle(buy: Order, sellId: string, f: Faults) returns (r: Order, released: bool)
      requires keeper.Valid() && Stored(buy, keeper.rows) && buy.request.side == Buy && !HasWorkingSell(buy, keeper.rows)
      requires Unused(sellId, keeper.rows, keeper.venue.stops, placedFor)
      modifies keeper, keeper.venue
      ensures keeper.Valid() && Touches(buy.id, old(keeper.rows), keeper.rows) && r == buy.(stop := r.stop)
      ensures Sound(r, keeper.venue.stops, keeper.venue.next) && (released ==> NothingLive(buy.id, keeper.venue.stops))
      ensures !HasWorkingSell(keeper.rows[buy.id], keeper.rows) && Unused(sellId, keeper.rows, keeper.venue.stops, placedFor)
      ensures old(SingleSeller()) ==> SingleSeller()
    {
      r, released := keeper.Release(buy, f);
      TouchingKeepsIdle(old(keeper.rows), keeper.rows, buy.id);
      TouchingKeepsUnused(sellId, placedFor, old(keeper.rows), keeper.rows, old(keeper.venue.stops), keeper.venue.stops, buy.id);
      if old(SingleSeller()) {
        TouchingKeepsOneSeller(placedFor, old(keeper.rows), keeper.rows, old(keeper.venue.stops), keeper.venue.stops, buy.id);
      }
    }

    /** An exit the ladder decided on: check the broker's holding, hand the selling rights
        back to the bot, sell. */
    method Exit(buy: Order, sellId: string, decision: Decision, held: int, q: Quote, now: int, f: Faults, w: Writes)
      returns (report: Report)
      requires keeper.Valid() && Stored(buy, keeper.rows) && buy.request.side == Buy && !HasWorkingSell(buy, keeper.rows)
      requires Unused(sellId, keeper.rows, keeper.venue.stops, placedFor) && held > 0 && (decision.scaleOut ==> buy.avgFill.Some?)
      modifies this`placedFor, keeper, keeper.venue
      ensures keeper.Valid()
      ensures report.SellSubmitted? ==>
                && NothingLive(buy.id, keeper.venue.stops) && placedFor == old(placedFor)[sellId := buy.id]
                && sellId in keeper.rows && SellFor(keeper.rows[sellId], sellId, buy, SellQuantity(held, decision, q.actual), w)
                && 1 <= SellQuantity(held, decision, q.actual) <= held
      ensures !report.SellSubmitted? ==> placedFor == old(placedFor)
      ensures report == ClosedOutside(true) ==> NothingLive(buy.id, keeper.venue.stops)
      ensures !report.Holding?
      ensures old(SingleSeller()) ==> (SingleSeller() <==> !report.SellSubmitted? || LinkHolds(w))
    {
      var quantity := SellQuantity(held, decision, q.actual);
      if quantity <= 0 && q.actual != Some(0) { return Skipped; }
      var r, released := ReleaseIdle(buy, sellId, f);
      report := Conclude(r, released, sellId, decision, quantity, q, now, w);
    }

    /** After the release: nothing is left at the broker, or the stop may still sell, or the bot sells. */
    method Conclude(buy: Order, released: bool, sellId: string, decision: Decision, quantity: int, q: Quote,
            now: int, w: Writes)
      returns (report: Report)
      requires keeper.Valid() && buy.id in keeper.rows && keeper.rows[buy.id].request.side == Buy
      requires !HasWorkingSell(keeper.rows[buy.id], keeper.rows) && Unused(sellId, keeper.rows, keeper.venue.stops, placedFor)
      requires Sound(buy, keeper.venue.stops, keeper.venue.next) && (released ==> NothingLive(buy.id, keeper.venue.stops))
      requires decision.scaleOut ==> buy.avgFill.Some?
      modifies this`placedFor, keeper`rows
      ensures keeper.Valid()
      ensures report.SellSubmitted? ==>
                && released && q.actual != Some(0) && placedFor == old(placedFor)[sellId := buy.id]
                && sellId in keeper.rows && SellFor(keeper.rows[sellId], sellId, buy, quantity, w)
      ensures !report.SellSubmitted? ==> placedFor == old(placedFor)
      ensures report.ClosedOutside? ==> report.stopReleased == released
      ensures !report.Holding?
      ensures old(SingleSeller()) ==> (SingleSeller() <==> !report.SellSubmitted? || LinkHolds(w))
    {
      if q.actual == Some(0) {
        CloseOutside(buy.id, sellId, now);
        return ClosedOutside(released);
      }
      if !released { return StopNotReleased; }
      report := SubmitExit(buy, sellId, decision, quantity, q, now, w);
      ExitSellIsSubmitted(buy, sellId, quantity, account, now, w);
    }

    /** Finishes a lost create before anything is decided; it is not an obstacle if that fails. */
    method Repair(b: string, sellId: string, now: int, f: Faults) returns (buy: Order, engaged: bool)
      requires keeper.Valid() && b in keeper.rows && keeper.rows[b].request.side == Buy
      requires !HasWorkingSell(keeper.rows[b], keeper.rows)
      requires Unused(sellId, keeper.rows, keeper.venue.stops, placedFor)
      modifies keeper, keeper.venue
      ensures keeper.Valid() && Stored(buy, keeper.rows) && buy == old(keeper.rows)[b].(stop := buy.stop)
      ensures Touches(b, old(keeper.rows), keeper.rows)
      ensures !HasWorkingSell(buy, keeper.rows) && Unused(sellId, keeper.rows, keeper.venue.stops, placedFor)
      ensures old(SingleSeller()) ==> SingleSeller()
      ensures !HasPendingIntent(old(keeper.rows)[b]) ==>
                buy == old(keeper.rows)[b] && keeper.rows == old(keeper.rows) && keeper.venue.stops == old(keeper.venue.stops)
      ensures keeper.venue.supported && MayHaveFired(old(keeper.rows)[b], old(keeper.venue.stops), old(keeper.cache), now, f) ==> engaged
      ensures buy.stop.id.None? ==> !engaged
      ensures buy.id == b
      ensures f.statusWorks && buy.stop.id.Some? && TruthfulLookup(buy.stop.id.value, old(keeper.venue.stops), old(keeper.cache), now)
              && buy == old(keeper.rows)[b] && !HasPendingIntent(buy) && keeper.venue.supported ==>
                (engaged <==> buy.stop.id.value in keeper.venue.stops && Engaged(keeper.venue.stops[buy.stop.id.value].status))
    {
      buy := keeper.rows[b];
      var ok;
      buy, ok := keeper.Resolve(buy, f);
      engaged := keeper.StopEngaged(buy, now, f);
      TouchingKeepsIdle(old(keeper.rows), keeper.rows, b);
      TouchingKeepsUnused(sellId, placedFor, old(keeper.rows), keeper.rows, old(keeper.venue.stops), keeper.venue.stops, b);
      if old(SingleSeller()) {
        TouchingKeepsOneSeller(placedFor, old(keeper.rows), keeper.rows, old(keeper.venue.stops), keeper.venue.stops, b);
      }
    }

    /** One evaluation of one position by the manage loop. */
    method Manage(b: string, sellId: string, q: Quote, enabled: bool, now: int, f: Faults, w: Writes)
      returns (report: Report)
      requires keeper.Valid() && b in keeper.rows && Unused(sellId, keeper.rows, keeper.venue.stops, placedFor)
      modifies this`placedFor, keeper, keeper.venue
      ensures keeper.Valid()
      // single seller: no bot sell goes out while a venue stop of the position is live
      ensures report.SellSubmitted? ==>
                && NothingLive(b, keeper.venue.stops) && sellId in keeper.rows && placedFor == old(placedFor)[sellId := b]
                && 1 <= keeper.rows[sellId].request.quantity <= Remaining(old(keeper.rows)[b], old(keeper.rows))
                && !HasWorkingSell(old(keeper.rows)[b], old(keeper.rows))
      // and what goes out is what the ladder decided on, or what the broker still holds
      ensures report.SellSubmitted? ==>
                var decision := DecisionOn(old(keeper.rows)[b], old(keeper.rows), q.current);
                && decision.Some?
                && keeper.rows[sellId].request.quantity == SellQuantity(Remaining(old(keeper.rows)[b], old(keeper.rows)), decision.value, q.actual)
      ensures report == Holding ==> DecisionOn(old(keeper.rows)[b], old(keeper.rows), q.current).None?
      // an undisturbed pass on which the ladder decides nothing mirrors the stop
      ensures Holds(old(keeper.rows)[b], old(keeper.rows), q) && enabled && keeper.venue.supported
              && Rested(old(keeper.rows)[b], old(keeper.venue.stops), f) ==>
                && report == Holding && Touches(b, old(keeper.rows), keeper.rows)
                && Mirrored(old(keeper.rows)[b], keeper.rows, old(keeper.venue.stops), keeper.venue.stops, keeper.venue.freesKeys,
                            Remaining(old(keeper.rows)[b], old(keeper.rows)), HasCompletedScaleOut(old(keeper.rows)[b], old(keeper.rows)), q, w)
      ensures !report.SellSubmitted? ==> placedFor == old(placedFor)
      // a stop that has fired, or may have, is left to sell alone
      ensures keeper.venue.supported && MayHaveFired(old(keeper.rows)[b], old(keeper.venue.stops), old(keeper.cache), now, f) ==>
                (report == Deferred || report == Skipped) && keeper.rows == old(keeper.rows) && keeper.venue.stops == old(keeper.venue.stops)
      // and nothing is armed, sold or written while a linked sell is working or nothing is held
      ensures HasWorkingSell(old(keeper.rows)[b], old(keeper.rows)) || Remaining(old(keeper.rows)[b], old(keeper.rows)) == 0 ==>
                report == Skipped && keeper.rows == old(keeper.rows) && keeper.venue.stops == old(keeper.venue.stops)
      ensures old(SingleSeller()) ==> (SingleSeller() <==> !report.SellSubmitted? || LinkHolds(w))
    {
      var row := keeper.rows[b];
      if row.request.side != Buy || !Held(row.status) || row.filled == 0 || row.avgFill.None? { return Skipped; }
      var held, inflight := RemainingQuantity(row, keeper.rows);
      if inflight || held <= 0 || !q.marketOpen { return Skipped; }
      report := Attend(b, sellId, held, HasCompletedScaleOut(row, keeper.rows), q, enabled, now, f, w);
    }

    /** Repairs, defers to a venue stop that has fired, and else follows the ladder. */
    method Attend(b: string, sellId: string, held: int, scaledOut: bool, q: Quote, enabled: bool, now: int,
            f: Faults, w: Writes)
      returns (report: Report)
      requires keeper.Valid() && b in keeper.rows && keeper.rows[b].request.side == Buy && keeper.rows[b].avgFill.Some?
      requires !HasWorkingSell(keeper.rows[b], keeper.rows) && Unused(sellId, keeper.rows, keeper.venue.stops, placedFor) && held > 0
      modifies this`placedFor, keeper, keeper.venue
      ensures keeper.Valid()
      ensures report == Holding ==> EvaluateExit(old(keeper.rows)[b], q.current, held, scaledOut).None?
      ensures EvaluateExit(old(keeper.rows)[b], q.current, held, scaledOut).None? && enabled && keeper.venue.supported
              && Rested(old(keeper.rows)[b], old(keeper.venue.stops), f) ==>
                && report == Holding && Touches(b, old(keeper.rows), keeper.rows)
                && Mirrored(old(keeper.rows)[b], keeper.rows, old(keeper.venue.stops), keeper.venue.stops, keeper.venue.freesKeys,
                            held, scaledOut, q, w)
      ensures report.SellSubmitted? ==>
                && EvaluateExit(old(keeper.rows)[b], q.current, held, scaledOut).Some?
                && NothingLive(b, keeper.venue.stops) && placedFor == old(placedFor)[sellId := b] && sellId in keeper.rows
                && var quantity := SellQuantity(held, EvaluateExit(old(keeper.rows)[b], q.current, held, scaledOut).value, q.actual);
                   keeper.rows[sellId].request.quantity == quantity && 1 <= quantity <= held
      ensures !report.SellSubmitted? ==> placedFor == old(placedFor)
      ensures keeper.venue.supported && MayHaveFired(old(keeper.rows)[b], old(keeper.venue.stops), old(keeper.cache), now, f) ==>
                report == Deferred && keeper.rows == old(keeper.rows) && keeper.venue.stops == old(keeper.venue.stops)
      ensures old(SingleSeller()) ==> (SingleSeller() <==> !report.SellSubmitted? || LinkHolds(w))
    {
      var buy, engaged := Repair(b, sellId, now, f);
      if engaged { return Deferred; }
      DecisionIgnoresStop(old(keeper.rows)[b], buy, q.current, held, scaledOut);
      report := Evaluate(buy, sellId, held, scaledOut, q, enabled, now, f, w);
    }

    /** Hold or exit, as the ladder decides. */
    method Evaluate(buy: Order, sellId: string, held: int, scaledOut: bool, q: Quote, enabled: bool, now: int,
            f: Faults, w: Writes)
      returns (report: Report)
      requires keeper.Valid() && Stored(buy, keeper.rows) && buy.request.side == Buy && buy.avgFill.Some?
      requires !HasWorkingSell(buy, keeper.rows) && Unused(sellId, keeper.rows, keeper.venue.stops, placedFor) && held > 0
      modifies this`placedFor, keeper, keeper.venue
      ensures keeper.Valid()
      ensures report == Holding <==> EvaluateExit(buy, q.current, held, scaledOut).None?
      ensures report == Holding && enabled && keeper.venue.supported && Rested(buy, old(keeper.venue.stops), f) ==>
                && Touches(buy.id, old(keeper.rows), keeper.rows)
                && Mirrored(buy, keeper.rows, old(keeper.venue.stops), keeper.venue.stops, keeper.venue.freesKeys, held, scaledOut, q, w)
      ensures report.SellSubmitted? ==>
                var quantity := SellQuantity(held, EvaluateExit(buy, q.current, held, scaledOut).value, q.actual);
                && NothingLive(buy.id, keeper.venue.stops) && placedFor == old(placedFor)[sellId := buy.id]
                && sellId in keeper.rows && keeper.rows[sellId].request.quantity == quantity && 1 <= quantity <= held
      ensures !report.SellSubmitted? ==> placedFor == old(placedFor)
      ensures old(SingleSeller()) ==> (SingleSeller() <==> !report.SellSubmitted? || LinkHolds(w))
    {
      var decision := EvaluateExit(buy, q.current, held, scaledOut);
      if decision.None? {
        var r := Hold(buy, held, scaledOut, q, enabled, now, f, w.trailSaved);
        return Holding;
      }
      report := Exit(buy, sellId, decision.value, held, q, now, f, w);
    }

    /** A forced exit sells everything at market, unless a sell is working or the stop is not released. */
    method TriggerForcedExit(b: string, sellId: string, q: Quote, now: int, f: Faults, w: Writes)
      returns (report: Report)
      requires keeper.Valid() && b in keeper.rows && keeper.rows[b].request.side == Buy
      requires Unused(sellId, keeper.rows, keeper.venue.stops, placedFor)
      modifies this`placedFor, keeper, keeper.venue
      ensures keeper.Valid()
      ensures report.SellSubmitted? ==>
                && NothingLive(b, keeper.venue.stops) && sellId in keeper.rows && placedFor == old(placedFor)[sellId := b]
                && keeper.rows[sellId].request.quantity == Remaining(old(keeper.rows)[b], old(keeper.rows)) > 0
                && !HasWorkingSell(old(keeper.rows)[b], old(keeper.rows))
      ensures !report.SellSubmitted? ==> placedFor == old(placedFor)
      ensures HasWorkingSell(old(keeper.rows)[b], old(keeper.rows)) || Remaining(old(keeper.rows)[b], old(keeper.rows)) == 0 ==>
                report == Skipped && keeper.rows == old(keeper.rows) && keeper.venue.stops == old(keeper.venue.stops)
      ensures old(SingleSeller()) ==> (SingleSeller() <==> !report.SellSubmitted? || LinkHolds(w))
    {
      var buy := keeper.rows[b];
      var held, inflight := RemainingQuantity(buy, keeper.rows);
      if inflight || held <= 0 { return Skipped; }
      report := SellOut(buy, sellId, held, q, now, f, w);
    }

    /** Releases the stop, then sells everything at market. */
    method SellOut(buy: Order, sellId: string, held: int, q: Quote, now: int, f: Faults, w: Writes)
      returns (report: Report)
      requires keeper.Valid() && Stored(buy, keeper.rows) && buy.request.side == Buy && !HasWorkingSell(buy, keeper.rows)
      requires Unused(sellId, keeper.rows, keeper.venue.stops, placedFor)
      modifies this`placedFor, keeper, keeper.venue
      ensures keeper.Valid()
      ensures report.SellSubmitted? ==>
                && NothingLive(buy.id, keeper.venue.stops) && placedFor == old(placedFor)[sellId := buy.id]
                && sellId in keeper.rows && keeper.rows[sellId].request.quantity == held
      ensures !report.SellSubmitted? ==> placedFor == old(placedFor)
      ensures old(SingleSeller()) ==> (SingleSeller() <==> !report.SellSubmitted? || LinkHolds(w))
    {
      var r, released := ReleaseIdle(buy, sellId, f);
      if !released { return StopNotReleased; }
      ghost var decision, before := Decision(StopLoss, true, None, false), keeper.rows;
      report := SubmitExit(r, sellId, Decision(StopLoss, true, None, false), held, q, now, w);
      ExitSellIsSubmitted(r, sellId, held, account, now, w);
      ExitSellIsThere(before, ExitSell(r, sellId, held, account, now, w.placement), ExitLink(r, sellId, decision, q), w.linkSaved);
    }

    /** Reconciliation of one buy with the broker's snapshot: a position the broker no longer
        holds is closed in the queue, after its venue stop is released. An unknown
        snapshot is not a zero holding. */
    method Reconcile(b: string, syntheticId: string, actual: Option<int>, now: int, f: Faults) returns (report: Report)
      requires keeper.Valid() && b in keeper.rows && Unused(syntheticId, keeper.rows, keeper.venue.stops, placedFor)
      modifies keeper, keeper.venue
      ensures keeper.Valid()
      ensures actual.None? || actual.value > 0 || HasWorkingSell(old(keeper.rows)[b], old(keeper.rows)) || Remaining(old(keeper.rows)[b], old(keeper.rows)) == 0 ==>
                report == Skipped && keeper.rows == old(keeper.rows) && keeper.venue.stops == old(keeper.venue.stops)
      ensures report == ClosedOutside(true) ==> NothingLive(b, keeper.venue.stops)
      ensures report == Skipped || report.ClosedOutside?
      ensures old(SingleSeller()) ==> SingleSeller()
    {
      var buy := keeper.rows[b];
      if buy.request.side != Buy || !Held(buy.status) || buy.filled == 0 { return Skipped; }
      var held, inflight := RemainingQuantity(buy, keeper.rows);
      if inflight || held <= 0 || actual.None? || actual.value > 0 { return Skipped; }
      var r, released := ReleaseIdle(buy, syntheticId, f);
      CloseOutside(b, syntheticId, now);
      report := ClosedOutside(released);
    }

    /** Any run of the manager: evaluations, forced exits and reconciliations with any faults, orders
        that progress, and a venue that acts on its own, as long as no link write is lost. */
    method Operate(acts: seq<Act>)
      requires keeper.Valid() && SingleSeller()
      requires forall a :: a in acts && (a.ManagePass? || a.ForcePass?) ==> LinkHolds(a.writes)
      modifies this`placedFor, keeper, keeper.venue
      ensures keeper.Valid() && SingleSeller()
    {
      for i := 0 to |acts|
        invariant keeper.Valid() && SingleSeller()
      {
        assert acts[i] in acts;
        Perform(acts[i]);
      }
    }

    method Perform(a: Act)
      requires keeper.Valid() && SingleSeller() && (a.ManagePass? || a.ForcePass? ==> LinkHolds(a.writes))
      modifies this`placedFor, keeper, keeper.venue
      ensures keeper.Valid() && SingleSeller()
    {
      match a
      case ManagePass(b, sellId, q, enabled, now, f, w) =>
        if b in keeper.rows && Unused(sellId, keeper.rows, keeper.venue.stops, placedFor) {
          var _ := Manage(b, sellId, q, enabled, now, f, w);
        }
      case ForcePass(b, sellId, q, now, f, w) =>
        if b in keeper.rows && keeper.rows[b].request.side == Buy && Unused(sellId, keeper.rows, keeper.venue.stops, placedFor) {
          var _ := TriggerForcedExit(b, sellId, q, now, f, w);
        }
      case ReconcilePass(b, syntheticId, actual, now, f) =>
        if b in keeper.rows && Unused(syntheticId, keeper.rows, keeper.venue.stops, placedFor) {
          var _ := Reconcile(b, syntheticId, actual, now, f);
        }
      case Settle(row) =>
        if row.id in keeper.rows && IsProgress(keeper.rows[row.id], row) && SameStop(row, keeper.rows[row.id]) {
          RewriteKeepsProtected(keeper.rows, row, keeper.venue.stops, keeper.venue.next);
          ProgressKeepsOneSeller(placedFor, keeper.rows, keeper.venue.stops, row);
          var _ := keeper.Update(row, true);
        }
      case Adopt(row) =>
        if Unused(row.id, keeper.rows, keeper.venue.stops, placedFor) && row.stop == NO_STOP {
          AddRowKeepsProtected(keeper.rows, row, keeper.venue.stops, keeper.venue.next);
          keeper.rows := keeper.rows[row.id := row];
        }
      case VenueActs(id, status) =>
        MovesKeepProtected(keeper.rows, keeper.venue.stops, keeper.venue.next);
        keeper.venue.Move(id, status);
    }

    /** An exit whose link write is lost and whose sell is not rejected. */
    method SubmitUnlinked(buy: Order, sellId: string, decision: Decision, quantity: int, q: Quote, now: int,
            placement: Option<Queue.Placement>)
      requires keeper.Valid() && Stored(buy, keeper.rows) && buy.avgFill.Some? && buy.request.side == Buy
      requires Unused(sellId, keeper.rows, keeper.venue.stops, placedFor) && !HasWorkingSell(buy, keeper.rows)
      requires NothingLive(buy.id, keeper.venue.stops) && (placement.None? || Working(Queue.PlacedStatus(placement.value)))
      modifies this`placedFor, keeper`rows
      ensures keeper.Valid() && Stored(buy, keeper.rows) && !HasWorkingSell(buy, keeper.rows)
      ensures OutUnlinked(sellId, buy.id, keeper.rows, placedFor)
      ensures keeper.rows == old(keeper.rows)[sellId := keeper.rows[sellId]] && placedFor == old(placedFor)[sellId := buy.id]
      ensures LinkIds(keeper.rows[sellId]) == []
    {
      var w := Writes(true, false, true, placement);
      ghost var before := keeper.rows;
      var _ := SubmitExit(buy, sellId, decision, quantity, q, now, w);
      ExitSellIsSubmitted(buy, sellId, quantity, account, now, w);
      UnlinkedSell(buy, before, ExitSell(buy, sellId, quantity, account, now, w.placement));
    }

    /** Losing the link write costs the single seller: the sell goes out unlinked, and the next
        undisturbed evaluation on which the ladder decides nothing arms a stop for all the
        shares next to it. */
    method LostLinkLeavesTwoSellers(buy: Order, sellId: string, nextId: string, decision: Decision, quantity: int, q: Quote,
            placement: Option<Queue.Placement>, calm: Quote, now: int)
      requires placement.None? || Working(Queue.PlacedStatus(placement.value))
      requires keeper.Valid() && Stored(buy, keeper.rows) && buy.request.side == Buy && Holds(buy, keeper.rows, calm)
      requires Unused(sellId, keeper.rows, keeper.venue.stops, placedFor) && nextId != sellId
      requires Unused(nextId, keeper.rows, keeper.venue.stops, placedFor)
      requires NothingLive(buy.id, keeper.venue.stops) && keeper.venue.supported && keeper.venue.freesKeys
      requires buy.stop.id.None? && !HasPendingIntent(buy)
      // there is a stop level to mirror
      requires var level := EffectiveStop(buy.(trail := HeldTrail(buy, HasCompletedScaleOut(buy, keeper.rows), calm, true)),
                                          HasCompletedScaleOut(buy, keeper.rows));
               level.Some? && level.value > 0.0
      modifies this`placedFor, keeper, keeper.venue
      ensures OutUnlinked(sellId, buy.id, keeper.rows, placedFor)
      ensures exists s :: Live(keeper.venue.stops, s) && keeper.venue.stops[s].key.buyId == buy.id
                && keeper.venue.stops[s].quantity == Remaining(buy, old(keeper.rows))
      ensures TwoSellers(placedFor, keeper.rows, keeper.venue.stops, buy.id)
    {
      SubmitUnlinked(buy, sellId, decision, quantity, q, now, placement);
      ghost var before := keeper.rows;
      UnlinkedIsUnseen(buy, old(keeper.rows), before, sellId, calm);
      var _ := Manage(buy.id, nextId, calm, true, now, FAULTLESS, Writes(true, true, true, None));
      TouchingKeepsUnlinked(sellId, before, keeper.rows, buy.id, placedFor);
      assert WorksFor(placedFor, keeper.rows, sellId);
    }
  }

  /** The ladder holds this position at this quote. */
  predicate Holds(row: Order, rows: Book, q: Quote) {
    && row.request.side == Buy && Held(row.status) && row.filled > 0 && row.avgFill.Some? && q.marketOpen
    && !HasWorkingSell(row, rows) && Remaining(row, rows) > 0 && DecisionOn(row, rows, q.current).None?
  }

  /** No faults, and nothing at the venue or in the file that a pass would first have to settle. */
  ghost predicate Rested(row: Order, stops: Stops, f: Faults) {
    f == FAULTLESS && NoneEngaged(row.id, stops) && row.stop.id.None? && !HasPendingIntent(row)
  }

  /** After a pass that held: the stop of the trail in force is mirrored at the venue. */
  ghost predicate Mirrored(row: Order, rows: Book, before: Stops, after: Stops, freesKeys: bool, held: int, scaledOut: bool,
          q: Quote, w: Writes) {
    row.avgFill.Some? && row.id in rows
    && Converged(row.(trail := HeldTrail(row, scaledOut, q, w.trailSaved)), rows[row.id], before, after, freesKeys, held, scaledOut,
                 AMEND_TOLERANCE * q.atr)
  }

  /** A sell that nothing links to changes nothing for the ladder. */
  lemma UnlinkedIsUnseen(buy: Order, before: Book, after: Book, sellId: string, q: Quote)
    requires sellId !in LinkIds(buy) && sellId in after && after == before[sellId := after[sellId]]
    ensures Remaining(buy, after) == Remaining(buy, before) && HasCompletedScaleOut(buy, after) == HasCompletedScaleOut(buy, before)
    ensures Holds(buy, before, q) ==> Holds(buy, after, q)
  {
    TotalIgnores(LinkIds(buy), before, sellId, after[sellId], CountedFill);
    assert forall id :: id in buy.partialIds ==> id in LinkIds(buy);
  }

  /** A sell placed for a buy may still trade, and no row links to it. */
  ghost predicate OutUnlinked(sellId: string, buyId: string, rows: Book, placedFor: map<string, string>) {
    && sellId in rows && Working(rows[sellId].status) && sellId in placedFor && placedFor[sellId] == buyId
    && buyId in rows && forall b :: b in rows ==> sellId !in LinkIds(rows[b])
  }

  lemma UnlinkedSell(buy: Order, rows: Book, sell: Order)
    requires Stored(buy, rows) && !HasWorkingSell(buy, rows) && sell.id !in rows && LinkIds(sell) == []
    requires forall b :: b in rows ==> sell.id !in LinkIds(rows[b])
    ensures var after := rows[sell.id := sell];
            !HasWorkingSell(buy, after) && forall b :: b in after ==> sell.id !in LinkIds(after[b])
  {
    assert sell.id !in LinkIds(buy);
  }

  lemma TouchingKeepsUnlinked(sellId: string, before: Book, after: Book, b: string, placedFor: map<string, string>)
    requires OutUnlinked(sellId, b, before, placedFor) && Touches(b, before, after) && sellId != b
    ensures OutUnlinked(sellId, b, after, placedFor)
  {
    forall c | c in after ensures sellId !in LinkIds(after[c]) {
      assert sellId !in LinkIds(before[c]);
    }
  }

  datatype Act =
    | ManagePass(buyId: string, sellId: string, quote: Quote, enabled: bool, now: int, faults: Faults, writes: Writes)
    | ForcePass(buyId: string, sellId: string, quote: Quote, now: int, faults: Faults, writes: Writes)
    | ReconcilePass(buyId: string, syntheticId: string, actual: Option<int>, now: int, faults: Faults)
    | Settle(row: Order)
    | Adopt(row: Order)
    | VenueActs(id: nat, status: StopStatus)

  /** What the ladder decides on a stored position. */
  function DecisionOn(buy: Order, rows: Book, current: real): Option<Decision> {
    EvaluateExit(buy, current, Remaining(buy, rows), HasCompletedScaleOut(buy, rows))
  }

  lemma DecisionIgnoresStop(row: Order, buy: Order, current: real, held: int, scaledOut: bool)
    requires buy == row.(stop := buy.stop)
    ensures EvaluateExit(buy, current, held, scaledOut) == EvaluateExit(row, current, held, scaledOut)
  {
  }

  /** The position's venue stop has fired, or nothing can be learnt about it. */
  predicate MayHaveFired(row: Order, stops: Stops, cache: map<nat, Cached>, now: int, f: Faults) {
    row.stop.id.Some? &&
    var id := row.stop.id.value;
    if f.statusWorks then TruthfulLookup(id, stops, cache, now) && id in stops && Engaged(stops[id].status) else id !in cache
  }

  /** What is sold: the ladder's quantity, or less if the broker holds less. */
  function SellQuantity(held: int, decision: Decision, actual: Option<int>): int {
    var quantity := ExitQuantity(held, decision);
    if actual.Some? && actual.value < quantity then actual.value else quantity
  }

  /** The submitted sell: the request, and the state its approval left it in. */
  predicate SellFor(sell: Order, sellId: string, buy: Order, quantity: int, w: Writes) {
    && sell.id == sellId && sell.request == PendingSell(sellId, buy, quantity).request && sell.filled == 0
    && sell.status == if w.placement.Some? then Queue.PlacedStatus(w.placement.value) else Pending
  }

  lemma CloseKeeps(placedFor: map<string, string>, rows: Book, stops: Stops, next: nat, sell: Order, closed: Order)
    requires Protected(rows, stops, next) && closed.id in rows && rows[closed.id].request.side == Buy
    requires closed == rows[closed.id].(exitId := Some(sell.id)) && sell.stop == NO_STOP && !Working(sell.status)
    requires Unused(sell.id, rows, stops, placedFor) && !HasWorkingSell(rows[closed.id], rows)
    ensures Protected(rows[sell.id := sell][closed.id := closed], stops, next)
    ensures OneSeller(placedFor, rows, stops) ==> OneSeller(placedFor, rows[sell.id := sell][closed.id := closed], stops)
  {
    var added := rows[sell.id := sell];
    AddRowKeepsProtected(rows, sell, stops, next);
    RewriteKeepsProtected(added, closed, stops, next);
    if OneSeller(placedFor, rows, stops) {
      var after := added[closed.id := closed];
      ClosingKeepsOnlyWorker(placedFor, rows, sell, closed);
      forall s | s in placedFor && Working(after[s].status) ensures s in LinkIds(after[placedFor[s]]) && NothingLive(placedFor[s], stops) {
        assert s in LinkIds(rows[placedFor[s]]);
        assert placedFor[s] != closed.id;
      }
    }
  }

  lemma ClosingKeepsOnlyWorker(placedFor: map<string, string>, rows: Book, sell: Order, closed: Order)
    requires OnlyWorker(placedFor, rows) && sell.id !in placedFor && closed.id in rows && closed.status == rows[closed.id].status
    ensures OnlyWorker(placedFor, rows[sell.id := sell][closed.id := closed])
  {
    var after := rows[sell.id := sell][closed.id := closed];
    forall s | WorksFor(placedFor, after, s) ensures WorksFor(placedFor, rows, s) {
    }
  }

  lemma ExitSellIsSubmitted(buy: Order, sellId: string, quantity: int, account: Scope, now: int, w: Writes)
    ensures SellFor(ExitSell(buy, sellId, quantity, account, now, w.placement), sellId, buy, quantity, w)
  {
  }

  lemma TouchingKeepsIdle(before: Book, after: Book, b: string)
    requires Touches(b, before, after) && b in before
    ensures HasWorkingSell(after[b], after) <==> HasWorkingSell(before[b], before)
  {
  }

  lemma TouchingKeepsUnused(id: string, placedFor: map<string, string>, before: Book, after: Book, stops: Stops,
          later: Stops, b: string)
    requires Unused(id, before, stops, placedFor) && Touches(b, before, after) && OnlyOf(b, stops, later) && b in before
    ensures Unused(id, after, later, placedFor)
  {
    forall c | c in after ensures id !in LinkIds(after[c]) {
      assert id !in LinkIds(before[c]);
    }
  }

  /** The row is exactly what the file holds. */
  predicate Stored(buy: Order, rows: Book) {
    buy.id in rows && rows[buy.id] == buy
  }

  /** Nothing but one position's trail and stop changed. */
  predicate Touches(b: string, before: Book, after: Book) {
    && before.Keys == after.Keys && (forall c :: c in before && c != b ==> after[c] == before[c])
    && (b in before ==> after[b] == before[b].(trail := after[b].trail, stop := after[b].stop))
  }

  /** The trail in force after holding. */
  function HeldTrail(buy: Order, scaledOut: bool, q: Quote, trailSaved: bool): Option<real>
    requires buy.avgFill.Some?
  {
    if scaledOut && trailSaved then Some(Ratcheted(buy.trail, q.current, q.atr, buy.avgFill.value)) else buy.trail
  }

  lemma TouchingKeepsOneSeller(placedFor: map<string, string>, before: Book, after: Book, stops: Stops,
          later: Stops, b: string)
    requires OneSeller(placedFor, before, stops) && Touches(b, before, after) && OnlyOf(b, stops, later)
    requires b in before && !HasWorkingSell(before[b], before) && before[b].request.side == Buy
    ensures OneSeller(placedFor, after, later)
  {
    forall s | s in placedFor && Working(after[s].status)
      ensures s in LinkIds(after[placedFor[s]]) && NothingLive(placedFor[s], later)
    {
      assert s != b && s in LinkIds(before[placedFor[s]]);
      assert NothingLive(placedFor[s], stops);
    }
  }

  /** The buy linked to its exit; a scale-out also arms the runner's trail. */
  function ExitLink(buy: Order, sellId: string, decision: Decision, q: Quote): Order
    requires decision.scaleOut ==> buy.avgFill.Some?
  {
    var linked := Relinked(buy, sellId, decision.scaleOut);
    if decision.scaleOut then linked.(trail := Some(InitialTrail(q.current, q.atr, buy.avgFill.value))) else linked
  }

  lemma ExitLinkIsSafe(buy: Order, sellId: string, decision: Decision, q: Quote, stops: Stops, next: nat)
    requires (decision.scaleOut ==> buy.avgFill.Some?) && Sound(buy, stops, next)
    ensures var linked := ExitLink(buy, sellId, decision, q);
            linked.id == buy.id && sellId in LinkIds(linked) && Sound(linked, stops, next)
  {
    var linked := ExitLink(buy, sellId, decision, q);
    if decision.scaleOut {
      assert sellId in linked.partialIds;
    } else {
      assert LinkIds(linked)[|linked.partialIds|] == sellId;
    }
  }

  /** The sell as its approval leaves it. */
  function ExitSell(buy: Order, sellId: string, quantity: int, account: Scope, now: int,
          placement: Option<Queue.Placement>): Order {
    var sell := PendingSell(sellId, buy, quantity);
    if placement.Some? then Queue.PlacedRow(Queue.SubmittingRow(sell, account, now), account, placement.value, now) else sell
  }

  function AfterExit(rows: Book, sell: Order, linked: Order, linkSaved: bool): Book {
    var added := rows[sell.id := sell];
    if linkSaved then added[linked.id := linked] else added
  }

  lemma ExitSellIsThere(rows: Book, sell: Order, linked: Order, linkSaved: bool)
    requires sell.id != linked.id
    ensures sell.id in AfterExit(rows, sell, linked, linkSaved) && AfterExit(rows, sell, linked, linkSaved)[sell.id] == sell
  {
  }

  lemma WritesCommute(rows: Book, pending: Order, sell: Order, linked: Order, linkSaved: bool)
    requires pending.id == sell.id != linked.id
    ensures AfterExit(rows, pending, linked, linkSaved)[sell.id := sell] == AfterExit(rows, sell, linked, linkSaved)
  {
  }
}

/** The portfolio backtest: many tickers on one calendar compete for one pool of cash. Each
    day exits free cash, pending entries spend it, and signals queue the next entries.
    Tickers are named by their place in the universe. */
module Portfolio {
  import opened Prelude
  import opened Indicators
  import opened Ladder
  import opened Backtester

  datatype Series = Series(candles: seq<Candle>, fundamentals: seq<Fundamentals>, catalysts: seq<Catalyst>)

  /** `analyze` stands for the analyzer, which may raise. */
  datatype Rules = Rules(
    universe: seq<Series>,
    analyze: (nat, seq<Candle>, seq<Fundamentals>, seq<Catalyst>) -> Option<Report>,
    measure: Measure,
    startingCash: real,
    maxPositions: int,
    riskPct: real,
    maxPositionPct: real,
    maxHoldDays: int,
    commissionPct: real,
    slip: real,
    limitPct: Option<real>)

  /** A sold part: shares and price net of slippage. */
  datatype Sale = Sale(quantity: nat, net: real)

  datatype Position = Position(ticker: nat, entryAt: nat, entry: real, shares: nat, initial: nat, plan: Plan,
                               trail: Option<real>, first: Option<Reason>, sales: seq<Sale>)

  datatype PendingEntry = PendingEntry(ticker: nat, fillAt: nat, signalClose: real, plan: Plan)

  datatype PortfolioTrade = PortfolioTrade(ticker: nat, entryAt: nat, exitDay: int, shares: nat, entry: real, exit: real, outcome: Outcome, pnl: real)

  // ---- money and shares ----

  function Worth(quantity: int, price: real): real {
    quantity as real * price
  }

  function Proceeds(sales: seq<Sale>): real {
    if sales == [] then 0.0 else Proceeds(sales[..|sales| - 1]) + Worth(sales[|sales| - 1].quantity, sales[|sales| - 1].net)
  }

  function SoldShares(sales: seq<Sale>): nat {
    if sales == [] then 0 else SoldShares(sales[..|sales| - 1]) + sales[|sales| - 1].quantity
  }

  /** What an open position has brought in, less what it cost. */
  function Booked(p: Position): real {
    Proceeds(p.sales) - Worth(p.initial, p.entry)
  }

  function TotalBooked(ps: seq<Position>): real {
    if ps == [] then 0.0 else TotalBooked(ps[..|ps| - 1]) + Booked(ps[|ps| - 1])
  }

  function TotalPnl(ts: seq<PortfolioTrade>): real {
    if ts == [] then 0.0 else TotalPnl(ts[..|ts| - 1]) + ts[|ts| - 1].pnl
  }

  function Commission(p: Position, pct: real): real {
    Worth(p.initial, p.entry) * (pct / 100.0)
  }

  lemma BookedOfOneMore(ps: seq<Position>, p: Position)
    ensures TotalBooked(ps + [p]) == TotalBooked(ps) + Booked(p)
  {
    assert (ps + [p])[..|ps|] == ps;
  }

  lemma {:induction false} BookedOfParts(ps: seq<Position>, qs: seq<Position>)
    ensures TotalBooked(ps + qs) == TotalBooked(ps) + TotalBooked(qs)
  {
    if qs == [] {
      assert ps + qs == ps;
    } else {
      var rest, last := qs[..|qs| - 1], qs[|qs| - 1];
      BookedOfParts(ps, rest);
      BookedOfOneMore(ps + rest, last);
      assert ps + qs == (ps + rest) + [last];
    }
  }

  /** One position replaced by others, or by none. */
  function Replaced(ps: seq<Position>, i: nat, instead: seq<Position>): seq<Position>
    requires i < |ps|
  {
    ps[..i] + instead + ps[i + 1..]
  }

  lemma ReplacedTwice(ps: seq<Position>, i: nat, q: Position)
    requires i < |ps|
    ensures |Replaced(ps, i, [q])| == |ps| && Replaced(ps, i, [q])[i] == q
    ensures Replaced(Replaced(ps, i, [q]), i, []) == Replaced(ps, i, [])
  {
  }

  lemma BookedAfterChange(ps: seq<Position>, i: nat, instead: seq<Position>)
    requires i < |ps|
    ensures TotalBooked(Replaced(ps, i, instead)) == TotalBooked(ps) - Booked(ps[i]) + TotalBooked(instead)
  {
    BookedOfParts(ps[..i] + instead, ps[i + 1..]);
    BookedOfParts(ps[..i], instead);
    BookedOfParts(ps[..i] + [ps[i]], ps[i + 1..]);
    BookedOfOneMore(ps[..i], ps[i]);
    assert ps == ps[..i] + [ps[i]] + ps[i + 1..];
  }

  lemma ProceedsOfOneMore(sales: seq<Sale>, sale: Sale)
    ensures Proceeds(sales + [sale]) == Proceeds(sales) + Worth(sale.quantity, sale.net)
    ensures SoldShares(sales + [sale]) == SoldShares(sales) + sale.quantity
  {
    assert (sales + [sale])[..|sales|] == sales;
  }

  // ---- one position's day ----

  /** A position while its exits are applied. */
  datatype Exiting = Exiting(position: Position, closed: bool, outcome: Outcome)

  function Combined(first: Option<Reason>, reason: Reason): Outcome {
    if first.Some? then Halves(first.value, reason) else Whole(reason)
  }

  function SoldAll(p: Position, net: real, reason: Reason): Exiting {
    Exiting(p.(shares := 0, sales := p.sales + [Sale(p.shares, net)]), true, Combined(p.first, reason))
  }

  /** The larger half leaves; a single share leaves whole. */
  function ScaledOut(p: Position, net: real, reason: Reason): Exiting {
    var quantity := (p.shares + 1) / 2;
    if quantity >= p.shares then
      Exiting(p.(shares := 0, sales := p.sales + [Sale(p.shares, net)]), true, Whole(reason))
    else
      Exiting(p.(shares := p.shares - quantity, first := Some(reason), sales := p.sales + [Sale(quantity, net)]), false, Whole(reason))
  }

  function AfterEvent(x: Exiting, e: Event, slip: real): Exiting {
    if e.ScaleOut? then
      var y := ScaledOut(x.position, Sold(e.price, slip), e.reason);
      y.(closed := x.closed || y.closed)
    else SoldAll(x.position, Sold(e.price, slip), e.reason)
  }

  function AfterEvents(x: Exiting, events: seq<Event>, slip: real): Exiting {
    if events == [] then x else AfterEvent(AfterEvents(x, events[..|events| - 1], slip), events[|events| - 1], slip)
  }

  /** The ladder has its chance first; then the holding period may be over. */
  function AfterDay(r: Rules, p: Position, bar: nat): Exiting
    requires p.ticker < |r.universe| && bar < |r.universe[p.ticker].candles|
  {
    var candles := r.universe[p.ticker].candles;
    var step := LadderStep(candles[bar], p.plan, p.trail, p.entry, r.measure(candles[..bar + 1]), true);
    var x := AfterEvents(Exiting(p.(trail := step.trail), false, Whole(Time)), step.events, r.slip);
    if !x.closed && bar >= MinInt(p.entryAt + r.maxHoldDays, |candles| - 1)
    then SoldAll(x.position, Sold(candles[bar].close, r.slip), Time)
    else x
  }

  /** Shares are neither lost nor made, and a position is closed exactly when none are left. */
  predicate SharesAccounted(p: Position) {
    p.shares + SoldShares(p.sales) == p.initial
  }

  predicate Follows(x: Exiting, p: Position) {
    SharesAccounted(x.position) && (x.closed <==> x.position.shares == 0) && SameEntry(x.position, p)
  }

  lemma EventPays(x: Exiting, e: Event, quantity: int, net: real, slip: real)
    requires net == Sold(e.price, slip)
    requires quantity == if e.ScaleOut? then MinInt((x.position.shares + 1) / 2, x.position.shares) else x.position.shares
    ensures Proceeds(AfterEvent(x, e, slip).position.sales) == Proceeds(x.position.sales) + Worth(quantity, net)
  {
    ProceedsOfOneMore(x.position.sales, Sale(quantity, net));
    assert AfterEvent(x, e, slip).position.sales == x.position.sales + [Sale(quantity, net)];
  }

  lemma EventKeepsAccounts(x: Exiting, e: Event, slip: real, p: Position)
    requires Follows(x, p)
    ensures Follows(AfterEvent(x, e, slip), p)
  {
    var y := AfterEvent(x, e, slip);
    ProceedsOfOneMore(x.position.sales, y.position.sales[|x.position.sales|]);
  }

  lemma {:induction false} EventsKeepAccounts(x: Exiting, events: seq<Event>, slip: real, p: Position)
    requires Follows(x, p)
    ensures Follows(AfterEvents(x, events, slip), p)
  {
    if events != [] {
      EventsKeepAccounts(x, events[..|events| - 1], slip, p);
      EventKeepsAccounts(AfterEvents(x, events[..|events| - 1], slip), events[|events| - 1], slip, p);
    }
  }

  /** A position of several shares that scales out and loses its runner on one day is labelled
      with both reasons. A single share leaves whole at the first target, but is labelled
      with the reason that found nothing left to sell. */
  lemma OutcomeOfTwoEvents(p: Position, out: Event, runner: Event, slip: real)
    requires p.shares > 0 && out.ScaleOut? && !runner.ScaleOut?
    ensures var x := AfterEvents(Exiting(p, false, Whole(Time)), [out, runner], slip);
            && x.closed && x.position.shares == 0
            && (p.shares > 1 ==> x.outcome == Halves(out.reason, runner.reason))
            && (p.shares == 1 && p.first.None? ==>
                  x.outcome == Whole(runner.reason) && x.position.sales == p.sales + [Sale(1, Sold(out.price, slip))] + [Sale(0, Sold(runner.price, slip))])
  {
    var before := Exiting(p, false, Whole(Time));
    assert [out][..0] == [];
    assert AfterEvents(before, [out], slip) == AfterEvent(before, out, slip);
    assert [out, runner][..1] == [out];
  }

  predicate SameEntry(p: Position, q: Position) {
    p.ticker == q.ticker && p.entryAt == q.entryAt && p.entry == q.entry && p.initial == q.initial && p.plan == q.plan
  }

  lemma {:induction false} EventsKeepIdentity(x: Exiting, events: seq<Event>, slip: real)
    ensures SameEntry(AfterEvents(x, events, slip).position, x.position)
  {
    if events != [] {
      EventsKeepIdentity(x, events[..|events| - 1], slip);
    }
  }

  /** After its day a position's shares are accounted for, and it is closed at the latest
      when its holding period or its series is over. */
  lemma DayKeepsAccounts(r: Rules, p: Position, bar: nat)
    requires p.ticker < |r.universe| && bar < |r.universe[p.ticker].candles|
    requires SharesAccounted(p) && p.shares > 0
    ensures var x := AfterDay(r, p, bar);
            Follows(x, p) && (!x.closed ==> bar < MinInt(p.entryAt + r.maxHoldDays, |r.universe[p.ticker].candles| - 1))
  {
    var candles := r.universe[p.ticker].candles;
    var step := LadderStep(candles[bar], p.plan, p.trail, p.entry, r.measure(candles[..bar + 1]), true);
    EventsKeepAccounts(Exiting(p.(trail := step.trail), false, Whole(Time)), step.events, r.slip, p);
    var x := AfterEvents(Exiting(p.(trail := step.trail), false, Whole(Time)), step.events, r.slip);
    ProceedsOfOneMore(x.position.sales, Sale(x.position.shares, Sold(candles[bar].close, r.slip)));
  }

  function ClosedTrade(p: Position, day: int, outcome: Outcome, commissionPct: real): PortfolioTrade {
    PortfolioTrade(p.ticker, p.entryAt, day, p.initial, p.entry, Ratio(Proceeds(p.sales), p.initial as real), outcome,
          Booked(p) - Commission(p, commissionPct))
  }

  lemma {:induction false} SoldAtOnePrice(sales: seq<Sale>, price: real)
    requires forall s :: s in sales ==> s.net == price
    ensures Proceeds(sales) == Worth(SoldShares(sales), price)
  {
    if sales != [] {
      SoldAtOnePrice(sales[..|sales| - 1], price);
      assert sales[|sales| - 1] in sales;
    }
  }

  /** A position sold out at its entry price, net of slippage, loses exactly the commission. */
  lemma FlatTradeLosesTheCommission(p: Position, day: int, outcome: Outcome, pct: real)
    requires SharesAccounted(p) && p.shares == 0 && forall s :: s in p.sales ==> s.net == p.entry
    ensures ClosedTrade(p, day, outcome, pct).pnl == -(p.initial as real * p.entry) * (pct / 100.0)
  {
    SoldAtOnePrice(p.sales, p.entry);
  }

  // ---- sizing ----

  /** How many whole times b goes into a. */
  function Times(a: real, b: real): int
    requires b > 0.0
  {
    (a / b).Floor
  }

  lemma TimesIff(a: real, b: real, n: int)
    requires b > 0.0
    ensures n <= Times(a, b) <==> Worth(n, b) <= a
  {
    var x := a / b;
    assert x * b == a;
    Scale(n as real, x, b);
    Scale(x, n as real, b);
  }

  lemma Scale(a: real, b: real, w: real)
    requires w > 0.0
    ensures a <= b ==> a * w <= b * w
    ensures a < b ==> a * w < b * w
  {
  }

  function Share(equity: real, pct: real): real {
    equity * pct / 100.0
  }

  /** Shares to buy: the risk budget, the cash at hand and the position cap, whichever is least. */
  function Quantity(r: Rules, equity: real, cash: real, entry: real, perShareRisk: real): int
    requires entry > 0.0 && perShareRisk > 0.0
  {
    var affordable := MinInt(Times(Share(equity, r.riskPct), perShareRisk), Times(cash, entry));
    if r.maxPositionPct > 0.0 then MinInt(affordable, Times(Share(equity, r.maxPositionPct), entry)) else affordable
  }

  /** It is the largest quantity within all three limits. */
  lemma QuantityIsLargest(r: Rules, equity: real, cash: real, entry: real, perShareRisk: real, n: int)
    requires entry > 0.0 && perShareRisk > 0.0
    ensures n <= Quantity(r, equity, cash, entry, perShareRisk) <==>
            && Worth(n, perShareRisk) <= Share(equity, r.riskPct)
            && Worth(n, entry) <= cash
            && (r.maxPositionPct > 0.0 ==> Worth(n, entry) <= Share(equity, r.maxPositionPct))
  {
    TimesIff(Share(equity, r.riskPct), perShareRisk, n);
    TimesIff(cash, entry, n);
    TimesIff(Share(equity, r.maxPositionPct), entry, n);
  }

  // ---- the calendar ----

  /** The bar of a day; of bars with the same date the last one counts. */
  function BarOn(candles: seq<Candle>, day: int): (bar: Option<nat>)
    ensures bar.Some? ==> bar.value < |candles| && candles[bar.value].date == day
    ensures bar.None? ==> forall i :: 0 <= i < |candles| ==> candles[i].date != day
  {
    if candles == [] then None
    else if candles[|candles| - 1].date == day then Some(|candles| - 1)
    else BarOn(candles[..|candles| - 1], day)
  }

  predicate Sorted(candles: seq<Candle>) {
    forall i, j :: 0 <= i < j < |candles| ==> candles[i].date < candles[j].date
  }

  predicate Priced(bar: Candle) {
    bar.open > 0.0 && bar.low > 0.0
  }

  /** Every series has increasing dates. */
  predicate Dated(r: Rules) {
    forall s :: 0 <= s < |r.universe| ==> Sorted(r.universe[s].candles)
  }

  /** Prices are positive as well, and slippage does not eat the whole price: no entry costs
      nothing, by which sizes would be divided. */
  predicate Sane(r: Rules) {
    && Dated(r) && r.slip > -1.0
    && forall s, i :: 0 <= s < |r.universe| && 0 <= i < |r.universe[s].candles| ==> Priced(r.universe[s].candles[i])
  }

  /** No bar of the universe is dated between two days. */
  ghost predicate NextDay(r: Rules, day: int, next: int) {
    day < next && forall s, i :: 0 <= s < |r.universe| && 0 <= i < |r.universe[s].candles| ==>
      !(day < r.universe[s].candles[i].date < next)
  }

  function Length(r: Rules, ticker: nat): nat
    requires ticker < |r.universe|
  {
    |r.universe[ticker].candles|
  }

  function DateOf(r: Rules, ticker: nat, bar: nat): int
    requires ticker < |r.universe| && bar < Length(r, ticker)
  {
    r.universe[ticker].candles[bar].date
  }

  /** The bar by which a position is closed: when its holding period or its series is over,
      but never on the bar that opened it. */
  function Deadline(r: Rules, ticker: nat, entryAt: nat): nat
    requires ticker < |r.universe| && entryAt + 1 < Length(r, ticker)
  {
    MaxInt(entryAt + 1, MinInt(entryAt + r.maxHoldDays, Length(r, ticker) - 1))
  }

  /** An open position on a day: entered by then, its deadline still ahead. */
  predicate OpenOn(r: Rules, p: Position, day: int) {
    && p.ticker < |r.universe| && p.entryAt + 1 < Length(r, p.ticker)
    && DateOf(r, p.ticker, p.entryAt) <= day < DateOf(r, p.ticker, Deadline(r, p.ticker, p.entryAt))
    && p.shares > 0 && SharesAccounted(p) && p.entry > 0.0
  }

  /** A pending entry on a day: its signal has been seen, its bar is still ahead, and a bar
      follows that one. */
  predicate PendingOn(r: Rules, o: PendingEntry, day: int) {
    && o.ticker < |r.universe| && 0 < o.fillAt && o.fillAt + 1 < Length(r, o.ticker)
    && DateOf(r, o.ticker, o.fillAt - 1) <= day < DateOf(r, o.ticker, o.fillAt)
  }

  /** A position that survives its day has its deadline still ahead. */
  lemma SurvivorIsOpen(r: Rules, p: Position, q: Position, day: int, next: int)
    requires Dated(r) && OpenOn(r, p, day) && NextDay(r, day, next)
    requires q.ticker == p.ticker && q.entryAt == p.entryAt && q.entry == p.entry && q.shares > 0 && SharesAccounted(q)
    requires var bar := BarOn(r.universe[p.ticker].candles, next);
             bar.Some? ==> bar.value < MinInt(p.entryAt + r.maxHoldDays, Length(r, p.ticker) - 1)
    ensures OpenOn(r, q, next)
  {
    var candles := r.universe[p.ticker].candles;
    var deadline := Deadline(r, p.ticker, p.entryAt);
    assert !(day < candles[deadline].date < next);
    var bar := BarOn(candles, next);
    if bar.Some? {
      assert Sorted(candles);
      assert bar.value < deadline;
    } else {
      assert candles[deadline].date != next;
    }
  }

  /** A trade that was over after the bar it was entered on, and by its deadline. */
  predicate Timely(r: Rules, t: PortfolioTrade) {
    && t.ticker < |r.universe| && t.entryAt + 1 < Length(r, t.ticker)
    && DateOf(r, t.ticker, t.entryAt) < t.exitDay <= DateOf(r, t.ticker, Deadline(r, t.ticker, t.entryAt))
  }

  lemma ClosedInTime(r: Rules, p: Position, day: int, next: int, outcome: Outcome)
    requires Dated(r) && OpenOn(r, p, day) && NextDay(r, day, next)
    ensures Timely(r, ClosedTrade(p, next, outcome, r.commissionPct))
  {
    assert !(day < DateOf(r, p.ticker, Deadline(r, p.ticker, p.entryAt)) < next);
  }

  /** A pending entry meets exactly its own bar: it never goes stale. */
  lemma OrderMeetsItsBar(r: Rules, o: PendingEntry, day: int, next: int)
    requires Dated(r) && PendingOn(r, o, day) && NextDay(r, day, next)
    ensures var bar := BarOn(r.universe[o.ticker].candles, next);
            if bar.Some? then bar.value == o.fillAt else PendingOn(r, o, next)
  {
    var candles := r.universe[o.ticker].candles;
    assert Sorted(candles);
    assert !(day < candles[o.fillAt].date < next);
    var bar := BarOn(candles, next);
    if bar.Some? {
      assert candles[bar.value].date == next;
    }
  }

  // ---- the run ----

  function Tickers(ps: seq<Position>): set<nat> {
    set p | p in ps :: p.ticker
  }

  ghost predicate DistinctTickers(ps: seq<Position>, os: seq<PendingEntry>) {
    && (forall i, j :: 0 <= i < j < |ps| ==> ps[i].ticker != ps[j].ticker)
    && (forall i, j :: 0 <= i < j < |os| ==> os[i].ticker != os[j].ticker)
    && forall p, o :: p in ps && o in os ==> p.ticker != o.ticker
  }

  function LastCloseOf(lastClose: map<nat, real>, p: Position): real {
    if p.ticker in lastClose then lastClose[p.ticker] else p.entry
  }

  function MarketValue(ps: seq<Position>, lastClose: map<nat, real>): real {
    if ps == [] then 0.0
    else MarketValue(ps[..|ps| - 1], lastClose) + Worth(ps[|ps| - 1].shares, LastCloseOf(lastClose, ps[|ps| - 1]))
  }

  /** What one pending entry buys on its bar, if it buys at all. */
  function Attempt(r: Rules, o: PendingEntry, equity: real, cash: real, open: nat): Option<Position>
    requires o.ticker < |r.universe| && o.fillAt < Length(r, o.ticker) && Sane(r)
  {
    var bar := r.universe[o.ticker].candles[o.fillAt];
    var fill := LimitEntryFill(bar, o.signalClose, r.limitPct);
    if open >= r.maxPositions || fill.None? then None else
      FillIsPositive(bar, o.signalClose, r.limitPct, r.slip);
      var entry := Bought(fill.value, r.slip);
      if entry - o.plan.stop <= 0.0 then None else
        var quantity := Quantity(r, equity, cash, entry, entry - o.plan.stop);
        if quantity < 1 then None
        else Some(Position(o.ticker, o.fillAt, entry, quantity, quantity, o.plan, None, None, []))
  }

  lemma FillIsPositive(bar: Candle, signalClose: real, limitPct: Option<real>, slip: real)
    requires Priced(bar) && slip > -1.0
    ensures var fill := LimitEntryFill(bar, signalClose, limitPct); fill.Some? ==> Bought(fill.value, slip) > 0.0
  {
    var fill := LimitEntryFill(bar, signalClose, limitPct);
    if fill.Some? {
      FillsAtAPrice(bar, signalClose, limitPct);
      BoughtIsPositive(fill.value, slip);
    }
  }

  lemma BoughtIsPositive(price: real, slip: real)
    requires price > 0.0 && slip > -1.0
    ensures Bought(price, slip) > 0.0
  {
    Scale(0.0, price, 1.0 + slip);
  }

  lemma FillsAtAPrice(bar: Candle, signalClose: real, limitPct: Option<real>)
    requires Priced(bar)
    ensures var fill := LimitEntryFill(bar, signalClose, limitPct); fill.Some? ==> fill.value > 0.0
  {
  }

  lemma AttemptIsSized(r: Rules, o: PendingEntry, equity: real, cash: real, open: nat)
    requires o.ticker < |r.universe| && o.fillAt < Length(r, o.ticker) && Sane(r)
    ensures var p := Attempt(r, o, equity, cash, open);
            p.Some? ==>
              && p.value.entry > 0.0 && p.value.entry - o.plan.stop > 0.0 && open < r.maxPositions
              && 1 <= p.value.initial == Quantity(r, equity, cash, p.value.entry, p.value.entry - o.plan.stop)
              && p.value == Position(o.ticker, o.fillAt, p.value.entry, p.value.initial, p.value.initial, o.plan, None, None, [])
  {
    var bar := r.universe[o.ticker].candles[o.fillAt];
    FillIsPositive(bar, o.signalClose, r.limitPct, r.slip);
  }

  /** What is bought is an open position that the cash at hand pays for. */
  lemma BoughtIsOpen(r: Rules, o: PendingEntry, equity: real, cash: real, open: nat, day: int, next: int)
    requires Sane(r) && PendingOn(r, o, day) && DateOf(r, o.ticker, o.fillAt) == next
    ensures var p := Attempt(r, o, equity, cash, open);
            p.Some? ==>
              && OpenOn(r, p.value, next) && p.value.ticker == o.ticker && open < r.maxPositions
              && Worth(p.value.initial, p.value.entry) <= cash && Booked(p.value) == -Worth(p.value.initial, p.value.entry)
  {
    var p := Attempt(r, o, equity, cash, open);
    if p.Some? {
      AttemptIsSized(r, o, equity, cash, open);
      QuantityIsLargest(r, equity, cash, p.value.entry, p.value.entry - o.plan.stop, p.value.initial);
      assert Sorted(r.universe[o.ticker].candles);
    }
  }

  /** The entry that a ticker's signal on a day queues, if it signals and is free to. */
  function Signal(r: Rules, ticker: nat, day: int, busy: set<nat>, lastExit: map<nat, nat>): Option<PendingEntry>
    requires ticker < |r.universe|
  {
    var s := r.universe[ticker];
    var bar := BarOn(s.candles, day);
    if bar.None? || ticker in busy || bar.value < Warmup(|s.candles|) || bar.value + 2 >= |s.candles| then None
    else if ticker in lastExit && bar.value <= lastExit[ticker] then None
    else
      var report := r.analyze(ticker, s.candles[..bar.value + 1], VisibleFundamentals(s.fundamentals, day), VisibleCatalysts(s.catalysts, day));
      if report.None? || !report.value.buy then None
      else Some(PendingEntry(ticker, bar.value + 1, s.candles[bar.value].close, report.value.plan))
  }

  /** An entry is queued past the warm-up, with a bar after its own, from the close of the bar
      before it, and at least two bars after the ticker's last exit: the cadence of the
      single-ticker backtest. */
  lemma SignalRespectsCooldown(r: Rules, ticker: nat, day: int, busy: set<nat>, lastExit: map<nat, nat>)
    requires ticker < |r.universe|
    ensures var o := Signal(r, ticker, day, busy, lastExit);
            o.Some? ==>
              && Warmup(Length(r, ticker)) < o.value.fillAt < Length(r, ticker) - 1
              && DateOf(r, ticker, o.value.fillAt - 1) == day
              && o.value.signalClose == r.universe[ticker].candles[o.value.fillAt - 1].close
              && (ticker in lastExit ==> lastExit[ticker] + 2 <= o.value.fillAt)
  {
  }

  /** The signals of the first n tickers, in the universe's order. */
  function Signals(r: Rules, n: nat, day: int, busy: set<nat>, lastExit: map<nat, nat>): seq<PendingEntry>
    requires n <= |r.universe|
  {
    if n == 0 then [] else
      var s := Signal(r, n - 1, day, busy, lastExit);
      if s.Some? then Signals(r, n - 1, day, busy, lastExit) + [s.value] else Signals(r, n - 1, day, busy, lastExit)
  }

  lemma SignalIsPending(r: Rules, ticker: nat, day: int, busy: set<nat>, lastExit: map<nat, nat>)
    requires ticker < |r.universe| && Dated(r)
    ensures var s := Signal(r, ticker, day, busy, lastExit);
            s.Some? ==> PendingOn(r, s.value, day) && s.value.ticker == ticker && ticker !in busy
  {
    assert Sorted(r.universe[ticker].candles);
  }

  /** Entries queued on a day by free tickers below n, in the universe's order. */
  ghost predicate QueuedToday(r: Rules, os: seq<PendingEntry>, n: nat, day: int, busy: set<nat>) {
    && (forall o :: o in os ==> PendingOn(r, o, day) && o.ticker < n && o.ticker !in busy)
    && (forall i, j :: 0 <= i < j < |os| ==> os[i].ticker < os[j].ticker)
  }

  lemma OneMoreQueued(r: Rules, os: seq<PendingEntry>, o: PendingEntry, n: nat, day: int, busy: set<nat>)
    requires QueuedToday(r, os, n, day, busy) && PendingOn(r, o, day) && o.ticker == n && n !in busy
    ensures QueuedToday(r, os + [o], n + 1, day, busy)
  {
  }

  lemma {:induction false} SignalsArePending(r: Rules, n: nat, day: int, busy: set<nat>, lastExit: map<nat, nat>)
    requires n <= |r.universe| && Dated(r)
    ensures QueuedToday(r, Signals(r, n, day, busy, lastExit), n, day, busy)
  {
    if n > 0 {
      SignalsArePending(r, n - 1, day, busy, lastExit);
      SignalIsPending(r, n - 1, day, busy, lastExit);
      var before, s := Signals(r, n - 1, day, busy, lastExit), Signal(r, n - 1, day, busy, lastExit);
      if s.Some? {
        OneMoreQueued(r, before, s.value, n - 1, day, busy);
      }
    }
  }

  function Busy(ps: seq<Position>, os: seq<PendingEntry>): set<nat> {
    Tickers(ps) + set o | o in os :: o.ticker
  }

  lemma ReplacedKeepDistinct(ps: seq<Position>, os: seq<PendingEntry>, i: nat, instead: seq<Position>)
    requires DistinctTickers(ps, os) && i < |ps|
    requires instead == [] || (|instead| == 1 && instead[0].ticker == ps[i].ticker)
    ensures DistinctTickers(Replaced(ps, i, instead), os)
  {
    var qs := Replaced(ps, i, instead);
    forall a, b | 0 <= a < b < |qs| ensures qs[a].ticker != qs[b].ticker {
      var x, y := if a < i then a else a + 1 - |instead|, if b < i then b else b + 1 - |instead|;
      assert qs[a].ticker == ps[x].ticker && qs[b].ticker == ps[y].ticker;
    }
    forall q, o | q in qs && o in os ensures q.ticker != o.ticker {
      if q in instead {
        assert ps[i] in ps;
      }
    }
  }

  predicate AllTimely(r: Rules, ts: seq<PortfolioTrade>) {
    forall t :: t in ts ==> Timely(r, t)
  }

  /** The first i positions have had their day. */
  predicate Halfway(r: Rules, ps: seq<Position>, i: nat, day: int, yesterday: int) {
    && i <= |ps|
    && (forall k :: 0 <= k < i ==> OpenOn(r, ps[k], day))
    && forall k :: i <= k < |ps| ==> OpenOn(r, ps[k], yesterday)
  }

  lemma HalfwayMoves(r: Rules, ps: seq<Position>, i: nat, instead: seq<Position>, day: int, yesterday: int)
    requires Halfway(r, ps, i, day, yesterday) && i < |ps|
    requires instead == [] || (|instead| == 1 && OpenOn(r, instead[0], day))
    ensures Halfway(r, Replaced(ps, i, instead), i + |instead|, day, yesterday)
  {
  }

  /** A position's day either closes it in time or leaves it open with its deadline ahead. */
  lemma DayIsInTime(r: Rules, p: Position, day: int, next: int, bar: nat)
    requires Dated(r) && OpenOn(r, p, day) && NextDay(r, day, next)
    requires BarOn(r.universe[p.ticker].candles, next) == Some(bar)
    ensures var x := AfterDay(r, p, bar);
            && x.position.ticker == p.ticker
            && (if x.closed then Timely(r, ClosedTrade(x.position, next, x.outcome, r.commissionPct)) else OpenOn(r, x.position, next))
  {
    var x := AfterDay(r, p, bar);
    DayKeepsAccounts(r, p, bar);
    if x.closed {
      ClosedInTime(r, p, day, next, x.outcome);
    } else {
      SurvivorIsOpen(r, p, x.position, day, next);
    }
  }

  lemma RemovedKeepDistinct(ps: seq<Position>, os: seq<PendingEntry>, i: nat)
    requires DistinctTickers(ps, os) && i < |os|
    ensures DistinctTickers(ps, os[..i] + os[i + 1..])
    ensures forall p :: p in ps ==> p.ticker != os[i].ticker
    ensures forall o :: o in os[..i] + os[i + 1..] ==> o.ticker != os[i].ticker
  {
    var rest := os[..i] + os[i + 1..];
    forall a, b | 0 <= a < b < |rest| ensures rest[a].ticker != rest[b].ticker {
      assert rest[a] == os[if a < i then a else a + 1] && rest[b] == os[if b < i then b else b + 1];
    }
    forall k | 0 <= k < |rest| ensures rest[k].ticker != os[i].ticker && rest[k] in os {
      assert rest[k] == os[if k < i then k else k + 1];
    }
    assert os[i] in os;
  }

  lemma {:induction false} SignalsAreEarlier(r: Rules, n: nat, day: int, busy: set<nat>, lastExit: map<nat, nat>)
    requires n <= |r.universe|
    ensures forall o :: o in Signals(r, n, day, busy, lastExit) ==> o.ticker < n
  {
    if n > 0 {
      SignalsAreEarlier(r, n - 1, day, busy, lastExit);
    }
  }

  /** What a ticker signals does not depend on what earlier tickers queued the same day. */
  lemma SignalsDoNotInterfere(r: Rules, t: nat, day: int, ps: seq<Position>, os: seq<PendingEntry>,
          lastExit: map<nat, nat>)
    requires t < |r.universe|
    ensures Signal(r, t, day, Busy(ps, os + Signals(r, t, day, Busy(ps, os), lastExit)), lastExit) == Signal(r, t, day, Busy(ps, os), lastExit)
  {
    SignalsAreEarlier(r, t, day, Busy(ps, os), lastExit);
  }

  /** The closes noted after the first n tickers. */
  function Closes(r: Rules, n: nat, day: int, before: map<nat, real>): map<nat, real>
    requires n <= |r.universe|
  {
    if n == 0 then before else
      var rest, bar := Closes(r, n - 1, day, before), BarOn(r.universe[n - 1].candles, day);
      if bar.Some? then rest[n - 1 := r.universe[n - 1].candles[bar.value].close] else rest
  }

  /** The first i pending entries are still waiting today; the others have not been looked at. */
  predicate Queued(r: Rules, os: seq<PendingEntry>, i: nat, day: int, yesterday: int) {
    && i <= |os|
    && (forall k :: 0 <= k < i ==> PendingOn(r, os[k], day))
    && forall k :: i <= k < |os| ==> PendingOn(r, os[k], yesterday)
  }

  lemma SignalledKeepDistinct(r: Rules, ps: seq<Position>, os: seq<PendingEntry>, day: int, lastExit: map<nat, nat>)
    requires DistinctTickers(ps, os) && Dated(r)
    ensures var signals := Signals(r, |r.universe|, day, Busy(ps, os), lastExit);
            DistinctTickers(ps, os + signals) && forall o :: o in signals ==> PendingOn(r, o, day)
  {
    SignalsArePending(r, |r.universe|, day, Busy(ps, os), lastExit);
    var signals := Signals(r, |r.universe|, day, Busy(ps, os), lastExit);
    var all := os + signals;
    forall i, j | 0 <= i < j < |all| ensures all[i].ticker != all[j].ticker {
      if i < |os| <= j {
        assert all[i] in os && signals[j - |os|] in signals;
        assert all[i].ticker in Busy(ps, os);
      }
    }
    forall p, o | p in ps && o in all ensures p.ticker != o.ticker {
      assert p.ticker in Busy(ps, os);
    }
  }

  // ---- the calendar of all series ----

  ghost predicate Increasing(days: seq<int>) {
    forall i, j :: 0 <= i < j < |days| ==> days[i] < days[j]
  }

  /** The days are exactly the dates of the bars. */
  ghost predicate IsCalendar(r: Rules, days: seq<int>) {
    && Increasing(days)
    && (forall s, i :: 0 <= s < |r.universe| && 0 <= i < |r.universe[s].candles| ==> r.universe[s].candles[i].date in days)
    && (forall d :: d in days ==> exists s, i :: 0 <= s < |r.universe| && 0 <= i < |r.universe[s].candles| && r.universe[s].candles[i].date == d)
  }

  method Insert(days: seq<int>, day: int) returns (more: seq<int>)
    requires Increasing(days)
    ensures Increasing(more) && forall d :: d in more <==> d in days || d == day
  {
    var i := |days|;
    while i > 0 && days[i - 1] >= day
      invariant 0 <= i <= |days| && forall k :: i <= k < |days| ==> days[k] >= day
    {
      i := i - 1;
    }
    if i < |days| && days[i] == day { return days; }
    more := days[..i] + [day] + days[i..];
    assert forall d :: d in days <==> d in days[..i] || d in days[i..];
  }

  method Calendar(r: Rules) returns (days: seq<int>)
    ensures IsCalendar(r, days)
  {
    days := [];
    for s := 0 to |r.universe|
      invariant Increasing(days)
      invariant forall t, i :: 0 <= t < s && 0 <= i < |r.universe[t].candles| ==> r.universe[t].candles[i].date in days
      invariant forall d :: d in days ==> exists t, i :: 0 <= t < s && 0 <= i < |r.universe[t].candles| && r.universe[t].candles[i].date == d
    {
      days := WithDates(days, r.universe[s].candles);
    }
  }

  method WithDates(days: seq<int>, candles: seq<Candle>) returns (more: seq<int>)
    requires Increasing(days)
    ensures Increasing(more)
    ensures forall d :: d in more <==> d in days || exists i :: 0 <= i < |candles| && candles[i].date == d
  {
    more := days;
    for i := 0 to |candles|
      invariant Increasing(more)
      invariant forall d :: d in more <==> d in days || exists k :: 0 <= k < i && candles[k].date == d
    {
      more := Insert(more, candles[i].date);
    }
  }

  lemma EmptyCalendarIff(r: Rules, days: seq<int>)
    requires IsCalendar(r, days)
    ensures days == [] <==> forall s :: s in r.universe ==> s.candles == []
  {
    if s :| s in r.universe && s.candles != [] {
      var k :| 0 <= k < |r.universe| && r.universe[k] == s;
      assert r.universe[k].candles[0].date in days;
    } else if days != [] {
      assert days[0] in days;
      var s, i :| 0 <= s < |r.universe| && 0 <= i < |r.universe[s].candles| && r.universe[s].candles[i].date == days[0];
      assert r.universe[s] in r.universe;
    }
  }

  function DayBefore(days: seq<int>, d: nat): int
    requires d <= |days| && days != []
  {
    if d == 0 then days[0] - 1 else days[d - 1]
  }

  lemma CalendarSteps(r: Rules, days: seq<int>, d: nat)
    requires IsCalendar(r, days) && d < |days|
    ensures NextDay(r, DayBefore(days, d), days[d])
  {
    forall s, i | 0 <= s < |r.universe| && 0 <= i < |r.universe[s].candles|
      ensures !(DayBefore(days, d) < r.universe[s].candles[i].date < days[d])
    {
      var date := r.universe[s].candles[i].date;
      assert date in days;
      var k :| 0 <= k < |days| && days[k] == date;
    }
  }

  /** On the last day of the calendar no deadline is ahead, so no position is open. */
  lemma NothingSurvives(r: Rules, days: seq<int>, ps: seq<Position>)
    requires IsCalendar(r, days) && days != [] && forall p :: p in ps ==> OpenOn(r, p, days[|days| - 1])
    ensures ps == []
  {
    if ps != [] {
      var p := ps[0];
      assert p in ps;
      var date := r.universe[p.ticker].candles[Deadline(r, p.ticker, p.entryAt)].date;
      assert date in days;
      var k :| 0 <= k < |days| && days[k] == date;
      assert false;
    }
  }

  // ---- a day as a function ----

  /** All that a run carries from day to day. */
  datatype State = State(cash: real, positions: seq<Position>, pending: seq<PendingEntry>, lastClose: map<nat, real>,
                         lastExit: map<nat, nat>, trades: seq<PortfolioTrade>, skipped: nat, maxConcurrent: nat,
                         equityCurve: seq<real>)

  function Start(r: Rules): State {
    State(r.startingCash, [], [], map[], map[], [], 0, 0, [])
  }

  predicate ListedPositions(r: Rules, ps: seq<Position>) {
    forall p :: p in ps ==> p.ticker < |r.universe|
  }

  predicate ListedEntries(r: Rules, os: seq<PendingEntry>) {
    forall o :: o in os ==> o.ticker < |r.universe| && o.fillAt < Length(r, o.ticker)
  }

  /** The i-th position's exits. */
  function AfterExit(r: Rules, s: State, i: nat, day: int): State
    requires i < |s.positions| && ListedPositions(r, s.positions)
  {
    var p := s.positions[i];
    var bar := BarOn(r.universe[p.ticker].candles, day);
    if bar.None? then s else
      var x := AfterDay(r, p, bar.value);
      var paid := s.cash + (Proceeds(x.position.sales) - Proceeds(p.sales));
      if !x.closed then s.(cash := paid, positions := Replaced(s.positions, i, [x.position]))
      else s.(cash := paid - Commission(x.position, r.commissionPct), positions := Replaced(s.positions, i, []),
              trades := s.trades + [ClosedTrade(x.position, day, x.outcome, r.commissionPct)], lastExit := s.lastExit[p.ticker := bar.value])
  }

  lemma AfterExitStays(r: Rules, s: State, i: nat, day: int)
    requires i < |s.positions| && ListedPositions(r, s.positions)
    ensures var e := AfterExit(r, s, i, day);
            && ListedPositions(r, e.positions) && |s.positions| - 1 <= |e.positions| <= |s.positions|
            && e.pending == s.pending
  {
    var p := s.positions[i];
    var bar := BarOn(r.universe[p.ticker].candles, day);
    if bar.Some? {
      DayKeepsTicker(r, p, bar.value);
      var x := AfterDay(r, p, bar.value);
      forall q | q in Replaced(s.positions, i, if x.closed then [] else [x.position]) ensures q.ticker < |r.universe| {
        assert q in s.positions || q == x.position;
      }
    }
  }

  lemma ExitKeepsAll(r: Rules, s: State, i: nat, bar: nat, day: int, yesterday: int)
    requires Dated(r) && NextDay(r, yesterday, day) && i < |s.positions| && ListedPositions(r, s.positions)
    requires DistinctTickers(s.positions, s.pending) && Halfway(r, s.positions, i, day, yesterday) && AllTimely(r, s.trades)
    requires BarOn(r.universe[s.positions[i].ticker].candles, day) == Some(bar)
    ensures var e := AfterExit(r, s, i, day);
            && DistinctTickers(e.positions, e.pending) && AllTimely(r, e.trades)
            && Halfway(r, e.positions, NextExit(s, e, i), day, yesterday)
  {
    var x := AfterDay(r, s.positions[i], bar);
    var instead := if x.closed then [] else [x.position];
    DayIsInTime(r, s.positions[i], yesterday, day, bar);
    ReplacedKeepDistinct(s.positions, s.pending, i, instead);
    HalfwayMoves(r, s.positions, i, instead, day, yesterday);
  }

  lemma DayKeepsTicker(r: Rules, p: Position, bar: nat)
    requires p.ticker < |r.universe| && bar < Length(r, p.ticker)
    ensures AfterDay(r, p, bar).position.ticker == p.ticker
  {
    var candles := r.universe[p.ticker].candles;
    var step := LadderStep(candles[bar], p.plan, p.trail, p.entry, r.measure(candles[..bar + 1]), true);
    EventsKeepIdentity(Exiting(p.(trail := step.trail), false, Whole(Time)), step.events, r.slip);
  }

  /** A position that was closed makes room for the next one at its place. */
  function NextExit(before: State, after: State, i: nat): nat {
    if |after.positions| < |before.positions| then i else i + 1
  }

  function ExitsFrom(r: Rules, s: State, i: nat, day: int): (e: State)
    requires ListedPositions(r, s.positions)
    ensures ListedPositions(r, e.positions) && e.pending == s.pending
    decreases |s.positions| - i
  {
    if i >= |s.positions| then s else
      AfterExitStays(r, s, i, day);
      var e := AfterExit(r, s, i, day);
      ExitsFrom(r, e, NextExit(s, e, i), day)
  }

  /** An entry on its bar. */
  function Entered(r: Rules, s: State, o: PendingEntry): State
    requires Sane(r) && o.ticker < |r.universe| && o.fillAt < Length(r, o.ticker)
  {
    var p := Attempt(r, o, s.cash + MarketValue(s.positions, s.lastClose), s.cash, |s.positions|);
    if p.Some? then
      s.(cash := s.cash - Worth(p.value.initial, p.value.entry), positions := s.positions + [p.value],
         maxConcurrent := MaxInt(s.maxConcurrent, |s.positions| + 1))
    else if |s.positions| < r.maxPositions && LimitEntryFill(r.universe[o.ticker].candles[o.fillAt], o.signalClose, r.limitPct).None? then s
    else s.(skipped := s.skipped + 1)
  }

  lemma EnteredKeepsAll(r: Rules, s: State, o: PendingEntry, yesterday: int, day: int)
    requires Sane(r) && PendingOn(r, o, yesterday) && DateOf(r, o.ticker, o.fillAt) == day
    requires DistinctTickers(s.positions, s.pending) && |s.positions| <= MaxInt(r.maxPositions, 0)
    requires forall p :: p in s.positions ==> OpenOn(r, p, day)
    requires (forall p :: p in s.positions ==> p.ticker != o.ticker) && forall q :: q in s.pending ==> q.ticker != o.ticker
    ensures var e := Entered(r, s, o);
            && DistinctTickers(e.positions, e.pending) && |e.positions| <= MaxInt(r.maxPositions, 0)
            && (forall p :: p in e.positions ==> OpenOn(r, p, day))
            && ((e.cash == s.cash && e.positions == s.positions) || e.cash >= 0.0)
  {
    BoughtIsOpen(r, o, s.cash + MarketValue(s.positions, s.lastClose), s.cash, |s.positions|, yesterday, day);
  }

  function Without<T>(xs: seq<T>, i: nat): seq<T>
    requires i < |xs|
  {
    xs[..i] + xs[i + 1..]
  }

  /** The i-th pending entry's turn: it waits, or leaves the queue, as a position or for good. */
  function AfterFill(r: Rules, s: State, i: nat, day: int): State
    requires Sane(r) && i < |s.pending| && ListedEntries(r, s.pending)
  {
    var o := s.pending[i];
    var bar := BarOn(r.universe[o.ticker].candles, day);
    if bar.None? then s else
      var rest := s.(pending := Without(s.pending, i));
      if bar.value != o.fillAt then rest else Entered(r, rest, o)
  }

  lemma AfterFillStays(r: Rules, s: State, i: nat, day: int)
    requires Sane(r) && i < |s.pending| && ListedEntries(r, s.pending)
    ensures var e := AfterFill(r, s, i, day);
            && ListedEntries(r, e.pending) && |s.pending| - 1 <= |e.pending| <= |s.pending|
            && (ListedPositions(r, s.positions) ==> ListedPositions(r, e.positions))
  {
    var o := s.pending[i];
    assert forall q :: q in Without(s.pending, i) ==> q in s.pending;
    AttemptIsSized(r, o, s.cash + MarketValue(s.positions, s.lastClose), s.cash, |s.positions|);
  }

  function NextFill(before: State, after: State, i: nat): nat {
    if |after.pending| < |before.pending| then i else i + 1
  }

  function FillsFrom(r: Rules, s: State, i: nat, day: int): (e: State)
    requires Sane(r) && ListedEntries(r, s.pending)
    ensures ListedEntries(r, e.pending) && (ListedPositions(r, s.positions) ==> ListedPositions(r, e.positions))
    decreases |s.pending| - i
  {
    if i >= |s.pending| then s else
      AfterFillStays(r, s, i, day);
      var e := AfterFill(r, s, i, day);
      FillsFrom(r, e, NextFill(s, e, i), day)
  }

  /** Closes are noted, signals queue, and the day is marked to market. */
  function Signalled(r: Rules, s: State, day: int): State {
    var e := s.(pending := s.pending + Signals(r, |r.universe|, day, Busy(s.positions, s.pending), s.lastExit),
                lastClose := Closes(r, |r.universe|, day, s.lastClose));
    e.(equityCurve := e.equityCurve + [e.cash + MarketValue(e.positions, e.lastClose)])
  }

  lemma {:induction false} SignalsAreListed(r: Rules, n: nat, day: int, busy: set<nat>, lastExit: map<nat, nat>)
    requires n <= |r.universe|
    ensures ListedEntries(r, Signals(r, n, day, busy, lastExit))
  {
    if n > 0 {
      SignalsAreListed(r, n - 1, day, busy, lastExit);
    }
  }

  predicate Listed(r: Rules, s: State) {
    ListedPositions(r, s.positions) && ListedEntries(r, s.pending)
  }

  /** Exits, entries, signals, mark to market. */
  function DayAfter(r: Rules, s: State, day: int): (e: State)
    requires Sane(r) && Listed(r, s)
    ensures Listed(r, e)
  {
    var f := FillsFrom(r, ExitsFrom(r, s, 0, day), 0, day);
    SignalsAreListed(r, |r.universe|, day, Busy(f.positions, f.pending), f.lastExit);
    Signalled(r, f, day)
  }

  function DaysAfter(r: Rules, s: State, days: seq<int>): (e: State)
    requires Sane(r) && Listed(r, s)
    ensures Listed(r, e)
  {
    if days == [] then s else DayAfter(r, DaysAfter(r, s, days[..|days| - 1]), days[|days| - 1])
  }

  /** Flattening finds nothing to sell; the curve ends at the final cash. */
  function Final(s: State): State {
    if s.equityCurve == [] then s else s.(equityCurve := s.equityCurve[|s.equityCurve| - 1 := s.cash])
  }

  lemma {:induction false} ExitsDoNotMark(r: Rules, s: State, i: nat, day: int)
    requires ListedPositions(r, s.positions)
    ensures ExitsFrom(r, s, i, day).equityCurve == s.equityCurve
    decreases |s.positions| - i
  {
    if i < |s.positions| {
      AfterExitStays(r, s, i, day);
      var e := AfterExit(r, s, i, day);
      ExitsDoNotMark(r, e, NextExit(s, e, i), day);
    }
  }

  lemma {:induction false} FillsDoNotMark(r: Rules, s: State, i: nat, day: int)
    requires Sane(r) && ListedEntries(r, s.pending)
    ensures FillsFrom(r, s, i, day).equityCurve == s.equityCurve && FillsFrom(r, s, i, day).trades == s.trades
    decreases |s.pending| - i
  {
    if i < |s.pending| {
      AfterFillStays(r, s, i, day);
      var e := AfterFill(r, s, i, day);
      FillsDoNotMark(r, e, NextFill(s, e, i), day);
    }
  }

  lemma OneMoreDay(r: Rules, s: State, days: seq<int>, d: nat)
    requires Sane(r) && Listed(r, s) && d < |days|
    ensures DaysAfter(r, s, days[..d + 1]) == DayAfter(r, DaysAfter(r, s, days[..d]), days[d])
  {
    assert days[..d + 1][..d] == days[..d];
  }

  /** One value of the curve for every day. */
  lemma {:induction false} DaysAreMarked(r: Rules, s: State, days: seq<int>)
    requires Sane(r) && Listed(r, s)
    ensures |DaysAfter(r, s, days).equityCurve| == |s.equityCurve| + |days|
  {
    if days != [] {
      var rest, day := days[..|days| - 1], days[|days| - 1];
      DaysAreMarked(r, s, rest);
      var e := DaysAfter(r, s, rest);
      ExitsDoNotMark(r, e, 0, day);
      FillsDoNotMark(r, ExitsFrom(r, e, 0, day), 0, day);
    }
  }

  class PortfolioRun {
    const rules: Rules
    var cash: real
    /** In the order of entry. */
    var positions: seq<Position>
    /** In the order of their signals. */
    var pending: seq<PendingEntry>
    var lastClose: map<nat, real>
    var lastExit: map<nat, nat>
    var trades: seq<PortfolioTrade>
    var skipped: nat
    var maxConcurrent: nat
    var equityCurve: seq<real>

    function Now(): State
      reads this
    {
      State(cash, positions, pending, lastClose, lastExit, trades, skipped, maxConcurrent, equityCurve)
    }

    /** No money appears or vanishes: cash is the starting cash, plus every realised profit
        or loss, plus what the open positions have brought in so far less what they cost. */
    ghost predicate Conserves()
      reads this
    {
      cash == rules.startingCash + TotalPnl(trades) + TotalBooked(positions)
    }

    /** At the end of a day. */
    ghost predicate Valid(day: int)
      reads this
    {
      && Conserves() && DistinctTickers(positions, pending)
      && |positions| <= MaxInt(rules.maxPositions, 0)
      && (forall p :: p in positions ==> OpenOn(rules, p, day))
      && (forall o :: o in pending ==> PendingOn(rules, o, day))
    }

    constructor (rules: Rules)
      ensures this.rules == rules && Now() == Start(rules)
      ensures forall day :: Valid(day)
    {
      this.rules := rules;
      cash := rules.startingCash;
      positions, pending, trades, equityCurve := [], [], [], [];
      lastClose, lastExit := map[], map[];
      skipped, maxConcurrent := 0, 0;
    }

    /** Realises a position that has just been sold out. */
    method ClosePosition(i: nat, day: int, outcome: Outcome)
      requires i < |positions| && Conserves()
      modifies this`cash, this`trades, this`positions
      ensures Conserves()
      ensures positions == Replaced(old(positions), i, [])
      ensures trades == old(trades) + [ClosedTrade(old(positions)[i], day, outcome, rules.commissionPct)]
      ensures cash == old(cash) - Commission(old(positions)[i], rules.commissionPct)
    {
      var p := positions[i];
      BookedAfterChange(positions, i, []);
      var trade := ClosedTrade(p, day, outcome, rules.commissionPct);
      assert (trades + [trade])[..|trades|] == trades;
      cash := cash - Commission(p, rules.commissionPct);
      trades := trades + [trade];
      positions := Replaced(positions, i, []);
    }

    /** The exits of the i-th open position on a day with a bar. */
    method ExitOne(i: nat, bar: nat, day: int) returns (closed: bool)
      requires i < |positions| && Conserves() && positions[i].ticker < |rules.universe| && bar < Length(rules, positions[i].ticker)
      modifies this`cash, this`trades, this`positions, this`lastExit
      ensures Conserves()
      ensures var x := AfterDay(rules, old(positions)[i], bar);
              && closed == x.closed
              && positions == Replaced(old(positions), i, if closed then [] else [x.position])
              && trades == old(trades) + (if closed then [ClosedTrade(x.position, day, x.outcome, rules.commissionPct)] else [])
              && lastExit == (if closed then old(lastExit)[old(positions)[i].ticker := bar] else old(lastExit))
              && var paid := old(cash) + (Proceeds(x.position.sales) - Proceeds(old(positions)[i].sales));
                 cash == if closed then paid - Commission(x.position, rules.commissionPct) else paid
      ensures BarOn(rules.universe[old(positions)[i].ticker].candles, day) == Some(bar) && ListedPositions(rules, old(positions)) ==>
                Now() == AfterExit(rules, old(Now()), i, day)
    {
      var x, money := LiveDay(positions[i], bar);
      ReplacedTwice(positions, i, x.position);
      Book(i, x.position, money);
      closed := x.closed;
      if closed {
        lastExit := lastExit[x.position.ticker := bar];
        ClosePosition(i, day, x.outcome);
      }
    }

    /** Writes a position back with the money its sales brought in. */
    method Book(i: nat, q: Position, money: real)
      requires i < |positions| && Conserves()
      requires q.initial == positions[i].initial && q.entry == positions[i].entry
      requires money == Proceeds(q.sales) - Proceeds(positions[i].sales)
      modifies this`cash, this`positions
      ensures Conserves() && cash == old(cash) + money
      ensures positions == Replaced(old(positions), i, [q])
    {
      BookedAfterChange(positions, i, [q]);
      BookedOfOneMore([], q);
      assert [] + [q] == [q];
      cash := cash + money;
      positions := Replaced(positions, i, [q]);
    }

    /** The ladder's events, then the holding period. */
    method LiveDay(p: Position, bar: nat) returns (x: Exiting, money: real)
      requires p.ticker < |rules.universe| && bar < Length(rules, p.ticker)
      ensures x == AfterDay(rules, p, bar) && money == Proceeds(x.position.sales) - Proceeds(p.sales)
      ensures x.position.initial == p.initial && x.position.entry == p.entry && x.position.ticker == p.ticker
    {
      var candles := rules.universe[p.ticker].candles;
      var step := LadderStep(candles[bar], p.plan, p.trail, p.entry, rules.measure(candles[..bar + 1]), true);
      x, money := TakeEvents(p.(trail := step.trail), step.events);
      EventsKeepIdentity(Exiting(p.(trail := step.trail), false, Whole(Time)), step.events, rules.slip);
      if !x.closed && bar >= MinInt(p.entryAt + rules.maxHoldDays, |candles| - 1) {
        var net := Sold(candles[bar].close, rules.slip);
        ProceedsOfOneMore(x.position.sales, Sale(x.position.shares, net));
        money := money + Worth(x.position.shares, net);
        x := SoldAll(x.position, net, Time);
      }
    }

    /** The loop over the ladder's events: shares out, money in. */
    method TakeEvents(p: Position, events: seq<Event>) returns (x: Exiting, money: real)
      ensures x == AfterEvents(Exiting(p, false, Whole(Time)), events, rules.slip)
      ensures money == Proceeds(x.position.sales) - Proceeds(p.sales)
    {
      x, money := Exiting(p, false, Whole(Time)), 0.0;
      for e := 0 to |events|
        invariant x == AfterEvents(Exiting(p, false, Whole(Time)), events[..e], rules.slip)
        invariant money == Proceeds(x.position.sales) - Proceeds(p.sales)
      {
        assert events[..e + 1][..e] == events[..e];
        var net := Sold(events[e].price, rules.slip);
        var quantity := if events[e].ScaleOut? then MinInt((x.position.shares + 1) / 2, x.position.shares) else x.position.shares;
        EventPays(x, events[e], quantity, net, rules.slip);
        money := money + Worth(quantity, net);
        x := AfterEvent(x, events[e], rules.slip);
      }
      assert events[..|events|] == events;
    }

    /** First phase: exits free cash. */
    method ExitPhase(day: int, ghost yesterday: int)
      requires Dated(rules) && Valid(yesterday) && NextDay(rules, yesterday, day)
      requires AllTimely(rules, trades)
      modifies this`cash, this`trades, this`positions, this`lastExit
      ensures Conserves() && DistinctTickers(positions, pending) && |positions| <= |old(positions)|
      ensures forall p :: p in positions ==> OpenOn(rules, p, day)
      ensures AllTimely(rules, trades)
      ensures Now() == ExitsFrom(rules, old(Now()), 0, day)
    {
      var i: nat := 0;
      while i < |positions|
        invariant ListedPositions(rules, positions) && ExitsFrom(rules, Now(), i, day) == ExitsFrom(rules, old(Now()), 0, day)
        invariant Conserves() && DistinctTickers(positions, pending) && |positions| <= |old(positions)|
        invariant Halfway(rules, positions, i, day, yesterday) && AllTimely(rules, trades)
        decreases |positions| - i
      {
        i := ExitRound(i, day, yesterday);
      }
    }

    /** One position's turn; the next one to look at is returned. */
    method ExitRound(i: nat, day: int, ghost yesterday: int) returns (next: nat)
      requires Dated(rules) && NextDay(rules, yesterday, day) && i < |positions|
      requires Conserves() && DistinctTickers(positions, pending)
      requires Halfway(rules, positions, i, day, yesterday) && AllTimely(rules, trades) && ListedPositions(rules, positions)
      modifies this`cash, this`trades, this`positions, this`lastExit
      ensures Now() == AfterExit(rules, old(Now()), i, day) && next == NextExit(old(Now()), Now(), i)
      ensures ListedPositions(rules, positions)
      ensures Conserves() && DistinctTickers(positions, pending)
      ensures Halfway(rules, positions, next, day, yesterday) && AllTimely(rules, trades)
      ensures |positions| <= |old(positions)| && |positions| - next < |old(positions)| - i
    {
      AfterExitStays(rules, Now(), i, day);
      var p := positions[i];
      var bar := BarOn(rules.universe[p.ticker].candles, day);
      if bar.None? {
        SurvivorIsOpen(rules, p, p, yesterday, day);
        return i + 1;
      }
      var closed := ExitOn(i, bar.value, day, yesterday);
      next := if closed then i else i + 1;
    }

    /** A position's turn on a day with a bar. */
    method ExitOn(i: nat, bar: nat, day: int, ghost yesterday: int) returns (closed: bool)
      requires Dated(rules) && NextDay(rules, yesterday, day) && i < |positions|
      requires Conserves() && DistinctTickers(positions, pending)
      requires Halfway(rules, positions, i, day, yesterday) && AllTimely(rules, trades) && ListedPositions(rules, positions)
      requires BarOn(rules.universe[positions[i].ticker].candles, day) == Some(bar)
      modifies this`cash, this`trades, this`positions, this`lastExit
      ensures Now() == AfterExit(rules, old(Now()), i, day) && |positions| == |old(positions)| - (if closed then 1 else 0)
      ensures Conserves() && DistinctTickers(positions, pending)
      ensures Halfway(rules, positions, if closed then i else i + 1, day, yesterday) && AllTimely(rules, trades)
    {
      ghost var before := Now();
      closed := ExitOne(i, bar, day);
      ExitKeepsAll(rules, before, i, bar, day, yesterday);
    }

    /** One pending entry's turn on its bar. */
    method FillOne(o: PendingEntry) returns (entered: bool)
      requires Sane(rules) && o.ticker < |rules.universe| && o.fillAt < Length(rules, o.ticker) && Conserves()
      modifies this`cash, this`positions, this`skipped, this`maxConcurrent
      ensures Conserves()
      ensures var p := Attempt(rules, o, old(cash) + MarketValue(old(positions), lastClose), old(cash), |old(positions)|);
              && (entered <==> p.Some?)
              && positions == old(positions) + (if entered then [p.value] else [])
              && cash == old(cash) - (if entered then Worth(p.value.initial, p.value.entry) else 0.0)
              && maxConcurrent == if entered then MaxInt(old(maxConcurrent), |positions|) else old(maxConcurrent)
      ensures Now() == Entered(rules, old(Now()), o)
      // an order that never reached its limit was not skipped
      ensures skipped == old(skipped) + if entered || (|old(positions)| < rules.maxPositions
                && LimitEntryFill(rules.universe[o.ticker].candles[o.fillAt], o.signalClose, rules.limitPct).None?) then 0 else 1
    {
      var p, skip := TryEntry(o);
      if skip {
        skipped := skipped + 1;
      }
      entered := p.Some?;
      if entered {
        BookedOfOneMore(positions, p.value);
        cash := cash - Worth(p.value.initial, p.value.entry);
        positions := positions + [p.value];
        maxConcurrent := MaxInt(maxConcurrent, |positions|);
      }
    }

    /** Slots, limit, risk and size decide, in this order, whether an entry is made. */
    method TryEntry(o: PendingEntry) returns (p: Option<Position>, skip: bool)
      requires Sane(rules) && o.ticker < |rules.universe| && o.fillAt < Length(rules, o.ticker)
      ensures p == Attempt(rules, o, cash + MarketValue(positions, lastClose), cash, |positions|)
      ensures var fill := LimitEntryFill(rules.universe[o.ticker].candles[o.fillAt], o.signalClose, rules.limitPct);
              skip <==> p.None? && (|positions| >= rules.maxPositions || fill.Some?)
      ensures p.Some? ==> p.value.sales == []
    {
      if |positions| >= rules.maxPositions { return None, true; }
      var bar := rules.universe[o.ticker].candles[o.fillAt];
      var fill := LimitEntryFill(bar, o.signalClose, rules.limitPct);
      if fill.None? { return None, false; }
      FillIsPositive(bar, o.signalClose, rules.limitPct, rules.slip);
      var entry := Bought(fill.value, rules.slip);
      if entry - o.plan.stop <= 0.0 { return None, true; }
      var quantity := Quantity(rules, cash + MarketValue(positions, lastClose), cash, entry, entry - o.plan.stop);
      if quantity < 1 { return None, true; }
      p, skip := Some(Position(o.ticker, o.fillAt, entry, quantity, quantity, o.plan, None, None, [])), false;
    }

    /** Between two pending entries of the second phase. */
    ghost predicate Filling(i: nat, day: int, yesterday: int)
      reads this
    {
      && Conserves() && DistinctTickers(positions, pending)
      && |positions| <= MaxInt(rules.maxPositions, 0)
      && (forall p :: p in positions ==> OpenOn(rules, p, day))
      && Queued(rules, pending, i, day, yesterday)
    }

    /** One pending entry's turn; the next one to look at is returned. An entry that is not
        on its bar would be dropped as stale, which does not happen. */
    method FillRound(i: nat, day: int, ghost yesterday: int) returns (next: nat)
      requires Sane(rules) && NextDay(rules, yesterday, day) && i < |pending| && Filling(i, day, yesterday) && ListedEntries(rules, pending)
      modifies this`cash, this`positions, this`pending, this`skipped, this`maxConcurrent
      ensures Now() == AfterFill(rules, old(Now()), i, day) && next == NextFill(old(Now()), Now(), i)
      ensures ListedEntries(rules, pending)
      ensures Filling(next, day, yesterday) && |pending| - next < |old(pending)| - i
      // cash is not negative after an entry
      ensures (cash == old(cash) && positions == old(positions)) || cash >= 0.0
    {
      AfterFillStays(rules, Now(), i, day);
      var o := pending[i];
      OrderMeetsItsBar(rules, o, yesterday, day);
      var bar := BarOn(rules.universe[o.ticker].candles, day);
      if bar.None? { return i + 1; }
      next := i;
      Unqueue(i, day, yesterday);
      if bar.value != o.fillAt {
        assert false;
      } else {
        EnterOn(o, i, day, yesterday);
      }
    }

    method Unqueue(i: nat, ghost day: int, ghost yesterday: int)
      requires i < |pending| && Filling(i, day, yesterday)
      modifies this`pending
      ensures Filling(i, day, yesterday) && pending == Without(old(pending), i)
      ensures var o := old(pending)[i]; (forall p :: p in positions ==> p.ticker != o.ticker) && forall q :: q in pending ==> q.ticker != o.ticker
    {
      RemovedKeepDistinct(positions, pending, i);
      pending := pending[..i] + pending[i + 1..];
    }

    method EnterOn(o: PendingEntry, ghost i: nat, day: int, ghost yesterday: int)
      requires Sane(rules) && PendingOn(rules, o, yesterday) && DateOf(rules, o.ticker, o.fillAt) == day && Filling(i, day, yesterday)
      requires (forall p :: p in positions ==> p.ticker != o.ticker) && forall q :: q in pending ==> q.ticker != o.ticker
      modifies this`cash, this`positions, this`skipped, this`maxConcurrent
      ensures Filling(i, day, yesterday) && Now() == Entered(rules, old(Now()), o)
      ensures (cash == old(cash) && positions == old(positions)) || cash >= 0.0
    {
      ghost var before := Now();
      var _ := FillOne(o);
      EnteredKeepsAll(rules, before, o, yesterday, day);
    }

    /** Second phase: entries spend cash. */
    method FillPhase(day: int, ghost yesterday: int)
      requires Sane(rules) && NextDay(rules, yesterday, day) && Filling(0, day, yesterday) && ListedEntries(rules, pending)
      modifies this`cash, this`positions, this`pending, this`skipped, this`maxConcurrent
      ensures Filling(|pending|, day, yesterday)
      ensures Now() == FillsFrom(rules, old(Now()), 0, day)
      ensures (cash == old(cash) && positions == old(positions)) || cash >= 0.0
    {
      var i: nat := 0;
      while i < |pending|
        invariant ListedEntries(rules, pending) && FillsFrom(rules, Now(), i, day) == FillsFrom(rules, old(Now()), 0, day)
        invariant Filling(i, day, yesterday)
        invariant (cash == old(cash) && positions == old(positions)) || cash >= 0.0
        decreases |pending| - i
      {
        i := FillRound(i, day, yesterday);
      }
    }

    /** One ticker's turn: its close is noted, and its signal may queue an entry. */
    method SignalOne(t: nat, day: int)
      requires t < |rules.universe|
      modifies this`lastClose, this`pending
      ensures var bar, signal := BarOn(rules.universe[t].candles, day), Signal(rules, t, day, Busy(positions, old(pending)), lastExit);
              && lastClose == (if bar.Some? then old(lastClose)[t := rules.universe[t].candles[bar.value].close] else old(lastClose))
              && pending == old(pending) + (if signal.Some? then [signal.value] else [])
    {
      var s := rules.universe[t];
      var bar := BarOn(s.candles, day);
      if bar.None? { return; }
      lastClose := lastClose[t := s.candles[bar.value].close];
      if t in Busy(positions, pending) { return; }
      if bar.value < Warmup(|s.candles|) || bar.value + 2 >= |s.candles| { return; }
      if t in lastExit && bar.value <= lastExit[t] { return; }
      var report := rules.analyze(t, s.candles[..bar.value + 1], VisibleFundamentals(s.fundamentals, day), VisibleCatalysts(s.catalysts, day));
      if report.None? || !report.value.buy { return; }
      pending := pending + [PendingEntry(t, bar.value + 1, s.candles[bar.value].close, report.value.plan)];
    }

    /** Third phase: closes are noted, and signals queue entries for the next bar. */
    method SignalPhase(day: int)
      modifies this`lastClose, this`pending
      ensures pending == old(pending) + Signals(rules, |rules.universe|, day, Busy(positions, old(pending)), lastExit)
      ensures lastClose == Closes(rules, |rules.universe|, day, old(lastClose))
    {
      ghost var busy := Busy(positions, pending);
      for t := 0 to |rules.universe|
        invariant pending == old(pending) + Signals(rules, t, day, busy, lastExit)
        invariant lastClose == Closes(rules, t, day, old(lastClose))
      {
        SignalsDoNotInterfere(rules, t, day, positions, old(pending), lastExit);
        SignalOne(t, day);
      }
    }

    /** The close of a day: signals, and the mark to market. */
    method CloseDay(day: int)
      requires Dated(rules) && Filling(|pending|, day, day - 1)
      modifies this`lastClose, this`pending, this`equityCurve
      ensures Valid(day) && Now() == Signalled(rules, old(Now()), day)
    {
      SignalledKeepDistinct(rules, positions, pending, day, lastExit);
      SignalPhase(day);
      equityCurve := equityCurve + [cash + MarketValue(positions, lastClose)];
    }

    /** One day: exits, entries, signals, mark to market. */
    method RunDay(day: int, ghost yesterday: int)
      requires Sane(rules) && Valid(yesterday) && NextDay(rules, yesterday, day) && AllTimely(rules, trades)
      modifies this
      ensures Valid(day) && AllTimely(rules, trades)
      ensures Listed(rules, old(Now())) && Now() == DayAfter(rules, old(Now()), day)
    {
      ExitPhase(day, yesterday);
      FillPhase(day, yesterday);
      CloseDay(day);
    }

    /** Flattens whatever is still open, at the last closes. */
    method Liquidate(day: int) returns (liquidated: nat)
      requires Conserves()
      modifies this`cash, this`positions, this`trades
      ensures Conserves() && positions == [] && liquidated == |old(positions)|
      ensures old(positions) == [] ==> cash == old(cash)
      ensures |trades| == |old(trades)| + liquidated && old(trades) <= trades
    {
      liquidated := 0;
      while positions != []
        invariant Conserves() && liquidated + |positions| == |old(positions)|
        invariant |trades| == |old(trades)| + liquidated && old(trades) <= trades
        invariant old(positions) == [] ==> positions == [] && cash == old(cash)
        decreases |positions|
      {
        var p := positions[0];
        var net := Sold(LastCloseOf(lastClose, p), rules.slip);
        ProceedsOfOneMore(p.sales, Sale(p.shares, net));
        var x := SoldAll(p, net, End);
        Book(0, x.position, Worth(p.shares, net));
        ClosePosition(0, day, x.outcome);
        liquidated := liquidated + 1;
      }
    }

    /** The d-th day of the calendar. */
    method RunNextDay(calendar: seq<int>, d: nat, ghost start: State)
      requires Sane(rules) && IsCalendar(rules, calendar) && d < |calendar| && AllTimely(rules, trades)
      requires Valid(DayBefore(calendar, d))
      requires Listed(rules, start) && Now() == DaysAfter(rules, start, calendar[..d])
      modifies this
      ensures Valid(calendar[d]) && AllTimely(rules, trades) && Now() == DaysAfter(rules, start, calendar[..d + 1])
    {
      CalendarSteps(rules, calendar, d);
      OneMoreDay(rules, start, calendar, d);
      RunDay(calendar[d], DayBefore(calendar, d));
    }

    /** The loop over the days. */
    method RunDays(calendar: seq<int>)
      requires Sane(rules) && IsCalendar(rules, calendar) && calendar != []
      requires Valid(DayBefore(calendar, 0)) && trades == [] && Listed(rules, Now())
      modifies this
      ensures Valid(calendar[|calendar| - 1]) && AllTimely(rules, trades)
      ensures Now() == DaysAfter(rules, old(Now()), calendar)
    {
      for d := 0 to |calendar|
        invariant Valid(DayBefore(calendar, d)) && AllTimely(rules, trades)
        invariant Now() == DaysAfter(rules, old(Now()), calendar[..d])
      {
        RunNextDay(calendar, d, old(Now()));
      }
      assert calendar[..|calendar|] == calendar;
    }

    /** After the last day: nothing is open, and the curve ends at the cash. */
    method Settle(days: seq<int>) returns (liquidated: nat)
      requires IsCalendar(rules, days) && days != [] && Valid(days[|days| - 1]) && equityCurve != []
      modifies this`cash, this`positions, this`trades, this`equityCurve
      ensures liquidated == 0 && positions == [] && Now() == Final(old(Now()))
      ensures cash == rules.startingCash + TotalPnl(trades)
    {
      NothingSurvives(rules, days, positions);
      liquidated := Liquidate(days[|days| - 1]);
      equityCurve := equityCurve[|equityCurve| - 1 := cash];
    }

    /** The whole run; there is nothing to run without a bar. */
    method Run() returns (ran: bool, ghost calendar: seq<int>, ghost liquidated: nat)
      requires Sane(rules) && Now() == Start(rules)
      modifies this
      ensures ran <==> exists s :: s in rules.universe && s.candles != []
      // the days follow each other on the calendar, and the last value of the curve is the final cash
      ensures ran ==> IsCalendar(rules, calendar) && Now() == Final(DaysAfter(rules, Start(rules), calendar))
      // every position was closed in time by the day loop, none was left to flatten
      ensures ran ==> liquidated == 0 && positions == [] && AllTimely(rules, trades)
      // the final equity is the starting cash plus all realised profits and losses
      ensures ran ==> cash == rules.startingCash + TotalPnl(trades)
      ensures ran ==> equityCurve != [] && equityCurve[|equityCurve| - 1] == cash
    {
      liquidated := 0;
      var days := Calendar(rules);
      calendar := days;
      EmptyCalendarIff(rules, days);
      if days == [] { return false, days, 0; }
      RunDays(days);
      DaysAreMarked(rules, Start(rules), days);
      var n := Settle(days);
      ran, liquidated := true, n;
    }
  }
}

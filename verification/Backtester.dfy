/** The walk-forward backtest of one ticker: probe, enter at the next bar, walk to the exit,
    resume after it. The analyzer is an arbitrary function of what it is given. */
module Backtester {
  import opened Prelude
  import opened Indicators
  import opened Ladder

  // ---- what is visible on a day ----

  /** A reporting period: a calendar quarter, or anything the parser does not recognise. */
  datatype Period = Quarter(year: nat, quarter: nat) | Unrecognised

  datatype Fundamentals = Fundamentals(period: Period, reportedAt: Option<int>)

  datatype Catalyst = Catalyst(headline: string, publishedAt: Option<int>)

  const REPORTING_LAG_DAYS := 60

  predicate LeapYear(year: nat) {
    year % 4 == 0 && (year % 100 != 0 || year % 400 == 0)
  }

  /** The day number of the 28th of a quarter's last month; day 1 is January 1 of year 1. */
  function QuarterEnd(year: nat, quarter: nat): int {
    var y := year - 1;
    var leap := if LeapYear(year) then 1 else 0;
    365 * y + y / 4 - y / 100 + y / 400 +
    (if quarter == 1 then 87 + leap else if quarter == 2 then 179 + leap else if quarter == 3 then 271 + leap else 362 + leap)
  }

  predicate PeriodVisibleBy(period: Period, asof: int) {
    period.Unrecognised? || QuarterEnd(period.year, period.quarter) + REPORTING_LAG_DAYS <= asof
  }

  predicate Reported(f: Fundamentals, asof: int) {
    if f.reportedAt.Some? then f.reportedAt.value <= asof else PeriodVisibleBy(f.period, asof)
  }

  predicate Published(c: Catalyst, asof: int) {
    c.publishedAt.None? || c.publishedAt.value <= asof
  }

  function VisibleFundamentals(all: seq<Fundamentals>, asof: int): seq<Fundamentals> {
    if all == [] then [] else
      VisibleFundamentals(all[..|all| - 1], asof) + if Reported(all[|all| - 1], asof) then [all[|all| - 1]] else []
  }

  function VisibleCatalysts(all: seq<Catalyst>, asof: int): seq<Catalyst> {
    if all == [] then [] else
      VisibleCatalysts(all[..|all| - 1], asof) + if Published(all[|all| - 1], asof) then [all[|all| - 1]] else []
  }

  lemma NextMultiple(y: nat)
    requires y > 0
    ensures y / 4 - (y - 1) / 4 == if y % 4 == 0 then 1 else 0
    ensures y / 100 - (y - 1) / 100 == if y % 100 == 0 then 1 else 0
    ensures y / 400 - (y - 1) / 400 == if y % 400 == 0 then 1 else 0
    ensures y % 400 == 0 ==> y % 100 == 0
    ensures y % 100 == 0 ==> y % 4 == 0
  {
  }

  /** The calendar behind it: quarter ends follow each other at the length of a quarter. */
  lemma QuartersFollow(year: nat, quarter: nat)
    requires year > 0 && 1 <= quarter <= 4
    ensures var next := if quarter == 4 then QuarterEnd(year + 1, 1) else QuarterEnd(year, quarter + 1);
            90 <= next - QuarterEnd(year, quarter) <= 92
  {
    if quarter == 4 {
      NextMultiple(year);
    }
  }

  /** What was visible earlier can be read off what is visible later: nothing is withdrawn. */
  lemma {:induction false} VisibleIsNested(fs: seq<Fundamentals>, cs: seq<Catalyst>, earlier: int, later: int)
    requires earlier <= later
    ensures VisibleFundamentals(VisibleFundamentals(fs, later), earlier) == VisibleFundamentals(fs, earlier)
    ensures VisibleCatalysts(VisibleCatalysts(cs, later), earlier) == VisibleCatalysts(cs, earlier)
    decreases |fs| + |cs|
  {
    if fs != [] {
      var rest, last := fs[..|fs| - 1], fs[|fs| - 1];
      VisibleIsNested(rest, cs, earlier, later);
      var seen := VisibleFundamentals(rest, later);
      if Reported(last, later) {
        assert (seen + [last])[..|seen|] == seen;
      } else {
        assert VisibleFundamentals(fs, later) == seen;
      }
    } else if cs != [] {
      var rest, last := cs[..|cs| - 1], cs[|cs| - 1];
      VisibleIsNested(fs, rest, earlier, later);
      var seen := VisibleCatalysts(rest, later);
      if Published(last, later) {
        assert (seen + [last])[..|seen|] == seen;
      } else {
        assert VisibleCatalysts(cs, later) == seen;
      }
    }
  }

  // ---- one run ----

  datatype Report = Report(buy: bool, plan: Plan)

  /** Everything a run is given; `analyze` stands for the analyzer with its ticker, market
      and context fixed, `measure` for the volatility the ladder is shown. */
  datatype Setup = Setup(
    candles: seq<Candle>,
    fundamentals: seq<Fundamentals>,
    catalysts: seq<Catalyst>,
    analyze: (seq<Candle>, seq<Fundamentals>, seq<Catalyst>) -> Report,
    measure: Measure,
    maxHoldDays: nat,
    slipPerLeg: real,
    commissionPct: real,
    splitExits: bool,
    limitPct: Option<real>)

  /** Bars are named by index. */
  datatype Trade = Trade(entryAt: nat, exitAt: nat, entry: real, exit: real, outcome: Outcome, returnPct: real)

  function ReportAt(s: Setup, i: nat): Report
    requires i < |s.candles|
  {
    var asof := s.candles[i].date;
    s.analyze(s.candles[..i + 1], VisibleFundamentals(s.fundamentals, asof), VisibleCatalysts(s.catalysts, asof))
  }

  /** Half the round-trip slippage is paid on each side. */
  function Bought(price: real, slip: real): real {
    price * (1.0 + slip)
  }

  function Sold(price: real, slip: real): real {
    price * (1.0 - slip)
  }

  function ExitPrice(legs: seq<Leg>, slip: real): real {
    if legs == [] then 0.0 else ExitPrice(legs[..|legs| - 1], slip) + legs[|legs| - 1].weight * Sold(legs[|legs| - 1].price, slip)
  }

  function Ratio(a: real, b: real): real {
    if b == 0.0 then 0.0 else a / b
  }

  function Closed(s: Setup, i: nat, entry: real, w: Walk): Trade
    requires w.Left?
  {
    var exit := ExitPrice(w.legs, s.slipPerLeg);
    Trade(i + 1, w.exitAt, entry, exit, w.outcome, (Ratio(exit, entry) - 1.0) * 100.0 - s.commissionPct)
  }

  function LastExit(s: Setup, i: nat): nat
    requires i < |s.candles|
  {
    MinInt(i + s.maxHoldDays, |s.candles| - 1)
  }

  /** The walk of a position entered on the signal of bar i. */
  function WalkOf(s: Setup, i: nat, entry: real, plan: Plan): (w: Walk)
    requires i + 1 < |s.candles|
    ensures w.Left?
  {
    WholeWalk(s.candles, AtrOf(s.candles, s.measure), i + 1, LastExit(s, i), plan, entry, s.splitExits)
  }

  /** The entry price, if bar i signals a buy and the next bar fills the order. */
  function EntryOf(s: Setup, i: nat): Option<real>
    requires i + 1 < |s.candles|
  {
    var fill := LimitEntryFill(s.candles[i + 1], s.candles[i].close, s.limitPct);
    if ReportAt(s, i).buy && fill.Some? then Some(Bought(fill.value, s.slipPerLeg)) else None
  }

  /** The trade entered on the signal of bar i, if there is one. */
  function Probe(s: Setup, i: nat): Option<Trade>
    requires i + 1 < |s.candles|
  {
    var entry := EntryOf(s, i);
    if entry.None? then None else Some(Closed(s, i, entry.value, WalkOf(s, i, entry.value, ReportAt(s, i).plan)))
  }

  function Warmup(n: nat): nat {
    MinInt(220, MaxInt(20, n / 4))
  }

  /** Where the run probes next: the day after the exit, or the next day. */
  function Resume(i: nat, trade: Option<Trade>): nat {
    if trade.Some? then trade.value.exitAt + 1 else i + 1
  }

  lemma ProbeMovesOn(s: Setup, i: nat)
    requires i + 1 < |s.candles|
    ensures var trade := Probe(s, i);
            && i < Resume(i, trade)
            && (trade.Some? ==> trade.value.entryAt == i + 1 && i <= trade.value.exitAt <= LastExit(s, i)
                                && (s.maxHoldDays > 0 ==> i + 1 <= trade.value.exitAt))
  {
    var trade := Probe(s, i);
    if trade.Some? {
      WalkEndsInside(s.candles, AtrOf(s.candles, s.measure), i + 1, LastExit(s, i) + 1, ReportAt(s, i).plan, trade.value.entry, s.splitExits);
    }
  }

  /** The trades of a run that probes bar i next. */
  function TradesFrom(s: Setup, i: nat): seq<Trade>
    decreases |s.candles| - i
  {
    if i + 2 >= |s.candles| then [] else
      ProbeMovesOn(s, i);
      var trade := Probe(s, i);
      (if trade.Some? then [trade.value] else []) + TradesFrom(s, Resume(i, trade))
  }

  /** The loop over probes. */
  method Run(s: Setup) returns (trades: seq<Trade>)
    ensures trades == TradesFrom(s, Warmup(|s.candles|))
  {
    trades := [];
    var index := Warmup(|s.candles|);
    while index + 2 < |s.candles|
      invariant trades + TradesFrom(s, index) == TradesFrom(s, Warmup(|s.candles|))
      decreases |s.candles| - index
    {
      var found, next := Advance(s, index);
      assert trades + (found + TradesFrom(s, next)) == (trades + found) + TradesFrom(s, next);
      trades, index := trades + found, next;
    }
  }

  /** One round of the loop: at most one trade, and where to probe next. */
  method Advance(s: Setup, i: nat) returns (found: seq<Trade>, next: nat)
    requires i + 2 < |s.candles|
    ensures i < next && TradesFrom(s, i) == found + TradesFrom(s, next)
  {
    ProbeMovesOn(s, i);
    var trade := ProbeBar(s, i);
    if trade.None? { return [], i + 1; }
    found, next := [trade.value], trade.value.exitAt + 1;
  }

  /** Analyze, fill, walk, blend the legs. */
  method ProbeBar(s: Setup, i: nat) returns (trade: Option<Trade>)
    requires i + 1 < |s.candles|
    ensures trade == Probe(s, i)
  {
    var asof := s.candles[i].date;
    var report := s.analyze(s.candles[..i + 1], VisibleFundamentals(s.fundamentals, asof), VisibleCatalysts(s.catalysts, asof));
    if !report.buy { return None; }
    var fill := LimitEntryFill(s.candles[i + 1], s.candles[i].close, s.limitPct);
    if fill.None? { return None; }
    var entry := Bought(fill.value, s.slipPerLeg);
    var legs, exitAt, outcome := WalkExits(s.candles, AtrOf(s.candles, s.measure), i + 1, LastExit(s, i), entry, report.plan, s.splitExits);
    assert report == ReportAt(s, i) && EntryOf(s, i) == Some(entry);
    assert Left(legs, exitAt, outcome) == WalkOf(s, i, entry, report.plan);
    trade := Some(Closed(s, i, entry, Left(legs, exitAt, outcome)));
  }

  // ---- the blended exit ----

  lemma BlendOfOne(leg: Leg, slip: real)
    ensures ExitPrice([leg], slip) == leg.weight * Sold(leg.price, slip)
  {
    assert [leg][..0] == [];
  }

  lemma BlendOfTwo(legs: seq<Leg>, slip: real)
    requires |legs| == 2
    ensures ExitPrice(legs, slip) == legs[0].weight * Sold(legs[0].price, slip) + legs[1].weight * Sold(legs[1].price, slip)
  {
    assert legs[..1] == [legs[0]];
    BlendOfOne(legs[0], slip);
  }

  /** The weights of a walk make its exit price a true average: the one fill, or the mean of
      the two, net of slippage. */
  lemma ExitIsTheAverage(s: Setup, i: nat, entry: real, plan: Plan)
    requires i + 1 < |s.candles| && RangesFrom(AtrOf(s.candles, s.measure), i + 1)
    ensures var legs := WalkOf(s, i, entry, plan).legs;
            && 1 <= |legs| <= 2
            && ExitPrice(legs, s.slipPerLeg) ==
               if |legs| == 1 then Sold(legs[0].price, s.slipPerLeg)
               else (Sold(legs[0].price, s.slipPerLeg) + Sold(legs[1].price, s.slipPerLeg)) / 2.0
  {
    var atr := AtrOf(s.candles, s.measure);
    WalkStaysConsistent(s.candles, atr, i + 1, LastExit(s, i) + 1, plan, entry, s.splitExits);
    var legs := WalkOf(s, i, entry, plan).legs;
    if |legs| == 1 {
      assert legs == [legs[0]];
      BlendOfOne(legs[0], s.slipPerLeg);
    } else {
      BlendOfTwo(legs, s.slipPerLeg);
    }
  }

  /** A trade that buys and sells at one raw price loses the commission and twice the slippage,
      and nothing only if both are free. */
  lemma RoundTripCosts(s: Setup, i: nat, price: real, w: Walk)
    requires w.Left? && |w.legs| == 1 && w.legs[0].weight == 1.0 && w.legs[0].price == price && price > 0.0
    requires 0.0 <= s.slipPerLeg < 1.0 && s.commissionPct >= 0.0
    ensures var t := Closed(s, i, Bought(price, s.slipPerLeg), w);
            && t.returnPct <= -s.commissionPct && (t.returnPct == -s.commissionPct <==> s.slipPerLeg == 0.0)
            && t.returnPct * (1.0 + s.slipPerLeg) == -200.0 * s.slipPerLeg - s.commissionPct * (1.0 + s.slipPerLeg)
  {
    assert w.legs == [w.legs[0]];
    BlendOfOne(w.legs[0], s.slipPerLeg);
    var entry, exit := Bought(price, s.slipPerLeg), Sold(price, s.slipPerLeg);
    assert entry > 0.0;
    SamePriceRatio(price, s.slipPerLeg);
  }

  lemma SamePriceRatio(price: real, slip: real)
    requires price > 0.0 && 0.0 <= slip < 1.0
    ensures Bought(price, slip) > 0.0
    ensures Ratio(Sold(price, slip), Bought(price, slip)) * (1.0 + slip) == 1.0 - slip
  {
    var bought, sold := Bought(price, slip), Sold(price, slip);
    assert bought > 0.0;
    QuotientTimes(sold, bought);
    CancelPrice(Ratio(sold, bought), price, slip);
  }

  lemma QuotientTimes(a: real, b: real)
    requires b > 0.0
    ensures Ratio(a, b) * b == a
  {
  }

  lemma CancelPrice(r: real, price: real, slip: real)
    requires price > 0.0 && r * Bought(price, slip) == Sold(price, slip)
    ensures r * (1.0 + slip) == 1.0 - slip
  {
    Reassociate(r, price, 1.0 + slip);
    CancelFactor(r * (1.0 + slip), 1.0 - slip, price);
  }

  lemma Reassociate(a: real, b: real, c: real)
    ensures a * (b * c) == a * c * b
  {
  }

  lemma CancelFactor(a: real, b: real, factor: real)
    requires factor > 0.0 && a * factor == b * factor
    ensures a == b
  {
    assert (a - b) * factor == 0.0;
  }

  // ---- trades are disjoint in time ----

  /** Each trade is entered at least two bars after the exit before it. */
  ghost predicate Disjoint(trades: seq<Trade>) {
    && (forall t :: t in trades ==> t.entryAt <= t.exitAt)
    && forall a, b :: 0 <= a < b < |trades| ==> trades[a].exitAt + 2 <= trades[b].entryAt
  }

  lemma {:induction false} TradesAreDisjoint(s: Setup, i: nat)
    requires s.maxHoldDays > 0
    ensures Disjoint(TradesFrom(s, i))
    ensures forall t :: t in TradesFrom(s, i) ==> i + 1 <= t.entryAt && t.exitAt < |s.candles|
    decreases |s.candles| - i
  {
    if i + 2 < |s.candles| {
      ProbeMovesOn(s, i);
      var next := Resume(i, Probe(s, i));
      TradesAreDisjoint(s, next);
    }
  }

  // ---- walks that see the same bars ----

  /** Two histories, with their volatility, agree up to bar k. */
  ghost predicate SameUpTo(c: seq<Candle>, d: seq<Candle>, f: nat -> real, g: nat -> real, k: nat) {
    |c| == |d| && k < |c| && forall j: nat :: j <= k ==> c[j] == d[j] && f(j) == g(j)
  }

  lemma {:induction false} SameWalks(c: seq<Candle>, d: seq<Candle>, f: nat -> real, g: nat -> real, k: nat,
                                     start: nat, j: nat, plan: Plan, entry: real, splitExits: bool)
    requires SameUpTo(c, d, f, g, k) && start <= j <= k + 1
    ensures WalkTo(c, f, start, j, plan, entry, splitExits) == WalkTo(d, g, start, j, plan, entry, splitExits)
    decreases j
  {
    if start < j {
      SameWalks(c, d, f, g, k, start, j - 1, plan, entry, splitExits);
    }
  }

  lemma EndsAfter(candles: seq<Candle>, atr: nat -> real, start: nat, j: nat, k: nat, plan: Plan, entry: real,
          splitExits: bool)
    requires start <= j <= k <= |candles| && WalkTo(candles, atr, start, j, plan, entry, splitExits).Holding?
    ensures var w := WalkTo(candles, atr, start, k, plan, entry, splitExits); w.Left? ==> j <= w.exitAt < k
    decreases k
  {
    if j < k {
      EndsAfter(candles, atr, start, j, k - 1, plan, entry, splitExits);
      WalkEndsInside(candles, atr, start, k - 1, plan, entry, splitExits);
      var w := WalkTo(candles, atr, start, k - 1, plan, entry, splitExits);
      if w.Holding? {
        var step := StepAt(candles, atr, k - 1, plan, w.trail, entry, splitExits);
        TakenEndsHere(w.(trail := step.trail), step.events, k - 1);
      }
    }
  }

  /** Where a walk that may go on past bar k ends. */
  lemma EndsByOrAfter(candles: seq<Candle>, atr: nat -> real, k: nat, start: nat, last: nat, plan: Plan,
          entry: real, splitExits: bool)
    requires start <= k < last < |candles|
    ensures var byK := WalkTo(candles, atr, start, k + 1, plan, entry, splitExits);
            var w := WholeWalk(candles, atr, start, last, plan, entry, splitExits);
            if byK.Left? then w == byK && byK.exitAt <= k else w.exitAt > k
  {
    WalkEndsInside(candles, atr, start, k + 1, plan, entry, splitExits);
    if WalkTo(candles, atr, start, k + 1, plan, entry, splitExits).Left? {
      LeftStaysLeft(candles, atr, start, k + 1, last + 1, plan, entry, splitExits);
    } else {
      EndsAfter(candles, atr, start, k + 1, last + 1, plan, entry, splitExits);
    }
  }

  /** A walk that is over by bar k is the same in both histories; one that is not is over by
      bar k in neither. */
  lemma SameEnding(c: seq<Candle>, d: seq<Candle>, f: nat -> real, g: nat -> real, k: nat,
                   start: nat, last: nat, plan: Plan, entry: real, splitExits: bool)
    requires SameUpTo(c, d, f, g, k) && start <= k && start <= last < |c|
    ensures var v, w := WholeWalk(c, f, start, last, plan, entry, splitExits), WholeWalk(d, g, start, last, plan, entry, splitExits);
            v == w || (v.exitAt > k && w.exitAt > k)
  {
    if last <= k {
      SameWalks(c, d, f, g, k, start, last + 1, plan, entry, splitExits);
    } else {
      SameWalks(c, d, f, g, k, start, k + 1, plan, entry, splitExits);
      EndsByOrAfter(c, f, k, start, last, plan, entry, splitExits);
      EndsByOrAfter(d, g, k, start, last, plan, entry, splitExits);
    }
  }

  // ---- no look-ahead ----

  /** Two runs that differ only in what happens, or becomes visible, after bar k. */
  ghost predicate AgreeUpTo(s: Setup, t: Setup, k: nat) {
    && |s.candles| == |t.candles| && k < |s.candles|
    && s == t.(candles := s.candles, fundamentals := s.fundamentals, catalysts := s.catalysts)
    && s.candles[..k + 1] == t.candles[..k + 1]
    && (forall i :: 0 <= i <= k ==> s.candles[i].date <= s.candles[k].date)
    && VisibleFundamentals(s.fundamentals, s.candles[k].date) == VisibleFundamentals(t.fundamentals, s.candles[k].date)
    && VisibleCatalysts(s.catalysts, s.candles[k].date) == VisibleCatalysts(t.catalysts, s.candles[k].date)
  }

  lemma SameBars(s: Setup, t: Setup, k: nat, i: nat)
    requires AgreeUpTo(s, t, k) && i <= k
    ensures s.candles[i] == t.candles[i] && s.candles[..i + 1] == t.candles[..i + 1]
    ensures AtrOf(s.candles, s.measure)(i) == AtrOf(t.candles, t.measure)(i)
  {
    assert s.candles[i] == s.candles[..k + 1][i] && t.candles[i] == t.candles[..k + 1][i];
    assert s.candles[..i + 1] == s.candles[..k + 1][..i + 1] && t.candles[..i + 1] == t.candles[..k + 1][..i + 1];
  }

  lemma SameReports(s: Setup, t: Setup, k: nat, i: nat)
    requires AgreeUpTo(s, t, k) && i <= k
    ensures ReportAt(s, i) == ReportAt(t, i)
  {
    SameBars(s, t, k, i);
    VisibleIsNested(s.fundamentals, s.catalysts, s.candles[i].date, s.candles[k].date);
    VisibleIsNested(t.fundamentals, t.catalysts, s.candles[i].date, s.candles[k].date);
  }

  /** The trades that are over by bar k. */
  function OverBy(trades: seq<Trade>, k: nat): seq<Trade> {
    if trades == [] then [] else (if trades[0].exitAt <= k then [trades[0]] else []) + OverBy(trades[1..], k)
  }

  lemma {:induction false} NoneOver(trades: seq<Trade>, k: nat)
    requires forall t :: t in trades ==> t.exitAt > k
    ensures OverBy(trades, k) == []
  {
    if trades != [] {
      NoneOver(trades[1..], k);
    }
  }

  lemma OverFirst(found: Option<Trade>, rest: seq<Trade>, k: nat)
    ensures OverBy((if found.Some? then [found.value] else []) + rest, k) ==
            (if found.Some? && found.value.exitAt <= k then [found.value] else []) + OverBy(rest, k)
  {
    if found.Some? {
      assert ([found.value] + rest)[1..] == rest;
    } else {
      assert [] + rest == rest;
    }
  }

  lemma NextOver(s: Setup, k: nat, i: nat)
    requires i + 2 < |s.candles|
    ensures var found := Probe(s, i);
            OverBy(TradesFrom(s, i), k) ==
            (if found.Some? && found.value.exitAt <= k then [found.value] else []) + OverBy(TradesFrom(s, Resume(i, found)), k)
  {
    ProbeMovesOn(s, i);
    OverFirst(Probe(s, i), TradesFrom(s, Resume(i, Probe(s, i))), k);
  }

  lemma LateProbesAreNotOver(s: Setup, k: nat, i: nat)
    requires s.maxHoldDays > 0 && k <= i
    ensures OverBy(TradesFrom(s, i), k) == []
  {
    TradesAreDisjoint(s, i);
    NoneOver(TradesFrom(s, i), k);
  }

  lemma SameEntries(s: Setup, t: Setup, k: nat, i: nat)
    requires AgreeUpTo(s, t, k) && i < k && i + 1 < |s.candles|
    ensures EntryOf(s, i) == EntryOf(t, i)
  {
    SameReports(s, t, k, i);
    SameBars(s, t, k, i);
    SameBars(s, t, k, i + 1);
  }

  lemma SameWalksOf(s: Setup, t: Setup, k: nat, i: nat, entry: real, plan: Plan)
    requires AgreeUpTo(s, t, k) && i < k && i + 1 < |s.candles| && s.maxHoldDays > 0
    ensures var v, w := WalkOf(s, i, entry, plan), WalkOf(t, i, entry, plan);
            v == w || (v.exitAt > k && w.exitAt > k)
  {
    var f, g := AtrOf(s.candles, s.measure), AtrOf(t.candles, t.measure);
    forall j: nat | j <= k ensures s.candles[j] == t.candles[j] && f(j) == g(j) {
      SameBars(s, t, k, j);
    }
    SameEnding(s.candles, t.candles, f, g, k, i + 1, LastExit(s, i), plan, entry, s.splitExits);
  }

  /** A probe before bar k finds the same trade in both runs, or in neither one that is
      over by bar k. */
  lemma SameProbes(s: Setup, t: Setup, k: nat, i: nat)
    requires AgreeUpTo(s, t, k) && i < k && i + 1 < |s.candles| && s.maxHoldDays > 0
    ensures var a, b := Probe(s, i), Probe(t, i);
            || a == b
            || (a.Some? && b.Some? && a.value.exitAt > k && b.value.exitAt > k)
  {
    SameEntries(s, t, k, i);
    var entry := EntryOf(s, i);
    if entry.Some? {
      SameReports(s, t, k, i);
      SameWalksOf(s, t, k, i, entry.value, ReportAt(s, i).plan);
    }
  }

  /** No look-ahead: two inputs that agree up to bar k, and on what was visible that day,
      give the same trades among those that are over by bar k. */
  lemma {:induction false} NoLookAhead(s: Setup, t: Setup, k: nat, i: nat)
    requires AgreeUpTo(s, t, k) && s.maxHoldDays > 0
    ensures OverBy(TradesFrom(s, i), k) == OverBy(TradesFrom(t, i), k)
    decreases |s.candles| - i
  {
    if k <= i {
      LateProbesAreNotOver(s, k, i);
      LateProbesAreNotOver(t, k, i);
    } else if i + 2 < |s.candles| {
      SameProbes(s, t, k, i);
      ProbeMovesOn(s, i);
      ProbeMovesOn(t, i);
      NextOver(s, k, i);
      NextOver(t, k, i);
      var a, b := Probe(s, i), Probe(t, i);
      if a == b {
        NoLookAhead(s, t, k, Resume(i, a));
      } else {
        LateProbesAreNotOver(s, k, Resume(i, a));
        LateProbesAreNotOver(t, k, Resume(i, b));
      }
    }
  }

  // ---- a holding period of zero ----

  function AtMostOne(found: Option<Trade>): seq<Trade> {
    if found.Some? then [found.value] else []
  }

  /** The trades of a run that probes every bar from i on. */
  function DailyTrades(probe: nat -> Option<Trade>, n: nat, i: nat): seq<Trade>
    decreases n - i
  {
    if n <= i + 2 then [] else AtMostOne(probe(i)) + DailyTrades(probe, n, i + 1)
  }

  /** Every trade is over on the day of its signal. */
  ghost predicate OverAtOnce(probe: nat -> Option<Trade>) {
    forall j: nat :: probe(j).Some? ==> probe(j).value.exitAt == j
  }

  lemma {:induction false} LateDaysAreNotOver(probe: nat -> Option<Trade>, n: nat, k: nat, i: nat)
    requires OverAtOnce(probe) && k < i
    ensures OverBy(DailyTrades(probe, n, i), k) == []
    decreases n - i
  {
    if i + 2 < n {
      LateDaysAreNotOver(probe, n, k, i + 1);
      OverFirst(probe(i), DailyTrades(probe, n, i + 1), k);
    }
  }

  lemma DayAhead(probe: nat -> Option<Trade>, n: nat, k: nat, i: nat)
    requires OverAtOnce(probe) && i <= k && i + 2 < n
    ensures OverBy(DailyTrades(probe, n, i), k) == AtMostOne(probe(i)) + OverBy(DailyTrades(probe, n, i + 1), k)
  {
    OverFirst(probe(i), DailyTrades(probe, n, i + 1), k);
  }

  lemma FinalDay(p: nat -> Option<Trade>, q: nat -> Option<Trade>, n: nat, k: nat)
    requires OverAtOnce(p) && OverAtOnce(q) && k + 2 < n
    ensures OverBy(DailyTrades(p, n, k), k) == OverBy(DailyTrades(q, n, k), k) <==> p(k) == q(k)
  {
    DayAhead(p, n, k, k);
    DayAhead(q, n, k, k);
    LateDaysAreNotOver(p, n, k, k + 1);
    LateDaysAreNotOver(q, n, k, k + 1);
    SamePrefixIff(p(k), q(k), [], []);
  }

  lemma SamePrefixIff(a: Option<Trade>, b: Option<Trade>, v: seq<Trade>, w: seq<Trade>)
    ensures a == b ==> (AtMostOne(a) + v == AtMostOne(b) + w <==> v == w)
    ensures v == [] == w ==> (AtMostOne(a) + v == AtMostOne(b) + w <==> a == b)
  {
    var p, q := AtMostOne(a), AtMostOne(b);
    if a == b && p + v == q + w {
      assert v == (p + v)[|p|..] && w == (q + w)[|q|..];
    }
    if v == [] == w && p + v == q + w {
      assert p == p + v && q == q + w;
      assert a.Some? ==> p[0] == a.value;
      assert b.Some? ==> q[0] == b.value;
    }
  }

  lemma EarlierDay(p: nat -> Option<Trade>, q: nat -> Option<Trade>, n: nat, k: nat, i: nat)
    requires OverAtOnce(p) && OverAtOnce(q) && i < k && i + 2 < n && p(i) == q(i)
    ensures AlikeBy(p, q, n, k)(i) <==> AlikeBy(p, q, n, k)(i + 1)
  {
    DayAhead(p, n, k, i);
    DayAhead(q, n, k, i);
    SamePrefixIff(p(i), q(i), OverBy(DailyTrades(p, n, i + 1), k), OverBy(DailyTrades(q, n, i + 1), k));
  }

  lemma {:induction false} AllAlike(same: nat -> bool, i: nat, k: nat)
    requires i <= k && forall j: nat :: i <= j < k ==> (same(j) <==> same(j + 1))
    ensures same(i) <==> same(k)
    decreases k - i
  {
    if i < k {
      AllAlike(same, i + 1, k);
    }
  }

  /** From bar j on the two runs show the same trades by bar k. */
  function AlikeBy(p: nat -> Option<Trade>, q: nat -> Option<Trade>, n: nat, k: nat): nat -> bool {
    (j: nat) => OverBy(DailyTrades(p, n, j), k) == OverBy(DailyTrades(q, n, j), k)
  }

  lemma EarlierDaysAlike(p: nat -> Option<Trade>, q: nat -> Option<Trade>, n: nat, k: nat, end: nat)
    requires OverAtOnce(p) && OverAtOnce(q) && forall j: nat :: j < k ==> p(j) == q(j)
    requires end <= k && (end == k || n <= end + 2) && end + 1 < n
    ensures forall j: nat :: j < end ==> (AlikeBy(p, q, n, k)(j) <==> AlikeBy(p, q, n, k)(j + 1))
  {
    forall j: nat | j < end ensures AlikeBy(p, q, n, k)(j) <==> AlikeBy(p, q, n, k)(j + 1) {
      EarlierDay(p, q, n, k, j);
    }
  }

  /** Two such runs that find the same before bar k show the same by bar k exactly if they find
      the same at bar k, or do not probe it. */
  lemma DailyRunsAgreeIff(p: nat -> Option<Trade>, q: nat -> Option<Trade>, n: nat, k: nat, i: nat)
    requires OverAtOnce(p) && OverAtOnce(q) && forall j: nat :: j < k ==> p(j) == q(j)
    ensures AlikeBy(p, q, n, k)(i) <==> (i <= k && k + 2 < n ==> p(k) == q(k))
  {
    if k < i {
      LateDaysAreNotOver(p, n, k, i);
      LateDaysAreNotOver(q, n, k, i);
    } else if i + 2 < n {
      var end := MinInt(k, n - 2);
      EarlierDaysAlike(p, q, n, k, end);
      AllAlike(AlikeBy(p, q, n, k), i, end);
      if k + 2 < n {
        FinalDay(p, q, n, k);
      }
    }
  }

  /** What the probe of each bar finds. */
  function ProbeOf(s: Setup): nat -> Option<Trade> {
    (j: nat) => if j + 1 < |s.candles| then Probe(s, j) else None
  }

  lemma ZeroHoldProbe(s: Setup, i: nat)
    requires s.maxHoldDays == 0 && i + 1 < |s.candles|
    ensures var found := Probe(s, i);
            && Resume(i, found) == i + 1
            && (found.Some? <==> EntryOf(s, i).Some?)
            && (found.Some? ==> found.value.exitAt == i < found.value.entryAt && found.value.entry == EntryOf(s, i).value)
            && (found.Some? ==> found.value == Closed(s, i, EntryOf(s, i).value, Left([Leg(i, 1.0, s.candles[i].close)], i, Whole(Time))))
  {
    ProbeMovesOn(s, i);
  }

  /** Then every bar is probed. */
  lemma {:induction false} ZeroHoldTrades(s: Setup, i: nat)
    requires s.maxHoldDays == 0
    ensures TradesFrom(s, i) == DailyTrades(ProbeOf(s), |s.candles|, i)
    decreases |s.candles| - i
  {
    if i + 2 < |s.candles| {
      ZeroHoldProbe(s, i);
      ZeroHoldTrades(s, i + 1);
    }
  }

  lemma ZeroHoldIsOverAtOnce(s: Setup)
    requires s.maxHoldDays == 0
    ensures OverAtOnce(ProbeOf(s))
  {
    forall j: nat | ProbeOf(s)(j).Some? ensures ProbeOf(s)(j).value.exitAt == j {
      ZeroHoldProbe(s, j);
    }
  }

  /** A trade that is over on the day of its signal shows that day's close and its entry. */
  lemma ZeroHoldTradesDifferIff(s: Setup, t: Setup, k: nat, i: nat)
    requires AgreeUpTo(s, t, k) && s.maxHoldDays == 0 && i + 1 < |s.candles| && i <= k
    ensures ProbeOf(s)(i) == ProbeOf(t)(i) <==> EntryOf(s, i) == EntryOf(t, i)
  {
    ZeroHoldProbe(s, i);
    ZeroHoldProbe(t, i);
    SameBars(s, t, k, i);
  }

  lemma ZeroHoldFindsTheSame(s: Setup, t: Setup, k: nat)
    requires AgreeUpTo(s, t, k) && s.maxHoldDays == 0
    ensures forall j: nat :: j < k ==> ProbeOf(s)(j) == ProbeOf(t)(j)
  {
    forall j: nat | j < k ensures ProbeOf(s)(j) == ProbeOf(t)(j) {
      SameEntries(s, t, k, j);
      ZeroHoldTradesDifferIff(s, t, k, j);
    }
  }

  /** With a holding period of zero a trade is over the day before it is entered, so from
      every start that reaches bar k the property fails exactly when the next day, which is
      not visible yet, changes the entry on the signal of bar k. */
  lemma ZeroHoldLooksAheadIff(s: Setup, t: Setup, k: nat, i: nat)
    requires AgreeUpTo(s, t, k) && s.maxHoldDays == 0
    ensures OverBy(TradesFrom(s, i), k) == OverBy(TradesFrom(t, i), k) <==>
            (i <= k && k + 2 < |s.candles| ==> EntryOf(s, k) == EntryOf(t, k))
  {
    ZeroHoldTrades(s, i);
    ZeroHoldTrades(t, i);
    ZeroHoldRunsAgreeIff(s, t, k, i);
  }

  lemma ZeroHoldRunsAgreeIff(s: Setup, t: Setup, k: nat, i: nat)
    requires AgreeUpTo(s, t, k) && s.maxHoldDays == 0
    ensures OverBy(DailyTrades(ProbeOf(s), |s.candles|, i), k) == OverBy(DailyTrades(ProbeOf(t), |t.candles|, i), k) <==>
            (i <= k && k + 2 < |s.candles| ==> EntryOf(s, k) == EntryOf(t, k))
  {
    ZeroHoldIsOverAtOnce(s);
    ZeroHoldIsOverAtOnce(t);
    ZeroHoldFindsTheSame(s, t, k);
    DailyRunsAgreeIff(ProbeOf(s), ProbeOf(t), |s.candles|, k, i);
    if k + 2 < |s.candles| {
      ZeroHoldTradesDifferIff(s, t, k, k);
    }
  }

  // ---- drawdown ----

  /** The running total of the returns, from zero on. */
  function Curve(trades: seq<Trade>): (r: seq<real>)
    ensures |r| == |trades| + 1
  {
    if trades == [] then [0.0] else
      var before := Curve(trades[..|trades| - 1]);
      before + [before[|trades| - 1] + trades[|trades| - 1].returnPct]
  }

  /** The loop finds the deepest fall from an earlier high, the start included: no pair of
      moments falls deeper, and some pair falls exactly that far. */
  method MaxDrawdown(trades: seq<Trade>) returns (worst: real)
    ensures forall i, j :: 0 <= i <= j <= |trades| ==> worst <= Curve(trades)[j] - Curve(trades)[i]
    ensures exists i, j :: 0 <= i <= j <= |trades| && worst == Curve(trades)[j] - Curve(trades)[i]
  {
    worst := 0.0;
    var cumulative, peak := 0.0, 0.0;
    ghost var curve, top, from, to := [0.0], 0, 0, 0;
    for n := 0 to |trades|
      invariant curve == Curve(trades[..n])
      invariant cumulative == curve[n] && 0 <= top <= n && peak == curve[top]
      invariant forall i :: 0 <= i <= n ==> curve[i] <= peak
      invariant forall i, j :: 0 <= i <= j <= n ==> worst <= curve[j] - curve[i]
      invariant 0 <= from <= to <= n && worst == curve[to] - curve[from]
    {
      assert trades[..n + 1][..n] == trades[..n];
      cumulative := cumulative + trades[n].returnPct;
      curve := curve + [cumulative];
      if cumulative > peak {
        top := n + 1;
      }
      peak := Max(peak, cumulative);
      if cumulative - peak < worst {
        from, to := top, n + 1;
      }
      worst := Min(worst, cumulative - peak);
    }
    assert trades[..|trades|] == trades;
  }
}

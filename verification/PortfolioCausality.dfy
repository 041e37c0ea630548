/** No look-ahead in the portfolio backtest: what a run holds, owes, has traded and queued at
    the close of a day depends on nothing that happens, or becomes visible, after it. */
module PortfolioCausality {
  import opened Prelude
  import opened Indicators
  import opened Ladder
  import opened Backtester
  import opened Portfolio

  /** Two series with the same dates that differ only after a day. */
  ghost predicate SameSeries(a: Series, b: Series, day: int) {
    && |a.candles| == |b.candles|
    && (forall i :: 0 <= i < |a.candles| ==> a.candles[i].date == b.candles[i].date)
    && (forall i :: 0 <= i < |a.candles| && a.candles[i].date <= day ==> a.candles[i] == b.candles[i])
    && VisibleFundamentals(a.fundamentals, day) == VisibleFundamentals(b.fundamentals, day)
    && VisibleCatalysts(a.catalysts, day) == VisibleCatalysts(b.catalysts, day)
  }

  /** Two universes under the same rules that differ only after a day. */
  ghost predicate AgreeBy(r: Rules, t: Rules, day: int) {
    && Sane(r) && Sane(t) && r == t.(universe := r.universe) && |r.universe| == |t.universe|
    && forall k :: 0 <= k < |r.universe| ==> SameSeries(r.universe[k], t.universe[k], day)
  }

  // ---- bars ----

  lemma {:induction false} SameBarOn(a: seq<Candle>, b: seq<Candle>, day: int)
    requires |a| == |b| && forall i :: 0 <= i < |a| ==> a[i].date == b[i].date
    ensures BarOn(a, day) == BarOn(b, day)
  {
    if a != [] {
      SameBarOn(a[..|a| - 1], b[..|b| - 1], day);
    }
  }

  /** A bar of a day by then is the same in both, and so is all that came before it. */
  lemma SameHistory(a: Series, b: Series, day: int, now: int)
    requires SameSeries(a, b, day) && Sorted(a.candles) && now <= day
    ensures var bar := BarOn(a.candles, now);
            && bar == BarOn(b.candles, now)
            && (bar.Some? ==> a.candles[bar.value] == b.candles[bar.value] && a.candles[..bar.value + 1] == b.candles[..bar.value + 1])
  {
    SameBarOn(a.candles, b.candles, now);
    var bar := BarOn(a.candles, now);
    if bar.Some? {
      forall i | 0 <= i <= bar.value ensures a.candles[i] == b.candles[i] {
        assert i < bar.value ==> a.candles[i].date < a.candles[bar.value].date;
      }
    }
  }

  lemma SameHistories(r: Rules, t: Rules, day: int, now: int, ticker: nat)
    requires AgreeBy(r, t, day) && ticker < |r.universe| && now <= day
    ensures var a, b := r.universe[ticker].candles, t.universe[ticker].candles;
            var bar := BarOn(a, now);
            && |a| == |b| && bar == BarOn(b, now)
            && (bar.Some? ==> a[bar.value] == b[bar.value] && a[..bar.value + 1] == b[..bar.value + 1])
  {
    assert SameSeries(r.universe[ticker], t.universe[ticker], day);
    SameHistory(r.universe[ticker], t.universe[ticker], day, now);
  }

  // ---- the phases of a day ----

  lemma SameExitOf(r: Rules, t: Rules, p: Position, bar: nat)
    requires r == t.(universe := r.universe) && p.ticker < |r.universe| == |t.universe|
    requires bar < Length(r, p.ticker) == Length(t, p.ticker)
    requires r.universe[p.ticker].candles[bar] == t.universe[p.ticker].candles[bar]
    requires r.universe[p.ticker].candles[..bar + 1] == t.universe[p.ticker].candles[..bar + 1]
    ensures AfterDay(r, p, bar) == AfterDay(t, p, bar)
  {
  }

  lemma SameExit(r: Rules, t: Rules, s: State, i: nat, day: int, now: int)
    requires AgreeBy(r, t, day) && now <= day && i < |s.positions| && ListedPositions(r, s.positions)
    ensures ListedPositions(t, s.positions) && AfterExit(r, s, i, now) == AfterExit(t, s, i, now)
  {
    var p := s.positions[i];
    SameHistories(r, t, day, now, p.ticker);
    var bar := BarOn(r.universe[p.ticker].candles, now);
    if bar.Some? {
      SameExitOf(r, t, p, bar.value);
    }
  }

  lemma {:induction false} SameExits(r: Rules, t: Rules, s: State, i: nat, day: int, now: int)
    requires AgreeBy(r, t, day) && now <= day && ListedPositions(r, s.positions)
    ensures ListedPositions(t, s.positions) && ExitsFrom(r, s, i, now) == ExitsFrom(t, s, i, now)
    decreases |s.positions| - i
  {
    if i < |s.positions| {
      SameExit(r, t, s, i, day, now);
      AfterExitStays(r, s, i, now);
      var e := AfterExit(r, s, i, now);
      SameExits(r, t, e, NextExit(s, e, i), day, now);
    }
  }

  lemma SameEntered(r: Rules, t: Rules, s: State, o: PendingEntry)
    requires Sane(r) && Sane(t) && r == t.(universe := r.universe) && o.ticker < |r.universe| == |t.universe|
    requires o.fillAt < Length(r, o.ticker) == Length(t, o.ticker)
    requires r.universe[o.ticker].candles[o.fillAt] == t.universe[o.ticker].candles[o.fillAt]
    ensures Entered(r, s, o) == Entered(t, s, o)
  {
  }

  lemma SameListing(r: Rules, t: Rules, day: int, os: seq<PendingEntry>)
    requires AgreeBy(r, t, day) && ListedEntries(r, os)
    ensures ListedEntries(t, os)
  {
    forall o | o in os ensures o.ticker < |t.universe| && o.fillAt < Length(t, o.ticker) {
      assert SameSeries(r.universe[o.ticker], t.universe[o.ticker], day);
    }
  }

  lemma SameFill(r: Rules, t: Rules, s: State, i: nat, day: int, now: int)
    requires AgreeBy(r, t, day) && now <= day && i < |s.pending| && ListedEntries(r, s.pending)
    ensures ListedEntries(t, s.pending) && AfterFill(r, s, i, now) == AfterFill(t, s, i, now)
  {
    SameListing(r, t, day, s.pending);
    var o := s.pending[i];
    SameHistories(r, t, day, now, o.ticker);
    var bar := BarOn(r.universe[o.ticker].candles, now);
    if bar == Some(o.fillAt) {
      SameEntered(r, t, s.(pending := Without(s.pending, i)), o);
    }
  }

  lemma {:induction false} SameFills(r: Rules, t: Rules, s: State, i: nat, day: int, now: int)
    requires AgreeBy(r, t, day) && now <= day && ListedEntries(r, s.pending)
    ensures ListedEntries(t, s.pending) && FillsFrom(r, s, i, now) == FillsFrom(t, s, i, now)
    decreases |s.pending| - i
  {
    SameListing(r, t, day, s.pending);
    if i < |s.pending| {
      SameFill(r, t, s, i, day, now);
      AfterFillStays(r, s, i, now);
      var e := AfterFill(r, s, i, now);
      SameFills(r, t, e, NextFill(s, e, i), day, now);
    }
  }

  /** What was visible on an earlier day is the same, too. */
  lemma SameView(a: Series, b: Series, day: int, now: int)
    requires SameSeries(a, b, day) && now <= day
    ensures VisibleFundamentals(a.fundamentals, now) == VisibleFundamentals(b.fundamentals, now)
    ensures VisibleCatalysts(a.catalysts, now) == VisibleCatalysts(b.catalysts, now)
  {
    VisibleIsNested(a.fundamentals, a.catalysts, now, day);
    VisibleIsNested(b.fundamentals, b.catalysts, now, day);
  }

  lemma SameSignal(r: Rules, t: Rules, ticker: nat, day: int, now: int, busy: set<nat>, lastExit: map<nat, nat>)
    requires AgreeBy(r, t, day) && now <= day && ticker < |r.universe|
    ensures Signal(r, ticker, now, busy, lastExit) == Signal(t, ticker, now, busy, lastExit)
  {
    SameHistories(r, t, day, now, ticker);
    assert SameSeries(r.universe[ticker], t.universe[ticker], day);
    SameView(r.universe[ticker], t.universe[ticker], day, now);
  }

  lemma {:induction false} SameSignals(r: Rules, t: Rules, n: nat, day: int, now: int, busy: set<nat>, lastExit: map<nat, nat>)
    requires AgreeBy(r, t, day) && now <= day && n <= |r.universe|
    ensures Signals(r, n, now, busy, lastExit) == Signals(t, n, now, busy, lastExit)
  {
    if n > 0 {
      SameSignals(r, t, n - 1, day, now, busy, lastExit);
      SameSignalOf(r, t, n - 1, day, now, busy, lastExit);
    }
  }

  lemma SameSignalOf(r: Rules, t: Rules, n: nat, day: int, now: int, busy: set<nat>, lastExit: map<nat, nat>)
    requires AgreeBy(r, t, day) && now <= day && n < |r.universe|
    requires Signals(r, n, now, busy, lastExit) == Signals(t, n, now, busy, lastExit)
    ensures Signals(r, n + 1, now, busy, lastExit) == Signals(t, n + 1, now, busy, lastExit)
  {
    SameSignal(r, t, n, day, now, busy, lastExit);
  }

  lemma {:induction false} SameCloses(r: Rules, t: Rules, n: nat, day: int, now: int, before: map<nat, real>)
    requires AgreeBy(r, t, day) && now <= day && n <= |r.universe|
    ensures Closes(r, n, now, before) == Closes(t, n, now, before)
  {
    if n > 0 {
      SameCloses(r, t, n - 1, day, now, before);
      SameCloseOf(r, t, n - 1, day, now, before);
    }
  }

  lemma SameCloseOf(r: Rules, t: Rules, n: nat, day: int, now: int, before: map<nat, real>)
    requires AgreeBy(r, t, day) && now <= day && n < |r.universe|
    requires Closes(r, n, now, before) == Closes(t, n, now, before)
    ensures Closes(r, n + 1, now, before) == Closes(t, n + 1, now, before)
  {
    SameHistories(r, t, day, now, n);
  }

  // ---- days ----

  lemma SameClosing(r: Rules, t: Rules, s: State, day: int, now: int)
    requires AgreeBy(r, t, day) && now <= day
    ensures Signalled(r, s, now) == Signalled(t, s, now)
  {
    SameSignals(r, t, |r.universe|, day, now, Busy(s.positions, s.pending), s.lastExit);
    SameCloses(r, t, |r.universe|, day, now, s.lastClose);
  }

  lemma SameDay(r: Rules, t: Rules, s: State, day: int, now: int)
    requires AgreeBy(r, t, day) && now <= day && Listed(r, s)
    ensures Listed(t, s) && DayAfter(r, s, now) == DayAfter(t, s, now)
  {
    SameExits(r, t, s, 0, day, now);
    var e := ExitsFrom(r, s, 0, now);
    SameListing(r, t, day, s.pending);
    SameFills(r, t, e, 0, day, now);
    SameClosing(r, t, FillsFrom(r, e, 0, now), day, now);
  }

  /** Over days up to then the two runs go through the same states: same cash, positions,
      pending entries, trades and equity curve. */
  lemma {:induction false} SameDays(r: Rules, t: Rules, s: State, days: seq<int>, day: int)
    requires AgreeBy(r, t, day) && Listed(r, s) && forall k :: 0 <= k < |days| ==> days[k] <= day
    ensures Listed(t, s) && DaysAfter(r, s, days) == DaysAfter(t, s, days)
  {
    SameListing(r, t, day, s.pending);
    if days != [] {
      SameDays(r, t, s, days[..|days| - 1], day);
      SameNextDay(r, t, s, days, day);
    }
  }

  lemma SameNextDay(r: Rules, t: Rules, s: State, days: seq<int>, day: int)
    requires AgreeBy(r, t, day) && Listed(r, s) && Listed(t, s) && days != [] && days[|days| - 1] <= day
    requires DaysAfter(r, s, days[..|days| - 1]) == DaysAfter(t, s, days[..|days| - 1])
    ensures DaysAfter(r, s, days) == DaysAfter(t, s, days)
  {
    LastDay(r, s, days);
    LastDay(t, s, days);
    SameDay(r, t, DaysAfter(r, s, days[..|days| - 1]), day, days[|days| - 1]);
  }

  lemma LastDay(r: Rules, s: State, days: seq<int>)
    requires Sane(r) && Listed(r, s) && days != []
    ensures DaysAfter(r, s, days) == DayAfter(r, DaysAfter(r, s, days[..|days| - 1]), days[|days| - 1])
  {
  }

  /** Both universes have the same calendar. */
  lemma SameCalendar(r: Rules, t: Rules, days: seq<int>, day: int)
    requires AgreeBy(r, t, day) && IsCalendar(r, days)
    ensures IsCalendar(t, days)
  {
    forall s, i | 0 <= s < |t.universe| && 0 <= i < |t.universe[s].candles| ensures t.universe[s].candles[i].date in days {
      assert SameSeries(r.universe[s], t.universe[s], day);
      assert r.universe[s].candles[i].date in days;
    }
    forall d | d in days
      ensures exists s, i :: 0 <= s < |t.universe| && 0 <= i < |t.universe[s].candles| && t.universe[s].candles[i].date == d
    {
      var s, i :| 0 <= s < |r.universe| && 0 <= i < |r.universe[s].candles| && r.universe[s].candles[i].date == d;
      assert SameSeries(r.universe[s], t.universe[s], day);
      assert t.universe[s].candles[i].date == d;
    }
  }

  // ---- what comes later is added ----

  /** Later trades end later, and nothing of the past is rewritten. */
  ghost predicate Extends(before: State, after: State, day: int) {
    && before.trades <= after.trades && before.equityCurve <= after.equityCurve
    && forall k :: |before.trades| <= k < |after.trades| ==> after.trades[k].exitDay >= day
  }

  lemma {:induction false} ExitsExtend(r: Rules, s: State, i: nat, day: int)
    requires ListedPositions(r, s.positions)
    ensures Extends(s, ExitsFrom(r, s, i, day), day)
    decreases |s.positions| - i
  {
    if i < |s.positions| {
      AfterExitStays(r, s, i, day);
      var e := AfterExit(r, s, i, day);
      ExitsExtend(r, e, NextExit(s, e, i), day);
    }
  }

  lemma DayExtends(r: Rules, s: State, day: int)
    requires Sane(r) && Listed(r, s)
    ensures Extends(s, DayAfter(r, s, day), day)
  {
    ExitsExtend(r, s, 0, day);
    FillsDoNotMark(r, ExitsFrom(r, s, 0, day), 0, day);
  }

  lemma {:induction false} DaysExtend(r: Rules, s: State, days: seq<int>, n: nat, day: int)
    requires Sane(r) && Listed(r, s) && n <= |days| && forall k :: n <= k < |days| ==> days[k] > day
    ensures Extends(DaysAfter(r, s, days[..n]), DaysAfter(r, s, days), day + 1)
  {
    if n == |days| {
      assert days[..n] == days;
    } else {
      var rest, last := days[..|days| - 1], days[|days| - 1];
      assert rest[..n] == days[..n];
      DaysExtend(r, s, rest, n, day);
      DayExtends(r, DaysAfter(r, s, rest), last);
    }
  }

  /** No look-ahead: two universes that agree by a day give runs that agree by that day, for any
      analyzer and volatility measure. Up to its n-th day the runs are in one state; all
      trades made by then are the first ones of both, and every other one ends later. */
  lemma PortfolioNoLookAhead(r: Rules, t: Rules, days: seq<int>, n: nat, day: int)
    requires AgreeBy(r, t, day) && IsCalendar(r, days) && n <= |days|
    requires forall k :: 0 <= k < |days| ==> (k < n <==> days[k] <= day)
    ensures IsCalendar(t, days)
    ensures var s, u, v := DaysAfter(r, Start(r), days[..n]), DaysAfter(r, Start(r), days), DaysAfter(t, Start(t), days);
            && s == DaysAfter(t, Start(t), days[..n])
            && Extends(s, u, day + 1) && Extends(s, v, day + 1)
  {
    SameCalendar(r, t, days, day);
    SameDays(r, t, Start(r), days[..n], day);
    DaysExtend(r, Start(r), days, n, day);
    DaysExtend(t, Start(t), days, n, day);
  }
}

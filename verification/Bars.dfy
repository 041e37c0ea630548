/** Ticks become intraday bars: the in-place aggregator against the grouping of its accepted
    ticks by interval. Times are whole seconds since an epoch that begins a day. */
module Bars {
  import opened Prelude

  const DAY := 86400

  datatype Tick = Tick(ticker: string, time: nat, price: real, volume: int)

  /** A bar's interval, prices, volume and ticks; the bar being built is one as well. */
  datatype Shape = Shape(start: nat, open: real, high: real, low: real, close: real, volume: int, count: nat)

  datatype Bar = Bar(ticker: string, shape: Shape, vwap: real)

  datatype Session = Session(turnover: real, volume: nat)

  const NEW_SESSION := Session(0.0, 0)

  /** The start of a time's interval; intervals are counted from midnight. */
  function Floor(time: nat, interval: nat): nat
    requires interval > 0
  {
    var second := time % DAY;
    time - second + second / interval * interval
  }

  lemma ScalesUp(a: nat, b: nat, n: nat)
    requires a <= b
    ensures a * n <= b * n
  {
  }

  lemma DownTo(second: nat, interval: nat)
    requires interval > 0
    ensures second / interval * interval <= second < second / interval * interval + interval
  {
    assert second == second / interval * interval + second % interval;
  }

  lemma DownToFollows(second: nat, later: nat, interval: nat)
    requires interval > 0 && second <= later
    ensures second / interval * interval <= later / interval * interval
  {
    DownTo(second, interval);
    DownTo(later, interval);
    var q, r := second / interval, later / interval;
    assert (r + 1) * interval == r * interval + interval;
    if r < q {
      ScalesUp(r + 1, q, interval);
    } else {
      ScalesUp(q, r, interval);
    }
  }

  /** Intervals contain their times, never straddle midnight, and follow the clock. */
  lemma FloorStartsTheInterval(time: nat, later: nat, interval: nat)
    requires interval > 0 && time <= later
    ensures Floor(time, interval) <= time < Floor(time, interval) + interval
    ensures Floor(time, interval) / DAY == time / DAY
    ensures Floor(time, interval) <= Floor(later, interval)
  {
    FloorInDay(time, interval);
    FloorInDay(later, interval);
    if time / DAY == later / DAY {
      DownToFollows(time % DAY, later % DAY, interval);
    }
  }

  lemma FloorInDay(time: nat, interval: nat)
    requires interval > 0
    ensures Floor(time, interval) <= time < Floor(time, interval) + interval
    ensures Floor(time, interval) / DAY == time / DAY
    ensures Floor(time, interval) == time / DAY * DAY + time % DAY / interval * interval
  {
    DownTo(time % DAY, interval);
    var day, into := time / DAY, time % DAY / interval * interval;
    assert Floor(time, interval) == day * DAY + into;
    WithinDay(day, into);
  }

  lemma WithinDay(day: nat, second: nat)
    requires second < DAY
    ensures (day * DAY + second) / DAY == day
  {
  }

  function Opened(tick: Tick, start: nat): Shape {
    Shape(start, tick.price, tick.price, tick.price, tick.price, MaxInt(tick.volume, 0), 1)
  }

  function Extended(shape: Shape, tick: Tick): Shape {
    shape.(high := Max(shape.high, tick.price), low := Min(shape.low, tick.price), close := tick.price,
           volume := shape.volume + MaxInt(tick.volume, 0), count := shape.count + 1)
  }

  function Worth(tick: Tick): real {
    tick.price * tick.volume as real
  }

  function Accumulated(session: Session, tick: Tick): Session {
    if tick.volume > 0 then Session(session.turnover + Worth(tick), session.volume + tick.volume) else session
  }

  function Vwap(session: Session, fallback: real): real {
    if session.volume > 0 then session.turnover / session.volume as real else fallback
  }

  /** The newest `history` bars; a history below zero keeps none. */
  function Newest(bars: seq<Bar>, history: int): seq<Bar> {
    if |bars| > history then bars[|bars| - MaxInt(history, 0)..] else bars
  }

  // ---- one ticker's feed ----

  datatype Feed = Feed(building: Option<Shape>, bars: seq<Bar>, session: Session)

  const NEW_FEED := Feed(None, [], NEW_SESSION)

  datatype Fed = Fed(feed: Feed, completed: Option<Bar>)

  function Finalized(feed: Feed, ticker: string, shape: Shape, history: int): Fed {
    var bar := Bar(ticker, shape, Vwap(feed.session, shape.close));
    Fed(feed.(bars := Newest(feed.bars + [bar], history)), Some(bar))
  }

  /** A stale tick changes nothing, a tick of the current interval extends its bar, and a
      later one completes it. */
  function Placed(feed: Feed, tick: Tick, start: nat, history: int): Fed {
    if feed.building.None? then Fed(feed.(building := Some(Opened(tick, start))), None)
    else if start < feed.building.value.start then Fed(feed, None)
    else if start == feed.building.value.start then Fed(feed.(building := Some(Extended(feed.building.value, tick))), None)
    else
      var done := Finalized(feed, tick.ticker, feed.building.value, history);
      done.(feed := done.feed.(building := Some(Opened(tick, start))))
  }

  /** The session counts every tick, before it is placed in its interval. */
  function AfterTick(feed: Feed, tick: Tick, start: nat, history: int): Fed {
    Placed(feed.(session := Accumulated(feed.session, tick)), tick, start, history)
  }

  /** How the aggregator keys its ticks. */
  function StartOf(interval: nat): Tick -> nat
    requires interval > 0
  {
    (tick: Tick) => Floor(tick.time, interval)
  }

  /** A feed after a stretch of its ticks, given how a tick is assigned to an interval. */
  function FeedAfter(ticks: seq<Tick>, key: Tick -> nat, history: int): Feed {
    if ticks == [] then NEW_FEED
    else AfterTick(FeedAfter(ticks[..|ticks| - 1], key, history), ticks[|ticks| - 1], key(ticks[|ticks| - 1]), history).feed
  }

  /** One ticker's part of a stream. */
  function OfTicker(ticks: seq<Tick>, ticker: string): seq<Tick> {
    if ticks == [] then [] else
      var rest, last := OfTicker(ticks[..|ticks| - 1], ticker), ticks[|ticks| - 1];
      if last.ticker == ticker then rest + [last] else rest
  }

  lemma OneMoreOf(ticks: seq<Tick>, tick: Tick, ticker: string, key: Tick -> nat, history: int)
    ensures FeedAfter(OfTicker(ticks + [tick], ticker), key, history) ==
            if tick.ticker == ticker then AfterTick(FeedAfter(OfTicker(ticks, ticker), key, history), tick, key(tick), history).feed
            else FeedAfter(OfTicker(ticks, ticker), key, history)
  {
    assert (ticks + [tick])[..|ticks|] == ticks;
    var rest := OfTicker(ticks, ticker);
    assert (rest + [tick])[..|rest|] == rest;
  }

  class BarAggregator {
    const interval: nat
    const history: int
    var building: map<string, Shape>
    var bars: map<string, seq<Bar>>
    var session: map<string, Session>

    ghost predicate Valid()
      reads this
    {
      interval > 0
    }

    function FeedOf(ticker: string): Feed
      reads this
    {
      Feed(if ticker in building then Some(building[ticker]) else None,
           if ticker in bars then bars[ticker] else [],
           if ticker in session then session[ticker] else NEW_SESSION)
    }

    constructor (interval: nat, history: int)
      requires interval > 0
      ensures Valid() && this.interval == interval && this.history == history
      ensures forall ticker :: FeedOf(ticker) == NEW_FEED
    {
      this.interval, this.history := interval, history;
      building, bars, session := map[], map[], map[];
    }

    method OnTick(tick: Tick) returns (completed: Option<Bar>)
      requires Valid()
      modifies this
      ensures Valid() && Fed(FeedOf(tick.ticker), completed) == AfterTick(old(FeedOf(tick.ticker)), tick, Floor(tick.time, interval), history)
      ensures forall other :: other != tick.ticker ==> FeedOf(other) == old(FeedOf(other))
    {
      CountTick(tick);
      completed := PlaceTick(tick, Floor(tick.time, interval));
    }

    /** A whole stream: however the tickers interleave, each sees only its own ticks. */
    method OnStream(ticks: seq<Tick>)
      requires Valid() && forall ticker :: FeedOf(ticker) == NEW_FEED
      modifies this
      ensures Valid()
      ensures forall ticker :: FeedOf(ticker) == FeedAfter(OfTicker(ticks, ticker), StartOf(interval), history)
      // the session VWAP weighs every tick of the ticker that has volume, stale ones included
      ensures forall ticker {:trigger SessionVwap(ticker)} ::
        var total := TotalOf(OfTicker(ticks, ticker));
        SessionVwap(ticker) == if total.volume > 0 then Some(total.turnover / total.volume as real) else None
    {
      for i := 0 to |ticks|
        invariant Valid()
        invariant forall ticker :: FeedOf(ticker) == FeedAfter(OfTicker(ticks[..i], ticker), StartOf(interval), history)
      {
        forall ticker ensures
          FeedAfter(OfTicker(ticks[..i + 1], ticker), StartOf(interval), history) ==
          if ticks[i].ticker == ticker then AfterTick(FeedOf(ticker), ticks[i], StartOf(interval)(ticks[i]), history).feed else FeedOf(ticker)
        {
          assert ticks[..i + 1] == ticks[..i] + [ticks[i]];
          OneMoreOf(ticks[..i], ticks[i], ticker, StartOf(interval), history);
        }
        var _ := OnTick(ticks[i]);
      }
      assert ticks[..|ticks|] == ticks;
      forall ticker ensures FeedOf(ticker).session == TotalOf(OfTicker(ticks, ticker)) {
        SessionCountsEveryTick(OfTicker(ticks, ticker), StartOf(interval), history);
      }
    }

    method CountTick(tick: Tick)
      modifies this`session
      ensures FeedOf(tick.ticker) == old(FeedOf(tick.ticker)).(session := Accumulated(old(FeedOf(tick.ticker)).session, tick))
      ensures forall other :: other != tick.ticker ==> FeedOf(other) == old(FeedOf(other))
    {
      if tick.ticker !in session {
        session := session[tick.ticker := NEW_SESSION];
      }
      if tick.volume > 0 {
        var s := session[tick.ticker];
        session := session[tick.ticker := Session(s.turnover + Worth(tick), s.volume + tick.volume)];
      }
    }

    method PlaceTick(tick: Tick, start: nat) returns (completed: Option<Bar>)
      modifies this
      ensures Fed(FeedOf(tick.ticker), completed) == Placed(old(FeedOf(tick.ticker)), tick, start, history)
      ensures forall other :: other != tick.ticker ==> FeedOf(other) == old(FeedOf(other))
    {
      if tick.ticker !in building {
        building := building[tick.ticker := Opened(tick, start)];
        return None;
      }
      var current := building[tick.ticker];
      if start < current.start { return None; }
      if start == current.start {
        building := building[tick.ticker := Extended(current, tick)];
        return None;
      }
      var bar := Finalize(tick.ticker, current);
      assert forall other :: other != tick.ticker ==> FeedOf(other) == old(FeedOf(other));
      building := building[tick.ticker := Opened(tick, start)];
      completed := Some(bar);
    }

    method Finalize(ticker: string, shape: Shape) returns (bar: Bar)
      modifies this`bars, this`session
      ensures Fed(FeedOf(ticker), Some(bar)) == Finalized(old(FeedOf(ticker)), ticker, shape, history)
      ensures forall other :: other != ticker ==> FeedOf(other) == old(FeedOf(other))
    {
      if ticker !in session {
        session := session[ticker := NEW_SESSION];
      }
      bar := Bar(ticker, shape, Vwap(session[ticker], shape.close));
      var store := (if ticker in bars then bars[ticker] else []) + [bar];
      if |store| > history {
        store := store[|store| - MaxInt(history, 0)..];
      }
      bars := bars[ticker := store];
    }

    /** Flushes one ticker's bar in progress. */
    method ForceClose(ticker: string) returns (flushed: Option<Bar>)
      requires Valid()
      modifies this
      ensures Valid()
      ensures var before := old(FeedOf(ticker));
              if before.building.None? then flushed == None && FeedOf(ticker) == before
              else Fed(FeedOf(ticker), flushed) == Finalized(before.(building := None), ticker, before.building.value, history)
      ensures forall other :: other != ticker ==> FeedOf(other) == old(FeedOf(other))
    {
      if ticker !in building { return None; }
      var shape := building[ticker];
      building := building - {ticker};
      var bar := Finalize(ticker, shape);
      flushed := Some(bar);
    }

    function SessionVwap(ticker: string): Option<real>
      reads this
    {
      if ticker !in session || session[ticker].volume <= 0 then None else Some(Vwap(session[ticker], 0.0))
    }

    /** Forgets one ticker, or all of them. */
    method ResetSession(ticker: Option<string>)
      requires Valid()
      modifies this
      ensures Valid()
      ensures forall t :: FeedOf(t) == if ticker.None? || ticker.value == t then NEW_FEED else old(FeedOf(t))
    {
      if ticker.None? {
        building, bars, session := map[], map[], map[];
      } else {
        building, bars, session := building - {ticker.value}, bars - {ticker.value}, session - {ticker.value};
      }
    }
  }

  // ---- a stretch of ticks without a flush or a reset ----

  /** The bars that `on_tick` returned. */
  function Returned(ticks: seq<Tick>, key: Tick -> nat, history: int): seq<Bar> {
    if ticks == [] then [] else
      var rest, last := ticks[..|ticks| - 1], ticks[|ticks| - 1];
      var fed := AfterTick(FeedAfter(rest, key, history), last, key(last), history);
      Returned(rest, key, history) + if fed.completed.Some? then [fed.completed.value] else []
  }

  /** The ticks that reach a bar: no earlier interval than the newest bar's. */
  function Accepted(ticks: seq<Tick>, key: Tick -> nat): seq<Tick> {
    if ticks == [] then [] else
      var kept, last := Accepted(ticks[..|ticks| - 1], key), ticks[|ticks| - 1];
      if kept != [] && key(last) < key(kept[|kept| - 1]) then kept else kept + [last]
  }

  predicate Continues(shapes: seq<Shape>, start: nat) {
    shapes != [] && shapes[|shapes| - 1].start == start
  }

  function Older(shapes: seq<Shape>, start: nat): seq<Shape> {
    if Continues(shapes, start) then shapes[..|shapes| - 1] else shapes
  }

  function NewestShape(shapes: seq<Shape>, tick: Tick, start: nat): Shape {
    if Continues(shapes, start) then Extended(shapes[|shapes| - 1], tick) else Opened(tick, start)
  }

  /** Consecutive ticks of one interval, folded into one shape each. */
  function Shapes(ticks: seq<Tick>, key: Tick -> nat): seq<Shape> {
    if ticks == [] then [] else
      var before, last := Shapes(ticks[..|ticks| - 1], key), ticks[|ticks| - 1];
      Older(before, key(last)) + [NewestShape(before, last, key(last))]
  }

  function ShapesOf(bars: seq<Bar>): (r: seq<Shape>)
    ensures |r| == |bars| && forall i {:trigger r[i]} :: 0 <= i < |r| ==> r[i] == bars[i].shape
  {
    seq(|bars|, i requires 0 <= i < |bars| => bars[i].shape)
  }

  lemma {:induction false} LatestAccepted(ticks: seq<Tick>, key: Tick -> nat, history: int)
    requires ticks != []
    ensures var kept, feed := Accepted(ticks, key), FeedAfter(ticks, key, history);
            kept != [] && feed.building.Some? && feed.building.value.start == key(kept[|kept| - 1])
  {
    if |ticks| > 1 {
      LatestAccepted(ticks[..|ticks| - 1], key, history);
    }
  }

  lemma ShapesOfOneMore(kept: seq<Tick>, last: Tick, done: seq<Shape>, current: Shape, key: Tick -> nat)
    requires Shapes(kept, key) == done + [current]
    ensures var start := key(last);
            Shapes(kept + [last], key) ==
            if start == current.start then done + [Extended(current, last)] else done + [current] + [Opened(last, start)]
  {
    assert (kept + [last])[..|kept|] == kept;
    assert (done + [current])[..|done|] == done;
  }

  lemma ShapesOfOneMoreBar(bars: seq<Bar>, bar: Bar)
    ensures ShapesOf(bars + [bar]) == ShapesOf(bars) + [bar.shape]
  {
  }

  lemma FirstShape(tick: Tick, key: Tick -> nat, history: int)
    ensures Shapes(Accepted([tick], key), key) ==
            ShapesOf(Returned([tick], key, history)) + [FeedAfter([tick], key, history).building.value]
  {
    assert [tick][..0] == [];
    assert Accepted([tick], key) == [tick];
  }

  /** The bars returned so far, and the one a flush would return, are the shapes of the
      accepted ticks. */
  lemma {:induction false} BarsAreShapes(ticks: seq<Tick>, key: Tick -> nat, history: int)
    requires ticks != []
    ensures FeedAfter(ticks, key, history).building.Some?
    ensures Shapes(Accepted(ticks, key), key) ==
            ShapesOf(Returned(ticks, key, history)) + [FeedAfter(ticks, key, history).building.value]
  {
    var rest, last := ticks[..|ticks| - 1], ticks[|ticks| - 1];
    if rest == [] {
      assert ticks == [last];
      FirstShape(last, key, history);
    } else {
      BarsAreShapes(rest, key, history);
      LatestAccepted(rest, key, history);
      LatestAccepted(ticks, key, history);
      var returned, current := Returned(rest, key, history), FeedAfter(rest, key, history).building.value;
      ShapesOfOneMore(Accepted(rest, key), last, ShapesOf(returned), current, key);
      var fed := AfterTick(FeedAfter(rest, key, history), last, key(last), history);
      if fed.completed.Some? {
        ShapesOfOneMoreBar(returned, fed.completed.value);
      } else {
        assert Returned(ticks, key, history) == returned;
      }
    }
  }

  // ---- which ticks are accepted, and what the shapes are ----

  /** Intervals never go back. */
  ghost predicate Ordered(ticks: seq<Tick>, key: Tick -> nat) {
    forall i, j :: 0 <= i < j < |ticks| ==> key(ticks[i]) <= key(ticks[j])
  }

  lemma {:induction false} NewestIsLatest(ticks: seq<Tick>, key: Tick -> nat)
    requires ticks != []
    ensures Accepted(ticks, key) != []
    ensures forall i :: 0 <= i < |ticks| ==> key(ticks[i]) <= key(Accepted(ticks, key)[|Accepted(ticks, key)| - 1])
  {
    if |ticks| > 1 {
      NewestIsLatest(ticks[..|ticks| - 1], key);
    }
  }

  lemma {:induction false} AcceptedWereFed(ticks: seq<Tick>, key: Tick -> nat)
    ensures forall t :: t in Accepted(ticks, key) ==> t in ticks
  {
    if ticks != [] {
      AcceptedWereFed(ticks[..|ticks| - 1], key);
    }
  }

  lemma {:induction false} AcceptedAreOrdered(ticks: seq<Tick>, key: Tick -> nat)
    ensures Ordered(Accepted(ticks, key), key)
  {
    if ticks != [] {
      AcceptedAreOrdered(ticks[..|ticks| - 1], key);
    }
  }

  /** A tick reaches a bar exactly when no earlier tick belongs to a later interval. */
  lemma AcceptedIff(ticks: seq<Tick>, i: nat, key: Tick -> nat)
    requires i < |ticks|
    ensures Accepted(ticks[..i + 1], key) ==
            Accepted(ticks[..i], key) +
            (if forall j :: 0 <= j < i ==> key(ticks[j]) <= key(ticks[i]) then [ticks[i]] else [])
  {
    var before := ticks[..i];
    assert ticks[..i + 1][..i] == before;
    if i > 0 {
      NewestIsLatest(before, key);
      AcceptedWereFed(before, key);
      var newest := Accepted(before, key)[|Accepted(before, key)| - 1];
      assert newest in Accepted(before, key);
      var n :| 0 <= n < i && before[n] == newest;
      assert forall j :: 0 <= j < i ==> before[j] == ticks[j];
    }
  }

  /** The ticks of one interval, in order of arrival. */
  function GroupAt(ticks: seq<Tick>, start: nat, key: Tick -> nat): seq<Tick> {
    if ticks == [] then [] else
      GroupAt(ticks[..|ticks| - 1], start, key) +
      if key(ticks[|ticks| - 1]) == start then [ticks[|ticks| - 1]] else []
  }

  function VolumeOf(ticks: seq<Tick>): int {
    if ticks == [] then 0 else VolumeOf(ticks[..|ticks| - 1]) + MaxInt(ticks[|ticks| - 1].volume, 0)
  }

  /** First, highest, lowest and last price; volume and number of ticks. */
  ghost predicate Summarizes(shape: Shape, group: seq<Tick>) {
    && group != [] && shape.open == group[0].price && shape.close == group[|group| - 1].price
    && (forall i :: 0 <= i < |group| ==> shape.low <= group[i].price <= shape.high)
    && (exists i :: 0 <= i < |group| && group[i].price == shape.high)
    && (exists i :: 0 <= i < |group| && group[i].price == shape.low)
    && shape.volume == VolumeOf(group) && shape.count == |group|
  }

  lemma ExtendedSummarizes(shape: Shape, group: seq<Tick>, tick: Tick)
    requires Summarizes(shape, group)
    ensures Summarizes(Extended(shape, tick), group + [tick])
  {
    var more := group + [tick];
    assert more[..|group|] == group;
    var high :| 0 <= high < |group| && group[high].price == shape.high;
    var low :| 0 <= low < |group| && group[low].price == shape.low;
    assert more[high].price == shape.high && more[low].price == shape.low && more[|group|] == tick;
  }

  lemma OpenedSummarizes(tick: Tick, start: nat)
    ensures Summarizes(Opened(tick, start), [tick])
  {
    assert [tick][0].price == tick.price;
    assert [tick][..0] == [];
  }

  lemma {:induction false} NoneAt(ticks: seq<Tick>, start: nat, key: Tick -> nat)
    requires forall i :: 0 <= i < |ticks| ==> key(ticks[i]) != start
    ensures GroupAt(ticks, start, key) == []
  {
    if ticks != [] {
      NoneAt(ticks[..|ticks| - 1], start, key);
    }
  }

  /** Starts strictly increase, and the newest shape is the newest tick's interval. */
  ghost predicate Ascending(shapes: seq<Shape>, ticks: seq<Tick>, key: Tick -> nat) {
    && (shapes == [] <==> ticks == [])
    && (forall i, j :: 0 <= i < j < |shapes| ==> shapes[i].start < shapes[j].start)
    && (ticks != [] ==> shapes[|shapes| - 1].start == key(ticks[|ticks| - 1]))
  }

  lemma {:induction false} StartsIncrease(ticks: seq<Tick>, key: Tick -> nat)
    requires Ordered(ticks, key)
    ensures Ascending(Shapes(ticks, key), ticks, key)
  {
    if ticks != [] {
      StartsIncrease(ticks[..|ticks| - 1], key);
    }
  }

  /** Every shape summarizes the ticks of its interval. */
  ghost predicate SummarizeAll(shapes: seq<Shape>, ticks: seq<Tick>, key: Tick -> nat) {
    forall i :: 0 <= i < |shapes| ==> Summarizes(shapes[i], GroupAt(ticks, shapes[i].start, key))
  }

  /** Every tick's interval has its shape. */
  ghost predicate Covers(shapes: seq<Shape>, ticks: seq<Tick>, key: Tick -> nat) {
    forall t :: t in ticks ==> exists i :: 0 <= i < |shapes| && shapes[i].start == key(t)
  }

  lemma GroupOfOneMore(rest: seq<Tick>, last: Tick, start: nat, key: Tick -> nat)
    ensures GroupAt(rest + [last], start, key) == if key(last) == start then GroupAt(rest, start, key) + [last] else GroupAt(rest, start, key)
  {
    assert (rest + [last])[..|rest|] == rest;
  }

  lemma NothingAtTheNewStart(rest: seq<Tick>, last: Tick, before: seq<Shape>, key: Tick -> nat)
    requires Ordered(rest + [last], key) && Ascending(before, rest, key) && !Continues(before, key(last))
    ensures GroupAt(rest, key(last), key) == []
  {
    var ticks := rest + [last];
    forall j | 0 <= j < |rest| ensures key(rest[j]) != key(last) {
      assert key(ticks[j]) <= key(ticks[|rest| - 1]) <= key(ticks[|rest|]);
    }
    NoneAt(rest, key(last), key);
  }

  lemma NewestSummarizes(rest: seq<Tick>, last: Tick, before: seq<Shape>, key: Tick -> nat)
    requires Ordered(rest + [last], key) && SummarizeAll(before, rest, key) && Ascending(before, rest, key)
    ensures var newest := NewestShape(before, last, key(last));
            newest.start == key(last) && Summarizes(newest, GroupAt(rest + [last], key(last), key))
  {
    GroupOfOneMore(rest, last, key(last), key);
    if Continues(before, key(last)) {
      ExtendedSummarizes(before[|before| - 1], GroupAt(rest, key(last), key), last);
    } else {
      NothingAtTheNewStart(rest, last, before, key);
      OpenedSummarizes(last, key(last));
    }
  }

  lemma OlderSummarize(rest: seq<Tick>, last: Tick, older: seq<Shape>, key: Tick -> nat)
    requires SummarizeAll(older, rest, key) && forall i :: 0 <= i < |older| ==> older[i].start != key(last)
    ensures SummarizeAll(older, rest + [last], key)
  {
    forall i | 0 <= i < |older| ensures Summarizes(older[i], GroupAt(rest + [last], older[i].start, key)) {
      GroupOfOneMore(rest, last, older[i].start, key);
    }
  }

  lemma OlderStartsEarlier(rest: seq<Tick>, last: Tick, before: seq<Shape>, key: Tick -> nat)
    requires Ordered(rest + [last], key) && Ascending(before, rest, key)
    ensures forall i :: 0 <= i < |Older(before, key(last))| ==> Older(before, key(last))[i].start < key(last)
  {
    if before != [] {
      var ticks := rest + [last];
      assert key(ticks[|rest| - 1]) <= key(ticks[|rest|]);
    }
  }

  lemma AppendSummarizes(older: seq<Shape>, newest: Shape, ticks: seq<Tick>, key: Tick -> nat)
    requires SummarizeAll(older, ticks, key) && Summarizes(newest, GroupAt(ticks, newest.start, key))
    ensures SummarizeAll(older + [newest], ticks, key)
  {
  }

  lemma SummarizeOneMore(rest: seq<Tick>, last: Tick, before: seq<Shape>, key: Tick -> nat)
    requires Ordered(rest + [last], key) && SummarizeAll(before, rest, key) && Ascending(before, rest, key)
    ensures SummarizeAll(Older(before, key(last)) + [NewestShape(before, last, key(last))], rest + [last], key)
  {
    OlderStartsEarlier(rest, last, before, key);
    OlderSummarize(rest, last, Older(before, key(last)), key);
    NewestSummarizes(rest, last, before, key);
    AppendSummarizes(Older(before, key(last)), NewestShape(before, last, key(last)), rest + [last], key);
  }

  lemma {:induction false} ShapesSummarize(ticks: seq<Tick>, key: Tick -> nat)
    requires Ordered(ticks, key)
    ensures SummarizeAll(Shapes(ticks, key), ticks, key)
  {
    if ticks != [] {
      var rest, last := ticks[..|ticks| - 1], ticks[|ticks| - 1];
      ShapesSummarize(rest, key);
      StartsIncrease(rest, key);
      assert rest + [last] == ticks;
      SummarizeOneMore(rest, last, Shapes(rest, key), key);
    }
  }

  lemma {:induction false} ShapesCover(ticks: seq<Tick>, key: Tick -> nat)
    requires Ordered(ticks, key)
    ensures Covers(Shapes(ticks, key), ticks, key)
  {
    if ticks != [] {
      var rest, last := ticks[..|ticks| - 1], ticks[|ticks| - 1];
      ShapesCover(rest, key);
      StartsIncrease(ticks, key);
      var before, after := Shapes(rest, key), Shapes(ticks, key);
      forall t | t in ticks ensures exists i :: 0 <= i < |after| && after[i].start == key(t) {
        if t in rest {
          var i :| 0 <= i < |before| && before[i].start == key(t);
          assert after[i].start == before[i].start;
        } else {
          assert t == last && after[|after| - 1].start == key(t);
        }
      }
    }
  }

  /** Without a flush or a reset in between, the bars returned by `on_tick` and the one that a
      flush returns are exactly the first / highest / lowest / last / total of the accepted
      ticks by key, with strictly increasing starts. */
  lemma BarsAreTheGrouping(ticks: seq<Tick>, key: Tick -> nat, history: int)
    requires ticks != []
    ensures FeedAfter(ticks, key, history).building.Some?
    ensures var shapes := ShapesOf(Returned(ticks, key, history)) + [FeedAfter(ticks, key, history).building.value];
            var kept := Accepted(ticks, key);
            Ascending(shapes, kept, key) && SummarizeAll(shapes, kept, key) && Covers(shapes, kept, key)
  {
    BarsAreShapes(ticks, key, history);
    AcceptedAreOrdered(ticks, key);
    StartsIncrease(Accepted(ticks, key), key);
    ShapesSummarize(Accepted(ticks, key), key);
    ShapesCover(Accepted(ticks, key), key);
  }

  lemma NewestOfOneMore(bars: seq<Bar>, bar: Bar, history: int)
    ensures Newest(Newest(bars, history) + [bar], history) == Newest(bars + [bar], history)
  {
  }

  /** The store keeps the newest `history` of the returned bars, and none if that is not positive. */
  lemma {:induction false} StoreKeepsTheNewest(ticks: seq<Tick>, key: Tick -> nat, history: int)
    ensures FeedAfter(ticks, key, history).bars == Newest(Returned(ticks, key, history), history)
  {
    if ticks != [] {
      var rest, last := ticks[..|ticks| - 1], ticks[|ticks| - 1];
      StoreKeepsTheNewest(rest, key, history);
      var fed := AfterTick(FeedAfter(rest, key, history), last, key(last), history);
      if fed.completed.Some? {
        NewestOfOneMore(Returned(rest, key, history), fed.completed.value, history);
      }
    }
  }

  // ---- the session VWAP ----

  lemma AccumulatedWithin(s: Session, tick: Tick, lo: real, hi: real)
    requires Between(s, lo, hi)
    requires tick.volume > 0 ==> lo <= tick.price <= hi
    ensures Between(Accumulated(s, tick), lo, hi)
  {
    if tick.volume > 0 {
      WorthWithin(tick.price, tick.volume as real, lo, hi);
      Distribute(lo, s.volume as real, tick.volume as real);
      Distribute(hi, s.volume as real, tick.volume as real);
      assert (s.volume + tick.volume) as real == s.volume as real + tick.volume as real;
    }
  }

  lemma WorthWithin(price: real, volume: real, lo: real, hi: real)
    requires lo <= price <= hi && volume >= 0.0
    ensures lo * volume <= price * volume <= hi * volume
  {
  }

  lemma Distribute(a: real, b: real, c: real)
    ensures a * (b + c) == a * b + a * c
  {
  }

  /** What the session adds up: every tick with volume, stale or not. */
  function TotalOf(ticks: seq<Tick>): Session {
    if ticks == [] then NEW_SESSION else Accumulated(TotalOf(ticks[..|ticks| - 1]), ticks[|ticks| - 1])
  }

  lemma {:induction false} SessionCountsEveryTick(ticks: seq<Tick>, key: Tick -> nat, history: int)
    ensures FeedAfter(ticks, key, history).session == TotalOf(ticks)
  {
    if ticks != [] {
      SessionCountsEveryTick(ticks[..|ticks| - 1], key, history);
    }
  }

  predicate Between(s: Session, lo: real, hi: real) {
    lo * s.volume as real <= s.turnover <= hi * s.volume as real
  }

  lemma {:induction false} TurnoverWithin(ticks: seq<Tick>, lo: real, hi: real)
    requires forall i :: 0 <= i < |ticks| && ticks[i].volume > 0 ==> lo <= ticks[i].price <= hi
    ensures Between(TotalOf(ticks), lo, hi)
  {
    if ticks != [] {
      TurnoverWithin(ticks[..|ticks| - 1], lo, hi);
      AccumulatedWithin(TotalOf(ticks[..|ticks| - 1]), ticks[|ticks| - 1], lo, hi);
    }
  }

  /** The session VWAP lies between the lowest and the highest price of the ticks that carry
      volume; stale ticks count as well. */
  lemma VwapIsAnAverage(ticks: seq<Tick>, key: Tick -> nat, history: int, lo: real, hi: real, fallback: real)
    requires FeedAfter(ticks, key, history).session.volume > 0
    requires forall i :: 0 <= i < |ticks| && ticks[i].volume > 0 ==> lo <= ticks[i].price <= hi
    ensures lo <= Vwap(FeedAfter(ticks, key, history).session, fallback) <= hi
  {
    TurnoverWithin(ticks, lo, hi);
    SessionCountsEveryTick(ticks, key, history);
    QuotientWithin(TotalOf(ticks), fallback, lo, hi);
  }

  lemma QuotientWithin(s: Session, fallback: real, lo: real, hi: real)
    requires s.volume > 0 && Between(s, lo, hi)
    ensures lo <= Vwap(s, fallback) <= hi
  {
    RatioWithin(s.turnover, s.volume as real, lo, hi);
  }

  lemma RatioWithin(total: real, n: real, lo: real, hi: real)
    requires n > 0.0 && lo * n <= total <= hi * n
    ensures lo <= total / n <= hi
  {
  }

  lemma {:induction false} EmptySession(ticks: seq<Tick>, key: Tick -> nat, history: int)
    ensures var s := FeedAfter(ticks, key, history).session; s.volume == 0 ==> s.turnover == 0.0
  {
    if ticks != [] {
      EmptySession(ticks[..|ticks| - 1], key, history);
    }
  }

  /** A completed bar's VWAP already counts the tick that completed it, which belongs to the
      next interval. It is the VWAP as of the bar's close exactly when that tick carries no
      volume or trades at that very price. */
  lemma BarVwapIsAsOfItsCloseIff(ticks: seq<Tick>, key: Tick -> nat, history: int, tick: Tick)
    requires AfterTick(FeedAfter(ticks, key, history), tick, key(tick), history).completed.Some?
    ensures var feed := FeedAfter(ticks, key, history);
            var bar := AfterTick(feed, tick, key(tick), history).completed.value;
            bar.vwap == Vwap(feed.session, bar.shape.close) <==>
            tick.volume <= 0 || tick.price == Vwap(feed.session, bar.shape.close)
  {
    var feed := FeedAfter(ticks, key, history);
    EmptySession(ticks, key, history);
    AverageMovesIff(feed.session, tick, feed.building.value.close);
  }

  lemma AverageMovesIff(s: Session, tick: Tick, close: real)
    requires s.volume == 0 ==> s.turnover == 0.0
    ensures Vwap(Accumulated(s, tick), close) == Vwap(s, close) <==> tick.volume <= 0 || tick.price == Vwap(s, close)
  {
    if tick.volume > 0 {
      var volume, more := s.volume as real, tick.volume as real;
      assert Accumulated(s, tick).volume as real == volume + more;
      if s.volume > 0 {
        assert Vwap(s, close) * volume == s.turnover;
      }
      WeightedMeanIff(Vwap(s, close), volume, tick.price, more, Vwap(Accumulated(s, tick), close));
    }
  }

  lemma WeightedMeanIff(average: real, volume: real, price: real, more: real, next: real)
    requires volume >= 0.0 && more > 0.0 && next * (volume + more) == average * volume + price * more
    ensures next == average <==> price == average
  {
    assert (next - average) * (volume + more) == (price - average) * more;
    NoZeroDivisor(next - average, volume + more);
    NoZeroDivisor(price - average, more);
  }

  lemma NoZeroDivisor(a: real, b: real)
    requires b > 0.0
    ensures a * b == 0.0 <==> a == 0.0
  {
  }
}

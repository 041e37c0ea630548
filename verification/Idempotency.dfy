/** Replaying ambiguous submissions: how old a row may be, how slow the broker calls, and how
    many rows one recovery pass may carry, before a venue with a ten-minute idempotency key
    ends up with two orders. Times are milliseconds; stored timestamps are truncated to
    whole seconds. */
module Idempotency {
  import opened Prelude

  /** How long the venue answers a repeated key with the order it already holds. */
  const KEY_WINDOW := 600_000

  function Stamp(t: nat): nat {
    t - t % 1000
  }

  /** The age test a recovery applies before it replays a row. */
  predicate Replays(now: int, stamp: int, maxAge: nat) {
    0 <= now - stamp < maxAge
  }

  /** The orders the venue creates for one key, given the arrival times of its requests. */
  function Created(arrivals: seq<nat>): seq<nat> {
    if arrivals == [] then [] else
      var before, at := Created(arrivals[..|arrivals| - 1]), arrivals[|arrivals| - 1];
      if before != [] && at - before[|before| - 1] < KEY_WINDOW then before else before + [at]
  }

  // ---- one recovery pass ----

  /** An unresolved row as a pass finds it: its stamp, and how long its replay would take. */
  datatype Row = Row(stamp: int, duration: nat)

  /** The clock is read once per pass, before the first row. */
  datatype Pass = Pass(now: nat, rows: seq<Row>)

  /** The time spent on the replays of the first k rows, one after another. */
  function Elapsed(p: Pass, maxAge: nat, k: nat): nat
    requires k <= |p.rows|
  {
    if k == 0 then 0 else
      var row := p.rows[k - 1];
      Elapsed(p, maxAge, k - 1) + if Replays(p.now, row.stamp, maxAge) then row.duration else 0
  }

  /** When a row's replay is sent, and when its call is over at the latest. */
  datatype Sent = Sent(start: nat, end: nat)

  /** Whether the k-th row is replayed, and when. */
  function Sending(p: Pass, maxAge: nat, k: nat): Option<Sent>
    requires k < |p.rows|
  {
    if Replays(p.now, p.rows[k].stamp, maxAge)
    then Some(Sent(p.now + Elapsed(p, maxAge, k), p.now + Elapsed(p, maxAge, k + 1))) else None
  }

  /** The loop of a pass: every row is tested against the one clock reading, and each replay
      waits for those before it. */
  method RunPass(p: Pass, maxAge: nat) returns (sent: seq<Option<Sent>>)
    ensures |sent| == |p.rows|
    ensures forall k :: 0 <= k < |p.rows| ==> sent[k] == Sending(p, maxAge, k)
  {
    sent := [];
    var clock := p.now;
    for k := 0 to |p.rows|
      invariant |sent| == k && clock == p.now + Elapsed(p, maxAge, k)
      invariant forall j :: 0 <= j < k ==> sent[j] == Sending(p, maxAge, j)
    {
      var age := p.now - p.rows[k].stamp;
      if age < 0 || age >= maxAge {
        sent := sent + [None];
        continue;
      }
      sent := sent + [Some(Sent(clock, clock + p.rows[k].duration))];
      assert Elapsed(p, maxAge, k + 1) == Elapsed(p, maxAge, k) + p.rows[k].duration;
      clock := clock + p.rows[k].duration;
    }
  }

  lemma {:induction false} ElapsedIsBounded(p: Pass, maxAge: nat, k: nat, latency: nat)
    requires k <= |p.rows| && forall j :: 0 <= j < k ==> p.rows[j].duration <= latency
    ensures Elapsed(p, maxAge, k) <= k * latency
  {
    if k > 0 {
      ElapsedIsBounded(p, maxAge, k - 1, latency);
      assert k * latency == (k - 1) * latency + latency;
    }
  }

  // ---- the requests for one order ----

  /** One approval: its row is stamped before the call, and again when the call fails;
      if the process dies in between, only the first stamp exists. */
  datatype Call = Call(started: nat, failed: nat)

  /** How slow things may get: the age limit, the approval's call, each replay's call, and
      how many unresolved rows a pass may find. */
  datatype Limits = Limits(maxAge: nat, callLatency: nat, replayLatency: nat, rows: nat)

  /** The request of the approval itself arrives while its call is under way. */
  predicate ArrivesFromCall(c: Call, at: nat) {
    c.started <= at <= c.failed
  }

  /** The request of the k-th row's replay arrives while that replay is under way. */
  predicate ArrivesFromPass(c: Call, at: nat, p: Pass, k: nat, l: Limits) {
    && k < |p.rows| <= l.rows && (forall j :: 0 <= j < |p.rows| ==> p.rows[j].duration <= l.replayLatency)
    && (p.rows[k].stamp == Stamp(c.started) || p.rows[k].stamp == Stamp(c.failed))
    && Sending(p, l.maxAge, k).Some?
    && c.started <= at && Sending(p, l.maxAge, k).value.start <= at <= Sending(p, l.maxAge, k).value.end
  }

  ghost predicate Arrives(c: Call, at: nat, l: Limits) {
    ArrivesFromCall(c, at) || exists p: Pass, k: nat :: ArrivesFromPass(c, at, p, k, l)
  }

  ghost predicate Possible(c: Call, arrivals: seq<nat>, l: Limits) {
    && c.started <= c.failed <= c.started + l.callLatency
    && (forall i, j :: 0 <= i < j < |arrivals| ==> arrivals[i] <= arrivals[j])
    && forall i :: 0 <= i < |arrivals| ==> Arrives(c, arrivals[i], l)
  }

  ghost predicate NeverTwoOrders(l: Limits) {
    forall c, arrivals :: Possible(c, arrivals, l) ==> |Created(arrivals)| <= 1
  }

  lemma {:induction false} OneWindowOneOrder(arrivals: seq<nat>)
    requires forall i, j :: 0 <= i < j < |arrivals| ==> arrivals[i] <= arrivals[j]
    requires forall i, j :: 0 <= i < j < |arrivals| ==> arrivals[j] - arrivals[i] < KEY_WINDOW
    ensures arrivals != [] ==> Created(arrivals) == [arrivals[0]]
  {
    if |arrivals| > 1 {
      OneWindowOneOrder(arrivals[..|arrivals| - 1]);
    }
  }

  lemma RowsScale(k: nat, n: nat, latency: nat)
    requires k <= n
    ensures k * latency <= n * latency
  {
  }

  lemma EveryArrivalIsEarly(c: Call, at: nat, l: Limits)
    requires c.started <= c.failed <= c.started + l.callLatency && l.maxAge > 0 && Arrives(c, at, l)
    ensures c.started <= at < c.started + l.maxAge + l.callLatency + l.rows * l.replayLatency
  {
    if !ArrivesFromCall(c, at) {
      var p: Pass, k: nat :| ArrivesFromPass(c, at, p, k, l);
      ElapsedIsBounded(p, l.maxAge, k + 1, l.replayLatency);
      RowsScale(k + 1, l.rows, l.replayLatency);
    }
  }

  /** The venue holds at most one order in every schedule exactly when the age limit, the
      approval's call and the replays of a whole pass fit together in the key window: a
      row waits for the replays of all rows before it. With the nine-minute limit of the
      code, a minute is left for all of them together. */
  lemma AtMostOneOrderIff(l: Limits)
    requires l.maxAge > 0 && l.rows > 0
    ensures NeverTwoOrders(l) <==> l.maxAge + l.callLatency + l.rows * l.replayLatency <= KEY_WINDOW
    ensures l.maxAge == 540_000 ==> (NeverTwoOrders(l) <==> l.callLatency + l.rows * l.replayLatency <= 60_000)
  {
    if l.maxAge + l.callLatency + l.rows * l.replayLatency <= KEY_WINDOW {
      forall c, arrivals | Possible(c, arrivals, l) ensures |Created(arrivals)| <= 1 {
        forall i | 0 <= i < |arrivals| ensures c.started <= arrivals[i] < c.started + KEY_WINDOW {
          EveryArrivalIsEarly(c, arrivals[i], l);
        }
        OneWindowOneOrder(arrivals);
      }
    } else {
      LateReplayDuplicates(l);
    }
  }

  lemma FitsIff(n: nat, each: nat, room: nat)
    requires each > 0
    ensures n * each <= room <==> n <= room / each
  {
    var most := room / each;
    assert room == most * each + room % each;
    if n <= most {
      RowsScale(n, most, each);
    } else {
      RowsScale(most + 1, n, each);
      assert (most + 1) * each == most * each + each;
    }
  }

  /** The longest backlog a pass may find: as many rows as have room for their replays in what
      age limit and call leave of the window. */
  lemma LongestSafeBacklog(l: Limits)
    requires l.maxAge > 0 && l.rows > 0 && l.replayLatency > 0 && l.maxAge + l.callLatency <= KEY_WINDOW
    ensures NeverTwoOrders(l) <==> l.rows <= (KEY_WINDOW - l.maxAge - l.callLatency) / l.replayLatency
  {
    AtMostOneOrderIff(l);
    FitsIff(l.rows, l.replayLatency, KEY_WINDOW - l.maxAge - l.callLatency);
  }

  /** A pass of n rows that are all just young enough, each taking as long as it may. */
  function SlowPass(now: nat, stamp: int, n: nat, latency: nat): Pass {
    Pass(now, seq(n, _ => Row(stamp, latency)))
  }

  lemma {:induction false} SlowPassElapsed(now: nat, stamp: int, n: nat, latency: nat, maxAge: nat, k: nat)
    requires k <= n && Replays(now, stamp, maxAge)
    ensures Elapsed(SlowPass(now, stamp, n, latency), maxAge, k) == k * latency
  {
    if k > 0 {
      SlowPassElapsed(now, stamp, n, latency, maxAge, k - 1);
    }
  }

  /** The request lands at once but its failure is noticed as late as possible, on a whole
      second; the pass reads its clock at the last admissible instant, the row is its
      last, and every replay is as slow as possible. */
  lemma LateReplayDuplicates(l: Limits)
    requires l.maxAge > 0 && l.rows > 0 && l.maxAge + l.callLatency + l.rows * l.replayLatency > KEY_WINDOW
    ensures !NeverTwoOrders(l)
  {
    var started := (1000 - l.callLatency % 1000) % 1000;
    var c := Call(started, started + l.callLatency);
    assert (started + l.callLatency) % 1000 == 0;
    var now := c.failed + l.maxAge - 1;
    var p, k := SlowPass(now, Stamp(c.failed), l.rows, l.replayLatency), l.rows - 1;
    SlowPassElapsed(now, Stamp(c.failed), l.rows, l.replayLatency, l.maxAge, k);
    SlowPassElapsed(now, Stamp(c.failed), l.rows, l.replayLatency, l.maxAge, l.rows);
    var arrivals := [started, now + l.rows * l.replayLatency];
    assert ArrivesFromPass(c, arrivals[1], p, k, l);
    TwoArrivals(started, arrivals[1]);
    assert Possible(c, arrivals, l);
  }

  lemma TwoArrivals(first: nat, second: nat)
    requires second - first >= KEY_WINDOW
    ensures Created([first, second]) == [first, second]
  {
    assert [first, second][..1] == [first] && [first][..0] == [];
    assert Created([first]) == [first];
  }

  /** Two unresolved rows are enough under the nine-minute limit: the second one's own calls
      take no time at all, it is young enough when the pass begins, and it waits a minute
      for the first one's replay. */
  lemma SecondRowWaits(first: int)
    requires Replays(539_999, first, 540_000)
    ensures var p := Pass(539_999, [Row(first, 60_001), Row(0, 0)]);
            && ArrivesFromPass(Call(0, 0), 600_000, p, 1, Limits(540_000, 0, 60_001, 2))
            && Created([0, 600_000]) == [0, 600_000]
  {
    var p := Pass(539_999, [Row(first, 60_001), Row(0, 0)]);
    assert Elapsed(p, 540_000, 0) == 0;
    assert Elapsed(p, 540_000, 1) == 60_001;
    TwoArrivals(0, 600_000);
  }
}

/** The write-ahead-intent protocol that keeps at most one venue stop per position: cancel,
    persist the intended (price, quantity), create under a key derived from that intent,
    persist the id. Every venue call may fail before or after it took effect, every status
    lookup and every queue write may fail, and after any failure the next pass starts
    from the persisted row. */
module ProtectiveStops {
  import opened Prelude
  import opened Orders
  import opened Venue

  const PRICE_EPSILON := 0.000001
  const STATUS_TTL := 15

  /** Six decimals of a price, as the key prints them. */
  function Micros(price: real): int {
    (price * 1000000.0 + 0.5).Floor
  }

  function KeyOf(buyId: string, quantity: int, price: real): Key {
    Key(buyId, quantity, Micros(price))
  }

  function EffectiveStop(buy: Order, scaledOut: bool): Option<real> {
    if scaledOut && buy.trail.Some? then buy.trail else buy.stopLoss
  }

  /** Price and quantity are written ahead of the create, its id is still open. */
  predicate HasPendingIntent(buy: Order) {
    buy.stop.id.None? && buy.stop.price.Some? && buy.stop.quantity > 0
  }

  function Slack(level: real, tolerance: real): real {
    Max(tolerance, Max(PRICE_EPSILON, Abs(level) * PRICE_EPSILON))
  }

  predicate MatchesArmedState(buy: Order, quantity: int, level: real, tolerance: real) {
    && buy.stop.id.Some? && buy.stop.quantity == quantity && buy.stop.price.Some?
    && Abs(buy.stop.price.value - level) <= Slack(level, tolerance)
  }

  function Disarmed(buy: Order): Order {
    buy.(stop := NO_STOP)
  }

  function Intending(buy: Order, quantity: int, level: real): Order {
    buy.(stop := StopState(None, Some(level), quantity))
  }

  function WithId(buy: Order, id: Option<nat>): Order {
    buy.(stop := buy.stop.(id := id))
  }

  /** The stop that a pending intent creates. */
  function StopOf(buy: Order): Stop
    requires HasPendingIntent(buy)
  {
    Stop(KeyOf(buy.id, buy.stop.quantity, buy.stop.price.value), buy.stop.quantity, buy.stop.price.value, Watching)
  }

  /** What happens at each call of one pass. */
  datatype Faults = Faults(replay: Fault, replaySaved: bool, statusWorks: bool, clearSaved: bool,
                           cancel: Fault, intentSaved: bool, create: Fault, idSaved: bool)

  const FAULTLESS := Faults(Works, true, true, true, Works, true, Works, true)

  // ---- the invariant ----

  /** The row names this stop: by its id, or by an intent from which the stop's key derives. */
  predicate Names(row: Order, id: nat, stop: Stop) {
    && row.stop.price.Some? && stop.quantity == row.stop.quantity && stop.price == row.stop.price.value
    && stop.key == KeyOf(row.id, row.stop.quantity, row.stop.price.value)
    && (row.stop.id == Some(id) || HasPendingIntent(row))
  }

  /** Every live stop of the position is named by the row. */
  ghost predicate Tracks(row: Order, stops: Stops) {
    forall id :: Live(stops, id) && stops[id].key.buyId == row.id ==> Names(row, id, stops[id])
  }

  /** A stored id was issued for this position, and an intent is one the venue can accept. */
  ghost predicate Sound(row: Order, stops: Stops, next: nat) {
    && (row.stop.id.Some? ==> row.stop.id.value < next)
    && (row.stop.id.Some? && row.stop.id.value in stops ==> stops[row.stop.id.value].key.buyId == row.id)
    && (HasPendingIntent(row) ==> row.stop.price.value > 0.0)
  }

  ghost predicate NothingLive(buyId: string, stops: Stops) {
    forall id :: Live(stops, id) ==> stops[id].key.buyId != buyId
  }

  predicate SameStop(a: Order, b: Order) {
    a.id == b.id && a.stop == b.stop
  }

  /** At most the position's own row was written, from memory and with a new stop state. */
  predicate Wrote(buy: Order, before: Book, after: Book) {
    && before.Keys == after.Keys && buy.id in before
    && (forall b :: b in before && b != buy.id ==> after[b] == before[b])
    && (after[buy.id] == before[buy.id] || after[buy.id] == buy.(stop := after[buy.id].stop))
  }

  /** A cached lookup that says "gone" is right for good: ids are never reused. */
  datatype Cached = Cached(at: int, status: Option<StopStatus>)

  ghost predicate CacheSound(cache: map<nat, Cached>, stops: Stops, next: nat) {
    forall id :: id in cache ==> id < next && (SaysGone(cache[id].status) ==> !Live(stops, id))
  }

  predicate SaysGone(status: Option<StopStatus>) {
    status.None? || Gone(status.value)
  }

  ghost predicate Protected(rows: Book, stops: Stops, next: nat) {
    forall b :: b in rows ==> rows[b].id == b && Tracks(rows[b], stops) && Sound(rows[b], stops, next)
  }

  /** The stop is the row's stored id, or the one whose key derives from its pending intent. */
  predicate NamedBy(row: Order, id: nat, stop: Stop) {
    row.stop.id == Some(id) || (HasPendingIntent(row) && stop.key == KeyOf(row.id, row.stop.quantity, row.stop.price.value))
  }

  /** Every position has at most one live stop, and its row names it. */
  ghost predicate OneLiveStopEach(rows: Book, stops: Stops) {
    forall b, s, t ::
      (b in rows && Live(stops, s) && Live(stops, t) && stops[s].key.buyId == b && stops[t].key.buyId == b) ==>
        s == t && NamedBy(rows[b], s, stops[s])
  }

  /** At most one live stop per position. */
  lemma AtMostOneLiveStop(rows: Book, stops: Stops, next: nat, b: string, s: nat, t: nat)
    requires Protected(rows, stops, next) && WellKept(stops, next) && b in rows
    requires Live(stops, s) && Live(stops, t) && stops[s].key.buyId == b == stops[t].key.buyId
    ensures s == t && NamedBy(rows[b], s, stops[s])
  {
    assert Names(rows[b], s, stops[s]) && Names(rows[b], t, stops[t]);
  }

  /** Touching one position's stops leaves every other position protected. */
  lemma OthersStayProtected(rows: Book, row: Order, before: Stops, after: Stops, next: nat, later: nat)
    requires Protected(rows, before, next) && OnlyOf(row.id, before, after) && next <= later
    requires Tracks(row, after) && Sound(row, after, later) && WellKept(before, next)
    requires forall id :: id in after && id !in before ==> next <= id
    ensures Protected(rows[row.id := row], after, later)
  {
    var more := rows[row.id := row];
    forall b | b in more && b != row.id ensures Tracks(more[b], after) && Sound(more[b], after, later) {
      assert Tracks(rows[b], before);
      forall id | Live(after, id) && after[id].key.buyId == b ensures Names(rows[b], id, after[id]) {
        assert Live(before, id);
      }
    }
  }

  class StopKeeper {
    const venue: Venue
    /** The persisted queue file, by order id. */
    var rows: Book
    var cache: map<nat, Cached>

    ghost predicate Valid()
      reads this, venue
    {
      && venue.Valid()
      && Protected(rows, venue.stops, venue.next)
      && CacheSound(cache, venue.stops, venue.next)
    }

    constructor (venue: Venue)
      requires venue.Valid()
      ensures Valid() && this.venue == venue && rows == map[]
    {
      this.venue := venue;
      rows, cache := map[], map[];
    }

    /** The memory copy of a row agrees with the file on the stop fields. */
    ghost predicate InStep(buy: Order)
      reads this`rows
    {
      buy.id in rows && SameStop(buy, rows[buy.id])
    }

    /** One whole-row write; it either takes effect or fails. */
    method Update(row: Order, works: bool) returns (saved: bool)
      modifies this`rows
      ensures saved <==> works && row.id in old(rows)
      ensures rows == if saved then old(rows)[row.id := row] else old(rows)
    {
      saved := works && row.id in rows;
      if saved {
        rows := rows[row.id := row];
      }
    }

    method Invalidate(id: nat)
      modifies this`cache
      ensures cache == old(cache) - {id}
    {
      cache := cache - {id};
    }

    /** The lookup is remembered briefly; only successful lookups are. */
    method VenueStatus(id: nat, now: int, works: bool) returns (r: Reply<Option<StopStatus>>)
      requires Valid() && id < venue.next && venue.supported
      modifies this`cache
      ensures Valid()
      ensures r.Returned? && SaysGone(r.value) ==> !Live(venue.stops, id)
      ensures id in old(cache) && now - old(cache)[id].at < STATUS_TTL ==> r == Returned(old(cache)[id].status)
      ensures (id !in old(cache) || now - old(cache)[id].at >= STATUS_TTL) && works ==>
                r == Returned(if id in venue.stops then Some(venue.stops[id].status) else None)
      ensures (id !in old(cache) || now - old(cache)[id].at >= STATUS_TTL) && !works ==> r == Raised
      ensures cache == old(cache) || (r.Returned? && cache == old(cache)[id := Cached(now, r.value)])
    {
      if id in cache && now - cache[id].at < STATUS_TTL { return Returned(cache[id].status); }
      r := venue.ProtectiveStopStatus(id, works);
      if r.Returned? {
        cache := cache[id := Cached(now, r.value)];
      }
    }

    /** Drops the memory of a stop that is gone; a failed write is tolerated. */
    method Forget(buy: Order, saved: bool) returns (r: Order)
      requires Valid() && buy.id in rows && NothingLive(buy.id, venue.stops)
      modifies this`rows, this`cache
      ensures Valid() && r == Disarmed(buy)
      ensures rows == if saved then old(rows)[buy.id := r] else old(rows)
      // what was remembered about the stop is forgotten too
      ensures cache == if buy.stop.id.Some? then old(cache) - {buy.stop.id.value} else old(cache)
    {
      if buy.stop.id.Some? {
        Invalidate(buy.stop.id.value);
      }
      r := Disarmed(buy);
      var _ := Update(r, saved);
    }

    /** Closes an open intent: the key derived from it finds the stop or creates it. */
    method Resolve(buy: Order, f: Faults) returns (r: Order, ok: bool)
      requires Valid() && InStep(buy)
      modifies this, venue
      ensures Valid() && InStep(r)
      ensures r == WithId(buy, r.stop.id) && (rows == old(rows) || rows == old(rows)[buy.id := r])
      ensures OnlyOf(buy.id, old(venue.stops), venue.stops)
      ensures !HasPendingIntent(buy) || !venue.supported ==>
                ok && r == buy && rows == old(rows) && venue.stops == old(venue.stops) && cache == old(cache)
      ensures ok && venue.supported ==> !HasPendingIntent(r)
      ensures !ok ==> r == buy && rows == old(rows)
      ensures f == FAULTLESS ==> ok
      ensures NoneEngaged(buy.id, old(venue.stops)) ==> NoneEngaged(buy.id, venue.stops)
      ensures venue.stops == old(venue.stops) ||
              (HasPendingIntent(buy) && venue.stops == old(venue.stops)[old(venue.next) := StopOf(buy)])
      ensures ok && r != buy ==> r.stop.id.value !in cache
      ensures ok && r != buy && (venue.freesKeys || !HasGoneKey(old(venue.stops), KeyOf(buy.id, buy.stop.quantity, buy.stop.price.value))) ==>
                Live(venue.stops, r.stop.id.value)
    {
      r := buy;
      if !HasPendingIntent(buy) || !venue.supported { return buy, true; }
      var key := KeyOf(buy.id, buy.stop.quantity, buy.stop.price.value);
      label before:
      var id := venue.PlaceProtectiveStop(key, buy.stop.quantity, buy.stop.price.value, f.replay);
      assert Tracks(rows[buy.id], venue.stops) && Sound(rows[buy.id], venue.stops, venue.next);
      OthersStayProtected(rows, rows[buy.id], old@before(venue.stops), venue.stops, old@before(venue.next), venue.next);
      assert rows[buy.id := rows[buy.id]] == rows;
      if id.Raised? { return buy, false; }
      Invalidate(id.value);
      var resolved := WithId(buy, Some(id.value));
      var saved := Update(resolved, f.replaySaved);
      if !saved { return buy, false; }
      OthersStayProtected(old@before(rows), resolved, venue.stops, venue.stops, venue.next, venue.next);
      r, ok := resolved, true;
    }

    /** Cancels the stop whose id the row stores. */
    method CancelStored(buy: Order, fault: Fault) returns (cancelled: bool)
      requires Valid() && InStep(buy) && buy.stop.id.Some? && venue.supported
      modifies venue
      ensures Valid() && venue.next == old(venue.next)
      ensures OnlyOf(buy.id, old(venue.stops), venue.stops) && venue.stops.Keys == old(venue.stops).Keys
      ensures cancelled ==> NothingLive(buy.id, venue.stops)
      ensures forall id :: id in venue.stops && id != buy.stop.id.value ==> venue.stops[id] == old(venue.stops)[id]
      ensures fault.Works? && NoneEngaged(buy.id, old(venue.stops)) ==> cancelled
    {
      var reply := venue.CancelProtectiveStop(buy.stop.id.value, fault);
      CancelKeepsProtected(rows, buy, old(venue.stops), venue.stops, venue.next);
      cancelled := reply.Returned?;
    }

    /** Resolve, drop, forget: on success no stop of this buy is live and no intent is open. */
    method Release(buy: Order, f: Faults) returns (r: Order, released: bool)
      requires Valid() && InStep(buy)
      modifies this, venue
      ensures Valid()
      ensures r == buy.(stop := r.stop)
      ensures Wrote(buy, old(rows), rows)
      ensures OnlyOf(buy.id, old(venue.stops), venue.stops)
      ensures released ==> NothingLive(buy.id, venue.stops)
      ensures released && venue.supported ==> r.stop.id.None? && !HasPendingIntent(r)
      ensures Sound(r, venue.stops, venue.next)
      ensures !released ==> InStep(r)
      ensures f == FAULTLESS && NoneEngaged(buy.id, old(venue.stops)) ==> released && InStep(r)
    {
      if !venue.supported { return buy, true; }
      // an open intent may stand for a live stop, which needs its id to be dropped
      r, released := Resolve(buy, f);
      label resolved:
      if released && r.stop.id.Some? {
        r, released := Drop(r, f);
        OnlyOfChains(buy.id, old(venue.stops), old@resolved(venue.stops), venue.stops);
      }
    }

    /** Cancels the stored stop and forgets it. */
    method Drop(buy: Order, f: Faults) returns (r: Order, dropped: bool)
      requires Valid() && InStep(buy) && buy.stop.id.Some? && venue.supported
      modifies this, venue
      ensures Valid() && OnlyOf(buy.id, old(venue.stops), venue.stops)
      ensures r == (if dropped then Disarmed(buy) else buy) && Sound(r, venue.stops, venue.next)
      ensures dropped ==> NothingLive(buy.id, venue.stops)
      ensures rows == if dropped && f.clearSaved then old(rows)[buy.id := r] else old(rows)
      ensures f.cancel.Works? && NoneEngaged(buy.id, old(venue.stops)) ==> dropped
    {
      r := buy;
      dropped := CancelStored(buy, f.cancel);
      if dropped {
        r := Forget(buy, f.clearSaved);
      }
    }

    /** Is the stop selling by now? An answer that fails counts as yes. */
    method StopEngaged(buy: Order, now: int, f: Faults) returns (engaged: bool)
      requires Valid() && InStep(buy)
      modifies this`cache
      ensures Valid()
      ensures buy.stop.id.None? || !venue.supported ==> !engaged && cache == old(cache)
      ensures buy.stop.id.Some? && venue.supported && f.statusWorks && TruthfulLookup(buy.stop.id.value, venue.stops, old(cache), now) ==>
                && (engaged <==> buy.stop.id.value in venue.stops && Engaged(venue.stops[buy.stop.id.value].status))
                && TruthfulLookup(buy.stop.id.value, venue.stops, cache, now)
      // fails closed
      ensures buy.stop.id.Some? && venue.supported && !f.statusWorks && buy.stop.id.value !in old(cache) ==> engaged
    {
      if buy.stop.id.None? || !venue.supported { return false; }
      var status := VenueStatus(buy.stop.id.value, now, f.statusWorks);
      if status.Raised? { return true; }
      engaged := status.value.Some? && Engaged(status.value.value);
    }

    /** Reconciles memory with the venue: a stop that is gone is forgotten, and an unknown
        state ends the pass. */
    method Reconcile(buy: Order, now: int, f: Faults) returns (r: Order, known: bool)
      requires Valid() && InStep(buy) && venue.supported && !HasPendingIntent(buy)
      modifies this`rows, this`cache
      ensures Valid() && (r == buy || r == Disarmed(buy))
      ensures rows == old(rows) || rows == old(rows)[buy.id := r]
      ensures !known ==> r == buy
      ensures r == buy ==> InStep(r)
      ensures r != buy ==> NothingLive(buy.id, venue.stops)
      ensures f == FAULTLESS ==> InStep(r)
      ensures f == FAULTLESS && (buy.stop.id.Some? ==> TruthfulLookup(buy.stop.id.value, venue.stops, old(cache), now)) ==>
                known && (r.stop.id.Some? ==> Live(venue.stops, r.stop.id.value))
    {
      if buy.stop.id.None? { return buy, true; }
      var status := VenueStatus(buy.stop.id.value, now, f.statusWorks);
      if status.Raised? { return buy, false; }
      if !SaysGone(status.value) { return buy, true; }
      assert Tracks(rows[buy.id], venue.stops);
      r := Forget(buy, f.clearSaved);
      known := true;
    }

    /** Records the intent, creates the stop under the key derived from it, records the id. */
    method Arm(buy: Order, quantity: int, level: real, f: Faults) returns (r: Order)
      requires Valid() && buy.id in rows && venue.supported && quantity > 0 && level > 0.0
      requires NothingLive(buy.id, venue.stops)
      modifies this, venue
      ensures Valid()
      ensures r == if f.intentSaved then WithId(Intending(buy, quantity, level), r.stop.id) else buy
      ensures Wrote(buy, old(rows), rows)
      ensures OnlyOf(buy.id, old(venue.stops), venue.stops)
      ensures if f.intentSaved then InStep(r) else rows == old(rows) && venue.stops == old(venue.stops)
      ensures f == FAULTLESS && (venue.freesKeys || !HasGoneKey(old(venue.stops), KeyOf(buy.id, quantity, level))) ==>
                Armed(r, venue.stops, quantity, level, 0.0)
      ensures !venue.freesKeys && HasGoneKey(old(venue.stops), KeyOf(buy.id, quantity, level)) ==> NothingLive(buy.id, venue.stops)
    {
      var intending := Intending(buy, quantity, level);
      var saved := Update(intending, f.intentSaved);
      if !saved { return buy; }
      OthersStayProtected(old(rows), intending, venue.stops, venue.stops, venue.next, venue.next);
      r := Create(intending, f);
    }

    /** The idempotent create behind a persisted intent. */
    method Create(buy: Order, f: Faults) returns (r: Order)
      requires Valid() && InStep(buy) && venue.supported && HasPendingIntent(buy)
      requires NothingLive(buy.id, venue.stops)
      modifies this, venue
      ensures Valid() && InStep(r) && r == WithId(buy, r.stop.id)
      ensures rows == old(rows) || rows == old(rows)[buy.id := r]
      ensures OnlyOf(buy.id, old(venue.stops), venue.stops)
      // nothing older is remembered about the stop it arms
      ensures r != buy ==> r.stop.id.value !in cache
      ensures f == FAULTLESS && (venue.freesKeys || !HasGoneKey(old(venue.stops), KeyOf(buy.id, buy.stop.quantity, buy.stop.price.value))) ==>
                Armed(r, venue.stops, buy.stop.quantity, buy.stop.price.value, 0.0)
      ensures !venue.freesKeys && HasGoneKey(old(venue.stops), KeyOf(buy.id, buy.stop.quantity, buy.stop.price.value)) ==>
                NothingLive(buy.id, venue.stops)
    {
      var key := KeyOf(buy.id, buy.stop.quantity, buy.stop.price.value);
      var id := venue.PlaceProtectiveStop(key, buy.stop.quantity, buy.stop.price.value, f.create);
      assert Tracks(rows[buy.id], venue.stops) && Sound(rows[buy.id], venue.stops, venue.next);
      OthersStayProtected(rows, rows[buy.id], old(venue.stops), venue.stops, old(venue.next), venue.next);
      assert rows[buy.id := rows[buy.id]] == rows;
      if id.Raised? { return buy; }
      Invalidate(id.value);
      var armed := WithId(buy, Some(id.value));
      var saved := Update(armed, f.idSaved);
      if !saved { return buy; }
      OthersStayProtected(old(rows), armed, venue.stops, venue.stops, venue.next, venue.next);
      r := armed;
    }

    /** Re-arming is cancel plus idempotent create. */
    method Replace(buy: Order, quantity: int, level: real, ghost tolerance: real, f: Faults) returns (r: Order)
      requires Valid() && buy.id in rows && venue.supported && !HasPendingIntent(buy) && quantity > 0 && level > 0.0
      requires InStep(buy) || (NothingLive(buy.id, venue.stops) && buy.stop.id.None?)
      requires !MatchesArmedState(buy, quantity, level, tolerance)
      modifies this, venue
      ensures Valid() && (InStep(r) || NothingLive(buy.id, venue.stops))
      ensures r == buy.(stop := r.stop)
      ensures Wrote(buy, old(rows), rows)
      ensures OnlyOf(buy.id, old(venue.stops), venue.stops)
      ensures f == FAULTLESS && NoneEngaged(buy.id, old(venue.stops)) ==> InStep(r)
      ensures f == FAULTLESS && NoneEngaged(buy.id, old(venue.stops))
              && (venue.freesKeys || !HasGoneKey(old(venue.stops), KeyOf(buy.id, quantity, level))) ==>
                Armed(r, venue.stops, quantity, level, 0.0)
      ensures !venue.freesKeys && HasGoneKey(old(venue.stops), KeyOf(buy.id, quantity, level)) && NothingLive(buy.id, old(venue.stops)) ==>
                NothingLive(buy.id, venue.stops)
    {
      r := buy;
      if r.stop.id.Some? {
        KeysDiffer(r, quantity, level, tolerance);
        var cancelled := CancelStored(r, f.cancel);
        if !cancelled { return; }
        Invalidate(r.stop.id.value);
      }
      label disarmed:
      r := Arm(r, quantity, level, f);
      OnlyOfChains(buy.id, old(venue.stops), old@disarmed(venue.stops), venue.stops);
    }

    /** Reconciles, and replaces the armed stop unless it is close enough. */
    method Rearm(buy: Order, quantity: int, level: real, tolerance: real, now: int, f: Faults) returns (r: Order)
      requires Valid() && InStep(buy) && venue.supported && !HasPendingIntent(buy) && quantity > 0 && level > 0.0
      modifies this, venue
      ensures Valid() && (InStep(r) || NothingLive(buy.id, venue.stops))
      ensures r == buy.(stop := r.stop)
      ensures Wrote(buy, old(rows), rows)
      ensures OnlyOf(buy.id, old(venue.stops), venue.stops)
      ensures Calm(buy, old(venue.stops), old(cache), now, f) ==> InStep(r)
      ensures Calm(buy, old(venue.stops), old(cache), now, f) && (venue.freesKeys || !HasGoneKey(old(venue.stops), KeyOf(buy.id, quantity, level))) ==>
                Armed(r, venue.stops, quantity, level, Slack(level, tolerance))
      ensures !venue.freesKeys && HasGoneKey(old(venue.stops), KeyOf(buy.id, quantity, level)) && NothingLive(buy.id, old(venue.stops)) ==>
                NothingLive(buy.id, venue.stops)
    {
      var known;
      r, known := Reconcile(buy, now, f);
      if known && !MatchesArmedState(r, quantity, level, tolerance) {
        r := Replace(r, quantity, level, tolerance, f);
      }
    }

    /** Arms what the ladder enforces, or makes sure that nothing stale is armed. */
    method Protect(buy: Order, quantity: int, scaledOut: bool, tolerance: real, now: int, f: Faults) returns (r: Order)
      requires Valid() && InStep(buy) && venue.supported && !HasPendingIntent(buy)
      modifies this, venue
      ensures Valid() && (InStep(r) || NothingLive(buy.id, venue.stops))
      ensures r == buy.(stop := r.stop)
      ensures Wrote(buy, old(rows), rows)
      ensures OnlyOf(buy.id, old(venue.stops), venue.stops)
      ensures Calm(buy, old(venue.stops), old(cache), now, f) ==>
                InStep(r) && Converged(buy, r, old(venue.stops), venue.stops, venue.freesKeys, quantity, scaledOut, tolerance)
    {
      var level := EffectiveStop(buy, scaledOut);
      if level.None? || level.value <= 0.0 || quantity <= 0 {
        r := buy;
        if buy.stop.id.Some? {
          var released;
          r, released := Release(buy, f);
        }
      } else {
        r := Rearm(buy, quantity, level.value, tolerance, now, f);
      }
    }

    /** Resolving disturbs nothing that a calm pass relies on. */
    method Prepare(buy: Order, ghost now: int, f: Faults) returns (r: Order, ok: bool)
      requires Valid() && InStep(buy) && venue.supported
      modifies this, venue
      ensures Valid() && InStep(r) && r == WithId(buy, r.stop.id) && (ok ==> !HasPendingIntent(r))
      ensures rows == old(rows) || rows == old(rows)[buy.id := r]
      ensures OnlyOf(buy.id, old(venue.stops), venue.stops)
      ensures Calm(buy, old(venue.stops), old(cache), now, f) ==> ok && Calm(r, venue.stops, cache, now, f)
      ensures forall key :: HasGoneKey(venue.stops, key) <==> HasGoneKey(old(venue.stops), key)
      ensures !HasPendingIntent(buy) ==> r == buy && venue.stops == old(venue.stops)
    {
      r, ok := Resolve(buy, f);
      ResolvedGoneKeys(buy, old(venue.stops), venue.stops, old(venue.next));
    }

    /** Arms or re-arms the venue stop of one held position; never raises. */
    method Sync(buy: Order, quantity: int, scaledOut: bool, enabled: bool, tolerance: real, now: int, f: Faults)
      returns (r: Order)
      requires Valid() && InStep(buy)
      modifies this, venue
      ensures Valid() && (InStep(r) || NothingLive(buy.id, venue.stops))
      ensures r == buy.(stop := r.stop)
      ensures Wrote(buy, old(rows), rows)
      ensures OnlyOf(buy.id, old(venue.stops), venue.stops)
      ensures !enabled || !venue.supported ==> r == buy && rows == old(rows) && venue.stops == old(venue.stops)
      ensures enabled && venue.supported && Calm(buy, old(venue.stops), old(cache), now, f) ==>
                InStep(r) && Converged(buy, r, old(venue.stops), venue.stops, venue.freesKeys, quantity, scaledOut, tolerance)
    {
      if !enabled || !venue.supported { return buy; }
      var ok;
      r, ok := Prepare(buy, now, f);
      if ok {
        label resolved:
        r := Protect(r, quantity, scaledOut, tolerance, now, f);
        OnlyOfChains(buy.id, old(venue.stops), old@resolved(venue.stops), venue.stops);
      }
    }

    /** Any run: passes over any positions in any order, each starting from the persisted
        row and meeting any faults (a pass cut short by a dying process is one whose
        next call fails), rows rewritten for other reasons, and a venue that fires, ends
        or expires stops on its own. */
    method Operate(events: seq<Event>)
      requires Valid()
      modifies this, venue
      ensures Valid()
      ensures OneLiveStopEach(rows, venue.stops)
    {
      for i := 0 to |events|
        invariant Valid()
      {
        Handle(events[i]);
      }
      forall b, s, t | b in rows && Live(venue.stops, s) && Live(venue.stops, t)
        && venue.stops[s].key.buyId == b && venue.stops[t].key.buyId == b
        ensures s == t && NamedBy(rows[b], s, venue.stops[s])
      {
        AtMostOneLiveStop(rows, venue.stops, venue.next, b, s, t);
      }
    }

    method Handle(e: Event)
      requires Valid()
      modifies this, venue
      ensures Valid()
    {
      match e
      case SyncPass(b, quantity, scaledOut, enabled, tolerance, now, f) =>
        if b in rows {
          var _ := Sync(rows[b], quantity, scaledOut, enabled, tolerance, now, f);
        }
      case ReleasePass(b, f) =>
        if b in rows {
          var _, _ := Release(rows[b], f);
        }
      case ResolvePass(b, f) =>
        if b in rows {
          var _, _ := Resolve(rows[b], f);
        }
      case StatusPass(b, now, f) =>
        if b in rows {
          var _ := StopEngaged(rows[b], now, f);
        }
      case Rewrite(row) =>
        if row.id in rows && SameStop(row, rows[row.id]) {
          RewriteKeepsProtected(rows, row, venue.stops, venue.next);
          var _ := Update(row, true);
        }
      case NewRow(row) =>
        if row.id !in rows && row.stop == NO_STOP && forall id :: id in venue.stops ==> venue.stops[id].key.buyId != row.id {
          rows := rows[row.id := row];
        }
      case VenueMoves(id, status) =>
        MovesKeepProtected(rows, venue.stops, venue.next);
        venue.Move(id, status);
    }
  }

  datatype Event =
    | SyncPass(buyId: string, quantity: int, scaledOut: bool, enabled: bool, tolerance: real, now: int, faults: Faults)
    | ReleasePass(buyId: string, faults: Faults)
    | ResolvePass(buyId: string, faults: Faults)
    | StatusPass(buyId: string, now: int, faults: Faults)
    | Rewrite(row: Order)
    | NewRow(row: Order)
    | VenueMoves(id: nat, status: StopStatus)

  lemma RewriteKeepsProtected(rows: Book, row: Order, stops: Stops, next: nat)
    requires Protected(rows, stops, next) && row.id in rows && SameStop(row, rows[row.id])
    ensures Protected(rows[row.id := row], stops, next)
  {
    var more := rows[row.id := row];
    forall b, id | b in more && Live(stops, id) && stops[id].key.buyId == b ensures Names(more[b], id, stops[id]) {
      assert Names(rows[b], id, stops[id]);
    }
  }

  /** Whatever the venue does to its stops on its own, the rows keep naming the live ones. */
  lemma MovesKeepProtected(rows: Book, before: Stops, next: nat)
    requires Protected(rows, before, next)
    ensures forall after: Stops :: Succeeds(before, after) && after.Keys == before.Keys ==> Protected(rows, after, next)
  {
    forall after: Stops | Succeeds(before, after) && after.Keys == before.Keys ensures Protected(rows, after, next) {
      forall b, id | b in rows && Live(after, id) && after[id].key.buyId == b ensures Names(rows[b], id, after[id]) {
        assert Names(rows[b], id, before[id]);
      }
    }
  }

  /** What one undisturbed pass achieves: exactly the stop the ladder enforces is armed,
      unless the venue still answers the needed key with a stop that is gone, in which
      case a bare position stays bare; and nothing stays armed when nothing is to protect. */
  ghost predicate Converged(buy: Order, r: Order, before: Stops, after: Stops, freesKeys: bool, quantity: int,
          scaledOut: bool, tolerance: real) {
    var level := EffectiveStop(buy, scaledOut);
    if level.None? || level.value <= 0.0 || quantity <= 0 then NothingLive(buy.id, after)
    else if freesKeys || !HasGoneKey(before, KeyOf(buy.id, quantity, level.value)) then
      Armed(r, after, quantity, level.value, Slack(level.value, tolerance))
    else NothingLive(buy.id, before) && !HasPendingIntent(buy) ==> NothingLive(buy.id, after)
  }

  lemma ResolvedGoneKeys(buy: Order, before: Stops, after: Stops, next: nat)
    requires after == before || (HasPendingIntent(buy) && after == before[next := StopOf(buy)])
    requires next !in before
    ensures forall key :: HasGoneKey(after, key) <==> HasGoneKey(before, key)
  {
    forall key | HasGoneKey(before, key) ensures HasGoneKey(after, key) {
      var id :| id in before && before[id].key == key && Gone(before[id].status);
      assert id in after && after[id] == before[id];
    }
  }

  /** A pass without faults, with a truthful lookup, on a position whose stop has not fired. */
  ghost predicate Calm(buy: Order, stops: Stops, cache: map<nat, Cached>, now: int, f: Faults) {
    f == FAULTLESS && NoneEngaged(buy.id, stops) && (buy.stop.id.Some? ==> TruthfulLookup(buy.stop.id.value, stops, cache, now))
  }

  /** Prices more than the epsilon apart print differently. */
  lemma MicrosDiffer(a: real, b: real)
    requires Abs(a - b) > PRICE_EPSILON
    ensures Micros(a) != Micros(b)
  {
    var x, y := a * 1000000.0 + 0.5, b * 1000000.0 + 0.5;
    assert x - y > 1.0 || y - x > 1.0;
  }

  /** A stop that does not match what is wanted lives under another key. */
  lemma KeysDiffer(row: Order, quantity: int, level: real, tolerance: real)
    requires row.stop.id.Some? && !MatchesArmedState(row, quantity, level, tolerance)
    ensures row.stop.price.Some? ==> KeyOf(row.id, row.stop.quantity, row.stop.price.value) != KeyOf(row.id, quantity, level)
  {
    if row.stop.price.Some? && row.stop.quantity == quantity {
      MicrosDiffer(row.stop.price.value, level);
    }
  }

  /** A lookup now tells the truth: nothing is remembered, or what is remembered still holds. */
  predicate TruthfulLookup(id: nat, stops: Stops, cache: map<nat, Cached>, now: int) {
    || id !in cache || now - cache[id].at >= STATUS_TTL
    || cache[id].status == (if id in stops then Some(stops[id].status) else None)
  }

  /** The row's stop is live, unfired, and sells the quantity within `slack` of the level. */
  predicate Armed(row: Order, stops: Stops, quantity: int, level: real, slack: real) {
    && row.stop.id.Some? && Live(stops, row.stop.id.value)
    && var stop := stops[row.stop.id.value];
    && stop.key.buyId == row.id && stop.status == Watching && stop.quantity == quantity
    && Abs(stop.price - level) <= slack
  }

  lemma OnlyOfChains(buyId: string, a: Stops, b: Stops, c: Stops)
    requires OnlyOf(buyId, a, b) && OnlyOf(buyId, b, c)
    ensures OnlyOf(buyId, a, c)
  {
  }

  /** No stop of the position has fired. */
  ghost predicate NoneEngaged(buyId: string, stops: Stops) {
    forall id :: Live(stops, id) && stops[id].key.buyId == buyId ==> !Engaged(stops[id].status)
  }

  lemma CancelKeepsProtected(rows: Book, row: Order, before: Stops, after: Stops, next: nat)
    requires Protected(rows, before, next) && WellKept(before, next)
    requires row.id in rows && SameStop(row, rows[row.id]) && row.stop.id.Some?
    requires var id := row.stop.id.value;
             after == before || (Live(before, id) && after == before[id := before[id].(status := Canceled)])
    ensures Protected(rows, after, next) && OnlyOf(row.id, before, after)
    ensures !Live(after, row.stop.id.value) ==> NothingLive(row.id, after)
  {
    forall b, id | b in rows && Live(after, id) && after[id].key.buyId == b ensures Names(rows[b], id, after[id]) {
      assert Live(before, id);
      assert Names(rows[b], id, before[id]);
    }
  }
}

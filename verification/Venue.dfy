/** The venue that watches protective stops: creation is idempotent per key while a stop
    is live, cancellation is idempotent, and any call may fail before or after it took effect. */
module Venue {
  import opened Prelude

  datatype StopStatus = Watching | Ordering | Ordered | Completed | Expired | Canceled

  predicate Gone(s: StopStatus) {
    s.Completed? || s.Expired? || s.Canceled?
  }

  predicate Engaged(s: StopStatus) {
    s.Ordering? || s.Ordered?
  }

  /** The idempotency key of one intent: position, quantity, price to six decimals. */
  datatype Key = Key(buyId: string, quantity: int, micros: int)

  datatype Stop = Stop(key: Key, quantity: int, price: real, status: StopStatus)

  type Stops = map<nat, Stop>

  predicate Live(stops: Stops, id: nat) {
    id in stops && !Gone(stops[id].status)
  }

  predicate HasGoneKey(stops: Stops, key: Key) {
    exists id :: id in stops && stops[id].key == key && Gone(stops[id].status)
  }

  datatype Fault = Works | FailsBefore | FailsAfter

  datatype Reply<+T> = Returned(value: T) | Raised

  /** Every id has been issued, and no two live stops share a key. */
  ghost predicate WellKept(stops: Stops, next: nat) {
    && (forall id :: id in stops ==> id < next)
    && forall a, b :: Live(stops, a) && Live(stops, b) && stops[a].key == stops[b].key ==> a == b
  }

  /** A gone stop stays gone; a stop keeps its key, quantity and price; ids are never dropped. */
  ghost predicate Succeeds(before: Stops, after: Stops) {
    forall id :: id in before ==>
      && id in after && after[id] == before[id].(status := after[id].status)
      && (Gone(before[id].status) ==> after[id] == before[id])
  }

  /** Only stops of one position were touched or created. */
  ghost predicate OnlyOf(buyId: string, before: Stops, after: Stops) {
    && Succeeds(before, after)
    && forall id :: id in after && after[id].key.buyId != buyId ==> id in before && after[id] == before[id]
  }

  class Venue {
    /** The broker offers protective stops at all. */
    const supported: bool
    /** The key of a stop that is gone can create a new stop. */
    const freesKeys: bool
    /** A stop that has fired can still be cancelled. */
    const cancelsEngaged: bool
    var stops: Stops
    var next: nat

    ghost predicate Valid()
      reads this
    {
      WellKept(stops, next) && (!supported ==> stops == map[])
    }

    constructor (supported: bool, freesKeys: bool, cancelsEngaged: bool)
      ensures Valid() && stops == map[]
      ensures this.supported == supported && this.freesKeys == freesKeys && this.cancelsEngaged == cancelsEngaged
    {
      this.supported, this.freesKeys, this.cancelsEngaged := supported, freesKeys, cancelsEngaged;
      stops, next := map[], 0;
    }

    method PlaceProtectiveStop(key: Key, quantity: int, price: real, fault: Fault) returns (r: Reply<nat>)
      requires Valid() && supported
      modifies this
      ensures Valid() && old(next) <= next
      ensures stops == old(stops) || stops == old(stops)[old(next) := Stop(key, quantity, price, Watching)]
      ensures stops != old(stops) ==> forall id :: Live(old(stops), id) ==> old(stops)[id].key != key
      ensures r.Returned? ==> r.value in stops && stops[r.value].key == key
      ensures r.Returned? ==> forall id :: Live(stops, id) && stops[id].key == key ==> id == r.value
      ensures quantity > 0 && price > 0.0 && fault.Works? ==> r.Returned?
      ensures r.Returned? && (freesKeys || !HasGoneKey(old(stops), key)) ==> Live(stops, r.value)
      ensures r.Returned? && !Live(stops, r.value) ==> stops == old(stops)
      ensures !freesKeys && HasGoneKey(old(stops), key) ==> stops == old(stops)
    {
      if fault.FailsBefore? || quantity <= 0 || price <= 0.0 { return Raised; }
      var result: nat;
      if id :| id in stops && stops[id].key == key && !Gone(stops[id].status) {
        result := id;
      } else if !freesKeys && exists id :: id in stops && stops[id].key == key {
        var id :| id in stops && stops[id].key == key;
        result := id;
      } else {
        result := next;
        stops := stops[result := Stop(key, quantity, price, Watching)];
        next := next + 1;
      }
      r := if fault.FailsAfter? then Raised else Returned(result);
    }

    method CancelProtectiveStop(id: nat, fault: Fault) returns (r: Reply<()>)
      requires Valid() && supported
      modifies this`stops
      ensures Valid()
      ensures stops == old(stops) || (Live(old(stops), id) && stops == old(stops)[id := old(stops)[id].(status := Canceled)])
      ensures r.Returned? ==> !Live(stops, id)
      ensures fault.Works? && (id in old(stops) ==> !Engaged(old(stops)[id].status)) ==> r.Returned?
    {
      if fault.FailsBefore? { return Raised; }
      if id in stops && !Gone(stops[id].status) {
        if Engaged(stops[id].status) && !cancelsEngaged { return Raised; }
        stops := stops[id := stops[id].(status := Canceled)];
      }
      r := if fault.FailsAfter? then Raised else Returned(());
    }

    method ProtectiveStopStatus(id: nat, works: bool) returns (r: Reply<Option<StopStatus>>)
      requires supported
      ensures r.Returned? <==> works
      ensures r.Returned? ==> (r.value.Some? <==> id in stops) && (r.value.Some? ==> r.value.value == stops[id].status)
      ensures r.Returned? ==> (Live(stops, id) <==> r.value.Some? && !Gone(r.value.value))
    {
      if !works { return Raised; }
      r := Returned(if id in stops then Some(stops[id].status) else None);
    }

    /** The market, the operator or the calendar moves a live stop. */
    method Move(id: nat, status: StopStatus)
      requires Valid()
      modifies this`stops
      ensures Valid() && Succeeds(old(stops), stops) && stops.Keys == old(stops).Keys
    {
      if id in stops && !Gone(stops[id].status) {
        stops := stops[id := stops[id].(status := status)];
      }
    }
  }
}

/** The order queue: each method is one atomic read-modify-write transaction, or one
    transaction of an operation that calls the broker between two of them. */
module ApprovalQueue {
  import opened Prelude
  import opened Orders
  import opened Fills
  import opened Archive
  import Pricing

  datatype Refusal =
    | BadQuantity
    | ProtectedTicker
    | BadPrice
    | MissingLimitPrice
    | SlotTaken(holder: string)
    | NotFound
    | NotPending
    | WrongAccount
    | NothingHeld

  datatype Result<+T> = Success(value: T) | Failure(error: Refusal)

  /** How the broker call of an approval ended. */
  datatype Placement =
    | Accepted(brokerOrderId: string)
    | Declined(brokerOrderId: string)
    | RejectedByBroker
    | OutcomeUnknown

  /** Freshly generated ids collide with no row and no link. */
  predicate Fresh(id: string, orders: seq<Order>) {
    forall o :: o in orders ==> o.id != id && id !in LinkIds(o)
  }

  function Bind(o: Order, scope: Scope): Order {
    o.(brokerName := scope.name, instance := Some(scope.instance), account := Some(scope.account), mode := Some(scope.mode))
  }

  function NewRow(id: string, request: Request, scope: Option<Scope>, stopLoss: Option<real>, target1: Option<real>,
                  target2: Option<real>, now: int): Order {
    var row := Order(id, request, Pending, Some(now), None, None, "unbound", None, None, None, None, 0, None,
                     stopLoss, target1, target2, None, [], None, NO_STOP);
    if scope.Some? then Bind(row, scope.value) else row
  }

  /** The first row with this id is the one every transaction works on. */
  function IndexOf(orders: seq<Order>, id: string): (i: nat)
    ensures i <= |orders|
    ensures i < |orders| ==> orders[i].id == id
    ensures forall j :: 0 <= j < i ==> orders[j].id != id
  {
    if orders == [] || orders[0].id == id then 0 else 1 + IndexOf(orders[1..], id)
  }

  // ---- what each transaction does to the rows ----

  predicate Admits(orders: seq<Order>, request: Request, scope: Option<Scope>) {
    forall o :: o in orders ==> !Refuses(o, request, scope, ById(orders))
  }

  function SubmittingRow(o: Order, scope: Scope, now: int): Order {
    Bind(o, scope).(status := Submitting, submittedAt := Some(now))
  }

  predicate MayApprove(o: Order, scope: Scope) {
    o.status == Pending && (o.instance.Some? ==> BelongsTo(o, scope))
  }

  function PlacedStatus(placement: Placement): Status {
    match placement
    case Accepted(_) => Submitted
    case Declined(_) => Rejected
    case RejectedByBroker => Rejected
    case OutcomeUnknown => Status.Unknown
  }

  function PlacedRow(o: Order, scope: Scope, placement: Placement, now: int): Order {
    Bind(o, scope).(
    status := PlacedStatus(placement), submittedAt := Some(now),
    brokerOrderId := if placement.Accepted? || placement.Declined? then Some(placement.brokerOrderId) else o.brokerOrderId)
  }

  /** The broker's answers of one sync, by row id; a missing answer is a failed query. */
  type Reports = map<string, Fill>

  /** An empty broker order id counts as none. */
  predicate HasBrokerId(o: Order) {
    o.brokerOrderId.Some? && o.brokerOrderId.value != ""
  }

  predicate Syncable(o: Order, scope: Scope) {
    (o.status.Submitted? || o.status.PartiallyFilled?) && BelongsTo(o, scope) && HasBrokerId(o)
  }

  function SyncedRow(o: Order, scope: Scope, reports: Reports, now: int): Order {
    if Syncable(o, scope) && o.id in reports then MergeFill(o, reports[o.id], now) else o
  }

  function Synced(orders: seq<Order>, scope: Scope, reports: Reports, now: int): seq<Order> {
    seq(|orders|, i requires 0 <= i < |orders| => SyncedRow(orders[i], scope, reports, now))
  }

  /** A limit buy that has been at the broker since the cutoff or longer. */
  predicate Stale(o: Order, scope: Scope, cutoff: int) {
    && (o.status.Submitted? || o.status.PartiallyFilled?) && BelongsTo(o, scope)
    && o.request.side == Buy && o.request.isLimit && HasBrokerId(o)
    && (if o.submittedAt.Some? then o.submittedAt.value <= cutoff else o.createdAt.Some? && o.createdAt.value <= cutoff)
  }

  /** Only the unfilled remainder is cancelled; what was filled stays held. */
  function CancelledRow(o: Order, now: int): Order {
    o.(status := if o.filled > 0 then PartiallyFilledCancelled else Cancelled, lastSyncedAt := Some(now))
  }

  /** `accepted` holds the ids whose cancellation the broker accepts. */
  function StaleCancelled(orders: seq<Order>, scope: Scope, cutoff: int, accepted: set<string>,
          now: int): (r: seq<Order>)
    ensures |r| == |orders|
    ensures forall i {:trigger r[i]} :: 0 <= i < |r| ==>
      r[i] == if Stale(orders[i], scope, cutoff) && orders[i].id in accepted then CancelledRow(orders[i], now) else orders[i]
  {
    seq(|orders|, i requires 0 <= i < |orders| =>
      if Stale(orders[i], scope, cutoff) && orders[i].id in accepted then CancelledRow(orders[i], now) else orders[i])
  }

  /** The sweep works on rows it read earlier, and each accepted cancellation is a whole-row
      write of its own on the rows of the moment. */
  function Swept(orders: seq<Order>, snapshot: seq<Order>, scope: Scope, cutoff: int, accepted: set<string>,
          now: int): (r: seq<Order>)
    ensures |r| == |orders|
    ensures forall i {:trigger r[i]} :: 0 <= i < |r| ==> r[i].id == orders[i].id
    decreases |snapshot|
  {
    if snapshot == [] then orders else
      var before, last := Swept(orders, snapshot[..|snapshot| - 1], scope, cutoff, accepted, now), snapshot[|snapshot| - 1];
      if Stale(last, scope, cutoff) && last.id in accepted then Rewrite(before, last.id, _ => CancelledRow(last, now)) else before
  }

  predicate Recoverable(o: Order, scope: Scope) {
    (o.status.Submitting? || o.status.Unknown?) && BelongsTo(o, scope)
  }

  /** A replay that brings no broker order id leaves the one on the row. */
  function RecoveredRow(o: Order, accepted: bool, brokerId: string, now: int): Order {
    o.(status := if accepted then Submitted else Rejected,
       brokerOrderId := if brokerId != "" then Some(brokerId) else o.brokerOrderId,
       lastSyncedAt := Some(now))
  }

  /** Every transaction but enqueueing rewrites at most the first row with the given id. */
  function Rewrite(orders: seq<Order>, id: string, row: Order -> Order): seq<Order> {
    var i := IndexOf(orders, id);
    if i < |orders| then orders[i := row(orders[i])] else orders
  }

  function SyntheticSell(id: string, buy: Order, quantity: nat, now: int): Order {
    Order(id, Request(buy.request.ticker, buy.request.market, Sell, quantity, None, false), Filled, Some(now), Some(now), Some(now),
          if buy.instance.Some? then buy.brokerName else "external", buy.instance, buy.account, buy.mode, Some("EXTERNAL"),
          quantity, None, None, None, None, None, [], None, NO_STOP)
  }

  lemma {:induction false} IndexOfIsFirst(orders: seq<Order>, id: string, i: nat)
    requires i <= |orders| && (i < |orders| ==> orders[i].id == id)
    requires forall j :: 0 <= j < i ==> orders[j].id != id
    ensures IndexOf(orders, id) == i
  {
    if i > 0 {
      IndexOfIsFirst(orders[1..], id, i - 1);
    }
  }

  lemma SameIndex(a: seq<Order>, b: seq<Order>, id: string)
    requires |a| == |b| && forall i :: 0 <= i < |a| ==> a[i].id == b[i].id
    ensures IndexOf(a, id) == IndexOf(b, id)
  {
    var i := IndexOf(a, id);
    if i < |a| {
      IndexOfIsFirst(b, id, i);
    }
  }

  /** Where the sweep writes: a row of the moment is replaced by the cancelled form of the row
      that was read under its id, and by nothing else. */
  lemma {:induction false} SweptRow(orders: seq<Order>, snapshot: seq<Order>, scope: Scope, cutoff: int, accepted: set<string>,
          now: int, i: nat, k: nat)
    requires DistinctIds(snapshot) && k <= |snapshot| && i < |orders| && IndexOf(orders, orders[i].id) == i
    requires forall j :: 0 <= j < |snapshot| ==> (snapshot[j].id == orders[i].id <==> j == k)
    ensures Swept(orders, snapshot, scope, cutoff, accepted, now)[i] ==
            if k < |snapshot| && Stale(snapshot[k], scope, cutoff) && snapshot[k].id in accepted then CancelledRow(snapshot[k], now)
            else orders[i]
  {
    if snapshot != [] {
      var n := |snapshot| - 1;
      var rest, last := snapshot[..n], snapshot[n];
      SweptRow(orders, rest, scope, cutoff, accepted, now, i, MinInt(k, n));
      var before := Swept(orders, rest, scope, cutoff, accepted, now);
      SameIndex(before, orders, last.id);
    }
  }

  /** If nobody wrote since the rows were read, the sweep cancels each stale row in place. */
  lemma UndisturbedSweep(orders: seq<Order>, scope: Scope, cutoff: int, accepted: set<string>, now: int)
    requires DistinctIds(orders)
    ensures Swept(orders, orders, scope, cutoff, accepted, now) == StaleCancelled(orders, scope, cutoff, accepted, now)
  {
    forall i | 0 <= i < |orders|
      ensures Swept(orders, orders, scope, cutoff, accepted, now)[i] == StaleCancelled(orders, scope, cutoff, accepted, now)[i]
    {
      forall j | 0 <= j < |orders| ensures orders[j].id == orders[i].id <==> j == i {
        assert j < i ==> orders[j].id != orders[i].id;
      }
      IndexOfIsFirst(orders, orders[i].id, i);
      SweptRow(orders, orders, scope, cutoff, accepted, now, i, i);
    }
  }

  function Normalized(request: Request, rounding: Option<string>): Option<Request> {
    if rounding.Some? then Pricing.NormalizeOrder(request, rounding.value) else Some(request)
  }

  /** Rounding the price does not move a request to another slot. */
  lemma SlotOfNormalized(orders: seq<Order>, request: Request, rounding: Option<string>, scope: Option<Scope>)
    requires Normalized(request, rounding).Some?
    ensures forall o, book :: Refuses(o, Normalized(request, rounding).value, scope, book) <==> Refuses(o, request, scope, book)
    ensures Admits(orders, Normalized(request, rounding).value, scope) <==> Admits(orders, request, scope)
  {
    var normalized := Normalized(request, rounding).value;
    assert SameSlot(normalized, request) && normalized.isLimit == request.isLimit;
    forall o | o in orders ensures Refuses(o, normalized, scope, ById(orders)) <==> Refuses(o, request, scope, ById(orders)) {
    }
  }

  /** What an approval leaves behind: only a definite rejection frees the slot, and only an
      ambiguous outcome is left for recovery. An accepted order is synced if the broker named it. */
  lemma OutcomeOfApproval(o: Order, scope: Scope, placement: Placement, now: int, book: Book)
    ensures var placed := PlacedRow(o, scope, placement, now);
            && BelongsTo(placed, scope)
            && (Blocking(placed, book) <==> placement.Accepted? || placement.OutcomeUnknown?)
            && (Recoverable(placed, scope) <==> placement.OutcomeUnknown?)
            && (Syncable(placed, scope) <==> placement.Accepted? && placement.brokerOrderId != "")
  {
  }

  class ApprovalQueue {
    const protectedTickers: set<string>
    var orders: seq<Order>
    /** This month's archive file. */
    var archived: seq<Order>

    constructor (protectedTickers: set<string>)
      ensures orders == [] && archived == []
      ensures this.protectedTickers == set t | t in protectedTickers :: Upper(t)
    {
      this.protectedTickers := set t | t in protectedTickers :: Upper(t);
      orders, archived := [], [];
    }

    /** `rounding` is the ticker's security type if the order is bound to a broker that rounds prices. */
    method Enqueue(id: string, request: Request, scope: Option<Scope>, rounding: Option<string>,
                   stopLoss: Option<real>, target1: Option<real>, target2: Option<real>, now: int)
      returns (r: Result<Order>)
      requires Fresh(id, orders) && (rounding.Some? ==> scope.Some?)
      modifies this`orders
      ensures r.Success? <==>
              && request.quantity > 0 && Upper(request.ticker) !in protectedTickers && Normalized(request, rounding).Some?
              && !(request.isLimit && request.limitPrice.None?) && Admits(old(orders), request, scope)
      ensures r.Success? ==>
                && r.value == NewRow(id, Normalized(request, rounding).value, scope, stopLoss, target1, target2, now)
                && orders == old(orders) + [r.value]
      ensures r.Failure? ==> orders == old(orders)
      ensures request.quantity <= 0 ==> r == Failure(BadQuantity)
      ensures request.quantity > 0 && Upper(request.ticker) in protectedTickers ==> r == Failure(ProtectedTicker)
      ensures request.quantity > 0 && Upper(request.ticker) !in protectedTickers ==>
                && (Normalized(request, rounding).None? ==> r == Failure(BadPrice))
                && (request.isLimit && request.limitPrice.None? ==> r == Failure(MissingLimitPrice))
      ensures r.Failure? ==> !r.error.NotFound? && !r.error.NotPending? && !r.error.WrongAccount? && !r.error.NothingHeld?
      ensures r.Failure? && r.error.SlotTaken? ==>
              exists o :: o in orders && o.id == r.error.holder && Refuses(o, request, scope, ById(orders))
    {
      if request.quantity <= 0 { return Failure(BadQuantity); }
      if Upper(request.ticker) in protectedTickers { return Failure(ProtectedTicker); }
      var normalized := Normalized(request, rounding);
      if normalized.None? { return Failure(BadPrice); }
      if normalized.value.isLimit && normalized.value.limitPrice.None? { return Failure(MissingLimitPrice); }
      SlotOfNormalized(orders, request, rounding, scope);
      var taken := Occupant(normalized.value, scope);
      if taken.Some? { return Failure(SlotTaken(taken.value.id)); }
      var row := NewRow(id, normalized.value, scope, stopLoss, target1, target2, now);
      orders := orders + [row];
      r := Success(row);
    }

    /** The duplicate check: the first row that refuses the request. */
    method Occupant(request: Request, scope: Option<Scope>) returns (taken: Option<Order>)
      ensures taken.Some? ==> taken.value in orders && Refuses(taken.value, request, scope, ById(orders))
      ensures taken.None? ==> Admits(orders, request, scope)
    {
      var book := ById(orders);
      for i := 0 to |orders|
        invariant forall k :: 0 <= k < i ==> !Refuses(orders[k], request, scope, book)
      {
        var o := orders[i];
        if o.request.ticker != request.ticker { continue; }
        if o.request.market != request.market { continue; }
        if o.request.side != request.side { continue; }
        if !OverlapsScope(o, scope) { continue; }
        if Working(o.status) { return Some(o); }
        if Held(o.status) && request.side == Buy {
          var remaining := ConfirmedRemainingQuantity(o, book);
          if remaining > 0 || HasWorkingSell(o, book) { return Some(o); }
        }
      }
      taken := None;
    }

    /** First transaction of an approval; the broker call follows it. */
    method BeginApprove(id: string, scope: Scope, now: int) returns (r: Result<Order>)
      modifies this`orders
      ensures var i := IndexOf(old(orders), id);
              && (r.Success? <==> i < |old(orders)| && MayApprove(old(orders)[i], scope))
              && (r.Success? ==> r.value == SubmittingRow(old(orders)[i], scope, now) && orders == old(orders)[i := r.value])
              && (r.Failure? ==> orders == old(orders))
              && (r == Failure(NotFound) <==> i == |old(orders)|)
              && (i < |old(orders)| && old(orders)[i].status != Pending ==> r == Failure(NotPending))
              && (r.Failure? ==> r.error.NotFound? || r.error.NotPending? || r.error.WrongAccount?)
    {
      var i := Find(id);
      if i == |orders| { return Failure(NotFound); }
      var target := orders[i];
      if target.status != Pending { return Failure(NotPending); }
      if target.instance.Some? && !BelongsTo(target, scope) { return Failure(WrongAccount); }
      target := SubmittingRow(target, scope, now);
      orders := orders[i := target];
      r := Success(target);
    }

    /** Last transaction of an approval: it looks at the id only, not at the row's status. */
    method FinishApprove(id: string, scope: Scope, placement: Placement, now: int) returns (r: Result<Order>)
      modifies this`orders
      ensures orders == Rewrite(old(orders), id, o => PlacedRow(o, scope, placement, now))
      ensures r.Success? <==> IndexOf(old(orders), id) < |old(orders)|
      ensures r.Success? ==> r.value in orders && r.value.id == id
    {
      var i := Find(id);
      if i == |orders| { return Failure(NotFound); }
      var row := PlacedRow(orders[i], scope, placement, now);
      orders := orders[i := row];
      assert orders[i] == row;
      r := Success(row);
    }

    method SyncWithBroker(scope: Scope, reports: Reports, now: int) returns (changed: seq<Order>)
      modifies this`orders
      ensures orders == Synced(old(orders), scope, reports, now)
      ensures forall o :: o in changed <==> exists i ::
        && 0 <= i < |orders| && orders[i] == o
        && (o.status != old(orders)[i].status || o.filled != old(orders)[i].filled || o.avgFill != old(orders)[i].avgFill)
    {
      changed := [];
      ghost var before := orders;
      for i := 0 to |orders|
        invariant |orders| == |before|
        invariant forall k :: 0 <= k < i ==> orders[k] == SyncedRow(before[k], scope, reports, now)
        invariant forall k :: i <= k < |orders| ==> orders[k] == before[k]
        invariant forall o :: o in changed <==> exists k ::
          && 0 <= k < i && orders[k] == o
          && (o.status != before[k].status || o.filled != before[k].filled || o.avgFill != before[k].avgFill)
      {
        var o := orders[i];
        if !(o.status.Submitted? || o.status.PartiallyFilled?) { continue; }
        if !BelongsTo(o, scope) { continue; }
        if !HasBrokerId(o) { continue; }
        if o.id !in reports { continue; }
        var updated := MergeFill(o, reports[o.id], now);
        if updated.status != o.status || updated.filled != o.filled || updated.avgFill != o.avgFill {
          changed := changed + [updated];
        }
        orders := orders[i := updated];
      }
    }

    /** Walks the rows read at its start; others may have written the queue since. A row that
        is gone by now is cancelled at the broker, but not recorded. */
    method CancelStaleOrders(snapshot: seq<Order>, scope: Scope, maxAgeMinutes: int, cutoff: int, accepted: set<string>, now: int)
      returns (cancelled: seq<Order>)
      modifies this`orders
      ensures orders == if maxAgeMinutes <= 0 then old(orders) else Swept(old(orders), snapshot, scope, cutoff, accepted, now)
      ensures forall o :: o in cancelled <==> maxAgeMinutes > 0 && exists p ::
        && p in snapshot && Stale(p, scope, cutoff) && p.id in accepted && o == CancelledRow(p, now)
        && IndexOf(old(orders), p.id) < |old(orders)|
    {
      cancelled := [];
      if maxAgeMinutes <= 0 { return; }
      for i := 0 to |snapshot|
        invariant orders == Swept(old(orders), snapshot[..i], scope, cutoff, accepted, now)
        invariant forall o :: o in cancelled <==> exists k ::
          && 0 <= k < i && Stale(snapshot[k], scope, cutoff) && snapshot[k].id in accepted && o == CancelledRow(snapshot[k], now)
          && IndexOf(old(orders), snapshot[k].id) < |old(orders)|
      {
        var o := snapshot[i];
        assert snapshot[..i + 1][..i] == snapshot[..i];
        if !Stale(o, scope, cutoff) || o.id !in accepted { continue; }
        SameIndex(orders, old(orders), o.id);
        ghost var i0 := IndexOf(orders, o.id);
        assert i0 < |orders| ==> orders[i0] in orders;
        var found := Update(CancelledRow(o, now));
        if found { cancelled := cancelled + [CancelledRow(o, now)]; }
      }
      assert snapshot[..|snapshot|] == snapshot;
    }

    /** The transaction that records one replayed submission. */
    method RecordRecovery(id: string, scope: Scope, accepted: bool, brokerId: string, now: int)
      returns (updated: Option<Order>)
      modifies this`orders
      ensures var i := IndexOf(old(orders), id);
              if i < |old(orders)| && Recoverable(old(orders)[i], scope) then
                && updated == Some(RecoveredRow(old(orders)[i], accepted, brokerId, now))
                && orders == old(orders)[i := updated.value]
              else updated == None && orders == old(orders)
    {
      var i := Find(id);
      if i == |orders| || !(orders[i].status.Submitting? || orders[i].status.Unknown?) || !BelongsTo(orders[i], scope) { return None; }
      var row := RecoveredRow(orders[i], accepted, brokerId, now);
      orders := orders[i := row];
      updated := Some(row);
    }

    method Update(row: Order) returns (found: bool)
      modifies this`orders
      ensures found <==> exists o :: o in old(orders) && o.id == row.id
      ensures orders == Rewrite(old(orders), row.id, _ => row)
    {
      var i := Find(row.id);
      found := i < |orders|;
      if found {
        assert orders[i] in orders;
        orders := orders[i := row];
      }
    }

    method MarkExternallyClosed(buyId: string, syntheticId: string, scope: Option<Scope>, now: int)
      returns (r: Result<Order>)
      requires Fresh(syntheticId, orders)
      modifies this`orders
      ensures var i := IndexOf(old(orders), buyId);
              && (r.Success? <==>
                  && i < |old(orders)| && (scope.Some? ==> BelongsTo(old(orders)[i], scope.value))
                  && Confirmed(old(orders)[i], ById(old(orders))) > 0)
              && (r.Success? ==>
                  && r.value == SyntheticSell(syntheticId, old(orders)[i], Confirmed(old(orders)[i], ById(old(orders))), now)
                  && orders == old(orders)[i := old(orders)[i].(exitId := Some(syntheticId))] + [r.value])
              && (r.Failure? ==> orders == old(orders))
    {
      var i := Find(buyId);
      if i == |orders| { return Failure(NotFound); }
      var target := orders[i];
      if scope.Some? && !BelongsTo(target, scope.value) { return Failure(WrongAccount); }
      var quantity := ConfirmedRemainingQuantity(target, ById(orders));
      if quantity <= 0 { return Failure(NothingHeld); }
      var synthetic := SyntheticSell(syntheticId, target, quantity, now);
      orders := orders[i := target.(exitId := Some(syntheticId))];
      orders := orders + [synthetic];
      r := Success(synthetic);
    }

    method Find(id: string) returns (i: nat)
      ensures i == IndexOf(orders, id)
    {
      i := 0;
      while i < |orders| && orders[i].id != id
        invariant 0 <= i <= |orders|
        invariant IndexOf(orders, id) == i + IndexOf(orders[i..], id)
      {
        assert orders[i..][1..] == orders[i + 1..];
        i := i + 1;
      }
    }

    /** Moves settled groups to the archive file: the file is written first, the queue
        last, so `crash` between the two leaves the queue as it was. */
    method ArchiveClosedOrders(cutoff: int, crash: bool) returns (moved: nat)
      modifies this
      ensures archived == old(archived) + NewlyArchived(old(orders), old(archived), cutoff)
      ensures orders == if crash then old(orders) else Kept(old(orders), cutoff)
      ensures !crash ==> moved == |old(orders)| - |orders|
    {
      ArchiveAccounting(orders, ArchiveIds(orders, cutoff));
      var ids := CollectArchiveIds(orders, cutoff);
      if ids == {} {
        KeepAll(orders);
        SelectNone(orders);
        return 0;
      }
      var gone := Selected(orders, ids);
      archived := archived + NotYetArchived(gone, archived);
      moved := |gone|;
      if !crash {
        orders := Unselected(orders, ids);
      }
    }
  }
}

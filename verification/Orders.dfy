/** Order rows, account scopes, and the two separately written computations of the
    shares a buy still holds: one guards entries, the other drives exits. */
module Orders {
  import opened Prelude

  datatype Market = KR | US

  datatype Side = Buy | Sell

  datatype Status =
    | Pending
    | Submitting
    | Unknown
    | Submitted
    | PartiallyFilled
    | PartiallyFilledCancelled
    | Filled
    | Rejected
    | Cancelled

  /** One concrete broker account. */
  datatype Scope = Scope(name: string, instance: string, account: string, mode: string)

  datatype Request = Request(ticker: string, market: Market, side: Side, quantity: int, limitPrice: Option<real>, isLimit: bool)

  /** What a row remembers about its venue stop: the id, and the price and quantity that
      are armed or intended. */
  datatype StopState = StopState(id: Option<nat>, price: Option<real>, quantity: int)

  const NO_STOP := StopState(None, None, 0)

  /** One row of the queue file. Timestamps are seconds. */
  datatype Order = Order(
    id: string,
    request: Request,
    status: Status,
    createdAt: Option<int>,
    submittedAt: Option<int>,
    lastSyncedAt: Option<int>,
    brokerName: string,
    instance: Option<string>,
    account: Option<string>,
    mode: Option<string>,
    brokerOrderId: Option<string>,
    filled: nat,
    avgFill: Option<real>,
    stopLoss: Option<real>,
    target1: Option<real>,
    target2: Option<real>,
    exitId: Option<string>,
    partialIds: seq<string>,
    trail: Option<real>,
    stop: StopState
  )

  type Book = map<string, Order>

  /** Accepted but not done: such a sell may still take shares. */
  predicate Working(s: Status) {
    s.Pending? || s.Submitting? || s.Unknown? || s.Submitted? || s.PartiallyFilled?
  }

  predicate Held(s: Status) {
    s.Filled? || s.PartiallyFilled? || s.PartiallyFilledCancelled?
  }

  predicate Dead(s: Status) {
    s.Cancelled? || s.Rejected?
  }

  predicate BelongsTo(o: Order, scope: Scope) {
    && o.instance.Some?
    && o.brokerName == scope.name
    && o.instance.value == scope.instance
    && (o.account.Some? ==> o.account.value == scope.account)
    && (o.mode.Some? ==> o.mode.value == scope.mode)
  }

  /** A row without an account binding counts for every scope. */
  predicate OverlapsScope(o: Order, scope: Option<Scope>) {
    scope.None? || o.instance.None? || o.instance.value == scope.value.instance
  }

  /** The dictionary the code builds from a list of rows; a later row wins. */
  function ById(orders: seq<Order>): (book: Book)
    ensures forall id :: id in book ==> book[id] in orders && book[id].id == id
    ensures forall o :: o in orders ==> o.id in book
  {
    if orders == [] then map[] else
      var last := orders[|orders| - 1];
      ById(orders[..|orders| - 1])[last.id := last]
  }

  ghost predicate DistinctIds(orders: seq<Order>) {
    forall i, j :: 0 <= i < j < |orders| ==> orders[i].id != orders[j].id
  }

  lemma {:induction false} ByIdFinds(orders: seq<Order>, i: nat)
    requires DistinctIds(orders) && i < |orders|
    ensures orders[i].id in ById(orders) && ById(orders)[orders[i].id] == orders[i]
  {
    var book := ById(orders);
    assert orders[i] in orders;
    var o := book[orders[i].id];
    var j :| 0 <= j < |orders| && orders[j] == o;
    if j < i {
      assert orders[j].id != orders[i].id;
    } else if i < j {
      assert orders[i].id != orders[j].id;
    }
  }

  // ---- linked sells ----

  function LinkIds(buy: Order): seq<string> {
    buy.partialIds + if buy.exitId.Some? then [buy.exitId.value] else []
  }

  ghost predicate Distinct(ids: seq<string>) {
    forall i, j :: 0 <= i < j < |ids| ==> ids[i] != ids[j]
  }

  /** What the exit side subtracts for one linked sell. */
  function CountedFill(sell: Order): int {
    match sell.status
    case Filled => if sell.filled == 0 then sell.request.quantity else sell.filled
    case PartiallyFilledCancelled => sell.filled
    case Cancelled => 0
    case Rejected => 0
    case _ => sell.filled
  }

  /** What the entry guard subtracts for one linked sell. */
  function ConfirmedFill(sell: Order): int {
    if sell.status == Filled && sell.filled == 0 then sell.request.quantity else sell.filled
  }

  function Amount(id: string, book: Book, amount: Order -> int): int {
    if id in book then amount(book[id]) else 0
  }

  function Total(ids: seq<string>, book: Book, amount: Order -> int): int {
    if ids == [] then 0
    else Total(ids[..|ids| - 1], book, amount) + Amount(ids[|ids| - 1], book, amount)
  }

  /** First occurrences, in order. */
  function Dedup(ids: seq<string>): seq<string> {
    if ids == [] then [] else
      var rest, last := ids[..|ids| - 1], ids[|ids| - 1];
      if last in rest then Dedup(rest) else Dedup(rest) + [last]
  }

  predicate HasWorkingSell(buy: Order, book: Book) {
    exists id :: id in LinkIds(buy) && id in book && Working(book[id].status)
  }

  /** Shares held before clipping at zero, as the exit side counts them. */
  function RawRemaining(buy: Order, book: Book): int {
    buy.filled - Total(LinkIds(buy), book, CountedFill)
  }

  /** Shares held before clipping at zero, as the entry guard counts them. */
  function RawConfirmed(buy: Order, book: Book): int {
    buy.filled - Total(Dedup(LinkIds(buy)), book, ConfirmedFill)
  }

  function Remaining(buy: Order, book: Book): int {
    MaxInt(RawRemaining(buy, book), 0)
  }

  function Confirmed(buy: Order, book: Book): int {
    MaxInt(RawConfirmed(buy, book), 0)
  }

  /** The exit side's loop over linked sells. */
  method RemainingQuantity(buy: Order, book: Book) returns (remaining: int, inflight: bool)
    ensures remaining == Remaining(buy, book)
    ensures inflight <==> HasWorkingSell(buy, book)
  {
    remaining, inflight := buy.filled, false;
    var ids := LinkIds(buy);
    for i := 0 to |ids|
      invariant remaining == buy.filled - Total(ids[..i], book, CountedFill)
      invariant inflight <==> exists id :: id in ids[..i] && id in book && Working(book[id].status)
    {
      assert ids[..i + 1][..i] == ids[..i];
      assert forall id :: id in ids[..i + 1] <==> id in ids[..i] || id == ids[i];
      if ids[i] in book {
        var sell := book[ids[i]];
        if sell.status == Filled {
          remaining := remaining - if sell.filled == 0 then sell.request.quantity else sell.filled;
        } else if sell.status == PartiallyFilledCancelled {
          remaining := remaining - sell.filled;
        } else if Working(sell.status) {
          inflight := true;
          remaining := remaining - sell.filled;
        }
      }
    }
    assert ids[..|ids|] == ids;
    remaining := MaxInt(remaining, 0);
  }

  lemma TotalOfDedupStep(ids: seq<string>, i: nat, book: Book)
    requires i < |ids|
    ensures Total(Dedup(ids[..i + 1]), book, ConfirmedFill) ==
            Total(Dedup(ids[..i]), book, ConfirmedFill) + if ids[i] in ids[..i] then 0 else Amount(ids[i], book, ConfirmedFill)
  {
    assert ids[..i + 1][..i] == ids[..i];
    if ids[i] !in ids[..i] {
      var before := Dedup(ids[..i]);
      assert (before + [ids[i]])[..|before|] == before;
    }
  }

  /** The entry guard's loop over linked sells, which skips repeated ids. */
  method ConfirmedRemainingQuantity(buy: Order, book: Book) returns (remaining: int)
    ensures remaining == Confirmed(buy, book)
  {
    remaining := buy.filled;
    var seen: set<string> := {};
    var ids := LinkIds(buy);
    for i := 0 to |ids|
      invariant forall id :: id in seen <==> id in ids[..i]
      invariant remaining == buy.filled - Total(Dedup(ids[..i]), book, ConfirmedFill)
    {
      var id := ids[i];
      TotalOfDedupStep(ids, i, book);
      assert ids[..i + 1] == ids[..i] + [id];
      if id in seen { continue; }
      seen := seen + {id};
      var taken := 0;
      if id in book {
        taken := book[id].filled;
        if book[id].status == Filled && taken <= 0 {
          taken := book[id].request.quantity;
        }
      }
      assert taken == Amount(id, book, ConfirmedFill);
      remaining := remaining - taken;
    }
    assert ids[..|ids|] == ids;
    remaining := MaxInt(remaining, 0);
  }

  // ---- the two computations agree exactly when dead sells carry no fill ----

  predicate DeadSellsCarryNoFill(ids: seq<string>, book: Book) {
    forall id :: id in ids && id in book && Dead(book[id].status) ==> book[id].filled == 0
  }

  lemma {:induction false} DedupOfDistinct(ids: seq<string>)
    requires Distinct(ids)
    ensures Dedup(ids) == ids
  {
    if ids != [] {
      var rest := ids[..|ids| - 1];
      DedupOfDistinct(rest);
      assert ids == rest + [ids[|ids| - 1]];
    }
  }

  lemma {:induction false} TotalsDiffer(ids: seq<string>, book: Book)
    ensures Total(ids, book, CountedFill) <= Total(ids, book, ConfirmedFill)
    ensures Total(ids, book, CountedFill) == Total(ids, book, ConfirmedFill) <==> DeadSellsCarryNoFill(ids, book)
  {
    if ids != [] {
      var rest, last := ids[..|ids| - 1], ids[|ids| - 1];
      TotalsDiffer(rest, book);
      assert forall id :: id in ids <==> id in rest || id == last;
    }
  }

  /** The exit side and the entry guard see the same position exactly when no
      cancelled or rejected linked sell carries a fill; otherwise the exit side
      believes it holds shares that the guard knows are sold. */
  lemma ComputationsAgreeIff(buy: Order, book: Book)
    requires Distinct(LinkIds(buy))
    ensures RawConfirmed(buy, book) <= RawRemaining(buy, book)
    ensures RawConfirmed(buy, book) == RawRemaining(buy, book) <==> DeadSellsCarryNoFill(LinkIds(buy), book)
    ensures DeadSellsCarryNoFill(LinkIds(buy), book) ==> Confirmed(buy, book) == Remaining(buy, book)
  {
    DedupOfDistinct(LinkIds(buy));
    TotalsDiffer(LinkIds(buy), book);
  }

  // ---- a held buy blocks re-entry ----

  /** The row keeps its (ticker, market, side, account) slot occupied. */
  predicate Blocking(o: Order, book: Book) {
    || Working(o.status)
    || (Held(o.status) && o.request.side == Buy && (Confirmed(o, book) > 0 || HasWorkingSell(o, book)))
  }

  predicate SameSlot(a: Request, b: Request) {
    a.ticker == b.ticker && a.market == b.market && a.side == b.side
  }

  /** The rows that make `enqueue` refuse a request. */
  predicate Refuses(o: Order, request: Request, scope: Option<Scope>, book: Book) {
    SameSlot(o.request, request) && OverlapsScope(o, scope) && Blocking(o, book)
  }

  /** The rows `find_held_buy` may return. */
  predicate HeldFor(o: Order, market: Market, ticker: string, scope: Option<Scope>, book: Book) {
    && o.request.side == Buy
    && (scope.Some? ==> BelongsTo(o, scope.value))
    && o.request.market == market && o.request.ticker == ticker
    && (|| (o.status.Pending? || o.status.Submitting? || o.status.Unknown? || o.status.Submitted?)
        || (Held(o.status) && o.filled > 0 && (Remaining(o, book) > 0 || HasWorkingSell(o, book))))
  }

  method FindHeldBuy(orders: seq<Order>, market: Market, ticker: string, scope: Option<Scope>)
    returns (held: Option<Order>)
    // the first such row
    ensures held.Some? ==> exists i ::
      && 0 <= i < |orders| && orders[i] == held.value && HeldFor(orders[i], market, ticker, scope, ById(orders))
      && forall k :: 0 <= k < i ==> !HeldFor(orders[k], market, ticker, scope, ById(orders))
    ensures held.None? ==> forall o :: o in orders ==> !HeldFor(o, market, ticker, scope, ById(orders))
  {
    var book := ById(orders);
    for i := 0 to |orders|
      invariant forall k :: 0 <= k < i ==> !HeldFor(orders[k], market, ticker, scope, book)
    {
      var buy := orders[i];
      if buy.request.side != Buy { continue; }
      if scope.Some? && !BelongsTo(buy, scope.value) { continue; }
      if buy.request.market != market || buy.request.ticker != ticker { continue; }
      if (buy.status.Pending? || buy.status.Submitting? || buy.status.Unknown? || buy.status.Submitted?) { return Some(buy); }
      if !Held(buy.status) || buy.filled <= 0 { continue; }
      var remaining, inflight := RemainingQuantity(buy, book);
      if remaining > 0 || inflight { return Some(buy); }
    }
    held := None;
  }

  /** Whatever `find_held_buy` returns for an account, `enqueue` refuses a second buy there. */
  lemma HeldBuyRefusesEntry(buy: Order, request: Request, scope: Scope, book: Book)
    requires HeldFor(buy, request.market, request.ticker, Some(scope), book) && request.side == Buy
    requires Distinct(LinkIds(buy)) && DeadSellsCarryNoFill(LinkIds(buy), book)
    ensures Refuses(buy, request, Some(scope), book)
  {
    ComputationsAgreeIff(buy, book);
  }

  function Blank(id: string, side: Side, quantity: int): Order {
    Order(id, Request("NVDA", US, side, quantity, None, false), Pending, Some(0), None, None, "mock", Some("mock:1"), Some("a"), Some("m"),
          None, 0, None, None, None, None, None, [], None, NO_STOP)
  }

  lemma TotalOfOne(id: string, book: Book, amount: Order -> int)
    ensures Total([id], book, amount) == Amount(id, book, amount)
  {
    assert [id][..0] == [];
  }

  /** A position whose only exit is this sell. */
  lemma OneExitView(buy: Order, book: Book, id: string)
    requires LinkIds(buy) == [id] && id in book
    ensures RawRemaining(buy, book) == buy.filled - CountedFill(book[id])
    ensures HasWorkingSell(buy, book) <==> Working(book[id].status)
  {
    TotalOfOne(id, book, CountedFill);
    assert id in [id];
  }

  lemma OneExitConfirmed(buy: Order, book: Book, id: string)
    requires LinkIds(buy) == [id] && id in book
    ensures RawConfirmed(buy, book) == buy.filled - ConfirmedFill(book[id])
  {
    DedupOfDistinct([id]);
    TotalOfOne(id, book, ConfirmedFill);
  }

  /** The two views split on every filled buy whose exit was cancelled after a part of it
      was confirmed: the exit side still counts every share, the entry guard only the
      rest, and once all shares are confirmed sold a second buy is admitted for a
      ticker that `find_held_buy` still reports as held. */
  lemma CancelledFillSplitsTheViews(buy: Order, book: Book, id: string, scope: Scope)
    requires buy.request.side == Buy && buy.status == Filled && buy.filled > 0 && BelongsTo(buy, scope)
    requires LinkIds(buy) == [id] && id in book && book[id].status == Cancelled
    ensures Remaining(buy, book) == buy.filled
    ensures Confirmed(buy, book) == MaxInt(buy.filled - book[id].filled, 0)
    ensures HeldFor(buy, buy.request.market, buy.request.ticker, Some(scope), book)
    ensures Refuses(buy, buy.request, Some(scope), book) <==> book[id].filled < buy.filled
  {
    OneExitView(buy, book, id);
    OneExitConfirmed(buy, book, id);
  }
}

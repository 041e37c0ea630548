/** Shares bought, held and sold. Entries, exits, forced exits, external closes, approvals,
    fills, recoveries and cancellations act on a book of orders; a history remembers every
    sell that was ever placed for a buy, also after its link was replaced or never saved. */
module Conservation {
  import opened Prelude
  import opened Orders
  import opened Fills
  import opened ApprovalQueue
  import Runs

  datatype Ledger = Ledger(book: Book, history: map<string, seq<string>>)

  /** An exit is enqueued, linked unless that write is lost, and approved unless the approval
      is refused before the broker is called. */
  datatype Step =
    | NewBuy(buy: Order)
    | SubmitExit(buyId: string, sellId: string, quantity: int, scaleOut: bool, linkSaved: bool, outcome: Option<Placement>)
    | CloseExternally(buyId: string, sellId: string)
    | Progress(row: Order)

  /** What approvals, syncs and recoveries may do to a working row. */
  predicate IsProgress(a: Order, b: Order) {
    && a.id == b.id && a.request == b.request && a.partialIds == b.partialIds && a.exitId == b.exitId
    && Working(a.status)
    && a.filled <= b.filled
    && (a.filled <= a.request.quantity ==> b.filled <= b.request.quantity)
  }

  predicate FreshIn(id: string, l: Ledger) {
    && id !in l.book
    && (forall b :: b in l.book ==> id !in LinkIds(l.book[b]))
    && forall b :: b in l.history ==> id !in l.history[b]
  }

  function PendingSell(id: string, buy: Order, quantity: int): Order {
    Order(id, Request(buy.request.ticker, buy.request.market, Sell, quantity, None, false), Pending, None, None, None,
          buy.brokerName, buy.instance, buy.account, buy.mode, None, 0, None, buy.stopLoss, buy.target1, buy.target2, None, [], None, NO_STOP)
  }

  /** The sell as its approval leaves it. */
  function SubmittedSell(id: string, buy: Order, quantity: int, outcome: Option<Placement>): Order {
    var sell := PendingSell(id, buy, quantity);
    if outcome.Some? then sell.(status := PlacedStatus(outcome.value)) else sell
  }

  /** An exit is submitted only when no linked sell is working, and for at most what is held. */
  predicate Enabled(l: Ledger, step: Step) {
    match step
    case NewBuy(buy) => FreshIn(buy.id, l) && buy.id !in l.history && buy.request.side == Buy && LinkIds(buy) == []
    case SubmitExit(buyId, sellId, quantity, _, _, _) =>
      && buyId in l.history && buyId in l.book && FreshIn(sellId, l)
      && !HasWorkingSell(l.book[buyId], l.book)
      && 1 <= quantity <= Remaining(l.book[buyId], l.book)
    case CloseExternally(buyId, sellId) =>
      && buyId in l.history && buyId in l.book && FreshIn(sellId, l)
      && !HasWorkingSell(l.book[buyId], l.book)
      && Confirmed(l.book[buyId], l.book) > 0
    case Progress(row) => row.id in l.book && IsProgress(l.book[row.id], row)
  }

  function Relinked(buy: Order, sellId: string, scaleOut: bool): Order {
    if scaleOut then buy.(partialIds := buy.partialIds + [sellId]) else buy.(exitId := Some(sellId))
  }

  function Place(l: Ledger, buyId: string, sell: Order, scaleOut: bool): Ledger
    requires buyId in l.book && buyId in l.history
  {
    Ledger(l.book[sell.id := sell][buyId := Relinked(l.book[buyId], sell.id, scaleOut)],
           l.history[buyId := l.history[buyId] + [sell.id]])
  }

  /** A sell placed without its link: only the history remembers what it was for. */
  function PlaceUnlinked(l: Ledger, buyId: string, sell: Order): Ledger
    requires buyId in l.history
  {
    Ledger(l.book[sell.id := sell], l.history[buyId := l.history[buyId] + [sell.id]])
  }

  function Next(l: Ledger, step: Step): Ledger {
    if !Enabled(l, step) then l else
      match step
      case NewBuy(buy) => Ledger(l.book[buy.id := buy], l.history[buy.id := []])
      case SubmitExit(buyId, sellId, quantity, scaleOut, linkSaved, outcome) =>
        var sell := SubmittedSell(sellId, l.book[buyId], quantity, outcome);
        if linkSaved then Place(l, buyId, sell, scaleOut) else PlaceUnlinked(l, buyId, sell)
      case CloseExternally(buyId, sellId) =>
        Place(l, buyId, SyntheticSell(sellId, l.book[buyId], Confirmed(l.book[buyId], l.book), 0), false)
      case Progress(row) => l.(book := l.book[row.id := row])
  }

  function Run(l: Ledger, steps: seq<Step>): Ledger {
    Runs.Run(Next, l, steps)
  }

  /** The queue's own transactions make progress in this sense. */
  lemma TransactionsAreProgress(o: Order, scope: Scope, placement: Placement, fill: Fill, accepted: bool,
          brokerId: string, now: int)
    requires Working(o.status)
    ensures IsProgress(o, SubmittingRow(o, scope, now)) && IsProgress(o, PlacedRow(o, scope, placement, now))
    ensures IsProgress(o, MergeFill(o, fill, now)) && IsProgress(o, RecoveredRow(o, accepted, brokerId, now))
    ensures IsProgress(o, CancelledRow(o, now))
  {
  }

  // ---- hypotheses on a step ----

  /** The exit whose link would be replaced has sold nothing. */
  predicate OldExitIsEmpty(buy: Order, book: Book) {
    buy.exitId.Some? && buy.exitId.value in book ==> CountedFill(book[buy.exitId.value]) == 0
  }

  /** The sell was once placed for some buy. */
  ghost predicate Tracked(l: Ledger, id: string) {
    exists b :: b in l.history && id in l.history[b]
  }

  /** A link is saved, or the sell is rejected; an exit is replaced only if it has sold
      nothing; and no sell ends cancelled or rejected with fills. */
  ghost predicate Careful(l: Ledger, step: Step) {
    match step
    case NewBuy(_) => true
    case SubmitExit(buyId, _, _, scaleOut, linkSaved, outcome) =>
      if linkSaved then buyId in l.book && !scaleOut ==> OldExitIsEmpty(l.book[buyId], l.book)
      else outcome.Some? && Dead(PlacedStatus(outcome.value))
    case CloseExternally(buyId, _) => buyId in l.book ==> OldExitIsEmpty(l.book[buyId], l.book)
    case Progress(row) => Tracked(l, row.id) && Dead(row.status) ==> row.filled == 0
  }

  ghost predicate CarefulThroughout(l: Ledger, steps: seq<Step>) {
    forall n :: 0 <= n < |steps| && Enabled(Run(l, steps[..n]), steps[n]) ==> Careful(Run(l, steps[..n]), steps[n])
  }

  // ---- the invariant ----

  /** The shares a sell has taken or may still take. */
  function Exposure(sell: Order): int {
    if Working(sell.status) then sell.request.quantity else CountedFill(sell)
  }

  /** Everything ever sold for a buy, as the broker confirmed it. */
  function Sold(l: Ledger, buyId: string): int
    requires buyId in l.history
  {
    Total(l.history[buyId], l.book, ConfirmedFill)
  }

  ghost predicate WellLinked(buy: Order, sells: seq<string>, book: Book) {
    && Distinct(LinkIds(buy)) && Distinct(sells)
    && (forall id :: id in LinkIds(buy) ==> id in sells)
    && (forall id :: id in sells ==> id in book && book[id].filled <= book[id].request.quantity)
    && (forall id :: id in sells && Working(book[id].status) ==> id in LinkIds(buy))
    && (forall id :: id in sells && Dead(book[id].status) ==> book[id].filled == 0)
  }

  ghost predicate Balanced(buy: Order, sells: seq<string>, book: Book) {
    && Total(sells, book, CountedFill) == Total(LinkIds(buy), book, CountedFill)
    && Total(sells, book, Exposure) <= buy.filled
  }

  /** One buy of the ledger: what holds of it, its sells and the other buys. */
  ghost predicate InBalance(l: Ledger, b: string) {
    && b in l.history && b in l.book && WellLinked(l.book[b], l.history[b], l.book) && Balanced(l.book[b], l.history[b], l.book)
    && forall c :: c in l.history ==> b !in l.history[c]
  }

  ghost predicate Conserves(l: Ledger) {
    && (forall b {:trigger l.book[b]} :: b in l.book ==> l.book[b].id == b)
    && (forall b :: b in l.history ==> b in l.book)
    && forall b {:trigger InBalance(l, b)} :: b in l.history ==> InBalance(l, b)
  }

  // ---- totals ----

  lemma {:induction false} TotalOfConcat(a: seq<string>, b: seq<string>, book: Book, amount: Order -> int)
    ensures Total(a + b, book, amount) == Total(a, book, amount) + Total(b, book, amount)
  {
    if b == [] {
      assert a + b == a;
    } else {
      var c := a + b;
      assert c[..|c| - 1] == a + b[..|b| - 1];
      TotalOfConcat(a, b[..|b| - 1], book, amount);
    }
  }

  /** Changing one row changes a total by that row's difference, once. */
  lemma {:induction false} TotalAfterChange(ids: seq<string>, book: Book, row: Order, amount: Order -> int)
    requires Distinct(ids) && row.id in book
    ensures Total(ids, book[row.id := row], amount) ==
            Total(ids, book, amount) + if row.id in ids then amount(row) - amount(book[row.id]) else 0
  {
    if ids != [] {
      var rest, last := ids[..|ids| - 1], ids[|ids| - 1];
      TotalAfterChange(rest, book, row, amount);
      assert last !in rest;
      assert forall id :: id in ids <==> id in rest || id == last;
    }
  }

  lemma {:induction false} TotalIgnores(ids: seq<string>, book: Book, id: string, row: Order, amount: Order -> int)
    requires id !in ids
    ensures Total(ids, book[id := row], amount) == Total(ids, book, amount)
  {
    if ids != [] {
      TotalIgnores(ids[..|ids| - 1], book, id, row, amount);
    }
  }

  lemma {:induction false} CountedWithinExposure(ids: seq<string>, book: Book)
    requires forall id :: id in ids && id in book ==> book[id].filled <= book[id].request.quantity
    ensures Total(ids, book, CountedFill) <= Total(ids, book, Exposure)
  {
    if ids != [] {
      CountedWithinExposure(ids[..|ids| - 1], book);
    }
  }

  lemma {:induction false} IdleExposureIsCounted(ids: seq<string>, book: Book)
    requires forall id :: id in ids && id in book ==> !Working(book[id].status)
    ensures Total(ids, book, CountedFill) == Total(ids, book, Exposure)
  {
    if ids != [] {
      IdleExposureIsCounted(ids[..|ids| - 1], book);
    }
  }

  // ---- each step ----

  lemma ProgressKeepsOne(buy: Order, sells: seq<string>, book: Book, row: Order)
    requires WellLinked(buy, sells, book) && Balanced(buy, sells, book)
    requires row.id in book && IsProgress(book[row.id], row) && (row.id in sells && Dead(row.status) ==> row.filled == 0)
    ensures WellLinked(buy, sells, book[row.id := row]) && Balanced(buy, sells, book[row.id := row])
  {
    TotalAfterChange(sells, book, row, CountedFill);
    TotalAfterChange(LinkIds(buy), book, row, CountedFill);
    TotalAfterChange(sells, book, row, Exposure);
  }

  lemma ProgressConserves(l: Ledger, row: Order)
    requires Conserves(l) && Enabled(l, Progress(row)) && Careful(l, Progress(row))
    ensures Conserves(Next(l, Progress(row)))
  {
    var m := Next(l, Progress(row));
    forall b | b in m.history ensures InBalance(m, b) {
      assert InBalance(l, b);
      assert row.id in l.history[b] ==> Tracked(l, row.id);
      ProgressKeepsOne(l.book[b], l.history[b], l.book, row);
      assert LinkIds(m.book[b]) == LinkIds(l.book[b]);
    }
  }

  /** The links after placing a sell. */
  lemma PlacedLinks(buy: Order, sellId: string, scaleOut: bool)
    requires sellId !in LinkIds(buy) && Distinct(LinkIds(buy))
    ensures var after := Relinked(buy, sellId, scaleOut);
            && Distinct(LinkIds(after))
            && (forall id :: id in LinkIds(after) ==> id in LinkIds(buy) || id == sellId)
            && (forall id :: id in LinkIds(buy) ==> id in LinkIds(after) || (!scaleOut && Some(id) == buy.exitId))
            && sellId in LinkIds(after)
  {
    var after := Relinked(buy, sellId, scaleOut);
    var links, n := LinkIds(buy), |buy.partialIds|;
    assert forall i :: 0 <= i < n ==> links[i] == buy.partialIds[i];
    if scaleOut && buy.exitId.Some? {
      assert LinkIds(after) == links[..n] + [sellId] + links[n..];
    } else {
      assert LinkIds(after) == links[..n] + [sellId];
      assert LinkIds(after)[n] == sellId;
    }
    assert forall id :: id in links ==> id in links[..n] || Some(id) == buy.exitId;
  }

  /** What a replaced exit used to contribute. */
  function Dropped(buy: Order, book: Book, scaleOut: bool, amount: Order -> int): int {
    if !scaleOut && buy.exitId.Some? then Amount(buy.exitId.value, book, amount) else 0
  }

  /** What the new links sum to. */
  lemma PlacedLinksTotal(buy: Order, book: Book, sell: Order, scaleOut: bool, amount: Order -> int)
    requires sell.id !in book && sell.id !in LinkIds(buy)
    ensures Total(LinkIds(Relinked(buy, sell.id, scaleOut)), book[sell.id := sell], amount) ==
            Total(LinkIds(buy), book, amount) + amount(sell) - Dropped(buy, book, scaleOut, amount)
  {
    var after, more := Relinked(buy, sell.id, scaleOut), book[sell.id := sell];
    var oldExit := if buy.exitId.Some? then [buy.exitId.value] else [];
    assert LinkIds(buy) == buy.partialIds + oldExit;
    TotalOfConcat(buy.partialIds, oldExit, book, amount);
    TotalIgnores(buy.partialIds, book, sell.id, sell, amount);
    TotalIgnores(oldExit, book, sell.id, sell, amount);
    TotalOfOne(sell.id, more, amount);
    if buy.exitId.Some? {
      TotalOfOne(buy.exitId.value, book, amount);
    }
    TotalOfConcat(buy.partialIds, [sell.id], more, amount);
    if scaleOut {
      assert LinkIds(after) == buy.partialIds + [sell.id] + oldExit;
      TotalOfConcat(buy.partialIds + [sell.id], oldExit, more, amount);
    } else {
      assert LinkIds(after) == buy.partialIds + [sell.id];
    }
  }

  lemma PlacedHistory(sells: seq<string>, book: Book, sell: Order, amount: Order -> int)
    requires sell.id !in book && sell.id !in sells && Distinct(sells)
    ensures Distinct(sells + [sell.id])
    ensures Total(sells + [sell.id], book[sell.id := sell], amount) == Total(sells, book, amount) + amount(sell)
  {
    TotalOfConcat(sells, [sell.id], book[sell.id := sell], amount);
    TotalIgnores(sells, book, sell.id, sell, amount);
    TotalOfOne(sell.id, book[sell.id := sell], amount);
  }

  /** The book of a placement: a fresh sell, and its buy with a new link. */
  function Placed(buy: Order, book: Book, sell: Order, scaleOut: bool): Book {
    book[sell.id := sell][buy.id := Relinked(buy, sell.id, scaleOut)]
  }

  /** All the sums a placement changes, for the buy it serves. */
  lemma PlacedTotals(buy: Order, sells: seq<string>, book: Book, sell: Order, scaleOut: bool, amount: Order -> int)
    requires WellLinked(buy, sells, book) && buy.id !in sells
    requires sell.id !in book && sell.id !in sells && sell.id !in LinkIds(buy) && sell.id != buy.id
    ensures Total(sells + [sell.id], Placed(buy, book, sell, scaleOut), amount) == Total(sells, book, amount) + amount(sell)
    ensures Total(LinkIds(Relinked(buy, sell.id, scaleOut)), Placed(buy, book, sell, scaleOut), amount) ==
            Total(LinkIds(buy), book, amount) + amount(sell) - Dropped(buy, book, scaleOut, amount)
  {
    var after, middle := Relinked(buy, sell.id, scaleOut), book[sell.id := sell];
    PlacedLinks(buy, sell.id, scaleOut);
    PlacedLinksTotal(buy, book, sell, scaleOut, amount);
    PlacedHistory(sells, book, sell, amount);
    TotalIgnores(sells + [sell.id], middle, buy.id, after, amount);
    TotalIgnores(LinkIds(after), middle, buy.id, after, amount);
  }

  lemma PlaceKeepsOther(other: Order, sells: seq<string>, book: Book, sell: Order, buy: Order)
    requires WellLinked(other, sells, book) && Balanced(other, sells, book)
    requires sell.id !in book && buy.id !in sells
    ensures var after := book[sell.id := sell][buy.id := buy];
            WellLinked(other, sells, after) && Balanced(other, sells, after)
  {
    var links, middle := LinkIds(other), book[sell.id := sell];
    TotalIgnores(sells, book, sell.id, sell, CountedFill);
    TotalIgnores(sells, book, sell.id, sell, Exposure);
    TotalIgnores(links, book, sell.id, sell, CountedFill);
    TotalIgnores(sells, middle, buy.id, buy, CountedFill);
    TotalIgnores(sells, middle, buy.id, buy, Exposure);
    TotalIgnores(links, middle, buy.id, buy, CountedFill);
  }

  /** A sell that may be placed for a buy without breaking its balance. */
  predicate Fits(buy: Order, book: Book, sell: Order, scaleOut: bool) {
    && !HasWorkingSell(buy, book)
    && (scaleOut || OldExitIsEmpty(buy, book))
    && sell.filled <= sell.request.quantity && (Dead(sell.status) ==> sell.filled == 0)
    && Exposure(sell) <= Remaining(buy, book) && Remaining(buy, book) > 0
  }

  lemma PlaceLinksBuyer(buy: Order, sells: seq<string>, book: Book, sell: Order, scaleOut: bool)
    requires WellLinked(buy, sells, book) && buy.id !in sells
    requires sell.id !in book && sell.id !in sells && sell.id !in LinkIds(buy) && sell.id != buy.id
    requires !HasWorkingSell(buy, book) && sell.filled <= sell.request.quantity && (Dead(sell.status) ==> sell.filled == 0)
    ensures WellLinked(Relinked(buy, sell.id, scaleOut), sells + [sell.id], Placed(buy, book, sell, scaleOut))
  {
    PlacedLinks(buy, sell.id, scaleOut);
    PlacedHistory(sells, book, sell, CountedFill);
    var placed := Placed(buy, book, sell, scaleOut);
    forall id | id in sells + [sell.id]
      ensures id in placed && placed[id].filled <= placed[id].request.quantity
      ensures Dead(placed[id].status) ==> placed[id].filled == 0
      ensures Working(placed[id].status) ==> id == sell.id
    {
      assert id in sells || id == sell.id;
    }
  }

  lemma PlaceBalancesFills(buy: Order, sells: seq<string>, book: Book, sell: Order, scaleOut: bool)
    requires WellLinked(buy, sells, book) && Balanced(buy, sells, book) && buy.id !in sells
    requires sell.id !in book && sell.id !in sells && sell.id !in LinkIds(buy) && sell.id != buy.id
    requires scaleOut || OldExitIsEmpty(buy, book)
    ensures Total(sells + [sell.id], Placed(buy, book, sell, scaleOut), CountedFill) ==
            Total(LinkIds(Relinked(buy, sell.id, scaleOut)), Placed(buy, book, sell, scaleOut), CountedFill)
  {
    PlacedTotals(buy, sells, book, sell, scaleOut, CountedFill);
  }

  lemma PlaceFitsExposure(buy: Order, sells: seq<string>, book: Book, sell: Order, scaleOut: bool)
    requires WellLinked(buy, sells, book) && Balanced(buy, sells, book) && buy.id !in sells
    requires sell.id !in book && sell.id !in sells && sell.id !in LinkIds(buy) && sell.id != buy.id
    requires Fits(buy, book, sell, scaleOut)
    ensures Total(sells + [sell.id], Placed(buy, book, sell, scaleOut), Exposure) <= buy.filled
  {
    PlacedTotals(buy, sells, book, sell, scaleOut, Exposure);
    IdleExposureIsCounted(sells, book);
  }

  lemma PlaceBalancesBuyer(buy: Order, sells: seq<string>, book: Book, sell: Order, scaleOut: bool)
    requires WellLinked(buy, sells, book) && Balanced(buy, sells, book) && buy.id !in sells
    requires sell.id !in book && sell.id !in sells && sell.id !in LinkIds(buy) && sell.id != buy.id
    requires Fits(buy, book, sell, scaleOut)
    ensures Balanced(Relinked(buy, sell.id, scaleOut), sells + [sell.id], Placed(buy, book, sell, scaleOut))
  {
    PlaceBalancesFills(buy, sells, book, sell, scaleOut);
    PlaceFitsExposure(buy, sells, book, sell, scaleOut);
  }

  lemma PlaceKeepsBuyer(l: Ledger, buyId: string, sell: Order, scaleOut: bool)
    requires InBalance(l, buyId) && FreshIn(sell.id, l) && l.book[buyId].id == buyId
    requires Fits(l.book[buyId], l.book, sell, scaleOut)
    ensures InBalance(Place(l, buyId, sell, scaleOut), buyId)
  {
    PlaceLinksBuyer(l.book[buyId], l.history[buyId], l.book, sell, scaleOut);
    PlaceBalancesBuyer(l.book[buyId], l.history[buyId], l.book, sell, scaleOut);
  }

  lemma PlaceKeepsNeighbour(l: Ledger, buyId: string, sell: Order, scaleOut: bool, b: string)
    requires InBalance(l, buyId) && InBalance(l, b) && b != buyId && FreshIn(sell.id, l) && l.book[buyId].id == buyId
    ensures InBalance(Place(l, buyId, sell, scaleOut), b)
  {
    PlaceKeepsOther(l.book[b], l.history[b], l.book, sell, Relinked(l.book[buyId], sell.id, scaleOut));
  }

  lemma PlaceKeepsEach(l: Ledger, buyId: string, sell: Order, scaleOut: bool, b: string)
    requires InBalance(l, buyId) && InBalance(l, b) && FreshIn(sell.id, l) && l.book[buyId].id == buyId
    requires Fits(l.book[buyId], l.book, sell, scaleOut)
    ensures InBalance(Place(l, buyId, sell, scaleOut), b)
  {
    if b == buyId {
      PlaceKeepsBuyer(l, buyId, sell, scaleOut);
    } else {
      PlaceKeepsNeighbour(l, buyId, sell, scaleOut, b);
    }
  }

  lemma PlaceConserves(l: Ledger, buyId: string, sell: Order, scaleOut: bool)
    requires Conserves(l) && buyId in l.history && FreshIn(sell.id, l)
    requires Fits(l.book[buyId], l.book, sell, scaleOut)
    ensures Conserves(Place(l, buyId, sell, scaleOut))
  {
    var m := Place(l, buyId, sell, scaleOut);
    assert InBalance(l, buyId);
    forall b | b in m.history ensures InBalance(m, b) {
      assert InBalance(l, b);
      PlaceKeepsEach(l, buyId, sell, scaleOut, b);
    }
  }

  /** An external close records exactly what is held. */
  lemma ExternalCloseFits(buy: Order, sells: seq<string>, book: Book, sellId: string)
    requires WellLinked(buy, sells, book) && !HasWorkingSell(buy, book)
    requires Confirmed(buy, book) > 0 && OldExitIsEmpty(buy, book)
    ensures Fits(buy, book, SyntheticSell(sellId, buy, Confirmed(buy, book), 0), false)
  {
    ComputationsAgreeIff(buy, book);
  }

  lemma NewBuyConserves(l: Ledger, buy: Order)
    requires Conserves(l) && Enabled(l, NewBuy(buy))
    ensures Conserves(Next(l, NewBuy(buy)))
  {
    var m := Next(l, NewBuy(buy));
    forall b | b in m.history ensures InBalance(m, b) {
      if b != buy.id {
        assert InBalance(l, b);
        TotalIgnores(l.history[b], l.book, buy.id, buy, CountedFill);
        TotalIgnores(l.history[b], l.book, buy.id, buy, Exposure);
        TotalIgnores(LinkIds(l.book[b]), l.book, buy.id, buy, CountedFill);
      } else {
        assert forall c :: c in l.history ==> buy.id !in l.history[c];
      }
    }
  }

  lemma SubmitConserves(l: Ledger, buyId: string, sell: Order, scaleOut: bool, linkSaved: bool)
    requires Conserves(l) && buyId in l.history && FreshIn(sell.id, l) && (Working(sell.status) || Dead(sell.status))
    requires !HasWorkingSell(l.book[buyId], l.book) && sell.filled == 0 && 1 <= sell.request.quantity <= Remaining(l.book[buyId], l.book)
    requires if linkSaved then scaleOut || OldExitIsEmpty(l.book[buyId], l.book) else Dead(sell.status)
    ensures Conserves(if linkSaved then Place(l, buyId, sell, scaleOut) else PlaceUnlinked(l, buyId, sell))
  {
    if linkSaved {
      PlaceConserves(l, buyId, sell, scaleOut);
    } else {
      DeadUnlinkedConserves(l, buyId, sell);
    }
  }

  lemma StepConserves(l: Ledger, step: Step)
    requires Conserves(l) && Careful(l, step) && Enabled(l, step)
    ensures Conserves(Next(l, step))
  {
    match step
    case NewBuy(buy) => NewBuyConserves(l, buy);
    case Progress(row) => ProgressConserves(l, row);
    case SubmitExit(buyId, sellId, quantity, scaleOut, linkSaved, outcome) =>
      SubmitConserves(l, buyId, SubmittedSell(sellId, l.book[buyId], quantity, outcome), scaleOut, linkSaved);
    case CloseExternally(buyId, sellId) =>
      assert InBalance(l, buyId);
      ExternalCloseFits(l.book[buyId], l.history[buyId], l.book, sellId);
      PlaceConserves(l, buyId, SyntheticSell(sellId, l.book[buyId], Confirmed(l.book[buyId], l.book), 0), false);
  }

  // ---- a link that is lost ----

  lemma UnlinkedTotals(sells: seq<string>, book: Book, sell: Order, amount: Order -> int)
    requires sell.id !in book && sell.id !in sells && Distinct(sells)
    ensures Total(sells, book[sell.id := sell], amount) == Total(sells, book, amount)
    ensures Distinct(sells + [sell.id])
    ensures Total(sells + [sell.id], book[sell.id := sell], amount) == Total(sells, book, amount) + amount(sell)
  {
    TotalIgnores(sells, book, sell.id, sell, amount);
    PlacedHistory(sells, book, sell, amount);
  }

  lemma UnlinkedKeepsOther(buy: Order, sells: seq<string>, book: Book, sell: Order)
    requires WellLinked(buy, sells, book) && Balanced(buy, sells, book)
    requires sell.id !in book && sell.id !in sells && sell.id !in LinkIds(buy)
    ensures WellLinked(buy, sells, book[sell.id := sell]) && Balanced(buy, sells, book[sell.id := sell])
  {
    TotalIgnores(sells, book, sell.id, sell, CountedFill);
    TotalIgnores(sells, book, sell.id, sell, Exposure);
    TotalIgnores(LinkIds(buy), book, sell.id, sell, CountedFill);
  }

  lemma UnlinkedStaysLinked(buy: Order, sells: seq<string>, book: Book, sell: Order)
    requires WellLinked(buy, sells, book)
    requires sell.id !in book && sell.id !in sells && sell.id !in LinkIds(buy)
    requires sell.filled == 0 <= sell.request.quantity && Dead(sell.status)
    ensures WellLinked(buy, sells + [sell.id], book[sell.id := sell])
  {
    assert forall id :: id in sells + [sell.id] <==> id in sells || id == sell.id;
  }

  lemma UnlinkedKeepsBuyer(buy: Order, sells: seq<string>, book: Book, sell: Order)
    requires WellLinked(buy, sells, book) && Balanced(buy, sells, book)
    requires sell.id !in book && sell.id !in sells && sell.id !in LinkIds(buy)
    requires sell.filled == 0 <= sell.request.quantity && Dead(sell.status)
    ensures WellLinked(buy, sells + [sell.id], book[sell.id := sell])
    ensures Balanced(buy, sells + [sell.id], book[sell.id := sell])
  {
    UnlinkedStaysLinked(buy, sells, book, sell);
    UnlinkedTotals(sells, book, sell, CountedFill);
    UnlinkedTotals(sells, book, sell, Exposure);
    TotalIgnores(LinkIds(buy), book, sell.id, sell, CountedFill);
  }

  lemma DeadUnlinkedKeepsEach(l: Ledger, buyId: string, sell: Order, b: string)
    requires buyId in l.history && InBalance(l, b) && FreshIn(sell.id, l)
    requires sell.filled == 0 <= sell.request.quantity && Dead(sell.status)
    ensures InBalance(PlaceUnlinked(l, buyId, sell), b)
  {
    var buy, sells := l.book[b], l.history[b];
    assert sell.id !in LinkIds(buy) && sell.id !in sells;
    if b == buyId {
      UnlinkedKeepsBuyer(buy, sells, l.book, sell);
    } else {
      UnlinkedKeepsOther(buy, sells, l.book, sell);
    }
  }

  lemma DeadUnlinkedConserves(l: Ledger, buyId: string, sell: Order)
    requires Conserves(l) && buyId in l.history && FreshIn(sell.id, l)
    requires sell.filled == 0 <= sell.request.quantity && Dead(sell.status)
    ensures Conserves(PlaceUnlinked(l, buyId, sell))
  {
    var m := PlaceUnlinked(l, buyId, sell);
    forall b | b in m.history ensures InBalance(m, b) {
      assert InBalance(l, b);
      DeadUnlinkedKeepsEach(l, buyId, sell, b);
    }
  }

  lemma {:induction false} RunConserves(l: Ledger, steps: seq<Step>)
    requires Conserves(l) && CarefulThroughout(l, steps)
    ensures Conserves(Run(l, steps))
  {
    if steps != [] {
      var rest := steps[..|steps| - 1];
      assert forall n :: 0 <= n < |rest| ==> rest[..n] == steps[..n];
      RunConserves(l, rest);
      if Enabled(Run(l, rest), steps[|steps| - 1]) {
        assert Careful(Run(l, steps[..|steps| - 1]), steps[|steps| - 1]);
        StepConserves(Run(l, rest), steps[|steps| - 1]);
      }
    }
  }

  // ---- what is promised ----

  /** Nothing is clipped, what is held and what was sold add up to what was bought, and even
      if every working sell fills completely no more is sold than was bought. */
  ghost predicate AddsUp(l: Ledger, b: string) {
    && b in l.history && b in l.book
    && RawRemaining(l.book[b], l.book) >= 0
    && Remaining(l.book[b], l.book) + Sold(l, b) == l.book[b].filled
    && Total(l.history[b], l.book, Exposure) <= l.book[b].filled
  }

  ghost predicate AllAddUp(l: Ledger) {
    forall b :: b in l.history ==> AddsUp(l, b)
  }

  lemma ConservingAddsUp(l: Ledger)
    requires Conserves(l)
    ensures AllAddUp(l)
  {
    forall b | b in l.history ensures AddsUp(l, b) {
      assert InBalance(l, b);
      CountedWithinExposure(l.history[b], l.book);
      TotalsDiffer(l.history[b], l.book);
    }
  }

  /** Over every careful run: what each buy holds and what was ever sold for it add up to
      its confirmed fill, so clipping at zero never hides anything, and even if every
      working sell fills completely no more is sold than was bought. */
  lemma HeldPlusSoldIsBought(l: Ledger, steps: seq<Step>)
    requires Conserves(l) && CarefulThroughout(l, steps)
    ensures AllAddUp(Run(l, steps))
  {
    RunConserves(l, steps);
    ConservingAddsUp(Run(l, steps));
  }

  // ---- the hypotheses are exact ----

  /** Whatever careful steps follow, everything adds up. */
  ghost predicate SafeFrom(l: Ledger) {
    forall rest :: CarefulThroughout(l, rest) ==> AllAddUp(Run(l, rest))
  }

  lemma ConservingIsSafe(l: Ledger)
    requires Conserves(l)
    ensures SafeFrom(l)
  {
    forall rest | CarefulThroughout(l, rest) ensures AllAddUp(Run(l, rest)) {
      HeldPlusSoldIsBought(l, rest);
    }
  }

  lemma BrokenIsUnsafe(l: Ledger, b: string)
    requires b in l.history && !AddsUp(l, b)
    ensures !SafeFrom(l)
  {
    assert CarefulThroughout(l, []);
    assert Run(l, []) == l;
  }

  lemma BreakableIsUnsafe(l: Ledger, step: Step, b: string)
    requires Enabled(l, step) && Careful(l, step) && b in Next(l, step).history && !AddsUp(Next(l, step), b)
    ensures !SafeFrom(l)
  {
    Runs.RunThenStep(Next, l, [], step);
    assert [] + [step] == [step] && [step][..0] == [];
    assert CarefulThroughout(l, [step]);
    assert Run(l, [step]) == Next(l, step);
  }

  /** The sell that went out unlinked fills. */
  lemma UnlinkedFillDoesNotAddUp(l: Ledger, buyId: string, sell: Order, done: Order)
    requires AddsUp(l, buyId) && Distinct(l.history[buyId]) && FreshIn(sell.id, l)
    requires Working(sell.status) && sell.filled == 0 < sell.request.quantity
    requires done == sell.(status := Filled, filled := sell.request.quantity)
    ensures var m := PlaceUnlinked(l, buyId, sell); !AddsUp(m.(book := m.book[sell.id := done]), buyId)
  {
    var m := PlaceUnlinked(l, buyId, sell);
    var n := m.(book := m.book[sell.id := done]);
    var links := LinkIds(l.book[buyId]);
    UnlinkedTotals(l.history[buyId], l.book, sell, ConfirmedFill);
    assert m.history[buyId][|l.history[buyId]|] == sell.id;
    TotalAfterChange(m.history[buyId], m.book, done, ConfirmedFill);
    TotalIgnores(links, l.book, sell.id, sell, CountedFill);
    TotalIgnores(links, m.book, sell.id, done, CountedFill);
    assert n.book[buyId] == l.book[buyId];
  }

  lemma LostLinkIsUnsafe(l: Ledger, buyId: string, sell: Order)
    requires Conserves(l) && buyId in l.history && FreshIn(sell.id, l)
    requires Working(sell.status) && sell.filled == 0 < sell.request.quantity
    ensures !SafeFrom(PlaceUnlinked(l, buyId, sell))
  {
    var m := PlaceUnlinked(l, buyId, sell);
    var done := sell.(status := Filled, filled := sell.request.quantity);
    assert InBalance(l, buyId);
    ConservingAddsUp(l);
    UnlinkedFillDoesNotAddUp(l, buyId, sell, done);
    assert Enabled(m, Progress(done)) && Careful(m, Progress(done));
    BreakableIsUnsafe(m, Progress(done), buyId);
  }

  /** A sell that goes out unlinked and unfilled is safe exactly if it is done for already. */
  lemma UnlinkedIsSafeIff(l: Ledger, buyId: string, sell: Order)
    requires Conserves(l) && buyId in l.history && FreshIn(sell.id, l)
    requires sell.filled == 0 < sell.request.quantity && (Working(sell.status) || Dead(sell.status))
    ensures SafeFrom(PlaceUnlinked(l, buyId, sell)) <==> Dead(sell.status)
  {
    if Dead(sell.status) {
      DeadUnlinkedConserves(l, buyId, sell);
      ConservingIsSafe(PlaceUnlinked(l, buyId, sell));
    } else {
      LostLinkIsUnsafe(l, buyId, sell);
    }
  }

  /** Replacing an exit that has sold something breaks the sum at once. */
  lemma ReplacingDoesNotAddUp(l: Ledger, buyId: string, sell: Order)
    requires Conserves(l) && buyId in l.history && FreshIn(sell.id, l) && !OldExitIsEmpty(l.book[buyId], l.book)
    requires CountedFill(sell) == ConfirmedFill(sell)
    ensures !AddsUp(Place(l, buyId, sell, false), buyId)
  {
    assert InBalance(l, buyId);
    ConservingAddsUp(l);
    assert AddsUp(l, buyId);
    ReplacedExit(l.book[buyId], l.history[buyId], l.book, sell);
    PlacedTotals(l.book[buyId], l.history[buyId], l.book, sell, false, ConfirmedFill);
  }

  lemma ReplacingIsUnsafe(l: Ledger, buyId: string, sell: Order)
    requires Conserves(l) && buyId in l.history && FreshIn(sell.id, l) && !OldExitIsEmpty(l.book[buyId], l.book)
    requires CountedFill(sell) == ConfirmedFill(sell)
    ensures !SafeFrom(Place(l, buyId, sell, false))
  {
    ReplacingDoesNotAddUp(l, buyId, sell);
    BrokenIsUnsafe(Place(l, buyId, sell, false), buyId);
  }

  /** A sell that dies with fills breaks the sum at once: they count as sold, and as held again. */
  lemma DeadFillDoesNotAddUp(buy: Order, sells: seq<string>, book: Book, row: Order)
    requires WellLinked(buy, sells, book) && row.id in sells && IsProgress(book[row.id], row)
    requires Dead(row.status) && row.filled > 0
    ensures var after := book[row.id := row];
            RawRemaining(buy, after) + Total(sells, after, ConfirmedFill) ==
            RawRemaining(buy, book) + Total(sells, book, ConfirmedFill) + row.filled
  {
    TotalAfterChange(sells, book, row, ConfirmedFill);
    TotalAfterChange(LinkIds(buy), book, row, CountedFill);
  }

  lemma DeadFillIsUnsafe(l: Ledger, row: Order)
    requires Conserves(l) && Enabled(l, Progress(row)) && Tracked(l, row.id) && Dead(row.status) && row.filled > 0
    ensures !SafeFrom(Next(l, Progress(row)))
  {
    var m := Next(l, Progress(row));
    var b :| b in l.history && row.id in l.history[b];
    assert InBalance(l, b);
    ConservingAddsUp(l);
    assert AddsUp(l, b);
    DeadFillDoesNotAddUp(l.book[b], l.history[b], l.book, row);
    assert m.book[b] == l.book[b];
    BrokenIsUnsafe(m, b);
  }

  lemma CarelessSubmitIsUnsafe(l: Ledger, buyId: string, sell: Order, scaleOut: bool, linkSaved: bool)
    requires Conserves(l) && buyId in l.history && FreshIn(sell.id, l)
    requires sell.filled == 0 < sell.request.quantity && (Working(sell.status) || Dead(sell.status))
    requires if linkSaved then !scaleOut && !OldExitIsEmpty(l.book[buyId], l.book) else Working(sell.status)
    ensures !SafeFrom(if linkSaved then Place(l, buyId, sell, scaleOut) else PlaceUnlinked(l, buyId, sell))
  {
    if linkSaved {
      ReplacingIsUnsafe(l, buyId, sell);
    } else {
      LostLinkIsUnsafe(l, buyId, sell);
    }
  }

  lemma CarelessStepIsUnsafe(l: Ledger, step: Step)
    requires Conserves(l) && Enabled(l, step) && !Careful(l, step)
    ensures !SafeFrom(Next(l, step))
  {
    match step
    case Progress(row) => DeadFillIsUnsafe(l, row);
    case SubmitExit(buyId, sellId, quantity, scaleOut, linkSaved, outcome) =>
      CarelessSubmitIsUnsafe(l, buyId, SubmittedSell(sellId, l.book[buyId], quantity, outcome), scaleOut, linkSaved);
    case CloseExternally(buyId, sellId) =>
      ReplacingIsUnsafe(l, buyId, SyntheticSell(sellId, l.book[buyId], Confirmed(l.book[buyId], l.book), 0));
  }

  /** One step from a state that conserves leaves everything to add up, whatever careful steps
      follow, exactly if it is careful itself. */
  lemma StepIsSafeIff(l: Ledger, step: Step)
    requires Conserves(l) && Enabled(l, step)
    ensures SafeFrom(Next(l, step)) <==> Careful(l, step)
  {
    if Careful(l, step) {
      StepConserves(l, step);
      ConservingIsSafe(Next(l, step));
    } else {
      CarelessStepIsUnsafe(l, step);
    }
  }

  lemma CarefulPrefix(l: Ledger, steps: seq<Step>, n: nat)
    requires n <= |steps| && CarefulThroughout(l, steps)
    ensures CarefulThroughout(l, steps[..n])
  {
    assert forall k :: 0 <= k < n ==> steps[..n][..k] == steps[..k];
  }

  lemma PrefixStep(l: Ledger, steps: seq<Step>, n: nat)
    requires n < |steps|
    ensures Run(l, steps[..n + 1]) == Next(Run(l, steps[..n]), steps[n])
  {
    assert steps[..n + 1] == steps[..n] + [steps[n]];
    Runs.RunThenStep(Next, l, steps[..n], steps[n]);
  }

  /** As long as a run is safe, its states conserve. */
  lemma {:induction false} SafePrefixConserves(l: Ledger, steps: seq<Step>, n: nat)
    requires Conserves(l) && n <= |steps| && forall k :: 0 <= k <= n ==> SafeFrom(Run(l, steps[..k]))
    ensures Conserves(Run(l, steps[..n]))
  {
    if n > 0 {
      SafePrefixConserves(l, steps, n - 1);
      PrefixStep(l, steps, n - 1);
      ConservesWhileSafe(Run(l, steps[..n - 1]), steps[n - 1]);
    }
  }

  lemma ConservesWhileSafe(l: Ledger, step: Step)
    requires Conserves(l) && SafeFrom(Next(l, step))
    ensures Conserves(Next(l, step)) && (Enabled(l, step) ==> Careful(l, step))
  {
    if Enabled(l, step) {
      StepIsSafeIff(l, step);
      StepConserves(l, step);
    }
  }

  /** Everything adds up at every point of a run, and whatever careful steps might follow
      there, exactly if every step that takes effect is careful. */
  lemma RunIsSafeIff(l: Ledger, steps: seq<Step>)
    requires Conserves(l)
    ensures (forall n :: 0 <= n <= |steps| ==> SafeFrom(Run(l, steps[..n]))) <==> CarefulThroughout(l, steps)
  {
    if CarefulThroughout(l, steps) {
      forall n | 0 <= n <= |steps| ensures SafeFrom(Run(l, steps[..n])) {
        CarefulPrefix(l, steps, n);
        RunConserves(l, steps[..n]);
        ConservingIsSafe(Run(l, steps[..n]));
      }
    }
    if forall n :: 0 <= n <= |steps| ==> SafeFrom(Run(l, steps[..n])) {
      forall n | 0 <= n < |steps| && Enabled(Run(l, steps[..n]), steps[n]) ensures Careful(Run(l, steps[..n]), steps[n]) {
        SafePrefixConserves(l, steps, n);
        PrefixStep(l, steps, n);
        ConservesWhileSafe(Run(l, steps[..n]), steps[n]);
      }
    }
  }

  // ---- what is not linked is not seen ----

  function SetOf(ids: seq<string>): set<string> {
    set id | id in ids
  }

  /** The total over the ids that are not among some others. */
  function TotalOutside(ids: seq<string>, others: set<string>, book: Book, amount: Order -> int): int {
    if ids == [] then 0 else
      var last := ids[|ids| - 1];
      TotalOutside(ids[..|ids| - 1], others, book, amount) + if last in others then 0 else Amount(last, book, amount)
  }

  /** What the sells placed for a buy add up to that no link of it names. */
  function TotalUnlinked(buy: Order, sells: seq<string>, book: Book, amount: Order -> int): int {
    TotalOutside(sells, SetOf(LinkIds(buy)), book, amount)
  }

  lemma {:induction false} OutsideOneMore(ids: seq<string>, others: set<string>, id: string, book: Book, amount: Order -> int)
    requires Distinct(ids) && id !in others
    ensures TotalOutside(ids, others, book, amount) ==
            TotalOutside(ids, others + {id}, book, amount) + if id in ids then Amount(id, book, amount) else 0
  {
    if ids != [] {
      var rest, last := ids[..|ids| - 1], ids[|ids| - 1];
      OutsideOneMore(rest, others, id, book, amount);
      assert last !in rest;
      assert id in ids <==> id in rest || id == last;
    }
  }

  lemma {:induction false} OutsideNone(ids: seq<string>, book: Book, amount: Order -> int)
    ensures TotalOutside(ids, {}, book, amount) == Total(ids, book, amount)
  {
    if ids != [] {
      OutsideNone(ids[..|ids| - 1], book, amount);
    }
  }

  /** A total splits into what is linked and what is not. */
  lemma {:induction false} TotalSplits(ids: seq<string>, links: seq<string>, book: Book, amount: Order -> int)
    requires Distinct(ids) && Distinct(links) && forall id :: id in links ==> id in ids
    ensures Total(ids, book, amount) == Total(links, book, amount) + TotalOutside(ids, SetOf(links), book, amount)
  {
    if links == [] {
      assert SetOf(links) == {};
      OutsideNone(ids, book, amount);
    } else {
      var rest, last := links[..|links| - 1], links[|links| - 1];
      TotalSplits(ids, rest, book, amount);
      assert last !in rest;
      assert SetOf(links) == SetOf(rest) + {last};
      OutsideOneMore(ids, SetOf(rest), last, book, amount);
    }
  }

  lemma {:induction false} NoFillsOutsideIff(ids: seq<string>, others: set<string>, book: Book)
    requires forall id :: id in ids && id in book ==> book[id].request.quantity >= 0
    ensures var total := TotalOutside(ids, others, book, ConfirmedFill);
            && total >= 0
            && (total == 0 <==> forall id :: id in ids && id in book && id !in others ==> ConfirmedFill(book[id]) == 0)
  {
    if ids != [] {
      var rest, last := ids[..|ids| - 1], ids[|ids| - 1];
      NoFillsOutsideIff(rest, others, book);
      assert forall id :: id in ids <==> id in rest || id == last;
    }
  }

  /** In any state whose links name placed sells: what the bot believes it holds and what
      was sold exceed what was bought by the fills of the sells that are not linked and by
      the fills of linked sells that died; so they add up exactly when there are neither. */
  lemma HeldPlusSoldIsBoughtIff(l: Ledger, b: string)
    requires b in l.book && b in l.history && Distinct(LinkIds(l.book[b])) && Distinct(l.history[b])
    requires forall id :: id in LinkIds(l.book[b]) ==> id in l.history[b]
    requires forall id :: id in l.history[b] && id in l.book ==> l.book[id].request.quantity >= 0
    ensures var buy := l.book[b];
            && RawRemaining(buy, l.book) + Sold(l, b) ==
               buy.filled + TotalUnlinked(buy, l.history[b], l.book, ConfirmedFill) + (RawRemaining(buy, l.book) - RawConfirmed(buy, l.book))
            && RawRemaining(buy, l.book) + Sold(l, b) >= buy.filled
            && (RawRemaining(buy, l.book) + Sold(l, b) == buy.filled <==>
                && DeadSellsCarryNoFill(LinkIds(buy), l.book)
                && forall id :: id in l.history[b] && id in l.book && id !in LinkIds(buy) ==> ConfirmedFill(l.book[id]) == 0)
  {
    var links, sells := LinkIds(l.book[b]), l.history[b];
    TotalSplits(sells, links, l.book, ConfirmedFill);
    NoFillsOutsideIff(sells, SetOf(links), l.book);
    ComputationsAgreeIff(l.book[b], l.book);
    DedupOfDistinct(links);
  }

  // ---- replacing an exit forgets what it sold ----

  /** What replacing the exit link does to the two sides of the balance. */
  lemma ReplacedExit(buy: Order, sells: seq<string>, book: Book, sell: Order)
    requires WellLinked(buy, sells, book) && Balanced(buy, sells, book) && buy.id !in sells
    requires sell.id !in book && sell.id !in sells && sell.id !in LinkIds(buy) && sell.id != buy.id
    ensures var after, placed := Relinked(buy, sell.id, false), Placed(buy, book, sell, false);
            && RawRemaining(after, placed) == RawRemaining(buy, book) - CountedFill(sell) + Dropped(buy, book, false, CountedFill)
            && Total(sells + [sell.id], placed, CountedFill) == Total(sells, book, CountedFill) + CountedFill(sell)
            && (OldExitIsEmpty(buy, book) <==> Dropped(buy, book, false, CountedFill) == 0)
            && Dropped(buy, book, false, CountedFill) >= 0
  {
    PlacedTotals(buy, sells, book, sell, false, CountedFill);
    DroppedIsPositive(buy, sells, book);
  }

  /** From a balanced state, replacing the exit link keeps held plus sold equal to bought
      exactly when the old exit has sold nothing; otherwise the bot believes it holds
      that many shares more. */
  lemma RelinkConservesIff(l: Ledger, buyId: string, sell: Order)
    requires Conserves(l) && buyId in l.history && FreshIn(sell.id, l) && sell.status == Pending && sell.filled == 0
    requires 1 <= Remaining(l.book[buyId], l.book)
    ensures var m, buy := Place(l, buyId, sell, false), l.book[buyId];
            && (Remaining(m.book[buyId], m.book) + Sold(m, buyId) == buy.filled <==> OldExitIsEmpty(buy, l.book))
            && Remaining(m.book[buyId], m.book) == Remaining(buy, l.book) + Dropped(buy, l.book, false, CountedFill)
  {
    assert InBalance(l, buyId);
    ReplacedExit(l.book[buyId], l.history[buyId], l.book, sell);
    PlacedTotals(l.book[buyId], l.history[buyId], l.book, sell, false, ConfirmedFill);
    TotalsDiffer(l.history[buyId], l.book);
  }

  lemma DroppedIsPositive(buy: Order, sells: seq<string>, book: Book)
    requires WellLinked(buy, sells, book)
    ensures Dropped(buy, book, false, CountedFill) >= 0
    ensures Dropped(buy, book, false, CountedFill) == 0 <==> OldExitIsEmpty(buy, book)
  {
    if buy.exitId.Some? {
      assert buy.exitId.value == LinkIds(buy)[|buy.partialIds|];
      assert buy.exitId.value in sells;
    }
  }

  /** An external close ends the position exactly when the old exit has sold nothing. */
  lemma ExternalCloseClosesIff(l: Ledger, buyId: string, sell: Order)
    requires Conserves(l) && buyId in l.history && FreshIn(sell.id, l)
    requires Confirmed(l.book[buyId], l.book) > 0
    requires sell == SyntheticSell(sell.id, l.book[buyId], Confirmed(l.book[buyId], l.book), 0)
    ensures var m := Place(l, buyId, sell, false);
            Remaining(m.book[buyId], m.book) == 0 <==> OldExitIsEmpty(l.book[buyId], l.book)
  {
    assert InBalance(l, buyId);
    ComputationsAgreeIff(l.book[buyId], l.book);
    ReplacedExit(l.book[buyId], l.history[buyId], l.book, sell);
  }

  // ---- a run that sells more than was bought ----

  /** Two steps of a run: an exit for all the bot believes it holds is submitted, and
      `fills` of it trade before the rest is cancelled. */
  function SellOff(l: Ledger, sellId: string, held: nat, fills: nat): Ledger {
    var m := Next(l, SubmitExit("B", sellId, held, false, true, None));
    if sellId in m.book then
      Next(m, Progress(m.book[sellId].(status := if fills == held then Filled else PartiallyFilledCancelled, filled := fills)))
    else m
  }

  /** A single buy "B" of ten shares with at most a replaced exit: so many sold, so many believed held. */
  ghost predicate AtRound(l: Ledger, sold: int, held: int) {
    && "B" in l.book && l.book["B"].id == "B" && l.book["B"].partialIds == [] && l.book["B"].filled == 10
    && "B" in l.history && Distinct(l.history["B"]) && "B" !in l.history["B"]
    && !HasWorkingSell(l.book["B"], l.book)
    && RawRemaining(l.book["B"], l.book) == held && Sold(l, "B") == sold
  }

  ghost predicate Selling(m: Ledger, sellId: string, sold: int, held: int) {
    && "B" in m.book && m.book["B"].id == "B" && m.book["B"].partialIds == [] && m.book["B"].filled == 10
    && m.book["B"].exitId == Some(sellId) && sellId in m.book && m.book[sellId] == PendingSell(sellId, m.book["B"], held)
    && "B" in m.history && Distinct(m.history["B"]) && "B" !in m.history["B"] && sellId in m.history["B"]
    && Sold(m, "B") == sold
  }

  lemma SubmitAll(l: Ledger, sellId: string, sold: int, held: nat)
    requires AtRound(l, sold, held) && FreshIn(sellId, l) && held > 0
    ensures Selling(Next(l, SubmitExit("B", sellId, held, false, true, None)), sellId, sold, held)
  {
    var step := SubmitExit("B", sellId, held, false, true, None);
    assert Enabled(l, step);
    var sell, sells := PendingSell(sellId, l.book["B"], held), l.history["B"];
    PlacedHistory(sells, l.book, sell, ConfirmedFill);
    TotalIgnores(sells + [sellId], l.book[sellId := sell], "B", Relinked(l.book["B"], sellId, false), ConfirmedFill);
    assert sellId in sells + [sellId];
  }

  lemma FillSome(m: Ledger, sellId: string, sold: int, held: nat, done: Order)
    requires Selling(m, sellId, sold, held) && sellId != "B" && 0 < done.filled <= held
    requires done == m.book[sellId].(status := done.status, filled := done.filled)
    requires (done.status.Filled? || done.status.PartiallyFilledCancelled?)
    ensures AtRound(Next(m, Progress(done)), sold + done.filled, 10 - done.filled)
  {
    assert Enabled(m, Progress(done));
    var n := Next(m, Progress(done));
    TotalAfterChange(m.history["B"], m.book, done, ConfirmedFill);
    assert LinkIds(n.book["B"]) == [sellId];
    OneExitView(n.book["B"], n.book, sellId);
  }

  lemma SellOffForgets(l: Ledger, sellId: string, sold: int, held: nat, fills: nat)
    requires AtRound(l, sold, held) && FreshIn(sellId, l) && 0 < fills <= held
    ensures AtRound(SellOff(l, sellId, held, fills), sold + fills, 10 - fills)
  {
    SubmitAll(l, sellId, sold, held);
    var m := Next(l, SubmitExit("B", sellId, held, false, true, None));
    FillSome(m, sellId, sold, held,
             m.book[sellId].(status := if fills == held then Filled else PartiallyFilledCancelled, filled := fills));
  }

  lemma PlaceStaysFresh(l: Ledger, buyId: string, sell: Order, scaleOut: bool, id: string)
    requires FreshIn(id, l) && buyId in l.book && buyId in l.history && id != sell.id && LinkIds(sell) == []
    requires l.book[buyId].id == buyId
    ensures FreshIn(id, Place(l, buyId, sell, scaleOut))
  {
    RelinkedAddsOne(l.book[buyId], sell.id, scaleOut);
    assert id !in LinkIds(l.book[buyId]);
  }

  lemma RelinkedAddsOne(buy: Order, sellId: string, scaleOut: bool)
    ensures forall id :: id in LinkIds(Relinked(buy, sellId, scaleOut)) ==> id in LinkIds(buy) || id == sellId
  {
  }

  lemma ProgressStaysFresh(l: Ledger, row: Order, id: string)
    requires FreshIn(id, l) && row.id in l.book && LinkIds(row) == LinkIds(l.book[row.id])
    ensures FreshIn(id, l.(book := l.book[row.id := row]))
  {
  }

  lemma SellOffKeepsFresh(l: Ledger, sellId: string, held: nat, fills: nat, id: string)
    requires FreshIn(id, l) && id != sellId && ("B" in l.book ==> l.book["B"].id == "B")
    ensures FreshIn(id, SellOff(l, sellId, held, fills))
  {
    var submit := SubmitExit("B", sellId, held, false, true, None);
    if Enabled(l, submit) {
      PlaceStaysFresh(l, "B", PendingSell(sellId, l.book["B"], held), false, id);
    }
    var m := Next(l, submit);
    if sellId in m.book {
      var row := m.book[sellId].(status := if fills == held then Filled else PartiallyFilledCancelled, filled := fills);
      if Enabled(m, Progress(row)) {
        ProgressStaysFresh(m, row, id);
      }
    }
  }

  /** A buy of ten: its exit is cancelled after six, four are left and sold, and the bot
      then finds six more to sell: sixteen shares go, and it still counts four. */
  lemma ReplacedExitOversells(l: Ledger)
    requires AtRound(l, 0, 10) && FreshIn("S1", l) && FreshIn("S2", l) && FreshIn("S3", l)
    ensures AtRound(SellOff(SellOff(SellOff(l, "S1", 10, 6), "S2", 4, 4), "S3", 6, 6), 16, 4)
  {
    SellOffForgets(l, "S1", 0, 10, 6);
    SellOffKeepsFresh(l, "S1", 10, 6, "S2");
    SellOffKeepsFresh(l, "S1", 10, 6, "S3");
    var l1 := SellOff(l, "S1", 10, 6);
    SellOffForgets(l1, "S2", 6, 4, 4);
    SellOffKeepsFresh(l1, "S2", 4, 4, "S3");
    SellOffForgets(SellOff(l1, "S2", 4, 4), "S3", 10, 6, 6);
  }

  /** Two steps of a run: an exit for all that is held goes out, its link is lost, and it
      fills completely. */
  function SellUnlinked(l: Ledger, sellId: string, held: nat, brokerOrderId: string): Ledger {
    var m := Next(l, SubmitExit("B", sellId, held, false, false, Some(Accepted(brokerOrderId))));
    if sellId in m.book then Next(m, Progress(m.book[sellId].(status := Filled, filled := held))) else m
  }

  lemma SubmitAllUnlinked(l: Ledger, sellId: string, sold: int, held: nat, brokerOrderId: string)
    requires AtRound(l, sold, held) && FreshIn(sellId, l) && held > 0
    ensures var m := Next(l, SubmitExit("B", sellId, held, false, false, Some(Accepted(brokerOrderId))));
            && AtRound(m, sold, held) && sellId in m.book && m.book[sellId].id == sellId
            && m.book[sellId] == SubmittedSell(sellId, l.book["B"], held, Some(Accepted(brokerOrderId)))
            && sellId in m.history["B"] && sellId !in LinkIds(m.book["B"]) && sellId != "B"
  {
    var sell := SubmittedSell(sellId, l.book["B"], held, Some(Accepted(brokerOrderId)));
    var m := PlaceUnlinked(l, "B", sell);
    assert m == Next(l, SubmitExit("B", sellId, held, false, false, Some(Accepted(brokerOrderId))));
    UnlinkedTotals(l.history["B"], l.book, sell, ConfirmedFill);
    TotalIgnores(LinkIds(l.book["B"]), l.book, sellId, sell, CountedFill);
    assert m.history["B"][|l.history["B"]|] == sellId;
  }

  lemma FillUnlinked(m: Ledger, sellId: string, sold: int, held: nat, done: Order)
    requires AtRound(m, sold, held) && sellId in m.book && sellId in m.history["B"] && sellId !in LinkIds(m.book["B"]) && sellId != "B"
    requires m.book[sellId].id == sellId && Working(m.book[sellId].status) && m.book[sellId].filled == 0
    requires m.book[sellId].request.quantity == held > 0
    requires done == m.book[sellId].(status := Filled, filled := held)
    ensures AtRound(Next(m, Progress(done)), sold + held, held)
  {
    assert Enabled(m, Progress(done));
    TotalAfterChange(m.history["B"], m.book, done, ConfirmedFill);
    TotalIgnores(LinkIds(m.book["B"]), m.book, sellId, done, CountedFill);
  }

  /** A sell whose link was lost sells everything, and the bot still believes it holds
      everything: the next exit sells it again. */
  lemma LostLinkOversells(l: Ledger, sellId: string, sold: int, held: nat, brokerOrderId: string)
    requires AtRound(l, sold, held) && FreshIn(sellId, l) && held > 0
    ensures AtRound(SellUnlinked(l, sellId, held, brokerOrderId), sold + held, held)
  {
    SubmitAllUnlinked(l, sellId, sold, held, brokerOrderId);
    var m := Next(l, SubmitExit("B", sellId, held, false, false, Some(Accepted(brokerOrderId))));
    FillUnlinked(m, sellId, sold, held, m.book[sellId].(status := Filled, filled := held));
  }

  /** Such a start exists: one filled buy and nothing else, a state that conserves. */
  lemma OversellStarts()
    ensures var l := Ledger(map["B" := Blank("B", Buy, 10).(status := Filled, filled := 10)], map["B" := []]);
            AtRound(l, 0, 10) && FreshIn("S1", l) && FreshIn("S2", l) && FreshIn("S3", l) && Conserves(l)
  {
    var l := Ledger(map["B" := Blank("B", Buy, 10).(status := Filled, filled := 10)], map["B" := []]);
    assert LinkIds(l.book["B"]) == [];
  }
}

/** Groups of settled rows leave the queue for the month's file, and why nobody can tell. */
module Archive {
  import opened Prelude
  import opened Orders

  function LastActivity(o: Order): Option<int> {
    if o.lastSyncedAt.Some? then o.lastSyncedAt
    else if o.submittedAt.Some? then o.submittedAt
    else o.createdAt
  }

  predicate SettledBefore(o: Order, cutoff: int) {
    LastActivity(o).Some? && LastActivity(o).value < cutoff
  }

  function ReferencedIds(orders: seq<Order>): set<string> {
    set o, id | o in orders && o.request.side == Buy && id in LinkIds(o) :: id
  }

  /** A sell that died unfilled and outside every buy's links. */
  predicate InertSell(o: Order, referenced: set<string>, cutoff: int) {
    o.request.side == Sell && Dead(o.status) && o.filled == 0 && o.id !in referenced && SettledBefore(o, cutoff)
  }

  predicate Closed(buy: Order, book: Book) {
    if Dead(buy.status) && buy.filled == 0 then forall id :: id in LinkIds(buy) ==> id !in book
    else Held(buy.status) && Confirmed(buy, book) == 0 && !HasWorkingSell(buy, book)
  }

  /** A buy whose whole group may leave. */
  predicate SettledBuy(o: Order, book: Book, cutoff: int) {
    && o.request.side == Buy
    && o.stop.id.None? && o.stop.quantity <= 0
    && Closed(o, book)
    && SettledBefore(o, cutoff)
    && forall id :: id in LinkIds(o) && id in book ==> SettledBefore(book[id], cutoff)
  }

  /** The ids that leave on account of one row. */
  function GroupOf(o: Order, book: Book, referenced: set<string>, cutoff: int): set<string> {
    if o.request.side == Sell then
      if InertSell(o, referenced, cutoff) then {o.id} else {}
    else if SettledBuy(o, book, cutoff) then
      {o.id} + set id | id in LinkIds(o) && id in book
    else {}
  }

  function ArchiveIds(orders: seq<Order>, cutoff: int): set<string> {
    set o, id | o in orders && id in GroupOf(o, ById(orders), ReferencedIds(orders), cutoff) :: id
  }

  function Selected(orders: seq<Order>, ids: set<string>): (r: seq<Order>)
    ensures forall o :: o in r <==> o in orders && o.id in ids
  {
    if orders == [] then [] else
      var last := orders[|orders| - 1];
      Selected(orders[..|orders| - 1], ids) + if last.id in ids then [last] else []
  }

  function Unselected(orders: seq<Order>, ids: set<string>): (r: seq<Order>)
    ensures forall o :: o in r <==> o in orders && o.id !in ids
  {
    if orders == [] then [] else
      var last := orders[|orders| - 1];
      Unselected(orders[..|orders| - 1], ids) + if last.id in ids then [] else [last]
  }

  function Ids(orders: seq<Order>): set<string> {
    set o | o in orders :: o.id
  }

  /** The rows whose id the archive file does not hold yet. */
  function NotYetArchived(rows: seq<Order>, archived: seq<Order>): seq<Order> {
    Unselected(rows, Ids(archived))
  }

  function Kept(orders: seq<Order>, cutoff: int): seq<Order> {
    Unselected(orders, ArchiveIds(orders, cutoff))
  }

  function NewlyArchived(orders: seq<Order>, archived: seq<Order>, cutoff: int): seq<Order> {
    NotYetArchived(Selected(orders, ArchiveIds(orders, cutoff)), archived)
  }

  /** The loop that decides, row by row, which ids leave. */
  method CollectArchiveIds(orders: seq<Order>, cutoff: int) returns (ids: set<string>)
    ensures ids == ArchiveIds(orders, cutoff)
  {
    var book, referenced := ById(orders), ReferencedIds(orders);
    ids := {};
    for i := 0 to |orders|
      invariant ids == set o, id | o in orders[..i] && id in GroupOf(o, book, referenced, cutoff) :: id
    {
      var o := orders[i];
      var group := GroupIds(o, book, referenced, cutoff);
      ids := ids + group;
      assert forall p :: p in orders[..i + 1] <==> p in orders[..i] || p == o;
    }
    assert orders[..|orders|] == orders;
  }

  /** One row's turn in that loop. */
  method GroupIds(o: Order, book: Book, referenced: set<string>, cutoff: int) returns (ids: set<string>)
    ensures ids == GroupOf(o, book, referenced, cutoff)
  {
    if o.request.side != Buy {
      if Dead(o.status) && o.filled == 0 && o.id !in referenced && SettledBefore(o, cutoff) { return {o.id}; }
      return {};
    }
    if o.stop.id.Some? || o.stop.quantity > 0 { return {}; }
    var linked := set id | id in LinkIds(o) && id in book;
    var closed := false;
    if Dead(o.status) && o.filled == 0 {
      closed := linked == {};
    } else if Held(o.status) {
      var remaining := ConfirmedRemainingQuantity(o, book);
      closed := remaining == 0 && !HasWorkingSell(o, book);
    }
    if !closed { return {}; }
    if !SettledBefore(o, cutoff) || exists id :: id in linked && !SettledBefore(book[id], cutoff) { return {}; }
    ids := {o.id} + linked;
  }

  lemma {:induction false} ArchiveAccounting(orders: seq<Order>, ids: set<string>)
    ensures |Selected(orders, ids)| + |Unselected(orders, ids)| == |orders|
  {
    if orders != [] {
      ArchiveAccounting(orders[..|orders| - 1], ids);
    }
  }

  lemma {:induction false} KeepAll(orders: seq<Order>)
    ensures Unselected(orders, {}) == orders
  {
    if orders != [] {
      var rest, last := orders[..|orders| - 1], orders[|orders| - 1];
      KeepAll(rest);
      assert Unselected(orders, {}) == Unselected(rest, {}) + [last];
      assert orders == rest + [last];
    }
  }

  lemma SelectNone(orders: seq<Order>)
    ensures Selected(orders, {}) == []
  {
    ArchiveAccounting(orders, {});
    KeepAll(orders);
  }

  // ---- no row is lost, none is archived twice ----

  lemma {:induction false} UnselectedKeepsDistinct(orders: seq<Order>, ids: set<string>)
    requires DistinctIds(orders)
    ensures DistinctIds(Unselected(orders, ids)) && DistinctIds(Selected(orders, ids))
  {
    if orders != [] {
      var rest, last := orders[..|orders| - 1], orders[|orders| - 1];
      UnselectedKeepsDistinct(rest, ids);
      LastIsNew(orders);
      DistinctWithNew(Unselected(rest, ids), last);
      DistinctWithNew(Selected(rest, ids), last);
    }
  }

  lemma LastIsNew(orders: seq<Order>)
    requires DistinctIds(orders) && orders != []
    ensures forall o :: o in orders[..|orders| - 1] ==> o.id != orders[|orders| - 1].id
  {
    forall o | o in orders[..|orders| - 1] ensures o.id != orders[|orders| - 1].id {
      var k :| 0 <= k < |orders| - 1 && orders[k] == o;
      assert orders[k].id != orders[|orders| - 1].id;
    }
  }

  lemma DistinctWithNew(rows: seq<Order>, row: Order)
    requires DistinctIds(rows) && forall o :: o in rows ==> o.id != row.id
    ensures DistinctIds(rows + [row])
  {
  }

  lemma ArchivingKeepsDistinct(orders: seq<Order>, archived: seq<Order>, cutoff: int)
    requires DistinctIds(orders) && DistinctIds(archived)
    ensures DistinctIds(Kept(orders, cutoff))
    ensures DistinctIds(archived + NewlyArchived(orders, archived, cutoff))
  {
    var ids := ArchiveIds(orders, cutoff);
    UnselectedKeepsDistinct(orders, ids);
    var gone := Selected(orders, ids);
    UnselectedKeepsDistinct(gone, Ids(archived));
    var added := NotYetArchived(gone, archived);
    var all := archived + added;
    forall i, j | 0 <= i < j < |all| ensures all[i].id != all[j].id {
      if i < |archived| <= j {
        assert archived[i] in archived;
        assert added[j - |archived|] in added;
      }
    }
  }

  /** The month's file after runs that all died between the two writes: the queue is as it was. */
  function FileAfter(orders: seq<Order>, archived: seq<Order>, cutoffs: seq<int>): seq<Order> {
    if cutoffs == [] then archived else
      var file := FileAfter(orders, archived, cutoffs[..|cutoffs| - 1]);
      file + NewlyArchived(orders, file, cutoffs[|cutoffs| - 1])
  }

  /** An archived row whose id is still in the queue is that row. */
  ghost predicate Matches(orders: seq<Order>, archived: seq<Order>) {
    forall o, a :: o in orders && a in archived && o.id == a.id ==> o == a
  }

  lemma ArchivingKeepsMatches(orders: seq<Order>, archived: seq<Order>, cutoff: int)
    requires DistinctIds(orders) && Matches(orders, archived)
    ensures Matches(orders, archived + NewlyArchived(orders, archived, cutoff))
  {
    forall o, a | o in orders && a in archived + NewlyArchived(orders, archived, cutoff) && o.id == a.id ensures o == a {
      if a !in archived {
        SameIdSameRow(orders, o, a);
      }
    }
  }

  lemma {:induction false} CrashesKeepTheFile(orders: seq<Order>, archived: seq<Order>, cutoffs: seq<int>)
    requires DistinctIds(orders) && DistinctIds(archived) && Matches(orders, archived)
    ensures var file := FileAfter(orders, archived, cutoffs);
            && DistinctIds(file) && Matches(orders, file)
            && (forall o :: o in archived ==> o in file) && (forall o :: o in file ==> o in archived || o in orders)
  {
    if cutoffs != [] {
      var rest, last := cutoffs[..|cutoffs| - 1], cutoffs[|cutoffs| - 1];
      CrashesKeepTheFile(orders, archived, rest);
      ArchivingKeepsDistinct(orders, FileAfter(orders, archived, rest), last);
      ArchivingKeepsMatches(orders, FileAfter(orders, archived, rest), last);
    }
  }

  lemma TwinsAgreeIfNothingIsLost(orders: seq<Order>, archived: seq<Order>, cutoff: int, o: Order, a: Order)
    requires DistinctIds(orders) && DistinctIds(archived) && o in orders && a in archived && o.id == a.id
    requires o.id in ArchiveIds(orders, cutoff)
    requires o in Kept(orders, cutoff) || o in archived + NewlyArchived(orders, archived, cutoff)
    ensures o == a
  {
    ArchivingKeepsDistinct(orders, archived, cutoff);
    SameIdSameRow(archived + NewlyArchived(orders, archived, cutoff), o, a);
  }

  lemma TwinOrCopied(orders: seq<Order>, archived: seq<Order>, cutoff: int, o: Order)
    requires o in orders && forall a :: a in archived && o.id == a.id && o.id in ArchiveIds(orders, cutoff) ==> o == a
    ensures o in Kept(orders, cutoff) || o in archived + NewlyArchived(orders, archived, cutoff)
  {
    if o !in Kept(orders, cutoff) {
      assert o in Selected(orders, ArchiveIds(orders, cutoff));
      if o.id in Ids(archived) {
        var twin :| twin in archived && twin.id == o.id;
      }
    }
  }

  /** A run that gets through loses a row exactly if it removes one whose id the file holds
      with other contents: a row that changed after a crash had copied it. */
  lemma NothingIsLostIff(orders: seq<Order>, archived: seq<Order>, cutoff: int)
    requires DistinctIds(orders) && DistinctIds(archived)
    ensures (forall o :: o in orders ==> o in Kept(orders, cutoff) || o in archived + NewlyArchived(orders, archived, cutoff)) <==>
            forall o, a :: o in orders && a in archived && o.id == a.id && o.id in ArchiveIds(orders, cutoff) ==> o == a
  {
    var file := archived + NewlyArchived(orders, archived, cutoff);
    if forall o :: o in orders ==> o in Kept(orders, cutoff) || o in file {
      forall o, a | o in orders && a in archived && o.id == a.id && o.id in ArchiveIds(orders, cutoff) ensures o == a {
        TwinsAgreeIfNothingIsLost(orders, archived, cutoff, o, a);
      }
    } else {
      var o :| o in orders && o !in Kept(orders, cutoff) && o !in file;
      if forall a :: a in archived && o.id == a.id && o.id in ArchiveIds(orders, cutoff) ==> o == a {
        TwinOrCopied(orders, archived, cutoff, o);
        assert false;
      }
    }
  }

  /** Any number of runs that crash after the archive file is written but before the queue is
      rewritten, then one that gets through: every row is still in the queue or in the
      archive, no id appears twice in the month's file, and nothing foreign is in it. */
  lemma CrashLosesAndDuplicatesNothing(orders: seq<Order>, archived: seq<Order>, crashes: seq<int>, later: int)
    requires DistinctIds(orders) && DistinctIds(archived) && Matches(orders, archived)
    ensures var file := FileAfter(orders, archived, crashes + [later]);
            && DistinctIds(file) && Matches(orders, file)
            && (forall o :: o in orders ==> o in Kept(orders, later) || o in file)
            && (forall o :: o in file ==> o in archived || o in orders)
  {
    CrashesKeepTheFile(orders, archived, crashes + [later]);
    CrashesKeepTheFile(orders, archived, crashes);
    var crashed := FileAfter(orders, archived, crashes);
    assert (crashes + [later])[..|crashes|] == crashes;
    assert FileAfter(orders, archived, crashes + [later]) == crashed + NewlyArchived(orders, crashed, later);
    NothingIsLostIff(orders, crashed, later);
  }

  lemma SameIdSameRow(orders: seq<Order>, a: Order, b: Order)
    requires DistinctIds(orders) && a in orders && b in orders && a.id == b.id
    ensures a == b
  {
    var i :| 0 <= i < |orders| && orders[i] == a;
    var j :| 0 <= j < |orders| && orders[j] == b;
    assert !(i < j) && !(j < i);
  }

  // ---- archiving is invisible ----

  /** Every linked row is a sell, and no sell is linked to two buys. */
  ghost predicate LinksDisjoint(orders: seq<Order>) {
    && (forall o, id :: o in orders && o.request.side == Buy && id in LinkIds(o) && id in ById(orders) ==>
          ById(orders)[id].request.side == Sell)
    && (forall o, p, id ::
          (&& o in orders && p in orders && o.request.side == Buy && p.request.side == Buy
           && id in LinkIds(o) && id in LinkIds(p)) ==> o == p)
  }

  /** Why a row leaves: as an inert sell, as a settled buy, or with the buy it is linked to. */
  lemma WhyArchived(orders: seq<Order>, cutoff: int, o: Order)
    requires DistinctIds(orders) && LinksDisjoint(orders)
    requires o in orders && o.id in ArchiveIds(orders, cutoff)
    ensures o.request.side == Buy ==> SettledBuy(o, ById(orders), cutoff)
    ensures o.request.side == Sell ==>
              || InertSell(o, ReferencedIds(orders), cutoff)
              || exists b :: b in orders && SettledBuy(b, ById(orders), cutoff) && b.request.side == Buy && o.id in LinkIds(b)
  {
    var book := ById(orders);
    var b :| b in orders && o.id in GroupOf(b, book, ReferencedIds(orders), cutoff);
    if b.id == o.id {
      SameIdSameRow(orders, o, b);
    } else {
      SameIdSameRow(orders, o, book[o.id]);
    }
  }

  /** Nothing leaves that is recent, still working, holds shares or has a venue stop. */
  lemma OnlyFinishedRowsLeave(orders: seq<Order>, cutoff: int, o: Order)
    requires DistinctIds(orders) && LinksDisjoint(orders)
    requires o in orders && o.id in ArchiveIds(orders, cutoff)
    ensures SettledBefore(o, cutoff) && (o.status == PartiallyFilled || !Working(o.status))
    ensures o.request.side == Buy ==>
              && o.stop.id.None? && o.stop.quantity <= 0 && !HasWorkingSell(o, ById(orders))
              && (Confirmed(o, ById(orders)) == 0 || (Dead(o.status) && o.filled == 0))
  {
    var book := ById(orders);
    WhyArchived(orders, cutoff, o);
    if o.request.side == Sell && !InertSell(o, ReferencedIds(orders), cutoff) {
      var b :| b in orders && SettledBuy(b, book, cutoff) && b.request.side == Buy && o.id in LinkIds(b);
      SameIdSameRow(orders, o, book[o.id]);
      LinkOfSettledIsDone(b, book, cutoff, o.id);
    }
  }

  lemma KeptBook(orders: seq<Order>, ids: set<string>)
    requires DistinctIds(orders)
    ensures var kept, book := ById(Unselected(orders, ids)), ById(orders);
            && (forall id :: id in kept <==> id in book && id !in ids)
            && (forall id :: id in kept ==> kept[id] == book[id])
  {
    var kept, book := ById(Unselected(orders, ids)), ById(orders);
    forall id | id in kept ensures id in book && id !in ids && kept[id] == book[id] {
      assert kept[id] in Unselected(orders, ids);
      assert kept[id] in orders && book[id] in orders;
      SameIdSameRow(orders, kept[id], book[id]);
    }
    forall id | id in book && id !in ids ensures id in kept {
      assert book[id] in Unselected(orders, ids);
    }
  }

  lemma {:induction false} TotalAgrees(ids: seq<string>, a: Book, b: Book, amount: Order -> int)
    requires forall id :: id in ids ==> (id in a <==> id in b) && (id in a ==> a[id] == b[id])
    ensures Total(ids, a, amount) == Total(ids, b, amount)
  {
    if ids != [] {
      TotalAgrees(ids[..|ids| - 1], a, b, amount);
    }
  }

  lemma {:induction false} DedupKeepsIds(ids: seq<string>)
    ensures forall id :: id in Dedup(ids) <==> id in ids
  {
    if ids != [] {
      var rest, last := ids[..|ids| - 1], ids[|ids| - 1];
      DedupKeepsIds(rest);
      assert forall id :: id in ids <==> id in rest || id == last;
    }
  }

  lemma SameView(buy: Order, a: Book, b: Book)
    requires forall id :: id in LinkIds(buy) ==> (id in a <==> id in b) && (id in a ==> a[id] == b[id])
    ensures Remaining(buy, a) == Remaining(buy, b) && Confirmed(buy, a) == Confirmed(buy, b)
    ensures HasWorkingSell(buy, a) <==> HasWorkingSell(buy, b)
    ensures Blocking(buy, a) <==> Blocking(buy, b)
  {
    DedupKeepsIds(LinkIds(buy));
    TotalAgrees(LinkIds(buy), a, b, CountedFill);
    TotalAgrees(Dedup(LinkIds(buy)), a, b, ConfirmedFill);
  }

  lemma LinkLeavesWithItsBuy(orders: seq<Order>, cutoff: int, buy: Order, id: string)
    requires DistinctIds(orders) && LinksDisjoint(orders)
    requires buy in orders && buy.request.side == Buy && id in LinkIds(buy) && id in ById(orders)
    requires id in ArchiveIds(orders, cutoff)
    ensures buy.id in ArchiveIds(orders, cutoff)
  {
    var book, referenced := ById(orders), ReferencedIds(orders);
    assert id in referenced;
    WhyArchived(orders, cutoff, book[id]);
    var o :| o in orders && SettledBuy(o, book, cutoff) && o.request.side == Buy && id in LinkIds(o);
    assert o == buy;
    assert buy.id in GroupOf(buy, book, referenced, cutoff);
  }

  /** Every buy that stays keeps its shares and its in-flight flag. */
  lemma KeptBuysSeeTheSame(orders: seq<Order>, cutoff: int, buy: Order)
    requires DistinctIds(orders) && LinksDisjoint(orders)
    requires buy in Kept(orders, cutoff) && buy.request.side == Buy
    ensures var kept, book := ById(Kept(orders, cutoff)), ById(orders);
            && Remaining(buy, kept) == Remaining(buy, book)
            && Confirmed(buy, kept) == Confirmed(buy, book)
            && (HasWorkingSell(buy, kept) <==> HasWorkingSell(buy, book))
            && (Blocking(buy, kept) <==> Blocking(buy, book))
  {
    var ids, book := ArchiveIds(orders, cutoff), ById(orders);
    KeptBook(orders, ids);
    forall id | id in LinkIds(buy) && id in book ensures id !in ids {
      if id in ids {
        LinkLeavesWithItsBuy(orders, cutoff, buy, id);
      }
    }
    SameView(buy, ById(Kept(orders, cutoff)), book);
  }

  lemma SettledBuyBlocksIff(buy: Order, book: Book, cutoff: int)
    requires SettledBuy(buy, book, cutoff)
    ensures Blocking(buy, book) <==> buy.status == PartiallyFilled
  {
  }

  lemma LinkOfSettledIsDone(buy: Order, book: Book, cutoff: int, id: string)
    requires SettledBuy(buy, book, cutoff) && id in LinkIds(buy) && id in book
    ensures !Working(book[id].status)
  {
  }

  /** An archived row still occupies its slot only if it is a partially filled buy. */
  lemma ArchivedRowBlocksIff(orders: seq<Order>, cutoff: int, o: Order)
    requires DistinctIds(orders) && LinksDisjoint(orders)
    requires o in orders && o.id in ArchiveIds(orders, cutoff)
    ensures Blocking(o, ById(orders)) <==> o.status == PartiallyFilled
    ensures o.status == PartiallyFilled ==> o.request.side == Buy
  {
    var book := ById(orders);
    WhyArchived(orders, cutoff, o);
    if o.request.side == Buy {
      SettledBuyBlocksIff(o, book, cutoff);
    } else if !InertSell(o, ReferencedIds(orders), cutoff) {
      var b :| b in orders && SettledBuy(b, book, cutoff) && b.request.side == Buy && o.id in LinkIds(b);
      SameIdSameRow(orders, o, book[o.id]);
      LinkOfSettledIsDone(b, book, cutoff, o.id);
    }
  }

  /** Whether a request is admitted changes by archiving exactly when a partially
      filled, fully sold buy of the same slot is archived: such a buy is refused
      outright while it is in the queue. */
  lemma AdmissionUnchangedIff(orders: seq<Order>, cutoff: int, request: Request, scope: Option<Scope>)
    requires DistinctIds(orders) && LinksDisjoint(orders)
    ensures (forall o :: o in orders ==> !Refuses(o, request, scope, ById(orders))) <==>
            && (forall o :: o in Kept(orders, cutoff) ==> !Refuses(o, request, scope, ById(Kept(orders, cutoff))))
            && (forall o :: o in orders && o.id in ArchiveIds(orders, cutoff) && o.status == PartiallyFilled ==>
                  !(SameSlot(o.request, request) && OverlapsScope(o, scope)))
  {
    var kept, book := ById(Kept(orders, cutoff)), ById(orders);
    forall o | o in orders && o.id in ArchiveIds(orders, cutoff)
      ensures Blocking(o, book) <==> o.status == PartiallyFilled
    {
      ArchivedRowBlocksIff(orders, cutoff, o);
    }
    forall o | o in Kept(orders, cutoff) ensures Blocking(o, kept) <==> Blocking(o, book) {
      if o.request.side == Buy {
        KeptBuysSeeTheSame(orders, cutoff, o);
      }
    }
  }

  // ---- the open-position count ----

  predicate CountsOpen(o: Order, scope: Option<Scope>, book: Book) {
    && o.request.side == Buy
    && (scope.Some? ==> if o.status == Pending then o.instance.None? || BelongsTo(o, scope.value) else BelongsTo(o, scope.value))
    && (Working(o.status) || Held(o.status))
    && (Held(o.status) ==> Remaining(o, book) > 0 || HasWorkingSell(o, book))
  }

  function OpenKeys(orders: seq<Order>, scope: Option<Scope>, book: Book): set<(Market, string)> {
    set o | o in orders && CountsOpen(o, scope, book) :: (o.request.market, o.request.ticker)
  }

  /** The filter in front of the count. */
  method IsCountedOpen(o: Order, scope: Option<Scope>, book: Book) returns (open: bool)
    ensures open <==> CountsOpen(o, scope, book)
  {
    if o.request.side != Buy { return false; }
    if scope.Some? {
      if o.status != Pending && !BelongsTo(o, scope.value) { return false; }
      if o.status == Pending && o.instance.Some? && !BelongsTo(o, scope.value) { return false; }
    }
    if !Working(o.status) && !Held(o.status) { return false; }
    if Held(o.status) {
      var remaining, inflight := RemainingQuantity(o, book);
      if remaining <= 0 && !inflight { return false; }
    }
    open := true;
  }

  method CountOpenPositions(orders: seq<Order>, scope: Option<Scope>) returns (count: nat)
    ensures count == |OpenKeys(orders, scope, ById(orders))|
  {
    var book := ById(orders);
    var seen: set<(Market, string)> := {};
    count := 0;
    for i := 0 to |orders|
      invariant seen == OpenKeys(orders[..i], scope, book) && count == |seen|
    {
      assert forall o :: o in orders[..i + 1] <==> o in orders[..i] || o == orders[i];
      var o := orders[i];
      var open := IsCountedOpen(o, scope, book);
      if !open { continue; }
      var key := (o.request.market, o.request.ticker);
      if key in seen { continue; }
      seen := seen + {key};
      count := count + 1;
    }
    assert orders[..|orders|] == orders;
  }

  /** The count sees an archived buy exactly when the exit side still finds shares in it,
      which takes a dead sell with fills: the entry guard found none. */
  lemma ArchivedBuyCountsIff(buy: Order, book: Book, cutoff: int, scope: Option<Scope>)
    requires SettledBuy(buy, book, cutoff)
    ensures CountsOpen(buy, scope, book) <==>
              Held(buy.status) && Remaining(buy, book) > 0 && (scope.Some? ==> BelongsTo(buy, scope.value))
    ensures Distinct(LinkIds(buy)) && CountsOpen(buy, scope, book) ==> !DeadSellsCarryNoFill(LinkIds(buy), book)
  {
    if Distinct(LinkIds(buy)) {
      ComputationsAgreeIff(buy, book);
    }
  }

  /** Archiving changes the number of open positions of an account exactly when it removes a
      buy of the account in which the exit side still finds shares, and no kept buy counts
      for the same ticker. */
  lemma OpenCountUnchangedIff(orders: seq<Order>, cutoff: int, scope: Option<Scope>)
    requires DistinctIds(orders) && LinksDisjoint(orders)
    ensures |OpenKeys(Kept(orders, cutoff), scope, ById(Kept(orders, cutoff)))| == |OpenKeys(orders, scope, ById(orders))| <==>
            forall o :: (&& o in orders && o.id in ArchiveIds(orders, cutoff) && o.request.side == Buy && Held(o.status)
                         && Remaining(o, ById(orders)) > 0 && (scope.Some? ==> BelongsTo(o, scope.value))) ==>
              (o.request.market, o.request.ticker) in OpenKeys(Kept(orders, cutoff), scope, ById(Kept(orders, cutoff)))
    ensures OpenKeys(Kept(orders, cutoff), scope, ById(Kept(orders, cutoff))) <= OpenKeys(orders, scope, ById(orders))
  {
    var keys, keptKeys := OpenKeys(orders, scope, ById(orders)), OpenKeys(Kept(orders, cutoff), scope, ById(Kept(orders, cutoff)));
    OpenRowsAgree(orders, Kept(orders, cutoff), cutoff, scope);
    KeptKeysAgree(Kept(orders, cutoff), scope, ById(Kept(orders, cutoff)), ById(orders));
    KeysSplit(orders, Kept(orders, cutoff), ArchiveIds(orders, cutoff), scope, ById(orders));
    forall o | o in orders && o.id in ArchiveIds(orders, cutoff)
      ensures CountsOpen(o, scope, ById(orders)) <==>
        && o.request.side == Buy && Held(o.status) && Remaining(o, ById(orders)) > 0
        && (scope.Some? ==> BelongsTo(o, scope.value))
    {
      WhyArchived(orders, cutoff, o);
      if o.request.side == Buy {
        ArchivedBuyCountsIff(o, ById(orders), cutoff, scope);
      }
    }
    SubsetOfSameSize(keptKeys, keys);
  }

  lemma SubsetOfSameSize<T>(a: set<T>, b: set<T>)
    requires a <= b
    ensures |a| == |b| <==> a == b
  {
    assert b == a + (b - a);
  }

  lemma KeptKeysAgree(rows: seq<Order>, scope: Option<Scope>, kept: Book, book: Book)
    requires forall o :: o in rows ==> (CountsOpen(o, scope, kept) <==> CountsOpen(o, scope, book))
    ensures OpenKeys(rows, scope, kept) == OpenKeys(rows, scope, book)
  {
  }

  lemma KeysSplit(orders: seq<Order>, rows: seq<Order>, gone: set<string>, scope: Option<Scope>, book: Book)
    requires forall o :: o in rows <==> o in orders && o.id !in gone
    ensures OpenKeys(rows, scope, book) <= OpenKeys(orders, scope, book)
    ensures OpenKeys(rows, scope, book) == OpenKeys(orders, scope, book) <==>
            forall o :: o in orders && o.id in gone && CountsOpen(o, scope, book) ==>
              (o.request.market, o.request.ticker) in OpenKeys(rows, scope, book)
  {
    if forall o :: o in orders && o.id in gone && CountsOpen(o, scope, book) ==>
         (o.request.market, o.request.ticker) in OpenKeys(rows, scope, book)
    {
      forall key | key in OpenKeys(orders, scope, book) ensures key in OpenKeys(rows, scope, book) {
        var o :| o in orders && CountsOpen(o, scope, book) && key == (o.request.market, o.request.ticker);
        assert o.id !in gone ==> o in rows;
      }
    }
  }

  /** In particular the count of every account stays, as long as no buy has a cancelled or
      rejected sell that carries a fill. */
  lemma OpenCountUnchanged(orders: seq<Order>, cutoff: int, scope: Option<Scope>)
    requires DistinctIds(orders) && LinksDisjoint(orders)
    requires forall o :: o in orders && o.request.side == Buy ==>
      Distinct(LinkIds(o)) && DeadSellsCarryNoFill(LinkIds(o), ById(orders))
    ensures |OpenKeys(Kept(orders, cutoff), scope, ById(Kept(orders, cutoff)))| == |OpenKeys(orders, scope, ById(orders))|
  {
    forall o | o in orders && o.id in ArchiveIds(orders, cutoff) ensures !CountsOpen(o, scope, ById(orders)) {
      ArchivedRowIsNotOpen(orders, cutoff, scope, o);
    }
    OpenCountUnchangedIff(orders, cutoff, scope);
  }

  lemma ArchivedRowIsNotOpen(orders: seq<Order>, cutoff: int, scope: Option<Scope>, o: Order)
    requires DistinctIds(orders) && LinksDisjoint(orders) && o in orders && o.id in ArchiveIds(orders, cutoff)
    requires o.request.side == Buy ==> Distinct(LinkIds(o)) && DeadSellsCarryNoFill(LinkIds(o), ById(orders))
    ensures !CountsOpen(o, scope, ById(orders))
  {
    WhyArchived(orders, cutoff, o);
    if o.request.side == Buy {
      ArchivedBuyCountsIff(o, ById(orders), cutoff, scope);
    }
  }

  lemma OpenRowsAgree(orders: seq<Order>, rows: seq<Order>, cutoff: int, scope: Option<Scope>)
    requires DistinctIds(orders) && LinksDisjoint(orders) && rows == Kept(orders, cutoff)
    ensures forall o :: o in rows ==> (CountsOpen(o, scope, ById(rows)) <==> CountsOpen(o, scope, ById(orders)))
  {
    forall o | o in rows ensures CountsOpen(o, scope, ById(rows)) <==> CountsOpen(o, scope, ById(orders)) {
      if o.request.side == Buy {
        KeptBuysSeeTheSame(orders, cutoff, o);
      }
    }
  }
}

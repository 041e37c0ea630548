/** Concurrent users of one queue file: enqueuers, approvers, syncs, recoveries, archiving,
    the stale-order sweep and the position manager interleave freely between transactions,
    and an approver may die between the two transactions of an approval. The sweep and the
    manager read a row in one transaction and write it back whole in a later one. */
module Interleavings {
  import opened Prelude
  import opened Orders
  import opened Fills
  import opened ApprovalQueue
  import Archive
  import Runs

  /** The queue file, the approvals whose broker call is under way (with their account), the
      ids handed to `place_order`, in order, and the rows that some process has read. */
  datatype Desk = Desk(orders: seq<Order>, submitting: map<string, Scope>, placed: seq<string>, copies: map<nat, Order>)

  /** What a process changes on the row it read before it writes the row back. */
  datatype Change =
    | LinkExit(sellId: string)
    | LinkPartial(sellId: string, initialTrail: real)
    | RaiseTrail(trail: real)
    | SetStop(stop: StopState)
    | CancelStale(scope: Scope, cutoff: int)

  datatype Step =
    | Enqueue(id: string, request: Request, boundTo: Option<Scope>)
    | Begin(id: string, scope: Scope)
    | Finish(id: string, placement: Placement)
    | Crash(id: string)
    | Sync(scope: Scope, reports: Reports)
    | Recover(id: string, scope: Scope, accepted: bool, brokerId: string)
    | CloseExternally(buyId: string, syntheticId: string)
    | Archive(cutoff: int)
    | Read(copy: nat, id: string)
    | Write(copy: nat, change: Change)

  /** The sweep writes rows that were stale when read, the manager positions that were held. */
  predicate MayWrite(read: Order, change: Change) {
    if change.CancelStale? then Stale(read, change.scope, change.cutoff) else Held(read.status)
  }

  function Changed(read: Order, change: Change, now: int): Order {
    match change
    case LinkExit(sellId) => read.(exitId := Some(sellId))
    case LinkPartial(sellId, trail) => read.(partialIds := read.partialIds + [sellId], trail := Some(trail))
    case RaiseTrail(trail) => read.(trail := Some(trail))
    case SetStop(stop) => read.(stop := stop)
    case CancelStale(_, _) => CancelledRow(read, now)
  }

  /** A position the broker no longer holds is closed by a synthetic sell of all that is left. */
  function ClosedOutside(orders: seq<Order>, buyId: string, syntheticId: string, now: int): seq<Order> {
    var i := IndexOf(orders, buyId);
    if i < |orders| && Fresh(syntheticId, orders) && Confirmed(orders[i], ById(orders)) > 0
    then
      var sell := SyntheticSell(syntheticId, orders[i], Confirmed(orders[i], ById(orders)), now);
      (orders + [sell])[i := orders[i].(exitId := Some(syntheticId))]
    else orders
  }

  function Next(d: Desk, step: Step, now: int): Desk {
    match step
    case Enqueue(id, request, scope) =>
      if Fresh(id, d.orders) && id !in d.placed && request.quantity > 0 && Admits(d.orders, request, scope)
      then d.(orders := d.orders + [NewRow(id, request, scope, None, None, None, now)])
      else d
    case Begin(id, scope) =>
      var i := IndexOf(d.orders, id);
      if i < |d.orders| && MayApprove(d.orders[i], scope)
      then d.(orders := d.orders[i := SubmittingRow(d.orders[i], scope, now)], submitting := d.submitting[id := scope], placed := d.placed + [id])
      else d
    case Finish(id, placement) =>
      if id in d.submitting
      then d.(orders := Rewrite(d.orders, id, o => PlacedRow(o, d.submitting[id], placement, now)), submitting := d.submitting - {id})
      else d
    case Crash(id) => d.(submitting := d.submitting - {id})
    case Sync(scope, reports) => d.(orders := Synced(d.orders, scope, reports, now))
    case Recover(id, scope, accepted, brokerId) =>
      var i := IndexOf(d.orders, id);
      if i < |d.orders| && Recoverable(d.orders[i], scope)
      then d.(orders := d.orders[i := RecoveredRow(d.orders[i], accepted, brokerId, now)])
      else d
    case CloseExternally(buyId, syntheticId) => d.(orders := ClosedOutside(d.orders, buyId, syntheticId, now))
    case Archive(cutoff) => d.(orders := Archive.Kept(d.orders, cutoff))
    case Read(copy, id) =>
      var i := IndexOf(d.orders, id);
      if i < |d.orders| then d.(copies := d.copies[copy := d.orders[i]]) else d
    case Write(copy, change) =>
      if copy in d.copies && MayWrite(d.copies[copy], change) && IndexOf(d.orders, d.copies[copy].id) < |d.orders|
      then
        var row := Changed(d.copies[copy], change, now);
        d.(orders := d.orders[IndexOf(d.orders, row.id) := row], copies := d.copies[copy := row])
      else d
  }

  /** The clock only stamps rows, so one reading serves a whole run. */
  function NextAt(now: int): (Desk, Step) -> Desk {
    (d, step) => Next(d, step, now)
  }

  function Run(d: Desk, steps: seq<Step>, now: int): Desk {
    Runs.Run(NextAt(now), d, steps)
  }

  // ---- an order is submitted at most once ----

  predicate NoPendingReports(step: Step) {
    step.Sync? ==> forall id :: id in step.reports ==> step.reports[id].status != Pending
  }

  /** No id was handed over twice, and the row of one that was, unless archived, is not pending. */
  predicate SubmittedOnce(d: Desk) {
    && (forall i, j :: 0 <= i < j < |d.placed| ==> d.placed[i] != d.placed[j])
    && forall id :: id in d.placed ==> NotPending(d.orders, id)
  }

  predicate NotPending(orders: seq<Order>, id: string) {
    var i := IndexOf(orders, id);
    i < |orders| ==> orders[i].status != Pending
  }

  /** Rows keep their places: every step but archiving rewrites rows under the same id and appends. */
  lemma IndexIsStable(before: seq<Order>, after: seq<Order>, id: string)
    requires |before| <= |after| && forall i :: 0 <= i < |before| ==> after[i].id == before[i].id
    requires IndexOf(before, id) < |before|
    ensures IndexOf(after, id) == IndexOf(before, id)
  {
    IndexOfIsFirst(after, id, IndexOf(before, id));
  }

  lemma RowsKeepPlaces(d: Desk, step: Step, now: int)
    requires !step.Archive?
    ensures |d.orders| <= |Next(d, step, now).orders|
    ensures forall i :: 0 <= i < |d.orders| ==> Next(d, step, now).orders[i].id == d.orders[i].id
  {
  }

  lemma IndexAfterAppend(orders: seq<Order>, row: Order, id: string)
    ensures IndexOf(orders + [row], id) ==
            if IndexOf(orders, id) < |orders| || row.id == id then IndexOf(orders, id) else |orders| + 1
  {
    var i := IndexOf(orders, id);
    IndexOfIsFirst(orders + [row], id, if i < |orders| || row.id == id then i else |orders| + 1);
  }

  /** The same first row under an id, wherever it stands, or none. */
  ghost predicate SameFirst(a: seq<Order>, b: seq<Order>, id: string) {
    if IndexOf(a, id) < |a| then IndexOf(b, id) < |b| && b[IndexOf(b, id)] == a[IndexOf(a, id)]
    else IndexOf(b, id) == |b|
  }

  lemma SameFirstAfterAppend(a: seq<Order>, b: seq<Order>, row: Order, id: string)
    requires SameFirst(a, b, id)
    ensures SameFirst(a + [row], b + [row], id)
    ensures row.id != id ==> SameFirst(a + [row], b, id)
  {
    IndexAfterAppend(a, row, id);
    IndexAfterAppend(b, row, id);
  }

  /** Archiving keeps the first row of every id that stays. */
  lemma {:induction false} FirstRowStays(orders: seq<Order>, gone: set<string>, id: string)
    requires id !in gone
    ensures SameFirst(orders, Archive.Unselected(orders, gone), id)
  {
    if orders != [] {
      var rest, last := orders[..|orders| - 1], orders[|orders| - 1];
      FirstRowStays(rest, gone, id);
      SameFirstAfterAppend(rest, Archive.Unselected(rest, gone), last, id);
      assert rest + [last] == orders;
      if last.id in gone {
        assert Archive.Unselected(orders, gone) == Archive.Unselected(rest, gone);
      } else {
        assert Archive.Unselected(orders, gone) == Archive.Unselected(rest, gone) + [last];
      }
    }
  }

  lemma ArchivedIdIsGone(orders: seq<Order>, gone: set<string>, id: string)
    requires id in gone || IndexOf(orders, id) == |orders|
    ensures IndexOf(Archive.Unselected(orders, gone), id) == |Archive.Unselected(orders, gone)|
  {
    var kept := Archive.Unselected(orders, gone);
    forall j | 0 <= j < |kept| ensures kept[j].id != id {
      assert kept[j] in kept;
      var k :| 0 <= k < |orders| && orders[k] == kept[j];
    }
    IndexOfIsFirst(kept, id, |kept|);
  }

  lemma RowStaysNotPending(d: Desk, step: Step, now: int, i: nat)
    requires NoPendingReports(step) && !step.Archive? && i < |d.orders| && d.orders[i].status != Pending
    ensures i < |Next(d, step, now).orders| && Next(d, step, now).orders[i].status != Pending
  {
  }

  lemma ArchivingKeepsNotPending(orders: seq<Order>, cutoff: int, id: string)
    requires NotPending(orders, id)
    ensures NotPending(Archive.Kept(orders, cutoff), id)
  {
    var gone := Archive.ArchiveIds(orders, cutoff);
    if id in gone || IndexOf(orders, id) == |orders| {
      ArchivedIdIsGone(orders, gone, id);
    } else {
      FirstRowStays(orders, gone, id);
    }
  }

  lemma NotPendingInPlace(before: seq<Order>, after: seq<Order>, id: string)
    requires |before| <= |after| && forall i :: 0 <= i < |before| ==> after[i].id == before[i].id
    requires IndexOf(before, id) < |before| && after[IndexOf(before, id)].status != Pending
    ensures NotPending(after, id)
  {
    IndexIsStable(before, after, id);
  }

  lemma NeverPendingInPlace(d: Desk, step: Step, now: int, id: string)
    requires NoPendingReports(step) && !step.Archive? && IndexOf(d.orders, id) < |d.orders| && NotPending(d.orders, id)
    ensures NotPending(Next(d, step, now).orders, id)
  {
    RowsKeepPlaces(d, step, now);
    RowStaysNotPending(d, step, now, IndexOf(d.orders, id));
    NotPendingInPlace(d.orders, Next(d, step, now).orders, id);
  }

  /** Only a merged report can make a row pending again: no other transaction does, and no
      write of a row read earlier. */
  lemma NeverPendingAgain(d: Desk, step: Step, now: int, id: string)
    requires NoPendingReports(step) && IndexOf(d.orders, id) < |d.orders| && NotPending(d.orders, id)
    ensures NotPending(Next(d, step, now).orders, id)
  {
    if step.Archive? {
      assert Next(d, step, now).orders == Archive.Kept(d.orders, step.cutoff);
      ArchivingKeepsNotPending(d.orders, step.cutoff, id);
    } else {
      NeverPendingInPlace(d, step, now, id);
    }
  }

  lemma OnlyTwoStepsAppend(d: Desk, step: Step, now: int)
    requires !step.Archive? && !step.Enqueue? && !step.CloseExternally?
    ensures |Next(d, step, now).orders| == |d.orders|
  {
  }

  lemma EnqueuedIsNew(d: Desk, id: string, request: Request, scope: Option<Scope>, now: int, i: nat)
    requires |d.orders| <= i < |Next(d, Enqueue(id, request, scope), now).orders|
    ensures Next(d, Enqueue(id, request, scope), now).orders[i].id !in d.placed
  {
  }

  lemma SyntheticRowIsFilled(orders: seq<Order>, buyId: string, syntheticId: string, now: int, i: nat)
    requires |orders| <= i < |ClosedOutside(orders, buyId, syntheticId, now)|
    ensures ClosedOutside(orders, buyId, syntheticId, now)[i].status == Filled
  {
  }

  lemma NewRowsAreNotPending(d: Desk, step: Step, now: int, i: nat)
    requires !step.Archive? && |d.orders| <= i < |Next(d, step, now).orders| && Next(d, step, now).orders[i].id in d.placed
    ensures Next(d, step, now).orders[i].status != Pending
  {
    if step.CloseExternally? {
      SyntheticRowIsFilled(d.orders, step.buyId, step.syntheticId, now, i);
    } else if step.Enqueue? {
      EnqueuedIsNew(d, step.id, step.request, step.boundTo, now, i);
    } else {
      OnlyTwoStepsAppend(d, step, now);
    }
  }

  lemma AppendedIsNotPending(d: Desk, step: Step, now: int, id: string)
    requires IndexOf(d.orders, id) == |d.orders| && id in d.placed && !step.Archive?
    ensures NotPending(Next(d, step, now).orders, id)
  {
    RowsKeepPlaces(d, step, now);
    var e := Next(d, step, now);
    var j := IndexOf(e.orders, id);
    if j < |e.orders| {
      NewRowsAreNotPending(d, step, now, j);
    }
  }

  /** An id whose row was archived does not come back as a pending one. */
  lemma ArchivedStaysAway(d: Desk, step: Step, now: int, id: string)
    requires IndexOf(d.orders, id) == |d.orders| && id in d.placed
    ensures NotPending(Next(d, step, now).orders, id)
  {
    if step.Archive? {
      ArchivingKeepsNotPending(d.orders, step.cutoff, id);
    } else {
      AppendedIsNotPending(d, step, now, id);
    }
  }

  lemma PlacedGrowsByNew(d: Desk, step: Step, now: int)
    ensures var e := Next(d, step, now);
            || e.placed == d.placed
            || (step.Begin? && e.placed == d.placed + [step.id] && !NotPending(d.orders, step.id) && NotPending(e.orders, step.id))
  {
    if step.Begin? {
      RowsKeepPlaces(d, step, now);
      if IndexOf(d.orders, step.id) < |d.orders| {
        IndexIsStable(d.orders, Next(d, step, now).orders, step.id);
      }
    }
  }

  lemma StepSubmitsOnce(d: Desk, step: Step, now: int)
    requires SubmittedOnce(d) && NoPendingReports(step)
    ensures SubmittedOnce(Next(d, step, now))
  {
    var e := Next(d, step, now);
    forall id | id in d.placed ensures NotPending(e.orders, id) {
      if IndexOf(d.orders, id) < |d.orders| {
        NeverPendingAgain(d, step, now, id);
      } else {
        ArchivedStaysAway(d, step, now, id);
      }
    }
    PlacedGrowsByNew(d, step, now);
  }

  /** Under any interleaving, recoveries, archiving and late writes of rows read earlier
      included, `place_order` runs at most once per order, provided no adapter reports "pending". */
  lemma {:induction false} SubmittedAtMostOnce(d: Desk, steps: seq<Step>, now: int)
    requires d.placed == [] && forall s :: s in steps ==> NoPendingReports(s)
    ensures SubmittedOnce(Run(d, steps, now))
  {
    if steps != [] {
      SubmittedAtMostOnce(d, steps[..|steps| - 1], now);
      StepSubmitsOnce(Run(d, steps[..|steps| - 1], now), steps[|steps| - 1], now);
    }
  }

  // ---- one active order, one open buy, per ticker, market, side and account ----

  predicate ShareAccount(a: Order, b: Order) {
    a.instance.None? || b.instance.None? || a.instance == b.instance
  }

  ghost predicate SlotsUnique(orders: seq<Order>) {
    && DistinctIds(orders)
    && forall i, j :: 0 <= i < j < |orders| && SameSlot(orders[i].request, orders[j].request) && ShareAccount(orders[i], orders[j]) ==>
         !(Blocking(orders[i], ById(orders)) && Blocking(orders[j], ById(orders)))
  }

  /** How one row may change: its slot stays, an unbound row may become bound, and its
      status and fills move only while it is working. */
  predicate Evolves(a: Order, b: Order) {
    && a.id == b.id && a.request == b.request
    && (a.instance.None? || a.instance == b.instance)
    && ((a.status == b.status && a.filled == b.filled) || Working(a.status))
  }

  lemma {:induction false} SameAmounts(ids: seq<string>, a: Book, b: Book, amount: Order -> int)
    requires forall id :: id in ids ==> Amount(id, a, amount) == Amount(id, b, amount)
    ensures Total(ids, a, amount) == Total(ids, b, amount)
  {
    if ids != [] {
      SameAmounts(ids[..|ids| - 1], a, b, amount);
    }
  }

  /** A row that did not change does not start to block: if one of its sells changed,
      that sell was working, so the row blocked already. */
  lemma BlockingDoesNotStart(o: Order, before: Book, after: Book)
    requires before.Keys == after.Keys
    requires forall id :: id in before ==> Evolves(before[id], after[id])
    ensures Blocking(o, after) ==> Blocking(o, before)
  {
    if Blocking(o, after) && !Working(o.status) && !HasWorkingSell(o, before) {
      Archive.DedupKeepsIds(LinkIds(o));
      SameAmounts(Dedup(LinkIds(o)), before, after, ConfirmedFill);
    }
  }

  lemma EvolvedBooks(before: seq<Order>, after: seq<Order>)
    requires DistinctIds(before) && |before| == |after|
    requires forall i :: 0 <= i < |before| ==> Evolves(before[i], after[i])
    ensures DistinctIds(after)
    ensures ById(before).Keys == ById(after).Keys
    ensures forall id :: id in ById(before) ==> Evolves(ById(before)[id], ById(after)[id])
  {
    var a, b := ById(before), ById(after);
    assert DistinctIds(after) by {
      forall i, j | 0 <= i < j < |after| ensures after[i].id != after[j].id {
        assert before[i].id != before[j].id;
      }
    }
    forall id | id in a ensures id in b && Evolves(a[id], b[id]) {
      var i :| 0 <= i < |before| && before[i] == a[id];
      ByIdFinds(after, i);
    }
    forall id | id in b ensures id in a {
      var i :| 0 <= i < |after| && after[i] == b[id];
      ByIdFinds(before, i);
    }
  }

  lemma EvolutionKeepsSlots(before: seq<Order>, after: seq<Order>)
    requires SlotsUnique(before) && |before| == |after|
    requires forall i :: 0 <= i < |before| ==> Evolves(before[i], after[i])
    requires forall i :: 0 <= i < |before| && before[i] != after[i] ==>
      Blocking(before[i], ById(before)) || !Blocking(after[i], ById(after))
    ensures SlotsUnique(after)
  {
    EvolvedBooks(before, after);
    forall i | 0 <= i < |before| ensures Blocking(after[i], ById(after)) ==> Blocking(before[i], ById(before)) {
      if before[i] == after[i] {
        BlockingDoesNotStart(before[i], ById(before), ById(after));
      }
    }
  }

  lemma AppendKeepsBlocking(orders: seq<Order>, row: Order)
    requires Fresh(row.id, orders)
    ensures forall o :: o in orders ==> (Blocking(o, ById(orders + [row])) <==> Blocking(o, ById(orders)))
  {
    var more := orders + [row];
    assert more[..|more| - 1] == orders;
    forall o | o in orders ensures Blocking(o, ById(more)) <==> Blocking(o, ById(orders)) {
      Archive.SameView(o, ById(more), ById(orders));
    }
  }

  lemma AppendKeepsSlots(orders: seq<Order>, row: Order)
    requires SlotsUnique(orders) && Fresh(row.id, orders)
    requires forall o :: o in orders && SameSlot(o.request, row.request) && ShareAccount(o, row) ==>
      !(Blocking(o, ById(orders)) && Blocking(row, ById(orders + [row])))
    ensures SlotsUnique(orders + [row])
  {
    var more := orders + [row];
    AppendKeepsBlocking(orders, row);
    forall i, j | 0 <= i < j < |more| ensures more[i].id != more[j].id {
      assert more[i] in orders;
    }
  }

  /** All that slots and remaining shares depend on. */
  predicate SameTrade(a: Order, b: Order) {
    && a.id == b.id && a.request == b.request && a.instance == b.instance
    && a.status == b.status && a.filled == b.filled && a.partialIds == b.partialIds && a.exitId == b.exitId
  }

  /** Between the read and the write of a row nobody else changed its status, fills or links,
      and a position that gains a link still holds its slot. */
  predicate Undisturbed(d: Desk, copy: nat, change: Change) {
    copy in d.copies ==>
      var i := IndexOf(d.orders, d.copies[copy].id);
      i < |d.orders| ==>
        && SameTrade(d.orders[i], d.copies[copy])
        && (change.LinkExit? || change.LinkPartial? ==> Blocking(d.orders[i], ById(d.orders)))
  }

  /** Recovery leaves waiting approvals alone, writes are undisturbed, and archiving meets
      links that belong to one buy each. */
  ghost predicate Orderly(d: Desk, step: Step) {
    match step
    case Recover(id, _, _, _) => id !in d.submitting
    case Write(copy, change) => Undisturbed(d, copy, change)
    case Archive(_) => Archive.LinksDisjoint(d.orders)
    case _ => true
  }

  ghost predicate Awaits(orders: seq<Order>, id: string, scope: Scope) {
    var i := IndexOf(orders, id);
    i < |orders| && orders[i].status == Submitting && orders[i].instance == Some(scope.instance)
  }

  ghost predicate SlotInvariant(d: Desk) {
    && SlotsUnique(d.orders)
    && forall id :: id in d.submitting ==> Awaits(d.orders, id, d.submitting[id])
  }

  /** A row read while it was held or stale differs from a waiting one. */
  lemma WriteSparesWaitingRow(d: Desk, copy: nat, change: Change, now: int, i: nat)
    requires Undisturbed(d, copy, change) && i < |d.orders| && d.orders[i].status == Submitting
    ensures Next(d, Write(copy, change), now).orders[i] == d.orders[i]
  {
  }

  /** A waiting approval's row is moved by nothing but its own approver. */
  lemma WaitingRowIsLeftAlone(d: Desk, step: Step, now: int, i: nat)
    requires Orderly(d, step) && !step.Archive?
    requires i < |d.orders| && d.orders[i].id in d.submitting && d.orders[i].id in Next(d, step, now).submitting
    requires d.orders[i].status == Submitting && IndexOf(d.orders, d.orders[i].id) == i
    ensures Next(d, step, now).orders[i].status == Submitting
    ensures Next(d, step, now).orders[i].instance == d.orders[i].instance
    ensures Next(d, step, now).submitting[d.orders[i].id] == d.submitting[d.orders[i].id]
  {
    match step
    case Enqueue(_, _, _) =>
    case Begin(_, _) =>
    case Finish(_, _) =>
    case Crash(_) =>
    case Sync(_, _) =>
    case Recover(_, _, _, _) =>
    case CloseExternally(_, _) =>
    case Read(_, _) =>
    case Write(copy, change) => WriteSparesWaitingRow(d, copy, change, now, i);
  }

  lemma ArchivingKeepsAwaits(orders: seq<Order>, cutoff: int, id: string, scope: Scope)
    requires DistinctIds(orders) && Archive.LinksDisjoint(orders) && Awaits(orders, id, scope)
    ensures Awaits(Archive.Kept(orders, cutoff), id, scope)
  {
    var o := orders[IndexOf(orders, id)];
    if id in Archive.ArchiveIds(orders, cutoff) {
      Archive.OnlyFinishedRowsLeave(orders, cutoff, o);
    }
    FirstRowStays(orders, Archive.ArchiveIds(orders, cutoff), id);
  }

  lemma KeepsWaiting(d: Desk, step: Step, now: int, id: string)
    requires SlotInvariant(d) && Orderly(d, step) && !step.Archive?
    requires id in d.submitting && id in Next(d, step, now).submitting
    ensures Awaits(Next(d, step, now).orders, id, Next(d, step, now).submitting[id])
  {
    assert Awaits(d.orders, id, d.submitting[id]);
    RowsKeepPlaces(d, step, now);
    IndexIsStable(d.orders, Next(d, step, now).orders, id);
    WaitingRowIsLeftAlone(d, step, now, IndexOf(d.orders, id));
  }

  lemma BeginsWaiting(d: Desk, step: Step, now: int, id: string)
    requires id !in d.submitting && id in Next(d, step, now).submitting
    ensures Awaits(Next(d, step, now).orders, id, Next(d, step, now).submitting[id])
  {
    RowsKeepPlaces(d, step, now);
    IndexIsStable(d.orders, Next(d, step, now).orders, id);
  }

  lemma StepKeepsSubmitting(d: Desk, step: Step, now: int)
    requires SlotInvariant(d) && Orderly(d, step)
    ensures var e := Next(d, step, now);
            forall id :: id in e.submitting ==> Awaits(e.orders, id, e.submitting[id])
  {
    var e := Next(d, step, now);
    forall id | id in e.submitting ensures Awaits(e.orders, id, e.submitting[id]) {
      if id !in d.submitting {
        BeginsWaiting(d, step, now, id);
      } else if step.Archive? {
        ArchivingKeepsAwaits(d.orders, step.cutoff, id, d.submitting[id]);
      } else {
        KeepsWaiting(d, step, now, id);
      }
    }
  }

  lemma EnqueueKeepsSlots(orders: seq<Order>, row: Order, scope: Option<Scope>)
    requires SlotsUnique(orders) && Fresh(row.id, orders) && Admits(orders, row.request, scope)
    requires row.instance == if scope.Some? then Some(scope.value.instance) else None
    ensures SlotsUnique(orders + [row])
  {
    forall o | o in orders && SameSlot(o.request, row.request) && ShareAccount(o, row)
      ensures !Blocking(o, ById(orders))
    {
      assert !Refuses(o, row.request, scope, ById(orders));
    }
    AppendKeepsSlots(orders, row);
  }

  lemma AppendKeepsConfirmed(orders: seq<Order>, i: nat, sell: Order)
    requires Fresh(sell.id, orders) && i < |orders|
    ensures Confirmed(orders[i], ById(orders + [sell])) == Confirmed(orders[i], ById(orders))
  {
    var more := orders + [sell];
    assert more[..|more| - 1] == orders;
    assert orders[i] in orders;
    Archive.SameView(orders[i], ById(more), ById(orders));
  }

  lemma SettledSellDoesNotBlock(sell: Order, book: Book)
    requires sell.request.side == Sell && !Working(sell.status)
    ensures !Blocking(sell, book)
  {
  }

  lemma CloseKeepsSlots(orders: seq<Order>, more: seq<Order>, i: nat, row: Order, sell: Order)
    requires SlotsUnique(orders) && Fresh(sell.id, orders) && sell.request.side == Sell && !Working(sell.status)
    requires i < |orders| && more == orders + [sell]
    requires Confirmed(orders[i], ById(orders)) > 0 && row == orders[i].(exitId := row.exitId, partialIds := row.partialIds)
    ensures SlotsUnique(more[i := row])
  {
    // append first: the new link then points to an existing row
    SettledSellDoesNotBlock(sell, ById(more));
    AppendKeepsSlots(orders, sell);
    AppendKeepsConfirmed(orders, i, sell);
    RelinkKeepsSlots(more, i, row);
  }

  lemma OneRowKeepsSlots(orders: seq<Order>, i: nat, row: Order)
    requires SlotsUnique(orders) && i < |orders| && Evolves(orders[i], row) && Working(orders[i].status)
    ensures SlotsUnique(orders[i := row])
  {
    EvolutionKeepsSlots(orders, orders[i := row]);
  }

  lemma SyncKeepsSlots(orders: seq<Order>, scope: Scope, reports: Reports, now: int)
    requires SlotsUnique(orders)
    ensures SlotsUnique(Synced(orders, scope, reports, now))
  {
    var after := Synced(orders, scope, reports, now);
    forall i | 0 <= i < |orders| ensures Evolves(orders[i], after[i]) && (orders[i] != after[i] ==> Working(orders[i].status)) {
      assert after[i] == SyncedRow(orders[i], scope, reports, now);
    }
    EvolutionKeepsSlots(orders, after);
  }

  /** Blocking looks only at the trade. */
  lemma SameTradeBlocksAlike(a: Order, b: Order, book: Book)
    requires SameTrade(a, b)
    ensures Blocking(a, book) <==> Blocking(b, book)
  {
    assert LinkIds(a) == LinkIds(b);
  }

  lemma SameTradeKeepsSlots(orders: seq<Order>, i: nat, row: Order)
    requires SlotsUnique(orders) && i < |orders| && SameTrade(orders[i], row)
    ensures SlotsUnique(orders[i := row])
  {
    var after := orders[i := row];
    EvolvedBooks(orders, after);
    BlockingDoesNotStart(orders[i], ById(orders), ById(after));
    SameTradeBlocksAlike(orders[i], row, ById(after));
    EvolutionKeepsSlots(orders, after);
  }

  lemma WriteKeepsSlots(orders: seq<Order>, i: nat, read: Order, change: Change, now: int)
    requires SlotsUnique(orders) && i < |orders| && MayWrite(read, change) && SameTrade(orders[i], read)
    requires change.LinkExit? || change.LinkPartial? ==> Blocking(orders[i], ById(orders))
    ensures SlotsUnique(orders[i := Changed(read, change, now)])
  {
    var row := Changed(read, change, now);
    match change
    case LinkExit(_) => EvolutionKeepsSlots(orders, orders[i := row]);
    case LinkPartial(_, _) => EvolutionKeepsSlots(orders, orders[i := row]);
    case RaiseTrail(_) => SameTradeKeepsSlots(orders, i, row);
    case SetStop(_) => SameTradeKeepsSlots(orders, i, row);
    case CancelStale(_, _) => OneRowKeepsSlots(orders, i, row);
  }

  lemma TwoOfASlot(orders: seq<Order>, a: Order, b: Order)
    requires SlotsUnique(orders) && a in orders && b in orders && a.id != b.id
    requires SameSlot(a.request, b.request) && ShareAccount(a, b)
    ensures !(Blocking(a, ById(orders)) && Blocking(b, ById(orders)))
  {
    var i :| 0 <= i < |orders| && orders[i] == a;
    var j :| 0 <= j < |orders| && orders[j] == b;
    assert i != j;
    if i < j {
      assert !(Blocking(orders[i], ById(orders)) && Blocking(orders[j], ById(orders)));
    } else {
      assert !(Blocking(orders[j], ById(orders)) && Blocking(orders[i], ById(orders)));
    }
  }

  lemma KeptRowBlocksAlike(orders: seq<Order>, cutoff: int, o: Order)
    requires DistinctIds(orders) && Archive.LinksDisjoint(orders) && o in Archive.Kept(orders, cutoff)
    ensures Blocking(o, ById(Archive.Kept(orders, cutoff))) <==> Blocking(o, ById(orders))
  {
    if o.request.side == Buy {
      Archive.KeptBuysSeeTheSame(orders, cutoff, o);
    }
  }

  lemma ArchivingKeepsSlots(orders: seq<Order>, cutoff: int)
    requires SlotsUnique(orders) && Archive.LinksDisjoint(orders)
    ensures SlotsUnique(Archive.Kept(orders, cutoff))
  {
    var kept := Archive.Kept(orders, cutoff);
    Archive.UnselectedKeepsDistinct(orders, Archive.ArchiveIds(orders, cutoff));
    forall i, j | 0 <= i < j < |kept| && SameSlot(kept[i].request, kept[j].request) && ShareAccount(kept[i], kept[j])
      ensures !(Blocking(kept[i], ById(kept)) && Blocking(kept[j], ById(kept)))
    {
      assert kept[i] in kept && kept[j] in kept;
      KeptRowBlocksAlike(orders, cutoff, kept[i]);
      KeptRowBlocksAlike(orders, cutoff, kept[j]);
      TwoOfASlot(orders, kept[i], kept[j]);
    }
  }

  lemma RewriteKeepsSlots(d: Desk, step: Step, now: int)
    requires SlotInvariant(d) && Orderly(d, step) && Next(d, step, now).orders != d.orders
    requires step.Begin? || step.Finish? || step.Recover?
    ensures SlotsUnique(Next(d, step, now).orders)
  {
    var i := IndexOf(d.orders, step.id);
    var o := d.orders[i];
    match step
    case Begin(id, scope) => OneRowKeepsSlots(d.orders, i, SubmittingRow(o, scope, now));
    case Finish(id, placement) =>
      assert Awaits(d.orders, id, d.submitting[id]);
      OneRowKeepsSlots(d.orders, i, PlacedRow(o, d.submitting[id], placement, now));
    case Recover(id, scope, accepted, brokerId) => OneRowKeepsSlots(d.orders, i, RecoveredRow(o, accepted, brokerId, now));
  }

  lemma EnqueueStepKeepsSlots(d: Desk, id: string, request: Request, scope: Option<Scope>, now: int)
    requires SlotsUnique(d.orders)
    ensures SlotsUnique(Next(d, Enqueue(id, request, scope), now).orders)
  {
    if Fresh(id, d.orders) && Admits(d.orders, request, scope) {
      EnqueueKeepsSlots(d.orders, NewRow(id, request, scope, None, None, None, now), scope);
    }
  }

  lemma ClosingKeepsSlots(orders: seq<Order>, buyId: string, syntheticId: string, now: int)
    requires SlotsUnique(orders)
    ensures SlotsUnique(ClosedOutside(orders, buyId, syntheticId, now))
  {
    var i := IndexOf(orders, buyId);
    if i < |orders| && Fresh(syntheticId, orders) && Confirmed(orders[i], ById(orders)) > 0 {
      var sell := SyntheticSell(syntheticId, orders[i], Confirmed(orders[i], ById(orders)), now);
      CloseKeepsSlots(orders, orders + [sell], i, orders[i].(exitId := Some(syntheticId)), sell);
    }
  }

  lemma WriteWrites(d: Desk, copy: nat, change: Change, now: int, i: nat)
    requires copy in d.copies && MayWrite(d.copies[copy], change) && IndexOf(d.orders, d.copies[copy].id) == i < |d.orders|
    ensures Next(d, Write(copy, change), now).orders == d.orders[i := Changed(d.copies[copy], change, now)]
  {
  }

  lemma WriteIsDropped(d: Desk, copy: nat, change: Change, now: int)
    requires copy in d.copies ==> !MayWrite(d.copies[copy], change) || IndexOf(d.orders, d.copies[copy].id) == |d.orders|
    ensures Next(d, Write(copy, change), now) == d
  {
  }

  lemma WriteStepKeepsSlots(d: Desk, copy: nat, change: Change, now: int)
    requires SlotsUnique(d.orders) && Undisturbed(d, copy, change)
    ensures SlotsUnique(Next(d, Write(copy, change), now).orders)
  {
    if copy in d.copies && MayWrite(d.copies[copy], change) && IndexOf(d.orders, d.copies[copy].id) < |d.orders| {
      var i := IndexOf(d.orders, d.copies[copy].id);
      WriteWrites(d, copy, change, now, i);
      WriteKeepsSlots(d.orders, i, d.copies[copy], change, now);
    } else {
      WriteIsDropped(d, copy, change, now);
    }
  }

  lemma StepKeepsSlots(d: Desk, step: Step, now: int)
    requires SlotInvariant(d) && Orderly(d, step)
    ensures SlotsUnique(Next(d, step, now).orders)
  {
    match step
    case Enqueue(id, request, scope) => EnqueueStepKeepsSlots(d, id, request, scope, now);
    case CloseExternally(buyId, syntheticId) => ClosingKeepsSlots(d.orders, buyId, syntheticId, now);
    case Sync(scope, reports) => SyncKeepsSlots(d.orders, scope, reports, now);
    case Archive(cutoff) => ArchivingKeepsSlots(d.orders, cutoff);
    case Write(copy, change) => WriteStepKeepsSlots(d, copy, change, now);
    case Crash(_) =>
    case Read(_, _) =>
    case _ =>
      if Next(d, step, now).orders != d.orders {
        RewriteKeepsSlots(d, step, now);
      }
  }

  lemma RelinkKeepsSlots(orders: seq<Order>, i: nat, row: Order)
    requires SlotsUnique(orders) && i < |orders|
    requires row == orders[i].(exitId := row.exitId, partialIds := row.partialIds)
    requires Confirmed(orders[i], ById(orders)) > 0
    ensures SlotsUnique(orders[i := row])
  {
    EvolutionKeepsSlots(orders, orders[i := row]);
  }

  lemma StepKeepsInvariant(d: Desk, step: Step, now: int)
    requires SlotInvariant(d) && Orderly(d, step)
    ensures SlotInvariant(Next(d, step, now))
  {
    StepKeepsSlots(d, step, now);
    StepKeepsSubmitting(d, step, now);
  }

  ghost predicate OrderlyThroughout(d: Desk, steps: seq<Step>, now: int) {
    forall n :: 0 <= n < |steps| ==> Orderly(Run(d, steps[..n], now), steps[n])
  }

  /** Over every orderly run no two rows of one ticker, market, side and account both keep
      their slot: at most one active order, and at most one buy that is working or still
      holds shares. */
  lemma {:induction false} SlotsStayUnique(d: Desk, steps: seq<Step>, now: int)
    requires SlotInvariant(d) && OrderlyThroughout(d, steps, now)
    ensures SlotInvariant(Run(d, steps, now))
  {
    if steps != [] {
      var rest := steps[..|steps| - 1];
      assert forall n :: 0 <= n < |rest| ==> rest[..n] == steps[..n];
      SlotsStayUnique(d, rest, now);
      assert Orderly(Run(d, steps[..|steps| - 1], now), steps[|steps| - 1]);
      StepKeepsInvariant(Run(d, rest, now), steps[|steps| - 1], now);
    }
  }

  // ---- the hypotheses are needed ----

  lemma TwoActiveRowsClash(orders: seq<Order>, i: nat, j: nat)
    requires i < j < |orders| && Working(orders[i].status) && Working(orders[j].status)
    requires SameSlot(orders[i].request, orders[j].request) && ShareAccount(orders[i], orders[j])
    ensures !SlotsUnique(orders)
  {
    assert Blocking(orders[i], ById(orders)) && Blocking(orders[j], ById(orders));
  }

  lemma NeighbourStaysFree(orders: seq<Order>, i: nat, row: Order, j: nat)
    requires SlotsUnique(orders) && i < |orders| && j < |orders| && i != j
    requires Evolves(orders[i], row) && Working(orders[i].status)
    requires SameSlot(orders[i].request, orders[j].request) && ShareAccount(orders[i], orders[j])
    ensures !Blocking(orders[j], ById(orders[i := row]))
  {
    EvolvedBooks(orders, orders[i := row]);
    BlockingDoesNotStart(orders[j], ById(orders), ById(orders[i := row]));
    assert Blocking(orders[i], ById(orders));
    TwoOfASlot(orders, orders[i], orders[j]);
  }

  lemma DeadDoesNotBlock(o: Order, book: Book)
    requires Dead(o.status)
    ensures !Blocking(o, book)
  {
  }

  lemma NeighbourDoesNotRefuse(orders: seq<Order>, i: nat, row: Order, j: nat, request: Request, scope: Scope)
    requires SlotsUnique(orders) && i < |orders| && j < |orders| && i != j
    requires Working(orders[i].status) && orders[i].instance == Some(scope.instance) && Evolves(orders[i], row)
    requires SameSlot(orders[i].request, request)
    ensures !Refuses(orders[j], request, Some(scope), ById(orders[i := row]))
  {
    if SameSlot(orders[j].request, request) && OverlapsScope(orders[j], Some(scope)) {
      NeighbourStaysFree(orders, i, row, j);
    }
  }

  /** When a working row of an account stops blocking, every request for its slot is admitted. */
  lemma FreedSlotAdmits(orders: seq<Order>, i: nat, row: Order, request: Request, scope: Scope)
    requires SlotsUnique(orders) && i < |orders| && Working(orders[i].status) && orders[i].instance == Some(scope.instance)
    requires Evolves(orders[i], row) && !Blocking(row, ById(orders[i := row])) && SameSlot(orders[i].request, request)
    ensures Admits(orders[i := row], request, Some(scope))
  {
    var after := orders[i := row];
    forall o | o in after ensures !Refuses(o, request, Some(scope), ById(after)) {
      var j :| 0 <= j < |after| && after[j] == o;
      if j != i {
        NeighbourDoesNotRefuse(orders, i, row, j, request, scope);
      }
    }
  }

  /** When it dies, its slot is free. */
  lemma DeathFreesTheSlot(orders: seq<Order>, i: nat, row: Order, request: Request, scope: Scope)
    requires SlotsUnique(orders) && i < |orders| && Working(orders[i].status) && orders[i].instance == Some(scope.instance)
    requires Evolves(orders[i], row) && Dead(row.status) && SameSlot(orders[i].request, request)
    ensures Admits(orders[i := row], request, Some(scope))
  {
    DeadDoesNotBlock(row, ById(orders[i := row]));
    FreedSlotAdmits(orders, i, row, request, scope);
  }

  /** A request of the slot of row i, under an id that was never used. */
  predicate Rival(d: Desk, i: nat, id: string, request: Request)
    requires i < |d.orders|
  {
    Fresh(id, d.orders) && id !in d.placed && request.quantity > 0 && SameSlot(d.orders[i].request, request)
  }

  /** A later row is active in the slot of row i. */
  predicate Shadowed(d: Desk, i: nat, id: string) {
    && IndexOf(d.orders, id) == i < |d.orders| - 1 && Working(d.orders[|d.orders| - 1].status)
    && SameSlot(d.orders[i].request, d.orders[|d.orders| - 1].request)
    && d.orders[i].instance.Some? && d.orders[i].instance == d.orders[|d.orders| - 1].instance
  }

  lemma StaysFresh(orders: seq<Order>, i: nat, row: Order, id: string)
    requires Fresh(id, orders) && i < |orders| && row.id == orders[i].id && LinkIds(row) == LinkIds(orders[i])
    ensures Fresh(id, orders[i := row])
  {
    assert orders[i] in orders;
  }

  lemma RivalShadows(d: Desk, i: nat, row: Order, rival: Order)
    requires i < |d.orders| && IndexOf(d.orders, d.orders[i].id) == i && row.id == d.orders[i].id
    requires SameSlot(row.request, rival.request) && row.instance.Some? && row.instance == rival.instance && Working(rival.status)
    ensures Shadowed(d.(orders := d.orders[i := row] + [rival]), i, d.orders[i].id)
  {
    IndexIsStable(d.orders, d.orders[i := row] + [rival], d.orders[i].id);
  }

  lemma EnqueueAppends(d: Desk, id: string, request: Request, scope: Option<Scope>, now: int)
    requires Fresh(id, d.orders) && id !in d.placed && request.quantity > 0 && Admits(d.orders, request, scope)
    ensures Next(d, Enqueue(id, request, scope), now) == d.(orders := d.orders + [NewRow(id, request, scope, None, None, None, now)])
  {
  }

  /** When row i has stopped blocking, a rival enters. */
  lemma RivalEnters(d: Desk, i: nat, row: Order, id: string, request: Request, scope: Scope, now: int)
    requires SlotsUnique(d.orders) && i < |d.orders| && Rival(d, i, id, request) && IndexOf(d.orders, d.orders[i].id) == i
    requires Working(d.orders[i].status) && d.orders[i].instance == Some(scope.instance) == row.instance
    requires Evolves(d.orders[i], row) && !Blocking(row, ById(d.orders[i := row])) && LinkIds(row) == LinkIds(d.orders[i])
    ensures var e := Next(d.(orders := d.orders[i := row]), Enqueue(id, request, Some(scope)), now);
            Shadowed(e, i, d.orders[i].id) && e == d.(orders := e.orders) && e.orders[i] == row
  {
    var freed := d.(orders := d.orders[i := row]);
    FreedSlotAdmits(d.orders, i, row, request, scope);
    StaysFresh(d.orders, i, row, id);
    EnqueueAppends(freed, id, request, Some(scope), now);
    RivalShadows(d, i, row, NewRow(id, request, Some(scope), None, None, None, now));
  }

  /** The last transaction of an approval looks at the id only, and so revives a dead row. */
  lemma FinishRevives(d: Desk, i: nat, id: string, reference: string, now: int)
    requires Shadowed(d, i, id) && id in d.submitting && d.orders[i].instance == Some(d.submitting[id].instance)
    ensures !SlotsUnique(Next(d, Finish(id, Accepted(reference)), now).orders)
  {
    var alive := PlacedRow(d.orders[i], d.submitting[id], Accepted(reference), now);
    assert Next(d, Finish(id, Accepted(reference)), now).orders == d.orders[i := alive];
    TwoActiveRowsClash(d.orders[i := alive], i, |d.orders| - 1);
  }

  /** A write of a row that was still working when read revives it, too. */
  lemma WriteRevives(d: Desk, i: nat, copy: nat, trail: real, now: int)
    requires copy in d.copies && Shadowed(d, i, d.copies[copy].id) && d.copies[copy].status == PartiallyFilled
    requires d.copies[copy].request == d.orders[i].request && d.copies[copy].instance == d.orders[i].instance
    ensures !SlotsUnique(Next(d, Write(copy, RaiseTrail(trail)), now).orders)
  {
    var alive := Changed(d.copies[copy], RaiseTrail(trail), now);
    assert Next(d, Write(copy, RaiseTrail(trail)), now).orders == d.orders[i := alive];
    TwoActiveRowsClash(d.orders[i := alive], i, |d.orders| - 1);
  }

  /** A recovery that rejects order i lets a rival in. */
  lemma RivalEntersAfterRejection(d: Desk, i: nat, brokerId: string, id: string, request: Request, scope: Scope, now: int)
    requires SlotsUnique(d.orders) && i < |d.orders| && Rival(d, i, id, request) && IndexOf(d.orders, d.orders[i].id) == i
    requires Recoverable(d.orders[i], scope)
    ensures var e := Next(Next(d, Recover(d.orders[i].id, scope, false, brokerId), now), Enqueue(id, request, Some(scope)), now);
            && Shadowed(e, i, d.orders[i].id) && e == d.(orders := e.orders)
            && e.orders[i].instance == d.orders[i].instance && e.orders[i].request == d.orders[i].request
  {
    var dead := RecoveredRow(d.orders[i], false, brokerId, now);
    assert Next(d, Recover(d.orders[i].id, scope, false, brokerId), now) == d.(orders := d.orders[i := dead]);
    DeadDoesNotBlock(dead, ById(d.orders[i := dead]));
    RivalEnters(d, i, dead, id, request, scope, now);
  }

  /** A recovery that overlaps a waiting approval may reject its row. The slot is then free,
      a second order of the slot is admitted, and the returning approval revives the first:
      two active orders, from every state and with every such recovery. */
  lemma OverlappingRecoveryDuplicates(d: Desk, id: string, scope: Scope, brokerId: string, second: string, request: Request,
          reference: string, now: int)
    requires SlotInvariant(d) && id in d.submitting && IndexOf(d.orders, id) < |d.orders|
    requires Recoverable(d.orders[IndexOf(d.orders, id)], scope) && Rival(d, IndexOf(d.orders, id), second, request)
    ensures var steps := [Recover(id, scope, false, brokerId), Enqueue(second, request, Some(scope)), Finish(id, Accepted(reference))];
            !SlotsUnique(Run(d, steps, now).orders)
  {
    var i := IndexOf(d.orders, id);
    assert Awaits(d.orders, id, d.submitting[id]);
    var recover, enter := Recover(id, scope, false, brokerId), Enqueue(second, request, Some(scope));
    RivalEntersAfterRejection(d, i, brokerId, second, request, scope, now);
    FinishRevives(Next(Next(d, recover, now), enter, now), i, id, reference, now);
    Runs.RunOfThree(NextAt(now), d, recover, enter, Finish(id, Accepted(reference)));
  }

  lemma SyncOfOne(orders: seq<Order>, i: nat, scope: Scope, fill: Fill, now: int)
    requires DistinctIds(orders) && i < |orders|
    ensures Synced(orders, scope, map[orders[i].id := fill], now) == orders[i := SyncedRow(orders[i], scope, map[orders[i].id := fill], now)]
  {
    var reports := map[orders[i].id := fill];
    forall k | 0 <= k < |orders| && k != i ensures SyncedRow(orders[k], scope, reports, now) == orders[k] {
      assert orders[k].id != orders[i].id;
    }
  }

  lemma SyncWritesOne(d: Desk, i: nat, scope: Scope, fill: Fill, now: int)
    requires DistinctIds(d.orders) && i < |d.orders| && Syncable(d.orders[i], scope)
    ensures Next(d, Sync(scope, map[d.orders[i].id := fill]), now) == d.(orders := d.orders[i := MergeFill(d.orders[i], fill, now)])
  {
    SyncOfOne(d.orders, i, scope, fill, now);
  }

  /** A sync after which order i no longer blocks lets a rival in. */
  lemma RivalEntersAfterSync(d: Desk, i: nat, fill: Fill, id: string, request: Request, scope: Scope, now: int)
    requires SlotsUnique(d.orders) && i < |d.orders| && Rival(d, i, id, request) && IndexOf(d.orders, d.orders[i].id) == i
    requires Syncable(d.orders[i], scope) && FreesSlot(d.orders, i, fill, now)
    ensures var e := Next(Next(d, Sync(scope, map[d.orders[i].id := fill]), now), Enqueue(id, request, Some(scope)), now);
            && Shadowed(e, i, d.orders[i].id) && e == d.(orders := e.orders)
            && e.orders[i].instance == d.orders[i].instance && e.orders[i].request == d.orders[i].request
  {
    SyncWritesOne(d, i, scope, fill, now);
    RivalEnters(d, i, MergeFill(d.orders[i], fill, now), id, request, scope, now);
  }

  /** The report leaves row i without a hold on its slot: dead, or with everything bought sold. */
  predicate FreesSlot(orders: seq<Order>, i: nat, fill: Fill, now: int)
    requires i < |orders|
  {
    var merged := MergeFill(orders[i], fill, now);
    !Blocking(merged, ById(orders[i := merged]))
  }

  lemma DeadReportFreesSlot(orders: seq<Order>, i: nat, fill: Fill, now: int)
    requires i < |orders| && (orders[i].status.Submitted? || orders[i].status.PartiallyFilled?) && Dead(fill.status)
    ensures FreesSlot(orders, i, fill, now)
  {
    var merged := MergeFill(orders[i], fill, now);
    DeadDoesNotBlock(merged, ById(orders[i := merged]));
  }

  lemma RecoverWrites(d: Desk, id: string, scope: Scope, brokerId: string, now: int)
    requires SlotInvariant(d) && IndexOf(d.orders, id) < |d.orders| && Recoverable(d.orders[IndexOf(d.orders, id)], scope) && brokerId != ""
    ensures var i, e := IndexOf(d.orders, id), Next(d, Recover(id, scope, true, brokerId), now);
            && e == d.(orders := d.orders[i := RecoveredRow(d.orders[i], true, brokerId, now)])
            && SlotsUnique(e.orders) && IndexOf(e.orders, id) == i && Syncable(e.orders[i], scope)
  {
    var i := IndexOf(d.orders, id);
    var sent := RecoveredRow(d.orders[i], true, brokerId, now);
    OneRowKeepsSlots(d.orders, i, sent);
    IndexIsStable(d.orders, d.orders[i := sent], id);
  }

  /** A recovery that accepts the row of a waiting approval is no better: a sync may then find
      the order cancelled, a second one enters, and the returning approval revives the first. */
  lemma OverlappingAcceptanceDuplicates(d: Desk, id: string, scope: Scope, brokerId: string, second: string, request: Request,
          reference: string, now: int)
    requires SlotInvariant(d) && id in d.submitting && IndexOf(d.orders, id) < |d.orders| && brokerId != ""
    requires Recoverable(d.orders[IndexOf(d.orders, id)], scope) && Rival(d, IndexOf(d.orders, id), second, request)
    ensures var steps := [Recover(id, scope, true, brokerId), Sync(scope, map[id := Fill(Cancelled, 0, None)]),
                          Enqueue(second, request, Some(scope)), Finish(id, Accepted(reference))];
            !SlotsUnique(Run(d, steps, now).orders)
  {
    var i := IndexOf(d.orders, id);
    assert Awaits(d.orders, id, d.submitting[id]);
    var recover, sync := Recover(id, scope, true, brokerId), Sync(scope, map[id := Fill(Cancelled, 0, None)]);
    var enter := Enqueue(second, request, Some(scope));
    RecoverWrites(d, id, scope, brokerId, now);
    var d1 := Next(d, recover, now);
    DeadReportFreesSlot(d1.orders, i, Fill(Cancelled, 0, None), now);
    RivalEntersAfterSync(d1, i, Fill(Cancelled, 0, None), second, request, scope, now);
    FinishRevives(Next(Next(d1, sync, now), enter, now), i, id, reference, now);
    Runs.RunOfFour(NextAt(now), d, recover, sync, enter, Finish(id, Accepted(reference)));
  }

  /** Whatever orderly steps follow, slots stay unique. */
  ghost predicate SafeFrom(d: Desk, now: int) {
    forall rest :: OrderlyThroughout(d, rest, now) ==> SlotsUnique(Run(d, rest, now).orders)
  }

  /** These steps carry no hypothesis. */
  predicate Harmless(step: Step) {
    !step.Recover? && !step.Write? && !step.Archive?
  }

  lemma ClashMeansUnsafe(d: Desk, steps: seq<Step>, now: int)
    requires steps != [] && !SlotsUnique(Run(d, steps, now).orders) && forall n :: 1 <= n < |steps| ==> Harmless(steps[n])
    ensures !SafeFrom(Next(d, steps[0], now), now)
  {
    var e, rest := Next(d, steps[0], now), steps[1..];
    assert [steps[0]] + rest == steps;
    Runs.RunAfterStep(NextAt(now), d, steps[0], rest);
    assert OrderlyThroughout(e, rest, now) by {
      forall n | 0 <= n < |rest| ensures Orderly(Run(e, rest[..n], now), rest[n]) {
        assert Harmless(steps[n + 1]);
      }
    }
  }

  lemma ThreeStepsClash(d: Desk, a: Step, b: Step, c: Step, now: int)
    requires !SlotsUnique(Run(d, [a, b, c], now).orders) && Harmless(b) && Harmless(c)
    ensures !SafeFrom(Next(d, a, now), now)
  {
    ClashMeansUnsafe(d, [a, b, c], now);
  }

  lemma FourStepsClash(d: Desk, a: Step, b: Step, c: Step, e: Step, now: int)
    requires !SlotsUnique(Run(d, [a, b, c, e], now).orders) && Harmless(b) && Harmless(c) && Harmless(e)
    ensures !SafeFrom(Next(d, a, now), now)
  {
    ClashMeansUnsafe(d, [a, b, c, e], now);
  }

  lemma UnsafeAfterRejection(d: Desk, id: string, scope: Scope, brokerId: string, second: string, request: Request, now: int)
    requires SlotInvariant(d) && id in d.submitting && IndexOf(d.orders, id) < |d.orders|
    requires Recoverable(d.orders[IndexOf(d.orders, id)], scope) && Rival(d, IndexOf(d.orders, id), second, request)
    ensures !SafeFrom(Next(d, Recover(id, scope, false, brokerId), now), now)
  {
    OverlappingRecoveryDuplicates(d, id, scope, brokerId, second, request, "", now);
    ThreeStepsClash(d, Recover(id, scope, false, brokerId), Enqueue(second, request, Some(scope)), Finish(id, Accepted("")), now);
  }

  lemma UnsafeAfterAcceptance(d: Desk, id: string, scope: Scope, brokerId: string, second: string, request: Request, now: int)
    requires SlotInvariant(d) && id in d.submitting && IndexOf(d.orders, id) < |d.orders| && brokerId != ""
    requires Recoverable(d.orders[IndexOf(d.orders, id)], scope) && Rival(d, IndexOf(d.orders, id), second, request)
    ensures !SafeFrom(Next(d, Recover(id, scope, true, brokerId), now), now)
  {
    OverlappingAcceptanceDuplicates(d, id, scope, brokerId, second, request, "", now);
    FourStepsClash(d, Recover(id, scope, true, brokerId), Sync(scope, map[id := Fill(Cancelled, 0, None)]),
                   Enqueue(second, request, Some(scope)), Finish(id, Accepted("")), now);
  }

  /** The exact condition for a recovery that takes effect: from every state that meets the
      invariant, all orderly continuations keep slots unique exactly if no approval of the
      order is waiting. A broker that accepts a replay names the order. */
  lemma RecoveryIsSafeIff(d: Desk, id: string, scope: Scope, accepted: bool, brokerId: string, second: string, request: Request, now: int)
    requires SlotInvariant(d) && IndexOf(d.orders, id) < |d.orders| && (accepted ==> brokerId != "")
    requires Recoverable(d.orders[IndexOf(d.orders, id)], scope) && Rival(d, IndexOf(d.orders, id), second, request)
    ensures SafeFrom(Next(d, Recover(id, scope, accepted, brokerId), now), now) <==> id !in d.submitting
  {
    if id !in d.submitting {
      var e := Next(d, Recover(id, scope, accepted, brokerId), now);
      StepKeepsInvariant(d, Recover(id, scope, accepted, brokerId), now);
      forall rest | OrderlyThroughout(e, rest, now) ensures SlotsUnique(Run(e, rest, now).orders) {
        SlotsStayUnique(e, rest, now);
      }
    } else if accepted {
      UnsafeAfterAcceptance(d, id, scope, brokerId, second, request, now);
    } else {
      UnsafeAfterRejection(d, id, scope, brokerId, second, request, now);
    }
  }

  /** A row that still blocks after the sync keeps its rival out. */
  lemma RivalIsRefused(d: Desk, i: nat, fill: Fill, id: string, request: Request, scope: Scope, now: int)
    requires DistinctIds(d.orders) && i < |d.orders| && SameSlot(d.orders[i].request, request)
    requires Syncable(d.orders[i], scope) && !FreesSlot(d.orders, i, fill, now)
    ensures Next(Next(d, Sync(scope, map[d.orders[i].id := fill]), now), Enqueue(id, request, Some(scope)), now) ==
            d.(orders := d.orders[i := MergeFill(d.orders[i], fill, now)])
  {
    SyncWritesOne(d, i, scope, fill, now);
    var after := d.orders[i := MergeFill(d.orders[i], fill, now)];
    assert after[i] in after && Refuses(after[i], request, Some(scope), ById(after));
  }

  /** Nobody entered: the late write restores the row that was read, with its new trail. */
  lemma LateWriteRestores(d: Desk, e: Desk, i: nat, copy: nat, trail: real, now: int)
    requires SlotsUnique(d.orders) && i < |d.orders| && d.orders[i].status == PartiallyFilled && IndexOf(d.orders, d.orders[i].id) == i
    requires |e.orders| == |d.orders| && e.orders == d.orders[i := e.orders[i]] && e.orders[i].id == d.orders[i].id
    requires copy in e.copies && e.copies[copy] == d.orders[i]
    ensures SlotsUnique(Next(e, Write(copy, RaiseTrail(trail)), now).orders)
  {
    var row := Changed(d.orders[i], RaiseTrail(trail), now);
    IndexIsStable(d.orders, e.orders, d.orders[i].id);
    assert Next(e, Write(copy, RaiseTrail(trail)), now).orders == d.orders[i := row];
    SameTradeKeepsSlots(d.orders, i, row);
  }

  /** The manager reads a partially filled position, a sync merges a report, a rival buy tries
      to enter, and the manager writes back the row it read, here with a new trail. Slots
      stay unique exactly if the merged row still holds its slot: then the rival is
      refused; otherwise it enters, and the write revives the first. */
  lemma LateWriteIsSafeIff(d: Desk, copy: nat, id: string, scope: Scope, fill: Fill, second: string, request: Request,
          trail: real, now: int)
    requires SlotInvariant(d) && IndexOf(d.orders, id) < |d.orders| && Rival(d, IndexOf(d.orders, id), second, request)
    requires var o := d.orders[IndexOf(d.orders, id)]; o.status == PartiallyFilled && Syncable(o, scope)
    ensures var i := IndexOf(d.orders, id);
            var steps := [Read(copy, id), Sync(scope, map[id := fill]), Enqueue(second, request, Some(scope)), Write(copy, RaiseTrail(trail))];
            var merged := MergeFill(d.orders[i], fill, now);
            SlotsUnique(Run(d, steps, now).orders) <==> Blocking(merged, ById(d.orders[i := merged]))
  {
    var i := IndexOf(d.orders, id);
    var read, sync, enter := Read(copy, id), Sync(scope, map[id := fill]), Enqueue(second, request, Some(scope));
    var d1 := Next(d, read, now);
    assert d1 == d.(copies := d.copies[copy := d.orders[i]]);
    if FreesSlot(d.orders, i, fill, now) {
      RivalEntersAfterSync(d1, i, fill, second, request, scope, now);
      WriteRevives(Next(Next(d1, sync, now), enter, now), i, copy, trail, now);
    } else {
      RivalIsRefused(d1, i, fill, second, request, scope, now);
      LateWriteRestores(d, Next(Next(d1, sync, now), enter, now), i, copy, trail, now);
    }
    Runs.RunOfFour(NextAt(now), d, read, sync, enter, Write(copy, RaiseTrail(trail)));
  }

  /** Two reports free the slot in this way: one that declares the order dead, and one that
      cancels its rest when all that was bought has been sold. */
  lemma LateWriteDuplicates(d: Desk, copy: nat, id: string, scope: Scope, fill: Fill, second: string, request: Request,
          trail: real, now: int)
    requires SlotInvariant(d) && IndexOf(d.orders, id) < |d.orders| && Rival(d, IndexOf(d.orders, id), second, request)
    requires var o := d.orders[IndexOf(d.orders, id)]; o.status == PartiallyFilled && Syncable(o, scope)
    requires var i := IndexOf(d.orders, id);
             var merged := MergeFill(d.orders[i], fill, now);
             || Dead(fill.status)
             || (&& fill.status == PartiallyFilledCancelled && Confirmed(merged, ById(d.orders[i := merged])) == 0
                 && !HasWorkingSell(merged, ById(d.orders[i := merged])))
    ensures var steps := [Read(copy, id), Sync(scope, map[id := fill]), Enqueue(second, request, Some(scope)), Write(copy, RaiseTrail(trail))];
            !SlotsUnique(Run(d, steps, now).orders)
  {
    LateWriteIsSafeIff(d, copy, id, scope, fill, second, request, trail, now);
  }

  lemma ReadThenSync(d: Desk, copy: nat, id: string, scope: Scope, fill: Fill, now: int)
    requires DistinctIds(d.orders) && IndexOf(d.orders, id) < |d.orders|
    ensures var i, e := IndexOf(d.orders, id), Next(Next(d, Read(copy, id), now), Sync(scope, map[id := fill]), now);
            && e == d.(copies := d.copies[copy := d.orders[i]], orders := e.orders)
            && e.orders == d.orders[i := SyncedRow(d.orders[i], scope, map[id := fill], now)]
            && IndexOf(e.orders, id) == i
  {
    var i := IndexOf(d.orders, id);
    SyncOfOne(d.orders, i, scope, fill, now);
    IndexIsStable(d.orders, d.orders[i := SyncedRow(d.orders[i], scope, map[id := fill], now)], id);
  }

  lemma SweepWrites(d: Desk, i: nat, copy: nat, scope: Scope, cutoff: int, now: int)
    requires copy in d.copies && Stale(d.copies[copy], scope, cutoff) && IndexOf(d.orders, d.copies[copy].id) == i < |d.orders|
    ensures Next(d, Write(copy, CancelStale(scope, cutoff)), now).orders == d.orders[i := CancelledRow(d.copies[copy], now)]
  {
  }

  /** The stale-order sweep reads a row, a sync confirms fills, the sweep writes back what it
      read: the fills are forgotten, exactly if the report confirmed more than the sweep had read. */
  lemma StaleSweepForgetsFillsIff(d: Desk, copy: nat, id: string, scope: Scope, cutoff: int, fill: Fill, now: int)
    requires DistinctIds(d.orders) && IndexOf(d.orders, id) < |d.orders| && Stale(d.orders[IndexOf(d.orders, id)], scope, cutoff)
    ensures var i, read, sync, write := IndexOf(d.orders, id), Read(copy, id), Sync(scope, map[id := fill]), Write(copy, CancelStale(scope, cutoff));
            var synced, swept := Next(Next(d, read, now), sync, now), Run(d, [read, sync, write], now);
            && |synced.orders| == |swept.orders| == |d.orders|
            && swept.orders == d.orders[i := CancelledRow(d.orders[i], now)]
            && (swept.orders[i].filled < synced.orders[i].filled <==> Reported(d.orders[i], fill) > d.orders[i].filled)
  {
    var i := IndexOf(d.orders, id);
    ReadThenSync(d, copy, id, scope, fill, now);
    SweepWrites(Next(Next(d, Read(copy, id), now), Sync(scope, map[id := fill]), now), i, copy, scope, cutoff, now);
    Runs.RunOfThree(NextAt(now), d, Read(copy, id), Sync(scope, map[id := fill]), Write(copy, CancelStale(scope, cutoff)));
  }

  lemma UnsoldBuyBlocks(o: Order, book: Book)
    requires o.request.side == Buy && o.status == Filled && o.filled > 0 && LinkIds(o) == []
    ensures Blocking(o, book)
  {
  }

  /** If the row had no fills when it was read, the order then looks dead: a second buy of the
      slot is refused before the sweep's write and admitted after it, with shares held. */
  lemma StaleSweepOpensTheSlot(d: Desk, copy: nat, id: string, scope: Scope, cutoff: int, fill: Fill, request: Request, now: int)
    requires SlotsUnique(d.orders) && IndexOf(d.orders, id) < |d.orders|
    requires var o := d.orders[IndexOf(d.orders, id)];
             && Stale(o, scope, cutoff) && o.filled == 0 && LinkIds(o) == [] && SameSlot(o.request, request)
             && (fill.status.Filled? || fill.status.PartiallyFilled?) && Reported(o, fill) > 0
    ensures var read, sync, write := Read(copy, id), Sync(scope, map[id := fill]), Write(copy, CancelStale(scope, cutoff));
            && !Admits(Next(Next(d, read, now), sync, now).orders, request, Some(scope))
            && Admits(Run(d, [read, sync, write], now).orders, request, Some(scope))
  {
    var i := IndexOf(d.orders, id);
    var read, sync := Read(copy, id), Sync(scope, map[id := fill]);
    var o := d.orders[i];
    SyncOfOne(d.orders, i, scope, fill, now);
    var synced := Next(Next(d, read, now), sync, now).orders;
    var merged := SyncedRow(o, scope, map[id := fill], now);
    if merged.status == Filled {
      UnsoldBuyBlocks(merged, ById(synced));
    }
    assert synced[i] in synced && Refuses(synced[i], request, Some(scope), ById(synced));
    StaleSweepForgetsFillsIff(d, copy, id, scope, cutoff, fill, now);
    DeathFreesTheSlot(d.orders, i, CancelledRow(o, now), request, scope);
  }

  /** An adapter that reports "partially filled" without a fill and then "pending" makes a
      submitted row pending again, so that the next approval places it a second time. */
  lemma PendingReportResubmits(o: Order, scope: Scope, now: int)
    requires o.status == Submitted && o.filled == 0 && Syncable(o, scope)
    ensures var once := SyncedRow(o, scope, map[o.id := Fill(PartiallyFilled, 0, None)], now);
            var twice := SyncedRow(once, scope, map[o.id := Fill(Pending, 0, None)], now);
            MayApprove(twice, scope)
  {
  }
}

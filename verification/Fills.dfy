/** Merging broker fill reports into an order row. */
module Fills {
  import opened Prelude
  import opened Orders

  /** A broker's view of one order. */
  datatype Fill = Fill(status: Status, filled: int, avgPrice: Option<real>)

  /** The reported quantity, clipped to what was ordered. */
  function Reported(o: Order, fill: Fill): int {
    MaxInt(0, MinInt(fill.filled, o.request.quantity))
  }

  function MergedStatus(o: Order, fill: Fill, confirmed: int): Status {
    if o.status == Filled || fill.status == Filled then Filled
    else if (fill.status.Cancelled? || fill.status.Rejected? || fill.status.PartiallyFilledCancelled?) then fill.status
    else if confirmed > 0 then PartiallyFilled
    else if (o.status.Submitting? || o.status.Unknown? || o.status.Submitted?) && fill.status == Pending then Submitted
    else fill.status
  }

  function MergeFill(o: Order, fill: Fill, now: int): Order {
    var reported := Reported(o, fill);
    var confirmed := MaxInt(o.filled, reported);
    o.(status := MergedStatus(o, fill, confirmed),
       filled := confirmed,
       avgFill := if fill.avgPrice.Some? && reported >= o.filled then fill.avgPrice else o.avgFill,
       lastSyncedAt := Some(now))
  }

  function MergeAll(o: Order, fills: seq<Fill>, now: int): Order {
    if fills == [] then o
    else MergeFill(MergeAll(o, fills[..|fills| - 1], now), fills[|fills| - 1], now)
  }

  /** n is the largest of the starting quantity and every clipped report. */
  ghost predicate IsLargest(n: int, o: Order, fills: seq<Fill>) {
    && o.filled <= n
    && (forall f :: f in fills ==> Reported(o, f) <= n)
    && (n == o.filled || exists f :: f in fills && Reported(o, f) == n)
  }

  lemma {:induction false} MergeAllKeepsRequest(o: Order, fills: seq<Fill>, now: int)
    ensures MergeAll(o, fills, now).request == o.request
  {
    if fills != [] {
      MergeAllKeepsRequest(o, fills[..|fills| - 1], now);
    }
  }

  /** However reports repeat or regress, the confirmed quantity is the largest one seen,
      and it never exceeds the order. */
  lemma {:induction false} MergeIsLargest(o: Order, fills: seq<Fill>, now: int)
    ensures IsLargest(MergeAll(o, fills, now).filled, o, fills)
    ensures o.filled <= o.request.quantity ==> MergeAll(o, fills, now).filled <= o.request.quantity
  {
    if fills != [] {
      var rest, last := fills[..|fills| - 1], fills[|fills| - 1];
      MergeIsLargest(o, rest, now);
      MergeAllKeepsRequest(o, rest, now);
      assert forall f :: f in fills <==> f in rest || f == last;
      var before := MergeAll(o, rest, now);
      assert Reported(before, last) == Reported(o, last);
      if Reported(o, last) > before.filled {
        assert last in fills;
      } else if before.filled != o.filled {
        var f :| f in rest && Reported(o, f) == before.filled;
        assert f in fills;
      }
    }
  }

  /** The order of reports does not matter for the confirmed quantity. */
  lemma MergeIsConfluent(o: Order, fills: seq<Fill>, shuffled: seq<Fill>, now: int, later: int)
    requires multiset(fills) == multiset(shuffled)
    ensures MergeAll(o, fills, now).filled == MergeAll(o, shuffled, later).filled
  {
    MergeIsLargest(o, fills, now);
    MergeIsLargest(o, shuffled, later);
    assert forall f :: f in fills <==> f in multiset(fills);
    assert forall f :: f in shuffled <==> f in multiset(shuffled);
  }

  /** A priced report that is not below anything confirmed before it. */
  predicate IsRecord(o: Order, fills: seq<Fill>, i: nat)
    requires i < |fills|
  {
    fills[i].avgPrice.Some? && o.filled <= Reported(o, fills[i]) && forall j :: 0 <= j < i ==> Reported(o, fills[j]) <= Reported(o, fills[i])
  }

  lemma RecordOfPrefix(o: Order, fills: seq<Fill>, i: nat)
    requires i < |fills| - 1
    ensures IsRecord(o, fills, i) <==> IsRecord(o, fills[..|fills| - 1], i)
  {
    var rest := fills[..|fills| - 1];
    assert forall j :: 0 <= j <= i ==> rest[j] == fills[j];
  }

  lemma LastIsRecordIff(o: Order, fills: seq<Fill>, now: int)
    requires fills != []
    ensures var rest, last := fills[..|fills| - 1], fills[|fills| - 1];
            IsRecord(o, fills, |rest|) <==> last.avgPrice.Some? && MergeAll(o, rest, now).filled <= Reported(o, last)
  {
    var rest := fills[..|fills| - 1];
    MergeIsLargest(o, rest, now);
    var largest := MergeAll(o, rest, now).filled;
    assert forall j :: 0 <= j < |rest| ==> rest[j] in rest && fills[j] == rest[j];
    if largest != o.filled {
      var f :| f in rest && Reported(o, f) == largest;
      var j :| 0 <= j < |rest| && rest[j] == f;
    }
  }

  /** No record comes after the first n reports. */
  ghost predicate NoRecordFrom(o: Order, fills: seq<Fill>, n: nat) {
    forall i :: n <= i < |fills| ==> !IsRecord(o, fills, i)
  }

  lemma NoRecordInPrefix(o: Order, fills: seq<Fill>, n: nat)
    requires fills != [] && NoRecordFrom(o, fills, n)
    ensures NoRecordFrom(o, fills[..|fills| - 1], n)
  {
    var rest := fills[..|fills| - 1];
    forall i | n <= i < |rest| ensures !IsRecord(o, rest, i) {
      RecordOfPrefix(o, fills, i);
    }
  }

  /** Reports that are no records leave the average price alone. */
  lemma {:induction false} PriceStaysWithoutRecords(o: Order, fills: seq<Fill>, n: nat, now: int)
    requires n <= |fills| && NoRecordFrom(o, fills, n)
    ensures MergeAll(o, fills, now).avgFill == MergeAll(o, fills[..n], now).avgFill
  {
    if n == |fills| {
      assert fills[..n] == fills;
    } else {
      var rest, last := fills[..|fills| - 1], fills[|fills| - 1];
      NoRecordInPrefix(o, fills, n);
      PriceStaysWithoutRecords(o, rest, n, now);
      assert rest[..n] == fills[..n];
      MergedPrice(o, fills, now);
    }
  }

  lemma MergedPrice(o: Order, fills: seq<Fill>, now: int)
    requires fills != []
    ensures MergeAll(o, fills, now).avgFill ==
            if IsRecord(o, fills, |fills| - 1) then fills[|fills| - 1].avgPrice
            else MergeAll(o, fills[..|fills| - 1], now).avgFill
  {
    var rest, last := fills[..|fills| - 1], fills[|fills| - 1];
    LastIsRecordIff(o, fills, now);
    MergeAllKeepsRequest(o, rest, now);
    assert Reported(MergeAll(o, rest, now), last) == Reported(o, last);
    PriceStep(MergeAll(o, rest, now), last, now);
  }

  /** The average price is the one of the last record, or the old one if there is none;
      reports that regress never touch it. */
  lemma PriceIsOfTheLastRecord(o: Order, fills: seq<Fill>, i: nat, now: int)
    requires i < |fills| && NoRecordFrom(o, fills, i + 1)
    ensures IsRecord(o, fills, i) ==> MergeAll(o, fills, now).avgFill == fills[i].avgPrice
    ensures NoRecordFrom(o, fills, 0) ==> MergeAll(o, fills, now).avgFill == o.avgFill
  {
    PriceStaysWithoutRecords(o, fills, i + 1, now);
    var upTo := fills[..i + 1];
    assert IsRecord(o, fills, i) <==> IsRecord(o, upTo, i) by {
      assert forall j :: 0 <= j <= i ==> upTo[j] == fills[j];
    }
    MergedPrice(o, upTo, now);
    if NoRecordFrom(o, fills, 0) {
      PriceStaysWithoutRecords(o, fills, 0, now);
    }
  }

  lemma PriceStep(o: Order, fill: Fill, now: int)
    ensures MergeFill(o, fill, now).avgFill ==
            if fill.avgPrice.Some? && o.filled <= Reported(o, fill) then fill.avgPrice else o.avgFill
  {
  }

  /** Once filled, always filled: the final status is `Filled` exactly when the row or
      some report said so. */
  lemma {:induction false} FilledIsAbsorbing(o: Order, fills: seq<Fill>, now: int)
    ensures MergeAll(o, fills, now).status == Filled <==>
            o.status == Filled || exists f :: f in fills && f.status == Filled
  {
    if fills != [] {
      var rest, last := fills[..|fills| - 1], fills[|fills| - 1];
      FilledIsAbsorbing(o, rest, now);
      assert forall f :: f in fills <==> f in rest || f == last;
    }
  }

  /** A synced row falls back to `Pending`, where it could be approved a second time,
      exactly when a partially filled row without fills meets a pending report without fills. */
  lemma MergeReturnsToPendingIff(o: Order, fill: Fill, now: int)
    requires o.status == Submitted || o.status == PartiallyFilled
    ensures MergeFill(o, fill, now).status == Pending <==>
            o.status == PartiallyFilled && o.filled == 0 && fill.status == Pending && Reported(o, fill) == 0
  {
  }

  /** A merged row is dead yet carries fills exactly when the broker declares an unfinished
      order cancelled or rejected while some fill is known. */
  lemma MergeLeavesDeadFillIff(o: Order, fill: Fill, now: int)
    requires o.status == Submitted || o.status == PartiallyFilled
    ensures var merged := MergeFill(o, fill, now);
            Dead(merged.status) && merged.filled > 0 <==>
            Dead(fill.status) && (o.filled > 0 || Reported(o, fill) > 0)
  {
  }
}

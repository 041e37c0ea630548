/** Exchange tick sizes and the rounding of order prices to them, in exact arithmetic. The
    tick depends on the price itself, so a rounded price may land in another band. */
module Pricing {
  import opened Prelude
  import opened Orders

  datatype Kind = Ordinary | TradedProduct | Warrant

  function KindOf(securityType: Option<string>): Kind {
    var kind := if securityType.Some? then Upper(securityType.value) else "";
    if kind in {"STOCK_WARRANTS", "ELW"} then Warrant
    else if kind in {"ETF", "FOREIGN_ETF", "ETN"} then TradedProduct
    else Ordinary
  }

  /** The tick of the band that a price lies in. */
  function Tick(price: real, market: Market, kind: Kind): (tick: real)
    ensures tick > 0.0
  {
    if market == US then if price < 1.0 then 0.0001 else 0.01
    else if kind == Warrant then 5.0
    else if kind == TradedProduct then if price < 2000.0 then 1.0 else 5.0
    else if price < 2000.0 then 1.0
    else if price < 5000.0 then 5.0
    else if price < 20000.0 then 10.0
    else if price < 50000.0 then 50.0
    else if price < 200000.0 then 100.0
    else if price < 500000.0 then 500.0
    else 1000.0
  }

  function FloorTo(price: real, tick: real): real
    requires tick > 0.0
  {
    (price / tick).Floor as real * tick
  }

  function CeilTo(price: real, tick: real): real
    requires tick > 0.0
  {
    -FloorTo(-price, tick)
  }

  /** Passive rounding: buys down, sells up. A price that is not positive is rejected. */
  function RoundOrderPrice(price: real, market: Market, side: Side, kind: Kind): Option<real> {
    if price <= 0.0 then None
    else if side == Buy then Some(FloorTo(price, Tick(price, market, kind)))
    else Some(CeilTo(price, Tick(price, market, kind)))
  }

  /** Rounding toward execution: buys up, sells down. */
  function RoundAggressiveOrderPrice(price: real, market: Market, side: Side, kind: Kind): Option<real> {
    if price <= 0.0 then None
    else if side == Buy then Some(CeilTo(price, Tick(price, market, kind)))
    else Some(FloorTo(price, Tick(price, market, kind)))
  }

  function FloorToTick(price: real, market: Market, kind: Kind): Option<real> {
    if price <= 0.0 then None else Some(FloorTo(price, Tick(price, market, kind)))
  }

  // ---- grids ----

  predicate OnGrid(price: real, tick: real)
    requires tick > 0.0
  {
    FloorTo(price, tick) == price
  }

  /** A price the exchange accepts: a multiple of the tick of its own band. */
  predicate Legal(price: real, market: Market, kind: Kind) {
    OnGrid(price, Tick(price, market, kind))
  }

  lemma Scaled(a: real, b: real, factor: real)
    requires a <= b && factor > 0.0
    ensures a * factor <= b * factor && (a < b ==> a * factor < b * factor)
  {
  }

  lemma FloorBrackets(price: real, tick: real)
    requires tick > 0.0
    ensures FloorTo(price, tick) <= price < FloorTo(price, tick) + tick
  {
    var x, n := price / tick, (price / tick).Floor;
    assert x * tick == price;
    Scaled(n as real, x, tick);
    Scaled(x, n as real + 1.0, tick);
    assert (n as real + 1.0) * tick == n as real * tick + tick;
  }

  lemma FloorToIsGreatest(price: real, tick: real, q: real)
    requires tick > 0.0
    ensures FloorTo(price, tick) <= price < FloorTo(price, tick) + tick
    ensures OnGrid(FloorTo(price, tick), tick)
    ensures OnGrid(q, tick) && q <= price ==> q <= FloorTo(price, tick)
  {
    FloorBrackets(price, tick);
    OnGridWith(FloorTo(price, tick), tick, (price / tick).Floor);
    if OnGrid(q, tick) && q <= price {
      Quotients(q, price, tick);
      Scaled((q / tick).Floor as real, (price / tick).Floor as real, tick);
    }
  }

  lemma Quotients(a: real, b: real, tick: real)
    requires tick > 0.0 && a <= b
    ensures a / tick <= b / tick && (a / tick).Floor <= (b / tick).Floor
  {
  }

  lemma NegatedGrid(price: real, tick: real)
    requires tick > 0.0 && OnGrid(price, tick)
    ensures OnGrid(-price, tick)
  {
    var n := (price / tick).Floor;
    OnGridWith(-price, tick, -n);
  }

  lemma CeilToIsLeast(price: real, tick: real, q: real)
    requires tick > 0.0
    ensures CeilTo(price, tick) - tick < price <= CeilTo(price, tick)
    ensures OnGrid(CeilTo(price, tick), tick)
    ensures OnGrid(q, tick) && q >= price ==> q >= CeilTo(price, tick)
  {
    FloorToIsGreatest(-price, tick, -q);
    NegatedGrid(FloorTo(-price, tick), tick);
    if OnGrid(q, tick) {
      NegatedGrid(q, tick);
    }
  }

  // ---- bands ----

  /** The band of a price: where its tick applies. */
  ghost predicate IsBand(lo: real, hi: Option<real>, tick: real, market: Market, kind: Kind) {
    forall q :: lo <= q && (hi.Some? ==> q < hi.value) ==> Tick(q, market, kind) == tick
  }

  lemma OnGridWith(price: real, tick: real, n: int)
    requires tick > 0.0 && price == n as real * tick
    ensures OnGrid(price, tick)
  {
    assert price / tick == n as real;
    assert (n as real).Floor == n;
  }

  /** Both ends of every band are multiples of its tick, and the upper end also of the next. */
  lemma BandAround(price: real, market: Market, kind: Kind) returns (lo: real, hi: Option<real>)
    requires price > 0.0
    ensures 0.0 <= lo <= price && (hi.Some? ==> price < hi.value)
    ensures IsBand(lo, hi, Tick(price, market, kind), market, kind)
    ensures OnGrid(lo, Tick(price, market, kind))
    ensures hi.Some? ==> OnGrid(hi.value, Tick(price, market, kind)) && Legal(hi.value, market, kind)
  {
    var tick := Tick(price, market, kind);
    var n, m, k;  // lo in ticks, hi in ticks, hi in the next band's ticks
    if market == US {
      lo, hi, n, m, k := if price < 1.0 then (0.0) else 1.0, if price < 1.0 then Some(1.0) else None, if price < 1.0 then 0 else 100, 10000, 100;
    } else if kind == Warrant || price < 2000.0 {
      lo, hi, n, m := 0.0, if kind == Warrant then None else Some(2000.0), 0, 2000;
      k := 400;
    } else if kind == TradedProduct {
      lo, hi, n, m, k := 2000.0, None, 400, 0, 0;
    } else if price < 5000.0 {
      lo, hi, n, m, k := 2000.0, Some(5000.0), 400, 1000, 500;
    } else if price < 20000.0 {
      lo, hi, n, m, k := 5000.0, Some(20000.0), 500, 2000, 400;
    } else if price < 50000.0 {
      lo, hi, n, m, k := 20000.0, Some(50000.0), 400, 1000, 500;
    } else if price < 200000.0 {
      lo, hi, n, m, k := 50000.0, Some(200000.0), 500, 2000, 400;
    } else if price < 500000.0 {
      lo, hi, n, m, k := 200000.0, Some(500000.0), 400, 1000, 500;
    } else {
      lo, hi, n, m, k := 500000.0, None, 500, 0, 0;
    }
    OnGridWith(lo, tick, n);
    if hi.Some? {
      OnGridWith(hi.value, tick, m);
      OnGridWith(hi.value, Tick(hi.value, market, kind), k);
    }
  }

  // ---- rounding finds the neighbouring legal price ----

  /** Rounding down finds the greatest legal price that is not above, across all bands. */
  lemma FloorIsGreatestLegal(price: real, market: Market, kind: Kind, q: real)
    requires price > 0.0
    ensures var r := FloorTo(price, Tick(price, market, kind));
            && 0.0 <= r <= price < r + Tick(price, market, kind) && Legal(r, market, kind)
            && (Legal(q, market, kind) && q <= price ==> q <= r)
  {
    var tick := Tick(price, market, kind);
    var lo, hi := BandAround(price, market, kind);
    FloorToIsGreatest(price, tick, lo);
    FloorToIsGreatest(price, tick, q);
    assert q >= lo && q <= price ==> Tick(q, market, kind) == tick;
  }

  /** Rounding up finds the least legal price that is not below, across all bands. */
  lemma CeilIsLeastLegal(price: real, market: Market, kind: Kind, q: real)
    requires price > 0.0
    ensures var r := CeilTo(price, Tick(price, market, kind));
            && r - Tick(price, market, kind) < price <= r && Legal(r, market, kind)
            && (Legal(q, market, kind) && q >= price ==> q >= r)
  {
    var tick := Tick(price, market, kind);
    var lo, hi := BandAround(price, market, kind);
    CeilToIsLeast(price, tick, q);
    if hi.Some? {
      CeilToIsLeast(price, tick, hi.value);
    }
    var r := CeilTo(price, tick);
    assert hi.None? || r < hi.value ==> Tick(r, market, kind) == tick;
  }

  /** The rounded price as the source promises it: a legal tick in its own band, off by less
      than a tick in the passive direction; a price that is legal already is kept. */
  lemma RoundedPriceIsLegal(price: real, market: Market, side: Side, kind: Kind)
    requires price > 0.0
    ensures var r := RoundOrderPrice(price, market, side, kind);
            && r.Some? && Legal(r.value, market, kind)
            && (if side == Buy then r.value <= price else price <= r.value)
            && Abs(r.value - price) < Tick(price, market, kind)
            && (r.value == price <==> Legal(price, market, kind))
  {
    FloorIsGreatestLegal(price, market, kind, price);
    CeilIsLeastLegal(price, market, kind, price);
  }

  /** The passive and the aggressive price of a side are the two legal prices around the
      input: nothing legal lies strictly between them. */
  lemma PassiveAndAggressiveAreNeighbours(price: real, market: Market, side: Side, kind: Kind, q: real)
    requires price > 0.0
    ensures var passive := RoundOrderPrice(price, market, side, kind).value;
            var aggressive := RoundAggressiveOrderPrice(price, market, side, kind).value;
            && (if side == Buy then passive <= price <= aggressive else aggressive <= price <= passive)
            && (passive == aggressive <==> Legal(price, market, kind))
            && (Legal(q, market, kind) && Min(passive, aggressive) <= q <= Max(passive, aggressive) ==> q == passive || q == aggressive)
            && FloorToTick(price, market, kind) == Some(Min(passive, aggressive))
  {
    FloorIsGreatestLegal(price, market, kind, q);
    CeilIsLeastLegal(price, market, kind, q);
    FloorIsGreatestLegal(price, market, kind, price);
    CeilIsLeastLegal(price, market, kind, price);
  }

  /** A higher price never rounds lower, also when the two lie in different bands. */
  lemma RoundingIsMonotone(price: real, higher: real, market: Market, side: Side, kind: Kind)
    requires 0.0 < price <= higher
    ensures RoundOrderPrice(price, market, side, kind).value <= RoundOrderPrice(higher, market, side, kind).value
    ensures RoundAggressiveOrderPrice(price, market, side, kind).value <= RoundAggressiveOrderPrice(higher, market, side, kind).value
  {
    FloorIsGreatestLegal(price, market, kind, 0.0);
    FloorIsGreatestLegal(higher, market, kind, FloorTo(price, Tick(price, market, kind)));
    CeilIsLeastLegal(higher, market, kind, 0.0);
    CeilIsLeastLegal(price, market, kind, CeilTo(higher, Tick(higher, market, kind)));
  }

  /** The smallest price of a market and kind that is legal and positive. */
  function SmallestTick(market: Market, kind: Kind): real {
    Tick(0.0, market, kind)
  }

  /** Rounding yields a positive price exactly for sells and for prices of at least one tick;
      a cheaper buy is rounded to zero, which the next rounding rejects. */
  lemma RoundsToZeroIff(price: real, market: Market, side: Side, kind: Kind)
    requires price > 0.0
    ensures RoundOrderPrice(price, market, side, kind).value > 0.0 <==> side == Sell || price >= SmallestTick(market, kind)
    ensures side == Buy && price < SmallestTick(market, kind) ==> RoundOrderPrice(price, market, side, kind) == Some(0.0)
  {
    var tick := SmallestTick(market, kind);
    OnGridWith(tick, tick, 1);
    FloorIsGreatestLegal(price, market, kind, tick);
    FloorToIsGreatest(price, Tick(price, market, kind), 0.0);
    CeilIsLeastLegal(price, market, kind, price);
    if price < tick {
      assert (price / tick).Floor == 0 by {
        assert 0.0 <= price / tick < 1.0;
      }
    }
  }

  // ---- orders ----

  /** Only Korean securities differ in kind. */
  function OrderKind(request: Request, securityType: string): Kind {
    KindOf(if request.market == KR then Some(securityType) else None)
  }

  /** The broker's view of an order: a limit price is rounded, and rejected if not positive. */
  function NormalizeOrder(request: Request, securityType: string): Option<Request> {
    if !request.isLimit || request.limitPrice.None? then Some(request)
    else
      var rounded := RoundOrderPrice(request.limitPrice.value, request.market, request.side, OrderKind(request, securityType));
      if rounded.None? then None else Some(request.(limitPrice := rounded))
  }

  /** An order is normalised when it is enqueued and again when it is placed or replayed. The
      broker is asked for exactly the order in the queue, unless a limit buy below one tick
      was enqueued: that one is enqueued at zero and can never be placed. */
  lemma EnqueuedOrderIsPlacedIff(request: Request, securityType: string)
    requires NormalizeOrder(request, securityType).Some?
    ensures var enqueued := NormalizeOrder(request, securityType).value;
            var belowTick := request.isLimit && request.limitPrice.Some? && request.side == Buy
                             && request.limitPrice.value < SmallestTick(request.market, OrderKind(request, securityType));
            && enqueued == request.(limitPrice := enqueued.limitPrice)
            && (NormalizeOrder(enqueued, securityType) == Some(enqueued) <==> !belowTick)
            && (NormalizeOrder(enqueued, securityType) == None <==> belowTick)
  {
    if request.isLimit && request.limitPrice.Some? {
      RoundingIsIdempotent(request.limitPrice.value, request.market, request.side, OrderKind(request, securityType));
    }
  }

  /** Rounding twice is rounding once, except that a buy rounded to zero is then rejected. */
  lemma RoundingIsIdempotent(price: real, market: Market, side: Side, kind: Kind)
    requires price > 0.0
    ensures var once := RoundOrderPrice(price, market, side, kind);
            RoundOrderPrice(once.value, market, side, kind) ==
            if side == Sell || price >= SmallestTick(market, kind) then once else None
  {
    RoundedPriceIsLegal(price, market, side, kind);
    RoundsToZeroIff(price, market, side, kind);
    var once := RoundOrderPrice(price, market, side, kind).value;
    if once > 0.0 {
      RoundedPriceIsLegal(once, market, side, kind);
    }
  }
}

/**
 * `_clamp_order_notional_if_needed` (apps/trading_worker/main.py) in exact arithmetic.
 * The venue's quantity normalisation is an arbitrary function.
 */
module NotionalClamp {
  import opened Common

  datatype Side = Buy | Sell

  datatype Order = Order(id: string, side: Side, quantity: real, reduceOnly: bool, market: bool)

  datatype Decision = Decision(orders: seq<Order>, delta: real)

  datatype Rules = Rules(
    normalize: (real, bool) -> real, minNotional: bool -> real, minQty: real, marketMinQty: Option<real>)

  /** What the worker knows at the call; `cap` is the single-order limit. */
  datatype Context = Context(adapter: bool, cap: Option<real>, rules: Option<Rules>, price: Option<real>)

  predicate Enabled(c: Context) {
    && c.adapter && c.rules.Some? && c.price.Some? && c.price.value > 0.0
    && c.cap.Some? && c.cap.value > 0.0
  }

  function Min(a: real, b: real): real { if a <= b then a else b }

  function MinQty(r: Rules, market: bool): real {
    if market && r.marketMinQty.Some? && r.marketMinQty.value != 0.0 then r.marketMinQty.value else r.minQty
  }

  /** The notional aimed at, when the order is out of bounds at all. */
  function Target(r: Rules, cap: real, price: real, o: Order): Option<real> {
    var notional, floor := o.quantity * price, r.minNotional(o.market);
    if o.reduceOnly then None
    else if notional > cap then Some(Min(cap * 0.9, 45.0))
    else if floor > 0.0 && notional < floor then Some(Min(Min(floor * 1.25, cap * 0.9), 45.0))
    else None
  }

  predicate Acceptable(r: Rules, cap: real, price: real, market: bool, quantity: real) {
    quantity >= MinQty(r, market) && r.minNotional(market) <= quantity * price <= cap
  }

  /** The replacement quantity, or None when the order goes through as it is. */
  function Replacement(r: Rules, cap: real, price: real, o: Order): Option<real>
    requires price > 0.0
  {
    match Target(r, cap, price, o)
    case None => None
    case Some(target) =>
      var quantity := r.normalize(target / price, o.market);
      if Acceptable(r, cap, price, o.market, quantity) then Some(quantity) else None
  }

  function Adjusted(r: Rules, cap: real, price: real, o: Order): Order
    requires price > 0.0
  {
    match Replacement(r, cap, price, o)
    case None => o
    case Some(quantity) => o.(quantity := quantity)
  }

  function SignedSum(orders: seq<Order>): real {
    if orders == [] then 0.0
    else
      var o := orders[|orders| - 1];
      SignedSum(orders[..|orders| - 1]) + if o.side.Buy? then o.quantity else -o.quantity
  }

  predicate AnyReplaced(r: Rules, cap: real, price: real, orders: seq<Order>)
    requires price > 0.0
  {
    exists i :: 0 <= i < |orders| && Replacement(r, cap, price, orders[i]).Some?
  }

  function AllAdjusted(r: Rules, cap: real, price: real, orders: seq<Order>): seq<Order>
    requires price > 0.0
  {
    seq(|orders|, i requires 0 <= i < |orders| => Adjusted(r, cap, price, orders[i]))
  }

  function Clamped(c: Context, d: Decision): Decision {
    if Enabled(c) && AnyReplaced(c.rules.value, c.cap.value, c.price.value, d.orders) then
      var orders := AllAdjusted(c.rules.value, c.cap.value, c.price.value, d.orders);
      Decision(orders, SignedSum(orders))
    else d
  }

  method ClampOrderNotional(c: Context, d: Decision) returns (result: Decision)
    ensures result == Clamped(c, d)
  {
    if !Enabled(c) { return d; }
    var r, cap, price := c.rules.value, c.cap.value, c.price.value;
    var orders: seq<Order> := [];
    var any := false;
    for k := 0 to |d.orders|
      invariant |orders| == k
      invariant forall i :: 0 <= i < k ==> orders[i] == Adjusted(r, cap, price, d.orders[i])
      invariant any <==> exists i :: 0 <= i < k && Replacement(r, cap, price, d.orders[i]).Some?
    {
      var quantity := Replacement(r, cap, price, d.orders[k]);
      if quantity.Some? {
        orders := orders + [d.orders[k].(quantity := quantity.value)];
        any := true;
      } else {
        orders := orders + [d.orders[k]];
      }
    }
    if !any { return d; }
    assert orders == AllAdjusted(r, cap, price, d.orders);
    var delta := 0.0;
    for k := 0 to |orders|
      invariant delta == SignedSum(orders[..k])
    {
      assert orders[..k + 1][..k] == orders[..k];
      delta := delta + if orders[k].side.Buy? then orders[k].quantity else -orders[k].quantity;
    }
    assert orders[..|orders|] == orders;
    return Decision(orders, delta);
  }

  /** Between two notionals at one price lies the order of the quantities. */
  lemma Between(a: real, b: real, price: real, limit: real)
    requires price > 0.0
    ensures a * price <= limit < b * price || a * price < limit <= b * price ==> a < b
  {
    if a >= b { assert (a - b) * price >= 0.0; }
  }

  /** Same orders in the same sequence; only quantities of risk-increasing orders may differ. */
  lemma ClampTouchesOnlyQuantities(c: Context, d: Decision, i: nat)
    requires i < |d.orders|
    ensures |Clamped(c, d).orders| == |d.orders|
    ensures
      var o, o' := d.orders[i], Clamped(c, d).orders[i];
      o' == o.(quantity := o'.quantity) && (o.reduceOnly ==> o' == o)
  {
  }

  /** The band and the direction, for one order and its replacement. */
  predicate Lands(o: Order, quantity: real, floor: real, cap: real, price: real) {
    && floor <= quantity * price <= cap
    && (o.quantity * price > cap ==> quantity < o.quantity)
    && (o.quantity * price <= cap ==> o.quantity * price < floor && quantity > o.quantity)
  }

  lemma ReplacementLands(r: Rules, cap: real, price: real, o: Order)
    requires price > 0.0 && Replacement(r, cap, price, o).Some?
    ensures Lands(o, Replacement(r, cap, price, o).value, r.minNotional(o.market), cap, price)
  {
    var quantity := Replacement(r, cap, price, o).value;
    assert Acceptable(r, cap, price, o.market, quantity);
    Between(quantity, o.quantity, price, cap);
    Between(o.quantity, quantity, price, r.minNotional(o.market));
  }

  /** An order that changes lands inside the venue's band and moves towards it. */
  lemma ChangedOrdersLandInBand(c: Context, d: Decision, i: nat)
    requires i < |d.orders| && Clamped(c, d).orders[i] != d.orders[i]
    ensures Enabled(c)
    ensures Lands(d.orders[i], Clamped(c, d).orders[i].quantity, c.rules.value.minNotional(d.orders[i].market),
                  c.cap.value, c.price.value)
  {
    ReplacementLands(c.rules.value, c.cap.value, c.price.value, d.orders[i]);
  }

  /** A rewritten decision states the signed sum of what it now orders; otherwise it is untouched. */
  lemma DeltaIsSignedSum(c: Context, d: Decision)
    ensures Clamped(c, d) == d || Clamped(c, d).delta == SignedSum(Clamped(c, d).orders)
    ensures Clamped(c, d) == d <==
            (forall i :: 0 <= i < |d.orders| && Enabled(c) ==>
              Target(c.rules.value, c.cap.value, c.price.value, d.orders[i]).None?)
  {
  }

  lemma AdjustedIsSettled(r: Rules, cap: real, price: real, o: Order)
    requires price > 0.0
    ensures Replacement(r, cap, price, Adjusted(r, cap, price, o)) == None
            || (Replacement(r, cap, price, o) == None && Adjusted(r, cap, price, o) == o)
    ensures Replacement(r, cap, price, o).Some? ==> Target(r, cap, price, Adjusted(r, cap, price, o)) == None
  {
  }

  /** Applying the clamp twice is applying it once. */
  lemma ClampIsIdempotent(c: Context, d: Decision)
    ensures Clamped(c, Clamped(c, d)) == Clamped(c, d)
  {
    var once := Clamped(c, d);
    if Enabled(c) && AnyReplaced(c.rules.value, c.cap.value, c.price.value, d.orders) {
      var r, cap, price := c.rules.value, c.cap.value, c.price.value;
      forall i | 0 <= i < |once.orders|
        ensures Replacement(r, cap, price, once.orders[i]).None?
      {
        AdjustedIsSettled(r, cap, price, d.orders[i]);
      }
    }
  }

  // ---- which orders change, and to what ----

  /** All that the clamp needs to know is there. */
  predicate Informed(c: Context) {
    c.adapter && c.rules != None && c.price != None && c.cap != None && c.price.value > 0.0 && c.cap.value > 0.0
  }

  /** The order gets this quantity exactly when the venue takes it: large enough, and a notional in the band. */
  predicate GetsIff(c: Context, o: Order, o': Order, quantity: real)
    requires Informed(c)
  {
    var r, notional := c.rules.value, quantity * c.price.value;
    var minQty := if o.market && r.marketMinQty.Some? && r.marketMinQty.value != 0.0 then r.marketMinQty.value
                  else r.minQty;
    var taken := minQty <= quantity && r.minNotional(o.market) <= notional && notional <= c.cap.value;
    (taken <==> o' != o) && (taken ==> o' == o.(quantity := quantity))
  }

  /** An order above the cap is cut to nine tenths of the cap, or 45 if that is less. */
  lemma OversizedOrderIff(c: Context, d: Decision, i: nat)
    requires i < |d.orders| && Informed(c) && !d.orders[i].reduceOnly
    requires d.orders[i].quantity * c.price.value > c.cap.value
    ensures |Clamped(c, d).orders| == |d.orders|
    ensures
      var aim := if 0.9 * c.cap.value <= 45.0 then 0.9 * c.cap.value else 45.0;
      GetsIff(c, d.orders[i], Clamped(c, d).orders[i],
              c.rules.value.normalize(aim / c.price.value, d.orders[i].market))
  {
    var cut := 0.9 * c.cap.value;
    Aimed(c, d, i, if cut <= 45.0 then cut else 45.0);
  }

  /** One below the venue's minimum is raised to five quarters of it, within the same bounds. */
  lemma UndersizedOrderIff(c: Context, d: Decision, i: nat)
    requires i < |d.orders| && Informed(c) && !d.orders[i].reduceOnly
    requires d.orders[i].quantity * c.price.value <= c.cap.value
    requires 0.0 < c.rules.value.minNotional(d.orders[i].market)
    requires d.orders[i].quantity * c.price.value < c.rules.value.minNotional(d.orders[i].market)
    ensures |Clamped(c, d).orders| == |d.orders|
    ensures
      var raised, cut := 1.25 * c.rules.value.minNotional(d.orders[i].market), 0.9 * c.cap.value;
      var aim := if raised <= cut && raised <= 45.0 then raised else if cut <= 45.0 then cut else 45.0;
      GetsIff(c, d.orders[i], Clamped(c, d).orders[i],
              c.rules.value.normalize(aim / c.price.value, d.orders[i].market))
  {
    var raised, cut := 1.25 * c.rules.value.minNotional(d.orders[i].market), 0.9 * c.cap.value;
    Aimed(c, d, i, if raised <= cut && raised <= 45.0 then raised else if cut <= 45.0 then cut else 45.0);
  }

  /** Every other order goes through as it is. */
  lemma OtherOrdersStay(c: Context, d: Decision, i: nat)
    requires i < |d.orders|
    requires || !Informed(c) || d.orders[i].reduceOnly
             || (&& d.orders[i].quantity * c.price.value <= c.cap.value
                 && (|| c.rules.value.minNotional(d.orders[i].market) <= 0.0
                     || c.rules.value.minNotional(d.orders[i].market) <= d.orders[i].quantity * c.price.value))
    ensures |Clamped(c, d).orders| == |d.orders| && Clamped(c, d).orders[i] == d.orders[i]
  {
    if Enabled(c) {
      ClampedAt(c, d, i);
      assert Target(c.rules.value, c.cap.value, c.price.value, d.orders[i]) == None;
    }
  }

  lemma ClampedAt(c: Context, d: Decision, i: nat)
    requires i < |d.orders| && Enabled(c)
    ensures |Clamped(c, d).orders| == |d.orders|
    ensures Clamped(c, d).orders[i] == Adjusted(c.rules.value, c.cap.value, c.price.value, d.orders[i])
  {
  }

  lemma Aimed(c: Context, d: Decision, i: nat, aim: real)
    requires i < |d.orders| && Informed(c) && Enabled(c)
    requires Target(c.rules.value, c.cap.value, c.price.value, d.orders[i]) == Some(aim)
    ensures |Clamped(c, d).orders| == |d.orders|
    ensures GetsIff(c, d.orders[i], Clamped(c, d).orders[i],
                    c.rules.value.normalize(aim / c.price.value, d.orders[i].market))
  {
    var r, cap, price, o := c.rules.value, c.cap.value, c.price.value, d.orders[i];
    ClampedAt(c, d, i);
    if Replacement(r, cap, price, o).Some? { ReplacementLands(r, cap, price, o); }
  }

  /** The delta of a decision in which an order changes: all that is bought less all that is sold. */
  lemma ChangedDelta(c: Context, d: Decision)
    ensures Clamped(c, d).orders != d.orders ==>
              Clamped(c, d).delta == Total(Buy, Clamped(c, d).orders) - Total(Sell, Clamped(c, d).orders)
    ensures Clamped(c, d).orders == d.orders ==> Clamped(c, d) == d
  {
    SumIsBoughtLessSold(Clamped(c, d).orders);
    if Enabled(c) && AnyReplaced(c.rules.value, c.cap.value, c.price.value, d.orders) {
      var r, cap, price := c.rules.value, c.cap.value, c.price.value;
      var i :| 0 <= i < |d.orders| && Replacement(r, cap, price, d.orders[i]).Some?;
      ReplacementLands(r, cap, price, d.orders[i]);
      assert Clamped(c, d).orders[i] != d.orders[i];
    }
  }

  /** The quantity on one side. */
  function Total(side: Side, orders: seq<Order>): real {
    if orders == [] then 0.0
    else Total(side, orders[..|orders| - 1])
         + if orders[|orders| - 1].side == side then orders[|orders| - 1].quantity else 0.0
  }

  lemma {:induction false} SumIsBoughtLessSold(orders: seq<Order>)
    ensures SignedSum(orders) == Total(Buy, orders) - Total(Sell, orders)
  {
    if orders != [] { SumIsBoughtLessSold(orders[..|orders| - 1]); }
  }

  /** A cap of 50 at a price of 100: buying 2 becomes buying 0.45, and selling 0.01 selling 0.0625. */
  lemma ClampRun(normalize: (real, bool) -> real, delta: real)
    requires forall q, market :: normalize(q, market) == q
    ensures
      var c := Context(true, Some(50.0), Some(Rules(normalize, _ => 5.0, 0.001, None)), Some(100.0));
      Clamped(c, Decision([Order("a", Buy, 2.0, false, false), Order("b", Sell, 0.01, false, true)], delta)) ==
      Decision([Order("a", Buy, 0.45, false, false), Order("b", Sell, 0.0625, false, true)], 0.3875)
  {
    var c := Context(true, Some(50.0), Some(Rules(normalize, _ => 5.0, 0.001, None)), Some(100.0));
    var d := Decision([Order("a", Buy, 2.0, false, false), Order("b", Sell, 0.01, false, true)], delta);
    OversizedOrderIff(c, d, 0);
    UndersizedOrderIff(c, d, 1);
    ChangedDelta(c, d);
    var orders := [Order("a", Buy, 0.45, false, false), Order("b", Sell, 0.0625, false, true)];
    assert Clamped(c, d).orders == orders;
    assert orders[..1] == [orders[0]] && orders[..1][..0] == [];
  }
}

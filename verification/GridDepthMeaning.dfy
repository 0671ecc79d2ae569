/**
 * What the observed grid depth means in terms of orders, fills and positions, and what the ledger's
 * changes do to it (apps/trading_worker/main.py, apps/trading_worker/venues/binance/ledger.py).
 */
module GridDepthMeaning {
  import opened Common
  import opened GridDepthCache

  // ---- the depth ----

  /** Upper-casing leaves no small letter and moves nothing but small letters, each to its capital. */
  lemma UpperFolds(s: string, i: nat)
    requires i < |s|
    ensures |Upper(s)| == |s| && !('a' <= Upper(s)[i] <= 'z')
    ensures 'a' <= s[i] <= 'z' ==> Upper(s)[i] as int - 'A' as int == s[i] as int - 'a' as int
    ensures !('a' <= s[i] <= 'z') ==> Upper(s)[i] == s[i]
  {
  }

  /** Upper-cased, the text begins with `prefix`. */
  predicate Begins(s: string, prefix: string) {
    |prefix| <= |s| && forall i :: 0 <= i < |prefix| ==> Upper(s)[i] == prefix[i]
  }

  /** An order is the grid's by its strategy, by an intent, or by how its id begins. */
  lemma GridOrderIff(o: Order, symbol: string)
    ensures IsGridOrder(o, symbol) <==>
            Upper(o.symbol) == symbol
            && (|| o.gridStrategy || (exists i :: 0 <= i < |o.intents| && Begins(o.intents[i], "GRID-"))
                || Begins(o.id, "BAI-") || Begins(o.id, "B-") || Begins(o.id, "GRID-"))
  {
    forall s, p ensures StartsWith(p, Upper(s)) <==> Begins(s, p) {
      if Begins(s, p) { assert Upper(s)[..|p|] == p; }
    }
  }

  /** Ids of the symbol's grid orders that still work. */
  function Working(l: Ledger, symbol: string): set<string> {
    set id | id in l.orders && IsGridOrder(l.orders[id], symbol)
             && (Upper(l.orders[id].status) == "NEW" || Upper(l.orders[id].status) == "PARTIALLY_FILLED")
  }

  /** Ids of the symbol's grid orders that have a fill, whether or not the order itself is known. */
  function Filled(l: Ledger, symbol: string): set<string> {
    set f | f in l.fills && Upper(f.symbol) == symbol
            && (|| f.gridStrategy || (f.orderId in l.orders && IsGridOrder(l.orders[f.orderId], symbol))
                || (exists i :: 0 <= i < |f.intents| && Begins(f.intents[i], "GRID-"))
                || Begins(f.orderId, "BAI-") || Begins(f.orderId, "B-") || Begins(f.orderId, "GRID-")) :: f.orderId
  }

  predicate Holds(l: Ledger, symbol: string) {
    exists p :: p in l.positions && Upper(p.symbol) == symbol && p.quantity != 0.0
  }

  lemma {:induction false} QuantityIff(ps: seq<Position>, symbol: string)
    ensures Quantity(ps, symbol) > 0.0 <==> exists p :: p in ps && Upper(p.symbol) == symbol && p.quantity != 0.0
  {
    if ps != [] {
      QuantityIff(ps[1..], symbol);
      assert ps == [ps[0]] + ps[1..];
    }
  }

  lemma WorkingIs(l: Ledger, symbol: string)
    ensures OpenIds(l.orders, symbol) == Working(l, symbol)
  {
  }

  lemma FilledIs(l: Ledger, symbol: string)
    ensures FilledIds(l.fills, symbol, GridIds(l.orders, symbol)) == Filled(l, symbol)
  {
    forall s, p ensures StartsWith(p, Upper(s)) <==> Begins(s, p) {
      if Begins(s, p) { assert Upper(s)[..|p|] == p; }
    }
    var a, b := FilledIds(l.fills, symbol, GridIds(l.orders, symbol)), Filled(l, symbol);
    forall id | id in a ensures id in b {
    }
    forall id | id in b ensures id in a {
      var f :| f in l.fills && f.orderId == id && Upper(f.symbol) == symbol
               && (|| f.gridStrategy || (f.orderId in l.orders && IsGridOrder(l.orders[f.orderId], symbol))
                   || (exists i :: 0 <= i < |f.intents| && Begins(f.intents[i], "GRID-"))
                   || Begins(f.orderId, "BAI-") || Begins(f.orderId, "B-") || Begins(f.orderId, "GRID-"));
      var k :| 0 <= k < |l.fills| && l.fills[k] == f;
    }
  }

  /**
   * The depth is zero exactly when nothing is held and no grid order works; otherwise it is the number
   * of working orders and filled ones together, or all levels if that is none or too many.
   */
  lemma DepthMeans(maxLevels: nat, l: Ledger, symbol: string)
    requires maxLevels > 0
    ensures
      var depth, levels := FreshDepth(maxLevels, l, symbol), |Working(l, symbol)| + |Filled(l, symbol)|;
      && (depth == 0 <==> !Holds(l, symbol) && Working(l, symbol) == {})
      && (depth != 0 ==> depth == if 0 < levels <= maxLevels then levels else maxLevels)
  {
    QuantityIff(l.positions, symbol);
    WorkingIs(l, symbol);
    FilledIs(l, symbol);
  }

  /** A scan that nothing interrupts answers that depth, and the next call is served from the cache. */
  lemma QuietScan(w: World, id: nat, symbol: string, next: nat)
    requires w.mode != PAPER && w.connected && !IsHit(w, symbol) && id !in w.scans
    ensures
      var v := Do(Do(Do(w, Begin(id, symbol)), ReadPositions(id)), ReadOrders(id));
      var depth := Depth(FreshDepth(w.maxLevels, w.ledger, Upper(symbol)));
      && Reply(v, Finish(id)) == depth
      && IsHit(Do(v, Finish(id)), symbol) && Reply(Do(v, Finish(id)), Begin(next, symbol)) == depth
  {
    var v := Do(Do(Do(w, Begin(id, symbol)), ReadPositions(id)), ReadOrders(id));
    assert v.scans[id].symbol == Upper(symbol) && v.ledger == w.ledger;
  }

  predicate CacheBounded(w: World) {
    forall s :: s in w.cache ==> w.cache[s].depth <= w.maxLevels
  }

  lemma {:induction false} CacheStaysBounded(w: World, acts: seq<Act>)
    requires CacheBounded(w)
    ensures CacheBounded(After(w, acts)) && After(w, acts).maxLevels == w.maxLevels
    ensures After(w, acts).mode == w.mode && After(w, acts).connected == w.connected
  {
    if acts != [] {
      CacheStaysBounded(w, acts[..|acts| - 1]);
      BoundedStep(After(w, acts[..|acts| - 1]), acts[|acts| - 1]);
    }
  }

  lemma BoundedStep(w: World, a: Act)
    requires CacheBounded(w)
    ensures CacheBounded(Do(w, a)) && Do(w, a).maxLevels == w.maxLevels
    ensures Do(w, a).mode == w.mode && Do(w, a).connected == w.connected
  {
  }

  /**
   * Over every run: no answer exceeds the number of levels, PAPER always answers 0, and without an
   * adapter or after a failed read the answer is that no level is free.
   */
  lemma AnswersAreBounded(w: World, acts: seq<Act>, a: Act)
    requires CacheBounded(w)
    ensures
      var answer := Reply(After(w, acts), a);
      && (answer.Depth? ==> answer.depth <= w.maxLevels)
      && (w.mode == PAPER && a.Begin? ==> answer == Depth(0))
      && (w.mode != PAPER && !w.connected && a.Begin? ==> answer == Depth(w.maxLevels))
      && (a.Fail? && answer.Depth? ==> answer == Depth(w.maxLevels))
  {
    CacheStaysBounded(w, acts);
  }

  // ---- positions ----

  /** Clearing a symbol leaves it flat and every other symbol as it was. */
  lemma {:induction false} ClearingFlattens(ps: seq<Position>, symbol: string, other: string)
    ensures Quantity(Without(ps, symbol), other) == if other == Upper(symbol) then 0.0 else Quantity(ps, other)
  {
    if ps != [] {
      ClearingFlattens(ps[1..], symbol, other);
      var rest := Without(ps[1..], symbol);
      if Upper(ps[0].symbol) != Upper(symbol) {
        assert Without(ps, symbol) == [ps[0]] + rest && ([ps[0]] + rest)[1..] == rest;
      } else {
        assert Without(ps, symbol) == [] + rest == rest;
      }
    }
  }

  /** What is held at a place, the first entry counting. */
  function HeldAt(ps: seq<Position>, symbol: string, side: string): real {
    if ps == [] then 0.0
    else if ps[0].symbol == symbol && ps[0].side == side then ps[0].quantity
    else HeldAt(ps[1..], symbol, side)
  }

  /** A position put in replaces the one in its place and no other. */
  lemma {:induction false} UpsertReplaces(ps: seq<Position>, q: Position, symbol: string, side: string)
    ensures HeldAt(Upsert(ps, q), symbol, side) ==
            if symbol == q.symbol && side == q.side then q.quantity else HeldAt(ps, symbol, side)
    ensures |Upsert(ps, q)| <= |ps| + 1
  {
    if ps != [] && !SamePlace(ps[0], q) {
      UpsertReplaces(ps[1..], q, symbol, side);
      assert Upsert(ps, q)[1..] == Upsert(ps[1..], q);
    } else if ps != [] {
      assert ([q] + ps[1..])[1..] == ps[1..];
    }
  }

  // ---- orders and fills ----

  /** The exchange's own record of an order changes nothing about whose order it is. */
  lemma RawOrderKeepsLineage(l: Ledger, symbol: string, id: string, status: string)
    ensures
      var l' := Changed(l, UpsertRawOrder(symbol, id, status));
      && l'.orders.Keys == l.orders.Keys + {id} && l'.orders[id].id == id
      && (forall other :: other in l.orders && other != id ==> l'.orders[other] == l.orders[other])
      && l'.orders[id].status == status && l'.orders[id].symbol == Upper(symbol)
      && (if id in l.orders
          then l'.orders[id].intents == l.orders[id].intents && l'.orders[id].gridStrategy == l.orders[id].gridStrategy
          else l'.orders[id].intents == [] && !l'.orders[id].gridStrategy)
      && l'.fills == l.fills && l'.positions == l.positions && l'.version > l.version
  {
  }

  /** A fill reported twice counts once. */
  lemma FillCountsOnce(l: Ledger, f: Fill)
    ensures
      var once := Changed(l, AppendFill(f));
      && f.key in (set g | g in once.fills :: g.key) && Changed(once, AppendFill(f)) == once
      && (f.key !in (set g | g in l.fills :: g.key) ==> once.fills == l.fills + [f] && once.version > l.version)
      && (f.key in (set g | g in l.fills :: g.key) ==> once == l)
  {
    var once := Changed(l, AppendFill(f));
    if !HasFill(l.fills, f.key) { assert once.fills[|l.fills|] == f; }
    forall g | g in l.fills ensures HasFill(l.fills, g.key) {
      var k :| 0 <= k < |l.fills| && l.fills[k] == g;
    }
  }
}

/**
 * The depth cache when the adapter is replaced (apps/trading_worker/main.py): the cache stays, the new
 * adapter brings a ledger of its own, and scans in flight go on reading the one they began on.
 */
module GridDepthReplacement {
  import opened Common
  import opened GridDepthCache

  // ---- later runs ----

  /** Anything but a further adapter and the changes that escape the version. */
  predicate Counted(a: Act) {
    && !a.Replace?
    && (a.Mutate? ==> !a.change.UpsertOrder? && !a.change.ReplacePositions? && !a.change.Become?)
  }

  predicate AllCounted(acts: seq<Act>) {
    forall i :: 0 <= i < |acts| ==> Counted(acts[i])
  }

  ghost predicate FreshNow(w: World) {
    forall symbol :: IsHit(w, symbol) ==>
      w.cache[Upper(symbol)].depth == FreshDepth(w.maxLevels, w.ledger, Upper(symbol))
  }

  ghost predicate AlwaysFresh(w: World) {
    forall acts: seq<Act> :: AllCounted(acts) ==> FreshNow(After(w, acts))
  }

  lemma CountedRunsAreFresh(v: World, acts: seq<Act>)
    requires Coherent(v) && AllCounted(acts)
    ensures FreshNow(After(v, acts))
  {
    forall i | 0 <= i < |acts| ensures Sound(After(v, acts[..i]), acts[i]) {
      assert Counted(acts[i]);
      if acts[i].Mutate? { VersionedIff(After(v, acts[..i]).ledger, acts[i].change); }
    }
    RunsAreCoherent(v, acts);
    var u := After(v, acts);
    forall symbol | IsHit(u, symbol)
      ensures u.cache[Upper(symbol)].depth == FreshDepth(u.maxLevels, u.ledger, Upper(symbol))
    {
      HitServes(u, symbol);
    }
  }

  lemma FreshLater(w: World, acts: seq<Act>)
    requires AlwaysFresh(w) && AllCounted(acts)
    ensures AlwaysFresh(After(w, acts))
  {
    forall more: seq<Act> | AllCounted(more) ensures FreshNow(After(After(w, acts), more)) {
      AfterBoth(w, acts, more);
      assert AllCounted(acts + more);
    }
  }

  // ---- any ledger at a given version ----

  /** Symbols are in upper case, quantities are not negative, and every scan's ledger is known. */
  ghost predicate Sane(w: World) {
    && (forall symbol :: symbol in w.cache ==> Upper(symbol) == symbol)
    && (forall id :: id in w.scans ==> SaneScan(w, w.scans[id]))
  }

  predicate SaneScan(w: World, s: Scan) {
    && Upper(s.symbol) == s.symbol && (s.home.Some? ==> s.home.value in w.retired)
    && (!s.progress.Started? ==> s.progress.quantity >= 0.0)
  }

  lemma UpperTwice(s: string)
    ensures Upper(Upper(s)) == Upper(s)
  {
  }

  lemma StepKeepsSane(w: World, a: Act)
    requires Sane(w)
    ensures Sane(Do(w, a))
  {
    var v := Do(w, a);
    if a.Begin? { UpperTwice(a.symbol); }
    forall id | id in v.scans ensures SaneScan(v, v.scans[id]) {
      if id in w.scans { assert SaneScan(w, w.scans[id]); }
    }
    forall symbol | symbol in v.cache ensures Upper(symbol) == symbol {
      if symbol !in w.cache { assert SaneScan(w, w.scans[a.scan]); }
    }
  }

  /** Every world is sane that a process reaches from an empty cache, whatever ledgers it has met. */
  lemma {:induction false} RunsAreSane(w: World, acts: seq<Act>)
    requires w.cache == map[] && w.scans == map[]
    ensures Sane(After(w, acts))
  {
    if acts != [] {
      RunsAreSane(w, acts[..|acts| - 1]);
      StepKeepsSane(After(w, acts[..|acts| - 1]), acts[|acts| - 1]);
    }
  }

  /** For one ledger it suffices that all that is known is older than it or right about it. */
  lemma ReplacementSuffices(w: World, place: nat, l: Ledger)
    requires place !in w.retired
    requires forall symbol :: symbol in w.cache ==>
               || w.cache[symbol].version < l.version
               || (w.cache[symbol].version == l.version && w.cache[symbol].depth == FreshDepth(w.maxLevels, l, symbol))
    requires forall id :: id in w.scans ==>
               || w.scans[id].version < l.version
               || (w.scans[id].version == l.version && Idle(w.scans[id])
                   && FreshDepth(w.maxLevels, l, w.scans[id].symbol) == 0)
    ensures AlwaysFresh(Do(w, Replace(place, l)))
  {
    var v := Do(w, Replace(place, l));
    forall symbol | symbol in v.cache ensures EntryOk(v, symbol) {
    }
    forall id | id in v.scans ensures ScanOk(v, v.scans[id]) {
      assert v.scans[id] == Moved(w.scans[id], place);
    }
    forall acts: seq<Act> | AllCounted(acts) ensures FreshNow(After(v, acts)) {
      CountedRunsAreFresh(v, acts);
    }
  }

  /**
   * The adapter is replaced at any moment: whatever ledger at version `version` comes with the new one,
   * later hits are right in every run, exactly when everything cached or being scanned is older.
   */
  lemma ReplacementIsSafeIff(w: World, place: nat, version: nat)
    requires Sane(w) && place !in w.retired && w.maxLevels > 0
    ensures (forall l: Ledger :: l.version == version ==> AlwaysFresh(Do(w, Replace(place, l)))) <==>
            Supersedes(w, version)
  {
    if Supersedes(w, version) {
      forall l: Ledger | l.version == version ensures AlwaysFresh(Do(w, Replace(place, l))) {
        ReplacementSuffices(w, place, l);
      }
    } else if symbol :| symbol in w.cache && w.cache[symbol].version >= version {
      var l := Opposite(symbol, w.cache[symbol].depth, version);
      OppositeIsServed(Do(w, Replace(place, l)), symbol, version);
    } else {
      var id :| id in w.scans && w.scans[id].version >= version;
      var s := w.scans[id];
      var l := Opposite(s.symbol, ReportedDepth(w, s), version);
      var v := Do(w, Replace(place, l));
      ScanReports(v, id);
      assert LedgerOf(v, v.scans[id]) == LedgerOf(w, s);
      if AlwaysFresh(v) {
        FreshLater(v, ScanToEnd(id));
        OppositeIsServed(After(v, ScanToEnd(id)), s.symbol, version);
      }
    }
  }

  /** A ledger without orders that holds `symbol` exactly when `depth` says it is flat. */
  function Opposite(symbol: string, depth: nat, version: nat): Ledger {
    Ledger(map[], [], if depth == 0 then [Position(symbol, "LONG", 1.0)] else [], version)
  }

  lemma OppositeIsServed(v: World, symbol: string, version: nat)
    requires symbol in v.cache && Upper(symbol) == symbol && v.maxLevels > 0
    requires v.ledger == Opposite(symbol, v.cache[symbol].depth, version) && v.cache[symbol].version >= version
    ensures !AlwaysFresh(v)
  {
    var e, other := v.cache[symbol], symbol + "X";
    assert |Upper(other)| == |symbol| + 1;
    var acts := Ticking([], other, e.version - version);
    TickingRaisesVersion(v, [], other, e.version - version);
    var u := After(v, acts);
    DepthOfNoOrders(v.maxLevels, u.ledger, symbol);
    assert [Position(symbol, "LONG", 1.0)][1..] == [];
    assert IsHit(u, symbol) && !FreshNow(u) && AllCounted(acts);
  }

  // ---- scans that go on ----

  function ScanToEnd(id: nat): (acts: seq<Act>)
    ensures AllCounted(acts)
  {
    [ReadPositions(id), ReadOrders(id), Finish(id)]
  }

  /** What a scan will report if its ledger stays as it is. */
  function ReportedDepth(w: World, s: Scan): nat {
    var l := LedgerOf(w, s);
    var quantity := if s.progress.Started? then Quantity(l.positions, s.symbol) else s.progress.quantity;
    var open := if s.progress.OrdersRead? then s.progress.open else OpenCount(l.orders, s.symbol);
    var gridIds := if s.progress.OrdersRead? then s.progress.gridIds else GridIds(l.orders, s.symbol);
    ObservedDepth(w.maxLevels, quantity, open, |FilledIds(l.fills, s.symbol, gridIds)|)
  }

  lemma ReadingReports(w: World, id: nat, a: Act)
    requires id in w.scans && a in {ReadPositions(id), ReadOrders(id)}
    ensures
      var v := Do(w, a);
      && v == w.(scans := v.scans) && id in v.scans && v.scans[id] == w.scans[id].(progress := v.scans[id].progress)
      && ReportedDepth(v, v.scans[id]) == ReportedDepth(w, w.scans[id])
      && (a.ReadPositions? ==> !v.scans[id].progress.Started?)
      && (a.ReadOrders? && !w.scans[id].progress.Started? ==> v.scans[id].progress.OrdersRead?)
  {
  }

  lemma ScanReports(w: World, id: nat)
    requires id in w.scans
    ensures
      var v, s := After(w, ScanToEnd(id)), w.scans[id];
      && v.ledger == w.ledger && v.retired == w.retired && v.maxLevels == w.maxLevels && v.cache.Keys >= {s.symbol}
      && v.cache[s.symbol] == Entry(s.version, ReportedDepth(w, s))
  {
    ThreeActs(w, ReadPositions(id), ReadOrders(id), Finish(id));
    ReadingReports(w, id, ReadPositions(id));
    ReadingReports(Do(w, ReadPositions(id)), id, ReadOrders(id));
    var v := Do(Do(w, ReadPositions(id)), ReadOrders(id));
    assert FinishedDepth(v, v.scans[id]) == ReportedDepth(v, v.scans[id]);
  }

  // ---- particular ledgers ----

  /** A ledger loaded from SQL has its orders and no version yet: a flat entry at version 0 hides them. */
  lemma LoadedLedgerGoesUnseen(w: World, place: nat, o: Order)
    requires w.maxLevels > 0 && IsOpenGridOrder(o, Upper(o.symbol)) && place !in w.retired
    requires Upper(o.symbol) in w.cache && w.cache[Upper(o.symbol)] == Entry(0, 0)
    ensures
      var v := Do(w, Replace(place, EMPTY.(orders := EMPTY.orders[o.id := o])));
      IsHit(v, o.symbol) && v.cache[Upper(o.symbol)].depth == 0
      && FreshDepth(v.maxLevels, v.ledger, Upper(o.symbol)) == 1
  {
    DepthOfOneOrder(w.maxLevels, o);
  }

  /** Harmless before an empty ledger: a flat entry or an idle scan, both at version 0. */
  ghost predicate NothingKnown(w: World) {
    && (forall symbol :: symbol in w.cache ==> w.cache[symbol] == Entry(0, 0))
    && (forall id :: id in w.scans ==> w.scans[id].version == 0 && Idle(w.scans[id]))
  }

  /** The empty ledger of a new TESTNET adapter: exactly when nothing is known but flatness at version 0. */
  lemma EmptyReplacementIsSafeIff(w: World, place: nat)
    requires Sane(w) && place !in w.retired && w.maxLevels > 0
    ensures AlwaysFresh(Do(w, Replace(place, EMPTY))) <==> NothingKnown(w)
  {
    var v := Do(w, Replace(place, EMPTY));
    if NothingKnown(w) {
      forall symbol: string ensures FreshDepth(w.maxLevels, EMPTY, symbol) == 0 {
        DepthOfNoOrders(w.maxLevels, EMPTY, symbol);
      }
      ReplacementSuffices(w, place, EMPTY);
    } else if symbol :| symbol in w.cache && w.cache[symbol] != Entry(0, 0) {
      StaleEntryIsServed(v, symbol);
    } else {
      var id :| id in w.scans && !(w.scans[id].version == 0 && Idle(w.scans[id]));
      BusyScanIsServed(w, place, id);
    }
  }

  /** A retired ledger that shows an open grid order on `symbol`. */
  function Busy(symbol: string): Ledger {
    EMPTY.(orders := map["o" := Order(symbol, "o", [], true, "NEW")])
  }

  lemma BusyScanIsServed(w: World, place: nat, id: nat)
    requires Sane(w) && place !in w.retired && w.maxLevels > 0
    requires id in w.scans && !(w.scans[id].version == 0 && Idle(w.scans[id]))
    ensures !AlwaysFresh(Do(w, Replace(place, EMPTY)))
  {
    var v := Do(w, Replace(place, EMPTY));
    var s := v.scans[id];
    assert s == Moved(w.scans[id], place) && SaneScan(w, w.scans[id]);
    var acts := [MutateRetired(s.home.value, Become(Busy(s.symbol)))];
    OneAct(v, acts[0]);
    var u := After(v, acts);
    assert u.scans == v.scans && LedgerOf(u, s) == Busy(s.symbol);
    if !Idle(s) { BusyDepth(u, s); }
    ScanReports(u, id);
    if AlwaysFresh(v) {
      FreshLater(v, acts);
      FreshLater(u, ScanToEnd(id));
      StaleEntryIsServed(After(u, ScanToEnd(id)), s.symbol);
    }
  }

  lemma BusyDepth(w: World, s: Scan)
    requires LedgerOf(w, s) == Busy(s.symbol) && SaneScan(w, s) && !Idle(s) && w.maxLevels > 0
    ensures ReportedDepth(w, s) > 0
  {
    var o := Order(s.symbol, "o", [], true, "NEW");
    assert Upper("NEW") == "NEW";
    assert IsOpenGridOrder(o, s.symbol);
    assert "o" in OpenIds(Busy(s.symbol).orders, s.symbol);
  }

  /** A run that begins with `start` and then clears an unrelated symbol again and again. */
  function Ticking(start: seq<Act>, other: string, n: nat): (acts: seq<Act>)
    ensures AllCounted(start) ==> AllCounted(acts)
  {
    if n == 0 then start else Ticking(start, other, n - 1) + [Mutate(ClearPositions(other))]
  }

  lemma {:induction false} TickingRaisesVersion(v: World, start: seq<Act>, other: string, n: nat)
    requires forall i :: 0 <= i < |After(v, start).ledger.positions| ==>
               Upper(After(v, start).ledger.positions[i].symbol) != Upper(other)
    ensures
      var l := After(v, start).ledger;
      After(v, Ticking(start, other, n)) == After(v, start).(ledger := l.(version := l.version + n))
  {
    if n > 0 {
      TickingRaisesVersion(v, start, other, n - 1);
      var acts := Ticking(start, other, n);
      assert acts[..|acts| - 1] == Ticking(start, other, n - 1);
      NothingToClear(After(v, start).ledger.positions, other);
    }
  }

  lemma {:induction false} NothingToClear(ps: seq<Position>, other: string)
    requires forall i :: 0 <= i < |ps| ==> Upper(ps[i].symbol) != Upper(other)
    ensures Without(ps, other) == ps
  {
    if ps != [] { NothingToClear(ps[1..], other); }
  }

  /** The new ledger reaches the entry's version with a position it denies, or without one it claims. */
  lemma StaleEntryIsServed(v: World, symbol: string)
    requires v.ledger == EMPTY && v.maxLevels > 0
    requires symbol in v.cache && Upper(symbol) == symbol && v.cache[symbol] != Entry(0, 0)
    ensures !AlwaysFresh(v)
  {
    var e := v.cache[symbol];
    var start := Opening(symbol, e.depth);
    var other := symbol + "X";
    assert |Upper(other)| == |symbol| + 1;
    AfterOpening(v, symbol, e.depth);
    var acts := Ticking(start, other, e.version - |start|);
    TickingRaisesVersion(v, start, other, e.version - |start|);
    var u := After(v, acts);
    DepthOfNoOrders(v.maxLevels, u.ledger, symbol);
    assert IsHit(u, symbol);
    assert !FreshNow(u);
    assert AllCounted(acts);
  }

  function Opening(symbol: string, depth: nat): seq<Act> {
    if depth == 0 then [Mutate(UpsertPosition(Position(symbol, "LONG", 1.0)))] else []
  }

  lemma AfterOpening(v: World, symbol: string, depth: nat)
    requires v.ledger == EMPTY && Upper(symbol) == symbol
    ensures
      var u := After(v, Opening(symbol, depth));
      && u == v.(ledger := Ledger(map[], [], u.ledger.positions, |Opening(symbol, depth)|))
      && (forall i :: 0 <= i < |u.ledger.positions| ==> u.ledger.positions[i].symbol == symbol)
      && Quantity(u.ledger.positions, symbol) == if depth == 0 then 1.0 else 0.0
  {
    var held := Position(symbol, "LONG", 1.0);
    if depth == 0 {
      assert Opening(symbol, depth)[..0] == [] && [held][1..] == [];
      assert After(v, Opening(symbol, depth)) == Do(v, Mutate(UpsertPosition(held)));
    }
  }
}

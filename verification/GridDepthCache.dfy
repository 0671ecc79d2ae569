/**
 * The observed grid depth and its version-keyed cache (`_observed_grid_depth`,
 * apps/trading_worker/main.py) over the execution ledger
 * (apps/trading_worker/venues/binance/ledger.py).  A scan awaits the ledger three times; each stretch
 * between awaits is one step here, so ledger changes and other scans may fall anywhere in between.
 */
module GridDepthCache {
  import opened Common

  // ---- the ledger ----

  function UpperChar(c: char): char {
    if 'a' <= c <= 'z' then c - 'a' + 'A' else c
  }

  function Upper(s: string): string {
    seq(|s|, i requires 0 <= i < |s| => UpperChar(s[i]))
  }

  /** `gridStrategy` says that the stored strategy id is, up to case and blanks, one of the grid's. */
  datatype Order = Order(symbol: string, id: string, intents: seq<string>, gridStrategy: bool, status: string)
  datatype Fill = Fill(key: string, symbol: string, orderId: string, intents: seq<string>, gridStrategy: bool)
  datatype Position = Position(symbol: string, side: string, quantity: real)

  datatype Ledger = Ledger(orders: map<string, Order>, fills: seq<Fill>, positions: seq<Position>, version: nat)

  const EMPTY := Ledger(map[], [], [], 0)

  datatype Change =
    | UpsertOrder(order: Order)
    | UpsertRawOrder(symbol: string, id: string, status: string)
    | AppendFill(fill: Fill)
    | UpsertPosition(position: Position)
    | ReplacePositions(positions: seq<Position>)
    | ClearPositions(symbol: string)
    | Become(ledger: Ledger)   // any other writer, for instance one that edits a stored order in place

  predicate HasFill(fills: seq<Fill>, key: string) {
    exists i :: 0 <= i < |fills| && fills[i].key == key
  }

  predicate SamePlace(p: Position, q: Position) {
    p.symbol == q.symbol && p.side == q.side
  }

  function Upsert(ps: seq<Position>, q: Position): seq<Position> {
    if ps == [] then [q] else if SamePlace(ps[0], q) then [q] + ps[1..] else [ps[0]] + Upsert(ps[1..], q)
  }

  function Without(ps: seq<Position>, symbol: string): seq<Position> {
    if ps == [] then []
    else (if Upper(ps[0].symbol) != Upper(symbol) then [ps[0]] else []) + Without(ps[1..], symbol)
  }

  /** What the exchange's own record of an order becomes: its lineage is kept from the stored one. */
  function FromRaw(orders: map<string, Order>, symbol: string, id: string, status: string): Order {
    if id in orders then Order(Upper(symbol), id, orders[id].intents, orders[id].gridStrategy, status)
    else Order(Upper(symbol), id, [], false, status)
  }

  /** Two of the changes do not raise the version. */
  function Changed(l: Ledger, c: Change): Ledger {
    match c
    case UpsertOrder(o) => l.(orders := l.orders[o.id := o])
    case UpsertRawOrder(symbol, id, status) =>
      l.(orders := l.orders[id := FromRaw(l.orders, symbol, id, status)], version := l.version + 1)
    case AppendFill(f) => if HasFill(l.fills, f.key) then l else l.(fills := l.fills + [f], version := l.version + 1)
    case UpsertPosition(p) => l.(positions := Upsert(l.positions, p), version := l.version + 1)
    case ReplacePositions(ps) => l.(positions := ps)
    case ClearPositions(s) => l.(positions := Without(l.positions, s), version := l.version + 1)
    case Become(m) => m
  }

  lemma UpsertAt(ps: seq<Position>, q: Position, i: nat)
    requires i < |ps|
    ensures SamePlace(ps[i], q) ==> ps[..i] + Upsert(ps[i..], q) == ps[i := q]
    ensures !SamePlace(ps[i], q) ==> ps[..i] + Upsert(ps[i..], q) == ps[..i + 1] + Upsert(ps[i + 1..], q)
  {
    assert ps[i..][0] == ps[i] && ps[i..][1..] == ps[i + 1..];
    assert ps[..i + 1] == ps[..i] + [ps[i]];
  }

  class InMemoryLedger {
    var orders: map<string, Order>
    var fills: seq<Fill>
    var positions: seq<Position>
    var version: nat

    constructor ()
      ensures Contents() == EMPTY
    {
      orders, fills, positions, version := map[], [], [], 0;
    }

    function Contents(): Ledger reads this {
      Ledger(orders, fills, positions, version)
    }

    method UpsertOrder(order: Order)
      modifies this
      ensures Contents() == Changed(old(Contents()), Change.UpsertOrder(order))
    {
      orders := orders[order.id := order];
    }

    method UpsertRawOrder(symbol: string, id: string, status: string)
      modifies this
      ensures Contents() == Changed(old(Contents()), Change.UpsertRawOrder(symbol, id, status))
    {
      var intents, gridStrategy := [], false;
      if id in orders { intents, gridStrategy := orders[id].intents, orders[id].gridStrategy; }
      orders := orders[id := Order(Upper(symbol), id, intents, gridStrategy, status)];
      version := version + 1;
    }

    method AppendFill(fill: Fill)
      modifies this
      ensures Contents() == Changed(old(Contents()), Change.AppendFill(fill))
    {
      for i := 0 to |fills|
        invariant forall j :: 0 <= j < i ==> fills[j].key != fill.key
        invariant Contents() == old(Contents())
      {
        if fills[i].key == fill.key { return; }
      }
      fills, version := fills + [fill], version + 1;
    }

    method UpsertPosition(position: Position)
      modifies this
      ensures Contents() == Changed(old(Contents()), Change.UpsertPosition(position))
    {
      for i := 0 to |positions|
        invariant Contents() == old(Contents())
        invariant Upsert(positions, position) == positions[..i] + Upsert(positions[i..], position)
      {
        UpsertAt(positions, position, i);
        if SamePlace(positions[i], position) {
          positions, version := positions[i := position], version + 1;
          return;
        }
      }
      assert positions[..|positions|] == positions;
      positions, version := positions + [position], version + 1;
    }

    method ReplacePositions(ps: seq<Position>)
      modifies this
      ensures Contents() == Changed(old(Contents()), Change.ReplacePositions(ps))
    {
      positions := ps;
    }

    method ClearPositionsForSymbol(symbol: string)
      modifies this
      ensures Contents() == Changed(old(Contents()), Change.ClearPositions(symbol))
    {
      positions, version := Without(positions, symbol), version + 1;
    }
  }

  // ---- depth ----

  predicate StartsWith(prefix: string, s: string) {
    |prefix| <= |s| && s[..|prefix|] == prefix
  }

  predicate HasGridLineage(intents: seq<string>, id: string) {
    || (exists i :: 0 <= i < |intents| && StartsWith("GRID-", Upper(intents[i])))
    || StartsWith("BAI-", Upper(id)) || StartsWith("B-", Upper(id)) || StartsWith("GRID-", Upper(id))
  }

  predicate IsGridOrder(o: Order, symbol: string) {
    Upper(o.symbol) == symbol && (HasGridLineage(o.intents, o.id) || o.gridStrategy)
  }

  predicate IsOpen(o: Order) {
    Upper(o.status) in {"NEW", "PARTIALLY_FILLED"}
  }

  predicate IsOpenGridOrder(o: Order, symbol: string) {
    IsGridOrder(o, symbol) && IsOpen(o)
  }

  function Abs(x: real): real { if x < 0.0 then -x else x }

  function Quantity(ps: seq<Position>, symbol: string): (q: real)
    ensures q >= 0.0
  {
    if ps == [] then 0.0
    else (if Upper(ps[0].symbol) == symbol then Abs(ps[0].quantity) else 0.0) + Quantity(ps[1..], symbol)
  }

  function GridIds(orders: map<string, Order>, symbol: string): set<string> {
    set id | id in orders && IsGridOrder(orders[id], symbol)
  }

  function OpenIds(orders: map<string, Order>, symbol: string): set<string> {
    set id | id in orders && IsOpenGridOrder(orders[id], symbol)
  }

  function OpenCount(orders: map<string, Order>, symbol: string): nat {
    |OpenIds(orders, symbol)|
  }

  function FilledIds(fills: seq<Fill>, symbol: string, gridIds: set<string>): set<string> {
    set i | 0 <= i < |fills| && Upper(fills[i].symbol) == symbol
            && (|| fills[i].orderId in gridIds || fills[i].gridStrategy
                || HasGridLineage(fills[i].intents, fills[i].orderId))
      :: fills[i].orderId
  }

  function ObservedDepth(maxLevels: nat, quantity: real, open: nat, filled: nat): nat {
    if quantity == 0.0 && open == 0 then 0
    else if quantity > 0.0 && open + filled == 0 then maxLevels
    else if open + filled <= maxLevels then open + filled else maxLevels
  }

  /** The depth an uninterrupted scan of `l` reports. */
  function FreshDepth(maxLevels: nat, l: Ledger, symbol: string): nat {
    ObservedDepth(maxLevels, Quantity(l.positions, symbol), OpenCount(l.orders, symbol),
                  |FilledIds(l.fills, symbol, GridIds(l.orders, symbol))|)
  }

  // ---- the cache and interleaved scans ----

  datatype Progress =
    | Started
    | PositionsRead(quantity: real)
    | OrdersRead(quantity: real, open: nat, gridIds: set<string>)

  /** A scan reads the ledger it began on; `home` names it once another adapter has taken its place. */
  datatype Scan = Scan(symbol: string, version: nat, progress: Progress, home: Option<nat>)

  datatype Entry = Entry(version: nat, depth: nat)

  datatype World = World(
    mode: Mode, connected: bool, maxLevels: nat, ledger: Ledger, retired: map<nat, Ledger>,
    cache: map<string, Entry>, scans: map<nat, Scan>)

  datatype Act =
    | Mutate(change: Change)
    | Begin(scan: nat, symbol: string)
    | ReadPositions(scan: nat)
    | ReadOrders(scan: nat)
    | Finish(scan: nat)
    | Fail(scan: nat)
    | Replace(place: nat, ledger: Ledger)          // a new adapter; its predecessor's ledger is kept as `place`
    | MutateRetired(place: nat, change: Change)

  datatype Answer = Pending | Depth(depth: nat)

  predicate IsHit(w: World, symbol: string) {
    Upper(symbol) in w.cache && w.cache[Upper(symbol)].version == w.ledger.version
  }

  function LedgerOf(w: World, s: Scan): Ledger {
    if s.home.None? then w.ledger else if s.home.value in w.retired then w.retired[s.home.value] else EMPTY
  }

  function FinishedDepth(w: World, s: Scan): nat
    requires s.progress.OrdersRead?
  {
    ObservedDepth(w.maxLevels, s.progress.quantity, s.progress.open,
                  |FilledIds(LedgerOf(w, s).fills, s.symbol, s.progress.gridIds)|)
  }

  function Moved(s: Scan, place: nat): Scan {
    if s.home.None? then s.(home := Some(place)) else s
  }

  function Reply(w: World, a: Act): Answer {
    match a
    case Begin(_, symbol) =>
      if w.mode == PAPER then Depth(0)
      else if !w.connected then Depth(w.maxLevels)
      else if IsHit(w, symbol) then Depth(w.cache[Upper(symbol)].depth)
      else Pending
    case Finish(id) =>
      if id in w.scans && w.scans[id].progress.OrdersRead? then Depth(FinishedDepth(w, w.scans[id])) else Pending
    case Fail(id) => if id in w.scans then Depth(w.maxLevels) else Pending
    case _ => Pending
  }

  function Do(w: World, a: Act): World {
    match a
    case Mutate(c) => w.(ledger := Changed(w.ledger, c))
    case Begin(id, symbol) =>
      if Reply(w, a) == Pending && id !in w.scans
      then w.(scans := w.scans[id := Scan(Upper(symbol), w.ledger.version, Started, None)]) else w
    case ReadPositions(id) =>
      if id in w.scans && w.scans[id].progress.Started? then
        var s := w.scans[id];
        w.(scans := w.scans[id := s.(progress := PositionsRead(Quantity(LedgerOf(w, s).positions, s.symbol)))])
      else w
    case ReadOrders(id) =>
      if id in w.scans && w.scans[id].progress.PositionsRead? then
        var s := w.scans[id];
        var orders := LedgerOf(w, s).orders;
        w.(scans := w.scans[id := s.(progress := OrdersRead(s.progress.quantity, OpenCount(orders, s.symbol),
                                                            GridIds(orders, s.symbol)))])
      else w
    case Finish(id) =>
      if id in w.scans && w.scans[id].progress.OrdersRead? then
        var s := w.scans[id];
        w.(cache := w.cache[s.symbol := Entry(s.version, FinishedDepth(w, s))], scans := w.scans - {id})
      else w
    case Fail(id) => w.(scans := w.scans - {id})
    case Replace(place, l) =>
      if place in w.retired then w
      else w.(ledger := l, retired := w.retired[place := w.ledger],
              scans := map id | id in w.scans :: Moved(w.scans[id], place))
    case MutateRetired(place, c) =>
      if place in w.retired then w.(retired := w.retired[place := Changed(w.retired[place], c)]) else w
  }

  class GridDepthObserver {
    const mode: Mode
    const maxLevels: nat
    var connected: bool
    var ledger: Ledger
    var retired: map<nat, Ledger>
    var cache: map<string, Entry>
    var scans: map<nat, Scan>

    constructor (mode: Mode, connected: bool, maxLevels: nat, ledger: Ledger)
      ensures State() == World(mode, connected, maxLevels, ledger, map[], map[], map[])
    {
      this.mode, this.connected, this.maxLevels, this.ledger := mode, connected, maxLevels, ledger;
      retired, cache, scans := map[], map[], map[];
    }

    function State(): World reads this {
      World(mode, connected, maxLevels, ledger, retired, cache, scans)
    }

    /** Up to the first await. */
    method BeginScan(id: nat, symbol: string) returns (r: Answer)
      requires id !in scans
      modifies this
      ensures State() == Do(old(State()), Begin(id, symbol)) && r == Reply(old(State()), Begin(id, symbol))
    {
      if mode == PAPER { return Depth(0); }
      if !connected { return Depth(maxLevels); }
      var key := Upper(symbol);
      if key in cache && cache[key].version == ledger.version { return Depth(cache[key].depth); }
      scans := scans[id := Scan(key, ledger.version, Started, None)];
      r := Pending;
    }

    method ReadPositionsOf(id: nat)
      requires id in scans && scans[id].progress.Started?
      modifies this
      ensures State() == Do(old(State()), ReadPositions(id))
    {
      var s := scans[id];
      var positions := LedgerOf(State(), s).positions;
      var total := 0.0;
      var i := |positions|;
      while i > 0
        invariant 0 <= i <= |positions| && State() == old(State())
        invariant total == Quantity(positions[i..], s.symbol)
      {
        i := i - 1;
        var p := positions[i];
        assert positions[i..][1..] == positions[i + 1..];
        if Upper(p.symbol) == s.symbol && p.quantity != 0.0 { total := Abs(p.quantity) + total; }
      }
      assert positions[0..] == positions;
      scans := scans[id := s.(progress := PositionsRead(total))];
    }

    method ReadOrdersOf(id: nat)
      requires id in scans && scans[id].progress.PositionsRead?
      modifies this
      ensures State() == Do(old(State()), ReadOrders(id))
    {
      var s := scans[id];
      var orders := LedgerOf(State(), s).orders;
      var open, gridIds := OpenCount(orders, s.symbol), GridIds(orders, s.symbol);
      scans := scans[id := s.(progress := OrdersRead(s.progress.quantity, open, gridIds))];
    }

    method FinishScan(id: nat) returns (r: Answer)
      requires id in scans && scans[id].progress.OrdersRead?
      modifies this
      ensures State() == Do(old(State()), Finish(id)) && r == Reply(old(State()), Finish(id))
    {
      var s := scans[id];
      var filled := FilledIds(LedgerOf(State(), s).fills, s.symbol, s.progress.gridIds);
      var depth := ObservedDepth(maxLevels, s.progress.quantity, s.progress.open, |filled|);
      cache, scans := cache[s.symbol := Entry(s.version, depth)], scans - {id};
      r := Depth(depth);
    }

    /** A read raised: nothing is cached and expansion is blocked. */
    method FailScan(id: nat) returns (r: Answer)
      requires id in scans
      modifies this
      ensures State() == Do(old(State()), Fail(id)) && r == Reply(old(State()), Fail(id))
    {
      scans := scans - {id};
      r := Depth(maxLevels);
    }

    /** Scans in flight go on reading the ledger they began on; the cache stays. */
    method ReplaceAdapter(place: nat, next: Ledger)
      requires place !in retired
      modifies this
      ensures State() == Do(old(State()), Replace(place, next))
    {
      retired := retired[place := ledger];
      ledger := next;
      scans := map id | id in scans :: Moved(scans[id], place);
    }
  }

  // ---- coherence ----

  predicate EntryOk(w: World, symbol: string)
    requires symbol in w.cache
  {
    var e := w.cache[symbol];
    && e.version <= w.ledger.version
    && (e.version == w.ledger.version ==> e.depth == FreshDepth(w.maxLevels, w.ledger, symbol))
  }

  /** It will report depth 0, whatever the fills. */
  predicate Idle(s: Scan) {
    s.progress.OrdersRead? && s.progress.quantity == 0.0 && s.progress.open == 0
  }

  /**
   * What a scan has read is still there, unless the version has moved on; a scan of a retired ledger is
   * out of date, or certain of a depth that is right.
   */
  predicate ScanOk(w: World, s: Scan) {
    var l := w.ledger;
    && s.version <= l.version
    && (s.version == l.version ==>
      if s.home.Some? then Idle(s) && FreshDepth(w.maxLevels, l, s.symbol) == 0 else
      && (!s.progress.Started? ==> s.progress.quantity == Quantity(l.positions, s.symbol))
      && (s.progress.OrdersRead? ==>
            s.progress.open == OpenCount(l.orders, s.symbol) && s.progress.gridIds == GridIds(l.orders, s.symbol)))
  }

  ghost predicate Coherent(w: World) {
    && (forall symbol :: symbol in w.cache ==> EntryOk(w, symbol))
    && (forall id :: id in w.scans ==> ScanOk(w, w.scans[id]))
  }

  /** The ledger contract the cache relies on: a change raises the version. */
  predicate Versioned(was: Ledger, now: Ledger) {
    now == was || now.version > was.version
  }

  /** Everything cached or on its way is older than `version`. */
  ghost predicate Supersedes(w: World, version: nat) {
    && (forall symbol :: symbol in w.cache ==> w.cache[symbol].version < version)
    && (forall id :: id in w.scans ==> w.scans[id].version < version)
  }

  /** A change raises the version, and a new ledger begins above everything known. */
  ghost predicate Sound(w: World, a: Act) {
    if a.Replace? then a.place in w.retired || Supersedes(w, a.ledger.version)
    else Versioned(w.ledger, Do(w, a).ledger)
  }

  lemma StepKeepsCoherence(w: World, a: Act)
    requires Coherent(w) && Sound(w, a)
    ensures Coherent(Do(w, a))
  {
    var v := Do(w, a);
    forall symbol | symbol in v.cache ensures EntryOk(v, symbol) {
      if symbol in w.cache { assert EntryOk(w, symbol); }
      if a.Finish? && a.scan in w.scans { assert ScanOk(w, w.scans[a.scan]); }
    }
    forall id | id in v.scans ensures ScanOk(v, v.scans[id]) {
      if id in w.scans { assert ScanOk(w, w.scans[id]); }
    }
  }

  function After(w: World, acts: seq<Act>): World {
    if acts == [] then w else Do(After(w, acts[..|acts| - 1]), acts[|acts| - 1])
  }

  lemma {:induction false} AfterBoth(w: World, a: seq<Act>, b: seq<Act>)
    ensures After(w, a + b) == After(After(w, a), b)
    decreases |b|
  {
    if b == [] {
      assert a + b == a;
    } else {
      AfterBoth(w, a, b[..|b| - 1]);
      assert (a + b)[..|a + b| - 1] == a + b[..|b| - 1];
    }
  }

  lemma OneAct(w: World, a: Act)
    ensures After(w, [a]) == Do(w, a)
  {
    assert [a][..0] == [];
  }

  lemma ThreeActs(w: World, a: Act, b: Act, c: Act)
    ensures After(w, [a, b, c]) == Do(Do(Do(w, a), b), c)
  {
    OneAct(w, a);
    OneAct(Do(w, a), b);
    OneAct(Do(Do(w, a), b), c);
    AfterBoth(w, [a], [b]);
    AfterBoth(w, [a, b], [c]);
    assert [a] + [b] == [a, b] && [a, b] + [c] == [a, b, c];
  }

  lemma FourActs(w: World, a: Act, b: Act, c: Act, d: Act)
    ensures After(w, [a, b, c, d]) == Do(Do(Do(Do(w, a), b), c), d)
  {
    ThreeActs(w, a, b, c);
    OneAct(Do(Do(Do(w, a), b), c), d);
    AfterBoth(w, [a, b, c], [d]);
    assert [a, b, c] + [d] == [a, b, c, d];
  }

  ghost predicate VersionedRun(w: World, acts: seq<Act>) {
    forall i :: 0 <= i < |acts| ==> Sound(After(w, acts[..i]), acts[i])
  }

  lemma {:induction false} RunsAreCoherent(w: World, acts: seq<Act>)
    requires Coherent(w) && VersionedRun(w, acts)
    ensures Coherent(After(w, acts))
  {
    if acts != [] {
      var rest := acts[..|acts| - 1];
      assert forall i :: 0 <= i < |rest| ==> rest[..i] == acts[..i] && rest[i] == acts[i];
      RunsAreCoherent(w, rest);
      assert rest == acts[..|acts| - 1];
      StepKeepsCoherence(After(w, rest), acts[|acts| - 1]);
    }
  }

  /**
   * Over every run of scans, changes and new adapters, from an empty cache, on ledgers whose version
   * grows with each change and begins above all that is known: whatever the cache serves is what a
   * fresh scan would find now, and a scan that no change overtook reports the same.
   */
  lemma HitsAreFresh(w: World, acts: seq<Act>, id: nat, symbol: string)
    requires w.cache == map[] && w.scans == map[] && VersionedRun(w, acts)
    ensures
      var v := After(w, acts);
      && (v.mode != PAPER && v.connected && Reply(v, Begin(id, symbol)).Depth? ==>
            Reply(v, Begin(id, symbol)).depth == FreshDepth(v.maxLevels, v.ledger, Upper(symbol)))
      && (id in v.scans && v.scans[id].version == v.ledger.version && v.scans[id].progress.OrdersRead? ==>
            Reply(v, Finish(id)) == Depth(FreshDepth(v.maxLevels, v.ledger, v.scans[id].symbol)))
  {
    RunsAreCoherent(w, acts);
    var v := After(w, acts);
    if Upper(symbol) in v.cache { assert EntryOk(v, Upper(symbol)); }
    if id in v.scans { assert ScanOk(v, v.scans[id]); }
  }

  // ---- where the ledger breaks its contract ----

  /** Four of the six changes keep the contract; the other two only when they change nothing. */
  lemma VersionedIff(l: Ledger, c: Change)
    requires !c.Become?
    ensures Versioned(l, Changed(l, c)) <==>
            match c
            case UpsertOrder(o) => o.id in l.orders && l.orders[o.id] == o
            case ReplacePositions(ps) => ps == l.positions
            case _ => true
  {
    if c.UpsertOrder? && Changed(l, c) == l {
      assert l.orders[c.order.id := c.order] == l.orders;
    }
    if c.UpsertOrder? && c.order.id in l.orders && l.orders[c.order.id] == c.order {
      assert l.orders[c.order.id := c.order] == l.orders;
    }
  }

  lemma HitServes(w: World, symbol: string)
    requires Coherent(w) && IsHit(w, symbol)
    ensures w.cache[Upper(symbol)].depth == FreshDepth(w.maxLevels, w.ledger, Upper(symbol))
  {
    assert EntryOk(w, Upper(symbol));
  }

  /**
   * After positions are replaced without a new version, a cached depth is still right exactly when
   * a grid order is open or the symbol stays flat, or stays not flat.
   */
  lemma StaleAfterReplaceIff(w: World, ps: seq<Position>, symbol: string)
    requires Coherent(w) && IsHit(w, symbol) && w.maxLevels > 0
    ensures
      var v, s := Do(w, Mutate(ReplacePositions(ps))), Upper(symbol);
      && IsHit(v, symbol)
      && (v.cache[s].depth == FreshDepth(v.maxLevels, v.ledger, s) <==>
          OpenCount(w.ledger.orders, s) > 0 || (Quantity(w.ledger.positions, s) == 0.0 <==> Quantity(ps, s) == 0.0))
  {
    HitServes(w, symbol);
  }

  /** Open grid orders once `o` is stored. */
  function OpenWith(orders: map<string, Order>, o: Order, symbol: string): int {
    OpenCount(orders, symbol)
    - (if o.id in orders && IsOpenGridOrder(orders[o.id], symbol) then 1 else 0)
    + (if IsOpenGridOrder(o, symbol) then 1 else 0)
  }

  /** Grid orders once `o` is stored. */
  function GridIdsWith(orders: map<string, Order>, o: Order, symbol: string): set<string> {
    if IsGridOrder(o, symbol) then GridIds(orders, symbol) + {o.id} else GridIds(orders, symbol) - {o.id}
  }

  /** A held or working symbol shows a full grid: enough levels, or none it can name. */
  predicate Full(maxLevels: nat, levels: int) {
    levels >= maxLevels || levels == 0
  }

  /**
   * After any order is stored without a new version, new or changed, a cached depth is still right
   * exactly when the symbol stays inactive, or stays active with as many levels as before or with a
   * grid that was full and is.
   */
  lemma StaleAfterOrderIff(w: World, o: Order, symbol: string)
    requires Coherent(w) && IsHit(w, symbol) && w.maxLevels > 0
    ensures
      var v, s := Do(w, Mutate(UpsertOrder(o))), Upper(symbol);
      var orders, fills, held := w.ledger.orders, w.ledger.fills, Quantity(w.ledger.positions, s) > 0.0;
      var open, open' := OpenCount(orders, s), OpenWith(orders, o, s);
      var levels := open + |FilledIds(fills, s, GridIds(orders, s))|;
      var levels' := open' + |FilledIds(fills, s, GridIdsWith(orders, o, s))|;
      && IsHit(v, symbol)
      && (v.cache[s].depth == FreshDepth(v.maxLevels, v.ledger, s) <==>
          if held || open > 0
          then (held || open' > 0) && (levels == levels' || (Full(w.maxLevels, levels) && Full(w.maxLevels, levels')))
          else open' == 0)
  {
    var s := Upper(symbol);
    HitServes(w, symbol);
    OrderCounts(w.ledger.orders, o, s);
    SameDepthIff(w.maxLevels, Quantity(w.ledger.positions, s), OpenCount(w.ledger.orders, s),
                 |FilledIds(w.ledger.fills, s, GridIds(w.ledger.orders, s))|, OpenWith(w.ledger.orders, o, s),
                 |FilledIds(w.ledger.fills, s, GridIdsWith(w.ledger.orders, o, s))|);
  }

  lemma SameDepthIff(maxLevels: nat, quantity: real, open: nat, filled: nat, open': nat, filled': nat)
    requires maxLevels > 0 && quantity >= 0.0
    ensures ObservedDepth(maxLevels, quantity, open, filled) == ObservedDepth(maxLevels, quantity, open', filled') <==>
            if quantity > 0.0 || open > 0
            then (quantity > 0.0 || open' > 0)
                 && (|| open + filled == open' + filled'
                     || (Full(maxLevels, open + filled) && Full(maxLevels, open' + filled')))
            else open' == 0
  {
  }

  lemma OrderCounts(orders: map<string, Order>, o: Order, s: string)
    ensures OpenCount(orders[o.id := o], s) == OpenWith(orders, o, s)
    ensures GridIds(orders[o.id := o], s) == GridIdsWith(orders, o, s)
  {
    OpenIdsAfter(orders, o, s);
    GridIdsAfter(orders, o, s);
    assert o.id in OpenIds(orders, s) <==> o.id in orders && IsOpenGridOrder(orders[o.id], s);
  }

  lemma OpenIdsAfter(orders: map<string, Order>, o: Order, s: string)
    ensures OpenIds(orders[o.id := o], s) ==
            if IsOpenGridOrder(o, s) then OpenIds(orders, s) + {o.id} else OpenIds(orders, s) - {o.id}
  {
  }

  lemma GridIdsAfter(orders: map<string, Order>, o: Order, s: string)
    ensures GridIds(orders[o.id := o], s) == GridIdsWith(orders, o, s)
  {
  }

  /**
   * The common case, a working grid order that is filled or cancelled: a cached depth is still right
   * exactly when the grid is full without it and the symbol active, or when one level is all there is.
   */
  lemma StaleAfterClosedOrderIff(w: World, o: Order, symbol: string)
    requires Coherent(w) && IsHit(w, symbol) && w.maxLevels > 0
    requires o.id in w.ledger.orders && IsOpenGridOrder(w.ledger.orders[o.id], Upper(symbol))
    requires IsGridOrder(o, Upper(symbol)) && !IsOpen(o)
    ensures
      var v, s := Do(w, Mutate(UpsertOrder(o))), Upper(symbol);
      var open, filled := OpenCount(w.ledger.orders, s), |FilledIds(w.ledger.fills, s, GridIds(w.ledger.orders, s))|;
      var held := Quantity(w.ledger.positions, s) > 0.0;
      && IsHit(v, symbol)
      && (v.cache[s].depth == FreshDepth(v.maxLevels, v.ledger, s) <==>
          || (open - 1 + filled >= w.maxLevels && (held || open > 1))
          || (held && open + filled == 1 && w.maxLevels == 1))
  {
    var s := Upper(symbol);
    StaleAfterOrderIff(w, o, symbol);
    OrderCounts(w.ledger.orders, o, s);
    assert GridIdsWith(w.ledger.orders, o, s) == GridIds(w.ledger.orders, s);
  }

  /** So, on a flat account, the first grid order goes unseen: depth 0 is served where 1 is true. */
  lemma NewOrderGoesUnseen(w: World, id: nat, o: Order)
    requires w.mode != PAPER && w.connected && w.maxLevels > 0 && w.scans == map[] && w.cache == map[]
    requires w.ledger == EMPTY && IsGridOrder(o, Upper(o.symbol)) && IsOpen(o)
    ensures
      var v := After(w, [Begin(id, o.symbol), ReadPositions(id), ReadOrders(id), Finish(id), Mutate(UpsertOrder(o))]);
      && Reply(v, Begin(id, o.symbol)) == Depth(0)
      && FreshDepth(v.maxLevels, v.ledger, Upper(o.symbol)) == 1
  {
    var scan := [Begin(id, o.symbol), ReadPositions(id), ReadOrders(id), Finish(id)];
    FourActs(w, scan[0], scan[1], scan[2], scan[3]);
    EmptyScan(w, id, o.symbol);
    var v := w.(cache := map[Upper(o.symbol) := Entry(0, 0)]);
    AfterBoth(w, scan, [Mutate(UpsertOrder(o))]);
    OneAct(v, Mutate(UpsertOrder(o)));
    assert scan + [Mutate(UpsertOrder(o))] ==
           [Begin(id, o.symbol), ReadPositions(id), ReadOrders(id), Finish(id), Mutate(UpsertOrder(o))];
    DepthOfOneOrder(w.maxLevels, o);
  }

  /** Nothing but one open grid order. */
  lemma DepthOfOneOrder(maxLevels: nat, o: Order)
    requires maxLevels > 0 && IsOpenGridOrder(o, Upper(o.symbol))
    ensures FreshDepth(maxLevels, EMPTY.(orders := EMPTY.orders[o.id := o]), Upper(o.symbol)) == 1
  {
    var s := Upper(o.symbol);
    OrderCounts(EMPTY.orders, o, s);
    NoneOpen(EMPTY.orders, s);
    assert FilledIds([], s, GridIds(EMPTY.orders[o.id := o], s)) == {};
  }

  lemma EmptyScan(w: World, id: nat, symbol: string)
    requires w.mode != PAPER && w.connected && w.scans == map[] && w.cache == map[] && w.ledger == EMPTY
    ensures
      var v := Do(Do(Do(Do(w, Begin(id, symbol)), ReadPositions(id)), ReadOrders(id)), Finish(id));
      v == w.(cache := map[Upper(symbol) := Entry(0, 0)])
  {
    var s := Upper(symbol);
    var w3 := Do(Do(Do(w, Begin(id, symbol)), ReadPositions(id)), ReadOrders(id));
    assert w3.scans[id] == Scan(s, 0, OrdersRead(0.0, OpenCount(map[], s), GridIds(map[], s)), None);
    assert w3.scans - {id} == map[];
    DepthOfNoOrders(w.maxLevels, EMPTY, s);
  }

  lemma NoneOpen(orders: map<string, Order>, symbol: string)
    requires orders.Keys == {}
    ensures OpenCount(orders, symbol) == 0 && GridIds(orders, symbol) == {}
  {
    assert OpenIds(orders, symbol) <= orders.Keys;
  }

  lemma DepthOfNoOrders(maxLevels: nat, l: Ledger, symbol: string)
    requires l.orders == map[] && l.fills == []
    ensures FreshDepth(maxLevels, l, symbol) == if Quantity(l.positions, symbol) == 0.0 then 0 else maxLevels
  {
    NoneOpen(l.orders, symbol);
    assert FilledIds(l.fills, symbol, GridIds(l.orders, symbol)) == {};
  }
}

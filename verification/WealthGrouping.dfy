/**
 * The trade book of apps/learning_engine/wealth_evaluator.py: recording trades and closed lineages
 * without counting a lineage twice, and splitting the book by strategy or symbol.
 */
module WealthGrouping {
  import opened WealthMetrics

  datatype Lineage = Lineage(
    id: string, symbol: string, strategy: string, gross: real, commission: real, funding: real,
    slippage: real, closed: bool, breachedRuleZero: bool)

  function ToTrade(l: Lineage): Trade {
    Trade(l.id, l.symbol, l.strategy, l.gross, l.commission, l.funding, l.slippage, l.breachedRuleZero)
  }

  // ---- recording ----

  datatype Event = RecordTrade(trade: Trade) | RecordLineage(lineage: Lineage)

  datatype Book = Book(trades: seq<Trade>, lineages: map<string, Lineage>)

  predicate Tracked(trades: seq<Trade>, id: string) {
    exists i :: 0 <= i < |trades| && trades[i].id == id
  }

  function Record(b: Book, e: Event): Book {
    match e
    case RecordTrade(t) => b.(trades := b.trades + [t])
    case RecordLineage(l) =>
      Book(if l.closed && !Tracked(b.trades, l.id) then b.trades + [ToTrade(l)] else b.trades,
           b.lineages[l.id := l])
  }

  function After(events: seq<Event>): Book {
    if events == [] then Book([], map[]) else Record(After(events[..|events| - 1]), events[|events| - 1])
  }

  class WealthEvaluator {
    const initialCapital: real
    var trades: seq<Trade>
    var lineages: map<string, Lineage>

    constructor (capital: real)
      ensures initialCapital == capital && Contents() == After([])
    {
      initialCapital := capital;
      trades, lineages := [], map[];
    }

    function Contents(): Book reads this {
      Book(trades, lineages)
    }

    method RecordTrade(trade: Trade)
      modifies this
      ensures Contents() == Record(old(Contents()), Event.RecordTrade(trade))
    {
      trades := trades + [trade];
    }

    method IsTracked(id: string) returns (found: bool)
      ensures found == Tracked(trades, id)
    {
      for i := 0 to |trades|
        invariant forall j :: 0 <= j < i ==> trades[j].id != id
      {
        if trades[i].id == id { return true; }
      }
      found := false;
    }

    method RecordLineage(lineage: Lineage)
      modifies this
      ensures Contents() == Record(old(Contents()), Event.RecordLineage(lineage))
    {
      lineages := lineages[lineage.id := lineage];
      if lineage.closed {
        var found := IsTracked(lineage.id);
        if !found { RecordTrade(ToTrade(lineage)); }
      }
    }

    method MetricsBy(key: Trade -> string) returns (results: map<string, Metrics>)
      ensures results.Keys == Keys(key, trades)
      ensures forall k :: k in results ==> results[k] == Report(initialCapital, Select(key, trades, k))
    {
      var groups := Group(key, trades);
      results := map[];
      var left := groups.Keys;
      while left != {}
        invariant left <= groups.Keys && results.Keys == groups.Keys - left
        invariant forall k :: k in results ==> results[k] == Report(initialCapital, groups[k])
      {
        var k :| k in left;
        var m := CalculateWealthMetrics(groups[k], initialCapital);
        results, left := results[k := m], left - {k};
      }
    }

    method GetStrategyMetrics() returns (results: map<string, Metrics>)
      ensures forall k :: k in results <==> exists i :: 0 <= i < |trades| && trades[i].strategy == k
      ensures forall k :: k in results ==> results[k] == Report(initialCapital, Select(StrategyOf, trades, k))
    {
      results := MetricsBy(StrategyOf);
    }

    method GetSymbolMetrics() returns (results: map<string, Metrics>)
      ensures forall k :: k in results <==> exists i :: 0 <= i < |trades| && trades[i].symbol == k
      ensures forall k :: k in results ==> results[k] == Report(initialCapital, Select(SymbolOf, trades, k))
    {
      results := MetricsBy(SymbolOf);
    }
  }

  /** How often `id` is in the book. */
  function Count(trades: seq<Trade>, id: string): nat {
    if trades == [] then 0
    else Count(trades[..|trades| - 1], id) + if trades[|trades| - 1].id == id then 1 else 0
  }

  lemma {:induction false} TrackedIffCounted(trades: seq<Trade>, id: string)
    ensures Tracked(trades, id) <==> Count(trades, id) > 0
  {
    if trades != [] {
      var rest := trades[..|trades| - 1];
      TrackedIffCounted(rest, id);
      assert forall i :: 0 <= i < |trades| ==> trades[i] == if i < |rest| then rest[i] else trades[|trades| - 1];
      if Tracked(rest, id) {
        var i :| 0 <= i < |rest| && rest[i].id == id;
        assert trades[i].id == id;
      }
    }
  }

  predicate Enters(e: Event, id: string) {
    match e
    case RecordTrade(t) => t.id == id
    case RecordLineage(l) => l.id == id && l.closed
  }

  /** Trades recorded directly under `id`. */
  function Direct(events: seq<Event>, id: string): nat {
    if events == [] then 0
    else Direct(events[..|events| - 1], id)
         + if events[|events| - 1].RecordTrade? && Enters(events[|events| - 1], id) then 1 else 0
  }

  /** The first event that can enter `id`, if any. */
  function FirstEntry(events: seq<Event>, id: string): (r: int)
    ensures r == -1 || (0 <= r < |events| && Enters(events[r], id))
    ensures forall i :: 0 <= i < (if r == -1 then |events| else r) ==> !Enters(events[i], id)
  {
    if events == [] then -1 else
    var r := FirstEntry(events[..|events| - 1], id);
    if r == -1 && Enters(events[|events| - 1], id) then |events| - 1 else r
  }

  /** Once per direct recording, and once more when a closed lineage came before every direct recording. */
  function Entered(events: seq<Event>, id: string): nat {
    var first := FirstEntry(events, id);
    Direct(events, id) + if first >= 0 && events[first].RecordLineage? then 1 else 0
  }

  lemma EnteredStep(events: seq<Event>, id: string)
    requires events != []
    ensures
      var rest, e := events[..|events| - 1], events[|events| - 1];
      Entered(events, id) == Entered(rest, id) +
        if Enters(e, id) && (e.RecordTrade? || Entered(rest, id) == 0) then 1 else 0
  {
    FirstEntryCounts(events[..|events| - 1], id);
  }

  /** Over every run the book holds an id exactly that often. */
  lemma {:induction false} RecordedCount(events: seq<Event>, id: string)
    ensures Count(After(events).trades, id) == Entered(events, id)
  {
    if events != [] {
      var rest := events[..|events| - 1];
      RecordedCount(rest, id);
      TrackedIffCounted(After(rest).trades, id);
      CountAfterRecord(After(rest), events[|events| - 1], id);
      EnteredStep(events, id);
    }
  }

  lemma CountAfterRecord(b: Book, e: Event, id: string)
    ensures Count(Record(b, e).trades, id)
         == Count(b.trades, id) + if Enters(e, id) && (e.RecordTrade? || !Tracked(b.trades, id)) then 1 else 0
  {
    var now := Record(b, e).trades;
    if now != b.trades { assert now[..|now| - 1] == b.trades; }
  }

  lemma {:induction false} FirstEntryCounts(events: seq<Event>, id: string)
    ensures FirstEntry(events, id) == -1 ==> Direct(events, id) == 0
    ensures FirstEntry(events, id) >= 0 && events[FirstEntry(events, id)].RecordTrade? ==> Direct(events, id) > 0
  {
    if events != [] {
      FirstEntryCounts(events[..|events| - 1], id);
    }
  }

  /** A book fed by lineages alone holds each id at most once ... */
  lemma LineagesEnterOnce(events: seq<Event>, id: string)
    requires forall i :: 0 <= i < |events| ==> events[i].RecordLineage?
    ensures Count(After(events).trades, id) <= 1
    ensures Count(After(events).trades, id) == 1 <==> exists i :: 0 <= i < |events| && Enters(events[i], id)
  {
    RecordedCount(events, id);
    NoDirect(events, id);
  }

  lemma {:induction false} NoDirect(events: seq<Event>, id: string)
    requires forall i :: 0 <= i < |events| ==> events[i].RecordLineage?
    ensures Direct(events, id) == 0
  {
    if events != [] { NoDirect(events[..|events| - 1], id); }
  }

  /** The trade shows the lineage's own figures. */
  predicate Shows(t: Trade, l: Lineage) {
    && t.id == l.id && t.symbol == l.symbol && t.strategy == l.strategy && t.unknownRisk == l.breachedRuleZero
    && t.realized == l.gross && t.commission == l.commission && t.funding == l.funding && t.slippage == l.slippage
  }

  /**
   * ... and what it holds is the first closed version: a later correction replaces the lineage but
   * not the trade that is counted.
   */
  lemma {:induction false} FirstClosedVersionStands(events: seq<Event>, k: nat)
    requires forall i :: 0 <= i < |events| ==> events[i].RecordLineage?
    requires k < |After(events).trades|
    ensures
      var t := After(events).trades[k];
      var first := FirstEntry(events, t.id);
      first >= 0 && t == ToTrade(events[first].lineage) && Shows(t, events[first].lineage)
  {
    var rest, e := events[..|events| - 1], events[|events| - 1];
    var was := After(rest).trades;
    if k < |was| {
      FirstClosedVersionStands(rest, k);
    } else {
      var id := e.lineage.id;
      RecordedCount(rest, id);
      TrackedIffCounted(was, id);
      assert FirstEntry(rest, id) == -1;
    }
  }

  /** The version of lineage `id` that was recorded last, closed or not. */
  function LastVersion(events: seq<Event>, id: string): (r: int)
    ensures r == -1 || (0 <= r < |events| && events[r].RecordLineage? && events[r].lineage.id == id)
  {
    if events == [] then -1
    else if events[|events| - 1].RecordLineage? && events[|events| - 1].lineage.id == id then |events| - 1
    else LastVersion(events[..|events| - 1], id)
  }

  lemma {:induction false} FiledVersionIsLast(events: seq<Event>, id: string)
    ensures id in After(events).lineages <==> LastVersion(events, id) >= 0
    ensures id in After(events).lineages ==> After(events).lineages[id] == events[LastVersion(events, id)].lineage
  {
    if events != [] {
      FiledVersionIsLast(events[..|events| - 1], id);
    }
  }

  /**
   * The trade that counts is the lineage on file exactly when the first closed and the latest version give
   * the same trade.
   */
  lemma CountedAsFiledIff(events: seq<Event>, k: nat)
    requires forall i :: 0 <= i < |events| ==> events[i].RecordLineage?
    requires k < |After(events).trades|
    ensures
      var t := After(events).trades[k];
      var first, last := FirstEntry(events, t.id), LastVersion(events, t.id);
      && first >= 0 && last >= first && t.id in After(events).lineages
      && (t == ToTrade(After(events).lineages[t.id]) <==>
         ToTrade(events[first].lineage) == ToTrade(events[last].lineage))
  {
    var t := After(events).trades[k];
    FirstClosedVersionStands(events, k);
    LastIsNotBefore(events, t.id, FirstEntry(events, t.id));
    FiledVersionIsLast(events, t.id);
  }

  lemma {:induction false} LastIsNotBefore(events: seq<Event>, id: string, i: int)
    requires 0 <= i < |events| && events[i].RecordLineage? && events[i].lineage.id == id
    ensures LastVersion(events, id) >= i
  {
    if LastVersion(events, id) != |events| - 1 { LastIsNotBefore(events[..|events| - 1], id, i); }
  }

  /** A closed lineage is recorded and then corrected: the file changes, the count does not. */
  lemma CorrectionIsNotCounted(l: Lineage, gross: real)
    requires l.closed && gross != l.gross
    ensures
      var b := After([RecordLineage(l), RecordLineage(l.(gross := gross))]);
      && b.trades == [ToTrade(l)] && b.lineages == map[l.id := l.(gross := gross)]
      && TallyOf(b.trades).net != Net(ToTrade(b.lineages[l.id]))
  {
    var corrected := l.(gross := gross);
    var events := [RecordLineage(l), RecordLineage(corrected)];
    assert events[..1] == [RecordLineage(l)] && events[..1][..0] == [];
    assert After(events[..1]) == Book([ToTrade(l)], map[l.id := l]);
    assert Tracked([ToTrade(l)], l.id) by { assert [ToTrade(l)][0].id == l.id; }
    assert [ToTrade(l)][..0] == [];
  }

  // ---- splitting ----

  const StrategyOf: Trade -> string := (t: Trade) => t.strategy
  const SymbolOf: Trade -> string := (t: Trade) => t.symbol

  /** The trades with key `k`, in book order. */
  function Select(key: Trade -> string, trades: seq<Trade>, k: string): seq<Trade> {
    if trades == [] then [] else
    var rest := Select(key, trades[..|trades| - 1], k);
    if key(trades[|trades| - 1]) == k then rest + [trades[|trades| - 1]] else rest
  }

  /** A selection holds the trades with its key and no others. */
  lemma {:induction false} SelectsByKey(key: Trade -> string, trades: seq<Trade>, k: string, t: Trade)
    ensures t in Select(key, trades, k) <==> t in trades && key(t) == k
  {
    if trades != [] {
      SelectsByKey(key, trades[..|trades| - 1], k, t);
      assert trades == trades[..|trades| - 1] + [trades[|trades| - 1]];
    }
  }

  function Keys(key: Trade -> string, trades: seq<Trade>): (ks: set<string>)
    ensures forall k :: k in ks <==> exists i :: 0 <= i < |trades| && key(trades[i]) == k
  {
    set i | 0 <= i < |trades| :: key(trades[i])
  }

  method Group(key: Trade -> string, trades: seq<Trade>) returns (groups: map<string, seq<Trade>>)
    ensures groups.Keys == Keys(key, trades)
    ensures forall k :: k in groups ==> groups[k] == Select(key, trades, k)
  {
    groups := map[];
    for i := 0 to |trades|
      invariant groups.Keys == Keys(key, trades[..i])
      invariant forall k :: k in groups ==> groups[k] == Select(key, trades[..i], k)
    {
      var t := trades[i];
      var k := key(t);
      assert trades[..i + 1] == trades[..i] + [t] && trades[..i + 1][..i] == trades[..i];
      KeysAfterAppend(key, trades[..i], t);
      SelectOutside(key, trades[..i], k);
      groups := groups[k := (if k in groups then groups[k] else []) + [t]];
    }
    assert trades[..|trades|] == trades;
  }

  lemma KeysAfterAppend(key: Trade -> string, trades: seq<Trade>, t: Trade)
    ensures Keys(key, trades + [t]) == Keys(key, trades) + {key(t)}
  {
    var all := trades + [t];
    assert all[|trades|] == t;
    forall k | k in Keys(key, trades) ensures k in Keys(key, all) {
      var i :| 0 <= i < |trades| && key(trades[i]) == k;
      assert key(all[i]) == k;
    }
    assert key(t) in Keys(key, all);
  }

  lemma {:induction false} SelectOutside(key: Trade -> string, trades: seq<Trade>, k: string)
    ensures Select(key, trades, k) == [] <==> k !in Keys(key, trades)
  {
    if trades != [] {
      var rest, last := trades[..|trades| - 1], trades[|trades| - 1];
      assert trades == rest + [last];
      SelectOutside(key, rest, k);
      KeysAfterAppend(key, rest, last);
    }
  }

  // ---- conservation ----

  ghost function Sum(m: map<string, Tally>): Tally
    decreases |m|
  {
    if m == map[] then ZERO else
    var k :| k in m;
    assert |m - {k}| < |m| by { MapShrinks(m, k); }
    Sum(m - {k}).Plus(m[k])
  }

  lemma MapShrinks(m: map<string, Tally>, k: string)
    requires k in m
    ensures |m - {k}| == |m| - 1
  {
    assert (m - {k}).Keys == m.Keys - {k};
  }

  lemma {:induction false} SumWithout(m: map<string, Tally>, k: string)
    requires k in m
    ensures Sum(m) == Sum(m - {k}).Plus(m[k])
    decreases |m|
  {
    var j :| j in m && Sum(m) == Sum(m - {j}).Plus(m[j]);
    if j != k {
      MapShrinks(m, j);
      MapShrinks(m, k);
      SumWithout(m - {j}, k);
      SumWithout(m - {k}, j);
      assert m - {j} - {k} == m - {k} - {j};
      SwapLast(Sum(m - {j} - {k}), m[k], m[j]);
    }
  }

  lemma SwapLast(a: Tally, b: Tally, c: Tally)
    ensures a.Plus(b).Plus(c) == a.Plus(c).Plus(b)
  {
  }

  /** The per-group tallies of a book. */
  ghost function Tallies(key: Trade -> string, trades: seq<Trade>): map<string, Tally> {
    map k | k in Keys(key, trades) :: TallyOf(Select(key, trades, k))
  }

  /** Counts and exact sums over the groups add up to those of the whole book, whatever the key. */
  lemma {:induction false} GroupingConserves(key: Trade -> string, trades: seq<Trade>)
    ensures Sum(Tallies(key, trades)) == TallyOf(trades)
  {
    if trades != [] {
      var rest, last := trades[..|trades| - 1], trades[|trades| - 1];
      assert trades == rest + [last];
      GroupingConserves(key, rest);
      GroupGrows(key, rest, last);
    }
  }

  lemma GroupGrows(key: Trade -> string, rest: seq<Trade>, t: Trade)
    ensures Sum(Tallies(key, rest + [t])) == Sum(Tallies(key, rest)).Plus(One(t))
  {
    var k := key(t);
    OneGroupGrows(key, rest, t);
    SumGrows(Tallies(key, rest), Tallies(key, rest + [t]), k, One(t));
  }

  lemma OneGroupGrows(key: Trade -> string, rest: seq<Trade>, t: Trade)
    ensures
      var was, now, k := Tallies(key, rest), Tallies(key, rest + [t]), key(t);
      now - {k} == was - {k} && k in now && now[k] == (if k in was then was[k] else ZERO).Plus(One(t))
  {
    var k := key(t);
    assert (rest + [t])[..|rest|] == rest;
    KeysAfterAppend(key, rest, t);
    SelectOutside(key, rest, k);
    TallyOfAppend(Select(key, rest, k), t);
  }

  lemma SumGrows(was: map<string, Tally>, now: map<string, Tally>, k: string, x: Tally)
    requires now - {k} == was - {k} && k in now && now[k] == (if k in was then was[k] else ZERO).Plus(x)
    ensures Sum(now) == Sum(was).Plus(x)
  {
    SumWithout(now, k);
    if k in was {
      SumWithout(was, k);
      PlusAssociates(Sum(was - {k}), was[k], x);
    } else {
      assert was - {k} == was;
      PlusAssociates(Sum(was), ZERO, x);
      PlusZero(Sum(was));
    }
  }

  lemma PlusZero(a: Tally)
    ensures a.Plus(ZERO) == a
  {
  }
}

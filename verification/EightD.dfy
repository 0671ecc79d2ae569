/**
 * Eight-disciplines incidents (domain/eight_d.py) and their manager
 * (apps/learning_engine/eight_d_manager.py): `active_containments` is an index by symbol that has
 * to agree with the set of incidents that are still open.
 */
module EightD {
  import opened Common

  datatype Status =
    | Established | Described | Contained | RootCauseFound | PcaChosen | PcaVerified | PreventionApplied | Closed

  datatype Containment = CoolDownSymbol(symbol: string) | PauseNewRiskGlobal

  class EightDIncident {
    const id: string
    const symbol: string
    var status: Status
    var containment: Option<Containment>
    var rootCause: Option<string>
    var pca: seq<string>
    var prevention: seq<string>
    var closure: Option<string>

    constructor (id: string, symbol: string)
      ensures this.id == id && this.symbol == symbol && status == Established
      ensures containment == None && rootCause == None && pca == [] && prevention == [] && closure == None
    {
      this.id := id;
      this.symbol := symbol;
      status := Established;
      containment, rootCause, pca, prevention, closure := None, None, [], [], None;
    }

    method SetD2Problem()
      modifies this`status
      ensures status == Described
    {
      status := Described;
    }

    method SetD3Containment(c: Containment)
      modifies this`status, this`containment
      ensures status == Contained && containment == Some(c)
    {
      containment, status := Some(c), Contained;
    }

    method SetD4RootCause(tree: string)
      modifies this`status, this`rootCause
      ensures status == RootCauseFound && rootCause == Some(tree)
    {
      rootCause, status := Some(tree), RootCauseFound;
    }

    method AddD5Pca(title: string)
      modifies this`status, this`pca
      ensures status == PcaChosen && pca == old(pca) + [title]
    {
      pca, status := pca + [title], PcaChosen;
    }

    /** A failed verification leaves the status where it was. */
    method SetD6Verification(passed: bool)
      modifies this`status
      ensures status == if passed then PcaVerified else old(status)
    {
      if passed { status := PcaVerified; }
    }

    method AddD7Prevention(policy: string)
      modifies this`status, this`prevention
      ensures status == PreventionApplied && prevention == old(prevention) + [policy]
    {
      prevention, status := prevention + [policy], PreventionApplied;
    }

    method CloseIncident(summary: string)
      modifies this`status, this`closure
      ensures status == Closed && closure == Some(summary)
    {
      closure, status := Some(summary), Closed;
    }
  }

  // ---- the abstract register ----

  datatype Entry = Entry(symbol: string, open: bool)

  /** Incidents by id, and the symbols under containment. */
  datatype Register = Register(book: map<string, Entry>, contained: set<string>)

  const EMPTY := Register(map[], {})

  predicate Blank(s: string) {
    forall i :: 0 <= i < |s| ==> IsBlank(s[i])
  }

  predicate OpenOn(book: map<string, Entry>, symbol: string) {
    exists id :: id in book && book[id].open && book[id].symbol == symbol
  }

  /** Something is left of the text once it is stripped. */
  predicate Given(s: string) {
    exists c :: c in s && !IsBlank(c)
  }

  lemma AllGivenMeans(a: string, b: string, c: string, d: string)
    ensures AllGiven([a, b, c, d]) <==> Given(a) && Given(b) && Given(c) && Given(d)
  {
    var texts := [a, b, c, d];
    assert texts[0] == a && texts[1] == b && texts[2] == c && texts[3] == d;
    forall i | 0 <= i < 4 ensures Given(texts[i]) <==> !Blank(texts[i]) {
      if !Blank(texts[i]) {
        var k :| 0 <= k < |texts[i]| && !IsBlank(texts[i][k]);
        assert texts[i][k] in texts[i];
      }
    }
  }

  /** `all(value.strip() for value in texts)` */
  predicate AllGiven(texts: seq<string>) {
    forall i :: 0 <= i < |texts| ==> !Blank(texts[i])
  }

  predicate Closable(book: map<string, Entry>, id: string, texts: seq<string>) {
    id in book && book[id].open && AllGiven(texts)
  }

  datatype Step = Create(id: string, symbol: string) | Close(id: string, texts: seq<string>)

  function Apply(r: Register, s: Step): Register {
    match s
    case Create(id, symbol) => Register(r.book[id := Entry(symbol, true)], r.contained + {symbol})
    case Close(id, texts) =>
      if !Closable(r.book, id, texts) then r
      else
        var book := r.book[id := r.book[id].(open := false)];
        Register(book, if OpenOn(book, r.book[id].symbol) then r.contained else r.contained - {r.book[id].symbol})
  }

  class EightDManager {
    var incidents: map<string, EightDIncident>
    var activeContainments: map<string, Containment>

    /** Incidents are filed under their id and are either waiting for closure or closed. */
    ghost predicate Valid()
      reads this, incidents.Values
    {
      forall id :: id in incidents ==>
        && incidents[id].id == id
        && (incidents[id].status.PcaChosen? || incidents[id].status.Closed?)
        && incidents[id].rootCause.Some? && incidents[id].pca != []
    }

    ghost function View(): Register
      reads this, incidents.Values
    {
      Register(map id | id in incidents :: Entry(incidents[id].symbol, !incidents[id].status.Closed?),
               activeContainments.Keys)
    }

    constructor ()
      ensures Valid() && View() == EMPTY
    {
      incidents := map[];
      activeContainments := map[];
    }

    /** An incident taken through D1 to D5. */
    static method Open(id: string, symbol: string, c: Containment, cause: string) returns (incident: EightDIncident)
      ensures fresh(incident) && incident.id == id && incident.symbol == symbol
      ensures incident.status == PcaChosen && incident.rootCause.Some? && incident.pca != []
      ensures incident.containment == Some(c)
    {
      incident := new EightDIncident(id, symbol);
      incident.SetD2Problem();
      incident.SetD3Containment(c);
      incident.SetD4RootCause(cause);
      incident.AddD5Pca("corrective action");
    }

    /** `id` is the identifier drawn for the new incident; `critical` a rule-zero breach. */
    method CreateIncidentFromLineage(id: string, symbol: string, critical: bool, cause: string)
      returns (incident: EightDIncident)
      requires Valid()
      modifies this
      ensures Valid() && View() == Apply(old(View()), Create(id, symbol))
      ensures fresh(incident) && incidents == old(incidents)[id := incident]
      ensures activeContainments == old(activeContainments)[symbol :=
                if critical then PauseNewRiskGlobal else CoolDownSymbol(symbol)]
    {
      ghost var before := View();
      var c := if critical then PauseNewRiskGlobal else CoolDownSymbol(symbol);
      incident := Open(id, symbol, c, cause);
      activeContainments := activeContainments[symbol := c];
      incidents := incidents[id := incident];
      assert View().book == before.book[id := Entry(symbol, true)];
    }

    /** D6 to D8 on one incident; every other incident is left alone. */
    method Finish(id: string, prevention: string, lessons: string)
      requires Valid() && id in incidents && incidents[id].status.PcaChosen?
      modifies incidents[id]
      ensures Valid() && View().contained == old(View()).contained
      ensures View().book == old(View()).book[id := old(View()).book[id].(open := false)]
    {
      var incident := incidents[id];
      assert forall x :: x in incidents && x != id ==> incidents[x] != incident;
      incident.SetD6Verification(true);
      incident.AddD7Prevention(prevention);
      incident.CloseIncident(lessons);
    }

    method ClearIfLast(symbol: string)
      requires Valid()
      modifies this`activeContainments
      ensures Valid() && View().book == old(View()).book
      ensures View().contained ==
              if OpenOn(View().book, symbol) then old(View()).contained else old(View()).contained - {symbol}
    {
      if symbol in activeContainments {
        var open := StillOpen(symbol);
        if !open { activeContainments := activeContainments - {symbol}; }
      }
    }

    /** The list of other active incidents on a symbol, as a yes or no. */
    method StillOpen(symbol: string) returns (open: bool)
      ensures open == OpenOn(View().book, symbol)
    {
      var others := set x | x in incidents && incidents[x].symbol == symbol && !incidents[x].status.Closed?;
      open := others != {};
      if open {
        var x :| x in others;
        assert x in View().book && View().book[x].open && View().book[x].symbol == symbol;
      } else {
        forall x | x in View().book ensures !(View().book[x].open && View().book[x].symbol == symbol) {
          assert x !in others;
        }
      }
    }

    method AdvanceAndClose(id: string, evidence: string, prevention: string, lessons: string, signoff: string)
      returns (ok: bool)
      requires Valid()
      modifies this`activeContainments, incidents.Values
      ensures Valid() && View() == Apply(old(View()), Close(id, [evidence, prevention, lessons, signoff]))
      ensures ok <==> old(id in View().book && View().book[id].open)
                      && Given(evidence) && Given(prevention) && Given(lessons) && Given(signoff)
    {
      AllGivenMeans(evidence, prevention, lessons, signoff);
      ok := id in incidents && incidents[id].status.PcaChosen? && incidents[id].rootCause.Some?
            && incidents[id].pca != [] && AllGiven([evidence, prevention, lessons, signoff]);
      if ok {
        Finish(id, prevention, lessons);
        ClearIfLast(incidents[id].symbol);
      }
    }
  }

  // ---- over every run ----

  /** A symbol is contained exactly while some incident on it is open. */
  ghost predicate Exact(r: Register) {
    forall symbol :: symbol in r.contained <==> OpenOn(r.book, symbol)
  }

  lemma CloseKeepsExact(r: Register, id: string, texts: seq<string>)
    requires Exact(r)
    ensures Exact(Apply(r, Close(id, texts)))
  {
    if Closable(r.book, id, texts) {
      var r' := Apply(r, Close(id, texts));
      forall symbol
        ensures symbol in r'.contained <==> OpenOn(r'.book, symbol)
      {
        if OpenOn(r.book, symbol) && symbol != r.book[id].symbol {
          var x :| x in r.book && r.book[x].open && r.book[x].symbol == symbol;
          assert r'.book[x] == r.book[x];
        }
        if OpenOn(r'.book, symbol) {
          var x :| x in r'.book && r'.book[x].open && r'.book[x].symbol == symbol;
          assert r.book[x].open && r.book[x].symbol == symbol;
        }
      }
    }
  }

  /**
   * Creating an incident keeps the index exact unless its id is already taken by the last open
   * incident of another symbol: that incident is overwritten and its containment stays behind.
   */
  lemma CreateKeepsExactIff(r: Register, id: string, symbol: string)
    requires Exact(r)
    ensures Exact(Apply(r, Create(id, symbol))) <==>
            !(&& id in r.book && r.book[id].open && r.book[id].symbol != symbol
              && !OpenOn(r.book - {id}, r.book[id].symbol))
  {
    var r' := Apply(r, Create(id, symbol));
    assert r'.book[id] == Entry(symbol, true);
    forall s | s != symbol
      ensures OpenOn(r'.book, s) <==> OpenOn(r.book - {id}, s)
    {
      if OpenOn(r'.book, s) {
        var x :| x in r'.book && r'.book[x].open && r'.book[x].symbol == s;
        assert x in r.book - {id};
      }
      if OpenOn(r.book - {id}, s) {
        var x :| x in r.book - {id} && r.book[x].open && r.book[x].symbol == s;
        assert r'.book[x] == r.book[x];
      }
    }
    forall s | s != symbol
      ensures OpenOn(r.book, s) <==>
              OpenOn(r.book - {id}, s) || (id in r.book && r.book[id].open && r.book[id].symbol == s)
    {
      if OpenOn(r.book, s) {
        var x :| x in r.book && r.book[x].open && r.book[x].symbol == s;
        if x != id { assert x in r.book - {id}; }
      }
      if OpenOn(r.book - {id}, s) {
        var x :| x in r.book - {id} && (r.book - {id})[x].open && (r.book - {id})[x].symbol == s;
        assert x in r.book && r.book[x].open && r.book[x].symbol == s;
      }
    }
    if id in r.book && r.book[id].open && r.book[id].symbol != symbol {
      var s := r.book[id].symbol;
      assert OpenOn(r.book, s);
      assert s in r'.contained;
    }
  }

  /** An id drawn twice, for A and then for B: A stays contained with no incident left to close. */
  lemma ReusedIdStrandsContainment(id: string, a: string, b: string)
    requires a != b
    ensures
      var r := After([Create(id, a), Create(id, b)]);
      && a in r.contained && !OpenOn(r.book, a) && !Exact(r)
  {
    var one, steps := [Create(id, a)], [Create(id, a), Create(id, b)];
    assert one[..|one| - 1] == [] && steps[..|steps| - 1] == one;
    assert After(one) == Apply(EMPTY, one[0]);
    var r := After(steps);
    assert r == Apply(After(one), steps[1]);
    assert r.book == map[id := Entry(b, true)];
  }

  function After(steps: seq<Step>): Register {
    if steps == [] then EMPTY else Apply(After(steps[..|steps| - 1]), steps[|steps| - 1])
  }

  /** Every new incident drew an unused id. */
  predicate FreshIds(steps: seq<Step>) {
    forall i :: 0 <= i < |steps| && steps[i].Create? ==> steps[i].id !in After(steps[..i]).book
  }

  lemma FreshIdsPrefix(steps: seq<Step>, n: nat)
    requires FreshIds(steps) && n <= |steps|
    ensures FreshIds(steps[..n])
  {
    forall i | 0 <= i < n && steps[..n][i].Create? ensures steps[..n][i].id !in After(steps[..n][..i]).book {
      assert steps[..n][..i] == steps[..i];
    }
  }

  /** Over every run the contained symbols are exactly those with an open incident. */
  lemma {:induction false} ContainmentIsExact(steps: seq<Step>)
    requires FreshIds(steps)
    ensures Exact(After(steps))
  {
    if steps != [] {
      var n := |steps| - 1;
      FreshIdsPrefix(steps, n);
      ContainmentIsExact(steps[..n]);
      match steps[n]
      case Create(id, symbol) => CreateKeepsExactIff(After(steps[..n]), id, symbol);
      case Close(id, texts) => CloseKeepsExact(After(steps[..n]), id, texts);
    }
  }

  /** A closed incident is neither reopened nor closed a second time. */
  lemma {:induction false} ClosedForGood(steps: seq<Step>, i: nat, j: nat, id: string, texts: seq<string>)
    requires FreshIds(steps) && i <= j <= |steps| && id in After(steps[..i]).book && !After(steps[..i]).book[id].open
    ensures id in After(steps[..j]).book && After(steps[..j]).book[id] == After(steps[..i]).book[id]
    ensures !Closable(After(steps[..j]).book, id, texts)
    decreases j
  {
    if i < j {
      ClosedForGood(steps, i, j - 1, id, texts);
      assert steps[..j][..j - 1] == steps[..j - 1];
      assert steps[j - 1].Create? ==> steps[j - 1].id !in After(steps[..j - 1]).book;
    }
  }
}

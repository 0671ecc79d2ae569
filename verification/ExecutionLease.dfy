/**
 * Fenced execution leases (apps/trading_worker/execution_lease.py), in memory and in PostgreSQL.
 *
 * Time is a real number of seconds on a clock that never runs backwards.  Each call names the
 * instant `now` at which it takes effect and the clock reading `at` it works with: the in-memory
 * `acquire` reads the clock before it waits for the lock, so its reading may be arbitrarily stale.
 */
module ExecutionLease {
  import opened Common

  datatype Record = Record(owner: string, token: int, expires: real)
  type Records = map<string, Record>

  /** What a lease handle is created with. */
  datatype Handle = Handle(scope: string, owner: string, ttl: real)

  // ---- the two tables ----

  predicate Live(rs: Records, scope: string, owner: string, token: int, at: real) {
    scope in rs && rs[scope].owner == owner && rs[scope].token == token && rs[scope].expires > at
  }

  predicate Issued(rs: Records, scope: string, owner: string, token: int) {
    scope in rs && rs[scope].owner == owner && rs[scope].token == token
  }

  function Granted(rs: Records, scope: string, at: real): Option<int> {
    if scope in rs && rs[scope].expires > at then None
    else Some(if scope in rs then rs[scope].token + 1 else 1)
  }

  function Acquired(rs: Records, l: Handle, at: real): Records {
    match Granted(rs, l.scope, at)
    case None => rs
    case Some(token) => rs[l.scope := Record(l.owner, token, at + l.ttl)]
  }

  /** Checked at one reading of the clock, extended from another; in PostgreSQL both are the same. */
  function Renewed(rs: Records, l: Handle, token: int, at: real, from: real): Records {
    if Live(rs, l.scope, l.owner, token, at) then rs[l.scope := rs[l.scope].(expires := from + l.ttl)] else rs
  }

  /** In memory a release writes 0, in PostgreSQL the current time. */
  function Released(rs: Records, l: Handle, token: int, mark: real): Records {
    if Issued(rs, l.scope, l.owner, token) then rs[l.scope := rs[l.scope].(expires := mark)] else rs
  }

  /** InMemoryExecutionLeaseStore. */
  class InMemoryExecutionLeaseStore {
    var records: Records

    constructor ()
      ensures records == map[]
    {
      records := map[];
    }

    method Acquire(scope: string, owner: string, ttl: real, at: real) returns (token: Option<int>)
      modifies this
      ensures token == Granted(old(records), scope, at)
      ensures records == Acquired(old(records), Handle(scope, owner, ttl), at)
    {
      if scope in records && records[scope].expires > at { return None; }
      var next := if scope in records then records[scope].token + 1 else 1;
      records := records[scope := Record(owner, next, at + ttl)];
      return Some(next);
    }

    method Renew(scope: string, owner: string, token: int, ttl: real, at: real, from: real) returns (ok: bool)
      modifies this
      ensures ok == Live(old(records), scope, owner, token, at)
      ensures records == Renewed(old(records), Handle(scope, owner, ttl), token, at, from)
    {
      if scope !in records || records[scope].owner != owner || records[scope].token != token
         || records[scope].expires <= at {
        return false;
      }
      records := records[scope := records[scope].(expires := from + ttl)];
      return true;
    }

    method AssertValid(scope: string, owner: string, token: int, at: real) returns (lost: bool)
      ensures lost == !Live(records, scope, owner, token, at)
    {
      lost := scope !in records || records[scope].owner != owner || records[scope].token != token
              || records[scope].expires <= at;
    }

    method Release(scope: string, owner: string, token: int, ttl: real)
      modifies this
      ensures records == Released(old(records), Handle(scope, owner, ttl), token, 0.0)
    {
      if scope in records && records[scope].owner == owner && records[scope].token == token {
        records := records[scope := records[scope].(expires := 0.0)];
      }
    }
  }

  /** InMemoryExecutionLease: a handle that remembers the token it was granted. */
  class InMemoryExecutionLease {
    const lease: Handle
    const store: InMemoryExecutionLeaseStore
    var token: Option<int>

    constructor (lease: Handle, store: InMemoryExecutionLeaseStore)
      requires lease.ttl > 0.0
      ensures this.lease == lease && this.store == store && token == None
    {
      this.lease := lease;
      this.store := store;
      token := None;
    }

    method Acquire(at: real) returns (ok: bool)
      modifies this, store
      ensures ok == Granted(old(store.records), lease.scope, at).Some?
      ensures token == if ok then Granted(old(store.records), lease.scope, at) else old(token)
      ensures store.records == Acquired(old(store.records), lease, at)
    {
      var t := store.Acquire(lease.scope, lease.owner, lease.ttl, at);
      ok := t.Some?;
      if ok { token := t; }
    }

    method Renew(at: real, from: real) returns (ok: bool)
      modifies store
      ensures ok <==> token.Some? && Live(old(store.records), lease.scope, lease.owner, token.value, at)
      ensures store.records ==
              if token.Some? then Renewed(old(store.records), lease, token.value, at, from) else old(store.records)
    {
      if token.None? { return false; }
      ok := store.Renew(lease.scope, lease.owner, token.value, lease.ttl, at, from);
    }

    method AssertValid(at: real) returns (lost: bool)
      ensures lost <==> !(token.Some? && Live(store.records, lease.scope, lease.owner, token.value, at))
    {
      if token.None? { return true; }
      lost := store.AssertValid(lease.scope, lease.owner, token.value, at);
    }

    method Release()
      modifies this, store
      ensures token == None
      ensures store.records ==
              if old(token).Some? then Released(old(store.records), lease, old(token).value, 0.0)
              else old(store.records)
    {
      if token.Some? {
        store.Release(lease.scope, lease.owner, token.value, lease.ttl);
        token := None;
      }
    }
  }

  /** The execution_leases table. */
  class ExecutionLeaseTable {
    var rows: Records
  }

  /** PostgresExecutionLease: one conditional statement per call. */
  class PostgresExecutionLease {
    const lease: Handle
    const db: ExecutionLeaseTable
    var token: Option<int>

    constructor (lease: Handle, db: ExecutionLeaseTable)
      requires lease.ttl > 0.0
      ensures this.lease == lease && this.db == db && token == None
    {
      this.lease := lease;
      this.db := db;
      token := None;
    }

    /** INSERT ... ON CONFLICT DO UPDATE ... WHERE lease_until <= CURRENT_TIMESTAMP RETURNING fencing_token. */
    method Acquire(at: real) returns (ok: bool)
      modifies this, db
      ensures ok == Granted(old(db.rows), lease.scope, at).Some?
      ensures token == if ok then Granted(old(db.rows), lease.scope, at) else old(token)
      ensures db.rows == Acquired(old(db.rows), lease, at)
    {
      var row := None;
      if lease.scope !in db.rows {
        row := Some(Record(lease.owner, 1, at + lease.ttl));
      } else if db.rows[lease.scope].expires <= at {
        row := Some(Record(lease.owner, db.rows[lease.scope].token + 1, at + lease.ttl));
      }
      ok := row.Some?;
      if ok {
        db.rows := db.rows[lease.scope := row.value];
        token := Some(row.value.token);
      }
    }

    method Renew(at: real) returns (ok: bool)
      modifies db
      ensures ok <==> token.Some? && Live(old(db.rows), lease.scope, lease.owner, token.value, at)
      ensures db.rows == if token.Some? then Renewed(old(db.rows), lease, token.value, at, at) else old(db.rows)
    {
      ok := token.Some? && lease.scope in db.rows && db.rows[lease.scope].owner == lease.owner
            && db.rows[lease.scope].token == token.value && db.rows[lease.scope].expires > at;
      if ok { db.rows := db.rows[lease.scope := db.rows[lease.scope].(expires := at + lease.ttl)]; }
    }

    method AssertValid(at: real) returns (lost: bool)
      ensures lost <==> !(token.Some? && Live(db.rows, lease.scope, lease.owner, token.value, at))
    {
      lost := !(token.Some? && lease.scope in db.rows && db.rows[lease.scope].owner == lease.owner
                && db.rows[lease.scope].token == token.value && db.rows[lease.scope].expires > at);
    }

    method Release(at: real)
      modifies this, db
      ensures token == None
      ensures db.rows ==
              if old(token).Some? then Released(old(db.rows), lease, old(token).value, at) else old(db.rows)
    {
      if token.Some? {
        if lease.scope in db.rows && db.rows[lease.scope].owner == lease.owner
           && db.rows[lease.scope].token == token.value {
          db.rows := db.rows[lease.scope := db.rows[lease.scope].(expires := at)];
        }
        token := None;
      }
    }
  }

  // ---- many handles on one table ----

  /** `held` maps a handle's number to the token it holds. */
  datatype World = World(records: Records, held: map<nat, int>, clock: real)

  datatype Backend = Memory | Sql
  datatype Verb = Acquire | Renew | AssertValid | Release
  datatype Call = Call(verb: Verb, h: nat, at: real, now: real)

  datatype Outcome = Token(token: Option<int>) | Holds(ok: bool) | Done

  /** The handles of a run, fixed once and for all. */
  type Desk = nat -> Handle

  predicate Holding(d: Desk, w: World, h: nat, at: real) {
    h in w.held && Live(w.records, d(h).scope, d(h).owner, w.held[h], at)
  }

  function Answer(d: Desk, w: World, c: Call): Outcome {
    match c.verb
    case Acquire => Token(Granted(w.records, d(c.h).scope, c.at))
    case Renew | AssertValid => Holds(Holding(d, w, c.h, c.at))
    case Release => Done
  }

  function Do(b: Backend, d: Desk, w: World, c: Call): World {
    var l := d(c.h);
    match c.verb
    case Acquire =>
      var t := Granted(w.records, l.scope, c.at);
      World(Acquired(w.records, l, c.at), if t.Some? then w.held[c.h := t.value] else w.held, c.now)
    case Renew =>
      var from := if b.Memory? then c.now else c.at;
      w.(records := if c.h in w.held then Renewed(w.records, l, w.held[c.h], c.at, from) else w.records, clock := c.now)
    case AssertValid => w.(clock := c.now)
    case Release =>
      var mark := if b.Memory? then 0.0 else c.at;
      World(if c.h in w.held then Released(w.records, l, w.held[c.h], mark) else w.records, w.held - {c.h}, c.now)
  }

  /** Time moves on, and readings lie in the past. */
  predicate Forward(w: World, c: Call) {
    w.clock <= c.now && 0.0 <= c.at <= c.now
  }

  /** Only `acquire` may work with a reading from before the last call. */
  predicate InTime(w: World, c: Call) {
    Forward(w, c) && (!c.verb.Acquire? ==> w.clock <= c.at)
  }

  const START := World(map[], map[], 0.0)

  function Run(b: Backend, d: Desk, calls: seq<Call>): World {
    if calls == [] then START else Do(b, d, Run(b, d, calls[..|calls| - 1]), calls[|calls| - 1])
  }

  predicate Timely(b: Backend, d: Desk, calls: seq<Call>) {
    calls == [] ||
    (Timely(b, d, calls[..|calls| - 1]) && InTime(Run(b, d, calls[..|calls| - 1]), calls[|calls| - 1]))
  }

  lemma RunStep(b: Backend, d: Desk, calls: seq<Call>, k: nat)
    requires k < |calls|
    ensures Run(b, d, calls[..k + 1]) == Do(b, d, Run(b, d, calls[..k]), calls[k])
  {
    assert calls[..k + 1][..k] == calls[..k];
  }

  // ---- fencing ----

  /** A grant, however stale its clock reading, never takes a scope from a holder that is still live. */
  lemma NeverEvictsLiveLease(d: Desk, w: World, c: Call, h: nat)
    requires Forward(w, c) && c.verb.Acquire? && Answer(d, w, c).token.Some? && d(h).scope == d(c.h).scope
    ensures !Holding(d, w, h, c.now)
  {
  }

  /** Tokens of one scope only grow; every grant is strictly above all that came before. */
  lemma TokensGrow(b: Backend, d: Desk, w: World, c: Call, scope: string)
    requires scope in w.records
    ensures scope in Do(b, d, w, c).records && w.records[scope].token <= Do(b, d, w, c).records[scope].token
    ensures c.verb.Acquire? && Answer(d, w, c).token.Some? && d(c.h).scope == scope ==>
              Answer(d, w, c).token.value == w.records[scope].token + 1 == Do(b, d, w, c).records[scope].token
  {
  }

  /** The table dominates every token handed out, and no two handles of a scope hold the same token. */
  predicate Fenced(d: Desk, w: World) {
    && (forall h :: h in w.held ==> d(h).scope in w.records && w.held[h] <= w.records[d(h).scope].token)
    && (forall h, g :: h in w.held && g in w.held && h != g && d(h).scope == d(g).scope ==> w.held[h] != w.held[g])
  }

  lemma GrantStaysFenced(b: Backend, d: Desk, w: World, c: Call)
    requires Fenced(d, w) && c.verb.Acquire?
    ensures Fenced(d, Do(b, d, w, c))
  {
    var w', s := Do(b, d, w, c), d(c.h).scope;
    if Granted(w.records, s, c.at).Some? {
      forall h | h in w'.held
        ensures d(h).scope in w'.records && w'.held[h] <= w'.records[d(h).scope].token
        ensures h != c.h && d(h).scope == s ==> w'.held[h] < w'.held[c.h]
      {
        if h != c.h { assert h in w.held && w'.held[h] == w.held[h]; }
      }
    }
  }

  lemma OtherStaysFenced(b: Backend, d: Desk, w: World, c: Call)
    requires Fenced(d, w) && !c.verb.Acquire?
    ensures Fenced(d, Do(b, d, w, c))
  {
    var w' := Do(b, d, w, c);
    assert forall s :: s in w.records ==> s in w'.records && w'.records[s].token == w.records[s].token;
    assert forall h :: h in w'.held ==> h in w.held && w'.held[h] == w.held[h];
  }

  lemma {:induction false} RunsAreFenced(b: Backend, d: Desk, calls: seq<Call>)
    ensures Fenced(d, Run(b, d, calls))
  {
    if calls != [] {
      var w, c := Run(b, d, calls[..|calls| - 1]), calls[|calls| - 1];
      RunsAreFenced(b, d, calls[..|calls| - 1]);
      if c.verb.Acquire? { GrantStaysFenced(b, d, w, c); } else { OtherStaysFenced(b, d, w, c); }
    }
  }

  /** In either store, with any clock readings: at most one handle per scope passes `assert_valid` at an instant. */
  lemma OneValidHolder(b: Backend, d: Desk, calls: seq<Call>, h: nat, g: nat, at: real)
    requires Holding(d, Run(b, d, calls), h, at) && Holding(d, Run(b, d, calls), g, at) && d(h).scope == d(g).scope
    ensures h == g
  {
    RunsAreFenced(b, d, calls);
  }

  /** In either store, with any clock readings: later grants of a scope carry larger tokens. */
  lemma {:induction false} LaterGrantsLarger(b: Backend, d: Desk, calls: seq<Call>, i: nat, j: nat)
    requires i < j < |calls| && calls[i].verb.Acquire? && calls[j].verb.Acquire?
    requires d(calls[i].h).scope == d(calls[j].h).scope
    requires Answer(d, Run(b, d, calls[..i]), calls[i]).token.Some?
    requires Answer(d, Run(b, d, calls[..j]), calls[j]).token.Some?
    ensures Answer(d, Run(b, d, calls[..i]), calls[i]).token.value
            < Answer(d, Run(b, d, calls[..j]), calls[j]).token.value
  {
    var scope := d(calls[i].h).scope;
    assert calls[..i + 1][..i] == calls[..i];
    TokenFloor(b, d, calls, i + 1, j, scope);
    TokensGrow(b, d, Run(b, d, calls[..j]), calls[j], scope);
  }

  lemma {:induction false} TokenFloor(b: Backend, d: Desk, calls: seq<Call>, i: nat, j: nat, scope: string)
    requires i <= j <= |calls| && scope in Run(b, d, calls[..i]).records
    ensures scope in Run(b, d, calls[..j]).records
    ensures Run(b, d, calls[..i]).records[scope].token <= Run(b, d, calls[..j]).records[scope].token
    decreases j
  {
    if i < j {
      TokenFloor(b, d, calls, i, j - 1, scope);
      assert calls[..j][..j - 1] == calls[..j - 1];
      TokensGrow(b, d, Run(b, d, calls[..j - 1]), calls[j - 1], scope);
    }
  }

  /** An issued token that is not valid now. */
  predicate Dead(w: World, scope: string, owner: string, token: int) {
    scope in w.records && token <= w.records[scope].token && !Live(w.records, scope, owner, token, w.clock)
  }

  lemma DeadStep(b: Backend, d: Desk, w: World, c: Call, scope: string, owner: string, token: int)
    requires Dead(w, scope, owner, token) && InTime(w, c)
    ensures Dead(Do(b, d, w, c), scope, owner, token)
  {
  }

  /** In either store: expired, released or superseded, a token that has died never becomes valid again. */
  lemma {:induction false} DeadForever(b: Backend, d: Desk, calls: seq<Call>, i: nat, j: nat,
                                       scope: string, owner: string, token: int)
    requires Timely(b, d, calls) && i <= j <= |calls| && Dead(Run(b, d, calls[..i]), scope, owner, token)
    ensures Dead(Run(b, d, calls[..j]), scope, owner, token)
    decreases j
  {
    if i < j {
      DeadForever(b, d, calls, i, j - 1, scope, owner, token);
      assert calls[..j][..j - 1] == calls[..j - 1];
      TimelyPrefix(b, d, calls, j);
      DeadStep(b, d, Run(b, d, calls[..j - 1]), calls[j - 1], scope, owner, token);
    }
  }

  lemma {:induction false} TimelyPrefix(b: Backend, d: Desk, calls: seq<Call>, j: nat)
    requires Timely(b, d, calls) && j <= |calls|
    ensures Timely(b, d, calls[..j])
    decreases |calls| - j
  {
    if j == |calls| {
      assert calls[..j] == calls;
    } else {
      TimelyPrefix(b, d, calls, j + 1);
      assert calls[..j + 1][..j] == calls[..j];
    }
  }

  /** The holder itself ends its token: right after `release` it is dead, whatever clock reading it writes. */
  lemma ReleaseKills(b: Backend, d: Desk, calls: seq<Call>, c: Call)
    requires c.verb.Release? && Forward(Run(b, d, calls), c) && c.h in Run(b, d, calls).held
    ensures Dead(Do(b, d, Run(b, d, calls), c), d(c.h).scope, d(c.h).owner, Run(b, d, calls).held[c.h])
  {
    RunsAreFenced(b, d, calls);
  }

  // ---- how long a lease lasts ----

  /** The handle's token is the scope's, and runs until `until`. */
  predicate Term(d: Desk, w: World, h: nat, until: real) {
    h in w.held && d(h).scope in w.records && w.records[d(h).scope] == Record(d(h).owner, w.held[h], until)
  }

  /** That token still stands, or it was superseded after its time. */
  predicate StandsOrOver(d: Desk, w: World, h: nat, token: int, until: real) {
    && d(h).scope in w.records
    && if w.records[d(h).scope].token == token then Term(d, w, h, until)
       else token < w.records[d(h).scope].token && until <= w.clock
  }

  /** A call of the handle that moves or ends its lease. */
  predicate Touches(c: Call, h: nat) {
    c.h == h && (c.verb.Renew? || c.verb.Release?)
  }

  lemma StandsStep(b: Backend, d: Desk, w: World, c: Call, h: nat, token: int, until: real)
    requires Fenced(d, w) && Forward(w, c) && !Touches(c, h) && StandsOrOver(d, w, h, token, until)
    ensures StandsOrOver(d, Do(b, d, w, c), h, token, until)
  {
  }

  /** From call `i` to call `j` time moves on and the handle neither renews nor releases. */
  predicate Untouched(b: Backend, d: Desk, calls: seq<Call>, i: nat, j: nat, h: nat)
    requires i <= j <= |calls|
  {
    forall k :: i <= k < j ==> Forward(Run(b, d, calls[..k]), calls[k]) && !Touches(calls[k], h)
  }

  lemma {:induction false} StandsThrough(b: Backend, d: Desk, calls: seq<Call>, i: nat, j: nat, h: nat, token: int,
                                         until: real)
    requires i <= j <= |calls| && Untouched(b, d, calls, i, j, h)
    requires StandsOrOver(d, Run(b, d, calls[..i]), h, token, until)
    ensures StandsOrOver(d, Run(b, d, calls[..j]), h, token, until)
    decreases j
  {
    if i < j {
      StandsThrough(b, d, calls, i, j - 1, h, token, until);
      RunsAreFenced(b, d, calls[..j - 1]);
      RunStep(b, d, calls, j - 1);
      StandsStep(b, d, Run(b, d, calls[..j - 1]), calls[j - 1], h, token, until);
    }
  }

  /** Does call `k` start a term: a granted acquisition or an accepted renewal? */
  predicate Starts(b: Backend, d: Desk, calls: seq<Call>, k: nat)
    requires k < |calls|
  {
    var w := Run(b, d, calls[..k]);
    || (calls[k].verb.Acquire? && Answer(d, w, calls[k]).token.Some?)
    || (calls[k].verb.Renew? && Answer(d, w, calls[k]).ok)
  }

  /** In memory a renewal counts from its second reading of the clock, everything else from the only one. */
  function EndOfTerm(b: Backend, d: Desk, c: Call): real {
    d(c.h).ttl + if c.verb.Renew? && b.Memory? then c.now else c.at
  }

  lemma TermStarts(b: Backend, d: Desk, calls: seq<Call>, k: nat)
    requires k < |calls| && Starts(b, d, calls, k)
    ensures Term(d, Run(b, d, calls[..k + 1]), calls[k].h, EndOfTerm(b, d, calls[k]))
  {
    RunStep(b, d, calls, k);
  }

  /**
   * In either store, after a granted acquisition or an accepted renewal with the reading `at`, through
   * all calls that neither renew nor release that handle: at any time from then on the token is valid
   * exactly before `at + ttl`.
   */
  lemma LeaseLastsItsTtl(b: Backend, d: Desk, calls: seq<Call>, i: nat, j: nat, t: real)
    requires i < j <= |calls| && Starts(b, d, calls, i) && Untouched(b, d, calls, i + 1, j, calls[i].h)
    requires Run(b, d, calls[..j]).clock <= t
    ensures
      var h, w := calls[i].h, Run(b, d, calls[..i + 1]);
      && h in w.held
      && (Live(Run(b, d, calls[..j]).records, d(h).scope, d(h).owner, w.held[h], t) <==> t < EndOfTerm(b, d, calls[i]))
  {
    var h, w := calls[i].h, Run(b, d, calls[..i + 1]);
    TermStarts(b, d, calls, i);
    StandsThrough(b, d, calls, i + 1, j, h, w.held[h], EndOfTerm(b, d, calls[i]));
  }

  /** No acquisition of the scope is granted from call `i` to call `j`. */
  predicate NoGrant(b: Backend, d: Desk, calls: seq<Call>, i: nat, j: nat, scope: string)
    requires i <= j <= |calls|
  {
    forall k :: i <= k < j && calls[k].verb.Acquire? && d(calls[k].h).scope == scope ==>
      Answer(d, Run(b, d, calls[..k]), calls[k]).token.None?
  }

  lemma {:induction false} TermThrough(b: Backend, d: Desk, calls: seq<Call>, i: nat, j: nat, h: nat, until: real)
    requires i <= j <= |calls| && Untouched(b, d, calls, i, j, h) && NoGrant(b, d, calls, i, j, d(h).scope)
    requires Term(d, Run(b, d, calls[..i]), h, until)
    ensures Term(d, Run(b, d, calls[..j]), h, until)
    decreases j
  {
    if i < j {
      TermThrough(b, d, calls, i, j - 1, h, until);
      RunsAreFenced(b, d, calls[..j - 1]);
      RunStep(b, d, calls, j - 1);
      TermStep(b, d, Run(b, d, calls[..j - 1]), calls[j - 1], h, until);
    }
  }

  lemma TermStep(b: Backend, d: Desk, w: World, c: Call, h: nat, until: real)
    requires Fenced(d, w) && !Touches(c, h) && Term(d, w, h, until)
    requires c.verb.Acquire? && d(c.h).scope == d(h).scope ==> Answer(d, w, c).token.None?
    ensures Term(d, Do(b, d, w, c), h, until)
  {
  }

  /** ... and the next acquisition of the scope, by whichever handle, is granted exactly from `at + ttl` on. */
  lemma ScopeIsFreeFromTtlOn(b: Backend, d: Desk, calls: seq<Call>, i: nat, j: nat, next: Call)
    requires i < j <= |calls| && Starts(b, d, calls, i) && Untouched(b, d, calls, i + 1, j, calls[i].h)
    requires NoGrant(b, d, calls, i + 1, j, d(calls[i].h).scope)
    requires next.verb.Acquire? && d(next.h).scope == d(calls[i].h).scope
    ensures Answer(d, Run(b, d, calls[..j]), next).token.Some? <==> next.at >= EndOfTerm(b, d, calls[i])
    ensures Holding(d, Run(b, d, calls[..j]), calls[i].h, next.at) <==> next.at < EndOfTerm(b, d, calls[i])
  {
    TermStarts(b, d, calls, i);
    TermThrough(b, d, calls, i + 1, j, calls[i].h, EndOfTerm(b, d, calls[i]));
  }

  /** Ten seconds from 0: still held at 9.9, free at 10 and then token 2 for the other handle. */
  lemma TenSecondRun(b: Backend, d: Desk)
    requires d(0).scope == d(1).scope && d(0).ttl == 10.0
    ensures
      var w := Run(b, d, [Call(Acquire, 0, 0.0, 0.0)]);
      && Holding(d, w, 0, 9.9) && Answer(d, w, Call(Acquire, 1, 9.9, 9.9)) == Token(None)
      && !Holding(d, w, 0, 10.0) && Answer(d, w, Call(Acquire, 1, 10.0, 10.0)) == Token(Some(2))
  {
    var calls := [Call(Acquire, 0, 0.0, 0.0)];
    assert calls[..0] == [];
    assert Run(b, d, calls) == World(map[d(0).scope := Record(d(0).owner, 1, 10.0)], map[0 := 1], 0.0);
  }

  // ---- statements that waited ----

  /** A renewal begun before the expiry, by the holder of `token`, that still reaches beyond now. */
  predicate Revives(d: Desk, w: World, c: Call, scope: string, owner: string, token: int) {
    && c.verb.Renew? && c.h in w.held && w.held[c.h] == token && d(c.h).scope == scope && d(c.h).owner == owner
    && Live(w.records, scope, owner, token, c.at) && c.now < c.at + d(c.h).ttl
  }

  /**
   * A statement works with the time its transaction began.  Even so a dead token stays dead, except
   * that such a renewal revives it.
   */
  lemma StaleRenewRevivesIff(d: Desk, w: World, c: Call, scope: string, owner: string, token: int)
    requires Dead(w, scope, owner, token) && Forward(w, c)
    ensures !Dead(Do(Sql, d, w, c), scope, owner, token) <==> Revives(d, w, c, scope, owner, token)
  {
  }

  predicate DeadAt(d: Desk, calls: seq<Call>, k: nat, scope: string, owner: string, token: int)
    requires k <= |calls|
  {
    Dead(Run(Sql, d, calls[..k]), scope, owner, token)
  }

  predicate RevivedAt(d: Desk, calls: seq<Call>, k: nat, scope: string, owner: string, token: int)
    requires k < |calls|
  {
    Revives(d, Run(Sql, d, calls[..k]), calls[k], scope, owner, token)
  }

  predicate ForwardAt(d: Desk, calls: seq<Call>, k: nat)
    requires k < |calls|
  {
    Forward(Run(Sql, d, calls[..k]), calls[k])
  }

  lemma DeadAtNextIff(d: Desk, calls: seq<Call>, k: nat, scope: string, owner: string, token: int)
    requires k < |calls| && ForwardAt(d, calls, k) && DeadAt(d, calls, k, scope, owner, token)
    ensures DeadAt(d, calls, k + 1, scope, owner, token) <==> !RevivedAt(d, calls, k, scope, owner, token)
  {
    RunStep(Sql, d, calls, k);
    StaleRenewRevivesIff(d, Run(Sql, d, calls[..k]), calls[k], scope, owner, token);
  }

  /** Over every run of statements, stale or not: a dead token stays dead exactly while none revives it. */
  lemma {:induction false} DeadUntilRevivedIff(d: Desk, calls: seq<Call>, i: nat, j: nat,
                                               scope: string, owner: string, token: int)
    requires i <= j <= |calls| && forall k :: i <= k < j ==> ForwardAt(d, calls, k)
    requires DeadAt(d, calls, i, scope, owner, token)
    ensures (forall k :: i <= k <= j ==> DeadAt(d, calls, k, scope, owner, token)) <==>
            (forall k :: i <= k < j ==> !RevivedAt(d, calls, k, scope, owner, token))
    decreases j
  {
    if i < j {
      DeadUntilRevivedIff(d, calls, i, j - 1, scope, owner, token);
      if DeadAt(d, calls, j - 1, scope, owner, token) {
        DeadAtNextIff(d, calls, j - 1, scope, owner, token);
      }
    }
  }

  /** One that does: granted for 10 s at 0, dead at 11, renewed at 12 by a statement begun at 9. */
  lemma StaleRenewRun(d: Desk)
    requires d(0).ttl == 10.0
    ensures
      var w := Run(Sql, d, [Call(Acquire, 0, 0.0, 0.0), Call(AssertValid, 0, 11.0, 11.0)]);
      && Dead(w, d(0).scope, d(0).owner, 1)
      && Holding(d, Do(Sql, d, w, Call(Renew, 0, 9.0, 12.0)), 0, 12.0)
  {
    var calls := [Call(Acquire, 0, 0.0, 0.0), Call(AssertValid, 0, 11.0, 11.0)];
    assert calls[..1] == [calls[0]] && calls[..1][..0] == [];
    assert Run(Sql, d, calls[..1]) == World(map[d(0).scope := Record(d(0).owner, 1, 10.0)], map[0 := 1], 0.0);
  }

  // ---- in memory against PostgreSQL ----

  /** Same owner and token; expiries equal, unless both are in the past after a release. */
  predicate SameRow(m: Record, p: Record, clock: real) {
    && m.owner == p.owner && m.token == p.token
    && (m.expires == p.expires || (m.expires == 0.0 && 0.0 <= p.expires <= clock))
  }

  predicate Bisimilar(m: World, p: World) {
    && m.held == p.held && m.clock == p.clock && 0.0 <= m.clock && m.records.Keys == p.records.Keys
    && forall s :: s in m.records ==> SameRow(m.records[s], p.records[s], m.clock)
  }

  /** With a fresh reading the two tables see the same leases live and grant the same tokens. */
  lemma SameView(m: Records, p: Records, scope: string, owner: string, token: int, clock: real, at: real)
    requires 0.0 <= clock <= at && m.Keys == p.Keys && (scope in m ==> SameRow(m[scope], p[scope], clock))
    ensures Live(m, scope, owner, token, at) <==> Live(p, scope, owner, token, at)
    ensures Issued(m, scope, owner, token) <==> Issued(p, scope, owner, token)
    ensures Granted(m, scope, at) == Granted(p, scope, at)
  {
  }

  lemma RowsAfter(d: Desk, m: World, p: World, c: Call, s: string)
    requires Bisimilar(m, p) && InTime(m, c) && c.at == c.now
    requires forall token :: (Live(m.records, d(c.h).scope, d(c.h).owner, token, c.at) <==>
                              Live(p.records, d(c.h).scope, d(c.h).owner, token, c.at))
    requires forall token :: (Issued(m.records, d(c.h).scope, d(c.h).owner, token) <==>
                              Issued(p.records, d(c.h).scope, d(c.h).owner, token))
    requires Granted(m.records, d(c.h).scope, c.at) == Granted(p.records, d(c.h).scope, c.at)
    ensures s in Do(Memory, d, m, c).records <==> s in Do(Sql, d, p, c).records
    ensures s in Do(Memory, d, m, c).records ==>
              SameRow(Do(Memory, d, m, c).records[s], Do(Sql, d, p, c).records[s], c.now)
  {
    if s in m.records { assert SameRow(m.records[s], p.records[s], m.clock); }
    match c.verb
    case Acquire =>
    case Renew =>
    case AssertValid =>
    case Release =>
  }

  /** Fresh readings: the two leases answer alike and stay alike. */
  lemma BisimulationStep(d: Desk, m: World, p: World, c: Call)
    requires Bisimilar(m, p) && InTime(m, c) && c.at == c.now
    ensures Answer(d, m, c) == Answer(d, p, c) && Bisimilar(Do(Memory, d, m, c), Do(Sql, d, p, c))
  {
    var l := d(c.h);
    if l.scope in m.records { assert SameRow(m.records[l.scope], p.records[l.scope], m.clock); }
    forall token { SameView(m.records, p.records, l.scope, l.owner, token, m.clock, c.at); }
    SameView(m.records, p.records, l.scope, l.owner, 0, m.clock, c.at);
    forall s { RowsAfter(d, m, p, c, s); }
    assert Do(Memory, d, m, c).records.Keys == Do(Sql, d, p, c).records.Keys;
  }

  /**
   * Where a stale reading does not tell the stores apart.  PostgreSQL remembers when the lease was
   * released, the in-memory store does not: the expiries are equal, or the reading is not older than
   * the release.
   */
  predicate Indifferent(d: Desk, m: World, p: World, c: Call) {
    var s := d(c.h).scope;
    c.verb.Acquire? && s in m.records && s in p.records ==>
      m.records[s].expires == p.records[s].expires || p.records[s].expires <= c.at
  }

  lemma StaleAcquireAgreesIff(d: Desk, m: World, p: World, c: Call)
    requires Bisimilar(m, p) && Forward(m, c) && c.verb.Acquire?
    ensures Answer(d, m, c) == Answer(d, p, c) <==> Indifferent(d, m, p, c)
  {
    if d(c.h).scope in m.records { assert SameRow(m.records[d(c.h).scope], p.records[d(c.h).scope], m.clock); }
  }

  /** After an acquisition that agreed the stores are alike again, however stale its reading. */
  lemma StaleAcquireStaysBisimilar(d: Desk, m: World, p: World, c: Call)
    requires Bisimilar(m, p) && Forward(m, c) && c.verb.Acquire? && Answer(d, m, c) == Answer(d, p, c)
    ensures Bisimilar(Do(Memory, d, m, c), Do(Sql, d, p, c))
  {
    var m', p' := Do(Memory, d, m, c), Do(Sql, d, p, c);
    forall s | s in m'.records ensures s in p'.records && SameRow(m'.records[s], p'.records[s], m'.clock) {
      if s in m.records { assert SameRow(m.records[s], p.records[s], m.clock); }
    }
    assert m'.records.Keys == p'.records.Keys;
  }

  predicate AgreesAt(d: Desk, calls: seq<Call>, k: nat)
    requires k < |calls|
  {
    Answer(d, Run(Memory, d, calls[..k]), calls[k]) == Answer(d, Run(Sql, d, calls[..k]), calls[k])
  }

  predicate IndifferentAt(d: Desk, calls: seq<Call>, k: nat)
    requires k < |calls|
  {
    Indifferent(d, Run(Memory, d, calls[..k]), Run(Sql, d, calls[..k]), calls[k])
  }

  predicate AllAgree(d: Desk, calls: seq<Call>, n: nat)
    requires n <= |calls|
  {
    forall k :: 0 <= k < n ==> AgreesAt(d, calls, k)
  }

  /** Readings are fresh, but for acquisitions. */
  predicate OthersFresh(calls: seq<Call>) {
    forall i :: 0 <= i < |calls| && !calls[i].verb.Acquire? ==> calls[i].at == calls[i].now
  }

  predicate BisimilarAt(d: Desk, calls: seq<Call>, n: nat)
    requires n <= |calls|
  {
    Bisimilar(Run(Memory, d, calls[..n]), Run(Sql, d, calls[..n]))
  }

  lemma StepAgreesIff(d: Desk, m: World, p: World, c: Call)
    requires Bisimilar(m, p) && InTime(m, c) && (!c.verb.Acquire? ==> c.at == c.now)
    ensures Answer(d, m, c) == Answer(d, p, c) <==> Indifferent(d, m, p, c)
    ensures Answer(d, m, c) == Answer(d, p, c) ==> Bisimilar(Do(Memory, d, m, c), Do(Sql, d, p, c))
  {
    if c.verb.Acquire? {
      StaleAcquireAgreesIff(d, m, p, c);
      if Answer(d, m, c) == Answer(d, p, c) { StaleAcquireStaysBisimilar(d, m, p, c); }
    } else {
      BisimulationStep(d, m, p, c);
    }
  }

  lemma NextAgreesIff(d: Desk, calls: seq<Call>, k: nat)
    requires Timely(Memory, d, calls) && OthersFresh(calls) && k < |calls| && BisimilarAt(d, calls, k)
    ensures AgreesAt(d, calls, k) <==> IndifferentAt(d, calls, k)
    ensures AgreesAt(d, calls, k) ==> BisimilarAt(d, calls, k + 1)
  {
    InTimeAt(d, calls, k);
    RunStep(Memory, d, calls, k);
    RunStep(Sql, d, calls, k);
    StepAgreesIff(d, Run(Memory, d, calls[..k]), Run(Sql, d, calls[..k]), calls[k]);
  }

  lemma InTimeAt(d: Desk, calls: seq<Call>, k: nat)
    requires Timely(Memory, d, calls) && k < |calls|
    ensures InTime(Run(Memory, d, calls[..k]), calls[k])
  {
    TimelyPrefix(Memory, d, calls, k + 1);
    assert calls[..k + 1][..k] == calls[..k];
  }

  /**
   * Over every run, acquisitions as stale as they like: up to any call both leases give the same
   * outcomes and tokens exactly when no acquisition met a release that its reading precedes; and then
   * the stores are alike.
   */
  lemma {:induction false} LeasesAgreeIff(d: Desk, calls: seq<Call>, n: nat)
    requires Timely(Memory, d, calls) && OthersFresh(calls) && n <= |calls|
    ensures AllAgree(d, calls, n) <==> forall k :: 0 <= k < n ==> IndifferentAt(d, calls, k)
    ensures AllAgree(d, calls, n) ==> BisimilarAt(d, calls, n)
  {
    if n > 0 {
      LeasesAgreeIff(d, calls, n - 1);
      if AllAgree(d, calls, n - 1) { NextAgreesIff(d, calls, n - 1); }
    }
  }

  /** On fresh readings alone they always agree. */
  lemma {:induction false} LeasesAgree(d: Desk, calls: seq<Call>, n: nat)
    requires Timely(Memory, d, calls) && n <= |calls| && forall i :: 0 <= i < |calls| ==> calls[i].at == calls[i].now
    ensures AllAgree(d, calls, n) && BisimilarAt(d, calls, n)
  {
    if n > 0 {
      LeasesAgree(d, calls, n - 1);
      NextAgreesIff(d, calls, n - 1);
      FreshIsIndifferent(d, calls, n - 1);
    }
  }

  lemma FreshIsIndifferent(d: Desk, calls: seq<Call>, k: nat)
    requires Timely(Memory, d, calls) && k < |calls| && BisimilarAt(d, calls, k) && calls[k].at == calls[k].now
    ensures IndifferentAt(d, calls, k)
  {
    InTimeAt(d, calls, k);
    var m, p, s := Run(Memory, d, calls[..k]), Run(Sql, d, calls[..k]), d(calls[k].h).scope;
    if s in m.records { assert SameRow(m.records[s], p.records[s], m.clock); }
  }

  /** Granted at 0, released at 5, asked for at 6 on a reading of 3: only the in-memory store grants it. */
  lemma StaleAcquireRun(d: Desk)
    requires d(0).scope == d(1).scope && d(0).ttl > 0.0
    ensures
      var calls, late := [Call(Acquire, 0, 0.0, 0.0), Call(Release, 0, 5.0, 5.0)], Call(Acquire, 1, 3.0, 6.0);
      && Answer(d, Run(Memory, d, calls), late) == Token(Some(2))
      && Answer(d, Run(Sql, d, calls), late) == Token(None)
  {
    var calls := [Call(Acquire, 0, 0.0, 0.0), Call(Release, 0, 5.0, 5.0)];
    assert calls[..1] == [calls[0]] && calls[..1][..0] == [];
    forall b: Backend
      ensures Run(b, d, calls[..1]) == World(map[d(0).scope := Record(d(0).owner, 1, d(0).ttl)], map[0 := 1], 0.0)
    {
    }
  }
}

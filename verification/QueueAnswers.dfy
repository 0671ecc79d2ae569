/**
 * The two queue back ends side by side: what every call answers, which job a claim takes, and every
 * field a later answer can depend on.  Prompts, error texts, conversations, heads and wall clock
 * readings play no part, so redaction may do to them what it likes.
 */
module QueueAnswers {
  import opened Common
  import opened TextOrder
  import opened QueueModel
  import opened QueueRuns
  import opened LogRuns
  import S = SqliteQueue
  import L = JsonlQueue

  /** The job without the texts no answer depends on. */
  function Control(j: Job): Job {
    j.(updated := "", text := "", schema := None, conversation := None, resultPath := None, headSha := None,
       errorCode := None, stderr := None, started := None, finished := None, authorizationRef := None,
       verificationJob := None)
  }

  /** Redaction leaves the texts that are compared alone; it settles the scope at once. */
  predicate Settled(red: Redactor, j: Job) {
    && red(j.id) == j.id && red(j.created) == j.created
    && RedactOption(red, j.lease) == j.lease && RedactOption(red, j.worker) == j.worker
    && RedactOption(red, j.nextAttempt) == j.nextAttempt && RedactOption(red, j.result) == j.result
    && SteadyOption(red, j.scope)
  }

  /** The log's image of a row, as far as answers go. */
  predicate Alike(red: Redactor, j: Job, image: Job) {
    Settled(red, j) && Control(image) == Control(j).(scope := RedactOption(red, j.scope))
  }

  predicate Paired(red: Redactor, t: S.Table, jobs: map<string, Job>) {
    && t.jobs.Keys == jobs.Keys
    && forall id :: id in t.jobs ==> Alike(red, t.jobs[id], jobs[id])
  }

  predicate NoEmptyLease(t: S.Table) {
    forall id :: id in t.jobs ==> t.jobs[id].lease != Some("")
  }

  // ---- scopes ----

  predicate Injective(red: Redactor, scopes: set<string>) {
    forall x, y :: x in scopes && y in scopes && red(x) == red(y) ==> x == y
  }

  predicate ScopeIn(j: Job, scopes: set<string>) {
    j.scope.Some? ==> j.scope.value in scopes
  }

  predicate ScopesIn(jobs: map<string, Job>, scopes: set<string>) {
    forall id :: id in jobs ==> ScopeIn(jobs[id], scopes)
  }

  /** Redaction keeps the table's scopes apart. */
  predicate Apart(red: Redactor, jobs: map<string, Job>) {
    forall a, b :: a in jobs && b in jobs && RedactOption(red, jobs[a].scope) == RedactOption(red, jobs[b].scope) ==>
      jobs[a].scope == jobs[b].scope
  }

  lemma InjectiveKeepsApart(red: Redactor, jobs: map<string, Job>, scopes: set<string>)
    requires Injective(red, scopes) && ScopesIn(jobs, scopes)
    ensures Apart(red, jobs)
  {
    forall a, b | a in jobs && b in jobs && RedactOption(red, jobs[a].scope) == RedactOption(red, jobs[b].scope)
      ensures jobs[a].scope == jobs[b].scope
    {
      assert ScopeIn(jobs[a], scopes) && ScopeIn(jobs[b], scopes);
    }
  }

  // ---- which job is taken ----

  lemma EligibleAgrees(red: Redactor, t: S.Table, jobs: map<string, Job>, now: string, kinds: Option<set<Kind>>,
                       id: string)
    requires Paired(red, t, jobs) && Apart(red, t.jobs)
    ensures Eligible(t.jobs, now, kinds, id) <==> Eligible(jobs, now, kinds, id)
  {
    if id in t.jobs {
      assert Alike(red, t.jobs[id], jobs[id]);
      forall other | other in t.jobs
        ensures jobs[other].status == t.jobs[other].status
        ensures jobs[other].scope == jobs[id].scope <==> t.jobs[other].scope == t.jobs[id].scope
      {
        assert Alike(red, t.jobs[other], jobs[other]);
      }
    }
  }

  lemma PrecedesAgrees(red: Redactor, t: S.Table, jobs: map<string, Job>, a: string, b: string)
    requires Paired(red, t, jobs) && a in jobs && b in jobs
    ensures Precedes(t.jobs, a, b) <==> Precedes(jobs, a, b)
  {
    assert Alike(red, t.jobs[a], jobs[a]) && Alike(red, t.jobs[b], jobs[b]);
    assert Control(t.jobs[a]).created == jobs[a].created && Control(t.jobs[b]).created == jobs[b].created;
  }

  lemma SameNext(a: map<string, Job>, b: map<string, Job>, now: string, kinds: Option<set<Kind>>)
    requires a.Keys == b.Keys
    requires forall id :: Eligible(a, now, kinds, id) <==> Eligible(b, now, kinds, id)
    requires forall x, y :: x in a && y in a ==> (Precedes(a, x, y) <==> Precedes(b, x, y))
    ensures Next(a, now, kinds) == Next(b, now, kinds)
  {
    forall id ensures IsNext(a, now, kinds, id) <==> IsNext(b, now, kinds, id) { }
    if Next(a, now, kinds).Some? {
      EarliestIsNext(b, now, kinds, Next(a, now, kinds).value);
    }
  }

  /** Both back ends pick the same job. */
  lemma NextAgrees(red: Redactor, t: S.Table, jobs: map<string, Job>, now: string, kinds: Option<set<Kind>>)
    requires Paired(red, t, jobs) && Apart(red, t.jobs)
    ensures Next(t.jobs, now, kinds) == Next(jobs, now, kinds)
  {
    forall id { EligibleAgrees(red, t, jobs, now, kinds, id); }
    forall a, b | a in t.jobs && b in t.jobs ensures Precedes(t.jobs, a, b) <==> Precedes(jobs, a, b) {
      PrecedesAgrees(red, t, jobs, a, b);
    }
    SameNext(t.jobs, jobs, now, kinds);
  }

  // ---- which calls take effect ----

  /** The two conflict checks look at different places and agree. */
  lemma ConflictAgrees(red: Redactor, t: S.Table, jobs: map<string, Job>, id: string, result: Json)
    requires ResultsOk(t) && Paired(red, t, jobs) && id in t.jobs
    ensures S.Conflicts(red, t, id, result) <==> L.Conflicts(red, jobs[id], result)
  {
    assert Alike(red, t.jobs[id], jobs[id]);
    assert t.jobs[id].result == if id in t.results then Some(t.results[id]) else None;
  }

  lemma PlainHitAgrees(red: Redactor, t: S.Table, j: Job, image: Job, op: Op)
    requires Alike(red, j, image) && L.OnOneJob(op) && !op.MarkSuccess? && op.id in t.jobs && t.jobs[op.id] == j
    ensures S.Hit(red, t, op, op.id) <==> L.Applies(op, image)
  {
  }

  /** The WHERE clause and the mutation closure's test select the same calls. */
  lemma HitAgrees(red: Redactor, t: S.Table, jobs: map<string, Job>, op: Op)
    requires ResultsOk(t) && Paired(red, t, jobs) && L.OnOneJob(op) && op.id in t.jobs
    ensures S.Hit(red, t, op, op.id) <==> L.Applies(op, jobs[op.id]) && !L.Raises(red, jobs, op)
    ensures L.Raises(red, jobs, op) ==> L.Applies(op, jobs[op.id])
  {
    assert Alike(red, t.jobs[op.id], jobs[op.id]);
    if op.MarkSuccess? {
      ConflictAgrees(red, t, jobs, op.id, op.result);
    } else {
      PlainHitAgrees(red, t, t.jobs[op.id], jobs[op.id], op);
    }
  }

  lemma ExpiredAgrees(red: Redactor, j: Job, image: Job, now: string)
    requires Alike(red, j, image)
    ensures L.Expired(image, now) <==> S.Expired(j, now) && j.lease != Some("")
    ensures j.status.Running? && j.lease == Some("") ==> (S.Expired(j, now) <==> now != "")
  {
    assert image.lease == j.lease && image.status == j.status;
  }

  // ---- answers ----

  lemma SuccessReplyAgrees(red: Redactor, t: S.Table, jobs: map<string, Job>, op: Op)
    requires ResultsOk(t) && Paired(red, t, jobs) && op.MarkSuccess? && op.id in t.jobs
    ensures S.Reply(red, t, op) == L.Reply(red, jobs, op)
  {
    HitAgrees(red, t, jobs, op);
    assert Alike(red, t.jobs[op.id], jobs[op.id]);
    ConflictAgrees(red, t, jobs, op.id, op.result);
  }

  lemma SweepReplyAgrees(red: Redactor, t: S.Table, jobs: map<string, Job>, now: string)
    requires NoEmptyLease(t) && Paired(red, t, jobs)
    ensures S.Reply(red, t, RecoverExpired(now)) == L.Reply(red, jobs, RecoverExpired(now))
  {
    forall id | id in t.jobs ensures S.Expired(t.jobs[id], now) <==> L.Expired(jobs[id], now) {
      ExpiredAgrees(red, t.jobs[id], jobs[id], now);
    }
    SameSweep(t.jobs, jobs, now);
  }

  lemma SameSweep(rows: map<string, Job>, jobs: map<string, Job>, now: string)
    requires rows.Keys == jobs.Keys
    requires forall id :: id in rows ==> (S.Expired(rows[id], now) <==> L.Expired(jobs[id], now))
    ensures (set id | id in rows && S.Expired(rows[id], now)) == (set id | id in jobs && L.Expired(jobs[id], now))
  {
  }

  lemma ReplyAgrees(red: Redactor, t: S.Table, jobs: map<string, Job>, op: Op)
    requires ResultsOk(t) && NoEmptyLease(t) && Paired(red, t, jobs) && Apart(red, t.jobs)
    ensures S.Reply(red, t, op) == L.Reply(red, jobs, op)
  {
    if op.ClaimNext? {
      NextAgrees(red, t, jobs, op.now, op.kinds);
    } else if op.RecoverExpired? {
      SweepReplyAgrees(red, t, jobs, op.now);
    } else if op.MarkSuccess? && op.id in t.jobs {
      SuccessReplyAgrees(red, t, jobs, op);
    } else if L.OnOneJob(op) && op.id in t.jobs {
      HitAgrees(red, t, jobs, op);
    }
  }

  // ---- one step ----

  /** What a call may carry: texts that will be compared are left alone, scopes and results settled at once. */
  predicate ControlOp(red: Redactor, op: Op) {
    match op
    case Create(j) =>
      red(j.id) == j.id && red(j.created) == j.created && RedactOption(red, j.nextAttempt) == j.nextAttempt
      && SteadyOption(red, j.scope)
    case ClaimNext(w, _, lease, _) => red(w) == w && RedactOption(red, lease) == lease && lease != Some("")
    case Heartbeat(_, _, until, _) => red(until) == until && until != ""
    case RecoverExpired(now) => red(now) == now
    case MarkSuccess(_, _, result, _, _, _, _, _) => Steady(red, result)
    case MarkFailure(_, _, _, _, envelope, _, _, _) => SteadyOption(red, envelope)
    case ScheduleRetry(_, next, _, _, _) => red(next) == next
    case RetryFailed(_, now, _) => red(now) == now
    case UpdateConversation(_, _, _) | Cancel(_, _) => true
  }

  /** Fit for the next step. */
  predicate Pair(red: Redactor, j: Job, image: Job) {
    Alike(red, j, image) && j.lease != Some("")
  }

  ghost function RowAfter(red: Redactor, t: S.Table, op: Op, id: string): Job
    requires id in t.jobs
  {
    if S.Hit(red, t, op, id) then S.Updated(red, op, t.jobs[id]) else t.jobs[id]
  }

  lemma UpdatedSettled(red: Redactor, j: Job, op: Op)
    requires Settled(red, j) && ControlOp(red, op) && j.lease != Some("")
    ensures Settled(red, S.Updated(red, op, j)) && S.Updated(red, op, j).lease != Some("")
    ensures S.Updated(red, op, j).scope == j.scope
  {
  }

  lemma ClaimedAlike(red: Redactor, j: Job, image: Job, op: Op)
    requires op.ClaimNext? && ControlOp(red, op) && Pair(red, j, image)
    ensures Pair(red, S.Updated(red, op, j),
                 L.RedactJob(red, L.ClaimedJob(image, op.worker, op.now, op.lease)))
  {
    UpdatedSettled(red, j, op);
  }

  /** Redaction passes by everything but the texts compared, which are settled. */
  lemma RedactedControl(red: Redactor, j: Job)
    ensures
      var i := L.RedactJob(red, j);
      Control(i) == Control(j).(id := i.id, created := i.created, lease := i.lease, worker := i.worker,
                                nextAttempt := i.nextAttempt, scope := i.scope, result := i.result)
  {
  }

  lemma RecoveredControl(j: Job, image: Job, now: string, scope: Option<string>)
    requires Control(image) == Control(j).(scope := scope)
    ensures Control(L.RecoveredJob(image, now)) == Control(S.RecoveredRow(j, now)).(scope := scope)
  {
  }

  lemma RecoveredAlike(red: Redactor, j: Job, image: Job, now: string)
    requires red(now) == now && Pair(red, j, image)
    ensures Pair(red, S.RecoveredRow(j, now), L.RedactJob(red, L.RecoveredJob(image, now)))
  {
    UpdatedSettled(red, j, RecoverExpired(now));
    RecoveredControl(j, image, now, RedactOption(red, j.scope));
    RedactedAlike(red, S.RecoveredRow(j, now), L.RecoveredJob(image, now));
  }

  /** Redacting once more keeps a row and its image alike. */
  lemma RedactedAlike(red: Redactor, row: Job, image: Job)
    requires Settled(red, row) && Control(image) == Control(row).(scope := RedactOption(red, row.scope))
    ensures Alike(red, row, L.RedactJob(red, image))
  {
    RedactedControl(red, image);
    SameTexts(red, row, image);
  }

  lemma SameTexts(red: Redactor, row: Job, image: Job)
    requires Settled(red, row) && Control(image) == Control(row).(scope := RedactOption(red, row.scope))
    ensures
      var i := L.RedactJob(red, image);
      && i.id == image.id && i.created == image.created && i.lease == image.lease && i.worker == image.worker
      && i.nextAttempt == image.nextAttempt && i.scope == image.scope && i.result == image.result
  {
    var c := Control(image);
    assert c.id == image.id && c.created == image.created && c.lease == image.lease && c.worker == image.worker;
    assert c.nextAttempt == image.nextAttempt && c.scope == image.scope && c.result == image.result;
  }

  lemma AppliedAlike(red: Redactor, j: Job, image: Job, op: Op)
    requires L.OnOneJob(op) && ControlOp(red, op) && Pair(red, j, image) && L.Applies(op, image)
    ensures Pair(red, S.Updated(red, op, j), L.Image(red, op, image))
  {
    UpdatedSettled(red, j, op);
  }

  lemma UntouchedAlike(red: Redactor, j: Job, image: Job, op: Op)
    requires L.OnOneJob(op) && Pair(red, j, image) && !L.Applies(op, image)
    ensures Pair(red, j, L.Image(red, op, image))
  {
  }

  lemma RowStaysPaired(red: Redactor, t: S.Table, jobs: map<string, Job>, op: Op, id: string)
    requires ResultsOk(t) && NoEmptyLease(t) && Paired(red, t, jobs) && Apart(red, t.jobs)
    requires ControlOp(red, op) && !op.Create? && id in t.jobs
    ensures Pair(red, RowAfter(red, t, op, id), L.Row(red, jobs, op, id))
  {
    var j, image := t.jobs[id], jobs[id];
    assert Pair(red, j, image);
    if op.ClaimNext? {
      NextAgrees(red, t, jobs, op.now, op.kinds);
      ClaimedAlike(red, j, image, op);
    } else if op.RecoverExpired? {
      ExpiredAgrees(red, j, image, op.now);
      RecoveredAlike(red, j, image, op.now);
    } else {
      OneJobStaysPaired(red, t, jobs, op, id);
    }
  }

  lemma OneJobStaysPaired(red: Redactor, t: S.Table, jobs: map<string, Job>, op: Op, id: string)
    requires ResultsOk(t) && Paired(red, t, jobs) && ControlOp(red, op) && L.OnOneJob(op)
    requires id in t.jobs && Pair(red, t.jobs[id], jobs[id])
    ensures Pair(red, RowAfter(red, t, op, id), L.Row(red, jobs, op, id))
  {
    if op.id == id {
      HitAgrees(red, t, jobs, op);
      if L.Applies(op, jobs[id]) {
        AppliedAlike(red, t.jobs[id], jobs[id], op);
      } else {
        UntouchedAlike(red, t.jobs[id], jobs[id], op);
      }
    } else {
      assert !S.Hit(red, t, op, id);
    }
  }

  lemma PairsMakeTables(red: Redactor, t: S.Table, jobs: map<string, Job>)
    requires t.jobs.Keys == jobs.Keys && forall id :: id in t.jobs ==> Pair(red, t.jobs[id], jobs[id])
    ensures Paired(red, t, jobs) && NoEmptyLease(t)
  {
    forall id | id in t.jobs
      ensures Alike(red, t.jobs[id], jobs[id]) && t.jobs[id].lease != Some("")
    {
      assert Pair(red, t.jobs[id], jobs[id]);
    }
  }

  lemma CreatedStaysPaired(red: Redactor, t: S.Table, jobs: map<string, Job>, job: Job)
    requires NoEmptyLease(t) && Paired(red, t, jobs) && ControlOp(red, Create(job)) && Fresh(job)
    ensures Paired(red, S.Step(red, t, Create(job)), L.Step(red, jobs, Create(job)))
    ensures NoEmptyLease(S.Step(red, t, Create(job)))
  {
    assert job.id in t.jobs <==> job.id in jobs;
    if job.id !in t.jobs {
      var row, image := S.Inserted(red, job), L.RedactJob(red, job);
      FreshPair(red, job);
      var t', jobs' := t.(jobs := t.jobs[job.id := row]), jobs[job.id := image];
      forall x | x in t'.jobs ensures Pair(red, t'.jobs[x], jobs'[x]) {
        if x != job.id { assert Alike(red, t.jobs[x], jobs[x]); }
      }
      PairsMakeTables(red, t', jobs');
    }
  }

  lemma FreshPair(red: Redactor, job: Job)
    requires ControlOp(red, Create(job)) && Fresh(job)
    ensures Pair(red, S.Inserted(red, job), L.RedactJob(red, job))
  {
  }

  lemma StepStaysPaired(red: Redactor, t: S.Table, jobs: map<string, Job>, op: Op)
    requires ResultsOk(t) && NoEmptyLease(t) && Paired(red, t, jobs) && Apart(red, t.jobs)
    requires ControlOp(red, op) && (op.Create? ==> Fresh(op.job))
    ensures Paired(red, S.Step(red, t, op), L.Step(red, jobs, op)) && NoEmptyLease(S.Step(red, t, op))
  {
    if op.Create? {
      CreatedStaysPaired(red, t, jobs, op.job);
    } else {
      forall id | id in t.jobs
        ensures Pair(red, RowAfter(red, t, op, id), L.Row(red, jobs, op, id))
      {
        RowStaysPaired(red, t, jobs, op, id);
      }
      PairsMakeTables(red, S.Step(red, t, op), L.Step(red, jobs, op));
    }
  }

  // ---- whole runs ----

  predicate ControlRun(red: Redactor, ops: seq<Op>) {
    forall i :: 0 <= i < |ops| ==> ControlOp(red, ops[i])
  }

  /** Every created job is scoped to one of `scopes`, or not at all. */
  predicate Within(ops: seq<Op>, scopes: set<string>) {
    forall i :: 0 <= i < |ops| && ops[i].Create? ==> ScopeIn(ops[i].job, scopes)
  }

  lemma ScopeKept(red: Redactor, t: S.Table, op: Op, scopes: set<string>)
    requires ScopesIn(t.jobs, scopes) && (op.Create? ==> ScopeIn(op.job, scopes))
    ensures ScopesIn(S.Step(red, t, op).jobs, scopes)
  {
    forall id | id in S.Step(red, t, op).jobs ensures ScopeIn(S.Step(red, t, op).jobs[id], scopes) {
      if id in t.jobs {
        assert ScopeIn(t.jobs[id], scopes);
        if !op.Create? && S.Hit(red, t, op, id) { UpdatedKeepsScope(red, op, t.jobs[id]); }
      }
    }
  }

  lemma UpdatedKeepsScope(red: Redactor, op: Op, j: Job)
    ensures S.Updated(red, op, j).scope == j.scope
  {
  }

  /** After every run the back ends agree on every field an answer can depend on. */
  lemma {:induction false} ControlAgrees(red: Redactor, scopes: set<string>, ops: seq<Op>)
    requires Admissible(ops) && ControlRun(red, ops) && Within(ops, scopes) && Injective(red, scopes)
    ensures Paired(red, After(red, ops), LogAfter(red, ops)) && NoEmptyLease(After(red, ops))
    ensures ScopesIn(After(red, ops).jobs, scopes)
  {
    if ops != [] {
      var before, op := ops[..|ops| - 1], ops[|ops| - 1];
      ControlAgrees(red, scopes, before);
      Reachable(red, before);
      InjectiveKeepsApart(red, After(red, before).jobs, scopes);
      StepStaysPaired(red, After(red, before), LogAfter(red, before), op);
      ScopeKept(red, After(red, before), op, scopes);
    }
  }

  /** The k-th call of the run got the same answer from both. */
  lemma AnswersAgree(red: Redactor, scopes: set<string>, ops: seq<Op>, k: nat)
    requires Admissible(ops) && ControlRun(red, ops) && Within(ops, scopes) && Injective(red, scopes) && k < |ops|
    ensures S.Reply(red, After(red, ops[..k]), ops[k]) == L.Reply(red, LogAfter(red, ops[..k]), ops[k])
  {
    ControlAgrees(red, scopes, ops[..k]);
    Reachable(red, ops[..k]);
    InjectiveKeepsApart(red, After(red, ops[..k]).jobs, scopes);
    ReplyAgrees(red, After(red, ops[..k]), LogAfter(red, ops[..k]), ops[k]);
  }

  // ---- scopes that redaction makes one ----

  ghost predicate SameAnswers(red: Redactor, ops: seq<Op>) {
    forall k :: 0 <= k < |ops| ==>
      S.Reply(red, After(red, ops[..k]), ops[k]) == L.Reply(red, LogAfter(red, ops[..k]), ops[k])
  }

  /** A bare job record, created at the time text `id`. */
  function Dated(id: string, kind: Kind, scope: string): Job {
    Bare(id, kind, scope).(created := id)
  }

  function ClaimBy(kind: Kind, worker: string): Op {
    ClaimNext(worker, "", Some(worker), Some({kind}))
  }

  function MergedOps(x: string, y: string, a: string, b: string): seq<Op> {
    [Create(Dated(a, ReadOnly, x)), Create(Dated(b, VerifyExternal, y)), ClaimBy(ReadOnly, a)]
  }

  lemma ThreeSteps(red: Redactor, a: Op, b: Op, c: Op)
    ensures After(red, [a, b, c]) == S.Step(red, S.Step(red, S.Step(red, S.EMPTY, a), b), c)
    ensures LogAfter(red, [a, b, c]) == L.Step(red, L.Step(red, L.Step(red, map[], a), b), c)
  {
    assert [] + [a] == [a] && [a] + [b] == [a, b] && [a, b] + [c] == [a, b, c];
    Extend(red, [], a);
    Extend(red, [a], b);
    Extend(red, [a, b], c);
    Longer(red, [], a);
    Longer(red, [a], b);
    Longer(red, [a, b], c);
  }

  lemma OneClaim(red: Redactor, a: string, b: string, ja: Job, jb: Job)
    requires a != b && ja.kind == ReadOnly && jb.kind == VerifyExternal && Ripe(ja) && Ripe(jb)
    ensures Next(map[a := ja, b := jb], "", Some({ReadOnly})) == Some(a)
  {
    OnlyOneNext(map[a := ja, b := jb], "", Some({ReadOnly}), a);
  }

  predicate Ripe(j: Job) {
    j.status.Pending? && j.gate.Ready? && j.attempt < j.maxAttempts && j.nextAttempt.None?
  }

  /** The second job is free to go exactly when its scope is not the first one's. */
  lemma SecondClaim(a: string, b: string, ja: Job, jb: Job)
    requires a != b && ja.status.Running? && jb.kind == VerifyExternal && Ripe(jb)
    requires ja.scope.Some? && jb.scope.Some?
    ensures Next(map[a := ja, b := jb], "", Some({VerifyExternal})) == if ja.scope == jb.scope then None else Some(b)
  {
    var jobs := map[a := ja, b := jb];
    if ja.scope != jb.scope {
      OnlyOneNext(jobs, "", Some({VerifyExternal}), b);
    } else {
      forall id ensures !Eligible(jobs, "", Some({VerifyExternal}), id) {
        assert a in jobs && jobs[a].status.Running? && jobs[a].scope == jb.scope;
      }
    }
  }

  lemma MergedTables(red: Redactor, x: string, y: string, a: string, b: string)
    requires a != b && red(a) == a && red(b) == b
    ensures
      var ops, claim := MergedOps(x, y, a, b), ClaimBy(ReadOnly, a);
      && After(red, ops).jobs == map[a := S.Updated(red, claim, S.Inserted(red, Dated(a, ReadOnly, x))),
                                     b := S.Inserted(red, Dated(b, VerifyExternal, y))]
      && LogAfter(red, ops) ==
         map[a := L.RedactJob(red, L.ClaimedJob(L.RedactJob(red, Dated(a, ReadOnly, x)), a, "", Some(a))),
             b := L.RedactJob(red, Dated(b, VerifyExternal, y))]
  {
    var pa, pb := Dated(a, ReadOnly, x), Dated(b, VerifyExternal, y);
    ThreeSteps(red, Create(pa), Create(pb), ClaimBy(ReadOnly, a));
    MergedRows(red, pa, pb, a);
    MergedImages(red, pa, pb, a);
  }

  lemma MergedRows(red: Redactor, pa: Job, pb: Job, w: string)
    requires pa.id != pb.id && pa.kind == ReadOnly && pb.kind == VerifyExternal && Ripe(pa) && Ripe(pb)
    ensures
      S.Step(red, S.Step(red, S.Step(red, S.EMPTY, Create(pa)), Create(pb)), ClaimBy(ReadOnly, w)).jobs ==
      map[pa.id := S.Updated(red, ClaimBy(ReadOnly, w), S.Inserted(red, pa)), pb.id := S.Inserted(red, pb)]
  {
    var t := S.Step(red, S.Step(red, S.EMPTY, Create(pa)), Create(pb));
    assert t.jobs == map[pa.id := S.Inserted(red, pa), pb.id := S.Inserted(red, pb)];
    OneClaim(red, pa.id, pb.id, S.Inserted(red, pa), S.Inserted(red, pb));
  }

  lemma MergedImages(red: Redactor, pa: Job, pb: Job, w: string)
    requires pa.id != pb.id && pa.kind == ReadOnly && pb.kind == VerifyExternal && Ripe(pa) && Ripe(pb)
    requires red(pa.id) == pa.id && red(pb.id) == pb.id
    ensures
      L.Step(red, L.Step(red, L.Step(red, map[], Create(pa)), Create(pb)), ClaimBy(ReadOnly, w)) ==
      map[pa.id := L.RedactJob(red, L.ClaimedJob(L.RedactJob(red, pa), w, "", Some(w))), pb.id := L.RedactJob(red, pb)]
  {
    TwoCreated(red, pa, pb);
    OneClaim(red, pa.id, pb.id, L.RedactJob(red, pa), L.RedactJob(red, pb));
  }

  /** Two scopes that redaction makes one: SQLite runs both jobs, the log only the first. */
  lemma MergedScopesRun(red: Redactor, x: string, y: string, a: string, b: string)
    requires x != y && red(x) == red(y) && Steady(red, x) && a != b && red(a) == a && red(b) == b
    ensures S.Reply(red, After(red, MergedOps(x, y, a, b)), ClaimBy(VerifyExternal, a)) == Claim(Some(b))
    ensures L.Reply(red, LogAfter(red, MergedOps(x, y, a, b)), ClaimBy(VerifyExternal, a)) == Claim(None)
  {
    MergedTables(red, x, y, a, b);
    var t, jobs := After(red, MergedOps(x, y, a, b)).jobs, LogAfter(red, MergedOps(x, y, a, b));
    SecondClaim(a, b, t[a], t[b]);
    SecondClaim(a, b, jobs[a], jobs[b]);
  }

  /**
   * Over scopes that redaction settles at once: all runs answer alike exactly when redaction keeps the
   * scopes apart.
   */
  lemma AnswersAgreeIff(red: Redactor, scopes: set<string>, a: string, b: string)
    requires forall x :: x in scopes ==> Steady(red, x)
    requires a != b && a != "" && red(a) == a && red(b) == b
    ensures (forall ops ::
               Admissible(ops) && ControlRun(red, ops) && Within(ops, scopes) ==> SameAnswers(red, ops)) <==>
            Injective(red, scopes)
  {
    if Injective(red, scopes) {
      forall ops | Admissible(ops) && ControlRun(red, ops) && Within(ops, scopes) ensures SameAnswers(red, ops) {
        forall k | 0 <= k < |ops|
          ensures S.Reply(red, After(red, ops[..k]), ops[k]) == L.Reply(red, LogAfter(red, ops[..k]), ops[k])
        {
          AnswersAgree(red, scopes, ops, k);
        }
      }
    } else {
      var x, y :| x in scopes && y in scopes && red(x) == red(y) && x != y;
      MergedScopesDiffer(red, scopes, x, y, a, b);
    }
  }

  lemma MergedScopesDiffer(red: Redactor, scopes: set<string>, x: string, y: string, a: string, b: string)
    requires x in scopes && y in scopes && Steady(red, x) && Steady(red, y) && x != y && red(x) == red(y)
    requires a != b && a != "" && red(a) == a && red(b) == b
    ensures exists ops ::
              Admissible(ops) && ControlRun(red, ops) && Within(ops, scopes) && !SameAnswers(red, ops)
  {
    MergedScopesRun(red, x, y, a, b);
    var ops := MergedOps(x, y, a, b) + [ClaimBy(VerifyExternal, a)];
    MergedRunIsControl(red, scopes, x, y, a, b);
    assert ops[..3] == MergedOps(x, y, a, b);
    assert ops[3] == ClaimBy(VerifyExternal, a);
  }

  lemma MergedRunIsControl(red: Redactor, scopes: set<string>, x: string, y: string, a: string, b: string)
    requires x in scopes && y in scopes && Steady(red, x) && Steady(red, y)
    requires a != "" && red(a) == a && red(b) == b
    ensures
      var ops := MergedOps(x, y, a, b) + [ClaimBy(VerifyExternal, a)];
      Admissible(ops) && ControlRun(red, ops) && Within(ops, scopes)
  {
  }
}

/**
 * Safety of the job queue over every run: any number of workers, any interleaving of the
 * store's atomic steps, including late calls by workers that have lost their lease and
 * `schedule_retry`, which carries no worker id at all.
 */
module QueueRuns {
  import opened Common
  import opened TextOrder
  import opened QueueModel
  import opened SqliteQueue
  import UtcIso

  /** The only thing asked of a run: records are inserted as the service builds them. */
  predicate Admissible(ops: seq<Op>) {
    forall i :: 0 <= i < |ops| && ops[i].Create? ==> Fresh(ops[i].job)
  }

  ghost function After(red: Redactor, ops: seq<Op>): Table {
    if ops == [] then EMPTY else Step(red, After(red, ops[..|ops| - 1]), ops[|ops| - 1])
  }

  /** Did the step hand job `id` to a worker? */
  ghost predicate Takes(red: Redactor, t: Table, op: Op, id: string) {
    op.ClaimNext? && Reply(red, t, op) == Claim(Some(id))
  }

  ghost function Claims(red: Redactor, ops: seq<Op>, id: string): nat {
    if ops == [] then 0
    else Claims(red, ops[..|ops| - 1], id) +
         if Takes(red, After(red, ops[..|ops| - 1]), ops[|ops| - 1], id) then 1 else 0
  }

  /** The worker that claimed job `id` last. */
  ghost function LastClaimant(red: Redactor, ops: seq<Op>, id: string): Option<string> {
    if ops == [] then None
    else if Takes(red, After(red, ops[..|ops| - 1]), ops[|ops| - 1], id) then Some(ops[|ops| - 1].worker)
    else LastClaimant(red, ops[..|ops| - 1], id)
  }

  ghost predicate TakesSome(red: Redactor, t: Table, op: Op) {
    op.ClaimNext? && Reply(red, t, op).Claim? && Reply(red, t, op).id.Some?
  }

  /** One more step at the end of a run. */
  lemma Extend(red: Redactor, ops: seq<Op>, op: Op)
    ensures After(red, ops + [op]) == Step(red, After(red, ops), op)
    ensures forall id :: Claims(red, ops + [op], id) ==
                         Claims(red, ops, id) + if Takes(red, After(red, ops), op, id) then 1 else 0
    ensures forall id :: LastClaimant(red, ops + [op], id) ==
                         if Takes(red, After(red, ops), op, id) then Some(op.worker) else LastClaimant(red, ops, id)
  {
    assert (ops + [op])[..|ops + [op]| - 1] == ops;
  }

  // ---- the invariant ----

  predicate RowOk(j: Job) {
    && (j.status.Running? <==> j.worker.Some?) && (j.status.Running? <==> j.lease.Some?)
    && 0 <= j.attempt <= j.maxAttempts && 1 <= j.maxAttempts <= 3
    && (Unsafe(j.effect) ==> j.attempt <= 1 && (j.status.Pending? ==> j.attempt == 0))
    && (j.status.Succeeded? ==> j.result.Some?)
  }

  predicate RowsOk(t: Table) {
    forall id :: id in t.jobs ==> t.jobs[id].id == id && RowOk(t.jobs[id])
  }

  /** `job_results` and `jobs.result_json` say the same. */
  predicate ResultsOk(t: Table) {
    && t.results.Keys <= t.jobs.Keys
    && forall id :: id in t.jobs ==>
         t.jobs[id].result == if id in t.results then Some(t.results[id]) else None
  }

  /** A success, with its result in both places. */
  predicate SucceededWith(t: Table, id: string, result: Json) {
    && id in t.jobs && t.jobs[id].status.Succeeded? && t.jobs[id].result == Some(result)
    && id in t.results && t.results[id] == result
  }

  predicate Consistent(t: Table) {
    RowsOk(t) && ResultsOk(t) && Exclusive(t.jobs)
  }

  lemma RowKept(red: Redactor, t: Table, op: Op, id: string)
    requires RowsOk(t) && id in t.jobs && Hit(red, t, op, id)
    ensures RowOk(Updated(red, op, t.jobs[id])) && Updated(red, op, t.jobs[id]).id == id
    ensures Updated(red, op, t.jobs[id]).scope == t.jobs[id].scope
    ensures Updated(red, op, t.jobs[id]).maxAttempts == t.jobs[id].maxAttempts
    ensures Updated(red, op, t.jobs[id]).effect == t.jobs[id].effect
  {
    assert RowOk(t.jobs[id]);
  }

  lemma StepKeepsRows(red: Redactor, t: Table, op: Op)
    requires RowsOk(t) && (op.Create? ==> Fresh(op.job))
    ensures RowsOk(Step(red, t, op))
  {
    var t' := Step(red, t, op);
    forall id | id in t'.jobs
      ensures t'.jobs[id].id == id && RowOk(t'.jobs[id])
    {
      if id in t.jobs && Hit(red, t, op, id) { RowKept(red, t, op, id); }
    }
  }

  lemma StepKeepsResults(red: Redactor, t: Table, op: Op)
    requires ResultsOk(t)
    ensures ResultsOk(Step(red, t, op))
  {
    var t' := Step(red, t, op);
    forall id | id in t'.jobs
      ensures t'.jobs[id].result == if id in t'.results then Some(t'.results[id]) else None
    {
      if id in t.jobs { RowResult(red, t, op, id); }
    }
  }

  lemma RowResult(red: Redactor, t: Table, op: Op, id: string)
    requires id in t.jobs && t.jobs[id].result == if id in t.results then Some(t.results[id]) else None
    ensures
      var t' := Step(red, t, op);
      id in t'.jobs && t'.jobs[id].result == if id in t'.results then Some(t'.results[id]) else None
  {
  }

  /** Only a claim starts a job, and it starts one whose scope is free. */
  lemma StartsOnlyByClaim(red: Redactor, t: Table, op: Op, id: string)
    requires RowsOk(t) && (op.Create? ==> Fresh(op.job))
    requires id in Step(red, t, op).jobs && Step(red, t, op).jobs[id].status.Running?
    ensures id in t.jobs
    ensures t.jobs[id].status.Running? || (Takes(red, t, op, id) && Next(t.jobs, op.now, op.kinds) == Some(id))
    ensures Step(red, t, op).jobs[id].scope == t.jobs[id].scope
  {
    if id in t.jobs && Hit(red, t, op, id) { RowKept(red, t, op, id); }
  }

  lemma RunnerAfterStep(red: Redactor, t: Table, op: Op, id: string)
    requires RowsOk(t) && (op.Create? ==> Fresh(op.job))
    requires id in Step(red, t, op).jobs && Step(red, t, op).jobs[id].status.Running?
    ensures id in t.jobs && (Takes(red, t, op, id) || t.jobs[id].status.Running?)
    ensures Step(red, t, op).jobs[id].worker == if Takes(red, t, op, id) then Some(op.worker) else t.jobs[id].worker
  {
    if id in t.jobs && Hit(red, t, op, id) { RowKept(red, t, op, id); }
  }

  lemma StepKeepsExclusion(red: Redactor, t: Table, op: Op)
    requires RowsOk(t) && Exclusive(t.jobs) && (op.Create? ==> Fresh(op.job))
    ensures Exclusive(Step(red, t, op).jobs)
  {
    var t' := Step(red, t, op);
    forall a, b | a in t'.jobs && b in t'.jobs && a != b && t'.jobs[a].status.Running? && t'.jobs[b].status.Running?
      ensures t'.jobs[a].scope.None? || t'.jobs[a].scope != t'.jobs[b].scope
    {
      StartsOnlyByClaim(red, t, op, a);
      StartsOnlyByClaim(red, t, op, b);
      if !t.jobs[a].status.Running? {
        assert Eligible(t.jobs, op.now, op.kinds, a);
      } else if !t.jobs[b].status.Running? {
        assert Eligible(t.jobs, op.now, op.kinds, b);
      }
    }
  }

  /** Every reachable table is consistent. */
  lemma {:induction false} Reachable(red: Redactor, ops: seq<Op>)
    requires Admissible(ops)
    ensures Consistent(After(red, ops))
  {
    if ops != [] {
      var before, op := ops[..|ops| - 1], ops[|ops| - 1];
      Reachable(red, before);
      StepKeepsRows(red, After(red, before), op);
      StepKeepsResults(red, After(red, before), op);
      StepKeepsExclusion(red, After(red, before), op);
    }
  }

  // ---- theorems ----

  /** No two running jobs ever share a scope. */
  lemma OneRunnerPerScope(red: Redactor, ops: seq<Op>, a: string, b: string)
    requires Admissible(ops)
    requires a in After(red, ops).jobs && b in After(red, ops).jobs && a != b
    requires After(red, ops).jobs[a].status.Running? && After(red, ops).jobs[b].status.Running?
    requires After(red, ops).jobs[a].scope.Some?
    ensures After(red, ops).jobs[a].scope != After(red, ops).jobs[b].scope
  {
    Reachable(red, ops);
  }

  /** A job is running exactly while it has a worker and a lease, and the worker is its latest claimant. */
  lemma {:induction false} RunnerIsLatestClaimant(red: Redactor, ops: seq<Op>, id: string)
    requires Admissible(ops) && id in After(red, ops).jobs
    ensures
      var j := After(red, ops).jobs[id];
      && (j.status.Running? <==> j.worker.Some? && j.lease.Some?)
      && (j.status.Running? ==> j.worker == LastClaimant(red, ops, id))
  {
    Reachable(red, ops);
    assert RowOk(After(red, ops).jobs[id]);
    if After(red, ops).jobs[id].status.Running? {
      var before, op := ops[..|ops| - 1], ops[|ops| - 1];
      Reachable(red, before);
      RunnerAfterStep(red, After(red, before), op, id);
      RunnerIsLatestClaimant(red, before, id);
    }
  }

  lemma AttemptsCountClaim(red: Redactor, t: Table, op: Op, id: string)
    requires RowsOk(t) && id in t.jobs
    ensures id in Step(red, t, op).jobs
    ensures Step(red, t, op).jobs[id].attempt == t.jobs[id].attempt + if Takes(red, t, op, id) then 1 else 0
    ensures Step(red, t, op).jobs[id].maxAttempts == t.jobs[id].maxAttempts
    ensures Step(red, t, op).jobs[id].effect == t.jobs[id].effect
  {
    if Hit(red, t, op, id) { RowKept(red, t, op, id); }
  }

  /** `attempt` counts the claims of a job over the whole run, and the limit bounds it. */
  lemma {:induction false} AttemptIsClaimCount(red: Redactor, ops: seq<Op>, id: string)
    requires Admissible(ops)
    ensures
      var jobs := After(red, ops).jobs;
      && (id in jobs ==> Claims(red, ops, id) == jobs[id].attempt <= jobs[id].maxAttempts <= 3)
      && (id !in jobs ==> Claims(red, ops, id) == 0)
  {
    Reachable(red, ops);
    if ops != [] {
      var before, op := ops[..|ops| - 1], ops[|ops| - 1];
      AttemptIsClaimCount(red, before, id);
      Reachable(red, before);
      if id in After(red, before).jobs { AttemptsCountClaim(red, After(red, before), op, id); }
    }
  }

  /** A cloud write, exchange order or emergency control is handed out at most once, whatever its limit. */
  lemma UnsafeEffectsClaimedOnce(red: Redactor, ops: seq<Op>, id: string)
    requires Admissible(ops) && id in After(red, ops).jobs && Unsafe(After(red, ops).jobs[id].effect)
    ensures Claims(red, ops, id) <= 1
  {
    Reachable(red, ops);
    AttemptIsClaimCount(red, ops, id);
  }

  /** A call by a worker that does not hold the job leaves a running job and its result alone. */
  lemma StaleCallsChangeNothing(red: Redactor, t: Table, op: Op)
    requires op.Heartbeat? || op.MarkSuccess? || op.MarkFailure?
    requires op.id in t.jobs && t.jobs[op.id].status.Running? && t.jobs[op.id].worker != Some(op.worker)
    ensures Step(red, t, op) == t && Reply(red, t, op) == Flag(false)
  {
    assert Step(red, t, op).jobs == t.jobs;
  }

  lemma SucceededStep(red: Redactor, t: Table, op: Op, id: string, result: Json)
    requires SucceededWith(t, id, result)
    ensures SucceededWith(Step(red, t, op), id, result)
  {
  }

  lemma SucceededHasResult(t: Table, id: string)
    requires RowsOk(t) && ResultsOk(t) && id in t.jobs && t.jobs[id].status.Succeeded?
    ensures id in t.results && SucceededWith(t, id, t.results[id])
  {
    assert RowOk(t.jobs[id]);
  }

  lemma {:induction false} SuccessStays(red: Redactor, ops: seq<Op>, more: seq<Op>, id: string, result: Json)
    requires SucceededWith(After(red, ops), id, result)
    ensures SucceededWith(After(red, ops + more), id, result)
    decreases |more|
  {
    if more == [] {
      assert ops + more == ops;
    } else {
      var shorter, op := more[..|more| - 1], more[|more| - 1];
      assert ops + more == ops + shorter + [op];
      SuccessStays(red, ops, shorter, id, result);
      Extend(red, ops + shorter, op);
      SucceededStep(red, After(red, ops + shorter), op, id, result);
    }
  }

  /** Success is final: no continuation, by any worker, changes the status or the stored result. */
  lemma SuccessIsFinal(red: Redactor, ops: seq<Op>, more: seq<Op>, id: string)
    requires Admissible(ops) && id in After(red, ops).jobs && After(red, ops).jobs[id].status.Succeeded?
    ensures id in After(red, ops).results
    ensures SucceededWith(After(red, ops), id, After(red, ops).results[id])
    ensures SucceededWith(After(red, ops + more), id, After(red, ops).results[id])
  {
    Reachable(red, ops);
    SucceededHasResult(After(red, ops), id);
    SuccessStays(red, ops, more, id, After(red, ops).results[id]);
  }

  /** A pending job behind a closed gate can only stay there or be cancelled. */
  predicate Withheld(j: Job, gate: Gate) {
    (j.status.Pending? && j.gate == gate) || j.status.Cancelled?
  }

  lemma WithheldStep(red: Redactor, t: Table, op: Op, id: string, gate: Gate)
    requires !gate.Ready? && id in t.jobs && Withheld(t.jobs[id], gate)
    ensures id in Step(red, t, op).jobs && Withheld(Step(red, t, op).jobs[id], gate) && !Takes(red, t, op, id)
  {
  }

  lemma {:induction false} WithheldStays(red: Redactor, ops: seq<Op>, more: seq<Op>, id: string, gate: Gate)
    requires !gate.Ready? && id in After(red, ops).jobs && Withheld(After(red, ops).jobs[id], gate)
    ensures id in After(red, ops + more).jobs && Withheld(After(red, ops + more).jobs[id], gate)
    ensures Claims(red, ops + more, id) == Claims(red, ops, id)
    decreases |more|
  {
    if more == [] {
      assert ops + more == ops;
    } else {
      var shorter, op := more[..|more| - 1], more[|more| - 1];
      assert ops + more == ops + shorter + [op];
      WithheldStays(red, ops, shorter, id, gate);
      Extend(red, ops + shorter, op);
      WithheldStep(red, After(red, ops + shorter), op, id, gate);
    }
  }

  /**
   * A job submitted without the authorization its kind needs (or a cloud write without its
   * verification) never runs and is never claimed, although three transitions reset gates to READY.
   */
  lemma UnauthorizedNeverRuns(red: Redactor, ops: seq<Op>, job: Job, more: seq<Op>, secretLike: string -> bool,
                              r: Request, limit: int, root: string, now: string, path: string)
    requires Admissible(ops)
    requires Submit(secretLike, r, limit, root, job.id, now, path) == Some(job) && job.id !in After(red, ops).jobs
    requires (NeedsAuthorization(r.kind) && r.authorizationRef.None?) || (r.kind.CloudWrite? && r.verificationJob.None?)
    ensures
      var run := ops + [Create(job)] + more;
      && job.id in After(red, run).jobs && !After(red, run).jobs[job.id].status.Running?
      && Claims(red, run, job.id) == 0
  {
    var start := ops + [Create(job)];
    Extend(red, ops, Create(job));
    SubmittedJobs(secretLike, r, limit, root, job.id, now, path);
    AttemptIsClaimCount(red, start, job.id);
    WithheldStays(red, start, more, job.id, job.gate);
  }

  // ---- claims are finite: remaining attempts as a measure ----

  function Remaining(j: Job): int {
    j.maxAttempts - j.attempt
  }

  ghost function Budget(jobs: map<string, Job>): int {
    if jobs == map[] then 0
    else
      var id :| id in jobs;
      Remaining(jobs[id]) + Budget(jobs - {id})
  }

  lemma {:induction false} BudgetWithout(jobs: map<string, Job>, id: string)
    requires id in jobs
    ensures Budget(jobs) == Remaining(jobs[id]) + Budget(jobs - {id})
    decreases |jobs|
  {
    var first :| first in jobs && Budget(jobs) == Remaining(jobs[first]) + Budget(jobs - {first});
    if first != id {
      BudgetWithout(jobs - {first}, id);
      BudgetWithout(jobs - {id}, first);
      assert jobs - {first} - {id} == jobs - {id} - {first};
    }
  }

  /** Equal remaining attempts row by row give equal budgets. */
  lemma {:induction false} BudgetSame(a: map<string, Job>, b: map<string, Job>)
    requires a.Keys == b.Keys && forall id :: id in a ==> Remaining(a[id]) == Remaining(b[id])
    ensures Budget(a) == Budget(b)
    decreases |a|
  {
    if a == map[] {
      assert b == map[];
    } else {
      var id :| id in a;
      BudgetWithout(a, id);
      BudgetWithout(b, id);
      BudgetSame(a - {id}, b - {id});
    }
  }

  /** A claim spends one attempt, an accepted insert adds the job's limit, nothing else moves the measure. */
  lemma BudgetStep(red: Redactor, t: Table, op: Op)
    requires RowsOk(t) && (op.Create? ==> Fresh(op.job))
    ensures Budget(Step(red, t, op).jobs) == Budget(t.jobs)
      + (if op.Create? && op.job.id !in t.jobs then op.job.maxAttempts else 0)
      - (if TakesSome(red, t, op) then 1 else 0)
  {
    var t' := Step(red, t, op);
    if op.Create? {
      if op.job.id !in t.jobs {
        BudgetWithout(t'.jobs, op.job.id);
        assert t'.jobs - {op.job.id} == t.jobs;
      }
    } else {
      forall id | id in t.jobs
        ensures Remaining(t'.jobs[id]) == Remaining(t.jobs[id]) - if Takes(red, t, op, id) then 1 else 0
      {
        AttemptsCountClaim(red, t, op, id);
      }
      if TakesSome(red, t, op) {
        var id := Reply(red, t, op).id.value;
        BudgetWithout(t.jobs, id);
        BudgetWithout(t'.jobs, id);
        BudgetSame(t.jobs - {id}, t'.jobs - {id});
      } else {
        BudgetSame(t.jobs, t'.jobs);
      }
    }
  }

  ghost function TotalClaims(red: Redactor, ops: seq<Op>): nat {
    if ops == [] then 0
    else TotalClaims(red, ops[..|ops| - 1]) +
         if TakesSome(red, After(red, ops[..|ops| - 1]), ops[|ops| - 1]) then 1 else 0
  }

  function Creations(ops: seq<Op>): nat {
    if ops == [] then 0
    else Creations(ops[..|ops| - 1]) + if ops[|ops| - 1].Create? then 1 else 0
  }

  lemma {:induction false} BudgetNonNegative(jobs: map<string, Job>)
    requires forall id :: id in jobs ==> Remaining(jobs[id]) >= 0
    ensures Budget(jobs) >= 0
    decreases |jobs|
  {
    if jobs != map[] {
      var id :| id in jobs;
      BudgetWithout(jobs, id);
      BudgetNonNegative(jobs - {id});
    }
  }

  /** However the run goes, work is handed out at most three times per insert. */
  lemma {:induction false} ClaimsAreBounded(red: Redactor, ops: seq<Op>)
    requires Admissible(ops)
    ensures 0 <= Budget(After(red, ops).jobs) <= 3 * Creations(ops) - TotalClaims(red, ops)
  {
    Reachable(red, ops);
    BudgetNonNegative(After(red, ops).jobs);
    if ops != [] {
      var before, op := ops[..|ops| - 1], ops[|ops| - 1];
      ClaimsAreBounded(red, before);
      Reachable(red, before);
      BudgetStep(red, After(red, before), op);
    }
  }

  // ---- leases in time ----

  /** The job runs for `owner`, and its lease has the text `lease`. */
  predicate HeldUntil(t: Table, id: string, owner: string, lease: string) {
    && id in t.jobs && t.jobs[id].status.Running?
    && t.jobs[id].worker == Some(owner) && t.jobs[id].lease == Some(lease)
  }

  /** A call that neither renews nor finishes the job, nor takes it away from its owner. */
  predicate Harmless(op: Op, id: string, owner: string, lease: string) {
    match op
    case Heartbeat(x, w, _, _) => x != id || w != owner
    case MarkSuccess(x, w, _, _, _, _, _, _) => x != id || w != owner
    case MarkFailure(x, w, _, _, _, _, _, _) => x != id || w != owner
    case ScheduleRetry(x, _, _, _, _) => x != id
    case Cancel(x, _) => x != id
    case RecoverExpired(now) => !Less(lease, now)
    case Create(_) | ClaimNext(_, _, _, _) | UpdateConversation(_, _, _) | RetryFailed(_, _, _) => true
  }

  predicate AllHarmless(ops: seq<Op>, id: string, owner: string, lease: string) {
    forall i :: 0 <= i < |ops| ==> Harmless(ops[i], id, owner, lease)
  }

  lemma HarmlessKeeps(red: Redactor, t: Table, op: Op, id: string, owner: string, lease: string)
    requires HeldUntil(t, id, owner, lease) && Harmless(op, id, owner, lease)
    ensures HeldUntil(Step(red, t, op), id, owner, lease)
  {
  }

  lemma {:induction false} StaysHeld(red: Redactor, ops: seq<Op>, more: seq<Op>, id: string, owner: string,
                                     lease: string)
    requires HeldUntil(After(red, ops), id, owner, lease) && AllHarmless(more, id, owner, lease)
    ensures HeldUntil(After(red, ops + more), id, owner, lease)
    decreases |more|
  {
    if more == [] {
      assert ops + more == ops;
    } else {
      var shorter, op := more[..|more| - 1], more[|more| - 1];
      assert ops + more == ops + shorter + [op];
      StaysHeld(red, ops, shorter, id, owner, lease);
      Extend(red, ops + shorter, op);
      HarmlessKeeps(red, After(red, ops + shorter), op, id, owner, lease);
    }
  }

  lemma SweptText(red: Redactor, t: Table, id: string, owner: string, lease: string, at: string)
    requires HeldUntil(t, id, owner, lease)
    ensures Swept(red, t, id, at) <==> Less(lease, at)
  {
    SweptIff(red, t, id, at);
  }

  /**
   * A job held on a lease until `until`, claimed or renewed: through every run of calls that neither
   * renew nor finish it, sweeps up to `until` included, it stays with its owner; and then a sweep at
   * `later` recovers it exactly when `later` is after `until`.
   */
  lemma SweepRecoversExactlyLateJobs(red: Redactor, ops: seq<Op>, more: seq<Op>, id: string, owner: string,
                                     until: UtcIso.Instant, later: UtcIso.Instant)
    requires HeldUntil(After(red, ops), id, owner, UtcIso.Iso(until))
    requires AllHarmless(more, id, owner, UtcIso.Iso(until))
    ensures HeldUntil(After(red, ops + more), id, owner, UtcIso.Iso(until))
    ensures Swept(red, After(red, ops + more), id, UtcIso.Iso(later)) <==> later > until
  {
    StaysHeld(red, ops, more, id, owner, UtcIso.Iso(until));
    UtcIso.TextOrderIsTimeOrder(until, later);
    SweptText(red, After(red, ops + more), id, owner, UtcIso.Iso(until), UtcIso.Iso(later));
  }

  /** A sweep at any time up to the end of the lease is harmless. */
  lemma EarlySweepIsHarmless(id: string, owner: string, until: UtcIso.Instant, at: UtcIso.Instant)
    ensures Harmless(RecoverExpired(UtcIso.Iso(at)), id, owner, UtcIso.Iso(until)) <==> at <= until
  {
    UtcIso.TextOrderIsTimeOrder(until, at);
  }

  /** A claim at `now` for `ttl` seconds holds the job until `now + ttl`. */
  lemma ClaimHolds(red: Redactor, ops: seq<Op>, claim: Op, id: string, now: UtcIso.Instant, ttl: nat)
    requires now + 1000 * ttl < UtcIso.DAYS * UtcIso.MS_PER_DAY
    requires claim.ClaimNext? && claim.lease == UtcIso.LeaseExpiry(UtcIso.Iso(now), ttl)
    requires Takes(red, After(red, ops), claim, id)
    ensures HeldUntil(After(red, ops + [claim]), id, claim.worker, UtcIso.Iso(now + 1000 * ttl))
  {
    UtcIso.LeaseRunsOutExactlyAfterTtl(now, ttl, now, claim.lease);
    Extend(red, ops, claim);
    ClaimSetsLease(red, After(red, ops), claim, id);
  }

  /** The owner's heartbeat moves the end of the lease, and nobody else's call does. */
  lemma RenewalHolds(red: Redactor, ops: seq<Op>, beat: Op, id: string, owner: string, lease: string)
    requires HeldUntil(After(red, ops), id, owner, lease) && beat.Heartbeat? && beat.id == id
    ensures HeldUntil(After(red, ops + [beat]), id, owner, if beat.worker == owner then beat.until else lease)
    ensures After(red, ops + [beat]).jobs ==
            var j := After(red, ops).jobs[id];
            if beat.worker == owner
            then After(red, ops).jobs[id := j.(lease := Some(beat.until), updated := beat.wall)]
            else After(red, ops).jobs
  {
    Extend(red, ops, beat);
    StepOnOne(red, After(red, ops), beat);
  }

  /** The sweep reports the job, and the job stops running. */
  ghost predicate Swept(red: Redactor, t: Table, id: string, at: string) {
    var op := RecoverExpired(at);
    && Reply(red, t, op).Recovered? && id in Reply(red, t, op).ids
    && id in Step(red, t, op).jobs && !Step(red, t, op).jobs[id].status.Running?
  }

  lemma ClaimSetsLease(red: Redactor, t: Table, claim: Op, id: string)
    requires claim.ClaimNext? && claim.lease.Some? && Takes(red, t, claim, id)
    ensures id in Step(red, t, claim).jobs
    ensures
      var j := Step(red, t, claim).jobs[id];
      j.status.Running? && j.lease == claim.lease && j.worker == Some(claim.worker)
  {
  }

  lemma SweptIff(red: Redactor, t: Table, id: string, at: string)
    requires id in t.jobs && t.jobs[id].status.Running? && t.jobs[id].lease.Some?
    ensures Swept(red, t, id, at) <==> TextOrder.Less(t.jobs[id].lease.value, at)
    ensures !Swept(red, t, id, at) ==> Step(red, t, RecoverExpired(at)).jobs[id] == t.jobs[id]
  {
  }

  // ---- what a retry can still achieve ----

  /**
   * The owner of a running job can report success exactly when no result is stored or the stored
   * one is the same: `retry_failed` and `schedule_retry` keep the result of an earlier failure.
   */
  lemma OwnerSucceedsIff(red: Redactor, t: Table, op: Op)
    requires op.MarkSuccess? && op.id in t.jobs && Owns(t.jobs[op.id], op.worker)
    ensures Reply(red, t, op) == Flag(true) <==> op.id !in t.results || t.results[op.id] == red(op.result)
    ensures Reply(red, t, op) == Flag(true) <==> Step(red, t, op).jobs[op.id].status.Succeeded?
    ensures Reply(red, t, op) != Flag(true) ==> Reply(red, t, op) == Raised && Step(red, t, op) == t
  {
    if Conflicts(red, t, op.id, op.result) { assert Step(red, t, op).jobs == t.jobs; }
  }

  /** Claiming from a table with one job. */
  lemma OnlyJobClaimed(red: Redactor, t: Table, w: string, now: string, lease: string, id: string)
    requires t.jobs.Keys == {id} && Eligible(t.jobs, now, None, id)
    ensures
      var claim := ClaimNext(w, now, Some(lease), None);
      Step(red, t, claim) == t.(jobs := t.jobs[id := Updated(red, claim, t.jobs[id])])
  {
    assert IsNext(t.jobs, now, None, id);
  }

  lemma FailedAndRetried(red: Redactor, t: Table, failure: Op, retry: Op)
    requires failure.MarkFailure? && failure.envelope.Some? && failure.id in t.jobs && t.results == map[]
    requires Owns(t.jobs[failure.id], failure.worker) && MayRetry(t.jobs[failure.id])
    requires retry.RetryFailed? && retry.id == failure.id
    ensures
      var t' := Step(red, Step(red, t, failure), retry);
      && t'.jobs == t.jobs[failure.id := Updated(red, retry, Updated(red, failure, t.jobs[failure.id]))]
      && t'.results == map[failure.id := red(failure.envelope.value)]
  {
    StepOnOne(red, t, failure);
    StepOnOne(red, Step(red, t, failure), retry);
  }

  /**
   * A run that gets there: claimed, failed with one result, retried, claimed again.  Success with
   * another result is refused then.
   */
  lemma RetriedJobRun(red: Redactor, job: Job, w: string, now: string, lease: string, failure: Op, success: Op,
                      wall: string)
    requires Fresh(job) && job.gate.Ready? && job.nextAttempt.None? && !Unsafe(job.effect) && job.maxAttempts >= 2
    requires failure.MarkFailure? && failure.id == job.id && failure.worker == w && failure.envelope.Some?
    requires success.MarkSuccess? && success.id == job.id && success.worker == w
    ensures
      var claim := ClaimNext(w, now, Some(lease), None);
      var ops := [Create(job), claim, failure, RetryFailed(job.id, now, wall), claim];
      && job.id in After(red, ops).jobs && Owns(After(red, ops).jobs[job.id], w)
      && (Reply(red, After(red, ops), success) == Raised <==> red(success.result) != red(failure.envelope.value))
  {
    var claim, retry := ClaimNext(w, now, Some(lease), None), RetryFailed(job.id, now, wall);
    FiveSteps(red, Create(job), claim, failure, retry, claim);
    var t1 := Step(red, EMPTY, Create(job));
    assert t1 == Table(map[job.id := Inserted(red, job)], map[]);
    OnlyJobClaimed(red, t1, w, now, lease, job.id);
    RetriedTable(red, Step(red, t1, claim), job.id, w, now, lease, failure, wall);
    OwnerSucceedsIff(red, After(red, [Create(job), claim, failure, retry, claim]), success);
  }

  lemma FiveSteps(red: Redactor, a: Op, b: Op, c: Op, d: Op, e: Op)
    ensures After(red, [a, b, c, d, e]) ==
            Step(red, Step(red, Step(red, Step(red, Step(red, EMPTY, a), b), c), d), e)
  {
    assert [] + [a] == [a] && [a] + [b] == [a, b] && [a, b] + [c] == [a, b, c] && [a, b, c] + [d] == [a, b, c, d];
    assert [a, b, c, d] + [e] == [a, b, c, d, e];
    Extend(red, [], a);
    Extend(red, [a], b);
    Extend(red, [a, b], c);
    Extend(red, [a, b, c], d);
    Extend(red, [a, b, c, d], e);
  }

  lemma RetriedTable(red: Redactor, t: Table, id: string, w: string, now: string, lease: string, failure: Op,
                     wall: string)
    requires t.jobs.Keys == {id} && Owns(t.jobs[id], w) && MayRetry(t.jobs[id]) && t.results == map[]
    requires failure.MarkFailure? && failure.id == id && failure.worker == w && failure.envelope.Some?
    ensures
      var t' := Step(red, Step(red, Step(red, t, failure), RetryFailed(id, now, wall)),
                     ClaimNext(w, now, Some(lease), None));
      && id in t'.jobs && Owns(t'.jobs[id], w) && t'.results == map[id := red(failure.envelope.value)]
  {
    FailedAndRetried(red, t, failure, RetryFailed(id, now, wall));
    Irreflexive(now);
    var t2 := Step(red, Step(red, t, failure), RetryFailed(id, now, wall));
    assert t2.jobs.Keys == {id};
    OnlyJobClaimed(red, t2, w, now, lease, id);
  }
}

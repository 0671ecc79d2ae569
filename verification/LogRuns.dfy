/**
 * The JSONL back end over every run, proved on the log itself (JsonlQueueStore in
 * apps/agy_queue/storage.py).  Here redaction matters: every update writes the texts of a job again,
 * redacted once more.
 */
module LogRuns {
  import opened Common
  import opened QueueModel
  import opened JsonlQueue
  import opened TextOrder
  import QueueRuns
  import UtcIso

  /**
   * The view of the store after a run.  On a creation whose id redaction rewrites into one the log has
   * already spoken of, the store ignores the new line while this map takes it; runs with `FixedIds`
   * contain no such creation.
   */
  ghost function LogAfter(red: Redactor, ops: seq<Op>): map<string, Job> {
    if ops == [] then map[] else Step(red, LogAfter(red, ops[..|ops| - 1]), ops[|ops| - 1])
  }

  lemma Longer(red: Redactor, ops: seq<Op>, op: Op)
    ensures LogAfter(red, ops + [op]) == Step(red, LogAfter(red, ops), op)
  {
    assert (ops + [op])[..|ops + [op]| - 1] == ops;
  }

  /** Ids and scopes of created jobs are texts that redaction settles at once. */
  predicate SteadyCreations(red: Redactor, ops: seq<Op>) {
    forall i :: 0 <= i < |ops| && ops[i].Create? ==> Steady(red, ops[i].job.id) && SteadyOption(red, ops[i].job.scope)
  }

  predicate ScopesSettled(red: Redactor, jobs: map<string, Job>) {
    forall id :: id in jobs ==> RedactOption(red, jobs[id].scope) == jobs[id].scope
  }

  lemma RowKeepsScope(red: Redactor, jobs: map<string, Job>, op: Op, id: string)
    requires id in jobs && RedactOption(red, jobs[id].scope) == jobs[id].scope
    ensures Row(red, jobs, op, id).scope == jobs[id].scope
    ensures Row(red, jobs, op, id).status.Running? ==>
              jobs[id].status.Running? || (op.ClaimNext? && Next(jobs, op.now, op.kinds) == Some(id))
  {
  }

  lemma StepKeepsScopes(red: Redactor, jobs: map<string, Job>, op: Op)
    requires ScopesSettled(red, jobs) && (op.Create? ==> SteadyOption(red, op.job.scope))
    ensures ScopesSettled(red, Step(red, jobs, op))
  {
    forall id | id in Step(red, jobs, op)
      ensures RedactOption(red, Step(red, jobs, op)[id].scope) == Step(red, jobs, op)[id].scope
    {
      if !op.Create? { RowKeepsScope(red, jobs, op, id); }
    }
  }

  /** Only a claim starts a job, and it starts one whose scope is free. */
  lemma StartsOnlyByClaim(red: Redactor, jobs: map<string, Job>, op: Op, id: string)
    requires ScopesSettled(red, jobs) && (op.Create? ==> Fresh(op.job))
    requires id in Step(red, jobs, op) && Step(red, jobs, op)[id].status.Running?
    ensures id in jobs && Step(red, jobs, op)[id].scope == jobs[id].scope
    ensures jobs[id].status.Running? || (op.ClaimNext? && Next(jobs, op.now, op.kinds) == Some(id))
  {
    if !op.Create? { RowKeepsScope(red, jobs, op, id); }
  }

  lemma StepKeepsExclusion(red: Redactor, jobs: map<string, Job>, op: Op)
    requires ScopesSettled(red, jobs) && Exclusive(jobs) && (op.Create? ==> Fresh(op.job))
    ensures Exclusive(Step(red, jobs, op))
  {
    var now := Step(red, jobs, op);
    forall a, b | a in now && b in now && a != b && now[a].status.Running? && now[b].status.Running?
      ensures now[a].scope.None? || now[a].scope != now[b].scope
    {
      StartsOnlyByClaim(red, jobs, op, a);
      StartsOnlyByClaim(red, jobs, op, b);
      if !jobs[a].status.Running? {
        assert Eligible(jobs, op.now, op.kinds, a);
      } else if !jobs[b].status.Running? {
        assert Eligible(jobs, op.now, op.kinds, b);
      }
    }
  }

  lemma {:induction false} LogReachable(red: Redactor, ops: seq<Op>)
    requires QueueRuns.Admissible(ops) && SteadyCreations(red, ops)
    ensures ScopesSettled(red, LogAfter(red, ops)) && Exclusive(LogAfter(red, ops))
  {
    if ops != [] {
      var before, op := ops[..|ops| - 1], ops[|ops| - 1];
      LogReachable(red, before);
      StepKeepsScopes(red, LogAfter(red, before), op);
      StepKeepsExclusion(red, LogAfter(red, before), op);
    }
  }

  /** No two running jobs of the log share a scope, whatever else redaction rewrites. */
  lemma LogOneRunnerPerScope(red: Redactor, ops: seq<Op>, a: string, b: string)
    requires QueueRuns.Admissible(ops) && SteadyCreations(red, ops)
    requires a in LogAfter(red, ops) && b in LogAfter(red, ops) && a != b
    requires LogAfter(red, ops)[a].status.Running? && LogAfter(red, ops)[b].status.Running?
    requires LogAfter(red, ops)[a].scope.Some?
    ensures LogAfter(red, ops)[a].scope != LogAfter(red, ops)[b].scope
  {
    LogReachable(red, ops);
  }

  // ---- attempts, effects, gates and success ----

  /** Redaction leaves the ids of created jobs alone. */
  predicate FixedIds(red: Redactor, ops: seq<Op>) {
    forall i :: 0 <= i < |ops| && ops[i].Create? ==> red(ops[i].job.id) == ops[i].job.id
  }

  ghost predicate Takes(red: Redactor, jobs: map<string, Job>, op: Op, id: string) {
    op.ClaimNext? && Reply(red, jobs, op) == Claim(Some(id))
  }

  ghost function Claims(red: Redactor, ops: seq<Op>, id: string): nat {
    if ops == [] then 0
    else Claims(red, ops[..|ops| - 1], id) +
         if Takes(red, LogAfter(red, ops[..|ops| - 1]), ops[|ops| - 1], id) then 1 else 0
  }

  ghost predicate RowsOk(jobs: map<string, Job>) {
    forall id :: id in jobs ==> QueueRuns.RowOk(jobs[id])
  }

  lemma RowKept(red: Redactor, jobs: map<string, Job>, op: Op, id: string)
    requires id in jobs && QueueRuns.RowOk(jobs[id])
    ensures
      var j, j' := jobs[id], Row(red, jobs, op, id);
      && QueueRuns.RowOk(j') && j'.maxAttempts == j.maxAttempts && j'.effect == j.effect
      && j'.attempt == j.attempt + if Takes(red, jobs, op, id) then 1 else 0
  {
    if OnOneJob(op) && op.id == id { ImageKept(red, op, jobs[id]); }
  }

  lemma ImageKept(red: Redactor, op: Op, j: Job)
    requires OnOneJob(op) && QueueRuns.RowOk(j)
    ensures
      var j' := Image(red, op, j);
      && QueueRuns.RowOk(j') && j'.maxAttempts == j.maxAttempts && j'.effect == j.effect && j'.attempt == j.attempt
  {
  }

  lemma StepKeepsRows(red: Redactor, jobs: map<string, Job>, op: Op)
    requires RowsOk(jobs) && (op.Create? ==> Fresh(op.job))
    ensures RowsOk(Step(red, jobs, op))
  {
    forall id | id in Step(red, jobs, op) ensures QueueRuns.RowOk(Step(red, jobs, op)[id]) {
      if !op.Create? { RowKept(red, jobs, op, id); }
    }
  }

  /**
   * In every reachable view a job runs iff worker and lease are set, and `attempt` counts its claims up
   * to the limit.
   */
  lemma {:induction false} LogAttemptIsClaimCount(red: Redactor, ops: seq<Op>, id: string)
    requires QueueRuns.Admissible(ops) && FixedIds(red, ops)
    ensures RowsOk(LogAfter(red, ops))
    ensures
      var jobs := LogAfter(red, ops);
      && (id in jobs ==> Claims(red, ops, id) == jobs[id].attempt <= jobs[id].maxAttempts <= 3)
      && (id !in jobs ==> Claims(red, ops, id) == 0)
  {
    if ops != [] {
      var before, op := ops[..|ops| - 1], ops[|ops| - 1];
      LogAttemptIsClaimCount(red, before, id);
      StepKeepsRows(red, LogAfter(red, before), op);
      if id in LogAfter(red, before) && !op.Create? { RowKept(red, LogAfter(red, before), op, id); }
    }
    if id in LogAfter(red, ops) { assert QueueRuns.RowOk(LogAfter(red, ops)[id]); }
  }

  /** A cloud write, exchange order or emergency control is handed out at most once. */
  lemma LogUnsafeEffectsClaimedOnce(red: Redactor, ops: seq<Op>, id: string)
    requires QueueRuns.Admissible(ops) && FixedIds(red, ops)
    requires id in LogAfter(red, ops) && Unsafe(LogAfter(red, ops)[id].effect)
    ensures Claims(red, ops, id) <= 1
  {
    LogAttemptIsClaimCount(red, ops, id);
    assert QueueRuns.RowOk(LogAfter(red, ops)[id]);
  }

  lemma ClaimsLonger(red: Redactor, ops: seq<Op>, op: Op, id: string)
    ensures Claims(red, ops + [op], id) ==
            Claims(red, ops, id) + if Takes(red, LogAfter(red, ops), op, id) then 1 else 0
  {
    assert (ops + [op])[..|ops + [op]| - 1] == ops;
  }

  lemma WithheldStep(red: Redactor, jobs: map<string, Job>, op: Op, id: string, gate: Gate)
    requires !gate.Ready? && id in jobs && QueueRuns.Withheld(jobs[id], gate)
    requires op.Create? ==> red(op.job.id) == op.job.id
    ensures id in Step(red, jobs, op) && QueueRuns.Withheld(Step(red, jobs, op)[id], gate) && !Takes(red, jobs, op, id)
  {
  }

  lemma {:induction false} WithheldStays(red: Redactor, ops: seq<Op>, more: seq<Op>, id: string, gate: Gate)
    requires !gate.Ready? && id in LogAfter(red, ops) && QueueRuns.Withheld(LogAfter(red, ops)[id], gate)
    requires FixedIds(red, more)
    ensures id in LogAfter(red, ops + more) && QueueRuns.Withheld(LogAfter(red, ops + more)[id], gate)
    ensures Claims(red, ops + more, id) == Claims(red, ops, id)
    decreases |more|
  {
    if more == [] {
      assert ops + more == ops;
    } else {
      var shorter, op := more[..|more| - 1], more[|more| - 1];
      assert ops + more == ops + shorter + [op];
      WithheldStays(red, ops, shorter, id, gate);
      Longer(red, ops + shorter, op);
      ClaimsLonger(red, ops + shorter, op, id);
      WithheldStep(red, LogAfter(red, ops + shorter), op, id, gate);
    }
  }

  /** Without the authorization or verification its kind needs, a submitted job is never claimed. */
  lemma LogUnauthorizedNeverRuns(red: Redactor, ops: seq<Op>, job: Job, more: seq<Op>, secretLike: string -> bool,
                                 r: Request, limit: int, root: string, now: string, path: string)
    requires QueueRuns.Admissible(ops) && FixedIds(red, ops) && FixedIds(red, more) && red(job.id) == job.id
    requires Submit(secretLike, r, limit, root, job.id, now, path) == Some(job) && job.id !in LogAfter(red, ops)
    requires (NeedsAuthorization(r.kind) && r.authorizationRef.None?) || (r.kind.CloudWrite? && r.verificationJob.None?)
    ensures
      var run := ops + [Create(job)] + more;
      && job.id in LogAfter(red, run) && !LogAfter(red, run)[job.id].status.Running?
      && Claims(red, run, job.id) == 0
  {
    Longer(red, ops, Create(job));
    ClaimsLonger(red, ops, Create(job), job.id);
    SubmittedJobs(secretLike, r, limit, root, job.id, now, path);
    LogAttemptIsClaimCount(red, ops, job.id);
    WithheldStays(red, ops + [Create(job)], more, job.id, job.gate);
  }

  predicate Succeeded(jobs: map<string, Job>, id: string) {
    id in jobs && jobs[id].status.Succeeded?
  }

  predicate SucceededWith(jobs: map<string, Job>, id: string, result: Json) {
    Succeeded(jobs, id) && jobs[id].result == Some(result)
  }

  lemma SucceededStep(red: Redactor, jobs: map<string, Job>, op: Op, id: string, result: Json)
    requires Succeeded(jobs, id) && (op.Create? ==> red(op.job.id) == op.job.id)
    ensures Succeeded(Step(red, jobs, op), id)
    ensures SucceededWith(jobs, id, result) && red(result) == result ==> SucceededWith(Step(red, jobs, op), id, result)
  {
  }

  /** Success is final in the log, whatever redaction does to the result ... */
  lemma {:induction false} LogSuccessIsFinal(red: Redactor, ops: seq<Op>, more: seq<Op>, id: string, result: Json)
    requires Succeeded(LogAfter(red, ops), id) && FixedIds(red, more)
    ensures Succeeded(LogAfter(red, ops + more), id)
    ensures SucceededWith(LogAfter(red, ops), id, result) && red(result) == result ==>
              SucceededWith(LogAfter(red, ops + more), id, result)
    decreases |more|
  {
    if more == [] {
      assert ops + more == ops;
    } else {
      var shorter, op := more[..|more| - 1], more[|more| - 1];
      assert ops + more == ops + shorter + [op];
      LogSuccessIsFinal(red, ops, shorter, id, result);
      Longer(red, ops + shorter, op);
      SucceededStep(red, LogAfter(red, ops + shorter), op, id, result);
    }
  }

  /** ... and the stored result survives every continuation exactly when redaction leaves it alone. */
  lemma LogResultIsFinalIff(red: Redactor, ops: seq<Op>, id: string, result: Json)
    requires SucceededWith(LogAfter(red, ops), id, result)
    ensures (forall more :: FixedIds(red, more) ==> SucceededWith(LogAfter(red, ops + more), id, result)) <==>
            red(result) == result
  {
    if red(result) == result {
      forall more | FixedIds(red, more) ensures SucceededWith(LogAfter(red, ops + more), id, result) {
        LogSuccessIsFinal(red, ops, more, id, result);
      }
    } else {
      Longer(red, ops, Cancel(id, ""));
      CancelRewrites(red, LogAfter(red, ops), id, result);
      assert FixedIds(red, [Cancel(id, "")]);
    }
  }

  /** A cancellation that comes too late still writes the job again, redacted once more. */
  lemma CancelRewrites(red: Redactor, jobs: map<string, Job>, id: string, result: Json)
    requires SucceededWith(jobs, id, result)
    ensures SucceededWith(Step(red, jobs, Cancel(id, "")), id, red(result))
  {
    StepOnOne(red, jobs, Cancel(id, ""));
  }

  /** The results that the run reports are settled by one redaction. */
  predicate SteadyReports(red: Redactor, ops: seq<Op>) {
    forall i :: 0 <= i < |ops| ==>
      && (ops[i].MarkSuccess? ==> Steady(red, ops[i].result))
      && (ops[i].MarkFailure? ==> SteadyOption(red, ops[i].envelope))
  }

  lemma ResultsStep(red: Redactor, jobs: map<string, Job>, op: Op, id: string)
    requires id in jobs && RedactOption(red, jobs[id].result) == jobs[id].result && !op.Create?
    requires op.MarkSuccess? ==> Steady(red, op.result)
    requires op.MarkFailure? ==> SteadyOption(red, op.envelope)
    ensures RedactOption(red, Row(red, jobs, op, id).result) == Row(red, jobs, op, id).result
  {
  }

  /** Then redaction leaves every stored result alone, and a success is final with its result. */
  lemma {:induction false} LoggedResultsSettled(red: Redactor, ops: seq<Op>, id: string)
    requires QueueRuns.Admissible(ops) && SteadyReports(red, ops) && id in LogAfter(red, ops)
    ensures RedactOption(red, LogAfter(red, ops)[id].result) == LogAfter(red, ops)[id].result
  {
    if ops != [] {
      var before, op := ops[..|ops| - 1], ops[|ops| - 1];
      if id in LogAfter(red, before) {
        LoggedResultsSettled(red, before, id);
        if !op.Create? { ResultsStep(red, LogAfter(red, before), op, id); }
      }
    }
  }

  // ---- owners and leases ----

  /** Redaction leaves the names of claiming workers alone. */
  predicate FixedWorkers(red: Redactor, ops: seq<Op>) {
    forall i :: 0 <= i < |ops| && ops[i].ClaimNext? ==> red(ops[i].worker) == ops[i].worker
  }

  ghost function LastClaimant(red: Redactor, ops: seq<Op>, id: string): Option<string> {
    if ops == [] then None
    else if Takes(red, LogAfter(red, ops[..|ops| - 1]), ops[|ops| - 1], id) then Some(ops[|ops| - 1].worker)
    else LastClaimant(red, ops[..|ops| - 1], id)
  }

  lemma RunnerAfterStep(red: Redactor, jobs: map<string, Job>, op: Op, id: string)
    requires id in jobs && QueueRuns.RowOk(jobs[id]) && !op.Create? && Row(red, jobs, op, id).status.Running?
    requires RedactOption(red, jobs[id].worker) == jobs[id].worker
    requires op.ClaimNext? ==> red(op.worker) == op.worker
    ensures Takes(red, jobs, op, id) || jobs[id].status.Running?
    ensures Row(red, jobs, op, id).worker == if Takes(red, jobs, op, id) then Some(op.worker) else jobs[id].worker
  {
  }

  /** A running job of the log belongs to the worker of its latest claim. */
  lemma {:induction false} LogRunnerIsLatestClaimant(red: Redactor, ops: seq<Op>, id: string)
    requires QueueRuns.Admissible(ops) && FixedIds(red, ops) && FixedWorkers(red, ops)
    requires id in LogAfter(red, ops) && LogAfter(red, ops)[id].status.Running?
    ensures LogAfter(red, ops)[id].worker == LastClaimant(red, ops, id)
    ensures RedactOption(red, LogAfter(red, ops)[id].worker) == LogAfter(red, ops)[id].worker
  {
    var before, op := ops[..|ops| - 1], ops[|ops| - 1];
    LogAttemptIsClaimCount(red, before, id);
    var jobs := LogAfter(red, before);
    if id in jobs {
      if jobs[id].status.Running? { LogRunnerIsLatestClaimant(red, before, id); }
      assert QueueRuns.RowOk(jobs[id]);
      if !op.Create? { RunnerAfterStep(red, jobs, op, id); }
    }
  }

  /** A call by a worker that does not hold the job is refused; it only stamps and redacts the record once more. */
  lemma LogStaleCallsChangeNothing(red: Redactor, jobs: map<string, Job>, op: Op)
    requires op.Heartbeat? || op.MarkSuccess? || op.MarkFailure?
    requires op.id in jobs && jobs[op.id].status.Running? && jobs[op.id].worker != Some(op.worker)
    ensures Reply(red, jobs, op) == Flag(false)
    ensures Step(red, jobs, op) == jobs[op.id := RedactJob(red, jobs[op.id].(updated := op.wall))]
  {
    StepOnOne(red, jobs, op);
  }

  /** The job runs for `owner` on the lease text `lease`, and redaction leaves both alone. */
  predicate HeldUntil(red: Redactor, jobs: map<string, Job>, id: string, owner: string, lease: string) {
    && id in jobs && jobs[id].status.Running? && red(owner) == owner && red(lease) == lease
    && jobs[id].worker == Some(owner) && jobs[id].lease == Some(lease)
  }

  lemma HarmlessKeeps(red: Redactor, jobs: map<string, Job>, op: Op, id: string, owner: string, lease: string)
    requires HeldUntil(red, jobs, id, owner, lease) && QueueRuns.Harmless(op, id, owner, lease)
    requires op.Create? ==> red(op.job.id) == op.job.id
    ensures HeldUntil(red, Step(red, jobs, op), id, owner, lease)
  {
  }

  lemma {:induction false} StaysHeld(red: Redactor, ops: seq<Op>, more: seq<Op>, id: string, owner: string,
                                     lease: string)
    requires HeldUntil(red, LogAfter(red, ops), id, owner, lease) && FixedIds(red, more)
    requires QueueRuns.AllHarmless(more, id, owner, lease)
    ensures HeldUntil(red, LogAfter(red, ops + more), id, owner, lease)
    decreases |more|
  {
    if more == [] {
      assert ops + more == ops;
    } else {
      var shorter, op := more[..|more| - 1], more[|more| - 1];
      assert ops + more == ops + shorter + [op];
      StaysHeld(red, ops, shorter, id, owner, lease);
      Longer(red, ops + shorter, op);
      HarmlessKeeps(red, LogAfter(red, ops + shorter), op, id, owner, lease);
    }
  }

  /** The sweep reports the job, and the job stops running. */
  ghost predicate Swept(red: Redactor, jobs: map<string, Job>, id: string, at: string) {
    var op := RecoverExpired(at);
    && Reply(red, jobs, op).Recovered? && id in Reply(red, jobs, op).ids
    && id in Step(red, jobs, op) && !Step(red, jobs, op)[id].status.Running?
  }

  lemma SweptText(red: Redactor, jobs: map<string, Job>, id: string, owner: string, lease: string, at: string)
    requires HeldUntil(red, jobs, id, owner, lease) && lease != ""
    ensures Swept(red, jobs, id, at) <==> Less(lease, at)
  {
  }

  /** As in the table: held through every harmless run, and then recovered exactly when the lease is over. */
  lemma LogSweepRecoversExactlyLateJobs(red: Redactor, ops: seq<Op>, more: seq<Op>, id: string, owner: string,
                                        until: UtcIso.Instant, later: UtcIso.Instant)
    requires HeldUntil(red, LogAfter(red, ops), id, owner, UtcIso.Iso(until)) && FixedIds(red, more)
    requires QueueRuns.AllHarmless(more, id, owner, UtcIso.Iso(until))
    ensures HeldUntil(red, LogAfter(red, ops + more), id, owner, UtcIso.Iso(until))
    ensures Swept(red, LogAfter(red, ops + more), id, UtcIso.Iso(later)) <==> later > until
  {
    StaysHeld(red, ops, more, id, owner, UtcIso.Iso(until));
    UtcIso.TextOrderIsTimeOrder(until, later);
    UtcIso.TextOrderIsTimeOrder(until, until);
    NonEmptyIso(until);
    SweptText(red, LogAfter(red, ops + more), id, owner, UtcIso.Iso(until), UtcIso.Iso(later));
  }

  lemma NonEmptyIso(t: UtcIso.Instant)
    ensures UtcIso.Iso(t) != ""
  {
    assert |UtcIso.TimeText(t % UtcIso.MS_PER_DAY)| >= 1;
  }

  // ---- what the log may hold ----

  ghost predicate Passed(red: Redactor, s: string) {
    exists x :: s == red(x)
  }

  ghost predicate PassedIfAny(red: Redactor, s: Option<string>) {
    s.Some? ==> Passed(red, s.value)
  }

  /** Every text of the record went through redaction, and the authorization is masked. */
  ghost predicate Masked(red: Redactor, j: Job) {
    && Passed(red, j.id) && Passed(red, j.created) && Passed(red, j.updated) && Passed(red, j.text)
    && (forall s | s in {j.schema, j.lease, j.worker, j.conversation, j.resultPath, j.headSha, j.errorCode, j.stderr,
                         j.started, j.finished, j.nextAttempt, j.scope, j.verificationJob, j.result} ::
          PassedIfAny(red, s))
    && j.authorizationRef == Some("<REDACTED>")
  }

  lemma ImageIsMasked(red: Redactor, j: Job)
    ensures Masked(red, RedactJob(red, j))
  {
    assert forall x :: Passed(red, red(x));
  }

  /** Where redaction does nothing the image is the record itself, the authorization aside. */
  lemma PlainImage(red: Redactor, j: Job)
    requires forall s :: red(s) == s
    ensures RedactJob(red, j) == j.(authorizationRef := Some("<REDACTED>"))
  {
  }

  /** Over every run: no text reaches the log but through redaction, in whichever field. */
  lemma {:induction false} LogHoldsNothingUnredacted(red: Redactor, ops: seq<Op>, id: string)
    requires id in LogAfter(red, ops)
    ensures Masked(red, LogAfter(red, ops)[id])
  {
    var before, op := ops[..|ops| - 1], ops[|ops| - 1];
    var jobs := LogAfter(red, before);
    if id in jobs { LogHoldsNothingUnredacted(red, before, id); }
    RowIsImage(red, jobs, op, id);
  }

  lemma RowIsImage(red: Redactor, jobs: map<string, Job>, op: Op, id: string)
    requires id in Step(red, jobs, op) && (id in jobs ==> Masked(red, jobs[id]))
    ensures Masked(red, Step(red, jobs, op)[id])
  {
    forall j: Job ensures Masked(red, RedactJob(red, j)) { ImageIsMasked(red, j); }
  }

  // ---- exactly when ----

  /** A bare job record. */
  function Bare(id: string, kind: Kind, scope: string): Job {
    Job(id, "", "", "", None, Pending, 0, 1, None, None, None, None, None, None, None, None, None, None, Some(scope),
        kind, EffectOf(kind), Ready, None, None, None)
  }

  function ClaimOf(kind: Kind): Op {
    ClaimNext("w", "", Some("l"), Some({kind}))
  }

  lemma OnlyOneNext(jobs: map<string, Job>, now: string, kinds: Option<set<Kind>>, id: string)
    requires Eligible(jobs, now, kinds, id) && forall other :: Eligible(jobs, now, kinds, other) ==> other == id
    ensures Next(jobs, now, kinds) == Some(id)
  {
    assert IsNext(jobs, now, kinds, id);
  }

  lemma FourSteps(red: Redactor, a: Op, b: Op, c: Op, d: Op)
    ensures LogAfter(red, [a, b, c, d]) == Step(red, Step(red, Step(red, Step(red, map[], a), b), c), d)
  {
    assert [] + [a] == [a] && [a] + [b] == [a, b] && [a, b] + [c] == [a, b, c] && [a, b, c] + [d] == [a, b, c, d];
    Longer(red, [], a);
    Longer(red, [a], b);
    Longer(red, [a, b], c);
    Longer(red, [a, b, c], d);
  }

  function TwiceOn(x: string, a: string, b: string): seq<Op> {
    [Create(Bare(a, ReadOnly, x)), Create(Bare(b, VerifyExternal, x)), ClaimOf(ReadOnly), ClaimOf(VerifyExternal)]
  }

  /** Two jobs on one scope text that redaction rewrites twice, each claimed: both run, on the same scope. */
  lemma TwiceRewrittenScopeRunsTwice(red: Redactor, x: string, a: string, b: string)
    requires a != b && red(a) == a && red(b) == b && !Steady(red, x)
    ensures !Exclusive(LogAfter(red, TwiceOn(x, a, b)))
  {
    var ja, jb := RedactJob(red, Bare(a, ReadOnly, x)), RedactJob(red, Bare(b, VerifyExternal, x));
    FourSteps(red, Create(Bare(a, ReadOnly, x)), Create(Bare(b, VerifyExternal, x)), ClaimOf(ReadOnly),
              ClaimOf(VerifyExternal));
    TwoCreated(red, Bare(a, ReadOnly, x), Bare(b, VerifyExternal, x));
    TwoBare(red, x, a, b, ja, jb);
    SharedScope(LogAfter(red, TwiceOn(x, a, b)), a, b);
  }

  lemma SharedScope(jobs: map<string, Job>, a: string, b: string)
    requires a in jobs && b in jobs && a != b && jobs[a].status.Running? && jobs[b].status.Running?
    requires jobs[a].scope.Some? && jobs[a].scope == jobs[b].scope
    ensures !Exclusive(jobs)
  {
  }

  lemma TwoCreated(red: Redactor, a: Job, b: Job)
    requires a.id != b.id && red(a.id) == a.id && red(b.id) == b.id
    ensures Step(red, Step(red, map[], Create(a)), Create(b)) ==
            map[a.id := RedactJob(red, a), b.id := RedactJob(red, b)]
  {
  }

  lemma TwoBare(red: Redactor, x: string, a: string, b: string, ja: Job, jb: Job)
    requires a != b && !Steady(red, x) && red(a) == a && red(b) == b
    requires ja == RedactJob(red, Bare(a, ReadOnly, x)) && jb == RedactJob(red, Bare(b, VerifyExternal, x))
    ensures
      var v := Step(red, Step(red, map[a := ja, b := jb], ClaimOf(ReadOnly)), ClaimOf(VerifyExternal));
      && a in v && b in v && v[a].status.Running? && v[b].status.Running?
      && v[a].scope == Some(red(red(x))) && v[b].scope == Some(red(red(x)))
  {
    var jobs := map[a := ja, b := jb];
    OnlyOneNext(jobs, "", Some({ReadOnly}), a);
    var ra := RedactJob(red, ClaimedJob(ja, "w", "", Some("l")));
    assert Step(red, jobs, ClaimOf(ReadOnly)) == map[a := ra, b := jb];
    var jobs' := map[a := ra, b := jb];
    OnlyOneNext(jobs', "", Some({VerifyExternal}), b);
    var rb := RedactJob(red, ClaimedJob(jb, "w", "", Some("l")));
    assert Step(red, jobs', ClaimOf(VerifyExternal)) == map[a := ra, b := rb];
  }

  /** The log keeps scopes apart in every run exactly when redaction is idempotent. */
  lemma LogExclusionIff(red: Redactor, a: string, b: string)
    requires a != b && red(a) == a && red(b) == b
    ensures (forall ops :: QueueRuns.Admissible(ops) ==> Exclusive(LogAfter(red, ops))) <==> Idempotent(red)
  {
    if Idempotent(red) {
      forall ops | QueueRuns.Admissible(ops) ensures Exclusive(LogAfter(red, ops)) {
        LogReachable(red, ops);
      }
    } else {
      var x :| !Steady(red, x);
      TwiceRewrittenScopeRunsTwice(red, x, a, b);
      assert QueueRuns.Admissible(TwiceOn(x, a, b));
    }
  }
}

/**
 * What a claim hands out, in both back ends, and which jobs can be handed out again: the claims and
 * recoveries of apps/agy_queue/storage.py for the jobs that apps/agy_queue/service.py submits.
 */
module QueueClaims {
  import opened Common
  import opened TextOrder
  import opened QueueModel
  import opened SqliteQueue
  import opened QueueRuns
  import L = JsonlQueue
  import LogRuns

  // ---- the order of claims ----

  /** SQLite hands out `x` exactly when nothing holds it back and all else that is open was created later. */
  lemma ClaimIff(red: Redactor, t: Table, op: Op, x: string)
    requires op.ClaimNext? && op.lease.Some?
    ensures Reply(red, t, op) == Claim(Some(x)) <==>
            x in t.jobs && !HeldBack(t.jobs, op.now, op.kinds, x)
            && forall y :: y in t.jobs && y != x && !HeldBack(t.jobs, op.now, op.kinds, y) ==> Earlier(t.jobs, x, y)
    ensures Reply(red, t, op) == Claim(None) <==> forall y :: y in t.jobs ==> HeldBack(t.jobs, op.now, op.kinds, y)
  {
    NextIff(t.jobs, op.now, op.kinds, x);
  }

  /** So does the log. */
  lemma LogClaimIff(red: Redactor, jobs: map<string, Job>, op: Op, x: string)
    requires op.ClaimNext? && op.lease.Some?
    ensures L.Reply(red, jobs, op) == Claim(Some(x)) <==>
            x in jobs && !HeldBack(jobs, op.now, op.kinds, x)
            && forall y :: y in jobs && y != x && !HeldBack(jobs, op.now, op.kinds, y) ==> Earlier(jobs, x, y)
    ensures L.Reply(red, jobs, op) == Claim(None) <==> forall y :: y in jobs ==> HeldBack(jobs, op.now, op.kinds, y)
  {
    NextIff(jobs, op.now, op.kinds, x);
  }

  const NEW_YEAR := "2025-01-01T00:00:00.000Z"
  const NEXT_DAY := "2025-01-02T00:00:00.000Z"

  lemma NewYearFirst()
    ensures Less(NEW_YEAR, NEXT_DAY)
  {
    assert NEW_YEAR[..9] == NEXT_DAY[..9] && NEW_YEAR[9] < NEXT_DAY[9];
    LessIff(NEW_YEAR, NEXT_DAY);
  }

  predicate Waiting(j: Job) {
    j.status == Pending && j.gate == Ready && j.attempt < j.maxAttempts && j.nextAttempt.None?
  }

  lemma OlderOfTwo(jobs: map<string, Job>, now: string, a: string, b: string)
    requires jobs.Keys == {a, b} && Waiting(jobs[a]) && Waiting(jobs[b]) && Less(jobs[a].created, jobs[b].created)
    ensures Next(jobs, now, None) == Some(a)
  {
    NextIff(jobs, now, None, a);
  }

  /** A bare READY job of that creation time. */
  function CreatedAt(id: string, created: string): Job {
    LogRuns.Bare(id, ReadOnly, id).(created := created)
  }

  lemma TwoRows(red: Redactor, a: Job, b: Job)
    requires a.id != b.id && Fresh(a) && Fresh(b)
    ensures After(red, [Create(a), Create(b)]).jobs == map[a.id := Inserted(red, a), b.id := Inserted(red, b)]
  {
    assert [] + [Create(a)] == [Create(a)] && [Create(a)] + [Create(b)] == [Create(a), Create(b)];
    Extend(red, [], Create(a));
    Extend(red, [Create(a)], Create(b));
  }

  lemma TwoLogRows(red: Redactor, a: Job, b: Job)
    requires a.id != b.id && red(a.id) == a.id && red(b.id) == b.id
    ensures LogRuns.LogAfter(red, [Create(a), Create(b)]) ==
            map[a.id := L.RedactJob(red, a), b.id := L.RedactJob(red, b)]
  {
    assert [] + [Create(a)] == [Create(a)] && [Create(a)] + [Create(b)] == [Create(a), Create(b)];
    LogRuns.Longer(red, [], Create(a));
    LogRuns.Longer(red, [Create(a)], Create(b));
  }

  lemma TwoLogJobs(red: Redactor, a: string, b: string, ca: string, cb: string)
    requires a != b && red(a) == a && red(b) == b && red(ca) == ca && red(cb) == cb
    ensures
      var jobs := LogRuns.LogAfter(red, [Create(CreatedAt(a, ca)), Create(CreatedAt(b, cb))]);
      && jobs.Keys == {a, b} && Waiting(jobs[a]) && Waiting(jobs[b])
      && jobs[a].created == ca && jobs[b].created == cb
  {
    TwoLogRows(red, CreatedAt(a, ca), CreatedAt(b, cb));
  }

  /** Two READY jobs: the older one goes first, though it was filed second and whatever the ids. */
  lemma OlderFirstRun(red: Redactor, a: string, b: string, early: string, late: string, claim: Op)
    requires a != b && Less(early, late) && claim.ClaimNext? && claim.lease.Some? && claim.kinds.None?
    ensures Reply(red, After(red, [Create(CreatedAt(b, late)), Create(CreatedAt(a, early))]), claim) == Claim(Some(a))
  {
    var older, newer := CreatedAt(a, early), CreatedAt(b, late);
    TwoRows(red, newer, older);
    OlderOfTwo(map[newer.id := Inserted(red, newer), older.id := Inserted(red, older)], claim.now, a, b);
  }

  /** So it is from the log. */
  lemma LogOlderFirstRun(red: Redactor, a: string, b: string, early: string, late: string, claim: Op)
    requires a != b && Less(early, late) && claim.ClaimNext? && claim.lease.Some? && claim.kinds.None?
    requires red(a) == a && red(b) == b && red(early) == early && red(late) == late
    ensures L.Reply(red, LogRuns.LogAfter(red, [Create(CreatedAt(b, late)), Create(CreatedAt(a, early))]), claim)
            == Claim(Some(a))
  {
    var jobs := LogRuns.LogAfter(red, [Create(CreatedAt(b, late)), Create(CreatedAt(a, early))]);
    TwoLogJobs(red, b, a, late, early);
    LogAnswersOlder(red, jobs, a, b, claim);
  }

  lemma LogAnswersOlder(red: Redactor, jobs: map<string, Job>, a: string, b: string, claim: Op)
    requires jobs.Keys == {a, b} && Waiting(jobs[a]) && Waiting(jobs[b]) && Less(jobs[a].created, jobs[b].created)
    requires claim.ClaimNext? && claim.lease.Some? && claim.kinds.None?
    ensures L.Reply(red, jobs, claim) == Claim(Some(a))
  {
    OlderOfTwo(jobs, claim.now, a, b);
  }

  /** For instance, one job of New Year's Day and one of the day after. */
  lemma NewYearRun(red: Redactor, claim: Op)
    requires claim.ClaimNext? && claim.lease.Some? && claim.kinds.None?
    ensures
      var ops := [Create(CreatedAt("b", NEXT_DAY)), Create(CreatedAt("a", NEW_YEAR))];
      && Reply(red, After(red, ops), claim) == Claim(Some("a"))
      && ((forall s | s in {"a", "b", NEW_YEAR, NEXT_DAY} :: red(s) == s) ==>
            L.Reply(red, LogRuns.LogAfter(red, ops), claim) == Claim(Some("a")))
  {
    NewYearFirst();
    OlderFirstRun(red, "a", "b", NEW_YEAR, NEXT_DAY, claim);
    if forall s | s in {"a", "b", NEW_YEAR, NEXT_DAY} :: red(s) == s {
      LogOlderFirstRun(red, "a", "b", NEW_YEAR, NEXT_DAY, claim);
    }
  }

  // ---- effects by kind ----

  lemma AdmissibleBoth(ops: seq<Op>, more: seq<Op>)
    requires Admissible(ops) && Admissible(more)
    ensures Admissible(ops + more)
  {
  }

  /** A row keeps its effect and its limit. */
  lemma {:induction false} EffectStays(red: Redactor, ops: seq<Op>, more: seq<Op>, id: string)
    requires Admissible(ops) && Admissible(more) && id in After(red, ops).jobs
    ensures id in After(red, ops + more).jobs
    ensures After(red, ops + more).jobs[id].effect == After(red, ops).jobs[id].effect
    ensures After(red, ops + more).jobs[id].maxAttempts == After(red, ops).jobs[id].maxAttempts
    decreases |more|
  {
    if more == [] {
      assert ops + more == ops;
    } else {
      var shorter, op := more[..|more| - 1], more[|more| - 1];
      assert ops + more == ops + shorter + [op];
      EffectStays(red, ops, shorter, id);
      AdmissibleBoth(ops, shorter);
      Reachable(red, ops + shorter);
      Extend(red, ops + shorter, op);
      AttemptsCountClaim(red, After(red, ops + shorter), op, id);
    }
  }

  /** What `more` makes of a job that the service submits after `ops`. */
  lemma SubmittedRow(red: Redactor, ops: seq<Op>, job: Job, more: seq<Op>, secretLike: string -> bool, r: Request,
                     limit: int, root: string, now: string, path: string)
    requires Admissible(ops) && Admissible(more) && job.id !in After(red, ops).jobs
    requires Submit(secretLike, r, limit, root, job.id, now, path) == Some(job)
    ensures
      var run := ops + [Create(job)] + more;
      && Admissible(run) && job.id in After(red, run).jobs
      && (Unsafe(After(red, run).jobs[job.id].effect) <==> r.kind == CloudWrite)
      && After(red, run).jobs[job.id].maxAttempts == r.maxAttempts
      && Claims(red, run, job.id) == After(red, run).jobs[job.id].attempt
  {
    var start := ops + [Create(job)];
    SubmittedJobs(secretLike, r, limit, root, job.id, now, path);
    Extend(red, ops, Create(job));
    AdmissibleBoth(ops, [Create(job)]);
    AdmissibleBoth(start, more);
    EffectStays(red, start, more, job.id);
    AttemptIsClaimCount(red, start + more, job.id);
  }

  /** A submitted cloud write is handed out at most once in any run, whatever its limit. */
  lemma CloudWriteClaimedOnce(red: Redactor, ops: seq<Op>, job: Job, more: seq<Op>, secretLike: string -> bool,
                              r: Request, limit: int, root: string, now: string, path: string)
    requires Admissible(ops) && Admissible(more) && job.id !in After(red, ops).jobs
    requires Submit(secretLike, r, limit, root, job.id, now, path) == Some(job) && r.kind == CloudWrite
    ensures Claims(red, ops + [Create(job)] + more, job.id) <= 1
  {
    SubmittedRow(red, ops, job, more, secretLike, r, limit, root, now, path);
    UnsafeEffectsClaimedOnce(red, ops + [Create(job)] + more, job.id);
  }

  /** What a sweep at `at` makes of an expired job. */
  predicate SweptTo(j: Job, again: bool, code: string, at: string) {
    && j.lease.None? && j.worker.None? && j.errorCode == Some(code)
    && if again then j.status == Pending && j.gate == Ready && j.nextAttempt == Some(at)
       else j.status == Failed && j.gate == Blocked && j.finished == Some(at)
  }

  /**
   * In any run, once a submitted job has lost its lease: a cloud write fails as uncertain; any other
   * job goes back to the queue while it has been claimed less often than it was submitted for, and
   * fails as exhausted after that.
   */
  lemma SweptByKind(red: Redactor, ops: seq<Op>, job: Job, more: seq<Op>, secretLike: string -> bool, r: Request,
                    limit: int, root: string, now: string, path: string, at: string)
    requires Admissible(ops) && Admissible(more) && job.id !in After(red, ops).jobs
    requires Submit(secretLike, r, limit, root, job.id, now, path) == Some(job)
    ensures
      var run := ops + [Create(job)] + more;
      job.id in After(red, run).jobs &&
      var j := After(red, run).jobs[job.id];
      j.status == Running && j.lease.Some? && Less(j.lease.value, at) ==>
        SweptTo(Step(red, After(red, run), RecoverExpired(at)).jobs[job.id],
                r.kind != CloudWrite && Claims(red, run, job.id) < r.maxAttempts,
                if r.kind == CloudWrite then "external_effect_uncertain"
                else if Claims(red, run, job.id) < r.maxAttempts then "lease_expired"
                else "lease_expired_attempts_exhausted", at)
  {
    SubmittedRow(red, ops, job, more, secretLike, r, limit, root, now, path);
  }

  lemma {:induction false} LogEffectStays(red: Redactor, ops: seq<Op>, more: seq<Op>, id: string)
    requires Admissible(ops) && Admissible(more) && LogRuns.FixedIds(red, ops) && LogRuns.FixedIds(red, more)
    requires id in LogRuns.LogAfter(red, ops)
    ensures id in LogRuns.LogAfter(red, ops + more)
    ensures LogRuns.LogAfter(red, ops + more)[id].effect == LogRuns.LogAfter(red, ops)[id].effect
    ensures LogRuns.LogAfter(red, ops + more)[id].maxAttempts == LogRuns.LogAfter(red, ops)[id].maxAttempts
    decreases |more|
  {
    if more == [] {
      assert ops + more == ops;
    } else {
      var shorter, op := more[..|more| - 1], more[|more| - 1];
      assert ops + more == ops + shorter + [op];
      LogEffectStays(red, ops, shorter, id);
      LogRuns.LogAttemptIsClaimCount(red, ops + shorter, id);
      LogRuns.Longer(red, ops + shorter, op);
      LogRowKept(red, LogRuns.LogAfter(red, ops + shorter), op, id);
    }
  }

  lemma LogRowKept(red: Redactor, jobs: map<string, Job>, op: Op, id: string)
    requires id in jobs && RowOk(jobs[id]) && (op.Create? ==> red(op.job.id) == op.job.id)
    ensures id in L.Step(red, jobs, op)
    ensures L.Step(red, jobs, op)[id].effect == jobs[id].effect
    ensures L.Step(red, jobs, op)[id].maxAttempts == jobs[id].maxAttempts
  {
    if !op.Create? { LogRuns.RowKept(red, jobs, op, id); }
  }

  lemma SubmittedLogRow(red: Redactor, ops: seq<Op>, job: Job, more: seq<Op>, secretLike: string -> bool, r: Request,
                        limit: int, root: string, now: string, path: string)
    requires Admissible(ops) && Admissible(more) && LogRuns.FixedIds(red, ops) && LogRuns.FixedIds(red, more)
    requires job.id !in LogRuns.LogAfter(red, ops) && red(job.id) == job.id
    requires Submit(secretLike, r, limit, root, job.id, now, path) == Some(job)
    ensures
      var run := ops + [Create(job)] + more;
      var jobs := LogRuns.LogAfter(red, run);
      && Admissible(run) && LogRuns.FixedIds(red, run) && job.id in jobs
      && (Unsafe(jobs[job.id].effect) <==> r.kind == CloudWrite) && jobs[job.id].maxAttempts == r.maxAttempts
      && LogRuns.Claims(red, run, job.id) == jobs[job.id].attempt
  {
    var start := ops + [Create(job)];
    SubmittedJobs(secretLike, r, limit, root, job.id, now, path);
    LogRuns.Longer(red, ops, Create(job));
    LogEffectStays(red, start, more, job.id);
    LogRuns.LogAttemptIsClaimCount(red, start + more, job.id);
  }

  /** Nor is it from the log, in any run whose ids redaction leaves alone. */
  lemma LogCloudWriteClaimedOnce(red: Redactor, ops: seq<Op>, job: Job, more: seq<Op>, secretLike: string -> bool,
                                 r: Request, limit: int, root: string, now: string, path: string)
    requires Admissible(ops) && Admissible(more) && LogRuns.FixedIds(red, ops) && LogRuns.FixedIds(red, more)
    requires job.id !in LogRuns.LogAfter(red, ops) && red(job.id) == job.id
    requires Submit(secretLike, r, limit, root, job.id, now, path) == Some(job) && r.kind == CloudWrite
    ensures LogRuns.Claims(red, ops + [Create(job)] + more, job.id) <= 1
  {
    SubmittedLogRow(red, ops, job, more, secretLike, r, limit, root, now, path);
    LogRuns.LogUnsafeEffectsClaimedOnce(red, ops + [Create(job)] + more, job.id);
  }

  /** The log sweeps by kind in the same way; texts pass through redaction, and an empty lease is skipped. */
  lemma LogSweptByKind(red: Redactor, ops: seq<Op>, job: Job, more: seq<Op>, secretLike: string -> bool, r: Request,
                       limit: int, root: string, now: string, path: string, at: string)
    requires Admissible(ops) && Admissible(more) && LogRuns.FixedIds(red, ops) && LogRuns.FixedIds(red, more)
    requires job.id !in LogRuns.LogAfter(red, ops) && red(job.id) == job.id
    requires Submit(secretLike, r, limit, root, job.id, now, path) == Some(job)
    ensures
      var run := ops + [Create(job)] + more;
      job.id in LogRuns.LogAfter(red, run) &&
      var j := LogRuns.LogAfter(red, run)[job.id];
      j.status == Running && j.lease.Some? && j.lease.value != "" && Less(j.lease.value, at) ==>
        SweptTo(L.Step(red, LogRuns.LogAfter(red, run), RecoverExpired(at))[job.id],
                r.kind != CloudWrite && LogRuns.Claims(red, run, job.id) < r.maxAttempts,
                red(if r.kind == CloudWrite then "external_effect_uncertain"
                    else if LogRuns.Claims(red, run, job.id) < r.maxAttempts then "lease_expired"
                    else "lease_expired_attempts_exhausted"), red(at))
  {
    SubmittedLogRow(red, ops, job, more, secretLike, r, limit, root, now, path);
  }

  // ---- claimed again ----

  /** No more claims: finished, cancelled, used up, or waiting behind a gate. */
  predicate Over(j: Job) {
    match j.status
    case Pending => j.gate != Ready || j.attempt >= j.maxAttempts
    case Running | Failed => Unsafe(j.effect) || j.attempt >= j.maxAttempts
    case Succeeded | Cancelled => true
  }

  lemma OverStep(red: Redactor, t: Table, op: Op, id: string)
    requires id in t.jobs && Over(t.jobs[id])
    ensures id in Step(red, t, op).jobs && Over(Step(red, t, op).jobs[id]) && !Takes(red, t, op, id)
  {
  }

  lemma {:induction false} OverStays(red: Redactor, ops: seq<Op>, more: seq<Op>, id: string)
    requires id in After(red, ops).jobs && Over(After(red, ops).jobs[id])
    ensures id in After(red, ops + more).jobs && Over(After(red, ops + more).jobs[id])
    ensures Claims(red, ops + more, id) == Claims(red, ops, id)
    decreases |more|
  {
    if more == [] {
      assert ops + more == ops;
    } else {
      var shorter, op := more[..|more| - 1], more[|more| - 1];
      assert ops + more == ops + shorter + [op];
      OverStays(red, ops, shorter, id);
      Extend(red, ops + shorter, op);
      OverStep(red, After(red, ops + shorter), op, id);
    }
  }

  /** Nobody but `id` is waiting or running. */
  ghost predicate Quiet(t: Table, ids: set<string>) {
    forall x :: x in t.jobs && (t.jobs[x].status == Pending || t.jobs[x].status == Running) ==> x in ids
  }

  lemma OneMoreCall(red: Redactor, ops: seq<Op>, op: Op, id: string)
    ensures After(red, ops + [op]) == Step(red, After(red, ops), op)
    ensures Claims(red, ops + [op], id) == Claims(red, ops, id) + if Takes(red, After(red, ops), op, id) then 1 else 0
  {
    Extend(red, ops, op);
  }

  /** Cancelling all other jobs leaves this one alone. */
  lemma {:induction false} CancelOthers(red: Redactor, ops: seq<Op>, id: string, others: set<string>)
    returns (run: seq<Op>)
    requires id in After(red, ops).jobs && id !in others && Quiet(After(red, ops), others + {id})
    ensures ops <= run && Quiet(After(red, run), {id}) && Claims(red, run, id) == Claims(red, ops, id)
    ensures id in After(red, run).jobs && After(red, run).jobs[id] == After(red, ops).jobs[id]
    decreases |others|
  {
    run := ops;
    if others == {} {
      assert others + {id} == {id};
    } else {
      var x :| x in others;
      OneMoreCall(red, ops, Cancel(x, ""), id);
      CancelledIsQuiet(red, After(red, ops), id, others, x);
      run := CancelOthers(red, ops + [Cancel(x, "")], id, others - {x});
    }
  }

  lemma CancelledIsQuiet(red: Redactor, t: Table, id: string, others: set<string>, x: string)
    requires id in t.jobs && id !in others && x in others && Quiet(t, others + {id})
    ensures Quiet(Step(red, t, Cancel(x, "")), others - {x} + {id})
    ensures id in Step(red, t, Cancel(x, "")).jobs && Step(red, t, Cancel(x, "")).jobs[id] == t.jobs[id]
  {
  }

  /** The call that puts a job back among those waiting. */
  function Revival(j: Job, id: string): Op {
    if j.status == Running then ScheduleRetry(id, "", "", None, "") else RetryFailed(id, "", "")
  }

  lemma Revived(red: Redactor, t: Table, id: string)
    requires id in t.jobs && !Over(t.jobs[id]) && t.jobs[id].status != Pending && Quiet(t, {id})
    ensures
      var t' := Step(red, t, Revival(t.jobs[id], id));
      && id in t'.jobs && t'.jobs[id].status == Pending && !Over(t'.jobs[id]) && Quiet(t', {id})
  {
  }

  lemma WaitingIsTaken(red: Redactor, t: Table, id: string) returns (claim: Op)
    requires id in t.jobs && t.jobs[id].status == Pending && !Over(t.jobs[id]) && Quiet(t, {id})
    ensures claim.ClaimNext? && Takes(red, t, claim, id)
  {
    var now := if t.jobs[id].nextAttempt.Some? then t.jobs[id].nextAttempt.value else "";
    claim := ClaimNext("", now, Some(""), None);
    Irreflexive(now);
    ClaimIff(red, t, claim, id);
  }

  lemma {:induction false} Revive(red: Redactor, ops: seq<Op>, id: string) returns (run: seq<Op>)
    requires id in After(red, ops).jobs && !Over(After(red, ops).jobs[id]) && Quiet(After(red, ops), {id})
    ensures ops <= run && Quiet(After(red, run), {id}) && Claims(red, run, id) == Claims(red, ops, id)
    ensures id in After(red, run).jobs && !Over(After(red, run).jobs[id]) && After(red, run).jobs[id].status == Pending
  {
    run := ops;
    var t := After(red, ops);
    if t.jobs[id].status != Pending {
      var op := Revival(t.jobs[id], id);
      Revived(red, t, id);
      OneMoreCall(red, ops, op, id);
      run := ops + [op];
    }
  }

  /** A longer run in which the job is claimed once more. */
  ghost predicate ClaimedAgain(red: Redactor, ops: seq<Op>, run: seq<Op>, id: string) {
    ops <= run && Claims(red, run, id) > Claims(red, ops, id)
  }

  /** After any run: some continuation claims the job again exactly when it is not over. */
  lemma ClaimableAgainIff(red: Redactor, ops: seq<Op>, id: string)
    requires id in After(red, ops).jobs
    ensures (exists run :: ClaimedAgain(red, ops, run, id)) <==> !Over(After(red, ops).jobs[id])
  {
    if Over(After(red, ops).jobs[id]) {
      forall run | ops <= run ensures !ClaimedAgain(red, ops, run, id) {
        OverStays(red, ops, run[|ops|..], id);
        assert ops + run[|ops|..] == run;
      }
    } else {
      var quiet := CancelOthers(red, ops, id, After(red, ops).jobs.Keys - {id});
      var run := Revive(red, quiet, id);
      var claim := WaitingIsTaken(red, After(red, run), id);
      OneMoreCall(red, run, claim, id);
      assert ClaimedAgain(red, ops, run + [claim], id);
    }
  }

  // ---- put off ----

  predicate PutOff(t: Table, id: string, until: string) {
    id in t.jobs && t.jobs[id].status == Pending && t.jobs[id].nextAttempt == Some(until)
  }

  lemma PutOffStep(red: Redactor, t: Table, op: Op, id: string, until: string)
    requires PutOff(t, id, until) && (op.ClaimNext? ==> Less(op.now, until))
    ensures !Takes(red, t, op, id)
    ensures PutOff(Step(red, t, op), id, until) || (op == Cancel(id, op.wall) && id in Step(red, t, op).jobs)
    ensures Step(red, t, op).jobs[id].status in {Pending, Cancelled}
  {
  }

  /** A job put off to some time, by a retry or a sweep, is not claimed before it in any continuation. */
  lemma {:induction false} NotBeforeItsTime(red: Redactor, ops: seq<Op>, more: seq<Op>, id: string, until: string)
    requires PutOff(After(red, ops), id, until)
    requires forall i :: 0 <= i < |more| && more[i].ClaimNext? ==> Less(more[i].now, until)
    ensures Claims(red, ops + more, id) == Claims(red, ops, id)
    ensures PutOff(After(red, ops + more), id, until)
         || (id in After(red, ops + more).jobs && After(red, ops + more).jobs[id].status == Cancelled)
    decreases |more|
  {
    if more == [] {
      assert ops + more == ops;
    } else {
      var shorter, op := more[..|more| - 1], more[|more| - 1];
      assert ops + more == ops + shorter + [op];
      NotBeforeItsTime(red, ops, shorter, id, until);
      OneMoreCall(red, ops + shorter, op, id);
      var t := After(red, ops + shorter);
      if PutOff(t, id, until) { PutOffStep(red, t, op, id, until); } else { OverStep(red, t, op, id); }
    }
  }

  // ---- kept through it all ----

  lemma StartedStep(red: Redactor, t: Table, op: Op, id: string)
    requires id in t.jobs
    ensures id in Step(red, t, op).jobs
    ensures t.jobs[id].started.Some? ==> Step(red, t, op).jobs[id].started == t.jobs[id].started
    ensures t.jobs[id].started.None? ==>
              Step(red, t, op).jobs[id].started == if Takes(red, t, op, id) then Some(op.now) else None
  {
  }

  /** `started_at` is the time of the first claim, whatever happens to the job afterwards. */
  lemma {:induction false} StartedAtFirstClaim(red: Redactor, ops: seq<Op>, more: seq<Op>, id: string)
    requires id in After(red, ops).jobs && After(red, ops).jobs[id].started.Some?
    ensures id in After(red, ops + more).jobs
    ensures After(red, ops + more).jobs[id].started == After(red, ops).jobs[id].started
    decreases |more|
  {
    if more == [] {
      assert ops + more == ops;
    } else {
      var shorter, op := more[..|more| - 1], more[|more| - 1];
      assert ops + more == ops + shorter + [op];
      StartedAtFirstClaim(red, ops, shorter, id);
      OneMoreCall(red, ops + shorter, op, id);
      StartedStep(red, After(red, ops + shorter), op, id);
    }
  }

  /** A conversation is stored whatever the state of the job, and nothing else is. */
  lemma ConversationIsStored(red: Redactor, t: Table, id: string, c: string, wall: string)
    requires id in t.jobs
    ensures Step(red, t, UpdateConversation(id, c, wall)) ==
            t.(jobs := t.jobs[id := t.jobs[id].(conversation := Some(c), updated := wall)])
  {
    StepOnOne(red, t, UpdateConversation(id, c, wall));
  }

  // ---- which calls are accepted ----

  /**
   * Reports are accepted from the owner and, again and again, of what has already been reported; retries
   * of jobs that are safe to repeat; cancellations of what is not over.
   */
  lemma AcceptedCallsIff(red: Redactor, t: Table, op: Op)
    requires !op.Create? && !op.ClaimNext? && !op.RecoverExpired? && !op.UpdateConversation? && op.id in t.jobs
    ensures
      var j := t.jobs[op.id];
      var repeatable := j.effect in {NoEffect, RepoEffect} && j.attempt < j.maxAttempts;
      Reply(red, t, op) == Flag(true) <==>
        match op
        case Heartbeat(_, w, _, _) => j.status == Running && j.worker == Some(w)
        case MarkSuccess(_, w, result, _, _, _, _, _) =>
          && (j.status == Succeeded || (j.status == Running && j.worker == Some(w)))
          && (op.id in t.results ==> t.results[op.id] == red(result))
        case MarkFailure(_, w, _, _, _, _, _, _) =>
          j.status == Failed || (j.status == Running && j.worker == Some(w))
        case ScheduleRetry(_, _, _, _, _) => j.status == Running && repeatable
        case RetryFailed(_, _, _) => j.status == Failed && repeatable
        case Cancel(_, _) => j.status == Pending || j.status == Running
    ensures Reply(red, t, op) != Flag(true) ==> Step(red, t, op) == t
  {
    StepOnOne(red, t, op);
  }

  // ---- what each ending leaves ----

  /** `job`, filed and claimed once. */
  function Claimed(red: Redactor, job: Job, worker: string, now: string, lease: string): Job {
    job.(schema := RedactOption(red, job.schema), status := Running, attempt := 1, worker := Some(worker),
         lease := Some(lease), started := Some(now), updated := now, errorCode := None, stderr := None)
  }

  lemma FiledAndClaimed(red: Redactor, job: Job, worker: string, now: string, lease: string)
    requires Fresh(job) && job.gate == Ready && job.nextAttempt.None? && job.started.None?
    ensures After(red, [Create(job), ClaimNext(worker, now, Some(lease), None)]) ==
            Table(map[job.id := Claimed(red, job, worker, now, lease)], map[])
  {
    var claim := ClaimNext(worker, now, Some(lease), None);
    assert [] + [Create(job)] == [Create(job)] && [Create(job)] + [claim] == [Create(job), claim];
    Extend(red, [], Create(job));
    Extend(red, [Create(job)], claim);
    var t := After(red, [Create(job)]);
    assert t == Table(map[job.id := Inserted(red, job)], map[]);
    OnlyJobClaimed(red, t, worker, now, lease, job.id);
  }

  /** What the owner's two last calls leave of a job filed and claimed, by its fields when it was filed. */
  lemma EndsInSuccess(red: Redactor, job: Job, now: string, lease: string, c: string, wall: string, s: Op)
    requires Fresh(job) && job.gate == Ready && job.nextAttempt.None? && job.started.None?
    requires s.MarkSuccess? && s.id == job.id
    ensures
      var run := [Create(job), ClaimNext(s.worker, now, Some(lease), None)];
      var ended := Step(red, Step(red, After(red, run), UpdateConversation(job.id, c, wall)), s);
      ended == Table(
        map[job.id := job.(
              schema := RedactOption(red, job.schema), status := Succeeded, attempt := 1, updated := s.wall,
              started := Some(now), finished := Some(s.wall), errorCode := None, stderr := None, gate := s.gate,
              conversation := if s.conversation.Some? then s.conversation else Some(c),
              headSha := if s.headSha.Some? then s.headSha else job.headSha,
              resultPath := Some(s.path), result := Some(red(s.result)), lease := None, worker := None)],
        map[job.id := red(s.result)])
  {
    FiledAndClaimed(red, job, s.worker, now, lease);
    var t := Table(map[job.id := Claimed(red, job, s.worker, now, lease)], map[]);
    StepOnOne(red, t, UpdateConversation(job.id, c, wall));
    StepOnOne(red, Step(red, t, UpdateConversation(job.id, c, wall)), s);
  }

  lemma EndsInFailure(red: Redactor, job: Job, now: string, lease: string, f: Op, at: string, wall: string)
    requires Fresh(job) && job.gate == Ready && job.nextAttempt.None? && job.started.None?
    requires f.MarkFailure? && f.id == job.id
    ensures
      var failed := Step(red, After(red, [Create(job), ClaimNext(f.worker, now, Some(lease), None)]), f);
      var row := job.(
            schema := RedactOption(red, job.schema), status := Failed, attempt := 1, updated := f.wall,
            started := Some(now), finished := Some(f.wall), errorCode := Some(f.code), stderr := f.stderr,
            gate := f.gate, headSha := if f.headSha.Some? then f.headSha else job.headSha,
            result := RedactOption(red, f.envelope), lease := None, worker := None);
      && failed.jobs == map[job.id := row]
      && failed.results == (if f.envelope.Some? then map[job.id := red(f.envelope.value)] else map[])
      && (!Unsafe(job.effect) && job.maxAttempts > 1 ==>
            Step(red, failed, RetryFailed(job.id, at, wall)).jobs ==
            map[job.id := row.(status := Pending, gate := Ready, nextAttempt := Some(at), updated := at,
                               finished := None, errorCode := Some("manual_retry"), stderr := None)])
  {
    FiledAndClaimed(red, job, f.worker, now, lease);
    var t := Table(map[job.id := Claimed(red, job, f.worker, now, lease)], map[]);
    StepOnOne(red, t, f);
    StepOnOne(red, Step(red, t, f), RetryFailed(job.id, at, wall));
  }

  lemma EndsWithoutOwner(red: Redactor, job: Job, worker: string, now: string, lease: string, retry: Op, wall: string)
    requires Fresh(job) && job.gate == Ready && job.nextAttempt.None? && job.started.None?
    requires retry.ScheduleRetry? && retry.id == job.id && !Unsafe(job.effect) && job.maxAttempts > 1
    ensures
      var t := After(red, [Create(job), ClaimNext(worker, now, Some(lease), None)]);
      var row := job.(schema := RedactOption(red, job.schema), attempt := 1, started := Some(now),
                      lease := None, worker := None, errorCode := None, stderr := None);
      && Step(red, t, retry).jobs ==
         map[job.id := row.(status := Pending, gate := Ready, nextAttempt := Some(retry.nextAttempt),
                            errorCode := Some(retry.code), stderr := retry.stderr, updated := retry.wall)]
      && Step(red, t, Cancel(job.id, wall)).jobs ==
         map[job.id := row.(status := Cancelled, gate := Blocked, finished := Some(wall), updated := wall)]
  {
    FiledAndClaimed(red, job, worker, now, lease);
    var t := Table(map[job.id := Claimed(red, job, worker, now, lease)], map[]);
    StepOnOne(red, t, retry);
    StepOnOne(red, t, Cancel(job.id, wall));
  }
}

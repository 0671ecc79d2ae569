/**
 * The JSONL back end against the SQLite back end, text by text: after every run the log holds the
 * redacted image of the table, `updated_at` aside.  That both answer alike asks far less; see QueueAnswers.
 */
module QueueRefinement {
  import opened Common
  import opened TextOrder
  import opened QueueModel
  import opened QueueRuns
  import opened LogRuns
  import opened QueueAnswers
  import S = SqliteQueue
  import L = JsonlQueue

  /** The error codes the stores write themselves. */
  const CODES := {"lease_expired", "lease_expired_attempts_exhausted", "external_effect_uncertain", "manual_retry"}

  predicate SteadyCodes(red: Redactor) {
    forall code :: code in CODES ==> Steady(red, code)
  }

  /** Fit for comparison, and every other text settled at once by redaction. */
  predicate Clean(red: Redactor, j: Job) {
    && Settled(red, j) && RedactOption(red, j.started) == j.started && j.started != Some("")
    && Steady(red, j.text) && SteadyOption(red, j.schema) && SteadyOption(red, j.conversation)
    && SteadyOption(red, j.resultPath) && SteadyOption(red, j.headSha) && SteadyOption(red, j.errorCode)
    && SteadyOption(red, j.stderr) && SteadyOption(red, j.finished) && SteadyOption(red, j.verificationJob)
  }

  /** No empty text where a text is optional. */
  predicate NoEmptyReport(op: Op) {
    && (op.MarkSuccess? ==> op.conversation != Some("") && op.headSha != Some(""))
    && (op.MarkFailure? ==> op.headSha != Some(""))
  }

  /** The call's other texts are settled at once, too. */
  predicate SteadyOp(red: Redactor, op: Op) {
    && ControlOp(red, op)
    && match op
       case Create(j) => Clean(red, j)
       case ClaimNext(_, now, _, _) => red(now) == now && now != ""
       case UpdateConversation(_, c, _) => Steady(red, c)
       case MarkSuccess(_, _, _, path, c, head, _, wall) =>
         Steady(red, path) && SteadyOption(red, c) && SteadyOption(red, head) && Steady(red, wall)
       case MarkFailure(_, _, code, err, _, head, _, wall) =>
         Steady(red, code) && SteadyOption(red, err) && SteadyOption(red, head) && Steady(red, wall)
       case ScheduleRetry(_, _, code, err, _) => Steady(red, code) && SteadyOption(red, err)
       case Cancel(_, wall) => Steady(red, wall)
       case Heartbeat(_, _, _, _) | RecoverExpired(_) | RetryFailed(_, _, _) => true
  }

  predicate CleanOp(red: Redactor, op: Op) {
    SteadyOp(red, op) && NoEmptyReport(op)
  }

  /** The log's image of a row. */
  predicate Same(red: Redactor, j: Job, image: Job) {
    image == L.RedactJob(red, j).(updated := image.updated)
  }

  predicate Match(red: Redactor, j: Job, image: Job) {
    Clean(red, j) && Same(red, j, image)
  }

  predicate Related(red: Redactor, t: S.Table, jobs: map<string, Job>) {
    && t.jobs.Keys == jobs.Keys
    && forall id :: id in t.jobs ==> Match(red, t.jobs[id], jobs[id])
  }

  lemma RelatedIsPaired(red: Redactor, t: S.Table, jobs: map<string, Job>)
    requires Related(red, t, jobs)
    ensures Paired(red, t, jobs)
  {
    forall id | id in t.jobs ensures Alike(red, t.jobs[id], jobs[id]) {
      MatchIsAlike(red, t.jobs[id], jobs[id]);
    }
  }

  lemma MatchIsAlike(red: Redactor, j: Job, image: Job)
    requires Match(red, j, image)
    ensures Alike(red, j, image)
  {
  }

  // ---- one step ----

  lemma ClaimedAgrees(red: Redactor, j: Job, image: Job, op: Op)
    requires SteadyCodes(red) && op.ClaimNext? && CleanOp(red, op) && Match(red, j, image)
    ensures Clean(red, S.Updated(red, op, j))
    ensures Same(red, S.Updated(red, op, j), L.RedactJob(red, L.ClaimedJob(image, op.worker, op.now, op.lease)))
  {
  }

  lemma RecoveredAgrees(red: Redactor, j: Job, image: Job, now: string)
    requires SteadyCodes(red) && red(now) == now && Match(red, j, image)
    ensures Clean(red, S.RecoveredRow(j, now))
    ensures Same(red, S.RecoveredRow(j, now), L.RedactJob(red, L.RecoveredJob(image, now)))
  {
  }

  lemma MutatedAgrees(red: Redactor, j: Job, image: Job, op: Op)
    requires SteadyCodes(red) && L.OnOneJob(op) && CleanOp(red, op) && Match(red, j, image)
    ensures Clean(red, S.Updated(red, op, j))
    ensures L.Applies(op, image) ==> Same(red, S.Updated(red, op, j), L.Image(red, op, image))
    ensures !L.Applies(op, image) ==> Same(red, j, L.Image(red, op, image))
  {
    UpdatedIsClean(red, j, op);
    if L.Applies(op, image) { AppliedAgrees(red, j, image, op); }
  }

  lemma UpdatedIsClean(red: Redactor, j: Job, op: Op)
    requires SteadyCodes(red) && L.OnOneJob(op) && CleanOp(red, op) && Clean(red, j)
    ensures Clean(red, S.Updated(red, op, j))
  {
  }

  lemma AppliedAgrees(red: Redactor, j: Job, image: Job, op: Op)
    requires SteadyCodes(red) && L.OnOneJob(op) && CleanOp(red, op) && Match(red, j, image) && L.Applies(op, image)
    ensures Same(red, S.Updated(red, op, j), L.Image(red, op, image))
  {
  }

  /** A row and its image, fit for the next step. */
  predicate Twin(red: Redactor, j: Job, image: Job) {
    Match(red, j, image) && j.lease != Some("")
  }

  lemma ClaimRowAgrees(red: Redactor, t: S.Table, jobs: map<string, Job>, op: Op, id: string)
    requires SteadyCodes(red) && Related(red, t, jobs) && Apart(red, t.jobs)
    requires CleanOp(red, op) && op.ClaimNext? && id in t.jobs && Twin(red, t.jobs[id], jobs[id])
    ensures Twin(red, RowAfter(red, t, op, id), L.Row(red, jobs, op, id))
  {
    RelatedIsPaired(red, t, jobs);
    NextAgrees(red, t, jobs, op.now, op.kinds);
    ClaimedAgrees(red, t.jobs[id], jobs[id], op);
  }

  lemma SweepRowAgrees(red: Redactor, t: S.Table, jobs: map<string, Job>, now: string, id: string)
    requires SteadyCodes(red) && red(now) == now && id in t.jobs && id in jobs && Twin(red, t.jobs[id], jobs[id])
    ensures Twin(red, RowAfter(red, t, RecoverExpired(now), id), L.Row(red, jobs, RecoverExpired(now), id))
  {
    MatchIsAlike(red, t.jobs[id], jobs[id]);
    ExpiredAgrees(red, t.jobs[id], jobs[id], now);
    if S.Expired(t.jobs[id], now) {
      assert RowAfter(red, t, RecoverExpired(now), id) == S.RecoveredRow(t.jobs[id], now);
      assert L.Row(red, jobs, RecoverExpired(now), id) == L.RedactJob(red, L.RecoveredJob(jobs[id], now));
      RecoveredAgrees(red, t.jobs[id], jobs[id], now);
      assert S.RecoveredRow(t.jobs[id], now).lease == None;
    } else {
      assert RowAfter(red, t, RecoverExpired(now), id) == t.jobs[id];
      assert L.Row(red, jobs, RecoverExpired(now), id) == jobs[id];
    }
  }

  lemma LeaseStaysNonEmpty(red: Redactor, op: Op, j: Job)
    requires L.OnOneJob(op) && CleanOp(red, op) && j.lease != Some("")
    ensures S.Updated(red, op, j).lease != Some("")
  {
  }

  lemma MutatedTwin(red: Redactor, j: Job, image: Job, op: Op)
    requires SteadyCodes(red) && L.OnOneJob(op) && CleanOp(red, op) && Twin(red, j, image)
    ensures Twin(red, if L.Applies(op, image) then S.Updated(red, op, j) else j, L.Image(red, op, image))
  {
    MutatedAgrees(red, j, image, op);
    LeaseStaysNonEmpty(red, op, j);
  }

  lemma MutatedRowAgrees(red: Redactor, t: S.Table, jobs: map<string, Job>, op: Op, id: string)
    requires SteadyCodes(red) && ResultsOk(t) && Related(red, t, jobs) && CleanOp(red, op) && L.OnOneJob(op)
    requires id in t.jobs && Twin(red, t.jobs[id], jobs[id])
    ensures Twin(red, RowAfter(red, t, op, id), L.Row(red, jobs, op, id))
  {
    if op.id == id {
      RelatedIsPaired(red, t, jobs);
      HitAgrees(red, t, jobs, op);
      MutatedTwin(red, t.jobs[id], jobs[id], op);
    } else {
      assert !S.Hit(red, t, op, id);
    }
  }

  lemma RowAgrees(red: Redactor, t: S.Table, jobs: map<string, Job>, op: Op, id: string)
    requires SteadyCodes(red) && ResultsOk(t) && NoEmptyLease(t) && Related(red, t, jobs) && Apart(red, t.jobs)
    requires CleanOp(red, op) && !op.Create? && id in t.jobs
    ensures Twin(red, RowAfter(red, t, op, id), L.Row(red, jobs, op, id))
  {
    assert Twin(red, t.jobs[id], jobs[id]);
    if op.ClaimNext? {
      ClaimRowAgrees(red, t, jobs, op, id);
    } else if op.RecoverExpired? {
      SweepRowAgrees(red, t, jobs, op.now, id);
    } else {
      MutatedRowAgrees(red, t, jobs, op, id);
    }
  }

  lemma TwinsRelate(red: Redactor, t: S.Table, jobs: map<string, Job>)
    requires t.jobs.Keys == jobs.Keys && forall id :: id in t.jobs ==> Twin(red, t.jobs[id], jobs[id])
    ensures Related(red, t, jobs) && NoEmptyLease(t)
  {
    forall id | id in t.jobs
      ensures Match(red, t.jobs[id], jobs[id]) && t.jobs[id].lease != Some("")
    {
      assert Twin(red, t.jobs[id], jobs[id]);
    }
  }

  lemma CreateAgrees(red: Redactor, t: S.Table, jobs: map<string, Job>, job: Job)
    requires SteadyCodes(red) && NoEmptyLease(t) && Related(red, t, jobs) && Clean(red, job) && Fresh(job)
    ensures Related(red, S.Step(red, t, Create(job)), L.Step(red, jobs, Create(job)))
    ensures NoEmptyLease(S.Step(red, t, Create(job)))
  {
    assert job.id in t.jobs <==> job.id in jobs;
    if job.id !in t.jobs {
      FreshTwin(red, job);
      RelatedWithTwin(red, t, jobs, job.id, S.Inserted(red, job), L.RedactJob(red, job));
    }
  }

  /** One more row on each side. */
  lemma RelatedWithTwin(red: Redactor, t: S.Table, jobs: map<string, Job>, id: string, row: Job, image: Job)
    requires NoEmptyLease(t) && Related(red, t, jobs) && id !in t.jobs && Twin(red, row, image)
    ensures
      var t' := t.(jobs := t.jobs[id := row]);
      Related(red, t', jobs[id := image]) && NoEmptyLease(t')
  {
    OneMoreRow(red, t, jobs, id, row, image);
  }

  lemma OneMoreRow(red: Redactor, t: S.Table, jobs: map<string, Job>, id: string, row: Job, image: Job)
    requires Related(red, t, jobs) && id !in t.jobs && Match(red, row, image)
    ensures Related(red, t.(jobs := t.jobs[id := row]), jobs[id := image])
  {
    var t' := t.(jobs := t.jobs[id := row]);
    forall x | x in t'.jobs ensures Match(red, t'.jobs[x], jobs[id := image][x]) {
      if x != id { assert Match(red, t.jobs[x], jobs[x]); }
    }
  }

  lemma FreshTwin(red: Redactor, job: Job)
    requires SteadyCodes(red) && Clean(red, job) && Fresh(job)
    ensures Twin(red, S.Inserted(red, job), L.RedactJob(red, job))
  {
  }

  lemma StepAgrees(red: Redactor, t: S.Table, jobs: map<string, Job>, op: Op)
    requires SteadyCodes(red) && ResultsOk(t) && NoEmptyLease(t) && Related(red, t, jobs) && Apart(red, t.jobs)
    requires CleanOp(red, op) && (op.Create? ==> Fresh(op.job))
    ensures Related(red, S.Step(red, t, op), L.Step(red, jobs, op)) && NoEmptyLease(S.Step(red, t, op))
  {
    if op.Create? {
      CreateAgrees(red, t, jobs, op.job);
    } else {
      forall id | id in t.jobs
        ensures Twin(red, RowAfter(red, t, op, id), L.Row(red, jobs, op, id))
      {
        RowAgrees(red, t, jobs, op, id);
      }
      TwinsRelate(red, S.Step(red, t, op), L.Step(red, jobs, op));
    }
  }

  // ---- whole runs ----

  predicate CleanRun(red: Redactor, ops: seq<Op>) {
    forall i :: 0 <= i < |ops| ==> CleanOp(red, ops[i])
  }

  /** After every run the log is the redacted image of the table. */
  lemma {:induction false} BackendsAgree(red: Redactor, scopes: set<string>, ops: seq<Op>)
    requires SteadyCodes(red) && Admissible(ops) && CleanRun(red, ops)
    requires Within(ops, scopes) && Injective(red, scopes)
    ensures Related(red, After(red, ops), LogAfter(red, ops)) && NoEmptyLease(After(red, ops))
  {
    if ops != [] {
      var before, op := ops[..|ops| - 1], ops[|ops| - 1];
      BackendsAgree(red, scopes, before);
      CleanIsControl(red, before);
      ControlAgrees(red, scopes, before);
      Reachable(red, before);
      InjectiveKeepsApart(red, After(red, before).jobs, scopes);
      StepAgrees(red, After(red, before), LogAfter(red, before), op);
    }
  }

  lemma CleanIsControl(red: Redactor, ops: seq<Op>)
    requires CleanRun(red, ops)
    ensures ControlRun(red, ops)
  {
    forall i | 0 <= i < |ops| ensures ControlOp(red, ops[i]) {
      assert CleanOp(red, ops[i]);
    }
  }

  // ---- where the back ends part ----

  /** A worker whose name redaction rewrites is locked out of the job it claimed, in the log only. */
  lemma OwnerRecognizedIff(red: Redactor, j: Job, image: Job, op: Op)
    requires Same(red, j, image) && (op.Heartbeat? || op.MarkSuccess? || op.MarkFailure?)
    requires j.status.Running? && j.worker == Some(op.worker)
    ensures L.Applies(op, image) <==> red(op.worker) == op.worker
  {
    assert image.worker == Some(red(op.worker)) && image.status.Running?;
  }

  function NonEmpty(s: Option<string>): Option<string> {
    if s == Some("") then None else s
  }

  /** The report without its empty texts. */
  function Plain(op: Op): Op {
    match op
    case MarkSuccess(_, _, _, _, c, head, _, _) => op.(conversation := NonEmpty(c), headSha := NonEmpty(head))
    case MarkFailure(_, _, _, _, _, head, _, _) => op.(headSha := NonEmpty(head))
    case _ => op
  }

  /** What an empty conversation id or head would overwrite is empty already, once redacted. */
  predicate EmptyChangesNothing(red: Redactor, op: Op, j: Job) {
    && (op.MarkSuccess? && op.conversation == Some("") ==> RedactOption(red, j.conversation) == Some(red("")))
    && ((op.MarkSuccess? || op.MarkFailure?) && op.headSha == Some("") ==>
       RedactOption(red, j.headSha) == Some(red("")))
  }

  /** The log drops empty texts itself. */
  lemma PlainImage(red: Redactor, op: Op, image: Job)
    requires (op.MarkSuccess? || op.MarkFailure?) && L.Applies(op, image)
    ensures L.OnOneJob(Plain(op)) && L.Image(red, op, image) == L.Image(red, Plain(op), image)
  {
  }

  lemma EmptyReportRow(red: Redactor, j: Job, image: Job, op: Op)
    requires SteadyCodes(red) && Steady(red, "") && Match(red, j, image) && SteadyOp(red, op)
    requires (op.MarkSuccess? || op.MarkFailure?) && L.Applies(op, image)
    ensures Match(red, S.Updated(red, op, j), L.Image(red, op, image)) <==> EmptyChangesNothing(red, op, j)
  {
    var plain := Plain(op);
    MutatedAgrees(red, j, image, plain);
    PlainImage(red, op, image);
    var row, row' := S.Updated(red, plain, j), S.Updated(red, op, j);
    assert row' == row.(conversation := row'.conversation, headSha := row'.headSha);
    assert L.RedactJob(red, row') == L.RedactJob(red, row).(conversation := RedactOption(red, row'.conversation),
                                                            headSha := RedactOption(red, row'.headSha));
  }

  /** Reporting an empty conversation id or head: COALESCE keeps the empty text, `or` drops it. */
  lemma EmptyReportAgreesIff(red: Redactor, t: S.Table, jobs: map<string, Job>, op: Op)
    requires SteadyCodes(red) && Steady(red, "") && ResultsOk(t) && Related(red, t, jobs) && SteadyOp(red, op)
    requires (op.MarkSuccess? || op.MarkFailure?) && op.id in t.jobs && S.Hit(red, t, op, op.id)
    ensures Related(red, S.Step(red, t, op), L.Step(red, jobs, op)) <==> EmptyChangesNothing(red, op, t.jobs[op.id])
  {
    RelatedIsPaired(red, t, jobs);
    HitAgrees(red, t, jobs, op);
    S.StepOnOne(red, t, op);
    L.StepOnOne(red, jobs, op);
    EmptyReportRow(red, t.jobs[op.id], jobs[op.id], op);
    OneRowRelates(red, t, S.Step(red, t, op), jobs, L.Step(red, jobs, op), op.id,
                  S.Updated(red, op, t.jobs[op.id]), L.Image(red, op, jobs[op.id]));
  }

  /** Changing one row on each side: everything hangs on that row. */
  lemma OneRowRelates(red: Redactor, t: S.Table, t': S.Table, jobs: map<string, Job>, jobs': map<string, Job>,
                      id: string, j: Job, image: Job)
    requires Related(red, t, jobs) && id in t.jobs && t'.jobs == t.jobs[id := j] && jobs' == jobs[id := image]
    ensures Related(red, t', jobs') <==> Match(red, j, image)
  {
    assert t'.jobs[id] == j && jobs'[id] == image;
    if Match(red, j, image) { OneRowReplaced(red, t, t', jobs, jobs', id); }
  }

  lemma OneRowReplaced(red: Redactor, t: S.Table, t': S.Table, jobs: map<string, Job>, jobs': map<string, Job>,
                       id: string)
    requires Related(red, t, jobs) && t'.jobs.Keys == t.jobs.Keys && jobs'.Keys == jobs.Keys
    requires id in t.jobs && Match(red, t'.jobs[id], jobs'[id])
    requires forall x :: x in t.jobs && x != id ==> t'.jobs[x] == t.jobs[x] && jobs'[x] == jobs[x]
    ensures Related(red, t', jobs')
  {
    forall x | x in t'.jobs ensures Match(red, t'.jobs[x], jobs'[x]) {
      if x != id { assert Match(red, t.jobs[x], jobs[x]); }
    }
  }

  function SweptRow(j: Job, now: string): Job {
    if S.Expired(j, now) then S.RecoveredRow(j, now) else j
  }

  ghost function SweptImage(red: Redactor, image: Job, now: string): Job {
    if L.Expired(image, now) then L.RedactJob(red, L.RecoveredJob(image, now)) else image
  }

  lemma SplitSweepDiffers(red: Redactor, j: Job, image: Job, now: string)
    requires S.Expired(j, now) && Match(red, j, image)
    ensures !Match(red, S.RecoveredRow(j, now), image)
  {
    assert !S.RecoveredRow(j, now).status.Running? && image.status.Running?;
  }

  /** One row under a sweep: related unless SQLite recovers it and the log does not. */
  lemma SweepRowIff(red: Redactor, j: Job, image: Job, now: string)
    requires SteadyCodes(red) && red(now) == now && Match(red, j, image)
    ensures Match(red, SweptRow(j, now), SweptImage(red, image, now)) <==>
            now == "" || !(j.status.Running? && j.lease == Some(""))
  {
    MatchIsAlike(red, j, image);
    ExpiredAgrees(red, j, image, now);
    if S.Expired(j, now) {
      if L.Expired(image, now) {
        RecoveredAgrees(red, j, image, now);
      } else {
        SplitSweepDiffers(red, j, image, now);
      }
    }
  }

  lemma SweepByRow(red: Redactor, t: S.Table, jobs: map<string, Job>, now: string)
    ensures S.Step(red, t, RecoverExpired(now)).jobs == map id | id in t.jobs :: SweptRow(t.jobs[id], now)
    ensures L.Step(red, jobs, RecoverExpired(now)) == map id | id in jobs :: SweptImage(red, jobs[id], now)
  {
  }

  /** A sweep over an empty lease text: SQLite recovers the job, the log skips it. */
  lemma SweepAgreesIff(red: Redactor, t: S.Table, jobs: map<string, Job>, now: string)
    requires SteadyCodes(red) && red(now) == now && Related(red, t, jobs)
    ensures
      Related(red, S.Step(red, t, RecoverExpired(now)), L.Step(red, jobs, RecoverExpired(now))) <==>
      now == "" || forall id :: id in t.jobs ==> !(t.jobs[id].status.Running? && t.jobs[id].lease == Some(""))
  {
    var t', jobs' := S.Step(red, t, RecoverExpired(now)), L.Step(red, jobs, RecoverExpired(now));
    SweepByRow(red, t, jobs, now);
    forall id | id in t.jobs
      ensures Match(red, t'.jobs[id], jobs'[id]) <==>
              now == "" || !(t.jobs[id].status.Running? && t.jobs[id].lease == Some(""))
    {
      SweepRowIff(red, t.jobs[id], jobs[id], now);
    }
    assert t'.jobs.Keys == t.jobs.Keys == jobs'.Keys;
  }

  /** Reporting the same success again: a result that redaction rewrites twice is refused by the log only. */
  lemma RepeatedSuccessAgreesIff(red: Redactor, t: S.Table, jobs: map<string, Job>, op: Op)
    requires ResultsOk(t) && Paired(red, t, jobs) && op.MarkSuccess?
    requires op.id in t.jobs && Owns(t.jobs[op.id], op.worker) && op.id !in t.results
    ensures
      var t', jobs' := S.Step(red, t, op), L.Step(red, jobs, op);
      && S.Reply(red, t', op) == Flag(true)
      && (L.Reply(red, jobs', op) == Flag(true) <==> red(red(red(op.result))) == red(op.result))
  {
    assert Alike(red, t.jobs[op.id], jobs[op.id]);
    SuccessInTable(red, t, op);
    SuccessInLog(red, jobs, op);
  }

  lemma SuccessInTable(red: Redactor, t: S.Table, op: Op)
    requires op.MarkSuccess? && op.id in t.jobs && Owns(t.jobs[op.id], op.worker) && op.id !in t.results
    ensures S.Reply(red, S.Step(red, t, op), op) == Flag(true)
  {
    var t' := S.Step(red, t, op);
    S.StepOnOne(red, t, op);
    assert t'.jobs[op.id].status.Succeeded? && t'.results[op.id] == red(op.result);
  }

  lemma SuccessInLog(red: Redactor, jobs: map<string, Job>, op: Op)
    requires op.MarkSuccess? && op.id in jobs && Owns(jobs[op.id], op.worker) && jobs[op.id].result.None?
    ensures L.Reply(red, L.Step(red, jobs, op), op) == Flag(true) <==> red(red(red(op.result))) == red(op.result)
  {
    var jobs' := L.Step(red, jobs, op);
    L.StepOnOne(red, jobs, op);
    assert jobs'[op.id].status.Succeeded? && jobs'[op.id].result == Some(red(red(op.result)));
  }

  // ---- runs that show it ----

  function ScopeOf(job: Job): set<string> {
    if job.scope.Some? then {job.scope.value} else {}
  }

  predicate Startable(job: Job, claim: Op) {
    && Fresh(job) && job.gate.Ready? && job.nextAttempt.None?
    && claim.ClaimNext? && claim.lease.Some? && (claim.kinds.None? || job.kind in claim.kinds.value)
  }

  /** One job, created and claimed. */
  lemma StartedRun(red: Redactor, job: Job, claim: Op)
    requires Startable(job, claim) && red(job.id) == job.id
    ensures
      var ops := [Create(job), claim];
      && After(red, ops) == S.Table(map[job.id := S.Updated(red, claim, S.Inserted(red, job))], map[])
      && LogAfter(red, ops) ==
         map[job.id := L.RedactJob(red, L.ClaimedJob(L.RedactJob(red, job), claim.worker, claim.now, claim.lease))]
  {
    assert [] + [Create(job)] == [Create(job)] && [Create(job)] + [claim] == [Create(job), claim];
    Extend(red, [], Create(job));
    Extend(red, [Create(job)], claim);
    Longer(red, [], Create(job));
    Longer(red, [Create(job)], claim);
    var row, image := S.Inserted(red, job), L.RedactJob(red, job);
    OnlyOneNext(map[job.id := row], claim.now, claim.kinds, job.id);
    OnlyOneNext(map[job.id := image], claim.now, claim.kinds, job.id);
    assert LogAfter(red, [Create(job)]) == map[job.id := image];
    assert After(red, [Create(job)]) == S.Table(map[job.id := row], map[]);
  }

  /** Created, claimed, heartbeat: the owner is answered alike exactly when redaction keeps its name. */
  lemma LockedOutRun(red: Redactor, job: Job, claim: Op, beat: Op)
    requires Startable(job, claim) && red(job.id) == job.id
    requires beat.Heartbeat? && beat.id == job.id && beat.worker == claim.worker
    ensures
      var ops := [Create(job), claim];
      && S.Reply(red, After(red, ops), beat) == Flag(true)
      && L.Reply(red, LogAfter(red, ops), beat) == Flag(red(claim.worker) == claim.worker)
  {
    StartedRun(red, job, claim);
  }

  /** Created, claimed, given an empty lease, swept: only SQLite recovers the job. */
  lemma EmptyLeaseRun(red: Redactor, job: Job, claim: Op, beat: Op, now: string)
    requires Startable(job, claim) && red(job.id) == job.id && red("") == ""
    requires beat.Heartbeat? && beat.id == job.id && beat.worker == claim.worker && beat.until == ""
    requires red(claim.worker) == claim.worker && now != ""
    ensures
      var ops := [Create(job), claim, beat];
      && S.Reply(red, After(red, ops), RecoverExpired(now)) == Recovered({job.id})
      && L.Reply(red, LogAfter(red, ops), RecoverExpired(now)) == Recovered({})
  {
    StartedRun(red, job, claim);
    var two := [Create(job), claim];
    assert two + [beat] == [Create(job), claim, beat];
    Extend(red, two, beat);
    Longer(red, two, beat);
    S.StepOnOne(red, After(red, two), beat);
    L.StepOnOne(red, LogAfter(red, two), beat);
    var t, jobs := After(red, two + [beat]), LogAfter(red, two + [beat]);
    assert t.jobs.Keys == {job.id} == jobs.Keys;
    assert S.Expired(t.jobs[job.id], now) && !L.Expired(jobs[job.id], now);
    assert (set id | id in t.jobs && S.Expired(t.jobs[id], now)) == {job.id};
    assert (set id | id in jobs && L.Expired(jobs[id], now)) == {};
  }

  /** Created, claimed, given a conversation, finished with an empty one: alike iff it was empty all along. */
  lemma EmptyConversationRun(red: Redactor, job: Job, claim: Op, update: Op, done: Op)
    requires Startable(job, claim) && SteadyCodes(red) && Steady(red, "")
    requires CleanRun(red, [Create(job), claim, update]) && SteadyOp(red, done)
    requires update.UpdateConversation? && update.id == job.id
    requires done.MarkSuccess? && done.id == job.id && done.worker == claim.worker
    requires done.conversation == Some("") && done.headSha.None?
    ensures
      var ops := [Create(job), claim, update, done];
      Related(red, After(red, ops), LogAfter(red, ops)) <==> red(update.newConversation) == red("")
  {
    var two, three := [Create(job), claim], [Create(job), claim, update];
    assert CleanOp(red, three[0]) && two == three[..2];
    UpdatedRun(red, job, claim, update);
    assert three + [done] == [Create(job), claim, update, done];
    BackendsAgree(red, ScopeOf(job), three);
    Reachable(red, three);
    Extend(red, three, done);
    Longer(red, three, done);
    EmptyReportAgreesIff(red, After(red, three), LogAfter(red, three), done);
  }

  lemma UpdatedRun(red: Redactor, job: Job, claim: Op, update: Op)
    requires Startable(job, claim) && red(job.id) == job.id && update.UpdateConversation? && update.id == job.id
    ensures
      var t := After(red, [Create(job), claim, update]);
      && job.id in t.jobs && t.jobs[job.id].conversation == Some(update.newConversation)
      && Owns(t.jobs[job.id], claim.worker) && t.results == map[]
  {
    StartedRun(red, job, claim);
    assert [Create(job), claim] + [update] == [Create(job), claim, update];
    Extend(red, [Create(job), claim], update);
    S.StepOnOne(red, After(red, [Create(job), claim]), update);
  }

  /** Created, claimed, finished, finished again with the same report. */
  lemma RepeatedSuccessRun(red: Redactor, job: Job, claim: Op, done: Op)
    requires Startable(job, claim) && ControlRun(red, [Create(job), claim])
    requires done.MarkSuccess? && done.id == job.id && done.worker == claim.worker
    ensures
      var ops := [Create(job), claim, done];
      && S.Reply(red, After(red, ops), done) == Flag(true)
      && (L.Reply(red, LogAfter(red, ops), done) == Flag(true) <==> red(red(red(done.result))) == red(done.result))
  {
    var two := [Create(job), claim];
    assert ControlOp(red, two[0]);
    StartedRun(red, job, claim);
    ControlAgrees(red, ScopeOf(job), two);
    Reachable(red, two);
    assert two + [done] == [Create(job), claim, done];
    Extend(red, two, done);
    Longer(red, two, done);
    RepeatedSuccessAgreesIff(red, After(red, two), LogAfter(red, two), done);
  }
}

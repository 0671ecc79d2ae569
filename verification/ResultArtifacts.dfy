/**
 * Result artifacts (ResultArtifactStore in apps/agy_queue/storage.py) and the order in which a
 * worker uses them (apps/agy_queue/worker.py): first `write_result`, then `mark_success` or
 * `mark_failure` with the same envelope.  Both are atomic steps and anything may happen between
 * them: the lease may be lost, the job recovered, claimed by somebody else, even finished.
 */
module ResultArtifacts {
  import opened Common
  import opened QueueModel
  import opened SqliteQueue
  import opened QueueRuns
  import LogRuns
  import L = JsonlQueue

  class ResultArtifactStore {
    const redact: Redactor
    var files: map<string, Json>

    constructor (redact: Redactor)
      ensures this.redact == redact && files == map[]
    {
      this.redact := redact;
      files := map[];
    }

    /** Write once; writing the same content again is accepted. */
    method WriteResult(id: string, envelope: Json) returns (raised: bool)
      modifies this
      ensures raised <==> id in old(files) && old(files)[id] != redact(envelope)
      ensures files == if raised then old(files) else old(files)[id := redact(envelope)]
      ensures forall x :: x in old(files) ==> x in files && files[x] == old(files)[x]
    {
      var payload := redact(envelope);
      if id in files {
        raised := files[id] != payload;
        assert files[id := files[id]] == files;
      } else {
        raised := false;
        files := files[id := payload];
      }
    }
  }

  datatype Report = Report(id: string, envelope: Json, success: bool)

  /** `written` holds the report each worker has written but not yet committed. */
  datatype System = System(table: Table, files: map<string, Json>, written: map<string, Report>)

  datatype Act =
    | Store(op: Op)
    | Write(worker: string, report: Report)
    | Commit(worker: string, path: string, conversation: Option<string>, headSha: Option<string>,
             code: string, stderr: Option<string>, gate: Gate, wall: string)

  predicate Lawful(act: Act) {
    act.Store? ==> !act.op.MarkSuccess? && !act.op.MarkFailure? && (act.op.Create? ==> Fresh(act.op.job))
  }

  /** The store call a worker makes once its artifact is on disk. */
  function CommitOp(s: System, act: Act): Op
    requires act.Commit? && act.worker in s.written
  {
    var r := s.written[act.worker];
    if r.success then
      MarkSuccess(r.id, act.worker, r.envelope, act.path, act.conversation, act.headSha, act.gate, act.wall)
    else
      MarkFailure(r.id, act.worker, act.code, act.stderr, Some(r.envelope), act.headSha, act.gate, act.wall)
  }

  ghost function Do(red: Redactor, s: System, act: Act): System {
    match act
    case Store(op) => s.(table := Step(red, s.table, op))
    case Write(w, r) =>
      if r.id in s.files && s.files[r.id] != red(r.envelope) then s.(written := s.written - {w})
      else s.(files := s.files[r.id := red(r.envelope)], written := s.written[w := r])
    case Commit(w, _, _, _, _, _, _, _) =>
      if w in s.written then
        s.(table := Step(red, s.table, CommitOp(s, act)), written := s.written - {w})
      else s
  }

  ghost function After(red: Redactor, acts: seq<Act>): System {
    if acts == [] then System(EMPTY, map[], map[])
    else Do(red, After(red, acts[..|acts| - 1]), acts[|acts| - 1])
  }

  predicate LawfulRun(acts: seq<Act>) {
    forall i :: 0 <= i < |acts| ==> Lawful(acts[i])
  }

  predicate WrittenOk(red: Redactor, s: System) {
    forall w :: w in s.written ==>
      s.written[w].id in s.files && s.files[s.written[w].id] == red(s.written[w].envelope)
  }

  predicate ArtifactsOk(s: System) {
    forall id :: id in s.table.results ==> id in s.files && s.files[id] == s.table.results[id]
  }

  /** A step writes at most the result it reports. */
  lemma ResultsAfterStep(red: Redactor, t: Table, op: Op, id: string)
    requires id in Step(red, t, op).results
    ensures (id in t.results && Step(red, t, op).results[id] == t.results[id])
         || ((op.MarkSuccess? || op.MarkFailure?) && op.id == id
             && Reported(red, op) == Some(Step(red, t, op).results[id]))
  {
  }

  lemma DoKeepsArtifacts(red: Redactor, s: System, act: Act)
    requires WrittenOk(red, s) && ArtifactsOk(s) && Lawful(act)
    ensures WrittenOk(red, Do(red, s, act)) && ArtifactsOk(Do(red, s, act))
    ensures forall id :: id in s.files ==> id in Do(red, s, act).files && Do(red, s, act).files[id] == s.files[id]
  {
    var s' := Do(red, s, act);
    forall id | id in s'.table.results
      ensures id in s'.files && s'.files[id] == s'.table.results[id]
    {
      if act.Store? {
        ResultsAfterStep(red, s.table, act.op, id);
      } else if act.Commit? && act.worker in s.written {
        ResultsAfterStep(red, s.table, CommitOp(s, act), id);
      }
    }
  }

  lemma DoKeepsTable(red: Redactor, s: System, act: Act)
    requires Consistent(s.table) && Lawful(act)
    ensures Consistent(Do(red, s, act).table)
  {
    var op := match act
      case Store(op) => op
      case Write(_, _) => RecoverExpired("")
      case Commit(w, _, _, _, _, _, _, _) => if w in s.written then CommitOp(s, act) else RecoverExpired("");
    StepKeepsRows(red, s.table, op);
    StepKeepsResults(red, s.table, op);
    StepKeepsExclusion(red, s.table, op);
  }

  lemma {:induction false} SystemInvariant(red: Redactor, acts: seq<Act>)
    requires LawfulRun(acts)
    ensures WrittenOk(red, After(red, acts)) && ArtifactsOk(After(red, acts)) && Consistent(After(red, acts).table)
  {
    if acts != [] {
      var before, act := acts[..|acts| - 1], acts[|acts| - 1];
      SystemInvariant(red, before);
      DoKeepsArtifacts(red, After(red, before), act);
      DoKeepsTable(red, After(red, before), act);
    }
  }

  /** Every stored result, whoever reported it and however late, is on disk word for word. */
  lemma StoredResultsHaveArtifacts(red: Redactor, acts: seq<Act>, id: string)
    requires LawfulRun(acts) && id in After(red, acts).table.jobs
    ensures
      var s := After(red, acts);
      && (s.table.jobs[id].result.Some? ==> id in s.files && Some(s.files[id]) == s.table.jobs[id].result)
      && (s.table.jobs[id].status.Succeeded? ==> id in s.files && s.table.jobs[id].result == Some(s.files[id]))
  {
    SystemInvariant(red, acts);
    assert RowOk(After(red, acts).table.jobs[id]);
  }

  /** A worker that got past the artifact check never meets a conflict in the store. */
  lemma CommitNeverConflicts(red: Redactor, acts: seq<Act>, act: Act)
    requires LawfulRun(acts) && act.Commit? && act.worker in After(red, acts).written
    ensures Reply(red, After(red, acts).table, CommitOp(After(red, acts), act)) != Raised
  {
    SystemInvariant(red, acts);
  }

  /** A report gets past the artifact check exactly when it is the first on the job or says what the first said. */
  lemma WriteAcceptedIff(red: Redactor, s: System, worker: string, r: Report)
    ensures
      var s' := Do(red, s, Write(worker, r));
      && (worker in s'.written <==> r.id !in s.files || s.files[r.id] == red(r.envelope))
      && (worker in s'.written ==> s'.written[worker] == r && s'.files == s.files[r.id := red(r.envelope)])
      && (worker !in s'.written ==> s'.files == s.files) && s'.table == s.table
  {
  }

  /** The owner's commit ends the job as reported, and what it stores is the artifact. */
  lemma CommitStoresTheArtifact(red: Redactor, acts: seq<Act>, act: Act)
    requires LawfulRun(acts) && act.Commit? && act.worker in After(red, acts).written
    requires
      var s := After(red, acts);
      var id := s.written[act.worker].id;
      id in s.table.jobs && Owns(s.table.jobs[id], act.worker)
    ensures
      var s := After(red, acts);
      var r, s' := s.written[act.worker], Do(red, s, act);
      && r.id in s'.table.jobs && s'.table.jobs[r.id].status == (if r.success then Succeeded else Failed)
      && r.id in s'.files && r.id in s'.table.results && s'.table.results[r.id] == s'.files[r.id] == red(r.envelope)
      && s'.table.jobs[r.id].result == Some(red(r.envelope)) && act.worker !in s'.written
  {
    SystemInvariant(red, acts);
    CommitNeverConflicts(red, acts, act);
    var s := After(red, acts);
    var op := CommitOp(s, act);
    assert Hit(red, s.table, op, op.id);
  }

  /** One artifact per job, for ever: a retried job can only ever report what its first report said. */
  lemma {:induction false} ArtifactIsFinal(red: Redactor, acts: seq<Act>, more: seq<Act>, id: string)
    requires LawfulRun(acts) && LawfulRun(more) && id in After(red, acts).files
    ensures
      var s, s' := After(red, acts), After(red, acts + more);
      && id in s'.files && s'.files[id] == s.files[id]
      && (id in s'.table.results ==> s'.table.results[id] == s.files[id])
    decreases |more|
  {
    SystemInvariant(red, acts + more);
    if more == [] {
      assert acts + more == acts;
    } else {
      var shorter, act := more[..|more| - 1], more[|more| - 1];
      ArtifactIsFinal(red, acts, shorter, id);
      assert (acts + more)[..|acts + more| - 1] == acts + shorter;
      SystemInvariant(red, acts + shorter);
      DoKeepsArtifacts(red, After(red, acts + shorter), act);
    }
  }

  // ---- later attempts ----

  /** Nobody is between writing a report on `id` and committing it. */
  predicate NothingPending(s: System, id: string) {
    forall w :: w in s.written ==> s.written[w].id != id
  }

  /** Reports on `id` differ from attempt `k` in the attempt they name. */
  predicate OtherAttempts(red: Redactor, attemptOf: Json -> int, acts: seq<Act>, id: string, k: int) {
    forall i :: 0 <= i < |acts| && acts[i].Write? && acts[i].report.id == id ==>
      attemptOf(red(acts[i].report.envelope)) != k
  }

  /** From `s` to `s'` the job neither succeeded nor stored a result, and its artifact stands. */
  predicate Stuck(s: System, s': System, id: string) {
    && id in s.files && id in s.table.jobs && id in s'.files && id in s'.table.jobs
    && NothingPending(s', id) && s'.files[id] == s.files[id]
    && (s'.table.jobs[id].status.Succeeded? ==> s.table.jobs[id].status.Succeeded?)
    && (id in s'.table.results <==> id in s.table.results)
    && (id in s.table.results ==> s'.table.results[id] == s.table.results[id])
  }

  lemma NothingElseSucceeds(red: Redactor, t: Table, op: Op, id: string)
    requires id in t.jobs && !(op.MarkSuccess? && op.id == id) && !(op.MarkFailure? && op.id == id)
    ensures
      var t' := Step(red, t, op);
      && id in t'.jobs && (t'.jobs[id].status.Succeeded? ==> t.jobs[id].status.Succeeded?)
      && (id in t'.results <==> id in t.results) && (id in t.results ==> t'.results[id] == t.results[id])
  {
  }

  lemma OtherAttemptStep(red: Redactor, s: System, act: Act, id: string)
    requires Lawful(act) && id in s.table.jobs && id in s.files && NothingPending(s, id)
    requires act.Write? && act.report.id == id ==> s.files[id] != red(act.report.envelope)
    ensures Stuck(s, Do(red, s, act), id)
  {
    if act.Store? {
      NothingElseSucceeds(red, s.table, act.op, id);
    } else if act.Commit? && act.worker in s.written {
      NothingElseSucceeds(red, s.table, CommitOp(s, act), id);
    }
  }

  lemma StuckStep(red: Redactor, s: System, s': System, act: Act, id: string)
    requires Stuck(s, s', id) && Lawful(act)
    requires act.Write? && act.report.id == id ==> s.files[id] != red(act.report.envelope)
    ensures Stuck(s, Do(red, s', act), id)
  {
    OtherAttemptStep(red, s', act, id);
  }

  lemma OneMoreAct(red: Redactor, acts: seq<Act>, more: seq<Act>)
    requires more != []
    ensures After(red, acts + more) == Do(red, After(red, acts + more[..|more| - 1]), more[|more| - 1])
  {
    assert (acts + more)[..|acts + more| - 1] == acts + more[..|more| - 1];
  }

  /**
   * Every report names its attempt, so once the artifact of attempt `k` is on disk and nobody is about
   * to commit it, no other attempt of the job ever succeeds or stores a result.
   */
  lemma {:induction false} LaterAttemptsNeverCommit(red: Redactor, attemptOf: Json -> int, acts: seq<Act>,
                                                    more: seq<Act>, id: string)
    requires LawfulRun(more) && id in After(red, acts).files && id in After(red, acts).table.jobs
    requires NothingPending(After(red, acts), id)
    requires OtherAttempts(red, attemptOf, more, id, attemptOf(After(red, acts).files[id]))
    ensures Stuck(After(red, acts), After(red, acts + more), id)
    decreases |more|
  {
    if more == [] {
      assert acts + more == acts;
    } else {
      var shorter, act := more[..|more| - 1], more[|more| - 1];
      LaterAttemptsNeverCommit(red, attemptOf, acts, shorter, id);
      OneMoreAct(red, acts, more);
      StuckStep(red, After(red, acts), After(red, acts + shorter), act, id);
    }
  }

  // ---- the log ----

  /** The store calls of a run. */
  ghost function OpsOf(red: Redactor, acts: seq<Act>): seq<Op> {
    if acts == [] then [] else
    var rest, act := acts[..|acts| - 1], acts[|acts| - 1];
    OpsOf(red, rest) + if act.Store? then [act.op]
                       else if act.Commit? && act.worker in After(red, rest).written
                       then [CommitOp(After(red, rest), act)]
                       else []
  }

  lemma {:induction false} TableIsRun(red: Redactor, acts: seq<Act>)
    requires LawfulRun(acts)
    ensures After(red, acts).table == QueueRuns.After(red, OpsOf(red, acts)) && Admissible(OpsOf(red, acts))
  {
    if acts != [] {
      var rest, act := acts[..|acts| - 1], acts[|acts| - 1];
      TableIsRun(red, rest);
      assert Lawful(act);
      if act.Store? {
        Extend(red, OpsOf(red, rest), act.op);
      } else if act.Commit? && act.worker in After(red, rest).written {
        Extend(red, OpsOf(red, rest), CommitOp(After(red, rest), act));
      } else {
        assert OpsOf(red, acts) == OpsOf(red, rest);
      }
    }
  }

  /** Envelopes that redaction settles at once, and created ids that it leaves alone. */
  predicate SteadyReports(red: Redactor, acts: seq<Act>) {
    forall i :: 0 <= i < |acts| ==>
      && (acts[i].Write? ==> Steady(red, acts[i].report.envelope))
      && (acts[i].Store? && acts[i].op.Create? ==> red(acts[i].op.job.id) == acts[i].op.job.id)
  }

  predicate FilesSettled(red: Redactor, s: System) {
    forall id :: id in s.files ==> red(s.files[id]) == s.files[id]
  }

  /** What the log says of a result is on disk, and a succeeded job has one. */
  predicate Logged(j: Job, files: map<string, Json>, id: string) {
    && (j.result.Some? ==> id in files && j.result == Some(files[id]))
    && (j.status.Succeeded? ==> j.result.Some?)
  }

  predicate AllLogged(jobs: map<string, Job>, files: map<string, Json>) {
    forall id :: id in jobs ==> Logged(jobs[id], files, id)
  }

  lemma LoggedRow(red: Redactor, jobs: map<string, Job>, files: map<string, Json>, op: Op, id: string)
    requires id in jobs && Logged(jobs[id], files, id) && !op.Create?
    requires id in files ==> red(files[id]) == files[id]
    requires op.MarkSuccess? && op.id == id ==> id in files && red(op.result) == files[id]
    requires op.MarkFailure? && op.id == id && op.envelope.Some? ==> id in files && red(op.envelope.value) == files[id]
    ensures Logged(L.Row(red, jobs, op, id), files, id)
  {
  }

  lemma LoggedStep(red: Redactor, jobs: map<string, Job>, s: System, act: Act, op: Op)
    requires WrittenOk(red, s) && FilesSettled(red, s) && AllLogged(jobs, s.files) && Lawful(act)
    requires act == Store(op) || (act.Commit? && act.worker in s.written && op == CommitOp(s, act))
    requires op.Create? ==> red(op.job.id) == op.job.id
    ensures AllLogged(L.Step(red, jobs, op), s.files)
  {
    forall id | id in L.Step(red, jobs, op) ensures Logged(L.Step(red, jobs, op)[id], s.files, id) {
      if id in jobs {
        assert Logged(jobs[id], s.files, id);
        if !op.Create? { LoggedRow(red, jobs, s.files, op, id); }
      }
    }
  }

  lemma FilesStaySettled(red: Redactor, s: System, act: Act)
    requires FilesSettled(red, s) && (act.Write? ==> Steady(red, act.report.envelope))
    ensures FilesSettled(red, Do(red, s, act))
  {
  }

  lemma LoggedLater(jobs: map<string, Job>, files: map<string, Json>, more: map<string, Json>)
    requires AllLogged(jobs, files) && forall id :: id in files ==> id in more && more[id] == files[id]
    ensures AllLogged(jobs, more)
  {
    forall id | id in jobs ensures Logged(jobs[id], more, id) {
      assert Logged(jobs[id], files, id);
    }
  }

  /** With the log as the store, too, every stored result is on disk, and a succeeded job has one. */
  lemma {:induction false} LoggedResultsHaveArtifacts(red: Redactor, acts: seq<Act>)
    requires LawfulRun(acts) && SteadyReports(red, acts)
    ensures FilesSettled(red, After(red, acts))
    ensures AllLogged(LogRuns.LogAfter(red, OpsOf(red, acts)), After(red, acts).files)
  {
    if acts != [] {
      var rest, act := acts[..|acts| - 1], acts[|acts| - 1];
      LoggedResultsHaveArtifacts(red, rest);
      SystemInvariant(red, rest);
      var s, jobs := After(red, rest), LogRuns.LogAfter(red, OpsOf(red, rest));
      FilesStaySettled(red, s, act);
      DoKeepsArtifacts(red, s, act);
      if act.Store? {
        LogRuns.Longer(red, OpsOf(red, rest), act.op);
        LoggedStep(red, jobs, s, act, act.op);
        LoggedLater(L.Step(red, jobs, act.op), s.files, After(red, acts).files);
      } else if act.Commit? && act.worker in s.written {
        LogRuns.Longer(red, OpsOf(red, rest), CommitOp(s, act));
        LoggedStep(red, jobs, s, act, CommitOp(s, act));
        LoggedLater(L.Step(red, jobs, CommitOp(s, act)), s.files, After(red, acts).files);
      } else {
        assert OpsOf(red, acts) == OpsOf(red, rest);
        LoggedLater(jobs, s.files, After(red, acts).files);
      }
    }
  }

  /** Nor does a worker whose artifact was accepted ever meet a conflict in the log. */
  lemma LogCommitNeverConflicts(red: Redactor, acts: seq<Act>, act: Act)
    requires LawfulRun(acts) && SteadyReports(red, acts)
    requires act.Commit? && act.worker in After(red, acts).written
    ensures L.Reply(red, LogRuns.LogAfter(red, OpsOf(red, acts)), CommitOp(After(red, acts), act)) != Raised
  {
    SystemInvariant(red, acts);
    LoggedResultsHaveArtifacts(red, acts);
    var s, jobs := After(red, acts), LogRuns.LogAfter(red, OpsOf(red, acts));
    var id := s.written[act.worker].id;
    if id in jobs { assert Logged(jobs[id], s.files, id); }
  }
}

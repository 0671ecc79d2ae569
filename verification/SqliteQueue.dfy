/**
 * SQLiteQueueStore (apps/agy_queue/storage.py): the `jobs` and `job_results` tables.
 *
 * Every transition is one transaction whose effect is "UPDATE jobs SET ... WHERE ...", so the
 * specification has two parts: `Hit` is the WHERE clause and `Updated` the SET clause.
 */
module SqliteQueue {
  import opened Common
  import opened TextOrder
  import opened QueueModel
  import UtcIso

  datatype Table = Table(jobs: map<string, Job>, results: map<string, Json>)

  const EMPTY := Table(map[], map[])

  /** The stored result differs from the one reported. */
  predicate Conflicts(red: Redactor, t: Table, id: string, result: Json) {
    id in t.results && t.results[id] != red(result)
  }

  predicate Expired(j: Job, now: string) {
    j.status.Running? && j.lease.Some? && Less(j.lease.value, now)
  }

  /** Does the step's UPDATE reach row `id`? */
  ghost predicate Hit(red: Redactor, t: Table, op: Op, id: string)
    requires id in t.jobs
  {
    var j := t.jobs[id];
    match op
    case Create(_) => false
    case ClaimNext(_, now, lease, kinds) => lease.Some? && Next(t.jobs, now, kinds) == Some(id)
    case Heartbeat(x, w, _, _) => x == id && Owns(j, w)
    case RecoverExpired(now) => Expired(j, now)
    case UpdateConversation(x, _, _) => x == id
    case MarkSuccess(x, w, result, _, _, _, _, _) =>
      x == id && (j.status.Succeeded? || Owns(j, w)) && !Conflicts(red, t, id, result)
    case MarkFailure(x, w, _, _, _, _, _, _) => x == id && (j.status.Failed? || Owns(j, w))
    case ScheduleRetry(x, _, _, _, _) => x == id && j.status.Running? && MayRetry(j)
    case RetryFailed(x, _, _) => x == id && j.status.Failed? && MayRetry(j)
    case Cancel(x, _) => x == id && (j.status.Pending? || j.status.Running?)
  }

  function RecoveredRow(j: Job, now: string): Job {
    if Unsafe(j.effect) || j.attempt >= j.maxAttempts then
      j.(status := Failed, gate := Blocked, finished := Some(now), updated := now, lease := None, worker := None,
         errorCode := Some(if Unsafe(j.effect) then "external_effect_uncertain"
                           else "lease_expired_attempts_exhausted"))
    else
      j.(status := Pending, gate := Ready, errorCode := Some("lease_expired"), nextAttempt := Some(now),
         updated := now, lease := None, worker := None)
  }

  function RecoveredIn(jobs: map<string, Job>, rows: set<string>, now: string): map<string, Job> {
    map id | id in jobs :: if id in rows then RecoveredRow(jobs[id], now) else jobs[id]
  }

  function Updated(red: Redactor, op: Op, j: Job): Job {
    match op
    case Create(_) => j
    case ClaimNext(w, now, lease, _) =>
      j.(status := Running, attempt := j.attempt + 1, lease := lease, worker := Some(w),
         started := Coalesce(j.started, Some(now)), updated := now, errorCode := None, stderr := None)
    case Heartbeat(_, _, until, wall) => j.(lease := Some(until), updated := wall)
    case RecoverExpired(now) => RecoveredRow(j, now)
    case UpdateConversation(_, c, wall) => j.(conversation := Some(c), updated := wall)
    case MarkSuccess(_, _, result, path, c, head, gate, wall) =>
      j.(status := Succeeded, gate := gate, resultPath := Some(path), result := Some(red(result)),
         conversation := Coalesce(c, j.conversation), headSha := Coalesce(head, j.headSha),
         finished := Some(wall), updated := wall, lease := None, worker := None, errorCode := None, stderr := None)
    case MarkFailure(_, _, code, err, envelope, head, gate, wall) =>
      j.(status := Failed, gate := gate, errorCode := Some(code), stderr := err,
         result := Coalesce(RedactOption(red, envelope), j.result), headSha := Coalesce(head, j.headSha),
         finished := Some(wall), updated := wall, lease := None, worker := None)
    case ScheduleRetry(_, next, code, err, wall) =>
      j.(status := Pending, gate := Ready, nextAttempt := Some(next), errorCode := Some(code), stderr := err,
         updated := wall, lease := None, worker := None)
    case RetryFailed(_, now, _) =>
      j.(status := Pending, gate := Ready, nextAttempt := Some(now), errorCode := Some("manual_retry"),
         stderr := None, finished := None, updated := now)
    case Cancel(_, wall) =>
      j.(status := Cancelled, gate := Blocked, finished := Some(wall), updated := wall, lease := None, worker := None)
  }

  /** The row an insert writes: results live elsewhere and the schema is redacted. */
  function Inserted(red: Redactor, j: Job): Job {
    j.(result := None, schema := RedactOption(red, j.schema))
  }

  /** Row in `job_results` that the step writes, if any. */
  function Reported(red: Redactor, op: Op): Option<Json> {
    match op
    case MarkSuccess(_, _, result, _, _, _, _, _) => Some(red(result))
    case MarkFailure(_, _, _, _, envelope, _, _, _) => RedactOption(red, envelope)
    case _ => None
  }

  ghost function Step(red: Redactor, t: Table, op: Op): Table {
    if op.Create? then
      if op.job.id in t.jobs then t else t.(jobs := t.jobs[op.job.id := Inserted(red, op.job)])
    else
      Table(
        map id | id in t.jobs :: if Hit(red, t, op, id) then Updated(red, op, t.jobs[id]) else t.jobs[id],
        if Reported(red, op).Some? && op.id in t.jobs && Hit(red, t, op, op.id)
        then t.results[op.id := Reported(red, op).value] else t.results)
  }

  ghost function Reply(red: Redactor, t: Table, op: Op): Answer {
    match op
    case Create(j) => if j.id in t.jobs then Raised else Flag(true)
    case ClaimNext(_, now, lease, kinds) =>
      if Next(t.jobs, now, kinds).Some? && lease.None? then Raised else Claim(Next(t.jobs, now, kinds))
    case RecoverExpired(now) => Recovered(set id | id in t.jobs && Expired(t.jobs[id], now))
    case UpdateConversation(_, _, _) => Flag(true)
    case MarkSuccess(id, w, result, _, _, _, _, _) =>
      if id in t.jobs && (t.jobs[id].status.Succeeded? || Owns(t.jobs[id], w)) && Conflicts(red, t, id, result)
      then Raised else Flag(id in t.jobs && Hit(red, t, op, id))
    case _ => Flag(op.id in t.jobs && Hit(red, t, op, op.id))
  }

  /** A step aimed at one job leaves every other row alone. */
  lemma StepOnOne(red: Redactor, t: Table, op: Op)
    requires !op.Create? && !op.ClaimNext? && !op.RecoverExpired? && op.id in t.jobs
    ensures Step(red, t, op).jobs ==
            if Hit(red, t, op, op.id) then t.jobs[op.id := Updated(red, op, t.jobs[op.id])] else t.jobs
  {
  }

  // ---- the store ----

  class SqliteQueueStore {
    const redact: Redactor
    var jobs: map<string, Job>
    var results: map<string, Json>

    constructor (redact: Redactor)
      ensures this.redact == redact && View() == EMPTY
    {
      this.redact := redact;
      jobs := map[];
      results := map[];
    }

    ghost function View(): Table
      reads this
    {
      Table(jobs, results)
    }

    method CreateJob(job: Job) returns (raised: bool)
      modifies this
      ensures View() == Step(redact, old(View()), Create(job))
      ensures Reply(redact, old(View()), Create(job)) == if raised then Raised else Flag(true)
    {
      raised := job.id in jobs;
      if !raised {
        jobs := jobs[job.id := job.(result := None, schema := RedactOption(redact, job.schema))];
      }
    }

    /** The claim's SELECT ... ORDER BY created_at ASC, job_id ASC LIMIT 1. */
    method SelectNext(now: string, kinds: Option<set<Kind>>) returns (next: Option<string>)
      ensures next == Next(jobs, now, kinds)
    {
      var candidates := set id | id in jobs && Eligible(jobs, now, kinds, id);
      if candidates == {} {
        forall id | id in jobs ensures !Eligible(jobs, now, kinds, id) { assert id !in candidates; }
        return None;
      }
      var id := Earliest(jobs, candidates);
      EarliestIsNext(jobs, now, kinds, id);
      return Some(id);
    }

    /** The claim once the lease text is known; the claimed record is `jobs[id]` afterwards. */
    method ClaimWithLease(worker: string, now: string, lease: Option<string>, kinds: Option<set<Kind>>)
      returns (id: Option<string>, raised: bool)
      modifies this
      ensures View() == Step(redact, old(View()), Op.ClaimNext(worker, now, lease, kinds))
      ensures Reply(redact, old(View()), Op.ClaimNext(worker, now, lease, kinds)) ==
              if raised then Raised else Claim(id)
    {
      ghost var before := View();
      id := SelectNext(now, kinds);
      raised := id.Some? && lease.None?;
      if id.Some? && lease.Some? {
        var row := jobs[id.value];
        jobs := jobs[id.value :=
          row.(status := Running, attempt := row.attempt + 1, lease := lease, worker := Some(worker),
               started := Coalesce(row.started, Some(now)), updated := now, errorCode := None, stderr := None)];
      }
      assert Step(redact, before, Op.ClaimNext(worker, now, lease, kinds)).jobs == jobs;
    }

    method ClaimNext(worker: string, now: string, ttlSeconds: int, kinds: Option<set<Kind>>)
      returns (id: Option<string>, raised: bool)
      modifies this
      ensures
        var op := Op.ClaimNext(worker, now, UtcIso.LeaseExpiry(now, ttlSeconds), kinds);
        View() == Step(redact, old(View()), op) && Reply(redact, old(View()), op) ==
            if raised then Raised else Claim(id)
    {
      id, raised := ClaimWithLease(worker, now, UtcIso.LeaseExpiry(now, ttlSeconds), kinds);
    }

    method Heartbeat(id: string, worker: string, until: string, wall: string) returns (ok: bool)
      modifies this
      ensures View() == Step(redact, old(View()), Op.Heartbeat(id, worker, until, wall))
      ensures Flag(ok) == Reply(redact, old(View()), Op.Heartbeat(id, worker, until, wall))
    {
      ghost var before := View();
      ok := id in jobs && jobs[id].status.Running? && jobs[id].worker == Some(worker);
      if ok { jobs := jobs[id := jobs[id].(lease := Some(until), updated := wall)]; }
      assert Step(redact, before, Op.Heartbeat(id, worker, until, wall)).jobs == jobs;
    }

    /** One UPDATE per selected row. */
    method RecoverRows(rows: set<string>, now: string) returns (recovered: seq<string>)
      requires rows <= jobs.Keys
      modifies this`jobs
      ensures jobs == RecoveredIn(old(jobs), rows, now)
      ensures (set id | id in recovered) == rows && |recovered| == |rows|
    {
      var todo, done := rows, {};
      recovered := [];
      while todo != {}
        invariant todo <= rows && done == rows - todo
        invariant jobs == RecoveredIn(old(jobs), done, now)
        invariant (set id | id in recovered) == done && |recovered| == |rows| - |todo|
        decreases |todo|
      {
        var id :| id in todo;
        assert id !in done && jobs[id] == old(jobs)[id];
        jobs := jobs[id := RecoveredRow(jobs[id], now)];
        recovered := recovered + [id];
        todo, done := todo - {id}, done + {id};
      }
      assert done == rows;
    }

    method RecoverExpired(now: string) returns (recovered: seq<string>)
      modifies this
      ensures View() == Step(redact, old(View()), Op.RecoverExpired(now))
      ensures Reply(redact, old(View()), Op.RecoverExpired(now)) == Recovered(set id | id in recovered)
      ensures |recovered| == |set id | id in recovered|
    {
      ghost var before := View();
      var rows := set id | id in jobs && Expired(jobs[id], now);
      recovered := RecoverRows(rows, now);
      assert Step(redact, before, Op.RecoverExpired(now)).jobs == jobs;
    }

    method UpdateConversationId(id: string, conversation: string, wall: string)
      modifies this
      ensures View() == Step(redact, old(View()), Op.UpdateConversation(id, conversation, wall))
    {
      ghost var before := View();
      if id in jobs { jobs := jobs[id := jobs[id].(conversation := Some(conversation), updated := wall)]; }
      assert Step(redact, before, Op.UpdateConversation(id, conversation, wall)).jobs == jobs;
    }

    method MarkSuccess(id: string, worker: string, result: Json, path: string, conversation: Option<string>,
                       headSha: Option<string>, gate: Gate, wall: string) returns (ok: bool, raised: bool)
      modifies this
      ensures
        var op := Op.MarkSuccess(id, worker, result, path, conversation, headSha, gate, wall);
        && View() == Step(redact, old(View()), op)
        && Reply(redact, old(View()), op) == if raised then Raised else Flag(ok)
    {
      ghost var before := View();
      ghost var op := Op.MarkSuccess(id, worker, result, path, conversation, headSha, gate, wall);
      var serialized := redact(result);
      ok, raised := false, false;
      if id !in jobs || !(jobs[id].status.Succeeded? || Owns(jobs[id], worker)) {
        assert Step(redact, before, op).jobs == jobs;
        return;
      }
      if id in results && results[id] != serialized {
        raised := true;
        assert Step(redact, before, op).jobs == jobs;
        return;
      }
      results := results[id := serialized];
      var row := jobs[id];
      row := row.(status := Succeeded, gate := gate, resultPath := Some(path), result := Some(serialized),
                  conversation := Coalesce(conversation, row.conversation), headSha := Coalesce(headSha, row.headSha));
      row := row.(finished := Some(wall), updated := wall, lease := None, worker := None, errorCode := None,
                  stderr := None);
      jobs := jobs[id := row];
      ok := true;
      assert Step(redact, before, op).jobs == jobs;
    }

    method MarkFailure(id: string, worker: string, code: string, stderr: Option<string>, envelope: Option<Json>,
                       headSha: Option<string>, gate: Gate, wall: string) returns (ok: bool)
      modifies this
      ensures
        var op := Op.MarkFailure(id, worker, code, stderr, envelope, headSha, gate, wall);
        View() == Step(redact, old(View()), op) && Reply(redact, old(View()), op) == Flag(ok)
    {
      ghost var before := View();
      ghost var op := Op.MarkFailure(id, worker, code, stderr, envelope, headSha, gate, wall);
      var serialized := RedactOption(redact, envelope);
      ok := id in jobs && (jobs[id].status.Failed? || Owns(jobs[id], worker));
      if ok {
        if serialized.Some? { results := results[id := serialized.value]; }
        var row := jobs[id];
        row := row.(status := Failed, gate := gate, errorCode := Some(code), stderr := stderr,
                    result := Coalesce(serialized, row.result), headSha := Coalesce(headSha, row.headSha));
        jobs := jobs[id := row.(finished := Some(wall), updated := wall, lease := None, worker := None)];
      }
      assert Step(redact, before, op).jobs == jobs;
    }

    method ScheduleRetry(id: string, next: string, code: string, stderr: Option<string>, wall: string)
      returns (ok: bool)
      modifies this
      ensures View() == Step(redact, old(View()), Op.ScheduleRetry(id, next, code, stderr, wall))
      ensures Flag(ok) == Reply(redact, old(View()), Op.ScheduleRetry(id, next, code, stderr, wall))
    {
      ghost var before := View();
      ok := id in jobs && jobs[id].status.Running? && MayRetry(jobs[id]);
      if ok {
        jobs := jobs[id := jobs[id].(status := Pending, gate := Ready, nextAttempt := Some(next),
                                     errorCode := Some(code), stderr := stderr, updated := wall,
                                     lease := None, worker := None)];
      }
      assert Step(redact, before, Op.ScheduleRetry(id, next, code, stderr, wall)).jobs == jobs;
    }

    method RetryFailed(id: string, now: string, wall: string) returns (ok: bool)
      modifies this
      ensures View() == Step(redact, old(View()), Op.RetryFailed(id, now, wall))
      ensures Flag(ok) == Reply(redact, old(View()), Op.RetryFailed(id, now, wall))
    {
      ghost var before := View();
      ok := id in jobs && jobs[id].status.Failed? && MayRetry(jobs[id]);
      if ok {
        jobs := jobs[id := jobs[id].(status := Pending, gate := Ready, nextAttempt := Some(now),
                                     errorCode := Some("manual_retry"), stderr := None, finished := None,
                                     updated := now)];
      }
      assert Step(redact, before, Op.RetryFailed(id, now, wall)).jobs == jobs;
    }

    method Cancel(id: string, wall: string) returns (ok: bool)
      modifies this
      ensures View() == Step(redact, old(View()), Op.Cancel(id, wall))
      ensures Flag(ok) == Reply(redact, old(View()), Op.Cancel(id, wall))
    {
      ghost var before := View();
      ok := id in jobs && (jobs[id].status.Pending? || jobs[id].status.Running?);
      if ok {
        jobs := jobs[id := jobs[id].(status := Cancelled, gate := Blocked, finished := Some(wall), updated := wall,
                                     lease := None, worker := None)];
      }
      assert Step(redact, before, Op.Cancel(id, wall)).jobs == jobs;
    }
  }
}

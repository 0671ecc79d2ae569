/**
 * JsonlQueueStore (apps/agy_queue/storage.py): an append-only inbox of created jobs and an
 * append-only log of job images, both replayed on every read.  Every line passes through
 * redaction, and an operation on one job appends an image even when it changes nothing.
 */
module JsonlQueue {
  import opened Common
  import opened TextOrder
  import opened QueueModel

  /** EventLine is any record that is not a job image. */
  datatype Line = JobLine(job: Job) | EventLine

  const REDACTED := "<REDACTED>"

  /** `redact_json(_job_payload(job))`: the key `authorization_ref` is masked whatever its value. */
  function RedactJob(red: Redactor, j: Job): Job {
    j.(id := red(j.id), created := red(j.created), updated := red(j.updated), text := red(j.text),
       schema := RedactOption(red, j.schema), lease := RedactOption(red, j.lease),
       worker := RedactOption(red, j.worker), conversation := RedactOption(red, j.conversation),
       resultPath := RedactOption(red, j.resultPath), headSha := RedactOption(red, j.headSha),
       errorCode := RedactOption(red, j.errorCode), stderr := RedactOption(red, j.stderr),
       started := RedactOption(red, j.started), finished := RedactOption(red, j.finished),
       nextAttempt := RedactOption(red, j.nextAttempt), scope := RedactOption(red, j.scope),
       authorizationRef := Some(REDACTED), verificationJob := RedactOption(red, j.verificationJob),
       result := RedactOption(red, j.result))
  }

  // ---- replay ----

  function Replay(jobs: map<string, Job>, lines: seq<Line>): map<string, Job> {
    if lines == [] then jobs
    else
      var rest, last := Replay(jobs, lines[..|lines| - 1]), lines[|lines| - 1];
      if last.JobLine? then rest[last.job.id := last.job] else rest
  }

  lemma {:induction false} ReplayKeepsKeys(jobs: map<string, Job>, lines: seq<Line>)
    ensures jobs.Keys <= Replay(jobs, lines).Keys
    ensures forall i :: 0 <= i < |lines| && lines[i].JobLine? ==> lines[i].job.id in Replay(jobs, lines)
  {
    if lines != [] {
      ReplayKeepsKeys(jobs, lines[..|lines| - 1]);
      forall i | 0 <= i < |lines| && lines[i].JobLine?
        ensures lines[i].job.id in Replay(jobs, lines)
      {
        if i < |lines| - 1 { assert lines[i] == lines[..|lines| - 1][i]; }
      }
    }
  }

  predicate Mentions(lines: seq<Line>, id: string) {
    exists i :: 0 <= i < |lines| && lines[i].JobLine? && lines[i].job.id == id
  }

  lemma MentionsLonger(lines: seq<Line>, id: string)
    requires lines != []
    ensures Mentions(lines, id) <==>
            Mentions(lines[..|lines| - 1], id) || (lines[|lines| - 1].JobLine? && lines[|lines| - 1].job.id == id)
  {
    var rest := lines[..|lines| - 1];
    if Mentions(rest, id) {
      var i :| 0 <= i < |rest| && rest[i].JobLine? && rest[i].job.id == id;
      assert lines[i] == rest[i];
    }
    if Mentions(lines, id) {
      var i :| 0 <= i < |lines| && lines[i].JobLine? && lines[i].job.id == id;
      assert i < |rest| ==> rest[i] == lines[i];
    }
  }

  /** A job put in before other lines: overwritten if one of them mentions it, else as if put in after them. */
  lemma {:induction false} ReplayAround(jobs: map<string, Job>, j: Job, lines: seq<Line>)
    ensures Replay(jobs[j.id := j], lines) ==
            if Mentions(lines, j.id) then Replay(jobs, lines) else Replay(jobs, lines)[j.id := j]
  {
    if lines != [] {
      ReplayAround(jobs, j, lines[..|lines| - 1]);
      MentionsLonger(lines, j.id);
    }
  }

  /** What `_read_jobs` returns: the inbox first, then the event log. */
  function Read(inbox: seq<Line>, log: seq<Line>): map<string, Job> {
    Replay(Replay(map[], inbox), log)
  }

  /** Appending a job to the inbox adds exactly that job, unless the log already has a later word on its id. */
  lemma ReadAfterCreate(inbox: seq<Line>, log: seq<Line>, j: Job)
    ensures Read(inbox + [JobLine(j)], log) ==
            if Mentions(log, j.id) then Read(inbox, log) else Read(inbox, log)[j.id := j]
    ensures Mentions(log, j.id) ==> j.id in Read(inbox, log)
  {
    assert (inbox + [JobLine(j)])[..|inbox + [JobLine(j)]| - 1] == inbox;
    ReplayKeepsKeys(Replay(map[], inbox), log);
    ReplayAround(Replay(map[], inbox), j, log);
  }

  lemma ReadAfterAppend(inbox: seq<Line>, log: seq<Line>, line: Line)
    ensures Read(inbox, log + [line]) ==
            if line.JobLine? then Read(inbox, log)[line.job.id := line.job] else Read(inbox, log)
  {
    assert (log + [line])[..|log + [line]| - 1] == log;
  }

  /** One append of the store's life, in the order it happened. */
  datatype Entry = Entry(creation: bool, line: Line)

  function InboxOf(h: seq<Entry>): seq<Line> {
    if h == [] then [] else InboxOf(h[..|h| - 1]) + if h[|h| - 1].creation then [h[|h| - 1].line] else []
  }

  function LogOf(h: seq<Entry>): seq<Line> {
    if h == [] then [] else LogOf(h[..|h| - 1]) + if h[|h| - 1].creation then [] else [h[|h| - 1].line]
  }

  function Chronological(h: seq<Entry>): map<string, Job> {
    if h == [] then map[]
    else
      var rest, last := Chronological(h[..|h| - 1]), h[|h| - 1].line;
      if last.JobLine? then rest[last.job.id := last.job] else rest
  }

  /** A creation names a job that does not exist yet. */
  predicate Lawful(h: seq<Entry>) {
    h == [] ||
    (&& Lawful(h[..|h| - 1])
     && (h[|h| - 1].creation ==>
          h[|h| - 1].line.JobLine? && h[|h| - 1].line.job.id !in Chronological(h[..|h| - 1])))
  }

  /** Reading all creations first and all updates afterwards gives the state in order of time. */
  lemma {:induction false} CreationsFirstIsChronological(h: seq<Entry>)
    requires Lawful(h)
    ensures Read(InboxOf(h), LogOf(h)) == Chronological(h)
  {
    if h != [] {
      var rest, last := h[..|h| - 1], h[|h| - 1];
      CreationsFirstIsChronological(rest);
      if last.creation {
        ReadAfterCreate(InboxOf(rest), LogOf(rest), last.line.job);
        assert LogOf(h) == LogOf(rest);
      } else {
        ReadAfterAppend(InboxOf(rest), LogOf(rest), last.line);
        assert InboxOf(h) == InboxOf(rest);
      }
    }
  }

  // ---- transitions on the replayed map ----

  predicate Conflicts(red: Redactor, j: Job, result: Json) {
    j.result.Some? && red(j.result.value) != red(result)
  }

  /** `not job.lease_until` also skips the empty text. */
  predicate Expired(j: Job, now: string) {
    j.status.Running? && j.lease.Some? && j.lease.value != "" && Less(j.lease.value, now)
  }

  ghost predicate Raises(red: Redactor, jobs: map<string, Job>, op: Op) {
    match op
    case Create(j) => j.id in jobs
    case ClaimNext(_, now, lease, kinds) => Next(jobs, now, kinds).Some? && lease.None?
    case MarkSuccess(id, w, result, _, _, _, _, _) =>
      id in jobs && (jobs[id].status.Succeeded? || Owns(jobs[id], w)) && Conflicts(red, jobs[id], result)
    case _ => false
  }

  /** Does the operation's own condition hold for job `j`? */
  predicate Applies(op: Op, j: Job) {
    match op
    case Create(_) | ClaimNext(_, _, _, _) | RecoverExpired(_) => false
    case Heartbeat(_, w, _, _) => Owns(j, w)
    case UpdateConversation(_, _, _) => true
    case MarkSuccess(_, w, _, _, _, _, _, _) => j.status.Succeeded? || Owns(j, w)
    case MarkFailure(_, w, _, _, _, _, _, _) => j.status.Failed? || Owns(j, w)
    case ScheduleRetry(_, _, _, _, _) => j.status.Running? && MayRetry(j)
    case RetryFailed(_, _, _) => j.status.Failed? && MayRetry(j)
    case Cancel(_, _) => j.status.Pending? || j.status.Running?
  }

  function RecoveredJob(j: Job, now: string): Job {
    var unsafe := Unsafe(j.effect);
    var k :=
      if unsafe || j.attempt >= j.maxAttempts then
        j.(status := Failed, gate := Blocked, finished := Some(now),
           errorCode := Some(if unsafe then "external_effect_uncertain" else "lease_expired_attempts_exhausted"))
      else
        j.(status := Pending, gate := Ready, errorCode := Some("lease_expired"), nextAttempt := Some(now));
    k.(lease := None, worker := None, updated := now)
  }

  function ClaimedJob(j: Job, worker: string, now: string, lease: Option<string>): Job {
    j.(status := Running, attempt := j.attempt + 1, lease := lease, worker := Some(worker),
       started := OrElse(j.started, Some(now)), updated := now, errorCode := None, stderr := None)
  }

  /** The mutation closures, `updated_at` aside. */
  function Mutated(red: Redactor, op: Op, j: Job): Job {
    match op
    case Heartbeat(_, _, until, _) => j.(lease := Some(until))
    case UpdateConversation(_, c, _) => j.(conversation := Some(c))
    case MarkSuccess(_, _, result, path, c, head, gate, wall) =>
      j.(status := Succeeded, gate := gate, result := Some(red(result)), resultPath := Some(path),
         conversation := OrElse(c, j.conversation), headSha := OrElse(head, j.headSha),
         finished := Some(wall), lease := None, worker := None, errorCode := None, stderr := None)
    case MarkFailure(_, _, code, err, envelope, head, gate, wall) =>
      j.(status := Failed, gate := gate, errorCode := Some(code), stderr := err,
         result := if envelope.Some? then Some(red(envelope.value)) else j.result,
         headSha := OrElse(head, j.headSha), finished := Some(wall), lease := None, worker := None)
    case ScheduleRetry(_, next, code, err, _) =>
      j.(status := Pending, gate := Ready, nextAttempt := Some(next), errorCode := Some(code), stderr := err,
         lease := None, worker := None)
    case RetryFailed(_, now, _) =>
      j.(status := Pending, gate := Ready, nextAttempt := Some(now), errorCode := Some("manual_retry"),
         stderr := None, finished := None)
    case Cancel(_, wall) =>
      j.(status := Cancelled, gate := Blocked, finished := Some(wall), lease := None, worker := None)
    case _ => j
  }

  /** The image `_mutate` appends: the timestamp moves even when nothing else does. */
  function Image(red: Redactor, op: Op, j: Job): Job
    requires OnOneJob(op)
  {
    RedactJob(red, (if Applies(op, j) then Mutated(red, op, j) else j).(updated := op.wall))
  }

  /** Job `id` after the step. */
  ghost function Row(red: Redactor, jobs: map<string, Job>, op: Op, id: string): Job
    requires id in jobs
  {
    var j := jobs[id];
    match op
    case Create(_) => j
    case ClaimNext(w, now, lease, kinds) =>
      if lease.Some? && Next(jobs, now, kinds) == Some(id) then RedactJob(red, ClaimedJob(j, w, now, lease)) else j
    case RecoverExpired(now) => if Expired(j, now) then RedactJob(red, RecoveredJob(j, now)) else j
    case _ => if op.id == id && !Raises(red, jobs, op) then Image(red, op, j) else j
  }

  ghost function Step(red: Redactor, jobs: map<string, Job>, op: Op): map<string, Job> {
    if op.Create? then
      if op.job.id in jobs then jobs else jobs[red(op.job.id) := RedactJob(red, op.job)]
    else map id | id in jobs :: Row(red, jobs, op, id)
  }

  ghost function Reply(red: Redactor, jobs: map<string, Job>, op: Op): Answer {
    if Raises(red, jobs, op) then Raised
    else
      match op
      case Create(_) | UpdateConversation(_, _, _) => Flag(true)
      case ClaimNext(_, now, _, kinds) => Claim(Next(jobs, now, kinds))
      case RecoverExpired(now) => Recovered(set id | id in jobs && Expired(jobs[id], now))
      case _ => Flag(op.id in jobs && Applies(op, jobs[op.id]))
  }

  // ---- the store ----

  /** Jobs are filed under their own id, and redaction leaves the ids alone. */
  ghost predicate Filed(red: Redactor, jobs: map<string, Job>) {
    forall id :: id in jobs ==> jobs[id].id == id && red(id) == id
  }

  lemma CreateStep(red: Redactor, inbox: seq<Line>, log: seq<Line>, job: Job)
    requires Filed(red, Read(inbox, log)) && job.id !in Read(inbox, log)
    ensures
      var line := RedactJob(red, job);
      var now := Read(inbox + [JobLine(line)], log);
      && (Steady(red, job.id) ==> Filed(red, now))
      && (!Mentions(log, line.id) ==> now == Step(red, Read(inbox, log), Create(job)))
      && (Mentions(log, line.id) ==> now == Read(inbox, log) && line.id in now)
  {
    ReadAfterCreate(inbox, log, RedactJob(red, job));
  }

  lemma HistoryLonger(h: seq<Entry>, e: Entry)
    ensures InboxOf(h + [e]) == InboxOf(h) + if e.creation then [e.line] else []
    ensures LogOf(h + [e]) == LogOf(h) + if e.creation then [] else [e.line]
    ensures Lawful(h + [e]) <==>
            Lawful(h) && (e.creation ==> e.line.JobLine? && e.line.job.id !in Chronological(h))
  {
    assert (h + [e])[..|h + [e]| - 1] == h;
  }

  lemma ClaimStep(red: Redactor, jobs: map<string, Job>, op: Op)
    requires op.ClaimNext?
    ensures
      var next := Next(jobs, op.now, op.kinds);
      Step(red, jobs, op) ==
      if next.Some? && op.lease.Some? && next.value in jobs then
        var job := ClaimedJob(jobs[next.value], op.worker, op.now, op.lease);
        jobs[next.value := RedactJob(red, job)]
      else jobs
  {
  }

  lemma RecoverStep(red: Redactor, jobs: map<string, Job>, rows: set<string>, now: string)
    requires rows == set id | id in jobs && Expired(jobs[id], now)
    ensures RecoveredIn(red, jobs, rows, now) == Step(red, jobs, Op.RecoverExpired(now))
    ensures RecoveredIn(red, jobs, {}, now) == jobs
  {
  }

  class JsonlQueueStore {
    const redact: Redactor
    var inbox: seq<Line>
    var log: seq<Line>
    ghost var history: seq<Entry>   // every append, in order of time

    constructor (redact: Redactor)
      ensures this.redact == redact && Valid() && View() == map[] && Lawful(history)
    {
      this.redact := redact;
      inbox, log, history := [], [], [];
    }

    ghost function View(): map<string, Job>
      reads this
    {
      Read(inbox, log)
    }

    ghost predicate Valid()
      reads this
    {
      Filed(redact, View()) && inbox == InboxOf(history) && log == LogOf(history)
    }

    method ReadJobs() returns (jobs: map<string, Job>)
      ensures jobs == View()
      ensures Valid() && Lawful(history) ==> jobs == Chronological(history)
    {
      jobs := map[];
      for i := 0 to |inbox|
        invariant jobs == Replay(map[], inbox[..i])
      {
        assert inbox[..i + 1][..i] == inbox[..i];
        if inbox[i].JobLine? { jobs := jobs[inbox[i].job.id := inbox[i].job]; }
      }
      assert inbox[..|inbox|] == inbox;
      for i := 0 to |log|
        invariant jobs == Replay(Replay(map[], inbox), log[..i])
      {
        assert log[..i + 1][..i] == log[..i];
        if log[i].JobLine? { jobs := jobs[log[i].job.id := log[i].job]; }
      }
      assert log[..|log|] == log;
      if Lawful(history) { CreationsFirstIsChronological(history); }
    }

    ghost method Remember(e: Entry)
      modifies this`history
      ensures history == old(history) + [e]
      ensures InboxOf(history) == InboxOf(old(history)) + if e.creation then [e.line] else []
      ensures LogOf(history) == LogOf(old(history)) + if e.creation then [] else [e.line]
      ensures old(Lawful(history)) && (e.creation ==> e.line.JobLine? && e.line.job.id !in Chronological(old(history)))
              ==> Lawful(history)
    {
      HistoryLonger(history, e);
      history := history + [e];
    }

    method AppendUpdate(job: Job)
      requires Valid() && job.id in View()
      modifies this`log, this`history
      ensures Valid() && View() == old(View())[job.id := RedactJob(redact, job)]
      ensures old(Lawful(history)) ==> Lawful(history)
    {
      ReadAfterAppend(inbox, log, JobLine(RedactJob(redact, job)));
      log := log + [JobLine(RedactJob(redact, job))];
      Remember(Entry(false, JobLine(RedactJob(redact, job))));
    }

    method AppendEvent()
      requires Valid()
      modifies this`log, this`history
      ensures Valid() && View() == old(View())
      ensures old(Lawful(history)) ==> Lawful(history)
    {
      ghost var before := View();
      ReadAfterAppend(inbox, log, EventLine);
      log := log + [EventLine];
      assert View() == before;
      Remember(Entry(false, EventLine));
    }

    /**
     * The view gains the job's image, unless redaction turns the new id into one that the log has
     * already spoken of: then the new line is never seen.
     */
    method CreateJob(job: Job) returns (raised: bool)
      requires Valid()
      modifies this`inbox, this`history
      ensures raised == old(Raises(redact, View(), Create(job)))
      ensures inbox == old(inbox) + if raised then [] else [JobLine(RedactJob(redact, job))]
      ensures View() == if !raised && Mentions(log, redact(job.id)) then old(View())
                        else old(Step(redact, View(), Create(job)))
      ensures raised || Steady(redact, job.id) ==> Valid()
      ensures old(Lawful(history)) && (raised || redact(job.id) !in old(View())) ==> Lawful(history)
    {
      var jobs := ReadJobs();
      raised := job.id in jobs;
      if !raised {
        CreateStep(redact, inbox, log, job);
        inbox := inbox + [JobLine(RedactJob(redact, job))];
        Remember(Entry(true, JobLine(RedactJob(redact, job))));
      }
    }

    method ClaimNext(worker: string, now: string, lease: Option<string>, kinds: Option<set<Kind>>)
      returns (id: Option<string>, raised: bool)
      requires Valid()
      modifies this`log, this`history
      ensures Valid() && View() == old(Step(redact, View(), Op.ClaimNext(worker, now, lease, kinds)))
      ensures old(Lawful(history)) ==> Lawful(history)
      ensures old(Reply(redact, View(), Op.ClaimNext(worker, now, lease, kinds))) ==
              if raised then Raised else Claim(id)
    {
      ghost var before, op := View(), Op.ClaimNext(worker, now, lease, kinds);
      var jobs := ReadJobs();
      id := SelectNext(jobs, now, kinds);
      ClaimStep(redact, before, op);
      raised := id.Some? && lease.None?;
      if id.Some? && lease.Some? {
        AppendUpdate(ClaimedJob(jobs[id.value], worker, now, lease));
      }
      assert View() == Step(redact, before, op);
    }

    method SelectNext(jobs: map<string, Job>, now: string, kinds: Option<set<Kind>>) returns (id: Option<string>)
      ensures id == Next(jobs, now, kinds)
      ensures id.Some? ==> id.value in jobs
    {
      var busy := set x | x in jobs && jobs[x].status.Running? && jobs[x].scope.Some? :: jobs[x].scope;
      var candidates := set x | x in jobs && Candidate(jobs[x], now, kinds, busy);
      forall x ensures x in candidates <==> Eligible(jobs, now, kinds, x) {
        CandidateIsEligible(jobs, now, kinds, busy, x);
      }
      id := None;
      if candidates != {} {
        var first := Earliest(jobs, candidates);
        EarliestIsNext(jobs, now, kinds, first);
        id := Some(first);
      }
    }

    /** `_mutate` under each of its callers: read, apply, stamp, append. */
    method Mutate(op: Op) returns (ok: bool, raised: bool)
      requires Valid() && OnOneJob(op)
      modifies this`log, this`history
      ensures Valid() && View() == old(Step(redact, View(), op))
      ensures old(Lawful(history)) ==> Lawful(history)
      ensures old(Reply(redact, View(), op)) == if raised then Raised else Flag(ok)
    {
      var jobs := ReadJobs();
      ok, raised := op.UpdateConversation?, false;
      StepOnOne(redact, jobs, op);
      if op.id in jobs {
        var job := jobs[op.id];
        if op.MarkSuccess? && (job.status.Succeeded? || Owns(job, op.worker)) && Conflicts(redact, job, op.result) {
          raised := true;
        } else {
          ok := Applies(op, job);
          if ok { job := Mutated(redact, op, job); }
          job := job.(updated := op.wall);
          assert job.id == op.id;
          AppendUpdate(job);
        }
      }
    }

    method RecoverOne(jobs: map<string, Job>, ghost done: set<string>, id: string, now: string)
      requires Valid() && View() == RecoveredIn(redact, jobs, done, now) && id in jobs && jobs[id].id == id
      modifies this`log, this`history
      ensures Valid() && View() == RecoveredIn(redact, jobs, done + {id}, now)
      ensures old(Lawful(history)) ==> Lawful(history)
    {
      RecoveredOneMore(redact, jobs, done, id, now);
      var job := RecoveredJob(jobs[id], now);
      AppendUpdate(job);
    }

    method RecoverJobs(jobs: map<string, Job>, rows: set<string>, now: string) returns (recovered: seq<string>)
      requires Valid() && View() == RecoveredIn(redact, jobs, {}, now) && rows <= jobs.Keys
      requires forall id :: id in jobs ==> jobs[id].id == id
      modifies this`log, this`history
      ensures Valid() && View() == RecoveredIn(redact, jobs, rows, now)
      ensures (set id | id in recovered) == rows
      ensures old(Lawful(history)) ==> Lawful(history)
    {
      var todo, done := rows, {};
      recovered := [];
      while todo != {}
        invariant todo <= rows && done == rows - todo
        invariant Valid() && View() == RecoveredIn(redact, jobs, done, now)
        invariant old(Lawful(history)) ==> Lawful(history)
        invariant (set id | id in recovered) == done
        decreases |todo|
      {
        var id :| id in todo;
        RecoverOne(jobs, done, id, now);
        recovered := recovered + [id];
        todo, done := todo - {id}, done + {id};
      }
      assert done == rows;
    }

    method RecoverExpired(now: string) returns (recovered: seq<string>)
      requires Valid()
      modifies this`log, this`history
      ensures Valid() && View() == old(Step(redact, View(), Op.RecoverExpired(now)))
      ensures old(Lawful(history)) ==> Lawful(history)
      ensures old(Reply(redact, View(), Op.RecoverExpired(now))) == Recovered(set id | id in recovered)
    {
      var jobs := ReadJobs();
      var rows := set id | id in jobs && Expired(jobs[id], now);
      RecoverStep(redact, jobs, rows, now);
      recovered := RecoverJobs(jobs, rows, now);
    }
  }

  predicate OnOneJob(op: Op) {
    !op.Create? && !op.ClaimNext? && !op.RecoverExpired?
  }

  lemma StepOnOne(red: Redactor, jobs: map<string, Job>, op: Op)
    requires OnOneJob(op)
    ensures Step(red, jobs, op) ==
            if op.id in jobs && !Raises(red, jobs, op) then jobs[op.id := Image(red, op, jobs[op.id])] else jobs
  {
  }

  ghost function RecoveredIn(red: Redactor, jobs: map<string, Job>, rows: set<string>, now: string): map<string, Job> {
    map id | id in jobs :: if id in rows then RedactJob(red, RecoveredJob(jobs[id], now)) else jobs[id]
  }

  lemma RecoveredOneMore(red: Redactor, jobs: map<string, Job>, done: set<string>, id: string, now: string)
    requires id in jobs && jobs[id].id == id
    ensures RecoveredJob(jobs[id], now).id == id && id in RecoveredIn(red, jobs, done, now)
    ensures RecoveredIn(red, jobs, done, now)[id := RedactJob(red, RecoveredJob(jobs[id], now))] ==
            RecoveredIn(red, jobs, done + {id}, now)
  {
  }

  /** The claim's list comprehension. */
  predicate Candidate(j: Job, now: string, kinds: Option<set<Kind>>, busy: set<Option<string>>) {
    && j.status.Pending? && j.gate.Ready? && j.attempt < j.maxAttempts
    && (j.nextAttempt.None? || AtMost(j.nextAttempt.value, now))
    && (kinds.None? || j.kind in kinds.value)
    && (j.scope.None? || j.scope !in busy)
  }

  lemma CandidateIsEligible(jobs: map<string, Job>, now: string, kinds: Option<set<Kind>>,
                            busy: set<Option<string>>, id: string)
    requires busy == set x | x in jobs && jobs[x].status.Running? && jobs[x].scope.Some? :: jobs[x].scope
    ensures id in jobs && Candidate(jobs[id], now, kinds, busy) <==> Eligible(jobs, now, kinds, id)
  {
    if id in jobs && jobs[id].scope.Some? && jobs[id].scope !in busy {
      forall other | other in jobs && jobs[other].status.Running? ensures jobs[other].scope != jobs[id].scope {
        if jobs[other].scope.Some? { assert jobs[other].scope in busy; }
      }
    }
  }
}

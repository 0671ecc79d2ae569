/**
 * The queue's records and policy (apps/agy_queue/models.py) and the part of
 * apps/agy_queue/service.py that decides what a submitted job starts as.
 */
module QueueModel {
  import opened Common
  import opened TextOrder

  datatype Status = Pending | Running | Succeeded | Failed | Cancelled

  datatype Gate = Ready | WaitingAuthorization | WaitingVerification | Verified | Blocked

  datatype Kind =
    | ReadOnly | RepoChange | ReleaseGateEvaluate | MainnetPreflight
    | VerifyExternal | CloudWrite | TradingOrder | EmergencyKillSwitch

  datatype Effect = NoEffect | RepoEffect | CloudWriteEffect | ExchangeOrder | EmergencyControl

  function EffectOf(kind: Kind): Effect {
    match kind
    case ReadOnly | ReleaseGateEvaluate | MainnetPreflight | VerifyExternal => NoEffect
    case RepoChange => RepoEffect
    case CloudWrite => CloudWriteEffect
    case TradingOrder => ExchangeOrder
    case EmergencyKillSwitch => EmergencyControl
  }

  /** Effects whose outcome is unknown once a lease is lost. */
  predicate Unsafe(e: Effect) {
    e.CloudWriteEffect? || e.ExchangeOrder? || e.EmergencyControl?
  }

  /** A JSON value in its canonical serialization (sorted keys). */
  type Json = string

  /** `redact_text`/`redact_json`, kept abstract. */
  type Redactor = string -> string

  ghost predicate Idempotent(red: Redactor) {
    forall s :: Steady(red, s)
  }

  /** Redacting twice is redacting once, for this text. */
  predicate Steady(red: Redactor, s: string) {
    red(red(s)) == red(s)
  }

  predicate SteadyOption(red: Redactor, s: Option<string>) {
    s.Some? ==> Steady(red, s.value)
  }

  function RedactOption(red: Redactor, s: Option<string>): Option<string> {
    if s.Some? then Some(red(s.value)) else None
  }

  /**
   * JobRecord. `text` stands for the fields no transition reads or writes
   * (prompt, repo, model, effort, branch, session key, event path, ...).
   */
  datatype Job = Job(
    id: string, created: string, updated: string, text: string, schema: Option<Json>,
    status: Status, attempt: int, maxAttempts: int,
    lease: Option<string>, worker: Option<string>,
    conversation: Option<string>, resultPath: Option<string>, headSha: Option<string>,
    errorCode: Option<string>, stderr: Option<string>,
    started: Option<string>, finished: Option<string>, nextAttempt: Option<string>,
    scope: Option<string>, kind: Kind, effect: Effect, gate: Gate,
    authorizationRef: Option<string>, verificationJob: Option<string>,
    result: Option<Json>)

  /** The store operations, one atomic step each; `wall` is the `utc_iso()` read inside the step. */
  datatype Op =
    | Create(job: Job)
    | ClaimNext(worker: string, now: string, lease: Option<string>, kinds: Option<set<Kind>>)
    | Heartbeat(id: string, worker: string, until: string, wall: string)
    | RecoverExpired(now: string)
    | UpdateConversation(id: string, newConversation: string, wall: string)
    | MarkSuccess(id: string, worker: string, result: Json, path: string,
                  conversation: Option<string>, headSha: Option<string>, gate: Gate, wall: string)
    | MarkFailure(id: string, worker: string, code: string, stderr: Option<string>,
                  envelope: Option<Json>, headSha: Option<string>, gate: Gate, wall: string)
    | ScheduleRetry(id: string, nextAttempt: string, code: string, stderr: Option<string>, wall: string)
    | RetryFailed(id: string, now: string, wall: string)
    | Cancel(id: string, wall: string)

  /** What a step answers its caller; Raised is a QueueConflictError or a bad timestamp. */
  datatype Answer = Flag(ok: bool) | Claim(id: Option<string>) | Recovered(ids: set<string>) | Raised

  predicate Owns(j: Job, worker: string) {
    j.status.Running? && j.worker == Some(worker)
  }

  predicate MayRetry(j: Job) {
    !Unsafe(j.effect) && j.attempt < j.maxAttempts
  }

  /** No two running jobs share a scope. */
  predicate Exclusive(jobs: map<string, Job>) {
    forall a, b :: a in jobs && b in jobs && a != b && jobs[a].status.Running? && jobs[b].status.Running? ==>
      jobs[a].scope.None? || jobs[a].scope != jobs[b].scope
  }

  // ---- which job a claim takes ----

  predicate Eligible(jobs: map<string, Job>, now: string, kinds: Option<set<Kind>>, id: string) {
    && id in jobs
    && var j := jobs[id];
    && j.status.Pending? && j.gate.Ready? && j.attempt < j.maxAttempts
    && (j.nextAttempt.None? || AtMost(j.nextAttempt.value, now))
    && (kinds.None? || j.kind in kinds.value)
    && (j.scope.None? || forall other :: other in jobs && jobs[other].status.Running? ==> jobs[other].scope != j.scope)
  }

  predicate Precedes(jobs: map<string, Job>, a: string, b: string)
    requires a in jobs && b in jobs
  {
    a == b || KeyLess(jobs[a].created, a, jobs[b].created, b)
  }

  /** First eligible row in the order (created_at, job_id). */
  ghost predicate IsNext(jobs: map<string, Job>, now: string, kinds: Option<set<Kind>>, id: string) {
    && Eligible(jobs, now, kinds, id)
    && forall other :: Eligible(jobs, now, kinds, other) ==> Precedes(jobs, id, other)
  }

  ghost function Next(jobs: map<string, Job>, now: string, kinds: Option<set<Kind>>): (r: Option<string>)
    ensures r.Some? ==> IsNext(jobs, now, kinds, r.value)
  {
    if exists id :: IsNext(jobs, now, kinds, id) then
      var id :| IsNext(jobs, now, kinds, id);
      Some(id)
    else None
  }

  /** Scan for the row that `ORDER BY created_at, job_id LIMIT 1` returns. */
  method Earliest(jobs: map<string, Job>, candidates: set<string>) returns (first: string)
    requires candidates != {} && candidates <= jobs.Keys
    ensures first in candidates
    ensures forall other :: other in candidates ==> Precedes(jobs, first, other)
  {
    first :| first in candidates;
    var rest := candidates - {first};
    while rest != {}
      invariant rest <= candidates && first in candidates
      invariant forall other :: other in candidates - rest ==> Precedes(jobs, first, other)
      decreases |rest|
    {
      var id :| id in rest;
      KeyTotal(jobs[id].created, id, jobs[first].created, first);
      if KeyLess(jobs[id].created, id, jobs[first].created, first) {
        forall other | other in candidates - rest
          ensures Precedes(jobs, id, other)
        {
          if other != first {
            KeyTransitive(jobs[id].created, id, jobs[first].created, first, jobs[other].created, other);
          }
        }
        first := id;
      }
      rest := rest - {id};
    }
  }

  /** The first of a non-empty set of eligible rows is the claim's choice, and there is only one. */
  lemma EarliestIsNext(jobs: map<string, Job>, now: string, kinds: Option<set<Kind>>, first: string)
    requires IsNext(jobs, now, kinds, first)
    ensures Next(jobs, now, kinds) == Some(first)
  {
    var other := Next(jobs, now, kinds).value;
    KeyTotal(jobs[first].created, first, jobs[other].created, other);
  }

  /** Some row of a non-empty set comes first. */
  lemma {:induction false} FirstExists(jobs: map<string, Job>, candidates: set<string>) returns (first: string)
    requires candidates != {} && candidates <= jobs.Keys
    ensures first in candidates && forall other :: other in candidates ==> Precedes(jobs, first, other)
    decreases |candidates|
  {
    first :| first in candidates;
    if candidates != {first} {
      var best := FirstExists(jobs, candidates - {first});
      KeyTotal(jobs[first].created, first, jobs[best].created, best);
      if KeyLess(jobs[best].created, best, jobs[first].created, first) {
        first := best;
      } else {
        forall other | other in candidates ensures Precedes(jobs, first, other) {
          if other != first && other != best {
            assert other in candidates - {first} && Precedes(jobs, best, other);
            KeyTotal(jobs[first].created, first, jobs[best].created, best);
            KeyTransitive(jobs[first].created, first, jobs[best].created, best, jobs[other].created, other);
          }
        }
      }
    }
  }

  /** What keeps a job from being handed out at `now` to a worker that asks for `kinds`. */
  predicate HeldBack(jobs: map<string, Job>, now: string, kinds: Option<set<Kind>>, id: string)
    requires id in jobs
  {
    var j := jobs[id];
    || j.status != Pending || j.gate != Ready || j.attempt >= j.maxAttempts
    || (j.nextAttempt.Some? && Less(now, j.nextAttempt.value))
    || (kinds.Some? && j.kind !in kinds.value)
    || (j.scope.Some? && exists r :: r in jobs && jobs[r].status == Running && jobs[r].scope == j.scope)
  }

  /** Created before the other, or at the same time and with the smaller id. */
  predicate Earlier(jobs: map<string, Job>, a: string, b: string)
    requires a in jobs && b in jobs
  {
    Less(jobs[a].created, jobs[b].created) || (jobs[a].created == jobs[b].created && Less(a, b))
  }

  /** `x` is handed out exactly when nothing holds it back and every other such job was created later. */
  lemma NextIff(jobs: map<string, Job>, now: string, kinds: Option<set<Kind>>, x: string)
    ensures Next(jobs, now, kinds) == Some(x) <==>
            x in jobs && !HeldBack(jobs, now, kinds, x)
            && forall y :: y in jobs && y != x && !HeldBack(jobs, now, kinds, y) ==> Earlier(jobs, x, y)
    ensures Next(jobs, now, kinds) == None <==> forall y :: y in jobs ==> HeldBack(jobs, now, kinds, y)
  {
    forall y | y in jobs ensures Eligible(jobs, now, kinds, y) <==> !HeldBack(jobs, now, kinds, y) {
    }
    if IsNext(jobs, now, kinds, x) { EarliestIsNext(jobs, now, kinds, x); }
    var open := set y | y in jobs && Eligible(jobs, now, kinds, y);
    if open != {} {
      var first := FirstExists(jobs, open);
      assert IsNext(jobs, now, kinds, first) && !HeldBack(jobs, now, kinds, first);
    } else {
      forall y | y in jobs ensures HeldBack(jobs, now, kinds, y) { assert y !in open; }
    }
  }

  // ---- submission ----

  /** `wellFormed` is the verdict of the prompt, model, effort, schema and repository checks. */
  datatype Request = Request(
    kind: Kind, maxAttempts: int, timeoutSec: int, authorizationRef: Option<string>,
    verificationJob: Option<string>, sessionKey: Option<string>, scope: Option<string>, text: string,
    schema: Option<Json>, wellFormed: bool)

  function Strip(s: string): (r: string)
    ensures r != "" ==> !IsBlank(r[0]) && !IsBlank(r[|r| - 1])
    ensures r == "" <==> forall c :: c in s ==> IsBlank(c)
    ensures |r| <= |s|
  {
    if s == "" then ""
    else if IsBlank(s[0]) then assert s == [s[0]] + s[1..]; Strip(s[1..])
    else if IsBlank(s[|s| - 1]) then assert s == s[..|s| - 1] + [s[|s| - 1]]; Strip(s[..|s| - 1])
    else s
  }

  /** `s[i..j]` is what is left between blanks. */
  predicate BlankAround(s: string, i: nat, j: nat) {
    i <= j <= |s| && forall k :: 0 <= k < |s| && (k < i || j <= k) ==> IsBlank(s[k])
  }

  lemma BlankInFront(s: string, i: nat, j: nat)
    requires s != "" && IsBlank(s[0]) && BlankAround(s[1..], i, j)
    ensures BlankAround(s, i + 1, j + 1) && s[i + 1..j + 1] == s[1..][i..j]
  {
    assert forall k :: 0 < k < |s| ==> s[k] == s[1..][k - 1];
  }

  lemma BlankBehind(s: string, i: nat, j: nat)
    requires s != "" && IsBlank(s[|s| - 1]) && BlankAround(s[..|s| - 1], i, j)
    ensures BlankAround(s, i, j) && s[i..j] == s[..|s| - 1][i..j]
  {
    assert forall k :: 0 <= k < |s| - 1 ==> s[k] == s[..|s| - 1][k];
  }

  /** Stripping takes away blanks at the ends and nothing else. */
  lemma {:induction false} StripKeepsMiddle(s: string) returns (i: nat, j: nat)
    ensures BlankAround(s, i, j) && Strip(s) == s[i..j]
  {
    if s != "" && IsBlank(s[0]) {
      i, j := StripKeepsMiddle(s[1..]);
      BlankInFront(s, i, j);
      i, j := i + 1, j + 1;
    } else if s != "" && IsBlank(s[|s| - 1]) {
      i, j := StripKeepsMiddle(s[..|s| - 1]);
      BlankBehind(s, i, j);
    } else {
      i, j := 0, |s|;
    }
  }

  /** What a reference may look like; `secretLike` is the credential check. */
  predicate GoodReference(secretLike: string -> bool, r: Option<string>) {
    r.Some? ==>
      var s := Strip(r.value);
      0 < |s| <= 512 && '\n' !in s && '\r' !in s && !secretLike(s)
  }

  function Stripped(r: Option<string>): Option<string> {
    if r.Some? then Some(Strip(r.value)) else None
  }

  predicate NeedsAuthorization(kind: Kind) {
    kind.RepoChange? || kind.CloudWrite? || kind.MainnetPreflight?
  }

  /** The gate the service assigns (service.py, end of `submit`). */
  function InitialGate(r: Request): Gate {
    if NeedsAuthorization(r.kind) && r.authorizationRef.None? then WaitingAuthorization
    else if r.kind.CloudWrite? && r.verificationJob.None? then WaitingVerification
    else Ready
  }

  /** QueueService.submit up to the insert; None is a policy error. */
  function Submit(secretLike: string -> bool, r: Request, configuredLimit: int, root: string, id: string, now: string,
                  path: string): Option<Job>
  {
    var limit := if configuredLimit < 3 then configuredLimit else 3;
    if r.kind.TradingOrder? || r.kind.EmergencyKillSwitch? || !r.wellFormed
       || r.maxAttempts < 1 || r.maxAttempts > limit || r.timeoutSec < 1 || r.timeoutSec > 3600
       || !GoodReference(secretLike, r.authorizationRef) || !GoodReference(secretLike, r.verificationJob)
       || !GoodReference(secretLike, r.sessionKey) || !GoodReference(secretLike, r.scope)
    then None
    else Some(Job(
      id, now, now, r.text, r.schema, Pending, 0, r.maxAttempts, None, None, None, Some(path), None,
      None, None, None, None, None, Some(if r.scope.Some? then Strip(r.scope.value) else root),
      r.kind, EffectOf(r.kind), InitialGate(r), Stripped(r.authorizationRef), Stripped(r.verificationJob), None))
  }

  /** What every record handed to `create_job` looks like. */
  predicate Fresh(j: Job) {
    && j.status.Pending? && j.attempt == 0 && 1 <= j.maxAttempts <= 3
    && j.lease.None? && j.worker.None? && j.result.None?
  }

  /** Exactly which requests are accepted. */
  lemma AcceptedIff(secretLike: string -> bool, r: Request, configuredLimit: int, root: string, id: string,
                    now: string, path: string)
    ensures Submit(secretLike, r, configuredLimit, root, id, now, path).Some? <==>
            && r.kind !in {TradingOrder, EmergencyKillSwitch} && r.wellFormed
            && 1 <= r.maxAttempts <= 3 && r.maxAttempts <= configuredLimit && 1 <= r.timeoutSec <= 3600
            && (forall ref | ref in {r.authorizationRef, r.verificationJob, r.sessionKey, r.scope} && ref.Some? ::
                  && (exists c :: c in ref.value && !IsBlank(c)) && |Strip(ref.value)| <= 512
                  && '\n' !in Strip(ref.value) && '\r' !in Strip(ref.value) && !secretLike(Strip(ref.value)))
  {
    assert forall ref: Option<string> | ref.Some? ::
        (exists c :: c in ref.value && !IsBlank(c)) <==> Strip(ref.value) != "";
  }

  /**
   * An accepted job is fresh, is what was asked for, carries no blank or credential-like reference, and
   * is gated iff something is missing.  A cloud write, and it alone, starts as an unsafe effect.
   */
  lemma SubmittedJobs(secretLike: string -> bool, r: Request, configuredLimit: int, root: string, id: string,
                      now: string, path: string)
    requires Submit(secretLike, r, configuredLimit, root, id, now, path).Some?
    ensures
      var j := Submit(secretLike, r, configuredLimit, root, id, now, path).value;
      && Fresh(j) && j.id == id && !j.effect.ExchangeOrder? && !j.effect.EmergencyControl?
      && (Unsafe(j.effect) <==> r.kind == CloudWrite) && (j.effect == RepoEffect <==> r.kind == RepoChange)
      && j.kind == r.kind && j.maxAttempts == r.maxAttempts && j.text == r.text && j.schema == r.schema
      && j.created == j.updated == now && j.nextAttempt.None? && j.started.None? && j.finished.None?
      && j.authorizationRef == Stripped(r.authorizationRef) && j.verificationJob == Stripped(r.verificationJob)
      && j.resultPath == Some(path)
      && (forall ref | ref in {j.authorizationRef, j.verificationJob, Stripped(r.sessionKey), Stripped(r.scope)}
                       && ref.Some? ::
            ref.value != "" && Strip(ref.value) == ref.value && |ref.value| <= 512 && !secretLike(ref.value))
      && j.scope == Some(if r.scope.Some? then Strip(r.scope.value) else root)
      && (j.gate == WaitingAuthorization <==>
            r.kind in {RepoChange, CloudWrite, MainnetPreflight} && r.authorizationRef.None?)
      && (j.gate == WaitingVerification <==>
            r.kind == CloudWrite && r.authorizationRef.Some? && r.verificationJob.None?)
      && (j.gate != WaitingAuthorization && j.gate != WaitingVerification ==> j.gate == Ready)
  {
  }
}

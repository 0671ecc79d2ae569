/**
 * The durable launch sessions behind Mainnet execution: one SQL statement each, so one atomic step
 * (apps/trading_worker/persistence/postgres/repositories.py).  Every session is for the one symbol the
 * program allows.
 */
module LaunchSessions {
  import opened Common

  datatype Policy = STAGED_FIRST_ORDER | AUTONOMOUS_AFTER_REVIEW

  datatype LaunchState =
    ACTIVE | PAUSED_NEW_RISK | RECONCILIATION_REQUIRED | AUTONOMOUS_ACTIVE | REAUTH_REQUIRED | CLOSED

  datatype Row = Row(
    id: string, approval: string, image: string, policy: Policy, maxOrders: Option<nat>, reserved: int,
    submitted: int, state: LaunchState, continuation: Option<string>)

  type Table = map<string, Row>

  datatype Statement =
    | CloseOthers(approval: string)
    | Insert(id: string, approval: string, image: string)
    | Reserve(id: string)
    | ReleaseReservation(id: string)
    | MarkSubmitted(id: string)
    | RequireReconciliation(id: string)
    | Reconciled(id: string)
    | Activate(id: string, continuation: string, image: string)
    | FenceAll

  /** The statement's WHERE clause. */
  predicate Hits(r: Row, s: Statement) {
    match s
    case CloseOthers(approval) =>
      && r.approval != approval && r.submitted == 0
      && r.state in {ACTIVE, PAUSED_NEW_RISK, RECONCILIATION_REQUIRED, REAUTH_REQUIRED}
    case Insert(_, _, _) => false
    case Reserve(id) =>
      r.id == id &&
      (|| (r.policy.STAGED_FIRST_ORDER? && r.state.ACTIVE? && r.submitted == 0
           && r.maxOrders.Some? && r.reserved < r.maxOrders.value)
       || (r.policy.AUTONOMOUS_AFTER_REVIEW? && r.state.AUTONOMOUS_ACTIVE?))
    case ReleaseReservation(id) => r.id == id && r.state in {ACTIVE, AUTONOMOUS_ACTIVE} && r.reserved > r.submitted
    case MarkSubmitted(id) =>
      && r.id == id && r.state in {ACTIVE, AUTONOMOUS_ACTIVE} && r.reserved > r.submitted
      && (r.maxOrders.None? || r.submitted < r.maxOrders.value)
    case RequireReconciliation(id) => r.id == id && r.state in {ACTIVE, PAUSED_NEW_RISK, AUTONOMOUS_ACTIVE}
    case Reconciled(id) =>
      r.id == id && r.state.RECONCILIATION_REQUIRED? && r.submitted >= 1 && r.reserved >= r.submitted
    case Activate(id, _, image) =>
      r.id == id && r.image == image &&
      (|| (r.policy.STAGED_FIRST_ORDER? && r.state.PAUSED_NEW_RISK? && r.submitted == 1
           && r.reserved >= r.submitted && r.continuation.None?)
       || (r.policy.AUTONOMOUS_AFTER_REVIEW? && r.state.REAUTH_REQUIRED? && r.submitted >= 1))
    case FenceAll => r.policy.AUTONOMOUS_AFTER_REVIEW? && r.state.AUTONOMOUS_ACTIVE?
  }

  /** The statement's SET clause. */
  function Changed(r: Row, s: Statement): Row {
    match s
    case CloseOthers(_) => r.(state := CLOSED)
    case Insert(_, _, _) => r
    case Reserve(_) => r.(reserved := r.reserved + 1)
    case ReleaseReservation(_) => r.(reserved := r.reserved - 1)
    case MarkSubmitted(_) =>
      r.(submitted := r.submitted + 1,
         state := if r.policy.STAGED_FIRST_ORDER? then PAUSED_NEW_RISK else AUTONOMOUS_ACTIVE)
    case RequireReconciliation(_) => r.(state := RECONCILIATION_REQUIRED)
    case Reconciled(_) => r.(state := if r.policy.STAGED_FIRST_ORDER? then PAUSED_NEW_RISK else REAUTH_REQUIRED)
    case Activate(_, continuation, _) =>
      r.(policy := AUTONOMOUS_AFTER_REVIEW, maxOrders := None, continuation := Some(continuation),
         state := AUTONOMOUS_ACTIVE)
    case FenceAll => r.(state := REAUTH_REQUIRED)
  }

  function RowAfter(r: Row, s: Statement): Row {
    if Hits(r, s) then Changed(r, s) else r
  }

  predicate Inserts(t: Table, s: Statement) {
    s.Insert? && s.id !in t && forall id :: id in t ==> t[id].approval != s.approval
  }

  function Exec(t: Table, s: Statement): Table {
    if Inserts(t, s) then t[s.id := Row(s.id, s.approval, s.image, STAGED_FIRST_ORDER, Some(1), 0, 0, ACTIVE, None)]
    else map id | id in t :: RowAfter(t[id], s)
  }

  function Run(run: seq<Statement>): Table {
    if run == [] then map[] else Exec(Run(run[..|run| - 1]), run[|run| - 1])
  }

  // ---- what every statement keeps ----

  predicate RowOk(r: Row) {
    && 0 <= r.submitted <= r.reserved
    && match r.policy
       case STAGED_FIRST_ORDER =>
         && r.maxOrders == Some(1) && r.reserved <= 1 && r.continuation.None?
         && r.state !in {AUTONOMOUS_ACTIVE, REAUTH_REQUIRED}
         && (r.state.ACTIVE? || r.state.CLOSED? ==> r.submitted == 0)
         && (r.state.PAUSED_NEW_RISK? ==> r.submitted == 1)
       case AUTONOMOUS_AFTER_REVIEW =>
         && r.maxOrders.None? && r.submitted >= 1 && r.continuation.Some?
         && r.state in {AUTONOMOUS_ACTIVE, REAUTH_REQUIRED, RECONCILIATION_REQUIRED}
  }

  ghost predicate TableOk(t: Table) {
    forall id :: id in t ==> t[id].id == id && RowOk(t[id])
  }

  lemma StatementKeepsRow(r: Row, s: Statement)
    requires RowOk(r)
    ensures RowOk(RowAfter(r, s)) && RowAfter(r, s).id == r.id
    ensures RowAfter(r, s).state.AUTONOMOUS_ACTIVE? ==>
              || (s.Activate? && s.id == r.id && Hits(r, s))
              || (r.state.AUTONOMOUS_ACTIVE? && s != FenceAll && s != RequireReconciliation(r.id))
  {
  }

  lemma StatementKeepsTable(t: Table, s: Statement)
    requires TableOk(t)
    ensures TableOk(Exec(t, s))
  {
    forall id | id in Exec(t, s) ensures Exec(t, s)[id].id == id && RowOk(Exec(t, s)[id]) {
      if id in t { StatementKeepsRow(t[id], s); }
    }
  }

  lemma {:induction false} RunsAreOk(run: seq<Statement>)
    ensures TableOk(Run(run))
  {
    if run != [] {
      RunsAreOk(run[..|run| - 1]);
      StatementKeepsTable(Run(run[..|run| - 1]), run[|run| - 1]);
    }
  }

  // ---- orders ----

  predicate HitsIn(t: Table, s: Statement, id: string) {
    id in t && Hits(t[id], s)
  }

  /** Orders marked as submitted, and reservations taken less those given back, under `id`. */
  function Marked(run: seq<Statement>, id: string): nat {
    if run == [] then 0 else
    var rest, s := run[..|run| - 1], run[|run| - 1];
    Marked(rest, id) + if s.MarkSubmitted? && HitsIn(Run(rest), s, id) then 1 else 0
  }

  function Held(run: seq<Statement>, id: string): int {
    if run == [] then 0 else
    var rest, s := run[..|run| - 1], run[|run| - 1];
    Held(rest, id) + (if !HitsIn(Run(rest), s, id) then 0
                      else if s.Reserve? then 1
                      else if s.ReleaseReservation? then -1
                      else 0)
  }

  /** The counters in the row are the history, whatever else happened to the session in between. */
  lemma {:induction false} CountersAreHistory(run: seq<Statement>, id: string)
    ensures id !in Run(run) ==> Marked(run, id) == 0 && Held(run, id) == 0
    ensures id in Run(run) ==> Run(run)[id].submitted == Marked(run, id) && Run(run)[id].reserved == Held(run, id)
  {
    if run != [] {
      CountersAreHistory(run[..|run| - 1], id);
      CountersStep(Run(run[..|run| - 1]), run[|run| - 1], id);
    }
  }

  lemma CountersStep(t: Table, s: Statement, id: string)
    ensures id in t ==> id in Exec(t, s)
    ensures id in t ==> Exec(t, s)[id].submitted ==
                        t[id].submitted + if s.MarkSubmitted? && HitsIn(t, s, id) then 1 else 0
    ensures id in t ==> Exec(t, s)[id].reserved ==
                        t[id].reserved + (if !HitsIn(t, s, id) then 0
                                          else if s.Reserve? then 1
                                          else if s.ReleaseReservation? then -1
                                          else 0)
    ensures id !in t && id in Exec(t, s) ==> Exec(t, s)[id].submitted == 0 && Exec(t, s)[id].reserved == 0
  {
  }

  /** Before its continuation is approved a launch submits at most one risk-increasing order. */
  lemma OneOrderBeforeReview(run: seq<Statement>, id: string)
    requires forall i :: 0 <= i < |run| ==> !(run[i].Activate? && run[i].id == id)
    ensures Marked(run, id) <= Held(run, id) <= 1
  {
    CountersAreHistory(run, id);
    RunsAreOk(run);
    StagedUntilActivated(run, id);
  }

  lemma {:induction false} StagedUntilActivated(run: seq<Statement>, id: string)
    requires forall i :: 0 <= i < |run| ==> !(run[i].Activate? && run[i].id == id)
    ensures id in Run(run) ==> Run(run)[id].policy.STAGED_FIRST_ORDER?
  {
    if run != [] {
      StagedUntilActivated(run[..|run| - 1], id);
      RunsAreOk(run[..|run| - 1]);
    }
  }

  // ---- autonomy ----

  /** Step `i` activates `id`, and nothing fences or suspends it afterwards. */
  ghost predicate ActivatedSince(run: seq<Statement>, id: string, i: nat) {
    && i < |run| && run[i].Activate? && run[i].id == id && HitsIn(Run(run[..i]), run[i], id)
    && forall j :: i < j < |run| ==> run[j] != FenceAll && run[j] != RequireReconciliation(id)
  }

  ghost predicate IsActivated(run: seq<Statement>, id: string) {
    exists i :: ActivatedSince(run, id, i)
  }

  predicate Activates(t: Table, s: Statement, id: string) {
    s.Activate? && s.id == id && HitsIn(t, s, id)
  }

  predicate Ends(s: Statement, id: string) {
    s == FenceAll || s == RequireReconciliation(id)
  }

  /**
   * Over every run a session is autonomous exactly by its latest activation: no reconciliation, no
   * order outcome and no new launch restores it once it was fenced.
   */
  lemma {:induction false} AutonomyComesFromActivation(run: seq<Statement>, id: string)
    ensures (id in Run(run) && Run(run)[id].state.AUTONOMOUS_ACTIVE?) <==> exists i :: ActivatedSince(run, id, i)
  {
    if run == [] {
      assert !IsActivated(run, id);
    } else {
      var rest, s := run[..|run| - 1], run[|run| - 1];
      AutonomyComesFromActivation(rest, id);
      RunsAreOk(rest);
      ActivatedStep(run, id);
      if id in Run(run) && Run(run)[id].state.AUTONOMOUS_ACTIVE? { AutonomyEnters(Run(rest), s, id); }
      ActivatedStays(Run(rest), s, id);
      assert IsActivated(run, id) <==> exists i :: ActivatedSince(run, id, i);
    }
  }

  lemma ActivatedStep(run: seq<Statement>, id: string)
    requires run != []
    ensures
      var rest, s := run[..|run| - 1], run[|run| - 1];
      IsActivated(run, id) <==> Activates(Run(rest), s, id) || (IsActivated(rest, id) && !Ends(s, id))
  {
    var rest, s := run[..|run| - 1], run[|run| - 1];
    if Activates(Run(rest), s, id) {
      assert ActivatedSince(run, id, |rest|);
    } else if IsActivated(rest, id) && !Ends(s, id) {
      var i: nat :| ActivatedSince(rest, id, i);
      SinceExtends(run, id, i);
    } else if IsActivated(run, id) {
      var i: nat :| ActivatedSince(run, id, i);
      SinceRestricts(run, id, i);
    }
  }

  lemma SinceRestricts(run: seq<Statement>, id: string, i: nat)
    requires run != [] && ActivatedSince(run, id, i)
    ensures i < |run| - 1 ==> ActivatedSince(run[..|run| - 1], id, i) && !Ends(run[|run| - 1], id)
    ensures i == |run| - 1 ==> Activates(Run(run[..|run| - 1]), run[|run| - 1], id)
  {
    var rest := run[..|run| - 1];
    if i < |rest| { assert rest[..i] == run[..i]; }
  }

  lemma SinceExtends(run: seq<Statement>, id: string, i: nat)
    requires run != [] && ActivatedSince(run[..|run| - 1], id, i) && !Ends(run[|run| - 1], id)
    ensures ActivatedSince(run, id, i)
  {
    var rest := run[..|run| - 1];
    assert rest[..i] == run[..i] && forall j :: 0 <= j < |rest| ==> rest[j] == run[j];
  }

  lemma AutonomyEnters(t: Table, s: Statement, id: string)
    requires TableOk(t) && id in Exec(t, s) && Exec(t, s)[id].state.AUTONOMOUS_ACTIVE?
    ensures id in t
    ensures || (s.Activate? && s.id == id && HitsIn(t, s, id))
            || (t[id].state.AUTONOMOUS_ACTIVE? && s != FenceAll && s != RequireReconciliation(id))
  {
    if id in t { StatementKeepsRow(t[id], s); }
  }

  lemma ActivatedStays(t: Table, s: Statement, id: string)
    requires TableOk(t)
    ensures id in t && t[id].state.AUTONOMOUS_ACTIVE? && s != FenceAll && s != RequireReconciliation(id) ==>
              Exec(t, s)[id].state.AUTONOMOUS_ACTIVE?
    ensures s.Activate? && s.id == id && HitsIn(t, s, id) ==> Exec(t, s)[id].state.AUTONOMOUS_ACTIVE?
  {
  }

  /** An order slot is granted to a fresh launch once, and otherwise only under a live activation. */
  lemma SlotNeedsAuthority(run: seq<Statement>, id: string)
    requires HitsIn(Run(run), Reserve(id), id)
    ensures (exists i :: ActivatedSince(run, id, i)) || (Marked(run, id) == 0 && Held(run, id) == 0)
  {
    CountersAreHistory(run, id);
    AutonomyComesFromActivation(run, id);
    RunsAreOk(run);
  }

  // ---- what the statements' conditions come to ----

  /** For the sessions there can be, when each statement finds its row. */
  lemma HitsOfReachable(run: seq<Statement>, id: string, other: string, approval: string, image: string)
    requires id in Run(run)
    ensures
      var r := Run(run)[id];
      var running := r.state in {ACTIVE, AUTONOMOUS_ACTIVE};
      && (forall s | s in {Reserve(other), ReleaseReservation(other), MarkSubmitted(other), Reconciled(other),
                           RequireReconciliation(other), Activate(other, approval, image)} && other != id ::
            !Hits(r, s))
      && (Hits(r, Reserve(id)) <==> r.state == AUTONOMOUS_ACTIVE || (r.state == ACTIVE && r.reserved == 0))
      && (Hits(r, ReleaseReservation(id)) <==> running && r.submitted < r.reserved)
      && (Hits(r, MarkSubmitted(id)) <==> running && r.submitted < r.reserved)
      && (Hits(r, RequireReconciliation(id)) <==> running || r.state == PAUSED_NEW_RISK)
      && (Hits(r, Reconciled(id)) <==> r.state == RECONCILIATION_REQUIRED && r.submitted > 0)
      && (Hits(r, Activate(id, approval, image)) <==>
            r.image == image && r.state in {PAUSED_NEW_RISK, REAUTH_REQUIRED})
      && (Hits(r, FenceAll) <==> r.state == AUTONOMOUS_ACTIVE)
      && (Hits(r, CloseOthers(approval)) <==>
            r.approval != approval && r.submitted == 0 && r.state in {ACTIVE, RECONCILIATION_REQUIRED})
  {
    RunsAreOk(run);
    assert Run(run)[id].id == id && RowOk(Run(run)[id]);
    OrderHits(Run(run)[id]);
    ReviewHits(Run(run)[id], approval, image);
  }

  lemma OrderHits(r: Row)
    requires RowOk(r)
    ensures Hits(r, Reserve(r.id)) <==> r.state == AUTONOMOUS_ACTIVE || (r.state == ACTIVE && r.reserved == 0)
    ensures Hits(r, MarkSubmitted(r.id)) <==> r.state in {ACTIVE, AUTONOMOUS_ACTIVE} && r.submitted < r.reserved
  {
  }

  lemma ReviewHits(r: Row, approval: string, image: string)
    requires RowOk(r)
    ensures Hits(r, Reconciled(r.id)) <==> r.state == RECONCILIATION_REQUIRED && r.submitted > 0
    ensures Hits(r, Activate(r.id, approval, image)) <==>
            r.image == image && r.state in {PAUSED_NEW_RISK, REAUTH_REQUIRED}
    ensures Hits(r, FenceAll) <==> r.state == AUTONOMOUS_ACTIVE
    ensures Hits(r, CloseOthers(approval)) <==>
            r.approval != approval && r.submitted == 0 && r.state in {ACTIVE, RECONCILIATION_REQUIRED}
  {
  }

  /** Step `i` is the launch that filed the session. */
  ghost predicate Launches(run: seq<Statement>, id: string, i: nat) {
    i < |run| && Inserts(Run(run[..i]), run[i]) && run[i].id == id
  }

  lemma OriginKept(t: Table, s: Statement, id: string)
    requires id in Exec(t, s)
    ensures id in t ==> Exec(t, s)[id].image == t[id].image && Exec(t, s)[id].approval == t[id].approval
    ensures id !in t ==> Inserts(t, s) && s.id == id && Exec(t, s)[id].image == s.image
                         && Exec(t, s)[id].approval == s.approval
  {
  }

  lemma {:induction false} LaunchOf(run: seq<Statement>, id: string) returns (i: nat)
    requires id in Run(run)
    ensures Launches(run, id, i) && Run(run)[id].image == run[i].image && Run(run)[id].approval == run[i].approval
  {
    var rest, s := run[..|run| - 1], run[|run| - 1];
    OriginKept(Run(rest), s, id);
    if id in Run(rest) {
      i := LaunchOf(rest, id);
      assert rest[..i] == run[..i];
    } else {
      i := |rest|;
      assert run[..i] == rest;
    }
  }

  /** Over every run a session becomes autonomous only under the image it was launched with. */
  lemma AutonomousImageWasLaunched(run: seq<Statement>, id: string, i: nat) returns (j: nat)
    requires ActivatedSince(run, id, i)
    ensures j < i && Launches(run, id, j) && run[j].image == run[i].image
  {
    j := LaunchOf(run[..i], id);
    assert run[..i][..j] == run[..j];
  }

  /** A session's row under one statement after another. */
  function Four(r: Row, a: Statement, b: Statement, c: Statement, d: Statement): Row {
    RowAfter(RowAfter(RowAfter(RowAfter(r, a), b), c), d)
  }

  lemma OneSession(id: string, r: Row, a: Statement, b: Statement, c: Statement, d: Statement)
    requires forall s | s in {a, b, c, d} :: !s.Insert?
    ensures Exec(Exec(Exec(Exec(map[id := r], a), b), c), d) == map[id := Four(r, a, b, c, d)]
  {
    forall r: Row, s | s in {a, b, c, d} ensures Exec(map[id := r], s) == map[id := RowAfter(r, s)] {
    }
  }

  /**
   * The life of a session: reserved, given back, reserved again and submitted; reconciled and
   * activated, and so on; and how it can end.
   */
  lemma LaunchLife(id: string, approval: string, image: string, c: string)
    ensures
      var first := Row(id, approval, image, STAGED_FIRST_ORDER, Some(1), 0, 0, ACTIVE, None);
      var reserve, mark, activate := Reserve(id), MarkSubmitted(id), Activate(id, c, image);
      var require, reconciled := RequireReconciliation(id), Reconciled(id);
      var submitted := Four(first, reserve, ReleaseReservation(id), reserve, mark);
      var active := Four(submitted, require, reconciled, activate, reserve);
      && Run([Insert(id, approval, image)]) == map[id := first]
      && submitted == Row(id, approval, image, STAGED_FIRST_ORDER, Some(1), 1, 1, PAUSED_NEW_RISK, None)
      && active == Row(id, approval, image, AUTONOMOUS_AFTER_REVIEW, None, 2, 1, AUTONOMOUS_ACTIVE, Some(c))
      && RowAfter(active, mark) == active.(submitted := 2)
      && RowAfter(submitted, require) == submitted.(state := RECONCILIATION_REQUIRED)
      && RowAfter(RowAfter(submitted, require), reconciled) == submitted
      && RowAfter(active, require) == active.(state := RECONCILIATION_REQUIRED)
      && RowAfter(RowAfter(active, require), reconciled) == RowAfter(active, FenceAll)
      && RowAfter(active, FenceAll) == active.(state := REAUTH_REQUIRED)
      && RowAfter(first, CloseOthers(approval + "x")) == first.(state := CLOSED)
  {
    assert [Insert(id, approval, image)][..0] == [];
  }
}

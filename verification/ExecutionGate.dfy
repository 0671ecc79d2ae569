/**
 * Exactly when an execution starts (readiness and the decision gate of apps/trading_worker/main.py and
 * apps/trading_worker/venues/binance/gates.py), in terms of flags, adapter, session and evidence; and
 * what the control operations leave of it.
 */
module ExecutionGate {
  import opened Common
  import opened LaunchSessions
  import opened WorkerControl
  import opened WorkerRuns

  // ---- exactly when ----

  /** The adapter in use is connected, authorized and in sync. */
  predicate Sound(l: Local) {
    && l.adapter.Some? && l.adapter.value in l.adapters
    && l.adapters[l.adapter.value] == Adapter(Health(true, true, true, true), true, false)
  }

  lemma SyncedIs(l: Local)
    requires l.adapter.Some? && l.mode != PAPER
    ensures
      var m := Synced(l);
      && (Sound(l) ==> m == l.(health := HEALTHY.health, engine := m.engine))
      && (m.engine in {ARMED, PAUSED, RECOVERY_ONLY} <==> Sound(l) && !l.kill && l.configured)
      && (Sound(l) && !l.kill && l.configured ==>
            m.engine == if l.recovery then RECOVERY_ONLY else if l.pause then PAUSED else ARMED)
  {
  }

  /** The session that readiness goes by allows this worker's policy. */
  predicate SessionAllows(own: Option<Row>, copy: Option<Row>) {
    var session := if copy != None then copy else own;
    && session.Some?
    && if own.Some? && own.value.policy == AUTONOMOUS_AFTER_REVIEW
       then session.value.policy == AUTONOMOUS_AFTER_REVIEW && session.value.state == AUTONOMOUS_ACTIVE
       else session.value.state == ACTIVE
  }

  /** Against the main network: exactly when all of this holds. */
  lemma LiveStartsIff(w: World, e: Env, d: Decision)
    requires w.local.mode == LIVE
    ensures
      var l := w.local;
      Starts(w, e, d) <==>
        && l.engine in {ARMED, PAUSED, RECOVERY_ONLY} && l.configured
        && !l.kill && !l.pause && !l.recovery
        && Sound(l) && SessionAllows(l.session, w.mirror) && d.permitted
        && e.liveApproved && e.mainnetConfigured && e.accountReady && e.accountRiskReady && e.rulesReady
        && e.marketFresh && e.persistenceReady
  {
    if w.local.adapter.Some? { SyncedIs(w.local); }
  }

  /** Against the test network: a pause or recovery bars only what increases risk. */
  lemma TestnetStartsIff(w: World, e: Env, d: Decision)
    requires w.local.mode == TESTNET
    ensures
      var l := w.local;
      Starts(w, e, d) <==>
        && l.engine in {ARMED, PAUSED, RECOVERY_ONLY} && l.configured
        && !l.kill && (d.riskIncreasing ==> !l.pause && !l.recovery)
        && Sound(l) && d.permitted
        && e.testnetEnabled && e.testnetConfigured && e.soakApproved && e.launchApproved && e.testsVerified
        && e.ciVerified && e.contractVerified && e.trialVerified && e.accountReady && e.rulesReady && e.marketFresh
        && e.persistenceReady
  {
    if w.local.adapter.Some? { SyncedIs(w.local); }
  }

  /** In PAPER nothing is sent. */
  lemma PaperNeverStarts(w: World, e: Env, d: Decision)
    requires w.local.mode == PAPER
    ensures !Starts(w, e, d)
  {
  }

  // ---- runs that start one ----

  /** Everything the outside can contribute. */
  const CLEARED := Env(true, true, true, true, true, true, true, true, true, true, true, true, true, true, true, true)

  /** From the start: a launch is filed, armed and may send its first order. */
  lemma StagedStartRun(id: string, approval: string, image: string, d: Decision)
    requires d.permitted
    ensures
      var acts := [ArmMode(LIVE), MoveAdapter(0, HEALTHY), Attach(Some(0))] +
                  [Sql(Insert(id, approval, image)), Fetch(0, id), ArmEnd(LIVE, 0)];
      Starts(After(START, acts), CLEARED, d)
  {
    ConnectedRun();
    ArmedRun(id, approval, image);
    AfterBoth(START, [ArmMode(LIVE), MoveAdapter(0, HEALTHY), Attach(Some(0))],
              [Sql(Insert(id, approval, image)), Fetch(0, id), ArmEnd(LIVE, 0)]);
    LiveStartsIff(Armed(id, approval, image), CLEARED, d);
  }

  /** ... and goes on autonomously after its continuation was approved and taken over. */
  lemma AutonomousStartRun(id: string, approval: string, image: string, continuation: string, d: Decision)
    requires d.permitted
    ensures Starts(After(START, ArmedActs(id, approval, image, continuation)), CLEARED, d)
  {
    ArmedAutonomous(id, approval, image, continuation);
    LiveStartsIff(After(START, ArmedActs(id, approval, image, continuation)), CLEARED, d);
  }

  // ---- after the operator took the worker down ----

  predicate NoAttach(acts: seq<Act>) {
    forall i :: 0 <= i < |acts| ==> !(acts[i].Attach? && acts[i].adapter.Some?)
  }

  lemma StaysDetached(w: World, a: Act)
    requires w.local.adapter.None? && !(a.Attach? && a.adapter.Some?)
    ensures Do(w, a).local.adapter.None?
  {
    if OnlyLocal(a) { LocalStaysDetached(w.local, a); } else { SharedStaysDetached(w, a); }
  }

  lemma LocalStaysDetached(l: Local, a: Act)
    requires l.adapter.None? && !(a.Attach? && a.adapter.Some?)
    ensures DoLocal(l, a).adapter.None?
  {
  }

  lemma SharedStaysDetached(w: World, a: Act)
    requires w.local.adapter.None? && !OnlyLocal(a)
    ensures DoShared(w, a).local.adapter.None?
  {
  }

  /** Disarmed or reset, nothing starts in any run until an adapter is attached again. */
  lemma {:induction false} NothingStartsDetached(w: World, down: Act, acts: seq<Act>, e: Env, d: Decision)
    requires down in {DisarmEnd, ResetArm, ResetContinuation} && NoAttach(acts)
    ensures
      var v := After(Do(w, down), acts);
      v.local.adapter.None? && !Starts(v, e, d)
  {
    if acts != [] {
      NothingStartsDetached(w, down, acts[..|acts| - 1], e, d);
      StaysDetached(After(Do(w, down), acts[..|acts| - 1]), acts[|acts| - 1]);
    }
  }

  /** What taking the worker down leaves: no adapter, no configuration; a failed arm also no session and no network. */
  lemma TakenDown(w: World, down: Act)
    requires down in {DisarmEnd, ResetArm, ResetContinuation}
    ensures
      var l, v := w.local, Do(w, down).local;
      && v.adapter.None? && v.health == DOWN && !v.configured && !v.pause && !v.recovery && v.kill == l.kill
      && v.mode == (if down == ResetArm then PAPER else if down == ResetContinuation then LIVE else l.mode)
      && (down == ResetArm ==> v.session.None?) && (down != ResetArm ==> v.session == l.session)
      && (down != ResetContinuation ==> v.launchId.None?)
      && v.engine == (if down == DisarmEnd && l.kill then EMERGENCY else DISARMED)
  {
  }

  // ---- requests ----

  /** Asked to resume new risk in LIVE: only an unused staged launch or a live activation does. */
  lemma ResumesIff(w: World)
    ensures
      var l, v := w.local, Do(w, SetPause(false)).local;
      !v.pause <==>
        l.mode != LIVE ||
        (l.session.Some? &&
          (|| (l.session.value.policy == AUTONOMOUS_AFTER_REVIEW && l.session.value.state == AUTONOMOUS_ACTIVE)
           || (l.session.value.policy == STAGED_FIRST_ORDER && l.session.value.state == ACTIVE
               && l.session.value.submitted == 0)))
  {
  }

  /** A fence that lands and reads back shows the worker its own session, waiting for a new approval. */
  lemma FenceShowsReauth(l: Local, t: Table, latest: string, id: string)
    requires TableOk(t) && l.mode == LIVE && Autonomous(l.session) && l.launchId == Some(id)
    requires id in t && t[id].state == AUTONOMOUS_ACTIVE
    ensures
      var (m, u) := Fence(l, t, Answered, latest);
      && m.session == Some(t[id].(state := REAUTH_REQUIRED)) && m.launchId == Some(id)
      && u[id].state == REAUTH_REQUIRED
  {
    assert Hits(t[id], FenceAll);
  }

  /**
   * A reconciliation that comes back in sync moves a suspended session with submitted orders on: staged
   * to its pause, autonomous to its new approval; one that does not leaves the rows alone.
   */
  lemma ReconcileMovesSession(l: Local, t: Table, sight: Sight, id: string)
    requires TableOk(t) && l.adapter.Some? && l.launchId == Some(id) && id in t && sight.ending.Returned?
    ensures
      var (m, u) := Reconcile(l, t, sight, Answered);
      && (!sight.seen.health.inSync ==> u == t && m.session == l.session)
      && (sight.seen.health.inSync ==>
            && id in u && m.session == Some(u[id]) && m.launchId == Some(id)
            && u[id] == if t[id].state == RECONCILIATION_REQUIRED && t[id].submitted > 0
                        then t[id].(state := if t[id].policy == STAGED_FIRST_ORDER then PAUSED_NEW_RISK
                                             else REAUTH_REQUIRED)
                        else t[id])
  {
    SyncedSession(WithAdapter(l, sight.seen));
    var s := LaunchSessions.Reconciled(id);
    assert Exec(t, s)[id] == RowAfter(t[id], s) && t[id].id == id && RowOk(t[id]);
  }

  lemma SyncedSession(l: Local)
    ensures Synced(l).session == l.session && Synced(l).launchId == l.launchId
  {
  }

  // ---- what arms, activates and stops the worker ----

  /** Arming in LIVE takes exactly an unused launch, and shows the worker that one. */
  lemma LiveArmIff(w: World, task: nat, row: Option<Row>)
    requires task in w.tasks && w.tasks[task] == Fetched(row)
    ensures
      var v := Do(w, ArmEnd(LIVE, task));
      var unused := row.Some? && row.value.state == ACTIVE && row.value.reserved == 0 && row.value.submitted == 0;
      && (unused ==> v.local.engine == ARMED && v.local.configured && v.local.session == row
                     && v.local.launchId == Some(row.value.id))
      && (!unused ==> v == w)
  {
  }

  /** A continuation is taken over with its session; a worker that is not ready for it goes on to fence it. */
  lemma ContinuationTakenOver(w: World, task: nat, row: Row)
    requires task in w.tasks && w.tasks[task] == Activated(row)
    ensures
      var v := Do(w, ContinueEnd(task));
      && v.local.session == v.mirror == Some(row) && !v.local.pause && !v.local.recovery && v.local.configured
      && (v.local.engine == ARMED <==>
            !w.local.kill && (w.local.mode == PAPER || (w.local.health == HEALTHY.health && TradeAuthorized(w.local))))
      && (w.local.mode == LIVE && Autonomous(Some(row)) && v.local.engine != ARMED ==>
            task in v.tasks && v.tasks[task] == Fencing(Some(row.id)))
  {
  }

  /** An order that could not be marked sets the switch: nothing starts until a verified release. */
  lemma UnmarkedOrderStops(w: World, acts: seq<Act>, e: Env, d: Decision)
    requires forall i :: 0 <= i < |acts| ==> !Clears(After(Do(w, OrderUnmarked), acts[..i]), acts[i])
    ensures !Starts(After(Do(w, OrderUnmarked), acts), e, d)
  {
    NoStartUntilRelease(Do(w, OrderUnmarked), acts, e, d);
  }

  /** A fault pauses new risk until one of the acts that lift a pause. */
  lemma FaultPauses(w: World, acts: seq<Act>, e: Env, d: Decision)
    requires forall i :: 0 <= i < |acts| ==> !Unpauses(After(Do(w, PauseForFault), acts[..i]), acts[i])
    ensures
      var v := After(Do(w, PauseForFault), acts);
      v.local.pause && (Starts(v, e, d) ==> v.local.mode == TESTNET && !d.riskIncreasing)
  {
    PauseOutlivesRelease(Do(w, PauseForFault), acts, e, d);
  }

  /** Exactly what takes a set switch down: streaming, authenticated, and a release that saw its adapter in sync. */
  lemma SwitchFallsIff(w: World, a: Act)
    requires w.local.kill
    ensures !Do(w, a).local.kill <==>
            || (a == ReleasePaper && w.local.mode == PAPER && w.local.adapter.None?)
            || (&& a.ReleaseEnd? && a.task in w.tasks && w.tasks[a.task].Synchronized?
                && var id := w.tasks[a.task].adapter;
                   id in w.local.adapters && w.local.adapters[id].health.streamHealthy
                   && w.local.adapters[id].health.authenticated)
    ensures !Do(w, a).local.kill ==> Do(w, a).local.pause == w.local.pause
  {
    KillClearsIff(w, a);
  }
}

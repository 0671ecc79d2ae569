/**
 * The trading worker's control flags, kill switch, launch fence and execution gate
 * (apps/trading_worker/main.py, apps/trading_worker/venues/binance/gates.py).
 *
 * `Local` is the worker's own state.  A `World` adds what outlives or races with it: the durable
 * launch sessions, the persistence manager's copy of one, and the coroutines that are waiting.
 * Each stretch of code between two awaits is one act, so every interleaving of requests is a run.
 */
module WorkerControl {
  import opened Common
  import opened LaunchSessions

  datatype Engine = DISARMED | ARMING | ARMED | PAUSED | RECOVERY_ONLY | DEGRADED | EMERGENCY

  datatype Health = Health(ready: bool, authenticated: bool, streamHealthy: bool, inSync: bool)

  /** The exchange adapter as the worker reads it. */
  datatype Adapter = Adapter(health: Health, tradeAuthorized: bool, authenticationFailed: bool)

  const DOWN := Health(false, false, false, false)

  datatype Local = Local(
    mode: Mode, kill: bool, pause: bool, recovery: bool, engine: Engine, configured: bool,
    adapter: Option<nat>, adapters: map<nat, Adapter>, health: Health,
    session: Option<Row>, launchId: Option<string>)

  // ---- derivations ----

  function Look(l: Local, id: nat): Adapter {
    if id in l.adapters then l.adapters[id] else Adapter(DOWN, false, false)
  }

  predicate TradeAuthorized(l: Local) {
    l.adapter.Some? && Look(l, l.adapter.value).tradeAuthorized
  }

  predicate Degraded(l: Local) {
    l.mode != PAPER && !(l.health == Health(true, true, true, true) && TradeAuthorized(l))
  }

  function EngineOf(l: Local): Engine {
    if l.kill then EMERGENCY
    else if !l.configured then DISARMED
    else if Degraded(l) then DEGRADED
    else if l.recovery then RECOVERY_ONLY
    else if l.pause then PAUSED
    else ARMED
  }

  function Refreshed(l: Local): Local {
    l.(engine := EngineOf(l))
  }

  /** `invalidate_authentication`. */
  function Dropped(a: Adapter): Adapter {
    a.(health := a.health.(ready := false, authenticated := false), tradeAuthorized := false)
  }

  /** An authentication failure found by reconciliation is dropped on the adapter before it is copied. */
  function Invalidated(a: Adapter): Adapter {
    if a.authenticationFailed then Dropped(a) else a
  }

  function Synced(l: Local): Local {
    if l.adapter.None? then l else
    var a := Invalidated(Look(l, l.adapter.value));
    Refreshed(l.(adapters := l.adapters[l.adapter.value := a], health := a.health))
  }

  predicate Autonomous(session: Option<Row>) {
    session.Some? && session.value.policy.AUTONOMOUS_AFTER_REVIEW? && session.value.state.AUTONOMOUS_ACTIVE?
  }

  predicate StagedPending(session: Option<Row>) {
    && session.Some? && session.value.policy.STAGED_FIRST_ORDER? && session.value.state.ACTIVE?
    && session.value.submitted == 0
  }

  predicate MayUnpause(l: Local) {
    l.mode == LIVE ==> Autonomous(l.session) || StagedPending(l.session)
  }

  function PauseSet(l: Local, active: bool): Local {
    Refreshed(l.(pause := active || !MayUnpause(l)))
  }

  function WithSession(l: Local, session: Option<Row>): Local {
    l.(session := session, launchId := if session.Some? then Some(session.value.id) else None)
  }

  predicate NeedsFence(l: Local) {
    l.mode == LIVE && Autonomous(l.session)
  }

  /** The read-back must show the fence; anything else drops the session. */
  function FencedWith(l: Local, answer: Option<Row>): Local {
    if answer.Some? && answer.value.state.REAUTH_REQUIRED? then WithSession(l, answer) else WithSession(l, None)
  }

  function Engaged(l: Local): Local {
    l.(kill := true, pause := true, engine := EMERGENCY)
  }

  function Released(l: Local): Local {
    Refreshed(l.(kill := false))
  }

  function Disarmed(l: Local): Local {
    l.(adapter := None, health := DOWN, configured := false, launchId := None, pause := false, recovery := false,
       engine := if l.kill then EMERGENCY else DISARMED)
  }

  function ArmReset(l: Local): Local {
    WithSession(l, None).(adapter := None, health := DOWN, mode := PAPER, configured := false, pause := false,
                          recovery := false, engine := DISARMED)
  }

  function ContinuationReset(l: Local): Local {
    l.(adapter := None, health := DOWN, mode := LIVE, configured := false, pause := false, recovery := false,
       engine := DISARMED)
  }

  function Continued(l: Local, activated: Row): Local {
    Refreshed(WithSession(l, Some(activated)).(configured := true, pause := false, recovery := false))
  }

  // ---- whole operations, undisturbed ----

  function Get(t: Table, id: string): Option<Row> {
    if id in t then Some(t[id]) else None
  }

  /** How far a durable update and its read-back get: not at all, only the update, both. */
  datatype Reach = Down | Landed | Answered

  /** Without a launch id the read takes the latest session. */
  function Fence(l: Local, t: Table, reach: Reach, latest: string): (Local, Table) {
    if !NeedsFence(l) then (l, t)
    else if reach.Down? then (WithSession(l, None), t)
    else if reach.Landed? then (WithSession(l, None), Exec(t, FenceAll))
    else var u := Exec(t, FenceAll); (FencedWith(l, Get(u, if l.launchId.Some? then l.launchId.value else latest)), u)
  }

  /** How a call to the exchange ends: normally, with an authentication error, with any other exception. */
  datatype Ending = Returned | Refused | Broke

  /** A reconciliation with the exchange: how it leaves the adapter, and how it ends. */
  datatype Sight = Sight(seen: Adapter, ending: Ending)

  function WithAdapter(l: Local, now: Adapter): Local
    requires l.adapter.Some?
  {
    l.(adapters := l.adapters[l.adapter.value := now])
  }

  function Reconcile(l: Local, t: Table, sight: Sight, reach: Reach): (Local, Table) {
    if l.adapter.None? then (l.(health := if l.mode != PAPER then DOWN else DOWN.(ready := true)), t)
    else if !sight.ending.Returned? then (WithAdapter(l, sight.seen), t)
    else
      var m := Synced(WithAdapter(l, sight.seen));
      if !sight.seen.health.inSync || l.launchId.None? || reach.Down? then (m, t)
      else
        var u := Exec(t, LaunchSessions.Reconciled(l.launchId.value));
        (if reach.Answered? then WithSession(m, Get(u, l.launchId.value)) else m, u)
  }

  /** A reconciliation whose exceptions are caught by the caller. */
  function Guarded(l: Local, t: Table, sight: Sight, reach: Reach): (Local, Table) {
    var (m, u) := Reconcile(l, t, sight, reach);
    if l.adapter.Some? && sight.ending.Refused? then (WithAdapter(m, Dropped(sight.seen)), u) else (m, u)
  }

  /** A set switch voids what the adapter last saw. */
  function Unsynced(l: Local): Local
    requires l.adapter.Some?
  {
    var a := Look(l, l.adapter.value);
    WithAdapter(l, a.(health := a.health.(inSync := false)))
  }

  /** `cancelled`: the cancellation of open orders returns; otherwise its exception ends the workflow. */
  function Engage(l: Local, t: Table, fence: Reach, latest: string, cancelled: bool, sight: Sight,
                  reach: Reach)
    : (Local, Table)
  {
    var (m, u) := Fence(Engaged(l), t, fence, latest);
    if m.mode == PAPER || m.adapter.None? then (m, u)
    else if !cancelled then (Unsynced(m), u)
    else Guarded(Unsynced(m), u, sight, reach)
  }

  datatype OpenOrders = Orders(count: nat) | Invalid | Unauthorized

  predicate Verifiable(a: Adapter) {
    a.health.streamHealthy && a.health.authenticated
  }

  function Release(l: Local, t: Table, open: OpenOrders, sight: Sight, reach: Reach): (Local, Table) {
    if !l.kill then (Refreshed(l), t)
    else if l.mode == PAPER && l.adapter.None? then (Released(l), t)
    else if l.mode == PAPER || l.adapter.None? then (l, t)
    else if open.Unauthorized? then (WithAdapter(l, Dropped(Look(l, l.adapter.value))), t)
    else if open != Orders(0) then (l, t)
    else
      var (m, u) := Guarded(l, t, sight, reach);
      if sight.ending.Returned? && sight.seen.health.inSync && Verifiable(Look(m, l.adapter.value))
      then (Released(m), u) else (m, u)
  }

  // ---- the worker object ----

  class TradingWorker {
    var mode: Mode
    var kill: bool
    var pause: bool
    var recovery: bool
    var engine: Engine
    var configured: bool
    var adapter: Option<nat>
    var adapters: map<nat, Adapter>
    var health: Health
    var session: Option<Row>
    var launchId: Option<string>
    var rows: Table   // the durable sessions, in SQL

    constructor ()
      ensures State() == INITIAL && rows == map[]
    {
      mode, kill, pause, recovery, engine, configured := PAPER, false, false, false, DISARMED, false;
      adapter, adapters, health, session, launchId, rows := None, map[], DOWN, None, None, map[];
    }

    function State(): Local reads this {
      Local(mode, kill, pause, recovery, engine, configured, adapter, adapters, health, session, launchId)
    }

    method RefreshEngineState()
      modifies this`engine
      ensures State() == Refreshed(old(State()))
    {
      if kill {
        engine := EMERGENCY;
      } else if !configured {
        engine := DISARMED;
      } else if mode != PAPER && (!health.ready || !health.authenticated || !TradeAuthorized(State())
                                  || !health.streamHealthy || !health.inSync) {
        engine := DEGRADED;
      } else if recovery {
        engine := RECOVERY_ONLY;
      } else if pause {
        engine := PAUSED;
      } else {
        engine := ARMED;
      }
    }

    method SyncAdapterState()
      modifies this`adapters, this`health, this`engine
      ensures State() == Synced(old(State()))
    {
      if adapter.None? { return; }
      var a := Look(State(), adapter.value);
      if a.authenticationFailed {
        a := a.(health := a.health.(ready := false, authenticated := false), tradeAuthorized := false);
      }
      adapters := adapters[adapter.value := a];
      health := a.health;
      RefreshEngineState();
    }

    method SetPauseNewRisk(active: bool) returns (ok: bool)
      modifies this`pause, this`engine
      ensures State() == PauseSet(old(State()), active)
      ensures ok == (active || MayUnpause(old(State())))
    {
      if !active && mode == LIVE && !Autonomous(session) && !StagedPending(session) {
        pause := true;
        RefreshEngineState();
        return false;
      }
      pause := active;
      RefreshEngineState();
      ok := true;
    }

    method SetRecoveryOnly(active: bool)
      modifies this`recovery, this`engine
      ensures State() == Refreshed(old(State()).(recovery := active))
    {
      recovery := active;
      RefreshEngineState();
    }

    method SetLaunchSession(row: Option<Row>)
      modifies this`session, this`launchId
      ensures State() == WithSession(old(State()), row)
    {
      session := row;
      launchId := if row.Some? then Some(row.value.id) else None;
    }

    method FenceAutonomousLaunch(reach: Reach, latest: string) returns (ok: bool)
      modifies this`session, this`launchId, this`rows
      ensures (State(), rows) == Fence(old(State()), old(rows), reach, latest)
      ensures ok == (!NeedsFence(old(State())) || session.Some?)
    {
      if !(mode == LIVE && Autonomous(session)) { return true; }
      var id := if launchId.Some? then launchId.value else latest;
      if !reach.Down? {
        rows := Exec(rows, FenceAll);
        if reach.Answered? && id in rows && rows[id].state.REAUTH_REQUIRED? {
          SetLaunchSession(Some(rows[id]));
          return true;
        }
      }
      SetLaunchSession(None);
      ok := false;
    }

    /** Ends as the exchange ends it; an exception leaves the worker's own fields alone. */
    method TriggerReconciliation(sight: Sight, reach: Reach) returns (ending: Ending)
      modifies this
      ensures (State(), rows) == Reconcile(old(State()), old(rows), sight, reach)
      ensures ending == if adapter.Some? then sight.ending else Returned
    {
      ending := Returned;
      if adapter.Some? {
        adapters, ending := adapters[adapter.value := sight.seen], sight.ending;
        if ending != Returned { return; }
        SyncAdapterState();
        if sight.seen.health.inSync && launchId.Some? && !reach.Down? {
          var id := launchId.value;
          rows := Exec(rows, LaunchSessions.Reconciled(id));
          if reach.Answered? { SetLaunchSession(if id in rows then Some(rows[id]) else None); }
        }
      } else if mode != PAPER {
        health := DOWN;
      } else {
        health := DOWN.(ready := true);
      }
    }

    method ReconcileGuarded(sight: Sight, reach: Reach) returns (ending: Ending)
      modifies this
      ensures (State(), rows) == Guarded(old(State()), old(rows), sight, reach)
      ensures ending == if adapter.Some? then sight.ending else Returned
    {
      ending := TriggerReconciliation(sight, reach);
      if ending == Refused {
        adapters := adapters[adapter.value := Dropped(sight.seen)];
      }
    }

    /** A set switch voids what the adapter last saw. */
    method VoidAdapter()
      requires adapter.Some?
      modifies this`adapters
      ensures State() == Unsynced(old(State()))
    {
      var a := Look(State(), adapter.value);
      adapters := adapters[adapter.value := a.(health := a.health.(inSync := false))];
    }

    method EngageKillSwitch(fence: Reach, latest: string, cancelled: bool, sight: Sight, reach: Reach)
      modifies this
      ensures (State(), rows) == Engage(old(State()), old(rows), fence, latest, cancelled, sight, reach)
    {
      kill := true;
      pause := true;
      engine := EMERGENCY;
      var fenced := FenceAutonomousLaunch(fence, latest);
      if mode == PAPER || adapter.None? { return; }
      VoidAdapter();
      if !cancelled { return; }
      var ending := ReconcileGuarded(sight, reach);
    }

    method ReleaseKillSwitch(open: OpenOrders, sight: Sight, reach: Reach) returns (confirmed: bool)
      modifies this
      ensures (State(), rows) == Release(old(State()), old(rows), open, sight, reach)
      ensures confirmed == !kill
    {
      if !kill {
        RefreshEngineState();
        return true;
      }
      if mode == PAPER && adapter.None? {
        kill := false;
        RefreshEngineState();
        return true;
      }
      if mode == PAPER || adapter.None? { return false; }
      var id := adapter.value;
      if open.Unauthorized? {
        adapters := adapters[id := Dropped(Look(State(), id))];
        return false;
      }
      if open != Orders(0) { return false; }
      var ending := ReconcileGuarded(sight, reach);
      if ending != Returned || !sight.seen.health.inSync || !Verifiable(Look(State(), id)) { return false; }
      kill := false;
      RefreshEngineState();
      confirmed := true;
    }

    method Disarm(reach: Reach, latest: string)
      modifies this
      ensures
        var (m, u) := Fence(old(State()), old(rows), reach, latest);
        State() == Disarmed(m) && rows == u
    {
      var fenced := FenceAutonomousLaunch(reach, latest);
      adapter, health, configured, launchId := None, DOWN, false, None;
      pause, recovery := false, false;
      engine := if kill then EMERGENCY else DISARMED;
    }
  }

  const INITIAL := Local(PAPER, false, false, false, DISARMED, false, None, map[], DOWN, None, None)

  /**
   * Engaging puts up the local block whatever the exchange and the database answer, exceptions
   * included.  An autonomous LIVE session is gone afterwards, with one exception: the worker did not
   * know it was autonomous, and the closing reconciliation reads the session back from SQL.
   */
  lemma EngageLeavesAutonomyIff(
    l: Local, t: Table, fence: Reach, latest: string, cancelled: bool, sight: Sight, reach: Reach)
    requires TableOk(t)
    ensures
      var (m, u) := Engage(l, t, fence, latest, cancelled, sight, reach);
      && m.kill && m.pause && m.engine == EMERGENCY && m.mode == l.mode && m.adapter == l.adapter
      && (NeedsFence(m) <==>
          && l.mode == LIVE && !Autonomous(l.session) && cancelled && ReadsBack(l, sight, reach)
          && l.launchId.value in t && t[l.launchId.value].state.AUTONOMOUS_ACTIVE?)
  {
    var (m, u) := Fence(Engaged(l), t, fence, latest);
    FenceClears(Engaged(l), t, fence, latest);
    if m.adapter.Some? { ReconcileProjects(Unsynced(m), u, sight, reach); }
  }

  lemma FenceClears(l: Local, t: Table, reach: Reach, latest: string)
    requires TableOk(t)
    ensures
      var (m, u) := Fence(l, t, reach, latest);
      && TableOk(u) && m == l.(session := m.session, launchId := m.launchId)
      && (NeedsFence(l) ==>
            !Autonomous(m.session) && (m.launchId.Some? ==> NoneAutonomous(u)))
      && (!NeedsFence(l) ==> m == l && u == t)
  {
    FenceCalms(t);
    if NeedsFence(l) && reach.Answered? {
      FencedIsCalm(l, Get(Exec(t, FenceAll), if l.launchId.Some? then l.launchId.value else latest));
    }
  }

  lemma FencedIsCalm(l: Local, answer: Option<Row>)
    ensures
      var m := FencedWith(l, answer);
      m == l.(session := m.session, launchId := m.launchId) && !Autonomous(m.session)
  {
  }

  lemma FenceCalms(t: Table)
    requires TableOk(t)
    ensures TableOk(Exec(t, FenceAll)) && NoneAutonomous(Exec(t, FenceAll))
  {
    StatementKeepsTable(t, FenceAll);
  }

  /** Does this reconciliation read the session back? */
  predicate ReadsBack(l: Local, sight: Sight, reach: Reach) {
    l.adapter.Some? && sight.ending.Returned? && sight.seen.health.inSync && l.launchId.Some? && reach.Answered?
  }

  lemma ReconcileProjects(l: Local, t: Table, sight: Sight, reach: Reach)
    requires TableOk(t)
    ensures
      var (m, u) := Guarded(l, t, sight, reach);
      && m.kill == l.kill && m.pause == l.pause && m.mode == l.mode && m.adapter == l.adapter
      && (l.kill && l.engine == EMERGENCY ==> m.engine == EMERGENCY)
      && (Autonomous(m.session) <==>
          if ReadsBack(l, sight, reach) then l.launchId.value in t && t[l.launchId.value].state.AUTONOMOUS_ACTIVE?
          else Autonomous(l.session))
  {
    GuardedFlags(l, t, sight, reach);
    GuardedSession(l, t, sight, reach);
    if ReadsBack(l, sight, reach) {
      ReadBackSession(t, l.launchId.value);
    }
  }

  lemma GuardedFlags(l: Local, t: Table, sight: Sight, reach: Reach)
    ensures
      var (m, u) := Guarded(l, t, sight, reach);
      && m.kill == l.kill && m.pause == l.pause && m.mode == l.mode && m.adapter == l.adapter
      && (l.kill && l.engine == EMERGENCY ==> m.engine == EMERGENCY)
  {
    ReconcileFlags(l, t, sight, reach);
  }

  lemma ReconcileFlags(l: Local, t: Table, sight: Sight, reach: Reach)
    ensures
      var (m, u) := Reconcile(l, t, sight, reach);
      && m.kill == l.kill && m.pause == l.pause && m.mode == l.mode && m.adapter == l.adapter
      && (l.kill && l.engine == EMERGENCY ==> m.engine == EMERGENCY)
  {
    if l.adapter.Some? { SyncedFlags(WithAdapter(l, sight.seen)); }
  }

  lemma SyncedFlags(l: Local)
    ensures
      var m := Synced(l);
      && m.kill == l.kill && m.pause == l.pause && m.mode == l.mode && m.adapter == l.adapter
      && (l.kill && l.engine == EMERGENCY ==> m.engine == EMERGENCY)
  {
  }

  lemma GuardedSession(l: Local, t: Table, sight: Sight, reach: Reach)
    ensures
      var (m, u) := Guarded(l, t, sight, reach);
      m.session == if ReadsBack(l, sight, reach)
                   then Get(Exec(t, LaunchSessions.Reconciled(l.launchId.value)), l.launchId.value) else l.session
  {
    ReconcileSession(l, t, sight, reach);
  }

  lemma ReconcileSession(l: Local, t: Table, sight: Sight, reach: Reach)
    ensures
      var (m, u) := Reconcile(l, t, sight, reach);
      m.session == if ReadsBack(l, sight, reach)
                   then Get(Exec(t, LaunchSessions.Reconciled(l.launchId.value)), l.launchId.value) else l.session
  {
  }

  lemma ReadBackSession(t: Table, id: string)
    requires TableOk(t)
    ensures Autonomous(Get(Exec(t, LaunchSessions.Reconciled(id)), id)) <==> id in t && t[id].state.AUTONOMOUS_ACTIVE?
  {
    ReconciledIsCalm(t, id);
  }

  ghost predicate NoneAutonomous(t: Table) {
    forall id :: id in t ==> !t[id].state.AUTONOMOUS_ACTIVE?
  }

  lemma ReconciledIsCalm(t: Table, id: string)
    requires TableOk(t)
    ensures
      var u := Exec(t, LaunchSessions.Reconciled(id));
      TableOk(u) && u.Keys == t.Keys
      && forall i :: i in t ==> (u[i].state.AUTONOMOUS_ACTIVE? <==> t[i].state.AUTONOMOUS_ACTIVE?)
  {
    StatementKeepsTable(t, LaunchSessions.Reconciled(id));
  }

  lemma ReconcileSees(l: Local, t: Table, sight: Sight, reach: Reach)
    requires l.adapter.Some?
    ensures
      var (m, u) := Guarded(l, t, sight, reach);
      && (sight.ending.Returned? ==> Look(m, l.adapter.value) == Invalidated(sight.seen))
      && m.kill == l.kill && m.pause == l.pause && m.recovery == l.recovery && m.mode == l.mode
  {
    ReconcileShows(l, t, sight, reach);
    GuardedShows(l, t, sight, reach);
  }

  lemma ReconcileShows(l: Local, t: Table, sight: Sight, reach: Reach)
    requires l.adapter.Some?
    ensures
      var (m, u) := Reconcile(l, t, sight, reach);
      && (sight.ending.Returned? ==> m.adapters == l.adapters[l.adapter.value := Invalidated(sight.seen)])
      && m.kill == l.kill && m.pause == l.pause && m.recovery == l.recovery && m.mode == l.mode
      && m.adapter == l.adapter
  {
    SyncedSees(l, sight.seen);
  }

  lemma GuardedShows(l: Local, t: Table, sight: Sight, reach: Reach)
    ensures
      var (m, u), (g, v) := Reconcile(l, t, sight, reach), Guarded(l, t, sight, reach);
      g == m.(adapters := g.adapters) && (!sight.ending.Refused? ==> g == m)
  {
  }

  lemma SyncedSees(l: Local, seen: Adapter)
    requires l.adapter.Some?
    ensures
      var m := Synced(WithAdapter(l, seen));
      && m.adapters == l.adapters[l.adapter.value := Invalidated(seen)] && m.adapter == l.adapter
      && m.kill == l.kill && m.pause == l.pause && m.recovery == l.recovery && m.mode == l.mode
  {
  }

  /** Releasing clears the switch exactly when it was verified, and never resumes new risk. */
  lemma ReleaseClearsIff(l: Local, t: Table, open: OpenOrders, sight: Sight, reach: Reach)
    requires l.kill
    ensures
      var (m, u) := Release(l, t, open, sight, reach);
      && (!m.kill <==>
          if l.mode == PAPER then l.adapter.None?
          else l.adapter.Some? && open == Orders(0) && sight.ending.Returned? && sight.seen.health.inSync
               && Verifiable(sight.seen) && !sight.seen.authenticationFailed)
      && m.pause == l.pause && m.recovery == l.recovery && m.mode == l.mode
      && (!m.kill && m.pause ==> m.engine !in {ARMED, ARMING, EMERGENCY})
  {
    if l.adapter.Some? { ReconcileSees(l, t, sight, reach); }
  }
}

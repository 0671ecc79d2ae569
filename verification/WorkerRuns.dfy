/**
 * Every interleaving of the worker's control operations (apps/trading_worker/main.py).  One act is one
 * stretch of code between awaits; a coroutine that is waiting is a task.  Acts carry what the outside
 * answers, and most may happen at any time, so the runs here include all real ones.
 */
module WorkerRuns {
  import opened Common
  import opened LaunchSessions
  import opened WorkerControl

  datatype Task =
    | Fetched(row: Option<Row>)        // a durable read whose answer is not yet used
    | Activated(activated: Row)             // an approved continuation, not yet taken over
    | Fencing(id: Option<string>)      // past the fence's guard
    | FencedInSql(id: Option<string>)
    | ReadBack(row: Option<Row>)
    | Listing(adapter: nat)            // a release waiting for the open orders
    | Verifying(adapter: nat, reconciling: Option<nat>)   // ... none were open; the worker's adapter reconciles
    | Synchronized(adapter: nat)       // ... and came back in sync

  datatype World = World(local: Local, rows: Table, mirror: Option<Row>, tasks: map<nat, Task>)

  datatype Act =
    | SetPause(active: bool)
    | SetRecovery(active: bool)
    | PauseForFault
    | Observe(health: Health)
    | MoveAdapter(place: nat, now: Adapter)
    | Attach(adapter: Option<nat>)
    | Sync
    | Refresh
    | EngageFlags(task: nat)
    | StartFence(task: nat)
    | FenceSql(task: nat)
    | FenceRead(task: nat, latest: string)
    | FenceEnd(task: nat)
    | FenceFail(task: nat)
    | ReleasePaper
    | ReleaseStart(task: nat)
    | ReleaseOrders(task: nat, open: OpenOrders)
    | ReleaseSync(task: nat)
    | ReleaseEnd(task: nat)
    | ReleaseFail(task: nat)
    | Sql(statement: Statement)
    | Activation(task: nat, id: string, continuation: string, image: string)
    | ContinueEnd(task: nat)
    | ResetContinuation
    | ResetArm
    | ArmMode(mode: Mode)
    | Arming
    | ArmEnd(mode: Mode, task: nat)
    | DisarmEnd
    | Fetch(task: nat, id: string)
    | Project(task: nat, toWorker: bool)
    | OrderUnmarked
    | OrderConfirmed
    | Execute(env: Env, decision: Decision)

  const HEALTHY := Adapter(Health(true, true, true, true), true, false)

  // ---- what starts an autonomous execution ----

  /** Deployment flags, build evidence and observations that the control operations do not touch. */
  datatype Env = Env(
    liveApproved: bool, testnetEnabled: bool, soakApproved: bool, launchApproved: bool, testnetConfigured: bool,
    mainnetConfigured: bool, persistenceReady: bool, testsVerified: bool, ciVerified: bool, contractVerified: bool,
    trialVerified: bool, soakVerified: bool, rulesReady: bool, accountReady: bool, accountRiskReady: bool,
    marketFresh: bool)

  /** `permitted` stands for the gate's conditions on the decision, the account and the market. */
  datatype Decision = Decision(riskIncreasing: bool, permitted: bool)

  predicate AdapterReady(l: Local) {
    l.adapter.Some? && Look(l, l.adapter.value).health.ready && TradeAuthorized(l)
  }

  predicate TestnetSoakReady(l: Local, e: Env) {
    && l.mode == TESTNET && e.testsVerified && e.ciVerified && e.testnetConfigured && l.health.authenticated
    && TradeAuthorized(l) && e.contractVerified && e.trialVerified && AdapterReady(l) && e.rulesReady
    && e.accountReady && l.health.streamHealthy && l.health.inSync && e.marketFresh && e.persistenceReady
    && e.soakApproved && e.testnetEnabled && e.launchApproved && !l.kill
  }

  predicate PreflightReady(l: Local, e: Env) {
    && l.mode == LIVE && e.mainnetConfigured && l.health.authenticated && e.liveApproved && AdapterReady(l)
    && l.health.streamHealthy && l.health.inSync && e.accountReady && e.accountRiskReady && e.rulesReady
    && e.marketFresh && e.persistenceReady && !l.kill
  }

  /** The session that readiness reports: persistence's copy if it has one, else the worker's. */
  function Reported(l: Local, mirror: Option<Row>): Option<Row> {
    if mirror.Some? then mirror else l.session
  }

  predicate AutonomousReady(l: Local, mirror: Option<Row>, e: Env) {
    PreflightReady(l, e) && Autonomous(Reported(l, mirror)) && l.engine == ARMED && !l.pause
  }

  predicate StagedReady(l: Local, mirror: Option<Row>, e: Env) {
    && PreflightReady(l, e) && Reported(l, mirror).Some? && Reported(l, mirror).value.state.ACTIVE?
    && l.engine == ARMED && !l.pause
  }

  predicate UnderAutonomousPolicy(l: Local) {
    l.mode == LIVE && l.session.Some? && l.session.value.policy.AUTONOMOUS_AFTER_REVIEW?
  }

  predicate IsReady(l: Local, mirror: Option<Row>, e: Env) {
    if l.mode == LIVE then
      e.liveApproved && if UnderAutonomousPolicy(l) then AutonomousReady(l, mirror, e) else StagedReady(l, mirror, e)
    else
      e.testnetEnabled && TestnetSoakReady(l, e) && (e.soakApproved || e.soakVerified)
  }

  predicate GateAllows(l: Local, e: Env, d: Decision) {
    && l.mode != PAPER && (l.mode == LIVE ==> e.liveApproved)
    && l.engine in {ARMED, PAUSED, RECOVERY_ONLY} && !l.kill
    && (if l.mode == LIVE then e.mainnetConfigured else e.testnetConfigured)
    && l.adapter.Some? && Look(l, l.adapter.value).health == Health(true, true, true, true) && TradeAuthorized(l)
    && (d.riskIncreasing ==> !l.pause && l.engine != PAUSED && !l.recovery && l.engine != RECOVERY_ONLY)
    && d.permitted
  }

  /** The execution tail of `handle_market_event`: one stretch without an await. */
  predicate Starts(w: World, e: Env, d: Decision) {
    && w.local.engine in {ARMED, PAUSED, RECOVERY_ONLY} && w.local.mode != PAPER && w.local.adapter.Some?
    && var l := Synced(w.local);
       IsReady(l, w.mirror, e) && GateAllows(l, e, d)
  }

  // ---- steps ----

  /** A release may end with a clear only under these observations. */
  predicate Verified(w: World, task: nat) {
    && task in w.tasks && w.tasks[task].Synchronized?
    && Verifiable(Look(w.local, w.tasks[task].adapter))
  }

  /** A release that is under way. */
  predicate Waits(t: Task) {
    t.Listing? || t.Verifying? || t.Synchronized?
  }

  predicate InSync(l: Local, adapter: Option<nat>) {
    adapter.Some? && Look(l, adapter.value).health.inSync
  }

  function BeginFence(w: World, task: nat): World {
    if NeedsFence(w.local) then w.(tasks := w.tasks[task := Fencing(w.local.launchId)]) else w
  }

  /** The acts that touch nothing but the worker itself. */
  predicate OnlyLocal(a: Act) {
    match a
    case EngageFlags(_) | StartFence(_) | FenceSql(_) | FenceRead(_, _) | FenceEnd(_) | FenceFail(_) => false
    case ReleaseStart(_) | ReleaseOrders(_, _) | ReleaseSync(_) | ReleaseEnd(_) | ReleaseFail(_) => false
    case Sql(_) | Activation(_, _, _, _) => false
    case ContinueEnd(_) | ArmEnd(_, _) | Fetch(_, _) | Project(_, _) => false
    case _ => true
  }

  function DoLocal(l: Local, a: Act): Local {
    match a
    case SetPause(active) => PauseSet(l, active)
    case SetRecovery(active) => Refreshed(l.(recovery := active))
    case PauseForFault => Refreshed(l.(pause := true))
    case Observe(h) => l.(health := h)
    case MoveAdapter(id, now) => l.(adapters := l.adapters[id := now])
    case Attach(adapter) => l.(adapter := adapter)
    case Sync => Synced(l)
    case Refresh => Refreshed(l)
    case ReleasePaper => if l.kill && l.mode == PAPER && l.adapter.None? then Released(l) else l
    case ResetContinuation => ContinuationReset(l)
    case ResetArm => ArmReset(l)
    case ArmMode(mode) => l.(mode := mode)
    case Arming => l.(engine := ARMING)
    case DisarmEnd => Disarmed(l)
    case OrderUnmarked => l.(kill := true, health := l.health.(ready := false, inSync := false))
    case OrderConfirmed => Refreshed(l.(pause := l.session.None? || l.session.value.policy.STAGED_FIRST_ORDER?))
    case Execute(_, _) => Synced(l)
    case _ => l
  }

  function Do(w: World, a: Act): World {
    if OnlyLocal(a) then w.(local := DoLocal(w.local, a)) else DoShared(w, a)
  }

  function DoShared(w: World, a: Act): World {
    var l := w.local;
    match a
    case EngageFlags(task) => if task in w.tasks then w else BeginFence(w.(local := Engaged(l)), task)
    case StartFence(task) => if task in w.tasks then w else BeginFence(w, task)
    case FenceSql(task) =>
      if task in w.tasks && w.tasks[task].Fencing?
      then w.(rows := Exec(w.rows, FenceAll), tasks := w.tasks[task := FencedInSql(w.tasks[task].id)]) else w
    case FenceRead(task, latest) =>
      if task in w.tasks && w.tasks[task].FencedInSql? then
        var id := w.tasks[task].id;
        w.(tasks := w.tasks[task := ReadBack(Get(w.rows, if id.Some? then id.value else latest))])
      else w
    case FenceEnd(task) =>
      if task in w.tasks && w.tasks[task].ReadBack?
      then World(FencedWith(l, w.tasks[task].row), w.rows, w.tasks[task].row, w.tasks - {task}) else w
    case FenceFail(task) =>
      if task in w.tasks && (w.tasks[task].Fencing? || w.tasks[task].FencedInSql?)
      then w.(local := WithSession(l, None), tasks := w.tasks - {task}) else w
    case ReleaseStart(task) =>
      if task !in w.tasks && l.kill && l.mode != PAPER && l.adapter.Some?
      then w.(tasks := w.tasks[task := Listing(l.adapter.value)]) else w
    case ReleaseOrders(task, open) =>
      if task in w.tasks && w.tasks[task].Listing? then
        if open == Orders(0) then w.(tasks := w.tasks[task := Verifying(w.tasks[task].adapter, l.adapter)])
        else w.(tasks := w.tasks - {task})
      else w
    case ReleaseSync(task) =>
      if task in w.tasks && w.tasks[task].Verifying? then
        if InSync(l, w.tasks[task].reconciling) then w.(tasks := w.tasks[task := Synchronized(w.tasks[task].adapter)])
        else w.(tasks := w.tasks - {task})
      else w
    case ReleaseEnd(task) =>
      if Verified(w, task) then w.(local := Released(l), tasks := w.tasks - {task})
      else if task in w.tasks && w.tasks[task].Synchronized? then w.(tasks := w.tasks - {task})
      else w
    case ReleaseFail(task) =>
      if task in w.tasks && Waits(w.tasks[task]) then w.(tasks := w.tasks - {task}) else w
    case Sql(s) => if s.Activate? then w else w.(rows := Exec(w.rows, s))
    case Activation(task, id, continuation, image) =>
      var s := Activate(id, continuation, image);
      if task !in w.tasks && HitsIn(w.rows, s, id)
      then w.(rows := Exec(w.rows, s), tasks := w.tasks[task := Activated(Exec(w.rows, s)[id])]) else w
    case ContinueEnd(task) =>
      if task in w.tasks && w.tasks[task].Activated? then
        var v := World(Continued(l, w.tasks[task].activated), w.rows, Some(w.tasks[task].activated), w.tasks - {task});
        if v.local.engine == ARMED then v else BeginFence(v, task)
      else w
    case ArmEnd(mode, task) =>
      if mode == PAPER then w.(local := l.(adapter := None, health := DOWN, engine := ARMED, configured := true))
      else if mode == TESTNET then w.(local := l.(engine := ARMED, configured := true))
      else if task in w.tasks && w.tasks[task].Fetched? && w.tasks[task].row.Some?
              && w.tasks[task].row.value.state.ACTIVE? && w.tasks[task].row.value.reserved == 0
              && w.tasks[task].row.value.submitted == 0
      then w.(local := WithSession(l, w.tasks[task].row).(engine := ARMED, configured := true),
          tasks := w.tasks - {task})
      else w
    case Fetch(task, id) => if task in w.tasks then w else w.(tasks := w.tasks[task := Fetched(Get(w.rows, id))])
    case Project(task, toWorker) =>
      if task in w.tasks && w.tasks[task].Fetched?
      then World(if toWorker then WithSession(l, w.tasks[task].row) else l, w.rows, w.tasks[task].row, w.tasks - {task})
      else w
    case _ => w
  }

  function After(w: World, acts: seq<Act>): World {
    if acts == [] then w else Do(After(w, acts[..|acts| - 1]), acts[|acts| - 1])
  }

  lemma {:induction false} AfterBoth(w: World, a: seq<Act>, b: seq<Act>)
    ensures After(w, a + b) == After(After(w, a), b)
    decreases |b|
  {
    if b == [] {
      assert a + b == a;
    } else {
      AfterBoth(w, a, b[..|b| - 1]);
      assert (a + b)[..|a + b| - 1] == a + b[..|b| - 1];
    }
  }

  lemma OneAct(w: World, a: Act)
    ensures After(w, [a]) == Do(w, a)
  {
    assert [a][..0] == [];
  }

  lemma TwoActs(w: World, a: Act, b: Act)
    ensures After(w, [a, b]) == Do(Do(w, a), b)
  {
    OneAct(w, a);
    OneAct(Do(w, a), b);
    AfterBoth(w, [a], [b]);
    assert [a] + [b] == [a, b];
  }

  lemma ThreeActs(w: World, a: Act, b: Act, c: Act)
    ensures After(w, [a, b, c]) == Do(Do(Do(w, a), b), c)
  {
    TwoActs(w, a, b);
    OneAct(Do(Do(w, a), b), c);
    AfterBoth(w, [a, b], [c]);
    assert [a, b] + [c] == [a, b, c];
  }

  lemma FetchIs(w: World, task: nat, id: string)
    requires task !in w.tasks
    ensures Do(w, Fetch(task, id)) == w.(tasks := w.tasks[task := Fetched(Get(w.rows, id))])
  {
  }

  lemma ProjectIs(w: World, task: nat, row: Option<Row>)
    requires task in w.tasks && w.tasks[task] == Fetched(row)
    ensures Do(w, Project(task, true)) == World(WithSession(w.local, row), w.rows, row, w.tasks - {task})
  {
  }

  lemma SqlIs(w: World, statement: Statement)
    requires !statement.Activate?
    ensures Do(w, Sql(statement)) == w.(rows := Exec(w.rows, statement))
  {
  }

  lemma ReleaseStartIs(w: World, task: nat)
    requires task !in w.tasks && w.local.kill && w.local.mode != PAPER && w.local.adapter.Some?
    ensures Do(w, ReleaseStart(task)) == w.(tasks := w.tasks[task := Listing(w.local.adapter.value)])
  {
  }

  lemma ReleaseOrdersIs(w: World, task: nat, adapter: nat, open: OpenOrders)
    requires task in w.tasks && w.tasks[task] == Listing(adapter)
    ensures Do(w, ReleaseOrders(task, open)) ==
            w.(tasks := if open == Orders(0) then w.tasks[task := Verifying(adapter, w.local.adapter)]
                        else w.tasks - {task})
  {
  }

  lemma ReleaseSyncIs(w: World, task: nat, adapter: nat, reconciling: Option<nat>)
    requires task in w.tasks && w.tasks[task] == Verifying(adapter, reconciling)
    ensures Do(w, ReleaseSync(task)) ==
            w.(tasks := if InSync(w.local, reconciling) then w.tasks[task := Synchronized(adapter)]
                        else w.tasks - {task})
  {
  }

  lemma ReleaseEndIs(w: World, task: nat, adapter: nat)
    requires task in w.tasks && w.tasks[task] == Synchronized(adapter)
    ensures Do(w, ReleaseEnd(task)) ==
            World(if Verifiable(Look(w.local, adapter)) then Released(w.local) else w.local,
                  w.rows, w.mirror, w.tasks - {task})
  {
  }

  // ---- the kill switch ----

  /** Exactly what takes a set switch down. */
  predicate Clears(w: World, a: Act) {
    || (a.ReleasePaper? && w.local.mode == PAPER && w.local.adapter.None?)
    || (a.ReleaseEnd? && Verified(w, a.task))
  }

  lemma KillClearsIff(w: World, a: Act)
    requires w.local.kill
    ensures !Do(w, a).local.kill <==> Clears(w, a)
  {
    if OnlyLocal(a) { LocalKill(w.local, a); } else { SharedFlags(w, a); }
  }

  lemma LocalKill(l: Local, a: Act)
    requires l.kill
    ensures !DoLocal(l, a).kill <==> a.ReleasePaper? && l.mode == PAPER && l.adapter.None?
  {
  }

  lemma SharedFlags(w: World, a: Act)
    requires !OnlyLocal(a)
    ensures w.local.kill && !DoShared(w, a).local.kill <==>
            w.local.kill && a.ReleaseEnd? && Verified(w, a.task)
    ensures w.local.pause ==>
              (!DoShared(w, a).local.pause <==> a.ContinueEnd? && a.task in w.tasks && w.tasks[a.task].Activated?)
  {
  }

  /** A start implies that nothing blocks it. */
  lemma StartsOnlyUnblocked(w: World, e: Env, d: Decision)
    requires Starts(w, e, d)
    ensures !w.local.kill && w.local.mode != PAPER
    ensures w.local.mode == LIVE || d.riskIncreasing ==> !w.local.pause
    ensures UnderAutonomousPolicy(w.local) ==> Autonomous(Reported(w.local, w.mirror))
  {
  }

  /** Until a verified release the switch holds, and no autonomous execution starts. */
  lemma {:induction false} NoStartUntilRelease(w: World, acts: seq<Act>, e: Env, d: Decision)
    requires w.local.kill
    requires forall i :: 0 <= i < |acts| ==> !Clears(After(w, acts[..i]), acts[i])
    ensures After(w, acts).local.kill && !Starts(After(w, acts), e, d)
  {
    if acts != [] {
      var rest := acts[..|acts| - 1];
      assert forall i :: 0 <= i < |rest| ==> rest[..i] == acts[..i] && rest[i] == acts[i];
      NoStartUntilRelease(w, rest, e, d);
      KillClearsIff(After(w, rest), acts[|acts| - 1]);
    }
    if Starts(After(w, acts), e, d) { StartsOnlyUnblocked(After(w, acts), e, d); }
  }

  /** At step `i` task `t` began as a release of a set switch on `adapter`. */
  predicate Began(w: World, acts: seq<Act>, i: int, t: nat, adapter: nat) {
    && 0 <= i < |acts| && acts[i] == ReleaseStart(t)
    && After(w, acts[..i]).local.kill && After(w, acts[..i]).local.adapter == Some(adapter)
  }

  /** Then, at step `j`, it saw no open orders, and the adapter `reconciling` began to reconcile. */
  predicate SawNoOrders(w: World, acts: seq<Act>, i: int, j: int, t: nat, adapter: nat, reconciling: Option<nat>) {
    && Began(w, acts, i, t, adapter) && i < j < |acts| && acts[j] == ReleaseOrders(t, Orders(0))
    && After(w, acts[..j]).local.adapter == reconciling
  }

  /** Then, at step `k`, that adapter came back in sync. */
  predicate SawSync(w: World, acts: seq<Act>, i: int, j: int, k: int, t: nat, adapter: nat, reconciling: Option<nat>) {
    && SawNoOrders(w, acts, i, j, t, adapter, reconciling) && j < k < |acts| && acts[k] == ReleaseSync(t)
    && InSync(After(w, acts[..k]).local, reconciling)
  }

  ghost predicate HasBegun(w: World, acts: seq<Act>, t: nat, adapter: nat) {
    exists i :: Began(w, acts, i, t, adapter)
  }

  ghost predicate HasSeenNoOrders(w: World, acts: seq<Act>, t: nat, adapter: nat, reconciling: Option<nat>) {
    exists i, j :: SawNoOrders(w, acts, i, j, t, adapter, reconciling)
  }

  ghost predicate HasSeenSync(w: World, acts: seq<Act>, t: nat, adapter: nat) {
    exists i, j, k, reconciling :: SawSync(w, acts, i, j, k, t, adapter, reconciling)
  }

  /** The history that a release's stage claims. */
  ghost predicate Historic(w: World, acts: seq<Act>, t: nat, task: Task) {
    match task
    case Listing(adapter) => HasBegun(w, acts, t, adapter)
    case Verifying(adapter, reconciling) => HasSeenNoOrders(w, acts, t, adapter, reconciling)
    case Synchronized(adapter) => HasSeenSync(w, acts, t, adapter)
    case _ => true
  }

  lemma BeganGrows(w: World, acts: seq<Act>, i: int, t: nat, adapter: nat)
    requires acts != [] && Began(w, acts[..|acts| - 1], i, t, adapter)
    ensures Began(w, acts, i, t, adapter)
  {
    assert acts[..|acts| - 1][..i] == acts[..i];
  }

  lemma NoOrdersGrow(w: World, acts: seq<Act>, i: int, j: int, t: nat, adapter: nat, reconciling: Option<nat>)
    requires acts != [] && SawNoOrders(w, acts[..|acts| - 1], i, j, t, adapter, reconciling)
    ensures SawNoOrders(w, acts, i, j, t, adapter, reconciling)
  {
    BeganGrows(w, acts, i, t, adapter);
    assert acts[..|acts| - 1][..j] == acts[..j];
  }

  lemma SyncGrows(w: World, acts: seq<Act>, i: int, j: int, k: int, t: nat, adapter: nat, reconciling: Option<nat>)
    requires acts != [] && SawSync(w, acts[..|acts| - 1], i, j, k, t, adapter, reconciling)
    ensures SawSync(w, acts, i, j, k, t, adapter, reconciling)
  {
    NoOrdersGrow(w, acts, i, j, t, adapter, reconciling);
    assert acts[..|acts| - 1][..k] == acts[..k];
  }

  lemma HistoryGrows(w: World, acts: seq<Act>, t: nat, task: Task)
    requires acts != [] && Historic(w, acts[..|acts| - 1], t, task)
    ensures Historic(w, acts, t, task)
  {
    var rest := acts[..|acts| - 1];
    match task
    case Listing(adapter) =>
      var i :| Began(w, rest, i, t, adapter);
      BeganGrows(w, acts, i, t, adapter);
    case Verifying(adapter, reconciling) =>
      var i, j :| SawNoOrders(w, rest, i, j, t, adapter, reconciling);
      NoOrdersGrow(w, acts, i, j, t, adapter, reconciling);
    case Synchronized(adapter) =>
      var i, j, k, reconciling :| SawSync(w, rest, i, j, k, t, adapter, reconciling);
      SyncGrows(w, acts, i, j, k, t, adapter, reconciling);
    case _ =>
  }

  /** How a task comes to be in a stage of a release. */
  predicate Enters(u: World, a: Act, t: nat, task: Task) {
    match task
    case Listing(adapter) => a == ReleaseStart(t) && u.local.kill && u.local.adapter == Some(adapter)
    case Verifying(adapter, reconciling) =>
      && a == ReleaseOrders(t, Orders(0)) && t in u.tasks && u.tasks[t] == Listing(adapter)
      && u.local.adapter == reconciling
    case Synchronized(adapter) =>
      && a == ReleaseSync(t) && t in u.tasks && u.tasks[t].Verifying? && u.tasks[t].adapter == adapter
      && InSync(u.local, u.tasks[t].reconciling)
    case _ => true
  }

  lemma TaskStage(u: World, a: Act, t: nat)
    requires t in Do(u, a).tasks && Waits(Do(u, a).tasks[t])
    ensures (t in u.tasks && u.tasks[t] == Do(u, a).tasks[t]) || Enters(u, a, t, Do(u, a).tasks[t])
  {
  }

  lemma EntersHistory(w: World, acts: seq<Act>, t: nat, task: Task)
    requires acts != []
    requires
      var u := After(w, acts[..|acts| - 1]);
      && Enters(u, acts[|acts| - 1], t, task)
      && (t in u.tasks ==> Historic(w, acts[..|acts| - 1], t, u.tasks[t]))
    ensures Historic(w, acts, t, task)
  {
    var n := |acts| - 1;
    var u := After(w, acts[..n]);
    match task
    case Listing(adapter) =>
      assert Began(w, acts, n, t, adapter);
    case Verifying(adapter, reconciling) =>
      var i :| Began(w, acts[..n], i, t, adapter);
      BeganGrows(w, acts, i, t, adapter);
      assert SawNoOrders(w, acts, i, n, t, adapter, reconciling);
    case Synchronized(adapter) =>
      var reconciling := u.tasks[t].reconciling;
      var i, j :| SawNoOrders(w, acts[..n], i, j, t, adapter, reconciling);
      NoOrdersGrow(w, acts, i, j, t, adapter, reconciling);
      assert SawSync(w, acts, i, j, n, t, adapter, reconciling);
    case _ =>
  }

  /** A release in flight has the history its stage claims. */
  lemma {:induction false} ReleaseHistory(w: World, acts: seq<Act>, t: nat)
    requires w.tasks == map[]
    ensures t in After(w, acts).tasks ==> Historic(w, acts, t, After(w, acts).tasks[t])
  {
    if acts != [] {
      var n := |acts| - 1;
      ReleaseHistory(w, acts[..n], t);
      var u, v := After(w, acts[..n]), Do(After(w, acts[..n]), acts[n]);
      assert v == After(w, acts);
      if t in v.tasks && Waits(v.tasks[t]) {
        TaskStage(u, acts[n], t);
        if t in u.tasks && u.tasks[t] == v.tasks[t] {
          HistoryGrows(w, acts, t, v.tasks[t]);
        } else {
          EntersHistory(w, acts, t, v.tasks[t]);
        }
      }
    }
  }

  /**
   * Over every run from a start without tasks: a switch goes down only in PAPER without an adapter, or
   * at the end of a release that began while it was up, then saw no open orders, then saw the worker's
   * adapter come back in sync, and now sees its own streaming and authenticated.
   */
  lemma SwitchClearsOnlyVerified(w: World, acts: seq<Act>, a: Act)
    requires w.tasks == map[]
    requires After(w, acts).local.kill && !Do(After(w, acts), a).local.kill
    ensures
      var v := After(w, acts);
      || (a.ReleasePaper? && v.local.mode == PAPER && v.local.adapter.None?)
      || (a.ReleaseEnd? && exists adapter: nat ::
            HasSeenSync(w, acts, a.task, adapter) && Verifiable(Look(v.local, adapter)))
  {
    var v := After(w, acts);
    KillClearsIff(v, a);
    if a.ReleaseEnd? {
      ReleaseHistory(w, acts, a.task);
      assert HasSeenSync(w, acts, a.task, v.tasks[a.task].adapter);
    }
  }

  // ---- a switch engaged again ----

  /** A release under way that may still end in a clear; without an adapter to reconcile it cannot. */
  predicate MayClear(t: Task) {
    t.Listing? || (t.Verifying? && t.reconciling.Some?) || t.Synchronized?
  }

  ghost predicate NoReleaseWaits(w: World) {
    forall t :: t in w.tasks ==> !MayClear(w.tasks[t])
  }

  predicate NoNewRelease(acts: seq<Act>) {
    forall i :: 0 <= i < |acts| ==> !acts[i].ReleaseStart? && !acts[i].ReleasePaper?
  }

  lemma NoReleaseStarts(w: World, a: Act)
    requires NoReleaseWaits(w) && w.local.kill && !a.ReleaseStart? && !a.ReleasePaper?
    ensures NoReleaseWaits(Do(w, a)) && Do(w, a).local.kill
  {
    KillClearsIff(w, a);
    forall t | t in Do(w, a).tasks ensures !MayClear(Do(w, a).tasks[t]) {
      if MayClear(Do(w, a).tasks[t]) { TaskStage(w, a, t); }
    }
  }

  lemma {:induction false} KillHolds(w: World, acts: seq<Act>)
    requires NoReleaseWaits(w) && w.local.kill && NoNewRelease(acts)
    ensures NoReleaseWaits(After(w, acts)) && After(w, acts).local.kill
  {
    if acts != [] {
      KillHolds(w, acts[..|acts| - 1]);
      NoReleaseStarts(After(w, acts[..|acts| - 1]), acts[|acts| - 1]);
    }
  }

  /** Without a release begun later an engaged switch stays up in every run, exactly when none was waiting already. */
  lemma EngagementHoldsIff(w: World, task: nat)
    requires task !in w.tasks
    ensures (forall acts :: NoNewRelease(acts) ==> After(Do(w, EngageFlags(task)), acts).local.kill) <==>
            NoReleaseWaits(w)
  {
    var v := Do(w, EngageFlags(task));
    if NoReleaseWaits(w) {
      forall t | t in v.tasks ensures !MayClear(v.tasks[t]) {
        if MayClear(v.tasks[t]) { TaskStage(w, EngageFlags(task), t); }
      }
      forall acts | NoNewRelease(acts) ensures After(v, acts).local.kill {
        KillHolds(v, acts);
      }
    } else {
      var t :| t in w.tasks && MayClear(w.tasks[t]);
      assert v.tasks[t] == w.tasks[t];
      OlderReleaseClears(v, t);
    }
  }

  ghost predicate Clearable(v: World) {
    exists acts :: NoNewRelease(acts) && !After(v, acts).local.kill
  }

  lemma ClearableBefore(v: World, acts: seq<Act>)
    requires NoNewRelease(acts) && Clearable(After(v, acts))
    ensures Clearable(v)
  {
    var more :| NoNewRelease(more) && !After(After(v, acts), more).local.kill;
    AfterBoth(v, acts, more);
    assert NoNewRelease(acts + more);
  }

  lemma AdapterMoved(w: World, adapter: nat)
    ensures Do(w, MoveAdapter(adapter, HEALTHY)) ==
            w.(local := w.local.(adapters := w.local.adapters[adapter := HEALTHY]))
  {
  }

  lemma SynchronizedClears(v: World, t: nat)
    requires t in v.tasks && v.tasks[t].Synchronized?
    ensures Clearable(v)
  {
    var adapter := v.tasks[t].adapter;
    TwoActs(v, MoveAdapter(adapter, HEALTHY), ReleaseEnd(t));
    AdapterMoved(v, adapter);
    ReleaseEndIs(Do(v, MoveAdapter(adapter, HEALTHY)), t, adapter);
    assert NoNewRelease([MoveAdapter(adapter, HEALTHY), ReleaseEnd(t)]);
  }

  lemma VerifyingClears(v: World, t: nat)
    requires t in v.tasks && v.tasks[t].Verifying? && v.tasks[t].reconciling.Some?
    ensures Clearable(v)
  {
    var other := v.tasks[t].reconciling.value;
    var acts := [MoveAdapter(other, HEALTHY), ReleaseSync(t)];
    TwoActs(v, acts[0], acts[1]);
    AdapterMoved(v, other);
    ReleaseSyncIs(Do(v, acts[0]), t, v.tasks[t].adapter, Some(other));
    SynchronizedClears(After(v, acts), t);
    ClearableBefore(v, acts);
  }

  lemma ListingClears(v: World, t: nat)
    requires t in v.tasks && v.tasks[t].Listing?
    ensures Clearable(v)
  {
    var adapter := v.tasks[t].adapter;
    var acts := [Attach(Some(adapter)), ReleaseOrders(t, Orders(0))];
    TwoActs(v, acts[0], acts[1]);
    AdapterAttached(v, adapter);
    ReleaseOrdersIs(Do(v, acts[0]), t, adapter, Orders(0));
    VerifyingClears(After(v, acts), t);
    ClearableBefore(v, acts);
  }

  lemma AdapterAttached(w: World, adapter: nat)
    ensures Do(w, Attach(Some(adapter))) == w.(local := w.local.(adapter := Some(adapter)))
  {
  }

  /** The older release goes on, finds the exchange quiet and healthy, and takes the new engagement down. */
  lemma OlderReleaseClears(v: World, t: nat)
    requires t in v.tasks && MayClear(v.tasks[t])
    ensures Clearable(v)
  {
    match v.tasks[t]
    case Listing(_) => ListingClears(v, t);
    case Verifying(_, _) => VerifyingClears(v, t);
    case Synchronized(_) => SynchronizedClears(v, t);
  }

  // ---- new risk after a release ----

  /** Exactly what takes a pause away. */
  predicate Unpauses(w: World, a: Act) {
    || (a.SetPause? && !a.active && MayUnpause(w.local))
    || (a.ContinueEnd? && a.task in w.tasks && w.tasks[a.task].Activated?)
    || a.ResetContinuation? || a.ResetArm? || a.DisarmEnd?
    || (a.OrderConfirmed? && w.local.session.Some? && w.local.session.value.policy.AUTONOMOUS_AFTER_REVIEW?)
  }

  lemma PauseLiftsIff(w: World, a: Act)
    requires w.local.pause
    ensures !Do(w, a).local.pause <==> Unpauses(w, a)
  {
    if OnlyLocal(a) { LocalPause(w, a); } else { SharedFlags(w, a); }
  }

  lemma LocalPause(w: World, a: Act)
    requires w.local.pause && OnlyLocal(a)
    ensures !DoLocal(w.local, a).pause <==> Unpauses(w, a)
  {
  }

  /**
   * After the switch was engaged, however often it is released and engaged again: until one of those
   * acts no LIVE execution and no risk-increasing one starts.
   */
  lemma {:induction false} PauseOutlivesRelease(w: World, acts: seq<Act>, e: Env, d: Decision)
    requires w.local.pause
    requires forall i :: 0 <= i < |acts| ==> !Unpauses(After(w, acts[..i]), acts[i])
    ensures
      var v := After(w, acts);
      v.local.pause && (Starts(v, e, d) ==> v.local.mode == TESTNET && !d.riskIncreasing)
  {
    if acts != [] {
      var rest := acts[..|acts| - 1];
      assert forall i :: 0 <= i < |rest| ==> rest[..i] == acts[..i] && rest[i] == acts[i];
      PauseOutlivesRelease(w, rest, e, d);
      PauseLiftsIff(After(w, rest), acts[|acts| - 1]);
    }
    if Starts(After(w, acts), e, d) { StartsOnlyUnblocked(After(w, acts), e, d); }
  }

  /** An order of an autonomous session that is confirmed after the switch was engaged lifts the pause under it. */
  lemma ConfirmationLiftsPause(w: World, task: nat)
    requires task !in w.tasks && w.local.session.Some? && w.local.session.value.policy.AUTONOMOUS_AFTER_REVIEW?
    ensures
      var v := After(w, [EngageFlags(task), OrderConfirmed]);
      v.local.kill && !v.local.pause
  {
    TwoActs(w, EngageFlags(task), OrderConfirmed);
    EngagedLocal(w, task);
    ConfirmedLocal(Engaged(w.local));
  }

  lemma EngagedLocal(w: World, task: nat)
    requires task !in w.tasks
    ensures Do(w, EngageFlags(task)).local == Engaged(w.local)
  {
  }

  lemma ConfirmedLocal(l: Local)
    requires l.session.Some? && l.session.value.policy.AUTONOMOUS_AFTER_REVIEW?
    ensures DoLocal(l, OrderConfirmed).kill == l.kill && !DoLocal(l, OrderConfirmed).pause
  {
  }

  // ---- the fence ----

  predicate CalmRow(row: Option<Row>) {
    row.Some? ==> !row.value.state.AUTONOMOUS_ACTIVE?
  }

  predicate CalmTask(t: Task) {
    match t
    case Fetched(row) => CalmRow(row)
    case ReadBack(row) => CalmRow(row)
    case Activated(row) => CalmRow(Some(row))
    case _ => true
  }

  ghost predicate CalmTasks(tasks: map<nat, Task>) {
    forall t :: t in tasks ==> CalmTask(tasks[t])
  }

  /** No session is autonomous: not in SQL, not in either copy, and not on its way to one. */
  ghost predicate NoAutonomy(w: World) {
    TableOk(w.rows) && NoneAutonomous(w.rows) && CalmRow(w.mirror) && CalmRow(w.local.session) && CalmTasks(w.tasks)
  }

  lemma SqlStaysCalm(t: Table, s: Statement)
    requires TableOk(t) && NoneAutonomous(t) && !s.Activate?
    ensures TableOk(Exec(t, s)) && NoneAutonomous(Exec(t, s))
  {
    StatementKeepsTable(t, s);
    forall id | id in Exec(t, s) ensures !Exec(t, s)[id].state.AUTONOMOUS_ACTIVE? {
      if id in t { StatementKeepsRow(t[id], s); }
    }
  }

  /** Nothing but a fresh activation brings autonomy back. */
  lemma StepStaysCalm(w: World, a: Act)
    requires NoAutonomy(w) && !a.Activation?
    ensures NoAutonomy(Do(w, a))
  {
    StepKeepsRowsCalm(w, a);
    StepKeepsTasksCalm(w, a);
    StepKeepsCopiesCalm(w, a);
  }

  lemma StepKeepsRowsCalm(w: World, a: Act)
    requires TableOk(w.rows) && NoneAutonomous(w.rows) && !a.Activation?
    ensures TableOk(Do(w, a).rows) && NoneAutonomous(Do(w, a).rows)
  {
    StepOnRows(w, a);
    if a.Sql? && !a.statement.Activate? { SqlStaysCalm(w.rows, a.statement); }
    if a.FenceSql? { SqlStaysCalm(w.rows, FenceAll); }
  }

  lemma StepOnRows(w: World, a: Act)
    requires !a.Activation?
    ensures
      || Do(w, a).rows == w.rows
      || (a.Sql? && !a.statement.Activate? && Do(w, a).rows == Exec(w.rows, a.statement))
      || (a.FenceSql? && Do(w, a).rows == Exec(w.rows, FenceAll))
  {
  }

  lemma StepKeepsTasksCalm(w: World, a: Act)
    requires NoneAutonomous(w.rows) && CalmTasks(w.tasks) && !a.Activation?
    ensures CalmTasks(Do(w, a).tasks)
  {
    var v := Do(w, a);
    forall t | t in v.tasks ensures CalmTask(v.tasks[t]) {
      if t in w.tasks { assert CalmTask(w.tasks[t]); }
    }
  }

  lemma StepKeepsCopiesCalm(w: World, a: Act)
    requires NoAutonomy(w) && !a.Activation?
    ensures CalmRow(Do(w, a).mirror) && CalmRow(Do(w, a).local.session)
  {
    MirrorStaysCalm(w, a);
    SessionStaysCalm(w, a);
  }

  lemma MirrorStaysCalm(w: World, a: Act)
    requires CalmRow(w.mirror) && CalmTasks(w.tasks)
    ensures CalmRow(Do(w, a).mirror)
  {
    MirrorComesFrom(w, a);
    if Uses(w, a) { RowOfCalm(w.tasks[a.task]); }
  }

  lemma SessionStaysCalm(w: World, a: Act)
    requires CalmRow(w.local.session) && CalmTasks(w.tasks)
    ensures CalmRow(Do(w, a).local.session)
  {
    SessionComesFrom(w, a);
    if Uses(w, a) { RowOfCalm(w.tasks[a.task]); }
  }

  lemma RowOfCalm(t: Task)
    requires CalmTask(t)
    ensures CalmRow(RowOf(t))
  {
  }

  /** The acts that take over a row a coroutine was waiting for. */
  predicate Uses(w: World, a: Act) {
    (a.FenceEnd? || a.ContinueEnd? || a.ArmEnd? || a.Project?) && a.task in w.tasks
  }

  function RowOf(t: Task): Option<Row> {
    match t
    case Fetched(row) => row
    case ReadBack(row) => row
    case Activated(row) => Some(row)
    case _ => None
  }

  lemma MirrorComesFrom(w: World, a: Act)
    ensures Do(w, a).mirror == w.mirror || (Uses(w, a) && Do(w, a).mirror == RowOf(w.tasks[a.task]))
  {
  }

  lemma SessionComesFrom(w: World, a: Act)
    ensures
      var session := Do(w, a).local.session;
      session == w.local.session || session.None? || (Uses(w, a) && session == RowOf(w.tasks[a.task]))
  {
    if OnlyLocal(a) { LocalKeepsSession(w.local, a); } else { SharedSession(w, a); }
  }

  lemma SharedSession(w: World, a: Act)
    requires !OnlyLocal(a)
    ensures
      var session := DoShared(w, a).local.session;
      session == w.local.session || session.None? || (Uses(w, a) && session == RowOf(w.tasks[a.task]))
  {
    if a.ContinueEnd? {
      ContinuedSession(w, a.task);
    } else if a.FenceEnd? {
      FencedSession(w, a.task);
    } else if a.ArmEnd? {
      ArmedSession(w, a.mode, a.task);
    } else if a.Project? {
      ProjectedSession(w, a.task, a.toWorker);
    } else {
      OtherSession(w, a);
    }
  }

  /** The session is as it was, gone, or the row of the task that the act ends. */
  predicate SessionFrom(w: World, v: World, task: nat) {
    v.local.session in {w.local.session, None} || (task in w.tasks && v.local.session == RowOf(w.tasks[task]))
  }

  lemma FencedSession(w: World, task: nat)
    ensures SessionFrom(w, DoShared(w, FenceEnd(task)), task)
  {
  }

  lemma ArmedSession(w: World, mode: Mode, task: nat)
    ensures SessionFrom(w, DoShared(w, ArmEnd(mode, task)), task)
  {
  }

  lemma ProjectedSession(w: World, task: nat, toWorker: bool)
    ensures SessionFrom(w, DoShared(w, Project(task, toWorker)), task)
  {
  }

  lemma OtherSession(w: World, a: Act)
    requires !OnlyLocal(a) && !a.ContinueEnd? && !a.FenceEnd? && !a.ArmEnd? && !a.Project?
    ensures DoShared(w, a).local.session == w.local.session || DoShared(w, a).local.session.None?
  {
  }

  lemma ContinuedSession(w: World, task: nat)
    ensures
      var session := DoShared(w, ContinueEnd(task)).local.session;
      session == w.local.session || (task in w.tasks && session == RowOf(w.tasks[task]))
  {
  }

  lemma LocalKeepsSession(l: Local, a: Act)
    ensures DoLocal(l, a).session == l.session || DoLocal(l, a).session.None?
  {
  }

  /**
   * Once no session is autonomous, in every run without a fresh activation none becomes so; no
   * execution starts under the autonomous policy, and SQL grants no order slot under it.
   */
  lemma NoAutonomyUntilActivation(w: World, acts: seq<Act>, e: Env, d: Decision, id: string)
    requires NoAutonomy(w) && NoActivation(acts)
    ensures
      var v := After(w, acts);
      && NoAutonomy(v)
      && !(UnderAutonomousPolicy(v.local) && Starts(v, e, d))
      && !(id in v.rows && v.rows[id].policy.AUTONOMOUS_AFTER_REVIEW? && Hits(v.rows[id], Reserve(id)))
  {
    CalmRuns(w, acts);
    if Starts(After(w, acts), e, d) { StartsOnlyUnblocked(After(w, acts), e, d); }
  }

  /** A fence that runs through undisturbed. */
  function FenceThrough(w: World, task: nat, latest: string): World {
    Do(Do(Do(w, FenceSql(task)), FenceRead(task, latest)), FenceEnd(task))
  }

  /** Neither the worker's copy nor persistence's is autonomous. */
  predicate CalmCopies(w: World) {
    CalmRow(w.mirror) && CalmRow(w.local.session)
  }

  predicate NoActivation(acts: seq<Act>) {
    forall i :: 0 <= i < |acts| ==> !acts[i].Activation?
  }

  /** No session is autonomous in SQL or on its way to a copy; the copies may be. */
  ghost predicate CalmBehind(w: World) {
    TableOk(w.rows) && NoneAutonomous(w.rows) && CalmTasks(w.tasks)
  }

  lemma {:induction false} StaysCalmBehind(w: World, acts: seq<Act>)
    requires CalmBehind(w) && NoActivation(acts)
    ensures CalmBehind(After(w, acts))
  {
    if acts != [] {
      var v, a := After(w, acts[..|acts| - 1]), acts[|acts| - 1];
      StaysCalmBehind(w, acts[..|acts| - 1]);
      StepKeepsRowsCalm(v, a);
      StepKeepsTasksCalm(v, a);
    }
  }

  predicate IsReadBack(w: World, task: nat) {
    task in w.tasks && w.tasks[task].ReadBack?
  }

  lemma FenceSqlIs(w: World, task: nat)
    requires task in w.tasks && w.tasks[task].Fencing?
    ensures Do(w, FenceSql(task)) ==
            w.(rows := Exec(w.rows, FenceAll), tasks := w.tasks[task := FencedInSql(w.tasks[task].id)])
  {
  }

  lemma FenceEndIs(w: World, task: nat)
    requires IsReadBack(w, task)
    ensures
      var row := w.tasks[task].row;
      Do(w, FenceEnd(task)) == World(FencedWith(w.local, row), w.rows, row, w.tasks - {task})
  {
  }

  /** When the fence takes over its read-back, whatever happened since its update, no session is autonomous. */
  lemma DisturbedFenceCalms(w: World, task: nat, between: seq<Act>)
    requires TableOk(w.rows) && task in w.tasks && w.tasks[task].Fencing? && CalmTasks(w.tasks - {task})
    requires NoActivation(between) && IsReadBack(After(Do(w, FenceSql(task)), between), task)
    ensures NoAutonomy(Do(After(Do(w, FenceSql(task)), between), FenceEnd(task)))
  {
    FenceSqlIs(w, task);
    FenceCalms(w.rows);
    var v := Do(w, FenceSql(task));
    forall t | t in v.tasks ensures CalmTask(v.tasks[t]) {
      if t != task { assert t in w.tasks - {task} && v.tasks[t] == (w.tasks - {task})[t]; }
    }
    StaysCalmBehind(v, between);
    var u := After(v, between);
    assert CalmTask(u.tasks[task]);
    FenceEndIs(u, task);
    FencedIsCalmRow(u.local, u.tasks[task].row);
  }

  lemma FencedIsCalmRow(l: Local, row: Option<Row>)
    ensures CalmRow(FencedWith(l, row).session)
  {
  }

  /** In every run from the fence's update to its end and beyond, other coroutines acting all the while. */
  ghost predicate FenceHolds(w: World, task: nat) {
    forall between, acts ::
      NoActivation(between) && NoActivation(acts) && IsReadBack(After(Do(w, FenceSql(task)), between), task) ==>
        CalmCopies(After(Do(After(Do(w, FenceSql(task)), between), FenceEnd(task)), acts))
  }

  /**
   * Once a fence is through, whatever came between its update, its read-back and its end, no copy is
   * autonomous in any continuation without a fresh activation, exactly when no other coroutine was
   * waiting with an autonomous session.
   */
  lemma FenceEndsAutonomyIff(w: World, task: nat)
    requires TableOk(w.rows) && task in w.tasks && w.tasks[task].Fencing?
    ensures FenceHolds(w, task) <==> CalmTasks(w.tasks - {task})
  {
    if CalmTasks(w.tasks - {task}) {
      forall between, acts | NoActivation(between) && NoActivation(acts)
                             && IsReadBack(After(Do(w, FenceSql(task)), between), task)
        ensures CalmCopies(After(Do(After(Do(w, FenceSql(task)), between), FenceEnd(task)), acts))
      {
        DisturbedFenceCalms(w, task, between);
        CalmRuns(Do(After(Do(w, FenceSql(task)), between), FenceEnd(task)), acts);
      }
    } else {
      WaitingRowEscapes(w, task);
    }
  }

  lemma FenceReadIs(w: World, task: nat)
    requires task in w.tasks && w.tasks[task].FencedInSql?
    ensures
      var id := w.tasks[task].id;
      Do(w, FenceRead(task, "")) ==
      w.(tasks := w.tasks[task := ReadBack(Get(w.rows, if id.Some? then id.value else ""))])
  {
  }

  lemma WaitingRowEscapes(w: World, task: nat)
    requires task in w.tasks && w.tasks[task].Fencing? && !CalmTasks(w.tasks - {task})
    ensures !FenceHolds(w, task)
  {
    var between := [FenceRead(task, "")];
    var v := Do(w, FenceSql(task));
    FenceSqlIs(w, task);
    FenceReadIs(v, task);
    OneAct(v, between[0]);
    var u := After(v, between);
    FenceEndIs(u, task);
    var t :| t in w.tasks - {task} && !CalmTask((w.tasks - {task})[t]);
    var x := Do(u, FenceEnd(task));
    assert t in x.tasks && x.tasks[t] == w.tasks[t];
    WaitingRowShows(x, t);
    var acts :| NoActivation(acts) && !CalmCopies(After(x, acts));
    assert NoActivation(between) && IsReadBack(u, task);
  }

  lemma {:induction false} CalmRuns(w: World, acts: seq<Act>)
    requires NoAutonomy(w) && NoActivation(acts)
    ensures NoAutonomy(After(w, acts))
  {
    if acts != [] {
      CalmRuns(w, acts[..|acts| - 1]);
      StepStaysCalm(After(w, acts[..|acts| - 1]), acts[|acts| - 1]);
    }
  }

  /** A waiting coroutine that carries an autonomous session only has to go on. */
  lemma WaitingRowShows(v: World, t: nat)
    requires t in v.tasks && !CalmTask(v.tasks[t])
    ensures exists acts :: NoActivation(acts) && !CalmCopies(After(v, acts))
  {
    var act := match v.tasks[t]
      case Fetched(_) => Project(t, true)
      case ReadBack(_) => FenceEnd(t)
      case _ => ContinueEnd(t);
    OneAct(v, act);
    TakenOverShows(v, t, act);
    assert NoActivation([act]) && !CalmCopies(After(v, [act]));
  }

  lemma TakenOverShows(v: World, t: nat, act: Act)
    requires t in v.tasks && !CalmTask(v.tasks[t])
    requires match v.tasks[t]
      case Fetched(_) => act == Project(t, true)
      case ReadBack(_) => act == FenceEnd(t)
      case _ => act == ContinueEnd(t)
    ensures Do(v, act).mirror == RowOf(v.tasks[t]) && !CalmRow(Do(v, act).mirror)
  {
  }

  lemma FenceThroughIs(w: World, task: nat, latest: string)
    requires task in w.tasks && w.tasks[task].Fencing?
    ensures
      var id := w.tasks[task].id;
      var u := Exec(w.rows, FenceAll);
      var row := Get(u, if id.Some? then id.value else latest);
      FenceThrough(w, task, latest) == World(FencedWith(w.local, row), u, row, w.tasks - {task})
  {
    assert FenceThrough(w, task, latest).tasks == w.tasks - {task};
  }

  /** A fence that fails still leaves the worker without a session, so only a staged start is left. */
  lemma FailedFenceBlocksAutonomy(w: World, task: nat, e: Env, d: Decision)
    requires task in w.tasks && w.tasks[task].Fencing?
    ensures
      var v := Do(w, FenceFail(task));
      && v.local.session.None? && v.local.launchId.None?
      && (v.local.mode == LIVE && Starts(v, e, d) ==> v.mirror.Some? && v.mirror.value.state.ACTIVE?)
  {
  }

  /** The exception is real.  A session is read, then the switch is engaged ... */
  lemma EngagedAfterRead(w: World, row: Row, fence: nat, read: nat)
    requires w.tasks == map[] && fence != read
    requires w.local.mode == LIVE && w.local.session == Some(row) && w.local.launchId == Some(row.id)
    requires row.id in w.rows && w.rows[row.id] == row && Autonomous(Some(row))
    ensures
      var v := Do(Do(w, Fetch(read, row.id)), EngageFlags(fence));
      v == World(Engaged(w.local), w.rows, w.mirror, map[read := Fetched(Some(row)), fence := Fencing(Some(row.id))])
  {
  }

  /**
   * ... and its fence runs through; then the old answer is used, and the worker's copy is autonomous
   * again while the switch is up.  SQL still refuses every order slot.
   */
  lemma StaleReadRevivesCopy(w: World, row: Row, fence: nat, read: nat)
    requires w.tasks == map[read := Fetched(Some(row)), fence := Fencing(Some(row.id))] && fence != read
    requires w.local.kill && row.id in w.rows && w.rows[row.id] == row && Autonomous(Some(row))
    ensures
      var v := Do(FenceThrough(w, fence, ""), Project(read, true));
      && v.local.kill && v.local.session == Some(row)
      && Get(v.rows, row.id) == Some(row.(state := REAUTH_REQUIRED))
      && !HitsIn(v.rows, Reserve(row.id), row.id)
  {
    FenceThroughIs(w, fence, "");
    ProjectIs(FenceThrough(w, fence, ""), read, Some(row));
    FencedRow(w.rows, row.id);
  }

  lemma FencedRow(t: Table, id: string)
    requires id in t && Autonomous(Some(t[id]))
    ensures Get(Exec(t, FenceAll), id) == Some(t[id].(state := REAUTH_REQUIRED))
    ensures !HitsIn(Exec(t, FenceAll), Reserve(id), id)
  {
  }

  // ---- undisturbed operations are runs ----

  /** The run ends with this worker and these rows, and leaves nobody waiting who was not. */
  predicate Ends(w: World, acts: seq<Act>, result: (Local, Table)) {
    var v := After(w, acts);
    v.local == result.0 && v.rows == result.1 && v.tasks == w.tasks
  }

  lemma EndsBoth(w: World, a: seq<Act>, b: seq<Act>, middle: (Local, Table), result: (Local, Table))
    requires Ends(w, a, middle) && Ends(After(w, a), b, result)
    ensures Ends(w, a + b, result)
  {
    AfterBoth(w, a, b);
  }

  /** What is left of a fence once its guard is passed. */
  function FenceRest(task: nat, reach: Reach, latest: string): seq<Act> {
    match reach
    case Down => [FenceFail(task)]
    case Landed => [FenceSql(task), FenceFail(task)]
    case Answered => [FenceSql(task), FenceRead(task, latest), FenceEnd(task)]
  }

  lemma FenceRestIs(w: World, task: nat, reach: Reach, latest: string)
    requires task in w.tasks && w.tasks[task] == Fencing(w.local.launchId) && NeedsFence(w.local)
    ensures
      var v := After(w, FenceRest(task, reach, latest));
      (v.local, v.rows) == Fence(w.local, w.rows, reach, latest) && v.tasks == w.tasks - {task}
  {
    match reach
    case Down =>
      OneAct(w, FenceFail(task));
    case Landed =>
      TwoActs(w, FenceSql(task), FenceFail(task));
      assert Do(w, FenceSql(task)) ==
             w.(rows := Exec(w.rows, FenceAll), tasks := w.tasks[task := FencedInSql(w.local.launchId)]);
      assert w.tasks[task := FencedInSql(w.local.launchId)] - {task} == w.tasks - {task};
    case Answered =>
      ThreeActs(w, FenceSql(task), FenceRead(task, latest), FenceEnd(task));
      FenceThroughIs(w, task, latest);
  }

  function FenceActs(l: Local, task: nat, reach: Reach, latest: string): seq<Act> {
    if NeedsFence(l) then [StartFence(task)] + FenceRest(task, reach, latest) else []
  }

  lemma FenceIsRun(w: World, task: nat, reach: Reach, latest: string)
    requires task !in w.tasks
    ensures Ends(w, FenceActs(w.local, task, reach, latest), Fence(w.local, w.rows, reach, latest))
  {
    if NeedsFence(w.local) {
      OneAct(w, StartFence(task));
      var v := Do(w, StartFence(task));
      FenceRestIs(v, task, reach, latest);
      assert v.tasks - {task} == w.tasks;
      AfterBoth(w, [StartFence(task)], FenceRest(task, reach, latest));
    }
  }

  function RestoreActs(task: nat, id: string, reach: Reach): seq<Act> {
    if reach.Answered? then [Sql(LaunchSessions.Reconciled(id)), Fetch(task, id), Project(task, true)]
    else [Sql(LaunchSessions.Reconciled(id))]
  }

  function ReconcileActs(l: Local, task: nat, sight: Sight, reach: Reach): seq<Act> {
    if l.adapter.None? then [Observe(if l.mode != PAPER then DOWN else DOWN.(ready := true))]
    else if !sight.ending.Returned? then [MoveAdapter(l.adapter.value, sight.seen)]
    else
      [MoveAdapter(l.adapter.value, sight.seen), Sync] +
      if !sight.seen.health.inSync || l.launchId.None? || reach.Down? then []
      else RestoreActs(task, l.launchId.value, reach)
  }

  lemma ReconcileIsRun(w: World, task: nat, sight: Sight, reach: Reach)
    requires task !in w.tasks
    ensures Ends(w, ReconcileActs(w.local, task, sight, reach), Reconcile(w.local, w.rows, sight, reach))
  {
    var l := w.local;
    if l.adapter.None? {
      OneAct(w, ReconcileActs(l, task, sight, reach)[0]);
    } else if !sight.ending.Returned? {
      OneAct(w, MoveAdapter(l.adapter.value, sight.seen));
    } else {
      TwoActs(w, MoveAdapter(l.adapter.value, sight.seen), Sync);
      var v := Do(Do(w, MoveAdapter(l.adapter.value, sight.seen)), Sync);
      assert v == w.(local := Synced(WithAdapter(l, sight.seen)));
      if sight.seen.health.inSync && l.launchId.Some? && !reach.Down? {
        RestoreIs(v, task, l.launchId.value, reach);
        AfterBoth(w, [MoveAdapter(l.adapter.value, sight.seen), Sync], RestoreActs(task, l.launchId.value, reach));
      } else {
        assert ReconcileActs(l, task, sight, reach) == [MoveAdapter(l.adapter.value, sight.seen), Sync];
      }
    }
  }

  lemma RestoreIs(w: World, task: nat, id: string, reach: Reach)
    requires task !in w.tasks
    ensures
      var v, u := After(w, RestoreActs(task, id, reach)), Exec(w.rows, LaunchSessions.Reconciled(id));
      && v.local == (if reach.Answered? then WithSession(w.local, Get(u, id)) else w.local)
      && v.rows == u && v.tasks == w.tasks
  {
    if reach.Answered? {
      ReadBackIs(w, task, id);
    } else {
      OneAct(w, Sql(LaunchSessions.Reconciled(id)));
      SqlIs(w, LaunchSessions.Reconciled(id));
    }
  }

  lemma ReadBackIs(w: World, task: nat, id: string)
    requires task !in w.tasks
    ensures
      var v := After(w, [Sql(LaunchSessions.Reconciled(id)), Fetch(task, id), Project(task, true)]);
      var u := Exec(w.rows, LaunchSessions.Reconciled(id));
      v.local == WithSession(w.local, Get(u, id)) && v.rows == u && v.tasks == w.tasks
  {
    ThreeActs(w, Sql(LaunchSessions.Reconciled(id)), Fetch(task, id), Project(task, true));
    SqlIs(w, LaunchSessions.Reconciled(id));
    var w1 := w.(rows := Exec(w.rows, LaunchSessions.Reconciled(id)));
    FetchIs(w1, task, id);
    var w2 := w1.(tasks := w1.tasks[task := Fetched(Get(w1.rows, id))]);
    ProjectIs(w2, task, Get(w1.rows, id));
    assert w2.tasks - {task} == w.tasks;
  }

  function GuardedActs(l: Local, task: nat, sight: Sight, reach: Reach): seq<Act> {
    ReconcileActs(l, task, sight, reach) +
      if l.adapter.Some? && sight.ending.Refused? then [MoveAdapter(l.adapter.value, Dropped(sight.seen))] else []
  }

  lemma GuardedIsRun(w: World, task: nat, sight: Sight, reach: Reach)
    requires task !in w.tasks
    ensures Ends(w, GuardedActs(w.local, task, sight, reach), Guarded(w.local, w.rows, sight, reach))
  {
    ReconcileIsRun(w, task, sight, reach);
    var acts := ReconcileActs(w.local, task, sight, reach);
    if w.local.adapter.Some? && sight.ending.Refused? {
      OneAct(After(w, acts), MoveAdapter(w.local.adapter.value, Dropped(sight.seen)));
      EndsBoth(w, acts, [MoveAdapter(w.local.adapter.value, Dropped(sight.seen))],
               Reconcile(w.local, w.rows, sight, reach), Guarded(w.local, w.rows, sight, reach));
    } else {
      assert GuardedActs(w.local, task, sight, reach) == acts;
    }
  }

  function EngageStart(l: Local, task: nat, reach: Reach, latest: string): seq<Act> {
    [EngageFlags(task)] + if NeedsFence(l) then FenceRest(task, reach, latest) else []
  }

  lemma EngageStartIs(w: World, task: nat, reach: Reach, latest: string)
    requires task !in w.tasks
    ensures Ends(w, EngageStart(w.local, task, reach, latest), Fence(Engaged(w.local), w.rows, reach, latest))
  {
    OneAct(w, EngageFlags(task));
    var v := Do(w, EngageFlags(task));
    if NeedsFence(w.local) {
      FenceRestIs(v, task, reach, latest);
      assert v.tasks - {task} == w.tasks;
      AfterBoth(w, [EngageFlags(task)], FenceRest(task, reach, latest));
    } else {
      assert EngageStart(w.local, task, reach, latest) == [EngageFlags(task)];
    }
  }

  /** After the fence, with worker `m`. */
  function EngageEnd(m: Local, task: nat, cancelled: bool, sight: Sight, reach: Reach): seq<Act> {
    if m.mode == PAPER || m.adapter.None? then []
    else
      var a := Look(m, m.adapter.value);
      [MoveAdapter(m.adapter.value, a.(health := a.health.(inSync := false)))] +
      if cancelled then GuardedActs(Unsynced(m), task, sight, reach) else []
  }

  lemma EngageEndIs(w: World, task: nat, cancelled: bool, sight: Sight, reach: Reach)
    requires task !in w.tasks
    ensures
      var m := w.local;
      Ends(w, EngageEnd(m, task, cancelled, sight, reach),
           if m.mode == PAPER || m.adapter.None? then (m, w.rows)
           else if !cancelled then (Unsynced(m), w.rows)
           else Guarded(Unsynced(m), w.rows, sight, reach))
  {
    var m := w.local;
    if m.mode != PAPER && m.adapter.Some? {
      var a := Look(m, m.adapter.value);
      var void := MoveAdapter(m.adapter.value, a.(health := a.health.(inSync := false)));
      OneAct(w, void);
      var v := Do(w, void);
      assert v == w.(local := Unsynced(m));
      if cancelled {
        GuardedIsRun(v, task, sight, reach);
        EndsBoth(w, [void], GuardedActs(Unsynced(m), task, sight, reach), (Unsynced(m), w.rows),
                 Guarded(Unsynced(m), w.rows, sight, reach));
      } else {
        assert EngageEnd(m, task, cancelled, sight, reach) == [void];
      }
    }
  }

  /** Engaging the switch, undisturbed. */
  lemma EngageIsRun(w: World, task: nat, fence: Reach, latest: string, cancelled: bool, sight: Sight,
                    reach: Reach)
    requires task !in w.tasks
    ensures
      var m := Fence(Engaged(w.local), w.rows, fence, latest).0;
      Ends(w, EngageStart(w.local, task, fence, latest) + EngageEnd(m, task, cancelled, sight, reach),
           Engage(w.local, w.rows, fence, latest, cancelled, sight, reach))
  {
    var middle := Fence(Engaged(w.local), w.rows, fence, latest);
    var start := EngageStart(w.local, task, fence, latest);
    EngageStartIs(w, task, fence, latest);
    EngageEndIs(After(w, start), task, cancelled, sight, reach);
    EndsBoth(w, start, EngageEnd(middle.0, task, cancelled, sight, reach), middle,
             Engage(w.local, w.rows, fence, latest, cancelled, sight, reach));
  }

  predicate ToExchange(l: Local) {
    l.kill && l.mode != PAPER && l.adapter.Some?
  }

  function VerifyingActs(l: Local, task: nat, other: nat, sight: Sight, reach: Reach): seq<Act> {
    GuardedActs(l, other, sight, reach) +
      if sight.ending.Returned? then [ReleaseSync(task), ReleaseEnd(task)] else [ReleaseFail(task)]
  }

  function ReleaseActs(l: Local, task: nat, other: nat, open: OpenOrders, sight: Sight, reach: Reach): seq<Act> {
    if !l.kill then [Refresh]
    else if !ToExchange(l) then [ReleasePaper]
    else
      [ReleaseStart(task), ReleaseOrders(task, open)] +
      if open == Orders(0) then VerifyingActs(l, task, other, sight, reach)
      else if open.Unauthorized? then [MoveAdapter(l.adapter.value, Dropped(Look(l, l.adapter.value)))]
      else []
  }

  /** Releasing the switch, undisturbed. */
  lemma ReleaseIsRun(w: World, task: nat, other: nat, open: OpenOrders, sight: Sight, reach: Reach)
    requires task !in w.tasks && other !in w.tasks && task != other
    ensures Ends(w, ReleaseActs(w.local, task, other, open, sight, reach),
                 Release(w.local, w.rows, open, sight, reach))
  {
    var l := w.local;
    if !l.kill {
      OneAct(w, Refresh);
    } else if !ToExchange(l) {
      OneAct(w, ReleasePaper);
    } else if open == Orders(0) {
      VerifiedRelease(w, task, other, sight, reach);
    } else {
      RefusedRelease(w, task, other, open, sight, reach);
    }
  }

  lemma RefusedRelease(w: World, task: nat, other: nat, open: OpenOrders, sight: Sight, reach: Reach)
    requires task !in w.tasks && ToExchange(w.local) && open != Orders(0)
    ensures Ends(w, ReleaseActs(w.local, task, other, open, sight, reach),
                 Release(w.local, w.rows, open, sight, reach))
  {
    var l, begin := w.local, [ReleaseStart(task), ReleaseOrders(task, open)];
    TwoActs(w, ReleaseStart(task), ReleaseOrders(task, open));
    ReleaseStartIs(w, task);
    ReleaseOrdersIs(Do(w, ReleaseStart(task)), task, l.adapter.value, open);
    assert w.tasks[task := Listing(l.adapter.value)] - {task} == w.tasks;
    assert After(w, begin) == w;
    if open.Unauthorized? {
      var drop := MoveAdapter(l.adapter.value, Dropped(Look(l, l.adapter.value)));
      OneAct(w, drop);
      AfterBoth(w, begin, [drop]);
    } else {
      assert ReleaseActs(l, task, other, open, sight, reach) == begin;
    }
  }

  /** The end of a release, after its reconciliation. */
  lemma ReleaseEnds(w: World, task: nat, adapter: nat, returned: bool)
    requires task in w.tasks && w.tasks[task] == Verifying(adapter, Some(adapter))
    ensures
      var v := After(w, if returned then [ReleaseSync(task), ReleaseEnd(task)] else [ReleaseFail(task)]);
      var a := Look(w.local, adapter);
      && v.local == (if returned && a.health.inSync && Verifiable(a) then Released(w.local) else w.local)
      && v.rows == w.rows && v.tasks == w.tasks - {task}
  {
    if returned {
      SyncEnds(w, task, adapter);
    } else {
      OneAct(w, ReleaseFail(task));
    }
  }

  lemma SyncEnds(w: World, task: nat, adapter: nat)
    requires task in w.tasks && w.tasks[task] == Verifying(adapter, Some(adapter))
    ensures
      var v := After(w, [ReleaseSync(task), ReleaseEnd(task)]);
      var a := Look(w.local, adapter);
      && v.local == (if a.health.inSync && Verifiable(a) then Released(w.local) else w.local)
      && v.rows == w.rows && v.tasks == w.tasks - {task}
  {
    TwoActs(w, ReleaseSync(task), ReleaseEnd(task));
    ReleaseSyncIs(w, task, adapter, Some(adapter));
    if InSync(w.local, Some(adapter)) {
      var v := w.(tasks := w.tasks[task := Synchronized(adapter)]);
      ReleaseEndIs(v, task, adapter);
      assert v.tasks - {task} == w.tasks - {task};
    } else {
      assert Do(w.(tasks := w.tasks - {task}), ReleaseEnd(task)) == w.(tasks := w.tasks - {task});
    }
  }

  /** The rest of a release that saw no open orders. */
  lemma ReleaseTail(w: World, task: nat, other: nat, sight: Sight, reach: Reach)
    requires ToExchange(w.local) && task in w.tasks
    requires w.tasks[task] == Verifying(w.local.adapter.value, w.local.adapter)
    requires other !in w.tasks
    ensures
      var v := After(w, VerifyingActs(w.local, task, other, sight, reach));
      (v.local, v.rows) == Release(w.local, w.rows, Orders(0), sight, reach) && v.tasks == w.tasks - {task}
  {
    var guarded := GuardedActs(w.local, other, sight, reach);
    var end := if sight.ending.Returned? then [ReleaseSync(task), ReleaseEnd(task)] else [ReleaseFail(task)];
    GuardedIsRun(w, other, sight, reach);
    AfterBoth(w, guarded, end);
    ReleaseEnds(After(w, guarded), task, w.local.adapter.value, sight.ending.Returned?);
    ReconcileSees(w.local, w.rows, sight, reach);
    ReleaseOutcome(w.local, w.rows, sight, reach);
  }

  lemma ReleaseBegins(w: World, task: nat)
    requires task !in w.tasks && ToExchange(w.local)
    ensures After(w, [ReleaseStart(task), ReleaseOrders(task, Orders(0))]) ==
            w.(tasks := w.tasks[task := Verifying(w.local.adapter.value, w.local.adapter)])
  {
    var begun := w.(tasks := w.tasks[task := Listing(w.local.adapter.value)]);
    ReleaseStartIs(w, task);
    ReleaseOrdersIs(begun, task, w.local.adapter.value, Orders(0));
    assert begun.tasks[task := Verifying(w.local.adapter.value, w.local.adapter)] ==
           w.tasks[task := Verifying(w.local.adapter.value, w.local.adapter)];
    TwoActs(w, ReleaseStart(task), ReleaseOrders(task, Orders(0)));
  }

  lemma ReleaseOutcome(l: Local, t: Table, sight: Sight, reach: Reach)
    requires ToExchange(l)
    ensures
      var (m, u) := Guarded(l, t, sight, reach);
      var synced := sight.ending.Returned? && sight.seen.health.inSync;
      Release(l, t, Orders(0), sight, reach) ==
      (if synced && Verifiable(Look(m, l.adapter.value)) then Released(m) else m, u)
  {
  }

  lemma VerifiedRelease(w: World, task: nat, other: nat, sight: Sight, reach: Reach)
    requires task !in w.tasks && other !in w.tasks && task != other && ToExchange(w.local)
    ensures
      var v := After(w, [ReleaseStart(task), ReleaseOrders(task, Orders(0))] +
                        VerifyingActs(w.local, task, other, sight, reach));
      (v.local, v.rows) == Release(w.local, w.rows, Orders(0), sight, reach) && v.tasks == w.tasks
  {
    var v := w.(tasks := w.tasks[task := Verifying(w.local.adapter.value, w.local.adapter)]);
    ReleaseBegins(w, task);
    ReleaseTail(v, task, other, sight, reach);
    assert v.tasks - {task} == w.tasks;
    AfterBoth(w, [ReleaseStart(task), ReleaseOrders(task, Orders(0))],
              VerifyingActs(w.local, task, other, sight, reach));
  }

  /** Disarming, undisturbed. */
  lemma DisarmIsRun(w: World, task: nat, reach: Reach, latest: string)
    requires task !in w.tasks
    ensures
      var (m, u) := Fence(w.local, w.rows, reach, latest);
      Ends(w, FenceActs(w.local, task, reach, latest) + [DisarmEnd], (Disarmed(m), u))
  {
    var middle, acts := Fence(w.local, w.rows, reach, latest), FenceActs(w.local, task, reach, latest);
    FenceIsRun(w, task, reach, latest);
    OneAct(After(w, acts), DisarmEnd);
    EndsBoth(w, acts, [DisarmEnd], middle, (Disarmed(middle.0), middle.1));
  }

  // ---- a run that leaves an autonomous session behind ----

  const START := World(INITIAL, map[], None, map[])

  function Launched(id: string, approval: string, image: string): Row {
    Row(id, approval, image, STAGED_FIRST_ORDER, Some(1), 0, 0, ACTIVE, None)
  }

  /** Armed for a staged launch. */
  function Armed(id: string, approval: string, image: string): World {
    var row := Launched(id, approval, image);
    World(INITIAL.(mode := LIVE, engine := ARMED, configured := true, adapter := Some(0), adapters := map[0 := HEALTHY],
                   session := Some(row), launchId := Some(id)),
          map[id := row], None, map[])
  }

  /** A worker in LIVE with a healthy adapter. */
  function Connected(): World {
    START.(local := INITIAL.(mode := LIVE, adapter := Some(0), adapters := map[0 := HEALTHY]))
  }

  lemma ConnectedRun()
    ensures After(START, [ArmMode(LIVE), MoveAdapter(0, HEALTHY), Attach(Some(0))]) == Connected()
  {
    ThreeActs(START, ArmMode(LIVE), MoveAdapter(0, HEALTHY), Attach(Some(0)));
  }

  lemma ArmedRun(id: string, approval: string, image: string)
    ensures After(Connected(), [Sql(Insert(id, approval, image)), Fetch(0, id), ArmEnd(LIVE, 0)]) ==
            Armed(id, approval, image)
  {
    var ready, row := Connected(), Launched(id, approval, image);
    ThreeActs(ready, Sql(Insert(id, approval, image)), Fetch(0, id), ArmEnd(LIVE, 0));
    assert Exec(map[], Insert(id, approval, image)) == map[id := row];
    var fetched := ready.(rows := map[id := row], tasks := map[0 := Fetched(Some(row))]);
    assert Do(Do(ready, Sql(Insert(id, approval, image))), Fetch(0, id)) == fetched;
    assert fetched.tasks - {0} == map[];
  }

  /** The first order is out, the pause is known, and a continuation has just been approved in SQL. */
  function Activating(id: string, approval: string, image: string, continuation: string): World {
    var paused := Launched(id, approval, image).(reserved := 1, submitted := 1, state := PAUSED_NEW_RISK);
    var active := Changed(paused, Activate(id, continuation, image));
    var w := Armed(id, approval, image);
    World(w.local.(session := Some(paused)), map[id := active], Some(paused), map[0 := Activated(active)])
  }

  lemma ActivatingRun(id: string, approval: string, image: string, continuation: string)
    ensures
      After(Armed(id, approval, image), [Sql(Reserve(id)), Sql(MarkSubmitted(id))] +
            [Fetch(0, id), Project(0, true), Activation(0, id, continuation, image)]) ==
      Activating(id, approval, image, continuation)
  {
    var w, row := Armed(id, approval, image), Launched(id, approval, image);
    var paused := row.(reserved := 1, submitted := 1, state := PAUSED_NEW_RISK);
    var v := w.(rows := map[id := paused]);
    OrderedRun(w, id, row);
    ThreeActs(v, Fetch(0, id), Project(0, true), Activation(0, id, continuation, image));
    ProjectedAndActivated(v, id, paused, continuation, image);
    AfterBoth(w, [Sql(Reserve(id)), Sql(MarkSubmitted(id))],
              [Fetch(0, id), Project(0, true), Activation(0, id, continuation, image)]);
  }

  lemma OrderedRun(w: World, id: string, row: Row)
    requires w.rows == map[id := row] && row.id == id && Hits(row, Reserve(id)) && row.reserved == 0
    requires row.policy.STAGED_FIRST_ORDER? && row.state.ACTIVE? && row.submitted == 0 && row.maxOrders == Some(1)
    ensures After(w, [Sql(Reserve(id)), Sql(MarkSubmitted(id))]) ==
            w.(rows := map[id := row.(reserved := 1, submitted := 1, state := PAUSED_NEW_RISK)])
  {
    TwoSql(w, Reserve(id), MarkSubmitted(id));
    OrderedRow(id, row);
  }

  lemma OrderedRow(id: string, row: Row)
    requires row.id == id && Hits(row, Reserve(id)) && row.reserved == 0
    requires row.policy.STAGED_FIRST_ORDER? && row.state.ACTIVE? && row.submitted == 0 && row.maxOrders == Some(1)
    ensures Exec(Exec(map[id := row], Reserve(id)), MarkSubmitted(id)) ==
            map[id := row.(reserved := 1, submitted := 1, state := PAUSED_NEW_RISK)]
  {
    OneRowExec(id, row, Reserve(id));
    OneRowExec(id, RowAfter(row, Reserve(id)), MarkSubmitted(id));
  }

  lemma TwoSql(w: World, a: Statement, b: Statement)
    requires !a.Activate? && !b.Activate?
    ensures After(w, [Sql(a), Sql(b)]) == w.(rows := Exec(Exec(w.rows, a), b))
  {
    OneSql(w, a);
    OneSql(w.(rows := Exec(w.rows, a)), b);
    AfterBoth(w, [Sql(a)], [Sql(b)]);
    assert [Sql(a)] + [Sql(b)] == [Sql(a), Sql(b)];
  }

  lemma OneSql(w: World, s: Statement)
    requires !s.Activate?
    ensures After(w, [Sql(s)]) == w.(rows := Exec(w.rows, s))
  {
    OneAct(w, Sql(s));
    SqlIs(w, s);
  }

  lemma OneRowExec(id: string, row: Row, s: Statement)
    requires !s.Insert?
    ensures Exec(map[id := row], s) == map[id := RowAfter(row, s)]
  {
  }

  lemma ProjectedAndActivated(v: World, id: string, paused: Row, continuation: string, image: string)
    requires v.tasks == map[] && v.rows == map[id := paused] && paused.id == id &&
             Hits(paused, Activate(id, continuation, image))
    ensures
      var active := Changed(paused, Activate(id, continuation, image));
      Do(Do(Do(v, Fetch(0, id)), Project(0, true)), Activation(0, id, continuation, image)) ==
      World(WithSession(v.local, Some(paused)), map[id := active], Some(paused), map[0 := Activated(active)])
  {
    FetchIs(v, 0, id);
    var fetched := v.(tasks := map[0 := Fetched(Some(paused))]);
    ProjectIs(fetched, 0, Some(paused));
    assert fetched.tasks - {0} == map[];
    var projected := World(WithSession(v.local, Some(paused)), v.rows, Some(paused), map[]);
    assert Do(Do(v, Fetch(0, id)), Project(0, true)) == projected;
    ActivationIs(projected, id, paused, continuation, image);
  }

  lemma ActivationIs(w: World, id: string, row: Row, continuation: string, image: string)
    requires w.tasks == map[] && w.rows == map[id := row] && Hits(row, Activate(id, continuation, image))
    ensures
      var active := Changed(row, Activate(id, continuation, image));
      Do(w, Activation(0, id, continuation, image)) ==
      w.(rows := map[id := active], tasks := map[0 := Activated(active)])
  {
    var s := Activate(id, continuation, image);
    assert Exec(w.rows, s) == map[id := Changed(row, s)];
  }

  function LaunchActs(id: string, approval: string, image: string, continuation: string): seq<Act> {
    [ArmMode(LIVE), MoveAdapter(0, HEALTHY), Attach(Some(0))] +
    ([Sql(Insert(id, approval, image)), Fetch(0, id), ArmEnd(LIVE, 0)] +
     ([Sql(Reserve(id)), Sql(MarkSubmitted(id))] +
      [Fetch(0, id), Project(0, true), Activation(0, id, continuation, image)]))
  }

  lemma LaunchedRun(id: string, approval: string, image: string, continuation: string)
    ensures After(START, LaunchActs(id, approval, image, continuation)) == Activating(id, approval, image, continuation)
  {
    var a, b := [ArmMode(LIVE), MoveAdapter(0, HEALTHY), Attach(Some(0))],
                [Sql(Insert(id, approval, image)), Fetch(0, id), ArmEnd(LIVE, 0)];
    var c := [Sql(Reserve(id)), Sql(MarkSubmitted(id))] +
             [Fetch(0, id), Project(0, true), Activation(0, id, continuation, image)];
    ConnectedRun();
    ArmedRun(id, approval, image);
    ActivatingRun(id, approval, image, continuation);
    AfterBoth(START, a, b + c);
    AfterBoth(Connected(), b, c);
  }

  lemma EngagedUnaware(w: World, id: string)
    requires TableOk(w.rows) && id in w.rows && w.rows[id].state.AUTONOMOUS_ACTIVE?
    requires w.local.mode == LIVE && w.local.adapter.Some? && w.local.launchId == Some(id) &&
             !Autonomous(w.local.session)
    ensures
      var m := Engage(w.local, w.rows, Answered, "", true, Sight(HEALTHY, Returned), Answered).0;
      m.kill && NeedsFence(m)
  {
    EngageLeavesAutonomyIff(w.local, w.rows, Answered, "", true, Sight(HEALTHY, Returned), Answered);
  }

  /** A run from the start after which engaging leaves an autonomous session with the switch up. */
  lemma UnknownAutonomyRun(id: string, approval: string, image: string, continuation: string)
    ensures
      var v := After(START, LaunchActs(id, approval, image, continuation));
      var m := Engage(v.local, v.rows, Answered, "", true, Sight(HEALTHY, Returned), Answered).0;
      m.kill && NeedsFence(m)
  {
    LaunchedRun(id, approval, image, continuation);
    var v := Activating(id, approval, image, continuation);
    assert TableOk(v.rows);
    EngagedUnaware(v, id);
  }

  // ---- a run that lifts the pause under the switch ----

  /** The continuation is taken over, on a synced adapter. */
  lemma TakenOver(id: string, approval: string, image: string, continuation: string)
    ensures
      var v := After(Activating(id, approval, image, continuation), [Sync, ContinueEnd(0)]);
      && v.local.engine == ARMED && !v.local.pause && v.tasks == map[] && v.local.mode == LIVE
      && !v.local.kill && !v.local.recovery && v.local.configured && v.mirror == v.local.session
      && v.local.adapter == Some(0) && v.local.adapters == map[0 := HEALTHY] && Autonomous(v.local.session)
      && v.local.session.Some? && v.local.session.value.policy.AUTONOMOUS_AFTER_REVIEW?
      && v.rows == Activating(id, approval, image, continuation).rows
  {
    var w := Activating(id, approval, image, continuation);
    TwoActs(w, Sync, ContinueEnd(0));
    var synced := w.(local := Synced(w.local));
    assert Do(w, Sync) == synced;
    assert synced.local.health == HEALTHY.health && TradeAuthorized(synced.local);
    assert synced.tasks - {0} == map[];
  }

  /** Its next order is reserved, the switch is engaged, and the order comes back as submitted. */
  lemma OrderUnderWay(w: World, id: string)
    requires id in w.rows && w.rows[id].id == id && Autonomous(Some(w.rows[id])) && w.rows[id].maxOrders.None?
    requires w.rows[id].reserved >= w.rows[id].submitted && 0 !in w.tasks
    ensures HitsIn(w.rows, Reserve(id), id)
    ensures
      var v := After(w, [Sql(Reserve(id)), EngageFlags(0)]);
      && v.local == Engaged(w.local) && HitsIn(v.rows, MarkSubmitted(id), id)
  {
    TwoActs(w, Sql(Reserve(id)), EngageFlags(0));
    SqlIs(w, Reserve(id));
    var reserved := w.(rows := Exec(w.rows, Reserve(id)));
    EngagedLocal(reserved, 0);
    EngagedRows(reserved, 0);
  }

  lemma EngagedRows(w: World, task: nat)
    requires task !in w.tasks
    ensures Do(w, EngageFlags(task)).rows == w.rows
  {
  }

  lemma MarkedAndConfirmed(w: World, id: string)
    requires w.local.kill && w.local.session.Some? && w.local.session.value.policy.AUTONOMOUS_AFTER_REVIEW?
    ensures
      var v := After(w, [Sql(MarkSubmitted(id)), OrderConfirmed]);
      v.local.kill && !v.local.pause
  {
    TwoActs(w, Sql(MarkSubmitted(id)), OrderConfirmed);
    SqlIs(w, MarkSubmitted(id));
    ConfirmedLocal(w.local);
  }

  /** An autonomous worker in LIVE, from the start. */
  function ArmedActs(id: string, approval: string, image: string, continuation: string): seq<Act> {
    LaunchActs(id, approval, image, continuation) + [Sync, ContinueEnd(0)]
  }

  lemma ArmedAutonomous(id: string, approval: string, image: string, continuation: string)
    ensures
      var v := After(START, ArmedActs(id, approval, image, continuation));
      && v.local.engine == ARMED && !v.local.pause && v.tasks == map[] && v.local.mode == LIVE
      && !v.local.kill && !v.local.recovery && v.local.configured && v.mirror == v.local.session
      && v.local.adapter == Some(0) && v.local.adapters == map[0 := HEALTHY] && Autonomous(v.local.session)
      && v.local.session.Some? && v.local.session.value.policy.AUTONOMOUS_AFTER_REVIEW?
      && id in v.rows && v.rows[id].id == id && Autonomous(Some(v.rows[id])) && v.rows[id].maxOrders.None?
      && v.rows[id].reserved >= v.rows[id].submitted
  {
    LaunchedRun(id, approval, image, continuation);
    TakenOver(id, approval, image, continuation);
    AfterBoth(START, LaunchActs(id, approval, image, continuation), [Sync, ContinueEnd(0)]);
  }

  /**
   * From the start: an armed autonomous worker reserves an order, the switch is engaged, the order is
   * marked as submitted and confirmed.  Both statements find the session, and the pause is gone while
   * the switch is up.
   */
  lemma PauseLiftedRun(id: string, approval: string, image: string, continuation: string)
    ensures
      var w := After(START, ArmedActs(id, approval, image, continuation));
      var u := After(w, [Sql(Reserve(id)), EngageFlags(0)]);
      var v := After(u, [Sql(MarkSubmitted(id)), OrderConfirmed]);
      && HitsIn(w.rows, Reserve(id), id) && HitsIn(u.rows, MarkSubmitted(id), id)
      && u.local.kill && u.local.pause && v.local.kill && !v.local.pause
  {
    ArmedAutonomous(id, approval, image, continuation);
    var w := After(START, ArmedActs(id, approval, image, continuation));
    OrderUnderWay(w, id);
    MarkedAndConfirmed(After(w, [Sql(Reserve(id)), EngageFlags(0)]), id);
  }
}

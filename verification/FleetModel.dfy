/** One reconcile of a fleet as a step on values (pkg/controller/fleet_controller.go). The World is
    what the controller keeps and what it sees of one fleet; the Env holds every answer of the
    outside: clocks, listings, metrics, creations, patches, session queries, deletions. */
module FleetModel {
  import opened Common
  import opened PoolModel
  import opened Draining
  import opened Scaling

  /** The director.gamefleet.io/phase label; any value but these two counts as Other. */
  datatype PodPhase = PodAllocated | PodDraining | PodOther

  datatype Pod = Pod(phase: PodPhase, running: bool)

  type Pods = map<string, Pod>

  const NEW_POD := Pod(PodOther, false)

  /** The pods after an attempt to patch n's phase label. */
  function Relabelled(pods: Pods, n: string, phase: PodPhase, reaches: bool): Pods {
    if reaches && n in pods then pods[n := pods[n].(phase := phase)] else pods
  }

  datatype World = World(
    pods: Pods,
    pool: FleetPool,
    drains: map<string, Record>,
    failures: nat,
    openUntil: Option<int>,
    lastUp: Option<int>,
    lastDown: Option<int>)

  datatype Env = Env(
    fleet: Fetch,
    began: int,
    acted: int,
    policy: Option<Policy>,
    paused: bool,
    dryRun: bool,
    syncListed: bool,
    metricsListed: bool,
    metrics: Metrics,
    nodes: NodeAnswer,
    platform: real -> int,
    podNames: seq<string>,
    patched: string -> bool,
    answers: string -> Answer,
    deleted: string -> bool,
    statusWritten: bool)

  // ---------------------------------------------------------------- circuit breaker and cooldown

  const FAILURE_LIMIT := 5
  const OPEN_PERIOD := 300 * SECOND

  predicate CircuitOpen(openUntil: Option<int>, now: int) {
    openUntil.Some? && now <= openUntil.value
  }

  /** isCircuitOpen forgets an expired opening. */
  function Probed(openUntil: Option<int>, now: int): Option<int> {
    if openUntil.Some? && now > openUntil.value then None else openUntil
  }

  function WithFailure(w: World, now: int): World {
    w.(failures := w.failures + 1,
       openUntil := if w.failures + 1 >= FAILURE_LIMIT then Some(now + OPEN_PERIOD) else w.openUntil)
  }

  function WithReset(w: World): World {
    w.(failures := 0, openUntil := None)
  }

  /** The remaining cooldown, truncated to whole seconds. */
  function CooldownRemaining(last: Option<int>, windowSeconds: int, now: int): int {
    if last.None? || windowSeconds <= 0 then 0
    else
      var elapsed, window := now - last.value, windowSeconds * SECOND;
      if elapsed < window then (window - elapsed) / SECOND * SECOND else 0
  }

  // ---------------------------------------------------------------- rebuilding state from labels

  ghost function Running(pods: Pods): set<string> {
    set n | n in pods && pods[n].running
  }

  function SyncedServer(was: Option<Server>, phase: PodPhase, now: int): Server {
    var s := if was.None? then Server(false, true, now, 0) else was.value;
    match phase
    case PodAllocated => Used(s, now)
    case PodDraining => s.(healthy := false)
    case PodOther => s.(inUse := false, healthy := true, lastUsedAt := now)
  }

  ghost function SyncedServers(m: Servers, pods: Pods, now: int): Servers {
    map n | n in m.Keys + Running(pods) ::
      if n in Running(pods) then SyncedServer(At(m, n), pods[n].phase, now) else m[n]
  }

  ghost function SyncedPool(fp: FleetPool, pods: Pods, now: int): FleetPool {
    fp.(created := fp.created || Running(pods) != {}, servers := SyncedServers(fp.servers, pods, now))
  }

  ghost function SyncedDrains(drains: map<string, Record>, pods: Pods, now: int): map<string, Record> {
    map n | n in drains.Keys + (set k | k in Running(pods) && pods[k].phase == PodDraining) ::
      if n in drains then drains[n] else Recovered(now)
  }

  // ---------------------------------------------------------------- metrics

  datatype Snapshot = Snapshot(replicas: int, inUse: int, draining: int, ready: int, buffer: int)

  ghost function Labelled(pods: Pods, phase: PodPhase): set<string> {
    set n | n in pods && pods[n].phase == phase
  }

  ghost function WarmPods(pods: Pods): set<string> {
    set n | n in pods && pods[n].phase == PodOther && pods[n].running
  }

  ghost function SnapshotOf(pods: Pods): Snapshot {
    var inUse, warm := |Labelled(pods, PodAllocated)|, |WarmPods(pods)|;
    Snapshot(|pods|, inUse, |Labelled(pods, PodDraining)|, warm + inUse, warm)
  }

  // ---------------------------------------------------------------- scaling up

  /** The creations that succeed: the API server hands out the given names in turn, refuses a name
      already taken, and fails when the names run out. */
  ghost function Creations(pods: Pods, names: seq<string>, limit: int): (r: seq<string>)
    ensures |r| <= Max(0, limit) && r <= names
    decreases |names|
  {
    if limit <= 0 || names == [] || names[0] in pods then []
    else [names[0]] + Creations(pods[names[0] := NEW_POD], names[1..], limit - 1)
  }

  ghost function AddPods(pods: Pods, names: seq<string>): Pods
    decreases |names|
  {
    if names == [] then pods else AddPods(pods[names[0] := NEW_POD], names[1..])
  }

  ghost function RegisterAll(fp: FleetPool, names: seq<string>, now: int): FleetPool
    decreases |names|
  {
    if names == [] then fp else RegisterAll(Step(fp, Register(names[0]), now), names[1..], now)
  }

  // ---------------------------------------------------------------- scaling down

  /** The servers a scale-down round drains: the head of the idle list, at most -delta of them. */
  ghost function DrainTargets(fp: FleetPool, delta: int, now: int): (r: seq<string>)
    ensures |r| <= Max(0, -delta)
  {
    var idle := IdleServers(fp, now);
    idle[..Max(0, Min(|idle|, -delta))]
  }

  /** The draining label reaches a pod only if the patch succeeds. */
  ghost function CordonedPods(pods: Pods, names: set<string>, e: Env): Pods {
    map n | n in pods :: if n in names && e.patched(n) then pods[n].(phase := PodDraining) else pods[n]
  }

  ghost function CordonedPool(fp: FleetPool, names: set<string>): FleetPool {
    fp.(created := fp.created || names != {},
        servers := map n | n in fp.servers ::
                     if n in names then fp.servers[n].(healthy := false) else fp.servers[n])
  }

  ghost function CordonedDrains(drains: map<string, Record>, cfg: DrainConfig, names: set<string>, e: Env)
    : map<string, Record>
  {
    map n | n in drains.Keys + names :: if n in names then Started(cfg, e.acted) else drains[n]
  }

  ghost function Cordoned(w: World, cfg: DrainConfig, names: set<string>, e: Env): World {
    w.(pods := CordonedPods(w.pods, names, e),
       pool := CordonedPool(w.pool, names),
       drains := CordonedDrains(w.drains, cfg, names, e))
  }

  // ---------------------------------------------------------------- draining

  /** The records whose pods this pass asks to delete. */
  ghost function Requested(cfg: DrainConfig, drains: map<string, Record>, e: Env): set<string> {
    set n | n in drains && RequestsDelete(cfg, drains[n], e.acted, e.answers(n))
  }

  ghost function Gone(cfg: DrainConfig, drains: map<string, Record>, e: Env): set<string> {
    set n | n in Requested(cfg, drains, e) && e.deleted(n)
  }

  ghost function PassedDrains(cfg: DrainConfig, drains: map<string, Record>, e: Env): map<string, Record> {
    map n | n in drains && n !in Gone(cfg, drains, e) :: AfterPass(cfg, drains[n], e.acted, e.answers(n))
  }

  ghost function DrainPass(cfg: DrainConfig, w: World, e: Env): World {
    var gone := Gone(cfg, w.drains, e);
    w.(pods := w.pods - gone,
       pool := w.pool.(servers := w.pool.servers - gone),
       drains := PassedDrains(cfg, w.drains, e))
  }

  // ---------------------------------------------------------------- the reconcile

  datatype Outcome =
    | NotFound
    | FetchFailed
    | Skipped
    | PolicyFailed
    | MetricsFailed
    | CreateFailed
    | Completed(decision: Decision)

  /** The reconcile returns an error. A completed one does so when its status cannot be written. */
  predicate ReturnsError(o: Outcome, statusWritten: bool) {
    || o == FetchFailed || o == PolicyFailed || o == MetricsFailed || o == CreateFailed
    || (o.Completed? && !statusWritten)
  }

  ghost predicate Proceeds(w: World, e: Env) {
    e.fleet.Got? && !CircuitOpen(w.openUntil, e.began)
  }

  /** After the breaker check, the pool configuration update and the label sync. */
  ghost function Prepared(w: World, e: Env): World
    requires e.policy.Some?
  {
    var pool := w.pool.(config := Config(e.policy.value.bufferSize, e.policy.value.idleTimeoutSeconds * SECOND));
    var v := w.(openUntil := Probed(w.openUntil, e.began), pool := pool);
    if e.syncListed
    then v.(pool := SyncedPool(pool, w.pods, e.began), drains := SyncedDrains(w.drains, w.pods, e.began))
    else v
  }

  ghost function Evaluated(w: World, e: Env): ScaleResult
    requires e.policy.Some?
  {
    var snapshot := SnapshotOf(w.pods);
    Decide(e.paused, snapshot.replicas, snapshot.buffer, e.policy.value, e.metrics, e.nodes, e.platform)
  }

  /** The decision after the cooldown checks. */
  ghost function Planned(w: World, e: Env): ScaleResult
    requires e.policy.Some?
  {
    var r, p := Evaluated(w, e), e.policy.value;
    if r.decision == ScaleUp && CooldownRemaining(w.lastUp, p.scaleUpSeconds, e.acted) > 0 then r.(decision := Hold)
    else if r.decision == ScaleDown && CooldownRemaining(w.lastDown, p.scaleDownSeconds, e.acted) > 0 then
      r.(decision := Hold)
    else r
  }

  ghost function Grown(v: World, e: Env, delta: int): World {
    var names := Creations(v.pods, e.podNames, delta);
    v.(pods := AddPods(v.pods, names), pool := RegisterAll(v.pool, names, e.acted))
  }

  ghost predicate GrowthFails(v: World, e: Env, delta: int) {
    !e.dryRun && |Creations(v.pods, e.podNames, delta)| < delta
  }

  /** The prepared world after the decision has been carried out and the breaker has been told. */
  ghost function Executed(cfg: DrainConfig, v: World, e: Env, r: ScaleResult): World {
    match r.decision
    case ScaleUp =>
      if e.dryRun then WithReset(v)
      else if GrowthFails(v, e, r.delta) then WithFailure(Grown(v, e, r.delta), e.acted)
      else WithReset(Grown(v, e, r.delta).(lastUp := Some(e.acted)))
    case ScaleDown =>
      if e.dryRun then WithReset(v)
      else
        WithReset(Cordoned(v, cfg, Elements(DrainTargets(v.pool, r.delta, e.acted)), e).(lastDown := Some(e.acted)))
    case Frozen => v
    case Hold => WithReset(v)
  }

  ghost function OutcomeOf(w: World, e: Env): Outcome {
    if e.fleet.Missing? then NotFound
    else if e.fleet.Unreachable? then FetchFailed
    else if CircuitOpen(w.openUntil, e.began) then Skipped
    else if e.policy.None? then PolicyFailed
    else if !e.metricsListed then MetricsFailed
    else
      var v := Prepared(w, e);
      var r := Planned(v, e);
      if r.decision == ScaleUp && GrowthFails(v, e, r.delta) then CreateFailed else Completed(r.decision)
  }

  ghost function Reconciled(cfg: DrainConfig, w: World, e: Env): World {
    match OutcomeOf(w, e)
    case NotFound => w
    case FetchFailed => w
    case Skipped => w
    case PolicyFailed => WithFailure(w.(openUntil := Probed(w.openUntil, e.began)), e.acted)
    case MetricsFailed => Prepared(w, e)
    case CreateFailed => Executed(cfg, Prepared(w, e), e, Planned(Prepared(w, e), e))
    case Completed(_) =>
      DrainPass(cfg, Executed(cfg, Prepared(w, e), e, Planned(Prepared(w, e), e)), e)
  }
}

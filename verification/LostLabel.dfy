/** A run in which a match loses its server: every number is concrete. One reconcile takes fifteen
    seconds, longer than the idle timeout of ten, so that it finds a server to cordon; and the label
    patch of that cordon is lost. Nothing else goes wrong. */
module LostLabelRun {
  import opened Common
  import opened Scheduler
  import opened PoolModel
  import opened Draining
  import opened Scaling
  import opened FleetModel
  import opened FleetRuns
  import opened DrainRuns
  import opened AllocationControl
  import opened DirectorRuns
  import PoolHistories

  const CONFIG := DrainConfig(600 * SECOND, 30 * SECOND, 1800 * SECOND)
  const POLICY := Policy(1, 10, 1, 10, [], false, 0.0, 10, 60, 300)

  /** A reconcile without players in which every listing succeeds and no label patch arrives. */
  ghost predicate Happens(e: Env, began: int, acted: int, paused: bool) {
    && e.fleet.Got? && e.began == began && e.acted == acted && e.policy == Some(POLICY) && e.paused == paused && !e.dryRun
    && e.syncListed && e.metricsListed && e.metrics == Metrics(0, 0.0, 0.0) && e.nodes == NodeError
    && e.podNames == [] && e.statusWritten && forall n :: !e.patched(n)
  }

  const TWO_PODS: Pods := map["s" := Pod(PodOther, true), "t" := Pod(PodOther, true)]
  const TWO_SERVERS: Servers := map["s" := Server(false, true, SECOND, 0), "t" := Server(false, true, SECOND, 1)]

  /** The same servers after the label sync at 1000 s. */
  const SYNCED: Servers :=
    map["s" := Server(false, true, 1000 * SECOND, 0), "t" := Server(false, true, 1000 * SECOND, 1)]

  /** Two warm servers, one of them used once. */
  ghost predicate TwoWarm(w: World) {
    w == World(TWO_PODS, FleetPool(true, TWO_SERVERS, Config(1, 10 * SECOND), 0), map[], 0, None, None, None)
  }

  ghost predicate Resynced(w: World) {
    w == World(TWO_PODS, FleetPool(true, SYNCED, Config(1, 10 * SECOND), 0), map[], 0, None, None, None)
  }

  const GRANT := Answers(Got, 1031 * SECOND, 1031 * SECOND, None, true, true, true, true)

  lemma SnapshotOfTwo(pods: Pods)
    requires pods == TWO_PODS
    ensures SnapshotOf(pods).replicas == 2 && SnapshotOf(pods).buffer == 2
  {
    assert pods.Keys == {"s", "t"} && |pods| == |pods.Keys|;
    assert WarmPods(pods) == {"s", "t"};
  }

  lemma TargetOfNobody(p: Policy, m: Metrics, platform: real -> int)
    requires p == POLICY && m == Metrics(0, 0.0, 0.0)
    ensures Desired(p, m, platform) == 1
  {
  }

  lemma SyncRestartsClocks(w: World, e: Env)
    requires TwoWarm(w) && Happens(e, 1000 * SECOND, 1015 * SECOND, false)
    ensures Resynced(Prepared(w, e))
  {
    assert Running(w.pods) == {"s", "t"};
  }

  /** One server too many: the reconcile scales down by one. */
  lemma CordonScalesDown(w: World, e: Env)
    requires TwoWarm(w) && Happens(e, 1000 * SECOND, 1015 * SECOND, false)
    ensures OutcomeOf(w, e) == Completed(ScaleDown) && Planned(Prepared(w, e), e).delta == -1
  {
    hide SnapshotOf, Desired, Prepared;
    SyncRestartsClocks(w, e);
    PreparedKeepsPods(w, e);
    SnapshotOfTwo(w.pods);
    TargetOfNobody(e.policy.value, e.metrics, e.platform);
  }

  lemma IdleInOrder(fp: FleetPool, now: int)
    requires fp.servers == SYNCED && fp.config == Config(1, 10 * SECOND) && now == 1015 * SECOND
    ensures PoolModel.IdleServers(fp, now) == ["s", "t"]
  {
    assert Expired(fp, now) == {"s", "t"};
    assert Elements(["s", "t"]) == {"s", "t"};
    assert PoolHistories.ListsInOrder(fp.servers, Expired(fp, now), ["s", "t"]);
    PoolHistories.IdleServersExact(fp, now, ["s", "t"]);
  }

  lemma TargetIsS(w: World, e: Env)
    requires TwoWarm(w) && Happens(e, 1000 * SECOND, 1015 * SECOND, false)
    ensures RoundTargets(w, e) == ["s"]
  {
    hide Prepared, Planned, OutcomeOf, PoolModel.IdleServers;
    SyncRestartsClocks(w, e);
    CordonScalesDown(w, e);
    IdleInOrder(Prepared(w, e).pool, e.acted);
  }

  /** A paused fleet's reconcile completes without scaling. */
  lemma PausedCompletes(w: World, e: Env)
    requires e.fleet.Got? && e.policy.Some? && e.metricsListed && e.paused && w.openUntil == None
    ensures OutcomeOf(w, e) == Completed(Frozen)
  {
  }

  lemma BreakerStaysShut(cfg: DrainConfig, w: World, e: Env)
    requires OutcomeOf(w, e).Completed?
    ensures Reconciled(cfg, w, e).openUntil == None
  {
    hide OutcomeOf, Reconciled;
    BreakerStep(cfg, w, e);
  }

  /** No label, s out of the pool with a record past its cordon step, t as it was. */
  ghost predicate JustCordoned(w: World) {
    && w.pods == TWO_PODS && w.pool.created
    && w.pool.servers == SYNCED["s" := Server(false, false, 1000 * SECOND, 0)]
    && w.drains == map["s" := Started(CONFIG, 1015 * SECOND).(phase := Drain)]
  }

  lemma OneCordoned(w: World, e: Env)
    requires Resynced(w) && Happens(e, 1000 * SECOND, 1015 * SECOND, false)
    ensures var c := Cordoned(w, CONFIG, {"s"}, e);
            && c.pods == TWO_PODS && c.pool.created
            && c.pool.servers == SYNCED["s" := Server(false, false, 1000 * SECOND, 0)]
            && c.drains == map["s" := Started(CONFIG, e.acted)]
            && Gone(CONFIG, c.drains, e) == {}
            && PassedDrains(CONFIG, c.drains, e) == map["s" := Started(CONFIG, e.acted).(phase := Drain)]
  {
  }

  lemma AfterCordon(w: World, e: Env)
    requires TwoWarm(w) && Happens(e, 1000 * SECOND, 1015 * SECOND, false)
    ensures JustCordoned(Reconciled(CONFIG, w, e))
  {
    hide OutcomeOf, Reconciled, Planned, Prepared, DrainTargets, RoundTargets, Cordoned, Gone, PassedDrains;
    CordonScalesDown(w, e);
    TargetIsS(w, e);
    SyncRestartsClocks(w, e);
    assert Elements(["s"]) == {"s"};
    RoundIs(CONFIG, w, e);
    OneCordoned(Prepared(w, e), e);
  }

  lemma FrozenIs(cfg: DrainConfig, w: World, e: Env)
    requires OutcomeOf(w, e) == Completed(Frozen)
    ensures e.policy.Some?
    ensures var v := Prepared(w, e);
            var gone, after := Gone(cfg, v.drains, e), Reconciled(cfg, w, e);
            after.pool == v.pool.(servers := v.pool.servers - gone) && after.pods == w.pods - gone
  {
    hide Gone, PassedDrains;
    CompletedIsActed(cfg, w, e);
    PreparedKeepsPods(w, e);
  }

  /** Both servers are available again, s with no use and t with one. */
  ghost predicate BothAvailable(w: World) {
    && w.pods == TWO_PODS && w.pool.created
    && w.pool.servers == map["s" := Server(false, true, 1030 * SECOND, 0), "t" := Server(false, true, 1030 * SECOND, 1)]
  }

  lemma SyncOfTwo(w: World, e: Env)
    requires JustCordoned(w) && Happens(e, 1030 * SECOND, 1030 * SECOND, true)
    ensures Prepared(w, e).drains == w.drains && Gone(CONFIG, w.drains, e) == {}
    ensures Prepared(w, e).pool.created
    ensures Prepared(w, e).pool.servers ==
            map["s" := Server(false, true, 1030 * SECOND, 0), "t" := Server(false, true, 1030 * SECOND, 1)]
  {
    assert Running(w.pods) == {"s", "t"};
  }

  lemma AfterSync(w: World, e: Env)
    requires JustCordoned(w) && w.openUntil == None && Happens(e, 1030 * SECOND, 1030 * SECOND, true)
    ensures BothAvailable(Reconciled(CONFIG, w, e))
  {
    hide OutcomeOf, Reconciled, Prepared, Gone;
    PausedCompletes(w, e);
    FrozenIs(CONFIG, w, e);
    SyncOfTwo(w, e);
  }

  lemma GrantsS(w: World, spec: Spec, a: Answers)
    requires BothAvailable(w) && spec == Spec(1000 * SECOND, 0, false, None) && a == GRANT
    ensures GrantIn(DeskOf(w), Pending, spec, a) == Some("s")
  {
    hide ReplyTo;
    assert Filter(spec, a) == map[];
    assert Eligible(w.pool.servers, map[]) == {"s", "t"};
    PoolHistories.GrantByUse(w.pool, FewestPlayers, map[], "s");
  }

  lemma ServeKeepsBreaker(s: Setup, o: Office, id: string, a: Answers)
    ensures After(s, o, ServeRequest(id, a)).world.openUntil == o.world.openUntil
  {
    hide Serve;
  }

  lemma NobodyHolds(o: Office)
    requires TwoWarm(o.world) && o.requests == map["match" := Pending]
    ensures Safe(o)
  {
  }

  lemma UpToTheGrant(w: World, cordon: Env, sync: Env)
    requires TwoWarm(w) && Happens(cordon, 1000 * SECOND, 1015 * SECOND, false) && Happens(sync, 1030 * SECOND, 1030 * SECOND, true)
    ensures var w1 := Reconciled(CONFIG, w, cordon);
            && OutcomeOf(w1, sync) == Completed(Frozen) && LeavesAlone(w1, sync, "s")
            && BothAvailable(Reconciled(CONFIG, w1, sync)) && Reconciled(CONFIG, w1, sync).openUntil == None
  {
    hide OutcomeOf, Reconciled, TwoWarm, JustCordoned, BothAvailable, RoundTargets;
    var w1 := Reconciled(CONFIG, w, cordon);
    CordonScalesDown(w, cordon);
    AfterCordon(w, cordon);
    BreakerStaysShut(CONFIG, w, cordon);
    PausedCompletes(w1, sync);
    BreakerStaysShut(CONFIG, w1, sync);
    AfterSync(w1, sync);
  }

  lemma LateCompletes(s: Setup, o: Office, cordon: Env, sync: Env, a: Answers, late: Env)
    requires Reconciled(s.cfg, Reconciled(s.cfg, o.world, cordon), sync).openUntil == None
    requires late.fleet.Got? && late.policy.Some? && late.metricsListed && late.paused
    ensures OutcomeOf(Play(s, o, LostLabel(cordon, sync, "match", a)).world, late) == Completed(Frozen)
  {
    hide OutcomeOf, Reconciled, After, Play;
    PlayThree(s, o, cordon, sync, "match", a);
    ServeKeepsBreaker(s, o.(world := Reconciled(s.cfg, Reconciled(s.cfg, o.world, cordon), sync)), "match", a);
    PausedCompletes(Play(s, o, LostLabel(cordon, sync, "match", a)).world, late);
  }

  /** From a safe office, and with nobody else acting at all, a request comes to hold the server s,
      and a reconcile half an hour later asks for the pod of s to be deleted although s answers that
      five sessions are open. What went wrong is that the first reconcile was slower than the idle
      timeout and that its label patch was lost. */
  lemma AHeldServerIsDrained(s: Setup, o: Office, cordon: Env, sync: Env, a: Answers, late: Env)
    requires s.cfg == CONFIG && s.specs("match") == Spec(1000 * SECOND, 0, false, None)
    requires TwoWarm(o.world) && o.requests == map["match" := Pending] && a == GRANT
    requires Happens(cordon, 1000 * SECOND, 1015 * SECOND, false) && Happens(sync, 1030 * SECOND, 1030 * SECOND, true)
    requires Happens(late, 2900 * SECOND, 2900 * SECOND, true) && late.answers("s") == Sessions(5)
    ensures Safe(o)
    ensures var now := Play(s, o, LostLabel(cordon, sync, "match", a));
            At(now.requests, "match") == Some(Allocated("s")) && "s" in DeletesRequested(s.cfg, now.world, late)
  {
    hide OutcomeOf, Reconciled, LeavesAlone, RoundTargets, GrantIn, DeletesRequested, After, Play, Safe, TwoWarm;
    var w := Reconciled(s.cfg, Reconciled(s.cfg, o.world, cordon), sync);
    NobodyHolds(o);
    CordonScalesDown(o.world, cordon);
    TargetIsS(o.world, cordon);
    UpToTheGrant(o.world, cordon, sync);
    GrantsS(w, s.specs("match"), a);
    LateCompletes(s, o, cordon, sync, a, late);
    HeldServerIsDrained(s, o, "s", cordon, sync, "match", a, late);
  }
}

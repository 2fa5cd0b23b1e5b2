/** The fleet controller itself: FleetReconciler with the maps it updates in place. Every method's
    contract says which step of FleetModel it takes; Reconcile takes the whole one. */
module FleetControl {
  import opened Common
  import opened PoolModel
  import opened PoolManagement
  import opened Draining
  import opened Scaling
  import opened FleetModel

  /** The API server, as far as one fleet's pods go. */
  class Cluster {
    var pods: Pods
  }

  /** The pool calls the sync makes for one running pod. */
  method SyncServer(pm: PoolManager, f: string, name: string, phase: PodPhase, now: int)
    requires pm.Valid()
    modifies pm, pm.cells
    ensures pm.Valid() && fresh(pm.cells - old(pm.cells))
    ensures pm.Fleet(f) == Step(Step(old(pm.Fleet(f)), PoolModel.Register(name), now), LabelCall(name, phase), now)
    ensures forall g | g != f :: pm.Fleet(g) == old(pm.Fleet(g))
  {
    hide PoolManager.Fleet, PoolManager.Valid;
    pm.Register(f, name, now);
    match phase {
      case PodAllocated => pm.MarkAllocated(f, name, now);
      case PodDraining => pm.MarkUnhealthy(f, name);
      case PodOther => pm.MarkAvailable(f, name, now);
    }
  }

  class FleetReconciler {
    const poolMgr: PoolManager
    const drainer: Drainer
    var consecutiveFailures: map<string, nat>
    var circuitOpenUntil: map<string, int>
    var drainStates: map<string, ServerState>
    /** Every record object drainStates has ever held. */
    ghost var states: set<ServerState>
    var lastScaleUpAt: map<string, int>
    var lastScaleDownAt: map<string, int>

    ghost predicate Valid()
      reads this`drainStates, this`states, poolMgr
    {
      poolMgr.Valid() && forall n | n in drainStates :: drainStates[n] in states && drainStates[n].name == n
    }

    function Failures(f: string): nat
      reads this`consecutiveFailures
    {
      if f in consecutiveFailures then consecutiveFailures[f] else 0
    }

    ghost function Drains(): map<string, Record>
      reads this`drainStates, drainStates.Values
    {
      map n | n in drainStates :: drainStates[n].Value()
    }

    /** What the controller keeps about one fleet, drain records apart: those are shared. */
    ghost function Ledger(f: string): World
      requires Valid()
      reads this, poolMgr, poolMgr.cells
    {
      World(map[], poolMgr.Fleet(f), map[], Failures(f), At(circuitOpenUntil, f), At(lastScaleUpAt, f),
            At(lastScaleDownAt, f))
    }

    /** The controller's view of one fleet. */
    ghost function View(f: string, cluster: Cluster): World
      requires Valid()
      reads this, poolMgr, poolMgr.cells, drainStates.Values, cluster
    {
      Ledger(f).(pods := cluster.pods, drains := Drains())
    }

    constructor (poolMgr: PoolManager, drainer: Drainer)
      requires poolMgr.Valid()
      ensures Valid() && this.poolMgr == poolMgr && this.drainer == drainer
      ensures drainStates == map[]
      ensures forall f :: Ledger(f) == World(map[], poolMgr.Fleet(f), map[], 0, None, None, None)
    {
      this.poolMgr, this.drainer := poolMgr, drainer;
      consecutiveFailures, circuitOpenUntil, drainStates := map[], map[], map[];
      lastScaleUpAt, lastScaleDownAt, states := map[], map[], {};
    }

    // -------------------------------------------------------------- circuit breaker

    method RecordFailure(f: string, now: int)
      requires Valid()
      modifies this`consecutiveFailures, this`circuitOpenUntil
      ensures Ledger(f) == WithFailure(old(Ledger(f)), now)
      ensures forall g | g != f :: Ledger(g) == old(Ledger(g))
    {
      consecutiveFailures := consecutiveFailures[f := Failures(f) + 1];
      if consecutiveFailures[f] >= 5 {
        circuitOpenUntil := circuitOpenUntil[f := now + 5 * 60 * SECOND];
      }
    }

    method ResetCircuit(f: string)
      requires Valid()
      modifies this`consecutiveFailures, this`circuitOpenUntil
      ensures Ledger(f) == WithReset(old(Ledger(f)))
      ensures forall g | g != f :: Ledger(g) == old(Ledger(g))
    {
      consecutiveFailures := consecutiveFailures - {f};
      circuitOpenUntil := circuitOpenUntil - {f};
    }

    method IsCircuitOpen(f: string, now: int) returns (open: bool)
      requires Valid()
      modifies this`circuitOpenUntil
      ensures open == CircuitOpen(old(Ledger(f)).openUntil, now)
      ensures Ledger(f) == old(Ledger(f)).(openUntil := Probed(old(Ledger(f)).openUntil, now))
      ensures forall g | g != f :: Ledger(g) == old(Ledger(g))
    {
      if f !in circuitOpenUntil {
        return false;
      }
      var until := circuitOpenUntil[f];
      if now > until {
        circuitOpenUntil := circuitOpenUntil - {f};
        return false;
      }
      return true;
    }

    // -------------------------------------------------------------- cooldown

    method CooldownLeft(f: string, p: Policy, isScaleUp: bool, now: int) returns (wait: int)
      ensures wait == if isScaleUp then CooldownRemaining(At(lastScaleUpAt, f), p.scaleUpSeconds, now)
                      else CooldownRemaining(At(lastScaleDownAt, f), p.scaleDownSeconds, now)
    {
      var last: Option<int>;
      var windowSecs: int;
      if isScaleUp {
        last := At(lastScaleUpAt, f);
        windowSecs := p.scaleUpSeconds;
      } else {
        last := At(lastScaleDownAt, f);
        windowSecs := p.scaleDownSeconds;
      }
      if last.None? || windowSecs <= 0 {
        return 0;
      }
      var elapsed := now - last.value;
      var window := windowSecs * SECOND;
      if elapsed < window {
        var left := window - elapsed;
        return left / SECOND * SECOND;
      }
      return 0;
    }

    // -------------------------------------------------------------- label sync

    method SyncPoolFromLabels(f: string, cluster: Cluster, now: int)
      requires Valid()
      modifies this`drainStates, this`states, poolMgr, poolMgr.cells
      ensures Valid() && fresh(poolMgr.cells - old(poolMgr.cells))
      ensures fresh(states - old(states))
      ensures poolMgr.Fleet(f) == SyncedPool(old(poolMgr.Fleet(f)), cluster.pods, now)
      ensures Drains() == SyncedDrains(old(Drains()), cluster.pods, now)
      ensures forall g | g != f :: poolMgr.Fleet(g) == old(poolMgr.Fleet(g))
    {
      hide PoolManager.Fleet, PoolManager.Valid, SyncedPool, SyncedDrains;
      var pods := cluster.pods;
      var rest := pods.Keys;
      ghost var seen: Pods := map[];
      ghost var fp, drains := poolMgr.Fleet(f), Drains();
      SyncNothing(fp, drains, now);
      while rest != {}
        invariant Valid() && rest <= pods.Keys && seen == pods - rest && rest !! seen.Keys
        invariant fresh(poolMgr.cells - old(poolMgr.cells))
        invariant fresh(states - old(states))
        invariant poolMgr.Fleet(f) == SyncedPool(fp, seen, now)
        invariant Drains() == SyncedDrains(drains, seen, now)
        invariant forall g | g != f :: poolMgr.Fleet(g) == old(poolMgr.Fleet(g))
        decreases rest
      {
        var name :| name in rest;
        rest := rest - {name};
        SyncNext(f, name, pods[name], fp, drains, seen, now);
        seen := seen[name := pods[name]];
        assert seen == pods - rest;
      }
      assert seen == pods;
    }

    /** The sync goes on from the pods seen so far to one more. */
    method SyncNext(f: string, name: string, pod: Pod, ghost fp: FleetPool, ghost drains: map<string, Record>,
                    ghost seen: Pods, now: int)
      requires Valid() && name !in seen
      requires poolMgr.Fleet(f) == SyncedPool(fp, seen, now) && Drains() == SyncedDrains(drains, seen, now)
      modifies this`drainStates, this`states, poolMgr, poolMgr.cells
      ensures Valid() && fresh(poolMgr.cells - old(poolMgr.cells))
      ensures fresh(states - old(states))
      ensures poolMgr.Fleet(f) == SyncedPool(fp, seen[name := pod], now)
      ensures Drains() == SyncedDrains(drains, seen[name := pod], now)
      ensures forall g | g != f :: poolMgr.Fleet(g) == old(poolMgr.Fleet(g))
    {
      hide PoolManager.Fleet, PoolManager.Valid, SyncedPool, SyncedDrains, Step;
      SyncPoolOneMore(fp, seen, name, pod, now);
      SyncDrainsOneMore(drains, seen, name, pod, now);
      if pod.running {
        SyncPod(f, name, pod.phase, now);
      }
    }

    /** One running pod of the label sync. */
    method SyncPod(f: string, name: string, phase: PodPhase, now: int)
      requires Valid()
      modifies this`drainStates, this`states, poolMgr, poolMgr.cells
      ensures Valid() && fresh(poolMgr.cells - old(poolMgr.cells))
      ensures fresh(states - old(states))
      ensures poolMgr.Fleet(f) ==
              Step(Step(old(poolMgr.Fleet(f)), PoolModel.Register(name), now), LabelCall(name, phase), now)
      ensures Drains() == if phase == PodDraining && name !in old(Drains()) then old(Drains())[name := Recovered(now)]
                          else old(Drains())
      ensures forall g | g != f :: poolMgr.Fleet(g) == old(poolMgr.Fleet(g))
    {
      hide PoolManager.Fleet, PoolManager.Valid, Step;
      SyncServer(poolMgr, f, name, phase, now);
      if phase == PodDraining {
        RecoverDrain(name, now);
      }
    }

    /** Rebuilds a lost drain record. */
    method RecoverDrain(name: string, now: int)
      requires Valid()
      modifies this`drainStates, this`states
      ensures Valid() && fresh(states - old(states))
      ensures Drains() == if name in old(Drains()) then old(Drains()) else old(Drains())[name := Recovered(now)]
    {
      if name !in drainStates {
        var ds := new ServerState(name, Drain, now, ZERO_TIME);
        SetDrain(name, ds);
      }
    }

    /** Stores a fresh record under its name. */
    method SetDrain(name: string, ds: ServerState)
      requires Valid() && ds.name == name
      modifies this`drainStates, this`states
      ensures Valid() && drainStates == old(drainStates)[name := ds]
      ensures states == old(states) + {ds}
      ensures Drains() == old(Drains())[name := ds.Value()]
    {
      drainStates, states := drainStates[name := ds], states + {ds};
    }

    // -------------------------------------------------------------- metrics

    method CollectFleetMetrics(cluster: Cluster) returns (snapshot: Snapshot)
      ensures snapshot == SnapshotOf(cluster.pods)
    {
      var inUse, draining, warm := 0, 0, 0;
      var pods := cluster.pods;
      var rest := pods.Keys;
      ghost var seen: Pods := map[];
      assert Labelled(seen, PodAllocated) == Labelled(seen, PodDraining) == WarmPods(seen) == {};
      while rest != {}
        invariant rest <= pods.Keys && seen == pods - rest
        invariant inUse == |Labelled(seen, PodAllocated)| && draining == |Labelled(seen, PodDraining)|
        invariant warm == |WarmPods(seen)|
        decreases rest
      {
        var name :| name in rest;
        rest := rest - {name};
        LabelledAdd(seen, name, pods[name], PodAllocated);
        LabelledAdd(seen, name, pods[name], PodDraining);
        WarmAdd(seen, name, pods[name]);
        seen := seen[name := pods[name]];
        assert seen == pods - rest;
        match pods[name].phase {
          case PodAllocated => inUse := inUse + 1;
          case PodDraining => draining := draining + 1;
          case PodOther =>
            if pods[name].running {
              warm := warm + 1;
            }
        }
      }
      assert seen == pods;
      snapshot := Snapshot(|pods|, inUse, draining, warm + inUse, warm);
    }

    // -------------------------------------------------------------- scaling up

    /** Creates delta pods one by one and registers each; stops at the first failure. A dry run
        does nothing. */
    method ExecuteScaleUp(f: string, cluster: Cluster, delta: int, ghost v: World, e: Env) returns (ok: bool)
      requires Valid() && v == View(f, cluster)
      modifies this`lastScaleUpAt, poolMgr, poolMgr.cells, cluster
      ensures Valid() && fresh(poolMgr.cells - old(poolMgr.cells))
      ensures ok == !GrowthFails(v, e, delta)
      ensures View(f, cluster) == if e.dryRun then v
                                  else if ok then Grown(v, e, delta).(lastUp := Some(e.acted))
                                  else Grown(v, e, delta)
      ensures forall g | g != f :: Ledger(g) == old(Ledger(g))
    {
      hide PoolManager.Fleet, PoolManager.Valid, Drains, Failures, Creations, AddPods, RegisterAll;
      if e.dryRun {
        return true;
      }
      ok := CreatePods(poolMgr, f, cluster, delta, e);
      if ok {
        RecordScaleUp(f, e.acted);
      }
    }

    // -------------------------------------------------------------- scaling down

    /** Cordons the least used idle servers; a dry run does nothing. */
    method ExecuteScaleDown(f: string, cluster: Cluster, delta: int, ghost v: World, e: Env)
      requires Valid() && v == View(f, cluster)
      modifies this`drainStates, this`states, this`lastScaleDownAt, poolMgr, poolMgr.cells, cluster
      ensures Valid() && fresh(poolMgr.cells - old(poolMgr.cells))
      ensures fresh(states - old(states))
      ensures View(f, cluster) ==
              if e.dryRun then v
              else Cordoned(v, drainer.config, Elements(DrainTargets(v.pool, delta, e.acted)), e)
                   .(lastDown := Some(e.acted))
      ensures forall g | g != f :: Ledger(g) == old(Ledger(g))
    {
      hide PoolManager.Fleet, PoolManager.Valid, Ledger, Drains, DrainTargets, Cordoned;
      if !e.dryRun {
        var targets := PickTargets(f, delta, e.acted);
        DrainServers(f, cluster, targets, v, e);
        RecordScaleDown(f, e.acted);
      }
    }

    /** The cordon loop, as a step on the whole view. */
    method DrainServers(f: string, cluster: Cluster, targets: seq<string>, ghost v: World, e: Env)
      requires Valid() && v == View(f, cluster)
      modifies this`drainStates, this`states, poolMgr, poolMgr.cells, cluster
      ensures Valid() && fresh(poolMgr.cells - old(poolMgr.cells))
      ensures fresh(states - old(states))
      ensures View(f, cluster) == Cordoned(v, drainer.config, Elements(targets), e)
      ensures forall g | g != f :: Ledger(g) == old(Ledger(g))
    {
      hide PoolManager.Fleet, PoolManager.Valid, CordonedPods, CordonedPool, CordonedDrains;
      CordonServers(f, cluster, targets, v, e);
    }

    method RecordScaleDown(f: string, now: int)
      requires Valid()
      modifies this`lastScaleDownAt
      ensures Ledger(f) == old(Ledger(f)).(lastDown := Some(now))
      ensures forall g | g != f :: Ledger(g) == old(Ledger(g))
    {
      lastScaleDownAt := lastScaleDownAt[f := now];
    }

    method RecordScaleUp(f: string, now: int)
      requires Valid()
      modifies this`lastScaleUpAt
      ensures Ledger(f) == old(Ledger(f)).(lastUp := Some(now))
      ensures forall g | g != f :: Ledger(g) == old(Ledger(g))
    {
      lastScaleUpAt := lastScaleUpAt[f := now];
    }

    /** The least used idle servers, at most -delta of them. */
    method PickTargets(f: string, delta: int, now: int) returns (targets: seq<string>)
      requires Valid()
      ensures targets == DrainTargets(Ledger(f).pool, delta, now)
    {
      var idleServers := poolMgr.IdleServers(f, now);
      var drainCount := -delta;
      if |idleServers| < drainCount {
        drainCount := |idleServers|;
      }
      targets := if drainCount <= 0 then [] else idleServers[..drainCount];
    }

    /** The cordon loop. */
    method CordonServers(f: string, cluster: Cluster, targets: seq<string>, ghost w: World, e: Env)
      requires Valid() && w == View(f, cluster)
      modifies this`drainStates, this`states, poolMgr, poolMgr.cells, cluster
      ensures Valid() && fresh(poolMgr.cells - old(poolMgr.cells))
      ensures fresh(states - old(states))
      ensures var now := Cordoned(w, drainer.config, Elements(targets), e);
              cluster.pods == now.pods && poolMgr.Fleet(f) == now.pool && Drains() == now.drains
      ensures forall g | g != f :: poolMgr.Fleet(g) == old(poolMgr.Fleet(g))
    {
      hide PoolManager.Fleet, PoolManager.Valid, Cordoned, Relabelled, Step, Started;
      CordonNothing(w, drainer.config, e);
      ghost var now, done := w, {};
      for i := 0 to |targets|
        invariant Valid() && fresh(poolMgr.cells - old(poolMgr.cells))
        invariant fresh(states - old(states))
        invariant done == Elements(targets[..i]) && now == Cordoned(w, drainer.config, done, e)
        invariant cluster.pods == now.pods && poolMgr.Fleet(f) == now.pool && Drains() == now.drains
        invariant forall g | g != f :: poolMgr.Fleet(g) == old(poolMgr.Fleet(g))
      {
        CordonOneMore(w, drainer.config, done, targets[i], e);
        CordonServer(f, cluster, targets[i], e);
        ElementsStep(targets, i);
        done := done + {targets[i]};
        now := Cordoned(w, drainer.config, done, e);
      }
      assert targets[..|targets|] == targets;
    }

    /** Labels the pod (the patch may fail), takes the server out of the pool and starts its drain. */
    method CordonServer(f: string, cluster: Cluster, name: string, e: Env)
      requires Valid()
      modifies this`drainStates, this`states, poolMgr, poolMgr.cells, cluster
      ensures Valid() && fresh(poolMgr.cells - old(poolMgr.cells))
      ensures fresh(states - old(states))
      ensures cluster.pods == Relabelled(old(cluster.pods), name, PodDraining, e.patched(name))
      ensures poolMgr.Fleet(f) == Step(old(poolMgr.Fleet(f)), PoolModel.MarkUnhealthy(name), 0)
      ensures Drains() == old(Drains())[name := Started(drainer.config, e.acted)]
      ensures forall g | g != f :: poolMgr.Fleet(g) == old(poolMgr.Fleet(g))
    {
      hide PoolManager.Fleet, PoolManager.Valid, Relabelled, Step, Started;
      CordonPod(poolMgr, f, cluster, name, e);
      BeginDrain(name, e.acted);
    }

    // -------------------------------------------------------------- drain pass

    /** Visits every record in whatever order the map yields them, deleting entries on the way. */
    method AdvanceDraining(f: string, cluster: Cluster, ghost w: World, e: Env)
      requires Valid() && w == View(f, cluster)
      modifies this`drainStates, states, poolMgr, cluster
      ensures Valid() && poolMgr.cells == old(poolMgr.cells)
      ensures var now := DrainPass(drainer.config, w, e);
              cluster.pods == now.pods && poolMgr.Fleet(f) == now.pool && Drains() == now.drains
      ensures forall g | g != f :: poolMgr.Fleet(g) == old(poolMgr.Fleet(g))
    {
      hide PoolManager.Fleet, PoolManager.Valid, PassedOver, DrainPass;
      var rest := drainStates.Keys;
      ghost var now, done := w, {};
      PassOverNothing(drainer.config, w, e);
      while rest != {}
        invariant Valid() && rest <= drainStates.Keys
        invariant poolMgr.cells == old(poolMgr.cells)
        invariant done == w.drains.Keys - rest && now == PassedOver(drainer.config, w, e, done)
        invariant cluster.pods == now.pods && poolMgr.Fleet(f) == now.pool && Drains() == now.drains
        invariant forall g | g != f :: poolMgr.Fleet(g) == old(poolMgr.Fleet(g))
        decreases rest
      {
        var name :| name in rest;
        VisitNext(f, cluster, name, w, done, e);
        rest := rest - {name};
        done := done + {name};
        now := PassedOver(drainer.config, w, e, done);
      }
      assert done == w.drains.Keys;
      PassOverAll(drainer.config, w, e);
    }

    /** The pass goes on from some visited records to one more. */
    method VisitNext(f: string, cluster: Cluster, name: string, ghost w: World,
                     ghost done: set<string>, e: Env)
      requires Valid() && name in drainStates && name in w.drains && name !in done
      requires var now := PassedOver(drainer.config, w, e, done);
               cluster.pods == now.pods && poolMgr.Fleet(f) == now.pool && Drains() == now.drains
      modifies this`drainStates, states, poolMgr, cluster
      ensures Valid() && poolMgr.cells == old(poolMgr.cells)
      ensures drainStates.Keys >= old(drainStates.Keys) - {name}
      ensures var now := PassedOver(drainer.config, w, e, done + {name});
              cluster.pods == now.pods && poolMgr.Fleet(f) == now.pool && Drains() == now.drains
      ensures forall g | g != f :: poolMgr.Fleet(g) == old(poolMgr.Fleet(g))
    {
      hide PoolManager.Fleet, PoolManager.Valid, PassedOver, Step, RequestsDelete, AfterPass;
      PassOverOneMore(drainer.config, w, e, done, name);
      VisitServer(f, cluster, name, e);
    }

    /** One iteration of the drain pass. */
    method VisitServer(f: string, cluster: Cluster, name: string, e: Env)
      requires Valid() && name in drainStates
      modifies this`drainStates, drainStates[name], poolMgr, cluster
      ensures Valid() && poolMgr.cells == old(poolMgr.cells)
      ensures var r := old(Drains())[name];
              if RequestsDelete(drainer.config, r, e.acted, e.answers(name)) && e.deleted(name)
              then cluster.pods == old(cluster.pods) - {name} && Drains() == old(Drains()) - {name} &&
                   poolMgr.Fleet(f) == Step(old(poolMgr.Fleet(f)), PoolModel.Remove(name), 0)
              else cluster.pods == old(cluster.pods) && poolMgr.Fleet(f) == old(poolMgr.Fleet(f)) &&
                   Drains() == old(Drains())[name := AfterPass(drainer.config, r, e.acted, e.answers(name))]
      ensures drainStates.Keys >= old(drainStates.Keys) - {name}
      ensures forall g | g != f :: poolMgr.Fleet(g) == old(poolMgr.Fleet(g))
    {
      hide PoolManager.Fleet, PoolManager.Valid, RequestsDelete, AfterPass, Step;
      var ready := VisitRecord(name, e);
      if ready && e.deleted(name) {
        DeletePod(poolMgr, f, cluster, name);
        Forget(name);
      }
    }

    method Forget(name: string)
      requires Valid()
      modifies this`drainStates
      ensures Valid() && drainStates == old(drainStates) - {name}
      ensures Drains() == old(Drains()) - {name}
    {
      drainStates := drainStates - {name};
    }

    /** The gate and the state machine step; ready means the pod should be deleted. */
    method VisitRecord(name: string, e: Env) returns (ready: bool)
      requires Valid() && name in drainStates
      modifies drainStates[name]
      ensures var r := old(Drains())[name];
              && ready == RequestsDelete(drainer.config, r, e.acted, e.answers(name))
              && Drains() == old(Drains())[name := AfterPass(drainer.config, r, e.acted, e.answers(name))]
    {
      var ds := drainStates[name];
      ghost var before := Drains();
      var due := drainer.ShouldCheck(ds, e.acted);
      if !due && ds.phase != Cordon {
        assert Drains() == before[name := before[name]];
        return false;
      }
      var failed;
      ready, failed := drainer.Advance(ds, e.acted, e.answers(name));
      forall n | n in drainStates ensures drainStates[n].Value() == if n == name then ds.Value() else before[n] {
      }
      if failed {
        return false;
      }
    }

    method BeginDrain(name: string, now: int)
      requires Valid()
      modifies this`drainStates, this`states
      ensures Valid() && fresh(states - old(states))
      ensures Drains() == old(Drains())[name := Started(drainer.config, now)]
    {
      var ds := drainer.StartDrain(name, now);
      SetDrain(name, ds);
    }

    // -------------------------------------------------------------- the reconcile

    /** Updates the pool's configuration and rebuilds the pool from the labels. */
    method Prepare(f: string, cluster: Cluster, ghost w: World, e: Env)
      requires Valid() && View(f, cluster) == w.(openUntil := Probed(w.openUntil, e.began)) && e.policy.Some?
      modifies this`drainStates, this`states, poolMgr, poolMgr.cells
      ensures Valid() && fresh(poolMgr.cells - old(poolMgr.cells)) && fresh(states - old(states))
      ensures View(f, cluster) == Prepared(w, e)
      ensures forall g | g != f :: Ledger(g) == old(Ledger(g))
    {
      hide PoolManager.Fleet, PoolManager.Valid, SyncedPool, SyncedDrains, Probed;
      var p := e.policy.value;
      poolMgr.UpdateFleetConfig(f, Config(p.bufferSize, p.idleTimeoutSeconds * SECOND));
      if e.syncListed {
        SyncPoolFromLabels(f, cluster, e.began);
      }
    }

    /** Collects the metrics, evaluates the policy and applies the cooldowns. */
    method Plan(f: string, cluster: Cluster, ghost v: World, e: Env) returns (r: ScaleResult)
      requires Valid() && View(f, cluster) == v && e.policy.Some?
      ensures r == Planned(v, e)
    {
      hide PoolManager.Fleet, PoolManager.Valid, SnapshotOf, Decide, CooldownRemaining;
      var p := e.policy.value;
      var snapshot := CollectFleetMetrics(cluster);
      r := Evaluate(e.paused, snapshot.replicas, snapshot.buffer, p, e.metrics, e.nodes, e.platform);
      if r.decision == ScaleUp {
        var wait := CooldownLeft(f, p, true, e.acted);
        if wait > 0 {
          r := r.(decision := Hold);
        }
      }
      if r.decision == ScaleDown {
        var wait := CooldownLeft(f, p, false, e.acted);
        if wait > 0 {
          r := r.(decision := Hold);
        }
      }
    }

    /** Carries the decision out and tells the breaker; fails when a creation failed. */
    method Execute(f: string, cluster: Cluster, ghost v: World, r: ScaleResult, e: Env) returns (ok: bool)
      requires Valid() && View(f, cluster) == v
      modifies this, poolMgr, poolMgr.cells, cluster
      ensures Valid() && fresh(poolMgr.cells - old(poolMgr.cells)) && fresh(states - old(states))
      ensures View(f, cluster) == Executed(drainer.config, v, e, r)
      ensures ok == !(r.decision == ScaleUp && GrowthFails(v, e, r.delta))
      ensures forall g | g != f :: Ledger(g) == old(Ledger(g))
    {
      hide PoolManager.Fleet, PoolManager.Valid, Ledger, View, WithReset, WithFailure, Creations, DrainTargets, Grown,
           Cordoned;
      ok := true;
      match r.decision {
        case ScaleUp =>
          ok := ExecuteScaleUp(f, cluster, r.delta, v, e);
          TellBreaker(f, cluster, ok, View(f, cluster), e.acted);
        case ScaleDown =>
          ExecuteScaleDown(f, cluster, r.delta, v, e);
          TellBreaker(f, cluster, true, View(f, cluster), e.acted);
        case Frozen =>
        case Hold => TellBreaker(f, cluster, true, v, e.acted);
      }
    }

    method TellBreaker(f: string, cluster: Cluster, ok: bool, ghost w: World, now: int)
      requires Valid() && View(f, cluster) == w
      modifies this`consecutiveFailures, this`circuitOpenUntil
      ensures View(f, cluster) == if ok then WithReset(w) else WithFailure(w, now)
      ensures forall g | g != f :: Ledger(g) == old(Ledger(g))
    {
      hide PoolManager.Fleet, PoolManager.Valid, Ledger;
      if ok {
        ResetCircuit(f);
      } else {
        RecordFailure(f, now);
      }
    }

    /** The drain pass, as a step on the whole view. */
    method FinishPass(f: string, cluster: Cluster, ghost w: World, e: Env)
      requires Valid() && w == View(f, cluster)
      modifies this`drainStates, states, poolMgr, cluster
      ensures Valid() && poolMgr.cells == old(poolMgr.cells)
      ensures View(f, cluster) == DrainPass(drainer.config, w, e)
      ensures forall g | g != f :: Ledger(g) == old(Ledger(g))
    {
      hide PoolManager.Fleet, PoolManager.Valid;
      AdvanceDraining(f, cluster, w, e);
    }

    /** Decides, carries the decision out and, unless that failed, makes the drain pass. */
    method Act(f: string, cluster: Cluster, ghost v: World, e: Env) returns (outcome: Outcome)
      requires Valid() && View(f, cluster) == v && e.policy.Some?
      modifies this, poolMgr, poolMgr.cells, states, cluster
      ensures Valid() && fresh(poolMgr.cells - old(poolMgr.cells)) && fresh(states - old(states))
      ensures var r := Planned(v, e);
              var done := Executed(drainer.config, v, e, r);
              if r.decision == ScaleUp && GrowthFails(v, e, r.delta)
              then outcome == CreateFailed && View(f, cluster) == done
              else outcome == Completed(r.decision) && View(f, cluster) == DrainPass(drainer.config, done, e)
      ensures forall g | g != f :: Ledger(g) == old(Ledger(g))
    {
      hide PoolManager.Fleet, PoolManager.Valid, Ledger, View, Planned, Executed, DrainPass, GrowthFails;
      var r := Plan(f, cluster, v, e);
      var ok := Execute(f, cluster, v, r, e);
      if !ok {
        return CreateFailed;
      }
      FinishPass(f, cluster, View(f, cluster), e);
      outcome := Completed(r.decision);
    }

    /** One reconcile: it takes exactly the step of FleetModel, and the pool, the breaker and the
        cooldown stamps of every other fleet stay as they were. */
    method Reconcile(f: string, cluster: Cluster, e: Env) returns (outcome: Outcome, failed: bool)
      requires Valid()
      modifies this, poolMgr, poolMgr.cells, states, cluster
      ensures Valid() && fresh(poolMgr.cells - old(poolMgr.cells)) && fresh(states - old(states))
      ensures View(f, cluster) == Reconciled(drainer.config, old(View(f, cluster)), e)
      ensures outcome == OutcomeOf(old(View(f, cluster)), e) && failed == ReturnsError(outcome, e.statusWritten)
      ensures forall g | g != f :: Ledger(g) == old(Ledger(g))
    {
      hide PoolManager.Fleet, PoolManager.Valid, Ledger, Drains, Prepared, Planned, Executed, DrainPass, GrowthFails,
           WithFailure;
      ghost var w := View(f, cluster);
      if !e.fleet.Got? {
        if e.fleet.Missing? {
          return NotFound, false;
        }
        return FetchFailed, true;
      }
      var open := IsCircuitOpen(f, e.began);
      if open {
        return Skipped, false;
      }
      if e.policy.None? {
        TellBreaker(f, cluster, false, View(f, cluster), e.acted);
        return PolicyFailed, true;
      }
      Prepare(f, cluster, w, e);
      if !e.metricsListed {
        return MetricsFailed, true;
      }
      outcome := Act(f, cluster, View(f, cluster), e);
      failed := outcome == CreateFailed || !e.statusWritten;
    }
  }

  /** The pod is gone and so is its server's pool entry. */
  method DeletePod(pm: PoolManager, f: string, cluster: Cluster, name: string)
    requires pm.Valid()
    modifies pm, cluster
    ensures pm.Valid() && pm.cells == old(pm.cells)
    ensures cluster.pods == old(cluster.pods) - {name}
    ensures pm.Fleet(f) == Step(old(pm.Fleet(f)), PoolModel.Remove(name), 0)
    ensures forall g | g != f :: pm.Fleet(g) == old(pm.Fleet(g))
  {
    hide PoolManager.Fleet, PoolManager.Valid, Step;
    cluster.pods := cluster.pods - {name};
    pm.Remove(f, name);
  }

  /** The world after the pass has visited some of the records. */
  ghost function PassedOver(cfg: DrainConfig, w: World, e: Env, names: set<string>): World {
    var gone := Gone(cfg, w.drains, e) * names;
    w.(pods := w.pods - gone,
       pool := w.pool.(servers := w.pool.servers - gone),
       drains := map n | n in w.drains && n !in gone ::
                   if n in names then AfterPass(cfg, w.drains[n], e.acted, e.answers(n)) else w.drains[n])
  }

  lemma PassOverNothing(cfg: DrainConfig, w: World, e: Env)
    ensures PassedOver(cfg, w, e, {}) == w
  {
    assert Gone(cfg, w.drains, e) * {} == {};
  }

  lemma PassOverAll(cfg: DrainConfig, w: World, e: Env)
    ensures PassedOver(cfg, w, e, w.drains.Keys) == DrainPass(cfg, w, e)
  {
    assert Gone(cfg, w.drains, e) * w.drains.Keys == Gone(cfg, w.drains, e);
  }

  lemma PassOverOneMore(cfg: DrainConfig, w: World, e: Env, names: set<string>, n: string)
    requires n in w.drains && n !in names
    ensures var was, now, r := PassedOver(cfg, w, e, names), PassedOver(cfg, w, e, names + {n}), w.drains[n];
            && n in was.drains && was.drains[n] == r
            && if RequestsDelete(cfg, r, e.acted, e.answers(n)) && e.deleted(n)
               then now.pods == was.pods - {n} && now.drains == was.drains - {n} &&
                    now.pool == Step(was.pool, PoolModel.Remove(n), 0)
               else now.pods == was.pods && now.pool == was.pool &&
                    now.drains == was.drains[n := AfterPass(cfg, r, e.acted, e.answers(n))]
  {
    var gone := Gone(cfg, w.drains, e);
    assert gone * (names + {n}) == if n in gone then gone * names + {n} else gone * names;
  }

  /** Labels the pod and takes its server out of the pool. */
  method CordonPod(pm: PoolManager, f: string, cluster: Cluster, name: string, e: Env)
    requires pm.Valid()
    modifies pm, pm.cells, cluster
    ensures pm.Valid() && fresh(pm.cells - old(pm.cells))
    ensures cluster.pods == Relabelled(old(cluster.pods), name, PodDraining, e.patched(name))
    ensures pm.Fleet(f) == Step(old(pm.Fleet(f)), PoolModel.MarkUnhealthy(name), 0)
    ensures forall g | g != f :: pm.Fleet(g) == old(pm.Fleet(g))
  {
    hide PoolManager.Fleet, PoolManager.Valid, Step;
    PatchLabel(cluster, name, e);
    pm.MarkUnhealthy(f, name);
  }

  method PatchLabel(cluster: Cluster, name: string, e: Env)
    modifies cluster
    ensures cluster.pods == Relabelled(old(cluster.pods), name, PodDraining, e.patched(name))
  {
    if name in cluster.pods && e.patched(name) {
      cluster.pods := cluster.pods[name := cluster.pods[name].(phase := PodDraining)];
    }
  }

  lemma ElementsStep(s: seq<string>, i: nat)
    requires i < |s|
    ensures Elements(s[..i + 1]) == Elements(s[..i]) + {s[i]}
  {
    assert s[..i + 1] == s[..i] + [s[i]];
  }

  lemma CordonNothing(w: World, cfg: DrainConfig, e: Env)
    ensures Cordoned(w, cfg, {}, e) == w
    ensures Elements<string>([]) == {}
  {
  }

  lemma CordonPodsOneMore(pods: Pods, names: set<string>, n: string, e: Env)
    ensures CordonedPods(pods, names + {n}, e) == Relabelled(CordonedPods(pods, names, e), n, PodDraining, e.patched(n))
  {
  }

  lemma CordonPoolOneMore(fp: FleetPool, names: set<string>, n: string)
    ensures CordonedPool(fp, names + {n}) == Step(CordonedPool(fp, names), PoolModel.MarkUnhealthy(n), 0)
  {
  }

  lemma CordonOneMore(w: World, cfg: DrainConfig, names: set<string>, n: string, e: Env)
    ensures var was, now := Cordoned(w, cfg, names, e), Cordoned(w, cfg, names + {n}, e);
            && now.pods == Relabelled(was.pods, n, PodDraining, e.patched(n))
            && now.pool == Step(was.pool, PoolModel.MarkUnhealthy(n), 0)
            && now.drains == was.drains[n := Started(cfg, e.acted)]
  {
    CordonPodsOneMore(w.pods, names, n, e);
    CordonPoolOneMore(w.pool, names, n);
  }

  /** The creation loop: the i-th pod gets the i-th name of the API server, unless it is taken or
      the names have run out. */
  method CreatePods(pm: PoolManager, f: string, cluster: Cluster, delta: int, e: Env) returns (ok: bool)
    requires pm.Valid()
    modifies pm, pm.cells, cluster
    ensures pm.Valid() && fresh(pm.cells - old(pm.cells))
    ensures var made := Creations(old(cluster.pods), e.podNames, delta);
            && ok == (|made| >= delta)
            && cluster.pods == AddPods(old(cluster.pods), made)
            && pm.Fleet(f) == RegisterAll(old(pm.Fleet(f)), made, e.acted)
    ensures forall g | g != f :: pm.Fleet(g) == old(pm.Fleet(g))
  {
    hide PoolManager.Fleet, PoolManager.Valid, Step, Creations, AddPods, RegisterAll;
    ghost var pods, fp, names := cluster.pods, pm.Fleet(f), e.podNames;
    ghost var made := Creations(pods, names, delta);
    ghost var left, target, filled := made, AddPods(pods, made), RegisterAll(fp, made, e.acted);
    var i := 0;
    while i < delta
      invariant 0 <= i <= Max(0, delta) && i <= |e.podNames| && names == e.podNames[i..]
      invariant pm.Valid() && fresh(pm.cells - old(pm.cells))
      invariant cluster.pods == pods && pm.Fleet(f) == fp
      invariant left == Creations(pods, names, delta - i) && |made| == i + |left|
      invariant target == AddPods(pods, left) && filled == RegisterAll(fp, left, e.acted)
      invariant forall g | g != f :: pm.Fleet(g) == old(pm.Fleet(g))
      decreases delta - i
    {
      if i >= |e.podNames| || e.podNames[i] in cluster.pods {
        NoCreation(pods, fp, e.acted, names, delta - i);
        return false;
      }
      var name := e.podNames[i];
      NextCreation(pods, fp, e.acted, names, left, delta - i);
      CreatePod(pm, f, cluster, name, e.acted);
      pods, fp := pods[name := NEW_POD], Step(fp, PoolModel.Register(name), e.acted);
      i, names, left := i + 1, names[1..], left[1..];
    }
    NoCreation(pods, fp, e.acted, names, delta - i);
    ok := true;
  }

  lemma NoCreation(pods: Pods, fp: FleetPool, now: int, names: seq<string>, limit: int)
    requires limit <= 0 || names == [] || names[0] in pods
    ensures Creations(pods, names, limit) == []
    ensures AddPods(pods, []) == pods && RegisterAll(fp, [], now) == fp
  {
  }

  method CreatePod(pm: PoolManager, f: string, cluster: Cluster, name: string, now: int)
    requires pm.Valid()
    modifies pm, cluster
    ensures pm.Valid() && fresh(pm.cells - old(pm.cells))
    ensures cluster.pods == old(cluster.pods)[name := NEW_POD]
    ensures pm.Fleet(f) == Step(old(pm.Fleet(f)), PoolModel.Register(name), now)
    ensures forall g | g != f :: pm.Fleet(g) == old(pm.Fleet(g))
  {
    hide PoolManager.Fleet, PoolManager.Valid, Step;
    pm.Register(f, name, now);
    cluster.pods := cluster.pods[name := NEW_POD];
  }

  lemma NextCreation(pods: Pods, fp: FleetPool, now: int, names: seq<string>, left: seq<string>, limit: int)
    requires limit > 0 && names != [] && names[0] !in pods && left == Creations(pods, names, limit)
    ensures left != [] && left[1..] == Creations(pods[names[0] := NEW_POD], names[1..], limit - 1)
    ensures AddPods(pods, left) == AddPods(pods[names[0] := NEW_POD], left[1..])
    ensures RegisterAll(fp, left, now) == RegisterAll(Step(fp, PoolModel.Register(names[0]), now), left[1..], now)
  {
  }

  /** What a running pod's label makes the sync call on the pool. */
  function LabelCall(name: string, phase: PodPhase): Call {
    match phase
    case PodAllocated => PoolModel.MarkAllocated(name)
    case PodDraining => PoolModel.MarkUnhealthy(name)
    case PodOther => PoolModel.MarkAvailable(name)
  }

  lemma SyncNothing(fp: FleetPool, drains: map<string, Record>, now: int)
    ensures SyncedPool(fp, map[], now) == fp && SyncedDrains(drains, map[], now) == drains
  {
  }

  lemma RunningAdd(seen: Pods, name: string, pod: Pod)
    requires name !in seen
    ensures Running(seen[name := pod]) == if pod.running then Running(seen) + {name} else Running(seen)
    ensures name !in Running(seen)
  {
  }

  lemma SyncServersOneMore(m: Servers, seen: Pods, name: string, pod: Pod, now: int)
    requires name !in seen
    ensures var was := SyncedServers(m, seen, now);
            && At(was, name) == At(m, name)
            && SyncedServers(m, seen[name := pod], now) ==
               if pod.running then was[name := SyncedServer(At(m, name), pod.phase, now)] else was
  {
    RunningAdd(seen, name, pod);
    var more := seen[name := pod];
    assert forall n | n in Running(seen) :: more[n] == seen[n];
  }

  /** Registering a running pod's server and marking it by its label is the synced server. */
  lemma CallsAreSync(fp: FleetPool, name: string, phase: PodPhase, now: int)
    ensures Step(Step(fp, PoolModel.Register(name), now), LabelCall(name, phase), now) ==
            fp.(created := true, servers := fp.servers[name := SyncedServer(At(fp.servers, name), phase, now)])
  {
  }

  lemma SyncPoolOneMore(fp: FleetPool, seen: Pods, name: string, pod: Pod, now: int)
    requires name !in seen
    ensures var was := SyncedPool(fp, seen, now);
            SyncedPool(fp, seen[name := pod], now) ==
            if pod.running then Step(Step(was, PoolModel.Register(name), now), LabelCall(name, pod.phase), now) else was
  {
    RunningAdd(seen, name, pod);
    SyncServersOneMore(fp.servers, seen, name, pod, now);
    CallsAreSync(SyncedPool(fp, seen, now), name, pod.phase, now);
  }

  lemma SyncDrainsOneMore(drains: map<string, Record>, seen: Pods, name: string, pod: Pod, now: int)
    requires name !in seen
    ensures var was := SyncedDrains(drains, seen, now);
            SyncedDrains(drains, seen[name := pod], now) ==
            if pod.running && pod.phase == PodDraining && name !in was then was[name := Recovered(now)] else was
  {
    RunningAdd(seen, name, pod);
  }

  lemma WarmAdd(seen: Pods, name: string, pod: Pod)
    requires name !in seen
    ensures |WarmPods(seen[name := pod])| == |WarmPods(seen)| + if pod.phase == PodOther && pod.running then 1 else 0
  {
    assert WarmPods(seen[name := pod]) ==
           if pod.phase == PodOther && pod.running then WarmPods(seen) + {name} else WarmPods(seen);
  }

  lemma LabelledAdd(seen: Pods, name: string, pod: Pod, phase: PodPhase)
    requires name !in seen
    ensures |Labelled(seen[name := pod], phase)| == |Labelled(seen, phase)| + if pod.phase == phase then 1 else 0
  {
    assert Labelled(seen[name := pod], phase) ==
           if pod.phase == phase then Labelled(seen, phase) + {name} else Labelled(seen, phase);
  }
}

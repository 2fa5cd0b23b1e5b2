/** What one reconcile does, stated in pods, flags, stamps and clocks: when it scales, and what each
    of its stages changes and leaves alone. */
module FleetRounds {
  import opened Common
  import opened PoolModel
  import opened Draining
  import opened Scaling
  import opened FleetModel
  import opened FleetRuns
  import PoolHistories
  import Scheduler

  // ---------------------------------------------------------------- when a decision goes through

  lemma CooldownOverIff(last: Option<int>, windowSeconds: int, now: int)
    requires last.Some? ==> last.value <= now
    ensures CooldownRemaining(last, windowSeconds, now) <= 0 <==>
            last.None? || windowSeconds <= 0 || now - last.value > (windowSeconds - 1) * SECOND
  {
    RemainingIsNonNegative(last, windowSeconds, now);
    if last.Some? && windowSeconds > 0 {
      CooldownIff(last.value, windowSeconds, now);
    }
  }

  ghost predicate StampsInPast(v: World, now: int) {
    (v.lastUp.Some? ==> v.lastUp.value <= now) && (v.lastDown.Some? ==> v.lastDown.value <= now)
  }

  /** A scale-up goes through exactly when it was decided and its own window is over, and likewise a
      scale-down; neither looks at the other's window, and a decision held back becomes a hold. */
  lemma PlannedIff(v: World, e: Env)
    requires e.policy.Some? && StampsInPast(v, e.acted)
    ensures var r, x, p := Planned(v, e), Evaluated(v, e), e.policy.value;
            && (r.decision == ScaleUp <==>
                  x.decision == ScaleUp &&
                  (v.lastUp.None? || p.scaleUpSeconds <= 0 ||
                   e.acted - v.lastUp.value > (p.scaleUpSeconds - 1) * SECOND))
            && (r.decision == ScaleDown <==>
                  x.decision == ScaleDown &&
                  (v.lastDown.None? || p.scaleDownSeconds <= 0 ||
                   e.acted - v.lastDown.value > (p.scaleDownSeconds - 1) * SECOND))
            && (r.decision == Frozen <==> x.decision == Frozen)
            && r.delta == x.delta && r.desired == x.desired && r.current == x.current
  {
    hide Evaluated, CooldownRemaining;
    CooldownOverIff(v.lastUp, e.policy.value.scaleUpSeconds, e.acted);
    CooldownOverIff(v.lastDown, e.policy.value.scaleDownSeconds, e.acted);
  }

  /** Every earlier scale-up (or scale-down) that a run recorded lies more than the window less one
      second back. */
  ghost predicate CooledDown(ws: seq<World>, es: seq<Env>, d: Decision, k: nat)
    requires |ws| == |es| + 1 && k < |es| && es[k].policy.Some?
  {
    var seconds := Window(es[k].policy.value, d);
    seconds <= 0 ||
    forall i | 0 <= i < k && Records(ws[i], es[i], d) :: es[k].acted - es[i].acted > (seconds - 1) * SECOND
  }

  lemma {:induction false} StampIsRecorded(last: seq<Option<int>>, recorded: seq<bool>, times: seq<int>, k: nat)
    requires Stamped(last, recorded, times) && k <= |times| && last[0].None? && last[k].Some?
    ensures exists i | 0 <= i < k :: recorded[i] && times[i] == last[k].value
    decreases k
  {
    assert last[k - 1 + 1] == if recorded[k - 1] then Some(times[k - 1]) else last[k - 1];
    if !recorded[k - 1] {
      StampIsRecorded(last, recorded, times, k - 1);
    }
  }

  lemma CooledDownIff(cfg: DrainConfig, ws: seq<World>, es: seq<Env>, d: Decision, k: nat)
    requires IsRun(cfg, ws, es) && InOrderOfTime(es) && k < |es| && es[k].policy.Some?
    requires d == ScaleUp || d == ScaleDown
    requires LastRecord(ws[0], d).None?
    ensures LastRecord(ws[k], d).Some? ==> LastRecord(ws[k], d).value <= es[k].acted
    ensures CooledDown(ws, es, d, k) <==>
            CooldownRemaining(LastRecord(ws[k], d), Window(es[k].policy.value, d), es[k].acted) <= 0
  {
    hide Records, Reconciled, OutcomeOf, CooldownRemaining;
    var last, recorded, times := RunIsStamped(cfg, ws, es, d);
    assert last[0] == LastRecord(ws[0], d) && last[k] == LastRecord(ws[k], d);
    var seconds := Window(es[k].policy.value, d);
    forall i: nat | i < k && Records(ws[i], es[i], d)
      ensures last[k].Some? && es[i].acted <= last[k].value
    {
      assert recorded[i];
      StampIsRecent(last, recorded, times, i, k);
    }
    if last[k].Some? {
      StampIsRecorded(last, recorded, times, k);
      var i :| 0 <= i < k && recorded[i] && times[i] == last[k].value;
      assert Records(ws[i], es[i], d) && es[i].acted == last[k].value;
      InOrder(es, i, k);
    }
    CooldownOverIff(last[k], seconds, es[k].acted);
  }

  /** The reconcile gets as far as deciding. */
  ghost predicate Decides(w: World, e: Env) {
    Proceeds(w, e) && e.policy.Some? && e.metricsListed
  }

  /** Over runs: a reconcile scales up, or fails trying, exactly when it decides, the policy asks for
      it and the run's scale-ups are far enough back; and scales down exactly likewise. */
  lemma ScalesIff(cfg: DrainConfig, ws: seq<World>, es: seq<Env>, k: nat)
    requires IsRun(cfg, ws, es) && InOrderOfTime(es) && k < |es|
    requires ws[0].lastUp.None? && ws[0].lastDown.None?
    ensures OutcomeOf(ws[k], es[k]) == Completed(ScaleUp) || OutcomeOf(ws[k], es[k]) == CreateFailed <==>
            Decides(ws[k], es[k]) && Evaluated(ws[k], es[k]).decision == ScaleUp && CooledDown(ws, es, ScaleUp, k)
    ensures OutcomeOf(ws[k], es[k]) == Completed(ScaleDown) <==>
            Decides(ws[k], es[k]) && Evaluated(ws[k], es[k]).decision == ScaleDown && CooledDown(ws, es, ScaleDown, k)
  {
    hide CooledDown, Reconciled, Evaluated, CooldownRemaining, GrowthFails;
    var w, e := ws[k], es[k];
    if Decides(w, e) {
      CooledDownIff(cfg, ws, es, ScaleUp, k);
      CooledDownIff(cfg, ws, es, ScaleDown, k);
      EvaluatedByPods(w, e);
      PreparedKeepsStamps(w, e);
    }
  }

  /** The decision sees nothing of the pool: pods are counted by their labels. */
  lemma EvaluatedByPods(w: World, e: Env)
    requires e.policy.Some?
    ensures Evaluated(Prepared(w, e), e) == Evaluated(w, e) ==
            Decide(e.paused, |w.pods|, |set n | n in w.pods && w.pods[n].phase == PodOther && w.pods[n].running|,
                   e.policy.value, e.metrics, e.nodes, e.platform)
  {
    hide Decide;
    PreparedKeepsPods(w, e);
    SnapshotInLabels(w.pods);
  }

  /** The fleet's counters in labels: draining pods count as replicas; allocated ones as ready
      whether they run or not; warm ones only if they run. */
  lemma SnapshotInLabels(pods: Pods)
    ensures var s := SnapshotOf(pods);
            var taken, warm := set n | n in pods && pods[n].phase == PodAllocated,
                               set n | n in pods && pods[n].phase == PodOther && pods[n].running;
            && s.replicas == |pods| && s.inUse == |taken| && s.ready == |warm| + |taken| && s.buffer == |warm|
            && s.draining == |set n | n in pods && pods[n].phase == PodDraining|
  {
    assert Labelled(pods, PodAllocated) == set n | n in pods && pods[n].phase == PodAllocated;
    assert Labelled(pods, PodDraining) == set n | n in pods && pods[n].phase == PodDraining;
    assert WarmPods(pods) == set n | n in pods && pods[n].phase == PodOther && pods[n].running;
  }

  // ---------------------------------------------------------------- what the preparation does

  /** The label sync, server by server: a running pod's label decides the flags (a draining label
      leaves the allocation, an allocated one the health), restarts the clock unless it drains, and
      counts a use if allocated; servers without a running pod stay as they are. */
  lemma SyncEffect(fp: FleetPool, pods: Pods, now: int, n: string)
    ensures var after := SyncedPool(fp, pods, now);
            var runs := n in pods && pods[n].running;
            var was := if n in fp.servers then fp.servers[n] else Server(false, true, now, 0);
            && (n in after.servers <==> n in fp.servers || runs)
            && (n in fp.servers && !runs ==> after.servers[n] == fp.servers[n])
            && (runs ==>
                  var phase, s := pods[n].phase, after.servers[n];
                  && s.inUse == (phase == PodAllocated || (phase == PodDraining && was.inUse))
                  && s.healthy == (phase == PodOther || (phase == PodAllocated && was.healthy))
                  && s.lastUsedAt == (if phase == PodDraining then was.lastUsedAt else now)
                  && s.allocationCount == was.allocationCount + if phase == PodAllocated then 1 else 0)
            && after.config == fp.config && after.cursor == fp.cursor
            && (after.created <==> fp.created || exists k :: k in pods && pods[k].running)
  {
    SomeRun(pods);
  }

  lemma SomeRun(pods: Pods)
    ensures Running(pods) != {} <==> exists k :: k in pods && pods[k].running
  {
    if k :| k in pods && pods[k].running {
      assert k in Running(pods);
    }
    if k :| k in Running(pods) {
      assert pods[k].running;
    }
  }

  /** Of the drain records the sync adds those of running draining pods that have none, without a
      deadline, and changes no other. */
  lemma SyncedRecords(drains: map<string, Record>, pods: Pods, now: int, n: string)
    ensures var after := SyncedDrains(drains, pods, now);
            && (n in after <==> n in drains || (n in pods && pods[n].running && pods[n].phase == PodDraining))
            && (n in drains ==> after[n] == drains[n])
            && (n in after && n !in drains ==> after[n] == Record(Drain, 0, now, now, ZERO_TIME))
  {
  }

  /** The preparation sets the pool's configuration from the policy and, if its listing succeeds,
      syncs pool and records; pods, failures and stamps stay. */
  lemma PreparedIs(w: World, e: Env)
    requires e.policy.Some?
    ensures var v, p := Prepared(w, e), e.policy.value;
            && v.pods == w.pods && v.failures == w.failures && v.lastUp == w.lastUp && v.lastDown == w.lastDown
            && v.pool.config == Config(p.bufferSize, p.idleTimeoutSeconds * SECOND)
            && (e.syncListed ==> v.pool.servers == SyncedPool(w.pool, w.pods, e.began).servers &&
                                 v.drains == SyncedDrains(w.drains, w.pods, e.began))
            && (!e.syncListed ==> v.pool.servers == w.pool.servers && v.drains == w.drains)
  {
  }

  /** A reconcile whose metrics cannot be collected has nevertheless updated the configuration and
      recovered the pool and the drain records from the labels; it does nothing else. */
  lemma MetricsFailureHasRecovered(cfg: DrainConfig, w: World, e: Env)
    requires OutcomeOf(w, e) == MetricsFailed
    ensures var after, p := Reconciled(cfg, w, e), e.policy.value;
            && after.pool.config == Config(p.bufferSize, p.idleTimeoutSeconds * SECOND)
            && (e.syncListed ==> after.pool.servers == SyncedPool(w.pool, w.pods, e.began).servers &&
                                 after.drains == SyncedDrains(w.drains, w.pods, e.began))
            && (e.syncListed && w.pool.servers == map[] ==> FlagsMatchLabels(after.pool.servers, w.pods))
            && after.pods == w.pods && after.failures == w.failures && after.lastUp == w.lastUp &&
            after.lastDown == w.lastDown && after.openUntil == None
  {
    hide SyncedPool, SyncedDrains;
    PreparedIs(w, e);
    PreparedBreaker(w, e);
    if e.syncListed && w.pool.servers == map[] {
      SyncOfEmpty(w.pool, w.pods, e.began);
    }
  }

  lemma SyncOfEmpty(fp: FleetPool, pods: Pods, now: int)
    requires fp.servers == map[]
    ensures FlagsMatchLabels(SyncedPool(fp, pods, now).servers, pods)
  {
  }

  /** A missing policy touches the breaker alone. */
  lemma PolicyFailureIs(cfg: DrainConfig, w: World, e: Env)
    requires OutcomeOf(w, e) == PolicyFailed
    ensures var after := Reconciled(cfg, w, e);
            after == w.(failures := after.failures, openUntil := after.openUntil) && after.failures == w.failures + 1
  {
  }

  // ---------------------------------------------------------------- scaling up

  /** The creations are the longest run of new names, up to the limit. */
  lemma {:induction false} CreationsExact(pods: Pods, names: seq<string>, limit: int)
    ensures IsLongestRun(pods, names, limit, Creations(pods, names, limit))
    decreases |names|
  {
    hide Creations;
    CreationsStep(pods, names, limit);
    if limit > 0 && names != [] && names[0] !in pods {
      CreationsExact(pods[names[0] := NEW_POD], names[1..], limit - 1);
      PrependCreation(pods, names, limit, Creations(pods[names[0] := NEW_POD], names[1..], limit - 1));
    }
  }

  lemma CreationsStep(pods: Pods, names: seq<string>, limit: int)
    ensures Creations(pods, names, limit) ==
            if limit <= 0 || names == [] || names[0] in pods then []
            else [names[0]] + Creations(pods[names[0] := NEW_POD], names[1..], limit - 1)
  {
  }

  ghost predicate IsLongestRun(pods: Pods, names: seq<string>, limit: int, made: seq<string>) {
    && made <= names && |made| <= Max(0, limit)
    && (forall i | 0 <= i < |made| :: made[i] !in pods && made[i] !in made[..i])
    && (|made| < limit ==> made == names || names[|made|] in pods || names[|made|] in made)
  }

  lemma PrependCreation(pods: Pods, names: seq<string>, limit: int, rest: seq<string>)
    requires limit > 0 && names != [] && names[0] !in pods
    requires IsLongestRun(pods[names[0] := NEW_POD], names[1..], limit - 1, rest)
    ensures IsLongestRun(pods, names, limit, [names[0]] + rest)
  {
    var made := [names[0]] + rest;
    assert names == [names[0]] + names[1..];
    forall i | 0 <= i < |made| ensures made[i] !in pods && made[i] !in made[..i] {
      if i > 0 {
        assert made[i] == rest[i - 1] && made[..i] == [names[0]] + rest[..i - 1];
      }
    }
    if |made| < limit && made != names {
      assert names[|made|] == names[1..][|rest|];
    }
  }

  lemma {:induction false} AddedPods(pods: Pods, names: seq<string>, n: string)
    ensures n in AddPods(pods, names) <==> n in pods || n in names
    ensures n in AddPods(pods, names) ==> AddPods(pods, names)[n] == if n in names then Pod(PodOther, false) else pods[n]
    decreases |names|
  {
    if names != [] {
      AddedPods(pods[names[0] := NEW_POD], names[1..], n);
    }
  }

  lemma {:induction false} RegisteredServers(fp: FleetPool, names: seq<string>, now: int, n: string)
    ensures var after := RegisterAll(fp, names, now).servers;
            && (n in after <==> n in fp.servers || n in names)
            && (n in after ==> after[n] == if n in fp.servers then fp.servers[n] else Server(false, true, now, 0))
    decreases |names|
  {
    if names != [] {
      RegisteredServers(Step(fp, Register(names[0]), now), names[1..], now, n);
    }
  }

  /** A scale-up, complete or cut short by a failing creation: each created pod is unlabelled and not
      yet running, its server is in the pool, free and healthy, and nothing else has changed. A complete
      one creates the whole difference to the target. */
  lemma ScaleUpRound(cfg: DrainConfig, w: World, e: Env, n: string)
    requires e.policy.Some? && ValidPolicy(e.policy.value) && !e.dryRun
    requires OutcomeOf(w, e) == Completed(ScaleUp) || OutcomeOf(w, e) == CreateFailed
    ensures var delta := Desired(e.policy.value, e.metrics, e.platform) - |w.pods|;
            var v, after, made := Prepared(w, e), Acted(cfg, w, e), Creations(w.pods, e.podNames, delta);
            && (OutcomeOf(w, e) == CreateFailed <==> |made| < delta)
            && (OutcomeOf(w, e) == CreateFailed ==> Reconciled(cfg, w, e) == after)
            && (n in after.pods <==> n in w.pods || n in made)
            && (n in after.pods ==> after.pods[n] == if n in made then Pod(PodOther, false) else w.pods[n])
            && (n in after.pool.servers <==> n in v.pool.servers || n in made)
            && (n in after.pool.servers ==>
                  after.pool.servers[n] == if n in v.pool.servers then v.pool.servers[n] else Server(false, true, e.acted, 0))
            && after.drains == v.drains && after.lastDown == w.lastDown
            && after.lastUp == if OutcomeOf(w, e) == CreateFailed then w.lastUp else Some(e.acted)
  {
    hide Prepared, Planned, Creations, Grown, Desired, Acted, OutcomeOf, Reconciled;
    var v := Prepared(w, e);
    PreparedKeepsPods(w, e);
    PreparedKeepsStamps(w, e);
    ScaleUpIsGrowth(cfg, w, e);
    GrownIs(v, e, Desired(e.policy.value, e.metrics, e.platform) - |w.pods|, n);
  }

  lemma ScaleUpIsGrowth(cfg: DrainConfig, w: World, e: Env)
    requires e.policy.Some? && ValidPolicy(e.policy.value) && !e.dryRun
    requires OutcomeOf(w, e) == Completed(ScaleUp) || OutcomeOf(w, e) == CreateFailed
    ensures var delta := Desired(e.policy.value, e.metrics, e.platform) - |w.pods|;
            var v, after := Prepared(w, e), Acted(cfg, w, e);
            var grown := Grown(v, e, delta);
            && (OutcomeOf(w, e) == CreateFailed <==> |Creations(w.pods, e.podNames, delta)| < delta)
            && (OutcomeOf(w, e) == CreateFailed ==> Reconciled(cfg, w, e) == after)
            && after.pods == grown.pods && after.pool == grown.pool && after.drains == v.drains
            && after.lastDown == v.lastDown
            && after.lastUp == if OutcomeOf(w, e) == CreateFailed then v.lastUp else Some(e.acted)
  {
    hide Prepared, Planned, Creations, AddPods, RegisterAll, Desired;
    PreparedKeepsPods(w, e);
    PlannedDelta(Prepared(w, e), e);
  }

  lemma GrownIs(v: World, e: Env, delta: int, n: string)
    ensures var after, made := Grown(v, e, delta), Creations(v.pods, e.podNames, delta);
            && (n in after.pods <==> n in v.pods || n in made)
            && (n in after.pods ==> after.pods[n] == if n in made then Pod(PodOther, false) else v.pods[n])
            && (n in after.pool.servers <==> n in v.pool.servers || n in made)
            && (n in after.pool.servers ==>
                  after.pool.servers[n] == if n in v.pool.servers then v.pool.servers[n] else Server(false, true, e.acted, 0))
  {
    hide Creations, AddPods, RegisterAll;
    var made := Creations(v.pods, e.podNames, delta);
    AddedPods(v.pods, made, n);
    RegisteredServers(v.pool, made, e.acted, n);
  }

  // ---------------------------------------------------------------- scaling down

  /** A scale-down round takes as many servers off the head of the idle list as the fleet has too
      many, or all of them if there are fewer; each once. */
  lemma RoundTargetsExact(w: World, e: Env)
    requires OutcomeOf(w, e) == Completed(ScaleDown) && ValidPolicy(e.policy.value)
    requires |w.pods| - Desired(e.policy.value, e.metrics, e.platform) <= INT32_MAX
    ensures var idle := PoolModel.IdleServers(Prepared(w, e).pool, e.acted);
            var surplus := |w.pods| - Desired(e.policy.value, e.metrics, e.platform);
            && surplus > 0
            && RoundTargets(w, e) == idle[..Min(|idle|, surplus)]
            && Distinct(RoundTargets(w, e))
  {
    hide Desired, PoolModel.IdleServers, Prepared, OutcomeOf;
    CompletedHasPolicy(w, e);
    var v := Prepared(w, e);
    PreparedKeepsPods(w, e);
    ScaleDownDelta(w, e);
    IdleListIsDistinct(v.pool, e.acted);
  }

  lemma ScaleDownDelta(w: World, e: Env)
    requires OutcomeOf(w, e) == Completed(ScaleDown) && ValidPolicy(e.policy.value)
    requires |w.pods| - Desired(e.policy.value, e.metrics, e.platform) <= INT32_MAX
    ensures e.policy.Some?
    ensures Planned(Prepared(w, e), e).delta == Desired(e.policy.value, e.metrics, e.platform) - |w.pods| < 0
  {
    hide Desired, Prepared;
    PreparedKeepsPods(w, e);
    DesiredIsInt32(e.policy.value, e.metrics, e.platform);
  }

  lemma DesiredIsInt32(p: Policy, m: Metrics, platform: real -> int)
    requires ValidPolicy(p)
    ensures IsInt32(Desired(p, m, platform))
  {
  }

  lemma IdleListIsDistinct(fp: FleetPool, now: int)
    ensures Distinct(PoolModel.IdleServers(fp, now))
  {
    if fp.config.idleTimeout > 0 {
      var line := Line(fp.servers, Scheduler.ByLoad, Expired(fp, now));
      LineIsDistinct(fp.servers, Expired(fp, now));
    }
  }

  lemma LineIsDistinct(m: Servers, names: set<string>)
    requires names <= m.Keys
    ensures Distinct(NamesOf(Line(m, Scheduler.ByLoad, names)))
  {
    var list := NamesOf(Line(m, Scheduler.ByLoad, names));
    PoolHistories.LineListsInOrder(m, names);
    DistinctSize(list);
  }

  /** The cordon touches its targets and nothing else. */
  lemma CordonSparesOthers(v: World, cfg: DrainConfig, names: set<string>, e: Env, n: string)
    requires n !in names
    ensures var after := Cordoned(v, cfg, names, e);
            && At(after.pods, n) == At(v.pods, n) && At(after.drains, n) == At(v.drains, n)
            && At(after.pool.servers, n) == At(v.pool.servers, n)
            && after.pool.config == v.pool.config && after.pool.cursor == v.pool.cursor
  {
  }

  // ---------------------------------------------------------------- the drain pass

  /** The pass deletes a pod, with its server's pool entry and its record, exactly when the record
      asks for it and the deletion succeeds; every other pod and pool entry stays as it is, and
      every other record is what its visit makes of it. */
  lemma PassEffect(cfg: DrainConfig, w: World, e: Env, n: string)
    ensures var after := DrainPass(cfg, w, e);
            var gone := n in w.drains && RequestsDelete(cfg, w.drains[n], e.acted, e.answers(n)) && e.deleted(n);
            && At(after.pods, n) == (if gone then None else At(w.pods, n))
            && At(after.pool.servers, n) == (if gone then None else At(w.pool.servers, n))
            && At(after.drains, n) ==
               (if n !in w.drains || gone then None else Some(AfterPass(cfg, w.drains[n], e.acted, e.answers(n))))
            && after.pool.config == w.pool.config && after.pool.cursor == w.pool.cursor
            && after.pool.created == w.pool.created && after.failures == w.failures && after.openUntil == w.openUntil
            && after.lastUp == w.lastUp && after.lastDown == w.lastDown
  {
    hide RequestsDelete, AfterPass;
  }
}

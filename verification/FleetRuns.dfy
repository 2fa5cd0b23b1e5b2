/** Whole runs of the reconcile loop: any number of reconciles, between which the rest of the
    system may change the pods and the pool. */
module FleetRuns {
  import opened Common
  import opened Scheduler
  import opened PoolModel
  import opened Draining
  import opened Scaling
  import opened FleetModel
  import PoolHistories

  /** Between two reconciles others may touch pods and pool, never the controller's own state. */
  ghost predicate OthersActed(a: World, b: World) {
    b == a.(pods := b.pods, pool := b.pool)
  }

  /** ws[k] is the world before reconcile k, whose environment is es[k]. */
  ghost predicate IsRun(cfg: DrainConfig, ws: seq<World>, es: seq<Env>) {
    && |ws| == |es| + 1
    && forall k {:trigger es[k]} | 0 <= k < |es| :: OthersActed(Reconciled(cfg, ws[k], es[k]), ws[k + 1])
  }

  lemma StepOfRun(cfg: DrainConfig, ws: seq<World>, es: seq<Env>, k: nat)
    requires IsRun(cfg, ws, es) && 0 < k <= |es|
    ensures OthersActed(Reconciled(cfg, ws[k - 1], es[k - 1]), ws[k])
  {
    assert es[k - 1] == es[k - 1];
  }

  /** Clock readings of a run are in order. */
  ghost predicate InOrderOfTime(es: seq<Env>) {
    && (forall k | 0 <= k < |es| :: es[k].began <= es[k].acted)
    && (forall i, j | 0 <= i < j < |es| :: es[i].acted <= es[j].began)
  }

  // ---------------------------------------------------------------- replica ceiling

  lemma {:induction false} AddPodsKeys(pods: Pods, names: seq<string>)
    ensures AddPods(pods, names).Keys == pods.Keys + Elements(names)
    decreases |names|
  {
    if names != [] {
      AddPodsKeys(pods[names[0] := NEW_POD], names[1..]);
      assert Elements(names) == {names[0]} + Elements(names[1..]);
    }
  }

  /** Every creation that succeeds adds one pod. */
  lemma {:induction false} CreationsGrow(pods: Pods, names: seq<string>, limit: int)
    ensures |AddPods(pods, Creations(pods, names, limit))| == |pods| + |Creations(pods, names, limit)|
    decreases |names|
  {
    var made := Creations(pods, names, limit);
    if made != [] {
      var more := pods[names[0] := NEW_POD];
      CreationsGrow(more, names[1..], limit - 1);
      assert made[1..] == Creations(more, names[1..], limit - 1);
      assert more.Keys == pods.Keys + {names[0]};
    }
  }

  lemma {:induction false} CreationsAreFresh(pods: Pods, names: seq<string>, limit: int, n: string)
    requires n in Creations(pods, names, limit)
    ensures n !in pods && n in names
    decreases |names|
  {
    var more := pods[names[0] := NEW_POD];
    assert Creations(pods, names, limit) == [names[0]] + Creations(more, names[1..], limit - 1);
    if n != names[0] {
      CreationsAreFresh(more, names[1..], limit - 1, n);
    }
  }

  lemma {:induction false} AddPodsAt(pods: Pods, names: seq<string>, n: string)
    requires n !in names
    ensures n in AddPods(pods, names) <==> n in pods
    ensures n in pods ==> AddPods(pods, names)[n] == pods[n]
    decreases |names|
  {
    if names != [] {
      AddPodsAt(pods[names[0] := NEW_POD], names[1..], n);
    }
  }

  lemma {:induction false} RegisterAllAt(fp: FleetPool, names: seq<string>, now: int, n: string)
    ensures n in fp.servers ==>
              n in RegisterAll(fp, names, now).servers && RegisterAll(fp, names, now).servers[n] == fp.servers[n]
    ensures n !in names ==> (n in RegisterAll(fp, names, now).servers <==> n in fp.servers)
    decreases |names|
  {
    if names != [] {
      RegisterAllAt(Step(fp, Register(names[0]), now), names[1..], now, n);
    }
  }

  lemma SubmapSize(a: Pods, b: Pods)
    requires a.Keys <= b.Keys
    ensures |a| <= |b|
    ensures |a| == |b| ==> a.Keys == b.Keys
  {
    SubsetSize(a.Keys, b.Keys);
    assert |a| == |a.Keys| && |b| == |b.Keys|;
  }

  lemma GrownPods(v: World, e: Env, delta: int)
    ensures var after := Grown(v, e, delta).pods;
            && v.pods.Keys <= after.Keys
            && |after| == |v.pods| + |Creations(v.pods, e.podNames, delta)|
  {
    CreationsGrow(v.pods, e.podNames, delta);
    AddPodsKeys(v.pods, Creations(v.pods, e.podNames, delta));
  }

  lemma CordonKeepsPods(w: World, cfg: DrainConfig, names: set<string>, e: Env)
    ensures Cordoned(w, cfg, names, e).pods.Keys == w.pods.Keys
  {
  }

  lemma DrainPassPods(cfg: DrainConfig, w: World, e: Env)
    ensures DrainPass(cfg, w, e).pods.Keys <= w.pods.Keys && |DrainPass(cfg, w, e).pods| <= |w.pods|
  {
    SubmapSize(DrainPass(cfg, w, e).pods, w.pods);
  }

  /** The pods that carrying out a decision adds: all of a successful scale-up's delta, fewer when
      a creation fails, none otherwise. */
  ghost function Added(v: World, e: Env, r: ScaleResult): nat {
    if r.decision == ScaleUp && !e.dryRun then |Creations(v.pods, e.podNames, r.delta)| else 0
  }

  lemma ExecutedPods(cfg: DrainConfig, v: World, e: Env, r: ScaleResult)
    ensures v.pods.Keys <= Executed(cfg, v, e, r).pods.Keys
    ensures |Executed(cfg, v, e, r).pods| == |v.pods| + Added(v, e, r)
  {
    match r.decision
    case ScaleUp => GrownPods(v, e, r.delta);
    case ScaleDown =>
      var names := Elements(DrainTargets(v.pool, r.delta, e.acted));
      CordonKeepsPods(v, cfg, names, e);
      SubmapSize(Cordoned(v, cfg, names, e).pods, v.pods);
      SubmapSize(v.pods, Cordoned(v, cfg, names, e).pods);
    case Frozen =>
    case Hold =>
  }

  /** A scale-up is decided only from below the target, and asks for exactly the difference. */
  lemma PlannedDelta(v: World, e: Env)
    requires e.policy.Some? && ValidPolicy(e.policy.value)
    ensures var r, d := Planned(v, e), Desired(e.policy.value, e.metrics, e.platform);
            && (r.decision == ScaleUp ==> |v.pods| < d && r.delta == d - |v.pods|)
            && (r.decision == ScaleDown ==> d < |v.pods|)
            && (!e.paused && d == |v.pods| ==> r.decision == Hold)
            && (e.paused ==> r.decision == Frozen)
            && d <= e.policy.value.maxReplicas
  {
  }

  ghost predicate PolicyValid(e: Env) {
    e.policy.Some? ==> ValidPolicy(e.policy.value)
  }

  /** The prepared world's decision, carried out but before the drain pass. */
  ghost function Acted(cfg: DrainConfig, w: World, e: Env): World
    requires e.policy.Some?
  {
    Executed(cfg, Prepared(w, e), e, Planned(Prepared(w, e), e))
  }

  lemma ActedPods(cfg: DrainConfig, w: World, e: Env)
    requires e.policy.Some? && ValidPolicy(e.policy.value)
    ensures var r, target := Planned(Prepared(w, e), e), Desired(e.policy.value, e.metrics, e.platform);
            && w.pods.Keys <= Acted(cfg, w, e).pods.Keys
            && |w.pods| <= |Acted(cfg, w, e).pods| <= Max(|w.pods|, target)
            && (r.decision == ScaleUp && !e.dryRun && !GrowthFails(Prepared(w, e), e, r.delta) ==>
                  |Acted(cfg, w, e).pods| == target)
  {
    var v := Prepared(w, e);
    PlannedDelta(v, e);
    ExecutedPods(cfg, v, e, Planned(v, e));
  }

  lemma CompletedHasPolicy(w: World, e: Env)
    requires OutcomeOf(w, e).Completed?
    ensures e.policy.Some?
  {
  }

  lemma CompletedIsActed(cfg: DrainConfig, w: World, e: Env)
    requires OutcomeOf(w, e).Completed?
    ensures Reconciled(cfg, w, e) == DrainPass(cfg, Acted(cfg, w, e), e)
    ensures var v := Prepared(w, e);
            var r := Planned(v, e);
            OutcomeOf(w, e) == Completed(r.decision) && !(r.decision == ScaleUp && GrowthFails(v, e, r.delta))
  {
  }

  lemma ReconcilePods(cfg: DrainConfig, w: World, e: Env)
    requires PolicyValid(e)
    ensures e.policy.None? ==> Reconciled(cfg, w, e).pods == w.pods
    ensures e.policy.Some? ==>
              |Reconciled(cfg, w, e).pods| <= Max(|w.pods|, Desired(e.policy.value, e.metrics, e.platform))
  {
    match OutcomeOf(w, e)
    case Completed(_) =>
      CompletedIsActed(cfg, w, e);
      ActedPods(cfg, w, e);
      DrainPassPods(cfg, Acted(cfg, w, e), e);
    case CreateFailed => ActedPods(cfg, w, e);
    case NotFound =>
    case FetchFailed =>
    case Skipped =>
    case PolicyFailed =>
    case MetricsFailed =>
  }

  lemma ClampedByMax(p: Policy, m: Metrics, platform: real -> int)
    ensures Desired(p, m, platform) <= p.maxReplicas
  {
  }

  /** Replica ceiling: if nobody else adds pods, the fleet never exceeds the largest maximum any
      policy of the run sets, whatever the metrics are and however creations, drains and deletions
      turn out. */
  lemma {:induction false} ReplicaCeiling(cfg: DrainConfig, ws: seq<World>, es: seq<Env>, limit: int, k: nat)
    requires IsRun(cfg, ws, es) && k <= |es|
    requires forall i | 0 <= i < |es| :: PolicyValid(es[i])
    requires forall i | 0 <= i < |es| :: es[i].policy.Some? ==> es[i].policy.value.maxReplicas <= limit
    requires forall i | 0 <= i < |es| :: |ws[i + 1].pods| <= |Reconciled(cfg, ws[i], es[i]).pods|
    requires |ws[0].pods| <= limit
    ensures |ws[k].pods| <= limit
    ensures k < |es| ==> |Reconciled(cfg, ws[k], es[k]).pods| <= limit
  {
    if k > 0 {
      ReplicaCeiling(cfg, ws, es, limit, k - 1);
    }
    if k < |es| {
      ReconcilePods(cfg, ws[k], es[k]);
      if es[k].policy.Some? {
        ClampedByMax(es[k].policy.value, es[k].metrics, es[k].platform);
      }
    }
  }

  // ---------------------------------------------------------------- no overshoot, no flapping

  /** No decision was carried out, or the decision was to hold. */
  predicate Quiet(o: Outcome) {
    o != CreateFailed && (o.Completed? ==> o.decision == Hold)
  }

  lemma StepFromBelow(cfg: DrainConfig, w: World, e: Env, target: int)
    requires PolicyValid(e) && !e.paused
    requires e.policy.Some? ==> Desired(e.policy.value, e.metrics, e.platform) == target
    requires |w.pods| <= target
    ensures OutcomeOf(w, e) != Completed(ScaleDown)
    ensures |Reconciled(cfg, w, e).pods| <= target
    ensures |w.pods| == target ==> Quiet(OutcomeOf(w, e))
  {
    hide Reconciled, Prepared, Planned, Desired;
    ReconcilePods(cfg, w, e);
    if e.policy.Some? {
      PreparedKeepsPods(w, e);
      PlannedDelta(Prepared(w, e), e);
    }
  }

  /** The reconcile's drain pass loses no pod. */
  ghost predicate LosesNoPod(cfg: DrainConfig, w: World, e: Env) {
    OutcomeOf(w, e).Completed? ==> Gone(cfg, Acted(cfg, w, e).drains, e) == {}
  }

  lemma LosslessPass(cfg: DrainConfig, w: World, e: Env)
    requires Gone(cfg, w.drains, e) == {}
    ensures DrainPass(cfg, w, e).pods == w.pods
  {
  }

  /** Without losses the pod count never drops, and a complete scale-up reaches the target. */
  lemma LosslessPods(cfg: DrainConfig, w: World, e: Env)
    requires PolicyValid(e) && LosesNoPod(cfg, w, e)
    ensures |w.pods| <= |Reconciled(cfg, w, e).pods|
    ensures OutcomeOf(w, e) == Completed(ScaleUp) && !e.dryRun ==>
              |Reconciled(cfg, w, e).pods| == Desired(e.policy.value, e.metrics, e.platform)
  {
    hide Prepared, Planned, Executed, Desired, Gone, GrowthFails;
    if OutcomeOf(w, e).Completed? {
      CompletedIsActed(cfg, w, e);
      LosslessPass(cfg, Acted(cfg, w, e), e);
      ActedPods(cfg, w, e);
    } else if OutcomeOf(w, e) == CreateFailed {
      ActedPods(cfg, w, e);
    } else if e.policy.Some? {
      PreparedKeepsPods(w, e);
    }
  }

  /** A run with one fixed target in which no pod is lost and nobody else changes their number. */
  ghost predicate SteadyRun(cfg: DrainConfig, ws: seq<World>, es: seq<Env>, target: int) {
    && IsRun(cfg, ws, es)
    && (forall i | 0 <= i < |es| :: PolicyValid(es[i]) && !es[i].paused && LosesNoPod(cfg, ws[i], es[i]))
    && (forall i | 0 <= i < |es| ::
          es[i].policy.Some? ==> Desired(es[i].policy.value, es[i].metrics, es[i].platform) == target)
    && (forall i | 0 <= i < |es| :: |ws[i + 1].pods| == |Reconciled(cfg, ws[i], es[i]).pods|)
  }

  lemma SteadyStep(cfg: DrainConfig, ws: seq<World>, es: seq<Env>, target: int, k: nat)
    requires SteadyRun(cfg, ws, es, target) && k < |es| && |ws[k].pods| <= target
    ensures |ws[k].pods| <= |ws[k + 1].pods| <= target
    ensures OutcomeOf(ws[k], es[k]) != Completed(ScaleDown)
    ensures OutcomeOf(ws[k], es[k]) == Completed(ScaleUp) && !es[k].dryRun ==> |ws[k + 1].pods| == target
    ensures |ws[k].pods| == target ==> Quiet(OutcomeOf(ws[k], es[k]))
  {
    StepFromBelow(cfg, ws[k], es[k], target);
    LosslessPods(cfg, ws[k], es[k]);
  }

  /** No overshoot and no flapping: a steady run that starts at or below the target never exceeds
      it and never decides to scale down; a complete scale-up reaches it; and once it is reached
      (at any step j) every later reconcile that decides anything holds. */
  lemma {:induction false} NoOvershootNoFlapping(
    cfg: DrainConfig, ws: seq<World>, es: seq<Env>, target: int, j: nat, k: nat)
    requires SteadyRun(cfg, ws, es, target) && |ws[0].pods| <= target && j <= k < |es|
    ensures |ws[k].pods| <= target && |ws[k + 1].pods| <= target
    ensures OutcomeOf(ws[k], es[k]) != Completed(ScaleDown)
    ensures OutcomeOf(ws[k], es[k]) == Completed(ScaleUp) && !es[k].dryRun ==> |ws[k + 1].pods| == target
    ensures |ws[j].pods| == target ==> |ws[k + 1].pods| == target && Quiet(OutcomeOf(ws[k], es[k]))
    decreases k
  {
    if k > 0 {
      NoOvershootNoFlapping(cfg, ws, es, target, if j < k then j else k - 1, k - 1);
    }
    SteadyStep(cfg, ws, es, target, k);
  }

  // ---------------------------------------------------------------- circuit breaker

  /** The reconcile got past the breaker. */
  ghost predicate Attempts(w: World, e: Env) {
    OutcomeOf(w, e) != NotFound && OutcomeOf(w, e) != FetchFailed && OutcomeOf(w, e) != Skipped
  }

  ghost predicate FailsIn(w: World, e: Env) {
    OutcomeOf(w, e) == PolicyFailed || OutcomeOf(w, e) == CreateFailed
  }

  /** A completed reconcile resets the breaker unless scaling was frozen. */
  ghost predicate ResetsIn(w: World, e: Env) {
    OutcomeOf(w, e).Completed? && OutcomeOf(w, e) != Completed(Frozen)
  }

  /** Failures since the last reset, counted from the outcomes alone. */
  ghost function FailureStreak(ws: seq<World>, es: seq<Env>, k: nat): nat
    requires |ws| == |es| + 1 && k <= |es|
  {
    if k == 0 || ResetsIn(ws[k - 1], es[k - 1]) then 0
    else FailureStreak(ws, es, k - 1) + if FailsIn(ws[k - 1], es[k - 1]) then 1 else 0
  }

  /** When the breaker is open before reconcile k, from the outcomes alone: the last attempt failed
      with a streak of five or more, and its five minutes have not passed. */
  ghost function OpeningBefore(ws: seq<World>, es: seq<Env>, k: nat): Option<int>
    requires |ws| == |es| + 1 && k <= |es|
  {
    if k == 0 then None
    else if !Attempts(ws[k - 1], es[k - 1]) then OpeningBefore(ws, es, k - 1)
    else if FailsIn(ws[k - 1], es[k - 1]) && FailureStreak(ws, es, k) >= 5 then Some(es[k - 1].acted + 300 * SECOND)
    else None
  }

  lemma ExecutedBreaker(cfg: DrainConfig, v: World, e: Env, r: ScaleResult)
    ensures var after, fails := Executed(cfg, v, e, r), r.decision == ScaleUp && GrowthFails(v, e, r.delta);
            && after.failures == (if fails then v.failures + 1 else if r.decision == Frozen then v.failures else 0)
            && after.openUntil == (if fails then WithFailure(v, e.acted).openUntil
                                   else if r.decision == Frozen then v.openUntil else None)
  {
  }

  lemma PreparedBreaker(w: World, e: Env)
    requires e.policy.Some? && !CircuitOpen(w.openUntil, e.began)
    ensures Prepared(w, e).failures == w.failures && Prepared(w, e).openUntil == None
  {
  }

  lemma BreakerStep(cfg: DrainConfig, w: World, e: Env)
    ensures var after := Reconciled(cfg, w, e);
            && (!Attempts(w, e) ==> after == w)
            && after.failures == (if ResetsIn(w, e) then 0 else w.failures + if FailsIn(w, e) then 1 else 0)
            && (Attempts(w, e) ==>
                  after.openUntil ==
                  if FailsIn(w, e) && after.failures >= 5 then Some(e.acted + 300 * SECOND) else None)
  {
    match OutcomeOf(w, e)
    case Completed(_) =>
      CompletedIsActed(cfg, w, e);
      PreparedBreaker(w, e);
      ExecutedBreaker(cfg, Prepared(w, e), e, Planned(Prepared(w, e), e));
    case CreateFailed =>
      PreparedBreaker(w, e);
      ExecutedBreaker(cfg, Prepared(w, e), e, Planned(Prepared(w, e), e));
    case MetricsFailed => PreparedBreaker(w, e);
    case NotFound =>
    case FetchFailed =>
    case Skipped =>
    case PolicyFailed =>
  }

  /** The stored breaker state is exactly what the outcomes of the run say. */
  lemma {:induction false} BreakerIsHistory(cfg: DrainConfig, ws: seq<World>, es: seq<Env>, k: nat)
    requires IsRun(cfg, ws, es) && k <= |es|
    requires ws[0].failures == 0 && ws[0].openUntil == None
    ensures ws[k].failures == FailureStreak(ws, es, k)
    ensures ws[k].openUntil == OpeningBefore(ws, es, k)
    ensures ws[k].openUntil.Some? ==> FailureStreak(ws, es, k) >= 5
    decreases k
  {
    hide OutcomeOf, Reconciled;
    if k > 0 {
      BreakerIsHistory(cfg, ws, es, k - 1);
      StepOfRun(cfg, ws, es, k);
      BreakerStep(cfg, ws[k - 1], es[k - 1]);
    }
  }

  /** Circuit breaker over runs: a reconcile of an existing fleet is skipped exactly when the last
      attempt before it failed as at least the fifth failure since the last reset and no more than
      five minutes have passed; and a skipped reconcile changes nothing at all. */
  lemma SkippedIff(cfg: DrainConfig, ws: seq<World>, es: seq<Env>, k: nat)
    requires IsRun(cfg, ws, es) && k < |es| && es[k].fleet.Got?
    requires ws[0].failures == 0 && ws[0].openUntil == None
    ensures OutcomeOf(ws[k], es[k]) == Skipped <==>
            exists i :: 0 <= i < k && LastAttempt(ws, es, i, k) && FailsIn(ws[i], es[i]) &&
                        FailureStreak(ws, es, i + 1) >= 5 && es[k].began <= es[i].acted + 300 * SECOND
    ensures OutcomeOf(ws[k], es[k]) == Skipped ==> Reconciled(cfg, ws[k], es[k]) == ws[k]
  {
    BreakerIsHistory(cfg, ws, es, k);
    OpeningIsLastAttempt(ws, es, k);
    if OutcomeOf(ws[k], es[k]) == Skipped {
      var i :| 0 <= i < k && LastAttempt(ws, es, i, k);
      assert FailsIn(ws[i], es[i]);
    }
  }

  /** Reconcile i is the last one before k that got past the breaker. */
  ghost predicate LastAttempt(ws: seq<World>, es: seq<Env>, i: nat, k: nat)
    requires |ws| == |es| + 1 && i < k <= |es|
  {
    Attempts(ws[i], es[i]) && forall j | i < j < k :: !Attempts(ws[j], es[j])
  }

  lemma {:induction false} OpeningIsLastAttempt(ws: seq<World>, es: seq<Env>, k: nat)
    requires |ws| == |es| + 1 && k <= |es|
    ensures forall i: nat | i < k && LastAttempt(ws, es, i, k) ::
              OpeningBefore(ws, es, k) ==
              if FailsIn(ws[i], es[i]) && FailureStreak(ws, es, i + 1) >= 5 then Some(es[i].acted + 300 * SECOND)
              else None
    ensures OpeningBefore(ws, es, k).Some? ==> exists i: nat :: i < k && LastAttempt(ws, es, i, k)
    decreases k
  {
    hide OutcomeOf, FailureStreak, FailsIn;
    if k > 0 {
      OpeningIsLastAttempt(ws, es, k - 1);
      if Attempts(ws[k - 1], es[k - 1]) {
        assert LastAttempt(ws, es, k - 1, k);
      } else {
        forall i: nat | i < k && LastAttempt(ws, es, i, k) ensures i < k - 1 && LastAttempt(ws, es, i, k - 1) {
        }
        if OpeningBefore(ws, es, k).Some? {
          var i: nat :| i < k - 1 && LastAttempt(ws, es, i, k - 1);
          assert LastAttempt(ws, es, i, k);
        }
      }
    }
  }

  /** The scale-up decided on cannot create all its pods. */
  ghost predicate CreationFails(w: World, e: Env) {
    e.policy.Some? &&
    var v := Prepared(w, e);
    var r := Planned(v, e);
    r.decision == ScaleUp && GrowthFails(v, e, r.delta)
  }

  /** The errors that count. */
  ghost predicate Counted(w: World, e: Env) {
    e.fleet.Got? && (e.policy.None? || (e.metricsListed && CreationFails(w, e)))
  }

  /** Not every reconcile that returns an error counts as a failure: it does exactly when the fleet was
      fetched and either its policy is missing, or the metrics were collected and a creation failed.
      The errors of fetching the fleet, of collecting metrics and of writing the status do not. */
  lemma ErrorCountsIff(cfg: DrainConfig, w: World, e: Env)
    requires ReturnsError(OutcomeOf(w, e), e.statusWritten)
    ensures Reconciled(cfg, w, e).failures == w.failures + 1 <==> Counted(w, e)
  {
    hide Reconciled, Prepared, Planned, GrowthFails;
    BreakerStep(cfg, w, e);
  }

  /** An error from writing the status leaves the reconcile's effect on the breaker as it is: unless
      scaling was frozen, that is a reset. */
  lemma StatusErrorResets(cfg: DrainConfig, w: World, e: Env)
    requires OutcomeOf(w, e).Completed? && !e.statusWritten
    ensures ReturnsError(OutcomeOf(w, e), e.statusWritten)
    ensures Reconciled(cfg, w, e).failures == if OutcomeOf(w, e) == Completed(Frozen) then w.failures else 0
    ensures Reconciled(cfg, w, e).openUntil == None
  {
    hide OutcomeOf, Reconciled;
    BreakerStep(cfg, w, e);
  }

  /** So no number of consecutive errors of those three kinds ever opens the breaker. */
  lemma {:induction false} UncountedErrorsNeverOpen(cfg: DrainConfig, ws: seq<World>, es: seq<Env>, k: nat)
    requires IsRun(cfg, ws, es) && k <= |es|
    requires ws[0].failures == 0 && ws[0].openUntil == None
    requires forall j | 0 <= j < k :: ReturnsError(OutcomeOf(ws[j], es[j]), es[j].statusWritten)
    requires forall j | 0 <= j < k :: !Counted(ws[j], es[j])
    ensures ws[k].failures == 0 && ws[k].openUntil == None
    ensures k < |es| ==> OutcomeOf(ws[k], es[k]) != Skipped
    decreases k
  {
    hide Reconciled, Prepared, Planned, GrowthFails;
    if k > 0 {
      UncountedErrorsNeverOpen(cfg, ws, es, k - 1);
      StepOfRun(cfg, ws, es, k);
      BreakerStep(cfg, ws[k - 1], es[k - 1]);
    }
  }

  lemma {:induction false} StreakLasts(ws: seq<World>, es: seq<Env>, i: nat, k: nat)
    requires |ws| == |es| + 1 && i <= k <= |es|
    requires forall j | i <= j < k :: !ResetsIn(ws[j], es[j])
    ensures FailureStreak(ws, es, k) >= FailureStreak(ws, es, i)
    decreases k
  {
    hide OutcomeOf;
    if i < k {
      StreakLasts(ws, es, i, k - 1);
    }
  }

  /** Half-open: once the breaker has opened, and until a reconcile resets it, the first failure
      after the opening has expired opens it again at once. */
  lemma ReopensAtOnce(cfg: DrainConfig, ws: seq<World>, es: seq<Env>, i: nat, k: nat)
    requires IsRun(cfg, ws, es) && i <= k < |es|
    requires ws[0].failures == 0 && ws[0].openUntil == None
    requires ws[i].openUntil.Some? && forall j | i <= j < k :: !ResetsIn(ws[j], es[j])
    requires FailsIn(ws[k], es[k])
    ensures Reconciled(cfg, ws[k], es[k]).openUntil == Some(es[k].acted + 300 * SECOND)
  {
    hide OutcomeOf, Reconciled, FailureStreak;
    BreakerIsHistory(cfg, ws, es, i);
    BreakerIsHistory(cfg, ws, es, k);
    StreakLasts(ws, es, i, k);
    BreakerStep(cfg, ws[k], es[k]);
  }

  /** The failing reconciles strictly between i and k. */
  ghost function FailuresBetween(ws: seq<World>, es: seq<Env>, i: nat, k: nat): set<nat>
    requires |ws| == |es| + 1 && k <= |es|
  {
    set j: nat | i < j < k && FailsIn(ws[j], es[j])
  }

  lemma {:induction false} StreakIsFresh(ws: seq<World>, es: seq<Env>, i: nat, k: nat)
    requires |ws| == |es| + 1 && i < k <= |es| && ResetsIn(ws[i], es[i])
    ensures FailureStreak(ws, es, k) <= |FailuresBetween(ws, es, i, k)|
    decreases k
  {
    hide OutcomeOf, ResetsIn, FailsIn;
    if i + 1 < k {
      StreakIsFresh(ws, es, i, k - 1);
      var sofar := FailuresBetween(ws, es, i, k - 1);
      assert FailuresBetween(ws, es, i, k) == if FailsIn(ws[k - 1], es[k - 1]) then sofar + {k - 1} else sofar;
    }
  }

  /** After a reset it takes five fresh failures before a reconcile is skipped again. */
  lemma FiveFreshFailures(cfg: DrainConfig, ws: seq<World>, es: seq<Env>, i: nat, k: nat)
    requires IsRun(cfg, ws, es) && i < k < |es|
    requires ws[0].failures == 0 && ws[0].openUntil == None
    requires ResetsIn(ws[i], es[i]) && OutcomeOf(ws[k], es[k]) == Skipped
    ensures |FailuresBetween(ws, es, i, k)| >= 5
  {
    hide FailureStreak, FailuresBetween, Reconciled;
    BreakerIsHistory(cfg, ws, es, k);
    StreakIsFresh(ws, es, i, k);
  }

  // ---------------------------------------------------------------- cooldown

  /** The cooldown lets a decision through exactly when more than the window less one second has
      passed: truncating to whole seconds costs the window its last second. */
  lemma CooldownIff(last: int, windowSeconds: int, now: int)
    requires windowSeconds > 0 && last <= now
    ensures CooldownRemaining(Some(last), windowSeconds, now) == 0 <==> now - last > (windowSeconds - 1) * SECOND
  {
    var left := windowSeconds * SECOND - (now - last);
    assert (windowSeconds - 1) * SECOND == windowSeconds * SECOND - SECOND;
  }

  /** A one-minute window lets a second scale-up through after fifty-nine and a half seconds. */
  lemma CooldownEndsEarly()
    ensures CooldownRemaining(Some(100 * SECOND), 60, 159 * SECOND + SECOND / 2) == 0
    ensures CooldownRemaining(Some(100 * SECOND), 60, 159 * SECOND) == SECOND
  {
  }

  /** Reconciles that record a scale-up, or a scale-down. */
  ghost predicate Records(w: World, e: Env, d: Decision) {
    OutcomeOf(w, e) == Completed(d) && !e.dryRun
  }

  ghost function LastRecord(w: World, d: Decision): Option<int> {
    if d == ScaleUp then w.lastUp else w.lastDown
  }

  function Window(p: Policy, d: Decision): int {
    if d == ScaleUp then p.scaleUpSeconds else p.scaleDownSeconds
  }

  lemma ExecutedStamps(cfg: DrainConfig, v: World, e: Env, r: ScaleResult)
    ensures var after, fails := Executed(cfg, v, e, r), r.decision == ScaleUp && GrowthFails(v, e, r.delta);
            && after.lastUp == (if r.decision == ScaleUp && !fails && !e.dryRun then Some(e.acted) else v.lastUp)
            && after.lastDown == (if r.decision == ScaleDown && !e.dryRun then Some(e.acted) else v.lastDown)
  {
  }

  lemma PlannedCoolsDown(v: World, e: Env)
    requires e.policy.Some?
    ensures Planned(v, e).decision == ScaleUp ==>
              CooldownRemaining(v.lastUp, e.policy.value.scaleUpSeconds, e.acted) <= 0
    ensures Planned(v, e).decision == ScaleDown ==>
              CooldownRemaining(v.lastDown, e.policy.value.scaleDownSeconds, e.acted) <= 0
  {
  }

  lemma PreparedKeepsStamps(w: World, e: Env)
    requires e.policy.Some?
    ensures Prepared(w, e).lastUp == w.lastUp && Prepared(w, e).lastDown == w.lastDown
  {
  }

  lemma CooldownStep(cfg: DrainConfig, w: World, e: Env, d: Decision)
    requires d == ScaleUp || d == ScaleDown
    ensures LastRecord(Reconciled(cfg, w, e), d) == if Records(w, e, d) then Some(e.acted) else LastRecord(w, d)
    ensures Records(w, e, d) ==> CooldownRemaining(LastRecord(w, d), Window(e.policy.value, d), e.acted) <= 0
  {
    hide Executed, Planned, Prepared, CooldownRemaining, GrowthFails;
    if e.policy.Some? {
      PreparedKeepsStamps(w, e);
      PlannedCoolsDown(Prepared(w, e), e);
      ExecutedStamps(cfg, Prepared(w, e), e, Planned(Prepared(w, e), e));
    }
  }

  lemma InOrder(es: seq<Env>, i: nat, j: nat)
    requires InOrderOfTime(es) && i < j < |es|
    ensures es[i].acted <= es[j].began <= es[j].acted
  {
  }

  /** A stamp that is overwritten by the time of each recorded event and otherwise kept. */
  ghost predicate Stamped(last: seq<Option<int>>, recorded: seq<bool>, times: seq<int>) {
    && |last| == |recorded| + 1 == |times| + 1
    && (forall k | 0 <= k < |times| :: last[k + 1] == if recorded[k] then Some(times[k]) else last[k])
    && (forall i, j | 0 <= i < j < |times| :: times[i] <= times[j])
  }

  lemma {:induction false} StampIsRecent(last: seq<Option<int>>, recorded: seq<bool>, times: seq<int>, i: nat, k: nat)
    requires Stamped(last, recorded, times) && i < k <= |times| && recorded[i]
    ensures last[k].Some? && times[i] <= last[k].value <= times[k - 1]
    decreases k
  {
    assert last[k - 1 + 1] == if recorded[k - 1] then Some(times[k - 1]) else last[k - 1];
    if i < k - 1 {
      StampIsRecent(last, recorded, times, i, k - 1);
    }
  }

  lemma StampStep(cfg: DrainConfig, ws: seq<World>, es: seq<Env>, d: Decision, k: nat)
    requires IsRun(cfg, ws, es) && k < |es|
    requires d == ScaleUp || d == ScaleDown
    ensures LastRecord(ws[k + 1], d) == if Records(ws[k], es[k], d) then Some(es[k].acted) else LastRecord(ws[k], d)
  {
    StepOfRun(cfg, ws, es, k + 1);
    CooldownStep(cfg, ws[k], es[k], d);
  }

  lemma RunIsStamped(cfg: DrainConfig, ws: seq<World>, es: seq<Env>, d: Decision)
    returns (last: seq<Option<int>>, recorded: seq<bool>, times: seq<int>)
    requires IsRun(cfg, ws, es) && InOrderOfTime(es)
    requires d == ScaleUp || d == ScaleDown
    ensures Stamped(last, recorded, times) && |times| == |es|
    ensures forall k | 0 <= k < |ws| :: last[k] == LastRecord(ws[k], d)
    ensures forall k | 0 <= k < |es| :: recorded[k] == Records(ws[k], es[k], d) && times[k] == es[k].acted
  {
    last := StampsOf(ws, d);
    recorded := RecordedIn(ws[..|es|], es, d);
    times := ActedTimes(es);
    forall k | 0 <= k < |es| ensures last[k + 1] == if recorded[k] then Some(times[k]) else last[k] {
      StampStep(cfg, ws, es, d, k);
    }
    forall i, j | 0 <= i < j < |es| ensures times[i] <= times[j] {
      InOrder(es, i, j);
    }
  }

  ghost function StampsOf(ws: seq<World>, d: Decision): (r: seq<Option<int>>)
    ensures |r| == |ws| && forall k | 0 <= k < |ws| :: r[k] == LastRecord(ws[k], d)
  {
    seq(|ws|, k requires 0 <= k < |ws| => LastRecord(ws[k], d))
  }

  ghost function RecordedIn(ws: seq<World>, es: seq<Env>, d: Decision): (r: seq<bool>)
    requires |ws| == |es|
    ensures |r| == |es| && forall k | 0 <= k < |es| :: r[k] == Records(ws[k], es[k], d)
  {
    seq(|es|, k requires 0 <= k < |es| => Records(ws[k], es[k], d))
  }

  ghost function ActedTimes(es: seq<Env>): (r: seq<int>)
    ensures |r| == |es| && forall k | 0 <= k < |es| :: r[k] == es[k].acted
  {
    seq(|es|, k requires 0 <= k < |es| => es[k].acted)
  }

  /** Cooldown spacing: any two recorded scale-ups of a run lie more than W - 1 seconds apart, W
      being the window the policy sets at the later one; likewise any two scale-downs. */
  lemma CooldownSpacing(cfg: DrainConfig, ws: seq<World>, es: seq<Env>, d: Decision, i: nat, j: nat)
    requires IsRun(cfg, ws, es) && InOrderOfTime(es) && i < j < |es|
    requires d == ScaleUp || d == ScaleDown
    requires Records(ws[i], es[i], d) && Records(ws[j], es[j], d)
    requires Window(es[j].policy.value, d) > 0
    ensures es[j].acted - es[i].acted > (Window(es[j].policy.value, d) - 1) * SECOND
  {
    var stamps, recorded, times := RunIsStamped(cfg, ws, es, d);
    StampIsRecent(stamps, recorded, times, i, j);
    var last := LastRecord(ws[j], d).value;
    InOrder(es, j - 1, j);
    CooldownStep(cfg, ws[j], es[j], d);
    RemainingIsNonNegative(Some(last), Window(es[j].policy.value, d), es[j].acted);
    CooldownIff(last, Window(es[j].policy.value, d), es[j].acted);
  }

  lemma RemainingIsNonNegative(last: Option<int>, windowSeconds: int, now: int)
    ensures CooldownRemaining(last, windowSeconds, now) >= 0
  {
  }

  // ---------------------------------------------------------------- scale-down rounds

  lemma DrainTargetsAreHead(fp: FleetPool, delta: int, now: int)
    ensures fp.config.idleTimeout > 0 ==>
              DrainTargets(fp, delta, now) ==
              NamesOf(Line(fp.servers, ByLoad, Expired(fp, now)))[..Max(0, Min(|Expired(fp, now)|, -delta))]
    ensures fp.config.idleTimeout <= 0 ==> DrainTargets(fp, delta, now) == []
  {
  }

  /** A round picks only healthy, free and timed-out servers, and picks the least used of them:
      every timed-out server left alone comes after every one picked. */
  lemma DrainsLeastUsed(fp: FleetPool, delta: int, now: int, n: string)
    requires n in DrainTargets(fp, delta, now)
    ensures n in Expired(fp, now)
    ensures forall m | m in Expired(fp, now) && m !in DrainTargets(fp, delta, now) ::
              Before(ByLoad, InfoOf(n, fp.servers[n]), InfoOf(m, fp.servers[m]))
  {
    hide DrainTargets;
    DrainTargetsAreHead(fp, delta, now);
    var line := Line(fp.servers, ByLoad, Expired(fp, now));
    var picked := DrainTargets(fp, delta, now);
    var i :| 0 <= i < |picked| && picked[i] == n;
    assert forall j | 0 <= j < |picked| :: picked[j] == line[j].name;
    forall m | m in Expired(fp, now) && m !in picked
      ensures Before(ByLoad, InfoOf(n, fp.servers[n]), InfoOf(m, fp.servers[m]))
    {
      assert InfoOf(m, fp.servers[m]) in Elements(line);
      var j :| 0 <= j < |line| && line[j] == InfoOf(m, fp.servers[m]);
      assert Before(ByLoad, line[i], line[j]);
    }
  }

  /** The servers the reconcile puts into draining. */
  ghost function RoundTargets(w: World, e: Env): seq<string>
    requires e.policy.Some?
  {
    DrainTargets(Prepared(w, e).pool, Planned(Prepared(w, e), e).delta, e.acted)
  }

  /** What a scale-down leaves of the prepared world. */
  lemma RoundIs(cfg: DrainConfig, w: World, e: Env)
    requires OutcomeOf(w, e) == Completed(ScaleDown) && !e.dryRun
    ensures e.policy.Some?
    ensures var cordoned := Cordoned(Prepared(w, e), cfg, Elements(RoundTargets(w, e)), e);
            var gone, after := Gone(cfg, cordoned.drains, e), Reconciled(cfg, w, e);
            && after.pods == cordoned.pods - gone
            && after.pool == cordoned.pool.(servers := cordoned.pool.servers - gone)
            && after.drains == PassedDrains(cfg, cordoned.drains, e)
  {
    hide Cordoned, Gone, PassedDrains, Prepared, Planned, DrainTargets;
    CompletedIsActed(cfg, w, e);
  }

  lemma RoundSize(w: World, e: Env)
    requires OutcomeOf(w, e) == Completed(ScaleDown) && ValidPolicy(e.policy.value)
    ensures |RoundTargets(w, e)| <= |w.pods| - Desired(e.policy.value, e.metrics, e.platform)
  {
    hide Desired, DrainTargets;
    PlannedDelta(Prepared(w, e), e);
  }

  /** A record started in this reconcile passes its cordon step and keeps its pod. */
  lemma CordonedStays(cfg: DrainConfig, v: World, names: set<string>, e: Env, n: string)
    requires n in names && n in v.pool.servers
    ensures var cordoned := Cordoned(v, cfg, names, e);
            && n !in Gone(cfg, cordoned.drains, e)
            && n in PassedDrains(cfg, cordoned.drains, e)
            && PassedDrains(cfg, cordoned.drains, e)[n] == Started(cfg, e.acted).(phase := Drain)
            && n in cordoned.pool.servers && !cordoned.pool.servers[n].healthy
            && (n in v.pods ==> n in cordoned.pods)
            && (n in v.pods ==>
                  cordoned.pods[n] == if e.patched(n) then v.pods[n].(phase := PodDraining) else v.pods[n])
  {
  }

  lemma TargetsAreTracked(w: World, e: Env, n: string)
    requires e.policy.Some? && n in RoundTargets(w, e)
    ensures n in Prepared(w, e).pool.servers
  {
    hide Prepared, Planned, DrainTargets;
    DrainsLeastUsed(Prepared(w, e).pool, Planned(Prepared(w, e), e).delta, e.acted, n);
  }

  lemma PreparedKeepsPods(w: World, e: Env)
    requires e.policy.Some?
    ensures Prepared(w, e).pods == w.pods
  {
  }

  /** What a scale-down does to a server it cordons. */
  lemma TargetState(cfg: DrainConfig, w: World, e: Env, n: string)
    requires OutcomeOf(w, e) == Completed(ScaleDown) && !e.dryRun && n in RoundTargets(w, e)
    ensures var after := Reconciled(cfg, w, e);
            && n in after.pool.servers && !after.pool.servers[n].healthy
            && n in after.drains && after.drains[n] == Started(cfg, e.acted).(phase := Drain)
            && (n in w.pods ==>
                  n in after.pods &&
                  after.pods[n] == if e.patched(n) then w.pods[n].(phase := PodDraining) else w.pods[n])
  {
    hide Reconciled, Prepared, Planned, DrainTargets, Cordoned, Gone, PassedDrains;
    RoundIs(cfg, w, e);
    TargetsAreTracked(w, e, n);
    CordonedStays(cfg, Prepared(w, e), Elements(RoundTargets(w, e)), e, n);
    PreparedKeepsPods(w, e);
  }

  /** Scale-down round: at most current - desired drains start; each started server is unhealthy in
      the pool, has a fresh drain record past its cordon step, and keeps its pod for now. */
  lemma ScaleDownRound(cfg: DrainConfig, w: World, e: Env, n: string)
    requires OutcomeOf(w, e) == Completed(ScaleDown) && !e.dryRun && ValidPolicy(e.policy.value)
    ensures |RoundTargets(w, e)| <= |w.pods| - Desired(e.policy.value, e.metrics, e.platform)
    ensures n in RoundTargets(w, e) ==>
              var after := Reconciled(cfg, w, e);
              && n in after.pool.servers && !after.pool.servers[n].healthy
              && n in after.drains && after.drains[n] == Started(cfg, e.acted).(phase := Drain)
              && (n in w.pods ==>
                    n in after.pods &&
                    after.pods[n] == if e.patched(n) then w.pods[n].(phase := PodDraining) else w.pods[n])
  {
    hide OutcomeOf, Reconciled, RoundTargets, Desired;
    CompletedHasPolicy(w, e);
    RoundSize(w, e);
    if n in RoundTargets(w, e) {
      TargetState(cfg, w, e, n);
    }
  }

  /** Pods that are not on their way out. */
  ghost function Serving(pods: Pods): set<string> {
    pods.Keys - Labelled(pods, PodDraining)
  }

  lemma ServingSize(pods: Pods)
    ensures |Serving(pods)| == |pods| - |Labelled(pods, PodDraining)|
  {
    var rest := Labelled(pods, PodDraining);
    assert Serving(pods) + rest == pods.Keys && Serving(pods) !! rest;
    assert |Serving(pods) + rest| == |Serving(pods)| + |rest|;
  }

  lemma SyncedRecordsAreLabelled(w: World, e: Env, n: string)
    requires e.policy.Some? && n in Prepared(w, e).drains
    ensures n in w.drains || (n in w.pods && w.pods[n].phase == PodDraining)
  {
  }

  lemma UntouchedServes(v: World, cfg: DrainConfig, names: set<string>, e: Env, n: string)
    requires n in Serving(v.pods) && n !in names && n !in v.drains
    ensures var cordoned := Cordoned(v, cfg, names, e);
            n in Serving(cordoned.pods - Gone(cfg, cordoned.drains, e))
  {
  }

  lemma ElementsSize(s: seq<string>)
    ensures |Elements(s)| <= |s|
  {
    DistinctSize(s);
  }

  /** A round never takes the serving pods, the servers it has just cordoned not counted (their label
      patch may have failed), further below the target than the drains that were already pending:
      with none pending, at least the target keeps serving. */
  lemma RoundKeepsServing(cfg: DrainConfig, w: World, e: Env)
    requires OutcomeOf(w, e) == Completed(ScaleDown) && !e.dryRun && ValidPolicy(e.policy.value)
    requires forall n | n in w.drains && n in w.pods :: w.pods[n].phase == PodDraining
    ensures |Serving(Reconciled(cfg, w, e).pods) - Elements(RoundTargets(w, e))| >=
            Desired(e.policy.value, e.metrics, e.platform) - |Labelled(w.pods, PodDraining)|
  {
    hide OutcomeOf, Reconciled, Prepared, Planned, Desired, DrainTargets, Cordoned, Gone, PassedDrains, Serving;
    RoundIs(cfg, w, e);
    RoundSize(w, e);
    PreparedKeepsPods(w, e);
    var targets := Elements(RoundTargets(w, e));
    ElementsSize(RoundTargets(w, e));
    var kept := Serving(w.pods) - targets;
    forall n | n in kept ensures n in Serving(Reconciled(cfg, w, e).pods) {
      ServingIsUnlabelled(w.pods, n);
      if n in Prepared(w, e).drains {
        SyncedRecordsAreLabelled(w, e, n);
      }
      UntouchedServes(Prepared(w, e), cfg, targets, e, n);
    }
    SubsetSize(kept, Serving(Reconciled(cfg, w, e).pods) - targets);
    DifferenceSize(Serving(w.pods), targets);
    ServingSize(w.pods);
  }

  lemma ServingIsUnlabelled(pods: Pods, n: string)
    requires n in Serving(pods)
    ensures n in pods && pods[n].phase != PodDraining
  {
  }

  lemma DifferenceSize<T>(a: set<T>, b: set<T>)
    ensures |a - b| >= |a| - |b|
  {
    assert a - b + a * b == a && |a - b + a * b| == |a - b| + |a * b|;
    SubsetSize(a * b, b);
  }

  /** A drained server is not granted again by any history of pool calls, unless the history
      explicitly makes it available or removes it. */
  lemma DrainedIsUngrantable(cfg: DrainConfig, w: World, e: Env, n: string, h: seq<PoolHistories.Event>, k: nat)
    requires OutcomeOf(w, e) == Completed(ScaleDown) && !e.dryRun
    requires n in RoundTargets(w, e) && k < |h|
    requires forall i | 0 <= i < k :: !PoolHistories.Revives(h[i].call, n)
    ensures PoolHistories.ReplyAt(Reconciled(cfg, w, e).pool, h, k) != Granted(n)
  {
    hide Reconciled, OutcomeOf, Prepared, Planned, DrainTargets, Desired, Step;
    TargetState(cfg, w, e, n);
    PoolHistories.StaysUnhealthy(Reconciled(cfg, w, e).pool, h, n, 0, k);
  }

  lemma SyncHealth(fp: FleetPool, pods: Pods, now: int, n: string)
    requires n in fp.servers && n in Running(pods) && !fp.servers[n].healthy
    ensures n in SyncedPool(fp, pods, now).servers
    ensures SyncedPool(fp, pods, now).servers[n].healthy <==> pods[n].phase == PodOther
  {
  }

  /** The next label sync does make it available if the cordon never reached its label: for a
      server whose running pod was unlabelled or warm, the cordon survives the sync exactly when
      the label patch succeeded. */
  lemma CordonSurvivesSyncIff(cfg: DrainConfig, w: World, e: Env, n: string, later: int)
    requires OutcomeOf(w, e) == Completed(ScaleDown) && !e.dryRun
    requires n in RoundTargets(w, e)
    requires n in w.pods && w.pods[n].running && w.pods[n].phase == PodOther
    ensures var after := Reconciled(cfg, w, e);
            var synced := SyncedPool(after.pool, after.pods, later);
            n in synced.servers && (synced.servers[n].healthy <==> !e.patched(n))
  {
    hide Reconciled, OutcomeOf, SyncedPool, RoundTargets, Desired;
    TargetState(cfg, w, e, n);
    SyncHealth(Reconciled(cfg, w, e).pool, Reconciled(cfg, w, e).pods, later, n);
  }

  // ---------------------------------------------------------------- what the sync does to idle clocks

  /** Right after a label sync, a server with a running pod counts as idle exactly when its pod is
      warm and the reconcile has by then taken longer than the idle timeout: the sync restarts the
      idle clock of every running warm server. */
  lemma SyncRestartsIdleClocks(w: World, e: Env, n: string)
    requires e.policy.Some? && e.syncListed && n in Running(w.pods)
    ensures n in Expired(Prepared(w, e).pool, e.acted) <==>
            w.pods[n].phase == PodOther && e.acted - e.began > e.policy.value.idleTimeoutSeconds * SECOND
  {
  }

  /** A reconcile that gets its listing and is no slower than the idle timeout. */
  ghost predicate Quick(e: Env) {
    e.policy.Some? ==> e.syncListed && e.acted - e.began <= e.policy.value.idleTimeoutSeconds * SECOND
  }

  /** So a quick reconcile drains no server whose pod is running. */
  lemma QuickRoundsSpareRunning(w: World, e: Env, n: string)
    requires e.policy.Some? && Quick(e) && n in Running(w.pods)
    ensures n !in RoundTargets(w, e)
  {
    hide Prepared, Planned, DrainTargets, Expired;
    if n in RoundTargets(w, e) {
      DrainsLeastUsed(Prepared(w, e).pool, Planned(Prepared(w, e), e).delta, e.acted, n);
      SyncRestartsIdleClocks(w, e, n);
    }
  }

  /** A running pod that is neither labelled as draining nor has a drain record. */
  ghost predicate Untouched(w: World, n: string, pod: Pod) {
    n in w.pods && w.pods[n] == pod && pod.running && pod.phase != PodDraining && n !in w.drains
  }

  lemma PreparedKeepsUntouched(w: World, e: Env, n: string, pod: Pod)
    requires e.policy.Some? && Untouched(w, n, pod)
    ensures Untouched(Prepared(w, e), n, pod)
  {
  }

  lemma GrownKeepsUntouched(v: World, e: Env, delta: int, n: string, pod: Pod)
    requires Untouched(v, n, pod)
    ensures Untouched(Grown(v, e, delta), n, pod)
  {
    var names := Creations(v.pods, e.podNames, delta);
    if n in names {
      CreationsAreFresh(v.pods, e.podNames, delta, n);
    }
    AddPodsAt(v.pods, names, n);
  }

  lemma ExecutedKeepsUntouched(cfg: DrainConfig, v: World, e: Env, r: ScaleResult, n: string, pod: Pod)
    requires Untouched(v, n, pod)
    requires r.decision == ScaleDown && !e.dryRun ==> n !in DrainTargets(v.pool, r.delta, e.acted)
    ensures Untouched(Executed(cfg, v, e, r), n, pod)
  {
    hide Grown, DrainTargets, GrowthFails;
    if r.decision == ScaleUp {
      GrownKeepsUntouched(v, e, r.delta, n, pod);
    }
  }

  lemma QuickReconcileSparesRunning(cfg: DrainConfig, w: World, e: Env, n: string, pod: Pod)
    requires Quick(e) && Untouched(w, n, pod)
    ensures Untouched(Reconciled(cfg, w, e), n, pod)
  {
    hide Executed, Prepared, Planned, DrainTargets, Quick;
    if e.policy.Some? {
      PreparedKeepsUntouched(w, e, n, pod);
      QuickRoundsSpareRunning(w, e, n);
      ExecutedKeepsUntouched(cfg, Prepared(w, e), e, Planned(Prepared(w, e), e), n, pod);
    }
  }

  /** Over runs: as long as every reconcile is quick, and apart from what others do to it, a server
      whose pod runs is never cordoned, labelled or deleted, however far the fleet is above its target. */
  lemma {:induction false} QuickRunsDrainNothing(
    cfg: DrainConfig, ws: seq<World>, es: seq<Env>, n: string, pod: Pod, k: nat)
    requires IsRun(cfg, ws, es) && k <= |es| && Untouched(ws[0], n, pod)
    requires forall j | 0 <= j < k :: Quick(es[j])
    requires forall j | 0 <= j < k :: At(Reconciled(cfg, ws[j], es[j]).pods, n) == At(ws[j + 1].pods, n)
    ensures Untouched(ws[k], n, pod)
    decreases k
  {
    hide Reconciled, Quick;
    if k > 0 {
      QuickRunsDrainNothing(cfg, ws, es, n, pod, k - 1);
      QuickReconcileSparesRunning(cfg, ws[k - 1], es[k - 1], n, pod);
      StepOfRun(cfg, ws, es, k);
    }
  }

  // ---------------------------------------------------------------- recovery after a restart

  /** What the labels say about a running pod's server. */
  ghost predicate FlagsMatchLabels(m: Servers, pods: Pods) {
    && m.Keys == Running(pods)
    && forall n | n in m ::
         (m[n].inUse <==> pods[n].phase == PodAllocated) && (m[n].healthy <==> pods[n].phase != PodDraining)
  }

  /** From an empty pool one sync makes the flags exactly what the labels say and gives exactly the
      running draining pods a record; a second one changes no flag and no record. */
  lemma OneSyncRecovers(pods: Pods, config: Config, cursor: nat, t: int, u: int)
    ensures var first := SyncedPool(FleetPool(false, map[], config, cursor), pods, t);
            var drains := SyncedDrains(map[], pods, t);
            && FlagsMatchLabels(first.servers, pods)
            && drains.Keys == Running(pods) * Labelled(pods, PodDraining)
            && (forall n | n in drains :: drains[n] == Recovered(t))
            && SameFlags(first.servers, SyncedPool(first, pods, u).servers)
            && SyncedDrains(drains, pods, u) == drains
  {
  }

  /** Repeating the sync is not neutral for the use counts: each one counts another use of every
      allocated server. */
  lemma EverySyncCountsAUse(fp: FleetPool, pods: Pods, now: int, n: string)
    requires n in fp.servers && n in Running(pods)
    ensures SyncedPool(fp, pods, now).servers[n].allocationCount ==
            fp.servers[n].allocationCount + (if pods[n].phase == PodAllocated then 1 else 0)
  {
  }

  /** The pool's counters in the terms of the fleet status. */
  function AsStats(s: Snapshot): PoolStats {
    PoolStats(s.replicas, s.ready, s.draining, s.inUse, s.buffer)
  }

  lemma RecoveredCounts(m: Servers, pods: Pods)
    requires FlagsMatchLabels(m, pods)
    ensures Where(m, IsHealthy) == WarmPods(pods) + Running(pods) * Labelled(pods, PodAllocated)
    ensures Where(m, IsUnhealthy) == Running(pods) * Labelled(pods, PodDraining)
    ensures Where(m, IsServing) == Running(pods) * Labelled(pods, PodAllocated)
    ensures Where(m, IsIdle) == WarmPods(pods)
  {
  }

  /** After recovery the pool's statistics equal the counts the metrics collection recomputes from
      the pods exactly when every pod is running. */
  lemma RecoveredStatsMatch(m: Servers, pods: Pods)
    requires FlagsMatchLabels(m, pods)
    ensures StatsOf(m) == AsStats(SnapshotOf(pods)) <==> Running(pods) == pods.Keys
  {
    RecoveredCounts(m, pods);
    SubsetSize(Running(pods), pods.Keys);
    assert |m| == |Running(pods)| && |pods| == |pods.Keys|;
    if Running(pods) == pods.Keys {
      var warm, taken := WarmPods(pods), Labelled(pods, PodAllocated);
      assert Running(pods) * taken == taken;
      assert Running(pods) * Labelled(pods, PodDraining) == Labelled(pods, PodDraining);
      assert warm !! taken && |warm + taken| == |warm| + |taken|;
    }
  }

  // ---------------------------------------------------------------- drains over whole runs

  /** A record is as StartDrain or the recovery made it, apart from its progress. */
  ghost predicate Sound(cfg: DrainConfig, r: Record) {
    r.forcedDeadline == r.enteredAt + cfg.forceTime || (r.forcedDeadline == ZERO_TIME && r.phase != Cordon)
  }

  ghost predicate AllSound(cfg: DrainConfig, drains: map<string, Record>) {
    forall n | n in drains :: Sound(cfg, drains[n])
  }

  lemma PreparedKeepsSound(cfg: DrainConfig, w: World, e: Env)
    requires AllSound(cfg, w.drains) && e.policy.Some?
    ensures AllSound(cfg, Prepared(w, e).drains)
  {
  }

  lemma ExecutedKeepsSound(cfg: DrainConfig, v: World, e: Env, r: ScaleResult)
    requires AllSound(cfg, v.drains)
    ensures AllSound(cfg, Executed(cfg, v, e, r).drains)
  {
    if r.decision == ScaleDown && !e.dryRun {
      CordonKeepsSound(cfg, v, Elements(DrainTargets(v.pool, r.delta, e.acted)), e);
    }
  }

  lemma CordonKeepsSound(cfg: DrainConfig, v: World, names: set<string>, e: Env)
    requires AllSound(cfg, v.drains)
    ensures AllSound(cfg, Cordoned(v, cfg, names, e).drains)
  {
  }

  lemma PassKeepsSound(cfg: DrainConfig, w: World, e: Env)
    requires AllSound(cfg, w.drains)
    ensures AllSound(cfg, DrainPass(cfg, w, e).drains)
  {
  }

  lemma ActedKeepsSound(cfg: DrainConfig, w: World, e: Env)
    requires AllSound(cfg, w.drains) && e.policy.Some?
    ensures AllSound(cfg, Acted(cfg, w, e).drains)
  {
    PreparedKeepsSound(cfg, w, e);
    ExecutedKeepsSound(cfg, Prepared(w, e), e, Planned(Prepared(w, e), e));
  }

  lemma ReconcileKeepsSound(cfg: DrainConfig, w: World, e: Env)
    requires AllSound(cfg, w.drains)
    ensures AllSound(cfg, Reconciled(cfg, w, e).drains)
  {
    match OutcomeOf(w, e)
    case Completed(_) =>
      CompletedIsActed(cfg, w, e);
      ActedKeepsSound(cfg, w, e);
      PassKeepsSound(cfg, Acted(cfg, w, e), e);
    case CreateFailed => ActedKeepsSound(cfg, w, e);
    case MetricsFailed => PreparedKeepsSound(cfg, w, e);
    case NotFound =>
    case FetchFailed =>
    case Skipped =>
    case PolicyFailed =>
  }

  lemma {:induction false} RunKeepsSound(cfg: DrainConfig, ws: seq<World>, es: seq<Env>, k: nat)
    requires IsRun(cfg, ws, es) && k <= |es| && AllSound(cfg, ws[0].drains)
    ensures AllSound(cfg, ws[k].drains)
    decreases k
  {
    if k > 0 {
      RunKeepsSound(cfg, ws, es, k - 1);
      ReconcileKeepsSound(cfg, ws[k - 1], es[k - 1]);
      StepOfRun(cfg, ws, es, k);
    }
  }

  /** The pods whose deletion reconcile k requests. */
  ghost function DeletesRequested(cfg: DrainConfig, w: World, e: Env): set<string> {
    if OutcomeOf(w, e).Completed? then Requested(cfg, Acted(cfg, w, e).drains, e) else {}
  }

  /** Drain safety over whole runs of the controller: whenever a reconcile asks for a pod to be
      deleted, its server has just answered that it has no sessions and the minimum drain time has
      passed, or a force time is set and the record is past its own deadline; and the record is
      either one that was started with the full force time, or one recovered after a restart. */
  lemma RunDeletesSafely(cfg: DrainConfig, ws: seq<World>, es: seq<Env>, k: nat, n: string)
    requires IsRun(cfg, ws, es) && k < |es| && AllSound(cfg, ws[0].drains)
    requires n in DeletesRequested(cfg, ws[k], es[k])
    ensures var r, now := Acted(cfg, ws[k], es[k]).drains[n], es[k].acted;
            || (es[k].answers(n) == Sessions(0) && now - r.enteredAt >= cfg.timeout)
            || (cfg.forceTime > 0 && now > r.enteredAt + cfg.forceTime)
            || (cfg.forceTime > 0 && r.forcedDeadline == ZERO_TIME)
    ensures Acted(cfg, ws[k], es[k]).drains[n].phase == Drain
  {
    RunKeepsSound(cfg, ws, es, k);
    ActedKeepsSound(cfg, ws[k], es[k]);
  }

  // ---------------------------------------------------------------- dry run

  lemma DryRunActsNot(cfg: DrainConfig, v: World, e: Env, r: ScaleResult)
    requires e.dryRun
    ensures Executed(cfg, v, e, r).pods == v.pods && Executed(cfg, v, e, r).drains == v.drains
    ensures Executed(cfg, v, e, r).pool == v.pool
  {
  }

  lemma DryRunPods(cfg: DrainConfig, w: World, e: Env)
    requires OutcomeOf(w, e).Completed? && e.dryRun
    ensures Reconciled(cfg, w, e).pods == w.pods - Gone(cfg, Prepared(w, e).drains, e)
  {
    CompletedIsActed(cfg, w, e);
    DryRunActsNot(cfg, Prepared(w, e), e, Planned(Prepared(w, e), e));
  }

  /** The same environment with other session answers and other outcomes of deletions. */
  function WithOutcomes(e: Env, answers: string -> Answer, deleted: string -> bool): Env {
    e.(answers := answers, deleted := deleted)
  }

  lemma OutcomesComeLast(cfg: DrainConfig, w: World, e: Env, answers: string -> Answer, deleted: string -> bool)
    requires OutcomeOf(w, e).Completed? && e.dryRun
    ensures var f := WithOutcomes(e, answers, deleted);
            Reconciled(cfg, w, f).pods == w.pods - Gone(cfg, Prepared(w, e).drains, f)
  {
    var f := WithOutcomes(e, answers, deleted);
    assert Prepared(w, f) == Prepared(w, e) && f.dryRun && OutcomeOf(w, f).Completed? by {
      hide Reconciled, SnapshotOf, Desired, SyncedPool, SyncedDrains, CooldownRemaining;
    }
    DryRunPods(cfg, w, f);
  }

  /** The record is due for a check that some session answer turns into a deletion. */
  predicate MayLetGo(cfg: DrainConfig, r: Record, now: int) {
    DueForCheck(cfg, r, now) && (Overdue(cfg, r, now) || now - r.enteredAt >= cfg.timeout)
  }

  lemma MayLetGoIff(cfg: DrainConfig, r: Record, now: int)
    ensures MayLetGo(cfg, r, now) <==> RequestsDelete(cfg, r, now, Sessions(0))
    ensures forall a :: RequestsDelete(cfg, r, now, a) ==> MayLetGo(cfg, r, now)
  {
  }

  /** A dry run creates nothing and starts no drain, but the drain pass is not part of it: the
      documented "skips actual pod deletion" holds, whatever the servers answer and however the
      deletions turn out, exactly when no existing pod has a record that is due for its check and
      past its deadline or its minimum drain time. */
  lemma DryRunKeepsPodsIff(cfg: DrainConfig, w: World, e: Env)
    requires OutcomeOf(w, e).Completed? && e.dryRun
    ensures (forall answers: string -> Answer, deleted: string -> bool ::
               Reconciled(cfg, w, WithOutcomes(e, answers, deleted)).pods == w.pods) <==>
            forall n | n in Prepared(w, e).drains && n in w.pods :: !MayLetGo(cfg, Prepared(w, e).drains[n], e.acted)
  {
    hide OutcomeOf, Reconciled, Prepared, RequestsDelete, MayLetGo;
    CompletedHasPolicy(w, e);
    var drains := Prepared(w, e).drains;
    if n :| n in drains && n in w.pods && MayLetGo(cfg, drains[n], e.acted) {
      var answers, deleted := (_: string) => Sessions(0), (_: string) => true;
      OutcomesComeLast(cfg, w, e, answers, deleted);
      MayLetGoIff(cfg, drains[n], e.acted);
      assert n in Gone(cfg, drains, WithOutcomes(e, answers, deleted));
      assert n !in Reconciled(cfg, w, WithOutcomes(e, answers, deleted)).pods;
    } else {
      forall answers: string -> Answer, deleted: string -> bool
        ensures Reconciled(cfg, w, WithOutcomes(e, answers, deleted)).pods == w.pods
      {
        OutcomesComeLast(cfg, w, e, answers, deleted);
        forall n | n in w.pods ensures n !in Gone(cfg, drains, WithOutcomes(e, answers, deleted)) {
          if n in drains {
            MayLetGoIff(cfg, drains[n], e.acted);
          }
        }
      }
    }
  }

  lemma DryRunCompletes(w: World, e: Env)
    requires Proceeds(w, e) && e.policy.Some? && e.metricsListed && e.dryRun
    ensures OutcomeOf(w, e).Completed?
  {
  }

  lemma DueRecordLosesPod(cfg: DrainConfig, w: World, e: Env, n: string)
    requires e.policy.Some? && n in w.drains && e.deleted(n)
    requires DueForCheck(cfg, w.drains[n], e.acted) && Overdue(cfg, w.drains[n], e.acted)
    ensures n in Gone(cfg, Prepared(w, e).drains, e)
  {
  }

  /** Two passes over a drain: its cordon step, and a check that found five sessions. */
  const FIVE_SESSIONS := [Pass(100 * SECOND, QueryError, true), Pass(1890 * SECOND, Sessions(5), true)]

  /** A dry run that deletes a pod whose server has just answered that five sessions are open; its
      drain record is the one those two passes leave. */
  lemma DryRunDeletes(w: World, e: Env)
    requires w == World(map["s" := Pod(PodDraining, true)],
                        FleetPool(true, map["s" := Server(false, false, 50 * SECOND, 0)], Config(1, SECOND), 0),
                        map["s" := Record(Drain, 5, 100 * SECOND, 1890 * SECOND, 1900 * SECOND)],
                        0, None, None, Some(100 * SECOND))
    requires e.fleet.Got? && e.dryRun && e.policy.Some? && e.metricsListed && e.began == e.acted == 2000 * SECOND
    requires e.answers("s") == Sessions(5) && e.deleted("s")
    ensures var cfg := DrainConfig(600 * SECOND, 30 * SECOND, 1800 * SECOND);
            && RecordBefore(cfg, Started(cfg, 100 * SECOND), FIVE_SESSIONS, 2) == Some(w.drains["s"])
            && Reconciled(cfg, w, e).pods == map[]
  {
    var cfg := DrainConfig(600 * SECOND, 30 * SECOND, 1800 * SECOND);
    var start := Started(cfg, 100 * SECOND);
    assert RecordBefore(cfg, start, FIVE_SESSIONS, 0) == Some(start);
    assert RecordBefore(cfg, start, FIVE_SESSIONS, 1) == Some(start.(phase := Drain));
    DryRunCompletes(w, e);
    DryRunPods(cfg, w, e);
    DueRecordLosesPod(cfg, w, e, "s");
  }
}

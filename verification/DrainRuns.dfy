/** The drain protocol inside whole runs of the reconcile loop: the record of a cordoned server goes
    through exactly the passes of the completed reconciles, so the protocol's deadline is the
    controller's. */
module DrainRuns {
  import opened Common
  import opened Draining
  import opened Scaling
  import opened FleetModel
  import opened FleetRuns

  ghost function PassOf(e: Env, n: string): Pass {
    Pass(e.acted, e.answers(n), e.deleted(n))
  }

  /** The passes over n's record in the reconciles i..j: only completed ones make a drain pass. */
  ghost function PassesOf(ws: seq<World>, es: seq<Env>, n: string, i: nat, j: nat): seq<Pass>
    requires i <= j <= |es| <= |ws|
    decreases j
  {
    if i == j then []
    else PassesOf(ws, es, n, i, j - 1) +
         if OutcomeOf(ws[j - 1], es[j - 1]).Completed? then [PassOf(es[j - 1], n)] else []
  }

  /** This reconcile starts no drain of n. */
  ghost predicate LeavesAlone(w: World, e: Env, n: string) {
    OutcomeOf(w, e) == Completed(ScaleDown) && !e.dryRun ==> n !in RoundTargets(w, e)
  }

  lemma ExecutedKeepsRecord(cfg: DrainConfig, v: World, e: Env, r: ScaleResult, n: string)
    requires n in v.drains
    requires r.decision == ScaleDown && !e.dryRun ==> n !in DrainTargets(v.pool, r.delta, e.acted)
    ensures n in Executed(cfg, v, e, r).drains && Executed(cfg, v, e, r).drains[n] == v.drains[n]
  {
  }

  lemma ActedKeepsRecord(cfg: DrainConfig, w: World, e: Env, n: string)
    requires e.policy.Some? && n in w.drains
    requires OutcomeOf(w, e).Completed? || OutcomeOf(w, e) == CreateFailed
    requires LeavesAlone(w, e, n)
    ensures n in Acted(cfg, w, e).drains && Acted(cfg, w, e).drains[n] == w.drains[n]
  {
    hide Executed, Planned, DrainTargets;
    var v := Prepared(w, e);
    ExecutedKeepsRecord(cfg, v, e, Planned(v, e), n);
  }

  lemma PreparedKeepsRecord(w: World, e: Env, n: string)
    requires e.policy.Some? && n in w.drains
    ensures n in Prepared(w, e).drains && Prepared(w, e).drains[n] == w.drains[n]
  {
  }

  /** A completed reconcile makes one pass over the record; any other leaves it as it is. */
  lemma RecordStep(cfg: DrainConfig, w: World, e: Env, n: string)
    requires n in w.drains && LeavesAlone(w, e, n)
    ensures var r, after := w.drains[n], Reconciled(cfg, w, e).drains;
            if !OutcomeOf(w, e).Completed? then n in after && after[n] == r
            else
              && (n in DeletesRequested(cfg, w, e) <==> RequestsDelete(cfg, r, e.acted, e.answers(n)))
              && (!(RequestsDelete(cfg, r, e.acted, e.answers(n)) && e.deleted(n)) ==>
                    n in after && after[n] == AfterPass(cfg, r, e.acted, e.answers(n)))
  {
    hide Executed, Planned, Prepared, RoundTargets;
    match OutcomeOf(w, e)
    case Completed(_) =>
      CompletedIsActed(cfg, w, e);
      ActedKeepsRecord(cfg, w, e, n);
    case CreateFailed => ActedKeepsRecord(cfg, w, e, n);
    case MetricsFailed => PreparedKeepsRecord(w, e, n);
    case NotFound =>
    case FetchFailed =>
    case Skipped =>
    case PolicyFailed =>
  }

  lemma {:induction false} SamePrefix(cfg: DrainConfig, r: Record, ps: seq<Pass>, qs: seq<Pass>, k: nat)
    requires k <= |ps| && k <= |qs| && ps[..k] == qs[..k]
    ensures RecordBefore(cfg, r, ps, k) == RecordBefore(cfg, r, qs, k)
  {
    if k > 0 {
      assert ps[..k][k - 1] == qs[..k][k - 1];
      assert ps[..k][..k - 1] == ps[..k - 1] && qs[..k][..k - 1] == qs[..k - 1];
      SamePrefix(cfg, r, ps, qs, k - 1);
    }
  }

  /** Until its pod is gone, a record that is not started anew is what the passes make of it. */
  lemma {:induction false} RecordFollowsPasses(
    cfg: DrainConfig, ws: seq<World>, es: seq<Env>, n: string, i: nat, j: nat)
    requires IsRun(cfg, ws, es) && i <= j <= |es| && n in ws[i].drains
    requires forall k | i <= k < j :: LeavesAlone(ws[k], es[k], n)
    ensures var ps := PassesOf(ws, es, n, i, j);
            var r := RecordBefore(cfg, ws[i].drains[n], ps, |ps|);
            r.Some? ==> n in ws[j].drains && ws[j].drains[n] == r.value
    decreases j
  {
    hide OutcomeOf, Reconciled, LeavesAlone, DeletesRequested;
    if i < j {
      var front, ps := PassesOf(ws, es, n, i, j - 1), PassesOf(ws, es, n, i, j);
      var r := ws[i].drains[n];
      RecordFollowsPasses(cfg, ws, es, n, i, j - 1);
      StepOfRun(cfg, ws, es, j);
      SamePrefix(cfg, r, front, ps, |front|);
      if RecordBefore(cfg, r, ps, |ps|).Some? {
        RecordStep(cfg, ws[j - 1], es[j - 1], n);
      }
    }
  }

  /** The p-th pass belongs to some completed reconcile. */
  lemma {:induction false} PassIsReconcile(ws: seq<World>, es: seq<Env>, n: string, i: nat, j: nat, p: nat)
    returns (k: nat)
    requires i <= j <= |es| <= |ws| && p < |PassesOf(ws, es, n, i, j)|
    ensures i <= k < j && OutcomeOf(ws[k], es[k]).Completed?
    ensures PassesOf(ws, es, n, i, j)[p] == PassOf(es[k], n)
    ensures PassesOf(ws, es, n, i, j)[..p] == PassesOf(ws, es, n, i, k)
    decreases j
  {
    hide OutcomeOf;
    var front := PassesOf(ws, es, n, i, j - 1);
    if p < |front| {
      k := PassIsReconcile(ws, es, n, i, j - 1, p);
    } else {
      k := j - 1;
    }
  }

  /** Passing over the first pass. */
  lemma {:induction false} Shift(cfg: DrainConfig, r: Record, p: Pass, ps: seq<Pass>, k: nat)
    requires k <= |ps| && !RequestsDelete(cfg, r, p.now, p.answer)
    ensures RecordBefore(cfg, r, [p] + ps, k + 1) == RecordBefore(cfg, AfterPass(cfg, r, p.now, p.answer), ps, k)
  {
    if k == 0 {
      assert RecordBefore(cfg, r, [p] + ps, 0) == Some(r);
    } else {
      Shift(cfg, r, p, ps, k - 1);
    }
  }

  lemma DeadlineIfLeftAlone(cfg: DrainConfig, ws: seq<World>, es: seq<Env>, n: string, i: nat, gap: int)
    returns (k: nat)
    requires IsRun(cfg, ws, es) && i < |es| && cfg.forceTime > 0
    requires OutcomeOf(ws[i], es[i]) == Completed(ScaleDown) && !es[i].dryRun
    requires n in RoundTargets(ws[i], es[i])
    requires forall k | i < k < |es| :: LeavesAlone(ws[k], es[k], n)
    requires var ps := PassesOf(ws, es, n, i, |es|);
             Regular(ps, gap) && ps != [] && ps[|ps| - 1].now > es[i].acted + cfg.forceTime + Max(0, cfg.interval)
    ensures i < k < |es| && n in DeletesRequested(cfg, ws[k], es[k])
    ensures es[k].acted <= es[i].acted + cfg.forceTime + Max(0, cfg.interval) + gap
  {
    hide OutcomeOf, Reconciled, LeavesAlone, DeletesRequested, RoundTargets, Desired;
    var s := es[i].acted;
    var later := PassesOf(ws, es, n, i + 1, |es|);
    FirstPass(ws, es, n, i, |es|);
    var ps := [PassOf(es[i], n)] + later;
    assert ps == PassesOf(ws, es, n, i, |es|);
    var p := DeleteRequestedInTime(cfg, s, ps, gap);
    assert p > 0 by {
      assert RecordBefore(cfg, Started(cfg, s), ps, 0) == Some(Started(cfg, s));
    }
    Shift(cfg, Started(cfg, s), ps[0], later, p - 1);
    k := PassIsReconcile(ws, es, n, i + 1, |es|, p - 1);
    TargetState(cfg, ws[i], es[i], n);
    StepOfRun(cfg, ws, es, i + 1);
    var r := ws[i + 1].drains[n];
    SamePrefix(cfg, r, later, PassesOf(ws, es, n, i + 1, k), p - 1);
    RecordFollowsPasses(cfg, ws, es, n, i + 1, k);
    RecordStep(cfg, ws[k], es[k], n);
  }

  lemma {:induction false} FirstPass(ws: seq<World>, es: seq<Env>, n: string, i: nat, j: nat)
    requires i < j <= |es| <= |ws| && OutcomeOf(ws[i], es[i]).Completed?
    ensures PassesOf(ws, es, n, i, j) == [PassOf(es[i], n)] + PassesOf(ws, es, n, i + 1, j)
    decreases j
  {
    hide OutcomeOf;
    if i + 1 < j {
      FirstPass(ws, es, n, i, j - 1);
    }
  }

  // ---------------------------------------------------------------- draining servers stay apart

  /** n cannot be granted, and its pod, if there is one, says that it is draining. */
  ghost predicate Apart(w: World, n: string) {
    (n in w.pool.servers ==> !w.pool.servers[n].healthy) && (n in w.pods ==> w.pods[n].phase == PodDraining)
  }

  lemma PreparedKeepsApart(w: World, e: Env, n: string)
    requires e.policy.Some? && Apart(w, n)
    ensures Apart(Prepared(w, e), n)
  {
  }

  lemma GrowthKeepsApart(v: World, e: Env, delta: int, n: string)
    requires Apart(v, n) && (n in e.podNames ==> n in v.pods)
    ensures Apart(Grown(v, e, delta), n)
  {
    var names := Creations(v.pods, e.podNames, delta);
    if n in names {
      CreationsAreFresh(v.pods, e.podNames, delta, n);
    }
    AddPodsAt(v.pods, names, n);
    RegisterAllAt(v.pool, names, e.acted, n);
  }

  lemma CordonKeepsApart(v: World, cfg: DrainConfig, names: set<string>, e: Env, n: string)
    requires Apart(v, n)
    ensures Apart(Cordoned(v, cfg, names, e), n)
  {
  }

  lemma PassKeepsApart(cfg: DrainConfig, w: World, e: Env, n: string)
    requires Apart(w, n)
    ensures Apart(DrainPass(cfg, w, e), n)
  {
  }

  lemma ExecutedKeepsApart(cfg: DrainConfig, v: World, e: Env, r: ScaleResult, n: string)
    requires Apart(v, n) && (n in e.podNames ==> n in v.pods)
    ensures Apart(Executed(cfg, v, e, r), n)
  {
    hide Grown, Cordoned, DrainTargets, GrowthFails;
    match r.decision
    case ScaleUp => GrowthKeepsApart(v, e, r.delta, n);
    case ScaleDown => CordonKeepsApart(v, cfg, Elements(DrainTargets(v.pool, r.delta, e.acted)), e, n);
    case Frozen =>
    case Hold =>
  }

  lemma ActedKeepsApart(cfg: DrainConfig, w: World, e: Env, n: string)
    requires e.policy.Some? && Apart(w, n) && (n in e.podNames ==> n in w.pods)
    ensures Apart(Acted(cfg, w, e), n)
  {
    hide Executed, Prepared, Planned, Apart;
    PreparedKeepsApart(w, e, n);
    PreparedKeepsPods(w, e);
    ExecutedKeepsApart(cfg, Prepared(w, e), e, Planned(Prepared(w, e), e), n);
  }

  /** No reconcile makes a server that is apart grantable again or takes its label away, unless the
      API server gives its name to a new pod. */
  lemma ReconcileKeepsApart(cfg: DrainConfig, w: World, e: Env, n: string)
    requires Apart(w, n) && (n in e.podNames ==> n in w.pods)
    ensures Apart(Reconciled(cfg, w, e), n)
  {
    hide Executed, Prepared, Planned, DrainPass;
    match OutcomeOf(w, e)
    case Completed(_) =>
      CompletedIsActed(cfg, w, e);
      ActedKeepsApart(cfg, w, e, n);
      PassKeepsApart(cfg, Acted(cfg, w, e), e, n);
    case CreateFailed => ActedKeepsApart(cfg, w, e, n);
    case MetricsFailed => PreparedKeepsApart(w, e, n);
    case NotFound =>
    case FetchFailed =>
    case Skipped =>
    case PolicyFailed =>
  }

  lemma ApartIsLeftAlone(w: World, e: Env, n: string)
    requires Apart(w, n)
    ensures LeavesAlone(w, e, n)
  {
    hide Prepared, Planned, DrainTargets;
    if OutcomeOf(w, e) == Completed(ScaleDown) && n in RoundTargets(w, e) {
      PreparedKeepsApart(w, e, n);
      DrainsLeastUsed(Prepared(w, e).pool, Planned(Prepared(w, e), e).delta, e.acted, n);
    }
  }

  lemma CordonedIsApart(cfg: DrainConfig, w: World, e: Env, n: string)
    requires OutcomeOf(w, e) == Completed(ScaleDown) && !e.dryRun
    requires n in RoundTargets(w, e) && (n in w.pods ==> e.patched(n))
    ensures Apart(Reconciled(cfg, w, e), n)
  {
    hide OutcomeOf, Reconciled, Prepared, Planned, DrainTargets, Gone, PassedDrains, Desired;
    TargetState(cfg, w, e, n);
    RoundIs(cfg, w, e);
    PreparedKeepsPods(w, e);
    CordonKeepsPods(Prepared(w, e), cfg, Elements(RoundTargets(w, e)), e);
  }

  /** What happened between two reconciles did not revive n. */
  ghost predicate NotRevived(a: World, b: World, n: string) {
    Apart(a, n) ==> Apart(b, n)
  }

  lemma {:induction false} StaysApart(cfg: DrainConfig, ws: seq<World>, es: seq<Env>, n: string, i: nat, k: nat)
    requires IsRun(cfg, ws, es) && i <= k <= |es| && Apart(ws[i], n)
    requires forall j | i <= j < k :: n !in es[j].podNames && NotRevived(Reconciled(cfg, ws[j], es[j]), ws[j + 1], n)
    ensures Apart(ws[k], n)
    decreases k
  {
    hide Reconciled, Apart;
    if i < k {
      StaysApart(cfg, ws, es, n, i, k - 1);
      ReconcileKeepsApart(cfg, ws[k - 1], es[k - 1], n);
      assert es[k - 1] == es[k - 1];
    }
  }

  /** Drain deadline over whole runs: let a scale-down at time s cordon n, label its pod and let a
      force time be set; let nobody else revive n or reuse its name; and let completed reconciles
      follow each other with gaps of at most gap, far enough. Then, whatever the session queries
      answer, a reconcile no later than s + forceTime + interval + gap asks for n's pod to be deleted. */
  lemma DeadlineOverRuns(cfg: DrainConfig, ws: seq<World>, es: seq<Env>, n: string, i: nat, gap: int) returns (k: nat)
    requires IsRun(cfg, ws, es) && i < |es| && cfg.forceTime > 0
    requires OutcomeOf(ws[i], es[i]) == Completed(ScaleDown) && !es[i].dryRun
    requires n in RoundTargets(ws[i], es[i]) && (n in ws[i].pods ==> es[i].patched(n))
    requires forall j | i < j < |es| :: n !in es[j].podNames
    requires forall j | i <= j < |es| :: NotRevived(Reconciled(cfg, ws[j], es[j]), ws[j + 1], n)
    requires var ps := PassesOf(ws, es, n, i, |es|);
             Regular(ps, gap) && ps != [] && ps[|ps| - 1].now > es[i].acted + cfg.forceTime + Max(0, cfg.interval)
    ensures i < k < |es| && n in DeletesRequested(cfg, ws[k], es[k])
    ensures es[k].acted <= es[i].acted + cfg.forceTime + Max(0, cfg.interval) + gap
  {
    hide OutcomeOf, Reconciled, LeavesAlone, Apart, RoundTargets, Desired, DeletesRequested;
    CordonedIsApart(cfg, ws[i], es[i], n);
    forall j | i < j < |es| ensures LeavesAlone(ws[j], es[j], n) {
      StaysApart(cfg, ws, es, n, i + 1, j);
      ApartIsLeftAlone(ws[j], es[j], n);
    }
    k := DeadlineIfLeftAlone(cfg, ws, es, n, i, gap);
  }
}

/** The allocation controller (pkg/controller/alloc_controller.go): grant, fetch, label, record, and
    the undo of each. Every call is one atomic step; the outside's answers are parameters. */
module AllocationControl {
  import opened Common
  import opened Scheduler
  import opened PoolModel
  import opened PoolManagement
  import opened FleetModel
  import opened FleetControl
  import PoolHistories

  /** The parts of a GameServerAllocation's spec the controller reads. selects: it has match labels.
      strategy: None is the empty string. */
  datatype Spec = Spec(createdAt: int, ttlSeconds: int, selects: bool, strategy: Option<Strategy>)

  /** Pending also stands for the empty phase of a new object. */
  datatype Status = Pending | Allocated(server: string) | Failed | Released

  /** What the API server answers in one call. selected: the pods the selector lists, None if the
      listing failed. */
  datatype Answers = Answers(
    request: Fetch, now: int, later: int, selected: Option<set<string>>,
    fetched: bool, labelled: bool, recorded: bool, unlabelled: bool)

  datatype Result = Finished | Requeued | Errored

  /** One fleet's pool and pods. */
  datatype Desk = Desk(pool: FleetPool, pods: Pods)

  datatype Reaction = Reaction(desk: Desk, status: Status, result: Result)

  predicate TooLate(spec: Spec, now: int) {
    spec.ttlSeconds > 0 && now - spec.createdAt > spec.ttlSeconds * SECOND
  }

  function StrategyOf(spec: Spec): Strategy {
    if spec.strategy.None? then FewestPlayers else spec.strategy.value
  }

  /** No selector and a failed listing both give the empty filter. */
  function Filter(spec: Spec, a: Answers): map<string, bool> {
    if spec.selects && a.selected.Some? then map n | n in a.selected.value :: true else map[]
  }

  ghost function GivenBack(d: Desk, n: string, a: Answers): Desk {
    d.(pool := Step(d.pool, PoolModel.Release(n), a.later))
  }

  /** Everything Reconcile does after server n has been granted. */
  ghost function Assign(d: Desk, n: string, status: Status, a: Answers): Reaction {
    var pods := Relabelled(d.pods, n, PodAllocated, true);
    if !a.fetched || !a.labelled || n !in d.pods then Reaction(GivenBack(d, n, a), status, Errored)
    else if a.recorded then Reaction(d.(pods := pods), Allocated(n), Finished)
    else Reaction(GivenBack(d, n, a).(pods := Relabelled(pods, n, PodOther, a.unlabelled)), status, Errored)
  }

  function GrantCall(spec: Spec, a: Answers): Call {
    PoolModel.AllocateWithFilter(StrategyOf(spec), Filter(spec, a))
  }

  /** One Reconcile of an allocation request. */
  ghost function Serve(d: Desk, status: Status, spec: Spec, a: Answers): Reaction {
    if a.request.Unreachable? then Reaction(d, status, Errored)
    else if a.request.Missing? || status != Pending then Reaction(d, status, Finished)
    else if TooLate(spec, a.now) then
      if a.recorded then Reaction(d, Failed, Finished) else Reaction(d, status, Errored)
    else
      var reply := ReplyTo(d.pool, GrantCall(spec, a));
      if !reply.Granted? then Reaction(d, status, Requeued)
      else Assign(Desk(Step(d.pool, GrantCall(spec, a), a.now), d.pods), reply.name, status, a)
  }

  datatype Handed = Handed(desk: Desk, server: Option<string>)

  /** The REST Allocate: no filter, no status to record. */
  ghost function HandOut(d: Desk, strategy: Strategy, a: Answers): Handed {
    var reply := ReplyTo(d.pool, PoolModel.Allocate(strategy));
    if !reply.Granted? then Handed(d, None)
    else
      var taken := d.(pool := Step(d.pool, PoolModel.Allocate(strategy), a.now));
      if !a.fetched || !a.labelled || reply.name !in d.pods then Handed(GivenBack(taken, reply.name, a), None)
      else Handed(taken.(pods := Relabelled(d.pods, reply.name, PodAllocated, true)), Some(reply.name))
  }

  /** The REST Release: the label patch is best effort, the pool release is not. */
  ghost function TakeBack(d: Desk, n: string, a: Answers): Desk {
    GivenBack(d, n, a).(pods := Relabelled(d.pods, n, PodOther, a.fetched && a.unlabelled))
  }

  // ---------------------------------------------------------------- the controller on its heap

  /** The stored GameServerAllocation object. */
  class Allocation {
    const spec: Spec
    var status: Status
  }

  /** patchPodLabel: fails when the patch does not reach the API server or the pod is gone. */
  method PatchPodLabel(cluster: Cluster, n: string, phase: PodPhase, reaches: bool) returns (ok: bool)
    modifies cluster
    ensures ok == (reaches && n in old(cluster.pods))
    ensures cluster.pods == Relabelled(old(cluster.pods), n, phase, reaches)
  {
    ok := reaches && n in cluster.pods;
    if ok {
      cluster.pods := cluster.pods[n := cluster.pods[n].(phase := phase)];
    }
  }

  lemma UngrantedChangesNothing(fp: FleetPool, strategy: Strategy, permitted: map<string, bool>, now: int)
    requires WellFormed(fp) && !ReplyTo(fp, PoolModel.AllocateWithFilter(strategy, permitted)).Granted?
    ensures Step(fp, PoolModel.AllocateWithFilter(strategy, permitted), now) == fp
  {
    if !fp.created {
      assert Eligible(fp.servers, permitted) == {};
    }
    NothingToGrant(fp, strategy, permitted, now);
  }

  class AllocationReconciler {
    const poolMgr: PoolManager

    constructor (poolMgr: PoolManager)
      ensures this.poolMgr == poolMgr
    {
      this.poolMgr := poolMgr;
    }

    ghost function View(f: string, cluster: Cluster): Desk
      requires poolMgr.Valid()
      reads poolMgr, poolMgr.cells, cluster
    {
      Desk(poolMgr.Fleet(f), cluster.pods)
    }

    method Reconcile(f: string, cluster: Cluster, alloc: Allocation, a: Answers) returns (result: Result)
      requires poolMgr.Valid()
      modifies poolMgr, poolMgr.cells, cluster, alloc
      ensures poolMgr.Valid() && poolMgr.cells == old(poolMgr.cells)
      ensures Reaction(View(f, cluster), alloc.status, result) ==
              Serve(old(View(f, cluster)), old(alloc.status), alloc.spec, a)
      ensures forall g | g != f :: poolMgr.Fleet(g) == old(poolMgr.Fleet(g))
    {
      hide PoolManager.Fleet, PoolManager.Valid, Step, ReplyTo, Filter;
      if !a.request.Got? {
        if a.request.Missing? {
          return Finished;
        }
        return Errored;
      }
      if alloc.status != Pending {
        return Finished;
      }
      var spec := alloc.spec;
      if spec.ttlSeconds > 0 {
        if a.now - spec.createdAt > spec.ttlSeconds * SECOND {
          if !a.recorded {
            return Errored;
          }
          alloc.status := Failed;
          return Finished;
        }
      }
      var permitted: map<string, bool> := BuildFilter(spec, a);
      var strategy := if spec.strategy.None? then FewestPlayers else spec.strategy.value;
      var reply := poolMgr.AllocateWithFilter(f, strategy, permitted, a.now);
      if !reply.Granted? {
        UngrantedChangesNothing(old(poolMgr.Fleet(f)), strategy, permitted, a.now);
        return Requeued;
      }
      result := Persist(f, cluster, alloc, reply.name, a);
    }

    /** The names the selector lists, all mapped to true. */
    method BuildFilter(spec: Spec, a: Answers) returns (permitted: map<string, bool>)
      ensures permitted == Filter(spec, a)
    {
      permitted := map[];
      if spec.selects && a.selected.Some? {
        var rest := a.selected.value;
        while rest != {}
          invariant rest <= a.selected.value && permitted == map n | n in a.selected.value - rest :: true
          decreases rest
        {
          var n :| n in rest;
          permitted := permitted[n := true];
          rest := rest - {n};
        }
      }
    }

    /** Fetches and labels the granted pod and records the allocation, undoing the grant on failure. */
    method Persist(f: string, cluster: Cluster, alloc: Allocation, n: string, a: Answers) returns (result: Result)
      requires poolMgr.Valid()
      modifies poolMgr.cells, cluster, alloc
      ensures poolMgr.Valid()
      ensures Reaction(View(f, cluster), alloc.status, result) ==
              Assign(old(View(f, cluster)), n, old(alloc.status), a)
      ensures forall g | g != f :: poolMgr.Fleet(g) == old(poolMgr.Fleet(g))
    {
      hide PoolManager.Fleet, Step;
      if !a.fetched {
        poolMgr.Release(f, n, a.later);
        return Errored;
      }
      var labelled := PatchPodLabel(cluster, n, PodAllocated, a.labelled);
      if !labelled {
        poolMgr.Release(f, n, a.later);
        return Errored;
      }
      if !a.recorded {
        poolMgr.Release(f, n, a.later);
        var _ := PatchPodLabel(cluster, n, PodOther, a.unlabelled);
        return Errored;
      }
      alloc.status := Allocated(n);
      result := Finished;
    }

    /** The REST API's Allocate. */
    method Allocate(f: string, cluster: Cluster, strategy: Strategy, a: Answers)
      returns (server: Option<string>)
      requires poolMgr.Valid()
      modifies poolMgr, poolMgr.cells, cluster
      ensures poolMgr.Valid() && poolMgr.cells == old(poolMgr.cells)
      ensures Handed(View(f, cluster), server) == HandOut(old(View(f, cluster)), strategy, a)
      ensures forall g | g != f :: poolMgr.Fleet(g) == old(poolMgr.Fleet(g))
    {
      hide PoolManager.Fleet, PoolManager.Valid, Step, ReplyTo;
      var reply := poolMgr.AllocateWithFilter(f, strategy, map[], a.now);
      if !reply.Granted? {
        UngrantedChangesNothing(old(poolMgr.Fleet(f)), strategy, map[], a.now);
        return None;
      }
      if !a.fetched {
        poolMgr.Release(f, reply.name, a.later);
        return None;
      }
      var labelled := PatchPodLabel(cluster, reply.name, PodAllocated, a.labelled);
      if !labelled {
        poolMgr.Release(f, reply.name, a.later);
        return None;
      }
      return Some(reply.name);
    }

    /** The REST API's Release. */
    method Release(f: string, cluster: Cluster, n: string, a: Answers)
      requires poolMgr.Valid()
      modifies poolMgr.cells, cluster
      ensures poolMgr.Valid()
      ensures View(f, cluster) == TakeBack(old(View(f, cluster)), n, a)
      ensures forall g | g != f :: poolMgr.Fleet(g) == old(poolMgr.Fleet(g))
    {
      hide PoolManager.Fleet, Step;
      if a.fetched {
        var _ := PatchPodLabel(cluster, n, PodOther, a.unlabelled);
      }
      poolMgr.Release(f, n, a.later);
    }
  }

  // ---------------------------------------------------------------- rollback

  /** The server the pool grants in this reconcile, if it gets that far. */
  ghost function GrantIn(d: Desk, status: Status, spec: Spec, a: Answers): Option<string> {
    if !a.request.Got? || status != Pending || TooLate(spec, a.now) then None
    else
      var reply := ReplyTo(d.pool, GrantCall(spec, a));
      if reply.Granted? then Some(reply.name) else None
  }

  /** A grant followed by its release: only the clock and the use count of the server remember it. */
  lemma GrantThenRelease(fp: FleetPool, c: Call, now: int, later: int)
    requires c.AllocateWithFilter? && ReplyTo(fp, c).Granted?
    ensures var n := ReplyTo(fp, c).name;
            var back := Step(Step(fp, c, now), PoolModel.Release(n), later);
            && n in Eligible(fp.servers, c.permitted)
            && back.servers == fp.servers[n := fp.servers[n].(lastUsedAt := later,
                                                              allocationCount := fp.servers[n].allocationCount + 1)]
            && Step(fp, c, now).servers == fp.servers[n := Used(fp.servers[n], now)]
            && back.created == fp.created && back.config == fp.config
  {
  }

  /** Every failing path restores the flags: a reconcile leaves any server's flags different exactly
      when it ends with the request allocated; and then only the granted server, free and
      permitted before, has changed, and it is in use. */
  lemma RollbackIsComplete(d: Desk, status: Status, spec: Spec, a: Answers)
    ensures var r := Serve(d, status, spec, a);
            && (SameFlags(r.desk.pool.servers, d.pool.servers) <==> !(status == Pending && r.status.Allocated?))
            && (status == Pending && r.status.Allocated? ==>
                  var n := r.status.server;
                  && n in Eligible(d.pool.servers, Filter(spec, a))
                  && r.desk.pool.servers == d.pool.servers[n := Used(d.pool.servers[n], a.now)])
            && (r.result != Finished ==> r.status == status)
  {
    hide Step, ReplyTo, Eligible, Filter;
    var c := GrantCall(spec, a);
    if GrantIn(d, status, spec, a).Some? {
      GrantThenRelease(d.pool, c, a.now, a.later);
      EligibleIsIdle(d.pool.servers, c.permitted);
    }
  }

  lemma EligibleIsIdle(m: Servers, permitted: map<string, bool>)
    ensures forall n | n in Eligible(m, permitted) :: n in m && m[n].Idle() && Permits(permitted, n)
  {
  }

  /** The rollback is not a complete undo: a grant that failed later has still counted as a use. */
  lemma RollbackKeepsTheUse(d: Desk, status: Status, spec: Spec, a: Answers, n: string)
    requires GrantIn(d, status, spec, a) == Some(n)
    requires Serve(d, status, spec, a).result == Errored
    ensures Serve(d, status, spec, a).desk.pool.servers[n].allocationCount == d.pool.servers[n].allocationCount + 1
    ensures forall k | k in d.pool.servers && k != n ::
              Serve(d, status, spec, a).desk.pool.servers[k] == d.pool.servers[k]
  {
    hide Step, ReplyTo, Eligible, Filter;
    GrantThenRelease(d.pool, GrantCall(spec, a), a.now, a.later);
  }

  /** Whether a failed allocation stays undone through the next label sync: the label "allocated"
      stays behind, and the sync takes the free server out of the pool again, exactly when the pod
      was labelled, the status could not be written and the label could not be put back. */
  lemma RollbackSurvivesSyncIff(d: Desk, status: Status, spec: Spec, a: Answers, n: string, t: int)
    requires GrantIn(d, status, spec, a) == Some(n) && Serve(d, status, spec, a).result == Errored
    requires n in d.pods && d.pods[n].running && d.pods[n].phase == PodOther
    ensures var r := Serve(d, status, spec, a);
            var synced := SyncedPool(r.desk.pool, r.desk.pods, t).servers;
            && n in synced
            && (synced[n].inUse <==> a.fetched && a.labelled && !a.unlabelled)
  {
    hide Step, ReplyTo, Eligible, Filter;
    GrantThenRelease(d.pool, GrantCall(spec, a), a.now, a.later);
    EligibleIsIdle(d.pool.servers, Filter(spec, a));
  }

  /** The REST pair: releasing what was handed out restores every flag; the label is back to warm
      exactly when the pod was found and the patch went through. */
  lemma ReleaseUndoesAllocate(d: Desk, strategy: Strategy, a: Answers, b: Answers)
    requires HandOut(d, strategy, a).server.Some?
    ensures var taken := HandOut(d, strategy, a);
            var n := taken.server.value;
            var back := TakeBack(taken.desk, n, b);
            && n in d.pool.servers && d.pool.servers[n].Idle() && taken.desk.pool.servers[n].inUse
            && SameFlags(back.pool.servers, d.pool.servers)
            && n in back.pods && (back.pods[n].phase == PodOther <==> b.fetched && b.unlabelled)
            && (forall k | k in d.pods && k != n :: k in back.pods && back.pods[k] == d.pods[k])
  {
    hide Step, ReplyTo, Eligible;
    GrantThenRelease(d.pool, PoolModel.Allocate(strategy), a.now, b.later);
    EligibleIsIdle(d.pool.servers, map[]);
  }

  /** A failed REST Allocate changes no flag and no label. */
  lemma FailedAllocateRestores(d: Desk, strategy: Strategy, a: Answers)
    requires HandOut(d, strategy, a).server.None?
    ensures SameFlags(HandOut(d, strategy, a).desk.pool.servers, d.pool.servers)
    ensures HandOut(d, strategy, a).desk.pods == d.pods
  {
    hide Step, ReplyTo, Eligible;
    if ReplyTo(d.pool, PoolModel.Allocate(strategy)).Granted? {
      GrantThenRelease(d.pool, PoolModel.Allocate(strategy), a.now, a.later);
      EligibleIsIdle(d.pool.servers, map[]);
    }
  }

  // ---------------------------------------------------------------- who gets what

  /** Which servers a request lets through: all of them without a selector, after a failed listing and
      after an empty one, otherwise the listed ones. */
  lemma FilterIff(spec: Spec, a: Answers, n: string)
    ensures Permits(Filter(spec, a), n) <==>
            !spec.selects || a.selected == None || a.selected.value == {} || n in a.selected.value
  {
    if spec.selects && a.selected.Some? {
      assert Filter(spec, a).Keys == a.selected.value;
      assert |Filter(spec, a)| == |a.selected.value|;
    }
  }

  /** The server a request asks for: the one its strategy prefers, fewest players if it names none,
      among the available servers its selector lets through. */
  ghost predicate AsksFor(d: Desk, spec: Spec, a: Answers, n: string) {
    var names := Eligible(d.pool.servers, Filter(spec, a));
    match spec.strategy
    case None => PoolHistories.Preferred(d.pool, FewestPlayers, names, n)
    case Some(strategy) => PoolHistories.Preferred(d.pool, strategy, names, n)
  }

  lemma GrantIsAskedFor(d: Desk, spec: Spec, a: Answers, n: string)
    requires WellFormed(d.pool)
    ensures ReplyTo(d.pool, GrantCall(spec, a)) == Granted(n) <==> AsksFor(d, spec, a, n)
  {
    hide ReplyTo, Eligible, Filter, PoolHistories.Preferred;
    if d.pool.created {
      PoolHistories.GrantIsPreferred(d.pool, StrategyOf(spec), Filter(spec, a), n);
    } else {
      NothingUnknown(d, spec, a, n);
    }
  }

  lemma NothingUnknown(d: Desk, spec: Spec, a: Answers, n: string)
    requires WellFormed(d.pool) && !d.pool.created
    ensures ReplyTo(d.pool, GrantCall(spec, a)) == NoPool && !AsksFor(d, spec, a, n)
  {
    assert Eligible(d.pool.servers, Filter(spec, a)) == {};
  }

  /** What becomes of a pending request: it fails exactly when its time to live, in seconds, has passed
      and the status was written; it is allocated n exactly when it is in time, n is the server it
      asks for and every step goes well; it is tried again exactly when it is in time and no server
      is available to it; and it is an error exactly when a step does not go well. */
  lemma ServeIff(d: Desk, spec: Spec, a: Answers, n: string)
    requires WellFormed(d.pool)
    ensures var r := Serve(d, Pending, spec, a);
            var late := spec.ttlSeconds > 0 && a.now - spec.createdAt > spec.ttlSeconds * SECOND;
            var got := a.request == Got;
            && (r.status == Failed <==> got && late && a.recorded)
            && (r.status == Allocated(n) <==>
                  got && !late && AsksFor(d, spec, a, n) && a.fetched && a.labelled && n in d.pods && a.recorded)
            && (r.result == Requeued <==> got && !late && forall k :: !AsksFor(d, spec, a, k))
            && (AsksFor(d, spec, a, n) && got && !late ==>
                  (r.result == Errored <==> !(a.fetched && a.labelled && n in d.pods && a.recorded)))
            && (got && late ==> (r.result == Errored <==> !a.recorded) && r.desk == d)
            && (!got ==> r.desk == d && r.status == Pending && (r.result == Errored <==> a.request == Unreachable))
  {
    hide Step, ReplyTo, AsksFor, Filter, Eligible;
    GrantIsAskedFor(d, spec, a, n);
    var reply := ReplyTo(d.pool, GrantCall(spec, a));
    if reply.Granted? {
      GrantIsAskedFor(d, spec, a, reply.name);
    } else {
      forall k ensures !AsksFor(d, spec, a, k) {
        GrantIsAskedFor(d, spec, a, k);
      }
    }
  }

  /** The labels a reconcile leaves: only the granted server's pod is touched, only if it was fetched
      and the patch arrived, and it ends allocated if the request does, else warm or, if the label
      could not be put back, allocated. */
  lemma ServeLabels(d: Desk, spec: Spec, a: Answers, k: string)
    ensures var after := Serve(d, Pending, spec, a).desk.pods;
            if GrantIn(d, Pending, spec, a) == Some(k) && a.fetched && a.labelled && k in d.pods
            then k in after &&
                 after[k] == d.pods[k].(phase := if a.recorded || !a.unlabelled then PodAllocated else PodOther)
            else At(after, k) == At(d.pods, k)
  {
    hide Step, ReplyTo, Filter;
  }

  /** The REST call gets what it asks for, by the strategy it names. */
  lemma HandOutIff(d: Desk, strategy: Strategy, a: Answers, n: string)
    requires WellFormed(d.pool)
    ensures HandOut(d, strategy, a).server == Some(n) <==>
            PoolHistories.Preferred(d.pool, strategy, Eligible(d.pool.servers, map[]), n) &&
            a.fetched && a.labelled && n in d.pods
  {
    hide Step, ReplyTo, Eligible, PoolHistories.Preferred;
    if d.pool.created {
      PoolHistories.GrantIsPreferred(d.pool, strategy, map[], n);
    } else {
      NothingToHandOut(d, strategy, n);
    }
  }

  lemma NothingToHandOut(d: Desk, strategy: Strategy, n: string)
    requires WellFormed(d.pool) && !d.pool.created
    ensures ReplyTo(d.pool, PoolModel.Allocate(strategy)) == NoPool
    ensures !PoolHistories.Preferred(d.pool, strategy, Eligible(d.pool.servers, map[]), n)
  {
    assert Eligible(d.pool.servers, map[]) == {};
  }

  /** The REST release frees a tracked server whatever becomes of the label, and relabels an existing
      pod exactly when it was fetched and the patch arrived. */
  lemma TakeBackIs(d: Desk, n: string, a: Answers, k: string)
    ensures var after := TakeBack(d, n, a);
            && At(after.pods, k) == (if k == n && n in d.pods && a.fetched && a.unlabelled
                                     then Some(Pod(PodOther, d.pods[n].running)) else At(d.pods, k))
            && At(after.pool.servers, k) ==
               (if k == n && n in d.pool.servers
                then Some(Server(false, d.pool.servers[n].healthy, a.later, d.pool.servers[n].allocationCount))
                else At(d.pool.servers, k))
  {
  }

  // ---------------------------------------------------------------- selectors

  /** The pods a request with a selector may get. */
  function Selection(a: Answers): set<string> {
    if a.selected.Some? then a.selected.value else {}
  }

  /** Selectors constrain which servers are eligible only as long as the selector matches some pod:
      whatever the pool, only selected servers are granted, exactly when the listing succeeded and
      was not empty. A selector that matches nothing lets every server through. */
  lemma SelectorHonouredIff(spec: Spec, a: Answers)
    requires spec.selects && a.request.Got? && !TooLate(spec, a.now)
    ensures (forall d: Desk, n: string | GrantIn(d, Pending, spec, a) == Some(n) :: n in Selection(a)) <==>
            Selection(a) != {}
  {
    if Selection(a) != {} {
      forall d: Desk, n: string | GrantIn(d, Pending, spec, a) == Some(n) ensures n in Selection(a) {
        SelectedOnly(d, spec, a, n);
      }
    } else {
      var d := Desk(FleetPool(true, map["s" := Server(false, true, SECOND, 0)], Config(0, 0), 0), map[]);
      AnyoneGranted(d, spec, a);
      assert "s" !in Selection(a);
    }
  }

  lemma SelectedOnly(d: Desk, spec: Spec, a: Answers, n: string)
    requires spec.selects && Selection(a) != {} && GrantIn(d, Pending, spec, a) == Some(n)
    ensures n in Selection(a)
  {
    hide Step;
    GrantThenRelease(d.pool, GrantCall(spec, a), a.now, a.later);
    EligibleIsIdle(d.pool.servers, Filter(spec, a));
    var some :| some in a.selected.value;
    assert some in Filter(spec, a);
    assert Filter(spec, a) != map[];
  }

  lemma AnyoneGranted(d: Desk, spec: Spec, a: Answers)
    requires spec.selects && Selection(a) == {} && a.request.Got? && !TooLate(spec, a.now)
    requires d.pool.created && d.pool.servers == map["s" := Server(false, true, SECOND, 0)]
    ensures GrantIn(d, Pending, spec, a) == Some("s")
  {
    assert Filter(spec, a) == map[];
    assert Eligible(d.pool.servers, map[]) == {"s"};
  }

  // ---------------------------------------------------------------- keeping what is allocated

  /** Nobody else can have n: where the pool tracks it, it is in use, and its pod, if there is one,
      is labelled allocated. Right after a restart the pool tracks nothing and only the label is left. */
  ghost predicate Kept(d: Desk, n: string) {
    (n in d.pool.servers ==> d.pool.servers[n].inUse) && (n in d.pods ==> d.pods[n].phase == PodAllocated)
  }

  /** Allocated, Failed and Released are absorbing: a reconcile of such a request changes nothing. */
  lemma SettledStays(d: Desk, status: Status, spec: Spec, a: Answers)
    ensures status != Pending ==> Serve(d, status, spec, a).desk == d && Serve(d, status, spec, a).status == status
  {
  }

  lemma ServeKeeps(d: Desk, status: Status, spec: Spec, a: Answers, n: string)
    requires Kept(d, n)
    ensures var r := Serve(d, status, spec, a);
            && Kept(r.desk, n) && r.desk.pods.Keys == d.pods.Keys
            && (status == Pending && r.status.Allocated? ==> r.status.server != n)
  {
    hide Step, ReplyTo, Eligible, Filter;
    if GrantIn(d, status, spec, a).Some? {
      GrantThenRelease(d.pool, GrantCall(spec, a), a.now, a.later);
      EligibleIsIdle(d.pool.servers, Filter(spec, a));
    }
  }

  /** A request that becomes allocated has a server in use whose pod exists and says so. */
  lemma ServeTakes(d: Desk, spec: Spec, a: Answers)
    requires Serve(d, Pending, spec, a).status.Allocated?
    ensures var r := Serve(d, Pending, spec, a);
            var n := r.status.server;
            && n in r.desk.pool.servers && r.desk.pool.servers[n].inUse
            && n in r.desk.pods && r.desk.pods[n].phase == PodAllocated
  {
    hide Step, ReplyTo, Eligible, Filter;
    GrantThenRelease(d.pool, GrantCall(spec, a), a.now, a.later);
    EligibleIsIdle(d.pool.servers, Filter(spec, a));
  }
}

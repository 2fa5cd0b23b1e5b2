/** The whole director on one fleet: the fleet controller, any number of allocation requests and
    other callers of the pool, interleaved by whole calls: each reconcile is one step. WorkerRuns
    takes the allocation controller's calls apart. */
module DirectorRuns {
  import opened Common
  import opened PoolManagement
  import opened PoolModel
  import opened Draining
  import opened Scaling
  import opened FleetControl
  import opened FleetModel
  import opened FleetRuns
  import opened DrainRuns
  import opened AllocationControl
  import PoolHistories

  /** What the fleet controller sees, and the status of every allocation request for the fleet. */
  datatype Office = Office(world: World, requests: map<string, Status>)

  /** One atomic step. */
  datatype Move =
    | ReconcileFleet(e: Env)
    | ServeRequest(id: string, a: Answers)
    | PoolCall(call: Call, now: int)
    | PodsChange(pods: Pods)
    | Restart

  /** The fixed surroundings of a run. */
  datatype Setup = Setup(cfg: DrainConfig, specs: string -> Spec)

  ghost function DeskOf(w: World): Desk {
    Desk(w.pool, w.pods)
  }

  ghost function After(s: Setup, o: Office, m: Move): Office {
    match m
    case ReconcileFleet(e) => o.(world := Reconciled(s.cfg, o.world, e))
    case ServeRequest(id, a) =>
      if id !in o.requests then o
      else
        var r := Serve(DeskOf(o.world), o.requests[id], s.specs(id), a);
        Office(o.world.(pool := r.desk.pool, pods := r.desk.pods), o.requests[id := r.status])
    case PoolCall(c, now) => o.(world := o.world.(pool := Step(o.world.pool, c, now)))
    case PodsChange(pods) => o.(world := o.world.(pods := pods))
    case Restart => o.(world := Restarted(o.world))
  }

  /** A new process knows the pods and nothing else. */
  function Restarted(w: World): World {
    World(w.pods, EMPTY_FLEET, map[], 0, None, None, None)
  }

  ghost predicate Holds(o: Office, id: string) {
    id in o.requests && o.requests[id].Allocated?
  }

  /** No two allocated requests have the same server, and the pool and the pod labels let nobody
      else have one of theirs. */
  ghost predicate Exclusive(o: Office) {
    && (forall id | Holds(o, id) :: Kept(DeskOf(o.world), o.requests[id].server))
    && (forall i, j | Holds(o, i) && Holds(o, j) && i != j :: o.requests[i].server != o.requests[j].server)
  }

  /** What others may not do to a held server: free it, relabel its pod, or reuse its name. */
  ghost predicate Considerate(o: Office, m: Move) {
    forall id | Holds(o, id) :: LeavesHeld(o.world, m, o.requests[id].server)
  }

  ghost predicate LeavesHeld(w: World, m: Move, n: string) {
    match m
    case ReconcileFleet(e) => n in e.podNames ==> n in w.pods
    case ServeRequest(_, _) => true
    case PoolCall(c, _) => !PoolHistories.Frees(c, n) && (c == Register(n) ==> n in w.pool.servers)
    case PodsChange(pods) => n in pods ==> pods[n].phase == PodAllocated
    case Restart => true
  }

  /** A server with a drain record cannot be granted, and its pod says that it is draining. */
  ghost predicate Separated(w: World) {
    forall n | n in w.drains :: Apart(w, n)
  }

  /** Every held server still has its pod. */
  ghost predicate Present(o: Office) {
    forall id | Holds(o, id) :: o.requests[id].server in o.world.pods
  }

  ghost predicate Safe(o: Office) {
    Exclusive(o) && Separated(o.world) && Present(o)
  }

  /** A scale-down whose label patches reach every pod it cordons. */
  ghost predicate CordonsAreLabelled(w: World, e: Env) {
    OutcomeOf(w, e) == Completed(ScaleDown) && !e.dryRun ==>
      forall n | n in RoundTargets(w, e) && n in w.pods :: e.patched(n)
  }

  /** What else a move may not do if held pods are to survive: lose the label of a cordon, reuse a
      draining server's name, revive or relabel it, or delete a held pod itself. */
  ghost predicate Protective(o: Office, m: Move) {
    match m
    case ReconcileFleet(e) =>
      CordonsAreLabelled(o.world, e) && forall n | n in e.podNames :: n !in o.world.drains
    case ServeRequest(_, _) => true
    case PoolCall(c, _) => forall n | n in o.world.drains :: c != Register(n) && c != MarkAvailable(n)
    case PodsChange(pods) =>
      && (forall id | Holds(o, id) :: o.requests[id].server in pods)
      && (forall n | n in o.world.drains && n in pods :: pods[n].phase == PodDraining)
    case Restart => true
  }

  // ---------------------------------------------------------------- the fleet controller's step

  lemma HeldIsNotDraining(w: World, n: string)
    requires Separated(w) && Kept(DeskOf(w), n) && n in w.pods
    ensures n !in w.drains
  {
  }

  lemma SyncKeepsServer(w: World, e: Env, n: string)
    requires e.policy.Some? && Kept(DeskOf(w), n)
    ensures Kept(DeskOf(Prepared(w, e)), n)
  {
  }

  lemma GrowthKeeps(v: World, e: Env, delta: int, n: string)
    requires Kept(DeskOf(v), n) && (n in e.podNames ==> n in v.pods)
    ensures Kept(DeskOf(Grown(v, e, delta)), n) && (n in v.pods ==> n in Grown(v, e, delta).pods)
  {
    var names := Creations(v.pods, e.podNames, delta);
    if n in names {
      CreationsAreFresh(v.pods, e.podNames, delta, n);
    }
    AddPodsAt(v.pods, names, n);
    RegisterAllAt(v.pool, names, e.acted, n);
  }

  lemma CordonKeeps(v: World, cfg: DrainConfig, names: set<string>, e: Env, n: string)
    requires Kept(DeskOf(v), n) && n !in names
    ensures var after := Cordoned(v, cfg, names, e);
            Kept(DeskOf(after), n) && (n in v.pods ==> n in after.pods) && (n in after.drains <==> n in v.drains)
  {
  }

  lemma PassKeeps(cfg: DrainConfig, w: World, e: Env, n: string)
    requires Kept(DeskOf(w), n)
    ensures Kept(DeskOf(DrainPass(cfg, w, e)), n)
    ensures n in w.pods && n !in w.drains ==> n in DrainPass(cfg, w, e).pods
  {
  }

  /** The servers a decision cordons. */
  ghost function CordonedBy(v: World, e: Env, r: ScaleResult): set<string> {
    if r.decision == ScaleDown && !e.dryRun then Elements(DrainTargets(v.pool, r.delta, e.acted)) else {}
  }

  lemma CordonedAreIdle(v: World, e: Env, r: ScaleResult, n: string)
    requires n in CordonedBy(v, e, r)
    ensures n in v.pool.servers && v.pool.servers[n].Idle()
  {
    hide DrainTargets;
    DrainsLeastUsed(v.pool, r.delta, e.acted, n);
  }

  lemma ExecutedKeeps(cfg: DrainConfig, v: World, e: Env, r: ScaleResult, n: string)
    requires Kept(DeskOf(v), n) && (n in e.podNames ==> n in v.pods)
    ensures var after := Executed(cfg, v, e, r);
            Kept(DeskOf(after), n) && (n in v.pods ==> n in after.pods) && (n in after.drains <==> n in v.drains)
  {
    hide Creations, AddPods, RegisterAll, Cordoned, DrainTargets, GrowthFails;
    match r.decision
    case ScaleUp => GrowthKeeps(v, e, r.delta, n);
    case ScaleDown =>
      if n in CordonedBy(v, e, r) {
        CordonedAreIdle(v, e, r, n);
      }
      if !e.dryRun {
        CordonKeeps(v, cfg, CordonedBy(v, e, r), e, n);
      }
    case Frozen =>
    case Hold =>
  }

  lemma ActedKeeps(cfg: DrainConfig, w: World, e: Env, n: string)
    requires e.policy.Some? && Kept(DeskOf(w), n) && (n in e.podNames ==> n in w.pods)
    ensures var after := Acted(cfg, w, e);
            && Kept(DeskOf(after), n)
            && (n in w.pods && n !in w.drains ==> n in after.pods && n !in after.drains)
  {
    hide Executed, Prepared, Planned;
    SyncKeepsServer(w, e, n);
    PreparedKeepsPods(w, e);
    if n in Prepared(w, e).drains {
      SyncedRecordsAreLabelled(w, e, n);
    }
    ExecutedKeeps(cfg, Prepared(w, e), e, Planned(Prepared(w, e), e), n);
  }

  /** A reconcile of the fleet takes a held server from nobody, and its pod only if it has a drain
      record; whether label patches arrive does not matter. */
  lemma ReconcileKeepsServer(cfg: DrainConfig, w: World, e: Env, n: string)
    requires Kept(DeskOf(w), n) && (n in e.podNames ==> n in w.pods)
    ensures Kept(DeskOf(Reconciled(cfg, w, e)), n)
    ensures n in w.pods && n !in w.drains ==> n in Reconciled(cfg, w, e).pods
  {
    hide Executed, Prepared, Planned, DrainPass, Kept;
    match OutcomeOf(w, e)
    case Completed(_) =>
      CompletedIsActed(cfg, w, e);
      ActedKeeps(cfg, w, e, n);
      PassKeeps(cfg, Acted(cfg, w, e), e, n);
    case CreateFailed => ActedKeeps(cfg, w, e, n);
    case MetricsFailed =>
      SyncKeepsServer(w, e, n);
      PreparedKeepsPods(w, e);
    case NotFound =>
    case FetchFailed =>
    case Skipped =>
    case PolicyFailed =>
  }

  lemma SyncedIsApart(w: World, e: Env, n: string)
    requires e.policy.Some? && Separated(w) && n in Prepared(w, e).drains
    ensures Apart(Prepared(w, e), n) && (n in w.drains || n in w.pods)
  {
  }

  lemma ExecutedRecords(cfg: DrainConfig, v: World, e: Env, r: ScaleResult, n: string)
    requires n in Executed(cfg, v, e, r).drains
    ensures n in v.drains || n in CordonedBy(v, e, r)
  {
    hide DrainTargets;
  }

  lemma LabelledIsApart(v: World, cfg: DrainConfig, names: set<string>, e: Env, n: string)
    requires n in names && (n in v.pods ==> e.patched(n))
    ensures Apart(Cordoned(v, cfg, names, e), n)
  {
  }

  lemma ActedIsApart(cfg: DrainConfig, w: World, e: Env, n: string)
    requires e.policy.Some? && Separated(w) && CordonsAreLabelled(w, e)
    requires OutcomeOf(w, e).Completed? || OutcomeOf(w, e) == CreateFailed
    requires n in Acted(cfg, w, e).drains && (n in e.podNames ==> n !in w.drains)
    ensures Apart(Acted(cfg, w, e), n)
  {
    hide Prepared, Planned, DrainTargets, Apart, Separated, Cordoned, Grown, GrowthFails;
    var v := Prepared(w, e);
    var r := Planned(v, e);
    PreparedKeepsPods(w, e);
    if n in v.drains {
      SyncedIsApart(w, e, n);
      ExecutedKeepsApart(cfg, v, e, r, n);
    } else {
      ExecutedRecords(cfg, v, e, r, n);
      LabelledIsApart(v, cfg, CordonedBy(v, e, r), e, n);
      SameServersApart(Cordoned(v, cfg, CordonedBy(v, e, r), e), Executed(cfg, v, e, r), n);
    }
  }

  lemma SameServersApart(w: World, v: World, n: string)
    requires Apart(w, n) && v.pods == w.pods && v.pool.servers == w.pool.servers
    ensures Apart(v, n)
  {
  }

  lemma PassedRecords(cfg: DrainConfig, w: World, e: Env, n: string)
    requires n in DrainPass(cfg, w, e).drains
    ensures n in w.drains
  {
  }

  /** If every cordon is labelled, a reconcile keeps every draining server apart. */
  lemma ReconcileKeepsSeparation(cfg: DrainConfig, w: World, e: Env)
    requires Separated(w) && CordonsAreLabelled(w, e)
    requires forall n | n in e.podNames :: n !in w.drains
    ensures Separated(Reconciled(cfg, w, e))
  {
    hide Executed, Prepared, Planned, DrainPass, Apart;
    forall n | n in Reconciled(cfg, w, e).drains ensures Apart(Reconciled(cfg, w, e), n) {
      match OutcomeOf(w, e)
      case Completed(_) =>
        CompletedIsActed(cfg, w, e);
        PassedRecords(cfg, Acted(cfg, w, e), e, n);
        ActedIsApart(cfg, w, e, n);
        PassKeepsApart(cfg, Acted(cfg, w, e), e, n);
      case CreateFailed => ActedIsApart(cfg, w, e, n);
      case MetricsFailed => SyncedIsApart(w, e, n);
      case NotFound =>
      case FetchFailed =>
      case Skipped =>
      case PolicyFailed => SameServersApart(w, Reconciled(cfg, w, e), n);
    }
  }

  // ---------------------------------------------------------------- every step

  lemma CallKeeps(w: World, c: Call, now: int, n: string)
    requires Kept(DeskOf(w), n) && LeavesHeld(w, PoolCall(c, now), n)
    ensures Kept(DeskOf(w.(pool := Step(w.pool, c, now))), n)
  {
    PoolHistories.StepKeepsClaim(w.pool, c, now, n);
  }

  /** One held server through one move that is not the reconcile of a request. */
  lemma MoveKeepsServer(s: Setup, o: Office, m: Move, n: string)
    requires !m.ServeRequest? && Kept(DeskOf(o.world), n) && LeavesHeld(o.world, m, n)
    ensures Kept(DeskOf(After(s, o, m).world), n)
  {
    hide Reconciled, Step;
    match m
    case ReconcileFleet(e) => ReconcileKeepsServer(s.cfg, o.world, e, n);
    case PoolCall(c, now) => CallKeeps(o.world, c, now, n);
    case PodsChange(_) =>
    case Restart =>
  }

  lemma ServeKeepsExclusive(s: Setup, o: Office, id: string, a: Answers)
    requires Exclusive(o) && id in o.requests
    ensures Exclusive(After(s, o, ServeRequest(id, a)))
    ensures After(s, o, ServeRequest(id, a)).world.pods.Keys == o.world.pods.Keys
    ensures Present(o) ==> Present(After(s, o, ServeRequest(id, a)))
  {
    hide Serve, Kept;
    var after := After(s, o, ServeRequest(id, a));
    var d := DeskOf(o.world);
    SettledStays(d, o.requests[id], s.specs(id), a);
    ServeKeepsPods(d, o.requests[id], s.specs(id), a);
    forall k | Holds(o, k)
      ensures Kept(DeskOf(after.world), o.requests[k].server)
      ensures o.requests[id] == Pending && after.requests[id].Allocated? ==>
                after.requests[id].server != o.requests[k].server
    {
      ServeKeeps(d, o.requests[id], s.specs(id), a, o.requests[k].server);
    }
    if o.requests[id] == Pending && after.requests[id].Allocated? {
      ServeTakes(d, s.specs(id), a);
      TakenIsKept(DeskOf(after.world), after.requests[id].server);
    }
    forall k | Holds(after, k) ensures Kept(DeskOf(after.world), after.requests[k].server) {
    }
  }

  lemma TakenIsKept(d: Desk, n: string)
    requires n in d.pool.servers && d.pool.servers[n].inUse && n in d.pods && d.pods[n].phase == PodAllocated
    ensures Kept(d, n)
  {
  }

  lemma ServeKeepsPods(d: Desk, status: Status, spec: Spec, a: Answers)
    ensures Serve(d, status, spec, a).desk.pods.Keys == d.pods.Keys
  {
    hide Step, ReplyTo;
  }

  lemma ServeKeepsSeparation(w: World, status: Status, spec: Spec, a: Answers)
    requires Separated(w)
    ensures var d := Serve(DeskOf(w), status, spec, a).desk;
            Separated(w.(pool := d.pool, pods := d.pods))
  {
    hide Step, ReplyTo, Eligible, Filter;
    if GrantIn(DeskOf(w), status, spec, a).Some? {
      GrantThenRelease(w.pool, GrantCall(spec, a), a.now, a.later);
      EligibleIsIdle(w.pool.servers, Filter(spec, a));
    }
  }

  lemma CallKeepsSeparation(w: World, c: Call, now: int)
    requires Separated(w) && forall n | n in w.drains :: c != Register(n) && c != MarkAvailable(n)
    ensures Separated(w.(pool := Step(w.pool, c, now)))
  {
  }

  lemma MoveKeepsExclusive(s: Setup, o: Office, m: Move)
    requires Exclusive(o) && Considerate(o, m)
    ensures Exclusive(After(s, o, m))
  {
    hide Reconciled, Serve, Step, Kept, LeavesHeld;
    if m.ServeRequest? {
      if m.id in o.requests {
        ServeKeepsExclusive(s, o, m.id, m.a);
      }
    } else {
      forall id | Holds(o, id) ensures Kept(DeskOf(After(s, o, m).world), o.requests[id].server) {
        MoveKeepsServer(s, o, m, o.requests[id].server);
      }
    }
  }

  lemma MoveKeepsPods(s: Setup, o: Office, m: Move)
    requires Safe(o) && Considerate(o, m) && Protective(o, m)
    ensures Present(After(s, o, m))
  {
    hide Reconciled, Serve, Step, Kept, LeavesHeld, Separated, CordonsAreLabelled;
    match m
    case ReconcileFleet(e) =>
      forall id | Holds(o, id) ensures o.requests[id].server in Reconciled(s.cfg, o.world, e).pods {
        HeldIsNotDraining(o.world, o.requests[id].server);
        ReconcileKeepsServer(s.cfg, o.world, e, o.requests[id].server);
      }
    case ServeRequest(id, a) =>
      if id in o.requests {
        ServeKeepsExclusive(s, o, id, a);
      }
    case PoolCall(_, _) =>
    case PodsChange(_) =>
    case Restart =>
  }

  lemma MoveKeepsSafe(s: Setup, o: Office, m: Move)
    requires Safe(o) && Considerate(o, m) && Protective(o, m)
    ensures Safe(After(s, o, m))
  {
    hide Reconciled, Serve, Step, Exclusive, Considerate, Present, CordonsAreLabelled;
    MoveKeepsExclusive(s, o, m);
    MoveKeepsPods(s, o, m);
    match m
    case ReconcileFleet(e) => ReconcileKeepsSeparation(s.cfg, o.world, e);
    case ServeRequest(id, a) =>
      if id in o.requests {
        ServeKeepsSeparation(o.world, o.requests[id], s.specs(id), a);
      }
    case PoolCall(c, now) => CallKeepsSeparation(o.world, c, now);
    case PodsChange(_) =>
    case Restart =>
  }

  // ---------------------------------------------------------------- whole runs

  ghost function Play(s: Setup, o: Office, ms: seq<Move>): Office {
    if ms == [] then o else After(s, Play(s, o, ms[..|ms| - 1]), ms[|ms| - 1])
  }

  ghost predicate AllConsiderate(s: Setup, o: Office, ms: seq<Move>) {
    ms != [] ==>
      AllConsiderate(s, o, ms[..|ms| - 1]) && Considerate(Play(s, o, ms[..|ms| - 1]), ms[|ms| - 1])
  }

  ghost predicate AllProtective(s: Setup, o: Office, ms: seq<Move>) {
    ms != [] ==>
      AllProtective(s, o, ms[..|ms| - 1]) && Protective(Play(s, o, ms[..|ms| - 1]), ms[|ms| - 1])
  }

  /** No double booking by whole calls: however reconciles of the fleet, of any number of allocation
      requests (failing or not), restarts of the process and other callers follow each other, label
      patches failing or not, no two allocated requests hold the same server. */
  lemma {:induction false} NoDoubleBooking(s: Setup, o: Office, ms: seq<Move>)
    requires Exclusive(o) && AllConsiderate(s, o, ms)
    ensures Exclusive(Play(s, o, ms))
    decreases |ms|
  {
    hide After, Considerate, Exclusive;
    if ms != [] {
      NoDoubleBooking(s, o, ms[..|ms| - 1]);
      MoveKeepsExclusive(s, Play(s, o, ms[..|ms| - 1]), ms[|ms| - 1]);
    }
  }

  /** If moreover no cordon loses its label, no match loses its pod. */
  lemma {:induction false} NoMatchLosesItsPod(s: Setup, o: Office, ms: seq<Move>)
    requires Safe(o) && AllConsiderate(s, o, ms) && AllProtective(s, o, ms)
    ensures Safe(Play(s, o, ms))
    decreases |ms|
  {
    hide After, Considerate, Protective, Safe;
    if ms != [] {
      NoMatchLosesItsPod(s, o, ms[..|ms| - 1]);
      MoveKeepsSafe(s, Play(s, o, ms[..|ms| - 1]), ms[|ms| - 1]);
    }
  }

  /** After such a run no fleet reconcile, whether its own label patches arrive or not, asks for the
      deletion of a held server's pod. */
  lemma NoHeldServerIsDeleted(s: Setup, o: Office, ms: seq<Move>, e: Env, id: string)
    requires Safe(o) && AllConsiderate(s, o, ms) && AllProtective(s, o, ms)
    requires Holds(Play(s, o, ms), id)
    ensures var now := Play(s, o, ms);
            now.requests[id].server !in DeletesRequested(s.cfg, now.world, e)
  {
    hide After, Acted, Reconciled, Kept, Separated;
    var now := Play(s, o, ms);
    NoMatchLosesItsPod(s, o, ms);
    if OutcomeOf(now.world, e).Completed? {
      CompletedHasPolicy(now.world, e);
      HeldIsNotDraining(now.world, now.requests[id].server);
      ActedKeeps(s.cfg, now.world, e, now.requests[id].server);
    }
  }

  // ---------------------------------------------------------------- a lost label

  /** The condition on label patches is exact for a cordoned server: the next label sync makes it
      grantable, its drain record still running, if and only if its patch failed. */
  lemma GrantableWhileDrainingIff(cfg: DrainConfig, w: World, e: Env, n: string, next: Env)
    requires OutcomeOf(w, e) == Completed(ScaleDown) && !e.dryRun
    requires n in RoundTargets(w, e) && n in w.pods && w.pods[n].running && w.pods[n].phase == PodOther
    requires next.policy.Some? && next.syncListed
    ensures var v := Prepared(Reconciled(cfg, w, e), next);
            n in v.drains && (n in Eligible(v.pool.servers, map[]) <==> !e.patched(n))
  {
    hide Reconciled, OutcomeOf, RoundTargets;
    TargetState(cfg, w, e, n);
    SyncFlags(Reconciled(cfg, w, e), next, n);
  }

  lemma SyncFlags(w: World, e: Env, n: string)
    requires e.policy.Some? && e.syncListed && n in w.drains
    requires n in w.pool.servers && !w.pool.servers[n].healthy && n in Running(w.pods)
    ensures n in Prepared(w, e).drains
    ensures n in Eligible(Prepared(w, e).pool.servers, map[]) <==> w.pods[n].phase == PodOther
  {
  }

  /** A held server that has a drain record is asked to go like any other. */
  lemma HeldButDraining(cfg: DrainConfig, w: World, e: Env, n: string)
    requires Kept(DeskOf(w), n) && n in w.drains && OutcomeOf(w, e).Completed?
    ensures n in DeletesRequested(cfg, w, e) <==> RequestsDelete(cfg, w.drains[n], e.acted, e.answers(n))
  {
    hide OutcomeOf, Reconciled, DeletesRequested, RoundTargets;
    HeldIsLeftAlone(w, e, n);
    RecordStep(cfg, w, e, n);
  }

  lemma HeldIsLeftAlone(w: World, e: Env, n: string)
    requires Kept(DeskOf(w), n)
    ensures LeavesAlone(w, e, n)
  {
    hide Prepared, Planned, DrainTargets;
    if OutcomeOf(w, e) == Completed(ScaleDown) && !e.dryRun && n in RoundTargets(w, e) {
      CompletedHasPolicy(w, e);
      SyncKeepsServer(w, e, n);
      CordonedAreIdle(Prepared(w, e), e, Planned(Prepared(w, e), e), n);
    }
  }

  lemma ServedIsHeld(d: Desk, spec: Spec, a: Answers, n: string)
    requires GrantIn(d, Pending, spec, a) == Some(n) && n in d.pods && a.fetched && a.labelled && a.recorded
    ensures Serve(d, Pending, spec, a).status == Allocated(n)
  {
    hide Step, ReplyTo, Filter;
  }

  /** The three moves after which a request holds a server that is being drained: a cordon, a
      reconcile whose sync makes the server available again, and a grant. */
  function LostLabel(cordon: Env, sync: Env, id: string, a: Answers): seq<Move> {
    [ReconcileFleet(cordon), ReconcileFleet(sync), ServeRequest(id, a)]
  }

  lemma PlayThree(s: Setup, o: Office, cordon: Env, sync: Env, id: string, a: Answers)
    ensures Play(s, o, LostLabel(cordon, sync, id, a)) ==
            After(s, o.(world := Reconciled(s.cfg, Reconciled(s.cfg, o.world, cordon), sync)), ServeRequest(id, a))
  {
    hide Reconciled, Serve;
    var ms := LostLabel(cordon, sync, id, a);
    assert ms[..2][..1] == ms[..1] && ms[..1][..0] == [];
    assert ms == LostLabel(cordon, sync, id, a);
    assert Play(s, o, ms[..1]) == After(s, o, ms[0]);
    assert Play(s, o, ms[..2]) == After(s, Play(s, o, ms[..1]), ms[1]);
  }

  /** A record not yet due passes a reconcile unchanged. */
  lemma RecordWaits(cfg: DrainConfig, w: World, cordon: Env, sync: Env, n: string)
    requires OutcomeOf(w, cordon) == Completed(ScaleDown) && !cordon.dryRun && n in RoundTargets(w, cordon)
    requires LeavesAlone(Reconciled(cfg, w, cordon), sync, n) && sync.acted - cordon.acted < cfg.interval
    ensures var after := Reconciled(cfg, Reconciled(cfg, w, cordon), sync).drains;
            n in after && after[n] == Started(cfg, cordon.acted).(phase := Drain)
  {
    hide OutcomeOf, Reconciled, LeavesAlone, RoundTargets, DeletesRequested;
    TargetState(cfg, w, cordon, n);
    RecordStep(cfg, Reconciled(cfg, w, cordon), sync, n);
  }

  lemma ForcedWhateverAnswered(cfg: DrainConfig, start: int, now: int, a: Answer)
    requires cfg.forceTime > 0 && now > start + cfg.forceTime && now >= start + cfg.interval
    ensures RequestsDelete(cfg, Started(cfg, start).(phase := Drain), now, a)
  {
  }

  lemma GrantedMove(s: Setup, o: Office, id: string, a: Answers, n: string)
    requires id in o.requests && o.requests[id] == Pending && n in o.world.pods
    requires GrantIn(DeskOf(o.world), Pending, s.specs(id), a) == Some(n) && a.fetched && a.labelled && a.recorded
    ensures var after := After(s, o, ServeRequest(id, a));
            && id in after.requests && after.requests[id] == Allocated(n)
            && after.world.drains == o.world.drains && Kept(DeskOf(after.world), n)
  {
    hide Serve, GrantIn, Kept;
    ServedIsHeld(DeskOf(o.world), s.specs(id), a, n);
    ServeTakes(DeskOf(o.world), s.specs(id), a);
    TakenIsKept(DeskOf(After(s, o, ServeRequest(id, a)).world), n);
  }

  /** What a lost label can lead to: the cordon's patch fails, the next sync makes the server
      available, a request gets it, and past the force deadline a reconcile asks for the held
      server's pod to be deleted, whatever its sessions are. */
  lemma HeldServerIsDrained(s: Setup, o: Office, n: string, cordon: Env, sync: Env, id: string, a: Answers,
                            late: Env)
    requires id in o.requests && o.requests[id] == Pending && s.cfg.forceTime > 0
    requires OutcomeOf(o.world, cordon) == Completed(ScaleDown) && !cordon.dryRun && n in RoundTargets(o.world, cordon)
    requires var w := Reconciled(s.cfg, o.world, cordon);
             OutcomeOf(w, sync).Completed? && LeavesAlone(w, sync, n) && sync.acted - cordon.acted < s.cfg.interval
    requires var w := Reconciled(s.cfg, Reconciled(s.cfg, o.world, cordon), sync);
             GrantIn(DeskOf(w), Pending, s.specs(id), a) == Some(n) && n in w.pods && a.fetched && a.labelled && a.recorded
    requires OutcomeOf(Play(s, o, LostLabel(cordon, sync, id, a)).world, late).Completed?
    requires late.acted > cordon.acted + s.cfg.forceTime && late.acted >= cordon.acted + s.cfg.interval
    ensures var now := Play(s, o, LostLabel(cordon, sync, id, a));
            At(now.requests, id) == Some(Allocated(n)) && n in DeletesRequested(s.cfg, now.world, late)
  {
    hide OutcomeOf, Reconciled, LeavesAlone, RoundTargets, DeletesRequested, After, GrantIn, Kept, Play, RequestsDelete;
    var w := Reconciled(s.cfg, Reconciled(s.cfg, o.world, cordon), sync);
    RecordWaits(s.cfg, o.world, cordon, sync, n);
    ForcedWhateverAnswered(s.cfg, cordon.acted, late.acted, late.answers(n));
    PlayThree(s, o, cordon, sync, id, a);
    GrantedMove(s, o.(world := w), id, a, n);
    HeldButDraining(s.cfg, Play(s, o, LostLabel(cordon, sync, id, a)).world, late, n);
  }

  // ---------------------------------------------------------------- one request

  /** The reconciles of request id in a run that leave some server's flags changed. */
  ghost function SurvivingGrants(s: Setup, o: Office, ms: seq<Move>, id: string): nat {
    if ms == [] then 0
    else
      var before, m := Play(s, o, ms[..|ms| - 1]), ms[|ms| - 1];
      var after := After(s, before, m);
      SurvivingGrants(s, o, ms[..|ms| - 1], id) +
      if m.ServeRequest? && m.id == id && !SameFlags(after.world.pool.servers, before.world.pool.servers) then 1 else 0
  }

  /** Repeated reconciles of one request, with anything whatever in between, leave at most one
      surviving grant: exactly one if the request has become allocated. */
  lemma {:induction false} AtMostOneGrant(s: Setup, o: Office, ms: seq<Move>, id: string)
    requires id in o.requests
    ensures id in Play(s, o, ms).requests
    ensures o.requests[id] != Pending ==> Play(s, o, ms).requests[id] == o.requests[id]
    ensures SurvivingGrants(s, o, ms, id) ==
            if o.requests[id] == Pending && Play(s, o, ms).requests[id].Allocated? then 1 else 0
    decreases |ms|
  {
    hide After;
    if ms != [] {
      AtMostOneGrant(s, o, ms[..|ms| - 1], id);
      OneMove(s, Play(s, o, ms[..|ms| - 1]), ms[|ms| - 1], id);
    }
  }

  lemma OneMove(s: Setup, o: Office, m: Move, id: string)
    requires id in o.requests
    ensures var after := After(s, o, m);
            && id in after.requests
            && (o.requests[id] != Pending || !(m.ServeRequest? && m.id == id) ==> after.requests[id] == o.requests[id])
            && (m.ServeRequest? && m.id == id ==>
                  (SameFlags(after.world.pool.servers, o.world.pool.servers) <==>
                   !(o.requests[id] == Pending && after.requests[id].Allocated?)))
  {
    hide Serve, Reconciled, Step;
    if m.ServeRequest? && m.id == id {
      SettledStays(DeskOf(o.world), o.requests[id], s.specs(id), m.a);
      RollbackIsComplete(DeskOf(o.world), o.requests[id], s.specs(id), m.a);
    }
  }

  // ---------------------------------------------------------------- on the heap

  /** The two controllers of one process share the pool manager; every request has its own object. */
  ghost predicate Connected(s: Setup, fleet: FleetReconciler, allocs: AllocationReconciler,
                            objects: map<string, Allocation>)
    reads fleet, fleet.poolMgr
  {
    && fleet.Valid() && allocs.poolMgr == fleet.poolMgr && s.cfg == fleet.drainer.config
    && (forall id | id in objects :: s.specs(id) == objects[id].spec)
    && (forall i, j | i in objects && j in objects && i != j :: objects[i] != objects[j])
  }

  ghost function StatusesOf(objects: map<string, Allocation>): map<string, Status>
    reads objects.Values
  {
    map id | id in objects :: objects[id].status
  }

  /** A request's reconcile touches the pool, the pods and its own object. */
  method ServeObject(ghost spec: Spec, fleet: FleetReconciler, allocs: AllocationReconciler, f: string,
                     cluster: Cluster, alloc: Allocation, a: Answers, ghost w: World)
    requires fleet.Valid() && allocs.poolMgr == fleet.poolMgr && spec == alloc.spec && w == fleet.View(f, cluster)
    modifies fleet.poolMgr, fleet.poolMgr.cells, cluster, alloc
    ensures fleet.Valid() && fleet.poolMgr.cells == old(fleet.poolMgr.cells)
    ensures var r := Serve(DeskOf(w), old(alloc.status), spec, a);
            && alloc.status == r.status
            && fleet.View(f, cluster) == w.(pool := r.desk.pool, pods := r.desk.pods)
  {
    hide PoolManager.Fleet, PoolManager.Valid, Serve, FleetReconciler.Drains, FleetReconciler.Failures;
    var _ := allocs.Reconcile(f, cluster, alloc, a);
  }

  method ServeById(ghost s: Setup, fleet: FleetReconciler, allocs: AllocationReconciler, f: string, cluster: Cluster,
                   objects: map<string, Allocation>, id: string, a: Answers, ghost o: Office)
    requires Connected(s, fleet, allocs, objects)
    requires o == Office(fleet.View(f, cluster), StatusesOf(objects))
    modifies fleet.poolMgr, fleet.poolMgr.cells, cluster, objects.Values
    ensures fleet.Valid() && fleet.poolMgr.cells == old(fleet.poolMgr.cells)
    ensures Office(fleet.View(f, cluster), StatusesOf(objects)) == After(s, o, ServeRequest(id, a))
  {
    hide PoolManager.Fleet, PoolManager.Valid, FleetReconciler.View, Serve;
    if id in objects {
      ServeObject(s.specs(id), fleet, allocs, f, cluster, objects[id], a, o.world);
      assert StatusesOf(objects) == o.requests[id := objects[id].status];
    }
  }

  method CallPool(fleet: FleetReconciler, f: string, cluster: Cluster, c: Call, now: int, ghost w: World)
    requires fleet.Valid() && w == fleet.View(f, cluster)
    modifies fleet.poolMgr, fleet.poolMgr.cells
    ensures fleet.Valid() && fresh(fleet.poolMgr.cells - old(fleet.poolMgr.cells))
    ensures fleet.View(f, cluster) == w.(pool := Step(w.pool, c, now))
  {
    hide PoolManager.Fleet, PoolManager.Valid, Step, FleetReconciler.Drains, FleetReconciler.Failures;
    var _ := PoolHistories.Perform(fleet.poolMgr, f, PoolHistories.Event(c, now));
  }

  /** The process starts anew: its maps are empty, and nothing of the cluster changes. */
  method StartAnew(fleet: FleetReconciler, f: string, cluster: Cluster, ghost w: World)
    requires fleet.Valid() && w == fleet.View(f, cluster)
    modifies fleet, fleet.poolMgr
    ensures fleet.Valid() && fleet.poolMgr.cells == {} && fleet.states == {}
    ensures fleet.View(f, cluster) == Restarted(w)
  {
    var pm := fleet.poolMgr;
    pm.pools, pm.configs, pm.roundRobinIdx, pm.cells := map[], map[], map[], {};
    fleet.consecutiveFailures, fleet.circuitOpenUntil, fleet.drainStates := map[], map[], map[];
    fleet.lastScaleUpAt, fleet.lastScaleDownAt, fleet.states := map[], map[], {};
  }

  method ChangePods(fleet: FleetReconciler, f: string, cluster: Cluster, pods: Pods, ghost w: World)
    requires fleet.Valid() && w == fleet.View(f, cluster)
    modifies cluster
    ensures fleet.View(f, cluster) == w.(pods := pods)
  {
    cluster.pods := pods;
  }

  method MakeMove(ghost s: Setup, fleet: FleetReconciler, allocs: AllocationReconciler, f: string, cluster: Cluster,
                  objects: map<string, Allocation>, ghost o: Office, m: Move)
    requires Connected(s, fleet, allocs, objects)
    requires o == Office(fleet.View(f, cluster), StatusesOf(objects))
    modifies fleet, fleet.poolMgr, fleet.poolMgr.cells, fleet.states, cluster, objects.Values
    ensures Connected(s, fleet, allocs, objects)
    ensures fresh(fleet.poolMgr.cells - old(fleet.poolMgr.cells)) && fresh(fleet.states - old(fleet.states))
    ensures Office(fleet.View(f, cluster), StatusesOf(objects)) == After(s, o, m)
  {
    hide PoolManager.Fleet, PoolManager.Valid, FleetReconciler.Valid, FleetReconciler.View, FleetReconciler.Ledger,
         FleetReconciler.Drains, FleetReconciler.Failures, StatusesOf, Reconciled, Serve, Step, Restarted;
    match m {
      case ReconcileFleet(e) =>
        var _, _ := fleet.Reconcile(f, cluster, e);
      case ServeRequest(id, a) =>
        ServeById(s, fleet, allocs, f, cluster, objects, id, a, o);
      case PoolCall(c, now) => CallPool(fleet, f, cluster, c, now, o.world);
      case PodsChange(pods) => ChangePods(fleet, f, cluster, pods, o.world);
      case Restart => StartAnew(fleet, f, cluster, o.world);
    }
  }

  /** Any interleaving, made on the controllers' own heap, ends where Play says. */
  method Operate(ghost s: Setup, fleet: FleetReconciler, allocs: AllocationReconciler, f: string, cluster: Cluster,
                 objects: map<string, Allocation>, ms: seq<Move>)
    requires Connected(s, fleet, allocs, objects)
    modifies fleet, fleet.poolMgr, fleet.poolMgr.cells, fleet.states, cluster, objects.Values
    ensures Connected(s, fleet, allocs, objects)
    ensures Office(fleet.View(f, cluster), StatusesOf(objects)) ==
            Play(s, old(Office(fleet.View(f, cluster), StatusesOf(objects))), ms)
  {
    hide PoolManager.Fleet, PoolManager.Valid, FleetReconciler.Ledger, FleetReconciler.Drains, FleetReconciler.View,
         FleetReconciler.Valid, StatusesOf, After;
    ghost var o := Office(fleet.View(f, cluster), StatusesOf(objects));
    for k := 0 to |ms|
      invariant Connected(s, fleet, allocs, objects)
      invariant fresh(fleet.poolMgr.cells - old(fleet.poolMgr.cells)) && fresh(fleet.states - old(fleet.states))
      invariant Office(fleet.View(f, cluster), StatusesOf(objects)) == Play(s, o, ms[..k])
    {
      assert ms[..k + 1][..k] == ms[..k];
      MakeMove(s, fleet, allocs, f, cluster, objects, Play(s, o, ms[..k]), ms[k]);
    }
    assert ms[..|ms|] == ms;
  }
}

/** Allocation workers step by step. Several requests are reconciled at a time, and between two steps
    of one reconcile the other workers, the label sync of the fleet controller and other callers of
    the pool may act. What is atomic here is one call of the pool or of the API server. */
module WorkerRuns {
  import opened Common
  import opened PoolModel
  import opened FleetModel
  import opened FleetControl
  import opened AllocationControl
  import PoolHistories

  /** How far a request's reconcile has come: granted, granted and labelled, or released again with
      the label still to be put back. */
  datatype Flight = Holding(server: string) | Marked(server: string) | Undoing(server: string)

  /** A fleet's pool and pods, the requests' stored statuses, and the reconciles under way; one
      request is never in the hands of two workers. */
  datatype Shop = Shop(desk: Desk, requests: map<string, Status>, flights: map<string, Flight>)

  datatype Move =
    | Start(id: string, a: Answers)
    | Label(id: string, a: Answers)
    | Record(id: string, a: Answers)
    | Unlabel(id: string, a: Answers)
    | SyncPod(name: string, phase: PodPhase, now: int)
    | PoolCall(call: Call, now: int)
    | PodsChange(pods: Pods)
    | Restart

  /** Up to and including the grant. */
  ghost function Begun(o: Shop, spec: Spec, id: string, a: Answers): Shop {
    if id !in o.requests || id in o.flights then o
    else
      var n := GrantIn(o.desk, o.requests[id], spec, a);
      if n.None? then o.(requests := o.requests[id := Serve(o.desk, o.requests[id], spec, a).status])
      else Shop(o.desk.(pool := Step(o.desk.pool, GrantCall(spec, a), a.now)), o.requests,
                o.flights[id := Holding(n.value)])
  }

  /** Fetch and label the pod, or release the server. */
  ghost function PodLabelled(o: Shop, id: string, a: Answers): Shop {
    if id !in o.flights || !o.flights[id].Holding? then o
    else
      var n := o.flights[id].server;
      if !a.fetched || !a.labelled || n !in o.desk.pods
      then o.(desk := GivenBack(o.desk, n, a), flights := o.flights - {id})
      else o.(desk := o.desk.(pods := Relabelled(o.desk.pods, n, PodAllocated, true)),
              flights := o.flights[id := Marked(n)])
  }

  /** Write the status, or release the server. */
  ghost function StatusWritten(o: Shop, id: string, a: Answers): Shop {
    if id !in o.flights || !o.flights[id].Marked? then o
    else
      var n := o.flights[id].server;
      if a.recorded then o.(requests := o.requests[id := Allocated(n)], flights := o.flights - {id})
      else o.(desk := GivenBack(o.desk, n, a), flights := o.flights[id := Undoing(n)])
  }

  /** Put the label back, best effort. */
  ghost function LabelPutBack(o: Shop, id: string, a: Answers): Shop {
    if id !in o.flights || !o.flights[id].Undoing? then o
    else
      var n := o.flights[id].server;
      o.(desk := o.desk.(pods := Relabelled(o.desk.pods, n, PodOther, a.unlabelled)), flights := o.flights - {id})
  }

  /** The label sync's calls for one running pod whose label was listed, some time ago, as phase. */
  ghost function PodSynced(fp: FleetPool, name: string, phase: PodPhase, now: int): FleetPool {
    Step(Step(fp, PoolModel.Register(name), now), LabelCall(name, phase), now)
  }

  ghost function After(specs: string -> Spec, o: Shop, m: Move): Shop {
    match m
    case Start(id, a) => Begun(o, specs(id), id, a)
    case Label(id, a) => PodLabelled(o, id, a)
    case Record(id, a) => StatusWritten(o, id, a)
    case Unlabel(id, a) => LabelPutBack(o, id, a)
    case SyncPod(n, phase, now) => o.(desk := o.desk.(pool := PodSynced(o.desk.pool, n, phase, now)))
    case PoolCall(c, now) => o.(desk := o.desk.(pool := Step(o.desk.pool, c, now)))
    case PodsChange(pods) => o.(desk := o.desk.(pods := pods))
    case Restart => Shop(Desk(EMPTY_FLEET, o.desk.pods), o.requests, map[])
  }

  /** The four steps of one reconcile with nothing in between. */
  ghost function Uninterrupted(specs: string -> Spec, o: Shop, id: string, a: Answers): Shop {
    LabelPutBack(StatusWritten(PodLabelled(Begun(o, specs(id), id, a), id, a), id, a), id, a)
  }

  /** Uninterrupted, the steps are the reconcile as one call. */
  lemma UninterruptedIsServe(specs: string -> Spec, o: Shop, id: string, a: Answers)
    requires id in o.requests && id !in o.flights
    ensures var r := Serve(o.desk, o.requests[id], specs(id), a);
            Uninterrupted(specs, o, id, a) == Shop(r.desk, o.requests[id := r.status], o.flights)
  {
    hide Step, ReplyTo, Filter;
    var begun := Begun(o, specs(id), id, a);
    if begun.flights != o.flights {
      assert begun.flights - {id} == o.flights && o.requests[id := o.requests[id]] == o.requests;
    }
  }

  // ---------------------------------------------------------------- no double booking

  /** The server a request counts as its own. */
  function Claim(o: Shop, id: string): Option<string> {
    if id in o.requests && o.requests[id].Allocated? then Some(o.requests[id].server)
    else if id in o.flights && !o.flights[id].Undoing? then Some(o.flights[id].server)
    else None
  }

  /** The claim has reached the pod's label. */
  predicate OnLabel(o: Shop, id: string) {
    (id in o.requests && o.requests[id].Allocated?) || (id in o.flights && o.flights[id].Marked?)
  }

  ghost predicate Guarded(o: Shop, id: string) {
    var n := Claim(o, id);
    n.Some? ==>
      && (n.value in o.desk.pool.servers ==> o.desk.pool.servers[n.value].inUse)
      && (OnLabel(o, id) && n.value in o.desk.pods ==> o.desk.pods[n.value].phase == PodAllocated)
  }

  /** No two requests claim the same server, and the pool gives a claimed one to nobody. */
  ghost predicate Exclusive(o: Shop) {
    && (forall id | id in o.flights :: id in o.requests && o.requests[id] == Pending)
    && (forall id :: Guarded(o, id))
    && (forall i, j | Claim(o, i).Some? && Claim(o, j).Some? && i != j :: Claim(o, i) != Claim(o, j))
  }

  /** What may not happen to a claimed server n while it is claimed: a sync that acts on a label
      listed before "allocated" was written; a label put back after somebody else has written it
      again; being freed, relabelled or registered anew by others. */
  ghost predicate Spares(o: Shop, m: Move, id: string, n: string) {
    match m
    case Start(_, _) => true
    case Label(_, _) => true
    case Record(_, _) => true
    case Unlabel(j, a) =>
      j in o.flights && o.flights[j] == Undoing(n) && a.unlabelled ==> !OnLabel(o, id)
    case SyncPod(k, phase, _) => k == n ==> phase == PodAllocated || (phase == PodDraining && n in o.desk.pool.servers)
    case PoolCall(c, _) => !PoolHistories.Frees(c, n) && (c == Register(n) ==> n in o.desk.pool.servers)
    case PodsChange(pods) => OnLabel(o, id) && n in pods ==> pods[n].phase == PodAllocated
    case Restart => true
  }

  ghost predicate Careful(o: Shop, m: Move) {
    forall id | Claim(o, id).Some? :: Spares(o, m, id, Claim(o, id).value)
  }

  lemma StartKeeps(o: Shop, spec: Spec, id: string, a: Answers)
    requires Exclusive(o)
    ensures Exclusive(Begun(o, spec, id, a))
  {
    hide Step, ReplyTo, Filter, Eligible;
    if id in o.requests && id !in o.flights {
      var g := GrantIn(o.desk, o.requests[id], spec, a);
      if g.Some? {
        GrantThenRelease(o.desk.pool, GrantCall(spec, a), a.now, a.later);
        EligibleIsIdle(o.desk.pool.servers, Filter(spec, a));
        StartTakes(o, spec, id, a, g.value);
      } else {
        NoGrantNoServer(o.desk, o.requests[id], spec, a);
        SameClaims(o, Begun(o, spec, id, a));
      }
    }
  }

  lemma NoGrantNoServer(d: Desk, status: Status, spec: Spec, a: Answers)
    requires GrantIn(d, status, spec, a).None?
    ensures var now := Serve(d, status, spec, a).status;
            now == status || (status == Pending && now == Failed)
  {
    hide Step, ReplyTo, Filter;
  }

  lemma SameClaims(o: Shop, p: Shop)
    requires Exclusive(o) && p.desk == o.desk && p.flights == o.flights && p.requests.Keys == o.requests.Keys
    requires forall id | id in o.requests ::
               p.requests[id] == o.requests[id] ||
               (id !in o.flights && o.requests[id] == Pending && p.requests[id] == Failed)
    ensures Exclusive(p)
  {
    assert forall id :: Claim(p, id) == Claim(o, id) && OnLabel(p, id) == OnLabel(o, id);
    forall id ensures Guarded(p, id) {
      assert Guarded(o, id);
    }
  }

  lemma StartTakes(o: Shop, spec: Spec, id: string, a: Answers, n: string)
    requires Exclusive(o) && id in o.requests && id !in o.flights && GrantIn(o.desk, o.requests[id], spec, a) == Some(n)
    requires n in o.desk.pool.servers && o.desk.pool.servers[n].Idle()
    requires Step(o.desk.pool, GrantCall(spec, a), a.now).servers ==
             o.desk.pool.servers[n := Used(o.desk.pool.servers[n], a.now)]
    ensures Exclusive(Begun(o, spec, id, a))
  {
    hide Step, ReplyTo, Filter;
    var p := Begun(o, spec, id, a);
    forall i | Claim(o, i).Some? ensures Claim(o, i) != Some(n) {
      assert Guarded(o, i);
    }
    assert forall i | i != id :: Claim(p, i) == Claim(o, i) && OnLabel(p, i) == OnLabel(o, i);
    forall i ensures Guarded(p, i) {
      assert Guarded(o, i);
    }
  }

  /** Giving back one's own claim frees no server that another request claims. */
  lemma DropKeeps(o: Shop, p: Shop, id: string)
    requires Exclusive(o) && id in o.flights && !o.flights[id].Undoing?
    requires p.requests == o.requests && p.desk.pods == o.desk.pods && Claim(p, id).None?
    requires forall i | i != id :: i in p.flights <==> i in o.flights
    requires forall i | i != id && i in o.flights :: p.flights[i] == o.flights[i]
    requires id in p.flights ==> id in p.requests
    requires p.desk.pool.servers.Keys == o.desk.pool.servers.Keys
    requires forall k | k in o.desk.pool.servers && k != o.flights[id].server ::
               p.desk.pool.servers[k] == o.desk.pool.servers[k]
    ensures Exclusive(p)
  {
    assert forall i | i != id :: Claim(p, i) == Claim(o, i) && OnLabel(p, i) == OnLabel(o, i);
    forall i ensures Guarded(p, i) {
      assert Guarded(o, i) && (i != id && Claim(o, i).Some? ==> Claim(o, i) != Claim(o, id));
    }
  }

  lemma LabelKeeps(o: Shop, id: string, a: Answers)
    requires Exclusive(o)
    ensures Exclusive(PodLabelled(o, id, a))
  {
    var p := PodLabelled(o, id, a);
    if id in o.flights && o.flights[id].Holding? {
      var n := o.flights[id].server;
      if !a.fetched || !a.labelled || n !in o.desk.pods {
        DropKeeps(o, p, id);
      } else {
        assert forall i :: Claim(p, i) == Claim(o, i);
        forall i ensures Guarded(p, i) {
          assert Guarded(o, i);
        }
      }
    }
  }

  lemma RecordKeeps(o: Shop, id: string, a: Answers)
    requires Exclusive(o)
    ensures Exclusive(StatusWritten(o, id, a))
  {
    var p := StatusWritten(o, id, a);
    if id in o.flights && o.flights[id].Marked? {
      if a.recorded {
        assert forall i :: Claim(p, i) == Claim(o, i) && OnLabel(p, i) == OnLabel(o, i);
        forall i ensures Guarded(p, i) {
          assert Guarded(o, i);
        }
      } else {
        DropKeeps(o, p, id);
      }
    }
  }

  lemma UnlabelKeeps(o: Shop, id: string, a: Answers)
    requires Exclusive(o) && Careful(o, Unlabel(id, a))
    ensures Exclusive(LabelPutBack(o, id, a))
  {
    var p := LabelPutBack(o, id, a);
    if id in o.flights && o.flights[id].Undoing? {
      assert forall i :: Claim(p, i) == Claim(o, i) && OnLabel(p, i) == OnLabel(o, i);
      forall i ensures Guarded(p, i) {
        assert Guarded(o, i);
        if Claim(o, i).Some? {
          assert Spares(o, Unlabel(id, a), i, Claim(o, i).value);
        }
      }
    }
  }

  /** A pool step that leaves every claimed server in use where it is tracked. */
  lemma PoolStepKeeps(o: Shop, fp: FleetPool)
    requires Exclusive(o)
    requires forall i | Claim(o, i).Some? && Claim(o, i).value in fp.servers :: fp.servers[Claim(o, i).value].inUse
    ensures Exclusive(o.(desk := o.desk.(pool := fp)))
  {
    var p := o.(desk := o.desk.(pool := fp));
    assert forall i :: Claim(p, i) == Claim(o, i) && OnLabel(p, i) == OnLabel(o, i);
    forall i ensures Guarded(p, i) {
      assert Guarded(o, i);
    }
  }

  lemma SyncKeepsClaim(fp: FleetPool, k: string, phase: PodPhase, now: int, n: string)
    requires n in fp.servers ==> fp.servers[n].inUse
    requires k == n ==> phase == PodAllocated || (phase == PodDraining && n in fp.servers)
    ensures n in PodSynced(fp, k, phase, now).servers ==> PodSynced(fp, k, phase, now).servers[n].inUse
  {
  }

  lemma PodsChangeKeeps(o: Shop, pods: Pods)
    requires Exclusive(o) && Careful(o, PodsChange(pods))
    ensures Exclusive(o.(desk := o.desk.(pods := pods)))
  {
    var p := o.(desk := o.desk.(pods := pods));
    assert forall i :: Claim(p, i) == Claim(o, i) && OnLabel(p, i) == OnLabel(o, i);
    forall i ensures Guarded(p, i) {
      assert Guarded(o, i);
      if Claim(o, i).Some? {
        assert Spares(o, PodsChange(pods), i, Claim(o, i).value);
      }
    }
  }

  lemma RestartKeeps(o: Shop)
    requires Exclusive(o)
    ensures Exclusive(Shop(Desk(EMPTY_FLEET, o.desk.pods), o.requests, map[]))
  {
    var p := Shop(Desk(EMPTY_FLEET, o.desk.pods), o.requests, map[]);
    assert forall i | Claim(p, i).Some? :: Claim(p, i) == Claim(o, i);
    forall i ensures Guarded(p, i) {
      assert Guarded(o, i);
    }
  }

  lemma MoveKeepsExclusive(specs: string -> Spec, o: Shop, m: Move)
    requires Exclusive(o) && Careful(o, m)
    ensures Exclusive(After(specs, o, m))
  {
    hide Exclusive, Step, PodSynced, Begun, PodLabelled, StatusWritten, LabelPutBack;
    match m
    case Start(id, a) => StartKeeps(o, specs(id), id, a);
    case Label(id, a) => LabelKeeps(o, id, a);
    case Record(id, a) => RecordKeeps(o, id, a);
    case Unlabel(id, a) => UnlabelKeeps(o, id, a);
    case SyncPod(k, phase, now) =>
      forall i | Claim(o, i).Some? && Claim(o, i).value in PodSynced(o.desk.pool, k, phase, now).servers
        ensures PodSynced(o.desk.pool, k, phase, now).servers[Claim(o, i).value].inUse
      {
        ClaimIsInUse(o, i);
        SyncKeepsClaim(o.desk.pool, k, phase, now, Claim(o, i).value);
      }
      PoolStepKeeps(o, PodSynced(o.desk.pool, k, phase, now));
    case PoolCall(c, now) =>
      forall i | Claim(o, i).Some? && Claim(o, i).value in Step(o.desk.pool, c, now).servers
        ensures Step(o.desk.pool, c, now).servers[Claim(o, i).value].inUse
      {
        ClaimIsInUse(o, i);
        PoolHistories.StepKeepsClaim(o.desk.pool, c, now, Claim(o, i).value);
      }
      PoolStepKeeps(o, Step(o.desk.pool, c, now));
    case PodsChange(pods) => PodsChangeKeeps(o, pods);
    case Restart => RestartKeeps(o);
  }

  lemma ClaimIsInUse(o: Shop, id: string)
    requires Exclusive(o) && Claim(o, id).Some?
    ensures Claim(o, id).value in o.desk.pool.servers ==> o.desk.pool.servers[Claim(o, id).value].inUse
  {
    assert Guarded(o, id);
  }

  ghost function Play(specs: string -> Spec, o: Shop, ms: seq<Move>): Shop {
    if ms == [] then o else After(specs, Play(specs, o, ms[..|ms| - 1]), ms[|ms| - 1])
  }

  ghost predicate AllCareful(specs: string -> Spec, o: Shop, ms: seq<Move>) {
    ms != [] ==>
      AllCareful(specs, o, ms[..|ms| - 1]) && Careful(Play(specs, o, ms[..|ms| - 1]), ms[|ms| - 1])
  }

  /** No double booking, step by step: however the steps of any number of reconciles, failing or not,
      interleave with each other, with the label sync pod by pod, with restarts and with other
      callers, no two requests hold or are being given the same server, as long as no sync and no
      late relabelling acts on a label from before the server was labelled allocated. */
  lemma {:induction false} NoDoubleBookingByStep(specs: string -> Spec, o: Shop, ms: seq<Move>)
    requires Exclusive(o) && AllCareful(specs, o, ms)
    ensures Exclusive(Play(specs, o, ms))
    decreases |ms|
  {
    hide After, Careful, Exclusive;
    if ms != [] {
      NoDoubleBookingByStep(specs, o, ms[..|ms| - 1]);
      MoveKeepsExclusive(specs, Play(specs, o, ms[..|ms| - 1]), ms[|ms| - 1]);
    }
  }

  // ---------------------------------------------------------------- what the condition is for

  /** A sync that acts on the current label is careful with every claim that has reached its label. */
  lemma FreshSyncIsCareful(o: Shop, id: string, now: int)
    requires Exclusive(o) && Claim(o, id).Some? && OnLabel(o, id) && Claim(o, id).value in o.desk.pods
    ensures var n := Claim(o, id).value;
            Spares(o, SyncPod(n, o.desk.pods[n].phase, now), id, n)
  {
    assert Guarded(o, id);
  }

  /** The sync of a granted server frees it exactly when the label it acts on is not yet, or no
      longer, "allocated" or "draining". */
  lemma SyncFreesIff(fp: FleetPool, n: string, phase: PodPhase, now: int)
    requires n in fp.servers && fp.servers[n].inUse && fp.servers[n].healthy
    ensures n in PodSynced(fp, n, phase, now).servers
    ensures PodSynced(fp, n, phase, now).servers[n].Idle() <==> phase == PodOther
  {
  }

  /** In particular the whole label sync between a request's grant and its label patch: it makes the
      granted server available again exactly when its running pod is unlabelled or warm. */
  lemma SyncAfterGrantIff(d: Desk, spec: Spec, a: Answers, n: string, t: int)
    requires GrantIn(d, Pending, spec, a) == Some(n) && n in Running(d.pods)
    ensures var synced := SyncedPool(Step(d.pool, GrantCall(spec, a), a.now), d.pods, t).servers;
            n in synced && (synced[n].Idle() <==> d.pods[n].phase == PodOther)
  {
    hide Step, ReplyTo, Eligible, Filter;
    GrantThenRelease(d.pool, GrantCall(spec, a), a.now, a.later);
    EligibleIsIdle(d.pool.servers, Filter(spec, a));
  }

  /** The pool tracks one server only, n, and it is available. */
  ghost predicate OneFree(fp: FleetPool, n: string) {
    fp.created && fp.servers.Keys == {n} && fp.servers[n].Idle()
  }

  /** A request that asks for any server, in time. */
  ghost predicate Asks(spec: Spec, a: Answers) {
    a.request.Got? && !TooLate(spec, a.now) && !spec.selects
  }

  predicate AllGoesWell(a: Answers) {
    a.fetched && a.labelled && a.recorded
  }

  lemma OnlyServer(d: Desk, spec: Spec, a: Answers, n: string)
    requires d.pool.created && d.pool.servers.Keys == {n} && Asks(spec, a)
    ensures GrantIn(d, Pending, spec, a) == if d.pool.servers[n].Idle() then Some(n) else None
  {
    assert Filter(spec, a) == map[];
    assert Eligible(d.pool.servers, map[]) == if d.pool.servers[n].Idle() then {n} else {};
    if d.pool.servers[n].Idle() {
      assert Chosen(d.pool, StrategyOf(spec), map[]) in Eligible(d.pool.servers, map[]);
    }
  }

  lemma Begins(o: Shop, spec: Spec, id: string, a: Answers, n: string)
    requires id in o.requests && o.requests[id] == Pending && id !in o.flights && Asks(spec, a)
    requires o.desk.pool.created && o.desk.pool.servers.Keys == {n}
    ensures var p := Begun(o, spec, id, a);
            if o.desk.pool.servers[n].Idle()
            then p.flights == o.flights[id := Holding(n)] && p.requests == o.requests && p.desk.pods == o.desk.pods &&
                 p.desk.pool.created && p.desk.pool.servers == map[n := Used(o.desk.pool.servers[n], a.now)]
            else p == o
  {
    hide Step, ReplyTo, Eligible, Filter, GrantIn;
    OnlyServer(o.desk, spec, a, n);
    if o.desk.pool.servers[n].Idle() {
      TakesOnly(o.desk, spec, a, n);
    } else {
      StaysPending(o.desk, spec, a);
      assert o.requests[id := Pending] == o.requests;
    }
  }

  lemma TakesOnly(d: Desk, spec: Spec, a: Answers, n: string)
    requires d.pool.created && d.pool.servers.Keys == {n} && GrantIn(d, Pending, spec, a) == Some(n)
    ensures var fp := Step(d.pool, GrantCall(spec, a), a.now);
            fp.created && fp.servers == map[n := Used(d.pool.servers[n], a.now)]
  {
    GrantThenRelease(d.pool, GrantCall(spec, a), a.now, a.later);
  }

  lemma StaysPending(d: Desk, spec: Spec, a: Answers)
    requires Asks(spec, a) && GrantIn(d, Pending, spec, a).None?
    ensures Serve(d, Pending, spec, a).status == Pending
  {
    hide Step, ReplyTo, Filter;
  }

  /** The rest of a reconcile after its grant. */
  ghost function Ended(o: Shop, id: string, a: Answers): Shop {
    StatusWritten(PodLabelled(o, id, a), id, a)
  }

  lemma Ends(o: Shop, id: string, a: Answers, n: string)
    requires id in o.flights && o.flights[id] == Holding(n) && n in o.desk.pods && a.fetched && a.labelled
    ensures var p := Ended(o, id, a);
            && p.desk.pods == Relabelled(o.desk.pods, n, PodAllocated, true)
            && if a.recorded
               then p.requests == o.requests[id := Allocated(n)] && p.flights == o.flights - {id} &&
                    p.desk.pool == o.desk.pool
               else p.requests == o.requests && p.flights == o.flights[id := Undoing(n)] &&
                    p.desk.pool == Step(o.desk.pool, PoolModel.Release(n), a.later)
  {
    hide Step;
  }

  /** A grant for i, the sync of that server, a grant for j. */
  ghost function GrantSyncGrant(specs: string -> Spec, o: Shop, i: string, a: Answers, n: string, phase: PodPhase,
                                now: int, j: string, b: Answers): Shop {
    After(specs, After(specs, After(specs, o, Start(i, a)), SyncPod(n, phase, now)), Start(j, b))
  }

  lemma GapGrants(specs: string -> Spec, o: Shop, i: string, a: Answers, n: string, phase: PodPhase, now: int,
                  j: string, b: Answers)
    requires i != j && o.requests == map[i := Pending, j := Pending] && o.flights == map[]
    requires OneFree(o.desk.pool, n) && Asks(specs(i), a) && Asks(specs(j), b)
    ensures var p := GrantSyncGrant(specs, o, i, a, n, phase, now, j, b);
            && p.requests == o.requests && p.desk.pods == o.desk.pods
            && p.flights == if phase == PodOther then map[i := Holding(n), j := Holding(n)] else map[i := Holding(n)]
  {
    hide Begun, Asks;
    Begins(o, specs(i), i, a, n);
    var p := After(specs, o, Start(i, a));
    SyncFreesIff(p.desk.pool, n, phase, now);
    var q := After(specs, p, SyncPod(n, phase, now));
    assert q.desk.pool.created && q.desk.pool.servers.Keys == {n};
    Begins(q, specs(j), j, b, n);
  }

  /** Double booking in the gap: two requests for the last free server, all of whose steps go well,
      with one sync of that server between the first one's grant and its label patch, both end up
      allocated to it exactly when the sync acts on a label that is not "allocated" or "draining",
      as is the label of a warm pod in that gap. */
  lemma SyncInTheGapIff(specs: string -> Spec, o: Shop, i: string, a: Answers, n: string, phase: PodPhase, now: int,
                        j: string, b: Answers)
    requires i != j && o.requests == map[i := Pending, j := Pending] && o.flights == map[] && n in o.desk.pods
    requires OneFree(o.desk.pool, n) && Asks(specs(i), a) && Asks(specs(j), b) && AllGoesWell(a) && AllGoesWell(b)
    ensures var p := Ended(Ended(GrantSyncGrant(specs, o, i, a, n, phase, now, j, b), i, a), j, b);
            && At(p.requests, i) == Some(Allocated(n))
            && (At(p.requests, j) == Some(Allocated(n)) <==> phase == PodOther)
  {
    hide GrantSyncGrant, Ended, Asks, OneFree;
    GapGrants(specs, o, i, a, n, phase, now, j, b);
    var p := GrantSyncGrant(specs, o, i, a, n, phase, now, j, b);
    Ends(p, i, a, n);
    var q := Ended(p, i, a);
    if phase == PodOther {
      Ends(q, j, b, n);
    } else {
      NothingToEnd(q, j, b);
    }
  }

  lemma NothingToEnd(o: Shop, id: string, a: Answers)
    requires id !in o.flights
    ensures Ended(o, id, a) == o
  {
  }

  /** A grant for i whose status cannot be written, and a grant for j before i's label is put back. */
  ghost function UndoneTooLate(specs: string -> Spec, o: Shop, i: string, a: Answers, j: string, b: Answers): Shop {
    LabelPutBack(Ended(Begun(Ended(Begun(o, specs(i), i, a), i, a), specs(j), j, b), j, b), i, a)
  }

  /** The rollback releases the server before it puts the label back. If the server is granted again
      in between, the label put back is the new owner's: j is allocated n, and the next sync, acting
      on the current label, makes n available to a third request exactly when that patch arrived. */
  lemma LatePutBackIff(specs: string -> Spec, o: Shop, i: string, a: Answers, n: string, j: string, b: Answers, now: int)
    requires i != j && o.requests == map[i := Pending, j := Pending] && o.flights == map[] && n in o.desk.pods
    requires OneFree(o.desk.pool, n) && Asks(specs(i), a) && Asks(specs(j), b)
    requires a.fetched && a.labelled && !a.recorded && AllGoesWell(b)
    ensures var p := UndoneTooLate(specs, o, i, a, j, b);
            && At(p.requests, j) == Some(Allocated(n)) && n in p.desk.pods
            && var synced := PodSynced(p.desk.pool, n, p.desk.pods[n].phase, now).servers;
               n in synced && (synced[n].Idle() <==> a.unlabelled)
  {
    hide Begun, Ended, Asks;
    Begins(o, specs(i), i, a, n);
    var o1 := Begun(o, specs(i), i, a);
    Ends(o1, i, a, n);
    var o2 := Ended(o1, i, a);
    Begins(o2, specs(j), j, b, n);
    var o3 := Begun(o2, specs(j), j, b);
    Ends(o3, j, b, n);
    var o4 := Ended(o3, j, b);
    var p := LabelPutBack(o4, i, a);
    SyncFreesIff(p.desk.pool, n, p.desk.pods[n].phase, now);
  }
}

/** The warm-pool allocator (pkg/pool/pool.go): every call is one critical section of the
    manager's mutex, so it is one atomic step here. The contracts tie the heap to PoolModel. */
module PoolManagement {
  import opened Common
  import opened Scheduler
  import opened PoolModel

  /** Picks one of the candidates: round-robin sorts by name and takes the cursor's turn,
      the other strategies rank. */
  method SelectCandidate(candidates: seq<GameServerInfo>, strategy: Strategy, cursor: nat,
                         ghost m: Servers, ghost names: set<string>)
    returns (chosen: string)
    requires names <= m.Keys && Distinct(candidates) && |candidates| > 0
    requires Elements(candidates) == Infos(m, names)
    ensures names != {} && |candidates| == |names|
    ensures chosen == Pick(m, strategy, names, cursor)
  {
    InfosSize(m, names);
    DistinctSize(candidates);
    if strategy == RoundRobin {
      var sorted := new GameServerInfo[|candidates|](i requires 0 <= i < |candidates| => candidates[i]);
      assert sorted[..] == candidates;
      SortSlice(sorted, ByName);
      SortedIsRanked(ByName, sorted[..], candidates);
      chosen := sorted[cursor % |candidates|].name;
    } else {
      var selected := RankAndSelect(candidates, strategy);
      assert candidates[0] in Elements(candidates) && Free(candidates) == Elements(candidates);
      UnprecededIsLeast(RankOf(strategy), selected.value, Elements(candidates));
      chosen := selected.value.name;
    }
  }

  lemma EmptyCandidates(candidates: seq<GameServerInfo>, m: Servers, names: set<string>)
    requires names <= m.Keys && candidates == [] && Elements(candidates) == Infos(m, names)
    ensures names == {}
  {
    InfosSize(m, names);
    assert Elements(candidates) == {};
  }

  /** Keeps the candidates whose names the filter permits; an empty filter keeps them all. */
  method FilterPermitted(candidates: seq<GameServerInfo>, permitted: map<string, bool>, ghost m: Servers)
    returns (filtered: seq<GameServerInfo>)
    requires Distinct(candidates) && Elements(candidates) == Infos(m, IdleNames(m))
    ensures Distinct(filtered) && Elements(filtered) == Infos(m, Eligible(m, permitted))
  {
    if |permitted| == 0 {
      assert Eligible(m, permitted) == IdleNames(m);
      return candidates;
    }
    filtered := [];
    for i := 0 to |candidates|
      invariant Distinct(filtered)
      invariant forall c :: c in filtered <==> c in candidates[..i] && Permits(permitted, c.name)
    {
      assert candidates[i] !in candidates[..i];
      if candidates[i].name in permitted && permitted[candidates[i].name] {
        filtered := filtered + [candidates[i]];
      }
      assert candidates[..i + 1] == candidates[..i] + [candidates[i]];
    }
    assert candidates[..|candidates|] == candidates;
    forall c ensures c in filtered <==> c in Infos(m, Eligible(m, permitted)) {
      assert c in Elements(candidates) <==> c in candidates;
    }
  }

  /** The names of distinct candidates, least used first. */
  method DrainOrder(candidates: seq<GameServerInfo>) returns (names: seq<string>)
    requires Distinct(candidates) && DistinctNames(Elements(candidates))
    ensures names == NamesOf(Ranked(ByLoad, Elements(candidates)))
  {
    var a := new GameServerInfo[|candidates|](i requires 0 <= i < |candidates| => candidates[i]);
    assert a[..] == candidates;
    var selected := SelectForDrain(a, |candidates|);
    assert selected == a[..];
    SortedIsRanked(ByLoad, selected, candidates);
    names := [];
    for i := 0 to |selected|
      invariant |names| == i && forall k | 0 <= k < i :: names[k] == selected[k].name
    {
      names := names + [selected[i].name];
    }
  }

  class ServerPoolState {
    ghost const fleet: string
    const name: string
    var inUse: bool
    var healthy: bool
    var lastUsedAt: int
    var allocationCount: int

    constructor (ghost fleet: string, name: string, now: int)
      ensures this.fleet == fleet && this.name == name
      ensures Value() == Server(false, true, now, 0)
    {
      this.fleet, this.name := fleet, name;
      inUse, healthy, lastUsedAt, allocationCount := false, true, now, 0;
    }

    function Value(): Server
      reads this
    {
      Server(inUse, healthy, lastUsedAt, allocationCount)
    }
  }

  /** The abstract value of one fleet's map of state objects. */
  ghost function Values(pool: map<string, ServerPoolState>): (m: Servers)
    reads pool.Values
  {
    map n | n in pool :: pool[n].Value()
  }

  /** The idle servers of a pool, in whatever order its map yields them. */
  method CollectIdle(pool: map<string, ServerPoolState>) returns (candidates: seq<GameServerInfo>)
    ensures Distinct(candidates)
    ensures Elements(candidates) == Infos(Values(pool), IdleNames(Values(pool)))
  {
    ghost var m := Values(pool);
    candidates := [];
    var rest := pool.Keys;
    while rest != {}
      invariant rest <= pool.Keys && Distinct(candidates)
      invariant forall c :: c in candidates <==> c.name in IdleNames(m) - rest && c == InfoOf(c.name, m[c.name])
      decreases rest
    {
      var name :| name in rest;
      var s := pool[name];
      if !s.inUse && s.healthy {
        candidates := candidates + [GameServerInfo(name, s.allocationCount, 0, false)];
      }
      rest := rest - {name};
    }
  }

  /** The servers of a pool idle for longer than the timeout, in whatever order its map yields them. */
  method CollectExpired(pool: map<string, ServerPoolState>, idleTimeout: int, now: int)
    returns (candidates: seq<GameServerInfo>)
    ensures Distinct(candidates)
    ensures Elements(candidates) == Infos(Values(pool), LongIdle(Values(pool), idleTimeout, now))
  {
    ghost var m := Values(pool);
    candidates := [];
    var rest := pool.Keys;
    while rest != {}
      invariant rest <= pool.Keys && Distinct(candidates)
      invariant forall c :: c in candidates <==>
                              c.name in LongIdle(m, idleTimeout, now) - rest && c == InfoOf(c.name, m[c.name])
      decreases rest
    {
      var name :| name in rest;
      var s := pool[name];
      if !s.inUse && s.healthy {
        if now - s.lastUsedAt > idleTimeout {
          candidates := candidates + [GameServerInfo(name, s.allocationCount, 0, false)];
        }
      }
      rest := rest - {name};
    }
  }

  /** Counts a pool's servers by their flags. */
  method CountPool(pool: map<string, ServerPoolState>) returns (stats: PoolStats)
    ensures stats == StatsOf(Values(pool))
  {
    ghost var m := Values(pool);
    ghost var seen: Servers := map[];
    stats := PoolStats(0, 0, 0, 0, 0);
    var rest := pool.Keys;
    while rest != {}
      invariant rest <= pool.Keys && seen.Keys == pool.Keys - rest
      invariant forall n | n in seen :: seen[n] == m[n]
      invariant stats == Census(seen)
      decreases rest
    {
      var name :| name in rest;
      var s := pool[name].Value();
      CensusAdd(seen, name, s);
      seen := seen[name := s];
      rest := rest - {name};
      stats := Tally(stats, s);
    }
    assert seen == m;
    CensusIsStats(m);
  }

  class PoolManager {
    var pools: map<string, map<string, ServerPoolState>>
    var configs: map<string, Config>
    var roundRobinIdx: map<string, nat>

    /** Every state object the two-level map has ever held. */
    ghost var cells: set<ServerPoolState>

    /** Every object sits under its own fleet and name, so no two entries share one. */
    ghost predicate Valid()
      reads this`pools, this`cells
    {
      forall f, n | f in pools && n in pools[f] ::
        pools[f][n] in cells && pools[f][n].fleet == f && pools[f][n].name == n
    }

    /** The abstract state of one fleet. */
    ghost function Fleet(f: string): (fp: FleetPool)
      requires Valid()
      reads this, cells
      ensures WellFormed(fp)
    {
      FleetPool(
        f in pools,
        if f in pools then Values(pools[f]) else map[],
        if f in configs then configs[f] else Config(0, 0),
        if f in roundRobinIdx then roundRobinIdx[f] else 0)
    }

    constructor ()
      ensures Valid() && cells == {}
      ensures forall f :: Fleet(f) == EMPTY_FLEET
    {
      pools, configs, roundRobinIdx, cells := map[], map[], map[], {};
    }

    /** Overwrites the fields of one state object, which changes exactly one entry. */
    method Write(fleetName: string, name: string, v: Server)
      requires Valid() && fleetName in pools && name in pools[fleetName]
      modifies pools[fleetName][name]
      ensures Fleet(fleetName) == old(Fleet(fleetName)).(servers := old(Fleet(fleetName)).servers[name := v])
      ensures forall g | g != fleetName :: Fleet(g) == old(Fleet(g))
    {
      var s := pools[fleetName][name];
      s.inUse, s.healthy, s.lastUsedAt, s.allocationCount := v.inUse, v.healthy, v.lastUsedAt, v.allocationCount;
      assert Values(pools[fleetName]) == old(Values(pools[fleetName]))[name := v];
      forall g | g != fleetName ensures Fleet(g) == old(Fleet(g)) {
        if g in pools {
          assert Values(pools[g]) == old(Values(pools[g]));
        }
      }
    }

    /** Puts a fresh state object under a name not yet tracked. */
    method Add(fleetName: string, name: string, now: int)
      requires Valid() && fleetName in pools && name !in pools[fleetName]
      modifies this`pools, this`cells
      ensures Valid() && fresh(cells - old(cells))
      ensures Fleet(fleetName) ==
              old(Fleet(fleetName)).(servers := old(Fleet(fleetName)).servers[name := Server(false, true, now, 0)])
      ensures forall g | g != fleetName :: Fleet(g) == old(Fleet(g))
    {
      var s := new ServerPoolState(fleetName, name, now);
      pools := pools[fleetName := pools[fleetName][name := s]];
      cells := cells + {s};
      assert Values(pools[fleetName]) == old(Values(pools[fleetName]))[name := s.Value()];
      forall g | g != fleetName ensures Fleet(g) == old(Fleet(g)) {
        if g in pools {
          assert Values(pools[g]) == old(Values(pools[g]));
        }
      }
    }

    method UpdateFleetConfig(fleetName: string, config: Config)
      requires Valid()
      modifies this`configs
      ensures Valid()
      ensures Fleet(fleetName) == Step(old(Fleet(fleetName)), PoolModel.UpdateFleetConfig(config), 0)
      ensures forall g | g != fleetName :: Fleet(g) == old(Fleet(g))
    {
      configs := configs[fleetName := config];
    }

    method SetCursor(fleetName: string, cursor: nat)
      requires Valid()
      modifies this`roundRobinIdx
      ensures Fleet(fleetName) == old(Fleet(fleetName)).(cursor := cursor)
      ensures forall g | g != fleetName :: Fleet(g) == old(Fleet(g))
    {
      roundRobinIdx := roundRobinIdx[fleetName := cursor];
    }

    method EnsureFleetLocked(fleetName: string)
      requires Valid()
      modifies this`pools
      ensures Valid() && fleetName in pools
      ensures Fleet(fleetName) == old(Fleet(fleetName)).(created := true)
      ensures forall g | g != fleetName :: Fleet(g) == old(Fleet(g))
    {
      if fleetName !in pools {
        pools := pools[fleetName := map[]];
      }
    }

    method Register(fleetName: string, name: string, now: int)
      requires Valid()
      modifies this`pools, this`cells
      ensures Valid() && fresh(cells - old(cells))
      ensures Fleet(fleetName) == Step(old(Fleet(fleetName)), PoolModel.Register(name), now)
      ensures forall g | g != fleetName :: Fleet(g) == old(Fleet(g))
    {
      EnsureFleetLocked(fleetName);
      if name !in pools[fleetName] {
        Add(fleetName, name, now);
      }
    }

    method Release(fleetName: string, name: string, now: int)
      requires Valid()
      modifies cells
      ensures Fleet(fleetName) == Step(old(Fleet(fleetName)), PoolModel.Release(name), now)
      ensures forall g | g != fleetName :: Fleet(g) == old(Fleet(g))
    {
      if fleetName in pools && name in pools[fleetName] {
        Write(fleetName, name, pools[fleetName][name].Value().(inUse := false, lastUsedAt := now));
      }
    }

    method MarkAllocated(fleetName: string, name: string, now: int)
      requires Valid()
      modifies this`pools, cells
      ensures Valid()
      ensures Fleet(fleetName) == Step(old(Fleet(fleetName)), PoolModel.MarkAllocated(name), now)
      ensures forall g | g != fleetName :: Fleet(g) == old(Fleet(g))
    {
      EnsureFleetLocked(fleetName);
      if name in pools[fleetName] {
        Write(fleetName, name, Used(pools[fleetName][name].Value(), now));
      }
    }

    method MarkAvailable(fleetName: string, name: string, now: int)
      requires Valid()
      modifies this`pools, cells
      ensures Valid()
      ensures Fleet(fleetName) == Step(old(Fleet(fleetName)), PoolModel.MarkAvailable(name), now)
      ensures forall g | g != fleetName :: Fleet(g) == old(Fleet(g))
    {
      EnsureFleetLocked(fleetName);
      if name in pools[fleetName] {
        Write(fleetName, name, pools[fleetName][name].Value().(inUse := false, healthy := true, lastUsedAt := now));
      }
    }

    method MarkUnhealthy(fleetName: string, name: string)
      requires Valid()
      modifies this`pools, cells
      ensures Valid()
      ensures Fleet(fleetName) == Step(old(Fleet(fleetName)), PoolModel.MarkUnhealthy(name), 0)
      ensures forall g | g != fleetName :: Fleet(g) == old(Fleet(g))
    {
      EnsureFleetLocked(fleetName);
      if name in pools[fleetName] {
        Write(fleetName, name, pools[fleetName][name].Value().(healthy := false));
      }
    }

    method Remove(fleetName: string, name: string)
      requires Valid()
      modifies this`pools
      ensures Valid()
      ensures Fleet(fleetName) == Step(old(Fleet(fleetName)), PoolModel.Remove(name), 0)
      ensures forall g | g != fleetName :: Fleet(g) == old(Fleet(g))
    {
      if fleetName in pools {
        pools := pools[fleetName := pools[fleetName] - {name}];
      }
    }

    method CollectCandidatesLocked(fleetName: string) returns (candidates: seq<GameServerInfo>)
      requires Valid()
      ensures Distinct(candidates)
      ensures Elements(candidates) == Infos(Fleet(fleetName).servers, IdleNames(Fleet(fleetName).servers))
    {
      if fleetName !in pools {
        return [];
      }
      candidates := CollectIdle(pools[fleetName]);
    }

    /** The common tail of Allocate and AllocateWithFilter. */
    method GrantLocked(fleetName: string, strategy: Strategy, candidates: seq<GameServerInfo>,
                       ghost fp: FleetPool, ghost permitted: map<string, bool>, now: int)
      returns (reply: Reply)
      requires Valid() && fleetName in pools && fp == Fleet(fleetName) && Distinct(candidates)
      requires Elements(candidates) == Infos(fp.servers, Eligible(fp.servers, permitted))
      modifies this`roundRobinIdx, cells
      ensures Fleet(fleetName) == GrantStep(fp, strategy, permitted, now)
      ensures reply == ReplyTo(fp, PoolModel.AllocateWithFilter(strategy, permitted))
      ensures forall g | g != fleetName :: Fleet(g) == old(Fleet(g))
    {
      hide GrantStep, ReplyTo;
      if |candidates| == 0 {
        EmptyCandidates(candidates, fp.servers, Eligible(fp.servers, permitted));
        NothingToGrant(fp, strategy, permitted, now);
        return NoServer;
      }
      var cursor := if fleetName in roundRobinIdx then roundRobinIdx[fleetName] else 0;
      var chosen := SelectCandidate(candidates, strategy, cursor, fp.servers, Eligible(fp.servers, permitted));
      var next := if strategy == RoundRobin then cursor % |candidates| + 1 else cursor;
      GrantStepIs(fp, strategy, permitted, now, chosen);
      MarkGranted(fleetName, chosen, strategy == RoundRobin, next, now);
      reply := Granted(chosen);
    }

    /** The writes of a successful grant. */
    method MarkGranted(fleetName: string, chosen: string, moveCursor: bool, next: nat, now: int)
      requires Valid() && fleetName in pools && chosen in pools[fleetName]
      requires !moveCursor ==> next == Fleet(fleetName).cursor
      modifies this`roundRobinIdx, cells
      ensures var fp := old(Fleet(fleetName));
              Fleet(fleetName) ==
              FleetPool(fp.created, fp.servers[chosen := Used(fp.servers[chosen], now)], fp.config, next)
      ensures forall g | g != fleetName :: Fleet(g) == old(Fleet(g))
    {
      if moveCursor {
        SetCursor(fleetName, next);
      }
      Write(fleetName, chosen, Used(pools[fleetName][chosen].Value(), now));
    }

    method Allocate(fleetName: string, strategy: Strategy, now: int) returns (reply: Reply)
      requires Valid()
      modifies this`roundRobinIdx, cells
      ensures Fleet(fleetName) == Step(old(Fleet(fleetName)), PoolModel.Allocate(strategy), now)
      ensures reply == ReplyTo(old(Fleet(fleetName)), PoolModel.Allocate(strategy))
      ensures forall g | g != fleetName :: Fleet(g) == old(Fleet(g))
    {
      if fleetName !in pools {
        return NoPool;
      }
      var candidates := CollectCandidatesLocked(fleetName);
      assert Eligible(Fleet(fleetName).servers, map[]) == IdleNames(Fleet(fleetName).servers);
      reply := GrantLocked(fleetName, strategy, candidates, Fleet(fleetName), map[], now);
    }

    method AllocateWithFilter(fleetName: string, strategy: Strategy, permitted: map<string, bool>, now: int)
      returns (reply: Reply)
      requires Valid()
      modifies this`roundRobinIdx, cells
      ensures Fleet(fleetName) == Step(old(Fleet(fleetName)), PoolModel.AllocateWithFilter(strategy, permitted), now)
      ensures reply == ReplyTo(old(Fleet(fleetName)), PoolModel.AllocateWithFilter(strategy, permitted))
      ensures forall g | g != fleetName :: Fleet(g) == old(Fleet(g))
    {
      if fleetName !in pools {
        return NoPool;
      }
      var candidates := CollectCandidatesLocked(fleetName);
      candidates := FilterPermitted(candidates, permitted, Fleet(fleetName).servers);
      reply := GrantLocked(fleetName, strategy, candidates, Fleet(fleetName), permitted, now);
    }

    method Stats(fleetName: string) returns (stats: PoolStats)
      requires Valid()
      ensures stats == StatsOf(Fleet(fleetName).servers)
    {
      if fleetName !in pools {
        return PoolStats(0, 0, 0, 0, 0);
      }
      stats := CountPool(pools[fleetName]);
    }

    method IdleServers(fleetName: string, now: int) returns (idle: seq<string>)
      requires Valid()
      ensures idle == PoolModel.IdleServers(Fleet(fleetName), now)
    {
      var config := if fleetName in configs then configs[fleetName] else Config(0, 0);
      if fleetName !in pools || config.idleTimeout <= 0 {
        return [];
      }
      var candidates := CollectExpired(pools[fleetName], config.idleTimeout, now);
      idle := DrainOrder(candidates);
    }

    method NeedsRefill(fleetName: string) returns (needed: bool)
      requires Valid()
      ensures needed <==> PoolModel.RefillCount(Fleet(fleetName)) > 0
    {
      var stats := Stats(fleetName);
      var config := if fleetName in configs then configs[fleetName] else Config(0, 0);
      needed := stats.bufferAvailable < config.bufferSize;
    }

    method RefillCount(fleetName: string) returns (count: int)
      requires Valid()
      ensures count == PoolModel.RefillCount(Fleet(fleetName))
    {
      var stats := Stats(fleetName);
      var config := if fleetName in configs then configs[fleetName] else Config(0, 0);
      var needed := config.bufferSize - stats.bufferAvailable;
      count := if needed < 0 then 0 else needed;
    }
  }
}

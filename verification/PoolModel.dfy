/** The state of one fleet's pool as a value, and what each PoolManager call does to it. */
module PoolModel {
  import opened Common
  import opened Scheduler

  datatype Config = Config(bufferSize: int, idleTimeout: int)

  datatype Server = Server(inUse: bool, healthy: bool, lastUsedAt: int, allocationCount: int)
  {
    predicate Idle() {
      !inUse && healthy
    }
  }

  type Servers = map<string, Server>

  /** created: the fleet has an entry (possibly empty) in the outer map of pools. */
  datatype FleetPool = FleetPool(created: bool, servers: Servers, config: Config, cursor: nat)

  const EMPTY_FLEET := FleetPool(false, map[], Config(0, 0), 0)

  datatype PoolStats = PoolStats(total: int, healthy: int, unhealthy: int, inUse: int, bufferAvailable: int)

  datatype Call =
    | UpdateFleetConfig(config: Config)
    | Register(name: string)
    | AllocateWithFilter(strategy: Strategy, permitted: map<string, bool>)
    | Release(name: string)
    | MarkAllocated(name: string)
    | MarkAvailable(name: string)
    | MarkUnhealthy(name: string)
    | Remove(name: string)

  datatype Reply = Done | Granted(name: string) | NoPool | NoServer

  /** Allocate is AllocateWithFilter without a filter. */
  function Allocate(strategy: Strategy): Call {
    AllocateWithFilter(strategy, map[])
  }

  /** A filter without entries lets every server through. */
  predicate Permits(permitted: map<string, bool>, name: string) {
    |permitted| == 0 || (name in permitted && permitted[name])
  }

  ghost function IdleNames(m: Servers): set<string> {
    set n | n in m && m[n].Idle()
  }

  ghost function Eligible(m: Servers, permitted: map<string, bool>): set<string> {
    set n | n in IdleNames(m) && Permits(permitted, n)
  }

  function InfoOf(name: string, s: Server): GameServerInfo {
    GameServerInfo(name, s.allocationCount, 0, false)
  }

  ghost function Infos(m: Servers, names: set<string>): set<GameServerInfo>
    requires names <= m.Keys
    ensures DistinctNames(Infos(m, names))
  {
    set n | n in names :: InfoOf(n, m[n])
  }

  lemma {:induction false} InfosSize(m: Servers, names: set<string>)
    requires names <= m.Keys
    ensures |Infos(m, names)| == |names|
  {
    if names == {} {
      assert Infos(m, names) == {};
    } else {
      var n :| n in names;
      InfosSize(m, names - {n});
      assert Infos(m, names) == Infos(m, names - {n}) + {InfoOf(n, m[n])};
      assert InfoOf(n, m[n]) !in Infos(m, names - {n});
    }
  }

  /** The candidates of a grant, in the order the strategy looks at them. */
  ghost function Line(m: Servers, rank: Rank, names: set<string>): (r: seq<GameServerInfo>)
    requires names <= m.Keys
    ensures |r| == |names|
    ensures forall i | 0 <= i < |r| :: r[i].name in names && r[i] == InfoOf(r[i].name, m[r[i].name])
  {
    InfosSize(m, names);
    RankedSize(rank, Infos(m, names));
    var r := Ranked(rank, Infos(m, names));
    assert forall i | 0 <= i < |r| :: r[i] in Elements(r);
    r
  }

  /** The pick among the given names: the cursor's turn in name order for round-robin,
      otherwise the first in the strategy's order. */
  ghost function Pick(m: Servers, strategy: Strategy, names: set<string>, cursor: nat): (n: string)
    requires names <= m.Keys && names != {}
    ensures n in names
  {
    if strategy.RoundRobin? then Line(m, ByName, names)[cursor % |names|].name
    else Line(m, RankOf(strategy), names)[0].name
  }

  ghost function Chosen(fp: FleetPool, strategy: Strategy, permitted: map<string, bool>): (n: string)
    requires Eligible(fp.servers, permitted) != {}
    ensures n in Eligible(fp.servers, permitted)
  {
    Pick(fp.servers, strategy, Eligible(fp.servers, permitted), fp.cursor)
  }

  function Used(s: Server, now: int): Server {
    s.(inUse := true, lastUsedAt := now, allocationCount := s.allocationCount + 1)
  }

  ghost function GrantStep(fp: FleetPool, strategy: Strategy, permitted: map<string, bool>, now: int): FleetPool {
    var names := Eligible(fp.servers, permitted);
    if names == {} then fp
    else
      var n := Chosen(fp, strategy, permitted);
      fp.(servers := fp.servers[n := Used(fp.servers[n], now)],
          cursor := if strategy.RoundRobin? then fp.cursor % |names| + 1 else fp.cursor)
  }

  lemma NothingToGrant(fp: FleetPool, strategy: Strategy, permitted: map<string, bool>, now: int)
    requires Eligible(fp.servers, permitted) == {}
    ensures GrantStep(fp, strategy, permitted, now) == fp
    ensures fp.created ==> ReplyTo(fp, AllocateWithFilter(strategy, permitted)) == NoServer
  {
  }

  lemma GrantStepIs(fp: FleetPool, strategy: Strategy, permitted: map<string, bool>, now: int, chosen: string)
    requires Eligible(fp.servers, permitted) != {} && chosen == Chosen(fp, strategy, permitted)
    ensures GrantStep(fp, strategy, permitted, now) ==
            FleetPool(fp.created, fp.servers[chosen := Used(fp.servers[chosen], now)], fp.config,
                      if strategy.RoundRobin? then fp.cursor % |Eligible(fp.servers, permitted)| + 1 else fp.cursor)
    ensures fp.created ==> ReplyTo(fp, AllocateWithFilter(strategy, permitted)) == Granted(chosen)
  {
  }

  /** The pool of a fleet after a call at time now. */
  ghost function Step(fp: FleetPool, c: Call, now: int): FleetPool {
    var m := fp.servers;
    match c
    case UpdateFleetConfig(config) => fp.(config := config)
    case Register(n) =>
      fp.(created := true, servers := if n in m then m else m[n := Server(false, true, now, 0)])
    case AllocateWithFilter(strategy, permitted) => GrantStep(fp, strategy, permitted, now)
    case Release(n) =>
      if n in m then fp.(servers := m[n := m[n].(inUse := false, lastUsedAt := now)]) else fp
    case MarkAllocated(n) =>
      fp.(created := true, servers := if n in m then m[n := Used(m[n], now)] else m)
    case MarkAvailable(n) =>
      fp.(created := true,
          servers := if n in m then m[n := m[n].(inUse := false, healthy := true, lastUsedAt := now)] else m)
    case MarkUnhealthy(n) =>
      fp.(created := true, servers := if n in m then m[n := m[n].(healthy := false)] else m)
    case Remove(n) => fp.(servers := m - {n})
  }

  /** What the call returns. */
  ghost function ReplyTo(fp: FleetPool, c: Call): Reply {
    if !c.AllocateWithFilter? then Done
    else if !fp.created then NoPool
    else if Eligible(fp.servers, c.permitted) == {} then NoServer
    else Granted(Chosen(fp, c.strategy, c.permitted))
  }

  /** The same servers with the same allocated and healthy flags. */
  ghost predicate SameFlags(m: Servers, k: Servers) {
    m.Keys == k.Keys && forall n | n in m :: m[n].inUse == k[n].inUse && m[n].healthy == k[n].healthy
  }

  ghost predicate WellFormed(fp: FleetPool) {
    !fp.created ==> fp.servers == map[]
  }

  predicate IsHealthy(s: Server) { s.healthy }
  predicate IsUnhealthy(s: Server) { !s.healthy }
  predicate IsServing(s: Server) { s.healthy && s.inUse }
  predicate IsIdle(s: Server) { s.Idle() }

  ghost function Where(m: Servers, p: Server -> bool): set<string> {
    set n | n in m && p(m[n])
  }

  ghost function StatsOf(m: Servers): PoolStats {
    PoolStats(|m|, |Where(m, IsHealthy)|, |Where(m, IsUnhealthy)|, |Where(m, IsServing)|, |Where(m, IsIdle)|)
  }

  lemma WhereAdd(m: Servers, name: string, s: Server, p: Server -> bool)
    requires name !in m
    ensures |Where(m[name := s], p)| == |Where(m, p)| + (if p(s) then 1 else 0)
  {
    assert Where(m[name := s], p) == if p(s) then Where(m, p) + {name} else Where(m, p);
  }

  function Tally(stats: PoolStats, s: Server): PoolStats {
    PoolStats(
      stats.total + 1,
      stats.healthy + (if s.healthy then 1 else 0),
      stats.unhealthy + (if s.healthy then 0 else 1),
      stats.inUse + (if s.healthy && s.inUse then 1 else 0),
      stats.bufferAvailable + (if s.Idle() then 1 else 0))
  }

  /** Tracking one more server moves exactly the counters its flags call for. */
  lemma StatsAdd(m: Servers, name: string, s: Server)
    requires name !in m
    ensures StatsOf(m[name := s]) == Tally(StatsOf(m), s)
  {
    WhereAdd(m, name, s, IsHealthy);
    WhereAdd(m, name, s, IsUnhealthy);
    WhereAdd(m, name, s, IsServing);
    WhereAdd(m, name, s, IsIdle);
  }

  /** Tallying the servers one by one, in whatever order. */
  ghost function Census(m: Servers): PoolStats
    decreases |m|
  {
    if m == map[] then PoolStats(0, 0, 0, 0, 0)
    else
      var n :| n in m;
      Tally(Census(m - {n}), m[n])
  }

  /** The one-pass tally is the count of each set. */
  lemma {:induction false} CensusIsStats(m: Servers)
    ensures Census(m) == StatsOf(m)
    decreases |m|
  {
    if m == map[] {
      assert Where(m, IsHealthy) == Where(m, IsUnhealthy) == Where(m, IsServing) == Where(m, IsIdle) == {};
    } else {
      var n :| n in m && Census(m) == Tally(Census(m - {n}), m[n]);
      CensusIsStats(m - {n});
      StatsAdd(m - {n}, n, m[n]);
      assert (m - {n})[n := m[n]] == m;
    }
  }

  lemma CensusAdd(m: Servers, name: string, s: Server)
    requires name !in m
    ensures Census(m[name := s]) == Tally(Census(m), s)
  {
    CensusIsStats(m);
    CensusIsStats(m[name := s]);
    StatsAdd(m, name, s);
  }

  ghost function LongIdle(m: Servers, idleTimeout: int, now: int): set<string> {
    set n | n in IdleNames(m) && now - m[n].lastUsedAt > idleTimeout
  }

  ghost function Expired(fp: FleetPool, now: int): set<string> {
    LongIdle(fp.servers, fp.config.idleTimeout, now)
  }

  ghost function NamesOf(s: seq<GameServerInfo>): (r: seq<string>)
    ensures |r| == |s| && forall i | 0 <= i < |s| :: r[i] == s[i].name
  {
    seq(|s|, i requires 0 <= i < |s| => s[i].name)
  }

  /** IdleServers: the servers idle for longer than the timeout, least used first. */
  ghost function IdleServers(fp: FleetPool, now: int): seq<string> {
    if fp.config.idleTimeout <= 0 then []
    else NamesOf(Line(fp.servers, ByLoad, Expired(fp, now)))
  }

  /** How many servers the buffer is short of. */
  ghost function RefillCount(fp: FleetPool): int {
    Max(0, fp.config.bufferSize - StatsOf(fp.servers).bufferAvailable)
  }
}

/** What holds over every history of calls on a fleet's pool: exclusive grants, exhaustion,
    round-robin fairness, load balance, and independence of other fleets. */
module PoolHistories {
  import opened Common
  import opened Scheduler
  import opened PoolModel
  import PoolManagement

  datatype Event = Event(call: Call, now: int)

  /** The pool after a history of calls. */
  ghost function Run(fp: FleetPool, h: seq<Event>): FleetPool {
    if h == [] then fp
    else
      var last := h[|h| - 1];
      Step(Run(fp, h[..|h| - 1]), last.call, last.now)
  }

  /** The reply to the k-th call of a history. */
  ghost function ReplyAt(fp: FleetPool, h: seq<Event>, k: nat): Reply
    requires k < |h|
  {
    ReplyTo(Run(fp, h[..k]), h[k].call)
  }

  lemma RunStep(fp: FleetPool, h: seq<Event>, k: nat)
    requires k < |h|
    ensures Run(fp, h[..k + 1]) == Step(Run(fp, h[..k]), h[k].call, h[k].now)
  {
    assert h[..k + 1][..k] == h[..k];
  }

  // ---------------------------------------------------------------- exclusive grants

  /** The calls that make an allocated server grantable again. */
  predicate Frees(c: Call, s: string) {
    c == Release(s) || c == MarkAvailable(s) || c == Remove(s)
  }

  /** The calls that undo MarkUnhealthy. */
  predicate Revives(c: Call, s: string) {
    c == MarkAvailable(s) || c == Remove(s)
  }

  lemma StepKeepsAllocated(fp: FleetPool, c: Call, now: int, s: string)
    requires s in fp.servers && fp.servers[s].inUse && !Frees(c, s)
    ensures s in Step(fp, c, now).servers && Step(fp, c, now).servers[s].inUse
  {
  }

  /** Unless it is freed or registered anew, a server stays in use wherever it is tracked at all. */
  lemma StepKeepsClaim(fp: FleetPool, c: Call, now: int, n: string)
    requires n in fp.servers ==> fp.servers[n].inUse
    requires !Frees(c, n) && (c == Register(n) ==> n in fp.servers)
    ensures n in Step(fp, c, now).servers ==> Step(fp, c, now).servers[n].inUse
  {
    hide GrantStep;
    if n in fp.servers {
      StepKeepsAllocated(fp, c, now, n);
    } else if c.AllocateWithFilter? {
      GrantsTrackNothing(fp, c, now);
    }
  }

  lemma GrantsTrackNothing(fp: FleetPool, c: Call, now: int)
    requires c.AllocateWithFilter?
    ensures Step(fp, c, now).servers.Keys == fp.servers.Keys
  {
  }

  lemma StepKeepsUnhealthy(fp: FleetPool, c: Call, now: int, s: string)
    requires s in fp.servers && !fp.servers[s].healthy && !Revives(c, s)
    ensures s in Step(fp, c, now).servers && !Step(fp, c, now).servers[s].healthy
  {
  }

  lemma {:induction false} StaysAllocated(fp: FleetPool, h: seq<Event>, s: string, i: nat, j: nat)
    requires i <= j <= |h|
    requires s in Run(fp, h[..i]).servers && Run(fp, h[..i]).servers[s].inUse
    requires forall k | i <= k < j :: !Frees(h[k].call, s)
    ensures s in Run(fp, h[..j]).servers && Run(fp, h[..j]).servers[s].inUse
    decreases j
  {
    if i < j {
      StaysAllocated(fp, h, s, i, j - 1);
      StepKeepsAllocated(Run(fp, h[..j - 1]), h[j - 1].call, h[j - 1].now, s);
      RunStep(fp, h, j - 1);
    }
  }

  lemma {:induction false} StaysUnhealthy(fp: FleetPool, h: seq<Event>, s: string, i: nat, j: nat)
    requires i <= j <= |h|
    requires s in Run(fp, h[..i]).servers && !Run(fp, h[..i]).servers[s].healthy
    requires forall k | i <= k < j :: !Revives(h[k].call, s)
    ensures s in Run(fp, h[..j]).servers && !Run(fp, h[..j]).servers[s].healthy
    decreases j
  {
    if i < j {
      StaysUnhealthy(fp, h, s, i, j - 1);
      StepKeepsUnhealthy(Run(fp, h[..j - 1]), h[j - 1].call, h[j - 1].now, s);
      RunStep(fp, h, j - 1);
    }
  }

  /** Two grants of one server are separated by a call that freed it. */
  lemma ExclusiveGrants(fp: FleetPool, h: seq<Event>, s: string, i: nat, j: nat)
    requires i < j < |h|
    requires ReplyAt(fp, h, i) == ReplyAt(fp, h, j) == Granted(s)
    ensures exists k :: i < k < j && Frees(h[k].call, s)
  {
    if forall k | i + 1 <= k < j :: !Frees(h[k].call, s) {
      RunStep(fp, h, i);
      StaysAllocated(fp, h, s, i + 1, j);
      assert false;
    }
  }

  /** After a registered server is marked unhealthy, only MarkAvailable or Remove
      can make it grantable again. */
  lemma NoGrantWhileUnhealthy(fp: FleetPool, h: seq<Event>, s: string, i: nat, j: nat)
    requires i < j < |h|
    requires h[i].call == MarkUnhealthy(s) && s in Run(fp, h[..i]).servers
    requires ReplyAt(fp, h, j) == Granted(s)
    ensures exists k :: i < k < j && Revives(h[k].call, s)
  {
    if forall k | i + 1 <= k < j :: !Revives(h[k].call, s) {
      RunStep(fp, h, i);
      StaysUnhealthy(fp, h, s, i + 1, j);
      assert false;
    }
  }

  // ---------------------------------------------------------------- which server is granted

  /** Candidates come before one another by the strategy's key, then by name. */
  ghost predicate IsUniqueMinimum(m: Servers, rank: Rank, names: set<string>, n: string)
    requires names <= m.Keys
  {
    n in names && forall k | k in names && k != n :: Before(rank, InfoOf(n, m[n]), InfoOf(k, m[k]))
  }

  lemma FirstIsMinimum(m: Servers, rank: Rank, names: set<string>, n: string)
    requires names <= m.Keys && names != {}
    ensures Line(m, rank, names)[0].name == n <==> IsUniqueMinimum(m, rank, names, n)
  {
    var line := Line(m, rank, names);
    var first := line[0].name;
    forall k | k in names && k != first ensures Before(rank, InfoOf(first, m[first]), InfoOf(k, m[k])) {
      assert InfoOf(k, m[k]) in Elements(line);
      var i :| 0 <= i < |line| && line[i] == InfoOf(k, m[k]);
      assert Before(rank, line[0], line[i]);
    }
    if IsUniqueMinimum(m, rank, names, n) && n != first {
      BeforeAsymmetric(rank, InfoOf(n, m[n]), InfoOf(first, m[first]));
    }
  }

  /** Except for round-robin, the granted server is the one healthy, free and permitted server that
      comes before all the others; no enumeration order has a say in it. */
  lemma GrantIsUniqueMinimum(fp: FleetPool, strategy: Strategy, permitted: map<string, bool>, n: string)
    requires fp.created && strategy != RoundRobin
    ensures ReplyTo(fp, AllocateWithFilter(strategy, permitted)) == Granted(n) <==>
            IsUniqueMinimum(fp.servers, RankOf(strategy), Eligible(fp.servers, permitted), n)
  {
    hide Line;
    if Eligible(fp.servers, permitted) != {} {
      FirstIsMinimum(fp.servers, RankOf(strategy), Eligible(fp.servers, permitted), n);
    }
  }

  /** The lowest-latency strategy never sees a latency: it grants the alphabetically first server. */
  lemma LowestLatencyIsAlphabetical(fp: FleetPool, permitted: map<string, bool>, n: string)
    requires fp.created
    ensures ReplyTo(fp, AllocateWithFilter(LowestLatency, permitted)) == Granted(n) <==>
            n in Eligible(fp.servers, permitted) &&
            forall k | k in Eligible(fp.servers, permitted) && k != n :: NameLess(n, k)
  {
    hide ReplyTo, Eligible, NameLess;
    GrantIsUniqueMinimum(fp, LowestLatency, permitted, n);
  }

  /** Fewest players (and any unknown strategy) takes the least used eligible server, strict bin
      packing the most used one; names break ties. */
  lemma GrantByUse(fp: FleetPool, strategy: Strategy, permitted: map<string, bool>, n: string)
    requires fp.created && strategy != RoundRobin && strategy != LowestLatency
    ensures ReplyTo(fp, AllocateWithFilter(strategy, permitted)) == Granted(n) <==>
            n in Eligible(fp.servers, permitted) &&
            forall k | k in Eligible(fp.servers, permitted) && k != n ::
              var x, y := fp.servers[n].allocationCount, fp.servers[k].allocationCount;
              if x == y then NameLess(n, k) else if strategy == StrictBinPack then x > y else x < y
  {
    hide ReplyTo, NameLess;
    GrantIsUniqueMinimum(fp, strategy, permitted, n);
  }

  /** What a strategy asks for among the eligible servers. */
  ghost predicate Preferred(fp: FleetPool, strategy: Strategy, names: set<string>, n: string)
    requires names <= fp.servers.Keys
  {
    n in names && |names| > 0 &&
    match strategy
    case LowestLatency => forall k | k in names && k != n :: NameLess(n, k)
    case RoundRobin => n == SortedNames(names)[fp.cursor % |names|]
    case StrictBinPack =>
      forall k | k in names && k != n ::
        var x, y := fp.servers[n].allocationCount, fp.servers[k].allocationCount;
        x > y || (x == y && NameLess(n, k))
    case _ =>
      forall k | k in names && k != n ::
        var x, y := fp.servers[n].allocationCount, fp.servers[k].allocationCount;
        x < y || (x == y && NameLess(n, k))
  }

  /** Every strategy gets what it asks for: a server is granted if and only if it is the preferred one. */
  lemma GrantIsPreferred(fp: FleetPool, strategy: Strategy, permitted: map<string, bool>, n: string)
    requires fp.created
    ensures ReplyTo(fp, AllocateWithFilter(strategy, permitted)) == Granted(n) <==>
            Preferred(fp, strategy, Eligible(fp.servers, permitted), n)
  {
    hide Eligible, NameLess, Line, SortedNames, Pick;
    var names := Eligible(fp.servers, permitted);
    if strategy == RoundRobin {
      hide ReplyTo;
      if names != {} {
        SortedNamesAreSorted(names);
        RoundRobinGrant(fp, AllocateWithFilter(strategy, permitted), 0, names);
        assert SortedNames(names)[fp.cursor % |names|] in Elements(SortedNames(names));
      } else {
        NothingToGrant(fp, strategy, permitted, 0);
      }
    } else if strategy == LowestLatency {
      hide ReplyTo;
      LowestLatencyIsAlphabetical(fp, permitted, n);
    } else {
      hide ReplyTo;
      GrantByUse(fp, strategy, permitted, n);
    }
  }

  /** Which servers a grant may take, and what it says when there is none. */
  lemma EligibleIff(fp: FleetPool, strategy: Strategy, permitted: map<string, bool>, n: string)
    ensures n in Eligible(fp.servers, permitted) <==>
            && n in fp.servers && fp.servers[n].healthy && !fp.servers[n].inUse
            && (permitted == map[] || (n in permitted && permitted[n]))
    ensures ReplyTo(fp, AllocateWithFilter(strategy, permitted)) == NoPool <==> !fp.created
    ensures ReplyTo(fp, AllocateWithFilter(strategy, permitted)) == NoServer <==>
            fp.created && forall k :: k !in Eligible(fp.servers, permitted)
  {
  }

  /** The idle list in flags and clocks. */
  lemma IdleServersIff(fp: FleetPool, now: int, n: string)
    ensures n in PoolModel.IdleServers(fp, now) <==>
            && fp.config.idleTimeout > 0 && n in fp.servers && fp.servers[n].healthy && !fp.servers[n].inUse
            && now - fp.servers[n].lastUsedAt > fp.config.idleTimeout
  {
    if fp.config.idleTimeout > 0 {
      var idle := PoolModel.IdleServers(fp, now);
      IdleServersExact(fp, now, idle);
      assert n in idle <==> n in Elements(idle);
    }
  }

  /** IdleServers lists exactly the timed-out servers, each once, least used first; and no other
      sequence does. */
  lemma IdleServersExact(fp: FleetPool, now: int, other: seq<string>)
    requires fp.config.idleTimeout > 0
    ensures ListsInOrder(fp.servers, Expired(fp, now), other) <==> other == PoolModel.IdleServers(fp, now)
  {
    var m, names, idle := fp.servers, Expired(fp, now), PoolModel.IdleServers(fp, now);
    var line := Line(m, ByLoad, names);
    LineListsInOrder(m, names);
    if ListsInOrder(m, names, other) {
      forall i, j | 0 <= i < j < |other|
        ensures other[i] in names && other[j] in names
        ensures Before(ByLoad, InfoOf(other[i], m[other[i]]), InfoOf(other[j], m[other[j]]))
      {
        assert other[i] in Elements(other) && other[j] in Elements(other);
        assert ByUseThenName(m, other[i], other[j]);
      }
      InOrderIsLine(m, ByLoad, names, other);
    }
  }

  ghost predicate ListsInOrder(m: Servers, names: set<string>, list: seq<string>)
    requires names <= m.Keys
  {
    && Elements(list) == names
    && forall i, j | 0 <= i < j < |list| :: ByUseThenName(m, list[i], list[j])
  }

  predicate ByUseThenName(m: Servers, a: string, b: string) {
    a in m && b in m &&
    (m[a].allocationCount < m[b].allocationCount || (m[a].allocationCount == m[b].allocationCount && NameLess(a, b)))
  }

  lemma LineListsInOrder(m: Servers, names: set<string>)
    requires names <= m.Keys
    ensures ListsInOrder(m, names, NamesOf(Line(m, ByLoad, names)))
  {
    hide NameLess;
    var line := Line(m, ByLoad, names);
    var list := NamesOf(line);
    forall n | n in names ensures n in list {
      assert InfoOf(n, m[n]) in Elements(line);
      var i :| 0 <= i < |line| && line[i] == InfoOf(n, m[n]);
      assert list[i] == n;
    }
    forall i, j | 0 <= i < j < |list| ensures ByUseThenName(m, list[i], list[j]) {
      assert Before(ByLoad, line[i], line[j]);
    }
  }

  /** Whatever lists the names in the order of the rank is the line. */
  lemma InOrderIsLine(m: Servers, rank: Rank, names: set<string>, list: seq<string>)
    requires names <= m.Keys && Elements(list) == names
    requires forall i, j | 0 <= i < j < |list| ::
               list[i] in names && list[j] in names &&
               Before(rank, InfoOf(list[i], m[list[i]]), InfoOf(list[j], m[list[j]]))
    ensures list == NamesOf(Line(m, rank, names))
  {
    hide NameLess, Before;
    assert forall i | 0 <= i < |list| :: list[i] in Elements(list);
    var r := seq(|list|, i requires 0 <= i < |list| => InfoOf(list[i], m[list[i]]));
    forall x ensures x in r <==> x in Infos(m, names) {
      if x in Infos(m, names) {
        assert x.name in Elements(list);
        var i :| 0 <= i < |list| && list[i] == x.name;
        assert r[i] == x;
      }
    }
    RankedUnique(rank, r, Infos(m, names));
  }

  // ---------------------------------------------------------------- a server is its history

  /** The call takes s: a grant of it, or marking it allocated. */
  ghost predicate Takes(fp: FleetPool, c: Call, s: string) {
    ReplyTo(fp, c) == Granted(s) || c == MarkAllocated(s)
  }

  /** Tracked: the last call that registered or removed s registered it. */
  ghost predicate Known(fp: FleetPool, h: seq<Event>, s: string) {
    if h == [] then s in fp.servers
    else
      var c := h[|h| - 1].call;
      c == Register(s) || (c != Remove(s) && Known(fp, h[..|h| - 1], s))
  }

  /** The last call adds s to the pool. */
  ghost predicate Enters(fp: FleetPool, h: seq<Event>, s: string)
    requires h != []
  {
    h[|h| - 1].call == Register(s) && !Known(fp, h[..|h| - 1], s)
  }

  /** In use: since s was added, the last call that took or freed it took it. */
  ghost predicate TakenLast(fp: FleetPool, h: seq<Event>, s: string) {
    if h == [] then s in fp.servers && fp.servers[s].inUse
    else
      var front, c := h[..|h| - 1], h[|h| - 1].call;
      !Enters(fp, h, s) && (Takes(Run(fp, front), c, s) || (!Frees(c, s) && TakenLast(fp, front, s)))
  }

  /** Unhealthy: since s was added, the last call that marked it unhealthy or available marked it unhealthy. */
  ghost predicate SickLast(fp: FleetPool, h: seq<Event>, s: string) {
    if h == [] then s in fp.servers && !fp.servers[s].healthy
    else
      var c := h[|h| - 1].call;
      !Enters(fp, h, s) && (c == MarkUnhealthy(s) || (!Revives(c, s) && SickLast(fp, h[..|h| - 1], s)))
  }

  /** Idle clock: the time of the last call that added, took, released or made it available. */
  ghost function LastTouch(fp: FleetPool, h: seq<Event>, s: string): int {
    if h == [] then (if s in fp.servers then fp.servers[s].lastUsedAt else 0)
    else
      var front, last := h[..|h| - 1], h[|h| - 1];
      if Enters(fp, h, s) || Takes(Run(fp, front), last.call, s) || last.call == Release(s) || last.call == MarkAvailable(s)
      then last.now else LastTouch(fp, front, s)
  }

  /** Uses: how many calls took it since it was added. */
  ghost function Uses(fp: FleetPool, h: seq<Event>, s: string): int {
    if h == [] then (if s in fp.servers then fp.servers[s].allocationCount else 0)
    else
      var front, c := h[..|h| - 1], h[|h| - 1].call;
      if Enters(fp, h, s) then 0
      else Uses(fp, front, s) + if Takes(Run(fp, front), c, s) then 1 else 0
  }

  lemma StepOnServer(fp: FleetPool, c: Call, now: int, s: string)
    requires WellFormed(fp)
    ensures s in Step(fp, c, now).servers <==> c == Register(s) || (c != Remove(s) && s in fp.servers)
    ensures s in fp.servers && c != Remove(s) ==>
              var was, after := fp.servers[s], Step(fp, c, now).servers[s];
              var freed := c == Release(s) || c == MarkAvailable(s);
              && after.inUse == (Takes(fp, c, s) || (!freed && was.inUse))
              && after.healthy == (c == MarkAvailable(s) || (c != MarkUnhealthy(s) && was.healthy))
              && after.lastUsedAt == (if Takes(fp, c, s) || freed then now else was.lastUsedAt)
              && after.allocationCount == was.allocationCount + if Takes(fp, c, s) then 1 else 0
    ensures s !in fp.servers && c == Register(s) ==> Step(fp, c, now).servers[s] == Server(false, true, now, 0)
    ensures ReplyTo(fp, c) == Granted(s) ==> s in fp.servers
  {
    hide Chosen, Eligible;
    if c.AllocateWithFilter? {
      GrantOnServer(fp, c, now, s);
    }
  }

  lemma GrantOnServer(fp: FleetPool, c: Call, now: int, s: string)
    requires c.AllocateWithFilter?
    ensures Step(fp, c, now).servers.Keys == fp.servers.Keys
    ensures s in fp.servers ==>
              Step(fp, c, now).servers[s] ==
              if Eligible(fp.servers, c.permitted) != {} && s == Chosen(fp, c.strategy, c.permitted)
              then Server(true, fp.servers[s].healthy, now, fp.servers[s].allocationCount + 1) else fp.servers[s]
    ensures Eligible(fp.servers, c.permitted) != {} ==> Chosen(fp, c.strategy, c.permitted) in fp.servers
  {
  }

  /** Every field of every server is what the history of calls says, and nothing else. */
  lemma {:induction false} ServerIsHistory(fp: FleetPool, h: seq<Event>, s: string)
    requires WellFormed(fp)
    ensures WellFormed(Run(fp, h))
    ensures s in Run(fp, h).servers <==> Known(fp, h, s)
    ensures Known(fp, h, s) ==>
              Run(fp, h).servers[s] ==
              Server(TakenLast(fp, h, s), !SickLast(fp, h, s), LastTouch(fp, h, s), Uses(fp, h, s))
    decreases |h|
  {
    hide Step, ReplyTo;
    if h != [] {
      var front, last := h[..|h| - 1], h[|h| - 1];
      ServerIsHistory(fp, front, s);
      StepOnServer(Run(fp, front), last.call, last.now, s);
      StepKeepsWellFormed(Run(fp, front), last.call, last.now);
    }
  }

  lemma StepKeepsWellFormed(fp: FleetPool, c: Call, now: int)
    requires WellFormed(fp)
    ensures WellFormed(Step(fp, c, now))
  {
    hide Chosen;
  }

  /** The calls that make a fleet known. */
  predicate Creates(c: Call) {
    c.Register? || c.MarkAllocated? || c.MarkAvailable? || c.MarkUnhealthy?
  }

  ghost function LastConfig(fp: FleetPool, h: seq<Event>): Config {
    if h == [] then fp.config
    else if h[|h| - 1].call.UpdateFleetConfig? then h[|h| - 1].call.config
    else LastConfig(fp, h[..|h| - 1])
  }

  /** A fleet is known once one such call was made, and its configuration is the last one set. */
  lemma {:induction false} FleetIsHistory(fp: FleetPool, h: seq<Event>)
    ensures Run(fp, h).created <==> fp.created || exists k :: 0 <= k < |h| && Creates(h[k].call)
    ensures Run(fp, h).config == LastConfig(fp, h)
    decreases |h|
  {
    if h != [] {
      var front, last := h[..|h| - 1], h[|h| - 1];
      FleetIsHistory(fp, front);
      StepOnFleet(Run(fp, front), last.call, last.now);
      if Creates(last.call) {
        assert Creates(h[|h| - 1].call);
      }
      if k :| 0 <= k < |front| && Creates(front[k].call) {
        assert Creates(h[k].call);
      }
      if k :| 0 <= k < |h| && Creates(h[k].call) {
        assert k < |front| ==> Creates(front[k].call);
      }
    }
  }

  lemma StepOnFleet(fp: FleetPool, c: Call, now: int)
    ensures Step(fp, c, now).created <==> fp.created || Creates(c)
    ensures Step(fp, c, now).config == if c.UpdateFleetConfig? then c.config else fp.config
  {
    hide Chosen;
  }

  // ---------------------------------------------------------------- accounting

  /** The counters partition the pool. */
  lemma StatsPartition(m: Servers)
    ensures var st := StatsOf(m);
            st.healthy + st.unhealthy == st.total && st.inUse + st.bufferAvailable == st.healthy
  {
    assert Where(m, IsHealthy) + Where(m, IsUnhealthy) == m.Keys;
    assert Where(m, IsServing) + Where(m, IsIdle) == Where(m, IsHealthy);
    assert |Where(m, IsHealthy) + Where(m, IsUnhealthy)| == |Where(m, IsHealthy)| + |Where(m, IsUnhealthy)|;
    assert |Where(m, IsServing) + Where(m, IsIdle)| == |Where(m, IsServing)| + |Where(m, IsIdle)|;
  }

  /** The counters in flags. */
  lemma StatsInFlags(m: Servers)
    ensures StatsOf(m) ==
            PoolStats(|m|, |set n | n in m && m[n].healthy|, |set n | n in m && !m[n].healthy|,
                      |set n | n in m && m[n].healthy && m[n].inUse|, |set n | n in m && m[n].healthy && !m[n].inUse|)
  {
    assert Where(m, IsHealthy) == set n | n in m && m[n].healthy;
    assert Where(m, IsUnhealthy) == set n | n in m && !m[n].healthy;
    assert Where(m, IsServing) == set n | n in m && m[n].healthy && m[n].inUse;
    assert Where(m, IsIdle) == set n | n in m && m[n].healthy && !m[n].inUse;
  }

  ghost predicate OnlyGrants(h: seq<Event>, permitted: map<string, bool>) {
    forall k | 0 <= k < |h| :: h[k].call.AllocateWithFilter? && h[k].call.permitted == permitted
  }

  /** The names granted so far, in order. */
  ghost function GrantedNames(fp: FleetPool, h: seq<Event>): seq<string> {
    if h == [] then []
    else
      var reply := ReplyAt(fp, h, |h| - 1);
      GrantedNames(fp, h[..|h| - 1]) + if reply.Granted? then [reply.name] else []
  }

  /** A grant takes exactly the chosen server out of the eligible set. */
  lemma GrantTakesOne(fp: FleetPool, strategy: Strategy, permitted: map<string, bool>, now: int)
    requires Eligible(fp.servers, permitted) != {}
    ensures Eligible(GrantStep(fp, strategy, permitted, now).servers, permitted) ==
            Eligible(fp.servers, permitted) - {Chosen(fp, strategy, permitted)}
    ensures Chosen(fp, strategy, permitted) in Eligible(fp.servers, permitted)
    ensures GrantStep(fp, strategy, permitted, now).created == fp.created
    ensures fp.created ==>
              ReplyTo(fp, AllocateWithFilter(strategy, permitted)) == Granted(Chosen(fp, strategy, permitted))
  {
  }

  lemma TakeOne(all: set<string>, taken: seq<string>, n: string)
    requires Distinct(taken) && Elements(taken) <= all && n in all - Elements(taken)
    ensures Distinct(taken + [n]) && Elements(taken + [n]) == Elements(taken) + {n} <= all
    ensures all - Elements(taken) - {n} == all - Elements(taken + [n])
    ensures |taken| + 1 <= |all|
  {
    assert forall x :: x in taken + [n] <==> x in taken || x == n;
    assert n !in taken by { assert n !in Elements(taken); }
    DistinctSize(taken + [n]);
    SubsetSize(Elements(taken + [n]), all);
  }

  lemma {:induction false} GrantsConsume(fp: FleetPool, h: seq<Event>, permitted: map<string, bool>)
    requires fp.created && OnlyGrants(h, permitted)
    ensures Run(fp, h).created
    ensures Distinct(GrantedNames(fp, h))
    ensures Elements(GrantedNames(fp, h)) <= Eligible(fp.servers, permitted)
    ensures Eligible(Run(fp, h).servers, permitted) ==
            Eligible(fp.servers, permitted) - Elements(GrantedNames(fp, h))
    ensures |GrantedNames(fp, h)| == Min(|h|, |Eligible(fp.servers, permitted)|)
    decreases |h|
  {
    hide GrantStep, ReplyTo, Eligible;
    var all := Eligible(fp.servers, permitted);
    if h != [] {
      var front := h[..|h| - 1];
      GrantsConsume(fp, front, permitted);
      var before, taken := Run(fp, front), GrantedNames(fp, front);
      DistinctSize(taken);
      if Eligible(before.servers, permitted) == {} {
        EmptyDifference(all, Elements(taken));
        NothingToGrant(before, h[|h| - 1].call.strategy, permitted, h[|h| - 1].now);
        SubsetSize(all, Elements(taken));
      } else {
        var strategy := h[|h| - 1].call.strategy;
        GrantTakesOne(before, strategy, permitted, h[|h| - 1].now);
        TakeOne(all, taken, Chosen(before, strategy, permitted));
      }
    }
  }

  /** With b eligible servers, exactly the first b grants succeed, whatever mix of strategies asks,
      they are pairwise distinct, and together they hand out the whole buffer. */
  lemma Exhaustion(fp: FleetPool, h: seq<Event>, permitted: map<string, bool>)
    requires fp.created && OnlyGrants(h, permitted)
    ensures forall k | 0 <= k < |h| :: ReplyAt(fp, h, k).Granted? <==> k < |Eligible(fp.servers, permitted)|
    ensures Distinct(GrantedNames(fp, h))
    ensures |h| >= |Eligible(fp.servers, permitted)| ==>
              Elements(GrantedNames(fp, h)) == Eligible(fp.servers, permitted)
  {
    var all := Eligible(fp.servers, permitted);
    forall k | 0 <= k < |h| ensures ReplyAt(fp, h, k).Granted? <==> k < |all| {
      GrantsConsume(fp, h[..k], permitted);
      var taken := GrantedNames(fp, h[..k]);
      DistinctSize(taken);
      assert |Eligible(Run(fp, h[..k]).servers, permitted)| == |all| - |taken|;
    }
    GrantsConsume(fp, h, permitted);
    DistinctSize(GrantedNames(fp, h));
    if |h| >= |all| {
      SubsetSize(Elements(GrantedNames(fp, h)), all);
    }
  }

  /** Without a filter the eligible servers are the ones Stats reports as the available buffer. */
  lemma BufferIsEligible(m: Servers)
    ensures |Eligible(m, map[])| == StatsOf(m).bufferAvailable
  {
    assert Eligible(m, map[]) == Where(m, IsIdle);
  }

  /** Every call registers a name that is not tracked at that moment. */
  ghost predicate RegistersFresh(fp: FleetPool, h: seq<Event>) {
    forall k | 0 <= k < |h| :: h[k].call.Register? && h[k].call.name !in Run(fp, h[..k]).servers
  }

  lemma {:induction false} RegisteringFills(fp: FleetPool, h: seq<Event>)
    requires RegistersFresh(fp, h)
    ensures Run(fp, h).config == fp.config
    ensures StatsOf(Run(fp, h).servers).bufferAvailable == StatsOf(fp.servers).bufferAvailable + |h|
    decreases |h|
  {
    if h != [] {
      var front, last := h[..|h| - 1], h[|h| - 1];
      assert forall k | 0 <= k < |front| :: front[k] == h[k] && front[..k] == h[..k];
      RegisteringFills(fp, front);
      StatsAdd(Run(fp, front).servers, last.call.name, Server(false, true, last.now, 0));
    }
  }

  /** RefillCount is exact: registering that many fresh servers stops the need for a refill,
      registering fewer does not. */
  lemma RefillIsExact(fp: FleetPool, h: seq<Event>)
    requires RegistersFresh(fp, h)
    ensures RefillCount(Run(fp, h)) == 0 <==> |h| >= RefillCount(fp)
    ensures RefillCount(Run(fp, h)) ==
            Max(0, fp.config.bufferSize - StatsOf(fp.servers).bufferAvailable - |h|)
  {
    RegisteringFills(fp, h);
  }

  // ---------------------------------------------------------------- round-robin

  /** Names alone, in alphabetical order: what the round-robin cursor walks over. */
  ghost function SortedNames(names: set<string>): (r: seq<string>)
    ensures |r| == |names|
  {
    NamesOf(Line(map n | n in names :: Server(false, true, 0, 0), ByName, names))
  }

  /** SortedNames is what its name says. */
  lemma SortedNamesAreSorted(names: set<string>)
    ensures Elements(SortedNames(names)) == names && Distinct(SortedNames(names))
    ensures forall i, j | 0 <= i < j < |names| :: NameLess(SortedNames(names)[i], SortedNames(names)[j])
  {
    var m := map n | n in names :: Server(false, true, 0, 0);
    var line, sorted := Line(m, ByName, names), SortedNames(names);
    forall i, j | 0 <= i < j < |names|
      ensures NameLess(sorted[i], sorted[j]) && sorted[i] != sorted[j]
    {
      assert Before(ByName, line[i], line[j]);
      if NameLess(sorted[j], sorted[i]) || sorted[i] == sorted[j] {
        NameAsymmetric(sorted[i], sorted[j]);
      }
    }
    DistinctSize(sorted);
    assert Elements(sorted) <= names;
    SubsetSize(Elements(sorted), names);
  }

  /** In name order the line of candidates does not depend on their counters. */
  lemma LineByName(m: Servers, names: set<string>)
    requires names <= m.Keys
    ensures NamesOf(Line(m, ByName, names)) == SortedNames(names)
  {
    hide NameLess;
    var sorted := SortedNames(names);
    SortedNamesAreSorted(names);
    assert forall i | 0 <= i < |sorted| :: sorted[i] in Elements(sorted);
    InOrderIsLine(m, ByName, names, sorted);
  }

  ghost predicate IsRoundRobin(c: Call) {
    c.AllocateWithFilter? && c.strategy.RoundRobin?
  }

  /** At every round-robin grant of the history the grantable servers are the same set. */
  ghost predicate StableCandidates(fp: FleetPool, h: seq<Event>, names: set<string>) {
    h != [] ==>
      var front, last := h[..|h| - 1], h[|h| - 1];
      && StableCandidates(fp, front, names)
      && (IsRoundRobin(last.call) ==>
            Run(fp, front).created && Eligible(Run(fp, front).servers, last.call.permitted) == names)
  }

  /** A round-robin call grants the cursor's turn of the line and moves the cursor past it. */
  ghost predicate TakesTurn(fp: FleetPool, c: Call, now: int, line: seq<string>)
    requires line != []
  {
    && ReplyTo(fp, c) == Granted(line[fp.cursor % |line|])
    && Step(fp, c, now).cursor == fp.cursor % |line| + 1
  }

  /** Every round-robin call of the history takes its turn of the same line. */
  ghost predicate SameLine(fp: FleetPool, h: seq<Event>, line: seq<string>)
    requires line != []
  {
    h != [] ==>
      var front, last := h[..|h| - 1], h[|h| - 1];
      && SameLine(fp, front, line)
      && (IsRoundRobin(last.call) ==> TakesTurn(Run(fp, front), last.call, last.now, line))
  }

  /** The servers handed out by the round-robin grants of a history, in order. */
  ghost function Turns(fp: FleetPool, h: seq<Event>): seq<string> {
    if h == [] then []
    else
      var front, last := h[..|h| - 1], h[|h| - 1];
      var reply := ReplyAt(fp, h, |h| - 1);
      Turns(fp, front) + if IsRoundRobin(last.call) && reply.Granted? then [reply.name] else []
  }

  lemma NextTurn(a: nat, b: nat, n: nat)
    requires n > 0 && a % n == b % n
    ensures (a % n + 1) % n == (b + 1) % n
  {
    var q, r := b / n, b % n;
    assert b == n * q + r;
    if r + 1 < n {
      DivModUnique(b + 1, n, q, r + 1);
      DivModUnique(r + 1, n, 0, r + 1);
    } else {
      assert n * (q + 1) == n * q + n;
      DivModUnique(b + 1, n, q + 1, 0);
      DivModUnique(r + 1, n, 1, 0);
    }
  }

  lemma OtherCallsKeepCursor(fp: FleetPool, c: Call, now: int)
    requires !IsRoundRobin(c)
    ensures Step(fp, c, now).cursor == fp.cursor
  {
  }

  lemma RoundRobinGrant(fp: FleetPool, c: Call, now: int, names: set<string>)
    requires IsRoundRobin(c) && fp.created && Eligible(fp.servers, c.permitted) == names && names != {}
    ensures TakesTurn(fp, c, now, SortedNames(names))
  {
    hide SortedNames, Line;
    LineByName(fp.servers, names);
  }

  lemma {:induction false} StableIsSameLine(fp: FleetPool, h: seq<Event>, names: set<string>)
    requires names != {} && StableCandidates(fp, h, names)
    ensures SameLine(fp, h, SortedNames(names))
    decreases |h|
  {
    if h != [] {
      var front, last := h[..|h| - 1], h[|h| - 1];
      StableIsSameLine(fp, front, names);
      if IsRoundRobin(last.call) {
        RoundRobinGrant(Run(fp, front), last.call, last.now, names);
      }
    }
  }

  lemma TurnsStep(fp: FleetPool, h: seq<Event>, line: seq<string>)
    requires line != [] && SameLine(fp, h, line) && h != []
    ensures var front, last := h[..|h| - 1], h[|h| - 1];
            var before := Run(fp, front).cursor;
            && SameLine(fp, front, line)
            && if IsRoundRobin(last.call)
               then Turns(fp, h) == Turns(fp, front) + [line[before % |line|]] &&
                    Run(fp, h).cursor == before % |line| + 1
               else Turns(fp, h) == Turns(fp, front) && Run(fp, h).cursor == before
  {
    var front, last := h[..|h| - 1], h[|h| - 1];
    if !IsRoundRobin(last.call) {
      OtherCallsKeepCursor(Run(fp, front), last.call, last.now);
    }
  }

  /** The cursor after m round-robin grants over n candidates. */
  ghost function Walk(cursor: nat, n: nat, m: nat): nat
    requires n > 0
  {
    if m == 0 then cursor else Walk(cursor, n, m - 1) % n + 1
  }

  lemma {:induction false} WalkWraps(cursor: nat, n: nat, m: nat)
    requires n > 0
    ensures Walk(cursor, n, m) % n == (cursor + m) % n
  {
    if m > 0 {
      WalkWraps(cursor, n, m - 1);
      NextTurn(Walk(cursor, n, m - 1), cursor + (m - 1), n);
    }
  }

  lemma {:induction false} TurnsWalk(fp: FleetPool, h: seq<Event>, line: seq<string>)
    requires line != [] && SameLine(fp, h, line)
    ensures Run(fp, h).cursor == Walk(fp.cursor, |line|, |Turns(fp, h)|)
    ensures forall m | 0 <= m < |Turns(fp, h)| :: Turns(fp, h)[m] == line[Walk(fp.cursor, |line|, m) % |line|]
    decreases |h|
  {
    hide Step, ReplyTo, SameLine;
    if h != [] {
      TurnsStep(fp, h, line);
      TurnsWalk(fp, h[..|h| - 1], line);
    }
  }

  /** The m-th of the turns is the one at (cursor + m) mod n of the line. */
  ghost predicate CyclesThrough(turns: seq<string>, line: seq<string>, cursor: nat) {
    line != [] && forall m: nat | m < |turns| :: turns[m] == line[(cursor + m) % |line|]
  }

  lemma WalkCycles(turns: seq<string>, line: seq<string>, cursor: nat)
    requires line != []
    requires forall m | 0 <= m < |turns| :: turns[m] == line[Walk(cursor, |line|, m) % |line|]
    ensures CyclesThrough(turns, line, cursor)
  {
    forall m: nat | m < |turns| ensures turns[m] == line[(cursor + m) % |line|] {
      WalkWraps(cursor, |line|, m);
    }
  }

  /** While the candidates are stable, the m-th round-robin grant is the sorted candidate at
      (cursor + m) mod n, from any starting cursor and whatever other calls come in between. */
  lemma RoundRobinCycle(fp: FleetPool, h: seq<Event>, names: set<string>)
    requires names != {} && StableCandidates(fp, h, names)
    ensures CyclesThrough(Turns(fp, h), SortedNames(names), fp.cursor)
  {
    var line := SortedNames(names);
    StableIsSameLine(fp, h, names);
    TurnsWalk(fp, h, line);
    WalkCycles(Turns(fp, h), line, fp.cursor);
  }

  lemma DistinctTurns(x: nat, i: nat, j: nat, n: nat)
    requires i < j < i + n
    ensures (x + i) % n != (x + j) % n
  {
    var a, b := x + i, x + j;
    var k := b / n - a / n;
    assert a == n * (a / n) + a % n && b == n * (b / n) + b % n;
    assert n * k == n * (b / n) - n * (a / n);
    Multiple(n, k);
  }

  lemma WindowIsAll(turns: seq<string>, line: seq<string>, names: set<string>, cursor: nat, from: nat)
    requires CyclesThrough(turns, line, cursor)
    requires Distinct(line) && Elements(line) == names && |line| == |names| && from + |names| <= |turns|
    ensures Distinct(turns[from..from + |names|]) && Elements(turns[from..from + |names|]) == names
  {
    var n := |names|;
    var window := turns[from..from + n];
    forall i: nat | i < n ensures window[i] == line[(cursor + (from + i)) % n] && window[i] in Elements(line) {
      assert window[i] == turns[from + i];
    }
    forall i: nat, j: nat | i < j < n ensures window[i] != window[j] {
      DistinctTurns(cursor, from + i, from + j, n);
    }
    DistinctSize(window);
    SubsetSize(Elements(window), names);
  }

  /** Any n consecutive round-robin grants hit each of the n candidates exactly once. */
  lemma RoundRobinIsFair(fp: FleetPool, h: seq<Event>, names: set<string>, from: nat)
    requires names != {} && StableCandidates(fp, h, names)
    requires from + |names| <= |Turns(fp, h)|
    ensures Distinct(Turns(fp, h)[from..from + |names|])
    ensures Elements(Turns(fp, h)[from..from + |names|]) == names
  {
    RoundRobinCycle(fp, h, names);
    SortedNamesAreSorted(names);
    WindowIsAll(Turns(fp, h), SortedNames(names), names, fp.cursor, from);
  }

  // ---------------------------------------------------------------- least-used balancing

  /** A grant by least use: the strategies that rank by load, without a filter. */
  ghost predicate IsLeastUsedGrant(c: Call) {
    c.AllocateWithFilter? && |c.permitted| == 0 && !c.strategy.RoundRobin? && RankOf(c.strategy) == ByLoad
  }

  /** Rounds of a least-used grant followed by the release of what was granted. */
  ghost predicate GrantAndReturn(fp: FleetPool, h: seq<Event>, rounds: nat) {
    && |h| == 2 * rounds
    && forall r {:trigger h[2 * r]} | 0 <= r < rounds ::
         && IsLeastUsedGrant(h[2 * r].call)
         && ReplyAt(fp, h, 2 * r).Granted?
         && h[2 * r + 1].call == Release(ReplyAt(fp, h, 2 * r).name)
  }

  ghost predicate AllIdle(m: Servers) {
    forall n | n in m :: m[n].Idle()
  }

  /** No two servers' use counts differ by more than d. */
  ghost predicate SpreadWithin(m: Servers, d: int) {
    forall a, b | a in m && b in m :: m[a].allocationCount - m[b].allocationCount <= d
  }

  ghost function TotalUse(m: Servers): int
    decreases |m|
  {
    if m == map[] then 0
    else
      var n :| n in m;
      m[n].allocationCount + TotalUse(m - {n})
  }

  lemma {:induction false} TotalUseSplit(m: Servers, n: string)
    requires n in m
    ensures TotalUse(m) == m[n].allocationCount + TotalUse(m - {n})
    decreases |m|
  {
    var k :| k in m && TotalUse(m) == m[k].allocationCount + TotalUse(m - {k});
    if k != n {
      TotalUseSplit(m - {k}, n);
      TotalUseSplit(m - {n}, k);
      assert m - {k} - {n} == m - {n} - {k};
    }
  }

  /** One grant and its release: the least-used server's count goes up by one, nothing else counts. */
  lemma OneRound(fp: FleetPool, c: Call, t: int, u: int)
    requires fp.created && fp.servers != map[] && AllIdle(fp.servers)
    requires IsLeastUsedGrant(c)
    ensures ReplyTo(fp, c).Granted?
    ensures var n := ReplyTo(fp, c).name;
            var after := Step(Step(fp, c, t), Release(n), u);
            && n in fp.servers
            && (forall k | k in fp.servers :: fp.servers[n].allocationCount <= fp.servers[k].allocationCount)
            && after.created && after.servers.Keys == fp.servers.Keys && AllIdle(after.servers)
            && (forall k | k in fp.servers && k != n :: after.servers[k] == fp.servers[k])
            && after.servers[n].allocationCount == fp.servers[n].allocationCount + 1
  {
    assert c.permitted == map[];
    var m := fp.servers;
    var names := Eligible(m, c.permitted);
    assert names == m.Keys;
    var line := Line(m, ByLoad, names);
    var n := line[0].name;
    forall k | k in m ensures m[n].allocationCount <= m[k].allocationCount {
      assert InfoOf(k, m[k]) in Elements(line);
      var i :| 0 <= i < |line| && line[i] == InfoOf(k, m[k]);
      if i > 0 {
        assert Before(ByLoad, line[0], line[i]);
      }
    }
  }

  lemma RoundKeepsBalance(m: Servers, after: Servers, n: string, d: int)
    requires d >= 1 && SpreadWithin(m, d) && n in m && after.Keys == m.Keys
    requires forall k | k in m :: m[n].allocationCount <= m[k].allocationCount
    requires forall k | k in m && k != n :: after[k] == m[k]
    requires after[n].allocationCount == m[n].allocationCount + 1
    ensures SpreadWithin(after, d) && TotalUse(after) == TotalUse(m) + 1
  {
    hide TotalUse;
    TotalUseSplit(m, n);
    TotalUseSplit(after, n);
    assert m - {n} == after - {n};
  }

  lemma LastRound(fp: FleetPool, h: seq<Event>, rounds: nat)
    requires rounds > 0 && GrantAndReturn(fp, h, rounds)
    ensures var front, grant, back := h[..2 * rounds - 2], h[2 * rounds - 2], h[2 * rounds - 1];
            && GrantAndReturn(fp, front, rounds - 1)
            && IsLeastUsedGrant(grant.call)
            && ReplyTo(Run(fp, front), grant.call).Granted?
            && Run(fp, h) == Step(Step(Run(fp, front), grant.call, grant.now),
                                  Release(ReplyTo(Run(fp, front), grant.call).name), back.now)
  {
    hide Step, ReplyTo, Run;
    var k := 2 * rounds - 2;
    var front := h[..k];
    forall r | 0 <= r < rounds - 1
      ensures IsLeastUsedGrant(front[2 * r].call) && ReplyAt(fp, front, 2 * r).Granted?
      ensures front[2 * r + 1].call == Release(ReplyAt(fp, front, 2 * r).name)
    {
      assert front[2 * r] == h[2 * r] && front[..2 * r] == h[..2 * r];
      assert front[2 * r + 1] == h[2 * r + 1];
    }
    assert h[2 * (rounds - 1)] == h[k];
    RunStep(fp, h, k);
    RunStep(fp, h, k + 1);
    assert h[..k + 2] == h;
  }

  /** Least-used balancing: however many rounds are played, the spread of the use counts never
      grows beyond max(d, 1), and the total use grows by exactly one per round. */
  lemma {:induction false} LeastUsedBalances(fp: FleetPool, h: seq<Event>, rounds: nat, d: int)
    requires fp.created && fp.servers != map[] && AllIdle(fp.servers)
    requires SpreadWithin(fp.servers, d) && GrantAndReturn(fp, h, rounds)
    ensures Run(fp, h).created && Run(fp, h).servers.Keys == fp.servers.Keys && AllIdle(Run(fp, h).servers)
    ensures SpreadWithin(Run(fp, h).servers, Max(d, 1))
    ensures TotalUse(Run(fp, h).servers) == TotalUse(fp.servers) + rounds
    decreases rounds
  {
    hide Step, ReplyTo, TotalUse;
    if rounds > 0 {
      LastRound(fp, h, rounds);
      var front, grant, back := h[..2 * rounds - 2], h[2 * rounds - 2], h[2 * rounds - 1];
      LeastUsedBalances(fp, front, rounds - 1, d);
      var before := Run(fp, front);
      assert before.servers != map[] by { assert before.servers.Keys == fp.servers.Keys; }
      OneRound(before, grant.call, grant.now, back.now);
      RoundKeepsBalance(before.servers, Run(fp, h).servers, ReplyTo(before, grant.call).name, Max(d, 1));
    }
  }

  // ---------------------------------------------------------------- independent fleets

  /** A call on a named fleet. */
  datatype FleetEvent = FleetEvent(fleet: string, event: Event)

  /** The calls of an interleaved history that concern one fleet. */
  ghost function Only(h: seq<FleetEvent>, f: string): seq<Event> {
    if h == [] then []
    else
      var last := h[|h| - 1];
      Only(h[..|h| - 1], f) + if last.fleet == f then [last.event] else []
  }

  lemma OnlyStep(h: seq<FleetEvent>, k: nat, f: string)
    requires k < |h|
    ensures Only(h[..k + 1], f) == Only(h[..k], f) + if h[k].fleet == f then [h[k].event] else []
  {
    assert h[..k + 1][..k] == h[..k];
  }

  lemma RunAppend(fp: FleetPool, h: seq<Event>, e: Event)
    ensures Run(fp, h + [e]) == Step(Run(fp, h), e.call, e.now)
  {
    assert (h + [e])[..|h|] == h;
  }

  /** Performs one call on the manager. */
  method Perform(pm: PoolManagement.PoolManager, f: string, e: Event) returns (reply: Reply)
    requires pm.Valid()
    modifies pm, pm.cells
    ensures pm.Valid() && fresh(pm.cells - old(pm.cells))
    ensures pm.Fleet(f) == Step(old(pm.Fleet(f)), e.call, e.now)
    ensures reply == ReplyTo(old(pm.Fleet(f)), e.call)
    ensures forall g | g != f :: pm.Fleet(g) == old(pm.Fleet(g))
  {
    hide PoolManagement.PoolManager.Fleet, PoolManagement.PoolManager.Valid, GrantStep;
    reply := Done;
    match e.call {
      case UpdateFleetConfig(config) => pm.UpdateFleetConfig(f, config);
      case Register(n) => pm.Register(f, n, e.now);
      case AllocateWithFilter(strategy, permitted) =>
        reply := pm.AllocateWithFilter(f, strategy, permitted, e.now);
      case Release(n) => pm.Release(f, n, e.now);
      case MarkAllocated(n) => pm.MarkAllocated(f, n, e.now);
      case MarkAvailable(n) => pm.MarkAvailable(f, n, e.now);
      case MarkUnhealthy(n) => pm.MarkUnhealthy(f, n);
      case Remove(n) => pm.Remove(f, n);
    }
  }

  /** The replies of an interleaved history, each computed from its own fleet's calls alone. */
  ghost predicate RepliesInIsolation(before: string -> FleetPool, h: seq<FleetEvent>, replies: seq<Reply>) {
    && |replies| == |h|
    && forall k | 0 <= k < |h| ::
         replies[k] == ReplyTo(Run(before(h[k].fleet), Only(h[..k], h[k].fleet)), h[k].event.call)
  }

  lemma AppendReply(before: string -> FleetPool, h: seq<FleetEvent>, replies: seq<Reply>, k: nat, reply: Reply)
    requires k < |h| && RepliesInIsolation(before, h[..k], replies)
    requires reply == ReplyTo(Run(before(h[k].fleet), Only(h[..k], h[k].fleet)), h[k].event.call)
    ensures RepliesInIsolation(before, h[..k + 1], replies + [reply])
  {
    hide Only, Run, ReplyTo, Step;
    forall i | 0 <= i < k + 1
      ensures (replies + [reply])[i] ==
              ReplyTo(Run(before(h[i].fleet), Only(h[..k + 1][..i], h[i].fleet)), h[i].event.call)
    {
      assert h[..k + 1][..i] == h[..i];
      if i < k {
        assert h[..k][i] == h[i] && h[..k][..i] == h[..i];
      }
    }
  }

  lemma NothingCalled(before: string -> FleetPool)
    ensures RepliesInIsolation(before, [], [])
    ensures forall f :: Run(before(f), Only([], f)) == before(f)
  {
  }

  /** Fleet non-interference, on the manager's own heap: after any interleaving of calls on many
      fleets, every fleet's state and every reply are what that fleet's own calls alone produce. */
  method Interleave(pm: PoolManagement.PoolManager, ghost before: string -> FleetPool, h: seq<FleetEvent>)
    returns (replies: seq<Reply>)
    requires pm.Valid()
    requires forall f :: before(f) == pm.Fleet(f)
    modifies pm, pm.cells
    ensures pm.Valid()
    ensures forall f :: pm.Fleet(f) == Run(before(f), Only(h, f))
    ensures RepliesInIsolation(before, h, replies)
  {
    hide PoolManagement.PoolManager.Fleet, PoolManagement.PoolManager.Valid, Run, Only, ReplyTo, Step,
         RepliesInIsolation;
    replies := [];
    NothingCalled(before);
    assert h[..0] == [];
    for k := 0 to |h|
      invariant pm.Valid() && fresh(pm.cells - old(pm.cells))
      invariant RepliesInIsolation(before, h[..k], replies)
      invariant forall f :: pm.Fleet(f) == Run(before(f), Only(h[..k], f))
    {
      var f, e := h[k].fleet, h[k].event;
      var reply := Perform(pm, f, e);
      AppendReply(before, h, replies, k, reply);
      replies := replies + [reply];
      forall g ensures pm.Fleet(g) == Run(before(g), Only(h[..k + 1], g)) {
        OnlyStep(h, k, g);
        RunAppend(before(g), Only(h[..k], g), e);
        assert Only(h[..k], g) + [] == Only(h[..k], g);
      }
    }
    assert h[..|h|] == h;
  }
}

/** The scaling decision (pkg/controller/scaler.go). Replica counts are int32 and wrap;
    float64 products are exact reals here, and their conversion to int32 truncates. */
module Scaling {
  import opened Common

  datatype AuxType = AuxCPU | AuxMemory | AuxUnused

  datatype Aux = Aux(kind: AuxType, weight: real)

  /** The fields of an AutoscalerPolicy the controllers read. */
  datatype Policy = Policy(
    minReplicas: int, maxReplicas: int, bufferSize: int, targetValue: int, aux: seq<Aux>,
    nodeHealthEnabled: bool, minHealthyNodeRatio: real,
    idleTimeoutSeconds: int, scaleUpSeconds: int, scaleDownSeconds: int)

  predicate ValidPolicy(p: Policy) {
    IsInt32(p.minReplicas) && IsInt32(p.maxReplicas) && IsInt32(p.bufferSize) && IsInt32(p.targetValue)
  }

  datatype Metrics = Metrics(totalPlayers: int, averageCPU: real, averageMemoryMB: real)

  datatype Decision = ScaleUp | ScaleDown | Hold | Frozen

  datatype ScaleResult = ScaleResult(decision: Decision, current: int, desired: int, delta: int)

  /** What the node health provider answered; only the two counts matter here. */
  datatype NodeAnswer = NodeError | Nodes(healthy: nat, unhealthy: nat)

  function Truncate(x: real): int {
    if x >= 0.0 then x.Floor else -(-x).Floor
  }

  /** int32(x). Go leaves out-of-range conversions to the platform. */
  function ToInt32(x: real, platform: real -> int): (r: int)
    ensures IsInt32(r)
  {
    if IsInt32(Truncate(x)) then Truncate(x) else Wrap32(platform(x))
  }

  /** Integer division truncates toward zero. */
  function QuoTrunc(x: int, d: int): int
    requires d > 0
  {
    if x >= 0 then x / d else -((-x) / d)
  }

  function ServersForPlayers(target: int, players: int): int {
    if target > 0 && players > 0 then QuoTrunc(Wrap32(players + target - 1), target) else 0
  }

  function BufferTarget(p: Policy): int {
    if p.bufferSize < 1 then 1 else p.bufferSize
  }

  /** The product of a relative load, a server count and a weight. */
  function Product(load: real, servers: int, weight: real): real {
    load * servers as real * weight
  }

  lemma ZeroTruncates(platform: real -> int)
    ensures ToInt32(0.0, platform) == 0
  {
    assert 0.0.Floor == 0;
  }

  /** The real-valued pressure of one auxiliary metric. */
  function Pressure(a: Aux, m: Metrics, servers: int): real {
    if a.weight <= 0.0 then 0.0
    else match a.kind
      case AuxCPU => if m.averageCPU > 70.0 then Product(m.averageCPU / 100.0, servers, a.weight) else 0.0
      case AuxMemory =>
        if m.averageMemoryMB > 0.0 then Product(m.averageMemoryMB / 4096.0, servers, a.weight) else 0.0
      case AuxUnused => 0.0
  }

  /** The auxiliary adjustment as the int32 accumulator computes it. */
  function AuxAdjustment(aux: seq<Aux>, m: Metrics, servers: int, platform: real -> int): int {
    if aux == [] then 0
    else
      var last := aux[|aux| - 1];
      Wrap32(AuxAdjustment(aux[..|aux| - 1], m, servers, platform) + Extra(last, m, servers, platform))
  }

  function Clamp(p: Policy, x: int): int {
    var low := if x < p.minReplicas then p.minReplicas else x;
    if low > p.maxReplicas then p.maxReplicas else low
  }

  /** The clamped target. The current replica count is not among its inputs. */
  function Desired(p: Policy, m: Metrics, platform: real -> int): int {
    var servers := ServersForPlayers(p.targetValue, m.totalPlayers);
    Clamp(p, Wrap32(Wrap32(servers + BufferTarget(p)) + AuxAdjustment(p.aux, m, servers, platform)))
  }

  function Share(total: nat, ratio: real): real {
    total as real * ratio
  }

  /** The least number of healthy nodes that lets a scale-up through. */
  function MinHealthy(p: Policy, total: nat, platform: real -> int): int {
    ToInt32(Share(total, p.minHealthyNodeRatio), platform)
  }

  predicate NodesTooSick(p: Policy, nodes: NodeAnswer, platform: real -> int) {
    && p.nodeHealthEnabled && nodes.Nodes?
    && Wrap32(nodes.healthy) < MinHealthy(p, nodes.healthy + nodes.unhealthy, platform)
  }

  /** The decision on a fleet with the given current replicas and warm buffer. */
  function Decide(paused: bool, current: int, buffer: int, p: Policy, m: Metrics, nodes: NodeAnswer,
                  platform: real -> int): ScaleResult {
    var desired := Desired(p, m, platform);
    if paused then ScaleResult(Frozen, current, current, 0)
    else if desired > current && NodesTooSick(p, nodes, platform) then ScaleResult(Frozen, current, current, 0)
    else if desired > current then ScaleResult(ScaleUp, current, desired, Wrap32(desired - current))
    else if desired < current && buffer > BufferTarget(p) then
      ScaleResult(ScaleDown, current, desired, Wrap32(desired - current))
    else ScaleResult(Hold, current, current, 0)
  }

  /** What one auxiliary entry adds to the accumulator. */
  function Extra(a: Aux, m: Metrics, servers: int, platform: real -> int): (r: int)
    ensures IsInt32(r)
  {
    ToInt32(Pressure(a, m, servers), platform)
  }

  /** The accumulation loop over the auxiliary metrics; entries without positive weight are skipped. */
  method SumAux(aux: seq<Aux>, m: Metrics, servers: int, platform: real -> int) returns (sum: int)
    ensures sum == AuxAdjustment(aux, m, servers, platform) && IsInt32(sum)
  {
    sum := 0;
    for i := 0 to |aux|
      invariant sum == AuxAdjustment(aux[..i], m, servers, platform) && IsInt32(sum)
    {
      var a := aux[i];
      assert aux[..i + 1][..i] == aux[..i];
      var extra := 0;
      if a.weight > 0.0 {
        match a.kind {
          case AuxCPU =>
            if m.averageCPU > 70.0 {
              extra := ToInt32(Product(m.averageCPU / 100.0, servers, a.weight), platform);
            }
          case AuxMemory =>
            if m.averageMemoryMB > 0.0 {
              extra := ToInt32(Product(m.averageMemoryMB / 4096.0, servers, a.weight), platform);
            }
          case AuxUnused =>
        }
      }
      ZeroTruncates(platform);
      assert extra == Extra(a, m, servers, platform);
      sum := Wrap32(sum + extra);
    }
    assert aux[..|aux|] == aux;
  }

  method Evaluate(paused: bool, current: int, buffer: int, p: Policy, m: Metrics, nodes: NodeAnswer,
                  platform: real -> int)
    returns (result: ScaleResult)
    ensures result == Decide(paused, current, buffer, p, m, nodes, platform)
  {
    hide Product, ToInt32, AuxAdjustment, Wrap32, QuoTrunc, MinHealthy;
    if paused {
      return ScaleResult(Frozen, current, current, 0);
    }
    var serversForPlayers := 0;
    if p.targetValue > 0 && m.totalPlayers > 0 {
      serversForPlayers := QuoTrunc(Wrap32(m.totalPlayers + p.targetValue - 1), p.targetValue);
    }
    var bufferSize := p.bufferSize;
    if bufferSize < 1 {
      bufferSize := 1;
    }
    var desired := Wrap32(serversForPlayers + bufferSize);
    var auxAdjustment := SumAux(p.aux, m, serversForPlayers, platform);
    desired := Wrap32(desired + auxAdjustment);
    if desired < p.minReplicas {
      desired := p.minReplicas;
    }
    if desired > p.maxReplicas {
      desired := p.maxReplicas;
    }
    assert desired == Desired(p, m, platform);
    result := ScaleResult(Hold, current, desired, Wrap32(desired - current));
    if desired > current && p.nodeHealthEnabled {
      if nodes.Nodes? {
        var minHealthy := MinHealthy(p, nodes.healthy + nodes.unhealthy, platform);
        if Wrap32(nodes.healthy) < minHealthy {
          return ScaleResult(Frozen, current, current, 0);
        }
      }
    }
    if desired > current {
      result := result.(decision := ScaleUp);
    } else if desired < current {
      if buffer > bufferSize {
        result := result.(decision := ScaleDown);
      } else {
        result := ScaleResult(Hold, current, current, 0);
      }
    } else {
      result := result.(decision := Hold);
    }
  }

  // ---------------------------------------------------------------- arithmetic of the target

  /** The ceiling quotient is the least server count that covers the players. */
  lemma CeilIsLeastCover(players: int, target: int, k: int)
    requires target > 0
    ensures k * target >= players <==> k >= CeilDiv(players, target)
  {
    var q, r := (players + target - 1) / target, (players + target - 1) % target;
    assert players + target - 1 == target * q + r;
    assert target * (k - q) == k * target - target * q;
    Multiple(target, k - q);
    if k >= q {
      Multiple(target, k - q + 1);
      assert target * (k - q) >= 0;
    }
  }

  /** The player-driven count is that ceiling exactly as long as the int32 sum does not wrap. */
  lemma CeilIffNoWrap(target: int, players: int)
    requires IsInt32(target) && IsInt32(players) && target > 0 && players > 0
    ensures ServersForPlayers(target, players) == CeilDiv(players, target) <==> players + target - 1 <= INT32_MAX
  {
    var x := players + target - 1;
    assert Wrap32(x) == if x <= INT32_MAX then x else x - 0x1_0000_0000;
    CeilIsLeastCover(players, target, 0);
  }

  /** A fleet with a full int32 of players and two players per server is sized as if it were empty. */
  lemma WrapLosesThePlayers(platform: real -> int)
    ensures var p := Policy(1, 1000, 3, 2, [], false, 0.0, 0, 0, 0);
            Desired(p, Metrics(INT32_MAX, 0.0, 0.0), platform) == 1 < Desired(p, Metrics(100, 0.0, 0.0), platform)
  {
    assert Wrap32(INT32_MAX + 1) == INT32_MIN;
    assert ServersForPlayers(2, INT32_MAX) == -0x4000_0000;
    assert ServersForPlayers(2, 100) == 50;
  }

  /** The sums wrap as well: the largest buffer and one player make a fleet of the minimum size. */
  lemma WrapLosesTheBuffer(platform: real -> int)
    ensures var p := Policy(1, 1000, INT32_MAX, 2, [], false, 0.0, 0, 0, 0);
            Desired(p, Metrics(1, 0.0, 0.0), platform) == 1 < Desired(p, Metrics(0, 0.0, 0.0), platform) == 1000
  {
    assert ServersForPlayers(2, 1) == 1 && ServersForPlayers(2, 0) == 0;
    assert Wrap32(INT32_MAX + 1) == INT32_MIN;
  }

  predicate NonNegative(m: Metrics) {
    m.totalPlayers >= 0 && m.averageCPU >= 0.0 && m.averageMemoryMB >= 0.0
  }

  /** The auxiliary adjustment without any wrap. */
  function ExactAux(aux: seq<Aux>, m: Metrics, servers: int): int {
    if aux == [] then 0
    else ExactAux(aux[..|aux| - 1], m, servers) + Truncate(Pressure(aux[|aux| - 1], m, servers))
  }

  /** The unclamped target in exact arithmetic. */
  function ExactTarget(p: Policy, m: Metrics): int {
    var servers := if p.targetValue > 0 && m.totalPlayers > 0 then CeilDiv(m.totalPlayers, p.targetValue) else 0;
    servers + BufferTarget(p) + ExactAux(p.aux, m, servers)
  }

  /** No sum on the way to the target leaves int32. */
  predicate Fits(p: Policy, m: Metrics) {
    && ValidPolicy(p) && IsInt32(m.totalPlayers) && NonNegative(m)
    && m.totalPlayers + Max(0, p.targetValue - 1) <= INT32_MAX
    && ExactTarget(p, m) <= INT32_MAX
  }

  lemma MulMonotone(x: real, y: real, a: real, b: real)
    requires 0.0 <= x <= a && 0.0 <= y <= b
    ensures 0.0 <= x * y <= a * b
  {
    assert x * y <= a * y;
    assert a * y <= a * b;
  }

  lemma PressureMonotone(a: Aux, m: Metrics, n: Metrics, s: int, t: int)
    requires NonNegative(m) && m.averageCPU <= n.averageCPU && m.averageMemoryMB <= n.averageMemoryMB
    requires 0 <= s <= t
    ensures 0.0 <= Pressure(a, m, s) <= Pressure(a, n, t)
    ensures 0 <= Truncate(Pressure(a, m, s)) <= Truncate(Pressure(a, n, t))
  {
    if a.weight > 0.0 {
      MulMonotone(m.averageCPU / 100.0, s as real, n.averageCPU / 100.0, t as real);
      MulMonotone(m.averageCPU / 100.0 * s as real, a.weight, n.averageCPU / 100.0 * t as real, a.weight);
      MulMonotone(m.averageMemoryMB / 4096.0, s as real, n.averageMemoryMB / 4096.0, t as real);
      MulMonotone(m.averageMemoryMB / 4096.0 * s as real, a.weight, n.averageMemoryMB / 4096.0 * t as real, a.weight);
    }
  }

  lemma {:induction false} ExactAuxMonotone(aux: seq<Aux>, m: Metrics, n: Metrics, s: int, t: int)
    requires NonNegative(m) && m.averageCPU <= n.averageCPU && m.averageMemoryMB <= n.averageMemoryMB
    requires 0 <= s <= t
    ensures 0 <= ExactAux(aux, m, s) <= ExactAux(aux, n, t)
  {
    if aux != [] {
      ExactAuxMonotone(aux[..|aux| - 1], m, n, s, t);
      PressureMonotone(aux[|aux| - 1], m, n, s, t);
    }
  }

  lemma {:induction false} AuxIsExact(aux: seq<Aux>, m: Metrics, servers: int, platform: real -> int)
    requires NonNegative(m) && servers >= 0 && ExactAux(aux, m, servers) <= INT32_MAX
    ensures AuxAdjustment(aux, m, servers, platform) == ExactAux(aux, m, servers) >= 0
  {
    if aux != [] {
      ExactAuxMonotone(aux[..|aux| - 1], m, m, servers, servers);
      PressureMonotone(aux[|aux| - 1], m, m, servers, servers);
      AuxIsExact(aux[..|aux| - 1], m, servers, platform);
    }
  }

  /** Without wrap the target is the clamp of the exact sum. */
  lemma DesiredIsExact(p: Policy, m: Metrics, platform: real -> int)
    requires Fits(p, m)
    ensures Desired(p, m, platform) == Clamp(p, ExactTarget(p, m))
  {
    var servers := ServersForPlayers(p.targetValue, m.totalPlayers);
    if p.targetValue > 0 && m.totalPlayers > 0 {
      CeilIffNoWrap(p.targetValue, m.totalPlayers);
      CeilIsLeastCover(m.totalPlayers, p.targetValue, 0);
    }
    ExactAuxMonotone(p.aux, m, m, servers, servers);
    AuxIsExact(p.aux, m, servers, platform);
  }

  /** More players, more CPU or more memory never ask for fewer servers. */
  lemma DesiredMonotone(p: Policy, m: Metrics, n: Metrics, platform: real -> int)
    requires Fits(p, m) && Fits(p, n)
    requires m.totalPlayers <= n.totalPlayers && m.averageCPU <= n.averageCPU && m.averageMemoryMB <= n.averageMemoryMB
    ensures Desired(p, m, platform) <= Desired(p, n, platform)
  {
    DesiredIsExact(p, m, platform);
    DesiredIsExact(p, n, platform);
    if p.targetValue > 0 {
      var s := if m.totalPlayers > 0 then CeilDiv(m.totalPlayers, p.targetValue) else 0;
      var t := if n.totalPlayers > 0 then CeilDiv(n.totalPlayers, p.targetValue) else 0;
      CeilIsLeastCover(m.totalPlayers, p.targetValue, t);
      CeilIsLeastCover(n.totalPlayers, p.targetValue, t);
      CeilIsLeastCover(m.totalPlayers, p.targetValue, 0);
      CeilIsLeastCover(n.totalPlayers, p.targetValue, 0);
      ExactAuxMonotone(p.aux, m, n, s, t);
    } else {
      ExactAuxMonotone(p.aux, m, n, 0, 0);
    }
  }

  /** The target obeys the policy's bounds (the maximum winning if they conflict), and unless the
      maximum cuts it, it covers all players and leaves the buffer on top. */
  lemma DesiredCoversPlayers(p: Policy, m: Metrics, platform: real -> int)
    requires Fits(p, m) && p.targetValue > 0
    ensures var d := Desired(p, m, platform);
            && d <= p.maxReplicas && (p.minReplicas <= p.maxReplicas ==> p.minReplicas <= d)
            && (d < p.maxReplicas ==> (d - BufferTarget(p)) * p.targetValue >= m.totalPlayers)
  {
    DesiredIsExact(p, m, platform);
    var d := Desired(p, m, platform);
    var servers := if m.totalPlayers > 0 then CeilDiv(m.totalPlayers, p.targetValue) else 0;
    CeilIsLeastCover(m.totalPlayers, p.targetValue, 0);
    ExactAuxMonotone(p.aux, m, m, servers, servers);
    if d < p.maxReplicas {
      CeilIsLeastCover(m.totalPlayers, p.targetValue, d - BufferTarget(p));
    }
  }

  // ---------------------------------------------------------------- the decision in numbers

  lemma FloorIff(x: real, k: int)
    ensures x.Floor == k <==> k as real <= x < (k + 1) as real
  {
  }

  lemma Scaled(x: real, d: real, k: real)
    requires d > 0.0
    ensures k <= x / d <==> k * d <= x
  {
    assert x / d * d == x;
    if k <= x / d {
      assert k * d <= x / d * d;
    } else {
      assert k * d > x / d * d;
    }
  }

  /** A CPU entry adds k servers exactly when 100 * k <= cpu * servers * weight < 100 * (k + 1), for a
      positive weight and above seventy per cent; otherwise nothing. */
  lemma CPUEntryAdds(weight: real, m: Metrics, servers: nat, k: nat)
    requires NonNegative(m)
    ensures var load := m.averageCPU * servers as real * weight;
            Truncate(Pressure(Aux(AuxCPU, weight), m, servers)) == k <==>
            if weight > 0.0 && m.averageCPU > 70.0
            then 100.0 * k as real <= load < 100.0 * (k + 1) as real
            else k == 0
  {
    if weight > 0.0 && m.averageCPU > 70.0 {
      EntryAdds(m.averageCPU, servers, weight, 100.0, k);
    }
  }

  /** A memory entry adds k servers exactly when 4096 * k <= MB * servers * weight < 4096 * (k + 1), for
      a positive weight; otherwise nothing. */
  lemma MemoryEntryAdds(weight: real, m: Metrics, servers: nat, k: nat)
    requires NonNegative(m)
    ensures var load := m.averageMemoryMB * servers as real * weight;
            Truncate(Pressure(Aux(AuxMemory, weight), m, servers)) == k <==>
            if weight > 0.0 && m.averageMemoryMB > 0.0
            then 4096.0 * k as real <= load < 4096.0 * (k + 1) as real
            else k == 0
  {
    if weight > 0.0 && m.averageMemoryMB > 0.0 {
      EntryAdds(m.averageMemoryMB, servers, weight, 4096.0, k);
    }
  }

  lemma EntryAdds(value: real, servers: nat, weight: real, unit: real, k: nat)
    requires value >= 0.0 && weight >= 0.0 && unit > 0.0
    ensures var load := value * servers as real * weight;
            Truncate(Product(value / unit, servers, weight)) == k <==>
            unit * k as real <= load < unit * (k + 1) as real
  {
    var load := value * servers as real * weight;
    var s := servers as real;
    assert value / unit * s * weight == load / unit by {
      Regroup(value, s, weight, unit);
    }
    MulMonotone(0.0, 0.0, value, s);
    MulMonotone(0.0, 0.0, value * s, weight);
    Scaled(load, unit, 0.0);
    Scaled(load, unit, k as real);
    Scaled(load, unit, (k + 1) as real);
    FloorIff(load / unit, k);
  }

  lemma Regroup(value: real, s: real, weight: real, unit: real)
    requires unit > 0.0
    ensures value / unit * s * weight == value * s * weight / unit
  {
    var q := value / unit;
    assert q * unit == value;
    assert q * s * weight * unit == q * unit * s * weight;
  }

  /** The target in exact numbers. */
  function Target(p: Policy, m: Metrics): int {
    Min(p.maxReplicas, Max(p.minReplicas, ExactTarget(p, m)))
  }

  /** Too few healthy nodes: one more healthy node would still be within the required share. */
  predicate TooFewHealthy(p: Policy, nodes: NodeAnswer) {
    p.nodeHealthEnabled && nodes.Nodes? && RoomForOneMore(nodes.healthy, nodes.healthy + nodes.unhealthy, p)
  }

  predicate RoomForOneMore(healthy: nat, total: nat, p: Policy) {
    (healthy + 1) as real <= Share(total, p.minHealthyNodeRatio)
  }

  predicate SensibleNodes(p: Policy, nodes: NodeAnswer) {
    && 0.0 <= p.minHealthyNodeRatio <= 1.0
    && (nodes.Nodes? ==> nodes.healthy + nodes.unhealthy <= INT32_MAX)
  }

  lemma TooSickIff(p: Policy, nodes: NodeAnswer, platform: real -> int)
    requires SensibleNodes(p, nodes)
    ensures NodesTooSick(p, nodes, platform) <==> TooFewHealthy(p, nodes)
  {
    hide MinHealthy, RoomForOneMore;
    if nodes.Nodes? {
      HealthyShare(nodes.healthy, nodes.healthy + nodes.unhealthy, p, platform);
    }
  }

  lemma HealthyShare(healthy: nat, total: nat, p: Policy, platform: real -> int)
    requires healthy <= total <= INT32_MAX && 0.0 <= p.minHealthyNodeRatio <= 1.0
    ensures healthy < MinHealthy(p, total, platform) <==> RoomForOneMore(healthy, total, p)
  {
    hide Share;
    ShareOf(total, p.minHealthyNodeRatio);
    BelowFloor(healthy, total, Share(total, p.minHealthyNodeRatio), platform);
  }

  lemma ShareOf(total: nat, ratio: real)
    requires 0.0 <= ratio <= 1.0
    ensures 0.0 <= Share(total, ratio) <= total as real
  {
    var n := total as real;
    MulMonotone(n, ratio, n, 1.0);
    assert n * 1.0 == n;
    assert Share(total, ratio) == n * ratio;
  }

  lemma BelowFloor(healthy: nat, total: nat, x: real, platform: real -> int)
    requires total <= INT32_MAX && 0.0 <= x <= total as real
    ensures healthy < ToInt32(x, platform) <==> (healthy + 1) as real <= x
  {
    FloorIff(x, x.Floor);
  }

  /** Every decision as an if-and-only-if: frozen when paused or when a scale-up meets too few healthy
      nodes; up exactly when below the target otherwise; down exactly when above it with warm servers
      beyond the buffer; and then by the whole difference. */
  lemma DecisionIff(paused: bool, current: nat, buffer: int, p: Policy, m: Metrics, nodes: NodeAnswer,
                    platform: real -> int)
    requires Fits(p, m) && p.maxReplicas >= 0 && current <= INT32_MAX && SensibleNodes(p, nodes)
    ensures var r, t := Decide(paused, current, buffer, p, m, nodes, platform), Target(p, m);
            && (r.decision == Frozen <==> paused || (current < t && TooFewHealthy(p, nodes)))
            && (r.decision == ScaleUp <==> !paused && current < t && !TooFewHealthy(p, nodes))
            && (r.decision == ScaleDown <==> !paused && t < current && buffer > Max(1, p.bufferSize))
            && (r.decision == ScaleUp || r.decision == ScaleDown ==> r.desired == t && r.delta == t - current)
            && (r.decision == Frozen || r.decision == Hold ==> r.desired == current && r.delta == 0)
            && r.current == current
  {
    hide NodesTooSick, Desired, ExactTarget, Fits, TooFewHealthy;
    DesiredIsExact(p, m, platform);
    TooSickIff(p, nodes, platform);
    TargetIsPositive(p, m);
    PolicyFits(p, m);
  }

  lemma PolicyFits(p: Policy, m: Metrics)
    requires Fits(p, m)
    ensures ValidPolicy(p)
  {
  }

  lemma TargetIsPositive(p: Policy, m: Metrics)
    requires Fits(p, m)
    ensures ExactTarget(p, m) >= Max(1, p.bufferSize)
  {
    var servers := if p.targetValue > 0 && m.totalPlayers > 0 then CeilDiv(m.totalPlayers, p.targetValue) else 0;
    if p.targetValue > 0 {
      CeilIsLeastCover(m.totalPlayers, p.targetValue, 0);
    }
    ExactAuxMonotone(p.aux, m, m, servers, servers);
  }

  lemma TargetInNumbers(p: Policy, m: Metrics, current: int)
    requires p.aux == [] && p.targetValue > 0 && m.totalPlayers >= 0 && p.minReplicas <= p.maxReplicas
    ensures var buffer := Max(1, p.bufferSize);
            && (current < Target(p, m) <==>
                  current < p.maxReplicas &&
                  (current < p.minReplicas || current < buffer || (current - buffer) * p.targetValue < m.totalPlayers))
            && (Target(p, m) < current <==>
                  p.maxReplicas < current ||
                  (p.minReplicas < current && buffer < current && (current - 1 - buffer) * p.targetValue >= m.totalPlayers))
  {
    var buffer := Max(1, p.bufferSize);
    CeilIsLeastCover(m.totalPlayers, p.targetValue, current - buffer);
    CeilIsLeastCover(m.totalPlayers, p.targetValue, current - 1 - buffer);
    CeilIsLeastCover(m.totalPlayers, p.targetValue, 0);
    CeilIsLeastCover(m.totalPlayers, p.targetValue, -1);
  }

  /** In the policy's own numbers, without auxiliary metrics and health checks: a fleet is scaled up
      exactly when it is below its maximum and below its minimum, its buffer, or the servers its
      players need on top of the buffer; and down exactly when it is above its maximum, or could do
      with a server less for all of these, and has warm servers beyond the buffer. */
  lemma DecisionInNumbers(current: nat, warm: int, p: Policy, m: Metrics, nodes: NodeAnswer, platform: real -> int)
    requires Fits(p, m) && p.maxReplicas >= 0 && current <= INT32_MAX && p.minReplicas <= p.maxReplicas
    requires p.aux == [] && p.targetValue > 0 && !p.nodeHealthEnabled && SensibleNodes(p, nodes)
    ensures var r, buffer := Decide(false, current, warm, p, m, nodes, platform), Max(1, p.bufferSize);
            && (r.decision == ScaleUp <==>
                  current < p.maxReplicas &&
                  (current < p.minReplicas || current < buffer || (current - buffer) * p.targetValue < m.totalPlayers))
            && (r.decision == ScaleDown <==>
                  warm > buffer &&
                  (p.maxReplicas < current ||
                   (p.minReplicas < current && buffer < current &&
                    (current - 1 - buffer) * p.targetValue >= m.totalPlayers)))
  {
    hide Decide, Target;
    DecisionIff(false, current, warm, p, m, nodes, platform);
    TargetInNumbers(p, m, current);
  }
}

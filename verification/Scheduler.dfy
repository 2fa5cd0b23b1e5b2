/** Candidate ranking and selection (pkg/pool/scheduler.go). */
module Scheduler {
  import opened Common

  /** The allocation strategies of the API; any other string, the empty one included, is Unlisted. */
  datatype Strategy = FewestPlayers | LowestLatency | RoundRobin | StrictBinPack | Unlisted

  datatype GameServerInfo = GameServerInfo(name: string, playerCount: int, latencyMs: int, inUse: bool)

  /** The comparison functions handed to sort.Slice. */
  datatype Rank = ByLoad | ByLatency | ByHeaviestLoad | ByName

  function RankOf(strategy: Strategy): Rank {
    match strategy
    case FewestPlayers => ByLoad
    case LowestLatency => ByLatency
    case RoundRobin => ByLoad
    case StrictBinPack => ByHeaviestLoad
    case Unlisted => ByLoad
  }

  function Key(rank: Rank, x: GameServerInfo): int {
    match rank
    case ByLoad => x.playerCount
    case ByLatency => x.latencyMs
    case ByHeaviestLoad => -x.playerCount
    case ByName => 0
  }

  /** The comparator: the rank's key decides, equal keys fall back to the name. */
  predicate Before(rank: Rank, a: GameServerInfo, b: GameServerInfo) {
    if Key(rank, a) != Key(rank, b) then Key(rank, a) < Key(rank, b) else NameLess(a.name, b.name)
  }

  /** What each strategy compares: player counts, upwards or for bin packing downwards, or latencies;
      equals go by name. */
  lemma RankInFields(strategy: Strategy, a: GameServerInfo, b: GameServerInfo)
    ensures Before(RankOf(strategy), a, b) <==>
            match strategy
            case LowestLatency => a.latencyMs < b.latencyMs || (a.latencyMs == b.latencyMs && NameLess(a.name, b.name))
            case StrictBinPack =>
              a.playerCount > b.playerCount || (a.playerCount == b.playerCount && NameLess(a.name, b.name))
            case _ => a.playerCount < b.playerCount || (a.playerCount == b.playerCount && NameLess(a.name, b.name))
  {
  }

  lemma BeforeTransitive(rank: Rank, a: GameServerInfo, b: GameServerInfo, c: GameServerInfo)
    requires Before(rank, a, b) && Before(rank, b, c)
    ensures Before(rank, a, c)
  {
    if NameLess(a.name, b.name) && NameLess(b.name, c.name) {
      NameTransitive(a.name, b.name, c.name);
    }
  }

  lemma BeforeAsymmetric(rank: Rank, a: GameServerInfo, b: GameServerInfo)
    requires Before(rank, a, b)
    ensures !Before(rank, b, a)
  {
    if NameLess(a.name, b.name) {
      NameAsymmetric(a.name, b.name);
    }
  }

  lemma BeforeTotal(rank: Rank, a: GameServerInfo, b: GameServerInfo)
    requires a.name != b.name
    ensures Before(rank, a, b) || Before(rank, b, a)
  {
    NameTotal(a.name, b.name);
  }

  /** "Not after" composes: with BeforeTransitive this makes the comparator a strict weak order. */
  lemma NotAfterTransitive(rank: Rank, a: GameServerInfo, b: GameServerInfo, c: GameServerInfo)
    requires !Before(rank, b, a) && !Before(rank, c, b)
    ensures !Before(rank, c, a)
  {
    if Before(rank, c, a) {
      if b.name != a.name {
        BeforeTotal(rank, a, b);
        BeforeTransitive(rank, c, a, b);
      }
    }
  }

  ghost predicate DistinctNames(s: set<GameServerInfo>) {
    forall a, b | a in s && b in s && a.name == b.name :: a == b
  }

  /** Strictly increasing along the rank; in particular free of duplicates. */
  ghost predicate InOrder(rank: Rank, s: seq<GameServerInfo>) {
    forall i, j | 0 <= i < j < |s| :: Before(rank, s[i], s[j])
  }

  /** What sort.Slice establishes: nothing is strictly before an element to its left. */
  ghost predicate Sorted(rank: Rank, s: seq<GameServerInfo>) {
    forall i, j | 0 <= i < j < |s| :: !Before(rank, s[j], s[i])
  }

  ghost predicate IsLeast(rank: Rank, x: GameServerInfo, s: set<GameServerInfo>) {
    x in s && forall y | y in s && y != x :: Before(rank, x, y)
  }

  lemma {:induction false} LeastExists(rank: Rank, s: set<GameServerInfo>)
    requires s != {} && DistinctNames(s)
    ensures exists x :: IsLeast(rank, x, s)
    decreases |s|
  {
    var x :| x in s;
    if s - {x} == {} {
      assert s == {x};
      assert IsLeast(rank, x, s);
    } else {
      LeastExists(rank, s - {x});
      var y :| IsLeast(rank, y, s - {x});
      BeforeTotal(rank, x, y);
      if Before(rank, x, y) {
        forall z | z in s && z != x ensures Before(rank, x, z) {
          if z != y {
            BeforeTransitive(rank, x, y, z);
          }
        }
        assert IsLeast(rank, x, s);
      } else {
        assert IsLeast(rank, y, s);
      }
    }
  }

  ghost function Least(rank: Rank, s: set<GameServerInfo>): (x: GameServerInfo)
    requires s != {} && DistinctNames(s)
    ensures IsLeast(rank, x, s)
  {
    LeastExists(rank, s);
    var x :| IsLeast(rank, x, s);
    x
  }

  /** The candidates in rank order. It is a function of the SET of candidates, so whatever equals
      it cannot depend on the order in which a map was enumerated. */
  ghost function Ranked(rank: Rank, s: set<GameServerInfo>): (r: seq<GameServerInfo>)
    requires DistinctNames(s)
    ensures Elements(r) == s
    ensures InOrder(rank, r)
    decreases |s|
  {
    if s == {} then []
    else
      var x := Least(rank, s);
      PrependLeast(rank, x, Ranked(rank, s - {x}), s);
      [x] + Ranked(rank, s - {x})
  }

  lemma PrependLeast(rank: Rank, x: GameServerInfo, rest: seq<GameServerInfo>, s: set<GameServerInfo>)
    requires IsLeast(rank, x, s) && Elements(rest) == s - {x} && InOrder(rank, rest)
    ensures Elements([x] + rest) == s && InOrder(rank, [x] + rest)
  {
    var r := [x] + rest;
    forall y ensures y in r <==> y in s {
      assert y in Elements(rest) <==> y in rest;
    }
    assert Elements(r) == s;
    forall i, j | 0 <= i < j < |r| ensures Before(rank, r[i], r[j]) {
      assert r[j] == rest[j - 1] && rest[j - 1] in Elements(rest);
      if i > 0 {
        assert r[i] == rest[i - 1];
      }
    }
  }

  /** The ranked sequence lists every candidate exactly once. */
  lemma RankedSize(rank: Rank, s: set<GameServerInfo>)
    requires DistinctNames(s)
    ensures |Ranked(rank, s)| == |s| && Distinct(Ranked(rank, s))
  {
    InOrderDistinct(rank, Ranked(rank, s));
    DistinctSize(Ranked(rank, s));
  }

  lemma InOrderDistinct(rank: Rank, r: seq<GameServerInfo>)
    requires InOrder(rank, r)
    ensures Distinct(r)
  {
    forall i, j | 0 <= i < j < |r| ensures r[i] != r[j] {
      assert Before(rank, r[i], r[j]);
      BeforeAsymmetric(rank, r[i], r[j]);
    }
  }

  /** There is only one way to put distinct candidates in order. */
  lemma {:induction false} RankedUnique(rank: Rank, r: seq<GameServerInfo>, s: set<GameServerInfo>)
    requires DistinctNames(s) && InOrder(rank, r) && Elements(r) == s
    ensures r == Ranked(rank, s)
    decreases |r|
  {
    if r != [] {
      FirstIsLeast(rank, r, s);
      assert r == [r[0]] + r[1..];
      RankedUnique(rank, r[1..], s - {r[0]});
    } else {
      assert s == {};
    }
  }

  lemma FirstIsLeast(rank: Rank, r: seq<GameServerInfo>, s: set<GameServerInfo>)
    requires r != [] && DistinctNames(s) && InOrder(rank, r) && Elements(r) == s
    ensures s != {} && r[0] == Least(rank, s)
    ensures Elements(r[1..]) == s - {r[0]} && InOrder(rank, r[1..])
  {
    assert r[0] in Elements(r);
    InOrderDistinct(rank, r);
    var x := Least(rank, s);
    if x != r[0] {
      assert x in Elements(r);
      var i :| 0 <= i < |r| && r[i] == x;
      BeforeAsymmetric(rank, r[0], r[i]);
    }
    assert r == [r[0]] + r[1..];
    assert Elements(r) == {r[0]} + Elements(r[1..]);
    assert r[0] !in r[1..];
    forall i, j | 0 <= i < j < |r[1..]| ensures Before(rank, r[1..][i], r[1..][j]) {
      assert Before(rank, r[i + 1], r[j + 1]);
    }
  }

  /** Sorting distinct candidates by the comparator yields the ranked sequence. */
  lemma SortedIsRanked(rank: Rank, r: seq<GameServerInfo>, s: seq<GameServerInfo>)
    requires Sorted(rank, r) && multiset(r) == multiset(s)
    requires Distinct(s) && DistinctNames(Elements(s))
    ensures r == Ranked(rank, Elements(s))
  {
    SameElements(r, s);
    DistinctSize(s);
    assert |r| == |multiset(r)| == |multiset(s)| == |s|;
    DistinctSize(r);
    forall i, j | 0 <= i < j < |r| ensures Before(rank, r[i], r[j]) {
      assert r[i] in Elements(s) && r[j] in Elements(s);
      BeforeTotal(rank, r[i], r[j]);
    }
    RankedUnique(rank, r, Elements(s));
  }

  lemma SameElements<T>(r: seq<T>, s: seq<T>)
    requires multiset(r) == multiset(s)
    ensures Elements(r) == Elements(s)
  {
    forall x ensures x in r <==> x in s {
      assert x in r <==> x in multiset(r);
      assert x in s <==> x in multiset(s);
    }
  }

  /** sort.Slice: an in-place insertion sort stands for the library's sort. */
  method SortSlice(a: array<GameServerInfo>, rank: Rank)
    modifies a
    ensures multiset(a[..]) == multiset(old(a[..]))
    ensures Sorted(rank, a[..])
  {
    var n := 0;
    while n < a.Length
      invariant 0 <= n <= a.Length
      invariant multiset(a[..]) == multiset(old(a[..]))
      invariant Sorted(rank, a[..n])
    {
      SiftDown(a, rank, n);
      n := n + 1;
    }
    assert a[..n] == a[..];
  }

  /** Sorted up to and including position n, except that the element at k may be too far right. */
  ghost predicate SortedBut(rank: Rank, s: seq<GameServerInfo>, k: int) {
    && (forall i, j | 0 <= i < j < |s| && i != k && j != k :: !Before(rank, s[j], s[i]))
    && (forall j | k < j < |s| :: 0 <= k ==> !Before(rank, s[j], s[k]))
  }

  lemma SwapLeft(rank: Rank, s: seq<GameServerInfo>, k: nat)
    requires 0 < k < |s| && SortedBut(rank, s, k) && Before(rank, s[k], s[k - 1])
    ensures SortedBut(rank, s[k := s[k - 1]][k - 1 := s[k]], k - 1)
  {
    BeforeAsymmetric(rank, s[k], s[k - 1]);
    var t := s[k := s[k - 1]][k - 1 := s[k]];
    forall i, j | 0 <= i < j < |t| && i != k - 1 && j != k - 1 ensures !Before(rank, t[j], t[i]) {
      if i == k {
        assert !Before(rank, s[j], s[k - 1]);
      } else if j == k {
        assert !Before(rank, s[k - 1], s[i]);
      } else {
        assert !Before(rank, s[j], s[i]);
      }
    }
    forall j | k - 1 < j < |t| ensures !Before(rank, t[j], t[k - 1]) {
      if j > k {
        assert !Before(rank, s[j], s[k]);
      }
    }
  }

  lemma Settled(rank: Rank, s: seq<GameServerInfo>, k: nat)
    requires k < |s| && SortedBut(rank, s, k) && (k > 0 ==> !Before(rank, s[k], s[k - 1]))
    ensures Sorted(rank, s)
  {
    forall i, j | 0 <= i < j < |s| ensures !Before(rank, s[j], s[i]) {
      if j == k && i < k - 1 {
        assert !Before(rank, s[k - 1], s[i]);
        NotAfterTransitive(rank, s[i], s[k - 1], s[k]);
      }
    }
  }

  /** Moves a[n] left to its place among the already sorted a[..n]. */
  method SiftDown(a: array<GameServerInfo>, rank: Rank, n: nat)
    requires n < a.Length && Sorted(rank, a[..n])
    modifies a
    ensures multiset(a[..]) == multiset(old(a[..]))
    ensures Sorted(rank, a[..n + 1])
  {
    var k := n;
    assert forall i | 0 <= i < n :: a[..n + 1][i] == a[..n][i];
    while k > 0 && Before(rank, a[k], a[k - 1])
      invariant 0 <= k <= n
      invariant multiset(a[..]) == multiset(old(a[..]))
      invariant SortedBut(rank, a[..n + 1], k)
    {
      ghost var s := a[..n + 1];
      SwapLeft(rank, s, k);
      a[k], a[k - 1] := a[k - 1], a[k];
      assert a[..n + 1] == s[k := s[k - 1]][k - 1 := s[k]];
      k := k - 1;
    }
    Settled(rank, a[..n + 1], k);
  }

  ghost function Free(candidates: seq<GameServerInfo>): set<GameServerInfo> {
    set x | x in candidates && !x.inUse
  }

  /** RankAndSelect: a free candidate that no free candidate precedes, if there is a free one.
      Among candidates with distinct names that is the unique least one. */
  method RankAndSelect(candidates: seq<GameServerInfo>, strategy: Strategy) returns (best: Option<GameServerInfo>)
    ensures best.None? <==> Free(candidates) == {}
    ensures best.Some? ==> best.value in Free(candidates)
    ensures best.Some? ==> forall y | y in Free(candidates) :: !Before(RankOf(strategy), y, best.value)
  {
    hide Before, Sorted;
    if |candidates| == 0 {
      return None;
    }
    var available: seq<GameServerInfo> := [];
    for i := 0 to |candidates|
      invariant forall x :: x in available <==> x in candidates[..i] && !x.inUse
    {
      if !candidates[i].inUse {
        available := available + [candidates[i]];
      }
      assert candidates[..i + 1] == candidates[..i] + [candidates[i]];
    }
    assert candidates[..|candidates|] == candidates;
    assert forall x :: x in Free(candidates) <==> x in available;
    if |available| == 0 {
      return None;
    }
    assert available[0] in available;
    var a := new GameServerInfo[|available|](i requires 0 <= i < |available| => available[i]);
    assert a[..] == available;
    SortSlice(a, RankOf(strategy));
    SameElements(a[..], available);
    best := Some(a[0]);
    assert a[0] in Elements(a[..]);
    assert a[0] in available && a[0] in Free(candidates);
    forall y | y in Free(candidates) ensures !Before(RankOf(strategy), y, a[0]) {
      assert y in Elements(available);
      FirstIsFirst(RankOf(strategy), a[..], y);
    }
  }

  lemma FirstIsFirst(rank: Rank, s: seq<GameServerInfo>, y: GameServerInfo)
    requires Sorted(rank, s) && y in s
    ensures !Before(rank, y, s[0])
  {
    var j :| 0 <= j < |s| && s[j] == y;
    if j == 0 && Before(rank, y, y) {
      BeforeAsymmetric(rank, y, y);
    }
  }

  /** With distinct names, "nothing precedes it" pins the choice down. */
  lemma UnprecededIsLeast(rank: Rank, x: GameServerInfo, s: set<GameServerInfo>)
    requires DistinctNames(s) && x in s && forall y | y in s :: !Before(rank, y, x)
    ensures x == Least(rank, s) == Ranked(rank, s)[0]
  {
    var l := Least(rank, s);
    assert l != x ==> Before(rank, l, x);
  }

  /** SelectForDrain: sorts the caller's slice by load and returns its first count elements. */
  method SelectForDrain(candidates: array<GameServerInfo>, count: nat) returns (chosen: seq<GameServerInfo>)
    modifies candidates
    ensures multiset(candidates[..]) == multiset(old(candidates[..]))
    ensures Sorted(ByLoad, candidates[..])
    ensures chosen == candidates[..Min(count, candidates.Length)]
  {
    if candidates.Length == 0 {
      return [];
    }
    SortSlice(candidates, ByLoad);
    var n := if count > candidates.Length then candidates.Length else count;
    chosen := candidates[..n];
  }
}

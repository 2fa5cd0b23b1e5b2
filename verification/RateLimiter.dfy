/** The API's token bucket (pkg/api/middleware.go), with its truncating refill. */
module RateLimiting {
  import opened Common

  datatype Bucket = Bucket(rate: int, tokens: int, lastFill: int)

  /** int(elapsed.Seconds() * rate), exactly. When the clock has not advanced it is not positive,
      and a non-positive amount is ignored by the refill. */
  function NewTokens(b: Bucket, now: int): int {
    b.rate * (now - b.lastFill) / SECOND
  }

  /** The refill moves lastFill only if it mints a whole token, and never fills past the rate. */
  function Refill(b: Bucket, now: int): Bucket {
    if NewTokens(b, now) > 0 then Bucket(b.rate, Min(b.tokens + NewTokens(b, now), b.rate), now) else b
  }

  predicate Allows(b: Bucket, now: int) {
    Refill(b, now).tokens > 0
  }

  function Call(b: Bucket, now: int): Bucket {
    var r := Refill(b, now);
    if r.tokens > 0 then r.(tokens := r.tokens - 1) else r
  }

  predicate Valid(b: Bucket) {
    b.rate > 0 && 0 <= b.tokens <= b.rate
  }

  class RateLimiter {
    var rate: int
    const interval: int := SECOND
    var tokens: int
    var lastFill: int

    function Value(): Bucket
      reads this
    {
      Bucket(rate, tokens, lastFill)
    }

    constructor (ratePerSecond: int, now: int)
      ensures Valid(Value())
      ensures Value() == var r := if ratePerSecond <= 0 then 100 else ratePerSecond; Bucket(r, r, now)
    {
      var r := ratePerSecond;
      if r <= 0 {
        r := 100;
      }
      rate, tokens, lastFill := r, r, now;
    }

    method Allow(now: int) returns (ok: bool)
      requires Valid(Value())
      modifies this`tokens, this`lastFill
      ensures Valid(Value())
      ensures ok == Allows(old(Value()), now)
      ensures Value() == Call(old(Value()), now)
    {
      var elapsed := now - lastFill;
      var newTokens := rate * elapsed / SECOND;
      if newTokens > 0 {
        tokens := tokens + newTokens;
        if tokens > rate {
          tokens := rate;
        }
        lastFill := now;
      }
      if tokens > 0 {
        tokens := tokens - 1;
        return true;
      }
      return false;
    }
  }

  // ---------------------------------------------------------------- runs of calls

  ghost function After(b: Bucket, ts: seq<int>): Bucket
    decreases |ts|
  {
    if ts == [] then b else After(Call(b, ts[0]), ts[1..])
  }

  /** How many of the calls at the given times are allowed. */
  ghost function Allowed(b: Bucket, ts: seq<int>): nat
    decreases |ts|
  {
    if ts == [] then 0 else (if Allows(b, ts[0]) then 1 else 0) + Allowed(Call(b, ts[0]), ts[1..])
  }

  /** Tokens minted by the refills of a run, before any cap. */
  ghost function Minted(b: Bucket, ts: seq<int>): nat
    decreases |ts|
  {
    if ts == [] then 0 else Max(0, NewTokens(b, ts[0])) + Minted(Call(b, ts[0]), ts[1..])
  }

  /** Clock readings in order, none before start. */
  ghost predicate InTime(start: int, ts: seq<int>)
    decreases |ts|
  {
    ts != [] ==> start <= ts[0] && InTime(ts[0], ts[1..])
  }

  lemma {:induction false} LastReading(start: int, ts: seq<int>)
    requires InTime(start, ts) && ts != []
    ensures start <= ts[0] <= ts[|ts| - 1]
    decreases |ts|
  {
    if |ts| > 1 {
      LastReading(ts[0], ts[1..]);
    }
  }

  lemma {:induction false} InTimeTail(start: int, ts: seq<int>, i: nat)
    requires InTime(start, ts) && i < |ts|
    ensures InTime(ts[i], ts[i..]) && InTime(start, ts[..i])
    ensures start <= ts[i]
    decreases |ts|
  {
    if i > 0 {
      InTimeTail(ts[0], ts[1..], i - 1);
      assert ts[1..][i - 1..] == ts[i..];
      assert ts[..i][1..] == ts[1..][..i - 1];
    }
  }

  lemma InTimePrefix(start: int, ts: seq<int>, n: nat)
    requires InTime(start, ts) && n <= |ts|
    ensures InTime(start, ts[..n])
  {
    if n < |ts| {
      InTimeTail(start, ts, n);
    } else {
      assert ts[..n] == ts;
    }
  }

  lemma ScaleMonotone(rate: int, x: int, y: int)
    requires rate > 0 && x <= y
    ensures rate * x <= rate * y
  {
  }

  /** One call keeps the bucket between empty and full, and its refill mints m whole tokens only
      for at least m tokens' worth of time. */
  lemma CallFacts(b: Bucket, now: int)
    requires Valid(b) && b.lastFill <= now
    ensures var c := Call(b, now);
            && Valid(c) && c.rate == b.rate && b.lastFill <= c.lastFill <= now
            && c.tokens + (if Allows(b, now) then 1 else 0) <= b.tokens + Max(0, NewTokens(b, now))
            && c.tokens + (if Allows(b, now) then 1 else 0) <= b.rate
            && Max(0, NewTokens(b, now)) * SECOND <= b.rate * (c.lastFill - b.lastFill)
            && b.rate * (now - c.lastFill) < SECOND
  {
    var x := b.rate * (now - b.lastFill);
    assert x == SECOND * (x / SECOND) + x % SECOND;
    ScaleMonotone(b.rate, 0, now - b.lastFill);
  }

  /** Tokens never come from nowhere: what is left plus what was handed out is at most what there
      was plus what time paid for. */
  lemma {:induction false} TokensAreEarned(b: Bucket, ts: seq<int>)
    requires Valid(b) && InTime(b.lastFill, ts)
    ensures var e := After(b, ts);
            && Valid(e) && e.rate == b.rate
            && b.lastFill <= e.lastFill <= (if ts == [] then b.lastFill else ts[|ts| - 1])
            && e.tokens + Allowed(b, ts) <= b.tokens + Minted(b, ts)
            && Minted(b, ts) * SECOND <= b.rate * (e.lastFill - b.lastFill)
    decreases |ts|
  {
    if ts != [] {
      var c := Call(b, ts[0]);
      CallFacts(b, ts[0]);
      LooserStart(c.lastFill, ts[0], ts[1..]);
      TokensAreEarned(c, ts[1..]);
      LastReading(b.lastFill, ts);
      var e := After(b, ts);
      assert b.rate * (e.lastFill - b.lastFill) ==
             b.rate * (e.lastFill - c.lastFill) + b.rate * (c.lastFill - b.lastFill);
    }
  }

  lemma LooserStart(early: int, start: int, ts: seq<int>)
    requires early <= start && InTime(start, ts)
    ensures InTime(early, ts)
  {
  }

  /** One full bucket, plus what the rate accrues over the span, rounded up. */
  function Budget(rate: int, span: int): int {
    rate + CeilDiv(rate * span, SECOND)
  }

  lemma BelowCeil(k: int, x: int, d: int)
    requires d > 0 && k * d < x + d
    ensures k <= CeilDiv(x, d)
  {
    var q, r := (x + d - 1) / d, (x + d - 1) % d;
    assert x + d - 1 == d * q + r;
    Multiple(d, k - q);
    assert d * (k - q) == k * d - d * q;
  }

  /** Refills that took adv of time, at most lag of it from before the span, pay for one extra
      token at most. */
  lemma LagPaysForOne(rate: int, span: int, lag: int, adv: int, minted: nat)
    requires rate > 0 && rate * lag < SECOND && adv <= span + lag && minted * SECOND <= rate * adv
    ensures rate + minted <= Budget(rate, span)
  {
    ScaleMonotone(rate, adv, span + lag);
    assert rate * (span + lag) == rate * span + rate * lag;
    BelowCeil(minted, rate * span, SECOND);
  }

  /** Upper bound on any run of calls, by the time between its first and its last call. */
  lemma WindowBound(b: Bucket, ts: seq<int>, span: int)
    requires Valid(b) && ts != [] && InTime(b.lastFill, ts) && span == ts[|ts| - 1] - ts[0]
    ensures Allowed(b, ts) <= Budget(b.rate, span)
  {
    var c, rest := Call(b, ts[0]), ts[1..];
    CallFacts(b, ts[0]);
    LooserStart(c.lastFill, ts[0], rest);
    TokensAreEarned(c, rest);
    LagPaysForOne(b.rate, span, ts[0] - c.lastFill, After(c, rest).lastFill - c.lastFill, Minted(c, rest));
  }

  lemma {:induction false} Split(b: Bucket, ts: seq<int>, i: nat)
    requires i <= |ts|
    ensures Allowed(b, ts) == Allowed(b, ts[..i]) + Allowed(After(b, ts[..i]), ts[i..])
    ensures After(b, ts) == After(After(b, ts[..i]), ts[i..])
    decreases |ts|
  {
    if i > 0 {
      Split(Call(b, ts[0]), ts[1..], i - 1);
      assert ts[1..][..i - 1] == ts[..i][1..] && ts[1..][i - 1..] == ts[i..];
    } else {
      assert ts[i..] == ts;
    }
  }

  lemma StateBefore(b: Bucket, ts: seq<int>, i: nat)
    requires Valid(b) && InTime(b.lastFill, ts) && i < |ts|
    ensures var mid := After(b, ts[..i]);
            Valid(mid) && mid.rate == b.rate && InTime(mid.lastFill, ts[i..])
  {
    InTimeTail(b.lastFill, ts, i);
    TokensAreEarned(b, ts[..i]);
    if i > 0 {
      MonotoneReadings(b.lastFill, ts, i - 1, i);
    }
    LooserStart(After(b, ts[..i]).lastFill, ts[i], ts[i..]);
  }

  lemma SuffixBound(b: Bucket, ts: seq<int>, i: nat, before: seq<int>, span: int)
    requires Valid(b) && InTime(b.lastFill, ts) && i < |ts|
    requires before == ts[..i] && span == ts[|ts| - 1] - ts[i]
    ensures Allowed(b, ts) - Allowed(b, before) <= Budget(b.rate, span)
  {
    StateBefore(b, ts, i);
    Split(b, ts, i);
    WindowBound(After(b, before), ts[i..], span);
  }

  /** The promise of the limiter: however long it has been running and however its refills lag,
      the calls i..j of a run get at most rate + ceil(rate * (t_j - t_i)) permits. */
  lemma AnyWindowBound(b: Bucket, ts: seq<int>, i: nat, j: nat)
    requires Valid(b) && InTime(b.lastFill, ts) && i <= j < |ts|
    ensures Allowed(b, ts[..j + 1]) - Allowed(b, ts[..i]) <= Budget(b.rate, ts[j] - ts[i])
  {
    InTimePrefix(b.lastFill, ts, j + 1);
    assert ts[..j + 1][..i] == ts[..i];
    SuffixBound(b, ts[..j + 1], i, ts[..i], ts[j] - ts[i]);
  }

  lemma MonotoneReadings(start: int, ts: seq<int>, i: nat, j: nat)
    requires InTime(start, ts) && i <= j < |ts|
    ensures ts[i] <= ts[j]
  {
    InTimeTail(start, ts, i);
    InTimeTail(ts[i], ts[i..], j - i);
  }

  function Repeat(t: int, n: nat): (r: seq<int>)
    ensures |r| == n && forall i | 0 <= i < n :: r[i] == t
  {
    seq(n, _ => t)
  }

  /** A burst at one instant empties the bucket token by token. */
  lemma {:induction false} Burst(b: Bucket, t: int, n: nat)
    requires Valid(b) && NewTokens(b, t) <= 0 && n <= b.tokens
    ensures Allowed(b, Repeat(t, n)) == n && After(b, Repeat(t, n)) == b.(tokens := b.tokens - n)
    decreases n
  {
    if n > 0 {
      assert Repeat(t, n)[1..] == Repeat(t, n - 1);
      Burst(Call(b, t), t, n - 1);
    }
  }

  /** One call in numbers: what is left, with the permit if one was given, is what there was and what
      the time since the last refill has earned in whole tokens, up to the rate; and the refill time
      moves exactly when a whole token was earned. */
  lemma CallExact(b: Bucket, t: int)
    requires Valid(b)
    ensures var earned := b.rate * (t - b.lastFill) / SECOND;
            var c := Call(b, t);
            && c.tokens + (if Allows(b, t) then 1 else 0) == Min(b.rate, b.tokens + Max(0, earned))
            && (Allows(b, t) <==> b.tokens > 0 || earned > 0)
            && c.lastFill == (if earned > 0 then t else b.lastFill)
            && c.rate == b.rate
  {
  }

  /** At an instant at which nothing is earned, calls get what there is. */
  lemma {:induction false} DryBurst(b: Bucket, t: int, n: nat)
    requires Valid(b) && NewTokens(b, t) <= 0
    ensures Allowed(b, Repeat(t, n)) == Min(n, b.tokens)
    decreases n
  {
    if n > 0 {
      assert Repeat(t, n)[1..] == Repeat(t, n - 1);
      DryBurst(Call(b, t), t, n - 1);
    }
  }

  /** A burst in numbers: of n calls at one instant exactly
      min(n, rate, tokens + floor(rate * time since the last refill)) are allowed. */
  lemma BurstExact(b: Bucket, t: int, n: nat)
    requires Valid(b) && b.lastFill <= t
    ensures Allowed(b, Repeat(t, n)) == Min(n, Min(b.rate, b.tokens + b.rate * (t - b.lastFill) / SECOND))
  {
    hide Allowed, Repeat, Call, Allows;
    EarnedIsNonNegative(b, t);
    if n > 0 {
      CallFacts(b, t);
      CallExact(b, t);
      FirstOfBurst(b, t, n);
      NothingMoreToMint(b, t);
      DryBurst(Call(b, t), t, n - 1);
    } else {
      NoBurst(b, t);
    }
  }

  lemma EarnedIsNonNegative(b: Bucket, t: int)
    requires Valid(b) && b.lastFill <= t
    ensures b.rate * (t - b.lastFill) / SECOND >= 0
  {
    ScaleMonotone(b.rate, 0, t - b.lastFill);
  }

  lemma NoBurst(b: Bucket, t: int)
    ensures Allowed(b, Repeat(t, 0)) == 0
  {
  }

  lemma FirstOfBurst(b: Bucket, t: int, n: nat)
    requires n > 0
    ensures Allowed(b, Repeat(t, n)) == (if Allows(b, t) then 1 else 0) + Allowed(Call(b, t), Repeat(t, n - 1))
  {
    assert Repeat(t, n)[1..] == Repeat(t, n - 1);
  }

  /** A second after its last refill an empty bucket is full again. */
  lemma FullRefill(b: Bucket, t: int)
    requires Valid(b) && b.lastFill + SECOND <= t
    ensures Allowed(b, Repeat(t, b.rate)) == b.rate
  {
    var ts := Repeat(t, b.rate);
    ScaleMonotone(b.rate, SECOND, t - b.lastFill);
    AtLeast(b.rate, b.rate * (t - b.lastFill));
    assert ts[1..] == Repeat(t, b.rate - 1);
    Burst(Call(b, t), t, b.rate - 1);
  }

  lemma AtLeast(k: int, x: int)
    requires x >= k * SECOND
    ensures x / SECOND >= k
  {
  }

  /** A burst that empties the bucket at one instant, and one of a whole rate a second later. */
  lemma TwoBursts(b: Bucket, t: int)
    requires Valid(b) && b.lastFill <= t
    ensures var k := Refill(b, t).tokens;
            var ts := Repeat(t, k) + Repeat(t + SECOND, b.rate);
            InTime(b.lastFill, ts) && Allowed(b, ts) == k + b.rate
  {
    hide Allowed, After, Repeat, InTime;
    var k := Refill(b, t).tokens;
    var ts := Repeat(t, k) + Repeat(t + SECOND, b.rate);
    assert ts[..k] == Repeat(t, k) && ts[k..] == Repeat(t + SECOND, b.rate);
    Split(b, ts, k);
    FirstBurst(b, t, k);
    FullRefill(After(b, Repeat(t, k)), t + SECOND);
    NonDecreasingIsInTime(b.lastFill, ts);
  }

  lemma FirstBurst(b: Bucket, t: int, k: nat)
    requires Valid(b) && b.lastFill <= t && k == Refill(b, t).tokens
    ensures Allowed(b, Repeat(t, k)) == k
    ensures var e := After(b, Repeat(t, k));
            Valid(e) && e.rate == b.rate && e.lastFill <= t
  {
    CallFacts(b, t);
    if k > 0 {
      var c := Call(b, t);
      assert Repeat(t, k)[1..] == Repeat(t, k - 1);
      NothingMoreToMint(b, t);
      Burst(c, t, k - 1);
    }
  }

  lemma NothingMoreToMint(b: Bucket, t: int)
    requires Valid(b) && b.lastFill <= t
    ensures NewTokens(Call(b, t), t) <= 0
  {
  }

  /** The window bound is attained at every rate: a full bucket lets 2 * rate calls through within
      one second, twice the documented requests per second. */
  lemma TwiceTheRateInOneSecond(rate: int, t: int)
    requires rate > 0 && t > ZERO_TIME
    ensures var ts := Repeat(t, rate) + Repeat(t + SECOND, rate);
            && InTime(t, ts) && ts[|ts| - 1] - ts[0] == SECOND
            && Allowed(Bucket(rate, rate, t), ts) == 2 * rate == Budget(rate, SECOND)
  {
    TwoBursts(Bucket(rate, rate, t), t);
    DivModUnique(rate * SECOND + SECOND - 1, SECOND, rate, SECOND - 1);
  }

  /** The second that starts at t keeps to the rate, whenever its calls come. */
  ghost predicate SecondKeepsRate(b: Bucket, t: int) {
    forall ts | ts != [] && ts[0] == t && InTime(b.lastFill, ts) && ts[|ts| - 1] <= t + SECOND ::
      Allowed(b, ts) <= b.rate
  }

  lemma RefusedFirst(b: Bucket, t: int, ts: seq<int>)
    requires Valid(b) && b.tokens == 0 && b.rate * (t - b.lastFill) < SECOND
    requires ts != [] && ts[0] == t && InTime(b.lastFill, ts) && ts[|ts| - 1] <= t + SECOND
    ensures Allowed(b, ts) <= b.rate
  {
    TokensAreEarned(b, ts);
    var adv := After(b, ts).lastFill - b.lastFill;
    LastReading(b.lastFill, ts);
    ScaleMonotone(b.rate, adv, SECOND + (t - b.lastFill));
    assert b.rate * (SECOND + (t - b.lastFill)) == b.rate * SECOND + b.rate * (t - b.lastFill);
  }

  /** The documented "requests per second" is kept through the second that starts with a call at t
      exactly when that call finds the bucket empty and not one token's time has passed. */
  lemma RateHoldsIff(b: Bucket, t: int)
    requires Valid(b) && b.lastFill <= t
    ensures SecondKeepsRate(b, t) <==> b.tokens == 0 && b.rate * (t - b.lastFill) < SECOND
  {
    if b.tokens == 0 && b.rate * (t - b.lastFill) < SECOND {
      forall ts | ts != [] && ts[0] == t && InTime(b.lastFill, ts) && ts[|ts| - 1] <= t + SECOND
        ensures Allowed(b, ts) <= b.rate
      {
        RefusedFirst(b, t, ts);
      }
    } else {
      var k := Refill(b, t).tokens;
      SomethingToTake(b, t);
      TwoBursts(b, t);
      var ts := Repeat(t, k) + Repeat(t + SECOND, b.rate);
      assert ts[0] == t && ts[|ts| - 1] == t + SECOND && Allowed(b, ts) > b.rate;
    }
  }

  lemma SomethingToTake(b: Bucket, t: int)
    requires Valid(b) && b.lastFill <= t && !(b.tokens == 0 && b.rate * (t - b.lastFill) < SECOND)
    ensures Refill(b, t).tokens > 0
  {
    if b.rate * (t - b.lastFill) >= SECOND {
      DivAtLeastOne(b.rate * (t - b.lastFill));
    }
  }

  lemma {:induction false} NonDecreasingIsInTime(start: int, ts: seq<int>)
    requires forall i | 0 <= i < |ts| :: start <= ts[i]
    requires forall i, j | 0 <= i < j < |ts| :: ts[i] <= ts[j]
    ensures InTime(start, ts)
    decreases |ts|
  {
    if ts != [] {
      NonDecreasingIsInTime(ts[0], ts[1..]);
    }
  }

  // ---------------------------------------------------------------- lower bounds

  /** The cap never cuts a refill of this run. */
  ghost predicate NeverCapped(b: Bucket, ts: seq<int>)
    decreases |ts|
  {
    ts != [] ==> b.tokens + Max(0, NewTokens(b, ts[0])) <= b.rate && NeverCapped(Call(b, ts[0]), ts[1..])
  }

  lemma MintCoversHalf(b: Bucket, now: int)
    requires Valid(b) && b.lastFill <= now
    ensures var m := Max(0, NewTokens(b, now));
            var step := b.rate * (Call(b, now).lastFill - b.lastFill);
            if m == 0 then step == 0 else step < 2 * m * SECOND
  {
    var x := b.rate * (now - b.lastFill);
    assert x == SECOND * (x / SECOND) + x % SECOND;
  }

  /** Lower bound: the time for which refills were taken is worth less than twice the tokens they
      minted, so truncation never costs half of the nominal rate; and while the cap never bites
      every minted token is either still there or was handed out. */
  lemma {:induction false} TruncationCostsLessThanHalf(b: Bucket, ts: seq<int>)
    requires Valid(b) && InTime(b.lastFill, ts)
    ensures var spent := b.rate * (After(b, ts).lastFill - b.lastFill);
            && (Minted(b, ts) == 0 ==> spent == 0)
            && (Minted(b, ts) > 0 ==> spent < 2 * Minted(b, ts) * SECOND)
    ensures NeverCapped(b, ts) ==> After(b, ts).tokens + Allowed(b, ts) == b.tokens + Minted(b, ts)
    decreases |ts|
  {
    if ts != [] {
      var c := Call(b, ts[0]);
      CallFacts(b, ts[0]);
      MintCoversHalf(b, ts[0]);
      LooserStart(c.lastFill, ts[0], ts[1..]);
      TruncationCostsLessThanHalf(c, ts[1..]);
      var e := After(b, ts);
      assert b.rate * (e.lastFill - b.lastFill) ==
             b.rate * (e.lastFill - c.lastFill) + b.rate * (c.lastFill - b.lastFill);
    }
  }

  /** Readings at least one token's time apart, the first counted from start. */
  ghost predicate Paced(rate: int, start: int, ts: seq<int>)
    decreases |ts|
  {
    ts != [] ==> rate * (ts[0] - start) >= SECOND && Paced(rate, ts[0], ts[1..])
  }

  /** A client that waits one token's time between calls is never refused, whatever the bucket held. */
  lemma {:induction false} PacedCallsAlwaysPass(b: Bucket, ts: seq<int>)
    requires Valid(b) && Paced(b.rate, b.lastFill, ts)
    ensures Allowed(b, ts) == |ts|
    decreases |ts|
  {
    if ts != [] {
      var x := b.rate * (ts[0] - b.lastFill);
      DivAtLeastOne(x);
      PacedCallsAlwaysPass(Call(b, ts[0]), ts[1..]);
    }
  }

  lemma DivAtLeastOne(x: int)
    requires x >= SECOND
    ensures x / SECOND >= 1
  {
  }
}

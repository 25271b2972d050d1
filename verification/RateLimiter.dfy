/** The token bucket in front of a site: `rps` tokens at most, refilled at `rps` per second. Times are seconds. */
module RateLimiting {

  datatype Bucket = Bucket(tokens: real, lastRefill: real)

  /** `n * x` as repeated addition, which keeps the reasoning below linear. */
  function Times(n: nat, x: real): (r: real) {
    if n == 0 then 0.0 else x + Times(n - 1, x)
  }

  lemma {:induction false} TimesIs(n: nat, x: real)
    ensures Times(n, x) == n as real * x
  {
    if n == 0 {
    } else {
      TimesIs(n - 1, x);
      assert n as real * x == (n - 1) as real * x + x;
    }
  }

  lemma {:induction false} TimesAdds(n: nat, x: real, y: real)
    ensures Times(n, x + y) == Times(n, x) + Times(n, y)
  {
    if n == 0 {
    } else {
      TimesAdds(n - 1, x, y);
    }
  }

  lemma {:induction false} TimesNonNegative(n: nat, x: real)
    requires 0.0 <= x
    ensures 0.0 <= Times(n, x)
  {
    if n == 0 {
    } else {
      TimesNonNegative(n - 1, x);
    }
  }

  function Full(rps: nat, now: real): (b: Bucket) {
    Bucket(rps as real, now)
  }

  function Refilled(b: Bucket, rps: nat, now: real): (r: Bucket) {
    var tokens := b.tokens + Times(rps, now - b.lastRefill);
    Bucket(if tokens > rps as real then rps as real else tokens, now)
  }

  predicate Admits(b: Bucket, rps: nat, now: real) {
    Refilled(b, rps, now).tokens >= 1.0
  }

  function Next(b: Bucket, rps: nat, now: real): (r: Bucket) {
    var f := Refilled(b, rps, now);
    if Admits(b, rps, now) then f.(tokens := f.tokens - 1.0) else f
  }

  // ---- Runs: a limiter made at `start`, called at `times` ----

  function After(rps: nat, start: real, times: seq<real>): (b: Bucket) {
    if times == [] then Full(rps, start)
    else Next(After(rps, start, times[..|times| - 1]), rps, times[|times| - 1])
  }

  predicate Admitted(rps: nat, start: real, times: seq<real>, i: nat)
    requires i < |times|
  {
    Admits(After(rps, start, times[..i]), rps, times[i])
  }

  /** How many of the calls `i..j` are admitted. */
  function Count(rps: nat, start: real, times: seq<real>, i: nat, j: nat): (n: nat)
    requires i <= j <= |times|
  {
    if i == j then 0
    else Count(rps, start, times, i, j - 1) + if Admitted(rps, start, times, j - 1) then 1 else 0
  }

  ghost predicate Monotone(start: real, times: seq<real>) {
    && (forall i | 0 <= i < |times| :: start <= times[i])
    && (forall i, j | 0 <= i < j < |times| :: times[i] <= times[j])
  }

  lemma NextWithin(b: Bucket, rps: nat, now: real)
    requires 0.0 <= b.tokens <= rps as real && b.lastRefill <= now
    ensures 0.0 <= Next(b, rps, now).tokens <= rps as real && Next(b, rps, now).lastRefill == now
  {
    TimesNonNegative(rps, now - b.lastRefill);
  }

  /** The bucket never goes negative and never exceeds its capacity. */
  lemma {:induction false} TokensWithin(rps: nat, start: real, times: seq<real>)
    requires Monotone(start, times)
    ensures 0.0 <= After(rps, start, times).tokens <= rps as real
    ensures After(rps, start, times).lastRefill == if times == [] then start else times[|times| - 1]
    decreases |times|
  {
    if times == [] {
    } else {
      var n := |times| - 1;
      TokensWithin(rps, start, times[..n]);
      NextWithin(After(rps, start, times[..n]), rps, times[n]);
    }
  }

  /** One call: tokens left plus the call admitted are old tokens and elapsed time, less what the capacity cuts off. */
  lemma NextConserves(b: Bucket, rps: nat, now: real, spent: real)
    requires spent == if Admits(b, rps, now) then 1.0 else 0.0
    ensures Next(b, rps, now).tokens + spent <= b.tokens + Times(rps, now - b.lastRefill)
    ensures Next(b, rps, now).tokens + spent <= rps as real
    ensures b.tokens + Times(rps, now - b.lastRefill) <= rps as real ==>
      Next(b, rps, now).tokens + spent == b.tokens + Times(rps, now - b.lastRefill)
  {
  }

  lemma AfterOneMore(rps: nat, start: real, times: seq<real>, j: nat)
    requires 0 < j <= |times|
    ensures After(rps, start, times[..j]) == Next(After(rps, start, times[..j - 1]), rps, times[j - 1])
  {
    assert times[..j][..j - 1] == times[..j - 1];
  }

  /** The last refill was at the last call. */
  lemma RefilledAt(rps: nat, start: real, times: seq<real>, j: nat)
    requires Monotone(start, times) && 0 < j <= |times|
    ensures After(rps, start, times[..j]).lastRefill == times[j - 1]
  {
    TokensWithin(rps, start, times[..j]);
  }

  lemma RefillsOne(rps: nat, elapsed: real)
    requires 0 < rps && elapsed >= 1.0 / rps as real
    ensures Times(rps, elapsed) >= 1.0
  {
    var r := rps as real;
    TimesNonNegative(rps, elapsed - 1.0 / r);
    TimesAdds(rps, elapsed - 1.0 / r, 1.0 / r);
    TimesIs(rps, 1.0 / r);
  }

  /** Calls at least 1/rps apart are never denied. */
  lemma SpacedNeverDenied(rps: nat, start: real, times: seq<real>, i: nat)
    requires 0 < rps && Monotone(start, times) && i < |times|
    requires forall k | 0 < k < |times| :: times[k] - times[k - 1] >= 1.0 / rps as real
    ensures Admitted(rps, start, times, i)
  {
    TokensWithin(rps, start, times[..i]);
    if i == 0 {
      TimesNonNegative(rps, times[0] - start);
    } else {
      RefillsOne(rps, times[i] - times[i - 1]);
    }
  }

  /** The bound is met: of simultaneous first calls exactly the first `rps` are admitted. */
  lemma {:induction false} BurstIsExact(rps: nat, now: real, times: seq<real>, i: nat)
    requires (forall k | 0 <= k < |times| :: times[k] == now) && i < |times|
    ensures Admitted(rps, now, times, i) <==> i < rps
    ensures After(rps, now, times[..i]) == Bucket((if i < rps then rps - i else 0) as real, now)
    decreases i
  {
    if i == 0 {
    } else {
      BurstIsExact(rps, now, times, i - 1);
      assert times[..i][..i - 1] == times[..i - 1];
    }
    TimesIs(rps, 0.0);
  }

  // ---- Exactly which calls are denied ----

  /** The tokens a call finds once the bucket is refilled. */
  function Found(rps: nat, start: real, times: seq<real>, k: nat): (tokens: real)
    requires k < |times|
  {
    Refilled(After(rps, start, times[..k]), rps, times[k]).tokens
  }

  /** A call finds what the one before left and what the time between them refilled, up to the capacity. */
  lemma FoundNext(rps: nat, start: real, times: seq<real>, k: nat)
    requires Monotone(start, times) && k + 1 < |times|
    ensures var left := Found(rps, start, times, k) - if Admitted(rps, start, times, k) then 1.0 else 0.0;
      var full := left + Times(rps, times[k + 1] - times[k]);
      Found(rps, start, times, k + 1) == if full > rps as real then rps as real else full
  {
    AfterOneMore(rps, start, times, k + 1);
    RefilledAt(rps, start, times, k + 1);
  }

  lemma FirstFindsFull(rps: nat, start: real, times: seq<real>)
    requires Monotone(start, times) && times != []
    ensures Found(rps, start, times, 0) == rps as real
  {
    TimesNonNegative(rps, times[0] - start);
  }

  lemma CountOneMore(rps: nat, start: real, times: seq<real>, i: nat, j: nat)
    requires i <= j < |times|
    ensures Count(rps, start, times, i, j + 1) as real ==
      Count(rps, start, times, i, j) as real + if Admitted(rps, start, times, j) then 1.0 else 0.0
  {
  }

  /** What a call finds is paid for by the capacity and the time since any earlier call, less what was admitted. */
  lemma {:induction false} FoundAtMost(rps: nat, start: real, times: seq<real>, i: nat, j: nat)
    requires Monotone(start, times) && i <= j < |times|
    ensures Found(rps, start, times, j) + Count(rps, start, times, i, j) as real <=
      rps as real + Times(rps, times[j] - times[i])
    decreases j
  {
    if i == j {
      TimesNonNegative(rps, 0.0);
    } else {
      FoundAtMost(rps, start, times, i, j - 1);
      FoundNext(rps, start, times, j - 1);
      CountOneMore(rps, start, times, i, j - 1);
      TimesAdds(rps, times[j - 1] - times[i], times[j] - times[j - 1]);
    }
  }

  lemma FoundWithin(rps: nat, start: real, times: seq<real>, k: nat)
    requires Monotone(start, times) && k < |times|
    ensures 0.0 <= Found(rps, start, times, k) <= rps as real
  {
    assert Monotone(start, times[..k]);
    TokensWithin(rps, start, times[..k]);
    TimesNonNegative(rps, times[k] - After(rps, start, times[..k]).lastRefill);
  }

  /** In any window of `d` seconds at most `rps + rps * d` calls are admitted. */
  lemma WindowBound(rps: nat, start: real, times: seq<real>, i: nat, j: nat, d: real)
    requires Monotone(start, times) && i < j <= |times| && times[j - 1] - times[i] <= d
    ensures Count(rps, start, times, i, j) as real <= rps as real + rps as real * d
  {
    var last := times[j - 1] - times[i];
    FoundAtMost(rps, start, times, i, j - 1);
    FoundWithin(rps, start, times, j - 1);
    CountOneMore(rps, start, times, i, j - 1);
    TimesNonNegative(rps, d - last);
    TimesAdds(rps, last, d - last);
    TimesIs(rps, d);
  }

  lemma TimesZero(rps: nat)
    ensures Times(rps, 0.0) == 0.0
  {
    TimesIs(rps, 0.0);
  }

  /** And exactly so since the last call that found the bucket full. */
  lemma {:induction false} FoundSinceFull(rps: nat, start: real, times: seq<real>, j: nat) returns (i: nat)
    requires Monotone(start, times) && j < |times|
    ensures i <= j && Found(rps, start, times, i) == rps as real
    ensures Found(rps, start, times, j) + Count(rps, start, times, i, j) as real ==
      rps as real + Times(rps, times[j] - times[i])
    decreases j
  {
    TimesZero(rps);
    if j == 0 {
      FirstFindsFull(rps, start, times);
      i := 0;
    } else if Found(rps, start, times, j) == rps as real {
      i := j;
    } else {
      i := FoundSinceFull(rps, start, times, j - 1);
      FoundNext(rps, start, times, j - 1);
      CountOneMore(rps, start, times, i, j - 1);
      TimesAdds(rps, times[j - 1] - times[i], times[j] - times[j - 1]);
    }
  }

  /** How many calls a full bucket and `d` seconds pay for. */
  function Budget(rps: nat, d: real): (n: real) {
    rps as real * (1.0 + d)
  }

  lemma BudgetIs(rps: nat, d: real)
    ensures Budget(rps, d) == rps as real + Times(rps, d)
  {
    TimesIs(rps, d);
    Distribute(rps as real, d);
  }

  lemma Distribute(r: real, d: real)
    ensures r * (1.0 + d) == r + r * d
  {
  }

  /** From call `i` on as many calls were admitted as the capacity and the time since then pay for. */
  ghost predicate UsedUp(rps: nat, start: real, times: seq<real>, i: nat, j: nat)
    requires i <= j < |times|
  {
    Count(rps, start, times, i, j) as real > Budget(rps, times[j] - times[i]) - 1.0
  }

  lemma DeniedSinceFull(rps: nat, start: real, times: seq<real>, j: nat) returns (i: nat)
    requires Monotone(start, times) && j < |times| && !Admitted(rps, start, times, j)
    ensures i <= j && Found(rps, start, times, i) == rps as real && UsedUp(rps, start, times, i, j)
  {
    i := FoundSinceFull(rps, start, times, j);
    BudgetIs(rps, times[j] - times[i]);
  }

  lemma UsedUpDenied(rps: nat, start: real, times: seq<real>, i: nat, j: nat)
    requires Monotone(start, times) && i <= j < |times| && UsedUp(rps, start, times, i, j)
    ensures !Admitted(rps, start, times, j)
  {
    FoundAtMost(rps, start, times, i, j);
    BudgetIs(rps, times[j] - times[i]);
  }

  /**
   * A call is denied exactly when, since some call, as many were admitted as the capacity and the time since then pay
   * for; that call can be the last one that found the bucket full.
   */
  lemma DeniedExactly(rps: nat, start: real, times: seq<real>, j: nat)
    requires Monotone(start, times) && j < |times|
    ensures !Admitted(rps, start, times, j) <==> exists i: nat :: i <= j && UsedUp(rps, start, times, i, j)
  {
    if !Admitted(rps, start, times, j) {
      var i := DeniedSinceFull(rps, start, times, j);
    }
    if i: nat :| i <= j && UsedUp(rps, start, times, i, j) {
      UsedUpDenied(rps, start, times, i, j);
    }
  }

  // ---- The object ----

  class RateLimiter {
    var tokens: real
    const maxTokens: real
    const refillRate: real
    var lastRefill: real

    ghost predicate Valid(rps: nat)
      reads this
    {
      maxTokens == rps as real && refillRate == rps as real && 0.0 <= tokens <= maxTokens
    }

    ghost function State(): (b: Bucket)
      reads this
    {
      Bucket(tokens, lastRefill)
    }

    constructor (rps: nat, now: real)
      ensures Valid(rps) && State() == Full(rps, now)
    {
      tokens, maxTokens, refillRate, lastRefill := rps as real, rps as real, rps as real, now;
    }

    method Refill(now: real, ghost rps: nat)
      requires Valid(rps)
      modifies this
      ensures State() == Refilled(old(State()), rps, now)
    {
      var elapsed := now - lastRefill;
      TimesIs(rps, elapsed);
      lastRefill := now;
      tokens := tokens + elapsed * refillRate;
      if tokens > maxTokens {
        tokens := maxTokens;
      }
    }

    method Allow(now: real, ghost rps: nat) returns (ok: bool)
      requires Valid(rps) && lastRefill <= now
      modifies this
      ensures Valid(rps)
      ensures State() == Next(old(State()), rps, now) && ok == Admits(old(State()), rps, now)
    {
      NextWithin(State(), rps, now);
      Refill(now, rps);
      if tokens < 1.0 {
        return false;
      }
      tokens := tokens - 1.0;
      return true;
    }
  }
}

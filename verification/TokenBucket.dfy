/** The token bucket of one agent pair, and exactly which requests it admits. */
module TokenBuckets {

  function Min(a: real, b: real): real { if a <= b then a else b }

  /** The value of a bucket. */
  datatype Bucket = Bucket(tokens: real, capacity: real, refillRate: real, lastRefill: real)
  {
    /** The tokens present at `now`, before the request is judged. */
    function Refilled(now: real): real {
      Min(capacity, tokens + (now - lastRefill) * refillRate)
    }

    predicate Admits(now: real) {
      Refilled(now) >= 1.0
    }

    function Consume(now: real): Bucket {
      this.(tokens := if Admits(now) then Refilled(now) - 1.0 else Refilled(now), lastRefill := now)
    }
  }

  class TokenBucket {
    var tokens: real
    const capacity: real
    const refillRate: real
    var lastRefill: real

    constructor (tokens: real, capacity: real, refillRate: real, lastRefill: real)
      ensures Value() == Bucket(tokens, capacity, refillRate, lastRefill)
    {
      this.tokens, this.capacity, this.refillRate, this.lastRefill := tokens, capacity, refillRate, lastRefill;
    }

    function Value(): Bucket
      reads this
    {
      Bucket(tokens, capacity, refillRate, lastRefill)
    }

    /** Take one token, refilling first for the time elapsed; false when rate limited. */
    method Consume(now: real) returns (ok: bool)
      modifies this
      ensures ok == old(Value()).Admits(now)
      ensures Value() == old(Value()).Consume(now)
    {
      var elapsed := now - lastRefill;
      tokens := if capacity <= tokens + elapsed * refillRate then capacity else tokens + elapsed * refillRate;
      lastRefill := now;
      if tokens >= 1.0 {
        tokens := tokens - 1.0;
        return true;
      }
      return false;
    }
  }

  // --------------------------------------------------------------------
  // The whole history of a pair
  // --------------------------------------------------------------------

  /** A pair's first request creates its bucket, full. */
  function Fresh(capacity: real, rate: real, now: real): Bucket {
    Bucket(capacity, capacity, rate, now)
  }

  /** The bucket before the request at `times[k]` is judged. */
  function BeforeRequest(capacity: real, rate: real, times: seq<real>, k: nat): Bucket
    requires k < |times|
  {
    if k == 0 then Fresh(capacity, rate, times[0])
    else BeforeRequest(capacity, rate, times, k - 1).Consume(times[k - 1])
  }

  predicate Admitted(capacity: real, rate: real, times: seq<real>, k: nat)
    requires k < |times|
  {
    BeforeRequest(capacity, rate, times, k).Admits(times[k])
  }

  /** How many of the requests from `i` to `k - 1` were admitted. */
  function AdmittedIn(capacity: real, rate: real, times: seq<real>, i: nat, k: nat): nat
    requires i <= k <= |times|
  {
    if i == k then 0
    else AdmittedIn(capacity, rate, times, i, k - 1) + (if Admitted(capacity, rate, times, k - 1) then 1 else 0)
  }

  /** What is left for request `k` of a full bucket at request `i`. */
  function Allowance(capacity: real, rate: real, times: seq<real>, i: nat, k: nat): real
    requires i <= k < |times|
  {
    capacity + rate * (times[k] - times[i]) - AdmittedIn(capacity, rate, times, i, k) as real
  }

  lemma {:induction false} BucketKeepsRates(capacity: real, rate: real, times: seq<real>, k: nat)
    requires k < |times|
    ensures BeforeRequest(capacity, rate, times, k).capacity == capacity
    ensures BeforeRequest(capacity, rate, times, k).refillRate == rate
  {
    if k > 0 { BucketKeepsRates(capacity, rate, times, k - 1); }
  }

  function Tokens(capacity: real, rate: real, times: seq<real>, k: nat): real
    requires k < |times|
  {
    BeforeRequest(capacity, rate, times, k).Refilled(times[k])
  }

  function Taken(capacity: real, rate: real, times: seq<real>, k: nat): real
    requires k < |times|
  {
    if Admitted(capacity, rate, times, k) then 1.0 else 0.0
  }

  /** The bucket between two requests. */
  lemma LeftBetween(capacity: real, rate: real, times: seq<real>, k: nat)
    requires 0 < k < |times|
    ensures BeforeRequest(capacity, rate, times, k)
            == Bucket(Tokens(capacity, rate, times, k - 1) - Taken(capacity, rate, times, k - 1),
                      capacity, rate, times[k - 1])
  {
    BucketKeepsRates(capacity, rate, times, k - 1);
  }

  lemma RefilledFrom(left: real, capacity: real, rate: real, last: real, now: real)
    ensures Bucket(left, capacity, rate, last).Refilled(now) == Min(capacity, left + rate * (now - last))
  {
  }

  lemma TokensStep(capacity: real, rate: real, times: seq<real>, k: nat)
    requires 0 < k < |times|
    ensures Tokens(capacity, rate, times, k)
            == Min(capacity, Tokens(capacity, rate, times, k - 1) - Taken(capacity, rate, times, k - 1)
                             + rate * (times[k] - times[k - 1]))
  {
    LeftBetween(capacity, rate, times, k);
    RefilledFrom(Tokens(capacity, rate, times, k - 1) - Taken(capacity, rate, times, k - 1), capacity, rate,
                 times[k - 1], times[k]);
  }

  lemma AllowanceStep(capacity: real, rate: real, times: seq<real>, i: nat, k: nat)
    requires i < k < |times|
    ensures Allowance(capacity, rate, times, i, k)
            == Allowance(capacity, rate, times, i, k - 1) - Taken(capacity, rate, times, k - 1)
               + rate * (times[k] - times[k - 1])
  {
    Distribute(rate, times[k], times[k - 1], times[i]);
  }

  lemma {:induction false} TokensAtMostAllowance(capacity: real, rate: real, times: seq<real>, i: nat, k: nat)
    requires i <= k < |times|
    ensures Tokens(capacity, rate, times, k) <= Allowance(capacity, rate, times, i, k)
    decreases k
  {
    if i == k {
      BucketKeepsRates(capacity, rate, times, k);
    } else {
      TokensAtMostAllowance(capacity, rate, times, i, k - 1);
      TokensStep(capacity, rate, times, k);
      AllowanceStep(capacity, rate, times, i, k);
    }
  }

  /** The tokens at a request are exactly what some earlier request leaves. */
  lemma {:induction false} TokensAreSomeAllowance(capacity: real, rate: real, times: seq<real>, k: nat) returns (i: nat)
    requires k < |times|
    ensures i <= k && Tokens(capacity, rate, times, k) == Allowance(capacity, rate, times, i, k)
  {
    i := k;
    if k > 0 {
      var earlier := TokensAreSomeAllowance(capacity, rate, times, k - 1);
      TokensStep(capacity, rate, times, k);
      AllowanceStep(capacity, rate, times, earlier, k);
      if Tokens(capacity, rate, times, k) != capacity { i := earlier; }
    }
  }

  lemma Distribute(rate: real, a: real, b: real, c: real)
    ensures rate * (a - c) == rate * (a - b) + rate * (b - c)
  {
  }

  /** From each earlier request on, and from request `k` itself, the admitted
      requests plus this one fit in the capacity plus what flowed in since. */
  ghost predicate FitsEveryWindow(capacity: real, rate: real, times: seq<real>, k: nat)
    requires k < |times|
  {
    forall i: nat | i <= k ::
      AdmittedIn(capacity, rate, times, i, k) as real + 1.0 <= capacity + rate * (times[k] - times[i])
  }

  /**
   Bucket exactness: whatever the request times, a request is admitted exactly
   if it fits every window that ends with it.
   */
  lemma BucketIsExact(capacity: real, rate: real, times: seq<real>, k: nat)
    requires k < |times|
    ensures Admitted(capacity, rate, times, k) <==> FitsEveryWindow(capacity, rate, times, k)
  {
    if Admitted(capacity, rate, times, k) {
      forall i: nat | i <= k
        ensures AdmittedIn(capacity, rate, times, i, k) as real + 1.0 <= capacity + rate * (times[k] - times[i])
      {
        TokensAtMostAllowance(capacity, rate, times, i, k);
      }
    } else {
      var i := TokensAreSomeAllowance(capacity, rate, times, k);
      assert Tokens(capacity, rate, times, k) < 1.0;
    }
  }

  lemma NonNegative(a: real, b: real)
    requires a >= 0.0 && b >= 0.0
    ensures a * b >= 0.0
  {
  }

  /** From request `i` to request `j` no more are admitted than the capacity plus what flows in between. */
  ghost predicate WindowFits(capacity: real, rate: real, times: seq<real>, i: nat, j: nat)
    requires i <= j < |times|
  {
    AdmittedIn(capacity, rate, times, i, j + 1) as real <= capacity + rate * (times[j] - times[i])
  }

  /** A window grown by a refused request. */
  lemma WindowGrows(capacity: real, rate: real, times: seq<real>, i: nat, j: nat)
    requires rate >= 0.0 && i < j < |times| && times[j - 1] <= times[j]
    requires !Admitted(capacity, rate, times, j) && WindowFits(capacity, rate, times, i, j - 1)
    ensures WindowFits(capacity, rate, times, i, j)
  {
    Distribute(rate, times[j], times[j - 1], times[i]);
    NonNegative(rate, times[j] - times[j - 1]);
  }

  lemma WindowOfOne(capacity: real, rate: real, times: seq<real>, j: nat)
    requires capacity >= 0.0 && j < |times| && !Admitted(capacity, rate, times, j)
    ensures WindowFits(capacity, rate, times, j, j)
  {
    var none := times[j] - times[j];
    assert none == 0.0 && rate * none == 0.0;
    assert AdmittedIn(capacity, rate, times, j, j) == 0;
  }

  /** A window that ends with an admitted request. */
  lemma WindowOfAdmitted(capacity: real, rate: real, times: seq<real>, i: nat, j: nat)
    requires i <= j < |times| && Admitted(capacity, rate, times, j)
    ensures WindowFits(capacity, rate, times, i, j)
  {
    var flow := rate * (times[j] - times[i]);
    TokensAtMostAllowance(capacity, rate, times, i, j);
    assert Allowance(capacity, rate, times, i, j) == capacity + flow - AdmittedIn(capacity, rate, times, i, j) as real;
    assert Tokens(capacity, rate, times, j) >= 1.0;
  }

  lemma {:induction false} EveryWindowFits(capacity: real, rate: real, times: seq<real>, i: nat, j: nat)
    requires capacity >= 0.0 && rate >= 0.0
    requires i <= j < |times|
    requires forall a | 0 < a < |times| :: times[a - 1] <= times[a]
    ensures WindowFits(capacity, rate, times, i, j)
    decreases j
  {
    if Admitted(capacity, rate, times, j) {
      WindowOfAdmitted(capacity, rate, times, i, j);
    } else if i < j {
      EveryWindowFits(capacity, rate, times, i, j - 1);
      WindowGrows(capacity, rate, times, i, j);
    } else {
      WindowOfOne(capacity, rate, times, j);
    }
  }

  /** No window ever admits more than the capacity plus what flows in during it. */
  lemma WindowIsBounded(capacity: real, rate: real, times: seq<real>, i: nat, j: nat)
    requires capacity >= 0.0 && rate >= 0.0
    requires i <= j < |times|
    requires forall a | 0 < a < |times| :: times[a - 1] <= times[a]
    ensures AdmittedIn(capacity, rate, times, i, j + 1) as real <= capacity + rate * (times[j] - times[i])
  {
    EveryWindowFits(capacity, rate, times, i, j);
    assert WindowFits(capacity, rate, times, i, j);
  }
}

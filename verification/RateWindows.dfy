/** How many requests the evicting boundary lets through in any stretch of a run. */
module RateWindows {
  import opened Options
  import opened TokenBuckets
  import opened TrustBoundaries
  import opened TrustHistory

  function Capacity(c: Config): real { c.maxPerMinute as real }

  function Rate(c: Config): real { c.maxPerMinute as real / 60.0 }

  predicate IsRequestOf(op: Op, pair: Pair) {
    op.Evaluate? && (op.sender, op.receiver) == pair
  }

  /** The boundary itself, evicting as it does, let operation `k` of the run through. */
  predicate Passed(c: Config, log: seq<Op>, pair: Pair, k: nat)
    requires k < |log|
  {
    IsRequestOf(log[k], pair) && Apply(Replay(c, log[..k]), log[k]).1 == Decision(None)
  }

  function PassedAt(c: Config, log: seq<Op>, pair: Pair): nat -> bool {
    (k: nat) => k < |log| && Passed(c, log, pair, k)
  }

  function CountIn(f: nat -> bool, lo: nat, hi: nat): nat
    requires lo <= hi
  {
    if lo == hi then 0 else CountIn(f, lo, hi - 1) + (if f(hi - 1) then 1 else 0)
  }

  /** How many of the pair's requests passed from operation `lo` to operation `hi - 1`. */
  function PassedIn(c: Config, log: seq<Op>, pair: Pair, lo: nat, hi: nat): nat
    requires lo <= hi <= |log|
  {
    CountIn(PassedAt(c, log, pair), lo, hi)
  }

  lemma OneLess(places: set<nat>, k: nat)
    ensures |places| == |places - {k}| + (if k in places then 1 else 0)
  {
    if k !in places { assert places - {k} == places; }
  }

  /** Counting misses nothing. */
  lemma {:induction false} AllAreCounted(f: nat -> bool, lo: nat, hi: nat, places: set<nat>)
    requires lo <= hi && forall k | k in places :: lo <= k < hi && f(k)
    ensures |places| <= CountIn(f, lo, hi)
    decreases hi
  {
    if lo < hi {
      OneLess(places, hi - 1);
      AllAreCounted(f, lo, hi - 1, places - {hi - 1});
    } else {
      assert places == {};
    }
  }

  /** When the pair's requests among the first `n` operations reached the rate limit. */
  function TimesUpTo(c: Config, log: seq<Op>, pair: Pair, n: nat): seq<real>
    requires n <= |log|
  {
    RequestTimes(c, log[..n], pair)
  }

  /** What an operation adds to the pair's request times. */
  function NewTimes(c: Config, log: seq<Op>, op: Op, pair: Pair): seq<real> {
    if IsRequestOf(op, pair) && LogGate(c, log, op.sender, op.receiver, op.payloadType, op.wall).None?
      then [op.monoRate] else []
  }

  lemma TimesGrow(c: Config, log: seq<Op>, pair: Pair)
    requires log != []
    ensures RequestTimes(c, log, pair) == RequestTimes(c, Init(log), pair) + NewTimes(c, Init(log), Last(log), pair)
  {
  }

  lemma TimesStep(c: Config, log: seq<Op>, pair: Pair, n: nat)
    requires n < |log|
    ensures TimesUpTo(c, log, pair, n + 1) == TimesUpTo(c, log, pair, n) + NewTimes(c, log[..n], log[n], pair)
  {
    assert Init(log[..n + 1]) == log[..n] && Last(log[..n + 1]) == log[n];
    TimesGrow(c, log[..n + 1], pair);
  }

  ghost predicate NoneAfter(times: seq<real>, last: Option<real>) {
    forall k | 0 <= k < |times| :: last.Some? && times[k] <= last.value
  }

  ghost predicate Ascending(times: seq<real>) {
    forall a | 0 < a < |times| :: times[a - 1] <= times[a]
  }

  /** The clock has read at least every request time. */
  lemma {:induction false} TimesAreRead(c: Config, log: seq<Op>, pair: Pair)
    ensures NoneAfter(RequestTimes(c, log, pair), MonoOf(log))
    decreases |log|
  {
    if log != [] {
      TimesAreRead(c, Init(log), pair);
      TimesGrow(c, log, pair);
      var before, more := RequestTimes(c, Init(log), pair), NewTimes(c, Init(log), Last(log), pair);
      ReadingsGrow(log);
      NoneAfterBoth(before, more, MonoOf(Init(log)), MonoOf(log));
    }
  }

  lemma NoneAfterBoth(before: seq<real>, more: seq<real>, last: Option<real>, later: Option<real>)
    requires NoneAfter(before, last) && NoneAfter(more, later)
    requires last.Some? ==> later.Some? && last.value <= later.value
    ensures NoneAfter(before + more, later)
  {
    forall k | 0 <= k < |before + more|
      ensures later.Some? && (before + more)[k] <= later.value
    {
      if k < |before| {
        assert (before + more)[k] == before[k];
      } else {
        assert (before + more)[k] == more[k - |before|];
      }
    }
  }

  lemma ReadingsGrow(log: seq<Op>)
    requires log != []
    ensures MonoOf(Init(log)).Some? ==> MonoOf(log).Some? && MonoOf(Init(log)).value <= MonoOf(log).value
    ensures Last(log).Evaluate? ==> MonoOf(log).Some? && Last(log).monoRate <= MonoOf(log).value
  {
  }

  lemma {:induction false} TimesAreOrdered(c: Config, log: seq<Op>, pair: Pair)
    requires Ordered(log)
    ensures Ascending(RequestTimes(c, log, pair))
    decreases |log|
  {
    if log != [] {
      TimesAreOrdered(c, Init(log), pair);
      TimesAreRead(c, Init(log), pair);
      TimesGrow(c, log, pair);
      var before, more := RequestTimes(c, Init(log), pair), NewTimes(c, Init(log), Last(log), pair);
      if before != [] && more != [] {
        assert before[|before| - 1] <= more[0];
      }
    }
  }

  lemma SameAdmitted(capacity: real, rate: real, times: seq<real>, more: seq<real>, k: nat)
    requires k < |times| <= |more| && more[..|times|] == times
    ensures Admitted(capacity, rate, times, k) == Admitted(capacity, rate, more, k)
  {
    SamePrefix(capacity, rate, times, more, k);
    assert times[k] == more[..|times|][k];
  }

  lemma {:induction false} SameAdmittedIn(capacity: real, rate: real, times: seq<real>, more: seq<real>, i: nat, k: nat)
    requires i <= k <= |times| <= |more| && more[..|times|] == times
    ensures AdmittedIn(capacity, rate, times, i, k) == AdmittedIn(capacity, rate, more, i, k)
    decreases k
  {
    if i < k {
      SameAdmitted(capacity, rate, times, more, k - 1);
      SameAdmittedIn(capacity, rate, times, more, i, k - 1);
    }
  }

  lemma GatedPasses(c: Config, log: seq<Op>, op: Op, times: seq<real>)
    requires Ordered(log) && OnTime(log, op) && op.Evaluate?
    requires LogGate(c, log, op.sender, op.receiver, op.payloadType, op.wall).None?
    requires times == RequestTimes(c, log, (op.sender, op.receiver)) + [op.monoRate]
    ensures Apply(Replay(c, log), op).1 == Decision(None) <==> Admitted(Capacity(c), Rate(c), times, |times| - 1)
  {
    RateLimitIsExact(c, log, op);
    BucketIsExact(Capacity(c), Rate(c), times, |times| - 1);
  }

  lemma UngatedStops(c: Config, log: seq<Op>, op: Op)
    requires Ordered(log) && OnTime(log, op) && op.Evaluate?
    requires LogGate(c, log, op.sender, op.receiver, op.payloadType, op.wall).Some?
    ensures Apply(Replay(c, log), op).1 != Decision(None)
  {
    EvictionIsUnobservable(c, log, op);
  }

  /** One request of the pair passes exactly if it reaches the rate limit and its bucket admits it. */
  lemma PassedMeans(c: Config, log: seq<Op>, pair: Pair, n: nat, times: seq<real>, more: seq<real>)
    requires Ordered(log) && n < |log|
    requires times == TimesUpTo(c, log, pair, n) && more == NewTimes(c, log[..n], log[n], pair)
    ensures Passed(c, log, pair, n) <==> more != [] && Admitted(Capacity(c), Rate(c), times + more, |times|)
  {
    OrderedPrefix(log, n);
    if IsRequestOf(log[n], pair) {
      if more != [] {
        GatedPasses(c, log[..n], log[n], times + more);
      } else {
        UngatedStops(c, log[..n], log[n]);
      }
    }
  }

  /** The requests that passed are those the bucket admitted. */
  lemma {:induction false} PassedInIsAdmittedIn(c: Config, log: seq<Op>, pair: Pair, lo: nat, hi: nat,
                                                earlier: seq<real>, times: seq<real>)
    requires Ordered(log) && lo <= hi <= |log|
    requires earlier == TimesUpTo(c, log, pair, lo) && times == TimesUpTo(c, log, pair, hi)
    ensures |earlier| <= |times|
    ensures PassedIn(c, log, pair, lo, hi) == AdmittedIn(Capacity(c), Rate(c), times, |earlier|, |times|)
    decreases hi
  {
    if lo < hi {
      var before, more := TimesUpTo(c, log, pair, hi - 1), NewTimes(c, log[..hi - 1], log[hi - 1], pair);
      PassedInIsAdmittedIn(c, log, pair, lo, hi - 1, earlier, before);
      TimesStep(c, log, pair, hi - 1);
      assert times == before + more;
      OneMoreOperation(c, log, pair, hi - 1, before, more, |earlier|);
      assert PassedAt(c, log, pair)(hi - 1) == Passed(c, log, pair, hi - 1);
    }
  }

  lemma OneMoreOperation(c: Config, log: seq<Op>, pair: Pair, n: nat, before: seq<real>, more: seq<real>, i: nat)
    requires Ordered(log) && n < |log| && i <= |before|
    requires before == TimesUpTo(c, log, pair, n) && more == NewTimes(c, log[..n], log[n], pair)
    ensures AdmittedIn(Capacity(c), Rate(c), before + more, i, |before + more|)
            == AdmittedIn(Capacity(c), Rate(c), before, i, |before|) + (if Passed(c, log, pair, n) then 1 else 0)
  {
    PassedMeans(c, log, pair, n, before, more);
    OneMorePassed(Capacity(c), Rate(c), before, more, i);
  }

  lemma OneMorePassed(capacity: real, rate: real, times: seq<real>, more: seq<real>, i: nat)
    requires i <= |times| && |more| <= 1
    ensures AdmittedIn(capacity, rate, times + more, i, |times + more|)
            == AdmittedIn(capacity, rate, times, i, |times|)
               + (if more != [] && Admitted(capacity, rate, times + more, |times|) then 1 else 0)
  {
    SameAdmittedIn(capacity, rate, times, times + more, i, |times|);
  }

  /** The capacity, and what flows in from the first to the last of the requests from `first` on. */
  function Allowed(capacity: real, rate: real, times: seq<real>, first: nat): real {
    if first < |times| then capacity + rate * (times[|times| - 1] - times[first]) else 0.0
  }

  /**
   The rate limit over whole runs. In any stretch of any run, with eviction and
   whatever else happens in between, the boundary lets through no more of a
   pair's requests than the capacity plus what flows in between the first and
   the last of them to reach the rate limit.
   */
  lemma NoStretchPassesMore(c: Config, log: seq<Op>, pair: Pair, lo: nat, hi: nat)
    requires c.maxPerMinute >= 0 && Ordered(log) && lo <= hi <= |log|
    ensures PassedIn(c, log, pair, lo, hi) as real
            <= Allowed(Capacity(c), Rate(c), TimesUpTo(c, log, pair, hi), |TimesUpTo(c, log, pair, lo)|)
  {
    var earlier, times := TimesUpTo(c, log, pair, lo), TimesUpTo(c, log, pair, hi);
    PassedInIsAdmittedIn(c, log, pair, lo, hi, earlier, times);
    TimesUpToAreOrdered(c, log, pair, hi);
    AdmittedIsBounded(Capacity(c), Rate(c), times, |earlier|);
  }

  lemma TimesUpToAreOrdered(c: Config, log: seq<Op>, pair: Pair, n: nat)
    requires Ordered(log) && n <= |log|
    ensures Ascending(TimesUpTo(c, log, pair, n))
  {
    if n < |log| { OrderedPrefix(log, n); } else { assert log[..n] == log; }
    TimesAreOrdered(c, log[..n], pair);
  }

  lemma AdmittedIsBounded(capacity: real, rate: real, times: seq<real>, first: nat)
    requires capacity >= 0.0 && rate >= 0.0 && Ascending(times) && first <= |times|
    ensures AdmittedIn(capacity, rate, times, first, |times|) as real <= Allowed(capacity, rate, times, first)
  {
    if first < |times| {
      var last := |times| - 1;
      WindowIsBounded(capacity, rate, times, first, last);
      FlowIsAllowed(capacity, rate, times, first, last, AdmittedIn(capacity, rate, times, first, last + 1));
    }
  }

  lemma FlowIsAllowed(capacity: real, rate: real, times: seq<real>, first: nat, last: nat, n: nat)
    requires first <= last && last + 1 == |times| && n as real <= capacity + rate * (times[last] - times[first])
    ensures n as real <= Allowed(capacity, rate, times, first)
  {
  }
}

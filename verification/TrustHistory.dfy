/**
 Whole runs of the trust boundary: what it answers depends only on the
 operations so far, never on what eviction has dropped.
 */
module TrustHistory {
  import opened Options
  import opened TokenBuckets
  import opened TrustBoundaries

  datatype Op =
    | Block(agent: string)
    | Trust(agent: string, entry: TrustEntry)
    | Revoke(agent: string)
    | BlockPair(pair: Pair)
    | UnblockPair(pair: Pair)
    | Evaluate(sender: string, receiver: string, payloadType: Option<string>, wall: real, mono: real, monoRate: real)
    // `now` is the caller's choice; without one it is a reading of the wall clock.
    | IsTrusted(agent: string, now: real)
    | CountTrusted(wall: real)

  /** The answer of `Revoke` is not compared: it does depend on eviction. */
  datatype Answer = NoAnswer | Decision(rejection: Option<Rejection>) | Trusted(isTrusted: bool) | Number(count: nat)

  function Apply(b: Boundary, op: Op): (Boundary, Answer) {
    match op
    case Block(a) => (b.BlockAgent(a), NoAnswer)
    case Trust(a, e) => (b.TrustAgent(a, e), NoAnswer)
    case Revoke(a) => (b.(trustedAgents := b.trustedAgents - {a}), NoAnswer)
    case BlockPair(p) => (b.(blockedPairs := b.blockedPairs + {p}), NoAnswer)
    case UnblockPair(p) => (b.(blockedPairs := b.blockedPairs - {p}), NoAnswer)
    case Evaluate(s, r, t, wall, mono, monoRate) =>
      var result := b.Evaluate(s, r, t, wall, mono, monoRate);
      (result.0, Decision(result.1))
    case IsTrusted(a, now) => (b, Trusted(b.IsTrusted(a, now)))
    case CountTrusted(wall) => (b, Number(b.CountTrusted(wall)))
  }

  /** A boundary's fixed settings. */
  datatype Config = Config(maxPerMinute: int, defaultAllow: bool)

  function Replay(c: Config, log: seq<Op>): Boundary {
    if log == [] then Boundary(c.maxPerMinute, c.defaultAllow, {}, map[], {}, map[], None, None)
    else Apply(Replay(c, Init(log)), Last(log)).0
  }

  function Init<T>(s: seq<T>): seq<T>
    requires s != []
  {
    s[..|s| - 1]
  }

  function Last<T>(s: seq<T>): T
    requires s != []
  {
    s[|s| - 1]
  }

  // --------------------------------------------------------------------
  // The reference: a model that looks everything up in the log
  // --------------------------------------------------------------------

  function IsBlocked(log: seq<Op>, agent: string): bool {
    if log == [] then false
    else match Last(log)
      case Block(a) => a == agent || IsBlocked(Init(log), agent)
      case Trust(a, _) => a != agent && IsBlocked(Init(log), agent)
      case _ => IsBlocked(Init(log), agent)
  }

  function GrantOf(log: seq<Op>, agent: string): Option<TrustEntry> {
    if log == [] then None
    else match Last(log)
      case Block(a) => if a == agent then None else GrantOf(Init(log), agent)
      case Trust(a, e) => if a == agent then Some(e) else GrantOf(Init(log), agent)
      case Revoke(a) => if a == agent then None else GrantOf(Init(log), agent)
      case _ => GrantOf(Init(log), agent)
  }

  function IsPairBlocked(log: seq<Op>, pair: Pair): bool {
    if log == [] then false
    else match Last(log)
      case BlockPair(p) => p == pair || IsPairBlocked(Init(log), pair)
      case UnblockPair(p) => p != pair && IsPairBlocked(Init(log), pair)
      case _ => IsPairBlocked(Init(log), pair)
  }

  /** Everyone the log mentions. */
  function Agents(log: seq<Op>): set<string> {
    if log == [] then {}
    else Agents(Init(log)) + (match Last(log) case Trust(a, _) => {a} case Block(a) => {a} case _ => {})
  }

  function LogGate(c: Config, log: seq<Op>, s: string, r: string, t: Option<string>, wall: real): Option<Rejection> {
    if IsBlocked(log, s) then Some(SenderBlocked)
    else if IsBlocked(log, r) then Some(ReceiverBlocked)
    else if IsPairBlocked(log, (s, r)) then Some(PairBlocked)
    else CheckTrust(GrantOf(log, s), GrantOf(log, r), s, r, t, wall, !c.defaultAllow)
  }

  /** The pair's bucket, never evicted: made at the first request that got as far, and drawn from ever since. */
  function BucketOf(c: Config, log: seq<Op>, pair: Pair): Option<Bucket> {
    if log == [] then None
    else
      var before := BucketOf(c, Init(log), pair);
      match Last(log)
      case Evaluate(s, r, t, wall, _, now) =>
        if (s, r) == pair && LogGate(c, Init(log), s, r, t, wall).None?
        then Some((if before.Some? then before.value else FreshBucket(c.maxPerMinute, now)).Consume(now))
        else before
      case _ => before
  }

  function LogTrusted(log: seq<Op>, agent: string, wall: real): bool {
    GrantOf(log, agent).Some? && GrantOf(log, agent).value.IsValid(wall)
  }

  function LogAnswer(c: Config, log: seq<Op>, op: Op): Answer {
    match op
    case Evaluate(s, r, t, wall, _, now) =>
      var gate := LogGate(c, log, s, r, t, wall);
      Decision(
        if gate.Some? then gate
        else
          var bucket := BucketOf(c, log, (s, r));
          if (if bucket.Some? then bucket.value else FreshBucket(c.maxPerMinute, now)).Admits(now) then None
          else Some(RateLimited))
    case IsTrusted(a, wall) => Trusted(LogTrusted(log, a, wall))
    case CountTrusted(wall) => Number(|set a | a in Agents(log) && LogTrusted(log, a, wall)|)
    case _ => NoAnswer
  }

  // --------------------------------------------------------------------
  // Clocks
  // --------------------------------------------------------------------

  function Later(x: Option<real>, y: real): Option<real> {
    if x.Some? && x.value > y then x else Some(y)
  }

  /** The latest reading of the wall clock, and of the monotonic clock, by an evaluation. */
  function WallOf(log: seq<Op>): Option<real> {
    if log == [] then None
    else match Last(log)
      case Evaluate(_, _, _, wall, _, _) => Later(WallOf(Init(log)), wall)
      case _ => WallOf(Init(log))
  }

  function MonoOf(log: seq<Op>): Option<real> {
    if log == [] then None
    else match Last(log)
      case Evaluate(_, _, _, _, _, now) => Later(MonoOf(Init(log)), now)
      case _ => MonoOf(Init(log))
  }

  predicate NotBefore(now: real, last: Option<real>) {
    last.Some? ==> last.value <= now
  }

  /** The clocks do not run backwards into `op`. */
  predicate OnTime(log: seq<Op>, op: Op) {
    match op
    case Evaluate(_, _, _, wall, _, now) => NotBefore(wall, WallOf(log)) && NotBefore(now, MonoOf(log))
    case CountTrusted(wall) => NotBefore(wall, WallOf(log))
    case _ => true
  }

  predicate Ordered(log: seq<Op>) {
    log != [] ==> Ordered(Init(log)) && OnTime(Init(log), Last(log))
  }

  // --------------------------------------------------------------------
  // The boundary agrees with the log
  // --------------------------------------------------------------------

  ghost predicate ExpiredBy(e: TrustEntry, wall: Option<real>) {
    wall.Some? && !e.IsValid(wall.value)
  }

  /** A present grant is the log's; a grant only the log has is expired. */
  ghost predicate GrantFits(b: Boundary, log: seq<Op>, agent: string) {
    if agent in b.trustedAgents then GrantOf(log, agent) == Some(b.trustedAgents[agent])
    else GrantOf(log, agent).Some? ==> ExpiredBy(GrantOf(log, agent).value, WallOf(log))
  }

  ghost predicate BucketIsSane(c: Config, bucket: Bucket) {
    && bucket.capacity == c.maxPerMinute as real
    && bucket.refillRate == c.maxPerMinute as real / 60.0
    && (c.maxPerMinute >= 0 ==> bucket.tokens >= 0.0)
  }

  /** Buckets that answer alike for ever: with a negative limit, every bucket only refuses. */
  ghost predicate Alike(c: Config, x: Bucket, y: Bucket) {
    x == y || (c.maxPerMinute < 0 && BucketIsSane(c, x) && BucketIsSane(c, y) && x.lastRefill == y.lastRefill)
  }

  /** A present bucket answers as the log's; a bucket only the log has went cold. */
  ghost predicate BucketFits(c: Config, b: Boundary, log: seq<Op>, pair: Pair) {
    var reference := BucketOf(c, log, pair);
    && (reference.Some? ==>
          BucketIsSane(c, reference.value) && MonoOf(log).Some? && reference.value.lastRefill <= MonoOf(log).value)
    && (if pair in b.rateLimits then reference.Some? && Alike(c, b.rateLimits[pair], reference.value)
        else reference.Some? ==>
               MonoOf(log).value - reference.value.lastRefill > EVICTION_TTL)
  }

  ghost predicate Agrees(c: Config, b: Boundary, log: seq<Op>) {
    && b.maxPerMinute == c.maxPerMinute && b.defaultAllow == c.defaultAllow
    && (forall a :: a in b.blockedAgents <==> IsBlocked(log, a))
    && (forall p :: p in b.blockedPairs <==> IsPairBlocked(log, p))
    && (forall a :: GrantFits(b, log, a))
    && (forall p :: BucketFits(c, b, log, p))
  }

  lemma SaneAfterConsume(c: Config, bucket: Bucket, now: real)
    requires BucketIsSane(c, bucket) && (now >= bucket.lastRefill || c.maxPerMinute < 0)
    ensures BucketIsSane(c, bucket.Consume(now))
  {
    if c.maxPerMinute >= 0 {
      NonNegative(now - bucket.lastRefill, bucket.refillRate);
      var inflow := (now - bucket.lastRefill) * bucket.refillRate;
      assert bucket.Refilled(now) == Min(bucket.capacity, bucket.tokens + inflow);
    }
  }

  /** A bucket idle beyond the eviction time has refilled: it answers, and goes on, as a fresh one. */
  lemma ColdIsFresh(c: Config, bucket: Bucket, now: real)
    requires BucketIsSane(c, bucket) && now - bucket.lastRefill > EVICTION_TTL
    ensures bucket.Admits(now) == FreshBucket(c.maxPerMinute, now).Admits(now)
    ensures Alike(c, FreshBucket(c.maxPerMinute, now).Consume(now), bucket.Consume(now))
  {
    var inflow := (now - bucket.lastRefill) * bucket.refillRate;
    assert bucket.Refilled(now) == Min(bucket.capacity, bucket.tokens + inflow);
    FreshIsFull(c.maxPerMinute, now);
    if c.maxPerMinute >= 0 {
      Refills(c.maxPerMinute as real, bucket.tokens, now - bucket.lastRefill);
    }
  }

  lemma FreshIsFull(maxPerMinute: int, now: real)
    ensures FreshBucket(maxPerMinute, now).Refilled(now) == maxPerMinute as real
  {
    var none := now - now;
    assert none * (maxPerMinute as real / 60.0) == 0.0;
  }

  lemma Refills(max: real, tokens: real, elapsed: real)
    requires max >= 0.0 && tokens >= 0.0 && elapsed > EVICTION_TTL
    ensures tokens + elapsed * (max / 60.0) >= max
  {
    var rate := max / 60.0;
    NonNegative(elapsed - EVICTION_TTL, rate);
    assert elapsed * rate == (elapsed - EVICTION_TTL) * rate + EVICTION_TTL * rate;
  }

  lemma AlikeAnswers(c: Config, x: Bucket, y: Bucket, now: real)
    requires Alike(c, x, y)
    ensures x.Admits(now) == y.Admits(now)
    ensures Alike(c, x.Consume(now), y.Consume(now))
  {
  }

  lemma Snoc(log: seq<Op>, op: Op)
    ensures Init(log + [op]) == log && Last(log + [op]) == op
  {
  }

  /** The gate sees the same grants as the log: an evicted grant is an expired one. */
  lemma GateAgrees(c: Config, b: Boundary, log: seq<Op>, s: string, r: string, t: Option<string>, wall: real)
    requires Agrees(c, b, log) && NotBefore(wall, WallOf(log))
    ensures Gate(b.blockedAgents, b.blockedPairs, Lookup(b.trustedAgents, s), Lookup(b.trustedAgents, r),
                 b.defaultAllow, s, r, t, wall)
            == LogGate(c, log, s, r, t, wall)
  {
    assert GrantFits(b, log, s) && GrantFits(b, log, r);
    assert NullifyIfExpired(Lookup(b.trustedAgents, s), wall) == NullifyIfExpired(GrantOf(log, s), wall);
    assert NullifyIfExpired(Lookup(b.trustedAgents, r), wall) == NullifyIfExpired(GrantOf(log, r), wall);
  }

  /** A bucket gone cold answers as the one a new request would get. */
  lemma LimitAgrees(c: Config, b: Boundary, log: seq<Op>, pair: Pair, now: real)
    requires Agrees(c, b, log) && NotBefore(now, MonoOf(log))
    ensures var reference := BucketOf(c, log, pair);
            var bucket := if reference.Some? then reference.value else FreshBucket(c.maxPerMinute, now);
            var evicted := b.EvictColdBuckets(now);
            && bucket.Admits(now) == evicted.Limit(pair, now).1.None?
            && Alike(c, evicted.Limit(pair, now).0.rateLimits[pair], bucket.Consume(now))
            && BucketIsSane(c, bucket.Consume(now))
  {
    var reference := BucketOf(c, log, pair);
    assert BucketFits(c, b, log, pair);
    var evicted := b.EvictColdBuckets(now);
    if reference.Some? {
      SaneAfterConsume(c, reference.value, now);
      if pair in evicted.rateLimits {
        AlikeAnswers(c, evicted.rateLimits[pair], reference.value, now);
      } else if pair in b.rateLimits && c.maxPerMinute < 0 {
        NegativeOnlyRefuses(c, reference.value, now);
      } else {
        ColdIsFresh(c, reference.value, now);
      }
    } else {
      SaneAfterConsume(c, FreshBucket(c.maxPerMinute, now), now);
    }
  }

  lemma NegativeOnlyRefuses(c: Config, bucket: Bucket, now: real)
    requires c.maxPerMinute < 0 && BucketIsSane(c, bucket)
    ensures !bucket.Admits(now) && !FreshBucket(c.maxPerMinute, now).Admits(now)
    ensures Alike(c, FreshBucket(c.maxPerMinute, now).Consume(now), bucket.Consume(now))
  {
  }

  /** The pair's own request, once it has reached the rate limit. */
  lemma OwnBucketStep(c: Config, b: Boundary, log: seq<Op>, op: Op)
    requires Agrees(c, b, log) && OnTime(log, op) && op.Evaluate?
    requires LogGate(c, log, op.sender, op.receiver, op.payloadType, op.wall).None?
    ensures BucketFits(c, Apply(b, op).0, log + [op], (op.sender, op.receiver))
  {
    var pair := (op.sender, op.receiver);
    Snoc(log, op);
    GateAgrees(c, b, log, op.sender, op.receiver, op.payloadType, op.wall);
    LimitAgrees(c, b, log, pair, op.monoRate);
    EvictionKeepsBuckets(b, op.wall, op.mono);
    assert pair in Apply(b, op).0.rateLimits;
  }

  /** A bucket the request does not draw from stays, or is evicted once it has gone cold. */
  lemma OtherBucketStep(c: Config, b: Boundary, log: seq<Op>, op: Op, pair: Pair)
    requires Agrees(c, b, log) && OnTime(log, op) && op.Evaluate?
    requires pair != (op.sender, op.receiver) || LogGate(c, log, op.sender, op.receiver, op.payloadType, op.wall).Some?
    ensures BucketFits(c, Apply(b, op).0, log + [op], pair)
  {
    Snoc(log, op);
    GateAgrees(c, b, log, op.sender, op.receiver, op.payloadType, op.wall);
    EvictionKeepsBuckets(b, op.wall, op.mono);
    assert BucketFits(c, b, log, pair);
    assert BucketOf(c, log + [op], pair) == BucketOf(c, log, pair);
  }

  lemma BucketsStep(c: Config, b: Boundary, log: seq<Op>, op: Op, pair: Pair)
    requires Agrees(c, b, log) && OnTime(log, op) && op.Evaluate?
    ensures BucketFits(c, Apply(b, op).0, log + [op], pair)
  {
    if pair == (op.sender, op.receiver) && LogGate(c, log, op.sender, op.receiver, op.payloadType, op.wall).None? {
      OwnBucketStep(c, b, log, op);
    } else {
      OtherBucketStep(c, b, log, op, pair);
    }
  }

  lemma CountAgrees(c: Config, b: Boundary, log: seq<Op>, wall: real)
    requires Agrees(c, b, log) && NotBefore(wall, WallOf(log))
    ensures ValidAgents(b.trustedAgents, wall) == set a | a in Agents(log) && LogTrusted(log, a, wall)
  {
    forall a
      ensures a in ValidAgents(b.trustedAgents, wall) <==> a in Agents(log) && LogTrusted(log, a, wall)
    {
      assert GrantFits(b, log, a);
      GrantedIsMentioned(log, a);
    }
  }

  lemma {:induction false} GrantedIsMentioned(log: seq<Op>, agent: string)
    ensures GrantOf(log, agent).Some? ==> agent in Agents(log)
    decreases |log|
  {
    if log != [] { GrantedIsMentioned(Init(log), agent); }
  }

  lemma GrantsStep(c: Config, b: Boundary, log: seq<Op>, op: Op, agent: string)
    requires Agrees(c, b, log) && OnTime(log, op)
    ensures GrantFits(Apply(b, op).0, log + [op], agent)
  {
    Snoc(log, op);
    assert GrantFits(b, log, agent);
  }

  lemma EvaluateAnswers(c: Config, b: Boundary, log: seq<Op>, op: Op)
    requires Agrees(c, b, log) && OnTime(log, op) && op.Evaluate?
    ensures Apply(b, op).1 == LogAnswer(c, log, op)
  {
    GateAgrees(c, b, log, op.sender, op.receiver, op.payloadType, op.wall);
    EvictionKeepsBuckets(b, op.wall, op.mono);
    LimitAgrees(c, b, log, (op.sender, op.receiver), op.monoRate);
  }

  /** The grant has been evicted, though at the time asked about it was valid. */
  predicate EvictedWhileValid(b: Boundary, log: seq<Op>, agent: string, now: real) {
    agent !in b.trustedAgents && LogTrusted(log, agent, now)
  }

  /** The question is about a time before the last evaluation, and the eviction shows. */
  predicate LooksBack(b: Boundary, log: seq<Op>, op: Op) {
    op.IsTrusted? && EvictedWhileValid(b, log, op.agent, op.now)
  }

  /** A time at or after the last evaluation's reading never shows an eviction. */
  lemma LaterIsSafe(c: Config, b: Boundary, log: seq<Op>, agent: string, now: real)
    requires Agrees(c, b, log) && NotBefore(now, WallOf(log))
    ensures !EvictedWhileValid(b, log, agent, now)
  {
    assert GrantFits(b, log, agent);
  }

  lemma IsTrustedAnswers(c: Config, b: Boundary, log: seq<Op>, agent: string, now: real)
    requires Agrees(c, b, log)
    ensures Apply(b, IsTrusted(agent, now)).1 == LogAnswer(c, log, IsTrusted(agent, now))
            <==> !EvictedWhileValid(b, log, agent, now)
  {
    assert GrantFits(b, log, agent);
  }

  lemma StepAnswers(c: Config, b: Boundary, log: seq<Op>, op: Op)
    requires Agrees(c, b, log) && OnTime(log, op)
    ensures Apply(b, op).1 == LogAnswer(c, log, op) <==> !LooksBack(b, log, op)
  {
    match op {
      case Evaluate(_, _, _, _, _, _) => EvaluateAnswers(c, b, log, op);
      case IsTrusted(a, now) => IsTrustedAnswers(c, b, log, a, now);
      case CountTrusted(wall) => CountAgrees(c, b, log, wall);
      case _ =>
    }
  }

  lemma BlocksStep(c: Config, b: Boundary, log: seq<Op>, op: Op)
    requires Agrees(c, b, log)
    ensures forall a :: a in Apply(b, op).0.blockedAgents <==> IsBlocked(log + [op], a)
    ensures forall p :: p in Apply(b, op).0.blockedPairs <==> IsPairBlocked(log + [op], p)
  {
    Snoc(log, op);
  }

  lemma StepKeepsSettings(c: Config, b: Boundary, op: Op)
    requires b.maxPerMinute == c.maxPerMinute && b.defaultAllow == c.defaultAllow
    ensures Apply(b, op).0.maxPerMinute == c.maxPerMinute && Apply(b, op).0.defaultAllow == c.defaultAllow
  {
  }

  lemma BucketStep(c: Config, b: Boundary, log: seq<Op>, op: Op, pair: Pair)
    requires Agrees(c, b, log) && OnTime(log, op)
    ensures BucketFits(c, Apply(b, op).0, log + [op], pair)
  {
    if op.Evaluate? {
      BucketsStep(c, b, log, op, pair);
    } else {
      Snoc(log, op);
      assert BucketFits(c, b, log, pair);
    }
  }

  lemma StepAgrees(c: Config, b: Boundary, log: seq<Op>, op: Op)
    requires Agrees(c, b, log) && OnTime(log, op)
    ensures Apply(b, op).1 == LogAnswer(c, log, op) <==> !LooksBack(b, log, op)
    ensures Agrees(c, Apply(b, op).0, log + [op])
  {
    StepAnswers(c, b, log, op);
    StepKeepsSettings(c, b, op);
    BlocksStep(c, b, log, op);
    forall a ensures GrantFits(Apply(b, op).0, log + [op], a) { GrantsStep(c, b, log, op, a); }
    forall p ensures BucketFits(c, Apply(b, op).0, log + [op], p) { BucketStep(c, b, log, op, p); }
  }

  lemma EvictionKeepsBuckets(b: Boundary, wall: real, mono: real)
    ensures b.EvictExpiredTrust(wall, mono).rateLimits == b.rateLimits
    ensures b.EvictExpiredTrust(wall, mono).lastEviction == b.lastEviction
    ensures b.EvictExpiredTrust(wall, mono).maxPerMinute == b.maxPerMinute
  {
  }

  lemma {:induction false} ReplayAgrees(c: Config, log: seq<Op>)
    requires Ordered(log)
    ensures Agrees(c, Replay(c, log), log)
    decreases |log|
  {
    if log != [] {
      ReplayAgrees(c, Init(log));
      StepAgrees(c, Replay(c, Init(log)), Init(log), Last(log));
      assert Init(log) + [Last(log)] == log;
    }
  }

  /**
   Decisions depend only on history. For every run on clocks that do not run
   backwards, the boundary, evicting expired grants and cold buckets, gives the
   answer of a model that forgets nothing and looks everything up in the log;
   except, and exactly then, when it is asked whether an agent was trusted at a
   time at which a grant was valid that it has evicted since.
   */
  lemma EvictionIsUnobservable(c: Config, log: seq<Op>, op: Op)
    requires Ordered(log) && OnTime(log, op)
    ensures Apply(Replay(c, log), op).1 == LogAnswer(c, log, op) <==> !LooksBack(Replay(c, log), log, op)
    ensures op.IsTrusted? && NotBefore(op.now, WallOf(log)) ==> !LooksBack(Replay(c, log), log, op)
  {
    ReplayAgrees(c, log);
    StepAgrees(c, Replay(c, log), log, op);
    if op.IsTrusted? && NotBefore(op.now, WallOf(log)) { LaterIsSafe(c, Replay(c, log), log, op.agent, op.now); }
  }

  /** A grant that ran out at 100 is evicted by an evaluation at 200; asked about 50, the boundary denies it. */
  lemma LookingBackShowsEviction(c: Config, grantee: string, sender: string, receiver: string)
    requires c.defaultAllow && grantee != sender && grantee != receiver
    ensures var log := [Trust(grantee, TrustEntry(None, None, Some(100.0))),
                        Evaluate(sender, receiver, None, 200.0, 0.0, 0.0)];
            && Ordered(log)
            && Apply(Replay(c, log), IsTrusted(grantee, 50.0)).1 == Trusted(false)
            && LogAnswer(c, log, IsTrusted(grantee, 50.0)) == Trusted(true)
  {
    var entry := TrustEntry(None, None, Some(100.0));
    var trust, evaluate := Trust(grantee, entry), Evaluate(sender, receiver, None, 200.0, 0.0, 0.0);
    Snoc([], trust);
    Snoc([trust], evaluate);
    assert [] + [trust] == [trust] && [trust] + [evaluate] == [trust, evaluate];
    var first := Replay(c, [trust]);
    assert first == Apply(Replay(c, []), trust).0;
    assert first.trustedAgents == map[grantee := entry] && first.blockedAgents == {} && first.blockedPairs == {};
    assert Replay(c, [trust, evaluate]) == Apply(first, evaluate).0;
    assert grantee !in first.EvictExpiredTrust(200.0, 0.0).trustedAgents;
    assert GrantOf([trust, evaluate], grantee) == GrantOf([trust], grantee) == Some(entry);
  }

  lemma {:induction false} OrderedPrefix(log: seq<Op>, n: nat)
    requires Ordered(log) && n < |log|
    ensures Ordered(log[..n]) && OnTime(log[..n], log[n])
    decreases |log|
  {
    if n < |log| - 1 {
      OrderedPrefix(Init(log), n);
      assert Init(log)[..n] == log[..n];
    }
  }

  /** When the pair's requests reached the rate limit. */
  function RequestTimes(c: Config, log: seq<Op>, pair: Pair): seq<real> {
    if log == [] then []
    else
      RequestTimes(c, Init(log), pair)
      + (match Last(log)
         case Evaluate(s, r, t, wall, _, now) =>
           if (s, r) == pair && LogGate(c, Init(log), s, r, t, wall).None? then [now] else []
         case _ => [])
  }

  /** The pair's bucket is what its requests made of a full one. */
  lemma {:induction false} BucketIsHistory(c: Config, log: seq<Op>, pair: Pair, now: real)
    ensures var times := RequestTimes(c, log, pair);
            var bucket := BucketOf(c, log, pair);
            (if bucket.Some? then bucket.value else FreshBucket(c.maxPerMinute, now))
            == BeforeRequest(c.maxPerMinute as real, c.maxPerMinute as real / 60.0, times + [now], |times|)
    ensures BucketOf(c, log, pair).Some? <==> RequestTimes(c, log, pair) != []
    decreases |log|
  {
    if log != [] {
      var before := RequestTimes(c, Init(log), pair);
      var times := RequestTimes(c, log, pair);
      if times == before {
        BucketIsHistory(c, Init(log), pair, now);
      } else {
        BucketIsHistory(c, Init(log), pair, Last(log).monoRate);
        SamePrefix(c.maxPerMinute as real, c.maxPerMinute as real / 60.0, times, times + [now], |before|);
      }
    }
  }

  lemma {:induction false} SamePrefix(capacity: real, rate: real, times: seq<real>, more: seq<real>, k: nat)
    requires k < |times| <= |more| && more[..|times|] == times
    ensures BeforeRequest(capacity, rate, times, k) == BeforeRequest(capacity, rate, more, k)
  {
    assert times[k] == more[..|times|][k];
    assert times[0] == more[..|times|][0];
    if k > 0 {
      assert times[k - 1] == more[..|times|][k - 1];
      SamePrefix(capacity, rate, times, more, k - 1);
    }
  }

  /**
   The rate limit of the evicting boundary, over its whole history: a request
   that passes every other check is admitted exactly if, from each earlier
   request of the pair on, the admitted ones plus this one fit in the capacity
   plus what flowed in since.
   */
  lemma RateLimitIsExact(c: Config, log: seq<Op>, op: Op)
    requires Ordered(log) && OnTime(log, op) && op.Evaluate?
    requires LogGate(c, log, op.sender, op.receiver, op.payloadType, op.wall).None?
    ensures var capacity, rate := c.maxPerMinute as real, c.maxPerMinute as real / 60.0;
            var times := RequestTimes(c, log, (op.sender, op.receiver)) + [op.monoRate];
            var k := |times| - 1;
            Apply(Replay(c, log), op).1 == Decision(None) <==> FitsEveryWindow(capacity, rate, times, k)
  {
    var capacity, rate := c.maxPerMinute as real, c.maxPerMinute as real / 60.0;
    var pair := (op.sender, op.receiver);
    var times := RequestTimes(c, log, pair) + [op.monoRate];
    EvictionIsUnobservable(c, log, op);
    BucketIsHistory(c, log, pair, op.monoRate);
    assert LogAnswer(c, log, op) == Decision(None) <==> Admitted(capacity, rate, times, |times| - 1);
    BucketIsExact(capacity, rate, times, |times| - 1);
  }

  /** No operation from `i` on grants the agent trust. */
  ghost predicate NotTrustedFrom(log: seq<Op>, agent: string, i: nat) {
    forall j | i <= j < |log| :: !(log[j].Trust? && log[j].agent == agent)
  }

  /** No operation from `i` on is about the agent's grant. */
  ghost predicate UntouchedFrom(log: seq<Op>, agent: string, i: nat) {
    forall j | i <= j < |log| :: !((log[j].Trust? || log[j].Block? || log[j].Revoke?) && log[j].agent == agent)
  }

  lemma NotTrustedSnoc(log: seq<Op>, agent: string, i: nat)
    requires i < |log|
    ensures NotTrustedFrom(log, agent, i) <==>
            NotTrustedFrom(Init(log), agent, i) && !(Last(log).Trust? && Last(log).agent == agent)
  {
    assert forall j | 0 <= j < |Init(log)| :: Init(log)[j] == log[j];
  }

  lemma UntouchedSnoc(log: seq<Op>, agent: string, i: nat)
    requires i < |log|
    ensures UntouchedFrom(log, agent, i) <==>
            UntouchedFrom(Init(log), agent, i)
            && !((Last(log).Trust? || Last(log).Block? || Last(log).Revoke?) && Last(log).agent == agent)
  {
    assert forall j | 0 <= j < |Init(log)| :: Init(log)[j] == log[j];
  }

  /** An agent is blocked exactly if the last block or grant for it is a block. */
  lemma {:induction false} BlockedMeansLastBlocked(log: seq<Op>, agent: string)
    ensures IsBlocked(log, agent) <==>
            exists i: nat :: i < |log| && log[i] == Block(agent) && NotTrustedFrom(log, agent, i + 1)
    decreases |log|
  {
    if log != [] {
      var init, n := Init(log), |log| - 1;
      BlockedMeansLastBlocked(init, agent);
      if IsBlocked(log, agent) {
        if log[n] == Block(agent) {
          assert NotTrustedFrom(log, agent, n + 1);
        } else {
          var i: nat :| i < n && init[i] == Block(agent) && NotTrustedFrom(init, agent, i + 1);
          NotTrustedSnoc(log, agent, i + 1);
          assert log[i] == Block(agent);
        }
      }
      if i: nat :| i < n && log[i] == Block(agent) && NotTrustedFrom(log, agent, i + 1) {
        NotTrustedSnoc(log, agent, i + 1);
        assert init[i] == Block(agent);
      }
    }
  }

  /** An agent holds a grant exactly if the last block, grant or revocation for it is that grant. */
  lemma {:induction false} GrantedMeansLastGranted(log: seq<Op>, agent: string, entry: TrustEntry)
    ensures GrantOf(log, agent) == Some(entry) <==>
            exists i: nat :: i < |log| && log[i] == Trust(agent, entry) && UntouchedFrom(log, agent, i + 1)
    decreases |log|
  {
    if log != [] {
      var init, n := Init(log), |log| - 1;
      GrantedMeansLastGranted(init, agent, entry);
      if GrantOf(log, agent) == Some(entry) {
        if log[n] == Trust(agent, entry) {
          assert UntouchedFrom(log, agent, n + 1);
        } else {
          var i: nat :| i < n && init[i] == Trust(agent, entry) && UntouchedFrom(init, agent, i + 1);
          UntouchedSnoc(log, agent, i + 1);
          assert log[i] == Trust(agent, entry);
        }
      }
      if i: nat :| i < n && log[i] == Trust(agent, entry) && UntouchedFrom(log, agent, i + 1) {
        UntouchedSnoc(log, agent, i + 1);
        assert init[i] == Trust(agent, entry);
      }
    }
  }
}

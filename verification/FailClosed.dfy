/** What a verdict of the interceptor guarantees, over every interleaving. */
module FailClosed {
  import opened Options
  import opened Engines
  import opened Verdicts
  import opened EngineRouting
  import opened Interceptor
  import opened TokenBuckets
  import opened TrustBoundaries
  import EngineSlots
  import TrustHistory
  import TrustGates
  import RateWindows
  import Attestations
  import AttestationTheorems
  import FinanceGuard

  /** The caller of the call's own engine run received what the engine concludes. */
  ghost predicate EngineAnswered(s: Setup, g: Gateway, c: Call, result: EngineResult) {
    && c.path.Ran?
    && c.path.run < |g.pool.runs|
    && g.pool.runs[c.path.run].msg == c.msg
    && g.pool.runs[c.path.run].caller == EngineSlots.Got(result)
    && g.pool.runs[c.path.run].job == EngineSlots.Settled(EngineSlots.Returned(result))
    && Route(s.config, c.msg) == Some(result)
  }

  /** The engine run was refused, could not be submitted, raised, or ran out of time. */
  ghost predicate EngineFailed(g: Gateway, c: Call) {
    && c.path.Ran?
    && c.path.run < |g.pool.runs|
    && var caller := g.pool.runs[c.path.run].caller;
       caller.Refused? || caller.SubmitFailed? || caller.GotError? || caller.TimedOut?
  }

  lemma ReceivedIsConcluded(s: Setup, g: Gateway, c: Call)
    requires Inv(s, g) && CallFits(s, g, c) && c.path.Ran?
    ensures g.pool.runs[c.path.run].caller.Got? ==> EngineAnswered(s, g, c, g.pool.runs[c.path.run].caller.value)
    ensures !g.pool.runs[c.path.run].caller.GotNothing?
  {
    var r := g.pool.runs[c.path.run];
    assert r in g.pool.runs && EngineSlots.RunFits(Engine(s), r);
  }

  /** The verdict is the one the call's path determines. */
  ghost predicate VerdictFits(s: Setup, g: Gateway, c: Call, status: VerdictStatus) {
    && (status == VERIFIED <==> EngineAnswered(s, g, c, EngineResult.Verified))
    && (status == HEURISTIC_PASS <==> EngineAnswered(s, g, c, HeuristicPass))
    && (status == ERROR <==> EngineFailed(g, c))
    && (status == UNVERIFIABLE <==> c.msg.size.None? || EngineAnswered(s, g, c, Unverifiable))
    && (status == BLOCKED <==>
          || (c.msg.size.Some? && c.msg.size.value > s.config.maxPayloadSize)
          || c.path.TurnedAway?
          || EngineAnswered(s, g, c, NotVerified))
  }

  /** A call that got as far as an engine run. */
  lemma RunVerdictFits(s: Setup, g: Gateway, c: Call)
    requires Inv(s, g) && CallFits(s, g, c) && c.path.Ran? && c.reply.Verdict?
    ensures VerdictFits(s, g, c, c.reply.status)
  {
    ReceivedIsConcluded(s, g, c);
    var caller := g.pool.runs[c.path.run].caller;
    if caller.Got? {
      assert EngineAnswered(s, g, c, caller.value);
    } else {
      assert EngineFailed(g, c) && c.reply.status == ERROR;
    }
  }

  lemma EarlyVerdictFits(s: Setup, g: Gateway, c: Call)
    requires CallFits(s, g, c) && !c.path.Ran? && c.reply.Verdict?
    ensures VerdictFits(s, g, c, c.reply.status)
  {
  }

  /**
   Each verdict, exactly. In every reachable state, a call that was given a
   verdict was given the one its path determines.
   */
  lemma VerdictExactly(s: Setup, g: Gateway, i: nat)
    requires Reachable(s, g) && i < |g.calls| && g.calls[i].reply.Verdict?
    ensures VerdictFits(s, g, g.calls[i], g.calls[i].reply.status)
  {
    ReachableInv(s, g);
    assert CallFits(s, g, g.calls[i]);
    if g.calls[i].path.Ran? { RunVerdictFits(s, g, g.calls[i]); } else { EarlyVerdictFits(s, g, g.calls[i]); }
  }

  /** Everything an admissible verdict stands for. */
  ghost predicate FullyChecked(s: Setup, g: Gateway, c: Call) {
    && Measurable(s, c.msg)
    && EngineAnswered(s, g, c, EngineResult.Verified)
    && c.path.at < |g.log|
    && IsEvaluationOf(g.log[c.path.at], c.msg)
    && AnswerAt(s, g.log, c.path.at) == TrustHistory.Decision(None)
    && c.msg.payloadType.FINANCIAL_TRANSACTION?
    && s.config.enableFinancial
    && FinanceGuard.Judge(s.config.arithmetic, c.msg.finance) == Some(EngineResult.Verified)
  }

  /**
   Fail closed, over every interleaving of calls, pool threads, timeouts,
   cancellations, refusals, failed submissions, closing of the pool and other
   uses of the trust boundary. A call is given an admissible verdict only if its
   message passed the size limit and the trust boundary, in an evaluation no
   other call shares, and the finance guard itself, in a run no other call
   shares, finished in time for that caller and found the totals right; and the
   verdict is signed.
   */
  lemma AdmissibleMeansChecked(s: Setup, g: Gateway, i: nat)
    requires Reachable(s, g) && i < |g.calls|
    requires g.calls[i].reply.Verdict? && g.calls[i].reply.status in ADMISSIBLE_VERDICTS
    ensures FullyChecked(s, g, g.calls[i])
    ensures g.calls[i].reply.token.Some? && TokenFits(s, g.calls[i], VERIFIED, g.calls[i].reply.token.value)
    ensures forall j | 0 <= j < |g.calls| && j != i :: Apart(g.calls[i], g.calls[j])
  {
    VerdictExactly(s, g, i);
    ReachableInv(s, g);
    assert CallFits(s, g, g.calls[i]);
    OnlyFinanceVerifies(s.config, g.calls[i].msg);
    forall j | 0 <= j < |g.calls| && j != i
      ensures Apart(g.calls[i], g.calls[j])
    {
      assert if i < j then Apart(g.calls[i], g.calls[j]) else Apart(g.calls[j], g.calls[i]);
    }
  }

  /** How far the call's caller is in its engine run, if there is one. */
  function CallerOf(g: Gateway, c: Call): Option<EngineSlots.Caller<EngineResult>> {
    if c.path.Ran? && c.path.run < |g.pool.runs| then Some(g.pool.runs[c.path.run].caller) else None
  }

  /** An engine answered a message of this type. */
  ghost predicate AnsweredBy(s: Setup, g: Gateway, c: Call, t: PayloadType) {
    c.msg.payloadType == t && exists result :: EngineAnswered(s, g, c, result)
  }

  /** The size limit, the trust boundary, a busy or late engine, the error handler, or the engine that answered. */
  ghost predicate IsSource(s: Setup, g: Gateway, c: Call, engine: string) {
    && (engine == "size_limit" <==> c.msg.size.Some? && c.msg.size.value > s.config.maxPayloadSize)
    && (engine == "trust_boundary" <==> c.path.TurnedAway?)
    && (engine == "engine_busy" <==> CallerOf(g, c) == Some(EngineSlots.Refused))
    && (engine == "engine_timeout" <==> CallerOf(g, c) == Some(EngineSlots.TimedOut))
    && (engine == "error_handler" <==>
          CallerOf(g, c) == Some(EngineSlots.SubmitFailed) || CallerOf(g, c) == Some(EngineSlots.GotError))
    && (engine == "finance_guard" <==> s.config.enableFinancial && AnsweredBy(s, g, c, FINANCIAL_TRANSACTION))
    && (engine == "logic_guard" <==> s.config.enableLogic && AnsweredBy(s, g, c, LOGIC_ASSERTION))
    && (engine == "code_guard" <==> s.config.enableCode && AnsweredBy(s, g, c, CODE_EXECUTION))
    && engine != "passthrough"
  }

  /** What an attestation names as the source of its verdict, exactly. */
  lemma EngineIsNamedExactly(s: Setup, g: Gateway, i: nat)
    requires Reachable(s, g) && i < |g.calls|
    requires g.calls[i].reply.Verdict? && g.calls[i].reply.token.Some?
    ensures var token := g.calls[i].reply.token.value;
            && token.body.Some? && token.body.value.block.Some?
            && IsSource(s, g, g.calls[i], token.body.value.block.value.engine)
  {
    ReachableInv(s, g);
    var c := g.calls[i];
    assert CallFits(s, g, c);
    if c.path.Ran? { RunIsNamed(s, g, c); } else { EarlyIsNamed(s, g, c); }
  }

  lemma EarlyIsNamed(s: Setup, g: Gateway, c: Call)
    requires CallFits(s, g, c) && !c.path.Ran? && c.reply.Verdict? && c.reply.token.Some?
    ensures IsSource(s, g, c, EngineName(s, g.pool, c))
  {
  }

  lemma RunIsNamed(s: Setup, g: Gateway, c: Call)
    requires Inv(s, g) && CallFits(s, g, c) && c.path.Ran? && c.reply.Verdict? && c.reply.token.Some?
    ensures IsSource(s, g, c, EngineName(s, g.pool, c))
  {
    AnswerIsRouted(s, g, c);
    var caller := g.pool.runs[c.path.run].caller;
    assert EndingOf(g.pool, c.path) == CallerEnding(caller);
  }

  /** A caller that got an answer got it from an enabled engine, if its verdict is signed. */
  lemma AnswerIsRouted(s: Setup, g: Gateway, c: Call)
    requires Inv(s, g) && CallFits(s, g, c) && c.path.Ran? && c.reply.Verdict? && c.reply.token.Some?
    ensures g.pool.runs[c.path.run].caller.Got? <==> exists result :: EngineAnswered(s, g, c, result)
    ensures g.pool.runs[c.path.run].caller.Got? ==> HasEngine(s.config, c.msg.payloadType)
  {
    ReceivedIsConcluded(s, g, c);
    if g.pool.runs[c.path.run].caller.Got? {
      assert EngineAnswered(s, g, c, g.pool.runs[c.path.run].caller.value);
      RoutedExactly(s.config, c.msg, c.msg);
    }
  }

  /** A message no engine is enabled for is never passed, and refuted only by the size limit or the trust boundary. */
  lemma NoEngineMeansNoPass(s: Setup, g: Gateway, i: nat)
    requires Reachable(s, g) && i < |g.calls| && g.calls[i].reply.Verdict?
    requires !HasEngine(s.config, g.calls[i].msg.payloadType)
    ensures var c := g.calls[i];
            && c.reply.status != VERIFIED && c.reply.status != HEURISTIC_PASS
            && (c.reply.status == BLOCKED ==> !Measurable(s, c.msg) || c.path.TurnedAway?)
            && forall result | EngineAnswered(s, g, c, result) :: c.reply.status == UNVERIFIABLE
  {
    VerdictExactly(s, g, i);
    RoutedExactly(s.config, g.calls[i].msg, g.calls[i].msg);
  }

  /** Conversely, a call that passed all of that and is given a verdict is given an admissible one. */
  lemma CheckedMeansAdmissible(s: Setup, g: Gateway, i: nat)
    requires Reachable(s, g) && i < |g.calls| && g.calls[i].reply.Verdict?
    ensures g.calls[i].reply.status in ADMISSIBLE_VERDICTS <==> FullyChecked(s, g, g.calls[i])
  {
    VerdictExactly(s, g, i);
    if g.calls[i].reply.status in ADMISSIBLE_VERDICTS { AdmissibleMeansChecked(s, g, i); }
  }

  /** An admissible verdict bounds how far the claimed total is from the exact sum of the line items. */
  lemma AdmissibleMeansInBound(s: Setup, g: Gateway, i: nat)
    requires Reachable(s, g) && i < |g.calls|
    requires g.calls[i].reply.Verdict? && g.calls[i].reply.status in ADMISSIBLE_VERDICTS
    ensures FinanceGuard.ClaimInBound(s.config.arithmetic, g.calls[i].msg.finance)
  {
    AdmissibleMeansChecked(s, g, i);
    FinanceGuard.VerifiedBoundsTheClaim(s.config.arithmetic, g.calls[i].msg.finance);
  }

  /** What a consumer reads in an attestation: the admissible ones belong to calls that were fully checked. */
  lemma AdmissibleTokenMeansChecked(s: Setup, g: Gateway, i: nat)
    requires Reachable(s, g) && i < |g.calls|
    requires g.calls[i].reply.Verdict? && g.calls[i].reply.token.Some?
    ensures var token := g.calls[i].reply.token.value;
            && token.body.Some?
            && (AttestationTheorems.IsAdmissible(token.body.value) <==> FullyChecked(s, g, g.calls[i]))
  {
    ReachableInv(s, g);
    assert CallFits(s, g, g.calls[i]);
    CheckedMeansAdmissible(s, g, i);
  }

  /**
   Each exception, exactly as it came about: the caller was cancelled, or a
   verdict that must be signed could not be, because the payload has no hash, no
   key is configured, the trace was issued before, or the encoding failed. No
   caller meets a skipped run, and no verdict is one the signer does not know.
   */
  lemma RaisedHasItsCause(s: Setup, g: Gateway, i: nat)
    requires Reachable(s, g) && i < |g.calls| && g.calls[i].reply.Raised?
    ensures var c, ending := g.calls[i], EndingOf(g.pool, g.calls[i].path);
            match c.reply.cause
            case WasCancelled => c.path.Ran? && c.path.run < |g.pool.runs| && g.pool.runs[c.path.run].caller.Cancelled?
            case NoResult => false
            case NoHash => ending.Status? && ending.status != UNVERIFIABLE && c.msg.hash.None?
            case NotSigned(error) =>
              && ending.Status? && ending.status != UNVERIFIABLE
              && !error.UnknownVerdict?
              && (error.NoSigningKey? <==> s.service.ownKey.None?)
  {
    ReachableInv(s, g);
    var c := g.calls[i];
    assert CallFits(s, g, c);
    if c.path.Ran? { ReceivedIsConcluded(s, g, c); }
  }

  // --------------------------------------------------------------------
  // A closed pool
  // --------------------------------------------------------------------

  predicate NotSubmitted(r: EngineSlots.Run<Message, EngineResult>) {
    r.job.Unsubmitted? && (r.caller.Refused? || r.caller.Acquired? || r.caller.SubmitFailed?)
  }

  /** The pool is closed, and the call's run has not been submitted to it. */
  predicate MissedThePool(g: Gateway, i: nat) {
    && g.pool.closed
    && i < |g.calls|
    && (|| g.calls[i].path.Admitted?
        || (&& g.calls[i].path.Ran?
            && g.calls[i].path.run < |g.pool.runs|
            && NotSubmitted(g.pool.runs[g.calls[i].path.run])))
  }

  lemma PoolStepMisses(s: Setup, pool: Pool, step: EngineSlots.Step<Message>, run: nat)
    requires EngineSlots.Enabled(pool, step) && pool.closed && run < |pool.runs| && NotSubmitted(pool.runs[run])
    ensures var after := EngineSlots.Apply(Engine(s), pool, step);
            after.closed && run < |after.runs| && NotSubmitted(after.runs[run])
  {
  }

  lemma StepMissesThePool(s: Setup, g: Gateway, step: Step, i: nat)
    requires Enabled(g, step) && MissedThePool(g, i)
    ensures MissedThePool(Apply(s, g, step), i)
  {
    if g.calls[i].path.Ran? {
      if step.InPool? { PoolStepMisses(s, g.pool, step.step, g.calls[i].path.run); }
      if step.Begin? {
        PoolStepMisses(s, g.pool, SlotStep(g.pool, g.calls[step.call].msg), g.calls[i].path.run);
      }
    }
  }

  lemma {:induction false} RunMissesThePool(s: Setup, g: Gateway, steps: seq<Step>, i: nat)
    requires IsSchedule(s, g, steps) && MissedThePool(g, i)
    ensures MissedThePool(After(s, g, steps), i)
    decreases |steps|
  {
    if steps != [] {
      StepMissesThePool(s, g, steps[0], i);
      RunMissesThePool(s, Apply(s, g, steps[0]), steps[1..], i);
    }
  }

  /** A call that had not submitted its run when the pool was closed is given ERROR, if any verdict, whatever happens
      afterwards. */
  lemma ClosedMeansError(s: Setup, g: Gateway, steps: seq<Step>, i: nat)
    requires Inv(s, g) && IsSchedule(s, g, steps) && MissedThePool(g, i)
    ensures var calls := After(s, g, steps).calls;
            i < |calls| && (calls[i].reply.Verdict? ==> calls[i].reply.status == ERROR)
  {
    RunMissesThePool(s, g, steps, i);
    RunKeepsInv(s, g, steps);
    MissedIsError(s, After(s, g, steps), i);
  }

  lemma MissedIsError(s: Setup, g: Gateway, i: nat)
    requires Inv(s, g) && MissedThePool(g, i)
    ensures g.calls[i].reply.Verdict? ==> g.calls[i].reply.status == ERROR
  {
    assert CallFits(s, g, g.calls[i]);
  }

  // --------------------------------------------------------------------
  // What passing the trust boundary costs and means
  // --------------------------------------------------------------------

  /** The bucket an evaluation draws from. */
  function Drawn(b: Boundary, pair: Pair, now: real): Bucket {
    var kept := b.EvictColdBuckets(now).rateLimits;
    if pair in kept then kept[pair] else FreshBucket(b.maxPerMinute, now)
  }

  /**
   An evaluation that passes takes exactly one token from its own pair's bucket;
   one that does not takes none; and no other pair's bucket is drawn from.
   */
  lemma PassingTakesOneToken(b: Boundary, op: TrustHistory.Op)
    requires op.Evaluate?
    ensures var (after, answer) := TrustHistory.Apply(b, op);
            var pair := (op.sender, op.receiver);
            var tokens := Drawn(b, pair, op.monoRate).Refilled(op.monoRate);
            && (answer == TrustHistory.Decision(None) ==>
                  pair in after.rateLimits && tokens >= 1.0 && after.rateLimits[pair].tokens == tokens - 1.0)
            && (answer == TrustHistory.Decision(Some(RateLimited)) ==>
                  pair in after.rateLimits && tokens < 1.0 && after.rateLimits[pair].tokens == tokens)
            && (answer != TrustHistory.Decision(None) && answer != TrustHistory.Decision(Some(RateLimited))
                ==> after == b)
            && (forall other | other != pair && other in after.rateLimits ::
                  other in b.rateLimits && after.rateLimits[other] == b.rateLimits[other])
  {
    TrustHistory.EvictionKeepsBuckets(b, op.wall, op.mono);
    var evicted := b.EvictExpiredTrust(op.wall, op.mono).EvictColdBuckets(op.monoRate);
    assert evicted.rateLimits == b.EvictColdBuckets(op.monoRate).rateLimits;
  }

  /** The operations in the log left the pair unblocked and within its grants,
      and the request fits its rate from each earlier request on. */
  ghost predicate WithinHistory(c: TrustHistory.Config, log: seq<TrustHistory.Op>, op: TrustHistory.Op) {
    && op.Evaluate?
    && TrustGates.OpenByLog(c, log, op.sender, op.receiver, op.payloadType, op.wall)
    && var times := TrustHistory.RequestTimes(c, log, (op.sender, op.receiver)) + [op.monoRate];
       FitsEveryWindow(c.maxPerMinute as real, c.maxPerMinute as real / 60.0, times, |times| - 1)
  }

  /** With clocks that do not run backwards, the boundary lets through exactly what its history allows. */
  lemma PassingIsHistory(c: TrustHistory.Config, log: seq<TrustHistory.Op>, op: TrustHistory.Op)
    requires TrustHistory.Ordered(log) && TrustHistory.OnTime(log, op) && op.Evaluate?
    ensures TrustHistory.Apply(TrustHistory.Replay(c, log), op).1 == TrustHistory.Decision(None)
            <==> WithinHistory(c, log, op)
  {
    TrustGates.LogGateExactly(c, log, op.sender, op.receiver, op.payloadType, op.wall);
    if TrustHistory.LogGate(c, log, op.sender, op.receiver, op.payloadType, op.wall).None? {
      TrustHistory.RateLimitIsExact(c, log, op);
    } else {
      TrustHistory.EvictionIsUnobservable(c, log, op);
    }
  }

  /** With clocks that do not run backwards, an admissible verdict means that the history allowed the request. */
  lemma AdmissibleMeansWithinHistory(s: Setup, g: Gateway, i: nat)
    requires Reachable(s, g) && i < |g.calls| && TrustHistory.Ordered(g.log)
    requires g.calls[i].reply.Verdict? && g.calls[i].reply.status in ADMISSIBLE_VERDICTS
    ensures g.calls[i].path.Ran? && g.calls[i].path.at < |g.log|
    ensures IsEvaluationOf(g.log[g.calls[i].path.at], g.calls[i].msg)
    ensures g.log[g.calls[i].path.at].payloadType == Some("financial_transaction")
    ensures WithinHistory(s.trust, g.log[..g.calls[i].path.at], g.log[g.calls[i].path.at])
  {
    AdmissibleMeansChecked(s, g, i);
    TrustHistory.OrderedPrefix(g.log, g.calls[i].path.at);
    PassingIsHistory(s.trust, g.log[..g.calls[i].path.at], g.log[g.calls[i].path.at]);
  }

  // --------------------------------------------------------------------
  // How many admissible verdicts a pair can get
  // --------------------------------------------------------------------

  function PlaceOf(calls: seq<Call>, i: nat): nat {
    if i < |calls| && HasPlace(calls[i].path) then calls[i].path.at else 0
  }

  /** The places of some calls in the trust boundary's log. */
  function Places(calls: seq<Call>, some: set<nat>): set<nat> {
    set i | i in some :: PlaceOf(calls, i)
  }

  /** Calls that share no place have as many places. */
  lemma {:induction false} PlacesAreMany(calls: seq<Call>, some: set<nat>)
    requires forall i, j | i in some && j in some && i != j :: PlaceOf(calls, i) != PlaceOf(calls, j)
    ensures |Places(calls, some)| == |some|
  {
    if some != {} {
      var i :| i in some;
      PlacesAreMany(calls, some - {i});
      assert Places(calls, some) == Places(calls, some - {i}) + {PlaceOf(calls, i)};
      assert PlaceOf(calls, i) !in Places(calls, some - {i});
    }
  }

  ghost predicate AdmissibleBetween(g: Gateway, pair: Pair, lo: nat, hi: nat, i: nat) {
    && i < |g.calls|
    && g.calls[i].reply.Verdict? && g.calls[i].reply.status in ADMISSIBLE_VERDICTS
    && (g.calls[i].msg.sender, g.calls[i].msg.receiver) == pair
    && HasPlace(g.calls[i].path) && lo <= g.calls[i].path.at < hi
  }

  lemma AdmissibleHasPassed(s: Setup, g: Gateway, pair: Pair, lo: nat, hi: nat, i: nat)
    requires Reachable(s, g) && hi <= |g.log| && AdmissibleBetween(g, pair, lo, hi, i)
    ensures RateWindows.Passed(s.trust, g.log, pair, g.calls[i].path.at)
  {
    AdmissibleMeansChecked(s, g, i);
  }

  lemma PlacesDiffer(s: Setup, g: Gateway, i: nat, j: nat)
    requires Inv(s, g) && i < |g.calls| && j < |g.calls| && i != j && HasPlace(g.calls[i].path)
             && HasPlace(g.calls[j].path)
    ensures PlaceOf(g.calls, i) != PlaceOf(g.calls, j)
  {
    assert if i < j then Apart(g.calls[i], g.calls[j]) else Apart(g.calls[j], g.calls[i]);
  }

  lemma AdmissiblePlacesPassed(s: Setup, g: Gateway, pair: Pair, lo: nat, hi: nat, some: set<nat>)
    requires Reachable(s, g) && lo <= hi <= |g.log|
    requires forall i | i in some :: AdmissibleBetween(g, pair, lo, hi, i)
    ensures forall k | k in Places(g.calls, some) :: lo <= k < hi && RateWindows.PassedAt(s.trust, g.log, pair)(k)
  {
    forall k | k in Places(g.calls, some)
      ensures lo <= k < hi && RateWindows.PassedAt(s.trust, g.log, pair)(k)
    {
      var i :| i in some && PlaceOf(g.calls, i) == k;
      AdmissibleHasPassed(s, g, pair, lo, hi, i);
    }
  }

  lemma AdmissibleAreCounted(s: Setup, g: Gateway, pair: Pair, lo: nat, hi: nat, some: set<nat>)
    requires Reachable(s, g) && lo <= hi <= |g.log|
    requires forall i | i in some :: AdmissibleBetween(g, pair, lo, hi, i)
    ensures |some| <= RateWindows.PassedIn(s.trust, g.log, pair, lo, hi)
  {
    ReachableInv(s, g);
    forall i, j | i in some && j in some && i != j
      ensures PlaceOf(g.calls, i) != PlaceOf(g.calls, j)
    {
      PlacesDiffer(s, g, i, j);
    }
    PlacesAreMany(g.calls, some);
    AdmissiblePlacesPassed(s, g, pair, lo, hi, some);
    RateWindows.AllAreCounted(RateWindows.PassedAt(s.trust, g.log, pair), lo, hi, Places(g.calls, some));
  }

  /**
   Admissible verdicts are rate limited, in every interleaving: those given to a
   pair's messages, by when in the trust boundary's run they were evaluated, are
   at most the capacity plus what flows in between the first and the last of the
   pair's requests in that stretch.
   */
  lemma AdmissibleAreRateLimited(s: Setup, g: Gateway, pair: Pair, lo: nat, hi: nat, some: set<nat>)
    requires Reachable(s, g) && TrustHistory.Ordered(g.log) && s.trust.maxPerMinute >= 0 && lo <= hi <= |g.log|
    requires forall i | i in some :: AdmissibleBetween(g, pair, lo, hi, i)
    ensures |some| as real
            <= RateWindows.Allowed(RateWindows.Capacity(s.trust), RateWindows.Rate(s.trust),
                                   RateWindows.TimesUpTo(s.trust, g.log, pair, hi),
                                   |RateWindows.TimesUpTo(s.trust, g.log, pair, lo)|)
  {
    AdmissibleAreCounted(s, g, pair, lo, hi, some);
    RateWindows.NoStretchPassesMore(s.trust, g.log, pair, lo, hi);
  }
}

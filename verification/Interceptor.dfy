/**
 The interceptor as a whole: any number of concurrent `intercept` calls, each
 passing the size limit and the trust boundary, running an engine on the bounded
 pool, and signing a verdict, interleaved in every way with each other, with the
 pool's threads and with other uses of the trust boundary.
 */
module Interceptor {
  import opened Options
  import opened Engines
  import opened Verdicts
  import opened EngineRouting
  import opened TrustBoundaries
  import EngineSlots
  import TrustHistory
  import opened JtiRegistries
  import Attestations
  import FinanceGuard

  type Pool = EngineSlots.State<Message, EngineResult>

  /** How far a call got. `at` is its place in the trust boundary's log, `run` its engine run. */
  datatype Path =
    | Unserializable
    | TooLarge
    | TurnedAway(at: nat)
    | Admitted(at: nat)
    | Ran(at: nat, run: nat)

  /** Why `intercept` raises: it was cancelled, its run was skipped, its payload
      could not be hashed, or its verdict could not be signed. */
  datatype Cause = WasCancelled | NoResult | NoHash | NotSigned(error: Attestations.SignError)

  /** What the caller of `intercept` has: nothing yet, a verdict, or an exception. */
  datatype Reply = Pending | Verdict(status: VerdictStatus, token: Option<Attestations.Token>) | Raised(cause: Cause)

  datatype Call = Call(msg: Message, traceId: string, path: Path, reply: Reply)

  /** What stays fixed. */
  datatype Setup = Setup(config: Config, trust: TrustHistory.Config, service: Attestations.Service, workers: nat,
                         queue: nat)

  datatype Gateway = Gateway(
    log: seq<TrustHistory.Op>,
    trust: Boundary,
    pool: Pool,
    issued: Seen,
    calls: seq<Call>)

  function Initial(s: Setup): Gateway {
    Gateway([], TrustHistory.Replay(s.trust, []), EngineSlots.Initial(s.workers, s.queue), map[], [])
  }

  datatype Step =
    // A new call: the size check and the trust boundary.
    | Arrive(msg: Message, traceId: string, wall: real, mono: real, monoRate: real)
    // Any other use of the trust boundary.
    | Operate(op: TrustHistory.Op)
    // An admitted call asks for a slot.
    | Begin(call: nat)
    // Whatever else happens in the pool.
    | InPool(step: EngineSlots.Step<Message>)
    // A call whose outcome is settled builds and signs its verdict.
    | Conclude(call: nat, t: int, now: real, encodes: bool)

  /** What the engine concludes on a message, for the pool to run. */
  ghost function Engine(s: Setup): Message -> Option<EngineResult> {
    m => Route(s.config, m)
  }

  function StatusOf(result: EngineResult): VerdictStatus {
    match result
    case Unverifiable => UNVERIFIABLE
    case HeuristicPass => HEURISTIC_PASS
    case Verified => VERIFIED
    case NotVerified => BLOCKED
  }

  /** How a call ends: not yet, with an exception, or with a verdict. */
  datatype Ending = NotYet | Propagates(cause: Cause) | Status(status: VerdictStatus)

  function CallerEnding(caller: EngineSlots.Caller<EngineResult>): Ending {
    match caller
    case Acquired => NotYet
    case Waiting => NotYet
    case Got(result) => Status(StatusOf(result))
    case Refused => Status(ERROR)
    case SubmitFailed => Status(ERROR)
    case GotError => Status(ERROR)
    case TimedOut => Status(ERROR)
    // A cancellation is passed on; so is the failure to read a skipped run's absent result.
    case Cancelled => Propagates(WasCancelled)
    case GotNothing => Propagates(NoResult)
  }

  function EndingOf(pool: Pool, path: Path): Ending {
    match path
    case Unserializable => Status(UNVERIFIABLE)
    case TooLarge => Status(BLOCKED)
    case TurnedAway(_) => Status(BLOCKED)
    case Admitted(_) => NotYet
    case Ran(_, run) => if run < |pool.runs| then CallerEnding(pool.runs[run].caller) else NotYet
  }

  function EvaluateOp(msg: Message, wall: real, mono: real, monoRate: real): TrustHistory.Op {
    TrustHistory.Evaluate(msg.sender, msg.receiver, Some(TypeValue(msg.payloadType)), wall, mono, monoRate)
  }

  function ClaimsOf(c: Call, status: VerdictStatus, engine: string, hash: string): Attestations.Claims {
    Attestations.Claims(c.traceId, WireValue(status), engine, c.msg.sender, c.msg.receiver, hash, None)
  }

  /** The engine a message is routed to. */
  function RoutedTo(cfg: Config, t: PayloadType): string {
    if t.FINANCIAL_TRANSACTION? && cfg.enableFinancial then "finance_guard"
    else if t.LOGIC_ASSERTION? && cfg.enableLogic then "logic_guard"
    else if t.CODE_EXECUTION? && cfg.enableCode then "code_guard"
    else "passthrough"
  }

  /** The engine named in the attestation. */
  function EngineName(s: Setup, pool: Pool, c: Call): string {
    match c.path
    case Unserializable => "size_limit"
    case TooLarge => "size_limit"
    case TurnedAway(_) => "trust_boundary"
    case Admitted(_) => ""
    case Ran(_, run) =>
      if run >= |pool.runs| then ""
      else match pool.runs[run].caller
        case Refused => "engine_busy"
        case TimedOut => "engine_timeout"
        case Got(_) => RoutedTo(s.config, c.msg.payloadType)
        case _ => "error_handler"
  }

  /** Every verdict but UNVERIFIABLE is signed, or not given. */
  function Concluded(s: Setup, g: Gateway, c: Call, t: int, now: real, encodes: bool): (Seen, Reply) {
    match EndingOf(g.pool, c.path)
    case NotYet => (g.issued, Pending)
    case Propagates(cause) => (g.issued, Raised(cause))
    case Status(status) =>
      if status == UNVERIFIABLE then (g.issued, Verdict(status, None))
      else if c.msg.hash.None? then (g.issued, Raised(NoHash))
      else
        var (issued, signed) := Attestations.Sign(s.service,
                                                  ClaimsOf(c, status, EngineName(s, g.pool, c), c.msg.hash.value),
                                                  g.issued,
                                                  s.service.validity as real, t, now, encodes);
        (issued, if signed.Minted? then Verdict(status, Some(signed.token)) else Raised(NotSigned(signed.error)))
  }

  predicate Enabled(g: Gateway, step: Step) {
    match step
    case Arrive(_, _, _, _, _) => true
    case Operate(_) => true
    case Begin(i) => i < |g.calls| && g.calls[i].path.Admitted?
    case InPool(p) => !p.Acquire? && !p.Refuse? && EngineSlots.Enabled(g.pool, p)
    case Conclude(i, _, _, _) =>
      i < |g.calls| && g.calls[i].reply.Pending? && !EndingOf(g.pool, g.calls[i].path).NotYet?
  }

  /** The size check, then the trust boundary. */
  ghost function Arrived(s: Setup, g: Gateway, msg: Message, traceId: string, op: TrustHistory.Op): Gateway {
    if msg.size.None? then g.(calls := g.calls + [Call(msg, traceId, Unserializable, Pending)])
    else if msg.size.value > s.config.maxPayloadSize then g.(calls := g.calls + [Call(msg, traceId, TooLarge, Pending)])
    else
      var (trust, answer) := TrustHistory.Apply(g.trust, op);
      var path := if answer == TrustHistory.Decision(None) then Admitted(|g.log|) else TurnedAway(|g.log|);
      g.(trust := trust, log := g.log + [op], calls := g.calls + [Call(msg, traceId, path, Pending)])
  }

  /** A free slot is taken, or the run is refused. */
  function SlotStep(pool: Pool, msg: Message): EngineSlots.Step<Message> {
    if pool.free > 0 then EngineSlots.Acquire(msg) else EngineSlots.Refuse(msg)
  }

  ghost function Apply(s: Setup, g: Gateway, step: Step): Gateway
    requires Enabled(g, step)
  {
    match step
    case Arrive(msg, traceId, wall, mono, monoRate) =>
      Arrived(s, g, msg, traceId, EvaluateOp(msg, wall, mono, monoRate))
    case Operate(op) => g.(trust := TrustHistory.Apply(g.trust, op).0, log := g.log + [op])
    case Begin(i) =>
      var c := g.calls[i];
      g.(pool := EngineSlots.Apply(Engine(s), g.pool, SlotStep(g.pool, c.msg)),
         calls := g.calls[i := c.(path := Ran(c.path.at, |g.pool.runs|))])
    case InPool(p) => g.(pool := EngineSlots.Apply(Engine(s), g.pool, p))
    case Conclude(i, t, now, encodes) =>
      var (issued, reply) := Concluded(s, g, g.calls[i], t, now, encodes);
      g.(issued := issued, calls := g.calls[i := g.calls[i].(reply := reply)])
  }

  ghost predicate IsSchedule(s: Setup, g: Gateway, steps: seq<Step>)
    decreases |steps|
  {
    steps != [] ==> Enabled(g, steps[0]) && IsSchedule(s, Apply(s, g, steps[0]), steps[1..])
  }

  ghost function After(s: Setup, g: Gateway, steps: seq<Step>): Gateway
    requires IsSchedule(s, g, steps)
    decreases |steps|
  {
    if steps == [] then g else After(s, Apply(s, g, steps[0]), steps[1..])
  }

  /** Reachable from a fresh interceptor by some interleaving. */
  ghost predicate Reachable(s: Setup, g: Gateway) {
    exists steps :: IsSchedule(s, Initial(s), steps) && After(s, Initial(s), steps) == g
  }

  // --------------------------------------------------------------------
  // What every step keeps
  // --------------------------------------------------------------------

  predicate HasPlace(path: Path) {
    path.TurnedAway? || path.Admitted? || path.Ran?
  }

  predicate Measurable(s: Setup, msg: Message) {
    msg.size.Some? && msg.size.value <= s.config.maxPayloadSize
  }

  /** The operation is the message's own evaluation. */
  predicate IsEvaluationOf(op: TrustHistory.Op, msg: Message) {
    && op.Evaluate?
    && op.sender == msg.sender && op.receiver == msg.receiver && op.payloadType == Some(TypeValue(msg.payloadType))
  }

  /** The answer the trust boundary gave at a place in its log. */
  function AnswerAt(s: Setup, log: seq<TrustHistory.Op>, at: nat): TrustHistory.Answer
    requires at < |log|
  {
    TrustHistory.Apply(TrustHistory.Replay(s.trust, log[..at]), log[at]).1
  }

  /** The call's place in the log is its own evaluation, answered as the path says. */
  predicate PlaceFits(s: Setup, log: seq<TrustHistory.Op>, c: Call)
    requires HasPlace(c.path)
  {
    && Measurable(s, c.msg)
    && c.path.at < |log|
    && IsEvaluationOf(log[c.path.at], c.msg)
    && (AnswerAt(s, log, c.path.at) == TrustHistory.Decision(None) <==> !c.path.TurnedAway?)
  }

  ghost predicate PathFits(s: Setup, g: Gateway, c: Call) {
    && (c.path.Unserializable? ==> c.msg.size.None?)
    && (c.path.TooLarge? ==> c.msg.size.Some? && c.msg.size.value > s.config.maxPayloadSize)
    && (HasPlace(c.path) ==> PlaceFits(s, g.log, c))
    && (c.path.Ran? ==> c.path.run < |g.pool.runs| && g.pool.runs[c.path.run].msg == c.msg)
  }

  /** The attestation of a verdict says what the verdict says. */
  predicate TokenFits(s: Setup, c: Call, status: VerdictStatus, token: Attestations.Token) {
    && s.service.ownKey.Some? && token.signer == s.service.ownKey.value.key
    && token.body.Some? && token.body.value.block.Some? && token.body.value.envelope.Some?
    && Parse(token.body.value.block.value.verdict) == Some(status)
    && token.body.value.block.value.sender == c.msg.sender
    && token.body.value.block.value.receiver == c.msg.receiver
    && token.body.value.envelope.value.iss == s.service.issuerId
    && token.body.value.envelope.value.jti == c.traceId
    && c.msg.hash == Some(token.body.value.envelope.value.sub)
  }

  ghost predicate ReplyFits(s: Setup, pool: Pool, c: Call) {
    c.reply.Verdict? ==>
      && EndingOf(pool, c.path) == Status(c.reply.status)
      && (c.reply.token.None? <==> c.reply.status == UNVERIFIABLE)
      && (c.reply.token.Some? ==>
            && TokenFits(s, c, c.reply.status, c.reply.token.value)
            && c.reply.token.value.body.value.block.value.engine == EngineName(s, pool, c))
  }

  /** Each exception has its cause. */
  predicate RaiseFits(s: Setup, pool: Pool, c: Call) {
    c.reply.Raised? ==>
      var ending := EndingOf(pool, c.path);
      match c.reply.cause
      case WasCancelled => ending == Propagates(WasCancelled)
      case NoResult => ending == Propagates(NoResult)
      case NoHash => ending.Status? && ending.status != UNVERIFIABLE && c.msg.hash.None?
      case NotSigned(error) =>
        && ending.Status? && ending.status != UNVERIFIABLE
        && !error.UnknownVerdict?
        && (error.NoSigningKey? <==> s.service.ownKey.None?)
  }

  ghost predicate CallFits(s: Setup, g: Gateway, c: Call) {
    PathFits(s, g, c) && ReplyFits(s, g.pool, c) && RaiseFits(s, g.pool, c)
  }

  /** No two calls share an evaluation or an engine run. */
  predicate Apart(c: Call, d: Call) {
    && (HasPlace(c.path) && HasPlace(d.path) ==> c.path.at != d.path.at)
    && (c.path.Ran? && d.path.Ran? ==> c.path.run != d.path.run)
  }

  ghost predicate CallsFit(s: Setup, g: Gateway) {
    forall i | 0 <= i < |g.calls| :: CallFits(s, g, g.calls[i])
  }

  ghost predicate CallsApart(g: Gateway) {
    forall i, j | 0 <= i < j < |g.calls| :: Apart(g.calls[i], g.calls[j])
  }

  ghost predicate Inv(s: Setup, g: Gateway) {
    && g.trust == TrustHistory.Replay(s.trust, g.log)
    && EngineSlots.Inv(Engine(s), g.pool)
    && CallsFit(s, g)
    && CallsApart(g)
  }

  /** A step of the pool leaves what a finished caller was told. */
  lemma PoolKeepsEnding(s: Setup, pool: Pool, step: EngineSlots.Step<Message>, run: nat)
    requires EngineSlots.Enabled(pool, step) && run < |pool.runs|
    ensures var after := EngineSlots.Apply(Engine(s), pool, step);
            && run < |after.runs|
            && after.runs[run].msg == pool.runs[run].msg
            && (!CallerEnding(pool.runs[run].caller).NotYet? ==> after.runs[run].caller == pool.runs[run].caller)
  {
  }

  /** What a step may do to the state as a call sees it. */
  ghost predicate Grows(s: Setup, g: Gateway, h: Gateway) {
    && g.log <= h.log
    && |g.pool.runs| <= |h.pool.runs|
    && forall run: nat | run < |g.pool.runs| ::
         && h.pool.runs[run].msg == g.pool.runs[run].msg
         && (!CallerEnding(g.pool.runs[run].caller).NotYet? ==> h.pool.runs[run].caller == g.pool.runs[run].caller)
  }

  lemma StepGrows(s: Setup, g: Gateway, step: Step)
    requires Enabled(g, step)
    ensures Grows(s, g, Apply(s, g, step))
  {
    if step.Begin? || step.InPool? {
      var p := if step.InPool? then step.step else SlotStep(g.pool, g.calls[step.call].msg);
      forall run: nat | run < |g.pool.runs|
        ensures var after := EngineSlots.Apply(Engine(s), g.pool, p);
                && run < |after.runs|
                && after.runs[run].msg == g.pool.runs[run].msg
                && (!CallerEnding(g.pool.runs[run].caller).NotYet?
                    ==> after.runs[run].caller == g.pool.runs[run].caller)
      {
        PoolKeepsEnding(s, g.pool, p, run);
      }
      PoolOnlyGrows(s, g.pool, p);
    }
  }

  lemma PoolOnlyGrows(s: Setup, pool: Pool, step: EngineSlots.Step<Message>)
    requires EngineSlots.Enabled(pool, step)
    ensures |pool.runs| <= |EngineSlots.Apply(Engine(s), pool, step).runs|
  {
  }

  lemma PlaceStays(s: Setup, log: seq<TrustHistory.Op>, more: seq<TrustHistory.Op>, c: Call)
    requires HasPlace(c.path) && PlaceFits(s, log, c) && log <= more
    ensures PlaceFits(s, more, c)
  {
    assert more[..c.path.at] == log[..c.path.at];
  }

  /** A call the step does not touch. */
  lemma UntouchedCallFits(s: Setup, g: Gateway, h: Gateway, c: Call)
    requires CallFits(s, g, c) && Grows(s, g, h)
    ensures CallFits(s, h, c)
  {
    if HasPlace(c.path) { PlaceStays(s, g.log, h.log, c); }
  }

  lemma ArrivedCallFits(s: Setup, g: Gateway, msg: Message, traceId: string, op: TrustHistory.Op)
    requires g.trust == TrustHistory.Replay(s.trust, g.log) && IsEvaluationOf(op, msg)
    ensures var h := Arrived(s, g, msg, traceId, op);
            |h.calls| == |g.calls| + 1 && CallFits(s, h, h.calls[|g.calls|])
  {
    if Measurable(s, msg) {
      assert (g.log + [op])[..|g.log|] == g.log;
    }
  }

  lemma BegunCallFits(s: Setup, g: Gateway, i: nat)
    requires Enabled(g, Begin(i)) && CallFits(s, g, g.calls[i])
    ensures CallFits(s, Apply(s, g, Begin(i)), Apply(s, g, Begin(i)).calls[i])
  {
  }

  lemma SignedTokenFits(s: Setup, c: Call, status: VerdictStatus, engine: string, issued: Seen, t: int, now: real,
                        encodes: bool)
    requires c.msg.hash.Some?
    ensures var signed := Attestations.Sign(s.service, ClaimsOf(c, status, engine, c.msg.hash.value), issued,
                                            s.service.validity as real, t, now, encodes).1;
            signed.Minted? ==>
              TokenFits(s, c, status, signed.token) && signed.token.body.value.block.value.engine == engine
  {
    ParseWireValue(status);
  }

  lemma ParseWireValue(status: VerdictStatus)
    ensures Parse(WireValue(status)) == Some(status)
  {
  }

  lemma ConcludedReplyFits(s: Setup, g: Gateway, c: Call, t: int, now: real, encodes: bool)
    ensures ReplyFits(s, g.pool, c.(reply := Concluded(s, g, c, t, now, encodes).1))
    ensures RaiseFits(s, g.pool, c.(reply := Concluded(s, g, c, t, now, encodes).1))
  {
    var ending := EndingOf(g.pool, c.path);
    if ending.Status? && c.msg.hash.Some? {
      SignedTokenFits(s, c, ending.status, EngineName(s, g.pool, c), g.issued, t, now, encodes);
    }
  }

  lemma ConcludedCallFits(s: Setup, g: Gateway, step: Step)
    requires step.Conclude? && Enabled(g, step) && CallFits(s, g, g.calls[step.call])
    ensures CallFits(s, Apply(s, g, step), Apply(s, g, step).calls[step.call])
  {
    ConcludedReplyFits(s, g, g.calls[step.call], step.t, step.now, step.encodes);
  }

  lemma StepKeepsCalls(s: Setup, g: Gateway, step: Step)
    requires g.trust == TrustHistory.Replay(s.trust, g.log) && CallsFit(s, g) && Enabled(g, step)
    ensures CallsFit(s, Apply(s, g, step))
  {
    var h := Apply(s, g, step);
    StepGrows(s, g, step);
    forall i | 0 <= i < |h.calls|
      ensures CallFits(s, h, h.calls[i])
    {
      if step.Begin? && step.call == i {
        BegunCallFits(s, g, i);
      } else if step.Conclude? && step.call == i {
        ConcludedCallFits(s, g, step);
      } else if i < |g.calls| {
        UntouchedCallFits(s, g, h, g.calls[i]);
      } else {
        ArrivedCallFits(s, g, step.msg, step.traceId, EvaluateOp(step.msg, step.wall, step.mono, step.monoRate));
      }
    }
  }

  /** Places and runs used so far are in range, so a new one is new. */
  ghost predicate InRange(g: Gateway, c: Call) {
    (HasPlace(c.path) ==> c.path.at < |g.log|) && (c.path.Ran? ==> c.path.run < |g.pool.runs|)
  }

  lemma StepKeepsApart(s: Setup, g: Gateway, step: Step)
    requires CallsApart(g) && Enabled(g, step)
    requires forall i | 0 <= i < |g.calls| :: InRange(g, g.calls[i])
    ensures CallsApart(Apply(s, g, step))
  {
    var h := Apply(s, g, step);
    forall i, j | 0 <= i < j < |h.calls|
      ensures Apart(h.calls[i], h.calls[j])
    {
      assert InRange(g, g.calls[i]);
      if j < |g.calls| { assert Apart(g.calls[i], g.calls[j]) && InRange(g, g.calls[j]); }
    }
  }

  lemma StepKeepsTrust(s: Setup, g: Gateway, step: Step)
    requires g.trust == TrustHistory.Replay(s.trust, g.log) && Enabled(g, step)
    ensures Apply(s, g, step).trust == TrustHistory.Replay(s.trust, Apply(s, g, step).log)
  {
    if step.Arrive? { TrustHistory.Snoc(g.log, EvaluateOp(step.msg, step.wall, step.mono, step.monoRate)); }
    if step.Operate? { TrustHistory.Snoc(g.log, step.op); }
  }

  lemma StepKeepsPool(s: Setup, g: Gateway, step: Step)
    requires EngineSlots.Inv(Engine(s), g.pool) && Enabled(g, step)
    ensures EngineSlots.Inv(Engine(s), Apply(s, g, step).pool)
  {
    if step.Begin? { EngineSlots.StepKeepsInv(Engine(s), g.pool, SlotStep(g.pool, g.calls[step.call].msg)); }
    if step.InPool? { EngineSlots.StepKeepsInv(Engine(s), g.pool, step.step); }
  }

  lemma StepKeepsInv(s: Setup, g: Gateway, step: Step)
    requires Inv(s, g) && Enabled(g, step)
    ensures Inv(s, Apply(s, g, step))
  {
    forall i | 0 <= i < |g.calls|
      ensures InRange(g, g.calls[i])
    {
      assert CallFits(s, g, g.calls[i]);
    }
    StepKeepsCalls(s, g, step);
    StepKeepsApart(s, g, step);
    StepKeepsTrust(s, g, step);
    StepKeepsPool(s, g, step);
  }

  lemma {:induction false} RunKeepsInv(s: Setup, g: Gateway, steps: seq<Step>)
    requires Inv(s, g) && IsSchedule(s, g, steps)
    ensures Inv(s, After(s, g, steps))
    decreases |steps|
  {
    if steps != [] {
      StepKeepsInv(s, g, steps[0]);
      RunKeepsInv(s, Apply(s, g, steps[0]), steps[1..]);
    }
  }

  lemma ReachableInv(s: Setup, g: Gateway)
    requires Reachable(s, g)
    ensures Inv(s, g)
  {
    var steps :| IsSchedule(s, Initial(s), steps) && After(s, Initial(s), steps) == g;
    RunKeepsInv(s, Initial(s), steps);
  }
}

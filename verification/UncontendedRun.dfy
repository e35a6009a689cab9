/** A call that nothing disturbs gets the verdict its message deserves, whatever came before it. */
module UncontendedRun {
  import opened Options
  import opened Engines
  import opened Verdicts
  import opened EngineRouting
  import opened TrustBoundaries
  import opened Interceptor
  import opened JtiRegistries
  import opened TokenBuckets
  import EngineSlots
  import TrustHistory
  import Attestations

  // --------------------------------------------------------------------
  // Steps on the newest run
  // --------------------------------------------------------------------

  ghost predicate Leads(s: Setup, g: Gateway, steps: seq<Step>, end: Gateway) {
    IsSchedule(s, g, steps) && After(s, g, steps) == end
  }

  lemma FirstStep(s: Setup, g: Gateway, step: Step, rest: seq<Step>, end: Gateway)
    requires Enabled(g, step) && Leads(s, Apply(s, g, step), rest, end)
    ensures Leads(s, g, [step] + rest, end)
  {
    assert ([step] + rest)[1..] == rest;
  }

  type Run = EngineSlots.Run<Message, EngineResult>

  /** The gateway with one more run, at some stage. */
  function WithRun(g: Gateway, r: Run, free: nat): Gateway {
    g.(pool := g.pool.(runs := g.pool.runs + [r], free := free))
  }

  /** The run of a message whose caller waits, at some stage of its job. */
  function Waiting(msg: Message, job: EngineSlots.Job<EngineResult>, releases: nat): Run {
    EngineSlots.Run(msg, EngineSlots.Waiting, job, false, 1, releases)
  }

  function Acquired(msg: Message): Run {
    EngineSlots.Run(msg, EngineSlots.Acquired, EngineSlots.Unsubmitted, false, 1, 0)
  }

  function Delivered(msg: Message, result: EngineResult): Run {
    EngineSlots.Run(msg, EngineSlots.Got(result), EngineSlots.Settled(EngineSlots.Returned(result)), true, 1, 1)
  }

  /** A step taken inside the pool, on the newest run. */
  lemma PoolStep(s: Setup, g: Gateway, before: Run, free: nat, p: EngineSlots.Step<Message>, after: Run, free': nat,
                 rest: seq<Step>, end: Gateway)
    requires !EngineSlots.Admits(p) && !p.Refuse? && p.id == |g.pool.runs|
    requires EngineSlots.Enabled(WithRun(g, before, free).pool, p)
    requires var pool := EngineSlots.Apply(Engine(s), WithRun(g, before, free).pool, p);
             pool.free == free' && pool.runs[p.id] == after
    requires Leads(s, WithRun(g, after, free'), rest, end)
    ensures Leads(s, WithRun(g, before, free), [InPool(p)] + rest, end)
  {
    assert (g.pool.runs + [before])[p.id := after] == g.pool.runs + [after];
    FirstStep(s, WithRun(g, before, free), InPool(p), rest, end);
  }

  lemma Submits(s: Setup, g: Gateway, msg: Message, free: nat, rest: seq<Step>, end: Gateway)
    requires !g.pool.closed
    requires Leads(s, WithRun(g, Waiting(msg, EngineSlots.Queued, 0), free), rest, end)
    ensures Leads(s, WithRun(g, Acquired(msg), free), [InPool(EngineSlots.Submit(|g.pool.runs|))] + rest, end)
  {
    PoolStep(s, g, Acquired(msg), free, EngineSlots.Submit(|g.pool.runs|), Waiting(msg, EngineSlots.Queued, 0), free,
             rest, end);
  }

  lemma Starts(s: Setup, g: Gateway, msg: Message, free: nat, rest: seq<Step>, end: Gateway)
    requires EngineSlots.Count(g.pool.runs, EngineSlots.InThread) < g.pool.workers
    requires Leads(s, WithRun(g, Waiting(msg, EngineSlots.Executing, 0), free), rest, end)
    ensures Leads(s, WithRun(g, Waiting(msg, EngineSlots.Queued, 0), free),
                  [InPool(EngineSlots.Start(|g.pool.runs|))]
                    + ([InPool(EngineSlots.CheckAbandoned(|g.pool.runs|))] + rest),
                  end)
  {
    var n, picked := |g.pool.runs|, Waiting(msg, EngineSlots.Picked, 0);
    PoolStep(s, g, picked, free, EngineSlots.CheckAbandoned(n), Waiting(msg, EngineSlots.Executing, 0), free, rest,
             end);
    EngineSlots.CountAppend(g.pool.runs, Waiting(msg, EngineSlots.Queued, 0), EngineSlots.InThread);
    PoolStep(s, g, Waiting(msg, EngineSlots.Queued, 0), free, EngineSlots.Start(n), picked, free,
             [InPool(EngineSlots.CheckAbandoned(n))] + rest, end);
  }

  lemma Finishes(s: Setup, g: Gateway, msg: Message, result: EngineResult, free: nat, rest: seq<Step>, end: Gateway)
    requires Route(s.config, msg) == Some(result)
    requires Leads(s, WithRun(g, Waiting(msg, EngineSlots.Released(EngineSlots.Returned(result)), 1), free + 1), rest,
                   end)
    ensures Leads(s, WithRun(g, Waiting(msg, EngineSlots.Executing, 0), free),
                  [InPool(EngineSlots.EngineReturns(|g.pool.runs|))]
                    + ([InPool(EngineSlots.Release(|g.pool.runs|))] + rest),
                  end)
  {
    var n, outcome := |g.pool.runs|, EngineSlots.Returned(result);
    var finished := Waiting(msg, EngineSlots.Finished(outcome), 0);
    PoolStep(s, g, finished, free, EngineSlots.Release(n), Waiting(msg, EngineSlots.Released(outcome), 1), free + 1,
             rest, end);
    PoolStep(s, g, Waiting(msg, EngineSlots.Executing, 0), free, EngineSlots.EngineReturns(n), finished, free,
             [InPool(EngineSlots.Release(n))] + rest, end);
  }

  lemma Delivers(s: Setup, g: Gateway, msg: Message, result: EngineResult, free: nat, rest: seq<Step>, end: Gateway)
    requires Leads(s, WithRun(g, Delivered(msg, result), free), rest, end)
    ensures Leads(s, WithRun(g, Waiting(msg, EngineSlots.Released(EngineSlots.Returned(result)), 1), free),
                  [InPool(EngineSlots.Settle(|g.pool.runs|))] + ([InPool(EngineSlots.Deliver(|g.pool.runs|))] + rest),
                    end)
  {
    var n, outcome := |g.pool.runs|, EngineSlots.Returned(result);
    var settled := Waiting(msg, EngineSlots.Settled(outcome), 1);
    PoolStep(s, g, settled, free, EngineSlots.Deliver(n), Delivered(msg, result), free, rest, end);
    PoolStep(s, g, Waiting(msg, EngineSlots.Released(outcome), 1), free, EngineSlots.Settle(n), settled, free,
             [InPool(EngineSlots.Deliver(n))] + rest, end);
  }

  /** From taking the slot to delivering the result, the pool needs no help. */
  lemma EngineRuns(s: Setup, g: Gateway, msg: Message, result: EngineResult, free: nat, rest: seq<Step>, end: Gateway)
      returns (steps: seq<Step>)
    requires !g.pool.closed && EngineSlots.Count(g.pool.runs, EngineSlots.InThread) < g.pool.workers
    requires Route(s.config, msg) == Some(result)
    requires Leads(s, WithRun(g, Delivered(msg, result), free + 1), rest, end)
    ensures Leads(s, WithRun(g, Acquired(msg), free), steps, end)
  {
    var n := |g.pool.runs|;
    Delivers(s, g, msg, result, free + 1, rest, end);
    steps := [InPool(EngineSlots.Settle(n))] + ([InPool(EngineSlots.Deliver(n))] + rest);
    Finishes(s, g, msg, result, free, steps, end);
    steps := [InPool(EngineSlots.EngineReturns(n))] + ([InPool(EngineSlots.Release(n))] + steps);
    Starts(s, g, msg, free, steps, end);
    steps := [InPool(EngineSlots.Start(n))] + ([InPool(EngineSlots.CheckAbandoned(n))] + steps);
    Submits(s, g, msg, free, steps, end);
    steps := [InPool(EngineSlots.Submit(n))] + steps;
  }

  // --------------------------------------------------------------------
  // The whole call
  // --------------------------------------------------------------------

  /** Signing succeeds for a trace that is not taken. */
  lemma FreeTraceIsSigned(s: Setup, claims: Attestations.Claims, issued: Seen, t: int, now: real)
    requires s.service.ownKey.Some? && Parse(claims.verdict).Some? && claims.traceId !in Live(issued, now)
    ensures Attestations.Sign(s.service, claims, issued, s.service.validity as real, t, now, true).1.Minted?
  {
  }

  lemma Concludes(s: Setup, g: Gateway, c: Call, result: EngineResult, t: int, now: real)
    requires s.service.ownKey.Some? && c.msg.hash.Some? && c.traceId !in Live(g.issued, now)
    requires EndingOf(g.pool, c.path) == Status(StatusOf(result))
    ensures Concluded(s, g, c, t, now, true).1.Verdict?
    ensures Concluded(s, g, c, t, now, true).1.status == StatusOf(result)
  {
    ParseWireValue(StatusOf(result));
    FreeTraceIsSigned(s, ClaimsOf(c, StatusOf(result), EngineName(s, g.pool, c), c.msg.hash.value), g.issued, t, now);
  }

  /** There is a slot, a thread, and an open pool. */
  predicate HasRoom(g: Gateway) {
    !g.pool.closed && g.pool.free > 0 && EngineSlots.Count(g.pool.runs, EngineSlots.InThread) < g.pool.workers
  }

  lemma ArrivesAdmitted(s: Setup, g: Gateway, msg: Message, traceId: string, wall: real, mono: real, monoRate: real)
    requires Measurable(s, msg)
    requires TrustHistory.Apply(g.trust, EvaluateOp(msg, wall, mono, monoRate)).1 == TrustHistory.Decision(None)
    ensures var h := Apply(s, g, Arrive(msg, traceId, wall, mono, monoRate));
            && h.calls == g.calls + [Call(msg, traceId, Admitted(|g.log|), Pending)]
            && h.pool == g.pool && h.issued == g.issued
  {
  }

  lemma BeginsRun(s: Setup, g: Gateway, msg: Message, traceId: string, at: nat)
    requires g.pool.free > 0 && g.calls != [] && g.calls[|g.calls| - 1] == Call(msg, traceId, Admitted(at), Pending)
    ensures var h := g.(calls := g.calls[|g.calls| - 1 := Call(msg, traceId, Ran(at, |g.pool.runs|), Pending)]);
            Apply(s, g, Begin(|g.calls| - 1)) == WithRun(h, Acquired(msg), g.pool.free - 1)
  {
  }

  lemma FinishesCall(s: Setup, g: Gateway, c: Call, result: EngineResult, t: int, now: real) returns (end: Gateway)
    requires g.calls != [] && g.calls[|g.calls| - 1] == c && c.reply == Pending
    requires s.service.ownKey.Some? && c.msg.hash.Some? && c.traceId !in Live(g.issued, now)
    requires EndingOf(g.pool, c.path) == Status(StatusOf(result))
    ensures Leads(s, g, [Conclude(|g.calls| - 1, t, now, true)] + [], end)
    ensures |end.calls| == |g.calls| && end.calls[..|g.calls| - 1] == g.calls[..|g.calls| - 1]
    ensures var d := end.calls[|g.calls| - 1];
            d.msg == c.msg && d.traceId == c.traceId && d.reply.Verdict? && d.reply.status == StatusOf(result)
  {
    var step := Conclude(|g.calls| - 1, t, now, true);
    Concludes(s, g, c, result, t, now);
    end := Apply(s, g, step);
    FirstStep(s, g, step, [], end);
  }

  lemma DeliveredEnds(g: Gateway, msg: Message, result: EngineResult, free: nat, path: Path)
    requires path.Ran? && path.run == |g.pool.runs|
    ensures EndingOf(WithRun(g, Delivered(msg, result), free).pool, path) == Status(StatusOf(result))
  {
    assert WithRun(g, Delivered(msg, result), free).pool.runs[path.run] == Delivered(msg, result);
  }

  /** The newest call's run, once it has a slot, finishes, and the call concludes. */
  lemma RunConcludes(s: Setup, h: Gateway, c: Call, result: EngineResult, free: nat, t: int, now: real)
      returns (steps: seq<Step>, end: Gateway)
    requires h.calls != [] && h.calls[|h.calls| - 1] == c && c.reply == Pending
    requires c.path.Ran? && c.path.run == |h.pool.runs|
    requires !h.pool.closed && EngineSlots.Count(h.pool.runs, EngineSlots.InThread) < h.pool.workers
    requires s.service.ownKey.Some? && c.msg.hash.Some? && c.traceId !in Live(h.issued, now)
    requires Route(s.config, c.msg) == Some(result)
    ensures Leads(s, WithRun(h, Acquired(c.msg), free), steps, end)
    ensures |end.calls| == |h.calls| && end.calls[..|h.calls| - 1] == h.calls[..|h.calls| - 1]
    ensures var d := end.calls[|h.calls| - 1];
            d.msg == c.msg && d.traceId == c.traceId && d.reply.Verdict? && d.reply.status == StatusOf(result)
  {
    DeliveredEnds(h, c.msg, result, free + 1, c.path);
    end := FinishesCall(s, WithRun(h, Delivered(c.msg, result), free + 1), c, result, t, now);
    steps := EngineRuns(s, h, c.msg, result, free, [Conclude(|h.calls| - 1, t, now, true)] + [], end);
  }

  /** An admitted call, the newest, runs and concludes. */
  lemma AdmittedConcludes(s: Setup, g: Gateway, msg: Message, traceId: string, at: nat, result: EngineResult,
                          t: int, now: real) returns (steps: seq<Step>, end: Gateway)
    requires g.calls != [] && g.calls[|g.calls| - 1] == Call(msg, traceId, Admitted(at), Pending)
    requires HasRoom(g) && s.service.ownKey.Some? && msg.hash.Some? && traceId !in Live(g.issued, now)
    requires Route(s.config, msg) == Some(result)
    ensures Leads(s, g, steps, end)
    ensures |end.calls| == |g.calls| && end.calls[..|g.calls| - 1] == g.calls[..|g.calls| - 1]
    ensures var c := end.calls[|g.calls| - 1];
            c.msg == msg && c.traceId == traceId && c.reply.Verdict? && c.reply.status == StatusOf(result)
  {
    var n := |g.calls| - 1;
    var c := Call(msg, traceId, Ran(at, |g.pool.runs|), Pending);
    var h := g.(calls := g.calls[n := c]);
    steps, end := RunConcludes(s, h, c, result, g.pool.free - 1, t, now);
    BeginLeads(s, g, h, msg, traceId, at, steps, end);
    steps := [Begin(n)] + steps;
  }

  lemma BeginLeads(s: Setup, g: Gateway, h: Gateway, msg: Message, traceId: string, at: nat, steps: seq<Step>,
                   end: Gateway)
    requires g.pool.free > 0 && g.calls != [] && g.calls[|g.calls| - 1] == Call(msg, traceId, Admitted(at), Pending)
    requires h == g.(calls := g.calls[|g.calls| - 1 := Call(msg, traceId, Ran(at, |g.pool.runs|), Pending)])
    requires Leads(s, WithRun(h, Acquired(msg), g.pool.free - 1), steps, end)
    ensures Leads(s, g, [Begin(|g.calls| - 1)] + steps, end)
  {
    BeginsRun(s, g, msg, traceId, at);
    FirstStep(s, g, Begin(|g.calls| - 1), steps, end);
  }

  /**
   Nothing deserving is blocked. From any state of the interceptor, reachable or
   not, with a slot and a thread free in an open pool, a message that is small
   enough and that the trust boundary lets through can be given exactly the
   verdict of its engine, under any trace that is not taken.
   */
  lemma DeservedVerdictIsGiven(s: Setup, g: Gateway, msg: Message, traceId: string, result: EngineResult,
                               wall: real, mono: real, monoRate: real, t: int, now: real)
      returns (steps: seq<Step>, end: Gateway)
    requires HasRoom(g) && s.service.ownKey.Some? && msg.hash.Some? && Measurable(s, msg)
    requires traceId !in Live(g.issued, now)
    requires TrustHistory.Apply(g.trust, EvaluateOp(msg, wall, mono, monoRate)).1 == TrustHistory.Decision(None)
    requires Route(s.config, msg) == Some(result)
    ensures Leads(s, g, steps, end)
    ensures |end.calls| == |g.calls| + 1 && end.calls[..|g.calls|] == g.calls
    ensures var c := end.calls[|g.calls|];
            c.msg == msg && c.traceId == traceId && c.reply.Verdict? && c.reply.status == StatusOf(result)
  {
    var arrive := Arrive(msg, traceId, wall, mono, monoRate);
    ArrivesAdmitted(s, g, msg, traceId, wall, mono, monoRate);
    steps, end := AdmittedConcludes(s, Apply(s, g, arrive), msg, traceId, |g.log|, result, t, now);
    FirstStep(s, g, arrive, steps, end);
    steps := [arrive] + steps;
  }

  // --------------------------------------------------------------------
  // The default deployment
  // --------------------------------------------------------------------

  /** An unlimited grant. */
  const UNLIMITED: TrustEntry := TrustEntry(None, None, None)

  /** An interceptor on which an operator has granted one sender trust. */
  ghost function Granted(s: Setup, sender: string): Gateway {
    Apply(s, Initial(s), Operate(TrustHistory.Trust(sender, UNLIMITED)))
  }

  lemma GrantedSenderPasses(s: Setup, msg: Message, wall: real, mono: real, monoRate: real)
    requires s.trust.maxPerMinute >= 1
    ensures TrustHistory.Apply(Granted(s, msg.sender).trust, EvaluateOp(msg, wall, mono, monoRate)).1
            == TrustHistory.Decision(None)
  {
    TrustHistory.FreshIsFull(s.trust.maxPerMinute, monoRate);
  }

  /** With nobody trusted by default, a sender that has been granted trust gets its message's verdict. */
  lemma GrantedSenderIsServed(s: Setup, msg: Message, traceId: string, result: EngineResult,
                              wall: real, mono: real, monoRate: real, t: int, now: real)
      returns (steps: seq<Step>, end: Gateway)
    requires s.trust.maxPerMinute >= 1 && !s.trust.defaultAllow && s.workers > 0
    requires s.service.ownKey.Some? && msg.hash.Some? && Measurable(s, msg) && Route(s.config, msg) == Some(result)
    ensures Leads(s, Initial(s), steps, end)
    ensures |end.calls| == 1 && end.calls[0].msg == msg
    ensures end.calls[0].reply.Verdict? && end.calls[0].reply.status == StatusOf(result)
  {
    GrantedSenderPasses(s, msg, wall, mono, monoRate);
    assert Live(map[], now) == map[];
    steps, end := DeservedVerdictIsGiven(s, Granted(s, msg.sender), msg, traceId, result, wall, mono, monoRate, t, now);
    var grant := Operate(TrustHistory.Trust(msg.sender, UNLIMITED));
    FirstStep(s, Initial(s), grant, steps, end);
    steps := [grant] + steps;
  }
}

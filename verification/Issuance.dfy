/**
 Issuing attestations, over whole runs: calls to `sign_verdict` from any number
 of threads, each reserving its trace, encoding, and giving the trace back if
 the encoding fails.
 */
module Issuance {
  import opened Options
  import opened JtiRegistries
  import opened Verdicts
  import Attestations

  datatype Phase = Encoding | Minted | EncodeFailed

  /** A call that reserved its trace. `lapsedAt` is the first registry reading since at or after the slot's expiry. */
  datatype SignCall = SignCall(trace: string, exp: real, slot: real, phase: Phase, lapsedAt: Option<real>)

  datatype State = State(validity: int, issued: Seen, calls: seq<SignCall>)

  datatype Step =
    // `t` is the call's own clock in whole seconds, `now` what the registry reads.
    | Begin(trace: string, knownVerdict: bool, hasKey: bool, t: int, now: real)
    | Succeed(id: nat)
    | Fail(id: nat)

  function Initial(validity: int): State {
    State(validity, map[], [])
  }

  function Lapse(calls: seq<SignCall>, now: real): seq<SignCall> {
    seq(|calls|, i requires 0 <= i < |calls| =>
      if calls[i].lapsedAt.None? && calls[i].slot <= now then calls[i].(lapsedAt := Some(now)) else calls[i])
  }

  predicate Enabled(s: State, step: Step) {
    match step
    case Begin(_, _, _, _, _) => true
    case Succeed(id) => id < |s.calls| && s.calls[id].phase.Encoding?
    case Fail(id) => id < |s.calls| && s.calls[id].phase.Encoding?
  }

  function Apply(s: State, step: Step): State
    requires Enabled(s, step)
  {
    match step
    case Begin(trace, knownVerdict, hasKey, t, now) =>
      if !knownVerdict || !hasKey then s
      else
        var exp := (t + s.validity) as real;
        var (seen, accepted) := Registered(s.issued, s.validity as real, trace, now, Some(exp));
        var lapsed := Lapse(s.calls, now);
        if !accepted then s.(issued := seen, calls := lapsed)
        else s.(issued := seen, calls := lapsed + [SignCall(trace, exp, seen[trace], Encoding, None)])
    case Succeed(id) => s.(calls := s.calls[id := s.calls[id].(phase := Minted)])
    case Fail(id) => s.(issued := s.issued - {s.calls[id].trace},
                        calls := s.calls[id := s.calls[id].(phase := EncodeFailed)])
  }

  /** A failing call gives back a slot that has lapsed since it was reserved and
      that another call has taken: `release` goes by the trace alone. */
  predicate ReleasesForeign(s: State, step: Step) {
    step.Fail? && step.id < |s.calls| && s.calls[step.id].lapsedAt.Some? && s.calls[step.id].trace in s.issued
  }

  /** The state after taking all steps in order, if each is enabled where it is taken. */
  function Execute(s: State, steps: seq<Step>): Option<State>
    decreases |steps|
  {
    if steps == [] then Some(s)
    else if Enabled(s, steps[0]) then Execute(Apply(s, steps[0]), steps[1..])
    else None
  }

  ghost predicate NoForeignRelease(s: State, steps: seq<Step>)
    decreases |steps|
  {
    steps != [] && Enabled(s, steps[0]) ==>
      !ReleasesForeign(s, steps[0]) && NoForeignRelease(Apply(s, steps[0]), steps[1..])
  }

  /** Encoding or minted, with its slot not yet lapsed. */
  predicate Current(c: SignCall) {
    !c.phase.EncodeFailed? && c.lapsedAt.None?
  }

  /** The registry holds the call's slot. */
  predicate Holds(s: State, c: SignCall) {
    Current(c) && c.trace in s.issued && s.issued[c.trace] == c.slot
  }

  predicate CallFits(s: State, c: SignCall) {
    && c.exp <= c.slot
    && (c.lapsedAt.Some? ==> c.slot <= c.lapsedAt.value)
    && (Current(c) ==> Holds(s, c))
  }

  /** A held trace is held for some call. */
  ghost predicate Backed(s: State, trace: string) {
    exists i :: 0 <= i < |s.calls| && s.calls[i].trace == trace && Holds(s, s.calls[i])
  }

  ghost predicate Inv(s: State) {
    && (forall i | 0 <= i < |s.calls| :: CallFits(s, s.calls[i]))
    && (forall trace | trace in s.issued :: Backed(s, trace))
    && (forall i, k | 0 <= i < k < |s.calls| && s.calls[i].trace == s.calls[k].trace :: !Current(s.calls[i]))
  }

  lemma BeginKeepsCall(s: State, step: Step, i: nat)
    requires Inv(s) && step.Begin? && step.knownVerdict && step.hasKey && i < |s.calls|
    ensures var c, d := s.calls[i], Apply(s, step).calls[i];
            && CallFits(Apply(s, step), d) && d.trace == c.trace
            && (Current(d) <==> Current(c) && step.now < c.slot)
            && (Current(d) ==> d == c)
  {
    var c := s.calls[i];
    assert c in s.calls && CallFits(s, c);
  }

  lemma BeginKeepsBacking(s: State, step: Step, trace: string)
    requires Inv(s) && step.Begin? && step.knownVerdict && step.hasKey
    requires trace in Apply(s, step).issued
    ensures Backed(Apply(s, step), trace)
  {
    var t := Apply(s, step);
    if trace in Live(s.issued, step.now) {
      assert Backed(s, trace);
      var i :| 0 <= i < |s.calls| && s.calls[i].trace == trace && Holds(s, s.calls[i]);
      BeginKeepsCall(s, step, i);
    } else {
      assert Holds(t, t.calls[|s.calls|]);
    }
  }

  lemma BeginKeepsInv(s: State, step: Step)
    requires Inv(s) && step.Begin?
    ensures Inv(Apply(s, step))
  {
    if step.knownVerdict && step.hasKey {
      var t := Apply(s, step);
      forall i | 0 <= i < |t.calls|
        ensures CallFits(t, t.calls[i])
      {
        if i < |s.calls| { BeginKeepsCall(s, step, i); }
      }
      forall trace | trace in t.issued ensures Backed(t, trace) { BeginKeepsBacking(s, step, trace); }
      forall i, k | 0 <= i < k < |t.calls| && t.calls[i].trace == t.calls[k].trace
        ensures !Current(t.calls[i])
      {
        BeginKeepsCall(s, step, i);
        if k < |s.calls| { BeginKeepsCall(s, step, k); }
      }
    }
  }

  lemma FinishKeepsInv(s: State, step: Step)
    requires Inv(s) && !step.Begin? && Enabled(s, step) && !ReleasesForeign(s, step)
    ensures Inv(Apply(s, step))
  {
    var t := Apply(s, step);
    assert CallFits(s, s.calls[step.id]);
    forall i | 0 <= i < |t.calls|
      ensures CallFits(t, t.calls[i])
    {
      assert CallFits(s, s.calls[i]);
    }
    forall trace | trace in t.issued
      ensures Backed(t, trace)
    {
      assert Backed(s, trace);
      var i :| 0 <= i < |s.calls| && s.calls[i].trace == trace && Holds(s, s.calls[i]);
      assert Holds(t, t.calls[i]);
    }
  }

  lemma {:induction false} RunKeepsInv(s: State, steps: seq<Step>)
    requires Inv(s) && NoForeignRelease(s, steps) && Execute(s, steps).Some?
    ensures Inv(Execute(s, steps).value)
    decreases |steps|
  {
    if steps != [] {
      if steps[0].Begin? { BeginKeepsInv(s, steps[0]); } else { FinishKeepsInv(s, steps[0]); }
      RunKeepsInv(Apply(s, steps[0]), steps[1..]);
    }
  }

  /**
   Issuance safety, over every interleaving of signing calls in which none gives
   back a slot that another call has taken: a trace is held only for a token
   minted or being minted; and once a later call reserves the trace of a minted
   token, some registry reading since was at or after that token's expiry. Slots
   may lapse while their calls encode.
   */
  lemma IssuanceIsSafe(validity: int, steps: seq<Step>)
    requires NoForeignRelease(Initial(validity), steps) && Execute(Initial(validity), steps).Some?
    ensures var s := Execute(Initial(validity), steps).value;
            && (forall trace | trace in s.issued ::
                  exists i :: 0 <= i < |s.calls| && s.calls[i].trace == trace && !s.calls[i].phase.EncodeFailed?)
            && (forall i, k | 0 <= i < k < |s.calls| && s.calls[i].trace == s.calls[k].trace
                && s.calls[i].phase.Minted? ::
                  s.calls[i].lapsedAt.Some? && s.calls[i].lapsedAt.value >= s.calls[i].exp)
  {
    RunKeepsInv(Initial(validity), steps);
    var s := Execute(Initial(validity), steps).value;
    forall trace | trace in s.issued
      ensures exists i :: 0 <= i < |s.calls| && s.calls[i].trace == trace && !s.calls[i].phase.EncodeFailed?
    {
      assert Backed(s, trace);
    }
    forall i | 0 <= i < |s.calls| ensures CallFits(s, s.calls[i]) {}
  }

  /** An undisturbed `sign_verdict` call is a `Begin`, followed, if it reserved its trace, by its `Succeed` or
      `Fail`. */
  lemma SignIsBeginThenFinish(service: Attestations.Service, c: Attestations.Claims, s: State, t: int, now: real,
                              encodes: bool)
    requires s.validity == service.validity
    ensures var (seen, result) := Attestations.Sign(service, c, s.issued, s.validity as real, t, now, encodes);
            var begun := Apply(s, Begin(c.traceId, Parse(c.verdict).Some?, service.ownKey.Some?, t, now));
            var id := |s.calls|;
            if |begun.calls| == id then result.Failed? && seen == begun.issued
            else
              && |begun.calls| == id + 1 && begun.calls[id].phase.Encoding?
              && seen == Apply(begun, if encodes then Succeed(id) else Fail(id)).issued
              && (encodes <==> result.Minted?)
              && (encodes ==>
                    && result.token.body.value.envelope.value.jti == begun.calls[id].trace
                    && result.token.body.value.exp == begun.calls[id].exp)
  {
  }

  // --------------------------------------------------------------------
  // The condition is needed
  // --------------------------------------------------------------------

  /** Two tokens for one trace, the first one's slot not lapsed. */
  predicate TwoLiveTokens(s: State, i: nat, k: nat) {
    && i < k < |s.calls| && s.calls[i].trace == s.calls[k].trace
    && s.calls[i].phase.Minted? && s.calls[k].phase.Minted?
    && s.calls[i].lapsedAt.None?
  }

  lemma Then(s: State, step: Step, rest: seq<Step>, end: State)
    requires Enabled(s, step) && Execute(Apply(s, step), rest) == Some(end)
    ensures Execute(s, [step] + rest) == Some(end)
  {
    FirstStep(s, step, rest);
  }

  /** The call that took the slot finishes, if it has not. */
  lemma OtherCallMints(s: State, i: nat) returns (steps: seq<Step>, end: State)
    requires i < |s.calls| && Current(s.calls[i])
    ensures Execute(s, steps) == Some(end)
    ensures end == s.(calls := s.calls[i := s.calls[i].(phase := Minted)])
  {
    if s.calls[i].phase.Encoding? {
      end := Apply(s, Succeed(i));
      assert Execute(end, []) == Some(end);
      Then(s, Succeed(i), [], end);
      steps := [Succeed(i)] + [];
    } else {
      steps, end := [], s;
      assert s.calls[i := s.calls[i].(phase := Minted)] == s.calls;
    }
  }

  /** A trace that is free can be reserved and minted again while another call's slot for it is live. */
  lemma MintsAgain(s: State, i: nat, t: int, now: real) returns (steps: seq<Step>, end: State)
    requires i < |s.calls| && s.calls[i].phase.Minted? && s.calls[i].lapsedAt.None? && now < s.calls[i].slot
    requires s.calls[i].trace !in s.issued
    ensures Execute(s, steps) == Some(end) && |end.calls| == |s.calls| + 1 && TwoLiveTokens(end, i, |s.calls|)
  {
    var begin := Begin(s.calls[i].trace, true, true, t, now);
    var begun := Apply(s, begin);
    assert |begun.calls| == |s.calls| + 1 && begun.calls[i] == s.calls[i];
    end := Apply(begun, Succeed(|s.calls|));
    assert Execute(end, []) == Some(end);
    Then(begun, Succeed(|s.calls|), [], end);
    Then(s, begin, [Succeed(|s.calls|)] + [], end);
    steps := [begin] + ([Succeed(|s.calls|)] + []);
  }

  /**
   And exactly those releases break it. After any run without them, a failing
   call that gives back a slot another call has taken can be followed, at any
   reading before that slot lapses, by a second token while the first is live.
   */
  lemma ForeignReleaseBreaks(validity: int, before: seq<Step>, id: nat, t: int, now: real)
      returns (i: nat, after: seq<Step>, end: State)
    requires NoForeignRelease(Initial(validity), before) && Execute(Initial(validity), before).Some?
    requires var s := Execute(Initial(validity), before).value;
             && Enabled(s, Fail(id)) && ReleasesForeign(s, Fail(id))
             && (forall c | c in s.calls && c.trace == s.calls[id].trace && Current(c) :: now < c.slot)
    ensures Execute(Execute(Initial(validity), before).value, [Fail(id)] + after) == Some(end)
    ensures i < |end.calls| && TwoLiveTokens(end, i, |end.calls| - 1)
  {
    var s := Execute(Initial(validity), before).value;
    RunKeepsInv(Initial(validity), before);
    assert Backed(s, s.calls[id].trace);
    i :| 0 <= i < |s.calls| && s.calls[i].trace == s.calls[id].trace && Holds(s, s.calls[i]);
    assert s.calls[i] in s.calls;
    var failed := Apply(s, Fail(id));
    var minting, minted := OtherCallMints(failed, i);
    var again;
    again, end := MintsAgain(minted, i, t, now);
    after := minting + again;
    Chain(failed, minting, minted, again, end);
    FirstStep(s, Fail(id), after);
  }

  lemma {:induction false} Chain(s: State, steps: seq<Step>, mid: State, more: seq<Step>, end: State)
    requires Execute(s, steps) == Some(mid) && Execute(mid, more) == Some(end)
    ensures Execute(s, steps + more) == Some(end)
    decreases |steps|
  {
    if steps == [] {
      assert steps + more == more;
    } else {
      Chain(Apply(s, steps[0]), steps[1..], mid, more, end);
      assert (steps + more)[1..] == steps[1..] + more;
    }
  }

  /** Such releases happen: a call whose slot lapsed while it encoded gives back,
      on failing, the slot another call has taken since. */
  lemma LapseWhileEncodingBreaks() returns (steps: seq<Step>, s: State)
    ensures Execute(Initial(10), steps) == Some(s)
    ensures |s.calls| == 3 && s.calls[1].phase.Minted? && s.calls[1].trace == s.calls[2].trace
            && s.calls[1].lapsedAt.None?
  {
    var first, second, third := Begin("t", true, true, 0, 0.0), Begin("t", true, true, 10, 10.0),
      Begin("t", true, true, 11, 11.0);
    var s0 := Initial(10);
    var s1 := State(10, map["t" := 10.0], [SignCall("t", 10.0, 10.0, Encoding, None)]);
    var s2 := State(10, map["t" := 20.0],
                    [SignCall("t", 10.0, 10.0, Encoding, Some(10.0)), SignCall("t", 20.0, 20.0, Encoding, None)]);
    var s3 := State(10, map["t" := 20.0],
                    [SignCall("t", 10.0, 10.0, Encoding, Some(10.0)), SignCall("t", 20.0, 20.0, Minted, None)]);
    var s4 := State(10, map[], [SignCall("t", 10.0, 10.0, EncodeFailed, Some(10.0)),
                                SignCall("t", 20.0, 20.0, Minted, None)]);
    assert Apply(s0, first) == s1;
    assert Apply(s1, second) == s2;
    assert Apply(s2, Succeed(1)) == s3;
    assert Apply(s3, Fail(0)) == s4;
    s := Apply(s4, third);
    assert Execute(s, []) == Some(s);
    FirstStep(s4, third, []);
    FirstStep(s3, Fail(0), [third]);
    FirstStep(s2, Succeed(1), [Fail(0), third]);
    FirstStep(s1, second, [Succeed(1), Fail(0), third]);
    FirstStep(s0, first, [second, Succeed(1), Fail(0), third]);
    steps := [first, second, Succeed(1), Fail(0), third];
  }

  lemma FirstStep(s: State, step: Step, rest: seq<Step>)
    requires Enabled(s, step)
    ensures Execute(s, [step] + rest) == Execute(Apply(s, step), rest)
  {
    assert ([step] + rest)[1..] == rest;
  }
}

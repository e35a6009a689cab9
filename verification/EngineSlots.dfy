/**
 The bounded execution of engine runs: a semaphore of slots, a pool of worker
 threads, callers that may give up, and a pool that may be closed, as a
 transition system over every interleaving.
 */
module EngineSlots {
  import opened Options

  /** How a job ended: with the engine's result, with its exception, or skipped. */
  datatype Outcome<R> = Returned(value: R) | Raised | Skipped

  /** Where the job of a run is. A job holds its thread from `Picked` to
      `Released`, and gives its slot back on the way from `Finished` to `Released`. */
  datatype Job<R> =
    | Unsubmitted
    | Queued
    | Picked
    | Executing
    | Finished(outcome: Outcome<R>)
    | Released(outcome: Outcome<R>)
    | Settled(outcome: Outcome<R>)

  /** Where the caller of a run is. `GotNothing` would be a caller handed the result of a skipped job. */
  datatype Caller<R> =
    | Refused
    | Acquired
    | SubmitFailed
    | Waiting
    | Got(value: R)
    | GotError
    | GotNothing
    | TimedOut
    | Cancelled

  /** One run. `acquires` and `releases` count its uses of the semaphore. */
  datatype Run<M, R> = Run(msg: M, caller: Caller<R>, job: Job<R>, abandoned: bool, acquires: nat, releases: nat)

  datatype State<M, R> = State(workers: nat, queue: nat, free: nat, closed: bool, runs: seq<Run<M, R>>)
  {
    function Capacity(): nat { workers + queue }
  }

  function Initial<M, R>(workers: nat, queue: nat): State<M, R> {
    State(workers, queue, workers + queue, false, [])
  }

  datatype Step<M> =
    | Acquire(msg: M)
    | Refuse(msg: M)
    | Submit(id: nat)
    | FailSubmit(id: nat)
    | Start(id: nat)
    | CheckAbandoned(id: nat)
    | EngineReturns(id: nat)
    | EngineRaises(id: nat)
    | Release(id: nat)
    | Settle(id: nat)
    | Deliver(id: nat)
    // `noticed`: the event loop already holds the job's outcome.
    | Timeout(id: nat, noticed: bool)
    | Cancel(id: nat)
    | Close

  // --------------------------------------------------------------------
  // Counting runs
  // --------------------------------------------------------------------

  predicate HoldsSlot<M, R>(r: Run<M, R>) {
    r.caller.Acquired? || r.job.Queued? || r.job.Picked? || r.job.Executing? || r.job.Finished?
  }

  predicate InThread<M, R>(r: Run<M, R>) {
    r.job.Picked? || r.job.Executing? || r.job.Finished? || r.job.Released?
  }

  predicate IsRunning<M, R>(r: Run<M, R>) {
    r.job.Picked? || r.job.Executing? || r.job.Finished?
  }

  predicate IsQueued<M, R>(r: Run<M, R>) {
    r.job.Queued?
  }

  function Count<T>(s: seq<T>, f: T -> bool): nat {
    if s == [] then 0 else (if f(s[0]) then 1 else 0) + Count(s[1..], f)
  }

  lemma {:induction false} CountUpdate<T>(s: seq<T>, i: nat, x: T, f: T -> bool)
    requires i < |s|
    ensures Count(s[i := x], f) + (if f(s[i]) then 1 else 0) == Count(s, f) + (if f(x) then 1 else 0)
  {
    if i == 0 {
      assert s[0 := x][1..] == s[1..];
    } else {
      assert s[i := x][1..] == s[1..][i - 1 := x];
      CountUpdate(s[1..], i - 1, x, f);
    }
  }

  lemma {:induction false} CountAppend<T>(s: seq<T>, x: T, f: T -> bool)
    ensures Count(s + [x], f) == Count(s, f) + (if f(x) then 1 else 0)
  {
    if s == [] {
      assert s + [x] == [x];
    } else {
      assert (s + [x])[1..] == s[1..] + [x];
      CountAppend(s[1..], x, f);
    }
  }

  lemma {:induction false} CountSplit<T>(s: seq<T>, f: T -> bool, g: T -> bool, h: T -> bool)
    requires forall x | x in s :: f(x) || g(x) ==> h(x)
    requires forall x | x in s :: !(f(x) && g(x))
    ensures Count(s, f) + Count(s, g) <= Count(s, h)
  {
    if s != [] {
      assert s[0] in s;
      assert forall x | x in s[1..] :: x in s;
      CountSplit(s[1..], f, g, h);
    }
  }

  lemma {:induction false} CountNone<T>(s: seq<T>, f: T -> bool)
    ensures Count(s, f) == 0 <==> forall x | x in s :: !f(x)
  {
    if s != [] { CountNone(s[1..], f); }
  }

  // --------------------------------------------------------------------
  // Steps
  // --------------------------------------------------------------------

  predicate Enabled<M, R>(s: State<M, R>, step: Step<M>) {
    match step
    case Acquire(_) => s.free > 0
    case Refuse(_) => s.free == 0
    case Submit(id) => id < |s.runs| && s.runs[id].caller.Acquired? && !s.closed
    case FailSubmit(id) => id < |s.runs| && s.runs[id].caller.Acquired?
    case Start(id) => id < |s.runs| && s.runs[id].job.Queued? && Count(s.runs, InThread) < s.workers
    case CheckAbandoned(id) => id < |s.runs| && s.runs[id].job.Picked?
    case EngineReturns(id) => id < |s.runs| && s.runs[id].job.Executing?
    case EngineRaises(id) => id < |s.runs| && s.runs[id].job.Executing?
    case Release(id) => id < |s.runs| && s.runs[id].job.Finished?
    case Settle(id) => id < |s.runs| && s.runs[id].job.Released?
    case Deliver(id) => id < |s.runs| && s.runs[id].caller.Waiting? && s.runs[id].job.Settled?
    case Timeout(id, noticed) => id < |s.runs| && s.runs[id].caller.Waiting? && (noticed ==> s.runs[id].job.Settled?)
    case Cancel(id) => id < |s.runs| && s.runs[id].caller.Waiting?
    case Close => true
  }

  function Update<M, R>(s: State<M, R>, id: nat, r: Run<M, R>): State<M, R>
    requires id < |s.runs|
  {
    s.(runs := s.runs[id := r])
  }

  /** `engine` is the verification itself; `None` means it always raises on the message. */
  function Apply<M, R>(engine: M -> Option<R>, s: State<M, R>, step: Step<M>): State<M, R>
    requires Enabled(s, step)
  {
    match step
    case Acquire(msg) =>
      s.(free := s.free - 1, runs := s.runs + [Run(msg, Acquired, Unsubmitted, false, 1, 0)])
    case Refuse(msg) =>
      s.(runs := s.runs + [Run(msg, Refused, Unsubmitted, false, 0, 0)])
    case Submit(id) =>
      Update(s, id, s.runs[id].(caller := Waiting, job := Queued))
    case FailSubmit(id) =>
      Update(s, id, s.runs[id].(caller := SubmitFailed, releases := s.runs[id].releases + 1)).(free := s.free + 1)
    case Start(id) =>
      Update(s, id, s.runs[id].(job := Picked))
    case CheckAbandoned(id) =>
      Update(s, id, s.runs[id].(job := if s.runs[id].abandoned then Finished(Skipped) else Executing))
    case EngineReturns(id) =>
      var result := engine(s.runs[id].msg);
      Update(s, id, s.runs[id].(job := Finished(if result.Some? then Returned(result.value) else Raised)))
    case EngineRaises(id) =>
      Update(s, id, s.runs[id].(job := Finished(Raised)))
    case Release(id) =>
      var r := s.runs[id];
      Update(s, id, r.(job := Released(r.job.outcome), releases := r.releases + 1)).(free := s.free + 1)
    case Settle(id) =>
      Update(s, id, s.runs[id].(job := Settled(s.runs[id].job.outcome)))
    case Deliver(id) =>
      var caller := match s.runs[id].job.outcome
                    case Returned(v) => Got(v)
                    case Raised => GotError
                    case Skipped => GotNothing;
      Update(s, id, s.runs[id].(caller := caller, abandoned := true))
    case Timeout(id, noticed) =>
      // An engine that itself raised a TimeoutError is reported as the engine error it is.
      var caller := if noticed && s.runs[id].job.outcome.Raised? then GotError else TimedOut;
      Update(s, id, s.runs[id].(caller := caller, abandoned := true))
    case Cancel(id) =>
      Update(s, id, s.runs[id].(caller := Cancelled, abandoned := true))
    case Close => s.(closed := true)
  }

  /** A schedule: every step enabled where it is taken. */
  ghost predicate IsSchedule<M, R>(engine: M -> Option<R>, s: State<M, R>, steps: seq<Step<M>>)
    decreases |steps|
  {
    steps != [] ==> Enabled(s, steps[0]) && IsSchedule(engine, Apply(engine, s, steps[0]), steps[1..])
  }

  ghost function After<M, R>(engine: M -> Option<R>, s: State<M, R>, steps: seq<Step<M>>): State<M, R>
    requires IsSchedule(engine, s, steps)
    decreases |steps|
  {
    if steps == [] then s else After(engine, Apply(engine, s, steps[0]), steps[1..])
  }

  // --------------------------------------------------------------------
  // What every step keeps
  // --------------------------------------------------------------------

  /** Slots that are free or held. */
  function Balance<M, R>(s: State<M, R>): nat {
    s.free + Count(s.runs, HoldsSlot)
  }

  predicate GaveUp<R>(c: Caller<R>) {
    c.Got? || c.GotError? || c.GotNothing? || c.TimedOut? || c.Cancelled?
  }

  function OutcomeOf<R>(j: Job<R>): Option<Outcome<R>> {
    match j
    case Finished(o) => Some(o)
    case Released(o) => Some(o)
    case Settled(o) => Some(o)
    case _ => None
  }

  /** What holds of each run. */
  ghost predicate RunFits<M, R>(engine: M -> Option<R>, r: Run<M, R>) {
    && (r.abandoned <==> GaveUp(r.caller))
    && (r.caller.Refused? ==> r.job.Unsubmitted? && r.acquires == 0)
    && (!r.caller.Refused? ==> r.acquires == 1)
    && (r.job.Unsubmitted? <==> r.caller.Refused? || r.caller.Acquired? || r.caller.SubmitFailed?)
    && (r.releases == if r.acquires == 1 && !HoldsSlot(r) then 1 else 0)
    && (OutcomeOf(r.job) == Some(Skipped) ==> r.caller.TimedOut? || r.caller.Cancelled?)
    && (OutcomeOf(r.job).Some? && OutcomeOf(r.job).value.Returned?
        ==> engine(r.msg) == Some(OutcomeOf(r.job).value.value))
    && (r.caller.Got? ==> r.job == Settled(Returned(r.caller.value)))
    && (r.caller.GotError? ==> r.job == Settled(Raised))
    && !r.caller.GotNothing?
  }

  ghost predicate Inv<M, R>(engine: M -> Option<R>, s: State<M, R>) {
    && Balance(s) == s.Capacity()
    && Count(s.runs, InThread) <= s.workers
    && forall r | r in s.runs :: RunFits(engine, r)
  }

  lemma CountsOfUpdate<M, R>(s: State<M, R>, id: nat, r: Run<M, R>)
    requires id < |s.runs|
    ensures Count(s.runs[id := r], HoldsSlot) + (if HoldsSlot(s.runs[id]) then 1 else 0)
            == Count(s.runs, HoldsSlot) + (if HoldsSlot(r) then 1 else 0)
    ensures Count(s.runs[id := r], InThread) + (if InThread(s.runs[id]) then 1 else 0)
            == Count(s.runs, InThread) + (if InThread(r) then 1 else 0)
  {
    CountUpdate(s.runs, id, r, HoldsSlot);
    CountUpdate(s.runs, id, r, InThread);
  }

  /** A caller waits exactly for what it submitted. */
  ghost predicate CallerFits<M, R>(r: Run<M, R>) {
    && (r.caller.Acquired? ==> r.job.Unsubmitted?)
    && (r.job.Unsubmitted? ==> !r.caller.Waiting?)
  }

  /** A step on a run that is there already. */
  lemma UpdateKeepsBalance<M, R>(engine: M -> Option<R>, s: State<M, R>, step: Step<M>)
    requires Enabled(s, step) && !step.Acquire? && !step.Refuse? && !step.Close?
    requires CallerFits(s.runs[step.id])
    ensures Balance(Apply(engine, s, step)) == Balance(s)
  {
    CountUpdate(s.runs, step.id, Apply(engine, s, step).runs[step.id], HoldsSlot);
  }

  /** Whatever the state, a step neither makes nor loses a slot. */
  lemma StepKeepsBalance<M, R>(engine: M -> Option<R>, s: State<M, R>, step: Step<M>)
    requires Enabled(s, step)
    requires forall r | r in s.runs :: CallerFits(r)
    ensures Balance(Apply(engine, s, step)) == Balance(s)
  {
    match step {
      case Acquire(msg) => CountAppend(s.runs, Run(msg, Acquired, Unsubmitted, false, 1, 0), HoldsSlot);
      case Refuse(msg) => CountAppend(s.runs, Run(msg, Refused, Unsubmitted, false, 0, 0), HoldsSlot);
      case Close =>
      case _ =>
        assert s.runs[step.id] in s.runs;
        UpdateKeepsBalance(engine, s, step);
    }
  }

  /** The run a step acts on. */
  lemma StepKeepsRunFit<M, R>(engine: M -> Option<R>, s: State<M, R>, step: Step<M>)
    requires Enabled(s, step) && !step.Acquire? && !step.Refuse? && !step.Close?
    requires RunFits(engine, s.runs[step.id])
    ensures RunFits(engine, Apply(engine, s, step).runs[step.id])
  {
  }

  /** A step on a run that is there already takes a thread only if one is left. */
  lemma UpdateKeepsThreads<M, R>(engine: M -> Option<R>, s: State<M, R>, step: Step<M>)
    requires Enabled(s, step) && !step.Acquire? && !step.Refuse? && !step.Close?
    requires Count(s.runs, InThread) <= s.workers
    ensures Count(Apply(engine, s, step).runs, InThread) <= s.workers
  {
    var r := Apply(engine, s, step).runs[step.id];
    CountUpdate(s.runs, step.id, r, InThread);
    assert InThread(r) && !InThread(s.runs[step.id]) ==> step.Start?;
  }

  /** The threads in use never outnumber the workers. */
  lemma StepKeepsThreads<M, R>(engine: M -> Option<R>, s: State<M, R>, step: Step<M>)
    requires Enabled(s, step) && Count(s.runs, InThread) <= s.workers
    ensures Count(Apply(engine, s, step).runs, InThread) <= s.workers
  {
    match step {
      case Acquire(msg) => CountAppend(s.runs, Run(msg, Acquired, Unsubmitted, false, 1, 0), InThread);
      case Refuse(msg) => CountAppend(s.runs, Run(msg, Refused, Unsubmitted, false, 0, 0), InThread);
      case Close =>
      case _ => UpdateKeepsThreads(engine, s, step);
    }
  }

  lemma StepKeepsInv<M, R>(engine: M -> Option<R>, s: State<M, R>, step: Step<M>)
    requires Inv(engine, s) && Enabled(s, step)
    ensures Inv(engine, Apply(engine, s, step))
    ensures Apply(engine, s, step).Capacity() == s.Capacity() && Apply(engine, s, step).workers == s.workers
  {
    var t := Apply(engine, s, step);
    StepKeepsBalance(engine, s, step);
    StepKeepsThreads(engine, s, step);
    forall i | 0 <= i < |t.runs|
      ensures RunFits(engine, t.runs[i])
    {
      if i < |s.runs| {
        assert s.runs[i] in s.runs;
        if !step.Acquire? && !step.Refuse? && !step.Close? && step.id == i {
          StepKeepsRunFit(engine, s, step);
        } else {
          assert t.runs[i] == s.runs[i];
        }
      }
    }
  }

  lemma {:induction false} ScheduleKeepsInv<M, R>(engine: M -> Option<R>, s: State<M, R>, steps: seq<Step<M>>)
    requires Inv(engine, s) && IsSchedule(engine, s, steps)
    ensures Inv(engine, After(engine, s, steps))
    ensures After(engine, s, steps).Capacity() == s.Capacity() && After(engine, s, steps).workers == s.workers
    decreases |steps|
  {
    if steps != [] {
      StepKeepsInv(engine, s, steps[0]);
      ScheduleKeepsInv(engine, Apply(engine, s, steps[0]), steps[1..]);
    }
  }

  // --------------------------------------------------------------------
  // The theorems
  // --------------------------------------------------------------------

  /**
   Slot conservation, over every interleaving from a fresh interceptor: free
   and held slots add up to the capacity; every acquired slot is released once
   or still held, never both; runs executing or waiting never exceed the
   capacity; and no caller is handed a skipped run.
   */
  lemma SlotsAreConserved<M, R>(engine: M -> Option<R>, workers: nat, queue: nat, steps: seq<Step<M>>)
    requires IsSchedule(engine, Initial(workers, queue), steps)
    ensures var s := After(engine, Initial(workers, queue), steps);
            && s.free + Count(s.runs, HoldsSlot) == workers + queue
            && Count(s.runs, IsRunning) + Count(s.runs, IsQueued) <= workers + queue
            && Count(s.runs, IsRunning) <= workers
            && forall r | r in s.runs ::
                 && r.releases + (if HoldsSlot(r) then 1 else 0) == r.acquires <= 1
                 && !r.caller.GotNothing?
  {
    var s0 := Initial<M, R>(workers, queue);
    assert Inv(engine, s0);
    ScheduleKeepsInv(engine, s0, steps);
    var s := After(engine, s0, steps);
    CountSplit(s.runs, IsRunning, IsQueued, HoldsSlot);
    CountSplit(s.runs, IsRunning, (r: Run<M, R>) => r.job.Released?, InThread);
  }

  // --------------------------------------------------------------------
  // Callers that gave up
  // --------------------------------------------------------------------

  /** The caller gave up before the job looked, or the job was skipped. */
  predicate IsIdle<M, R>(s: State<M, R>, id: nat) {
    && id < |s.runs|
    && s.runs[id].abandoned && !s.runs[id].caller.Waiting? && !s.runs[id].caller.Acquired?
    && (s.runs[id].job.Queued? || s.runs[id].job.Picked? || OutcomeOf(s.runs[id].job) == Some(Skipped))
  }

  lemma StepKeepsIdle<M, R>(engine: M -> Option<R>, s: State<M, R>, step: Step<M>, id: nat)
    requires Enabled(s, step) && IsIdle(s, id)
    ensures IsIdle(Apply(engine, s, step), id)
  {
  }

  /** The engine never runs for a caller that gave up before its job looked, whatever happens afterwards. */
  lemma {:induction false} GivenUpIsSkipped<M, R>(engine: M -> Option<R>, s: State<M, R>, steps: seq<Step<M>>, id: nat)
    requires IsSchedule(engine, s, steps) && IsIdle(s, id)
    ensures IsIdle(After(engine, s, steps), id) && !After(engine, s, steps).runs[id].job.Executing?
    decreases |steps|
  {
    if steps != [] {
      StepKeepsIdle(engine, s, steps[0], id);
      GivenUpIsSkipped(engine, Apply(engine, s, steps[0]), steps[1..], id);
    }
  }

  /** A caller that waits, and gives up while its job has not looked yet, is such a one. */
  lemma GivingUpIsIdle<M, R>(engine: M -> Option<R>, s: State<M, R>, step: Step<M>)
    requires Enabled(s, step) && (step.Timeout? || step.Cancel?)
    requires s.runs[step.id].job.Queued? || s.runs[step.id].job.Picked?
    ensures IsIdle(Apply(engine, s, step), step.id)
  {
  }

  /** The engine's own error is told as such, even if it comes with the deadline; only a caller whose deadline passed
      without one is told of a timeout. */
  lemma TimeoutIsToldExactly<M, R>(engine: M -> Option<R>, s: State<M, R>, id: nat, noticed: bool)
    requires Inv(engine, s) && Enabled(s, Timeout(id, noticed))
    ensures var caller := Apply(engine, s, Timeout(id, noticed)).runs[id].caller;
            && (caller == GotError <==> noticed && s.runs[id].job == Settled(Raised))
            && (caller == TimedOut <==> caller != GotError)
  {
  }

  // --------------------------------------------------------------------
  // How many runs can wait
  // --------------------------------------------------------------------

  predicate IsAcquired<M, R>(r: Run<M, R>) {
    r.caller.Acquired?
  }

  lemma {:induction false} CountParts<T>(s: seq<T>, f: T -> bool, g: T -> bool, h: T -> bool)
    requires forall x | x in s :: h(x) <==> f(x) || g(x)
    requires forall x | x in s :: !(f(x) && g(x))
    ensures Count(s, f) + Count(s, g) == Count(s, h)
  {
    if s != [] {
      assert s[0] in s;
      assert forall x | x in s[1..] :: x in s;
      CountParts(s[1..], f, g, h);
    }
  }

  /** Every slot is free, or held by a run not yet submitted, waiting for a thread, or running. */
  lemma SlotsAddUp<M, R>(engine: M -> Option<R>, s: State<M, R>)
    requires Inv(engine, s)
    ensures s.free + Count(s.runs, IsAcquired) + Count(s.runs, IsQueued) + Count(s.runs, IsRunning) == s.Capacity()
  {
    var inPool := (r: Run<M, R>) => IsQueued(r) || IsRunning(r);
    forall r | r in s.runs
      ensures HoldsSlot(r) <==> IsAcquired(r) || inPool(r)
      ensures !(IsAcquired(r) && inPool(r))
    {
      assert RunFits(engine, r);
    }
    CountParts(s.runs, IsQueued, IsRunning, inPool);
    CountParts(s.runs, IsAcquired, inPool, HoldsSlot);
  }

  /**
   Exactly when more runs wait for a thread than the queue holds: when fewer
   slots than there are workers are free, not yet submitted or running. With
   every worker running, no more wait than the queue holds.
   */
  lemma WaitingExceedsQueueExactly<M, R>(engine: M -> Option<R>, s: State<M, R>)
    requires Inv(engine, s)
    ensures Count(s.runs, IsQueued) > s.queue <==>
            s.free + Count(s.runs, IsAcquired) + Count(s.runs, IsRunning) < s.workers
    ensures Count(s.runs, IsQueued) <= s.Capacity() - Count(s.runs, IsRunning)
    ensures Count(s.runs, IsRunning) == s.workers ==> Count(s.runs, IsQueued) <= s.queue
  {
    SlotsAddUp(engine, s);
  }

  lemma {:induction false} LastStep<M, R>(engine: M -> Option<R>, s: State<M, R>, steps: seq<Step<M>>, step: Step<M>)
    requires IsSchedule(engine, s, steps) && Enabled(After(engine, s, steps), step)
    ensures IsSchedule(engine, s, steps + [step])
    ensures After(engine, s, steps + [step]) == Apply(engine, After(engine, s, steps), step)
    decreases |steps|
  {
    if steps == [] {
      assert steps + [step] == [step] && [step][1..] == [];
      assert After(engine, Apply(engine, s, step), []) == Apply(engine, s, step);
    } else {
      LastStep(engine, Apply(engine, s, steps[0]), steps[1..], step);
      assert (steps + [step])[0] == steps[0] && (steps + [step])[1..] == steps[1..] + [step];
    }
  }

  function Repeat<T>(x: T, n: nat): seq<T> {
    if n == 0 then [] else Repeat(x, n - 1) + [x]
  }

  lemma {:induction false} CountRepeat<T>(s: seq<T>, x: T, n: nat, f: T -> bool)
    ensures Count(s + Repeat(x, n), f) == Count(s, f) + (if f(x) then n else 0)
  {
    if n == 0 {
      assert s + Repeat(x, 0) == s;
    } else {
      CountRepeat(s, x, n - 1, f);
      CountAppend(s + Repeat(x, n - 1), x, f);
      assert s + Repeat(x, n) == s + Repeat(x, n - 1) + [x];
    }
  }

  function Conclusion<M, R>(engine: M -> Option<R>, msg: M): Outcome<R> {
    if engine(msg).Some? then Returned(engine(msg).value) else Raised
  }

  /** A run whose slot is free again, but whose thread is not. */
  function Leaving<M, R>(engine: M -> Option<R>, msg: M): Run<M, R> {
    Run(msg, Waiting, Released(Conclusion(engine, msg)), false, 1, 1)
  }

  function Queuing<M, R>(msg: M): Run<M, R> {
    Run(msg, Waiting, Queued, false, 1, 0)
  }

  /** A step on the newest run. */
  lemma NewestStep<M, R>(engine: M -> Option<R>, s: State<M, R>, steps: seq<Step<M>>, before: State<M, R>,
                         runs: seq<Run<M, R>>, r: Run<M, R>, step: Step<M>, free: nat)
    requires IsSchedule(engine, s, steps) && After(engine, s, steps) == before
    requires before.runs == runs + [r] && Enabled(before, step)
    requires !step.Acquire? && !step.Refuse? && !step.Close? && step.id == |runs|
    requires free == Apply(engine, before, step).free
    ensures IsSchedule(engine, s, steps + [step])
    ensures After(engine, s, steps + [step])
            == before.(runs := runs + [Apply(engine, before, step).runs[|runs|]], free := free)
  {
    LastStep(engine, s, steps, step);
    assert (runs + [r])[|runs| := Apply(engine, before, step).runs[|runs|]]
           == runs + [Apply(engine, before, step).runs[|runs|]];
  }

  lemma AddQueuing<M, R>(engine: M -> Option<R>, s: State<M, R>, steps: seq<Step<M>>, msg: M)
      returns (more: seq<Step<M>>)
    requires IsSchedule(engine, s, steps)
    requires After(engine, s, steps).free > 0 && !After(engine, s, steps).closed
    ensures var t := After(engine, s, steps);
            && IsSchedule(engine, s, more)
            && After(engine, s, more) == t.(free := t.free - 1, runs := t.runs + [Queuing(msg)])
  {
    var t := After(engine, s, steps);
    var acquired: Run<M, R> := Run(msg, Acquired, Unsubmitted, false, 1, 0);
    LastStep(engine, s, steps, Acquire(msg));
    more := steps + [Acquire(msg)];
    NewestStep(engine, s, more, t.(free := t.free - 1, runs := t.runs + [acquired]), t.runs, acquired,
               Submit(|t.runs|), t.free - 1);
    more := more + [Submit(|t.runs|)];
  }

  lemma AddLeaving<M, R>(engine: M -> Option<R>, s: State<M, R>, steps: seq<Step<M>>, msg: M)
      returns (more: seq<Step<M>>)
    requires IsSchedule(engine, s, steps)
    requires var t := After(engine, s, steps); t.free > 0 && !t.closed && Count(t.runs, InThread) < t.workers
    ensures var t := After(engine, s, steps);
            && IsSchedule(engine, s, more)
            && After(engine, s, more) == t.(runs := t.runs + [Leaving(engine, msg)])
  {
    var t := After(engine, s, steps);
    more := AddQueuing(engine, s, steps, msg);
    CountAppend(t.runs, Queuing(msg), InThread);
    more := ToExecuting(engine, s, more, t.(free := t.free - 1), msg);
    more := ToLeaving(engine, s, more, t.(free := t.free - 1), msg);
  }

  lemma ToExecuting<M, R>(engine: M -> Option<R>, s: State<M, R>, steps: seq<Step<M>>, t: State<M, R>, msg: M)
      returns (more: seq<Step<M>>)
    requires IsSchedule(engine, s, steps) && After(engine, s, steps) == t.(runs := t.runs + [Queuing(msg)])
    requires Count(t.runs + [Queuing(msg)], InThread) < t.workers
    ensures IsSchedule(engine, s, more)
    ensures After(engine, s, more) == t.(runs := t.runs + [Run(msg, Waiting, Executing, false, 1, 0)])
  {
    var picked: Run<M, R> := Run(msg, Waiting, Picked, false, 1, 0);
    NewestStep(engine, s, steps, t.(runs := t.runs + [Queuing(msg)]), t.runs, Queuing(msg), Start(|t.runs|), t.free);
    more := steps + [Start(|t.runs|)];
    NewestStep(engine, s, more, t.(runs := t.runs + [picked]), t.runs, picked, CheckAbandoned(|t.runs|), t.free);
    more := more + [CheckAbandoned(|t.runs|)];
  }

  lemma ToLeaving<M, R>(engine: M -> Option<R>, s: State<M, R>, steps: seq<Step<M>>, t: State<M, R>, msg: M)
      returns (more: seq<Step<M>>)
    requires IsSchedule(engine, s, steps)
    requires After(engine, s, steps) == t.(runs := t.runs + [Run(msg, Waiting, Executing, false, 1, 0)])
    ensures IsSchedule(engine, s, more)
    ensures After(engine, s, more) == t.(free := t.free + 1, runs := t.runs + [Leaving(engine, msg)])
  {
    var executing: Run<M, R> := Run(msg, Waiting, Executing, false, 1, 0);
    var finished: Run<M, R> := Run(msg, Waiting, Finished(Conclusion(engine, msg)), false, 1, 0);
    NewestStep(engine, s, steps, t.(runs := t.runs + [executing]), t.runs, executing, EngineReturns(|t.runs|), t.free);
    more := steps + [EngineReturns(|t.runs|)];
    NewestStep(engine, s, more, t.(runs := t.runs + [finished]), t.runs, finished, Release(|t.runs|), t.free + 1);
    more := more + [Release(|t.runs|)];
  }

  lemma {:induction false} FillThreads<M, R>(engine: M -> Option<R>, workers: nat, queue: nat, msg: M, n: nat)
      returns (steps: seq<Step<M>>)
    requires n <= workers
    ensures IsSchedule(engine, Initial(workers, queue), steps)
    ensures After(engine, Initial(workers, queue), steps)
            == State(workers, queue, workers + queue, false, Repeat(Leaving(engine, msg), n))
  {
    if n == 0 {
      steps := [];
    } else {
      steps := FillThreads(engine, workers, queue, msg, n - 1);
      CountRepeat([], Leaving(engine, msg), n - 1, InThread);
      assert [] + Repeat(Leaving(engine, msg), n - 1) == Repeat(Leaving(engine, msg), n - 1);
      steps := AddLeaving(engine, Initial(workers, queue), steps, msg);
    }
  }

  lemma {:induction false} FillQueue<M, R>(engine: M -> Option<R>, workers: nat, queue: nat, msg: M, n: nat)
      returns (steps: seq<Step<M>>)
    requires n <= workers + queue
    ensures IsSchedule(engine, Initial(workers, queue), steps)
    ensures After(engine, Initial(workers, queue), steps)
            == State(workers, queue, workers + queue - n, false,
                     Repeat(Leaving(engine, msg), workers) + Repeat(Queuing(msg), n))
  {
    var leaving := Repeat(Leaving(engine, msg), workers);
    if n == 0 {
      steps := FillThreads(engine, workers, queue, msg, workers);
      assert leaving + Repeat(Queuing(msg), 0) == leaving;
    } else {
      steps := FillQueue(engine, workers, queue, msg, n - 1);
      steps := AddQueuing(engine, Initial(workers, queue), steps, msg);
      assert leaving + Repeat(Queuing(msg), n) == leaving + Repeat(Queuing(msg), n - 1) + [Queuing(msg)];
    }
  }

  /**
   Whatever the number of workers and the size of the queue, every thread can be
   in use while as many runs wait as there are slots: a slot is given back
   before its thread is free.
   */
  lemma WaitingMayExceedQueue<M, R>(engine: M -> Option<R>, workers: nat, queue: nat, msg: M)
      returns (steps: seq<Step<M>>)
    requires workers > 0
    ensures IsSchedule(engine, Initial(workers, queue), steps)
    ensures var s := After(engine, Initial(workers, queue), steps);
            && Count(s.runs, InThread) == workers
            && Count(s.runs, IsQueued) == workers + queue > s.queue
  {
    steps := FillQueue(engine, workers, queue, msg, workers + queue);
    var leaving := Repeat(Leaving(engine, msg), workers);
    CountRepeat([], Leaving(engine, msg), workers, InThread);
    CountRepeat([], Leaving(engine, msg), workers, IsQueued);
    assert [] + leaving == leaving;
    CountRepeat(leaving, Queuing(msg), workers + queue, InThread);
    CountRepeat(leaving, Queuing(msg), workers + queue, IsQueued);
  }

  // --------------------------------------------------------------------
  // Draining
  // --------------------------------------------------------------------

  function JobRank<R>(j: Job<R>): nat {
    match j
    case Unsubmitted => 0
    case Queued => 6
    case Picked => 5
    case Executing => 4
    case Finished(_) => 3
    case Released(_) => 2
    case Settled(_) => 1
  }

  function RunRank<M, R>(r: Run<M, R>): nat {
    JobRank(r.job) + (if r.caller.Acquired? then 8 else if r.caller.Waiting? then 1 else 0)
  }

  /** How many steps the runs already begun can still take. */
  function Measure<M, R>(runs: seq<Run<M, R>>): nat {
    if runs == [] then 0 else RunRank(runs[0]) + Measure(runs[1..])
  }

  predicate Admits<M>(step: Step<M>) {
    step.Acquire? || step.Refuse? || step.Close?
  }

  lemma {:induction false} MeasureUpdate<M, R>(runs: seq<Run<M, R>>, i: nat, r: Run<M, R>)
    requires i < |runs|
    ensures Measure(runs[i := r]) + RunRank(runs[i]) == Measure(runs) + RunRank(r)
  {
    if i == 0 {
      assert runs[0 := r][1..] == runs[1..];
    } else {
      assert runs[i := r][1..] == runs[1..][i - 1 := r];
      MeasureUpdate(runs[1..], i - 1, r);
    }
  }

  /** Every step other than a new arrival uses up some of the measure. */
  lemma StepDrains<M, R>(engine: M -> Option<R>, s: State<M, R>, step: Step<M>)
    requires Enabled(s, step) && !Admits(step)
    ensures Measure(Apply(engine, s, step).runs) < Measure(s.runs)
  {
    MeasureUpdate(s.runs, step.id, Apply(engine, s, step).runs[step.id]);
  }

  /** A pool step is possible as long as a run holds a slot or a thread. */
  lemma SomeStepDrains<M, R>(engine: M -> Option<R>, s: State<M, R>) returns (step: Step<M>)
    requires s.workers > 0 && Inv(engine, s)
    requires exists r :: r in s.runs && (HoldsSlot(r) || InThread(r))
    ensures Enabled(s, step) && !Admits(step)
    // None of the steps depends on a caller giving up, on the engine raising, or
    // on an open pool refusing a job.
    ensures !step.Timeout? && !step.Cancel? && !step.EngineRaises? && (step.FailSubmit? ==> s.closed)
  {
    if i: nat :| i < |s.runs| && InThread(s.runs[i]) {
      match s.runs[i].job
      case Picked => step := CheckAbandoned(i);
      case Executing => step := EngineReturns(i);
      case Finished(_) => step := Release(i);
      case Released(_) => step := Settle(i);
      case _ =>
    } else {
      CountNone(s.runs, InThread);
      var r :| r in s.runs && HoldsSlot(r);
      var i :| 0 <= i < |s.runs| && s.runs[i] == r;
      if r.job.Queued? {
        step := Start(i);
      } else {
        step := if s.closed then FailSubmit(i) else Submit(i);
      }
    }
  }

  /**
   Draining: from any reachable state the pool can finish what was begun, in at
   most `Measure` steps, and then every slot is free. With `StepDrains`, no
   schedule can put it off for longer without new arrivals.
   */
  lemma {:induction false} Drains<M, R>(engine: M -> Option<R>, s: State<M, R>) returns (steps: seq<Step<M>>)
    requires s.workers > 0 && Inv(engine, s)
    ensures IsSchedule(engine, s, steps) && |steps| <= Measure(s.runs)
    ensures forall step | step in steps :: !Admits(step)
    ensures After(engine, s, steps).free == s.Capacity()
    decreases Measure(s.runs)
  {
    if exists r :: r in s.runs && (HoldsSlot(r) || InThread(r)) {
      var step := SomeStepDrains(engine, s);
      StepDrains(engine, s, step);
      StepKeepsInv(engine, s, step);
      var rest := Drains(engine, Apply(engine, s, step));
      steps := [step] + rest;
      assert steps[1..] == rest;
    } else {
      CountNone(s.runs, HoldsSlot);
      steps := [];
    }
  }

  /** However it got there: where no step is left but new arrivals, every slot is free. */
  lemma NothingLeftMeansAllFree<M, R>(engine: M -> Option<R>, s: State<M, R>)
    requires s.workers > 0 && Inv(engine, s)
    requires forall step | Enabled(s, step) :: Admits(step)
    ensures s.free == s.Capacity()
  {
    if exists r :: r in s.runs && (HoldsSlot(r) || InThread(r)) {
      var step := SomeStepDrains(engine, s);
    } else {
      CountNone(s.runs, HoldsSlot);
    }
  }

  lemma {:induction false} NoArrivalsNoLongSchedule<M, R>(engine: M -> Option<R>, s: State<M, R>, steps: seq<Step<M>>)
    requires IsSchedule(engine, s, steps) && forall step | step in steps :: !Admits(step)
    ensures |steps| + Measure(After(engine, s, steps).runs) <= Measure(s.runs)
    decreases |steps|
  {
    if steps != [] {
      assert steps[0] in steps && forall step | step in steps[1..] :: step in steps;
      StepDrains(engine, s, steps[0]);
      NoArrivalsNoLongSchedule(engine, Apply(engine, s, steps[0]), steps[1..]);
    }
  }

  // --------------------------------------------------------------------
  // Why the caller's wait is shielded
  // --------------------------------------------------------------------

  /** A timeout that cancels the pool's own future: a job that never started never reaches its `finally`. */
  function UnshieldedTimeout<M, R>(s: State<M, R>, id: nat): State<M, R>
    requires id < |s.runs| && s.runs[id].job.Queued?
  {
    Update(s, id, s.runs[id].(caller := TimedOut, abandoned := true, job := Settled(Skipped)))
  }

  /** One such timeout loses a slot for good, whatever happens afterwards. */
  lemma UnshieldedTimeoutLeaks<M, R>(engine: M -> Option<R>, s: State<M, R>, id: nat, steps: seq<Step<M>>)
    requires Inv(engine, s) && id < |s.runs| && s.runs[id].job.Queued? && s.runs[id].caller.Waiting?
    requires IsSchedule(engine, UnshieldedTimeout(s, id), steps)
    ensures After(engine, UnshieldedTimeout(s, id), steps).free < s.Capacity()
  {
    var t := UnshieldedTimeout(s, id);
    CountsOfUpdate(s, id, t.runs[id]);
    forall r | r in t.runs
      ensures CallerFits(r)
    {
      var i :| 0 <= i < |t.runs| && t.runs[i] == r;
      if i != id { assert s.runs[i] in s.runs && RunFits(engine, s.runs[i]); }
    }
    ScheduleKeepsBalance(engine, t, steps);
  }

  lemma {:induction false} ScheduleKeepsBalance<M, R>(engine: M -> Option<R>, s: State<M, R>, steps: seq<Step<M>>)
    requires forall r | r in s.runs :: CallerFits(r)
    requires IsSchedule(engine, s, steps)
    ensures Balance(After(engine, s, steps)) == Balance(s)
    decreases |steps|
  {
    if steps != [] {
      var t := Apply(engine, s, steps[0]);
      StepKeepsBalance(engine, s, steps[0]);
      forall r | r in t.runs
        ensures CallerFits(r)
      {
        var i :| 0 <= i < |t.runs| && t.runs[i] == r;
        if i < |s.runs| { assert s.runs[i] in s.runs && CallerFits(s.runs[i]); }
      }
      ScheduleKeepsBalance(engine, t, steps[1..]);
    }
  }

  // --------------------------------------------------------------------
  // Why a failed submit must leave nothing queued
  // --------------------------------------------------------------------

  /** A submit that raises. The slot is given back; the job may already be queued. */
  function FailedSubmit<M, R>(s: State<M, R>, id: nat, queued: bool): State<M, R>
    requires id < |s.runs| && s.runs[id].caller.Acquired?
  {
    var r := s.runs[id];
    Update(s, id, r.(caller := SubmitFailed, releases := r.releases + 1, job := if queued then Queued else r.job))
      .(free := s.free + 1)
  }

  lemma FailedSubmitBalance<M, R>(engine: M -> Option<R>, s: State<M, R>, id: nat, queued: bool)
    requires Inv(engine, s) && id < |s.runs| && s.runs[id].caller.Acquired?
    ensures Balance(FailedSubmit(s, id, queued)) == s.Capacity() + (if queued then 1 else 0)
  {
    assert s.runs[id] in s.runs && RunFits(engine, s.runs[id]);
    CountUpdate(s.runs, id, FailedSubmit(s, id, queued).runs[id], HoldsSlot);
  }

  /** Slots stay balanced, whatever happens afterwards, exactly if the failed submit left nothing queued. */
  lemma FailedSubmitKeepsBalanceExactly<M, R>(engine: M -> Option<R>, s: State<M, R>, id: nat, queued: bool,
                                              steps: seq<Step<M>>)
    requires Inv(engine, s) && id < |s.runs| && s.runs[id].caller.Acquired?
    requires IsSchedule(engine, FailedSubmit(s, id, queued), steps)
    ensures Balance(After(engine, FailedSubmit(s, id, queued), steps)) == s.Capacity() <==> !queued
  {
    var t := FailedSubmit(s, id, queued);
    FailedSubmitBalance(engine, s, id, queued);
    forall r | r in t.runs
      ensures CallerFits(r)
    {
      var i :| 0 <= i < |t.runs| && t.runs[i] == r;
      if i != id { assert s.runs[i] in s.runs && RunFits(engine, s.runs[i]); }
    }
    ScheduleKeepsBalance(engine, t, steps);
  }

  /** The queued job of a failed submit. */
  function Orphan<M, R>(msg: M, job: Job<R>, releases: nat): Run<M, R> {
    Run(msg, SubmitFailed, job, false, 1, releases)
  }

  /**
   One acquire, two releases: the job left behind by a failed submit runs, and
   gives the slot back again. In the end every slot is free, though another run
   holds one.
   */
  lemma QueuedFailureReleasesTwice<M, R>(engine: M -> Option<R>, workers: nat, queue: nat, msg: M)
      returns (s: State<M, R>, steps: seq<Step<M>>, end: State<M, R>)
    requires workers > 0 && workers + queue >= 2
    ensures s == Apply(engine, Apply(engine, Initial(workers, queue), Acquire(msg)), Acquire(msg))
    ensures IsSchedule(engine, FailedSubmit(s, 1, true), steps)
    ensures end == After(engine, FailedSubmit(s, 1, true), steps)
    ensures |end.runs| == 2 && end.runs[1].acquires == 1 && end.runs[1].releases == 2
    ensures end.free == s.Capacity() && HoldsSlot(end.runs[0])
  {
    s := Apply(engine, Apply(engine, Initial(workers, queue), Acquire(msg)), Acquire(msg));
    var holder: Run<M, R> := Run(msg, Acquired, Unsubmitted, false, 1, 0);
    var free := workers + queue - 1;
    var base := s.(free := free);
    var outcome := Conclusion(engine, msg);
    var t := FailedSubmit(s, 1, true);
    assert t == base.(runs := [holder] + [Orphan(msg, Queued, 1)]);
    CountNone(t.runs, InThread);
    steps := [];
    OrphanStep(engine, t, steps, base, holder, Orphan(msg, Queued, 1), Start(1), Orphan(msg, Picked, 1), free);
    steps := steps + [Start(1)];
    OrphanStep(engine, t, steps, base, holder, Orphan(msg, Picked, 1), CheckAbandoned(1), Orphan(msg, Executing, 1),
               free);
    steps := steps + [CheckAbandoned(1)];
    OrphanStep(engine, t, steps, base, holder, Orphan(msg, Executing, 1), EngineReturns(1),
               Orphan(msg, Finished(outcome), 1), free);
    steps := steps + [EngineReturns(1)];
    OrphanStep(engine, t, steps, base, holder, Orphan(msg, Finished(outcome), 1), Release(1),
               Orphan(msg, Released(outcome), 2), free + 1);
    steps := steps + [Release(1)];
    end := After(engine, t, steps);
  }

  lemma OrphanStep<M, R>(engine: M -> Option<R>, t: State<M, R>, steps: seq<Step<M>>, base: State<M, R>,
                         holder: Run<M, R>, r: Run<M, R>, step: Step<M>, next: Run<M, R>, free: nat)
    requires IsSchedule(engine, t, steps) && After(engine, t, steps) == base.(runs := [holder] + [r])
    requires Enabled(base.(runs := [holder] + [r]), step)
    requires !step.Acquire? && !step.Refuse? && !step.Close? && step.id == 1
    requires Apply(engine, base.(runs := [holder] + [r]), step).runs[1] == next
    requires Apply(engine, base.(runs := [holder] + [r]), step).free == free
    ensures IsSchedule(engine, t, steps + [step])
    ensures After(engine, t, steps + [step]) == base.(runs := [holder] + [next], free := free)
  {
    NewestStep(engine, t, steps, base.(runs := [holder] + [r]), [holder], r, step, free);
  }
}

# QWED A2A: the verification gateway, modelled and proved

QWED A2A stands between agents. A message is let through only with a signed
verdict: its size is checked, a trust boundary decides whether the pair may talk
and how often, a verification engine judges the payload on a bounded pool of
threads, and the verdict is signed as an attestation that its consumer verifies
once. This project models those parts in Dafny and proves what they promise.

| file | what it models |
|---|---|
| `PythonAst`, `AliasBindings`, `AliasCost` | the code guard's alias analysis: the worklist, what its fixpoint is, what it costs |
| `CodeGuard`, `ScanCost`, `ScanPrecision` | the scan built on it, with the guard's tables; what it costs and what it leaves alone |
| `Executions`, `AliasFlows`, `Arrivals` | executions of scanned programs, and exactly what they bring where |
| `AliasSoundness`, `MissedPrograms` | for which programs the analysis and the scan are sound, and programs the scan misses |
| `EngineSlots` | slots, worker threads, timeouts, cancellation and closing, over every interleaving |
| `TokenBucket`, `TrustBoundary`, `TrustGates`, `TrustHistory`, `RateWindows` | rate limits, grants and blocklists, who may talk to whom, and what eviction cannot be seen to do |
| `JtiRegistry`, `Attestations`, `AttestationTheorems`, `Acceptance`, `Issuance` | replay protection, signing and verifying, and which tokens are accepted |
| `DecimalRounding`, `FinanceGuard`, `FinanceLaws`, `FinanceUnits` | decimal arithmetic of finite precision, what VERIFIED bounds, and the law in the payload's numbers |
| `Bits`, `StrictBase64` | publishing and reading key coordinates |
| `LogicGuard` | contradicting claims and their canonical keys |
| `EngineRouting`, `Interceptor`, `FailClosed`, `CodeVerdicts`, `Consumers`, `UncontendedRun` | all of it together, and what a verdict guarantees |
| `Options`, `Engines`, `Verdicts` | shared datatypes |

Parts that change state are classes whose methods are proved against functions on
values; the theorems are about those functions. Concurrency is a transition
system whose steps interleave in any order. Clocks are parameters and are real
numbers. Signatures and key fingerprints are arbitrary functions. `None` stands
for an exception where a function's result is an option.

Facts about the code that its own comments do not say, or say differently:

- `propagate` is documented to process each pair once. A name may hold a binding
  implicitly and be assigned it again, and then it is processed twice
  (`ScanCost.ReboundIsProcessedTwice`), never more often; exactly when is
  `AliasCost.PoppedTwiceExactly`. A program that assigns to no name the tables
  know is processed as documented (`ScanCost.UnreboundIsProcessedOnce`).
- The analysis does not look into an expression that passes on the value of
  another one: an assignment expression used as a value, a conditional, an `and`
  or `or`, and so not into a display inside one when it unpacks. Two programs run
  a dangerous member unreported by the structural scan for that reason
  (`MissedPrograms.NestedAssignmentIsMissed`, `ConditionalUnpackingIsMissed`).
  Exactly for which programs the analysis knows whatever an execution holds is
  `AliasSoundness.SoundnessIsExact`, and for which the scan reports whatever one
  runs, `AliasSoundness.ScanSoundnessIsExact`. The scan is sound on every program
  without such expressions (`AliasSoundness.PlainProgramsAreSound`), and they do
  no harm where nothing arrives at them (`MissedPrograms.HarmlessChoiceIsFollowed`).
  For every expression
  that is not followed, leaving aside modules whose import is reported anyway,
  there is a program the scan misses (`MissedPrograms.UnfollowableIsMissed`).
- `is_trusted` can be asked about any time. Asked about a time before the last
  evaluation, it may deny a grant that was valid then and has been evicted since
  (`TrustHistory.LookingBackShowsEviction`); exactly then it differs from a
  boundary that never evicts (`TrustHistory.EvictionIsUnobservable`).
- A submit that fails after its job is queued would give the slot back twice
  (`EngineSlots.QueuedFailureReleasesTwice`); slots stay balanced exactly if a
  failed submit leaves nothing queued
  (`EngineSlots.FailedSubmitKeepsBalanceExactly`).
- The number of runs waiting for a thread can exceed the queue size, though
  running and waiting together never exceed workers plus queue. A burst that is
  submitted before any thread wakes does it; and it can happen with every thread
  in use, since a slot is given back before its thread is free
  (`EngineSlots.WaitingMayExceedQueue`). Exactly when is
  `EngineSlots.WaitingExceedsQueueExactly`.
- A claim can be verified though it is off by nearly two cents, twice the
  tolerance (`FinanceGuard.VerifiedMayBeNearlyTwoCentsOff`). It is never off by
  two, as long as the computed total fits the decimal precision. Exactly which
  verified claims are within the cent is
  `FinanceGuard.VerifiedWithinACentExactly`; on totals in whole cents all are, and
  no others are verified (`FinanceGuard.WholeCentsAreVerifiedExactly`).
- A computed total too large to be quantized within the decimal precision makes
  the engine raise, which the interceptor answers with ERROR; a claimed total
  too large is UNVERIFIABLE.
- `release` goes by the trace alone. A call whose slot lapsed while it was
  encoding, and whose encoding then fails, gives back the slot another call has
  taken for the same trace (`Issuance.LapseWhileEncodingBreaks`). Exactly these
  releases break issuance safety (`Issuance.IssuanceIsSafe`,
  `Issuance.ForeignReleaseBreaks`); a lapse alone does not.
- Two tokens can share a replay-registry key although issuer or identifier
  differ, if a self-issued identifier contains a NUL character; exactly when is
  `AttestationTheorems.RegistryKeysCollideExactly`.
- Verifiers that share a registry but not an issuer ID file the issuer's own
  tokens under different keys (`AttestationTheorems.SharedKeysExactly`). Replay
  safety therefore holds for two verifiers of which both or neither are the
  issuer; otherwise every token of the issuer can be accepted by both
  (`AttestationTheorems.PeerReplays`).

## Model

| member | source | states |
|---|---|---|
| AliasBindings.Bindings.constructor | src/qwed_a2a/interceptor.py:92-102 | A fresh analysis knows its tables and implicit bindings and nothing else. |
| AliasBindings.Bindings.AddImport | src/qwed_a2a/interceptor.py:104-107 | Adds exactly the bindings of renamed imports of known modules; no edge. |
| AliasBindings.Bindings.AddImportFrom | src/qwed_a2a/interceptor.py:109-115 | Adds exactly the tracked members imported from a known module, under their new names, stars excepted. |
| AliasBindings.Bindings.AddAssignment | src/qwed_a2a/interceptor.py:117-122 | Adds exactly the edges the assignment contributes, in order; an annotation without a value adds none. |
| AliasBindings.Bindings.Bind | src/qwed_a2a/interceptor.py:124-137 | Nested displays of equal length are taken apart element by element; everything else adds at most one edge. |
| AliasBindings.Bindings.ValuesOf | src/qwed_a2a/interceptor.py:183-186 | A name holds what is stored for it and what it denotes implicitly. |
| AliasBindings.Bindings.InitialWork | src/qwed_a2a/interceptor.py:142 | The worklist starts with every known fact about a name that has an edge, once each. |
| AliasBindings.Bindings.Visit | src/qwed_a2a/interceptor.py:144-152 | Pushing one fact along all its edges stores each fact one edge away, and returns the newly stored ones, once each. |
| AliasBindings.Bindings.PopOne | src/qwed_a2a/interceptor.py:143-152 | Each turn of the loop keeps the worklist invariant and shrinks the unstored facts, or else the worklist. |
| AliasBindings.Bindings.Propagate | src/qwed_a2a/interceptor.py:139-152 | Propagation ends, knows exactly the facts with a derivation chain of imports, implicit bindings and edges, and has processed each fact exactly as often as `TimesProcessed` says: at most twice. |
| AliasBindings.FixpointIsExact | src/qwed_a2a/interceptor.py:139-168 | With nothing left to push, what is known is the least set closed under the edges: sound and complete. |
| AliasBindings.VisitKeepsReady | src/qwed_a2a/interceptor.py:143-152 | A turn of the loop keeps soundness, coverage and the exact count of how often each fact was queued. |
| AliasBindings.AddEdgesHops | src/qwed_a2a/interceptor.py:133-137 | The edges out of a name are exactly those added for it, in whatever order. |
| CodeGuard.Resolve | src/qwed_a2a/interceptor.py:188-198 | Finds exactly the bindings the expression may denote under the declarative reading of the program. |
| CodeGuard.ScanGetattrCall | src/qwed_a2a/interceptor.py:1091-1110 | Reports exactly the modules a getattr call may reach into: a constant dangerous attribute, or any run-time attribute. |
| CodeGuard.ScanAstCall | src/qwed_a2a/interceptor.py:1070-1089 | Reports exactly the direct, receiver-scoped and getattr threats of one call. |
| CodeGuard.Collect | src/qwed_a2a/interceptor.py:1054-1064 | One node adds exactly what it contributes to the analysis. |
| CodeGuard.Gather | src/qwed_a2a/interceptor.py:1049-1064 | The single pass records exactly the program's imports and calls, and every assignment's edges in order. |
| CodeGuard.Solve | src/qwed_a2a/interceptor.py:1049-1065 | After propagation names hold exactly what they may denote in the whole program; the propagation of the gathered problem processed exactly the facts `popped`, and followed at most 2 x tracked bindings x the edges all assignments contribute. |
| CodeGuard.ScanIsLinear | src/qwed_a2a/interceptor.py:86-90 | The same bound for any propagation of the program that is sound and complete. |
| CodeGuard.GuardTablesFit | src/qwed_a2a/interceptor.py:827-893 | The guard's own tables meet what the soundness theorem asks of tables. |
| AliasFlows.NodeWriteFlows | src/qwed_a2a/interceptor.py:117-137 | Whatever an executed assignment writes into a name comes along one of its flows: unpacking, nesting and passed-on values included. |
| AliasFlows.NodeFlowWrites | src/qwed_a2a/interceptor.py:117-137 | And along each flow a value may be written. |
| AliasFlows.WritesAreKnown | src/qwed_a2a/interceptor.py:124-152 | Under the condition, every tracked value an assignment writes is known after propagation. |
| AliasFlows.FollowingIsExact | src/qwed_a2a/interceptor.py:124-137 | For assignments whose surroundings are unknown: the analysis keeps up with them whatever the names hold, if and only if each flow that can carry a tracked value is accounted for by recorded edges. |
| AliasFlows.FollowableIsExact | src/qwed_a2a/interceptor.py:188-198 | Each tracked value an expression may have is among its resolved bindings if and only if the expression is followable. |
| Arrivals.StepArrives | src/qwed_a2a/interceptor.py:104-137 | One executed statement, in any scope, brings a tracked value to a name only by a route of imports, builtins and assignments of the program. |
| Arrivals.EveryRunArrives | src/qwed_a2a/interceptor.py:104-168 | So does every execution: any order, repetition and scope of statements. |
| Arrivals.RouteRuns | src/qwed_a2a/interceptor.py:104-137 | Every route can be executed, in a scope of its own and beside whatever else is held. |
| Arrivals.ArrivalsAreExact | src/qwed_a2a/interceptor.py:104-168 | A tracked value arrives at a name by a route if and only if it is the name's meaning as a builtin or some execution ends with the name holding it. |
| Arrivals.DangerIsExact | src/qwed_a2a/interceptor.py:1070-1110 | Some execution reaches a call with a dangerous member if and only if the member arrives at the callee, or `getattr` does and the module at the first argument. |
| AliasSoundness.AliasSoundness | src/qwed_a2a/interceptor.py:73-90 | Where whatever arrives is known, whatever tracked module or member a name holds after any execution is among the bindings the analysis gives it. |
| AliasSoundness.SoundnessIsExact | src/qwed_a2a/interceptor.py:73-90 | For each program, and only under the tables' own conditions: the analysis knows whatever any execution holds if and only if it knows whatever arrives. |
| AliasSoundness.KnownFlowsSuffice | src/qwed_a2a/interceptor.py:124-152 | It does in a program without star-imports whose assignments move nothing known where it is not known. |
| AliasSoundness.AccountedFlowsSuffice | src/qwed_a2a/interceptor.py:124-152 | And in one whose recorded edges account for each flow that can carry what arrives. |
| AliasSoundness.ScanSoundnessIsExact | src/qwed_a2a/interceptor.py:1049-1110 | For each program: each dangerous member an execution reaches is reported at its call, if and only if each one that arrives at a call is. |
| AliasSoundness.ReachedCallIsReported | src/qwed_a2a/interceptor.py:1070-1110 | A call whose callee is heard, and its first argument where the callee may be `getattr`, is reported for each dangerous member an execution reaches there, whatever the rest of the program does. |
| AliasSoundness.ScanIsSound | src/qwed_a2a/interceptor.py:1049-1132 | If an execution reaches a call with a dangerous member, the scan reports the program, because the call is heard or because an import is reported in itself. |
| AliasSoundness.PlainProgramsAreSound | src/qwed_a2a/interceptor.py:1049-1132 | Of the programs with imports, nested unpacking, annotated and named assignments, members and calls, but no passed-on values, every one of which an execution runs a dangerous member is reported; without a star-import at that very call. |
| MissedPrograms.UnfollowedIsMissed | src/qwed_a2a/interceptor.py:124-137 | The converse: for an assignment with a flow into a name no recorded edge leads to, a program with it, an execution that reaches a dangerous member, and an empty scan. |
| MissedPrograms.UnfollowableIsMissed | src/qwed_a2a/interceptor.py:124-137 | For every expression that is not followable, a program that assigns it to a fresh name and runs a dangerous member unreported. |
| MissedPrograms.FollowableIsNotMissed | src/qwed_a2a/interceptor.py:1049-1110 | For a followable one there is none, whatever else the program imports and calls. |
| MissedPrograms.HarmlessChoiceIsFollowed | src/qwed_a2a/interceptor.py:124-137 | `x = a or b; import os as o; o.system(a or b)` is followed and its call heard. |
| MissedPrograms.NestedAssignmentIsMissed | src/qwed_a2a/interceptor.py:124-137 | `import os; y = (x := os); y.system()` runs `os.system` and is not reported. |
| MissedPrograms.ConditionalUnpackingIsMissed | src/qwed_a2a/interceptor.py:124-131 | `a, b = (o, 1) if c else (1, 2)`, with `o` a module and a call through `a`, is not reported. |
| AliasCost.AddEdgesTotal | src/qwed_a2a/interceptor.py:133-137 | Recording edges adds that many to the total, whatever is recorded already. |
| AliasCost.VisitsAreBounded | src/qwed_a2a/interceptor.py:143-152 | Two pops per fact bound the edges followed. |
| AliasCost.ChainIsTracked | src/qwed_a2a/interceptor.py:154-168 | Only bindings the tables list are ever derived. |
| AliasCost.PropagationIsLinear | src/qwed_a2a/interceptor.py:86-90 | Propagation follows at most 2 x tracked bindings x edges edges. |
| AliasCost.PoppedTwiceExactly | src/qwed_a2a/interceptor.py:139-152 | No fact is taken from the worklist more than twice, and twice if and only if its name has an edge, denotes it implicitly and only so, and gets it stored. |
| ScanCost.FewBindings | src/qwed_a2a/interceptor.py:86-90 | The guard's tables allow at most 85 bindings. |
| ScanCost.GuardScanIsLinear | src/qwed_a2a/interceptor.py:86-90 | A scan follows at most 170 edges for each edge the program's assignments contribute, however many other attributes appear. |
| ScanCost.UnreboundIsProcessedOnce | src/qwed_a2a/interceptor.py:139-152 | As documented, each pair is processed once in a program that assigns to no name the tables know. |
| ScanCost.ReboundIsProcessedTwice | src/qwed_a2a/interceptor.py:139-152 | `x = eval; eval = x` takes a pair from the worklist twice. |
| CodeGuard.ScanAstThreats | src/qwed_a2a/interceptor.py:1049-1068 | The scan reports a threat if and only if some node of the program, in any order, gives rise to it. |
| CodeGuard.SameStatementsSameFacts | src/qwed_a2a/interceptor.py:79-85 | Flow-insensitive: programs with the same statements, in any order and number, derive the same facts. |
| CodeGuard.MoreStatementsMoreFacts | src/qwed_a2a/interceptor.py:79-85 | A later assignment never erases a binding: more statements derive at least the same facts. |
| ScanPrecision.OnlyListedIsReported | src/qwed_a2a/interceptor.py:1070-1132 | Whatever is reported is about a module or member the tables list. |
| ScanPrecision.ConstantGetattrExactly | src/qwed_a2a/interceptor.py:1091-1110 | A getattr call with a constant name is reported exactly for the listed members of that name, of the modules its first argument may denote. |
| ScanPrecision.DynamicGetattrExactly | src/qwed_a2a/interceptor.py:1104-1106 | With any other second argument, for each such module. |
| ScanPrecision.OnlyImportsDenote | src/qwed_a2a/interceptor.py:104-115 | In a program without assignments a name denotes nothing but what imports give it and what it means unbound. |
| ScanPrecision.HarmlessFetchIsSilent | src/qwed_a2a/interceptor.py:1091-1110 | `import os as o; getattr(o, name)` is not reported for any name that runs no process, `getcwd` for one. |
| EngineSlots.StepKeepsBalance | src/qwed_a2a/interceptor.py:450-467 | No step of any kind makes or loses a slot. |
| EngineSlots.StepKeepsRunFit | src/qwed_a2a/interceptor.py:455-498 | Every step keeps the run it acts on consistent: one release per acquire, abandoned exactly when its caller is done, results only from the engine. |
| EngineSlots.StepKeepsThreads | src/qwed_a2a/interceptor.py:222-227 | The pool never uses more threads than it has workers. |
| EngineSlots.StepKeepsInv | src/qwed_a2a/interceptor.py:450-498 | Every step keeps the invariant of the whole protocol. |
| EngineSlots.ScheduleKeepsInv | src/qwed_a2a/interceptor.py:450-498 | So does every interleaving. |
| EngineSlots.SlotsAreConserved | src/qwed_a2a/interceptor.py:436-442 | Over every interleaving: free and held slots add up to the capacity, each acquire is released once or still held, running plus waiting never exceeds the cap, no caller is handed a skipped run. |
| EngineSlots.SlotsAddUp | src/qwed_a2a/interceptor.py:436-442 | Every slot is free, or held by a run not yet submitted, waiting or running. |
| EngineSlots.WaitingExceedsQueueExactly | src/qwed_a2a/interceptor.py:43-47 | More runs wait than the queue holds if and only if fewer slots than workers are free, unsubmitted or running; never while every worker is running. |
| EngineSlots.WaitingMayExceedQueue | src/qwed_a2a/interceptor.py:455-461 | For every number of workers and queue size, a schedule with every thread in use and as many runs waiting as there are slots. |
| EngineSlots.StepDrains | src/qwed_a2a/interceptor.py:455-498 | Every step but a new arrival uses up some of the drain measure. |
| EngineSlots.SomeStepDrains | src/qwed_a2a/interceptor.py:455-467 | While a run holds a slot or thread, a step is possible that needs no caller to give up, no engine to raise and no open pool to refuse a job. |
| EngineSlots.NothingLeftMeansAllFree | src/qwed_a2a/interceptor.py:436-442 | However it got there, where no step is left but new arrivals all slots are free. |
| EngineSlots.Drains | src/qwed_a2a/interceptor.py:436-442 | From every reachable state the pool can finish within the measure, and then all slots are free. |
| EngineSlots.NoArrivalsNoLongSchedule | src/qwed_a2a/interceptor.py:436-442 | Without new arrivals no schedule is longer than the measure. |
| EngineSlots.UnshieldedTimeoutLeaks | src/qwed_a2a/interceptor.py:482-490 | Why the wait is shielded: a timeout that cancels a queued job loses a slot for good, whatever follows. |
| EngineSlots.GivenUpIsSkipped | src/qwed_a2a/interceptor.py:450-467 | The engine never runs for a caller that gave up before its job looked, whatever happens afterwards. |
| EngineSlots.TimeoutIsToldExactly | src/qwed_a2a/interceptor.py:482-498 | A caller whose deadline passes is told of the engine's own error if that is what its run ended with, and of a timeout otherwise. |
| EngineSlots.ScheduleKeepsBalance | src/qwed_a2a/interceptor.py:450-467 | No interleaving makes or loses a slot, from any balanced or unbalanced state. |
| EngineSlots.FailedSubmitKeepsBalanceExactly | src/qwed_a2a/interceptor.py:463-467 | Whatever happens after a failed submit, slots stay balanced if and only if it left nothing queued. |
| EngineSlots.QueuedFailureReleasesTwice | src/qwed_a2a/interceptor.py:455-467 | A job left queued by a failed submit gives the slot back a second time: all slots are free while a run holds one. |
| TokenBuckets.TokenBucket.Consume | src/qwed_a2a/security/trust_boundary.py:63-75 | Refills for the elapsed time up to the capacity, then admits exactly if a whole token is there, and takes it. |
| TokenBuckets.TokensAtMostAllowance | src/qwed_a2a/security/trust_boundary.py:63-75 | The tokens at a request never exceed what any earlier request leaves of a full bucket. |
| TokenBuckets.TokensAreSomeAllowance | src/qwed_a2a/security/trust_boundary.py:63-75 | And they equal what some earlier request leaves. |
| TokenBuckets.BucketIsExact | src/qwed_a2a/security/trust_boundary.py:63-75 | Over the whole history of a pair a request is admitted if and only if it fits the capacity plus inflow of every window that ends with it. |
| TokenBuckets.WindowIsBounded | src/qwed_a2a/security/trust_boundary.py:63-75 | No window admits more than the capacity plus what flows in during it. |
| TrustBoundaries.TrustBoundary.constructor | src/qwed_a2a/security/trust_boundary.py:124-147 | A new boundary trusts and blocks no one. |
| TrustBoundaries.TrustBoundary.BlockAgent | src/qwed_a2a/security/trust_boundary.py:149-154 | Blocks the agent and removes its grant; changes nothing else. |
| TrustBoundaries.TrustBoundary.TrustAgent | src/qwed_a2a/security/trust_boundary.py:156-185 | Replaces the grant and lifts the block; changes nothing else. |
| TrustBoundaries.TrustBoundary.RevokeAgent | src/qwed_a2a/security/trust_boundary.py:187-198 | Removes the grant and says whether one was stored. |
| TrustBoundaries.TrustBoundary.BlockPair | src/qwed_a2a/security/trust_boundary.py:200-203 | Blocks one direction of a pair. |
| TrustBoundaries.TrustBoundary.UnblockPair | src/qwed_a2a/security/trust_boundary.py:205-208 | Lifts that block. |
| TrustBoundaries.TrustBoundary.EvictExpiredTrust | src/qwed_a2a/security/trust_boundary.py:220-234 | At most once a minute, drops exactly the expired grants. |
| TrustBoundaries.TrustBoundary.EvictColdBuckets | src/qwed_a2a/security/trust_boundary.py:236-247 | At most once a minute, drops exactly the buckets idle beyond the limit. |
| TrustBoundaries.TrustBoundary.TakeToken | src/qwed_a2a/security/trust_boundary.py:415-432 | Creates the pair's bucket full if it has none, and draws on that bucket only. |
| TrustBoundaries.TrustBoundary.Evaluate | src/qwed_a2a/security/trust_boundary.py:356-432 | Blocks, scopes and allowlist first, then eviction, then the rate limit; a refusal before the rate limit changes nothing. |
| TrustBoundaries.TrustBoundary.IsTrusted | src/qwed_a2a/security/trust_boundary.py:210-218 | An agent is trusted exactly if it holds a grant without an end or whose end has not passed. |
| TrustBoundaries.TrustBoundary.CountTrusted | src/qwed_a2a/security/trust_boundary.py:436-444 | Counts exactly the agents whose grant is valid at the reading. |
| TrustGates.CheckTrustExactly | src/qwed_a2a/security/trust_boundary.py:250-354 | Scopes and allowlist, in the grants' own fields: nothing is refused if and only if the sender has a valid grant or everyone is allowed, and the receiver and type sets of each valid grant contain the peer and the type. |
| TrustGates.GateOpensExactly | src/qwed_a2a/security/trust_boundary.py:384-409 | The gate is open if and only if neither agent nor the pair is blocked and that holds. |
| TrustGates.EvaluatePassesExactly | src/qwed_a2a/security/trust_boundary.py:356-432 | On every boundary, an evaluation passes if and only if the gate is open by the grants' fields and the pair's bucket holds a token; a closed gate leaves the boundary as it is. |
| TrustGates.OutOfScopeIsRefused | src/qwed_a2a/security/trust_boundary.py:250-288 | A payload type or peer that a valid grant of the sender or the receiver does not list is refused, and takes no token. |
| TrustGates.ColdBucketsExactly | src/qwed_a2a/security/trust_boundary.py:236-247 | What eviction drops, exactly: at most once in 60 seconds, the buckets idle for more than 300. |
| TrustGates.ExpiredGrantsExactly | src/qwed_a2a/security/trust_boundary.py:220-234 | And the grants whose end has passed, as often. |
| TrustGates.ReceiverGrantIsHidden | src/qwed_a2a/security/trust_boundary.py:329-354 | A sender that is not trusted gets the same answer whatever the receiver's grant. |
| TrustGates.PairBlockedMeansLastBlocked | src/qwed_a2a/security/trust_boundary.py:200-208 | A pair is blocked if and only if the last block or unblock of that direction is a block. |
| TrustGates.LogGateExactly | src/qwed_a2a/security/trust_boundary.py:149-409 | By the log alone: the gate is open if and only if no last block stands, the sender's last grant stands or everyone is allowed, and each standing grant lists the peer and the type. |
| TrustHistory.ColdIsFresh | src/qwed_a2a/security/trust_boundary.py:236-247 | A bucket idle beyond the limit answers, and goes on, exactly as a new one. |
| TrustHistory.GateAgrees | src/qwed_a2a/security/trust_boundary.py:296-405 | An evicted grant is an expired one: the decision is that of the log. |
| TrustHistory.LimitAgrees | src/qwed_a2a/security/trust_boundary.py:411-432 | An evicted bucket is a refilled one: the answer is that of the log. |
| TrustHistory.StepAgrees | src/qwed_a2a/security/trust_boundary.py:149-442 | Every operation answers as the log does, except `is_trusted` about a time at which a grant was valid that has been evicted since; and keeps the agreement. |
| TrustHistory.EvictionIsUnobservable | src/qwed_a2a/security/trust_boundary.py:149-442 | For every run on clocks that do not run backwards, `evaluate`, the count and `is_trusted` answer as a model that never evicts anything, `is_trusted` if and only if it is not asked about such a time; no time from the last evaluation on is one. |
| TrustHistory.LookingBackShowsEviction | src/qwed_a2a/security/trust_boundary.py:210-234 | Such a question: a grant until 100, an evaluation at 200, and a question about 50. |
| TrustHistory.BucketIsHistory | src/qwed_a2a/security/trust_boundary.py:411-425 | A pair's bucket is determined by the times its requests reached the rate limit. |
| TrustHistory.RateLimitIsExact | src/qwed_a2a/security/trust_boundary.py:411-432 | With eviction and over the whole run, a request past the gate is admitted if and only if it fits every window. |
| RateWindows.PassedInIsAdmittedIn | src/qwed_a2a/security/trust_boundary.py:411-432 | The requests the evicting boundary lets through in any stretch of a run are those one never-evicted bucket admits. |
| RateWindows.NoStretchPassesMore | src/qwed_a2a/security/trust_boundary.py:411-432 | In any stretch of any run, with eviction, no more of a pair's requests pass than the capacity plus what flows in between the first and last of them. |
| TrustHistory.BlockedMeansLastBlocked | src/qwed_a2a/security/trust_boundary.py:149-178 | An agent is blocked if and only if the last block or grant for it is a block. |
| TrustHistory.GrantedMeansLastGranted | src/qwed_a2a/security/trust_boundary.py:149-198 | An agent holds a grant if and only if the last block, grant or revocation for it is that grant. |
| JtiRegistries.JtiRegistry.Evict | src/qwed_a2a/security/crypto.py:163-174 | Drops exactly the entries at or past their expiry, wherever they sit. |
| JtiRegistries.JtiRegistry.CheckAndRegister | src/qwed_a2a/security/crypto.py:121-152 | Evicts, then refuses a live identifier or takes it until the later of retention and token expiry. |
| JtiRegistries.JtiRegistry.Release | src/qwed_a2a/security/crypto.py:154-161 | Frees one identifier. |
| JtiRegistries.RegistryRefinesLog | src/qwed_a2a/security/crypto.py:121-174 | A call is refused if and only if a never-forgetting log holds an accepted call for the identifier that nothing has released or outlived since. |
| JtiRegistries.OnlyLiveEntriesRemain | src/qwed_a2a/security/crypto.py:163-174 | After each call every entry, but one just taken without retention, is live. |
| JtiRegistries.AcceptedAtMostOnce | src/qwed_a2a/security/crypto.py:121-152 | An identifier is not accepted twice before its first token's expiry. |
| JtiRegistries.HeldExactlyUntil | src/qwed_a2a/security/crypto.py:121-152 | An accepted identifier is refused next if and only if the reading is before the end of the retention window counted from the acceptance, or before the token's own expiry. |
| Attestations.EntryKeys | src/qwed_a2a/security/crypto.py:812-836 | One issuer's keys, each kept unless another issuer owns its fingerprint. |
| Attestations.CandidateKeys | src/qwed_a2a/security/crypto.py:782-837 | The local key first, then the peers' keys in configuration order. |
| Attestations.CryptoService.constructor | src/qwed_a2a/security/crypto.py:568-581 | The issuance registry is a new one, separate from the consumption registry. |
| Attestations.CryptoService.SignVerdict | src/qwed_a2a/security/crypto.py:722-780 | Reserves the trace, mints or gives the trace back, and leaves the consumption registry unchanged. |
| Attestations.CryptoService.CheckClaims | src/qwed_a2a/security/crypto.py:919-1011 | Context checks in order, then exactly one registration. |
| Attestations.CryptoService.VerifyAttestation | src/qwed_a2a/security/crypto.py:1090-1115 | Decides as scanning the candidates in order, and touches the registry only for a token that passed every other check. |
| AttestationTheorems.OneIssuerPerKey | src/qwed_a2a/security/crypto.py:789-793 | Candidates with one fingerprint have one issuer. |
| AttestationTheorems.AcceptanceMeans | src/qwed_a2a/security/crypto.py:874-1011 | An accepted token is unexpired, signed under a key of the very issuer it names, bound to deployment and context, and its slot was free and is now taken. |
| AttestationTheorems.RejectionAddsNothing | src/qwed_a2a/security/crypto.py:934-1011 | A rejected token adds no entry; one rejected before the replay check changes nothing. |
| AttestationTheorems.ScanBlock | src/qwed_a2a/security/crypto.py:1094-1111 | Scanning one issuer's candidates depends only on which statuses occur among them. |
| AttestationTheorems.KeyOrderIsIrrelevant | src/qwed_a2a/security/crypto.py:1094-1115 | Permuting the keys inside any issuer's entry, whatever labels or duplicates it has, never changes a verification. |
| AttestationTheorems.MintedTokenVerifies | src/qwed_a2a/security/crypto.py:739-780 | A minted token verifies at its own issuer, in its context and before it expires, exactly if its trace is not empty and not consumed; it is admissible exactly if minted for VERIFIED. |
| AttestationTheorems.MintedTokenVerifiesOnce | src/qwed_a2a/security/crypto.py:739-1011 | It verifies once, and is refused as a replay at every later reading before its expiry. |
| AttestationTheorems.RegistryKeysCollideExactly | src/qwed_a2a/security/crypto.py:992-1002 | Exactly which pairs of issuer and identifier share a registry key. |
| AttestationTheorems.RegistryKeysAreInjective | src/qwed_a2a/security/crypto.py:992-1002 | None do, when issuer IDs and self-issued identifiers contain no NUL. |
| AttestationTheorems.SharedKeysExactly | src/qwed_a2a/security/crypto.py:992-1002 | Two services file a token under one key if and only if both or neither are its issuer. |
| AttestationTheorems.NoReplay | src/qwed_a2a/security/crypto.py:1002-1011 | Over any run of verifications sharing a registry, no issuer and identifier are accepted twice before the first token's expiry, by verifiers of which both or neither are the issuer. |
| AttestationTheorems.PeerReplays | src/qwed_a2a/security/crypto.py:992-1011 | The condition is needed: over one registry, any token is accepted by its issuer and then, before it expires, by any peer with another issuer ID that trusts it. |
| Acceptance.SignedByIsVerified | src/qwed_a2a/security/crypto.py:874-917 | A candidate key verifies a token if and only if the signature holds, its times admit the reading, it names the key's issuer, and it has no key identifier or the key's own. |
| Acceptance.ContextExactly | src/qwed_a2a/security/crypto.py:919-995 | The context checks pass if and only if each named field of the claims is what the verifier asks about. |
| Acceptance.ClaimsAreAcceptedExactly | src/qwed_a2a/security/crypto.py:919-1011 | Verified claims are accepted if and only if they match the context and their identifier is unused. |
| Acceptance.ConfiguredIsCandidate | src/qwed_a2a/security/crypto.py:782-837 | A key of a usable issuer entry is tried unless the service or an earlier entry owns its fingerprint under another issuer. |
| Acceptance.OwnTokenIsAcceptedExactly | src/qwed_a2a/security/crypto.py:1037-1115 | A token signed under the service's own key, naming it, with no key identifier or the key's own, is accepted if and only if it matches the context and is unused, whatever peers are configured. |
| Acceptance.PeerTokenIsAcceptedExactly | src/qwed_a2a/security/crypto.py:1037-1115 | The converse of `AcceptanceMeans`: so is a token signed under a configured key of the issuer it names, with no key identifier or that key's, whatever other keys and issuers are configured. |
| Acceptance.OnlyConfiguredAreAccepted | src/qwed_a2a/security/crypto.py:1037-1115 | Whatever is accepted is one of these two. |
| Acceptance.ExpiredIsReported | src/qwed_a2a/security/crypto.py:1090-1115 | A token past its end that is signed under the own or a configured key is refused as expired, whomever it names, and nothing is registered. |
| Acceptance.RefusedExactly | src/qwed_a2a/security/crypto.py:1086-1115 | A token no key verifies is refused for the lack of keys, its end, its key identifier or the lack of a matching key, exactly in this order, and nothing is registered. |
| Acceptance.ReasonsAreAccurate | src/qwed_a2a/security/crypto.py:919-995 | Each context check that fails names a field that does differ. |
| Acceptance.NamelessEntryIsIgnored | src/qwed_a2a/security/crypto.py:424-440 | An issuer entry whose issuer or deployment ID is absent or blank is as good as not there. |
| Acceptance.WireValuesExactly | src/qwed_a2a/protocol/schema.py:29-69 | Each wire value is read as the verdict it was written for, the legacy one as VERIFIED, and no other text is read. |
| Issuance.IssuanceIsSafe | src/qwed_a2a/security/crypto.py:736-780 | Over every interleaving of signing calls in which none gives back a slot another call has taken, a trace is held only for a token minted or being minted, and a second token for it only follows a reading at or after the first one's expiry. |
| Issuance.ForeignReleaseBreaks | src/qwed_a2a/security/crypto.py:763-780 | Exactly those releases break it: after any such run, one can be followed by a second token while the first is live. |
| Issuance.LapseWhileEncodingBreaks | src/qwed_a2a/security/crypto.py:763-780 | Such a release can happen: a run in which two tokens are live for one trace. |
| Issuance.BeginKeepsInv | src/qwed_a2a/security/crypto.py:722-740 | Reserving a trace keeps the issuance invariant. |
| Issuance.FinishKeepsInv | src/qwed_a2a/security/crypto.py:763-780 | So do minting, and giving back one's own slot after a failed encoding. |
| Issuance.SignIsBeginThenFinish | src/qwed_a2a/security/crypto.py:722-780 | An undisturbed signing call is those two steps. |
| DecimalRounding.RoundMonotone | src/qwed_a2a/interceptor.py:564-569 | Rounding to the context's precision, ties to even, is monotone. |
| DecimalRounding.RoundExact | src/qwed_a2a/interceptor.py:564-569 | What fits the precision is left alone, and rounding twice is rounding once. |
| DecimalRounding.TiesGoToEven | src/qwed_a2a/interceptor.py:564-569 | Halfway between two multiples the even one is taken. |
| DecimalRounding.RoundError | src/qwed_a2a/interceptor.py:564-569 | Rounding is off by at most half a unit in the last place of the result. |
| DecimalRounding.RoundScales | src/qwed_a2a/interceptor.py:564-569 | Rounding does not depend on the unit values are counted in. |
| FinanceGuard.ValidateFinancialPayload | src/qwed_a2a/interceptor.py:609-712 | Accepts exactly the payloads with a non-negative finite total and a non-empty list of well-formed, non-negative items. |
| FinanceGuard.ComputeTotal | src/qwed_a2a/interceptor.py:563-568 | Computes the sum with every product and partial sum rounded. |
| FinanceGuard.VerifyFinancial | src/qwed_a2a/interceptor.py:549-607 | Unverifiable, refuted, verified or an exception, for every payload and precision. |
| FinanceGuard.SumsAreMonotone | src/qwed_a2a/interceptor.py:563-568 | Rounded partial sums never decrease. |
| FinanceGuard.TotalErrorIsBounded | src/qwed_a2a/interceptor.py:563-568 | The computed total is within one unit in its last place per item of the exact sum. |
| FinanceGuard.SmallTotalIsExact | src/qwed_a2a/interceptor.py:563-568 | A total whose digits fit the precision was computed exactly. |
| FinanceGuard.ToCentsBounds | src/qwed_a2a/interceptor.py:570-576 | Half-up quantization takes the nearest cent. |
| FinanceGuard.CentsApart | src/qwed_a2a/interceptor.py:587-589 | The tolerance on quantized totals, in terms of the totals themselves, both ways. |
| FinanceGuard.VerifiedBoundsTheClaim | src/qwed_a2a/interceptor.py:587-607 | VERIFIED bounds the claim's distance from the exact sum by two cents and the accumulated rounding error. |
| FinanceGuard.VerifiedBoundsTheClaimExactly | src/qwed_a2a/interceptor.py:587-607 | By two cents alone when the total fits the precision. |
| FinanceGuard.CloseClaimIsVerified | src/qwed_a2a/interceptor.py:587-607 | A claim within a cent, less the rounding error, of the exact sum is verified. |
| FinanceGuard.CloseClaimIsVerifiedExactly | src/qwed_a2a/interceptor.py:587-607 | Within a cent alone when the total fits the precision. |
| FinanceGuard.VerifiedWithinACentExactly | src/qwed_a2a/interceptor.py:570-589 | A verified claim is within the cent of the computed total if and only if both round to the same cents or the larger is left with no more beyond its cents than the smaller. |
| FinanceGuard.WholeCentsAreVerifiedExactly | src/qwed_a2a/interceptor.py:570-589 | On totals in whole cents that fit the precision, verified if and only if within the cent. |
| FinanceGuard.VerifiedMayBeNearlyTwoCentsOff | src/qwed_a2a/interceptor.py:570-607 | A verified claim that is off by 1.9 cents, at every precision of five digits or more. |
| FinanceLaws.AbsentQuantityIsOne | src/qwed_a2a/interceptor.py:564-568 | An item without a quantity counts once. |
| FinanceLaws.TotalsAdd | src/qwed_a2a/interceptor.py:563-568 | Exact totals of item lists add. |
| FinanceLaws.ExactSumIsTotal | src/qwed_a2a/interceptor.py:563-568 | The exact total is the sum of amount times quantity, written out over the payload. |
| FinanceLaws.FittingTotalIsComputed | src/qwed_a2a/interceptor.py:563-568 | If the exact total fits the precision, nothing is rounded on the way to it. |
| FinanceLaws.InvoiceIsVerifiedExactly | src/qwed_a2a/interceptor.py:549-607 | The law of the guard: for every claim and every list of amounts and quantities whose totals are whole cents that fit the precision, verified if and only if the claim is within a cent of the sum of amount times quantity, and refuted otherwise. |
| FinanceLaws.TwoAtFive | src/qwed_a2a/interceptor.py:563-589 | At the default precision, 10.00 for two at 5.00 is verified and 5.00 is not. |
| FinanceLaws.TooLargeExactly | src/qwed_a2a/interceptor.py:570-586 | For usable payloads: the engine raises if and only if the computed total in whole cents has too many digits for the precision, and is unverifiable if and only if only the claimed one has. |
| FinanceLaws.UnusableIsUnverifiable | src/qwed_a2a/interceptor.py:609-712 | A payload with an absent, malformed, infinite or negative number, no items, or an item that is no mapping is unverifiable, whatever else it holds. |
| FinanceLaws.UsableIsJudged | src/qwed_a2a/interceptor.py:549-712 | Every other payload is verified or refuted, unless a total is too large for the precision. |
| FinanceUnits.JudgeIgnoresTheUnit | src/qwed_a2a/interceptor.py:549-607 | For any payload and precision, counting in finer units changes no conclusion. |
| StrictBase64.SearchIsExact | src/qwed_a2a/security/crypto.py:322-341 | Searching the alphabet finds exactly the value a character stands for. |
| StrictBase64.DecodeStrict | src/qwed_a2a/security/crypto.py:327-354 | Fails or decodes as the specification, for every text. |
| StrictBase64.PackedIsJoined | src/qwed_a2a/security/crypto.py:342-348 | Six-bit values shifted and or-ed together are those values side by side. |
| StrictBase64.BytesAreMasked | src/qwed_a2a/security/crypto.py:342-350 | Shifting down and masking with 0xFF takes the bytes. |
| StrictBase64.UnpackGroup | src/qwed_a2a/security/crypto.py:341-343 | Four values, shifted, or-ed and masked, give the three bytes of the specification. |
| StrictBase64.UnpackTail | src/qwed_a2a/security/crypto.py:344-353 | So do two or three left over; one is an error. |
| StrictBase64.DecodeSextets | src/qwed_a2a/security/crypto.py:341-354 | The decoding loop over groups of four values, and the tail. |
| StrictBase64.DecodesExactly | src/qwed_a2a/security/crypto.py:333-354 | Decoding succeeds if and only if the length is a multiple of four, the body is in the alphabet, and its length is not 1 modulo 4; it then yields that many bytes. |
| StrictBase64.QuantaBits | src/qwed_a2a/security/crypto.py:341-343 | The bytes of whole groups are, as a number, their values' bits. |
| StrictBase64.DecodeYieldsLeadingBits | src/qwed_a2a/security/crypto.py:341-354 | The bytes are, as a number, the leading bits of the characters' values; only the unused low bits are dropped. |
| StrictBase64.UnusedBitsAreIgnored | src/qwed_a2a/security/crypto.py:345-347 | Not injective: texts that differ only in unused bits decode alike. |
| StrictBase64.ValuesRoundTrip | src/qwed_a2a/security/crypto.py:341-354 | Decoding the values a standard encoder makes of any bytes gives the bytes back. |
| StrictBase64.CoordinateRoundTrip | src/qwed_a2a/security/crypto.py:374-384 | Encoded, stripped of padding, translated, padded again and strictly decoded, every byte sequence comes back. |
| StrictBase64.CoordinateNumberRoundTrip | src/qwed_a2a/security/crypto.py:647-659 | Every 256-bit coordinate a key publishes is read back. |
| StrictBase64.UrlValuesExactly | src/qwed_a2a/security/crypto.py:320-325 | Each character of a coordinate stands for its value in the URL-safe alphabet. |
| StrictBase64.ForeignTextIsRefused | src/qwed_a2a/security/crypto.py:374-384 | A coordinate with any character but letters, digits, dash, underscore and padding is refused, and so is an empty one. |
| StrictBase64.PlainTextDecodesExactly | src/qwed_a2a/security/crypto.py:374-384 | Of the texts without padding, exactly those that leave one character over are refused, and the others give three bytes for four characters. |
| LogicGuard.FastPathIsExact | src/qwed_a2a/interceptor.py:927-945 | On ASCII the fast path computes what the full pipeline does. |
| LogicGuard.KeyIsIdempotent | src/qwed_a2a/interceptor.py:917-926 | The key of an ASCII claim is its own key. |
| LogicGuard.SameKeySameWords | src/qwed_a2a/interceptor.py:927-933 | Two ASCII claims share a key if and only if they have the same lower-case words once invisible characters are gone. |
| LogicGuard.CaseIsIgnored | src/qwed_a2a/interceptor.py:927-933 | Writing letters of an ASCII claim in the other case leaves its key alone. |
| LogicGuard.OneWordKeysExactly | src/qwed_a2a/interceptor.py:927-933 | Claims of one word share a key if and only if they differ in nothing but the case of letters. |
| LogicGuard.SpacesSeparate | src/qwed_a2a/interceptor.py:927-933 | Any ASCII space, line break or separator character splits a claim: its words are those before and those after. |
| LogicGuard.InvisibleIsIgnored | src/qwed_a2a/interceptor.py:60-62 | Any other control character can be left out of an ASCII claim. |
| LogicGuard.EmptyKeyExactly | src/qwed_a2a/interceptor.py:768-779 | A claim counts as empty if and only if it holds nothing but spaces and invisible characters. |
| LogicGuard.ReadAssertion | src/qwed_a2a/interceptor.py:757-796 | Reads a key exactly from the well-formed assertions with a claim that is not empty. |
| LogicGuard.CollectKeys | src/qwed_a2a/interceptor.py:753-801 | Gathers exactly the keys asserted and the keys negated, or stops at the first assertion that cannot be read. |
| LogicGuard.VerifyLogic | src/qwed_a2a/interceptor.py:723-814 | One pass with two sets of keys blocks exactly when some pair of assertions contradicts each other, is unverifiable exactly when some assertion is malformed, and names exactly the keys in conflict. |
| LogicGuard.OnlyKeysMatter | src/qwed_a2a/interceptor.py:753-796 | The conclusion depends only on which keys occur with which polarity. |
| LogicGuard.CanonicalClaimsJudgeAlike | src/qwed_a2a/interceptor.py:914-933 | Writing ASCII claims in canonical form changes no conclusion. |
| LogicGuard.ContradictionsStay | src/qwed_a2a/interceptor.py:753-803 | Adding well-formed assertions never lifts a contradiction. |
| LogicGuard.JudgedExactly | src/qwed_a2a/interceptor.py:753-814 | In the assertions as written: unverifiable if and only if absent, empty or with a malformed assertion; refuted if and only if none of these and a claim whose flag is absent or false meets one with the same key whose flag is true. |
| LogicGuard.DenialIsRefuted | src/qwed_a2a/interceptor.py:781 | A claim without a flag and its denial are refuted. |
| LogicGuard.OneSidedPasses | src/qwed_a2a/interceptor.py:797-814 | Well-formed assertions that only assert, or only deny, are a heuristic pass. |
| LogicGuard.FlagsMayBeWrittenOut | src/qwed_a2a/interceptor.py:781 | Writing an absent flag as false, anywhere, changes no conclusion. |
| EngineRouting.VerifyCode | src/qwed_a2a/interceptor.py:947-1047 | Size, parse, structural scan and patterns in order; any finding refutes, none is only a heuristic pass. |
| EngineRouting.RouteToEngine | src/qwed_a2a/interceptor.py:512-547 | Each payload type goes to its own engine if that is enabled, and is otherwise unverifiable. |
| EngineRouting.OnlyFinanceVerifies | src/qwed_a2a/interceptor.py:512-547 | An engine run verifies if and only if it is the enabled finance guard on a financial message whose totals it found right. |
| EngineRouting.RoutedExactly | src/qwed_a2a/interceptor.py:512-547 | A message whose type has no enabled engine is unverifiable, and an engine's conclusion depends on its own part of the payload alone. |
| EngineRouting.TypesAreTold | src/qwed_a2a/protocol/schema.py:18-26 | The names grants use for payload types tell them apart. |
| CodeVerdicts.DangerIsRefuted | src/qwed_a2a/interceptor.py:947-1047 | If some execution runs a dangerous member, in a plain program or at a call the scan understands, the code guard refutes the program, whatever its size and text. |
| CodeVerdicts.AliasedCallIsRefuted | src/qwed_a2a/interceptor.py:947-1047 | For one, any plain program that imports a module under any name and calls a dangerous member through that name. |
| CodeVerdicts.DirectCallIsRefuted | src/qwed_a2a/interceptor.py:1070-1077 | So it does every program that calls eval, exec, compile or __import__ by name. |
| CodeVerdicts.DangerousImportIsRefuted | src/qwed_a2a/interceptor.py:1112-1118 | And every program that imports subprocess, importlib, ctypes or pty. |
| CodeVerdicts.DangerousImportFromIsRefuted | src/qwed_a2a/interceptor.py:1120-1125 | Or imports anything from one of them or from a submodule. |
| CodeVerdicts.MemberImportIsRefuted | src/qwed_a2a/interceptor.py:1120-1132 | Or imports a dangerous member by name, or everything at once, from a module that has one; the members are listed in full. |
| CodeVerdicts.HeuristicPassExactly | src/qwed_a2a/interceptor.py:947-1047 | A heuristic pass is given if and only if there is no code, or text within the limit that parses and in which neither the scan nor the patterns find anything. |
| CodeVerdicts.CodeConclusions | src/qwed_a2a/interceptor.py:947-1047 | Which code is unverifiable, which makes the engine raise, and that none is verified. |
| Interceptor.StepKeepsInv | src/qwed_a2a/interceptor.py:258-426 | Every step of every call keeps the path, run, evaluation and reply of all calls consistent. |
| Interceptor.RunKeepsInv | src/qwed_a2a/interceptor.py:258-426 | So does every interleaving. |
| Interceptor.PoolKeepsEnding | src/qwed_a2a/interceptor.py:482-498 | What a finished caller was told never changes. |
| Interceptor.ConcludedCallFits | src/qwed_a2a/interceptor.py:1142-1193 | A call's verdict is the one its path determines; it is unsigned exactly if UNVERIFIABLE, and its attestation says what it says. |
| FailClosed.VerdictExactly | src/qwed_a2a/interceptor.py:280-426 | For each of the five verdicts, exactly which calls are given it. |
| FailClosed.AdmissibleMeansChecked | src/qwed_a2a/interceptor.py:280-426 | In every interleaving an admissible verdict means size and trust passed and the finance guard itself finished in time for that caller, in an evaluation and a run no other call shares, and the verdict is signed. |
| FailClosed.EngineIsNamedExactly | src/qwed_a2a/interceptor.py:286-426 | What each attestation names as the source of its verdict, exactly: the size limit, the trust boundary, a busy or late engine, the error handler, or the enabled engine that answered. |
| FailClosed.NoEngineMeansNoPass | src/qwed_a2a/interceptor.py:512-547 | A message whose type has no enabled engine is never passed, and blocked only for its size or by the trust boundary. |
| CodeVerdicts.DangerIsNeverPassed | src/qwed_a2a/interceptor.py:947-1047 | In every interleaving, with the code guard enabled, a program some execution of which runs a dangerous member as above is never given HEURISTIC_PASS or VERIFIED, and is BLOCKED if its engine answers. |
| CodeVerdicts.PassedCodeRunsNoDanger | src/qwed_a2a/interceptor.py:947-1047 | Conversely HEURISTIC_PASS on code means nothing was found, and no execution runs a dangerous member as above. |
| FailClosed.CheckedMeansAdmissible | src/qwed_a2a/interceptor.py:380-426 | And a call given a verdict after all of that is given an admissible one. |
| FailClosed.AdmissibleMeansInBound | src/qwed_a2a/interceptor.py:549-607 | An admissible verdict bounds the claimed total's distance from the exact sum. |
| FailClosed.AdmissibleTokenMeansChecked | src/qwed_a2a/interceptor.py:1142-1193 | An attestation is admissible if and only if its call was fully checked. |
| Consumers.AcceptedMeansChecked | src/qwed_a2a/security/crypto.py:1037-1115 | If only the gateway signs with its key, an admissible attestation that a consumer accepts from it belongs to a call of the gateway for that sender, receiver and payload that was fully checked. |
| FailClosed.RaisedHasItsCause | src/qwed_a2a/interceptor.py:1160-1184 | Each exception has its cause: the call was cancelled, or a verdict that must be signed lacked a hash, a key, an unissued trace or an encoding; never a skipped run or an unknown verdict. |
| FailClosed.ClosedMeansError | src/qwed_a2a/interceptor.py:247-256 | A call that had not submitted its run when the pool closed gets ERROR, if any verdict, whatever happens afterwards. |
| FailClosed.PassingTakesOneToken | src/qwed_a2a/security/trust_boundary.py:393-432 | A passing evaluation takes exactly one token, from its own pair's bucket; any other takes none. |
| FailClosed.PassingIsHistory | src/qwed_a2a/security/trust_boundary.py:356-432 | The boundary lets through exactly what its history allows: unblocked, within grants, within the rate from every earlier request on. |
| FailClosed.AdmissibleMeansWithinHistory | src/qwed_a2a/interceptor.py:311-329 | So an admissible verdict means the history allowed the request. |
| FailClosed.AdmissibleAreRateLimited | src/qwed_a2a/interceptor.py:311-329 | In every interleaving, the admissible verdicts a pair gets for evaluations in any stretch are at most the capacity plus the inflow. |
| UncontendedRun.DeservedVerdictIsGiven | src/qwed_a2a/interceptor.py:258-426 | Conversely, from any state with a slot and a thread free in an open pool, a small enough message the trust boundary lets through can be given exactly its engine's verdict. |
| UncontendedRun.GrantedSenderIsServed | src/qwed_a2a/interceptor.py:214-256 | In particular, with nobody trusted by default, the message of a sender that has been granted trust. |

## Left out

- AliasSoundness.AliasSoundness: is about programs in which whatever arrives is known; for the others it is false, exactly (`SoundnessIsExact`).
- AliasSoundness.ScanIsSound: asks that the call be heard, or an import be reported in itself; `ScanSoundnessIsExact` and `MissedPrograms` say what happens otherwise. The executions leave out starred elements, the gaps the code lists itself (src/qwed_a2a/interceptor.py:865-870: subscripts, modules reached through objects, loop, `with` and argument bindings, unlisted modules), and two it does not list: results of function calls (`def f(): return os`) and `match` captures. A tuple held in a name counts as an object.
- MissedPrograms.UnfollowedIsMissed: is about names that no recorded edge of the assignment leads to and that the tables do not know; another edge or an implicit binding may happen to supply the binding.
- CodeGuard.ScanAstThreats: threats are a set of values, not a sorted list of labels.
- EngineRouting.VerifyCode: Python's parser and the text patterns are inputs; the patterns are a second, independent check.
- EngineSlots.SlotsAreConserved: a failed submit is taken to leave nothing queued, without which it is false (`FailedSubmitKeepsBalanceExactly`); and any queued job may start next, which includes first-in-first-out.
- EngineSlots.Drains: an engine run that never returns is not part of the model.
- TrustHistory.EvictionIsUnobservable: the answer of `revoke_agent` is not compared, since it does depend on eviction; nor is it unobservable to a question about the past (`LookingBackShowsEviction`); who granted trust and when, and loading grants from the environment, are not modelled.
- TokenBuckets.TokenBucket.Consume: token counts and clocks are real numbers, not floating point.
- JtiRegistries.JtiRegistry.Evict: entries are a map; their order, which only affects how eviction walks, is not modelled.
- AttestationTheorems.NoReplay: does not cover an issuer and another verifier sharing a registry, where it is false (`PeerReplays`).
- AttestationTheorems.AcceptanceMeans: signature checking, key parsing and token decoding are parameters; one clock reading decodes a token against all candidates; `nbf` is not modelled.
- Acceptance.PeerTokenIsAcceptedExactly: takes each issuer to be configured once, as in a mapping, and the service's own key not to verify a token that names the service itself and is configured as a peer at another deployment; the own deployment is then the one compared (`OwnTokenIsAcceptedExactly`).
- FinanceLaws.InvoiceIsVerifiedExactly: is about totals in whole cents that fit the precision; the others are the subject of `FinanceGuard.VerifiedWithinACentExactly` and `TooLargeExactly`.
- AttestationTheorems.OneIssuerPerKey: is about fingerprints, as the code is; the fingerprint is any function of the key.
- Attestations.CandidateKeys: whether an identifier is blank is decided on ASCII white space.
- Issuance.IssuanceIsSafe: assumes that no failing call gives back a slot another call has taken; where one does the claim is false (`ForeignReleaseBreaks`).
- FinanceGuard.VerifyFinancial: numbers are multiples of one fixed power of ten, rounding is the default half-even, and exponent limits and the conversion of results to floats are not modelled.
- LogicGuard.FastPathIsExact: the Unicode tables are parameters known on ASCII only, so idempotence is proved there.
- LogicGuard.VerifyLogic: the keys in conflict are a set, not a sorted list.
- Interceptor.StepKeepsInv: checking the size and asking the trust boundary is one step, and so is signing; `Issuance` interleaves the parts of signing.
- Interceptor.ConcludedCallFits: an exception that is not an ordinary error, raised while submitting, is treated as an ordinary one.
- The HTTP endpoints, API keys, schema validation, telemetry, logging, redaction and reason strings are outside this model.
- Hashing, JSON serialization, elliptic-curve arithmetic and PEM parsing: results are inputs.

# The OmniPaw kernel, modelled and proved

OmniPaw runs autonomous agents on a small kernel built around one append-only log. Agents are ticked by
a scheduler; a tick may ask for a tool, whose result is logged and fed to the next tick; a run can be
replayed from the log. Agents delegate parts of their authority to child agents, share memory under
permissions, and are isolated when they breach an invariant.

The project has two layers. A value layer says what each operation does to the state, as functions:
one loop iteration (`Execution.Iterate`), one delegation or revocation (`Forests`), one failure
(`Failures.Handled`), one memory operation, one transition. An object layer has the kernel's classes
(`Scheduler`, `ToolGate`, `LifecycleController`, `DelegationProtocol`, `FailureHandler`, the stores, the
logger), whose methods change fields in place and are proved against those functions. The theorems are
about the functions, over all inputs and all runs.

| files | part of the kernel |
|---|---|
| `Texts`, `Numbers`, `Values`, `Sorting`, `Canonical`, `WellFormedTexts`, `JsonReaders` | JSON values, `deepEqual`, and the canonical text behind the state hash |
| `Ticks`, `Lifecycles`, `LifecycleControllers`, `Quotas`, `Log`, `Memory` | tick engine, lifecycle table and controller, quotas, log, persistent memory |
| `Execution`, `LiveRuns`, `LiveSteps`, `StateHashes`, `Replaying`, `Divergences`, `Schedulers`, `ReplayControllers` | the agent loop, LIVE and REPLAY |
| `Grants`, `Permissions`, `SharedMemory`, `Systems`, `Invariants` | permissions, shared memory, and the whole LIVE kernel |
| `Forests`, `Delegation`, `DelegationRuns`, `Failures` | delegation forest and failure handling |
| `Ephemeral`, `DockerStream` | per-tick scratch memory; the container log demultiplexer |

## Main results

- **Canonical form is exact** (`Canonical.CanonicalFormIsExact`). Two JSON values have the same
  `stableStringify` text if and only if `deepEqual` holds of them. Strings are sequences of UTF-16 code
  units, lone surrogates included; finite numbers are printed by all four formats of Number::toString
  (ECMA-262, section 6.1.6.1.20). The text is JSON for the value: a reader of RFC 8259 syntax gives the value
  back with its keys sorted (`JsonReaders.CanonicalTextReadsBack`).
- **LIVE runs** (`LiveRuns`, `LiveSteps`). A run of any length, engine and tools logs exactly its dialogue
  with them, and the tool results in it are those the handlers returned, call by call
  (`LiveSteps.ResultsComeFromHandlers`).
- **Replay, exactly** (`Replaying.ReplayMatchesExactly`). For any engine, tools, hash, log and number of
  iterations, replaying a LIVE run, the agent's first or a later one, matches it in tick inputs, lifecycle
  state and ending if and only if the first log entries of each number answer the run's lookups as the run
  went and no tool threw an error named QuotaExceededError. For a first run the lookups come down to memory:
  `ReplayReproducesRun` with `SteadyRunsHashAlike`. For any run against an honest log they come down to what
  the entries say: `AnyRunReplaysExactlyWhenConfirmed`. Whatever happens, a replay touches nothing
  (`ReplayTouchesNothing`).
- **Where replay fails.** `README.md:6` and `doc/invariants.md` of the repository promise replay without these
  conditions. Module `Divergences` has the families in which the promise fails, each with a concrete kernel
  reached from boot: a tool that writes the agent's own memory; a later run of the same agent (sequence
  numbers restart at 1 and lookups take the first match); and a tool whose error is named like the quota
  enforcer's, which the loop's `catch` takes for one: the LIVE agent is FAULTED, the replayed one ACTIVE.
- **Replay is sound** (`Replaying.ReplayIsSound`, `ReplayControllers.SoundReplayVerifies`). A replay that
  raises no replay error confirmed every tick. Its hypotheses hold in the kernel: `EveryLogIsHonest` for the
  log, `OwnHashComparesStates` for the hash, which asks the digest to be collision-free on texts without lone
  surrogates, as all canonical texts are (`CanonicalTextIsWellFormed`).
- **Every LIVE kernel** (`Invariants`). The log determines the state at every busSeq; TERMINATED agents stay
  silent; each shared access is licensed by the entry before it; quotas bound all future runs; logged hashes
  are honest. All rest on `Systems.OpKeeps`: every operation, a whole agent loop included, is a series of
  single-entry steps.
- **Delegation** (`Forests`, `Delegation`, `DelegationRuns`). The parent-only checks of `delegate` and the
  early exit of `revoke` are right because of the forest invariant; covering of grants is exactly permitting
  no more (`Grants.CoversExactly`); the cascade marks exactly the subtree
  and logs its newly revoked nodes depth first. `initRoot` guards nothing: `Forests.InitRootKeepsGoodExactly`
  says for which ids it keeps the invariant.
- **Depth** (`DelegationRuns`). The height bound of 100 that the root's allowance suggests holds when requests
  ask for whole depths (`WholeRequestsBoundDepth`). `delegate` does not ask that, and then there is no bound
  (`FractionalRequestsReachAnyDepth`).
- **Failures** (`Failures`). Retry accounting is conserved over every run, and a breach isolates its
  subtree for good.

## Model

| member | source | states |
|---|---|---|
| Numbers.NumberReadsBack | execution/scheduler.ts:13 | every finite number is read back from the numeral JSON.stringify prints for it |
| Numbers.FormatBoundaries | execution/scheduler.ts:13 | numbers from 10^-6 up to below 10^21 are written out, with as many characters as they take, and others have an exponent |
| Canonical.QuoteUnique | execution/scheduler.ts:13-16 | a quoted string determines the string and where it ends, whatever follows |
| Canonical.EscapedUnits | execution/scheduler.ts:13 | exactly which code units JSON.stringify escapes, and in which form |
| Canonical.PrintUnique | execution/scheduler.ts:12-18 | unique decodability: no two values print alike in contexts that cannot extend a number |
| Sorting.SortUnique | execution/scheduler.ts:15 | sorting distinct keys forgets the order they came in |
| Sorting.LessMeaning | execution/scheduler.ts:15 | keys are ordered by UTF-16 code units: the first difference decides, or the end of the shorter |
| Canonical.StableIsPrintOfCanon | execution/scheduler.ts:12-18 | the canonical text is the plain JSON text of the key-sorted value |
| Canonical.CanonDecidesEquality | execution/replay-controller.ts:4-34 | key-sorted values are equal if and only if deepEqual holds |
| Canonical.CanonicalFormIsExact | execution/scheduler.ts:12-19 | equal canonical texts if and only if deepEqual values, for all JSON values |
| WellFormedTexts.CanonicalTextIsWellFormed | execution/scheduler.ts:12-19 | no canonical text holds a lone surrogate, whatever strings the value holds, so each has an exact UTF-8 encoding for the digest to read |
| JsonReaders.StringReadsBack | execution/scheduler.ts:13-16 | a reader of JSON strings (RFC 8259, section 7) gives every quoted string back, whatever follows |
| JsonReaders.ValueReadsBack | execution/scheduler.ts:12-18 | a reader of JSON text gives every printed value back, whatever follows that cannot extend a number |
| JsonReaders.CanonicalTextReadsBack | execution/scheduler.ts:12-19 | the canonical text is JSON that reads back as the value with its keys sorted, which is deepEqual to it; keys of an object increase |
| Lifecycles.TargetIsTable | lifecycle/types.ts:45-63 | a trigger is accepted just when a row of the table says so, and by one row only |
| Lifecycles.FireKeepsPaths | lifecycle/controller.ts:42-88 | a transition extends a numbered path from DEFINED, and none leaves TERMINATED |
| Lifecycles.FireMovesOneAgent | lifecycle/controller.ts:42-88 | a row of the table moves its agent, adds one numbered record to its history, and touches no other agent |
| Lifecycles.TerminatedIsFinal | lifecycle/types.ts:45-63 | TERMINATED occurs only as the end of a history |
| LifecycleControllers.FindTransition | lifecycle/controller.ts:49-51 | the table search returns the target the trigger has in the table, or nothing |
| LifecycleControllers.LifecycleController.Transition | lifecycle/controller.ts:42-88 | an invalid trigger changes nothing; a valid one logs one entry and moves state, history and counter |
| Log.ExecutionLogger.Write | logging/logger.ts:15-28 | append adds one entry numbered by its position and keeps all others |
| Log.ExecutionLogger.GetLogsForAgent | logging/logger.ts:35-38 | the agent's entries, in order |
| Log.ForAgentKeepsPlaces | logging/logger.ts:35-38 | each entry of the agent is there once, in its place, and no other entry is |
| Log.FindFirst | tools/gate.ts:54-62 | the search loop returns the first matching entry or nothing |
| Log.FirstIsLeast | tools/gate.ts:54-62 | the first match is the entry at the least index where the property holds |
| Log.FirstForAgent | execution/scheduler.ts:86-87 | searching an agent's own entries finds the same first match as searching the log |
| Memory.PersistentStore.Read | memory/persistent.ts:12-18 | the stored value, or nothing for an absent agent or key |
| Memory.PersistentStore.Write | memory/persistent.ts:20-48 | one write-ahead entry, then one key of one agent set |
| Memory.PersistentStore.Delete | memory/persistent.ts:50-69 | one write-ahead entry, then one key removed; an unknown agent stays unknown |
| Memory.PersistentStore.Snapshot | memory/persistent.ts:71-74 | the agent's record, empty if it has none |
| Memory.PerformMeaning | memory/persistent.ts:20-69 | a write sets, a delete removes, one (agent, key), and every other one stays |
| Memory.LastOperationCounts | memory/persistent.ts:20-69 | after a series of operations a key holds what the last one on it says |
| Memory.EachIsAnnounced | memory/persistent.ts:28-62 | each operation of a series is announced by one entry of its agent, in order |
| Quotas.QuotaEnforcer.SetQuota | execution/quota.ts:26-31 | sets the limit and keeps the usage already counted |
| Quotas.QuotaEnforcer.ConsumeTick | execution/quota.ts:41-51 | the count moves even when the tick is refused; refused exactly beyond the limit |
| Quotas.QuotaEnforcer.ConsumeToolCall | execution/quota.ts:53-63 | the count moves even when the call is refused; refused exactly beyond the limit |
| Quotas.AdmittedExactly | execution/quota.ts:41-63 | whatever is asked for in between, by whomever, ticks are admitted exactly up to maxTicks and tool calls exactly up to maxToolCalls; without a quota always |
| Quotas.QuotaReplaced | execution/quota.ts:26-31 | a new quota replaces the old one of its agent only and forgives no usage |
| LiveRuns.IterationAdvances | execution/scheduler.ts:52-150 | what one LIVE iteration logs, feeds forward and ends in |
| LiveRuns.LiveRunShape | execution/scheduler.ts:47-152 | a LIVE run of any length adds to the agent's trace exactly its dialogue with engine and tools |
| LiveRuns.DialogueAt | execution/scheduler.ts:123-140 | TICK_OUTPUT and TOOL_RESULT alternate, numbered from 1; each tick is fed the result logged just before |
| LiveSteps.ToolCallWritten | tools/gate.ts:31-48 | a LIVE tool call: its handler is called once, its writes are kept, and what it returned is logged and is the next instruction; or its error, by name; or an unknown tool, or a quota, with no call |
| LiveSteps.ExitWritten | execution/scheduler.ts:99-150 | the entries with which a run ends: `complete` and `teardown_ok`, `error`, or `yield` |
| LiveSteps.ResultsComeFromHandlers | tools/gate.ts:37-47 | in every LIVE run the result logged in round i is what the handler returned, called once, as the i-th call after those made before the run, and no other call is made but a last one that failed |
| LiveSteps.OwnEngineAnswers | execution/tick.ts:25-79 | what the kernel's own engine answers to NOOP, RETURN, DELEGATE and unknown instructions, as logged, and the state it leaves |
| LiveSteps.OwnEngineCallsTool | execution/tick.ts:25-79 | CALL_TOOL with the kernel's own engine: the handler's result is logged, fed back, and is what the agent completes with |
| LiveRuns.LiveRunOutcomes | execution/scheduler.ts:99-164 | how a run ends fixes the lifecycle state: TERMINATED, FAULTED (also by a tool's error named QuotaExceededError), WAITING, or still ACTIVE after any other failed tool call |
| LiveRuns.QuotaEndsLoop | execution/scheduler.ts:52-53 | with a tick quota, the loop is over after at most maxTicks - ticks + 1 iterations, for any engine |
| LiveRuns.OwnEngineEndsLoop | execution/tick.ts:25-79 | the kernel's own engine ends every loop within two iterations, LIVE or REPLAY, quota or not |
| Schedulers.ToolGate.Execute | tools/gate.ts:14-84 | LIVE calls the handler once, and logs its result or passes its error on by name; REPLAY returns the first logged result and changes nothing |
| Schedulers.Scheduler.RunTick | execution/scheduler.ts:52-150 | one pass through the loop body is one iteration of the state machine, in both modes |
| Schedulers.Scheduler.RunAgentLoop | execution/scheduler.ts:34-170 | whenever the state machine ends, the loop terminates and leaves exactly the state it reaches |
| Schedulers.LoopsEnd | execution/scheduler.ts:52-53 | the state machine ends with a tick quota, and with the kernel's own engine in any case |
| StateHashes.HashDecidesState | execution/scheduler.ts:11-20 | equal output, lifecycle state and memory hash alike, whatever their key order, and with a digest collision-free on well-formed texts nothing else does |
| StateHashes.HashStateComparesStates | execution/scheduler.ts:64-69 | the same for all states at once: hashing canonical texts respects equal states, and separates others if the digest is collision-free |
| Schedulers.Scheduler.OwnHashComparesStates | execution/scheduler.ts:11-20 | the kernel's own hash gives what the replay theorems ask of one |
| StateHashes.OutputsCompared | execution/replay-controller.ts:4-34 | tick outputs compare equal as objects if and only if they are the same kind of output with equal parts |
| Replaying.ReplayTouchesNothing | tools/gate.ts:50-72 | with no hypothesis at all: a replay appends nothing, calls no handler and writes no memory |
| Replaying.ReplayMatchesExactly | execution/scheduler.ts:47-164 | a replay of any run, first or later, against any log matches it if and only if every lookup the run makes is answered as the run went and no tool raised a quota error |
| Replaying.AnyRunReplaysExactlyWhenConfirmed | execution/scheduler.ts:84-97 | the same in terms of what is logged: outputs, lifecycle state, memory and tool results agree with the agent's first entries of the same numbers, and no tool raised a quota error |
| Replaying.ReplayReproducesRun | execution/scheduler.ts:47-164 | a replay of a first run matches it if and only if its ticks hash as they do with the replay's memory and no tool raised a quota error; other hashes are reported as divergence, a tool's quota error as a missing tool result |
| Replaying.SteadyRunsHashAlike | execution/scheduler.ts:64-69 | ticks hash alike when all saw deep-equal memory, and only then with a collision-free digest |
| Replaying.QuietRunReplays | tools/gate.ts:31-70 | tools that leave the agent's memory alone make every first run replay, failed tool calls included, but for a tool's quota error, whose fault the replay loses |
| Replaying.LiveRunIsHonest | execution/scheduler.ts:71-83 | a LIVE run logs each tick with the hash of its own output, some state and some memory |
| Invariants.EveryLogIsHonest | execution/scheduler.ts:71-83 | so does every kernel, for every agent: what the soundness of replay asks of a log always holds |
| Replaying.ReplayIsSound | execution/scheduler.ts:84-97 | a replay without replay error confirmed output, lifecycle state and memory of every tick |
| Replaying.LaterRunDiverges | execution/scheduler.ts:48-97 | whichever tick of a replay first meets a logged one it disagrees with, in output, state or memory, there the replay reports divergence |
| Divergences.MemoryWritingToolDiverges | execution/scheduler.ts:64-97 | one tool call that adds a key to the agent's memory makes the replay diverge |
| Divergences.SecondRunDiverges | execution/scheduler.ts:48-97 | a second run whose first output, or the memory it saw, differs from the first run's is reported as divergent |
| Divergences.NoteMisreported | execution/scheduler.ts:64-97 | a concrete kernel and tool: the run completes and its replay reports divergence |
| Divergences.RaisingToolLosesFault | execution/scheduler.ts:152-158 | one call of a tool that throws an error named QuotaExceededError leaves the agent FAULTED, and its replay leaves it ACTIVE |
| Divergences.RaisedFaultLost | execution/scheduler.ts:152-158 | the same at a concrete kernel and tool |
| Divergences.IdleMisreported | execution/scheduler.ts:48-97 | a concrete second run with another instruction completes and its replay reports divergence |
| Divergences.RememberMisreported | execution/scheduler.ts:64-97 | a concrete second run with the same instruction, after a memory write, ends normally and its replay reports divergence |
| ReplayControllers.ReplayController.VerifyTick | execution/replay-controller.ts:42-73 | LIVE passes; in REPLAY a tick never logged is missing, and otherwise the first output logged for it decides: passed if deepEqual to the computed one, divergent if not |
| ReplayControllers.SoundReplayVerifies | execution/replay-controller.ts:42-73 | every tick of an undisturbed replay also passes verifyTick |
| ReplayControllers.DivergentTickIsReported | execution/replay-controller.ts:68-72 | a replayed tick whose output is not deepEqual to the first one logged is reported divergent, and that replay ended in a replay error |
| Permissions.PermissionModel.Evaluate | permissions/model.ts:8-65 | DENY without a live matching grant, else the worst policy result; one entry logged |
| Grants.CoversExactly | delegation/protocol.ts:48-52 | a grant covers another if and only if it permits, at every time, everything the other permits |
| Grants.PermitsMeaning | permissions/model.ts:18-31 | a grant lets through what it or `*` names, strictly before a limit that is not 0 |
| Permissions.DecisionIsMostSevere | permissions/model.ts:18-55 | DENY without a live matching grant, else the most severe policy result under ALLOW < ESCALATE < DENY |
| Permissions.DecisionIgnoresOrder | permissions/model.ts:44-55 | the decision does not depend on the order or repetition of policies |
| SharedMemory.SharedStore.CheckPermission | memory/shared.ts:15-34 | passes only on ALLOW: ESCALATE is refused like DENY |
| SharedMemory.SharedStore.Read | memory/shared.ts:36-60 | the value only if allowed; a read entry only if allowed and present |
| SharedMemory.SharedStore.Write | memory/shared.ts:62-101 | a refused write leaves the store unchanged; a permitted one is logged before it is stored |
| SharedMemory.WriteMeaning | memory/shared.ts:62-101 | a permitted write sets one (namespace, key) and every other one stays |
| SharedMemory.ReadingNeedsReadWritingNeedsWrite | memory/shared.ts:15-34 | without policies a read takes a live grant to `read` the path and a write one to `write` it |
| SharedMemory.AccessesLogged | memory/shared.ts:36-101 | the evaluation is logged first, then the read if allowed and present, or the write if allowed |
| Systems.OpKeeps | logging/logger.ts:15-28 | every LIVE operation is a series of single-entry steps: what each step keeps, it keeps |
| Invariants.LogDeterminesStateAtAnyPoint | memory/persistent.ts:20-74 | the history of any run has a state for every busSeq, in mid-operation too, and folding the log up to it gives that state's lifecycle map, memories and shared store |
| Invariants.LogDeterminesState | memory/persistent.ts:20-74 | folding the log, or its prefix after any operation, gives the state then |
| Invariants.LogDeterminesStateInLoop | execution/scheduler.ts:47-152 | the same after any iteration of an agent loop |
| Invariants.TerminatedAgentsStaySilent | lifecycle/controller.ts:42-88 | histories are paths and no TICK_OUTPUT of an agent follows its transition to TERMINATED |
| Invariants.SharedAccessesAreLicensed | memory/shared.ts:15-101 | each shared read or write entry directly follows an ALLOW for the same agent, action and resource |
| Invariants.QuotaBoundsEveryRun | execution/quota.ts:41-63 | from the moment a quota is set, and while it stands, an agent's logged ticks and handler calls never grow beyond it, over any number of runs |
| Forests.ChildIdInjective | delegation/protocol.ts:91 | a generated id determines its parent and its number |
| Forests.FreshChild | delegation/protocol.ts:91-112 | a generated id is never in use |
| Forests.DelegatedKeepsGood | delegation/protocol.ts:62-112 | an accepted delegation keeps the forest invariant |
| Forests.InitRootKeepsGoodExactly | delegation/protocol.ts:18-35 | for any id, initRoot keeps the invariant if and only if the id is no node with a parent or children and no id still to be generated |
| Forests.RevokedKeepsGood | delegation/protocol.ts:125-143 | marking a subtree keeps the forest invariant |
| Forests.AcceptedMeansAncestorsLive | delegation/protocol.ts:62-89 | an accepted delegation means every ancestor is unrevoked, unexpired and has the granted permissions |
| Forests.AuthorityNeverGrows | delegation/protocol.ts:37-60 | what a node's grants allow at any time, every ancestor's allow |
| Forests.DepthBounded | delegation/protocol.ts:81-84 | where all remaining depths are whole numbers, depth plus remaining depth is at most 100 |
| Forests.EarlyExit | delegation/protocol.ts:127 | below a node found revoked everything is revoked, so returning at once is right |
| Forests.PreorderAncestorsFirst | delegation/protocol.ts:139-142 | the cascade visits no node twice and none before its ancestors |
| Delegation.DelegationProtocol.InitRoot | delegation/protocol.ts:18-35 | any id: one root node with its own token, nothing else changes, and validity survives exactly when the id may be a root |
| Delegation.DelegationProtocol.IsSubset | delegation/protocol.ts:37-60 | every grant is unexpired and covered by an unexpired one |
| Delegation.DelegationProtocol.Delegate | delegation/protocol.ts:62-123 | which check refuses, in order, under two clock readings; or one new child, one log entry, and the invariant kept |
| DelegationRuns.ChildHoldsTheRequest | delegation/protocol.ts:91-112 | the new node holds just the requested grants, depth and lifetime under the requester, nothing else changes, and every question is decided as for the requested grants |
| DelegationRuns.RootHoldsItsGrants | delegation/protocol.ts:18-35 | a new root holds just the grants given and the root's allowances, and nothing else changes |
| DelegationRuns.RefusedByFirstFailingCheck | delegation/protocol.ts:62-89 | the reason names the first check that fails; a request that passes them all is accepted |
| Delegation.DelegationProtocol.Revoke | delegation/protocol.ts:125-143 | exactly the subtree is marked, nothing else changes, newly revoked nodes are logged depth first |
| Delegation.RevokedEntriesAt | delegation/protocol.ts:132-137 | one entry per newly revoked node, in order, with the id of its token |
| Delegation.DelegationProtocol.Cascade | delegation/protocol.ts:125-143 | the recursive call in mid-cascade, with open ancestors; it terminates |
| DelegationRuns.EveryForestIsGood | delegation/protocol.ts:18-143 | in every run the forest invariant holds |
| DelegationRuns.WholeRequestsBoundDepth | delegation/protocol.ts:81-84 | in every run whose requests ask for whole depths, depth plus remaining depth is at most 100 |
| DelegationRuns.FractionalRequestsReachAnyDepth | delegation/protocol.ts:81-84 | for every depth h and positive step, a run of accepted requests reaches depth h with 100 - h * step to spare: step 1 reaches the bound of whole requests, smaller steps pass it |
| DelegationRuns.InitRootBreaksForest | delegation/protocol.ts:18-35 | a run of one root and one delegation after which initRoot breaks the forest at the root, at the child, and at an id generated later |
| DelegationRuns.RevokedForever | delegation/protocol.ts:68-70 | a revoked agent never delegates again, short of a new root under its id |
| DelegationRuns.SubtreeIsolated | delegation/protocol.ts:125-143 | revocation isolates a subtree for good and changes no node outside it |
| DelegationRuns.CascadeOrder | delegation/protocol.ts:132-142 | logged are exactly the newly revoked nodes, once each, ancestors before descendants |
| DelegationRuns.TokensStayDistinct | delegation/types.ts:5 | token ids are globally unique in every run |
| Failures.FailureHandler.HandleTransient | failure/handler.ts:57-93 | retry or exhaust, with the entries and the record each leaves |
| Failures.FailureHandler.HandleInvariantBreach | failure/handler.ts:122-136 | TERMINATED, subtree revoked, panic logged last |
| Failures.FailureHandler.Handle | failure/handler.ts:25-55 | every class of failure, unrecognised ones as breaches |
| Failures.PermanentFaults | failure/handler.ts:95-109 | a permanent failure faults its agent only, tells the parent its token names, and leaves the tree alone |
| Failures.ExhaustionFaults | failure/handler.ts:68-82 | a transient failure beyond the limit does the same as an escalated permanent one, and its series is forgotten |
| Failures.RetryChangesNoState | failure/handler.ts:83-93 | a transient failure within the limit is counted for its own tick, schedules a retry, and changes no state |
| Failures.PolicyViolationOnlyHalts | failure/handler.ts:111-120 | a policy violation is logged and halts the tick; states, records and tree stay |
| Failures.BreachTerminates | failure/handler.ts:122-124 | a breach terminates its agent only and forgets no retries |
| Failures.BreachPanics | failure/handler.ts:46-54 | a breach, or a failure of unknown class, logs itself, one revocation per newly revoked node, and a panic that names an unknown class |
| Failures.RecordKeyInjective | failure/handler.ts:21-23 | the retry key names its agent and tick, even with colons in the id |
| Failures.RetriesAreConserved | failure/handler.ts:57-93 | failures = (limit + 1) * exhaustions + count, retries = limit * exhaustions + count, kept by every run |
| Failures.EveryRunConservesRetries | failure/handler.ts:57-93 | the same equations in every run that starts before the first failure |
| Failures.BreachIsolates | failure/handler.ts:122-136 | a breach terminates the agent, revokes exactly its subtree and bars it from delegating for good |
| Ephemeral.HandleRoundTrip | memory/ephemeral.ts:11-19 | a handle parses back to what printed it if and only if the agent id has no colon |
| Ephemeral.OthersUnaffected | memory/ephemeral.ts:21-107 | no operation on one (agent, tick) affects another |
| Ephemeral.ScopeOperations | memory/ephemeral.ts:21-94 | init wipes the scope, checkpoint and restore copy, each leaving its source alone |
| Ephemeral.RefusedExactly | memory/ephemeral.ts:46-94 | what is refused, and nothing else: writes through handles of no active scope, checkpoints of inactive ones, restores without checkpoint |
| Ephemeral.ReadThroughHandle | memory/ephemeral.ts:34-44 | a read through its handle sees the active contents of that scope |
| Ephemeral.WriteThroughHandle | memory/ephemeral.ts:46-60 | a write through its handle sets one key of that scope |
| Ephemeral.RestoreGivesCheckpoint | memory/ephemeral.ts:62-94 | restore gives the contents at the last checkpoint, whatever was written since |
| Ephemeral.DestroyedIsGone | memory/ephemeral.ts:96-107 | destroy removes both copies; nothing is then writable or restorable |
| Ephemeral.EphemeralStore.Init | memory/ephemeral.ts:21-32 | a fresh empty scope and its handle |
| Ephemeral.EphemeralStore.Read | memory/ephemeral.ts:34-44 | the value, nothing for an absent key, an error for an inactive handle |
| Ephemeral.EphemeralStore.Write | memory/ephemeral.ts:46-60 | one key of the scope the handle names, or an error and no change |
| Ephemeral.EphemeralStore.Checkpoint | memory/ephemeral.ts:62-75 | the active contents copied, or an error and no change |
| Ephemeral.EphemeralStore.Restore | memory/ephemeral.ts:77-94 | the checkpoint copied back, or an error and no change |
| Ephemeral.EphemeralStore.Destroy | memory/ephemeral.ts:96-107 | both copies removed |
| DockerStream.Demultiplex | host/sandbox/docker.ts:75-82 | for any buffer, the result is the decoded payloads of the complete leading frames, one after the other: frames lie end to end by their big-endian lengths, and piece i is what frame i carries |
| DockerStream.FramesOfEncoded | host/sandbox/docker.ts:75-82 | parsing inverts framing, whatever follows the frames |
| DockerStream.FramesAreLongestPrefix | host/sandbox/docker.ts:77-79 | the parsed frames are the longest prefix made of complete frames |
| DockerStream.FramingRoundTrip | host/sandbox/docker.ts:75-82 | demultiplexing concatenated frames gives a text that falls into the payloads, decoded, in order |

## Left out

- Schedulers.Scheduler.RunAgentLoop: requires that the loop ends, since a loop that never does has no final
  state; every iteration of one is covered by the theorems on `Execution.Run`.
- DelegationRuns.EveryForestIsGood: runs set up roots only under ids that may be roots; after any other
  `initRoot` the invariant fails, as `Forests.InitRootKeepsGoodExactly` shows.
- Delegation.DelegationProtocol.Revoke: the logged token is represented by its id; the entry of a delegation
  holds the live token, whose `revoked` flag is not claimed stable in the log.
- Schedulers.ToolGate.Execute: a tool call is one atomic step whose effects on the kernel are persistent
  memory writes and deletes; a tool that runs agents, fires transitions, sets quotas, delegates or writes shared
  memory or log entries itself is not modelled.
- Failures.FailureHandler.Handle: works against the lifecycle interface of failure/handler.ts:7-9; the
  adapter of kernel/index.ts:58-60 passes state names where triggers are expected, so it throws, and the model
  takes the interface not to throw.
- Ephemeral.HandleRoundTrip: tick numbers are safe integers, below 2^53 in magnitude, which JavaScript prints
  exactly; the tick numbers of failures are taken to be such integers too.
- Ephemeral.OthersUnaffected: does not model the rounding of a hand-written handle whose digits denote a number
  beyond 2^53, which addresses a neighbouring tick.
- DelegationRuns.FractionalRequestsReachAnyDepth: `maxDepth` is a real number where the source has a double, of
  which there are finitely many; runs with step 2^-46 are exact in doubles up to depth 100 * 2^46.
- Fractional and infinite quotas and retry limits: counts are whole, so a fractional limit acts as its floor.
- Engines and policies that throw: both are total functions here; the kernel's own engine never throws.
- Aliasing of logged and stored values: they are values here. The log freezes entries at the top level only
  (logging/logger.ts:24), so a handler that mutates its arguments or a result object it returned, or a caller
  that pushes to the array it passed as `grantSubset` (delegation/protocol.ts:98), changes what was logged or
  granted; such callers are outside the model.
- Timestamps of log entries and records, and the optional `meta` of a transition: no decision reads them.
- SHA-256: any function on canonical texts; theorems that need it say "collision-free".
- Values outside JSON: `undefined`, NaN, infinities, cyclic objects, and keys or tool names that name members
  of `Object.prototype`, such as `__proto__`.
- The order of integer-like keys in JavaScript objects: it changes neither `deepEqual` nor the canonical text.
- Two runs of one agent interleaving at an `await`.
- A scheduler without a persistent store: it hashes an empty memory, as an empty store does.
- Telemetry, kernel bus, dashboard, terminal interface, file and SQLite logging, LLM adapters, host tools,
  container start, kill and pull: observation or foreign calls.
- Identity registry, invariant checker, plugin loader, swarm coordination: one-branch checks.

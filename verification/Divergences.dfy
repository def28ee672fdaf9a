/** Runs whose replay does not reproduce them although nothing went wrong with log or engine, with a
    concrete kernel for each family. */
module Divergences {
  import opened Options
  import opened Texts
  import opened Values
  import opened Canonical
  import opened Ticks
  import opened Lifecycles
  import opened Log
  import opened Memory
  import opened Quotas
  import opened Execution
  import opened LiveRuns
  import opened StateHashes
  import opened Replaying
  import opened Systems

  // ---- A tool that writes the agent's memory ----

  lemma DeepEqualKeys(f: JsonRecord, g: JsonRecord, key: Text)
    requires DeepEqual(Obj(f), Obj(g)) && HasKey(f, key)
    ensures HasKey(g, key)
  {
    var i :| 0 <= i < |f| && f[i].key == key;
    assert HasKey(g, f[i].key);
  }

  /** The first iteration of a run that calls a tool which writes the agent's memory. */
  lemma WritingTool(env: Env, agent: AgentId, k: Kernel, toolName: Text, args: Json, key: Text, value: Json, txId: Text, result: Json)
    requires StateOf(k.life, agent) == Active && agent !in k.quotas.limits
    requires forall input :: env.tick(input) == RunTick(input)
    requires toolName in env.handlers
    requires env.handlers[toolName](|k.calls|, args) == Outcome([Write(agent, key, value, txId)], Returned(result))
    ensures var t := Iterate(env, Live, agent, Begin(k, agent, CallTool(toolName, args)));
      && t.status.Running? && agent !in t.kernel.quotas.limits
      && HasKey(SnapshotOf(t.kernel.memory, agent), key)
  {
    var s := Begin(k, agent, CallTool(toolName, args));
    LiveIteration(env, agent, s);
    IterationCounts(env, Live, agent, s);
    var op := Write(agent, key, value, txId);
    assert [op][1..] == [];
    assert PerformAll(k.memory, [op]) == Perform(k.memory, op);
    PerformMeaning(k.memory, op, agent, key);
  }

  /** With the kernel's own engine and no quota, one tool call that adds a key to the agent's memory is
      enough: the run completes, and its replay from the same memory reports divergence. */
  lemma MemoryWritingToolDiverges(env: Env, agent: AgentId, k: Kernel, toolName: Text, args: Json,
                                  key: Text, value: Json, txId: Text, result: Json, k': Kernel)
    requires CollisionFree(env)
    requires StateOf(k.life, agent) == Active && agent !in k.quotas.limits && TraceOf(k.log, agent) == []
    requires forall input :: env.tick(input) == RunTick(input)
    requires toolName in env.handlers && !HasKey(SnapshotOf(k.memory, agent), key)
    requires env.handlers[toolName](|k.calls|, args) == Outcome([Write(agent, key, value, txId)], Returned(result))
    requires k'.memory == k.memory
    requires CanReplay(agent, k, Run(env, Live, agent, Begin(k, agent, CallTool(toolName, args)), 2), k')
    ensures Run(env, Replay, agent, Begin(k', agent, CallTool(toolName, args)), 2).status == Threw(CryptographicDivergence)
  {
    var first := CallTool(toolName, args);
    var s := Begin(k, agent, first);
    var live := Step(env, Live, agent);
    var memory := SnapshotOf(k'.memory, agent);
    WritingTool(env, agent, k, toolName, args, key, value, txId, result);
    ReplayReproducesRun(env, agent, k, first, 2, k');
    SteadyRunsHashAlike(env, agent, k, first, 2, memory);
    NotSteady(live, agent, memory, s, key);
  }

  lemma NotSteady(live: Loop -> Loop, agent: AgentId, memory: JsonRecord, s: Loop, key: Text)
    requires s.status.Running? && live(s).status.Running? && TickAdmitted(live(s).kernel.quotas, agent)
    requires HasKey(SnapshotOf(live(s).kernel.memory, agent), key) && !HasKey(memory, key)
    ensures !Steady(live, agent, memory, s, 2)
  {
    var t := live(s);
    if SameMemory(agent, t, memory) {
      DeepEqualKeys(SnapshotOf(t.kernel.memory, agent), memory, key);
    }
    assert Steady(live, agent, memory, t, 1) ==> SameMemory(agent, t, memory);
  }

  /** The run completes, yet replaying it from the memory it started with reports divergence. */
  ghost predicate Misreported(env: Env, agent: AgentId, k: Kernel, first: Instruction, n: nat) {
    var run := Run(env, Live, agent, Begin(k, agent, first), n);
    && run.status == Left
    && Run(env, Replay, agent, Begin(k.(log := run.kernel.log), agent, first), n).status == Threw(CryptographicDivergence)
  }

  lemma WritingRunCompletes(env: Env, agent: AgentId, k: Kernel, toolName: Text, args: Json,
                            key: Text, value: Json, txId: Text, result: Json)
    requires StateOf(k.life, agent) == Active && agent !in k.quotas.limits
    requires forall input :: env.tick(input) == RunTick(input)
    requires toolName in env.handlers
    requires env.handlers[toolName](|k.calls|, args) == Outcome([Write(agent, key, value, txId)], Returned(result))
    ensures Run(env, Live, agent, Begin(k, agent, CallTool(toolName, args)), 2).status == Left
  {
    var s, step := Begin(k, agent, CallTool(toolName, args)), Step(env, Live, agent);
    WritingTool(env, agent, k, toolName, args, key, value, txId, result);
    IterationAdvances(env, agent, s);
    ReturnCompletes(env, agent, step(s));
    RepeatTwice(step, s);
  }

  lemma ReturnCompletes(env: Env, agent: AgentId, t: Loop)
    requires t.status.Running? && StateOf(t.kernel.life, agent) == Active && TickAdmitted(t.kernel.quotas, agent)
    requires t.instruction.Return? && forall input :: env.tick(input) == RunTick(input)
    ensures Iterate(env, Live, agent, t).status == Left
  {
    IterationAdvances(env, agent, t);
    assert OutputAt(env, agent, t).Completed?;
  }

  lemma RepeatTwice(step: Loop -> Loop, s: Loop)
    ensures Repeat(step, s, 1) == step(s)
    ensures Repeat(step, s, 2) == step(step(s))
  {
    assert Repeat(step, step(s), 1) == Repeat(step, step(step(s)), 0);
  }

  lemma FinishedCanReplay(agent: AgentId, k: Kernel, run: Loop)
    requires StateOf(k.life, agent) == Active && run.status == Left
    ensures CanReplay(agent, k, run, k.(log := run.kernel.log))
  {
  }

  lemma WritingRunMisreported(env: Env, agent: AgentId, k: Kernel, toolName: Text, args: Json,
                              key: Text, value: Json, txId: Text, result: Json)
    requires CollisionFree(env)
    requires StateOf(k.life, agent) == Active && agent !in k.quotas.limits && TraceOf(k.log, agent) == []
    requires forall input :: env.tick(input) == RunTick(input)
    requires toolName in env.handlers && !HasKey(SnapshotOf(k.memory, agent), key)
    requires env.handlers[toolName](|k.calls|, args) == Outcome([Write(agent, key, value, txId)], Returned(result))
    ensures Misreported(env, agent, k, CallTool(toolName, args), 2)
  {
    WritingRunCompletes(env, agent, k, toolName, args, key, value, txId, result);
    var run := Run(env, Live, agent, Begin(k, agent, CallTool(toolName, args)), 2);
    FinishedCanReplay(agent, k, run);
    MemoryWritingToolDiverges(env, agent, k, toolName, args, key, value, txId, result, k.(log := run.kernel.log));
  }

  // ---- A tool that raises a quota error ----

  /** The run leaves the agent FAULTED; replaying it leaves the agent ACTIVE, with a missing tool result. */
  ghost predicate FaultLost(env: Env, agent: AgentId, k: Kernel, first: Instruction, n: nat) {
    var run := Run(env, Live, agent, Begin(k, agent, first), n);
    QuotaErrorLost(agent, run, Run(env, Replay, agent, Begin(k.(log := run.kernel.log), agent, first), n))
  }

  lemma RaisingCall(env: Env, agent: AgentId, k: Kernel, toolName: Text, args: Json, ops: seq<MemoryOp>)
    requires StateOf(k.life, agent) == Active && agent !in k.quotas.limits && TraceOf(k.log, agent) == []
    requires forall input :: env.tick(input) == RunTick(input)
    requires toolName in env.handlers
    requires env.handlers[toolName](|k.calls|, args) == Outcome(ops, Raised(QUOTA_ERROR))
    ensures var t := Iterate(env, Live, agent, Begin(k, agent, CallTool(toolName, args)));
      && t.status == Threw(HandlerOverQuota) && t.sequenceNumber == 1
      && First(t.kernel.log, ToolAt(agent, 1)) == None
  {
    var s := Begin(k, agent, CallTool(toolName, args));
    LiveIteration(env, agent, s);
    IterationAdvances(env, agent, s);
    var log := Iterate(env, Live, agent, s).kernel.log;
    assert TraceOf(log, agent) == [TickEntry(env, agent, s)];
    FirstInTrace(log, agent, ToolAt(agent, 1));
    FirstOfAbsent(TraceOf(log, agent), ToolAt(agent, 1));
  }

  /** With the kernel's own engine and no quota, one call of a tool that throws an error named
      QuotaExceededError is enough, whatever the tool wrote before. */
  lemma RaisingToolLosesFault(env: Env, agent: AgentId, k: Kernel, toolName: Text, args: Json, ops: seq<MemoryOp>)
    requires StateOf(k.life, agent) == Active && agent !in k.quotas.limits && TraceOf(k.log, agent) == []
    requires forall input :: env.tick(input) == RunTick(input)
    requires toolName in env.handlers
    requires env.handlers[toolName](|k.calls|, args) == Outcome(ops, Raised(QUOTA_ERROR))
    ensures FaultLost(env, agent, k, CallTool(toolName, args), 1)
  {
    var first := CallTool(toolName, args);
    var s, live := Begin(k, agent, first), Step(env, Live, agent);
    RaisingCall(env, agent, k, toolName, args, ops);
    RepeatTwice(live, s);
    ReplayReproducesRun(env, agent, k, first, 1, k.(log := live(s).kernel.log));
    OneTickHashes(env, agent, k, first);
  }

  lemma OneTickHashes(env: Env, agent: AgentId, k: Kernel, first: Instruction)
    requires StateOf(k.life, agent) == Active
    ensures SameHashes(env, Step(env, Live, agent), agent, SnapshotOf(k.memory, agent), Begin(k, agent, first), 1)
  {
    var s, live := Begin(k, agent, first), Step(env, Live, agent);
    assert SameHash(env, agent, SnapshotOf(k.memory, agent), s);
    assert SameHashes(env, live, agent, SnapshotOf(k.memory, agent), live(s), 0);
  }

  // ---- A later run whose first tick differs from the first run's ----

  /** The first outputs of two runs, or the memories they saw, differ. */
  ghost predicate FirstTicksDiffer(env: Env, agent: AgentId, k: Kernel, first: Instruction, k1: Kernel, second: Instruction) {
    !SameState(OutputAt(env, agent, Begin(k, agent, first)), Active, SnapshotOf(k.memory, agent),
               OutputAt(env, agent, Begin(k1, agent, second)), Active, SnapshotOf(k1.memory, agent))
  }

  /** A run started at `k1` is checked against the first run, started at `k`: if their first outputs or
      the memories they saw differ, its replay reports divergence. */
  lemma SecondRunDiverges(env: Env, agent: AgentId, k: Kernel, first: Instruction, k1: Kernel, second: Instruction, n: nat)
    requires CollisionFree(env) && n > 0
    requires StateOf(k.life, agent) == Active && StateOf(k1.life, agent) == Active && TickAdmitted(k1.quotas, agent)
    requires First(k1.log, TickAt(agent, 1)) == Some(TickEntry(env, agent, Begin(k, agent, first)))
    requires FirstTicksDiffer(env, agent, k, first, k1, second)
    ensures Run(env, Replay, agent, Begin(k1, agent, second), n).status == Threw(CryptographicDivergence)
  {
    var step, r := Step(env, Replay, agent), Begin(k1, agent, second);
    var s := Begin(k, agent, first);
    var o, o' := OutputAt(env, agent, s), OutputAt(env, agent, r);
    assert env.hash(o, Active, SnapshotOf(k.memory, agent)) != env.hash(o', Active, SnapshotOf(k1.memory, agent));
    assert step(r).status == Threw(CryptographicDivergence);
    OverStaysOver(step, step(r), n - 1);
  }

  /** Delegating leaves the agent WAITING; resumed, it is ACTIVE with one tick in the log. */
  function Resumed(env: Env, agent: AgentId, k: Kernel, first: Instruction): Option<Kernel> {
    Transition(Run(env, Live, agent, Begin(k, agent, first), 1).kernel, agent, Resume)
  }

  lemma ResumedParts(env: Env, agent: AgentId, k: Kernel, first: Instruction)
    requires StateOf(k.life, agent) == Active && agent !in k.quotas.limits && TraceOf(k.log, agent) == []
    requires first.Delegate? && forall input :: env.tick(input) == RunTick(input)
    ensures Resumed(env, agent, k, first).Some?
    ensures var k1 := Resumed(env, agent, k, first).value;
      && StateOf(k1.life, agent) == Active && agent !in k1.quotas.limits && k1.memory == k.memory
      && TraceOf(k1.log, agent) == [TickEntry(env, agent, Begin(k, agent, first))]
  {
    var s, step := Begin(k, agent, first), Step(env, Live, agent);
    DelegatingParts(env, agent, k, first);
    RepeatTwice(step, s);
    TransitionTrace(step(s).kernel, agent, Resume);
  }

  lemma DelegatingParts(env: Env, agent: AgentId, k: Kernel, first: Instruction)
    requires StateOf(k.life, agent) == Active && agent !in k.quotas.limits && TraceOf(k.log, agent) == []
    requires first.Delegate? && forall input :: env.tick(input) == RunTick(input)
    ensures var t := Iterate(env, Live, agent, Begin(k, agent, first));
      && StateOf(t.kernel.life, agent) == Waiting && agent !in t.kernel.quotas.limits && t.kernel.memory == k.memory
      && TraceOf(t.kernel.log, agent) == [TickEntry(env, agent, Begin(k, agent, first))]
  {
    var s := Begin(k, agent, first);
    assert OutputAt(env, agent, s) == PendingDelegation(first.target, first.payload);
    LiveIteration(env, agent, s);
    TickedTrace(env, agent, s);
    ExitFromActive(agent, s.(kernel := Ticked(env, agent, s), inputs := s.inputs + [TickInput(agent, 1, first, MAX_STEPS)]),
                   [Yield], Waiting);
  }

  /** A second run that ends at once, in a kernel whose trace is the tick of a first one. */
  lemma SecondRunMisreported(env: Env, agent: AgentId, k: Kernel, first: Instruction, k1: Kernel, second: Instruction)
    requires CollisionFree(env) && forall input :: env.tick(input) == RunTick(input)
    requires StateOf(k.life, agent) == Active && StateOf(k1.life, agent) == Active && agent !in k1.quotas.limits
    requires TraceOf(k1.log, agent) == [TickEntry(env, agent, Begin(k, agent, first))] && !second.CallTool?
    requires FirstTicksDiffer(env, agent, k, first, k1, second)
    ensures Misreported(env, agent, k1, second, 1)
  {
    var log := Run(env, Live, agent, Begin(k1, agent, second), 1).kernel.log;
    OneTickRun(env, agent, k1, second, TickEntry(env, agent, Begin(k, agent, first)));
    SecondRunDiverges(env, agent, k, first, k1.(log := log), second, 1);
  }

  lemma OneTickRun(env: Env, agent: AgentId, k: Kernel, instruction: Instruction, tick: LogEntry)
    requires forall input :: env.tick(input) == RunTick(input)
    requires StateOf(k.life, agent) == Active && agent !in k.quotas.limits && !instruction.CallTool?
    requires TraceOf(k.log, agent) == [tick] && TickAt(agent, 1)(tick)
    ensures var run := Run(env, Live, agent, Begin(k, agent, instruction), 1);
      run.status == Left && First(run.kernel.log, TickAt(agent, 1)) == Some(tick)
  {
    var s, step := Begin(k, agent, instruction), Step(env, Live, agent);
    RepeatTwice(step, s);
    IterationAdvances(env, agent, s);
    FirstInTrace(step(s).kernel.log, agent, TickAt(agent, 1));
    assert TraceOf(step(s).kernel.log, agent)[0] == tick;
  }

  lemma DelegationIsNotCompletion(target: Text, payload: Json, result: Json)
    ensures !DeepEqual(OutputValue(PendingDelegation(target, payload)), OutputValue(Completed(result)))
  {
    if DeepEqual(OutputValue(PendingDelegation(target, payload)), OutputValue(Completed(result))) {
      KindsAgree(PendingDelegation(target, payload), Completed(result));
    }
  }

  lemma OutputsDiffer(env: Env, agent: AgentId, k: Kernel, first: Instruction, k1: Kernel, second: Instruction,
                      o: TickOutput, p: TickOutput)
    requires OutputAt(env, agent, Begin(k, agent, first)) == o && OutputAt(env, agent, Begin(k1, agent, second)) == p
    requires !DeepEqual(OutputValue(o), OutputValue(p))
    ensures FirstTicksDiffer(env, agent, k, first, k1, second)
  {
  }

  lemma OwnOutput(env: Env, agent: AgentId, k: Kernel, instruction: Instruction)
    requires forall input :: env.tick(input) == RunTick(input)
    ensures OutputAt(env, agent, Begin(k, agent, instruction)) == RunTick(TickInput(agent, 1, instruction, MAX_STEPS))
  {
  }

  lemma IdlingDiffers(env: Env, agent: AgentId, k: Kernel, target: Text, payload: Json, k1: Kernel)
    requires forall input :: env.tick(input) == RunTick(input)
    ensures FirstTicksDiffer(env, agent, k, Delegate(target, payload), k1, Noop)
  {
    DelegationIsNotCompletion(target, payload, Null);
    OwnOutput(env, agent, k, Delegate(target, payload));
    OwnOutput(env, agent, k1, Noop);
    OutputsDiffer(env, agent, k, Delegate(target, payload), k1, Noop, PendingDelegation(target, payload), Completed(Null));
  }

  /** An agent that delegated, was resumed and then did nothing: replaying its second run reports divergence. */
  lemma IdleAfterDelegating(env: Env, agent: AgentId, k: Kernel, target: Text, payload: Json)
    requires CollisionFree(env) && forall input :: env.tick(input) == RunTick(input)
    requires StateOf(k.life, agent) == Active && agent !in k.quotas.limits && TraceOf(k.log, agent) == []
    ensures var k1 := Resumed(env, agent, k, Delegate(target, payload));
      k1.Some? && Misreported(env, agent, k1.value, Noop, 1)
  {
    var first := Delegate(target, payload);
    ResumedParts(env, agent, k, first);
    var k1 := Resumed(env, agent, k, first).value;
    IdlingDiffers(env, agent, k, target, payload, k1);
    SecondRunMisreported(env, agent, k, first, k1, Noop);
  }

  /** An agent that delegated, was resumed with a new key in its memory and delegated just so again. */
  lemma RememberAfterDelegating(env: Env, agent: AgentId, k: Kernel, target: Text, payload: Json,
                                key: Text, value: Json, txId: Text)
    requires CollisionFree(env) && forall input :: env.tick(input) == RunTick(input)
    requires StateOf(k.life, agent) == Active && agent !in k.quotas.limits && TraceOf(k.log, agent) == []
    requires !HasKey(SnapshotOf(k.memory, agent), key)
    ensures var first, op := Delegate(target, payload), Write(agent, key, value, txId);
      var k1 := Resumed(env, agent, k, first);
      k1.Some? && Misreported(env, agent, Remembered(k1.value, op), first, 1)
  {
    var first, op := Delegate(target, payload), Write(agent, key, value, txId);
    ResumedParts(env, agent, k, first);
    var k1 := Resumed(env, agent, k, first).value;
    var k2 := Remembered(k1, op);
    TraceAppend(k1.log, agent, agent, PersistentWrite(txId, key, value));
    PerformMeaning(k1.memory, op, agent, key);
    if DeepEqual(Obj(SnapshotOf(k.memory, agent)), Obj(SnapshotOf(k2.memory, agent))) {
      DeepEqualSymmetric(Obj(SnapshotOf(k.memory, agent)), Obj(SnapshotOf(k2.memory, agent)));
      DeepEqualKeys(SnapshotOf(k2.memory, agent), SnapshotOf(k.memory, agent), key);
    }
    SecondRunMisreported(env, agent, k, first, k2, first);
  }

  function Remembered(k: Kernel, op: MemoryOp): Kernel {
    k.(log := WriteAhead(k.log, op), memory := Perform(k.memory, op))
  }

  lemma DeepEqualSymmetric(a: Value, b: Value)
    requires Valid(a) && Valid(b) && DeepEqual(a, b)
    ensures DeepEqual(b, a)
  {
    CanonDecidesEquality(a, b);
    CanonDecidesEquality(b, a);
  }

  // ---- Concrete kernels, reached from boot ----

  const AGENT: AgentId := Ascii("agent")
  const TOOL: Text := Ascii("note")
  const KEY: Text := Ascii("key")

  /** The tool stores one value under `KEY` and returns null. */
  function NoteHandler(): Handler {
    (n, args) => Outcome([Write(AGENT, KEY, Null, [])], Returned(Null))
  }

  /** The kernel's own engine, one tool, and canonical texts for digests of themselves. */
  function PlainEnv(): Env {
    Env(input => RunTick(input), map[TOOL := NoteHandler()],
        (output, state, memory) => HashState(text => text, KernelState(output, state, memory)))
  }

  /** The same, but the tool stores nothing and raises a quota error. */
  function RaisingEnv(): Env {
    PlainEnv().(handlers := map[TOOL := (n, args) => Outcome([], Raised(QUOTA_ERROR))])
  }

  lemma PlainEnvCompares()
    ensures Respects(PlainEnv()) && CollisionFree(PlainEnv())
    ensures forall input :: PlainEnv().tick(input) == RunTick(input)
  {
    assert UsesHashState(PlainEnv(), text => text);
    HashStateComparesStates(PlainEnv(), text => text);
  }

  ghost function Launched(): Kernel {
    ApplyAll(PlainEnv(), BOOT, [Op.Trigger(AGENT, Spawn), Op.Trigger(AGENT, Activate)]).kernel
  }

  lemma LaunchedParts()
    ensures StateOf(Launched().life, AGENT) == Active && AGENT !in Launched().quotas.limits
    ensures TraceOf(Launched().log, AGENT) == [] && Launched().memory == map[]
  {
    var spawn, activate := Op.Trigger(AGENT, Spawn), Op.Trigger(AGENT, Activate);
    var x := Apply(PlainEnv(), BOOT, spawn);
    var y := Apply(PlainEnv(), x, activate);
    TransitionTrace(BOOT.kernel, AGENT, Spawn);
    TransitionTrace(x.kernel, AGENT, Activate);
    assert [spawn, activate][1..] == [activate] && [activate][1..] == [];
    assert ApplyAll(PlainEnv(), y, []) == y;
    assert ApplyAll(PlainEnv(), x, [activate]) == y;
  }

  /** One call of a tool that notes something in its agent's memory. */
  lemma NoteMisreported()
    ensures Misreported(PlainEnv(), AGENT, Launched(), CallTool(TOOL, Null), 2)
  {
    LaunchedParts();
    PlainEnvCompares();
    WritingRunMisreported(PlainEnv(), AGENT, Launched(), TOOL, Null, KEY, Null, [], Null);
  }

  /** One call of a tool that raises a quota error. */
  lemma RaisedFaultLost()
    ensures FaultLost(RaisingEnv(), AGENT, Launched(), CallTool(TOOL, Null), 1)
  {
    LaunchedParts();
    RaisingToolLosesFault(RaisingEnv(), AGENT, Launched(), TOOL, Null, []);
  }

  /** A second run with another instruction. */
  lemma IdleMisreported()
    ensures var k := Resumed(PlainEnv(), AGENT, Launched(), Delegate([], Null));
      k.Some? && Misreported(PlainEnv(), AGENT, k.value, Noop, 1)
  {
    LaunchedParts();
    PlainEnvCompares();
    IdleAfterDelegating(PlainEnv(), AGENT, Launched(), [], Null);
  }

  /** A second run with the same instruction, after the agent's memory was written. */
  lemma RememberMisreported()
    ensures var k := Resumed(PlainEnv(), AGENT, Launched(), Delegate([], Null));
      k.Some? && Misreported(PlainEnv(), AGENT, Remembered(k.value, Write(AGENT, KEY, Null, [])), Delegate([], Null), 1)
  {
    LaunchedParts();
    PlainEnvCompares();
    RememberAfterDelegating(PlainEnv(), AGENT, Launched(), [], Null, KEY, Null, []);
  }
}

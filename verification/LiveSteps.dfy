/** What one LIVE iteration does, entry by entry, and where the tool results of a run come from
    (execution/scheduler.ts, tools/gate.ts). */
module LiveSteps {
  import opened Options
  import opened Texts
  import opened Values
  import opened Ticks
  import opened Lifecycles
  import opened Log
  import opened Memory
  import opened Quotas
  import opened Execution
  import opened LiveRuns

  // ---- One iteration ----

  /** The log with one more entry of the agent. */
  function Noted(log: seq<LogEntry>, agent: AgentId, event: Event): seq<LogEntry> {
    log + [LogEntry(agent, |log| + 1, event)]
  }

  /** The log once the tick's output is in it, with the hash of the ACTIVE agent's state. */
  function TickWritten(env: Env, agent: AgentId, s: Loop): seq<LogEntry> {
    var output := env.tick(TickInput(agent, s.sequenceNumber, s.instruction, 100));
    Noted(s.kernel.log, agent, TickLogged(s.sequenceNumber, s.instruction, output,
                                          env.hash(output, Active, SnapshotOf(s.kernel.memory, agent))))
  }

  ghost predicate Ticking(agent: AgentId, s: Loop) {
    s.status.Running? && StateOf(s.kernel.life, agent) == Active
  }

  lemma TickedLog(env: Env, agent: AgentId, s: Loop)
    requires Ticking(agent, s)
    ensures Ticked(env, agent, s).log == TickWritten(env, agent, s)
  {
  }

  /** A refused tick runs no engine: the agent is faulted, and that is all that is logged. */
  lemma RefusedTickWritten(env: Env, agent: AgentId, s: Loop)
    requires Ticking(agent, s) && !TickAdmitted(s.kernel.quotas, agent)
    ensures var t := Iterate(env, Live, agent, s);
      && t.status == Threw(QuotaExceeded) && t.inputs == s.inputs && StateOf(t.kernel.life, agent) == Faulted
      && t.kernel.log == Noted(s.kernel.log, agent, LifecycleTransition(Active, Faulted, Trigger.Error))
      && t.kernel.memory == s.kernel.memory && t.kernel.calls == s.kernel.calls
  {
  }

  /** Completion goes through COMPLETING, failure by `error`, delegation by `yield`. */
  lemma ExitWritten(env: Env, agent: AgentId, s: Loop)
    requires Ticking(agent, s) && TickAdmitted(s.kernel.quotas, agent) && !OutputAt(env, agent, s).PendingTool?
    ensures var t := Iterate(env, Live, agent, s);
      var log := TickWritten(env, agent, s);
      && t.status == Left && t.kernel.memory == s.kernel.memory && t.kernel.calls == s.kernel.calls
      && match OutputAt(env, agent, s)
         case Completed(_) =>
           && t.kernel.log == Noted(Noted(log, agent, LifecycleTransition(Active, Completing, Complete)), agent,
                                    LifecycleTransition(Completing, Terminated, TeardownOk))
         case Failed(_) => t.kernel.log == Noted(log, agent, LifecycleTransition(Active, Faulted, Trigger.Error))
         case PendingDelegation(_, _) => t.kernel.log == Noted(log, agent, LifecycleTransition(Active, Waiting, Yield))
         case PendingTool(_, _) => true
  {
    LiveIteration(env, agent, s);
    TickedLog(env, agent, s);
    var k := Ticked(env, agent, s);
    match OutputAt(env, agent, s) {
      case Completed(_) =>
        TwoTransitions(k, agent);
      case Failed(_) => OneTransition(k, agent, Trigger.Error, Faulted);
      case PendingDelegation(_, _) => OneTransition(k, agent, Yield, Waiting);
      case PendingTool(_, _) =>
    }
  }

  lemma OneTransition(k: Kernel, agent: AgentId, trigger: Trigger, to: AgentState)
    requires StateOf(k.life, agent) == Active && Target(Active, trigger) == Some(to)
    ensures var (k', ok) := TransitionAll(k, agent, [trigger]);
      && ok && k'.log == Noted(k.log, agent, LifecycleTransition(Active, to, trigger))
      && k'.memory == k.memory && k'.calls == k.calls
  {
    assert [trigger][1..] == [];
    assert TransitionAll(k, agent, [trigger]) == TransitionAll(Transition(k, agent, trigger).value, agent, []);
  }

  lemma TwoTransitions(k: Kernel, agent: AgentId)
    requires StateOf(k.life, agent) == Active
    ensures var (k', ok) := TransitionAll(k, agent, [Complete, TeardownOk]);
      && ok && k'.memory == k.memory && k'.calls == k.calls
      && k'.log == Noted(Noted(k.log, agent, LifecycleTransition(Active, Completing, Complete)), agent,
                         LifecycleTransition(Completing, Terminated, TeardownOk))
  {
    var k1 := Transition(k, agent, Complete).value;
    assert [Complete, TeardownOk][1..] == [TeardownOk];
    assert [TeardownOk][1..] == [];
    assert TransitionAll(k, agent, [Complete, TeardownOk]) == TransitionAll(k1, agent, [TeardownOk]);
    assert TransitionAll(k1, agent, [TeardownOk]) == TransitionAll(Transition(k1, agent, TeardownOk).value, agent, []);
  }

  /** What a handled tool call leaves: its writes, one call, and by its ending either its own result in
      the log and in the next instruction, or its error. */
  ghost predicate Handled(agent: AgentId, s: Loop, log: seq<LogEntry>, toolName: Text, args: Json, o: Outcome, t: Loop) {
    var written := WriteAllAhead(log, o.ops);
    && t.kernel.calls == s.kernel.calls + [ToolCall(agent, toolName, args)]
    && t.kernel.memory == PerformAll(s.kernel.memory, o.ops)
    && match o.ending
       case Returned(v) =>
         && t.status == Running && t.sequenceNumber == s.sequenceNumber + 1 && t.instruction == Return(v)
         && t.kernel.log == Noted(written, agent, ToolLogged(s.sequenceNumber, toolName, args, v))
         && t.kernel.life == s.kernel.life
       case Raised(name) =>
         if name == Ascii("QuotaExceededError") then
           && t.status == Threw(HandlerOverQuota) && StateOf(t.kernel.life, agent) == Faulted
           && t.kernel.log == Noted(written, agent, LifecycleTransition(Active, Faulted, Trigger.Error))
         else
           t.status == Threw(HandlerThrew) && t.kernel.log == written && t.kernel.life == s.kernel.life
  }

  /** An admitted tick that asks for a tool: refused by quota, by name, or answered by the handler, which
      is told how many calls came before. */
  lemma ToolCallWritten(env: Env, agent: AgentId, s: Loop)
    requires Ticking(agent, s) && TickAdmitted(s.kernel.quotas, agent) && OutputAt(env, agent, s).PendingTool?
    ensures var t := Iterate(env, Live, agent, s);
      var log := TickWritten(env, agent, s);
      var PendingTool(toolName, args) := OutputAt(env, agent, s);
      if !ToolCallAdmitted(s.kernel.quotas, agent) then
        && t.status == Threw(QuotaExceeded) && StateOf(t.kernel.life, agent) == Faulted
        && t.kernel.log == Noted(log, agent, LifecycleTransition(Active, Faulted, Trigger.Error))
        && t.kernel.memory == s.kernel.memory && t.kernel.calls == s.kernel.calls
      else if toolName !in env.handlers then
        && t.status == Threw(ToolNotFound) && t.kernel.log == log && t.kernel.life == s.kernel.life
        && t.kernel.memory == s.kernel.memory && t.kernel.calls == s.kernel.calls
      else Handled(agent, s, log, toolName, args, env.handlers[toolName](|s.kernel.calls|, args), t)
  {
    LiveIteration(env, agent, s);
    TickedLog(env, agent, s);
    TickCountsTicks(s.kernel.quotas, agent);
  }

  // ---- Where a run's tool results come from ----

  /** `tool` logs what the handler it names returned as the environment's call number `n`. */
  ghost predicate ReturnedBy(env: Env, tool: LogEntry, n: nat) {
    && tool.event.ToolLogged? && tool.event.toolName in env.handlers
    && env.handlers[tool.event.toolName](n, tool.event.args).ending == Returned(tool.event.toolResult)
  }

  /** Round by round, the results logged are those of the handlers, called once each and in that order
      after the calls `before`; only a last call that failed can come on top. */
  ghost predicate FromHandlers(env: Env, agent: AgentId, before: seq<ToolCall>, rounds: seq<Round>, x: Loop) {
    var calls := x.kernel.calls;
    && before <= calls
    && |before| + |rounds| <= |calls| <= |before| + |rounds| + (if x.status.Running? then 0 else 1)
    && forall i | 0 <= i < |rounds| ::
         && ReturnedBy(env, rounds[i].tool, |before| + i)
         && calls[|before| + i] == ToolCall(agent, rounds[i].tool.event.toolName, rounds[i].tool.event.args)
  }

  /** At most one call an iteration; a running one logged what its handler returned. */
  lemma IterationCalls(env: Env, agent: AgentId, s: Loop)
    requires Ticking(agent, s)
    ensures var t := Iterate(env, Live, agent, s);
      if t.status.Running? then
        && OutputAt(env, agent, s).PendingTool? && t.instruction.Return?
        && var PendingTool(toolName, args) := OutputAt(env, agent, s);
           && toolName in env.handlers
           && env.handlers[toolName](|s.kernel.calls|, args).ending == Returned(t.instruction.value)
           && t.kernel.calls == s.kernel.calls + [ToolCall(agent, toolName, args)]
      else s.kernel.calls <= t.kernel.calls && |t.kernel.calls| <= |s.kernel.calls| + 1
  {
    if !TickAdmitted(s.kernel.quotas, agent) {
      RefusedTickWritten(env, agent, s);
    } else if OutputAt(env, agent, s).PendingTool? {
      ToolCallWritten(env, agent, s);
    } else {
      ExitWritten(env, agent, s);
    }
  }

  lemma IterationFromHandlers(env: Env, agent: AgentId, before: seq<ToolCall>, rounds: seq<Round>, s: Loop,
                              t: Loop, rounds': seq<Round>)
    requires Ticking(agent, s) && t == Iterate(env, Live, agent, s) && FromHandlers(env, agent, before, rounds, s)
    requires if t.status.Running? then RoundAdded(env, agent, s, t, rounds, rounds') else rounds' == rounds
    ensures FromHandlers(env, agent, before, rounds', t)
  {
    IterationCalls(env, agent, s);
    if t.status.Running? {
      IterationAdvances(env, agent, s);
      var round := rounds'[|rounds|];
      assert rounds' == rounds + [round];
      assert ReturnedBy(env, round.tool, |before| + |rounds|);
    }
  }

  /** In every LIVE run, of any engine and tools: the result logged in round i is what its handler returned
      on call number |k.calls| + i, and handlers were called for nothing else, but for a last failed call. */
  lemma ResultsComeFromHandlers(env: Env, k: Kernel, agent: AgentId, first: Instruction, n: nat)
    returns (rounds: seq<Round>, tail: seq<LogEntry>)
    ensures var x := Run(env, Live, agent, Begin(k, agent, first), n);
      Shaped(env, agent, x, TraceOf(k.log, agent), rounds, tail, first) && FromHandlers(env, agent, k.calls, rounds, x)
  {
    var s := Begin(k, agent, first);
    var step := Step(env, Live, agent);
    var inv := (x: Loop) => Explained(env, agent, k, first, x);
    BeginExplained(env, k, agent, first);
    forall x | inv(x) ensures inv(step(x)) {
      if x.status.Running? { StepExplained(env, agent, k, first, x); }
    }
    RepeatKeeps(step, inv, s, n);
    var x := Run(env, Live, agent, s, n);
    rounds, tail :| Shaped(env, agent, x, TraceOf(k.log, agent), rounds, tail, first)
      && FromHandlers(env, agent, k.calls, rounds, x);
  }

  ghost predicate Explained(env: Env, agent: AgentId, k: Kernel, first: Instruction, x: Loop) {
    exists rounds, tail :: Shaped(env, agent, x, TraceOf(k.log, agent), rounds, tail, first)
      && FromHandlers(env, agent, k.calls, rounds, x)
  }

  lemma BeginExplained(env: Env, k: Kernel, agent: AgentId, first: Instruction)
    ensures Explained(env, agent, k, first, Begin(k, agent, first))
  {
    var before := TraceOf(k.log, agent);
    assert before == before + [] + [];
    assert Shaped(env, agent, Begin(k, agent, first), before, [], [], first);
    assert FromHandlers(env, agent, k.calls, [], Begin(k, agent, first));
  }

  lemma StepExplained(env: Env, agent: AgentId, k: Kernel, first: Instruction, x: Loop)
    requires x.status.Running? && Explained(env, agent, k, first, x)
    ensures Explained(env, agent, k, first, Iterate(env, Live, agent, x))
  {
    var rounds, tail :| Shaped(env, agent, x, TraceOf(k.log, agent), rounds, tail, first)
      && FromHandlers(env, agent, k.calls, rounds, x);
    var t := Iterate(env, Live, agent, x);
    IterationAdvances(env, agent, x);
    var rounds', tail' := AdvanceKeepsShape(env, agent, x, t, TraceOf(k.log, agent), rounds, first);
    IterationFromHandlers(env, agent, k.calls, rounds, x, t, rounds');
  }

  // ---- The kernel's own engine, end to end ----

  ghost predicate OwnEngine(env: Env) {
    forall input :: env.tick(input) == RunTick(input)
  }

  /** The engine's answer to each instruction, and the state in which it leaves the agent. */
  lemma OwnEngineAnswers(env: Env, agent: AgentId, s: Loop)
    requires OwnEngine(env) && Ticking(agent, s) && TickAdmitted(s.kernel.quotas, agent) && !s.instruction.CallTool?
    ensures var t := Iterate(env, Live, agent, s);
      var (output, state) := match s.instruction
        case Noop => (Completed(Null), Terminated)
        case Return(value) => (Completed(value), Terminated)
        case Delegate(target, payload) => (PendingDelegation(target, payload), Waiting)
        case Unknown(_) => (Failed(Ascii("UNKNOWN_INSTRUCTION")), Faulted);
      && t.status == Left && StateOf(t.kernel.life, agent) == state
      && TraceOf(t.kernel.log, agent) == TraceOf(s.kernel.log, agent)
         + [LogEntry(agent, |s.kernel.log| + 1,
                     TickLogged(s.sequenceNumber, s.instruction, output,
                                env.hash(output, Active, SnapshotOf(s.kernel.memory, agent))))]
  {
    IterationAdvances(env, agent, s);
    TickedLog(env, agent, s);
  }

  /** CALL_TOOL with a handler that returns `v`: the result is logged, fed back, and is what the agent
      completes with. */
  lemma OwnEngineCallsTool(env: Env, agent: AgentId, k: Kernel, toolName: Text, args: Json, v: Json)
    requires OwnEngine(env) && StateOf(k.life, agent) == Active && agent !in k.quotas.limits
    requires toolName in env.handlers && env.handlers[toolName](|k.calls|, args).ending == Returned(v)
    ensures var x := Run(env, Live, agent, Begin(k, agent, CallTool(toolName, args)), 2);
      var trace, before := TraceOf(x.kernel.log, agent), TraceOf(k.log, agent);
      && x.status == Left && StateOf(x.kernel.life, agent) == Terminated
      && x.kernel.calls == k.calls + [ToolCall(agent, toolName, args)]
      && |trace| == |before| + 3 && before <= trace
      && trace[|before|].event.TickLogged? && trace[|before|].event.output == PendingTool(toolName, args)
      && trace[|before| + 1].event == ToolLogged(1, toolName, args, v)
      && trace[|before| + 2].event.TickLogged? && trace[|before| + 2].event.sequenceNumber == 2
      && trace[|before| + 2].event.instruction == Return(v) && trace[|before| + 2].event.output == Completed(v)
  {
    var s, step := Begin(k, agent, CallTool(toolName, args)), Step(env, Live, agent);
    var t := step(s);
    AskedTool(env, agent, s, toolName, args, v);
    OwnEngineAnswers(env, agent, t);
    IterationCalls(env, agent, t);
    ExitWritten(env, agent, t);
    assert Repeat(step, s, 2) == Repeat(step, t, 1) == Repeat(step, step(t), 0);
  }

  lemma AskedTool(env: Env, agent: AgentId, s: Loop, toolName: Text, args: Json, v: Json)
    requires OwnEngine(env) && Ticking(agent, s) && agent !in s.kernel.quotas.limits
    requires s.instruction == CallTool(toolName, args)
    requires toolName in env.handlers && env.handlers[toolName](|s.kernel.calls|, args).ending == Returned(v)
    ensures var t := Iterate(env, Live, agent, s);
      var trace, before := TraceOf(t.kernel.log, agent), TraceOf(s.kernel.log, agent);
      && Ticking(agent, t) && agent !in t.kernel.quotas.limits
      && t.sequenceNumber == s.sequenceNumber + 1 && t.instruction == Return(v)
      && t.kernel.calls == s.kernel.calls + [ToolCall(agent, toolName, args)]
      && |trace| == |before| + 2 && before <= trace
      && trace[|before|].event.TickLogged? && trace[|before|].event.output == PendingTool(toolName, args)
      && trace[|before| + 1].event == ToolLogged(s.sequenceNumber, toolName, args, v)
  {
    assert OutputAt(env, agent, s) == PendingTool(toolName, args);
    ToolCallWritten(env, agent, s);
    IterationAdvances(env, agent, s);
    IterationCounts(env, Live, agent, s);
  }
}

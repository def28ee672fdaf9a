/** What a LIVE run leaves in the log: its exact shape, its exits and its budget. */
module LiveRuns {
  import opened Texts
  import opened Values
  import opened Ticks
  import opened Lifecycles
  import opened Log
  import opened Memory
  import opened Quotas
  import opened Execution

  // ---- The trace of one agent: its TICK_OUTPUT and TOOL_RESULT entries ----

  predicate Traced(e: LogEntry, agent: AgentId) {
    e.agentId == agent && (e.event.TickLogged? || e.event.ToolLogged?)
  }

  function TraceOf(log: seq<LogEntry>, agent: AgentId): seq<LogEntry> {
    if log == [] then []
    else if Traced(log[0], agent) then [log[0]] + TraceOf(log[1..], agent)
    else TraceOf(log[1..], agent)
  }

  lemma {:induction false} TraceConcat(p: seq<LogEntry>, q: seq<LogEntry>, agent: AgentId)
    ensures TraceOf(p + q, agent) == TraceOf(p, agent) + TraceOf(q, agent)
  {
    if p == [] {
      assert p + q == q;
    } else {
      assert (p + q)[1..] == p[1..] + q;
      TraceConcat(p[1..], q, agent);
    }
  }

  lemma TraceAppend(log: seq<LogEntry>, agent: AgentId, author: AgentId, event: Event)
    ensures var e := LogEntry(author, |log| + 1, event);
      TraceOf(Append(log, author, event), agent) == TraceOf(log, agent) + (if Traced(e, agent) then [e] else [])
  {
    var e := LogEntry(author, |log| + 1, event);
    TraceConcat(log, [e], agent);
    assert [e][1..] == [];
  }

  lemma {:induction false} TraceWriteAll(log: seq<LogEntry>, ops: seq<MemoryOp>, agent: AgentId)
    ensures TraceOf(WriteAllAhead(log, ops), agent) == TraceOf(log, agent)
    decreases |ops|
  {
    if ops != [] {
      match ops[0] {
        case Write(a, key, value, txId) => TraceAppend(log, agent, a, PersistentWrite(txId, key, value));
        case Delete(a, key, txId) => TraceAppend(log, agent, a, PersistentDelete(txId, key));
      }
      TraceWriteAll(WriteAhead(log, ops[0]), ops[1..], agent);
    }
  }

  /** Looking a tick or a tool result up needs only the trace. */
  lemma {:induction false} FirstInTrace(log: seq<LogEntry>, agent: AgentId, p: LogEntry -> bool)
    requires forall e | p(e) :: Traced(e, agent)
    ensures First(TraceOf(log, agent), p) == First(log, p)
  {
    if log != [] {
      FirstInTrace(log[1..], agent, p);
    }
  }

  // ---- One LIVE iteration ----

  function OutputAt(env: Env, agent: AgentId, s: Loop): TickOutput {
    env.tick(TickInput(agent, s.sequenceNumber, s.instruction, MAX_STEPS))
  }

  function TickEntry(env: Env, agent: AgentId, s: Loop): LogEntry {
    var output := OutputAt(env, agent, s);
    LogEntry(agent, |s.kernel.log| + 1,
             TickLogged(s.sequenceNumber, s.instruction, output, StateHash(env, s.kernel, agent, output)))
  }

  /** The kernel after the tick was counted and logged. */
  function Ticked(env: Env, agent: AgentId, s: Loop): Kernel {
    s.kernel.(quotas := TickCounted(s.kernel.quotas, agent), log := s.kernel.log + [TickEntry(env, agent, s)])
  }

  lemma TransitionTrace(k: Kernel, agent: AgentId, trigger: Trigger)
    requires Transition(k, agent, trigger).Some?
    ensures TraceOf(Transition(k, agent, trigger).value.log, agent) == TraceOf(k.log, agent)
  {
    var to := StateOf(Fire(k.life, agent, trigger).value, agent);
    TraceAppend(k.log, agent, agent, LifecycleTransition(StateOf(k.life, agent), to, trigger));
  }

  /** Leaving the loop from ACTIVE: the state reached, and a trace left alone. */
  lemma ExitFromActive(agent: AgentId, s: Loop, triggers: seq<Trigger>, state: AgentState)
    requires StateOf(s.kernel.life, agent) == Active
    requires (triggers, state) in
      {([Complete, TeardownOk], Terminated), ([Trigger.Error], Faulted), ([Yield], Waiting)}
    ensures var t := Exit(Live, agent, s, triggers, state);
      && t.status == Left && StateOf(t.kernel.life, agent) == state
      && TraceOf(t.kernel.log, agent) == TraceOf(s.kernel.log, agent)
      && t == s.(kernel := t.kernel, status := Left)
      && t.kernel == s.kernel.(log := t.kernel.log, life := t.kernel.life)
  {
    var k1 := Transition(s.kernel, agent, triggers[0]).value;
    TransitionTrace(s.kernel, agent, triggers[0]);
    assert TransitionAll(s.kernel, agent, triggers) == TransitionAll(k1, agent, triggers[1..]);
    if |triggers| == 2 {
      TransitionTrace(k1, agent, triggers[1]);
      var k2 := Transition(k1, agent, triggers[1]).value;
      assert TransitionAll(k1, agent, triggers[1..]) == TransitionAll(k2, agent, []);
    } else {
      assert triggers[1..] == [];
    }
  }

  /** A refused quota faults the agent and leaves the trace alone. */
  lemma AbortFromActive(agent: AgentId, s: Loop)
    requires StateOf(s.kernel.life, agent) == Active
    ensures var t := QuotaAbort(Live, agent, s);
      && t.status == Threw(QuotaExceeded) && StateOf(t.kernel.life, agent) == Faulted
      && TraceOf(t.kernel.log, agent) == TraceOf(s.kernel.log, agent)
      && t == s.(kernel := t.kernel, status := t.status)
      && t.kernel == s.kernel.(log := t.kernel.log, life := t.kernel.life)
  {
    TransitionTrace(s.kernel, agent, Trigger.Error);
  }

  /** The tool call of an iteration: answered and logged, refused by quota, or failed. */
  lemma ToolCallFromActive(env: Env, agent: AgentId, s: Loop, toolName: Text, args: Json)
    requires s.status.Running? && StateOf(s.kernel.life, agent) == Active
    ensures var t := Dispatch(env, Live, agent, s, PendingTool(toolName, args));
      var trace := TraceOf(s.kernel.log, agent);
      var trace' := TraceOf(t.kernel.log, agent);
      && t.inputs == s.inputs
      && UsageOf(t.kernel.quotas, agent) == UsageOf(ToolCallCounted(s.kernel.quotas, agent), agent)
      && t.kernel.quotas.limits == s.kernel.quotas.limits
      && if t.status.Running? then
           && ToolCallAdmitted(s.kernel.quotas, agent)
           && t.kernel.life == s.kernel.life
           && t.sequenceNumber == s.sequenceNumber + 1 && t.instruction.Return?
           && |trace'| == |trace| + 1 && trace <= trace'
           && trace'[|trace|].agentId == agent
           && trace'[|trace|].event == ToolLogged(s.sequenceNumber, toolName, args, t.instruction.value)
         else
           && trace' == trace
           && t.sequenceNumber == s.sequenceNumber && t.instruction == s.instruction
           && if !ToolCallAdmitted(s.kernel.quotas, agent) then
                t.status == Threw(QuotaExceeded) && StateOf(t.kernel.life, agent) == Faulted
              else
                || (t.status in {Threw(ToolNotFound), Threw(HandlerThrew)} && t.kernel.life == s.kernel.life)
                || (t.status == Threw(HandlerOverQuota) && StateOf(t.kernel.life, agent) == Faulted)
  {
    var k := s.kernel.(quotas := ToolCallCounted(s.kernel.quotas, agent));
    if !ToolCallAdmitted(s.kernel.quotas, agent) {
      AbortFromActive(agent, s.(kernel := k));
    } else if toolName in env.handlers {
      var outcome := env.handlers[toolName](|k.calls|, args);
      TraceWriteAll(k.log, outcome.ops, agent);
      if outcome.ending.Returned? {
        TraceAppend(WriteAllAhead(k.log, outcome.ops), agent, agent,
                    ToolLogged(s.sequenceNumber, toolName, args, outcome.ending.value));
      } else {
        AbortFromActive(agent, s.(kernel := Invoked(k, agent, toolName, args, outcome.ops)));
      }
    }
  }

  lemma TickedTrace(env: Env, agent: AgentId, s: Loop)
    ensures TraceOf(Ticked(env, agent, s).log, agent) == TraceOf(s.kernel.log, agent) + [TickEntry(env, agent, s)]
    ensures Ticked(env, agent, s).life == s.kernel.life
  {
    TraceAppend(s.kernel.log, agent, agent, TickEntry(env, agent, s).event);
  }

  /** An admitted LIVE iteration counts and logs its tick, then dispatches. */
  lemma LiveIteration(env: Env, agent: AgentId, s: Loop)
    requires s.status.Running? && TickAdmitted(s.kernel.quotas, agent)
    ensures Iterate(env, Live, agent, s) ==
      Dispatch(env, Live, agent,
               s.(kernel := Ticked(env, agent, s),
                  inputs := s.inputs + [TickInput(agent, s.sequenceNumber, s.instruction, MAX_STEPS)]),
               OutputAt(env, agent, s))
  {
    var output := OutputAt(env, agent, s);
    var counted := s.kernel.(quotas := TickCounted(s.kernel.quotas, agent));
    assert StateHash(env, counted, agent, output) == StateHash(env, s.kernel, agent, output);
  }

  /** How an iteration of an ACTIVE agent can end, and in which lifecycle state. */
  ghost predicate Exits(t: Loop, agent: AgentId, output: TickOutput) {
    var state := StateOf(t.kernel.life, agent);
    match t.status
    case Running => state == Active && output.PendingTool?
    case Left =>
      state == (if output.Completed? then Terminated else if output.Failed? then Faulted else Waiting)
      && !output.PendingTool?
    case Threw(QuotaExceeded) => state == Faulted
    case Threw(ToolNotFound) => state == Active && output.PendingTool?
    case Threw(HandlerThrew) => state == Active && output.PendingTool?
    case Threw(HandlerOverQuota) => state == Faulted && output.PendingTool?
    case Threw(_) => false
  }

  /** One LIVE iteration of an ACTIVE agent, from `s` to `t`: what it adds to the trace, what the next
      tick is fed, and how the loop can end. */
  ghost predicate Advances(env: Env, agent: AgentId, s: Loop, t: Loop) {
    var output := OutputAt(env, agent, s);
    var trace := TraceOf(s.kernel.log, agent);
    var trace' := TraceOf(t.kernel.log, agent);
    && (!t.status.Running? ==> t.sequenceNumber == s.sequenceNumber && t.instruction == s.instruction)
    && if !TickAdmitted(s.kernel.quotas, agent) then
         && trace' == trace && t.inputs == s.inputs
         && t.status == Threw(QuotaExceeded) && StateOf(t.kernel.life, agent) == Faulted
       else
         && t.inputs == s.inputs + [TickInput(agent, s.sequenceNumber, s.instruction, MAX_STEPS)]
         && Exits(t, agent, output)
         && if t.status.Running? then
              && |trace'| == |trace| + 2
              && trace' == trace + [TickEntry(env, agent, s), trace'[|trace| + 1]]
              && trace'[|trace| + 1].agentId == agent
              && t.sequenceNumber == s.sequenceNumber + 1 && t.instruction.Return?
              && trace'[|trace| + 1].event
                 == ToolLogged(s.sequenceNumber, output.toolName, output.args, t.instruction.value)
            else trace' == trace + [TickEntry(env, agent, s)]
  }

  lemma IterationAdvances(env: Env, agent: AgentId, s: Loop)
    requires s.status.Running? && StateOf(s.kernel.life, agent) == Active
    ensures Advances(env, agent, s, Iterate(env, Live, agent, s))
  {
    if !TickAdmitted(s.kernel.quotas, agent) {
      AbortFromActive(agent, s.(kernel := s.kernel.(quotas := TickCounted(s.kernel.quotas, agent))));
    } else if OutputAt(env, agent, s).PendingTool? {
      ToolIterationAdvances(env, agent, s);
    } else {
      ExitIterationAdvances(env, agent, s);
    }
  }

  lemma ToolIterationAdvances(env: Env, agent: AgentId, s: Loop)
    requires s.status.Running? && StateOf(s.kernel.life, agent) == Active
    requires TickAdmitted(s.kernel.quotas, agent) && OutputAt(env, agent, s).PendingTool?
    ensures Advances(env, agent, s, Iterate(env, Live, agent, s))
  {
    LiveIteration(env, agent, s);
    TickedTrace(env, agent, s);
    var s2 := s.(kernel := Ticked(env, agent, s),
                 inputs := s.inputs + [TickInput(agent, s.sequenceNumber, s.instruction, MAX_STEPS)]);
    var output := OutputAt(env, agent, s);
    ToolCallFromActive(env, agent, s2, output.toolName, output.args);
  }

  lemma ExitIterationAdvances(env: Env, agent: AgentId, s: Loop)
    requires s.status.Running? && StateOf(s.kernel.life, agent) == Active
    requires TickAdmitted(s.kernel.quotas, agent) && !OutputAt(env, agent, s).PendingTool?
    ensures Advances(env, agent, s, Iterate(env, Live, agent, s))
  {
    LiveIteration(env, agent, s);
    TickedTrace(env, agent, s);
    var s2 := s.(kernel := Ticked(env, agent, s),
                 inputs := s.inputs + [TickInput(agent, s.sequenceNumber, s.instruction, MAX_STEPS)]);
    match OutputAt(env, agent, s) {
      case Completed(_) => ExitFromActive(agent, s2, [Complete, TeardownOk], Terminated);
      case Failed(_) => ExitFromActive(agent, s2, [Trigger.Error], Faulted);
      case PendingDelegation(_, _) => ExitFromActive(agent, s2, [Yield], Waiting);
      case PendingTool(_, _) =>
    }
  }

  // ---- Whole LIVE runs ----

  /** A tick that asked for a tool and was answered: its TICK_OUTPUT and its TOOL_RESULT. */
  datatype Round = Round(tick: LogEntry, tool: LogEntry)

  function Entries(rounds: seq<Round>): seq<LogEntry> {
    if rounds == [] then []
    else
      var last := rounds[|rounds| - 1];
      Entries(rounds[..|rounds| - 1]) + [last.tick, last.tool]
  }

  /** What the loop feeds the engine after some rounds: the initial instruction, or a RETURN of the
      result logged last. */
  function InputAfter(agent: AgentId, rounds: seq<Round>, first: Instruction): TickInput {
    var instruction := if rounds == [] then first else Return(ToolResultOf(rounds[|rounds| - 1].tool));
    TickInput(agent, |rounds| + 1, instruction, MAX_STEPS)
  }

  function InputsOf(agent: AgentId, rounds: seq<Round>, first: Instruction): seq<TickInput> {
    if rounds == [] then []
    else
      var before := rounds[..|rounds| - 1];
      InputsOf(agent, before, first) + [InputAfter(agent, before, first)]
  }

  /** `e` logs the engine's answer to the input after `rounds`. */
  ghost predicate TicksAfter(env: Env, agent: AgentId, rounds: seq<Round>, e: LogEntry, first: Instruction) {
    var input := InputAfter(agent, rounds, first);
    && e.agentId == agent && e.event.TickLogged?
    && e.event.sequenceNumber == input.sequenceNumber
    && e.event.instruction == input.instruction
    && e.event.output == env.tick(input)
  }

  /** The tool result answers the request of the tick logged before it. */
  ghost predicate Answers(agent: AgentId, tick: LogEntry, tool: LogEntry) {
    && tool.agentId == agent && tool.event.ToolLogged? && tick.event.TickLogged?
    && tool.event.sequenceNumber == tick.event.sequenceNumber
    && tick.event.output == PendingTool(tool.event.toolName, tool.event.args)
  }

  /** The rounds are the loop's dialogue with the engine and the tools, numbered from 1. */
  ghost predicate Dialogue(env: Env, agent: AgentId, rounds: seq<Round>, first: Instruction) {
    rounds != [] ==>
      var before, last := rounds[..|rounds| - 1], rounds[|rounds| - 1];
      && Dialogue(env, agent, before, first)
      && TicksAfter(env, agent, before, last.tick, first)
      && Answers(agent, last.tick, last.tool)
  }

  /** Entry by entry: ticks and tool results alternate with contiguous numbers from 1, and every tick
      after the first was fed the result logged just before it. */
  lemma {:induction false} DialogueAt(env: Env, agent: AgentId, rounds: seq<Round>, first: Instruction, i: nat)
    requires Dialogue(env, agent, rounds, first) && i < |rounds|
    ensures |Entries(rounds)| == 2 * |rounds|
    ensures Entries(rounds)[2 * i] == rounds[i].tick && Entries(rounds)[2 * i + 1] == rounds[i].tool
    ensures rounds[i].tick.event.TickLogged? && rounds[i].tool.event.ToolLogged?
    ensures rounds[i].tick.event.sequenceNumber == i + 1 == rounds[i].tool.event.sequenceNumber
    ensures rounds[i].tick.event.instruction == if i == 0 then first else Return(ToolResultOf(rounds[i - 1].tool))
    ensures rounds[i].tick.event.output == PendingTool(rounds[i].tool.event.toolName, rounds[i].tool.event.args)
  {
    var n := |rounds| - 1;
    if i < n {
      DialogueAt(env, agent, rounds[..n], first, i);
    } else if n > 0 {
      DialogueAt(env, agent, rounds[..n], first, n - 1);
    }
  }

  /** The loop has logged `rounds`, and then perhaps one last tick, on top of `before`. */
  ghost predicate Shaped(env: Env, agent: AgentId, s: Loop, before: seq<LogEntry>,
                         rounds: seq<Round>, tail: seq<LogEntry>, first: Instruction)
  {
    && TraceOf(s.kernel.log, agent) == before + Entries(rounds) + tail
    && Dialogue(env, agent, rounds, first)
    && (tail != [] ==> |tail| == 1 && TicksAfter(env, agent, rounds, tail[0], first))
    && s.inputs == InputsOf(agent, rounds, first) + (if tail == [] then [] else [InputAfter(agent, rounds, first)])
    && (s.status.Running? ==> Ready(agent, s, rounds, tail, first))
  }

  ghost predicate Ready(agent: AgentId, s: Loop, rounds: seq<Round>, tail: seq<LogEntry>, first: Instruction) {
    && tail == []
    && StateOf(s.kernel.life, agent) == Active
    && TickInput(agent, s.sequenceNumber, s.instruction, MAX_STEPS) == InputAfter(agent, rounds, first)
  }

  /** The round of the iteration from `s` to `t`: its tick, and the tool result logged after it. */
  ghost predicate RoundAdded(env: Env, agent: AgentId, s: Loop, t: Loop, rounds: seq<Round>, rounds': seq<Round>) {
    var trace := TraceOf(t.kernel.log, agent);
    trace != [] && rounds' == rounds + [Round(TickEntry(env, agent, s), trace[|trace| - 1])]
  }

  /** How an iteration extends the dialogue: by a round, by a last tick, or not at all. */
  lemma AdvanceKeepsShape(env: Env, agent: AgentId, s: Loop, t: Loop, before: seq<LogEntry>, rounds: seq<Round>, first: Instruction)
    returns (rounds': seq<Round>, tail': seq<LogEntry>)
    requires s.status.Running? && Shaped(env, agent, s, before, rounds, [], first) && Advances(env, agent, s, t)
    ensures Shaped(env, agent, t, before, rounds', tail', first)
    ensures if t.status.Running? then RoundAdded(env, agent, s, t, rounds, rounds') else rounds' == rounds
  {
    var trace := TraceOf(s.kernel.log, agent);
    var trace' := TraceOf(t.kernel.log, agent);
    assert trace == before + Entries(rounds);
    rounds', tail' := rounds, [];
    if TickAdmitted(s.kernel.quotas, agent) {
      var tick := TickEntry(env, agent, s);
      if t.status.Running? {
        var round := Round(tick, trace'[|trace| + 1]);
        rounds' := rounds + [round];
        RoundAppended(agent, rounds, round, first);
        assert trace' == before + Entries(rounds') + [];
      } else {
        tail' := [tick];
        assert trace' == before + Entries(rounds) + [tick];
      }
    }
  }

  lemma RoundAppended(agent: AgentId, rounds: seq<Round>, round: Round, first: Instruction)
    ensures Entries(rounds + [round]) == Entries(rounds) + [round.tick, round.tool]
    ensures InputsOf(agent, rounds + [round], first) == InputsOf(agent, rounds, first) + [InputAfter(agent, rounds, first)]
    ensures (rounds + [round])[..|rounds|] == rounds && (rounds + [round])[|rounds|] == round
  {
    assert (rounds + [round])[..|rounds|] == rounds;
  }

  /** Whatever the engine and the tools do, a LIVE run of any length adds to the agent's trace exactly
      its dialogue with them. */
  lemma LiveRunShape(env: Env, k: Kernel, agent: AgentId, first: Instruction, n: nat)
    returns (rounds: seq<Round>, tail: seq<LogEntry>)
    ensures Shaped(env, agent, Run(env, Live, agent, Begin(k, agent, first), n), TraceOf(k.log, agent), rounds, tail, first)
  {
    var before := TraceOf(k.log, agent);
    var s := Begin(k, agent, first);
    var step := Step(env, Live, agent);
    var inv := (x: Loop) => exists rounds, tail :: Shaped(env, agent, x, before, rounds, tail, first);
    assert before == before + [] + [];
    assert Shaped(env, agent, s, before, [], [], first);
    forall x | inv(x) ensures inv(step(x)) {
      if x.status.Running? {
        var rounds, tail :| Shaped(env, agent, x, before, rounds, tail, first);
        IterationAdvances(env, agent, x);
        var rounds', tail' := AdvanceKeepsShape(env, agent, x, step(x), before, rounds, first);
      }
    }
    RepeatKeeps(step, inv, s, n);
    rounds, tail :| Shaped(env, agent, Run(env, Live, agent, s, n), before, rounds, tail, first);
  }

  // ---- Exits ----

  /** How a run of an ACTIVE agent stands: still ACTIVE while running or after a failed tool call,
      FAULTED by quota or by a tool's error of that name, otherwise in the state its last output calls for. */
  ghost predicate Outcomes(env: Env, agent: AgentId, t: Loop) {
    if t.inputs == [] then
      && t.status in {Running, Threw(QuotaExceeded)}
      && StateOf(t.kernel.life, agent) == (if t.status.Running? then Active else Faulted)
    else Exits(t, agent, env.tick(t.inputs[|t.inputs| - 1]))
  }

  lemma LiveRunOutcomes(env: Env, k: Kernel, agent: AgentId, first: Instruction, n: nat)
    requires StateOf(k.life, agent) == Active
    ensures Outcomes(env, agent, Run(env, Live, agent, Begin(k, agent, first), n))
  {
    var step := Step(env, Live, agent);
    var inv := (x: Loop) => Outcomes(env, agent, x);
    forall x | inv(x) ensures inv(step(x)) {
      if x.status.Running? {
        IterationAdvances(env, agent, x);
        AdvanceHasOutcome(env, agent, x, step(x));
      }
    }
    RepeatKeeps(step, inv, Begin(k, agent, first), n);
  }

  lemma AdvanceHasOutcome(env: Env, agent: AgentId, s: Loop, t: Loop)
    requires s.status.Running? && Outcomes(env, agent, s) && Advances(env, agent, s, t)
    ensures Outcomes(env, agent, t)
  {
  }

  // ---- Termination ----

  lemma {:induction false} TransitionAllQuotas(k: Kernel, agent: AgentId, triggers: seq<Trigger>)
    ensures TransitionAll(k, agent, triggers).0.quotas == k.quotas
    decreases |triggers|
  {
    if triggers != [] && Transition(k, agent, triggers[0]).Some? {
      TransitionAllQuotas(Transition(k, agent, triggers[0]).value, agent, triggers[1..]);
    }
  }

  lemma ExitQuotas(mode: Mode, agent: AgentId, s: Loop, triggers: seq<Trigger>, state: AgentState)
    ensures Exit(mode, agent, s, triggers, state).kernel.quotas == s.kernel.quotas
  {
    TransitionAllQuotas(s.kernel, agent, triggers);
  }

  /** Every iteration counts one tick, and goes on only if the tick was admitted. */
  ghost predicate Counts(agent: AgentId, s: Loop, t: Loop) {
    && t.kernel.quotas.limits == s.kernel.quotas.limits
    && UsageOf(t.kernel.quotas, agent).ticks == UsageOf(s.kernel.quotas, agent).ticks + 1
    && (t.status.Running? ==> TickAdmitted(s.kernel.quotas, agent))
  }

  lemma DispatchTicks(env: Env, mode: Mode, agent: AgentId, s: Loop, output: TickOutput)
    ensures var t := Dispatch(env, mode, agent, s, output);
      && t.kernel.quotas.limits == s.kernel.quotas.limits
      && UsageOf(t.kernel.quotas, agent).ticks == UsageOf(s.kernel.quotas, agent).ticks
  {
    match output {
      case Completed(_) => ExitQuotas(mode, agent, s, [Complete, TeardownOk], Terminated);
      case Failed(_) => ExitQuotas(mode, agent, s, [Trigger.Error], Faulted);
      case PendingDelegation(_, _) => ExitQuotas(mode, agent, s, [Yield], Waiting);
      case PendingTool(_, _) =>
    }
  }

  lemma IterationCounts(env: Env, mode: Mode, agent: AgentId, s: Loop)
    requires s.status.Running?
    ensures Counts(agent, s, Iterate(env, mode, agent, s))
  {
    var counted := s.kernel.(quotas := TickCounted(s.kernel.quotas, agent));
    if TickAdmitted(s.kernel.quotas, agent) {
      var input := TickInput(agent, s.sequenceNumber, s.instruction, MAX_STEPS);
      var output := env.tick(input);
      var s1 := s.(kernel := counted, inputs := s.inputs + [input]);
      var s2 := Recorded(mode, agent, s1, output, StateHash(env, counted, agent, output));
      DispatchTicks(env, mode, agent, s2, output);
    }
  }

  /** With a tick quota set, the loop is over after at most maxTicks - ticks + 1 iterations. */
  lemma QuotaEndsLoop(env: Env, mode: Mode, agent: AgentId, s: Loop, n: nat)
    requires agent in s.kernel.quotas.limits
    requires n > 0 && n > s.kernel.quotas.limits[agent].maxTicks - UsageOf(s.kernel.quotas, agent).ticks
    ensures !Run(env, mode, agent, s, n).status.Running?
  {
    var step := Step(env, mode, agent);
    forall x: Loop ensures x.status.Running? ==> Counts(agent, x, step(x)) {
      if x.status.Running? { IterationCounts(env, mode, agent, x); }
    }
    CountingEnds(step, agent, s, n);
  }

  lemma {:induction false} CountingEnds(step: Loop -> Loop, agent: AgentId, s: Loop, n: nat)
    requires agent in s.kernel.quotas.limits
    requires forall x: Loop :: if x.status.Running? then Counts(agent, x, step(x)) else step(x) == x
    requires n > 0 && n > s.kernel.quotas.limits[agent].maxTicks - UsageOf(s.kernel.quotas, agent).ticks
    ensures !Repeat(step, s, n).status.Running?
    decreases n
  {
    if step(s).status.Running? {
      assert Counts(agent, s, step(s));
      CountingEnds(step, agent, step(s), n - 1);
    } else {
      OverStaysOver(step, step(s), n - 1);
    }
  }

  lemma {:induction false} OverStaysOver(step: Loop -> Loop, s: Loop, n: nat)
    requires !s.status.Running? && step(s) == s
    ensures Repeat(step, s, n) == s
    decreases n
  {
    if n > 0 {
      OverStaysOver(step, s, n - 1);
    }
  }

  /** In either mode the loop goes on only after a tool call, and then with its result. */
  ghost predicate GoesOn(env: Env, agent: AgentId, s: Loop, t: Loop) {
    t.status.Running? ==> OutputAt(env, agent, s).PendingTool? && t.instruction.Return?
  }

  lemma IterationGoesOn(env: Env, mode: Mode, agent: AgentId, s: Loop)
    requires s.status.Running?
    ensures GoesOn(env, agent, s, Iterate(env, mode, agent, s))
  {
    var output := OutputAt(env, agent, s);
    var counted := s.kernel.(quotas := TickCounted(s.kernel.quotas, agent));
    var s1 := s.(kernel := counted,
                 inputs := s.inputs + [TickInput(agent, s.sequenceNumber, s.instruction, MAX_STEPS)]);
    var s2 := Recorded(mode, agent, s1, output, StateHash(env, counted, agent, output));
    if TickAdmitted(s.kernel.quotas, agent) && s2.status.Running? {
      assert Iterate(env, mode, agent, s) == Dispatch(env, mode, agent, s2, output);
    }
  }

  /** The kernel's own engine ends every loop within two ticks, LIVE or REPLAY, quota or not. */
  lemma OwnEngineEndsLoop(env: Env, mode: Mode, agent: AgentId, s: Loop, n: nat)
    requires forall input :: env.tick(input) == RunTick(input)
    requires n >= 2
    ensures !Run(env, mode, agent, s, n).status.Running?
  {
    var step := Step(env, mode, agent);
    forall x: Loop ensures if x.status.Running? then GoesOn(env, agent, x, step(x)) else step(x) == x {
      if x.status.Running? { IterationGoesOn(env, mode, agent, x); }
    }
    TwoTicks(env, step, agent, s, n);
  }

  lemma TwoTicks(env: Env, step: Loop -> Loop, agent: AgentId, s: Loop, n: nat)
    requires forall input :: env.tick(input) == RunTick(input)
    requires forall x: Loop :: if x.status.Running? then GoesOn(env, agent, x, step(x)) else step(x) == x
    requires n >= 2
    ensures !Repeat(step, s, n).status.Running?
  {
    var t := step(s);
    var u := step(t);
    assert Repeat(step, s, n) == Repeat(step, t, n - 1) == Repeat(step, u, n - 2);
    assert s.status.Running? ==> GoesOn(env, agent, s, t);
    assert t.status.Running? ==> GoesOn(env, agent, t, u);
    if t.status.Running? { assert OutputAt(env, agent, t).Completed?; }
    OverStaysOver(step, u, n - 2);
  }
}

/** The agent loop as a state machine over whole kernel states: one iteration of the `while` in
    `runAgentLoop`, LIVE or REPLAY, with the tool gate, quotas and lifecycle exits
    (execution/scheduler.ts, tools/gate.ts). */
module Execution {
  import opened Options
  import opened Texts
  import opened Values
  import opened Canonical
  import opened Ticks
  import opened Lifecycles
  import opened Log
  import opened Memory
  import opened Quotas

  datatype Mode = Live | Replay

  datatype ToolCall = ToolCall(agentId: AgentId, toolName: Text, args: Json)

  /** `calls` is the history of handler invocations; the environment may answer by its length. */
  datatype Kernel = Kernel(
    log: seq<LogEntry>, life: Lifecycle, memory: Memories, quotas: QuotaState, calls: seq<ToolCall>)

  /** How a handler ends: with a result, or with an error of some name. */
  datatype Ending = Returned(value: Json) | Raised(name: Text)

  /** What one handler invocation does: writes to persistent memory, then its ending. */
  datatype Outcome = Outcome(ops: seq<MemoryOp>, ending: Ending)

  type Handler = (nat, Json) -> Outcome

  /** The tick engine, the tools and the state hash are arbitrary functions; `UsesHashState` says that
      the hash is the kernel's. */
  datatype Env = Env(
    tick: TickInput -> TickOutput, handlers: map<Text, Handler>, hash: (TickOutput, AgentState, JsonRecord) -> Text)

  datatype Failure =
    | NotActive | QuotaExceeded | ReplayMissingLog | CryptographicDivergence
    | ToolNotFound | HandlerThrew | HandlerOverQuota | ReplayMissingToolResult | LifecycleError

  datatype Status = Running | Left | Threw(failure: Failure)

  /** The loop's variables, the kernel, and the tick inputs so far. */
  datatype Loop = Loop(
    kernel: Kernel, sequenceNumber: nat, instruction: Instruction, status: Status, inputs: seq<TickInput>)

  const MAX_STEPS := 100
  const QUOTA_ERROR := Ascii("QuotaExceededError")

  function Begin(k: Kernel, agent: AgentId, instruction: Instruction): Loop {
    Loop(k, 1, instruction, if StateOf(k.life, agent) == Active then Running else Threw(NotActive), [])
  }

  // ---- Parts of an iteration ----

  /** The object `{ output, lifecycle, memory }` that is hashed at every tick. */
  function StateObject(output: Json, lifecycle: Text, memory: JsonRecord): Json {
    assert Ascii("output")[0] != Ascii("memory")[0] && |Ascii("lifecycle")| != |Ascii("output")|;
    var r := [Field(Ascii("output"), output), Field(Ascii("lifecycle"), Str(lifecycle)),
              Field(Ascii("memory"), Obj(memory))];
    assert ValidRecord(r);
    Obj(r)
  }

  function KernelState(output: TickOutput, state: AgentState, memory: JsonRecord): Json {
    StateObject(OutputValue(output), StateName(state), memory)
  }

  /** `hashState`: the digest of the canonical text. */
  function HashState(sha: Text -> Text, state: Json): Text {
    sha(StableStringify(state))
  }

  ghost predicate UsesHashState(env: Env, sha: Text -> Text) {
    forall output, state, memory ::
      env.hash(output, state, memory) == HashState(sha, KernelState(output, state, memory))
  }

  function StateHash(env: Env, k: Kernel, agent: AgentId, output: TickOutput): Text {
    env.hash(output, StateOf(k.life, agent), SnapshotOf(k.memory, agent))
  }

  function Logged(k: Kernel, agent: AgentId, event: Event): Kernel {
    k.(log := Append(k.log, agent, event))
  }

  /** `lifecycle.transition`: log, then update; `None` where it throws. */
  function Transition(k: Kernel, agent: AgentId, trigger: Trigger): Option<Kernel> {
    match Fire(k.life, agent, trigger)
    case None => None
    case Some(life) =>
      var event := LifecycleTransition(StateOf(k.life, agent), StateOf(life, agent), trigger);
      Some(Logged(k, agent, event).(life := life))
  }

  /** REPLAY sets the state map directly and logs nothing. */
  function Forced(k: Kernel, agent: AgentId, state: AgentState): Kernel {
    k.(life := k.life.(states := k.life.states[agent := state]))
  }

  /** Fire triggers in order, up to the first that throws. */
  function TransitionAll(k: Kernel, agent: AgentId, triggers: seq<Trigger>): (Kernel, bool)
    decreases |triggers|
  {
    if triggers == [] then (k, true)
    else
      match Transition(k, agent, triggers[0])
      case None => (k, false)
      case Some(k') => TransitionAll(k', agent, triggers[1..])
  }

  function Exit(mode: Mode, agent: AgentId, s: Loop, triggers: seq<Trigger>, state: AgentState): Loop {
    match mode
    case Replay => s.(kernel := Forced(s.kernel, agent, state), status := Left)
    case Live =>
      var (k, ok) := TransitionAll(s.kernel, agent, triggers);
      s.(kernel := k, status := if ok then Left else Threw(LifecycleError))
  }

  /** The `catch` of the loop for a QuotaExceededError. */
  function QuotaAbort(mode: Mode, agent: AgentId, s: Loop): Loop {
    match mode
    case Replay => s.(kernel := Forced(s.kernel, agent, Faulted), status := Threw(QuotaExceeded))
    case Live =>
      match Transition(s.kernel, agent, Trigger.Error)
      case None => s.(status := Threw(QuotaExceeded))
      case Some(k) => s.(kernel := k, status := Threw(QuotaExceeded))
  }

  /** The `catch` goes by the error's name, so a handler's error can pass for an exceeded quota. */
  function Caught(mode: Mode, agent: AgentId, s: Loop, failure: Failure): Loop {
    (if failure == HandlerOverQuota then QuotaAbort(mode, agent, s) else s).(status := Threw(failure))
  }

  /** A handler has run: its writes are in the store and the log. */
  function Invoked(k: Kernel, agent: AgentId, toolName: Text, args: Json, ops: seq<MemoryOp>): Kernel {
    k.(log := WriteAllAhead(k.log, ops),
       memory := PerformAll(k.memory, ops),
       calls := k.calls + [ToolCall(agent, toolName, args)])
  }

  datatype GateResult = Answer(value: Json) | Refusal(failure: Failure)

  function Gate(env: Env, mode: Mode, k: Kernel, agent: AgentId, sequenceNumber: nat, toolName: Text, args: Json):
    (Kernel, GateResult)
  {
    match mode
    case Live =>
      if toolName !in env.handlers then (k, Refusal(ToolNotFound))
      else
        var outcome := env.handlers[toolName](|k.calls|, args);
        var k' := Invoked(k, agent, toolName, args, outcome.ops);
        (match outcome.ending
         case Raised(name) => (k', Refusal(if name == QUOTA_ERROR then HandlerOverQuota else HandlerThrew))
         case Returned(v) => (Logged(k', agent, ToolLogged(sequenceNumber, toolName, args, v)), Answer(v)))
    case Replay =>
      match First(k.log, ToolAt(agent, sequenceNumber))
      case None => (k, Refusal(ReplayMissingToolResult))
      case Some(e) => (k, Answer(ToolResultOf(e)))
  }

  function ToolResultOf(e: LogEntry): Json {
    if e.event.ToolLogged? then e.event.toolResult else Null
  }

  function StateHashOf(e: LogEntry): Text {
    if e.event.TickLogged? then e.event.stateHash else []
  }

  /** The `switch` on the tick output. */
  function Dispatch(env: Env, mode: Mode, agent: AgentId, s: Loop, output: TickOutput): Loop {
    match output
    case Completed(_) => Exit(mode, agent, s, [Complete, TeardownOk], Terminated)
    case Failed(_) => Exit(mode, agent, s, [Trigger.Error], Faulted)
    case PendingDelegation(_, _) => Exit(mode, agent, s, [Yield], Waiting)
    case PendingTool(toolName, args) =>
      var k := s.kernel.(quotas := ToolCallCounted(s.kernel.quotas, agent));
      if !ToolCallAdmitted(s.kernel.quotas, agent) then QuotaAbort(mode, agent, s.(kernel := k))
      else
        match Gate(env, mode, k, agent, s.sequenceNumber, toolName, args)
        case (k', Refusal(failure)) => Caught(mode, agent, s.(kernel := k'), failure)
        case (k', Answer(v)) =>
          s.(kernel := k', sequenceNumber := s.sequenceNumber + 1, instruction := Return(v))
  }

  /** The log or hash check of one tick: LIVE records, REPLAY compares. */
  function Recorded(mode: Mode, agent: AgentId, s: Loop, output: TickOutput, stateHash: Text): Loop {
    match mode
    case Live =>
      s.(kernel := Logged(s.kernel, agent, TickLogged(s.sequenceNumber, s.instruction, output, stateHash)))
    case Replay =>
      match First(s.kernel.log, TickAt(agent, s.sequenceNumber))
      case None => s.(status := Threw(ReplayMissingLog))
      case Some(e) => if StateHashOf(e) == stateHash then s else s.(status := Threw(CryptographicDivergence))
  }

  /** One iteration of the loop. */
  function Iterate(env: Env, mode: Mode, agent: AgentId, s: Loop): Loop
    requires s.status.Running?
  {
    var counted := s.kernel.(quotas := TickCounted(s.kernel.quotas, agent));
    if !TickAdmitted(s.kernel.quotas, agent) then QuotaAbort(mode, agent, s.(kernel := counted))
    else
      var input := TickInput(agent, s.sequenceNumber, s.instruction, MAX_STEPS);
      var output := env.tick(input);
      var s1 := s.(kernel := counted, inputs := s.inputs + [input]);
      var s2 := Recorded(mode, agent, s1, output, StateHash(env, counted, agent, output));
      if s2.status.Running? then Dispatch(env, mode, agent, s2, output) else s2
  }

  /** An iteration, or nothing once the loop is over. */
  function Step(env: Env, mode: Mode, agent: AgentId): Loop -> Loop {
    (s: Loop) => if s.status.Running? then Iterate(env, mode, agent, s) else s
  }

  function Repeat(step: Loop -> Loop, s: Loop, n: nat): Loop
    decreases n
  {
    if n == 0 then s else Repeat(step, step(s), n - 1)
  }

  /** At most `n` iterations of the loop. */
  function Run(env: Env, mode: Mode, agent: AgentId, s: Loop, n: nat): Loop {
    Repeat(Step(env, mode, agent), s, n)
  }

  /** What every step keeps, every run keeps. */
  lemma {:induction false} RepeatKeeps(step: Loop -> Loop, inv: Loop -> bool, s: Loop, n: nat)
    requires inv(s) && forall x | inv(x) :: inv(step(x))
    ensures inv(Repeat(step, s, n))
    decreases n
  {
    if n > 0 {
      RepeatKeeps(step, inv, step(s), n - 1);
    }
  }

  lemma {:induction false} RepeatSplits(step: Loop -> Loop, s: Loop, m: nat, n: nat)
    ensures Repeat(step, Repeat(step, s, m), n) == Repeat(step, s, m + n)
    decreases m
  {
    if m > 0 {
      RepeatSplits(step, step(s), m - 1, n);
    }
  }
}

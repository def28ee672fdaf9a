/** The tool gate and the scheduler as objects (tools/gate.ts, execution/scheduler.ts), proved against
    the state machine of module Execution. */
module Schedulers {
  import opened Texts
  import opened Values
  import opened Ticks
  import opened Lifecycles
  import opened LifecycleControllers
  import opened Log
  import opened Memory
  import opened Quotas
  import opened Execution
  import opened LiveRuns
  import opened StateHashes

  class ToolGate {
    const logger: ExecutionLogger
    const mode: Mode
    const handlers: map<Text, Handler>
    /** The store the handlers write to, and the history of their invocations. */
    const store: PersistentStore
    var calls: seq<ToolCall>

    constructor (logger: ExecutionLogger, mode: Mode, handlers: map<Text, Handler>, store: PersistentStore)
      ensures this.logger == logger && this.mode == mode && this.handlers == handlers && this.store == store
      ensures calls == []
    {
      this.logger, this.mode, this.handlers, this.store := logger, mode, handlers, store;
      calls := [];
    }

    /** LIVE calls the handler and logs its result before returning it; REPLAY only looks up. */
    method Execute(agentId: AgentId, sequenceNumber: nat, toolName: Text, args: Json, ghost env: Env, ghost k: Kernel)
      returns (result: GateResult)
      requires logger.Valid() && store.logger == logger
      requires env.handlers == handlers
      requires k.log == logger.logs && k.memory == store.store && k.calls == calls
      modifies this, logger, store
      ensures logger.Valid()
      ensures var (k', r) := Gate(env, mode, k, agentId, sequenceNumber, toolName, args);
        result == r && k' == k.(log := logger.logs, memory := store.store, calls := calls)
    {
      if mode == Live {
        if toolName !in handlers {
          return Refusal(ToolNotFound);
        }
        var outcome := handlers[toolName](|calls|, args);
        store.DoAll(outcome.ops);
        calls := calls + [ToolCall(agentId, toolName, args)];
        if outcome.ending.Raised? {
          return Refusal(if outcome.ending.name == QUOTA_ERROR then HandlerOverQuota else HandlerThrew);
        }
        var _ := logger.Write(agentId, ToolLogged(sequenceNumber, toolName, args, outcome.ending.value));
        return Answer(outcome.ending.value);
      }
      var logs := logger.GetLogsForAgent(agentId);
      var targetLog := FindFirst(logs, ToolAt(agentId, sequenceNumber));
      FirstForAgent(logger.logs, agentId, ToolAt(agentId, sequenceNumber));
      if targetLog.None? {
        return Refusal(ReplayMissingToolResult);
      }
      return Answer(ToolResultOf(targetLog.value));
    }
  }

  class Scheduler {
    const tickEngine: TickInput -> TickOutput
    const sha: Text -> Text
    const mode: Mode
    const logger: ExecutionLogger
    const lifecycle: LifecycleController
    const toolGate: ToolGate
    const persistentStore: PersistentStore
    const quotaEnforcer: QuotaEnforcer

    /** The parts share one log, one store and one mode. */
    ghost predicate Valid()
      reads logger
    {
      && logger.Valid()
      && lifecycle.logger == logger && persistentStore.logger == logger && toolGate.logger == logger
      && toolGate.store == persistentStore && toolGate.mode == mode
    }

    ghost function View(): Kernel
      reads logger, lifecycle, persistentStore, quotaEnforcer, toolGate
    {
      Kernel(logger.logs, lifecycle.View(), persistentStore.store, quotaEnforcer.View(), toolGate.calls)
    }

    ghost function Environment(): Env {
      Env(tickEngine, toolGate.handlers,
          (output, state, memory) => HashState(sha, KernelState(output, state, memory)))
    }

    constructor (tickEngine: TickInput -> TickOutput, sha: Text -> Text, logger: ExecutionLogger,
                 lifecycle: LifecycleController, toolGate: ToolGate, mode: Mode, persistentStore: PersistentStore)
      requires logger.Valid()
      requires lifecycle.logger == logger && persistentStore.logger == logger && toolGate.logger == logger
      requires toolGate.store == persistentStore && toolGate.mode == mode
      ensures Valid() && this.logger == logger && this.toolGate == toolGate && this.lifecycle == lifecycle
      ensures fresh(quotaEnforcer) && quotaEnforcer.View() == QuotaState(map[], map[])
    {
      this.tickEngine, this.sha, this.mode, this.logger := tickEngine, sha, mode, logger;
      this.lifecycle, this.toolGate, this.persistentStore := lifecycle, toolGate, persistentStore;
      quotaEnforcer := new QuotaEnforcer();
    }

    /** What the replay theorems ask of a hash, the kernel's own provides. */
    lemma OwnHashComparesStates()
      ensures Respects(Environment())
      ensures Injective(sha) ==> CollisionFree(Environment())
    {
      assert UsesHashState(Environment(), sha);
      HashStateComparesStates(Environment(), sha);
    }

    method HashKernelState(agentId: AgentId, output: TickOutput) returns (stateHash: Text)
      ensures stateHash == StateHash(Environment(), View(), agentId, output)
    {
      var state := lifecycle.GetState(agentId);
      var memory := persistentStore.Snapshot(agentId);
      stateHash := HashState(sha, KernelState(output, state, memory));
    }

    /** Leaving the loop normally: transitions in LIVE, a direct write to the state map in REPLAY. */
    method Leave(agentId: AgentId, triggers: seq<Trigger>, state: AgentState, ghost s: Loop) returns (status: Status)
      requires Valid() && s.kernel == View()
      modifies logger, lifecycle
      ensures Valid() && var t := Exit(mode, agentId, s, triggers, state); status == t.status && View() == t.kernel
    {
      if mode == Replay {
        lifecycle.Force(agentId, state);
        return Left;
      }
      var i := 0;
      while i < |triggers|
        invariant 0 <= i <= |triggers|
        invariant Valid()
        invariant TransitionAll(s.kernel, agentId, triggers) == TransitionAll(View(), agentId, triggers[i..])
      {
        ghost var k := View();
        var r := lifecycle.Transition(agentId, triggers[i]);
        if r.None? {
          return Threw(LifecycleError);
        }
        assert View() == Transition(k, agentId, triggers[i]).value;
        assert triggers[i..][1..] == triggers[i + 1..];
        i := i + 1;
      }
      return Left;
    }

    /** The catch of the loop for an exceeded quota. */
    method AbortQuota(agentId: AgentId, ghost s: Loop) returns (status: Status)
      requires Valid() && s.kernel == View()
      modifies logger, lifecycle
      ensures Valid() && var t := QuotaAbort(mode, agentId, s); status == t.status && View() == t.kernel
    {
      if mode == Replay {
        lifecycle.Force(agentId, Faulted);
      } else {
        var _ := lifecycle.Transition(agentId, Trigger.Error);
      }
      return Threw(QuotaExceeded);
    }
  
    /** The PENDING_TOOL case: count the call, then ask the gate. */
    method CallTool(agentId: AgentId, sequenceNumber: nat, toolName: Text, args: Json, ghost s: Loop)
      returns (status: Status, next: Json)
      requires Valid() && s.kernel == View() && s.status == Running && s.sequenceNumber == sequenceNumber
      modifies logger, lifecycle, quotaEnforcer, toolGate, persistentStore
      ensures Valid()
      ensures var t := Dispatch(Environment(), mode, agentId, s, PendingTool(toolName, args));
        && status == t.status && View() == t.kernel && t.inputs == s.inputs
        && if status == Running then t.sequenceNumber == sequenceNumber + 1 && t.instruction == Return(next)
           else t.sequenceNumber == s.sequenceNumber && t.instruction == s.instruction
    {
      next := Null;
      ghost var env := Environment();
      var ok := quotaEnforcer.ConsumeToolCall(agentId);
      ghost var k := View();
      if !ok {
        status := AbortQuota(agentId, s.(kernel := k));
        return;
      }
      var result := toolGate.Execute(agentId, sequenceNumber, toolName, args, env, k);
      match result {
        case Refusal(failure) =>
          if failure == HandlerOverQuota {
            var _ := AbortQuota(agentId, s.(kernel := View()));
          }
          status := Threw(failure);
        case Answer(value) => status, next := Running, value;
      }
    }

    /** The tick itself: run the engine, hash the kernel state, log it or compare it. */
    method RunAndRecord(agentId: AgentId, input: TickInput, ghost s: Loop) returns (output: TickOutput, status: Status)
      requires Valid() && s.kernel == View() && s.status == Running
      requires input.sequenceNumber == s.sequenceNumber && input.instruction == s.instruction
      modifies logger
      ensures Valid() && output == tickEngine(input)
      ensures var t := Recorded(mode, agentId, s, output, StateHash(Environment(), s.kernel, agentId, output));
        t == s.(kernel := View(), status := status)
    {
      status := Running;
      output := tickEngine(input);
      var stateHash := HashKernelState(agentId, output);
      if mode == Live {
        var _ := logger.Write(agentId, TickLogged(input.sequenceNumber, input.instruction, output, stateHash));
      } else {
        var logs := logger.GetLogsForAgent(agentId);
        var targetLog := FindFirst(logs, TickAt(agentId, input.sequenceNumber));
        FirstForAgent(logger.logs, agentId, TickAt(agentId, input.sequenceNumber));
        if targetLog.None? {
          status := Threw(ReplayMissingLog);
        } else if StateHashOf(targetLog.value) != stateHash {
          status := Threw(CryptographicDivergence);
        }
      }
    }

    /** The `switch` on the output. */
    method Continue(agentId: AgentId, sequenceNumber: nat, instruction: Instruction, output: TickOutput, ghost s: Loop)
      returns (status: Status, nextNumber: nat, nextInstruction: Instruction)
      requires Valid() && s.kernel == View() && s.status == Running
      requires s.sequenceNumber == sequenceNumber && s.instruction == instruction
      modifies logger, lifecycle, quotaEnforcer, toolGate, persistentStore
      ensures Valid()
      ensures Dispatch(Environment(), mode, agentId, s, output)
           == Loop(View(), nextNumber, nextInstruction, status, s.inputs)
    {
      nextNumber, nextInstruction := sequenceNumber, instruction;
      match output {
        case Completed(_) => status := Leave(agentId, [Complete, TeardownOk], Terminated, s);
        case Failed(_) => status := Leave(agentId, [Trigger.Error], Faulted, s);
        case PendingDelegation(_, _) => status := Leave(agentId, [Yield], Waiting, s);
        case PendingTool(toolName, args) =>
          var value;
          status, value := CallTool(agentId, sequenceNumber, toolName, args, s);
          if status.Running? {
            nextNumber, nextInstruction := sequenceNumber + 1, Return(value);
          }
      }
    }

    /** One pass through the loop body. */
    method RunTick(agentId: AgentId, sequenceNumber: nat, instruction: Instruction, ghost s: Loop)
      returns (status: Status, nextNumber: nat, nextInstruction: Instruction)
      requires Valid() && s.kernel == View() && s.status == Running
      requires s.sequenceNumber == sequenceNumber && s.instruction == instruction
      modifies logger, lifecycle, quotaEnforcer, toolGate, persistentStore
      ensures Valid()
      ensures var t := Iterate(Environment(), mode, agentId, s);
        t == Loop(View(), nextNumber, nextInstruction, status, t.inputs)
    {
      nextNumber, nextInstruction := sequenceNumber, instruction;
      var admitted := quotaEnforcer.ConsumeTick(agentId);
      if !admitted {
        status := AbortQuota(agentId, s.(kernel := View()));
        return;
      }
      var input := TickInput(agentId, sequenceNumber, instruction, MAX_STEPS);
      ghost var s1 := s.(kernel := View(), inputs := s.inputs + [input]);
      var output;
      output, status := RunAndRecord(agentId, input, s1);
      if status.Running? {
        status, nextNumber, nextInstruction :=
          Continue(agentId, sequenceNumber, instruction, output, s1.(kernel := View()));
      }
    }

    /** The loop: it terminates whenever the state machine does. `steps` is the number of iterations. */
    method RunAgentLoop(agentId: AgentId, initialInstruction: Instruction) returns (status: Status, ghost steps: nat)
      requires Valid()
      requires Ends(Environment(), mode, agentId, Begin(View(), agentId, initialInstruction))
      modifies logger, lifecycle, quotaEnforcer, toolGate, persistentStore
      ensures Valid() && status != Running
      ensures var z := Run(Environment(), mode, agentId, Begin(old(View()), agentId, initialInstruction), steps);
        status == z.status && View() == z.kernel
    {
      ghost var step := Step(Environment(), mode, agentId);
      ghost var s := Begin(View(), agentId, initialInstruction);
      ghost var begin := s;
      ghost var bound: nat :| !Run(Environment(), mode, agentId, begin, bound).status.Running?;
      steps := 0;
      var state := lifecycle.GetState(agentId);
      if state != Active {
        return Threw(NotActive), 0;
      }
      var sequenceNumber := 1;
      var currentInstruction := initialInstruction;
      status := Running;
      while status.Running?
        invariant Valid()
        invariant s == Loop(View(), sequenceNumber, currentInstruction, status, s.inputs)
        invariant s == Repeat(step, begin, steps)
        invariant status.Running? ==> steps < bound
        decreases bound - steps
      {
        status, sequenceNumber, currentInstruction := RunTick(agentId, sequenceNumber, currentInstruction, s);
        s := step(s);
        RepeatOneMore(step, begin, steps);
        steps := steps + 1;
        OverFrom(step, begin, bound, steps);
      }
    }
  }

  /** The loop is over after some number of iterations. */
  ghost predicate Ends(env: Env, mode: Mode, agent: AgentId, s: Loop) {
    exists n: nat :: !Run(env, mode, agent, s, n).status.Running?
  }

  /** It is with a tick quota, and with the kernel's own engine in any case. */
  lemma LoopsEnd(env: Env, mode: Mode, agent: AgentId, k: Kernel, first: Instruction)
    ensures agent in k.quotas.limits ==> Ends(env, mode, agent, Begin(k, agent, first))
    ensures (forall input :: env.tick(input) == RunTick(input)) ==> Ends(env, mode, agent, Begin(k, agent, first))
  {
    var s := Begin(k, agent, first);
    if agent in k.quotas.limits {
      var left := k.quotas.limits[agent].maxTicks - UsageOf(k.quotas, agent).ticks;
      QuotaEndsLoop(env, mode, agent, s, if left < 0 then 1 else left + 1);
    }
    if forall input :: env.tick(input) == RunTick(input) {
      OwnEngineEndsLoop(env, mode, agent, s, 2);
    }
  }

  lemma OverFrom(step: Loop -> Loop, s: Loop, m: nat, n: nat)
    requires forall x: Loop | !x.status.Running? :: step(x) == x
    requires !Repeat(step, s, m).status.Running?
    ensures Repeat(step, s, n).status.Running? ==> n < m
  {
    if m <= n {
      RepeatSplits(step, s, m, n - m);
      OverStaysOver(step, Repeat(step, s, m), n - m);
    }
  }

  lemma {:induction false} RepeatOneMore(step: Loop -> Loop, s: Loop, n: nat)
    ensures Repeat(step, s, n + 1) == step(Repeat(step, s, n))
    decreases n
  {
    if n > 0 {
      RepeatOneMore(step, step(s), n - 1);
    }
  }
}

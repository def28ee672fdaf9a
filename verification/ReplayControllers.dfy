/** Checking one computed tick against the log (execution/replay-controller.ts). */
module ReplayControllers {
  import opened Options
  import opened Values
  import opened Ticks
  import opened Log
  import opened Memory
  import opened Execution
  import opened StateHashes
  import opened Replaying

  datatype Verdict = Passed | MissingLog | Divergent

  function LoggedOutput(e: LogEntry): Json {
    if e.event.TickLogged? then OutputValue(e.event.output) else Null
  }

  function Verify(mode: Mode, log: seq<LogEntry>, agent: AgentId, sequenceNumber: nat, computed: Json): Verdict {
    if mode == Live then Passed
    else
      match First(log, TickAt(agent, sequenceNumber))
      case None => MissingLog
      case Some(e) => if DeepEqual(LoggedOutput(e), computed) then Passed else Divergent
  }

  /** The entry logs an output of the agent's tick of that number. */
  predicate LogsTick(e: LogEntry, agent: AgentId, sequenceNumber: nat) {
    e.agentId == agent && e.event.TickLogged? && e.event.sequenceNumber == sequenceNumber
  }

  /** `i` is where the first such entry stands. */
  predicate FirstTick(log: seq<LogEntry>, agent: AgentId, sequenceNumber: nat, i: nat) {
    && i < |log| && LogsTick(log[i], agent, sequenceNumber)
    && forall j | 0 <= j < i :: !LogsTick(log[j], agent, sequenceNumber)
  }

  /** Nothing is checked in LIVE. In REPLAY a tick that was never logged is missing, and one that was is
      passed if the first output logged for it is deep-equal to the computed one, and divergent if not. */
  ghost predicate Rightly(mode: Mode, log: seq<LogEntry>, agent: AgentId, sequenceNumber: nat, computed: Json, verdict: Verdict) {
    && (mode == Live ==> verdict == Passed)
    && (mode == Replay ==>
          && (verdict == MissingLog <==> forall e | e in log :: !LogsTick(e, agent, sequenceNumber))
          && forall i: nat | FirstTick(log, agent, sequenceNumber, i) ::
               && (verdict == Passed <==> DeepEqual(OutputValue(log[i].event.output), computed))
               && (verdict == Divergent <==> !DeepEqual(OutputValue(log[i].event.output), computed)))
  }

  lemma VerdictIsRight(mode: Mode, log: seq<LogEntry>, agent: AgentId, sequenceNumber: nat, computed: Json)
    ensures Rightly(mode, log, agent, sequenceNumber, computed, Verify(mode, log, agent, sequenceNumber, computed))
  {
    var p := TickAt(agent, sequenceNumber);
    FirstOfAbsent(log, p);
    assert forall e :: p(e) <==> LogsTick(e, agent, sequenceNumber);
    forall i: nat | FirstTick(log, agent, sequenceNumber, i) ensures First(log, p) == Some(log[i]) {
      FirstIsLeast(log, p, i);
    }
  }

  class ReplayController {
    const logger: ExecutionLogger
    const mode: Mode

    constructor (logger: ExecutionLogger, mode: Mode)
      ensures this.logger == logger && this.mode == mode
    {
      this.logger, this.mode := logger, mode;
    }

    method VerifyTick(agentId: AgentId, sequenceNumber: nat, computedOutput: Json) returns (verdict: Verdict)
      ensures verdict == Verify(mode, logger.logs, agentId, sequenceNumber, computedOutput)
      ensures Rightly(mode, logger.logs, agentId, sequenceNumber, computedOutput, verdict)
    {
      VerdictIsRight(mode, logger.logs, agentId, sequenceNumber, computedOutput);
      if mode == Live {
        return Passed;
      }
      var logs := logger.GetLogsForAgent(agentId);
      var targetLog := FindFirst(logs, TickAt(agentId, sequenceNumber));
      FirstForAgent(logger.logs, agentId, TickAt(agentId, sequenceNumber));
      if targetLog.None? {
        return MissingLog;
      }
      if DeepEqual(LoggedOutput(targetLog.value), computedOutput) {
        return Passed;
      }
      return Divergent;
    }
  }

  /** Every tick of a replay that raised no replay error also passes `verifyTick`. */
  lemma SoundReplayVerifies(env: Env, agent: AgentId, k: Kernel, first: Instruction, n: nat)
    requires CollisionFree(env) && Honest(env, k.log, agent)
    ensures var z := Run(env, Replay, agent, Begin(k, agent, first), n);
      z.status !in REPLAY_ERRORS ==>
        forall i | 0 <= i < |z.inputs| ::
          Verify(Replay, k.log, agent, i + 1, OutputValue(env.tick(z.inputs[i]))) == Passed
  {
    ReplayIsSound(env, agent, k, first, n);
    var z := Run(env, Replay, agent, Begin(k, agent, first), n);
    if z.status !in REPLAY_ERRORS {
      forall i | 0 <= i < |z.inputs|
        ensures Verify(Replay, k.log, agent, i + 1, OutputValue(env.tick(z.inputs[i]))) == Passed
      {
        ConfirmedPasses(env, agent, k, z.inputs[i]);
      }
    }
  }

  /** A replayed tick whose output is not deep-equal to the first one logged under its number is reported
      divergent, and so is the replay itself, which cannot have gone on without a replay error. */
  lemma DivergentTickIsReported(env: Env, agent: AgentId, k: Kernel, first: Instruction, n: nat, i: nat, j: nat)
    requires CollisionFree(env) && Honest(env, k.log, agent)
    requires i < |Run(env, Replay, agent, Begin(k, agent, first), n).inputs| && FirstTick(k.log, agent, i + 1, j)
    requires var z := Run(env, Replay, agent, Begin(k, agent, first), n);
      !DeepEqual(OutputValue(k.log[j].event.output), OutputValue(env.tick(z.inputs[i])))
    ensures var z := Run(env, Replay, agent, Begin(k, agent, first), n);
      && Verify(Replay, k.log, agent, i + 1, OutputValue(env.tick(z.inputs[i]))) == Divergent
      && z.status in REPLAY_ERRORS
  {
    var z := Run(env, Replay, agent, Begin(k, agent, first), n);
    VerdictIsRight(Replay, k.log, agent, i + 1, OutputValue(env.tick(z.inputs[i])));
    if z.status !in REPLAY_ERRORS {
      SoundReplayVerifies(env, agent, k, first, n);
    }
  }

  lemma ConfirmedPasses(env: Env, agent: AgentId, k: Kernel, input: TickInput)
    requires Confirmed(env, agent, k.log, SnapshotOf(k.memory, agent), input)
    ensures Verify(Replay, k.log, agent, input.sequenceNumber, OutputValue(env.tick(input))) == Passed
  {
  }
}

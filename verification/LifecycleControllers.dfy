/** The lifecycle controller object (lifecycle/controller.ts). */
module LifecycleControllers {
  import opened Options
  import opened Ticks
  import opened Lifecycles
  import opened Log

  /** `VALID_TRANSITIONS.find(...)`. */
  method FindTransition(from: AgentState, trigger: Trigger) returns (to: Option<AgentState>)
    ensures to == Target(from, trigger)
  {
    var i := 0;
    while i < |VALID_TRANSITIONS|
      invariant 0 <= i <= |VALID_TRANSITIONS|
      invariant forall j | 0 <= j < i :: (VALID_TRANSITIONS[j].0, VALID_TRANSITIONS[j].1) != (from, trigger)
    {
      if VALID_TRANSITIONS[i].0 == from && VALID_TRANSITIONS[i].1 == trigger {
        TableRows();
        return Some(VALID_TRANSITIONS[i].2);
      }
      i := i + 1;
    }
    if Target(from, trigger).Some? {
      TargetIsTable(from, trigger, Target(from, trigger).value);
    }
    return None;
  }

  class LifecycleController {
    const logger: ExecutionLogger
    var stateMap: map<AgentId, AgentState>
    var records: map<AgentId, seq<TransitionRecord>>
    var busSeqCounter: nat

    ghost function View(): Lifecycle
      reads this
    {
      Lifecycle(stateMap, records, busSeqCounter)
    }

    constructor (logger: ExecutionLogger)
      ensures this.logger == logger && View() == NO_AGENTS
    {
      this.logger := logger;
      stateMap, records, busSeqCounter := map[], map[], 0;
    }

    method GetState(agentId: AgentId) returns (s: AgentState)
      ensures s == StateOf(View(), agentId)
    {
      s := if agentId in stateMap then stateMap[agentId] else Defined;
    }

    /** `None` is a LifecycleError: nothing is logged and nothing changes. Otherwise the transition is
        logged and the state and the history move together. */
    method Transition(agentId: AgentId, trigger: Trigger) returns (next: Option<AgentState>)
      requires logger.Valid()
      modifies this, logger
      ensures logger.Valid()
      ensures match Fire(old(View()), agentId, trigger)
        case None => next == None && View() == old(View()) && logger.logs == old(logger.logs)
        case Some(l) =>
          && View() == l
          && next == Some(StateOf(l, agentId))
          && logger.logs == Append(old(logger.logs), agentId,
               LifecycleTransition(StateOf(old(View()), agentId), StateOf(l, agentId), trigger))
    {
      var currentState := GetState(agentId);
      var target := FindTransition(currentState, trigger);
      if target.None? {
        return None;
      }
      var nextState := target.value;
      busSeqCounter := busSeqCounter + 1;
      var entry := TransitionRecord(currentState, nextState, trigger, busSeqCounter);
      var _ := logger.Write(agentId, LifecycleTransition(currentState, nextState, trigger));
      stateMap := stateMap[agentId := nextState];
      if agentId !in records {
        records := records[agentId := []];
      }
      records := records[agentId := records[agentId] + [entry]];
      return Some(nextState);
    }

    /** What REPLAY does to the map from outside: no log entry, no history. */
    method Force(agentId: AgentId, state: AgentState)
      modifies this
      ensures View() == old(View()).(states := old(View()).states[agentId := state])
    {
      stateMap := stateMap[agentId := state];
    }
  }
}

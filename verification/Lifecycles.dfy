/** Agent lifecycle states, the transition table and what a transition does to the controller's
    maps (lifecycle/types.ts, lifecycle/controller.ts). */
module Lifecycles {
  import opened Options
  import opened Texts
  import opened Ticks

  datatype AgentState =
    | Defined | Spawned | Active | Waiting | Resumable | Completing | Faulted | Recovering | Terminated

  datatype Trigger =
    | Spawn | Activate | Yield | AwaitTool | Complete | Error | Suspend | Resume | Timeout | Expire
    | TeardownOk | Recover | Abandon | RecoverySuccess | RecoveryExhausted

  const VALID_TRANSITIONS: seq<(AgentState, Trigger, AgentState)> := [
    (Defined, Spawn, Spawned),
    (Spawned, Activate, Active),
    (Active, Yield, Waiting),
    (Active, AwaitTool, Waiting),
    (Active, Complete, Completing),
    (Active, Error, Faulted),
    (Active, Suspend, Resumable),
    (Waiting, Resume, Active),
    (Waiting, Timeout, Faulted),
    (Waiting, Error, Faulted),
    (Resumable, Resume, Active),
    (Resumable, Expire, Terminated),
    (Completing, TeardownOk, Terminated),
    (Faulted, Recover, Recovering),
    (Faulted, Abandon, Terminated),
    (Recovering, RecoverySuccess, Active),
    (Recovering, RecoveryExhausted, Terminated)
  ]

  /** The state a trigger leads to, if the table has a row for it. */
  function Target(from: AgentState, trigger: Trigger): Option<AgentState> {
    match (from, trigger)
    case (Defined, Spawn) => Some(Spawned)
    case (Spawned, Activate) => Some(Active)
    case (Active, Yield) => Some(Waiting)
    case (Active, AwaitTool) => Some(Waiting)
    case (Active, Complete) => Some(Completing)
    case (Active, Error) => Some(Faulted)
    case (Active, Suspend) => Some(Resumable)
    case (Waiting, Resume) => Some(Active)
    case (Waiting, Timeout) => Some(Faulted)
    case (Waiting, Error) => Some(Faulted)
    case (Resumable, Resume) => Some(Active)
    case (Resumable, Expire) => Some(Terminated)
    case (Completing, TeardownOk) => Some(Terminated)
    case (Faulted, Recover) => Some(Recovering)
    case (Faulted, Abandon) => Some(Terminated)
    case (Recovering, RecoverySuccess) => Some(Active)
    case (Recovering, RecoveryExhausted) => Some(Terminated)
    case _ => None
  }

  lemma TableRows()
    ensures forall i | 0 <= i < |VALID_TRANSITIONS| ::
      Target(VALID_TRANSITIONS[i].0, VALID_TRANSITIONS[i].1) == Some(VALID_TRANSITIONS[i].2)
  {
  }

  /** The row of the table a pair of state and trigger matches, if any. */
  function Row(from: AgentState, trigger: Trigger): nat {
    match from
    case Defined => 0
    case Spawned => 1
    case Active =>
      (match trigger
       case Yield => 2 case AwaitTool => 3 case Complete => 4 case Error => 5 case _ => 6)
    case Waiting => (match trigger case Resume => 7 case Timeout => 8 case _ => 9)
    case Resumable => if trigger.Resume? then 10 else 11
    case Completing => 12
    case Faulted => if trigger.Recover? then 13 else 14
    case Recovering => if trigger.RecoverySuccess? then 15 else 16
    case Terminated => 0
  }

  /** `Target` is the table: a trigger is accepted just when a row says so, and then by one row. */
  lemma TargetIsTable(from: AgentState, trigger: Trigger, to: AgentState)
    ensures Target(from, trigger) == Some(to) <==> (from, trigger, to) in VALID_TRANSITIONS
  {
    if Target(from, trigger) == Some(to) {
      assert VALID_TRANSITIONS[Row(from, trigger)] == (from, trigger, to);
    }
    if (from, trigger, to) in VALID_TRANSITIONS {
      TableRows();
    }
  }

  /** The name a state has in the kernel state that is hashed. */
  function StateName(s: AgentState): Text {
    match s
    case Defined => Ascii("DEFINED")
    case Spawned => Ascii("SPAWNED")
    case Active => Ascii("ACTIVE")
    case Waiting => Ascii("WAITING")
    case Resumable => Ascii("RESUMABLE")
    case Completing => Ascii("COMPLETING")
    case Faulted => Ascii("FAULTED")
    case Recovering => Ascii("RECOVERING")
    case Terminated => Ascii("TERMINATED")
  }

  datatype TransitionRecord = TransitionRecord(from: AgentState, to: AgentState, trigger: Trigger, busSeq: nat)

  datatype Lifecycle = Lifecycle(
    states: map<AgentId, AgentState>,
    records: map<AgentId, seq<TransitionRecord>>,
    counter: nat)

  const NO_AGENTS: Lifecycle := Lifecycle(map[], map[], 0)

  function StateOf(l: Lifecycle, agent: AgentId): AgentState {
    if agent in l.states then l.states[agent] else Defined
  }

  function RecordOf(l: Lifecycle, agent: AgentId): seq<TransitionRecord> {
    if agent in l.records then l.records[agent] else []
  }

  /** The controller after an accepted trigger; `None` is a LifecycleError. */
  function Fire(l: Lifecycle, agent: AgentId, trigger: Trigger): Option<Lifecycle> {
    var from := StateOf(l, agent);
    match Target(from, trigger)
    case None => None
    case Some(to) =>
      var entry := TransitionRecord(from, to, trigger, l.counter + 1);
      Some(Lifecycle(l.states[agent := to],
                     l.records[agent := RecordOf(l, agent) + [entry]],
                     l.counter + 1))
  }

  /** A transition moves one agent along the row of the table, adds one record to its history, numbered by the
      controller, and touches no other agent. */
  lemma FireMovesOneAgent(l: Lifecycle, agent: AgentId, trigger: Trigger, to: AgentState, other: AgentId)
    requires (StateOf(l, agent), trigger, to) in VALID_TRANSITIONS
    ensures Fire(l, agent, trigger).Some?
    ensures var m := Fire(l, agent, trigger).value;
      && StateOf(m, other) == (if other == agent then to else StateOf(l, other))
      && RecordOf(m, other) == (if other == agent
           then RecordOf(l, agent) + [TransitionRecord(StateOf(l, agent), to, trigger, l.counter + 1)]
           else RecordOf(l, other))
      && m.counter == l.counter + 1
  {
    TargetIsTable(StateOf(l, agent), trigger, to);
  }

  /** A history is a path through the table that starts at DEFINED and is numbered upwards. */
  ghost predicate IsPath(r: seq<TransitionRecord>, last: AgentState, counter: nat) {
    && (r == [] ==> last == Defined)
    && (r != [] ==> r[0].from == Defined && r[|r| - 1].to == last)
    && (forall i | 0 <= i < |r| :: Target(r[i].from, r[i].trigger) == Some(r[i].to))
    && (forall i | 0 <= i < |r| - 1 :: r[i].to == r[i + 1].from)
    && (forall i, j | 0 <= i < j < |r| :: r[i].busSeq < r[j].busSeq)
    && (forall i | 0 <= i < |r| :: 1 <= r[i].busSeq <= counter)
  }

  ghost predicate HistoriesArePaths(l: Lifecycle) {
    forall agent: AgentId :: IsPath(RecordOf(l, agent), StateOf(l, agent), l.counter)
  }

  lemma PathGrows(r: seq<TransitionRecord>, last: AgentState, counter: nat, e: TransitionRecord)
    requires IsPath(r, last, counter)
    requires e.from == last && Target(last, e.trigger) == Some(e.to) && e.busSeq == counter + 1
    ensures IsPath(r + [e], e.to, counter + 1)
  {
  }

  /** Every transition extends a path, and no transition leaves TERMINATED. */
  lemma FireKeepsPaths(l: Lifecycle, agent: AgentId, trigger: Trigger)
    requires HistoriesArePaths(l) && Fire(l, agent, trigger).Some?
    ensures HistoriesArePaths(Fire(l, agent, trigger).value)
    ensures StateOf(l, agent) != Terminated
  {
    var from := StateOf(l, agent);
    var m := Fire(l, agent, trigger).value;
    var e := TransitionRecord(from, StateOf(m, agent), trigger, m.counter);
    assert Target(from, trigger) == Some(e.to);
    assert IsPath(RecordOf(l, agent), from, l.counter);
    PathGrows(RecordOf(l, agent), from, l.counter, e);
    forall other: AgentId | other != agent ensures IsPath(RecordOf(m, other), StateOf(m, other), m.counter) {
      assert IsPath(RecordOf(l, other), StateOf(l, other), l.counter);
    }
  }

  /** TERMINATED is visited only as the end of a history. */
  lemma TerminatedIsFinal(r: seq<TransitionRecord>, last: AgentState, counter: nat, i: nat)
    requires IsPath(r, last, counter) && i < |r| && r[i].to == Terminated
    ensures i == |r| - 1
  {
    forall k | 0 <= k < |r| - 1 ensures r[k].to != Terminated {
      assert r[k].to == r[k + 1].from && Target(r[k + 1].from, r[k + 1].trigger).Some?;
    }
  }
}

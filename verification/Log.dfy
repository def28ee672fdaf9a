/** The append-only execution log every component writes to (logging/logger.ts). */
module Log {
  import opened Options
  import opened Texts
  import opened Values
  import opened Ticks
  import opened Lifecycles
  import opened Grants

  datatype DelegationRequest = DelegationRequest(
    requestId: Text, parentAgentId: AgentId, instruction: Text, grantSubset: seq<Grant>, maxDepth: real, ttl: Time)

  datatype FailureClass = Transient | Permanent | PolicyViolation | InvariantBreach | Unrecognized(name: Text)

  datatype FailureEvent = FailureEvent(
    agentId: AgentId, tickSeq: int, class_: FailureClass, code: Text, message: Text, context: Json)

  /** The kinds of log entry, with their payloads. */
  datatype Event =
    | LifecycleTransition(from: AgentState, to: AgentState, trigger: Trigger)
    | PersistentWrite(txId: Text, key: Text, value: Json)
    | PersistentDelete(txId: Text, key: Text)
    | SharedRead(namespace: Text, key: Text)
    | SharedWrite(txId: Text, namespace: Text, key: Text, value: Json)
    | PermissionEvaluation(action: Text, resource: Text, result: PolicyResult, noValidGrant: bool)
    | TickLogged(sequenceNumber: nat, instruction: Instruction, output: TickOutput, stateHash: Text)
    | ToolLogged(sequenceNumber: nat, toolName: Text, args: Json, toolResult: Json)
    | DelegationIssued(request: DelegationRequest, tokenId: Text, childAgentId: AgentId)
    | DelegationRevoked(tokenId: Text)
    | FailureRecorded(failure: FailureEvent)
    | TransientExhausted(tickSeq: int, retryCount: int)
    | TransientRetryScheduled(tickSeq: int, retryCount: int)
    | ChildFailureEscalation(childAgentId: AgentId, failure: FailureEvent)
    | PolicyViolationHalt(tickSeq: int, code: Text)
    | KernelPanic(reason: Text, context: Json)

  datatype LogEntry = LogEntry(agentId: AgentId, busSeq: nat, event: Event)

  function Append(log: seq<LogEntry>, agent: AgentId, event: Event): seq<LogEntry> {
    log + [LogEntry(agent, |log| + 1, event)]
  }

  ghost predicate Numbered(log: seq<LogEntry>) {
    forall i | 0 <= i < |log| :: log[i].busSeq == i + 1
  }

  /** The entries of one agent, in order. */
  function ForAgent(log: seq<LogEntry>, agent: AgentId): seq<LogEntry> {
    if log == [] then []
    else if log[0].agentId == agent then [log[0]] + ForAgent(log[1..], agent)
    else ForAgent(log[1..], agent)
  }

  lemma {:induction false} ForAgentConcat(p: seq<LogEntry>, q: seq<LogEntry>, agent: AgentId)
    ensures ForAgent(p + q, agent) == ForAgent(p, agent) + ForAgent(q, agent)
  {
    if p == [] {
      assert p + q == q;
    } else {
      assert (p + q)[1..] == p[1..] + q;
      ForAgentConcat(p[1..], q, agent);
    }
  }

  /** Each entry of the agent is there once, after those before it and before those after it; others are not. */
  lemma ForAgentKeepsPlaces(log: seq<LogEntry>, agent: AgentId, k: nat)
    requires k < |log|
    ensures ForAgent(log, agent) ==
      ForAgent(log[..k], agent) + (if log[k].agentId == agent then [log[k]] else []) + ForAgent(log[k + 1..], agent)
    ensures log[k] in ForAgent(log, agent) <==> log[k].agentId == agent
  {
    assert log == log[..k] + ([log[k]] + log[k + 1..]);
    ForAgentConcat(log[..k], [log[k]] + log[k + 1..], agent);
    ForAgentConcat([log[k]], log[k + 1..], agent);
    assert [log[k]][1..] == [];
    ForAgentOwn(log, agent, log[k]);
  }

  lemma {:induction false} ForAgentOwn(log: seq<LogEntry>, agent: AgentId, e: LogEntry)
    ensures e in ForAgent(log, agent) ==> e.agentId == agent
  {
    if log != [] {
      ForAgentOwn(log[1..], agent, e);
    }
  }

  /** The first entry with a property: what `find`, and a loop that breaks, return. */
  function First(log: seq<LogEntry>, p: LogEntry -> bool): Option<LogEntry> {
    if log == [] then None
    else if p(log[0]) then Some(log[0])
    else First(log[1..], p)
  }

  ghost predicate Absent(log: seq<LogEntry>, p: LogEntry -> bool) {
    forall e | e in log :: !p(e)
  }

  lemma {:induction false} FirstConcat(a: seq<LogEntry>, b: seq<LogEntry>, p: LogEntry -> bool)
    ensures First(a + b, p) == if First(a, p).Some? then First(a, p) else First(b, p)
  {
    if a == [] {
      assert a + b == b;
    } else {
      assert (a + b)[1..] == a[1..] + b;
      FirstConcat(a[1..], b, p);
    }
  }

  lemma {:induction false} FirstOfAbsent(log: seq<LogEntry>, p: LogEntry -> bool)
    ensures First(log, p) == None <==> Absent(log, p)
    ensures First(log, p).Some? ==> First(log, p).value in log && p(First(log, p).value)
  {
    if log != [] {
      assert log == [log[0]] + log[1..];
      FirstOfAbsent(log[1..], p);
    }
  }

  /** Looking a property of one agent's entries up in its own entries finds the same entry. */
  lemma {:induction false} FirstForAgent(log: seq<LogEntry>, agent: AgentId, p: LogEntry -> bool)
    requires forall e | p(e) :: e.agentId == agent
    ensures First(ForAgent(log, agent), p) == First(log, p)
  {
    if log != [] {
      FirstForAgent(log[1..], agent, p);
    }
  }

  /** It is at the least index where the property holds. */
  lemma {:induction false} FirstIsLeast(log: seq<LogEntry>, p: LogEntry -> bool, i: nat)
    requires i < |log| && p(log[i]) && forall j | 0 <= j < i :: !p(log[j])
    ensures First(log, p) == Some(log[i])
  {
    if i > 0 {
      FirstIsLeast(log[1..], p, i - 1);
    }
  }

  function TickAt(agent: AgentId, sequenceNumber: nat): LogEntry -> bool {
    (e: LogEntry) => e.agentId == agent && e.event.TickLogged? && e.event.sequenceNumber == sequenceNumber
  }

  function ToolAt(agent: AgentId, sequenceNumber: nat): LogEntry -> bool {
    (e: LogEntry) => e.agentId == agent && e.event.ToolLogged? && e.event.sequenceNumber == sequenceNumber
  }

  class ExecutionLogger {
    var logs: seq<LogEntry>
    var nextBusSeq: nat

    ghost predicate Valid()
      reads this
    {
      Numbered(logs) && nextBusSeq == |logs| + 1
    }

    constructor ()
      ensures Valid() && logs == []
    {
      logs, nextBusSeq := [], 1;
    }

    method Write(agentId: AgentId, event: Event) returns (entry: LogEntry)
      requires Valid()
      modifies this
      ensures Valid() && logs == Append(old(logs), agentId, event)
      ensures entry == logs[|logs| - 1]
    {
      entry := LogEntry(agentId, nextBusSeq, event);
      nextBusSeq := nextBusSeq + 1;
      logs := logs + [entry];
    }

    method GetLogsForAgent(agentId: AgentId) returns (entries: seq<LogEntry>)
      ensures entries == ForAgent(logs, agentId)
    {
      entries := [];
      var i := 0;
      while i < |logs|
        invariant 0 <= i <= |logs|
        invariant entries == ForAgent(logs[..i], agentId)
      {
        assert logs[..i + 1] == logs[..i] + [logs[i]];
        ForAgentConcat(logs[..i], [logs[i]], agentId);
        if logs[i].agentId == agentId {
          entries := entries + [logs[i]];
        }
        i := i + 1;
      }
      assert logs[..|logs|] == logs;
    }
  }

  /** The search loop of the replay lookups: stop at the first entry that matches. */
  method FindFirst(entries: seq<LogEntry>, p: LogEntry -> bool) returns (found: Option<LogEntry>)
    ensures found == First(entries, p)
  {
    found := None;
    var i := 0;
    while i < |entries|
      invariant 0 <= i <= |entries|
      invariant found == None
      invariant First(entries, p) == First(entries[i..], p)
    {
      if p(entries[i]) {
        found := Some(entries[i]);
        break;
      }
      assert entries[i..][1..] == entries[i + 1..];
      i := i + 1;
    }
  }
}

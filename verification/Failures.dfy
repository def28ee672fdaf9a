/** Failure handling: retries, escalation, breach (failure/handler.ts), against the lifecycle interface
    it is written for. */
module Failures {
  import opened Options
  import opened Texts
  import opened Ticks
  import opened Grants
  import opened Log
  import opened Forests
  import opened Delegation
  import Runs = DelegationRuns

  datatype HaltState = Faulted | Terminated

  datatype RecoveryRecord = RecoveryRecord(agentId: AgentId, tickSeq: int, retryCount: int)

  type Records = map<Text, RecoveryRecord>

  function RecordKey(agent: AgentId, tickSeq: int): Text {
    agent + [COLON] + Integer(tickSeq)
  }

  /** The key names its agent and tick, even when the agent id contains colons. */
  lemma RecordKeyInjective(a: AgentId, m: int, b: AgentId, n: int)
    requires RecordKey(a, m) == RecordKey(b, n)
    ensures a == b && m == n
  {
    IntegerUnits(m);
    IntegerUnits(n);
    SplitAtLast(a, Integer(m), b, Integer(n), COLON);
    IntegerInjective(m, n);
  }

  function RetriesOf(records: Records, agent: AgentId, tickSeq: int): int {
    var key := RecordKey(agent, tickSeq);
    if key in records then records[key].retryCount else 0
  }

  const ESCALATED_PREFIX := Ascii("[ESCALATED TRANSIENT] ")
  const UNRECOGNIZED_PREFIX := Ascii("UNRECOGNIZED FAILURE CLASS: ")
  const ARROW := Ascii(" -> ")

  function Escalated(failure: FailureEvent): FailureEvent {
    failure.(class_ := Permanent, message := ESCALATED_PREFIX + failure.message)
  }

  function AsBreach(failure: FailureEvent, name: Text): FailureEvent {
    failure.(class_ := InvariantBreach, message := UNRECOGNIZED_PREFIX + name + ARROW + failure.message)
  }

  /** Everything a failure touches. */
  datatype World = World(
    log: seq<LogEntry>, states: map<AgentId, HaltState>, records: Records, protocol: Runs.Protocol)

  function Note(w: World, agent: AgentId, event: Event): World {
    w.(log := Append(w.log, agent, event))
  }

  /** FAULTED, and the parent named by the token, if any, is told. */
  function Permanently(w: World, failure: FailureEvent): World {
    var agent := failure.agentId;
    var w1 := w.(states := w.states[agent := Faulted]);
    if agent in w.protocol.forest then
      var parent := w.protocol.forest[agent].parent;
      var notified := if parent.Some? then parent.value else agent;
      if notified == [] then w1 else Note(w1, notified, ChildFailureEscalation(agent, failure))
    else w1
  }

  /** The series is used up: forget it and escalate. */
  function Exhausted(w: World, failure: FailureEvent, count: int): World {
    var key := RecordKey(failure.agentId, failure.tickSeq);
    Permanently(Note(w, failure.agentId, TransientExhausted(failure.tickSeq, count)).(records := w.records - {key}),
                Escalated(failure))
  }

  function Scheduled(w: World, failure: FailureEvent, count: int): World {
    var agent, tick := failure.agentId, failure.tickSeq;
    var key := RecordKey(agent, tick);
    var recorded := if key in w.records then w.records[key] else RecoveryRecord(agent, tick, 0);
    Note(w, agent, TransientRetryScheduled(tick, count)).(records := w.records[key := recorded.(retryCount := count)])
  }

  function Transiently(w: World, failure: FailureEvent, maxRetries: int): World {
    var count := RetriesOf(w.records, failure.agentId, failure.tickSeq) + 1;
    if count > maxRetries then Exhausted(w, failure, count) else Scheduled(w, failure, count)
  }

  /** The nodes a breach of the agent revokes, in the order of the cascade (CascadeOrder). */
  ghost function RevokedBy(w: World, agent: AgentId): seq<AgentId>
    requires Runs.Sound(w.protocol)
  {
    if agent in w.protocol.forest then Unrevoked(w.protocol.forest, Preorder(w.protocol.forest, w.protocol.counter, agent)) else []
  }

  ghost function RevokeLog(w: World, agent: AgentId): seq<LogEntry>
    requires Runs.Sound(w.protocol)
  {
    RevokedEntries(w.log, w.protocol.forest, RevokedBy(w, agent))
  }

  /** TERMINATED, the subtree revoked, and a panic entry last. */
  ghost function Breached(w: World, failure: FailureEvent): World
    requires Runs.Sound(w.protocol)
  {
    var agent := failure.agentId;
    Note(w.(states := w.states[agent := Terminated],
            log := RevokeLog(w, agent),
            protocol := Runs.Next(w.protocol, Runs.Revoke(agent))),
         agent, KernelPanic(failure.message, failure.context))
  }

  ghost function Handled(w: World, failure: FailureEvent, maxRetries: int): World
    requires Runs.Sound(w.protocol)
  {
    var w1 := Note(w, failure.agentId, FailureRecorded(failure));
    match failure.class_
    case Transient => Transiently(w1, failure, maxRetries)
    case Permanent => Permanently(w1, failure)
    case PolicyViolation => Note(w1, failure.agentId, PolicyViolationHalt(failure.tickSeq, failure.code))
    case InvariantBreach => Breached(w1, failure)
    case Unrecognized(name) =>
      Breached(w1, AsBreach(failure, name))
  }

  // ---- What each class of failure leaves ----

  /** The parent that the agent's token names, or the agent itself for a root. */
  function Notified(f: Forest, agent: AgentId): Option<AgentId> {
    if agent !in f then None
    else
      var named := if f[agent].parent.Some? then f[agent].parent.value else agent;
      if named == [] then None else Some(named)
  }

  /** The log with one more entry. */
  function Entered(log: seq<LogEntry>, agent: AgentId, event: Event): seq<LogEntry> {
    log + [LogEntry(agent, |log| + 1, event)]
  }

  /** The log once the agent's parent, if its token names one, has been told. */
  function Told(log: seq<LogEntry>, f: Forest, failure: FailureEvent): seq<LogEntry> {
    match Notified(f, failure.agentId)
    case None => log
    case Some(parent) => Entered(log, parent, ChildFailureEscalation(failure.agentId, failure))
  }

  /** A permanent failure faults the agent, and no other, tells its parent, and leaves the tree alone. */
  lemma PermanentFaults(w: World, failure: FailureEvent, maxRetries: int)
    requires Runs.Sound(w.protocol) && failure.class_ == Permanent
    ensures var a, v := failure.agentId, Handled(w, failure, maxRetries);
      && v.states == w.states[a := Faulted] && v.records == w.records && v.protocol == w.protocol
      && v.log == Told(Entered(w.log, a, FailureRecorded(failure)), w.protocol.forest, failure)
  {
  }

  /** A transient failure beyond the limit does the same, as a permanent one with a message that says so,
      and its series is forgotten. */
  lemma ExhaustionFaults(w: World, failure: FailureEvent, maxRetries: int)
    requires Runs.Sound(w.protocol) && failure.class_ == Transient
    requires RetriesOf(w.records, failure.agentId, failure.tickSeq) + 1 > maxRetries
    ensures var a, tick, v := failure.agentId, failure.tickSeq, Handled(w, failure, maxRetries);
      var count := RetriesOf(w.records, a, tick) + 1;
      var escalated := failure.(class_ := Permanent, message := Ascii("[ESCALATED TRANSIENT] ") + failure.message);
      && v.states == w.states[a := Faulted] && v.records == w.records - {RecordKey(a, tick)} && v.protocol == w.protocol
      && v.log == Told(Entered(Entered(w.log, a, FailureRecorded(failure)), a, TransientExhausted(tick, count)),
                       w.protocol.forest, escalated)
  {
  }

  /** A transient failure within the limit changes no state: it is counted, for its own tick only, and a
      retry is scheduled. */
  lemma RetryChangesNoState(w: World, failure: FailureEvent, maxRetries: int, agent: AgentId, tick: int)
    requires Runs.Sound(w.protocol) && failure.class_ == Transient
    requires RetriesOf(w.records, failure.agentId, failure.tickSeq) + 1 <= maxRetries
    ensures var a, v := failure.agentId, Handled(w, failure, maxRetries);
      var count := RetriesOf(w.records, a, failure.tickSeq) + 1;
      && v.states == w.states && v.protocol == w.protocol
      && RetriesOf(v.records, agent, tick)
         == (if agent == a && tick == failure.tickSeq then count else RetriesOf(w.records, agent, tick))
      && v.log == Entered(Entered(w.log, a, FailureRecorded(failure)), a, TransientRetryScheduled(failure.tickSeq, count))
  {
    if RecordKey(failure.agentId, failure.tickSeq) == RecordKey(agent, tick) {
      RecordKeyInjective(failure.agentId, failure.tickSeq, agent, tick);
    }
  }

  /** A policy violation halts the tick, which is logged, and changes nothing else: the agent stays as it is. */
  lemma PolicyViolationOnlyHalts(w: World, failure: FailureEvent, maxRetries: int)
    requires Runs.Sound(w.protocol) && failure.class_ == PolicyViolation
    ensures var a, v := failure.agentId, Handled(w, failure, maxRetries);
      && v.states == w.states && v.records == w.records && v.protocol == w.protocol
      && v.log == Entered(Entered(w.log, a, FailureRecorded(failure)), a,
                          PolicyViolationHalt(failure.tickSeq, failure.code))
  {
  }

  /** The reason a panic gives names the class if it is unknown. */
  function PanicReason(failure: FailureEvent): Text {
    if failure.class_.Unrecognized?
    then Ascii("UNRECOGNIZED FAILURE CLASS: ") + failure.class_.name + Ascii(" -> ") + failure.message
    else failure.message
  }

  /** A breach, or a failure of an unknown class, terminates the agent, and no other, and forgets no retries. */
  lemma BreachTerminates(w: World, failure: FailureEvent, maxRetries: int)
    requires Runs.Sound(w.protocol) && (failure.class_.InvariantBreach? || failure.class_.Unrecognized?)
    ensures var v := Handled(w, failure, maxRetries);
      v.states == w.states[failure.agentId := Terminated] && v.records == w.records
  {
  }

  /** It logs the failure, one revocation per newly revoked node, and a panic. */
  lemma BreachPanics(w: World, failure: FailureEvent, maxRetries: int)
    requires Runs.Sound(w.protocol) && (failure.class_.InvariantBreach? || failure.class_.Unrecognized?)
    ensures var a, f := failure.agentId, w.protocol.forest;
      Panicked(Handled(w, failure, maxRetries).log, Entered(w.log, a, FailureRecorded(failure)), f, RevokedBy(w, a), a,
               KernelPanic(PanicReason(failure), failure.context))
  {
    var a, event := failure.agentId, KernelPanic(PanicReason(failure), failure.context);
    RevokedByKnown(w, a);
    PanicLog(Entered(w.log, a, FailureRecorded(failure)), w.protocol.forest, RevokedBy(w, a), a, event);
    BreachLog(w, failure, maxRetries, event);
  }

  /** `l` is `log` with a revocation for each node of `order`, and then the event. */
  ghost predicate Panicked(l: seq<LogEntry>, log: seq<LogEntry>, f: Forest, order: seq<AgentId>, agent: AgentId, event: Event) {
    var n := |log|;
    && |l| == n + |order| + 1 && l[..n] == log
    && l[n + |order|] == LogEntry(agent, n + |order| + 1, event)
    && forall i {:trigger order[i]} | 0 <= i < |order| ::
         order[i] in f && l[n + i] == LogEntry(order[i], n + i + 1, DelegationRevoked(f[order[i]].tokenId))
  }

  lemma RevokedByKnown(w: World, agent: AgentId)
    requires Runs.Sound(w.protocol)
    ensures forall x | x in RevokedBy(w, agent) :: x in w.protocol.forest
  {
    var f := w.protocol.forest;
    forall x | x in RevokedBy(w, agent) ensures x in f {
      Runs.UnrevokedMembers(f, Preorder(f, w.protocol.counter, agent), x);
    }
  }

  lemma BreachLog(w: World, failure: FailureEvent, maxRetries: int, event: Event)
    requires Runs.Sound(w.protocol) && (failure.class_.InvariantBreach? || failure.class_.Unrecognized?)
    requires event == KernelPanic(PanicReason(failure), failure.context)
    ensures var a := failure.agentId;
      Handled(w, failure, maxRetries).log ==
        Append(RevokedEntries(Entered(w.log, a, FailureRecorded(failure)), w.protocol.forest, RevokedBy(w, a)), a, event)
  {
  }

  lemma PanicLog(log: seq<LogEntry>, f: Forest, order: seq<AgentId>, agent: AgentId, event: Event)
    requires forall x | x in order :: x in f
    ensures Panicked(Append(RevokedEntries(log, f, order), agent, event), log, f, order, agent, event)
  {
    RevokedEntriesAt(log, f, order);
  }

  // ---- The objects ----

  /** What the handler asks of a lifecycle controller. */
  class LifecycleTarget {
    var states: map<AgentId, HaltState>

    constructor ()
      ensures states == map[]
    {
      states := map[];
    }

    method Transition(agentId: AgentId, state: HaltState)
      modifies this
      ensures states == old(states)[agentId := state]
    {
      states := states[agentId := state];
    }
  }

  class FailureHandler {
    const logger: ExecutionLogger
    const lifecycle: LifecycleTarget
    const delegation: DelegationProtocol
    const maxRetries: int
    var transientRecords: Records

    ghost predicate Valid()
      reads delegation, delegation.nodes.Values, delegation.Tokens(), logger
    {
      delegation.logger == logger && delegation.Valid()
    }

    ghost function View(): World
      reads this, logger, lifecycle, delegation
    {
      World(logger.logs, lifecycle.states, transientRecords,
            Runs.Protocol(delegation.forest, delegation.tokenIdCounter))
    }

    constructor (logger: ExecutionLogger, lifecycle: LifecycleTarget, delegation: DelegationProtocol, maxRetries: int)
      requires delegation.logger == logger && delegation.Valid()
      ensures Valid() && transientRecords == map[] && this.maxRetries == maxRetries
      ensures this.logger == logger && this.lifecycle == lifecycle && this.delegation == delegation
    {
      this.logger, this.lifecycle, this.delegation, this.maxRetries := logger, lifecycle, delegation, maxRetries;
      transientRecords := map[];
    }

    /** Logging leaves the tree alone. */
    method Record(agentId: AgentId, event: Event)
      requires Valid()
      modifies logger
      ensures Valid() && View() == Note(old(View()), agentId, event)
    {
      var _ := logger.Write(agentId, event);
      forall x | x in delegation.nodes ensures delegation.Own(x) { assert old(delegation.Own(x)); }
    }

    method Forget(key: Text)
      requires Valid()
      modifies this
      ensures Valid() && View() == old(View()).(records := old(transientRecords) - {key})
    {
      transientRecords := transientRecords - {key};
    }

    method HandlePermanent(failure: FailureEvent)
      requires Valid()
      modifies lifecycle, logger
      ensures Valid() && View() == Permanently(old(View()), failure)
    {
      lifecycle.Transition(failure.agentId, Faulted);
      var token := delegation.GetToken(failure.agentId);
      if token != null {
        assert delegation.Own(failure.agentId);
        if token.parentAgentId != [] {
          Record(token.parentAgentId, ChildFailureEscalation(failure.agentId, failure));
        }
      }
    }

    method HandleTransient(failure: FailureEvent)
      requires Valid()
      modifies this, lifecycle, logger
      ensures Valid() && View() == Transiently(old(View()), failure, maxRetries)
    {
      var key := RecordKey(failure.agentId, failure.tickSeq);
      var record := if key in transientRecords then transientRecords[key] else RecoveryRecord(failure.agentId, failure.tickSeq, 0);
      record := record.(retryCount := record.retryCount + 1);
      transientRecords := transientRecords[key := record];
      if record.retryCount > maxRetries {
        Record(failure.agentId, TransientExhausted(failure.tickSeq, record.retryCount));
        Forget(key);
        assert transientRecords == old(transientRecords) - {key};
        HandlePermanent(Escalated(failure));
      } else {
        Record(failure.agentId, TransientRetryScheduled(failure.tickSeq, record.retryCount));
      }
    }

    method HandleInvariantBreach(failure: FailureEvent)
      requires Valid()
      modifies lifecycle, delegation`forest, delegation.Tokens(), logger
      ensures Valid() && View() == Breached(old(View()), failure)
    {
      lifecycle.Transition(failure.agentId, Terminated);
      delegation.Revoke(failure.agentId);
      Record(failure.agentId, KernelPanic(failure.message, failure.context));
    }

    method Handle(failure: FailureEvent)
      requires Valid()
      modifies this, lifecycle, delegation`forest, delegation.Tokens(), logger
      ensures Valid() && View() == Handled(old(View()), failure, maxRetries)
    {
      Record(failure.agentId, FailureRecorded(failure));
      match failure.class_ {
        case Transient => HandleTransient(failure);
        case Permanent => HandlePermanent(failure);
        case PolicyViolation =>
          Record(failure.agentId, PolicyViolationHalt(failure.tickSeq, failure.code));
        case InvariantBreach => HandleInvariantBreach(failure);
        case Unrecognized(name) =>
          HandleInvariantBreach(AsBreach(failure, name));
      }
    }
  }

  // ---- Retry accounting ----

  /** One step of a run: a failure is handled, or the delegation tree moves on. */
  datatype Op = Fail(failure: FailureEvent) | Tree(op: Runs.Op, entries: seq<(AgentId, Event)>)

  /** Tree operations log delegation events only. */
  predicate DelegationEvent(e: Event) {
    e.DelegationIssued? || e.DelegationRevoked?
  }

  function NoteAll(log: seq<LogEntry>, entries: seq<(AgentId, Event)>): seq<LogEntry>
    decreases |entries|
  {
    if entries == [] then log else NoteAll(Append(log, entries[0].0, entries[0].1), entries[1..])
  }

  ghost predicate Allowed(w: World, op: Op)
    requires Runs.Sound(w.protocol)
  {
    op.Tree? ==> Runs.Enabled(w.protocol, op.op) && forall e | e in op.entries :: DelegationEvent(e.1)
  }

  ghost function Stepped(w: World, op: Op, maxRetries: int): (v: World)
    requires Runs.Sound(w.protocol) && Allowed(w, op)
    ensures Runs.Sound(v.protocol)
  {
    match op
    case Fail(failure) => Handled(w, failure, maxRetries)
    case Tree(d, entries) => w.(protocol := Runs.Next(w.protocol, d), log := NoteAll(w.log, entries))
  }

  ghost predicate CanRun(w: World, ops: seq<Op>, maxRetries: int)
    requires Runs.Sound(w.protocol)
    decreases |ops|
  {
    ops != [] ==> Allowed(w, ops[0]) && CanRun(Stepped(w, ops[0], maxRetries), ops[1..], maxRetries)
  }

  ghost function RunAll(w: World, ops: seq<Op>, maxRetries: int): World
    requires Runs.Sound(w.protocol) && CanRun(w, ops, maxRetries)
    decreases |ops|
  {
    if ops == [] then w else RunAll(Stepped(w, ops[0], maxRetries), ops[1..], maxRetries)
  }

  datatype Tally = Tally(failures: nat, exhaustions: nat, retries: nat)

  /** What one entry adds to the tally of an agent's tick. */
  function Counted(t: Tally, e: LogEntry, agent: AgentId, tick: int): Tally {
    if e.agentId != agent then t
    else match e.event
      case FailureRecorded(f) => if f.tickSeq == tick && f.class_ == Transient then t.(failures := t.failures + 1) else t
      case TransientExhausted(n, _) => if n == tick then t.(exhaustions := t.exhaustions + 1) else t
      case TransientRetryScheduled(n, _) => if n == tick then t.(retries := t.retries + 1) else t
      case _ => t
  }

  function TallyOf(log: seq<LogEntry>, agent: AgentId, tick: int): Tally {
    if log == [] then Tally(0, 0, 0)
    else Counted(TallyOf(log[..|log| - 1], agent, tick), log[|log| - 1], agent, tick)
  }

  lemma TallyAppend(log: seq<LogEntry>, author: AgentId, event: Event, agent: AgentId, tick: int)
    ensures TallyOf(Append(log, author, event), agent, tick)
         == Counted(TallyOf(log, agent, tick), LogEntry(author, |log| + 1, event), agent, tick)
  {
    assert Append(log, author, event)[..|log|] == log;
  }

  lemma {:induction false} TallyRevoked(log: seq<LogEntry>, f: Forest, order: seq<AgentId>, agent: AgentId, tick: int)
    ensures TallyOf(RevokedEntries(log, f, order), agent, tick) == TallyOf(log, agent, tick)
  {
    if order != [] {
      var n := |order| - 1;
      TallyRevoked(log, f, order[..n], agent, tick);
      var tokenId := if order[n] in f then f[order[n]].tokenId else [];
      TallyAppend(RevokedEntries(log, f, order[..n]), order[n], DelegationRevoked(tokenId), agent, tick);
    }
  }

  lemma {:induction false} TallyNoteAll(log: seq<LogEntry>, entries: seq<(AgentId, Event)>, agent: AgentId, tick: int)
    requires forall e | e in entries :: DelegationEvent(e.1)
    ensures TallyOf(NoteAll(log, entries), agent, tick) == TallyOf(log, agent, tick)
    decreases |entries|
  {
    if entries != [] {
      assert entries[0] in entries;
      TallyAppend(log, entries[0].0, entries[0].1, agent, tick);
      TallyNoteAll(Append(log, entries[0].0, entries[0].1), entries[1..], agent, tick);
    }
  }

  function Limit(maxRetries: int): nat {
    if maxRetries < 0 then 0 else maxRetries
  }

  /** Every transient failure is accounted for: retried, or part of an exhausted series. */
  ghost predicate Conserved(w: World, agent: AgentId, tick: int, maxRetries: int) {
    var t := TallyOf(w.log, agent, tick);
    var current := RetriesOf(w.records, agent, tick);
    && 0 <= current <= Limit(maxRetries)
    && t.failures == (Limit(maxRetries) + 1) * t.exhaustions + current
    && t.retries == Limit(maxRetries) * t.exhaustions + current
  }

  lemma PermanentlyTally(w: World, failure: FailureEvent, agent: AgentId, tick: int)
    ensures var v := Permanently(w, failure);
      TallyOf(v.log, agent, tick) == TallyOf(w.log, agent, tick) && v.records == w.records
  {
    var f, v := w.protocol.forest, Permanently(w, failure);
    if failure.agentId in f {
      var parent := f[failure.agentId].parent;
      var notified := if parent.Some? then parent.value else failure.agentId;
      var event := ChildFailureEscalation(failure.agentId, failure);
      assert v.log == if notified == [] then w.log else Append(w.log, notified, event);
      TallyAppend(w.log, notified, event, agent, tick);
      assert Counted(TallyOf(w.log, agent, tick), LogEntry(notified, |w.log| + 1, event), agent, tick) == TallyOf(w.log, agent, tick);
    }
  }

  lemma BreachedTally(w: World, failure: FailureEvent, agent: AgentId, tick: int)
    requires Runs.Sound(w.protocol)
    ensures var v := Breached(w, failure);
      TallyOf(v.log, agent, tick) == TallyOf(w.log, agent, tick) && v.records == w.records
  {
    var a, p := failure.agentId, w.protocol;
    TallyRevoked(w.log, p.forest, RevokedBy(w, a), agent, tick);
    TallyAppend(RevokeLog(w, a), a, KernelPanic(failure.message, failure.context), agent, tick);
  }

  /** The end of a series counts for its own tick only. */
  lemma ExhaustedTally(w: World, failure: FailureEvent, count: int, agent: AgentId, tick: int)
    ensures var v := Exhausted(w, failure, count);
      var t, t' := TallyOf(w.log, agent, tick), TallyOf(v.log, agent, tick);
      if failure.agentId == agent && failure.tickSeq == tick then
        t' == t.(exhaustions := t.exhaustions + 1) && RetriesOf(v.records, agent, tick) == 0
      else
        t' == t && RetriesOf(v.records, agent, tick) == RetriesOf(w.records, agent, tick)
  {
    var a, n := failure.agentId, failure.tickSeq;
    if RecordKey(a, n) == RecordKey(agent, tick) { RecordKeyInjective(a, n, agent, tick); }
    TallyAppend(w.log, a, TransientExhausted(n, count), agent, tick);
    var w1 := Note(w, a, TransientExhausted(n, count)).(records := w.records - {RecordKey(a, n)});
    PermanentlyTally(w1, Escalated(failure), agent, tick);
  }

  /** A scheduled retry counts for its own tick only. */
  lemma ScheduledTally(w: World, failure: FailureEvent, count: int, agent: AgentId, tick: int)
    ensures var v := Scheduled(w, failure, count);
      var t, t' := TallyOf(w.log, agent, tick), TallyOf(v.log, agent, tick);
      if failure.agentId == agent && failure.tickSeq == tick then
        t' == t.(retries := t.retries + 1) && RetriesOf(v.records, agent, tick) == count
      else
        t' == t && RetriesOf(v.records, agent, tick) == RetriesOf(w.records, agent, tick)
  {
    var a, n := failure.agentId, failure.tickSeq;
    if RecordKey(a, n) == RecordKey(agent, tick) { RecordKeyInjective(a, n, agent, tick); }
    TallyAppend(w.log, a, TransientRetryScheduled(n, count), agent, tick);
  }

  lemma OneSeriesMore(limit: nat, e: nat)
    ensures (limit + 1) * (e + 1) == (limit + 1) * e + limit + 1
    ensures limit * (e + 1) == limit * e + limit
  {
  }

  lemma ExhaustedConserves(w: World, w1: World, failure: FailureEvent, maxRetries: int, agent: AgentId, tick: int)
    requires Conserved(w, agent, tick, maxRetries) && failure.class_ == Transient
    requires w1 == Note(w, failure.agentId, FailureRecorded(failure))
    requires RetriesOf(w1.records, failure.agentId, failure.tickSeq) + 1 > maxRetries
    ensures Conserved(Exhausted(w1, failure, RetriesOf(w1.records, failure.agentId, failure.tickSeq) + 1), agent, tick, maxRetries)
  {
    TallyAppend(w.log, failure.agentId, FailureRecorded(failure), agent, tick);
    ExhaustedTally(w1, failure, RetriesOf(w1.records, failure.agentId, failure.tickSeq) + 1, agent, tick);
    OneSeriesMore(Limit(maxRetries), TallyOf(w.log, agent, tick).exhaustions);
  }

  lemma TransientConserves(w: World, failure: FailureEvent, maxRetries: int, agent: AgentId, tick: int)
    requires Conserved(w, agent, tick, maxRetries) && failure.class_ == Transient
    ensures Conserved(Transiently(Note(w, failure.agentId, FailureRecorded(failure)), failure, maxRetries), agent, tick, maxRetries)
  {
    var w1 := Note(w, failure.agentId, FailureRecorded(failure));
    var count := RetriesOf(w1.records, failure.agentId, failure.tickSeq) + 1;
    if count > maxRetries {
      ExhaustedConserves(w, w1, failure, maxRetries, agent, tick);
    } else {
      TallyAppend(w.log, failure.agentId, FailureRecorded(failure), agent, tick);
      ScheduledTally(w1, failure, count, agent, tick);
    }
  }

  lemma HandledConserves(w: World, failure: FailureEvent, maxRetries: int, agent: AgentId, tick: int)
    requires Runs.Sound(w.protocol) && Conserved(w, agent, tick, maxRetries)
    ensures Conserved(Handled(w, failure, maxRetries), agent, tick, maxRetries)
  {
    if failure.class_ == Transient {
      TransientConserves(w, failure, maxRetries, agent, tick);
    } else {
      OtherClassTally(w, failure, maxRetries, agent, tick);
    }
  }

  /** Failures of the other classes count for no tick. */
  lemma OtherClassTally(w: World, failure: FailureEvent, maxRetries: int, agent: AgentId, tick: int)
    requires Runs.Sound(w.protocol) && failure.class_ != Transient
    ensures var v := Handled(w, failure, maxRetries);
      TallyOf(v.log, agent, tick) == TallyOf(w.log, agent, tick) && v.records == w.records
  {
    var w1 := Note(w, failure.agentId, FailureRecorded(failure));
    TallyAppend(w.log, failure.agentId, FailureRecorded(failure), agent, tick);
    match failure.class_ {
      case Permanent => PermanentlyTally(w1, failure, agent, tick);
      case PolicyViolation =>
        TallyAppend(w1.log, failure.agentId, PolicyViolationHalt(failure.tickSeq, failure.code), agent, tick);
      case InvariantBreach => BreachedTally(w1, failure, agent, tick);
      case Unrecognized(name) =>
        BreachedTally(w1, AsBreach(failure, name), agent, tick);
    }
  }

  /** In any run, for every agent and tick: transient failures = (limit + 1) * exhaustions + current
      count, and retries scheduled = limit * exhaustions + current count. */
  lemma {:induction false} RetriesAreConserved(w: World, ops: seq<Op>, maxRetries: int, agent: AgentId, tick: int)
    requires Runs.Sound(w.protocol) && CanRun(w, ops, maxRetries) && Conserved(w, agent, tick, maxRetries)
    ensures Conserved(RunAll(w, ops, maxRetries), agent, tick, maxRetries)
    decreases |ops|
  {
    if ops != [] {
      match ops[0] {
        case Fail(failure) => HandledConserves(w, failure, maxRetries, agent, tick);
        case Tree(_, entries) => TallyNoteAll(w.log, entries, agent, tick);
      }
      RetriesAreConserved(Stepped(w, ops[0], maxRetries), ops[1..], maxRetries, agent, tick);
    }
  }

  /** No failure has been handled yet. */
  ghost predicate Unfailed(w: World) {
    w.records == map[] && forall e | e in w.log ::
      !e.event.FailureRecorded? && !e.event.TransientExhausted? && !e.event.TransientRetryScheduled?
  }

  lemma {:induction false} UnfailedTally(log: seq<LogEntry>, agent: AgentId, tick: int)
    requires forall e | e in log ::
      !e.event.FailureRecorded? && !e.event.TransientExhausted? && !e.event.TransientRetryScheduled?
    ensures TallyOf(log, agent, tick) == Tally(0, 0, 0)
  {
    if log != [] {
      UnfailedTally(log[..|log| - 1], agent, tick);
    }
  }

  /** In every run that starts before the first failure, whatever its log already holds. */
  lemma EveryRunConservesRetries(w: World, ops: seq<Op>, maxRetries: int, agent: AgentId, tick: int)
    requires Runs.Sound(w.protocol) && CanRun(w, ops, maxRetries) && Unfailed(w)
    ensures Conserved(RunAll(w, ops, maxRetries), agent, tick, maxRetries)
  {
    UnfailedTally(w.log, agent, tick);
    RetriesAreConserved(w, ops, maxRetries, agent, tick);
  }

  // ---- Breach ----

  /** A breach of `a`: it is TERMINATED, a panic of `a` is the last entry, its subtree is revoked, no other
      node changes, and in every later run no member of the subtree delegates again (short of setting a
      root up anew under its id). An unrecognised class of failure is a breach too. */
  lemma BreachIsolates(w: World, failure: FailureEvent, maxRetries: int, ops: seq<Runs.Op>, x: AgentId, request: DelegationRequest, now: Time, later: Time)
    requires Runs.Sound(w.protocol) && (failure.class_.InvariantBreach? || failure.class_.Unrecognized?)
    requires x in w.protocol.forest
    requires Runs.CanRun(Handled(w, failure, maxRetries).protocol, ops)
    ensures var v := Handled(w, failure, maxRetries);
      var a := failure.agentId;
      var last := v.log[|v.log| - 1];
      && v.states[a] == Terminated
      && last.agentId == a && last.event.KernelPanic?
      && if Descends(w.protocol.forest, w.protocol.counter, x, a) then
           v.protocol.forest[x].revoked
           && (request.parentAgentId == x && (forall op | op in ops && op.InitRoot? :: op.agent != x)
               ==> Refuse(Runs.After(v.protocol, ops).forest, request, now, later) == Some(ParentRevoked))
         else v.protocol.forest[x] == w.protocol.forest[x]
  {
    Runs.SubtreeIsolated(w.protocol, failure.agentId, ops, x, request, now, later);
  }
}

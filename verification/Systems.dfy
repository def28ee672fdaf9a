/** The LIVE kernel as a whole: any interleaving of lifecycle transitions, persistent and shared
    memory, agent loops and entries of other components, over one write-ahead log. */
module Systems {
  import opened Options
  import opened Texts
  import opened Values
  import opened Ticks
  import opened Lifecycles
  import opened Grants
  import opened Log
  import opened Memory
  import opened Quotas
  import opened Execution
  import opened LiveRuns
  import opened Permissions
  import opened SharedMemory

  datatype System = System(kernel: Kernel, shared: Namespaces)

  const BOOT := System(Kernel([], NO_AGENTS, map[], QuotaState(map[], map[]), []), map[])

  datatype Op =
    | Trigger(agent: AgentId, trigger: Lifecycles.Trigger)
    | Remember(op: MemoryOp)
    | Evaluate(question: Question, policies: seq<Policy>)
    | ReadShared(access: Access)
    | WriteShared(access: Access, value: Json, txId: Text)
    | Limit(agent: AgentId, quota: Quota)
    | RunLoop(agent: AgentId, instruction: Instruction, iterations: nat)
    | Note(agent: AgentId, event: Event)

  /** Entries of components whose state is not folded here: delegation and failure handling. */
  predicate Unrelated(event: Event) {
    match event
    case DelegationIssued(_, _, _) => true
    case DelegationRevoked(_) => true
    case FailureRecorded(_) => true
    case TransientExhausted(_, _) => true
    case TransientRetryScheduled(_, _) => true
    case ChildFailureEscalation(_, _) => true
    case PolicyViolationHalt(_, _) => true
    case KernelPanic(_, _) => true
    case _ => false
  }

  ghost function Apply(env: Env, x: System, op: Op): System {
    var k := x.kernel;
    match op
    case Trigger(agent, trigger) =>
      (match Transition(k, agent, trigger)
       case None => x
       case Some(k') => x.(kernel := k'))
    case Remember(m) => x.(kernel := k.(log := WriteAhead(k.log, m), memory := Perform(k.memory, m)))
    case Evaluate(q, policies) => x.(kernel := k.(log := Evaluated(k.log, q, policies)))
    case ReadShared(a) => x.(kernel := k.(log := LogAfterRead(k.log, x.shared, a)))
    case WriteShared(a, value, txId) =>
      System(k.(log := LogAfterWrite(k.log, a, value, txId)), StoreAfterWrite(x.shared, a, value))
    case Limit(agent, quota) => x.(kernel := k.(quotas := WithQuota(k.quotas, agent, quota)))
    case RunLoop(agent, instruction, n) =>
      x.(kernel := Run(env, Live, agent, Begin(k, agent, instruction), n).kernel)
    case Note(agent, event) => if Unrelated(event) then x.(kernel := Logged(k, agent, event)) else x
  }

  ghost function ApplyAll(env: Env, x: System, ops: seq<Op>): System
    decreases |ops|
  {
    if ops == [] then x else ApplyAll(env, Apply(env, x, ops[0]), ops[1..])
  }

  // ---- The state a log determines ----

  datatype Image = Image(states: map<AgentId, AgentState>, memory: Memories, shared: Namespaces)

  function ImageOf(x: System): Image {
    Image(x.kernel.life.states, x.kernel.memory, x.shared)
  }

  /** What one entry means for the state, read from the entry alone. */
  function Absorb(i: Image, e: LogEntry): Image {
    match e.event
    case LifecycleTransition(_, to, _) => i.(states := i.states[e.agentId := to])
    case PersistentWrite(_, key, value) =>
      i.(memory := i.memory[e.agentId := Store(SnapshotOf(i.memory, e.agentId), key, value)])
    case PersistentDelete(_, key) =>
      if e.agentId in i.memory then i.(memory := i.memory[e.agentId := Drop(i.memory[e.agentId], key)]) else i
    case SharedWrite(_, namespace, key, value) =>
      i.(shared := i.shared[namespace := Store(DataOf(i.shared, namespace), key, value)])
    case _ => i
  }

  function Fold(log: seq<LogEntry>): Image {
    if log == [] then Image(map[], map[], map[])
    else Absorb(Fold(log[..|log| - 1]), log[|log| - 1])
  }

  // ---- Micro steps ----

  /** One entry is logged, and the state moves as that entry says. */
  ghost predicate Wrote(env: Env, x: System, y: System, agent: AgentId, event: Event) {
    var k, l := x.kernel, y.kernel;
    && l.log == Append(k.log, agent, event)
    && ImageOf(y) == Absorb(ImageOf(x), l.log[|k.log|])
    && l.calls == k.calls
    && (if event.LifecycleTransition? then
          && event.from == StateOf(k.life, agent)
          && Fire(k.life, agent, event.trigger) == Some(l.life)
        else l.life == k.life)
    && (if event.TickLogged? then
          && StateOf(k.life, agent) == Active && TickAdmitted(k.quotas, agent)
          && l.quotas == TickCounted(k.quotas, agent)
          && event.stateHash == env.hash(event.output, Active, SnapshotOf(k.memory, agent))
        else l.quotas == k.quotas)
    && (SharedAccess(event) ==> k.log != [] && Licenses(k.log[|k.log| - 1], agent, event))
  }

  predicate SharedAccess(event: Event) {
    event.SharedRead? || event.SharedWrite?
  }

  /** The entry before a shared access grants it: same agent, action and resource. */
  predicate Licenses(before: LogEntry, agent: AgentId, event: Event)
    requires SharedAccess(event)
  {
    && before.agentId == agent
    && before.event == PermissionEvaluation(if event.SharedRead? then READ else WRITE,
                                            ResourceOf(event.namespace, event.key), Allow, false)
  }

  /** A handler is called within the tool-call quota. */
  ghost predicate Called(x: System, y: System, call: ToolCall) {
    && ToolCallAdmitted(x.kernel.quotas, call.agentId)
    && y == x.(kernel := x.kernel.(quotas := ToolCallCounted(x.kernel.quotas, call.agentId), calls := x.kernel.calls + [call]))
  }

  /** A counter moves and nothing else happens. */
  ghost predicate CountedOnly(x: System, y: System, agent: AgentId) {
    || y == x.(kernel := x.kernel.(quotas := TickCounted(x.kernel.quotas, agent)))
    || y == x.(kernel := x.kernel.(quotas := ToolCallCounted(x.kernel.quotas, agent)))
  }

  ghost predicate Micro(env: Env, x: System, y: System) {
    || (exists agent, event :: Wrote(env, x, y, agent, event))
    || (exists call :: Called(x, y, call))
    || (exists agent :: CountedOnly(x, y, agent))
  }

  /** `inv` survives every micro step. */
  ghost predicate Kept(env: Env, inv: System -> bool) {
    forall x, y {:trigger Micro(env, x, y)} :: inv(x) && Micro(env, x, y) ==> inv(y)
  }

  lemma WroteKeeps(env: Env, inv: System -> bool, x: System, y: System, agent: AgentId, event: Event)
    requires Kept(env, inv) && inv(x) && Wrote(env, x, y, agent, event)
    ensures inv(y)
  {
    assert Micro(env, x, y);
  }

  lemma TransitionKeeps(env: Env, inv: System -> bool, k: Kernel, shared: Namespaces, agent: AgentId, trigger: Lifecycles.Trigger)
    requires Kept(env, inv) && inv(System(k, shared)) && Transition(k, agent, trigger).Some?
    ensures inv(System(Transition(k, agent, trigger).value, shared))
  {
    var k' := Transition(k, agent, trigger).value;
    var event := LifecycleTransition(StateOf(k.life, agent), StateOf(k'.life, agent), trigger);
    WroteKeeps(env, inv, System(k, shared), System(k', shared), agent, event);
  }

  lemma {:induction false} TransitionAllKeeps(env: Env, inv: System -> bool, k: Kernel, shared: Namespaces, agent: AgentId, triggers: seq<Lifecycles.Trigger>)
    requires Kept(env, inv) && inv(System(k, shared))
    ensures inv(System(TransitionAll(k, agent, triggers).0, shared))
    decreases |triggers|
  {
    if triggers != [] && Transition(k, agent, triggers[0]).Some? {
      TransitionKeeps(env, inv, k, shared, agent, triggers[0]);
      TransitionAllKeeps(env, inv, Transition(k, agent, triggers[0]).value, shared, agent, triggers[1..]);
    }
  }

  lemma RememberKeeps(env: Env, inv: System -> bool, k: Kernel, shared: Namespaces, op: MemoryOp)
    requires Kept(env, inv) && inv(System(k, shared))
    ensures inv(System(k.(log := WriteAhead(k.log, op), memory := Perform(k.memory, op)), shared))
  {
    var k' := k.(log := WriteAhead(k.log, op), memory := Perform(k.memory, op));
    var event := match op
      case Write(_, key, value, txId) => PersistentWrite(txId, key, value)
      case Delete(_, key, txId) => PersistentDelete(txId, key);
    WroteKeeps(env, inv, System(k, shared), System(k', shared), op.agentId, event);
  }

  lemma {:induction false} RememberAllKeeps(env: Env, inv: System -> bool, k: Kernel, shared: Namespaces, ops: seq<MemoryOp>)
    requires Kept(env, inv) && inv(System(k, shared))
    ensures inv(System(k.(log := WriteAllAhead(k.log, ops), memory := PerformAll(k.memory, ops)), shared))
    decreases |ops|
  {
    if ops != [] {
      RememberKeeps(env, inv, k, shared, ops[0]);
      RememberAllKeeps(env, inv, k.(log := WriteAhead(k.log, ops[0]), memory := Perform(k.memory, ops[0])), shared, ops[1..]);
    } else {
      assert k.(log := WriteAllAhead(k.log, ops), memory := PerformAll(k.memory, ops)) == k;
    }
  }

  lemma ToolCallKeeps(env: Env, inv: System -> bool, s: Loop, shared: Namespaces, agent: AgentId, toolName: Text, args: Json)
    requires Kept(env, inv) && inv(System(s.kernel, shared))
    ensures inv(System(Dispatch(env, Live, agent, s, PendingTool(toolName, args)).kernel, shared))
  {
    var q := ToolCallCounted(s.kernel.quotas, agent);
    var k := s.kernel.(quotas := q);
    var x := System(s.kernel, shared);
    if !ToolCallAdmitted(s.kernel.quotas, agent) || toolName !in env.handlers {
      assert CountedOnly(x, System(k, shared), agent);
      assert Micro(env, x, System(k, shared));
      if !ToolCallAdmitted(s.kernel.quotas, agent) && Transition(k, agent, Lifecycles.Trigger.Error).Some? {
        TransitionKeeps(env, inv, k, shared, agent, Lifecycles.Trigger.Error);
      }
    } else {
      var call := ToolCall(agent, toolName, args);
      var outcome := env.handlers[toolName](|k.calls|, args);
      var called := k.(calls := k.calls + [call]);
      assert Called(x, System(called, shared), call);
      assert Micro(env, x, System(called, shared));
      RememberAllKeeps(env, inv, called, shared, outcome.ops);
      var k' := Invoked(k, agent, toolName, args, outcome.ops);
      assert k' == called.(log := WriteAllAhead(called.log, outcome.ops), memory := PerformAll(called.memory, outcome.ops));
      if outcome.ending.Returned? {
        var event := ToolLogged(s.sequenceNumber, toolName, args, outcome.ending.value);
        WroteKeeps(env, inv, System(k', shared), System(Logged(k', agent, event), shared), agent, event);
      } else if outcome.ending.name == QUOTA_ERROR && Transition(k', agent, Lifecycles.Trigger.Error).Some? {
        TransitionKeeps(env, inv, k', shared, agent, Lifecycles.Trigger.Error);
      }
    }
  }

  lemma IterationKeeps(env: Env, inv: System -> bool, s: Loop, shared: Namespaces, agent: AgentId)
    requires Kept(env, inv) && inv(System(s.kernel, shared))
    requires s.status.Running? && StateOf(s.kernel.life, agent) == Active
    ensures inv(System(Iterate(env, Live, agent, s).kernel, shared))
  {
    var x := System(s.kernel, shared);
    if !TickAdmitted(s.kernel.quotas, agent) {
      var k := s.kernel.(quotas := TickCounted(s.kernel.quotas, agent));
      assert CountedOnly(x, System(k, shared), agent);
      assert Micro(env, x, System(k, shared));
      TransitionKeeps(env, inv, k, shared, agent, Lifecycles.Trigger.Error);
    } else {
      LiveIteration(env, agent, s);
      var k := Ticked(env, agent, s);
      WroteKeeps(env, inv, x, System(k, shared), agent, TickEntry(env, agent, s).event);
      var s2 := s.(kernel := k, inputs := s.inputs + [TickInput(agent, s.sequenceNumber, s.instruction, MAX_STEPS)]);
      match OutputAt(env, agent, s) {
        case Completed(_) => TransitionAllKeeps(env, inv, k, shared, agent, [Complete, TeardownOk]);
        case Failed(_) => TransitionAllKeeps(env, inv, k, shared, agent, [Lifecycles.Trigger.Error]);
        case PendingDelegation(_, _) => TransitionAllKeeps(env, inv, k, shared, agent, [Yield]);
        case PendingTool(toolName, args) => ToolCallKeeps(env, inv, s2, shared, agent, toolName, args);
      }
    }
  }

  lemma RunKeeps(env: Env, inv: System -> bool, s: Loop, shared: Namespaces, agent: AgentId, n: nat)
    requires Kept(env, inv) && inv(System(s.kernel, shared))
    requires s.status.Running? ==> StateOf(s.kernel.life, agent) == Active
    ensures inv(System(Run(env, Live, agent, s, n).kernel, shared))
  {
    var step := Step(env, Live, agent);
    var loopInv := (s: Loop) =>
      inv(System(s.kernel, shared)) && (s.status.Running? ==> StateOf(s.kernel.life, agent) == Active);
    forall s | loopInv(s) ensures loopInv(step(s)) {
      if s.status.Running? {
        IterationKeeps(env, inv, s, shared, agent);
        IterationAdvances(env, agent, s);
      }
    }
    RepeatKeeps(step, loopInv, s, n);
  }

  lemma EvaluatedKeeps(env: Env, inv: System -> bool, x: System, q: Question, policies: seq<Policy>)
    requires Kept(env, inv) && inv(x)
    ensures inv(x.(kernel := x.kernel.(log := Evaluated(x.kernel.log, q, policies))))
  {
    var y := x.(kernel := x.kernel.(log := Evaluated(x.kernel.log, q, policies)));
    WroteKeeps(env, inv, x, y, q.agentId, PermissionEvaluation(q.action, q.resource, Decision(q, policies), !Licensed(q)));
  }

  lemma AccessKeeps(env: Env, inv: System -> bool, x: System, a: Access, action: Text, event: Event, shared: Namespaces)
    requires Kept(env, inv) && inv(x)
    requires SharedAccess(event) && event.namespace == a.namespace && event.key == a.key
    requires action == if event.SharedRead? then READ else WRITE
    requires shared == if event.SharedWrite? then Written(x.shared, a.namespace, a.key, event.value) else x.shared
    requires Decision(a.Asking(action), a.policies) == Allow
    ensures inv(System(x.kernel.(log := Append(Checked(x.kernel.log, a, action), a.agentId, event)), shared))
  {
    var y := x.(kernel := x.kernel.(log := Checked(x.kernel.log, a, action)));
    EvaluatedKeeps(env, inv, x, a.Asking(action), a.policies);
    var z := System(y.kernel.(log := Append(y.kernel.log, a.agentId, event)), shared);
    WroteKeeps(env, inv, y, z, a.agentId, event);
  }

  lemma SharedKeeps(env: Env, inv: System -> bool, x: System, a: Access, action: Text, event: Event, shared: Namespaces)
    requires Kept(env, inv) && inv(x)
    requires SharedAccess(event) && event.namespace == a.namespace && event.key == a.key
    requires action == if event.SharedRead? then READ else WRITE
    requires shared == if event.SharedWrite? then Written(x.shared, a.namespace, a.key, event.value) else x.shared
    ensures inv(x.(kernel := x.kernel.(log := Checked(x.kernel.log, a, action))))
    ensures Decision(a.Asking(action), a.policies) == Allow ==>
      inv(System(x.kernel.(log := Append(Checked(x.kernel.log, a, action), a.agentId, event)), shared))
  {
    EvaluatedKeeps(env, inv, x, a.Asking(action), a.policies);
    if Decision(a.Asking(action), a.policies) == Allow {
      AccessKeeps(env, inv, x, a, action, event, shared);
    }
  }

  /** Every operation is a series of micro steps: what each of them keeps, the operation keeps. */
  lemma OpKeeps(env: Env, inv: System -> bool, x: System, op: Op)
    requires Kept(env, inv) && inv(x) && !op.Limit?
    ensures inv(Apply(env, x, op))
  {
    var k := x.kernel;
    assert x == System(k, x.shared);
    match op {
      case Trigger(agent, trigger) =>
        if Transition(k, agent, trigger).Some? { TransitionKeeps(env, inv, k, x.shared, agent, trigger); }
      case Remember(m) => RememberKeeps(env, inv, k, x.shared, m);
      case Evaluate(q, policies) => EvaluatedKeeps(env, inv, x, q, policies);
      case ReadShared(a) => SharedKeeps(env, inv, x, a, READ, SharedRead(a.namespace, a.key), x.shared);
      case WriteShared(a, value, txId) =>
        SharedKeeps(env, inv, x, a, WRITE, SharedWrite(txId, a.namespace, a.key, value),
                    Written(x.shared, a.namespace, a.key, value));
      case RunLoop(agent, instruction, n) => RunKeeps(env, inv, Begin(k, agent, instruction), x.shared, agent, n);
      case Note(agent, event) =>
        if Unrelated(event) { WroteKeeps(env, inv, x, x.(kernel := Logged(k, agent, event)), agent, event); }
    }
  }

  lemma {:induction false} AllKeep(env: Env, inv: System -> bool, x: System, ops: seq<Op>)
    requires Kept(env, inv) && inv(x)
    requires forall y: System, op | op in ops && op.Limit? && inv(y) :: inv(Apply(env, y, op))
    ensures inv(ApplyAll(env, x, ops))
    decreases |ops|
  {
    if ops != [] {
      assert ops[0] in ops;
      if !ops[0].Limit? { OpKeeps(env, inv, x, ops[0]); }
      AllKeep(env, inv, Apply(env, x, ops[0]), ops[1..]);
    }
  }

  lemma {:induction false} ApplyAllSplits(env: Env, x: System, before: seq<Op>, after: seq<Op>)
    ensures ApplyAll(env, x, before + after) == ApplyAll(env, ApplyAll(env, x, before), after)
    decreases |before|
  {
    if before == [] {
      assert before + after == after;
    } else {
      assert (before + after)[1..] == before[1..] + after;
      ApplyAllSplits(env, Apply(env, x, before[0]), before[1..], after);
    }
  }
}

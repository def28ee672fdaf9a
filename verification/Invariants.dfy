/** What holds in every LIVE kernel, whatever the interleaving of its components. */
module Invariants {
  import opened Ticks
  import opened Lifecycles
  import opened Log
  import opened Quotas
  import opened Execution
  import opened LiveRuns
  import opened Replaying
  import opened SharedMemory
  import opened Systems

  lemma AppendParts(log: seq<LogEntry>, agent: AgentId, event: Event)
    ensures var l := Append(log, agent, event);
      && |l| == |log| + 1 && l[..|log|] == log
      && l[|log|] == LogEntry(agent, |log| + 1, event)
      && forall i | 0 <= i < |log| :: l[i] == log[i]
  {
  }

  // ---- The log determines the state ----

  ghost predicate Recoverable(x: System) {
    Numbered(x.kernel.log) && ImageOf(x) == Fold(x.kernel.log)
  }

  lemma RecoverableKept(env: Env)
    ensures Kept(env, Recoverable)
  {
    forall x: System, y: System | Recoverable(x) && Micro(env, x, y) ensures Recoverable(y) {
      if agent, event :| Wrote(env, x, y, agent, event) {
        AppendParts(x.kernel.log, agent, event);
      }
    }
  }

  /** Folding the log gives the lifecycle map, every agent's memory and the shared store; folding the
      log as it stood after any earlier operation gives the state at that point. */
  lemma LogDeterminesState(env: Env, before: seq<Op>, after: seq<Op>)
    ensures var x := ApplyAll(env, BOOT, before);
      var y := ApplyAll(env, BOOT, before + after);
      && Fold(y.kernel.log) == ImageOf(y)
      && x.kernel.log <= y.kernel.log
      && Fold(y.kernel.log[..|x.kernel.log|]) == ImageOf(x)
      && forall i | 0 <= i < |y.kernel.log| :: y.kernel.log[i].busSeq == i + 1
  {
    AlwaysRecoverable(env, before);
    AlwaysRecoverable(env, before + after);
    ApplyAllSplits(env, BOOT, before, after);
    LogOnlyGrows(env, ApplyAll(env, BOOT, before), after);
  }

  /** The same within an agent loop: after any of its iterations, the log so far gives the state. */
  lemma LogDeterminesStateInLoop(env: Env, before: seq<Op>, agent: AgentId, instruction: Instruction, m: nat, n: nat)
    ensures var x := ApplyAll(env, BOOT, before);
      var y := Apply(env, x, RunLoop(agent, instruction, m));
      var z := Apply(env, x, RunLoop(agent, instruction, m + n));
      && y.kernel.log <= z.kernel.log
      && Fold(z.kernel.log[..|y.kernel.log|]) == ImageOf(y)
  {
    var x := ApplyAll(env, BOOT, before);
    var s := Begin(x.kernel, agent, instruction);
    AlwaysRecoverable(env, before);
    LoopRecoverable(env, x, s, agent, m);
    LoopLogGrows(env, s, x.shared, agent, m, n);
    LoopApplied(env, x, agent, instruction, m);
    LoopApplied(env, x, agent, instruction, m + n);
  }

  lemma LoopApplied(env: Env, x: System, agent: AgentId, instruction: Instruction, n: nat)
    ensures Apply(env, x, RunLoop(agent, instruction, n)) ==
      System(Run(env, Live, agent, Begin(x.kernel, agent, instruction), n).kernel, x.shared)
  {
  }

  lemma LoopRecoverable(env: Env, x: System, s: Loop, agent: AgentId, m: nat)
    requires Recoverable(x) && s.kernel == x.kernel
    requires s.status.Running? ==> StateOf(s.kernel.life, agent) == Active
    ensures Recoverable(System(Run(env, Live, agent, s, m).kernel, x.shared))
  {
    assert x == System(x.kernel, x.shared);
    RecoverableKept(env);
    RunKeeps(env, Recoverable, s, x.shared, agent, m);
  }

  lemma LoopLogGrows(env: Env, s: Loop, shared: Namespaces, agent: AgentId, m: nat, n: nat)
    requires s.status.Running? ==> StateOf(s.kernel.life, agent) == Active
    ensures var log, log' := Run(env, Live, agent, s, m).kernel.log, Run(env, Live, agent, s, m + n).kernel.log;
      log <= log' && log'[..|log|] == log
  {
    var t := Run(env, Live, agent, s, m);
    var grown := (z: System) => t.kernel.log <= z.kernel.log;
    LoopStaysActive(env, s, agent, m);
    RunKeeps(env, grown, t, shared, agent, n);
    RepeatSplits(Step(env, Live, agent), s, m, n);
  }

  lemma LoopStaysActive(env: Env, s: Loop, agent: AgentId, n: nat)
    requires s.status.Running? ==> StateOf(s.kernel.life, agent) == Active
    ensures var t := Run(env, Live, agent, s, n); t.status.Running? ==> StateOf(t.kernel.life, agent) == Active
  {
    var step := Step(env, Live, agent);
    var active := (t: Loop) => t.status.Running? ==> StateOf(t.kernel.life, agent) == Active;
    forall t | active(t) ensures active(step(t)) {
      if t.status.Running? { IterationAdvances(env, agent, t); }
    }
    RepeatKeeps(step, active, s, n);
  }

  lemma AlwaysRecoverable(env: Env, ops: seq<Op>)
    ensures Recoverable(ApplyAll(env, BOOT, ops))
  {
    RecoverableKept(env);
    AllKeep(env, Recoverable, BOOT, ops);
  }

  lemma LogOnlyGrows(env: Env, x: System, ops: seq<Op>)
    ensures var log, log' := x.kernel.log, ApplyAll(env, x, ops).kernel.log;
      log <= log' && log'[..|log|] == log
  {
    var grown := (z: System) => x.kernel.log <= z.kernel.log;
    AllKeep(env, grown, x, ops);
  }

  // ---- The state at any point of the log ----

  /** One step of a history: a micro step, or a quota set. */
  ghost predicate Link(env: Env, x: System, y: System) {
    Micro(env, x, y) || exists agent, quota :: y == Apply(env, x, Limit(agent, quota))
  }

  /** A history of the kernel that has come to `x`. */
  ghost predicate HistoryTo(env: Env, history: seq<System>, x: System) {
    && history != [] && history[|history| - 1] == x
    && forall i {:trigger history[i]} | 0 < i < |history| :: Link(env, history[i - 1], history[i])
  }

  /** `h` continues as some history of `x`. */
  ghost predicate Extends(env: Env, h: seq<System>, x: System) {
    exists h' :: h <= h' && HistoryTo(env, h', x)
  }

  lemma HistoryGrows(env: Env, h: seq<System>, x: System, y: System)
    requires HistoryTo(env, h, x) && Link(env, x, y)
    ensures HistoryTo(env, h + [y], y)
  {
    var g := h + [y];
    forall i {:trigger g[i]} | 0 < i < |g| ensures Link(env, g[i - 1], g[i]) {
      if i < |h| { assert g[i] == h[i] && g[i - 1] == h[i - 1]; }
    }
  }

  lemma LinkExtends(env: Env, h: seq<System>, x: System, y: System)
    requires Extends(env, h, x) && Link(env, x, y)
    ensures Extends(env, h, y)
  {
    var h' :| h <= h' && HistoryTo(env, h', x);
    HistoryGrows(env, h', x, y);
    assert h <= h' + [y];
  }

  lemma OpExtends(env: Env, h: seq<System>, x: System, op: Op)
    requires HistoryTo(env, h, x)
    ensures Extends(env, h, Apply(env, x, op))
  {
    assert Extends(env, h, x);
    if op.Limit? {
      LinkExtends(env, h, x, Apply(env, x, op));
    } else {
      var inv := (y: System) => Extends(env, h, y);
      forall y: System, z: System | inv(y) && Micro(env, y, z) ensures inv(z) {
        LinkExtends(env, h, y, z);
      }
      OpKeeps(env, inv, x, op);
    }
  }

  /** The history of a series of operations passes through the state after each of them. */
  lemma {:induction false} History(env: Env, h: seq<System>, x: System, ops: seq<Op>) returns (h': seq<System>)
    requires HistoryTo(env, h, x)
    ensures h <= h' && HistoryTo(env, h', ApplyAll(env, x, ops))
    ensures forall j | 0 <= j <= |ops| :: ApplyAll(env, x, ops[..j]) in h'
    decreases |ops|
  {
    h' := h;
    if ops != [] {
      var y := Apply(env, x, ops[0]);
      OpExtends(env, h, x, ops[0]);
      var g :| h <= g && HistoryTo(env, g, y);
      h' := History(env, g, y, ops[1..]);
      forall j | 0 <= j <= |ops| ensures ApplyAll(env, x, ops[..j]) in h' {
        PrefixApplied(env, x, ops, j);
        assert h'[|h| - 1] == x;
      }
    }
  }

  lemma PrefixApplied(env: Env, x: System, ops: seq<Op>, j: nat)
    requires ops != [] && j <= |ops|
    ensures ApplyAll(env, x, ops[..j]) == if j == 0 then x else ApplyAll(env, Apply(env, x, ops[0]), ops[1..][..j - 1])
  {
    if j > 0 {
      assert ops[..j][1..] == ops[1..][..j - 1];
    }
  }

  /** `x` is the kernel when its log was `log`, and that log alone says so. */
  ghost predicate StandsAt(x: System, log: seq<LogEntry>) {
    x.kernel.log == log && Fold(log) == ImageOf(x)
  }

  lemma {:induction false} HistoryCovers(env: Env, h: seq<System>, x: System)
    requires HistoryTo(env, h, x) && h[0] == BOOT
    ensures Recoverable(x)
    ensures forall p | 0 <= p <= |x.kernel.log| :: exists i :: 0 <= i < |h| && StandsAt(h[i], x.kernel.log[..p])
    decreases |h|
  {
    var n := |h| - 1;
    assert x.kernel.log[..|x.kernel.log|] == x.kernel.log;
    if n > 0 {
      var w := h[n - 1];
      HistoryCovers(env, h[..n], w);
      LinkRecovers(env, w, x);
      forall p | 0 <= p <= |x.kernel.log| ensures exists i :: 0 <= i < |h| && StandsAt(h[i], x.kernel.log[..p]) {
        if p == |x.kernel.log| {
          assert StandsAt(h[n], x.kernel.log[..p]);
        } else {
          var i :| 0 <= i < n && StandsAt(h[..n][i], w.kernel.log[..p]);
          assert x.kernel.log[..p] == w.kernel.log[..p];
          assert StandsAt(h[i], x.kernel.log[..p]);
        }
      }
    } else {
      assert StandsAt(h[0], x.kernel.log[..0]);
    }
  }

  lemma LinkRecovers(env: Env, w: System, x: System)
    requires Recoverable(w) && Link(env, w, x)
    ensures Recoverable(x) && w.kernel.log <= x.kernel.log && |x.kernel.log| <= |w.kernel.log| + 1
  {
    RecoverableKept(env);
  }

  /** Every run of the kernel has a history of single-entry steps, through the state after each operation,
      in which every busSeq has its state: folding the log up to any entry, one in the middle of an
      operation too, gives the lifecycle map, all memories and the shared store at that point. */
  lemma LogDeterminesStateAtAnyPoint(env: Env, ops: seq<Op>) returns (h: seq<System>)
    ensures HistoryTo(env, h, ApplyAll(env, BOOT, ops)) && h[0] == BOOT
    ensures forall j | 0 <= j <= |ops| :: ApplyAll(env, BOOT, ops[..j]) in h
    ensures var log := ApplyAll(env, BOOT, ops).kernel.log;
      forall p | 0 <= p <= |log| :: exists i :: 0 <= i < |h| && StandsAt(h[i], log[..p])
  {
    h := History(env, [BOOT], BOOT, ops);
    HistoryCovers(env, h, ApplyAll(env, BOOT, ops));
  }

  // ---- Logged hashes are honest ----

  lemma HonestKept(env: Env, agent: AgentId)
    ensures Kept(env, (x: System) => Honest(env, x.kernel.log, agent))
  {
    forall x: System, y: System | Honest(env, x.kernel.log, agent) && Micro(env, x, y)
      ensures Honest(env, y.kernel.log, agent)
    {
      if author, event :| Wrote(env, x, y, author, event) {
        TraceAppend(x.kernel.log, agent, author, event);
      }
    }
  }

  /** In every kernel, each TICK_OUTPUT of any agent carries the hash of its own output with some
      lifecycle state and memory: what the soundness of replay asks of a log. */
  lemma EveryLogIsHonest(env: Env, ops: seq<Op>, agent: AgentId)
    ensures Honest(env, ApplyAll(env, BOOT, ops).kernel.log, agent)
  {
    HonestKept(env, agent);
    AllKeep(env, (x: System) => Honest(env, x.kernel.log, agent), BOOT, ops);
  }

  // ---- Lifecycle histories; TERMINATED is final ----

  predicate EndsAgent(e: LogEntry) {
    e.event.LifecycleTransition? && e.event.to == Terminated
  }

  /** Histories are paths, an agent whose end is logged is in TERMINATED, and ticked no more. */
  ghost predicate Sealed(x: System) {
    && SilentAfterEnd(x.kernel.log)
    && HistoriesArePaths(x.kernel.life)
    && forall i | 0 <= i < |x.kernel.log| && EndsAgent(x.kernel.log[i]) ::
         StateOf(x.kernel.life, x.kernel.log[i].agentId) == Terminated
  }

  ghost predicate SilentAfterEnd(log: seq<LogEntry>) {
    forall i, j | 0 <= i < j < |log| && EndsAgent(log[i]) && log[j].event.TickLogged? ::
      log[j].agentId != log[i].agentId
  }

  lemma SilentStep(env: Env, x: System, y: System, agent: AgentId, event: Event)
    requires Sealed(x) && Wrote(env, x, y, agent, event)
    ensures SilentAfterEnd(y.kernel.log)
  {
    AppendParts(x.kernel.log, agent, event);
    if event.TickLogged? {
      assert forall i | 0 <= i < |x.kernel.log| && EndsAgent(x.kernel.log[i]) :: x.kernel.log[i].agentId != agent;
    }
  }

  lemma SealedStep(env: Env, x: System, y: System, agent: AgentId, event: Event)
    requires Sealed(x) && Wrote(env, x, y, agent, event)
    ensures Sealed(y)
  {
    SilentStep(env, x, y, agent, event);
    AppendParts(x.kernel.log, agent, event);
    if event.LifecycleTransition? {
      FireKeepsPaths(x.kernel.life, agent, event.trigger);
      assert y.kernel.life.states == x.kernel.life.states[agent := event.to];
    }
  }

  lemma SealedKept(env: Env)
    ensures Kept(env, Sealed)
  {
    forall x: System, y: System | Sealed(x) && Micro(env, x, y)
      ensures Sealed(y)
    {
      if agent, event :| Wrote(env, x, y, agent, event) {
        SealedStep(env, x, y, agent, event);
      }
    }
  }

  /** Each history is a path from DEFINED to the current state, and no TICK_OUTPUT of an agent follows
      its transition to TERMINATED in the log. */
  lemma TerminatedAgentsStaySilent(env: Env, ops: seq<Op>)
    ensures var y := ApplyAll(env, BOOT, ops);
      HistoriesArePaths(y.kernel.life) && SilentAfterEnd(y.kernel.log)
  {
    SealedKept(env);
    AllKeep(env, Sealed, BOOT, ops);
  }

  // ---- Shared accesses are licensed ----

  ghost predicate AccessesLicensed(x: System) {
    var log := x.kernel.log;
    forall i | 0 <= i < |log| && SharedAccess(log[i].event) ::
      i > 0 && Licenses(log[i - 1], log[i].agentId, log[i].event)
  }

  lemma LicensesKept(env: Env)
    ensures Kept(env, AccessesLicensed)
  {
    forall x: System, y: System | AccessesLicensed(x) && Micro(env, x, y) ensures AccessesLicensed(y) {
      if agent, event :| Wrote(env, x, y, agent, event) {
        AppendParts(x.kernel.log, agent, event);
      }
    }
  }

  /** Every logged shared read or write is immediately preceded by a PERMISSION_EVALUATION with result
      ALLOW for the same agent, action and resource. */
  lemma SharedAccessesAreLicensed(env: Env, ops: seq<Op>)
    ensures AccessesLicensed(ApplyAll(env, BOOT, ops))
  {
    LicensesKept(env);
    AllKeep(env, AccessesLicensed, BOOT, ops);
  }

  // ---- Budgets ----

  function TicksOf(log: seq<LogEntry>, agent: AgentId): nat {
    if log == [] then 0
    else
      var e := log[|log| - 1];
      TicksOf(log[..|log| - 1], agent) + (if e.agentId == agent && e.event.TickLogged? then 1 else 0)
  }

  function CallsOf(calls: seq<ToolCall>, agent: AgentId): nat {
    if calls == [] then 0
    else CallsOf(calls[..|calls| - 1], agent) + (if calls[|calls| - 1].agentId == agent then 1 else 0)
  }

  /** Nothing is logged or called uncounted. */
  ghost predicate AllCounted(x: System) {
    forall agent: AgentId ::
      && TicksOf(x.kernel.log, agent) <= UsageOf(x.kernel.quotas, agent).ticks
      && CallsOf(x.kernel.calls, agent) <= UsageOf(x.kernel.quotas, agent).toolCalls
  }

  /** The agent's quota stands, and its ticks and calls have not grown beyond it since they were `t`, `c`. */
  ghost predicate WithinBudget(x: System, agent: AgentId, quota: Quota, t: nat, c: nat) {
    var ticks, calls := TicksOf(x.kernel.log, agent), CallsOf(x.kernel.calls, agent);
    && agent in x.kernel.quotas.limits && x.kernel.quotas.limits[agent] == quota
    && ticks <= UsageOf(x.kernel.quotas, agent).ticks && (ticks <= t || ticks <= quota.maxTicks)
    && calls <= UsageOf(x.kernel.quotas, agent).toolCalls && (calls <= c || calls <= quota.maxToolCalls)
  }

  /** One more tick, or one more call, only if the quota admits it; each is counted. */
  ghost predicate Counts(x: System, y: System, agent: AgentId) {
    var u, v := UsageOf(x.kernel.quotas, agent), UsageOf(y.kernel.quotas, agent);
    var ticks, ticks' := TicksOf(x.kernel.log, agent), TicksOf(y.kernel.log, agent);
    var calls, calls' := CallsOf(x.kernel.calls, agent), CallsOf(y.kernel.calls, agent);
    && y.kernel.quotas.limits == x.kernel.quotas.limits
    && ((ticks' == ticks && v.ticks >= u.ticks)
        || (ticks' == ticks + 1 && v.ticks == u.ticks + 1 && TickAdmitted(x.kernel.quotas, agent)))
    && ((calls' == calls && v.toolCalls >= u.toolCalls)
        || (calls' == calls + 1 && v.toolCalls == u.toolCalls + 1 && ToolCallAdmitted(x.kernel.quotas, agent)))
  }

  lemma WroteCounts(env: Env, x: System, y: System, author: AgentId, event: Event, agent: AgentId)
    requires Wrote(env, x, y, author, event)
    ensures Counts(x, y, agent)
  {
    AppendParts(x.kernel.log, author, event);
  }

  lemma CalledCounts(x: System, y: System, call: ToolCall, agent: AgentId)
    requires Called(x, y, call)
    ensures Counts(x, y, agent)
  {
    assert y.kernel.calls[..|x.kernel.calls|] == x.kernel.calls;
  }

  lemma CountsStep(env: Env, x: System, y: System, agent: AgentId)
    requires Micro(env, x, y)
    ensures Counts(x, y, agent)
  {
    if author, event :| Wrote(env, x, y, author, event) {
      WroteCounts(env, x, y, author, event, agent);
    } else if call :| Called(x, y, call) {
      CalledCounts(x, y, call, agent);
    }
  }

  lemma AlwaysCounted(env: Env, ops: seq<Op>)
    ensures AllCounted(ApplyAll(env, BOOT, ops))
  {
    forall x: System, y: System | AllCounted(x) && Micro(env, x, y) ensures AllCounted(y) {
      forall agent: AgentId
        ensures TicksOf(y.kernel.log, agent) <= UsageOf(y.kernel.quotas, agent).ticks
        ensures CallsOf(y.kernel.calls, agent) <= UsageOf(y.kernel.quotas, agent).toolCalls
      {
        CountsStep(env, x, y, agent);
      }
    }
    AllKeep(env, AllCounted, BOOT, ops);
  }

  /** From the moment a quota is set, and while it is not changed, an agent's TICK_OUTPUT entries and
      handler calls do not grow beyond it, over any number of runs and other operations. */
  lemma QuotaBoundsEveryRun(env: Env, before: seq<Op>, agent: AgentId, quota: Quota, after: seq<Op>)
    requires forall op | op in after && op.Limit? :: op.agent != agent
    ensures var x := ApplyAll(env, BOOT, before);
      var y := ApplyAll(env, Apply(env, x, Limit(agent, quota)), after);
      var ticks, calls := TicksOf(y.kernel.log, agent), CallsOf(y.kernel.calls, agent);
      && (ticks <= TicksOf(x.kernel.log, agent) || ticks <= quota.maxTicks)
      && (calls <= CallsOf(x.kernel.calls, agent) || calls <= quota.maxToolCalls)
  {
    var x := ApplyAll(env, BOOT, before);
    var t, c := TicksOf(x.kernel.log, agent), CallsOf(x.kernel.calls, agent);
    var inv := (z: System) => WithinBudget(z, agent, quota, t, c);
    forall z: System, y: System | inv(z) && Micro(env, z, y) ensures inv(y) {
      CountsStep(env, z, y, agent);
    }
    AlwaysCounted(env, before);
    AllKeep(env, inv, Apply(env, x, Limit(agent, quota)), after);
  }
}

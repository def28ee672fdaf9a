/** Replaying a LIVE run from its log (execution/scheduler.ts, tools/gate.ts): exactly when the replay
    of any run reproduces it, when a first run replays, and what an undisturbed replay proves. */
module Replaying {
  import opened Options
  import opened Texts
  import opened Values
  import opened Ticks
  import opened Lifecycles
  import opened Log
  import opened Memory
  import opened Quotas
  import opened Execution
  import opened LiveRuns
  import opened StateHashes

  // ---- A replay touches nothing ----

  /** Nothing is appended, no handler called, no memory written. */
  ghost predicate Untouched(r: Loop, u: Loop) {
    u.kernel.log == r.kernel.log && u.kernel.memory == r.kernel.memory && u.kernel.calls == r.kernel.calls
  }

  lemma DispatchUntouched(env: Env, agent: AgentId, r: Loop, output: TickOutput)
    ensures Untouched(r, Dispatch(env, Replay, agent, r, output))
  {
  }

  lemma IterationUntouched(env: Env, agent: AgentId, r: Loop)
    requires r.status.Running?
    ensures Untouched(r, Iterate(env, Replay, agent, r))
  {
    if TickAdmitted(r.kernel.quotas, agent) {
      var counted := r.kernel.(quotas := TickCounted(r.kernel.quotas, agent));
      var input := TickInput(agent, r.sequenceNumber, r.instruction, MAX_STEPS);
      var output := env.tick(input);
      var r1 := r.(kernel := counted, inputs := r.inputs + [input]);
      DispatchUntouched(env, agent, Recorded(Replay, agent, r1, output, StateHash(env, counted, agent, output)), output);
    }
  }

  /** Whatever the log, the engine, the hash and the agent's state: a replay appends nothing to the log,
      calls no handler and writes no memory. */
  lemma ReplayTouchesNothing(env: Env, agent: AgentId, k: Kernel, first: Instruction, n: nat)
    ensures Untouched(Begin(k, agent, first), Run(env, Replay, agent, Begin(k, agent, first), n))
  {
    var step, r := Step(env, Replay, agent), Begin(k, agent, first);
    var inv := (x: Loop) => Untouched(r, x);
    forall x | inv(x) ensures inv(step(x)) {
      if x.status.Running? { IterationUntouched(env, agent, x); }
    }
    RepeatKeeps(step, inv, r, n);
  }

  // ---- One iteration, LIVE against REPLAY ----

  const FAILED_CALLS := {Threw(ToolNotFound), Threw(HandlerThrew), Threw(HandlerOverQuota)}
  const REPLAY_ERRORS := {Threw(ReplayMissingLog), Threw(CryptographicDivergence)}

  /** A failed tool call replays as a missing tool result. */
  function Mirror(status: Status): Status {
    if status in FAILED_CALLS then Threw(ReplayMissingToolResult) else status
  }

  /** The replay stands where the LIVE run stood. */
  ghost predicate Matches(agent: AgentId, s: Loop, r: Loop) {
    && r.status == Mirror(s.status)
    && r.sequenceNumber == s.sequenceNumber && r.instruction == s.instruction && r.inputs == s.inputs
    && StateOf(r.kernel.life, agent) == StateOf(s.kernel.life, agent)
    && SameQuota(agent, s.kernel.quotas, r.kernel.quotas)
  }

  ghost predicate SameQuota(agent: AgentId, p: QuotaState, q: QuotaState) {
    && UsageOf(p, agent) == UsageOf(q, agent)
    && (agent in p.limits <==> agent in q.limits)
    && (agent in p.limits ==> p.limits[agent] == q.limits[agent])
  }

  /** The first tick logged under the number of `s` carries the hash of its output in ACTIVE with `memory`. */
  ghost predicate TickFound(env: Env, agent: AgentId, log: seq<LogEntry>, memory: JsonRecord, s: Loop) {
    var found := First(log, TickAt(agent, s.sequenceNumber));
    found.Some? && StateHashOf(found.value) == env.hash(OutputAt(env, agent, s), Active, memory)
  }

  /** The first tool result logged under the number of `s` is the one the run went on with; there is
      none if its call failed. */
  ghost predicate ToolRecalled(agent: AgentId, log: seq<LogEntry>, s: Loop, t: Loop) {
    var found := First(log, ToolAt(agent, s.sequenceNumber));
    && (t.status.Running? ==> found.Some? && t.instruction == Return(ToolResultOf(found.value)))
    && (t.status in FAILED_CALLS ==> found == None)
  }

  /** No lookup stands in for a tool's quota error: it faulted the agent. */
  ghost predicate ToolFound(agent: AgentId, log: seq<LogEntry>, s: Loop, t: Loop) {
    ToolRecalled(agent, log, s, t) && t.status != Threw(HandlerOverQuota)
  }

  /** The LIVE agent was faulted by a tool's quota error; the replay misses a tool result and leaves it ACTIVE. */
  ghost predicate QuotaErrorLost(agent: AgentId, t: Loop, u: Loop) {
    && t.status == Threw(HandlerOverQuota) && StateOf(t.kernel.life, agent) == Faulted
    && u.status == Threw(ReplayMissingToolResult) && StateOf(u.kernel.life, agent) == Active
  }

  /** The log answers the lookups of the iteration from `s` to `t` as the LIVE run went. */
  ghost predicate Found(env: Env, agent: AgentId, log: seq<LogEntry>, memory: JsonRecord, s: Loop, t: Loop) {
    TickAdmitted(s.kernel.quotas, agent) ==> TickFound(env, agent, log, memory, s) && ToolFound(agent, log, s, t)
  }

  /** The replay `y` has left the LIVE run `x` and cannot come back. */
  ghost predicate Split(agent: AgentId, x: Loop, y: Loop) {
    || (y.status in REPLAY_ERRORS && x.status !in REPLAY_ERRORS)
    || (y.status == Threw(ReplayMissingToolResult) && y.sequenceNumber < x.sequenceNumber)
    || (!x.status.Running? && x.sequenceNumber < y.sequenceNumber)
    || (!x.status.Running? && !y.status.Running? && StateOf(x.kernel.life, agent) != StateOf(y.kernel.life, agent))
    || (exists i :: 0 <= i < |x.inputs| && i < |y.inputs| && x.inputs[i] != y.inputs[i])
    || (&& x.inputs == y.inputs && x.instruction != y.instruction && x.status.Running? == y.status.Running?
        && (x.status.Running? ==> SameQuota(agent, x.kernel.quotas, y.kernel.quotas)))
  }

  /** What the replayed iteration from `r` to `u` does against the LIVE one from `s` to `t`. */
  ghost predicate Follows(env: Env, agent: AgentId, s: Loop, t: Loop, r: Loop, u: Loop) {
    var log, memory := r.kernel.log, SnapshotOf(r.kernel.memory, agent);
    && Untouched(r, u)
    && (Found(env, agent, log, memory, s, t) ==> Matches(agent, t, u))
    && (!Found(env, agent, log, memory, s, t) ==> Split(agent, t, u))
    && (TickAdmitted(s.kernel.quotas, agent) && TickFound(env, agent, log, memory, s)
        && ToolRecalled(agent, log, s, t) && t.status == Threw(HandlerOverQuota)
        ==> QuotaErrorLost(agent, t, u))
    && (TickAdmitted(s.kernel.quotas, agent) && !TickFound(env, agent, log, memory, s) ==>
          u.status == Threw(if First(log, TickAt(agent, s.sequenceNumber)).None? then ReplayMissingLog
                            else CryptographicDivergence))
  }

  lemma DispatchFollows(env: Env, agent: AgentId, s: Loop, r: Loop, output: TickOutput)
    requires s.status.Running? && StateOf(s.kernel.life, agent) == Active && Matches(agent, s, r)
    ensures var t, u := Dispatch(env, Live, agent, s, output), Dispatch(env, Replay, agent, r, output);
      && (if ToolFound(agent, r.kernel.log, s, t) then Matches(agent, t, u) else Split(agent, t, u))
      && (ToolRecalled(agent, r.kernel.log, s, t) && t.status == Threw(HandlerOverQuota) ==> QuotaErrorLost(agent, t, u))
  {
    match output {
      case Completed(_) => ExitFromActive(agent, s, [Complete, TeardownOk], Terminated);
      case Failed(_) => ExitFromActive(agent, s, [Trigger.Error], Faulted);
      case PendingDelegation(_, _) => ExitFromActive(agent, s, [Yield], Waiting);
      case PendingTool(toolName, args) => CallFollows(env, agent, s, r, toolName, args);
    }
  }

  lemma CallFollows(env: Env, agent: AgentId, s: Loop, r: Loop, toolName: Text, args: Json)
    requires s.status.Running? && StateOf(s.kernel.life, agent) == Active && Matches(agent, s, r)
    ensures var output := PendingTool(toolName, args);
      var t, u := Dispatch(env, Live, agent, s, output), Dispatch(env, Replay, agent, r, output);
      && (if ToolFound(agent, r.kernel.log, s, t) then Matches(agent, t, u) else Split(agent, t, u))
      && (ToolRecalled(agent, r.kernel.log, s, t) && t.status == Threw(HandlerOverQuota) ==> QuotaErrorLost(agent, t, u))
  {
    var output := PendingTool(toolName, args);
    ToolCallFromActive(env, agent, s, toolName, args);
    ReplayedCall(env, agent, s, r, toolName, args);
    var t, u := Dispatch(env, Live, agent, s, output), Dispatch(env, Replay, agent, r, output);
    assert ToolCallAdmitted(s.kernel.quotas, agent) == ToolCallAdmitted(r.kernel.quotas, agent);
  }

  /** What a replayed tool call does, refused by quota, answered from the log, or missing. */
  lemma ReplayedCall(env: Env, agent: AgentId, s: Loop, r: Loop, toolName: Text, args: Json)
    requires r.status.Running? && Matches(agent, s, r)
    ensures var u := Dispatch(env, Replay, agent, r, PendingTool(toolName, args));
      var found := First(r.kernel.log, ToolAt(agent, s.sequenceNumber));
      && u.inputs == r.inputs
      && UsageOf(u.kernel.quotas, agent) == UsageOf(ToolCallCounted(s.kernel.quotas, agent), agent)
      && u.kernel.quotas.limits == r.kernel.quotas.limits
      && if !ToolCallAdmitted(r.kernel.quotas, agent) then
           && u.status == Threw(QuotaExceeded) && StateOf(u.kernel.life, agent) == Faulted
           && u.sequenceNumber == r.sequenceNumber && u.instruction == r.instruction
         else
           && u.kernel.life == r.kernel.life
           && if found.None? then
                u.status == Threw(ReplayMissingToolResult)
                && u.sequenceNumber == r.sequenceNumber && u.instruction == r.instruction
              else
                u.status == Running && u.sequenceNumber == r.sequenceNumber + 1
                && u.instruction == Return(ToolResultOf(found.value))
  {
  }

  /** A LIVE iteration raises no replay error. */
  lemma LiveStatus(env: Env, agent: AgentId, s: Loop)
    requires s.status.Running? && StateOf(s.kernel.life, agent) == Active
    ensures Iterate(env, Live, agent, s).status !in REPLAY_ERRORS
  {
    IterationAdvances(env, agent, s);
  }

  lemma IterationFollows(env: Env, agent: AgentId, s: Loop, r: Loop)
    requires s.status.Running? && StateOf(s.kernel.life, agent) == Active && Matches(agent, s, r)
    ensures Follows(env, agent, s, Iterate(env, Live, agent, s), r, Iterate(env, Replay, agent, r))
  {
    IterationUntouched(env, agent, r);
    var counted := r.kernel.(quotas := TickCounted(r.kernel.quotas, agent));
    if !TickAdmitted(s.kernel.quotas, agent) {
      AbortFromActive(agent, s.(kernel := s.kernel.(quotas := TickCounted(s.kernel.quotas, agent))));
    } else {
      LiveIteration(env, agent, s);
      LiveStatus(env, agent, s);
      var input := TickInput(agent, s.sequenceNumber, s.instruction, MAX_STEPS);
      var output := env.tick(input);
      var s2 := s.(kernel := Ticked(env, agent, s), inputs := s.inputs + [input]);
      var r1 := r.(kernel := counted, inputs := r.inputs + [input]);
      var r2 := Recorded(Replay, agent, r1, output, StateHash(env, counted, agent, output));
      assert StateHash(env, counted, agent, output) == env.hash(output, Active, SnapshotOf(r.kernel.memory, agent));
      if TickFound(env, agent, r.kernel.log, SnapshotOf(r.kernel.memory, agent), s) {
        assert r2 == r1;
        DispatchFollows(env, agent, s2, r1, output);
      }
    }
  }

  /** In either mode an iteration adds at most its own input and never lowers the sequence number. */
  ghost predicate Grows(agent: AgentId, s: Loop, t: Loop) {
    && s.sequenceNumber <= t.sequenceNumber
    && if TickAdmitted(s.kernel.quotas, agent) then
         t.inputs == s.inputs + [TickInput(agent, s.sequenceNumber, s.instruction, MAX_STEPS)]
       else t.inputs == s.inputs && t.instruction == s.instruction && t.status == Threw(QuotaExceeded)
  }

  lemma IterationGrows(env: Env, mode: Mode, agent: AgentId, s: Loop)
    requires s.status.Running?
    ensures Grows(agent, s, Iterate(env, mode, agent, s))
  {
    if TickAdmitted(s.kernel.quotas, agent) {
      var counted := s.kernel.(quotas := TickCounted(s.kernel.quotas, agent));
      var input := TickInput(agent, s.sequenceNumber, s.instruction, MAX_STEPS);
      var output := env.tick(input);
      var s1 := s.(kernel := counted, inputs := s.inputs + [input]);
      var s2 := Recorded(mode, agent, s1, output, StateHash(env, counted, agent, output));
      assert s2.inputs == s1.inputs && s2.sequenceNumber == s.sequenceNumber;
    }
  }

  // ---- Whole runs ----

  /** The two step functions, seen only through what one iteration is known to do. */
  ghost predicate Lockstep(env: Env, agent: AgentId, live: Loop -> Loop, replay: Loop -> Loop) {
    && (forall x: Loop {:trigger Advances(env, agent, x, live(x))} ::
          x.status.Running? && StateOf(x.kernel.life, agent) == Active ==> Advances(env, agent, x, live(x)))
    && (forall x: Loop {:trigger live(x)} :: if x.status.Running? then Grows(agent, x, live(x)) else live(x) == x)
    && (forall x: Loop {:trigger replay(x)} :: if x.status.Running? then Grows(agent, x, replay(x)) else replay(x) == x)
    && (forall x: Loop, y: Loop {:trigger Follows(env, agent, x, live(x), y, replay(y))} ::
          x.status.Running? && StateOf(x.kernel.life, agent) == Active && Matches(agent, x, y) ==>
            Follows(env, agent, x, live(x), y, replay(y)))
  }

  lemma StepsGrow(env: Env, mode: Mode, agent: AgentId)
    ensures var step := Step(env, mode, agent);
      forall x: Loop {:trigger step(x)} :: if x.status.Running? then Grows(agent, x, step(x)) else step(x) == x
  {
    var step := Step(env, mode, agent);
    forall x: Loop ensures if x.status.Running? then Grows(agent, x, step(x)) else step(x) == x {
      if x.status.Running? { IterationGrows(env, mode, agent, x); }
    }
  }

  lemma StepsFollow(env: Env, agent: AgentId)
    ensures var live, replay := Step(env, Live, agent), Step(env, Replay, agent);
      forall x: Loop, y: Loop {:trigger Follows(env, agent, x, live(x), y, replay(y))} ::
        x.status.Running? && StateOf(x.kernel.life, agent) == Active && Matches(agent, x, y) ==>
          Follows(env, agent, x, live(x), y, replay(y))
  {
    var live, replay := Step(env, Live, agent), Step(env, Replay, agent);
    forall x: Loop, y: Loop | x.status.Running? && StateOf(x.kernel.life, agent) == Active && Matches(agent, x, y)
      ensures Follows(env, agent, x, live(x), y, replay(y))
    {
      IterationFollows(env, agent, x, y);
    }
  }

  lemma StepsAreLockstep(env: Env, agent: AgentId)
    ensures Lockstep(env, agent, Step(env, Live, agent), Step(env, Replay, agent))
  {
    var live, replay := Step(env, Live, agent), Step(env, Replay, agent);
    forall x: Loop | x.status.Running? && StateOf(x.kernel.life, agent) == Active
      ensures Advances(env, agent, x, live(x))
    {
      IterationAdvances(env, agent, x);
    }
    StepsGrow(env, Live, agent);
    StepsGrow(env, Replay, agent);
    StepsFollow(env, agent);
  }

  /** An ACTIVE agent that runs is still ACTIVE, and no LIVE iteration raises a replay error. */
  ghost predicate Fit(agent: AgentId, s: Loop) {
    && (s.status.Running? ==> StateOf(s.kernel.life, agent) == Active)
    && s.status !in REPLAY_ERRORS
  }

  lemma StaysFit(env: Env, agent: AgentId, live: Loop -> Loop, replay: Loop -> Loop, s: Loop)
    requires Lockstep(env, agent, live, replay) && Fit(agent, s)
    ensures Fit(agent, live(s))
  {
    if s.status.Running? {
      assert Advances(env, agent, s, live(s));
    } else {
      assert live(s) == s;
    }
  }

  lemma SplitStays(env: Env, agent: AgentId, live: Loop -> Loop, replay: Loop -> Loop, x: Loop, y: Loop)
    requires Lockstep(env, agent, live, replay) && Fit(agent, x) && Split(agent, x, y)
    ensures Split(agent, live(x), replay(y))
  {
    StaysFit(env, agent, live, replay, x);
    var t, u := live(x), replay(y);
    assert if x.status.Running? then Grows(agent, x, t) else t == x;
    assert if y.status.Running? then Grows(agent, y, u) else u == y;
    if i :| 0 <= i < |x.inputs| && i < |y.inputs| && x.inputs[i] != y.inputs[i] {
      assert t.inputs[i] == x.inputs[i] && u.inputs[i] == y.inputs[i];
    } else if x.inputs == y.inputs && x.instruction != y.instruction && x.status.Running? && y.status.Running?
      && SameQuota(agent, x.kernel.quotas, y.kernel.quotas) && TickAdmitted(x.kernel.quotas, agent)
    {
      var i := |x.inputs|;
      assert t.inputs[i].instruction == x.instruction && u.inputs[i].instruction == y.instruction;
    }
  }

  lemma {:induction false} SplitForGood(env: Env, agent: AgentId, live: Loop -> Loop, replay: Loop -> Loop,
                                        x: Loop, y: Loop, n: nat)
    requires Lockstep(env, agent, live, replay) && Fit(agent, x) && Split(agent, x, y)
    ensures !Matches(agent, Repeat(live, x, n), Repeat(replay, y, n))
    decreases n
  {
    if n > 0 {
      StaysFit(env, agent, live, replay, x);
      SplitStays(env, agent, live, replay, x, y);
      SplitForGood(env, agent, live, replay, live(x), replay(y), n - 1);
    }
  }

  /** Every lookup of the run from `s` is answered as the LIVE run went. */
  ghost predicate AllFound(env: Env, agent: AgentId, live: Loop -> Loop, log: seq<LogEntry>, memory: JsonRecord, s: Loop, n: nat)
    decreases n
  {
    n > 0 && s.status.Running? ==>
      Found(env, agent, log, memory, s, live(s)) && AllFound(env, agent, live, log, memory, live(s), n - 1)
  }

  lemma {:induction false} MatchesExactly(env: Env, agent: AgentId, live: Loop -> Loop, replay: Loop -> Loop,
                                          s: Loop, r: Loop, n: nat)
    requires Lockstep(env, agent, live, replay) && Fit(agent, s) && Matches(agent, s, r)
    ensures Matches(agent, Repeat(live, s, n), Repeat(replay, r, n)) <==>
      AllFound(env, agent, live, r.kernel.log, SnapshotOf(r.kernel.memory, agent), s, n)
    decreases n
  {
    if n > 0 && s.status.Running? {
      assert Follows(env, agent, s, live(s), r, replay(r));
      StaysFit(env, agent, live, replay, s);
      if Found(env, agent, r.kernel.log, SnapshotOf(r.kernel.memory, agent), s, live(s)) {
        MatchesExactly(env, agent, live, replay, live(s), replay(r), n - 1);
      } else {
        SplitForGood(env, agent, live, replay, live(s), replay(r), n - 1);
      }
    } else {
      OverOrDone(live, s, n);
      OverOrDone(replay, r, n);
    }
  }

  lemma OverOrDone(step: Loop -> Loop, s: Loop, n: nat)
    requires n > 0 ==> !s.status.Running? && step(s) == s
    ensures Repeat(step, s, n) == s
  {
    if n > 0 { OverStaysOver(step, s, n); }
  }

  /** Exactly when a replay reproduces a LIVE run, the agent's first or any later one, of any length,
      for any engine, tools and hash, against any log and memory: same tick inputs in order, same
      lifecycle state, same quota state, same ending (a failed tool call ends as a missing tool result).
      It does if and only if, for every tick the run executed, the first entry of its number carries the
      hash that the replay's memory gives, and the first tool result of its number is the run's own. */
  lemma ReplayMatchesExactly(env: Env, agent: AgentId, k: Kernel, first: Instruction, n: nat, k': Kernel)
    requires StateOf(k'.life, agent) == StateOf(k.life, agent) && SameQuota(agent, k.quotas, k'.quotas)
    ensures Matches(agent, Run(env, Live, agent, Begin(k, agent, first), n),
                    Run(env, Replay, agent, Begin(k', agent, first), n)) <==>
      AllFound(env, agent, Step(env, Live, agent), k'.log, SnapshotOf(k'.memory, agent), Begin(k, agent, first), n)
  {
    StepsAreLockstep(env, agent);
    MatchesExactly(env, agent, Step(env, Live, agent), Step(env, Replay, agent),
                   Begin(k, agent, first), Begin(k', agent, first), n);
  }

  // ---- First runs ----

  /** Every executed tick hashed as it does with `memory`. */
  ghost predicate SameHashes(env: Env, live: Loop -> Loop, agent: AgentId, memory: JsonRecord, s: Loop, n: nat)
    decreases n
  {
    n > 0 && s.status.Running? ==>
      && (TickAdmitted(s.kernel.quotas, agent) ==> SameHash(env, agent, memory, s))
      && SameHashes(env, live, agent, memory, live(s), n - 1)
  }

  ghost predicate SameHash(env: Env, agent: AgentId, memory: JsonRecord, s: Loop) {
    StateHash(env, s.kernel, agent, OutputAt(env, agent, s)) == env.hash(OutputAt(env, agent, s), Active, memory)
  }

  lemma {:induction false} TraceGrows(env: Env, agent: AgentId, live: Loop -> Loop, replay: Loop -> Loop, s: Loop, n: nat)
    requires Lockstep(env, agent, live, replay)
    requires s.status.Running? ==> StateOf(s.kernel.life, agent) == Active
    ensures TraceOf(s.kernel.log, agent) <= TraceOf(Repeat(live, s, n).kernel.log, agent)
    decreases n
  {
    if n > 0 {
      var t := live(s);
      if s.status.Running? {
        assert Advances(env, agent, s, t);
        assert TraceOf(s.kernel.log, agent) <= TraceOf(t.kernel.log, agent);
      }
      TraceGrows(env, agent, live, replay, t, n - 1);
    }
  }

  /** The entries of a dialogue carry no number beyond its length. */
  lemma {:induction false} DialogueNumbers(env: Env, agent: AgentId, rounds: seq<Round>, first: Instruction, q: nat)
    requires Dialogue(env, agent, rounds, first) && q > |rounds|
    ensures Absent(Entries(rounds), TickAt(agent, q)) && Absent(Entries(rounds), ToolAt(agent, q))
  {
    if rounds != [] {
      DialogueNumbers(env, agent, rounds[..|rounds| - 1], first, q);
    }
  }

  /** An entry that follows a dialogue in the trace is the first of its kind and number. */
  lemma Recalled(env: Env, agent: AgentId, log: seq<LogEntry>, rounds: seq<Round>, more: seq<LogEntry>, p: LogEntry -> bool, first: Instruction)
    requires Dialogue(env, agent, rounds, first) && Entries(rounds) + more <= TraceOf(log, agent)
    requires p in {TickAt(agent, |rounds| + 1), ToolAt(agent, |rounds| + 1)} && First(more, p).Some?
    ensures First(log, p) == First(more, p)
  {
    var whole := TraceOf(log, agent);
    var rest := whole[|Entries(rounds) + more|..];
    assert whole == Entries(rounds) + (more + rest);
    DialogueNumbers(env, agent, rounds, first, |rounds| + 1);
    FirstInTrace(log, agent, p);
    FirstConcat(Entries(rounds), more + rest, p);
    FirstConcat(more, rest, p);
    FirstOfAbsent(Entries(rounds), p);
  }

  /** The log answers the lookups of the iteration from `s` to `t` with what that iteration logged. */
  ghost predicate Recalls(env: Env, agent: AgentId, log: seq<LogEntry>, s: Loop, t: Loop) {
    TickAdmitted(s.kernel.quotas, agent) ==>
      First(log, TickAt(agent, s.sequenceNumber)) == Some(TickEntry(env, agent, s)) && ToolRecalled(agent, log, s, t)
  }

  /** A log whose trace continues the run's answers the next iteration's lookups. */
  lemma LogRecalls(env: Env, agent: AgentId, log: seq<LogEntry>, s: Loop, t: Loop, rounds: seq<Round>, first: Instruction)
    requires s.status.Running? && Shaped(env, agent, s, [], rounds, [], first) && Advances(env, agent, s, t)
    requires TraceOf(t.kernel.log, agent) <= TraceOf(log, agent)
    requires t.status in FAILED_CALLS ==>
      First(log, ToolAt(agent, s.sequenceNumber)) == None
    ensures Recalls(env, agent, log, s, t)
  {
    if TickAdmitted(s.kernel.quotas, agent) {
      var tick := TickEntry(env, agent, s);
      var trace' := TraceOf(t.kernel.log, agent);
      var old' := Entries(rounds);
      assert TraceOf(s.kernel.log, agent) == old';
      if t.status.Running? {
        var tool := trace'[|old'| + 1];
        RecalledPair(env, agent, log, rounds, tick, tool, first);
      } else {
        Recalled(env, agent, log, rounds, [tick], TickAt(agent, |rounds| + 1), first);
      }
    }
  }

  lemma RecalledPair(env: Env, agent: AgentId, log: seq<LogEntry>, rounds: seq<Round>, tick: LogEntry, tool: LogEntry, first: Instruction)
    requires Dialogue(env, agent, rounds, first) && Entries(rounds) + [tick, tool] <= TraceOf(log, agent)
    requires TickAt(agent, |rounds| + 1)(tick) && ToolAt(agent, |rounds| + 1)(tool)
    ensures First(log, TickAt(agent, |rounds| + 1)) == Some(tick)
    ensures First(log, ToolAt(agent, |rounds| + 1)) == Some(tool)
  {
    assert [tick, tool][1..] == [tool];
    Recalled(env, agent, log, rounds, [tick, tool], TickAt(agent, |rounds| + 1), first);
    Recalled(env, agent, log, rounds, [tick, tool], ToolAt(agent, |rounds| + 1), first);
  }

  /** The tool call a run failed in, if any, has no result anywhere in the log. */
  ghost predicate FailureUnanswered(agent: AgentId, z: Loop, log: seq<LogEntry>) {
    z.status in FAILED_CALLS ==> First(log, ToolAt(agent, z.sequenceNumber)) == None
  }

  /** The premises of the simulation, which hold again after each iteration. */
  ghost predicate Simulates(env: Env, agent: AgentId, live: Loop -> Loop, s: Loop, r: Loop, n: nat, rounds: seq<Round>, first: Instruction) {
    && (exists tail :: Shaped(env, agent, s, [], rounds, tail, first)) && Matches(agent, s, r)
    && s.status != Threw(HandlerOverQuota)
    && TraceOf(Repeat(live, s, n).kernel.log, agent) <= TraceOf(r.kernel.log, agent)
    && FailureUnanswered(agent, Repeat(live, s, n), r.kernel.log)
  }

  lemma SimulateStep(env: Env, agent: AgentId, live: Loop -> Loop, replay: Loop -> Loop,
                     s: Loop, r: Loop, n: nat, rounds: seq<Round>, first: Instruction)
    requires Lockstep(env, agent, live, replay) && Simulates(env, agent, live, s, r, n, rounds, first)
    requires n > 0 && s.status.Running?
    ensures Advances(env, agent, s, live(s)) && Untouched(r, replay(r))
    ensures if TickAdmitted(s.kernel.quotas, agent) && !SameHash(env, agent, SnapshotOf(r.kernel.memory, agent), s)
            then replay(r).status == Threw(CryptographicDivergence)
            else if live(s).status == Threw(HandlerOverQuota) then QuotaErrorLost(agent, live(s), replay(r))
            else Matches(agent, live(s), replay(r))
  {
    var t := live(s);
    assert Advances(env, agent, s, t);
    RestOfRun(env, agent, live, replay, t, n - 1);
    LogRecalls(env, agent, r.kernel.log, s, t, rounds, first);
    RecallsDecides(env, agent, s, t, r, replay(r));
  }

  lemma RecallsDecides(env: Env, agent: AgentId, s: Loop, t: Loop, r: Loop, u: Loop)
    requires StateOf(s.kernel.life, agent) == Active && Advances(env, agent, s, t)
    requires Recalls(env, agent, r.kernel.log, s, t) && Follows(env, agent, s, t, r, u)
    ensures if TickAdmitted(s.kernel.quotas, agent) && !SameHash(env, agent, SnapshotOf(r.kernel.memory, agent), s)
            then u.status == Threw(CryptographicDivergence)
            else if t.status == Threw(HandlerOverQuota) then QuotaErrorLost(agent, t, u)
            else Matches(agent, t, u)
  {
  }

  lemma RestOfRun(env: Env, agent: AgentId, live: Loop -> Loop, replay: Loop -> Loop, t: Loop, n: nat)
    requires Lockstep(env, agent, live, replay)
    requires t.status.Running? ==> StateOf(t.kernel.life, agent) == Active
    ensures TraceOf(t.kernel.log, agent) <= TraceOf(Repeat(live, t, n).kernel.log, agent)
    ensures !t.status.Running? ==> Repeat(live, t, n) == t
  {
    if !t.status.Running? { OverStaysOver(live, t, n); }
    TraceGrows(env, agent, live, replay, t, n);
  }

  lemma {:induction false} Simulate(env: Env, agent: AgentId, live: Loop -> Loop, replay: Loop -> Loop,
                                    s: Loop, r: Loop, n: nat, rounds: seq<Round>, first: Instruction)
    requires Lockstep(env, agent, live, replay) && Simulates(env, agent, live, s, r, n, rounds, first)
    ensures Reproduces(env, agent, live, s, Repeat(live, s, n), Repeat(replay, r, n), SnapshotOf(r.kernel.memory, agent), n)
    decreases n
  {
    if n == 0 || !s.status.Running? {
      AtTheEnd(env, agent, live, replay, s, r, n);
    } else {
      var memory := SnapshotOf(r.kernel.memory, agent);
      SimulateStep(env, agent, live, replay, s, r, n, rounds, first);
      if (TickAdmitted(s.kernel.quotas, agent) ==> SameHash(env, agent, memory, s))
         && live(s).status != Threw(HandlerOverQuota) {
        var rounds' := StillSimulates(env, agent, live, replay, s, r, n, rounds, first);
        Simulate(env, agent, live, replay, live(s), replay(r), n - 1, rounds', first);
        ReproducesOneMore(env, agent, live, s, Repeat(live, s, n), Repeat(replay, r, n), memory, n);
      } else {
        Parted(env, agent, live, replay, s, r, n);
      }
    }
  }

  lemma AtTheEnd(env: Env, agent: AgentId, live: Loop -> Loop, replay: Loop -> Loop, s: Loop, r: Loop, n: nat)
    requires Lockstep(env, agent, live, replay) && (n == 0 || !s.status.Running?)
    requires Matches(agent, s, r) && s.status != Threw(HandlerOverQuota)
    ensures Reproduces(env, agent, live, s, Repeat(live, s, n), Repeat(replay, r, n), SnapshotOf(r.kernel.memory, agent), n)
  {
    OverOrDone(live, s, n);
    OverOrDone(replay, r, n);
  }

  lemma ReproducesOneMore(env: Env, agent: AgentId, live: Loop -> Loop, s: Loop, run: Loop, z: Loop, memory: JsonRecord, n: nat)
    requires n > 0 && s.status.Running? && Reproduces(env, agent, live, live(s), run, z, memory, n - 1)
    requires TickAdmitted(s.kernel.quotas, agent) ==> SameHash(env, agent, memory, s)
    ensures Reproduces(env, agent, live, s, run, z, memory, n)
  {
  }

  /** The runs part at this iteration: over the hash, or over a tool's quota error. */
  lemma Parted(env: Env, agent: AgentId, live: Loop -> Loop, replay: Loop -> Loop, s: Loop, r: Loop, n: nat)
    requires Lockstep(env, agent, live, replay) && n > 0 && s.status.Running?
    requires if TickAdmitted(s.kernel.quotas, agent) && !SameHash(env, agent, SnapshotOf(r.kernel.memory, agent), s)
             then replay(r).status == Threw(CryptographicDivergence) else QuotaErrorLost(agent, live(s), replay(r))
    ensures Reproduces(env, agent, live, s, Repeat(live, s, n), Repeat(replay, r, n), SnapshotOf(r.kernel.memory, agent), n)
  {
    OverStaysOver(replay, replay(r), n - 1);
    if !live(s).status.Running? {
      OverStaysOver(live, live(s), n - 1);
      assert SameHashes(env, live, agent, SnapshotOf(r.kernel.memory, agent), live(s), n - 1);
    }
  }

  lemma StillSimulates(env: Env, agent: AgentId, live: Loop -> Loop, replay: Loop -> Loop,
                       s: Loop, r: Loop, n: nat, rounds: seq<Round>, first: Instruction)
    returns (rounds': seq<Round>)
    requires Simulates(env, agent, live, s, r, n, rounds, first) && n > 0 && s.status.Running?
    requires Advances(env, agent, s, live(s)) && Matches(agent, live(s), replay(r)) && Untouched(r, replay(r))
    requires live(s).status != Threw(HandlerOverQuota)
    ensures Simulates(env, agent, live, live(s), replay(r), n - 1, rounds', first)
  {
    var tail';
    rounds', tail' := AdvanceKeepsShape(env, agent, s, live(s), [], rounds, first);
  }

  /** From the LIVE `s` to `run` in `n` steps, replayed against `memory` up to `z`: divergence is reported
      unless every tick hashed as it does with that memory; then the run is reproduced, but for the fault of
      a tool's quota error. */
  ghost predicate Reproduces(env: Env, agent: AgentId, live: Loop -> Loop, s: Loop, run: Loop, z: Loop, memory: JsonRecord, n: nat) {
    if !SameHashes(env, live, agent, memory, s, n) then z.status == Threw(CryptographicDivergence)
    else if run.status == Threw(HandlerOverQuota) then QuotaErrorLost(agent, run, z)
    else Matches(agent, run, z)
  }

  /** The log and kernel a replay starts from: an ACTIVE agent with the run's quota state, and a log
      whose trace of the agent begins with the run's. */
  ghost predicate CanReplay(agent: AgentId, k: Kernel, run: Loop, k': Kernel) {
    && StateOf(k'.life, agent) == Active
    && SameQuota(agent, k.quotas, k'.quotas)
    && TraceOf(run.kernel.log, agent) <= TraceOf(k'.log, agent)
    && FailureUnanswered(agent, run, k'.log)
  }

  /** Replaying an agent's first LIVE run, whatever else was logged before or after, for any hash: it
      reproduces the run exactly when every executed tick hashed as it does with the replay's memory and no
      tool raised a quota error. If hashes differ it reports divergence; a tool's quota error it takes for a
      missing tool result, and leaves ACTIVE the agent that the run left FAULTED. */
  lemma ReplayReproducesRun(env: Env, agent: AgentId, k: Kernel, first: Instruction, n: nat, k': Kernel)
    requires StateOf(k.life, agent) == Active && TraceOf(k.log, agent) == []
    requires CanReplay(agent, k, Run(env, Live, agent, Begin(k, agent, first), n), k')
    ensures var live, s := Step(env, Live, agent), Begin(k, agent, first);
      var run, z := Run(env, Live, agent, s, n), Run(env, Replay, agent, Begin(k', agent, first), n);
      var alike := SameHashes(env, live, agent, SnapshotOf(k'.memory, agent), s, n);
      && (Matches(agent, run, z) <==> alike && run.status != Threw(HandlerOverQuota))
      && (!alike ==> z.status == Threw(CryptographicDivergence))
      && (alike && run.status == Threw(HandlerOverQuota) ==> QuotaErrorLost(agent, run, z))
  {
    var live, replay := Step(env, Live, agent), Step(env, Replay, agent);
    StepsAreLockstep(env, agent);
    ReplayFromBegin(env, agent, live, replay, k, first, n, k');
    LiveRunFits(env, agent, k, first, n);
  }

  lemma ReplayFromBegin(env: Env, agent: AgentId, live: Loop -> Loop, replay: Loop -> Loop,
                        k: Kernel, first: Instruction, n: nat, k': Kernel)
    requires Lockstep(env, agent, live, replay)
    requires StateOf(k.life, agent) == Active && TraceOf(k.log, agent) == []
    requires CanReplay(agent, k, Repeat(live, Begin(k, agent, first), n), k')
    ensures Reproduces(env, agent, live, Begin(k, agent, first), Repeat(live, Begin(k, agent, first), n),
                       Repeat(replay, Begin(k', agent, first), n), SnapshotOf(k'.memory, agent), n)
  {
    var s, r := Begin(k, agent, first), Begin(k', agent, first);
    assert Shaped(env, agent, s, [], [], [], first);
    Simulate(env, agent, live, replay, s, r, n, [], first);
  }

  lemma LiveRunFits(env: Env, agent: AgentId, k: Kernel, first: Instruction, n: nat)
    ensures Fit(agent, Run(env, Live, agent, Begin(k, agent, first), n))
  {
    var live, replay := Step(env, Live, agent), Step(env, Replay, agent);
    var inv := (x: Loop) => Fit(agent, x);
    StepsAreLockstep(env, agent);
    forall x | inv(x) ensures inv(live(x)) {
      StaysFit(env, agent, live, replay, x);
    }
    RepeatKeeps(live, inv, Begin(k, agent, first), n);
  }

  // ---- When memory is steady ----

  ghost predicate SameMemory(agent: AgentId, s: Loop, memory: JsonRecord) {
    DeepEqual(Obj(SnapshotOf(s.kernel.memory, agent)), Obj(memory))
  }

  /** Every executed tick saw memory deep-equal to `memory`. */
  ghost predicate Steady(live: Loop -> Loop, agent: AgentId, memory: JsonRecord, s: Loop, n: nat)
    decreases n
  {
    n > 0 && s.status.Running? ==>
      && (TickAdmitted(s.kernel.quotas, agent) ==> SameMemory(agent, s, memory))
      && Steady(live, agent, memory, live(s), n - 1)
  }

  /** A tick hashes alike with deep-equal memories, and only with those if hashes do not collide. */
  lemma HashesCompared(env: Env, agent: AgentId, memory: JsonRecord, s: Loop)
    requires StateOf(s.kernel.life, agent) == Active
    ensures Respects(env) && SameMemory(agent, s, memory) ==> SameHash(env, agent, memory, s)
    ensures CollisionFree(env) && SameHash(env, agent, memory, s) ==> SameMemory(agent, s, memory)
  {
    var output := OutputAt(env, agent, s);
    var m := SnapshotOf(s.kernel.memory, agent);
    DeepEqualReflexive(OutputValue(output));
    if Respects(env) && SameMemory(agent, s, memory) {
      assert SameState(output, Active, m, output, Active, memory);
    }
    if CollisionFree(env) && SameHash(env, agent, memory, s) {
      assert SameState(output, Active, m, output, Active, memory);
    }
  }

  lemma {:induction false} SteadinessHashed(env: Env, live: Loop -> Loop, agent: AgentId, memory: JsonRecord, s: Loop, n: nat)
    requires forall x: Loop {:trigger live(x)} | Fit(agent, x) :: Fit(agent, live(x))
    requires Fit(agent, s)
    ensures Respects(env) && Steady(live, agent, memory, s, n) ==> SameHashes(env, live, agent, memory, s, n)
    ensures CollisionFree(env) && SameHashes(env, live, agent, memory, s, n) ==> Steady(live, agent, memory, s, n)
    decreases n
  {
    if n > 0 && s.status.Running? {
      HashesCompared(env, agent, memory, s);
      SteadinessHashed(env, live, agent, memory, live(s), n - 1);
    }
  }

  /** In terms of memory: a run whose ticks all saw memory deep-equal to `memory` hashes as it does with
      that memory, and with a collision-free digest no other run does. */
  lemma SteadyRunsHashAlike(env: Env, agent: AgentId, k: Kernel, first: Instruction, n: nat, memory: JsonRecord)
    ensures var live, s := Step(env, Live, agent), Begin(k, agent, first);
      && (Respects(env) && Steady(live, agent, memory, s, n) ==> SameHashes(env, live, agent, memory, s, n))
      && (CollisionFree(env) && SameHashes(env, live, agent, memory, s, n) ==> Steady(live, agent, memory, s, n))
  {
    var live, replay := Step(env, Live, agent), Step(env, Replay, agent);
    StepsAreLockstep(env, agent);
    forall x: Loop | Fit(agent, x) ensures Fit(agent, live(x)) {
      StaysFit(env, agent, live, replay, x);
    }
    SteadinessHashed(env, live, agent, memory, Begin(k, agent, first), n);
  }

  /** No handler writes the agent's own persistent memory. */
  ghost predicate Quiet(env: Env, agent: AgentId) {
    forall tool, n, args, op | tool in env.handlers && op in env.handlers[tool](n, args).ops :: op.agentId != agent
  }

  lemma {:induction false} OthersWrites(m: Memories, ops: seq<MemoryOp>, agent: AgentId)
    requires forall op | op in ops :: op.agentId != agent
    ensures SnapshotOf(PerformAll(m, ops), agent) == SnapshotOf(m, agent)
    decreases |ops|
  {
    if ops != [] {
      OthersWrites(Perform(m, ops[0]), ops[1..], agent);
    }
  }

  lemma ExitMemory(mode: Mode, agent: AgentId, s: Loop, triggers: seq<Trigger>, state: AgentState)
    ensures Exit(mode, agent, s, triggers, state).kernel.memory == s.kernel.memory
  {
    TransitionAllMemory(s.kernel, agent, triggers);
  }

  lemma {:induction false} TransitionAllMemory(k: Kernel, agent: AgentId, triggers: seq<Trigger>)
    ensures TransitionAll(k, agent, triggers).0.memory == k.memory
    decreases |triggers|
  {
    if triggers != [] && Transition(k, agent, triggers[0]).Some? {
      TransitionAllMemory(Transition(k, agent, triggers[0]).value, agent, triggers[1..]);
    }
  }

  lemma QuietDispatch(env: Env, agent: AgentId, s: Loop, output: TickOutput)
    requires Quiet(env, agent)
    ensures SnapshotOf(Dispatch(env, Live, agent, s, output).kernel.memory, agent) == SnapshotOf(s.kernel.memory, agent)
  {
    match output {
      case Completed(_) => ExitMemory(Live, agent, s, [Complete, TeardownOk], Terminated);
      case Failed(_) => ExitMemory(Live, agent, s, [Trigger.Error], Faulted);
      case PendingDelegation(_, _) => ExitMemory(Live, agent, s, [Yield], Waiting);
      case PendingTool(toolName, args) =>
        if toolName in env.handlers {
          OthersWrites(s.kernel.memory, env.handlers[toolName](|s.kernel.calls|, args).ops, agent);
        }
    }
  }

  lemma QuietIteration(env: Env, agent: AgentId, s: Loop)
    requires Quiet(env, agent) && s.status.Running?
    ensures SnapshotOf(Iterate(env, Live, agent, s).kernel.memory, agent) == SnapshotOf(s.kernel.memory, agent)
  {
    if TickAdmitted(s.kernel.quotas, agent) {
      LiveIteration(env, agent, s);
      var s2 := s.(kernel := Ticked(env, agent, s),
                   inputs := s.inputs + [TickInput(agent, s.sequenceNumber, s.instruction, MAX_STEPS)]);
      QuietDispatch(env, agent, s2, OutputAt(env, agent, s));
    }
  }

  lemma {:induction false} QuietRunIsSteady(live: Loop -> Loop, agent: AgentId, memory: JsonRecord, s: Loop, n: nat)
    requires forall x: Loop :: SnapshotOf(live(x).kernel.memory, agent) == SnapshotOf(x.kernel.memory, agent)
    requires SameMemory(agent, s, memory)
    ensures Steady(live, agent, memory, s, n)
    decreases n
  {
    if n > 0 {
      QuietRunIsSteady(live, agent, memory, live(s), n - 1);
    }
  }

  /** Tools that leave the agent's own memory alone make every first run reproducible, but for one that
      ends in a tool's quota error: same inputs in order, same lifecycle state, same ending (a failed tool
      call ends as a missing tool result). */
  lemma QuietRunReplays(env: Env, agent: AgentId, k: Kernel, first: Instruction, n: nat, k': Kernel)
    requires Respects(env) && Quiet(env, agent)
    requires StateOf(k.life, agent) == Active && TraceOf(k.log, agent) == []
    requires CanReplay(agent, k, Run(env, Live, agent, Begin(k, agent, first), n), k')
    requires DeepEqual(Obj(SnapshotOf(k.memory, agent)), Obj(SnapshotOf(k'.memory, agent)))
    ensures var run := Run(env, Live, agent, Begin(k, agent, first), n);
      var z := Run(env, Replay, agent, Begin(k', agent, first), n);
      if run.status == Threw(HandlerOverQuota) then QuotaErrorLost(agent, run, z) else Matches(agent, run, z)
  {
    ReplayReproducesRun(env, agent, k, first, n, k');
    var live := Step(env, Live, agent);
    forall x: Loop ensures SnapshotOf(live(x).kernel.memory, agent) == SnapshotOf(x.kernel.memory, agent) {
      if x.status.Running? { QuietIteration(env, agent, x); }
    }
    QuietRunIsSteady(live, agent, SnapshotOf(k'.memory, agent), Begin(k, agent, first), n);
    SteadyRunsHashAlike(env, agent, k, first, n, SnapshotOf(k'.memory, agent));
  }

  // ---- What an undisturbed replay proves ----

  /** Every logged tick carries the hash of its own output with some state and memory. */
  ghost predicate Honest(env: Env, log: seq<LogEntry>, agent: AgentId) {
    forall e | e in TraceOf(log, agent) && e.event.TickLogged? ::
      exists state, memory :: e.event.stateHash == env.hash(e.event.output, state, memory)
  }

  /** LIVE runs write honest logs. */
  lemma LiveRunIsHonest(env: Env, agent: AgentId, k: Kernel, first: Instruction, n: nat)
    requires Honest(env, k.log, agent)
    ensures Honest(env, Run(env, Live, agent, Begin(k, agent, first), n).kernel.log, agent)
  {
    var step := Step(env, Live, agent);
    var inv := (x: Loop) =>
      Honest(env, x.kernel.log, agent) && (x.status.Running? ==> StateOf(x.kernel.life, agent) == Active);
    forall x | inv(x) ensures inv(step(x)) {
      if x.status.Running? {
        IterationAdvances(env, agent, x);
        AdvanceIsHonest(env, agent, x, step(x));
      }
    }
    RepeatKeeps(step, inv, Begin(k, agent, first), n);
  }

  lemma AdvanceIsHonest(env: Env, agent: AgentId, s: Loop, t: Loop)
    requires Honest(env, s.kernel.log, agent) && Advances(env, agent, s, t)
    ensures Honest(env, t.kernel.log, agent)
  {
    var trace, trace' := TraceOf(s.kernel.log, agent), TraceOf(t.kernel.log, agent);
    var tick := TickEntry(env, agent, s);
    assert tick.event.stateHash
        == env.hash(tick.event.output, StateOf(s.kernel.life, agent), SnapshotOf(s.kernel.memory, agent));
    forall e | e in trace' && e.event.TickLogged?
      ensures exists state, memory :: e.event.stateHash == env.hash(e.event.output, state, memory)
    {
      assert e in trace || e == tick;
    }
  }

  /** The tick logged under a number agrees with what the replay computed for it: the output, and the
      lifecycle state and memory it was hashed with. */
  ghost predicate Confirmed(env: Env, agent: AgentId, log: seq<LogEntry>, memory: JsonRecord, input: TickInput) {
    var found := First(log, TickAt(agent, input.sequenceNumber));
    && found.Some? && found.value.event.TickLogged?
    && var e := found.value.event;
       && DeepEqual(OutputValue(e.output), OutputValue(env.tick(input)))
       && forall state: AgentState, memory': JsonRecord | e.stateHash == env.hash(e.output, state, memory') ::
            state == Active && DeepEqual(Obj(memory'), Obj(memory))
  }

  /** A replay in progress: all its ticks are confirmed, except one that raised a replay error. */
  ghost predicate Sound(env: Env, agent: AgentId, k: Kernel, x: Loop) {
    && x.kernel.log == k.log && x.kernel.memory == k.memory
    && (x.status.Running? ==> StateOf(x.kernel.life, agent) == Active && x.sequenceNumber == |x.inputs| + 1)
    && (x.status in REPLAY_ERRORS ==> x.inputs != [])
    && forall i | 0 <= i < |x.inputs| ::
      && x.inputs[i].sequenceNumber == i + 1
      && (i < |x.inputs| - 1 || x.status !in REPLAY_ERRORS ==>
            Confirmed(env, agent, k.log, SnapshotOf(k.memory, agent), x.inputs[i]))
  }

  lemma CheckConfirms(env: Env, agent: AgentId, log: seq<LogEntry>, memory: JsonRecord, input: TickInput)
    requires CollisionFree(env) && Honest(env, log, agent)
    requires var found := First(log, TickAt(agent, input.sequenceNumber));
      found.Some? && StateHashOf(found.value) == env.hash(env.tick(input), Active, memory)
    ensures Confirmed(env, agent, log, memory, input)
  {
    var output := env.tick(input);
    var state, m := TickIsHonest(env, agent, log, input.sequenceNumber);
    var e := First(log, TickAt(agent, input.sequenceNumber)).value.event;
    assert SameState(e.output, state, m, output, Active, memory);
    forall state': AgentState, m': JsonRecord | e.stateHash == env.hash(e.output, state', m')
      ensures state' == Active && DeepEqual(Obj(m'), Obj(memory))
    {
      assert SameState(e.output, state', m', output, Active, memory);
    }
  }

  lemma TickIsHonest(env: Env, agent: AgentId, log: seq<LogEntry>, q: nat) returns (state: AgentState, memory: JsonRecord)
    requires Honest(env, log, agent) && First(log, TickAt(agent, q)).Some?
    ensures var e := First(log, TickAt(agent, q)).value.event;
      e.TickLogged? && e.stateHash == env.hash(e.output, state, memory)
  {
    FirstInTrace(log, agent, TickAt(agent, q));
    FirstOfAbsent(TraceOf(log, agent), TickAt(agent, q));
    var e := First(log, TickAt(agent, q)).value.event;
    state, memory :| e.stateHash == env.hash(e.output, state, memory);
  }

  lemma ReplayDispatch(env: Env, agent: AgentId, r: Loop, output: TickOutput)
    requires r.status.Running? && StateOf(r.kernel.life, agent) == Active
    ensures var u := Dispatch(env, Replay, agent, r, output);
      && u.inputs == r.inputs && u.kernel.log == r.kernel.log && u.kernel.memory == r.kernel.memory
      && (u.status.Running? ==> StateOf(u.kernel.life, agent) == Active && u.sequenceNumber == r.sequenceNumber + 1)
      && u.status !in {Threw(ReplayMissingLog), Threw(CryptographicDivergence)}
  {
  }

  lemma SoundIteration(env: Env, agent: AgentId, k: Kernel, x: Loop)
    requires CollisionFree(env) && Honest(env, k.log, agent)
    requires x.status.Running? && Sound(env, agent, k, x)
    ensures Sound(env, agent, k, Iterate(env, Replay, agent, x))
  {
    if TickAdmitted(x.kernel.quotas, agent) {
      var input := TickInput(agent, x.sequenceNumber, x.instruction, MAX_STEPS);
      var output := env.tick(input);
      var counted := x.kernel.(quotas := TickCounted(x.kernel.quotas, agent));
      var r1 := x.(kernel := counted, inputs := x.inputs + [input]);
      var r2 := Recorded(Replay, agent, r1, output, StateHash(env, counted, agent, output));
      if r2.status.Running? {
        CheckConfirms(env, agent, k.log, SnapshotOf(k.memory, agent), input);
        ReplayDispatch(env, agent, r2, output);
      }
    }
  }

  /** With a collision-free digest and an honest log, a replay that raises no replay error executed
      only ticks whose output, lifecycle state and memory agree with what was logged. */
  lemma ReplayIsSound(env: Env, agent: AgentId, k: Kernel, first: Instruction, n: nat)
    requires CollisionFree(env) && Honest(env, k.log, agent)
    ensures Sound(env, agent, k, Run(env, Replay, agent, Begin(k, agent, first), n))
  {
    var step := Step(env, Replay, agent);
    var inv := (x: Loop) => Sound(env, agent, k, x);
    forall x | inv(x) ensures inv(step(x)) {
      if x.status.Running? { SoundIteration(env, agent, k, x); }
    }
    RepeatKeeps(step, inv, Begin(k, agent, first), n);
  }

  // ---- Later runs ----

  /** Every tick of the run from `s` agrees with the first tick logged under its number, and every tool
      result of the run is the first one logged under its number. */
  ghost predicate AllConfirmed(env: Env, agent: AgentId, live: Loop -> Loop, log: seq<LogEntry>, memory: JsonRecord, s: Loop, n: nat)
    decreases n
  {
    n > 0 && s.status.Running? ==>
      && (TickAdmitted(s.kernel.quotas, agent) ==>
            && Confirmed(env, agent, log, memory, TickInput(agent, s.sequenceNumber, s.instruction, MAX_STEPS))
            && ToolFound(agent, log, s, live(s)))
      && AllConfirmed(env, agent, live, log, memory, live(s), n - 1)
  }

  lemma ConfirmedIsFound(env: Env, agent: AgentId, log: seq<LogEntry>, memory: JsonRecord, s: Loop)
    requires Respects(env) && CollisionFree(env) && Honest(env, log, agent)
    ensures TickFound(env, agent, log, memory, s) <==>
      Confirmed(env, agent, log, memory, TickInput(agent, s.sequenceNumber, s.instruction, MAX_STEPS))
  {
    var input := TickInput(agent, s.sequenceNumber, s.instruction, MAX_STEPS);
    if TickFound(env, agent, log, memory, s) {
      CheckConfirms(env, agent, log, memory, input);
    }
    if Confirmed(env, agent, log, memory, input) {
      var state, m := TickIsHonest(env, agent, log, input.sequenceNumber);
      var e := First(log, TickAt(agent, input.sequenceNumber)).value.event;
      assert SameState(e.output, state, m, env.tick(input), Active, memory);
    }
  }

  lemma {:induction false} AllConfirmedIsAllFound(env: Env, agent: AgentId, live: Loop -> Loop,
                                                  log: seq<LogEntry>, memory: JsonRecord, s: Loop, n: nat)
    requires Respects(env) && CollisionFree(env) && Honest(env, log, agent)
    ensures AllFound(env, agent, live, log, memory, s, n) <==> AllConfirmed(env, agent, live, log, memory, s, n)
    decreases n
  {
    if n > 0 && s.status.Running? {
      ConfirmedIsFound(env, agent, log, memory, s);
      AllConfirmedIsAllFound(env, agent, live, log, memory, live(s), n - 1);
    }
  }

  /** In terms of the log's contents: sequence numbers restart in every run and lookups take the first
      match, so any run, first or later, replays exactly when its outputs, its memory and its tool results
      agree with what the agent's first entries of the same numbers say. */
  lemma AnyRunReplaysExactlyWhenConfirmed(env: Env, agent: AgentId, k: Kernel, first: Instruction, n: nat, k': Kernel)
    requires Respects(env) && CollisionFree(env) && Honest(env, k'.log, agent)
    requires StateOf(k'.life, agent) == StateOf(k.life, agent) && SameQuota(agent, k.quotas, k'.quotas)
    ensures Matches(agent, Run(env, Live, agent, Begin(k, agent, first), n),
                    Run(env, Replay, agent, Begin(k', agent, first), n)) <==>
      AllConfirmed(env, agent, Step(env, Live, agent), k'.log, SnapshotOf(k'.memory, agent), Begin(k, agent, first), n)
  {
    ReplayMatchesExactly(env, agent, k, first, n, k');
    AllConfirmedIsAllFound(env, agent, Step(env, Live, agent), k'.log, SnapshotOf(k'.memory, agent), Begin(k, agent, first), n);
  }

  /** Whichever tick of a replay is the first to meet a logged one it does not agree with, in its output,
      in the lifecycle state or in memory: there the replay reports divergence. */
  lemma LaterRunDiverges(env: Env, agent: AgentId, k: Kernel, first: Instruction, m: nat, n: nat)
    requires CollisionFree(env) && Honest(env, k.log, agent) && m < n
    requires var r := Run(env, Replay, agent, Begin(k, agent, first), m);
      && r.status.Running? && TickAdmitted(r.kernel.quotas, agent)
      && First(k.log, TickAt(agent, r.sequenceNumber)).Some?
      && !Confirmed(env, agent, k.log, SnapshotOf(k.memory, agent),
                    TickInput(agent, r.sequenceNumber, r.instruction, MAX_STEPS))
    ensures Run(env, Replay, agent, Begin(k, agent, first), n).status == Threw(CryptographicDivergence)
  {
    var step := Step(env, Replay, agent);
    var r := Run(env, Replay, agent, Begin(k, agent, first), m);
    var input := TickInput(agent, r.sequenceNumber, r.instruction, MAX_STEPS);
    var e := First(k.log, TickAt(agent, r.sequenceNumber)).value;
    ReplayIsSound(env, agent, k, first, m);
    if StateHashOf(e) == env.hash(env.tick(input), Active, SnapshotOf(k.memory, agent)) {
      CheckConfirms(env, agent, k.log, SnapshotOf(k.memory, agent), input);
    }
    assert step(r).status == Threw(CryptographicDivergence);
    RepeatSplits(step, Begin(k, agent, first), m, n - m);
    OverStaysOver(step, step(r), n - m - 1);
  }
}

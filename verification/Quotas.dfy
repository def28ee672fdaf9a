/** Tick and tool-call quotas (execution/quota.ts). */
module Quotas {
  import opened Ticks

  datatype Quota = Quota(maxTicks: int, maxToolCalls: int)

  datatype Usage = Usage(ticks: nat, toolCalls: nat)

  datatype QuotaState = QuotaState(limits: map<AgentId, Quota>, usage: map<AgentId, Usage>)

  function UsageOf(q: QuotaState, agent: AgentId): Usage {
    if agent in q.usage then q.usage[agent] else Usage(0, 0)
  }

  function WithQuota(q: QuotaState, agent: AgentId, quota: Quota): QuotaState {
    QuotaState(q.limits[agent := quota], if agent in q.usage then q.usage else q.usage[agent := Usage(0, 0)])
  }

  /** The counter moves even when the call is refused. */
  function TickCounted(q: QuotaState, agent: AgentId): QuotaState {
    var u := UsageOf(q, agent);
    q.(usage := q.usage[agent := u.(ticks := u.ticks + 1)])
  }

  function ToolCallCounted(q: QuotaState, agent: AgentId): QuotaState {
    var u := UsageOf(q, agent);
    q.(usage := q.usage[agent := u.(toolCalls := u.toolCalls + 1)])
  }

  predicate TickAdmitted(q: QuotaState, agent: AgentId) {
    agent in q.limits ==> UsageOf(q, agent).ticks + 1 <= q.limits[agent].maxTicks
  }

  predicate ToolCallAdmitted(q: QuotaState, agent: AgentId) {
    agent in q.limits ==> UsageOf(q, agent).toolCalls + 1 <= q.limits[agent].maxToolCalls
  }

  /** Ticks and tool calls are counted apart. */
  lemma TickCountsTicks(q: QuotaState, agent: AgentId)
    ensures ToolCallAdmitted(TickCounted(q, agent), agent) == ToolCallAdmitted(q, agent)
    ensures TickAdmitted(ToolCallCounted(q, agent), agent) == TickAdmitted(q, agent)
  {
  }

  /** A tick or a tool call that some agent asks for. */
  datatype Use = Tick(agent: AgentId) | Call(agent: AgentId)

  function After(q: QuotaState, uses: seq<Use>): QuotaState {
    if uses == [] then q
    else
      var n := |uses| - 1;
      var p := After(q, uses[..n]);
      match uses[n]
      case Tick(agent) => TickCounted(p, agent)
      case Call(agent) => ToolCallCounted(p, agent)
  }

  function CountOf(uses: seq<Use>, use: Use): nat {
    if uses == [] then 0 else CountOf(uses[..|uses| - 1], use) + (if uses[|uses| - 1] == use then 1 else 0)
  }

  lemma {:induction false} UsesCounted(q: QuotaState, uses: seq<Use>, agent: AgentId)
    ensures var u := UsageOf(q, agent);
      UsageOf(After(q, uses), agent) == Usage(u.ticks + CountOf(uses, Tick(agent)), u.toolCalls + CountOf(uses, Call(agent)))
    ensures After(q, uses).limits == q.limits
  {
    if uses != [] {
      UsesCounted(q, uses[..|uses| - 1], agent);
    }
  }

  /** Once a quota is set on a fresh enforcer, and whatever is asked for in between, by whomever: an agent's
      next tick is admitted exactly while its ticks stay within the quota, its next tool call exactly while
      its tool calls do, and an agent without a quota is always admitted. */
  lemma AdmittedExactly(agent: AgentId, quota: Quota, uses: seq<Use>, other: AgentId)
    requires other != agent
    ensures var q := After(WithQuota(QuotaState(map[], map[]), agent, quota), uses);
      && (TickAdmitted(q, agent) <==> CountOf(uses, Tick(agent)) < quota.maxTicks)
      && (ToolCallAdmitted(q, agent) <==> CountOf(uses, Call(agent)) < quota.maxToolCalls)
      && TickAdmitted(q, other) && ToolCallAdmitted(q, other)
  {
    UsesCounted(WithQuota(QuotaState(map[], map[]), agent, quota), uses, agent);
  }

  /** A new quota replaces the old one and forgives nothing. */
  lemma QuotaReplaced(q: QuotaState, agent: AgentId, quota: Quota, a: AgentId)
    ensures var p := WithQuota(q, agent, quota);
      && UsageOf(p, a) == UsageOf(q, a)
      && p.limits.Keys == q.limits.Keys + {agent}
      && (a in p.limits ==> p.limits[a] == if a == agent then quota else q.limits[a])
  {
  }

  class QuotaEnforcer {
    var limits: map<AgentId, Quota>
    var usage: map<AgentId, Usage>

    ghost function View(): QuotaState
      reads this
    {
      QuotaState(limits, usage)
    }

    constructor ()
      ensures View() == QuotaState(map[], map[])
    {
      limits, usage := map[], map[];
    }

    method SetQuota(agentId: AgentId, quota: Quota)
      modifies this
      ensures View() == WithQuota(old(View()), agentId, quota)
    {
      limits := limits[agentId := quota];
      if agentId !in usage {
        usage := usage[agentId := Usage(0, 0)];
      }
    }

    method GetUsage(agentId: AgentId) returns (u: Usage)
      ensures u == UsageOf(View(), agentId)
    {
      u := if agentId in usage then usage[agentId] else Usage(0, 0);
    }

    /** `ok` is false where the source throws QuotaExceededError. */
    method ConsumeTick(agentId: AgentId) returns (ok: bool)
      modifies this
      ensures View() == TickCounted(old(View()), agentId)
      ensures ok == TickAdmitted(old(View()), agentId)
    {
      var current := GetUsage(agentId);
      current := current.(ticks := current.ticks + 1);
      usage := usage[agentId := current];
      ok := agentId !in limits || current.ticks <= limits[agentId].maxTicks;
    }

    method ConsumeToolCall(agentId: AgentId) returns (ok: bool)
      modifies this
      ensures View() == ToolCallCounted(old(View()), agentId)
      ensures ok == ToolCallAdmitted(old(View()), agentId)
    {
      var current := GetUsage(agentId);
      current := current.(toolCalls := current.toolCalls + 1);
      usage := usage[agentId := current];
      ok := agentId !in limits || current.toolCalls <= limits[agentId].maxToolCalls;
    }
  }
}

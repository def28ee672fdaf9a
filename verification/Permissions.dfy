/** Permission evaluation against grants, time and policies (permissions/model.ts). */
module Permissions {
  import opened Texts
  import opened Ticks
  import opened Grants
  import opened Log

  type Policy = (AgentId, Text, Text, seq<Grant>) -> PolicyResult

  datatype Question = Question(agentId: AgentId, action: Text, resource: Text, grants: seq<Grant>, now: Time)

  function Ask(policy: Policy, q: Question): PolicyResult {
    policy(q.agentId, q.action, q.resource, q.grants)
  }

  ghost predicate Licensed(q: Question) {
    Permitted(q.grants, q.action, q.resource, q.now)
  }

  /** DENY without a live matching grant; otherwise the worst policy result, ALLOW < ESCALATE < DENY. */
  ghost function Decision(q: Question, policies: seq<Policy>): PolicyResult {
    if !Licensed(q) || exists p :: p in policies && Ask(p, q) == Deny then Deny
    else if exists p :: p in policies && Ask(p, q) == Escalate then Escalate
    else Allow
  }

  /** The log after `evaluate`. */
  ghost function Evaluated(log: seq<LogEntry>, q: Question, policies: seq<Policy>): seq<LogEntry> {
    Append(log, q.agentId, PermissionEvaluation(q.action, q.resource, Decision(q, policies), !Licensed(q)))
  }

  /** The decision does not depend on the order, or repetition, of policies. */
  lemma DecisionIgnoresOrder(q: Question, policies: seq<Policy>, others: seq<Policy>)
    requires forall p :: p in policies <==> p in others
    ensures Decision(q, policies) == Decision(q, others)
  {
  }

  function Severity(r: PolicyResult): nat {
    match r case Allow => 0 case Escalate => 1 case Deny => 2
  }

  /** Without a live matching grant nothing is allowed, whatever the policies say. With one, the decision is
      the most severe that a policy asks for, in the order ALLOW, ESCALATE, DENY. */
  lemma DecisionIsMostSevere(q: Question, policies: seq<Policy>)
    ensures (forall g | g in q.grants ::
               !((g.action == q.action || g.action == Ascii("*")) && (g.resource == q.resource || g.resource == Ascii("*"))
                 && (g.notAfter.None? || g.notAfter.value == 0.0 || q.now < g.notAfter.value)))
      ==> Decision(q, policies) == Deny
    ensures Licensed(q) ==>
      && (forall p | p in policies :: Severity(p(q.agentId, q.action, q.resource, q.grants)) <= Severity(Decision(q, policies)))
      && (Decision(q, policies) == Allow
          || exists p :: p in policies && p(q.agentId, q.action, q.resource, q.grants) == Decision(q, policies))
  {
    forall g | g in q.grants
      ensures Permits(g, q.action, q.resource, q.now) <==>
        (g.action == q.action || g.action == Ascii("*")) && (g.resource == q.resource || g.resource == Ascii("*"))
        && (g.notAfter.None? || g.notAfter.value == 0.0 || q.now < g.notAfter.value)
    {
      PermitsMeaning(g, q.action, q.resource, q.now);
    }
    forall p | p in policies ensures Ask(p, q) == p(q.agentId, q.action, q.resource, q.grants) {
    }
    if Licensed(q) && Decision(q, policies) != Allow {
      var r := Decision(q, policies);
      var p :| p in policies && Ask(p, q) == r;
      assert p(q.agentId, q.action, q.resource, q.grants) == r;
    }
  }

  /** Covered grants get no further than the grants that cover them. */
  lemma DecisionMonotone(q: Question, grants: seq<Grant>)
    requires AllCovered(q.grants, grants) && Decision(q, []) == Allow
    ensures Decision(q.(grants := grants), []) == Allow
  {
    CoveredPermitsLess(q.grants, grants, q.action, q.resource, q.now);
  }

  class PermissionModel {
    const logger: ExecutionLogger

    constructor (logger: ExecutionLogger)
      ensures this.logger == logger
    {
      this.logger := logger;
    }

    method Evaluate(agentId: AgentId, action: Text, resource: Text, grants: seq<Grant>, policies: seq<Policy>, now: Time)
      returns (result: PolicyResult)
      requires logger.Valid()
      modifies logger
      ensures logger.Valid()
      ensures var q := Question(agentId, action, resource, grants, now);
        result == Decision(q, policies) && logger.logs == Evaluated(old(logger.logs), q, policies)
    {
      ghost var q := Question(agentId, action, resource, grants, now);
      var hasValidGrant := false;
      var i := 0;
      while i < |grants|
        invariant 0 <= i <= |grants|
        invariant !hasValidGrant
        invariant forall j | 0 <= j < i :: !Permits(grants[j], action, resource, now)
      {
        if Matches(grants[i].action, action) && Matches(grants[i].resource, resource) {
          if grants[i].LiveAt(now) {
            assert Permits(grants[i], action, resource, now);
            hasValidGrant := true;
            break;
          }
        }
        i := i + 1;
      }
      assert hasValidGrant <==> Licensed(q);
      if !hasValidGrant {
        var _ := logger.Write(agentId, PermissionEvaluation(action, resource, Deny, true));
        return Deny;
      }
      result := Allow;
      i := 0;
      while i < |policies|
        invariant 0 <= i <= |policies|
        invariant result != Deny
        invariant forall j | 0 <= j < i :: Ask(policies[j], q) != Deny
        invariant result == Escalate <==> exists j :: 0 <= j < i && Ask(policies[j], q) == Escalate
      {
        var r := policies[i](agentId, action, resource, grants);
        if r == Deny {
          assert policies[i] in policies && Ask(policies[i], q) == Deny;
          result := Deny;
          break;
        }
        if r == Escalate {
          assert Ask(policies[i], q) == Escalate;
          result := Escalate;
        }
        i := i + 1;
      }
      var _ := logger.Write(agentId, PermissionEvaluation(action, resource, result, false));
    }
  }
}

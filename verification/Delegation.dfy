/** The delegation protocol object: tokens and nodes changed in place (delegation/protocol.ts). */
module Delegation {
  import opened Options
  import opened Texts
  import opened Ticks
  import opened Grants
  import opened Log
  import opened Forests

  class DelegationToken {
    const tokenId: Text
    const parentAgentId: AgentId
    const childAgentId: AgentId
    const grants: seq<Grant>
    const maxDepth: real
    const ttl: Time
    var revoked: bool

    constructor (tokenId: Text, parentAgentId: AgentId, childAgentId: AgentId, grants: seq<Grant>, maxDepth: real, ttl: Time)
      ensures this.tokenId == tokenId && this.parentAgentId == parentAgentId && this.childAgentId == childAgentId
      ensures this.grants == grants && this.maxDepth == maxDepth && this.ttl == ttl && !revoked
    {
      this.tokenId, this.parentAgentId, this.childAgentId := tokenId, parentAgentId, childAgentId;
      this.grants, this.maxDepth, this.ttl, revoked := grants, maxDepth, ttl, false;
    }
  }

  class DelegationNode {
    const agentId: AgentId
    const parentId: Option<AgentId>
    const token: DelegationToken
    var children: seq<AgentId>

    constructor (agentId: AgentId, parentId: Option<AgentId>, token: DelegationToken)
      ensures this.agentId == agentId && this.parentId == parentId && this.token == token && children == []
    {
      this.agentId, this.parentId, this.token, children := agentId, parentId, token, [];
    }
  }

  /** A node and its token carry the agent's id and hold what `view` says. */
  ghost predicate Holds(n: DelegationNode, x: AgentId, view: NodeView)
    reads n, n.token
  {
    && n.agentId == x && n.token.childAgentId == x
    && n.token.parentAgentId == (if n.parentId.Some? then n.parentId.value else x)
    && view == NodeView(n.parentId, n.children, n.token.tokenId, n.token.grants,
                        n.token.maxDepth, n.token.ttl, n.token.revoked)
  }

  datatype Response = Accepted(token: DelegationToken, childAgentId: AgentId) | Rejected(reason: Reason)

  ghost function RevokedEntries(log: seq<LogEntry>, f: Forest, order: seq<AgentId>): seq<LogEntry>
  {
    if order == [] then log
    else
      var n := |order| - 1;
      var tokenId := if order[n] in f then f[order[n]].tokenId else [];
      Append(RevokedEntries(log, f, order[..n]), order[n], DelegationRevoked(tokenId))
  }

  lemma {:induction false} RevokedEntriesConcat(log: seq<LogEntry>, f: Forest, p: seq<AgentId>, q: seq<AgentId>)
    ensures RevokedEntries(log, f, p + q) == RevokedEntries(RevokedEntries(log, f, p), f, q)
  {
    if q == [] {
      assert p + q == p;
    } else {
      var n := |q| - 1;
      assert (p + q)[..|p + q| - 1] == p + q[..n];
      RevokedEntriesConcat(log, f, p, q[..n]);
    }
  }

  /** One entry per node, in order, with the id of its token; what was logged before stays. */
  lemma {:induction false} RevokedEntriesAt(log: seq<LogEntry>, f: Forest, order: seq<AgentId>)
    requires forall x | x in order :: x in f
    ensures var l := RevokedEntries(log, f, order);
      && |l| == |log| + |order| && log <= l
      && forall i {:trigger order[i]} | 0 <= i < |order| ::
           order[i] in f && l[|log| + i] == LogEntry(order[i], |log| + i + 1, DelegationRevoked(f[order[i]].tokenId))
  {
    if order != [] {
      var n := |order| - 1;
      RevokedEntriesAt(log, f, order[..n]);
      assert order[n] in order;
      forall i {:trigger order[i]} | 0 <= i < n ensures order[..n][i] == order[i] {
      }
    }
  }

  /** The cascade from `a`, begun on `f` and `log`, has been through the first `i` children. */
  ghost predicate Cascaded(f0: Forest, f: Forest, counter: nat, a: AgentId, i: nat, log: seq<LogEntry>, g: Forest, l: seq<LogEntry>)
    requires Tree(f0, counter) && a in f0 && i <= |f0[a].children|
  {
    var kids := f0[a].children[..i];
    && g == Mark(f, {a} + Below(f0, counter, kids))
    && l == RevokedEntries(log, f0, [a] + Unrevoked(f, PreorderAll(f0, counter, a, kids)))
  }

  lemma StartCascade(f0: Forest, f: Forest, counter: nat, a: AgentId, log: seq<LogEntry>)
    requires Tree(f0, counter) && a in f0
    ensures Cascaded(f0, f, counter, a, 0, log, Mark(f, {a}), Append(log, a, DelegationRevoked(f0[a].tokenId)))
  {
    assert [a][..0] == [] && RevokedEntries(log, f0, [a]) == Append(log, a, DelegationRevoked(f0[a].tokenId));
    assert f0[a].children[..0] == [];
    assert {a} + Below(f0, counter, []) == {a};
    assert [a] + Unrevoked(f, PreorderAll(f0, counter, a, [])) == [a];
  }

  lemma ChildCascaded(f0: Forest, f: Forest, counter: nat, a: AgentId, i: nat, log: seq<LogEntry>,
                      g: Forest, l: seq<LogEntry>, g': Forest, l': seq<LogEntry>)
    requires Tree(f0, counter) && SameShape(f0, f) && a in f0 && i < |f0[a].children|
    requires f0[a].children[i] in f0
    requires Cascaded(f0, f, counter, a, i, log, g, l)
    requires g' == Mark(g, Subtree(f0, counter, f0[a].children[i]))
    requires l' == RevokedEntries(l, f0, Unrevoked(g, Preorder(f0, counter, f0[a].children[i])))
    ensures Cascaded(f0, f, counter, a, i + 1, log, g', l')
  {
    AfterChild(f0, f, counter, a, i);
    var kids := f0[a].children;
    EntriesJoin(log, f0, a, Unrevoked(f, PreorderAll(f0, counter, a, kids[..i])), Unrevoked(f, Preorder(f0, counter, kids[i])));
  }

  lemma EntriesJoin(log: seq<LogEntry>, f: Forest, a: AgentId, p: seq<AgentId>, q: seq<AgentId>)
    ensures RevokedEntries(RevokedEntries(log, f, [a] + p), f, q) == RevokedEntries(log, f, [a] + (p + q))
  {
    RevokedEntriesConcat(log, f, [a] + p, q);
    assert [a] + p + q == [a] + (p + q);
  }

  lemma EndCascade(f0: Forest, f: Forest, counter: nat, a: AgentId, log: seq<LogEntry>, g: Forest, l: seq<LogEntry>)
    requires Tree(f0, counter) && SameShape(f0, f) && a in f0 && !f[a].revoked
    requires Cascaded(f0, f, counter, a, |f0[a].children|, log, g, l)
    ensures g == Mark(f, Subtree(f0, counter, a))
    ensures l == RevokedEntries(log, f0, Unrevoked(f, Preorder(f0, counter, a)))
  {
    WholeCascade(f0, f, counter, a);
    assert f0[a].children[..|f0[a].children|] == f0[a].children;
  }

  class DelegationProtocol {
    const logger: ExecutionLogger
    var nodes: map<AgentId, DelegationNode>
    var tokenIdCounter: nat
    /** The nodes and tokens as a value. */
    ghost var forest: Forest

    ghost function Tokens(): set<DelegationToken>
      reads this
    {
      set n | n in nodes.Values :: n.token
    }

    /** One agent's node and token: they carry its id, so no two agents share one. */
    ghost predicate Own(x: AgentId)
      requires x in nodes && x in forest
      reads this, nodes.Values, Tokens()
    {
      Holds(nodes[x], x, forest[x])
    }

    /** Every agent has its own node and its own token object, and `forest` says what they hold. */
    ghost predicate Linked()
      reads this, nodes.Values, Tokens()
    {
      forest.Keys == nodes.Keys && forall x | x in nodes :: Own(x)
    }

    ghost predicate Valid()
      reads this, nodes.Values, Tokens(), logger
    {
      logger.Valid() && Linked() && Good(forest, tokenIdCounter)
    }

    constructor (logger: ExecutionLogger)
      requires logger.Valid()
      ensures Valid() && this.logger == logger && forest == map[] && tokenIdCounter == 1
    {
      this.logger := logger;
      nodes, tokenIdCounter, forest := map[], 1, map[];
    }

    /** `initRoot` checks nothing: it keeps the invariant exactly when the id may be a root. */
    method InitRoot(agentId: AgentId, rootGrants: seq<Grant>)
      requires Linked()
      modifies this
      ensures Linked() && tokenIdCounter == old(tokenIdCounter) + 1
      ensures forest == Rooted(old(forest), old(tokenIdCounter), agentId, rootGrants)
      ensures old(Valid()) ==> (Valid() <==> MayRoot(old(forest), old(tokenIdCounter), agentId))
      ensures agentId in nodes && nodes[agentId].children == [] && nodes[agentId].parentId == None
      ensures nodes[agentId].token.grants == rootGrants && !nodes[agentId].token.revoked
    {
      ghost var f, counter, valid := forest, tokenIdCounter, Valid();
      PutRoot(agentId, rootGrants);
      if valid { InitRootKeepsGoodExactly(f, counter, agentId, rootGrants); }
    }

    method PutRoot(agentId: AgentId, rootGrants: seq<Grant>)
      requires Linked()
      modifies this
      ensures Linked() && tokenIdCounter == old(tokenIdCounter) + 1
      ensures forest == Rooted(old(forest), old(tokenIdCounter), agentId, rootGrants)
      ensures agentId in nodes && nodes[agentId].children == [] && nodes[agentId].parentId == None
      ensures nodes[agentId].token.grants == rootGrants && !nodes[agentId].token.revoked
    {
      ghost var view := Root(tokenIdCounter, rootGrants);
      var token := new DelegationToken(ROOT_TOKEN + Decimal(tokenIdCounter), agentId, agentId,
                                       rootGrants, ROOT_DEPTH, MAX_SAFE_INTEGER);
      tokenIdCounter := tokenIdCounter + 1;
      var node := new DelegationNode(agentId, None, token);
      PutNode(agentId, node, view);
    }

    /** `nodes.set`. */
    method PutNode(agentId: AgentId, node: DelegationNode, ghost view: NodeView)
      requires Linked() && Holds(node, agentId, view)
      modifies `nodes, `forest
      ensures Linked() && forest == old(forest)[agentId := view] && nodes == old(nodes)[agentId := node]
    {
      nodes := nodes[agentId := node];
      forest := forest[agentId := view];
      forall x | x in nodes ensures Own(x) {
        if x != agentId { assert old(Own(x)); }
      }
    }

    /** Logging leaves the tree alone. */
    method Record(agentId: AgentId, event: Event)
      requires logger.Valid() && Linked()
      modifies logger
      ensures logger.Valid() && Linked() && logger.logs == Append(old(logger.logs), agentId, event)
    {
      var _ := logger.Write(agentId, event);
      forall x | x in nodes ensures Own(x) { assert old(Own(x)); }
    }

    method IsSubset(subset: seq<Grant>, superset: seq<Grant>, now: Time) returns (ok: bool)
      ensures ok == SubsetAt(subset, superset, now)
    {
      var i := 0;
      while i < |subset|
        invariant 0 <= i <= |subset|
        invariant forall j | 0 <= j < i :: CoveredAt(subset[j], superset, now)
      {
        var sub := subset[i];
        assert sub in subset;
        if sub.ExpiredAt(now) {
          return false;
        }
        var covered := false;
        var j := 0;
        while j < |superset|
          invariant 0 <= j <= |superset|
          invariant !covered
          invariant forall l | 0 <= l < j :: superset[l].ExpiredAt(now) || !Covers(superset[l], sub)
        {
          if !superset[j].ExpiredAt(now) && Covers(superset[j], sub) {
            covered := true;
            break;
          }
          j := j + 1;
        }
        if !covered {
          return false;
        }
        i := i + 1;
      }
      return true;
    }

    /** The checks of `delegate`, all on the immediate parent. */
    method Check(request: DelegationRequest, now: Time, later: Time) returns (reason: Option<Reason>)
      requires Linked()
      ensures reason == Refuse(forest, request, now, later)
    {
      if request.parentAgentId !in nodes {
        return Some(ParentNotFound);
      }
      assert Own(request.parentAgentId);
      var token := nodes[request.parentAgentId].token;
      if token.revoked {
        return Some(ParentRevoked);
      }
      if now > token.ttl {
        return Some(ParentExpired);
      }
      var ok := IsSubset(request.grantSubset, token.grants, later);
      if !ok {
        return Some(GrantsEscape);
      }
      if request.maxDepth >= token.maxDepth {
        return Some(DepthExceeds);
      }
      if request.ttl > token.ttl {
        return Some(TtlExceeds);
      }
      return None;
    }

    /** The clock reads `now` when the parent's expiry is checked and `later` when grants are. */
    method Delegate(request: DelegationRequest, now: Time, later: Time) returns (response: Response)
      requires Valid()
      modifies this, nodes.Values, logger
      ensures Valid()
      ensures match Refuse(old(forest), request, now, later)
        case Some(reason) =>
          && response == Rejected(reason)
          && forest == old(forest) && tokenIdCounter == old(tokenIdCounter) && logger.logs == old(logger.logs)
        case None =>
          var id := ChildId(request.parentAgentId, old(tokenIdCounter));
          && response.Accepted? && response.childAgentId == id
          && tokenIdCounter == old(tokenIdCounter) + 2
          && forest == Delegated(old(forest), old(tokenIdCounter), request)
          && id !in old(nodes) && id in nodes && response.token == nodes[id].token
          && response.token.grants == request.grantSubset && !response.token.revoked
          && response.token.maxDepth == request.maxDepth && response.token.ttl == request.ttl
          && response.token.parentAgentId == request.parentAgentId && response.token.childAgentId == id
          && logger.logs == Append(old(logger.logs), request.parentAgentId,
                                   DelegationIssued(request, response.token.tokenId, id))
    {
      var reason := Check(request, now, later);
      if reason.Some? {
        return Rejected(reason.value);
      }
      DelegatedKeepsGood(forest, tokenIdCounter, request, now, later);
      var token, childAgentId := Attach(request);
      return Accepted(token, childAgentId);
    }

    method Attach(request: DelegationRequest) returns (token: DelegationToken, childAgentId: AgentId)
      requires logger.Valid() && Linked() && request.parentAgentId in nodes
      requires ChildId(request.parentAgentId, tokenIdCounter) !in nodes
      modifies this, nodes[request.parentAgentId], logger
      ensures logger.Valid() && Linked() && tokenIdCounter == old(tokenIdCounter) + 2
      ensures childAgentId == ChildId(request.parentAgentId, old(tokenIdCounter))
      ensures forest == Delegated(old(forest), old(tokenIdCounter), request)
      ensures childAgentId in nodes && token == nodes[childAgentId].token
      ensures token.grants == request.grantSubset && token.maxDepth == request.maxDepth && token.ttl == request.ttl
      ensures token.parentAgentId == request.parentAgentId && token.childAgentId == childAgentId && !token.revoked
      ensures logger.logs == Append(old(logger.logs), request.parentAgentId,
                                    DelegationIssued(request, token.tokenId, childAgentId))
    {
      var p := request.parentAgentId;
      childAgentId := ChildId(p, tokenIdCounter);
      ghost var view := Child(tokenIdCounter, request);
      token := new DelegationToken(TOKEN + Decimal(tokenIdCounter + 1), p, childAgentId,
                                   request.grantSubset, request.maxDepth, request.ttl);
      tokenIdCounter := tokenIdCounter + 2;
      var childNode := new DelegationNode(childAgentId, Some(p), token);
      AttachNode(p, childAgentId, childNode, view);
      Record(p, DelegationIssued(request, token.tokenId, childAgentId));
    }

    /** The parent's list of children first, then the map of nodes. */
    method AttachNode(p: AgentId, childAgentId: AgentId, node: DelegationNode, ghost view: NodeView)
      requires Linked() && p in nodes && childAgentId !in nodes && Holds(node, childAgentId, view)
      modifies `forest, `nodes, nodes[p]
      ensures Linked() && childAgentId in nodes && nodes[childAgentId] == node
      ensures var v := old(forest)[p];
        forest == old(forest)[p := v.(children := v.children + [childAgentId])][childAgentId := view]
    {
      assert Own(p);
      assert node != nodes[p];
      PushChild(p, childAgentId);
      PutNode(childAgentId, node, view);
    }

    /** `parentNode.children.push`. */
    method PushChild(p: AgentId, childAgentId: AgentId)
      requires Linked() && p in nodes
      modifies `forest, nodes[p]
      ensures Linked()
      ensures forest == old(forest)[p := old(forest)[p].(children := old(forest)[p].children + [childAgentId])]
    {
      ghost var f := forest;
      assert Own(p);
      nodes[p].children := nodes[p].children + [childAgentId];
      forest := forest[p := forest[p].(children := forest[p].children + [childAgentId])];
      forall x | x in nodes ensures Own(x) {
        assert old(Own(x));
      }
    }

    /** Cascading revocation: the whole subtree is marked, nothing else changes, and one entry is logged
        per newly revoked node, depth first. */
    method Revoke(agentId: AgentId)
      requires Valid()
      modifies `forest, Tokens(), logger
      ensures Valid()
      ensures forest == Revoked(old(forest), tokenIdCounter, agentId)
      ensures logger.logs == RevokedEntries(old(logger.logs), old(forest),
                if agentId in old(forest) then Unrevoked(old(forest), Preorder(old(forest), tokenIdCounter, agentId)) else [])
    {
      RevokedKeepsGood(forest, tokenIdCounter, agentId);
      Cascade(agentId, forest, {});
    }

    /** `revoke` in mid-cascade; the early exit on a revoked node is `EarlyExit`. */
    method Cascade(agentId: AgentId, ghost f0: Forest, ghost open: set<AgentId>)
      requires logger.Valid() && Linked() && MidCascade(f0, forest, tokenIdCounter, open, agentId)
      modifies `forest, Tokens(), logger
      ensures logger.Valid() && Linked() && forest == Mark(old(forest), Subtree(f0, tokenIdCounter, agentId))
      ensures logger.logs == RevokedEntries(old(logger.logs), f0,
                if agentId in f0 then Unrevoked(old(forest), Preorder(f0, tokenIdCounter, agentId)) else [])
      decreases Subtree(f0, tokenIdCounter, agentId), 3
    {
      ghost var f, log := forest, logger.logs;
      if agentId !in nodes {
        AbsentSubtree(f0, f, tokenIdCounter, agentId);
        return;
      }
      assert Own(agentId);
      if nodes[agentId].token.revoked {
        EarlyExit(f0, f, tokenIdCounter, open, agentId);
        return;
      }
      CascadeFrom(agentId, f0, open);
      EndCascade(f0, f, tokenIdCounter, agentId, log, forest, logger.logs);
    }

    /** The rest of `revoke`: revoke the node, log it, go through its children. */
    method CascadeFrom(agentId: AgentId, ghost f0: Forest, ghost open: set<AgentId>)
      requires logger.Valid() && Linked() && MidCascade(f0, forest, tokenIdCounter, open, agentId)
      requires agentId in f0
      modifies `forest, Tokens(), logger
      ensures logger.Valid() && Linked()
      ensures Cascaded(f0, old(forest), tokenIdCounter, agentId, |f0[agentId].children|, old(logger.logs), forest, logger.logs)
      decreases Subtree(f0, tokenIdCounter, agentId), 2
    {
      ghost var f, log := forest, logger.logs;
      var children := MarkOne(agentId);
      StartCascade(f0, f, tokenIdCounter, agentId, log);
      CascadeChildren(agentId, children, f0, f, open, log);
    }

    /** The loop of `revoke` over the children. */
    method CascadeChildren(agentId: AgentId, children: seq<AgentId>, ghost f0: Forest, ghost f: Forest,
                           ghost open: set<AgentId>, ghost log: seq<LogEntry>)
      requires logger.Valid() && Linked() && MidCascade(f0, f, tokenIdCounter, open, agentId)
      requires agentId in f0 && children == f0[agentId].children
      requires Cascaded(f0, f, tokenIdCounter, agentId, 0, log, forest, logger.logs)
      modifies `forest, Tokens(), logger
      ensures logger.Valid() && Linked()
      ensures Cascaded(f0, f, tokenIdCounter, agentId, |children|, log, forest, logger.logs)
      decreases Subtree(f0, tokenIdCounter, agentId), 1
    {
      ghost var counter := tokenIdCounter;
      var i := 0;
      while i < |children|
        invariant 0 <= i <= |children|
        invariant tokenIdCounter == counter
        invariant logger.Valid() && Linked()
        invariant Cascaded(f0, f, counter, agentId, i, log, forest, logger.logs)
      {
        CascadeChild(agentId, children[i], f0, f, open, i, log);
        i := i + 1;
      }
    }

    /** One recursive call of the cascade. */
    method CascadeChild(agentId: AgentId, childId: AgentId, ghost f0: Forest, ghost f: Forest,
                        ghost open: set<AgentId>, ghost i: nat, ghost log: seq<LogEntry>)
      requires logger.Valid() && Linked() && MidCascade(f0, f, tokenIdCounter, open, agentId)
      requires agentId in f0 && i < |f0[agentId].children| && childId == f0[agentId].children[i]
      requires Cascaded(f0, f, tokenIdCounter, agentId, i, log, forest, logger.logs)
      modifies `forest, Tokens(), logger
      ensures logger.Valid() && Linked() && Cascaded(f0, f, tokenIdCounter, agentId, i + 1, log, forest, logger.logs)
      decreases Subtree(f0, tokenIdCounter, agentId), 0
    {
      NextChild(f0, f, tokenIdCounter, open, agentId, i);
      ghost var g, l := forest, logger.logs;
      Cascade(childId, f0, open + {agentId});
      ChildCascaded(f0, f, tokenIdCounter, agentId, i, log, g, l, forest, logger.logs);
    }

    method MarkOne(agentId: AgentId) returns (children: seq<AgentId>)
      requires logger.Valid() && Linked() && agentId in nodes
      modifies `forest, nodes[agentId].token, logger
      ensures logger.Valid() && Linked() && forest == Mark(old(forest), {agentId})
      ensures logger.logs == Append(old(logger.logs), agentId, DelegationRevoked(old(forest)[agentId].tokenId))
      ensures children == old(forest)[agentId].children
    {
      assert Own(agentId);
      children := nodes[agentId].children;
      RevokeToken(agentId);
      Record(agentId, DelegationRevoked(nodes[agentId].token.tokenId));
    }

    method RevokeToken(agentId: AgentId)
      requires Linked() && agentId in nodes
      modifies `forest, nodes[agentId].token
      ensures Linked() && forest == Mark(old(forest), {agentId})
    {
      ghost var f := forest;
      nodes[agentId].token.revoked := true;
      forest := Mark(forest, {agentId});
      forall x | x in nodes ensures Own(x) {
        assert old(Own(x)) && old(Own(agentId));
        assert forest[x] == f[x].(revoked := f[x].revoked || x == agentId);
      }
    }

    method GetToken(agentId: AgentId) returns (token: DelegationToken?)
      requires Linked()
      ensures token == null <==> agentId !in forest
      ensures token != null ==> agentId in nodes && token == nodes[agentId].token && token.revoked == forest[agentId].revoked
    {
      token := if agentId in nodes then nodes[agentId].token else null;
    }
  }
}

/** Runs of the delegation protocol: any sequence of roots, delegations and revocations. */
module DelegationRuns {
  import opened Options
  import opened Texts
  import opened Ticks
  import opened Grants
  import opened Log
  import opened Permissions
  import Sorting
  import opened Forests

  datatype Protocol = Protocol(forest: Forest, counter: nat)

  datatype Op =
    | InitRoot(agent: AgentId, grants: seq<Grant>)
    | Delegate(request: DelegationRequest, now: Time, later: Time)
    | Revoke(agent: AgentId)

  ghost predicate Sound(p: Protocol) {
    Good(p.forest, p.counter)
  }

  /** A root is set up under an id that hangs nowhere in the tree and is not generated later. */
  ghost predicate Enabled(p: Protocol, op: Op) {
    op.InitRoot? ==> MayRoot(p.forest, p.counter, op.agent)
  }

  ghost function Next(p: Protocol, op: Op): (q: Protocol)
    requires Sound(p) && Enabled(p, op)
    ensures Sound(q)
  {
    match op
    case InitRoot(agent, grants) =>
      InitRootKeepsGoodExactly(p.forest, p.counter, agent, grants);
      Protocol(Rooted(p.forest, p.counter, agent, grants), p.counter + 1)
    case Delegate(request, now, later) =>
      if Refuse(p.forest, request, now, later).Some? then p
      else
        DelegatedKeepsGood(p.forest, p.counter, request, now, later);
        Protocol(Delegated(p.forest, p.counter, request), p.counter + 2)
    case Revoke(agent) =>
      RevokedKeepsGood(p.forest, p.counter, agent);
      Protocol(Revoked(p.forest, p.counter, agent), p.counter)
  }

  ghost predicate CanRun(p: Protocol, ops: seq<Op>)
    requires Sound(p)
    decreases |ops|
  {
    ops != [] ==> Enabled(p, ops[0]) && CanRun(Next(p, ops[0]), ops[1..])
  }

  ghost function After(p: Protocol, ops: seq<Op>): (q: Protocol)
    requires Sound(p) && CanRun(p, ops)
    ensures Sound(q)
    decreases |ops|
  {
    if ops == [] then p else After(Next(p, ops[0]), ops[1..])
  }

  const EMPTY := Protocol(map[], 1)

  /** In every run from the empty forest the forest invariant holds: parent and children agree, ids come
      from the counter, depth drops and authority and lifetime do not grow along edges, and revocation is
      closed downward. */
  lemma EveryForestIsGood(ops: seq<Op>)
    requires CanRun(EMPTY, ops)
    ensures var q := After(EMPTY, ops); Good(q.forest, q.counter)
  {
  }

  // ---- Depth ----

  ghost predicate WholeRequests(ops: seq<Op>) {
    forall op | op in ops && op.Delegate? :: Whole(op.request.maxDepth)
  }

  lemma {:induction false} StaysWhole(p: Protocol, ops: seq<Op>)
    requires Sound(p) && CanRun(p, ops) && WholeRequests(ops) && WholeDepths(p.forest)
    ensures WholeDepths(After(p, ops).forest)
    decreases |ops|
  {
    if ops != [] {
      assert ops[0] in ops;
      assert WholeRequests(ops[1..]);
      StaysWhole(Next(p, ops[0]), ops[1..]);
    }
  }

  /** In every run whose requests ask for whole depths, a node's depth and remaining depth add up to at
      most 100, so its depth is at most 100 when its remaining depth is not negative. */
  lemma WholeRequestsBoundDepth(ops: seq<Op>, x: AgentId)
    requires CanRun(EMPTY, ops) && WholeRequests(ops) && x in After(EMPTY, ops).forest
    ensures var q := After(EMPTY, ops);
      && Depth(q.forest, q.counter, x) as real + q.forest[x].maxDepth <= ROOT_DEPTH
      && (q.forest[x].maxDepth >= 0.0 ==> Depth(q.forest, q.counter, x) <= 100)
  {
    var q := After(EMPTY, ops);
    StaysWhole(EMPTY, ops);
    DepthBounded(q.forest, q.counter, x);
  }

  /** A delegation adds a leaf and moves no other node. */
  lemma {:induction false} DepthKept(f: Forest, counter: nat, request: DelegationRequest, x: AgentId)
    requires Tree(f, counter) && request.parentAgentId in f && x in f
    requires Tree(Delegated(f, counter, request), counter + 2)
    ensures ChildId(request.parentAgentId, counter) != x
    ensures x in Delegated(f, counter, request)
    ensures Depth(Delegated(f, counter, request), counter + 2, x) == Depth(f, counter, x)
    decreases |x|
  {
    FreshChild(f, counter, request.parentAgentId);
    if f[x].parent.Some? {
      ParentShorter(f, counter, x);
      DepthKept(f, counter, request, f[x].parent.value);
    }
  }

  /** Every operation takes effect: each delegation is accepted. */
  ghost predicate AllAccepted(p: Protocol, ops: seq<Op>)
    requires Sound(p) && CanRun(p, ops)
    decreases |ops|
  {
    ops != [] ==>
      && (ops[0].Delegate? ==> Refuse(p.forest, ops[0].request, ops[0].now, ops[0].later) == None)
      && AllAccepted(Next(p, ops[0]), ops[1..])
  }

  /** What is left of the root's allowance after `d` steps down. */
  function Left(d: nat, step: real): real {
    if d == 0 then ROOT_DEPTH else Left(d - 1, step) - step
  }

  lemma {:induction false} LeftIsLinear(d: nat, step: real)
    ensures Left(d, step) == ROOT_DEPTH - d as real * step
  {
    if d > 0 {
      LeftIsLinear(d - 1, step);
      assert d as real * step == (d - 1) as real * step + step;
    }
  }

  /** `x` can delegate at time 0, and lies `d` steps below the root. */
  ghost predicate Extensible(p: Protocol, x: AgentId, d: nat, step: real)
    requires Sound(p)
  {
    && x in p.forest && !p.forest[x].revoked && p.forest[x].ttl >= 0.0
    && p.forest[x].maxDepth == Left(d, step) && Depth(p.forest, p.counter, x) == d
  }

  /** Any positive step is a drop that `delegate` accepts. */
  lemma StepAccepted(p: Protocol, x: AgentId, d: nat, step: real) returns (op: Op, y: AgentId)
    requires Sound(p) && Extensible(p, x, d, step) && step > 0.0
    ensures op.Delegate? && Refuse(p.forest, op.request, op.now, op.later) == None
    ensures op.request.parentAgentId == x && y == ChildId(x, p.counter)
    ensures Extensible(Next(p, op), y, d + 1, step)
  {
    var request := DelegationRequest([], x, [], [], Left(d + 1, step), 0.0);
    op := Op.Delegate(request, 0.0, 0.0);
    y := ChildId(x, p.counter);
    FreshChild(p.forest, p.counter, x);
    DelegatedKeepsGood(p.forest, p.counter, request, 0.0, 0.0);
    DepthKept(p.forest, p.counter, request, x);
    assert Next(p, op).forest[y] == Child(p.counter, request);
  }

  lemma {:induction false} Deepen(p: Protocol, x: AgentId, d: nat, step: real, h: nat) returns (ops: seq<Op>, y: AgentId)
    requires Sound(p) && Extensible(p, x, d, step) && step > 0.0 && d <= h
    ensures CanRun(p, ops) && AllAccepted(p, ops) && Extensible(After(p, ops), y, h, step)
    decreases h - d
  {
    if d == h {
      ops, y := [], x;
    } else {
      var op, c := StepAccepted(p, x, d, step);
      var rest;
      rest, y := Deepen(Next(p, op), c, d + 1, step, h);
      ops := [op] + rest;
      OneMore(p, op, rest);
    }
  }

  lemma OneMore(p: Protocol, op: Op, rest: seq<Op>)
    requires Sound(p) && Enabled(p, op) && CanRun(Next(p, op), rest)
    ensures CanRun(p, [op] + rest) && After(p, [op] + rest) == After(Next(p, op), rest)
    ensures (op.Delegate? ==> Refuse(p.forest, op.request, op.now, op.later) == None) && AllAccepted(Next(p, op), rest)
      ==> AllAccepted(p, [op] + rest)
  {
    assert ([op] + rest)[1..] == rest;
  }

  const ROOT: AgentId := Ascii("root")

  /** An id that does not look generated, and is not in use, may be a root. */
  lemma PlainRoot(f: Forest, counter: nat, agent: AgentId)
    requires !(CHILD <= agent) && agent !in f
    ensures MayRoot(f, counter, agent)
  {
    forall p: AgentId, n: nat | n >= counter + 1 ensures agent != ChildId(p, n) {
      assert CHILD <= ChildId(p, n);
    }
  }

  lemma OneRoot(step: real) returns (op: Op)
    ensures op == InitRoot(ROOT, []) && Enabled(EMPTY, op) && Extensible(Next(EMPTY, op), ROOT, 0, step)
  {
    op := InitRoot(ROOT, []);
    assert CHILD[0] != ROOT[0];
    PlainRoot(EMPTY.forest, EMPTY.counter, ROOT);
  }

  /** `delegate` asks only that `maxDepth` drops, and numbers need not be whole: for every depth h and every
      step, however small, there is a run of accepted requests that reaches depth h with 100 - h * step to
      spare. A step of 1 reaches the bound; smaller ones pass it. */
  lemma FractionalRequestsReachAnyDepth(h: nat, step: real) returns (ops: seq<Op>, x: AgentId)
    requires step > 0.0
    ensures CanRun(EMPTY, ops) && AllAccepted(EMPTY, ops)
    ensures var q := After(EMPTY, ops);
      && x in q.forest && Depth(q.forest, q.counter, x) == h
      && q.forest[x].maxDepth == ROOT_DEPTH - h as real * step
  {
    var root := OneRoot(step);
    var rest;
    rest, x := Deepen(Next(EMPTY, root), ROOT, 0, step, h);
    ops := [root] + rest;
    OneMore(EMPTY, root, rest);
    LeftIsLinear(h, step);
  }

  // ---- Where `initRoot` breaks the forest ----

  ghost predicate BreaksForest(q: Protocol, agent: AgentId) {
    Sound(q) && !Good(Rooted(q.forest, q.counter, agent, []), q.counter + 1)
  }

  /** After a root and one delegation, `initRoot` breaks the forest at the root, which has a child, at the
      child, which has a parent, and at an id that is generated later. */
  lemma InitRootBreaksForest() returns (ops: seq<Op>, child: AgentId)
    ensures CanRun(EMPTY, ops) && AllAccepted(EMPTY, ops)
    ensures var q := After(EMPTY, ops);
      BreaksForest(q, ROOT) && BreaksForest(q, child) && BreaksForest(q, ChildId(ROOT, q.counter + 1))
  {
    var root := OneRoot(1.0);
    var p := Next(EMPTY, root);
    var op;
    op, child := StepAccepted(p, ROOT, 0, 1.0);
    var q := Next(p, op);
    ops := [root, op];
    assert ops[1..] == [op] && [op][1..] == [];
    assert After(p, [op]) == After(q, []);
    assert q.forest[child].parent == Some(ROOT) && Edge(q.forest, ROOT, child);
    NotRoot(q, ROOT);
    NotRoot(q, child);
    assert !NeverGenerated(ChildId(ROOT, q.counter + 1), q.counter + 1);
    NotRoot(q, ChildId(ROOT, q.counter + 1));
  }

  lemma NotRoot(q: Protocol, agent: AgentId)
    requires Sound(q) && !MayRoot(q.forest, q.counter, agent)
    ensures BreaksForest(q, agent)
  {
    InitRootKeepsGoodExactly(q.forest, q.counter, agent, []);
  }

  // ---- What an operation leaves ----

  /** Every node but these is as it was. */
  ghost predicate OthersKept(p: Protocol, q: Protocol, changed: set<AgentId>) {
    forall x | x !in changed :: (x in q.forest <==> x in p.forest) && (x in p.forest ==> q.forest[x] == p.forest[x])
  }

  /** A new root holds just the grants given, unrevoked, with the root's depth and lifetime; nothing else
      changes. Whatever is asked, it is decided as for those grants. */
  lemma RootHoldsItsGrants(p: Protocol, agent: AgentId, grants: seq<Grant>, question: Question, policies: seq<Policy>)
    requires Sound(p) && Enabled(p, InitRoot(agent, grants))
    ensures var q := Next(p, InitRoot(agent, grants));
      && agent in q.forest
      && q.forest[agent].grants == grants && !q.forest[agent].revoked
      && q.forest[agent].maxDepth == 100.0 && q.forest[agent].ttl == 9007199254740991.0
      && q.forest[agent].parent == None && q.forest[agent].children == []
      && q.forest[agent].tokenId == Ascii("root-token-") + Decimal(p.counter)
      && OthersKept(p, q, {agent})
      && Decision(question.(grants := q.forest[agent].grants), policies) == Decision(question.(grants := grants), policies)
  {
  }

  /** An accepted child holds just what was requested, unrevoked, under the requester, whose other children
      and token stay, as does every other node. Whatever is asked, it is decided as for the requested grants. */
  lemma ChildHoldsTheRequest(p: Protocol, request: DelegationRequest, now: Time, later: Time,
                             question: Question, policies: seq<Policy>)
    requires Sound(p) && Refuse(p.forest, request, now, later) == None
    ensures var q := Next(p, Op.Delegate(request, now, later));
      var parent := request.parentAgentId;
      var id := Ascii("child-") + parent + Ascii("-") + Decimal(p.counter);
      && id !in p.forest && id in q.forest && parent in p.forest && parent in q.forest
      && q.forest[id].grants == request.grantSubset && !q.forest[id].revoked
      && q.forest[id].maxDepth == request.maxDepth && q.forest[id].ttl == request.ttl
      && q.forest[id].parent == Some(parent) && q.forest[id].children == []
      && q.forest[id].tokenId == Ascii("token-") + Decimal(p.counter + 1)
      && q.forest[parent] == p.forest[parent].(children := p.forest[parent].children + [id])
      && OthersKept(p, q, {parent, id})
      && Decision(question.(grants := q.forest[id].grants), policies)
         == Decision(question.(grants := request.grantSubset), policies)
  {
    FreshChild(p.forest, p.counter, request.parentAgentId);
    assert Ascii("-") == [MINUS];
  }

  /** A refusal names the first check that fails, in the order parent, revocation, expiry, grants, depth,
      lifetime; a request that passes them all is accepted. */
  lemma RefusedByFirstFailingCheck(p: Protocol, request: DelegationRequest, now: Time, later: Time)
    ensures var reason := Refuse(p.forest, request, now, later);
      if request.parentAgentId !in p.forest then reason == Some(ParentNotFound)
      else
        var parent := p.forest[request.parentAgentId];
        var unexpired := now <= parent.ttl;
        var within := forall sub | sub in request.grantSubset ::
          Unexpired(sub, later) && exists sup :: sup in parent.grants && Unexpired(sup, later) && Covers(sup, sub);
        var shallower, shorter := request.maxDepth < parent.maxDepth, request.ttl <= parent.ttl;
        && reason != Some(ParentNotFound)
        && (reason == Some(ParentRevoked) <==> parent.revoked)
        && (reason == Some(ParentExpired) <==> !parent.revoked && !unexpired)
        && (reason == Some(GrantsEscape) <==> !parent.revoked && unexpired && !within)
        && (reason == Some(DepthExceeds) <==> !parent.revoked && unexpired && within && !shallower)
        && (reason == Some(TtlExceeds) <==> !parent.revoked && unexpired && within && shallower && !shorter)
  {
    if request.parentAgentId in p.forest {
      var grants := p.forest[request.parentAgentId].grants;
      forall sub | sub in request.grantSubset
        ensures CoveredAt(sub, grants, later) <==>
          Unexpired(sub, later) && exists sup :: sup in grants && Unexpired(sup, later) && Covers(sup, sub)
      {
        UnexpiredIs(sub, later);
        forall sup | sup in grants ensures Unexpired(sup, later) == !sup.ExpiredAt(later) {
          UnexpiredIs(sup, later);
        }
      }
    }
  }

  /** A limit of 0, like none, is no limit; at its last millisecond a grant can still be delegated. */
  predicate Unexpired(g: Grant, now: Time) {
    g.notAfter.None? || g.notAfter.value == 0.0 || now <= g.notAfter.value
  }

  lemma UnexpiredIs(g: Grant, now: Time)
    ensures Unexpired(g, now) == !g.ExpiredAt(now)
  {
  }

  // ---- Revocation is for good ----

  lemma RevokedStays(p: Protocol, op: Op, x: AgentId)
    requires Sound(p) && Enabled(p, op) && x in p.forest && p.forest[x].revoked
    requires op.InitRoot? ==> op.agent != x
    ensures x in Next(p, op).forest && Next(p, op).forest[x].revoked
  {
    if op.Delegate? && Refuse(p.forest, op.request, op.now, op.later).None? {
      FreshChild(p.forest, p.counter, op.request.parentAgentId);
    }
  }

  /** A revoked agent never delegates again, unless its root is set up anew. */
  lemma {:induction false} RevokedForever(p: Protocol, ops: seq<Op>, x: AgentId, request: DelegationRequest, now: Time, later: Time)
    requires Sound(p) && CanRun(p, ops) && x in p.forest && p.forest[x].revoked
    requires forall op | op in ops && op.InitRoot? :: op.agent != x
    requires request.parentAgentId == x
    ensures Refuse(After(p, ops).forest, request, now, later) == Some(ParentRevoked)
    decreases |ops|
  {
    if ops != [] {
      assert ops[0] in ops;
      RevokedStays(p, ops[0], x);
      RevokedForever(Next(p, ops[0]), ops[1..], x, request, now, later);
    }
  }

  /** Revoking a node isolates its subtree for good, and changes no node outside it. */
  lemma SubtreeIsolated(p: Protocol, a: AgentId, ops: seq<Op>, x: AgentId, request: DelegationRequest, now: Time, later: Time)
    requires Sound(p) && x in p.forest && CanRun(Next(p, Revoke(a)), ops)
    ensures !Descends(p.forest, p.counter, x, a) ==> Next(p, Revoke(a)).forest[x] == p.forest[x]
    ensures Descends(p.forest, p.counter, x, a) && request.parentAgentId == x
        && (forall op | op in ops && op.InitRoot? :: op.agent != x)
      ==> Refuse(After(Next(p, Revoke(a)), ops).forest, request, now, later) == Some(ParentRevoked)
  {
    var q := Next(p, Revoke(a));
    if Descends(p.forest, p.counter, x, a) && request.parentAgentId == x
       && forall op | op in ops && op.InitRoot? :: op.agent != x {
      RevokedForever(q, ops, x, request, now, later);
    }
  }

  // ---- What one revocation logs ----

  lemma {:induction false} UnrevokedMembers(f: Forest, order: seq<AgentId>, x: AgentId)
    ensures x in Unrevoked(f, order) <==> x in order && x in f && !f[x].revoked
  {
    if order != [] {
      var n := |order| - 1;
      assert order == order[..n] + [order[n]];
      UnrevokedMembers(f, order[..n], x);
    }
  }

  lemma {:induction false} UnrevokedAncestorsFirst(f: Forest, counter: nat, order: seq<AgentId>)
    requires Tree(f, counter) && AncestorsFirst(f, counter, order)
    ensures AncestorsFirst(f, counter, Unrevoked(f, order))
  {
    if order != [] {
      var n := |order| - 1;
      UnrevokedAncestorsFirst(f, counter, order[..n]);
      var r := Unrevoked(f, order[..n]);
      forall i | 0 <= i < |r| && r[i] in f ensures !Descends(f, counter, r[i], order[n]) {
        assert r[i] in r;
        UnrevokedMembers(f, order[..n], r[i]);
        var j :| 0 <= j < n && order[j] == r[i];
      }
    }
  }

  /** The cascade logs exactly the newly revoked nodes, each once, ancestors before descendants. */
  lemma CascadeOrder(f: Forest, counter: nat, a: AgentId)
    requires Good(f, counter) && a in f
    ensures var order := Unrevoked(f, Preorder(f, counter, a));
      && (forall x :: x in order <==> x in f && !f[x].revoked && Revoked(f, counter, a)[x].revoked)
      && AncestorsFirst(f, counter, order)
      && Sorting.Distinct(order)
  {
    var order := Unrevoked(f, Preorder(f, counter, a));
    PreorderMembers(f, counter, a);
    PreorderAncestorsFirst(f, counter, a);
    UnrevokedAncestorsFirst(f, counter, Preorder(f, counter, a));
    forall x ensures x in order <==> x in f && !f[x].revoked && Revoked(f, counter, a)[x].revoked {
      UnrevokedMembers(f, Preorder(f, counter, a), x);
    }
    forall i, j | 0 <= i < j < |order| ensures order[i] != order[j] {
      assert order[i] in order;
    }
  }

  // ---- Token ids ----

  ghost predicate Minted(t: Text, counter: nat) {
    exists n: nat :: n < counter && (t == TOKEN + Decimal(n) || t == ROOT_TOKEN + Decimal(n))
  }

  ghost predicate TokensDistinct(p: Protocol) {
    && (forall x | x in p.forest :: Minted(p.forest[x].tokenId, p.counter))
    && (forall x, y | x in p.forest && y in p.forest && x != y :: p.forest[x].tokenId != p.forest[y].tokenId)
  }

  lemma TokenIdsDiffer(m: nat, n: nat)
    ensures TOKEN + Decimal(m) != ROOT_TOKEN + Decimal(n)
    ensures TOKEN + Decimal(m) == TOKEN + Decimal(n) ==> m == n
    ensures ROOT_TOKEN + Decimal(m) == ROOT_TOKEN + Decimal(n) ==> m == n
  {
    assert (TOKEN + Decimal(m))[0] == TOKEN[0] && (ROOT_TOKEN + Decimal(n))[0] == ROOT_TOKEN[0];
    assert (TOKEN + Decimal(m))[|TOKEN|..] == Decimal(m) && (TOKEN + Decimal(n))[|TOKEN|..] == Decimal(n);
    assert (ROOT_TOKEN + Decimal(m))[|ROOT_TOKEN|..] == Decimal(m) && (ROOT_TOKEN + Decimal(n))[|ROOT_TOKEN|..] == Decimal(n);
    if Decimal(m) == Decimal(n) { DecimalInjective(m, n); }
  }

  lemma NewTokenIsNew(t: Text, counter: nat, n: nat)
    requires Minted(t, counter) && n >= counter
    ensures t != TOKEN + Decimal(n) && t != ROOT_TOKEN + Decimal(n)
  {
    var m: nat :| m < counter && (t == TOKEN + Decimal(m) || t == ROOT_TOKEN + Decimal(m));
    TokenIdsDiffer(m, n);
    TokenIdsDiffer(n, m);
  }

  /** Token ids are globally unique in every run. */
  lemma {:induction false} TokensStayDistinct(p: Protocol, ops: seq<Op>)
    requires Sound(p) && CanRun(p, ops) && TokensDistinct(p)
    ensures TokensDistinct(After(p, ops))
    decreases |ops|
  {
    if ops != [] {
      OpKeepsTokens(p, ops[0]);
      TokensStayDistinct(Next(p, ops[0]), ops[1..]);
    }
  }

  /** Adding, or replacing, one node under a token number not used before. */
  lemma TokenAdded(p: Protocol, q: Protocol, id: AgentId, n: nat)
    requires TokensDistinct(p) && p.counter <= n < q.counter && id in q.forest
    requires q.forest[id].tokenId in {TOKEN + Decimal(n), ROOT_TOKEN + Decimal(n)}
    requires forall x | x in q.forest && x != id :: x in p.forest && q.forest[x].tokenId == p.forest[x].tokenId
    ensures TokensDistinct(q)
  {
    forall x | x in q.forest ensures Minted(q.forest[x].tokenId, q.counter) {
      if x != id {
        var m: nat :| m < p.counter && (p.forest[x].tokenId == TOKEN + Decimal(m) || p.forest[x].tokenId == ROOT_TOKEN + Decimal(m));
      }
    }
    forall x | x in q.forest && x != id ensures q.forest[x].tokenId != q.forest[id].tokenId {
      NewTokenIsNew(p.forest[x].tokenId, p.counter, n);
    }
  }

  lemma OpKeepsTokens(p: Protocol, op: Op)
    requires Sound(p) && Enabled(p, op) && TokensDistinct(p)
    ensures TokensDistinct(Next(p, op))
  {
    match op {
      case InitRoot(agent, grants) => TokenAdded(p, Next(p, op), agent, p.counter);
      case Delegate(request, now, later) =>
        if Refuse(p.forest, request, now, later).None? {
          TokenAdded(p, Next(p, op), ChildId(request.parentAgentId, p.counter), p.counter + 1);
        }
      case Revoke(_) =>
    }
  }
}

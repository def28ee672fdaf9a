/** The delegation forest as a value: its invariant, its operations and what the invariant gives
    (delegation/protocol.ts). */
module Forests {
  import opened Options
  import opened Texts
  import opened Ticks
  import opened Grants
  import opened Log
  import opened Permissions
  import Sorting

  datatype NodeView = NodeView(
    parent: Option<AgentId>, children: seq<AgentId>,
    tokenId: Text, grants: seq<Grant>, maxDepth: real, ttl: Time, revoked: bool)

  type Forest = map<AgentId, NodeView>

  datatype Reason =
    | ParentNotFound | ParentRevoked | ParentExpired | GrantsEscape | DepthExceeds | TtlExceeds

  const CHILD := Ascii("child-")
  const TOKEN := Ascii("token-")
  const ROOT_TOKEN := Ascii("root-token-")
  const ROOT_DEPTH := 100.0
  const MAX_SAFE_INTEGER := 9007199254740991.0

  function ChildId(parent: AgentId, n: nat): AgentId {
    CHILD + parent + [MINUS] + Decimal(n)
  }

  lemma ChildIdInjective(p: AgentId, m: nat, q: AgentId, n: nat)
    requires ChildId(p, m) == ChildId(q, n)
    ensures p == q && m == n
  {
    DecimalReadsBack(m);
    DecimalReadsBack(n);
    SplitAtLast(CHILD + p, Decimal(m), CHILD + q, Decimal(n), MINUS);
    assert p == (CHILD + p)[|CHILD|..] && q == (CHILD + q)[|CHILD|..];
  }

  // ---- The invariant ----

  /** `children` and `parent` agree; depth drops, ttl and grants do not grow along an edge. */
  ghost predicate Edge(f: Forest, p: AgentId, c: AgentId) {
    && p in f && c in f
    && f[c].parent == Some(p) && c in f[p].children
    && f[c].maxDepth < f[p].maxDepth
    && f[c].ttl <= f[p].ttl
    && AllCovered(f[c].grants, f[p].grants)
  }

  /** Ids come from the counter: a child's id names its parent and a used number; a root's is none that
      the counter is still to give. */
  ghost predicate Named(f: Forest, x: AgentId, counter: nat)
    requires x in f
  {
    match f[x].parent
    case None => NeverGenerated(x, counter)
    case Some(p) => exists n: nat :: n < counter && x == ChildId(p, n)
  }

  ghost predicate NeverGenerated(x: AgentId, counter: nat) {
    forall p: AgentId, n: nat {:trigger ChildId(p, n)} | n >= counter :: x != ChildId(p, n)
  }

  ghost predicate Tree(f: Forest, counter: nat) {
    && (forall x | x in f :: f[x].maxDepth <= ROOT_DEPTH && Named(f, x, counter) && Sorting.Distinct(f[x].children))
    && (forall x | x in f && f[x].parent.Some? :: Edge(f, f[x].parent.value, x))
    && (forall p, c | p in f && c in f[p].children :: Edge(f, p, c))
  }

  /** Revocation is closed downward, except below the nodes still being cascaded. */
  ghost predicate ClosedExcept(f: Forest, open: set<AgentId>) {
    forall x | x in f && f[x].parent.Some? && f[x].parent.value in f ::
      f[f[x].parent.value].revoked && f[x].parent.value !in open ==> f[x].revoked
  }

  ghost predicate Good(f: Forest, counter: nat) {
    Tree(f, counter) && ClosedExcept(f, {})
  }

  // ---- Ancestry ----

  /** A generated id is longer than its parent's, so walking up ends. */
  lemma ParentShorter(f: Forest, counter: nat, x: AgentId)
    requires Tree(f, counter) && x in f && f[x].parent.Some?
    ensures Edge(f, f[x].parent.value, x) && |f[x].parent.value| < |x|
  {
    assert Named(f, x, counter);
  }

  /** `x` is `a` or below it. */
  ghost predicate Descends(f: Forest, counter: nat, x: AgentId, a: AgentId)
    requires Tree(f, counter) && x in f
    decreases |x|
  {
    x == a || (f[x].parent.Some? && (ParentShorter(f, counter, x); Descends(f, counter, f[x].parent.value, a)))
  }

  ghost function Subtree(f: Forest, counter: nat, a: AgentId): (s: set<AgentId>)
    requires Tree(f, counter)
  {
    set x | x in f && Descends(f, counter, x, a)
  }

  ghost function Depth(f: Forest, counter: nat, x: AgentId): nat
    requires Tree(f, counter) && x in f
    decreases |x|
  {
    if f[x].parent.None? then 0
    else
      ParentShorter(f, counter, x);
      1 + Depth(f, counter, f[x].parent.value)
  }

  /** What an ancestor bounds: depth strictly, time to live and grants, and it exists. */
  lemma {:induction false} AncestorBounds(f: Forest, counter: nat, x: AgentId, a: AgentId)
    requires Tree(f, counter) && x in f && Descends(f, counter, x, a)
    ensures a in f && (x != a ==> f[x].maxDepth < f[a].maxDepth)
    ensures f[x].ttl <= f[a].ttl
    ensures AllCovered(f[x].grants, f[a].grants)
    decreases |x|
  {
    if x == a {
      AllCoveredReflexive(f[x].grants);
    } else {
      var p := f[x].parent.value;
      ParentShorter(f, counter, x);
      AncestorBounds(f, counter, p, a);
      AllCoveredTransitive(f[x].grants, f[p].grants, f[a].grants);
    }
  }

  lemma {:induction false} DescendsTransitive(f: Forest, counter: nat, x: AgentId, y: AgentId, a: AgentId)
    requires Tree(f, counter) && x in f && y in f
    requires Descends(f, counter, x, y) && Descends(f, counter, y, a)
    ensures Descends(f, counter, x, a)
    decreases |x|
  {
    if x != y {
      ParentShorter(f, counter, x);
      DescendsTransitive(f, counter, f[x].parent.value, y, a);
    }
  }

  /** Two ancestors of one node are comparable. */
  lemma {:induction false} AncestorsChain(f: Forest, counter: nat, x: AgentId, a: AgentId, b: AgentId)
    requires Tree(f, counter) && x in f && a in f && b in f
    requires Descends(f, counter, x, a) && Descends(f, counter, x, b)
    ensures Descends(f, counter, a, b) || Descends(f, counter, b, a)
    decreases |x|
  {
    if x != a && x != b {
      ParentShorter(f, counter, x);
      AncestorsChain(f, counter, f[x].parent.value, a, b);
    }
  }

  /** A proper descendant lies below one of the children. */
  lemma {:induction false} BelowSomeChild(f: Forest, counter: nat, x: AgentId, a: AgentId) returns (c: AgentId)
    requires Tree(f, counter) && x in f && x != a && Descends(f, counter, x, a)
    ensures a in f && c in f[a].children && c in f && Descends(f, counter, x, c)
    decreases |x|
  {
    var p := f[x].parent.value;
    ParentShorter(f, counter, x);
    if p == a {
      c := x;
    } else {
      c := BelowSomeChild(f, counter, p, a);
    }
  }

  lemma ChildDescends(f: Forest, counter: nat, a: AgentId, c: AgentId)
    requires Tree(f, counter) && a in f && c in f[a].children
    ensures c in f && f[c].parent == Some(a) && Descends(f, counter, c, a) && !Descends(f, counter, a, c)
  {
    assert Edge(f, a, c);
    assert Descends(f, counter, a, a);
    if Descends(f, counter, a, c) {
      AncestorBounds(f, counter, a, c);
    }
  }

  /** Siblings have disjoint subtrees. */
  lemma SiblingsApart(f: Forest, counter: nat, a: AgentId, c: AgentId, d: AgentId, x: AgentId)
    requires Tree(f, counter) && a in f && c in f[a].children && d in f[a].children && c != d
    requires x in f && c in f && d in f
    ensures !(Descends(f, counter, x, c) && Descends(f, counter, x, d))
  {
    if Descends(f, counter, x, c) && Descends(f, counter, x, d) {
      ChildDescends(f, counter, a, c);
      ChildDescends(f, counter, a, d);
      AncestorsChain(f, counter, x, c, d);
    }
  }

  // ---- What the invariant gives ----

  /** Revocation reaches every descendant, unless an open node lies between. */
  lemma {:induction false} RevokedBelow(f: Forest, counter: nat, open: set<AgentId>, x: AgentId, a: AgentId)
    requires Tree(f, counter) && ClosedExcept(f, open)
    requires x in f && a in f && Descends(f, counter, x, a) && f[a].revoked
    requires forall o | o in open && o in f :: !Descends(f, counter, o, a)
    ensures f[x].revoked
    decreases |x|
  {
    if x != a {
      var p := f[x].parent.value;
      ParentShorter(f, counter, x);
      RevokedBelow(f, counter, open, p, a);
    }
  }

  /** The checks `delegate` makes, in its order; all look at the immediate parent only. The clock is read
      for the parent's expiry, and again for the expiry of grants. */
  ghost function Refuse(f: Forest, request: DelegationRequest, now: Time, later: Time): Option<Reason> {
    var p := request.parentAgentId;
    if p !in f then Some(ParentNotFound)
    else if f[p].revoked then Some(ParentRevoked)
    else if now > f[p].ttl then Some(ParentExpired)
    else if !SubsetAt(request.grantSubset, f[p].grants, later) then Some(GrantsEscape)
    else if request.maxDepth >= f[p].maxDepth then Some(DepthExceeds)
    else if request.ttl > f[p].ttl then Some(TtlExceeds)
    else None
  }

  /** `isSubset`: no expired grant, and each covered by an unexpired one. */
  ghost predicate SubsetAt(subs: seq<Grant>, sups: seq<Grant>, now: Time) {
    forall sub | sub in subs :: CoveredAt(sub, sups, now)
  }

  ghost predicate CoveredAt(sub: Grant, sups: seq<Grant>, now: Time) {
    !sub.ExpiredAt(now) && exists sup :: sup in sups && !sup.ExpiredAt(now) && Covers(sup, sub)
  }

  /** The local check is a global check: when a delegation is accepted, every ancestor up to the root is
      unrevoked and unexpired, and the granted permissions are within each ancestor's. */
  lemma AcceptedMeansAncestorsLive(f: Forest, counter: nat, request: DelegationRequest, now: Time, later: Time, a: AgentId)
    requires Good(f, counter) && Refuse(f, request, now, later) == None
    requires Descends(f, counter, request.parentAgentId, a)
    ensures a in f && !f[a].revoked && now <= f[a].ttl
    ensures AllCovered(request.grantSubset, f[a].grants)
    ensures request.ttl <= f[a].ttl && request.maxDepth < f[a].maxDepth
  {
    var p := request.parentAgentId;
    AncestorBounds(f, counter, p, a);
    if f[a].revoked {
      RevokedBelow(f, counter, {}, p, a);
    }
    SubsetIsCovered(request.grantSubset, f[p].grants, later);
    AllCoveredTransitive(request.grantSubset, f[p].grants, f[a].grants);
  }

  lemma SubsetIsCovered(subs: seq<Grant>, sups: seq<Grant>, now: Time)
    requires SubsetAt(subs, sups, now)
    ensures AllCovered(subs, sups)
  {
    forall sub | sub in subs ensures exists sup :: sup in sups && Covers(sup, sub) {
      assert CoveredAt(sub, sups, now);
    }
  }

  /** Authority never grows: whatever a node's grants allow at any time, every ancestor's allow. */
  lemma AuthorityNeverGrows(f: Forest, counter: nat, x: AgentId, a: AgentId, q: Question)
    requires Tree(f, counter) && x in f && Descends(f, counter, x, a)
    ensures a in f
    ensures Decision(q.(grants := f[x].grants), []) == Allow ==> Decision(q.(grants := f[a].grants), []) == Allow
  {
    AncestorBounds(f, counter, x, a);
    if Decision(q.(grants := f[x].grants), []) == Allow {
      DecisionMonotone(q.(grants := f[x].grants), f[a].grants);
    }
  }

  predicate Whole(d: real) {
    d == d.Floor as real
  }

  ghost predicate WholeDepths(f: Forest) {
    forall x | x in f :: Whole(f[x].maxDepth)
  }

  lemma WholeDrops(d: real, e: real)
    requires Whole(d) && Whole(e) && d < e
    ensures d + 1.0 <= e
  {
    IntegersDrop(d.Floor, e.Floor);
  }

  lemma IntegersDrop(m: int, n: int)
    requires m as real < n as real
    ensures m as real + 1.0 <= n as real
  {
    assert n as real - m as real == (n - m) as real;
  }

  /** Depth and remaining allowance never add up to more than the root's, where allowances are whole. */
  lemma {:induction false} DepthBounded(f: Forest, counter: nat, x: AgentId)
    requires Tree(f, counter) && x in f && WholeDepths(f)
    ensures Depth(f, counter, x) as real + f[x].maxDepth <= ROOT_DEPTH
    decreases |x|
  {
    if f[x].parent.Some? {
      var p := f[x].parent.value;
      ParentShorter(f, counter, x);
      DepthBounded(f, counter, p);
      WholeDrops(f[x].maxDepth, f[p].maxDepth);
    }
  }

  // ---- The operations ----

  function Root(counter: nat, grants: seq<Grant>): NodeView {
    NodeView(None, [], ROOT_TOKEN + Decimal(counter), grants, ROOT_DEPTH, MAX_SAFE_INTEGER, false)
  }

  function Rooted(f: Forest, counter: nat, agent: AgentId, grants: seq<Grant>): Forest {
    f[agent := Root(counter, grants)]
  }

  function Child(counter: nat, request: DelegationRequest): NodeView {
    NodeView(Some(request.parentAgentId), [], TOKEN + Decimal(counter + 1),
             request.grantSubset, request.maxDepth, request.ttl, false)
  }

  function Delegated(f: Forest, counter: nat, request: DelegationRequest): Forest
    requires request.parentAgentId in f
  {
    var p := request.parentAgentId;
    var id := ChildId(p, counter);
    f[p := f[p].(children := f[p].children + [id])][id := Child(counter, request)]
  }

  function Mark(f: Forest, s: set<AgentId>): Forest {
    map x | x in f :: f[x].(revoked := f[x].revoked || x in s)
  }

  /** Revoking a node marks its whole subtree. */
  ghost function Revoked(f: Forest, counter: nat, a: AgentId): Forest
    requires Tree(f, counter)
  {
    Mark(f, Subtree(f, counter, a))
  }

  /** A generated id is new. */
  lemma FreshChild(f: Forest, counter: nat, p: AgentId)
    requires Tree(f, counter)
    ensures ChildId(p, counter) !in f && ChildId(p, counter) != p
  {
    var id := ChildId(p, counter);
    if id in f && f[id].parent.Some? {
      var n: nat :| n < counter && id == ChildId(f[id].parent.value, n);
      ChildIdInjective(p, counter, f[id].parent.value, n);
    }
    assert |id| > |p|;
  }

  lemma DelegatedKeepsGood(f: Forest, counter: nat, request: DelegationRequest, now: Time, later: Time)
    requires Good(f, counter) && Refuse(f, request, now, later) == None
    ensures Good(Delegated(f, counter, request), counter + 2)
    ensures ChildId(request.parentAgentId, counter) !in f
  {
    var p := request.parentAgentId;
    var id := ChildId(p, counter);
    var g := Delegated(f, counter, request);
    FreshChild(f, counter, p);
    SubsetIsCovered(request.grantSubset, f[p].grants, later);
    assert Edge(g, p, id);
    forall x | x in g ensures g[x].maxDepth <= ROOT_DEPTH && Named(g, x, counter + 2) && Sorting.Distinct(g[x].children) {
      if x == id {
        assert x == ChildId(p, counter);
      } else {
        assert Named(f, x, counter);
        assert forall c | c in f[x].children :: Edge(f, x, c);
        assert forall i | 0 <= i < |f[x].children| :: f[x].children[i] in f[x].children;
      }
    }
    forall x | x in g && g[x].parent.Some? ensures Edge(g, g[x].parent.value, x) {
      if x != id { assert Edge(f, f[x].parent.value, x); }
    }
    forall q, c | q in g && c in g[q].children ensures Edge(g, q, c) {
      if c != id { assert Edge(f, q, c); }
    }
  }

  /** What `initRoot` needs of an id, and does not check: it is no node with a parent or children, and no
      id still to be generated. */
  ghost predicate MayRoot(f: Forest, counter: nat, agent: AgentId) {
    && (agent in f ==> f[agent].parent.None? && f[agent].children == [])
    && NeverGenerated(agent, counter + 1)
  }

  /** Setting up a root keeps the forest just when the id is no node that hangs in the tree and will not
      be generated later: `initRoot` overwrites the node but leaves its parent and children as they are. */
  lemma InitRootKeepsGoodExactly(f: Forest, counter: nat, agent: AgentId, grants: seq<Grant>)
    requires Good(f, counter)
    ensures Good(Rooted(f, counter, agent, grants), counter + 1) <==> MayRoot(f, counter, agent)
  {
    if MayRoot(f, counter, agent) {
      RootedIsGood(f, counter, agent, grants);
    } else {
      RootedIsBad(f, counter, agent, grants);
    }
  }

  lemma RootedIsGood(f: Forest, counter: nat, agent: AgentId, grants: seq<Grant>)
    requires Good(f, counter) && MayRoot(f, counter, agent)
    ensures Good(Rooted(f, counter, agent, grants), counter + 1)
  {
    var g := Rooted(f, counter, agent, grants);
    forall x | x in g ensures g[x].maxDepth <= ROOT_DEPTH && Named(g, x, counter + 1) && Sorting.Distinct(g[x].children) {
      if x != agent { assert Named(f, x, counter); }
    }
    forall x | x in g && g[x].parent.Some? ensures Edge(g, g[x].parent.value, x) {
      assert Edge(f, f[x].parent.value, x);
    }
    forall q, c | q in g && c in g[q].children ensures Edge(g, q, c) {
      assert Edge(f, q, c);
    }
  }

  lemma RootedIsBad(f: Forest, counter: nat, agent: AgentId, grants: seq<Grant>)
    requires Good(f, counter) && !MayRoot(f, counter, agent)
    ensures !Good(Rooted(f, counter, agent, grants), counter + 1)
  {
    var g := Rooted(f, counter, agent, grants);
    if agent in f && f[agent].children != [] {
      var c := f[agent].children[0];
      assert Edge(f, agent, c);
      assert g[c] == f[c] && !Edge(g, agent, c);
    } else if agent in f && f[agent].parent.Some? {
      var p := f[agent].parent.value;
      assert Edge(f, p, agent);
      assert g[p] == f[p] && !Edge(g, p, agent);
    } else {
      assert !Named(g, agent, counter + 1);
    }
  }

  // ---- Revocation ----

  /** Two forests that differ in revocation only. */
  ghost predicate SameShape(f: Forest, g: Forest) {
    f.Keys == g.Keys && forall x | x in f :: g[x] == f[x].(revoked := g[x].revoked)
  }

  lemma MarkShape(f: Forest, counter: nat, s: set<AgentId>)
    requires Tree(f, counter)
    ensures SameShape(f, Mark(f, s)) && Tree(Mark(f, s), counter)
  {
    var g := Mark(f, s);
    forall x | x in g ensures Named(g, x, counter) {
      assert Named(f, x, counter);
    }
    forall x | x in g && g[x].parent.Some? ensures Edge(g, g[x].parent.value, x) {
      assert Edge(f, f[x].parent.value, x);
    }
    forall q, c | q in g && c in g[q].children ensures Edge(g, q, c) {
      assert Edge(f, q, c);
    }
  }

  lemma MarkTwice(f: Forest, s: set<AgentId>, t: set<AgentId>)
    ensures Mark(Mark(f, s), t) == Mark(f, s + t)
  {
  }

  lemma SubtreeClosed(f: Forest, counter: nat, a: AgentId, x: AgentId)
    requires Tree(f, counter) && x in f && f[x].parent.Some? && f[x].parent.value in Subtree(f, counter, a)
    ensures x in Subtree(f, counter, a)
  {
    assert Edge(f, f[x].parent.value, x);
  }

  /** Revocation keeps the forest good, whatever node it starts from. */
  lemma RevokedKeepsGood(f: Forest, counter: nat, a: AgentId)
    requires Good(f, counter)
    ensures Good(Revoked(f, counter, a), counter)
  {
    var s := Subtree(f, counter, a);
    MarkShape(f, counter, s);
    forall x | x in f && f[x].parent.Some? && f[x].parent.value in s ensures x in s {
      SubtreeClosed(f, counter, a, x);
    }
  }

  /** Subtrees of the first children. */
  ghost function Below(f: Forest, counter: nat, kids: seq<AgentId>): set<AgentId>
    requires Tree(f, counter)
  {
    if kids == [] then {}
    else Below(f, counter, kids[..|kids| - 1]) + Subtree(f, counter, kids[|kids| - 1])
  }

  lemma {:induction false} BelowMembers(f: Forest, counter: nat, kids: seq<AgentId>, x: AgentId)
    requires Tree(f, counter)
    ensures x in Below(f, counter, kids) <==> exists k :: k in kids && x in Subtree(f, counter, k)
  {
    if kids != [] {
      BelowMembers(f, counter, kids[..|kids| - 1], x);
      assert forall k :: k in kids <==> k in kids[..|kids| - 1] || k == kids[|kids| - 1];
    }
  }

  /** A subtree is its root and the subtrees of its children. */
  lemma SubtreeSplits(f: Forest, counter: nat, a: AgentId)
    requires Tree(f, counter) && a in f
    ensures Subtree(f, counter, a) == {a} + Below(f, counter, f[a].children)
  {
    forall x ensures x in Subtree(f, counter, a) <==> x in {a} + Below(f, counter, f[a].children) {
      BelowMembers(f, counter, f[a].children, x);
      if x in Subtree(f, counter, a) && x != a {
        var c := BelowSomeChild(f, counter, x, a);
        assert x in Subtree(f, counter, c);
      }
      if x in Below(f, counter, f[a].children) {
        var k :| k in f[a].children && x in Subtree(f, counter, k);
        ChildDescends(f, counter, a, k);
        DescendsTransitive(f, counter, x, k, a);
      }
    }
  }

  lemma ChildSubtreeSmaller(f: Forest, counter: nat, a: AgentId, c: AgentId)
    requires Tree(f, counter) && a in f && c in f[a].children
    ensures c in f && Subtree(f, counter, c) < Subtree(f, counter, a)
  {
    ChildDescends(f, counter, a, c);
    forall x | x in Subtree(f, counter, c) ensures x in Subtree(f, counter, a) {
      DescendsTransitive(f, counter, x, c, a);
    }
    assert a in Subtree(f, counter, a) && a !in Subtree(f, counter, c);
  }

  // ---- The order of the cascade ----

  /** Depth first, a node before its children. */
  ghost function Preorder(f: Forest, counter: nat, a: AgentId): seq<AgentId>
    requires Tree(f, counter) && a in f
    decreases Subtree(f, counter, a), |f[a].children| + 1
  {
    [a] + PreorderAll(f, counter, a, f[a].children)
  }

  ghost function PreorderAll(f: Forest, counter: nat, a: AgentId, kids: seq<AgentId>): seq<AgentId>
    requires Tree(f, counter) && a in f && forall k | k in kids :: k in f[a].children
    decreases Subtree(f, counter, a), |kids|
  {
    if kids == [] then []
    else
      var last := kids[|kids| - 1];
      ChildSubtreeSmaller(f, counter, a, last);
      PreorderAll(f, counter, a, kids[..|kids| - 1]) + Preorder(f, counter, last)
  }

  ghost function Unrevoked(f: Forest, order: seq<AgentId>): seq<AgentId> {
    if order == [] then []
    else
      var last := order[|order| - 1];
      Unrevoked(f, order[..|order| - 1]) + (if last in f && !f[last].revoked then [last] else [])
  }

  lemma {:induction false} UnrevokedConcat(f: Forest, p: seq<AgentId>, q: seq<AgentId>)
    ensures Unrevoked(f, p + q) == Unrevoked(f, p) + Unrevoked(f, q)
  {
    if q == [] {
      assert p + q == p;
    } else {
      var n := |q| - 1;
      assert (p + q)[..|p + q| - 1] == p + q[..n];
      UnrevokedConcat(f, p, q[..n]);
    }
  }

  /** Only the revocation flags of the listed nodes matter. */
  lemma {:induction false} UnrevokedAgree(f: Forest, g: Forest, order: seq<AgentId>)
    requires forall x | x in order :: (x in f && !f[x].revoked) == (x in g && !g[x].revoked)
    ensures Unrevoked(f, order) == Unrevoked(g, order)
  {
    if order != [] {
      assert order[|order| - 1] in order;
      UnrevokedAgree(f, g, order[..|order| - 1]);
    }
  }

  lemma {:induction false} UnrevokedNone(f: Forest, order: seq<AgentId>)
    requires forall x | x in order :: x in f && f[x].revoked
    ensures Unrevoked(f, order) == []
  {
    if order != [] {
      assert order[|order| - 1] in order;
      UnrevokedNone(f, order[..|order| - 1]);
    }
  }

  /** The cascade visits exactly the subtree. */
  lemma {:induction false} PreorderMembers(f: Forest, counter: nat, a: AgentId)
    requires Tree(f, counter) && a in f
    ensures forall x :: x in Preorder(f, counter, a) <==> x in Subtree(f, counter, a)
    decreases Subtree(f, counter, a), |f[a].children| + 1
  {
    PreorderAllMembers(f, counter, a, f[a].children);
    SubtreeSplits(f, counter, a);
  }

  lemma {:induction false} PreorderAllMembers(f: Forest, counter: nat, a: AgentId, kids: seq<AgentId>)
    requires Tree(f, counter) && a in f && forall k | k in kids :: k in f[a].children
    ensures forall x :: x in PreorderAll(f, counter, a, kids) <==> x in Below(f, counter, kids)
    decreases Subtree(f, counter, a), |kids|
  {
    if kids != [] {
      var last := kids[|kids| - 1];
      ChildSubtreeSmaller(f, counter, a, last);
      PreorderAllMembers(f, counter, a, kids[..|kids| - 1]);
      PreorderMembers(f, counter, last);
    }
  }

  /** No node is visited twice, and none before its ancestors. */
  ghost predicate AncestorsFirst(f: Forest, counter: nat, order: seq<AgentId>)
    requires Tree(f, counter)
  {
    forall i, j | 0 <= i < j < |order| && order[i] in f :: !Descends(f, counter, order[i], order[j])
  }

  lemma {:induction false} PreorderAncestorsFirst(f: Forest, counter: nat, a: AgentId)
    requires Tree(f, counter) && a in f
    ensures AncestorsFirst(f, counter, Preorder(f, counter, a))
    decreases Subtree(f, counter, a), |f[a].children| + 1
  {
    var kids := f[a].children;
    PreorderAllAncestorsFirst(f, counter, a, kids);
    PreorderAllMembers(f, counter, a, kids);
    var rest := PreorderAll(f, counter, a, kids);
    forall j | 0 <= j < |rest| ensures !Descends(f, counter, a, rest[j]) {
      BelowMembers(f, counter, kids, rest[j]);
      var k :| k in kids && rest[j] in Subtree(f, counter, k);
      ChildDescends(f, counter, a, k);
      if Descends(f, counter, a, rest[j]) {
        DescendsTransitive(f, counter, a, rest[j], k);
      }
    }
  }

  lemma {:induction false} PreorderAllAncestorsFirst(f: Forest, counter: nat, a: AgentId, kids: seq<AgentId>)
    requires Tree(f, counter) && a in f && Sorting.Distinct(kids) && forall k | k in kids :: k in f[a].children
    ensures AncestorsFirst(f, counter, PreorderAll(f, counter, a, kids))
    decreases Subtree(f, counter, a), |kids|
  {
    if kids != [] {
      var n := |kids| - 1;
      var last := kids[n];
      ChildSubtreeSmaller(f, counter, a, last);
      PreorderAllAncestorsFirst(f, counter, a, kids[..n]);
      PreorderAncestorsFirst(f, counter, last);
      var p, q := PreorderAll(f, counter, a, kids[..n]), Preorder(f, counter, last);
      PreorderAllMembers(f, counter, a, kids[..n]);
      PreorderMembers(f, counter, last);
      forall x, y | x in p && y in q && x in f ensures !Descends(f, counter, x, y) {
        BelowMembers(f, counter, kids[..n], x);
        var k :| k in kids[..n] && x in Subtree(f, counter, k);
        ChildDescends(f, counter, a, k);
        SiblingsApart(f, counter, a, k, last, x);
        if Descends(f, counter, x, y) { DescendsTransitive(f, counter, x, y, last); }
      }
      assert forall i | 0 <= i < |p| :: (p + q)[i] == p[i] && p[i] in p;
      assert forall i | |p| <= i < |p + q| :: (p + q)[i] == q[i - |p|] && q[i - |p|] in q;
    }
  }

  // ---- The recursion ----

  /** `revoke(a)` is called in mid-cascade on `f`: the nodes in `open` are revoked, their subtrees
      perhaps not yet, and none of them is below `a`. `f0` is the forest the cascade started from. */
  ghost predicate MidCascade(f0: Forest, f: Forest, counter: nat, open: set<AgentId>, a: AgentId) {
    && Tree(f0, counter) && SameShape(f0, f) && ClosedExcept(f, open) && a !in open
    && forall o | o in open && o in f0 :: !Descends(f0, counter, o, a)
  }

  lemma AbsentSubtree(f0: Forest, f: Forest, counter: nat, a: AgentId)
    requires Tree(f0, counter) && SameShape(f0, f) && a !in f0
    ensures Mark(f, Subtree(f0, counter, a)) == f
  {
    forall x | x in f0 ensures x !in Subtree(f0, counter, a) {
      if Descends(f0, counter, x, a) { AncestorBounds(f0, counter, x, a); }
    }
    assert Mark(f, {}) == f;
    assert Subtree(f0, counter, a) == {};
  }

  /** The early exit: below a revoked node that is not open, everything is revoked already. */
  lemma {:induction false} AllBelowRevoked(f0: Forest, f: Forest, counter: nat, open: set<AgentId>, a: AgentId, x: AgentId)
    requires MidCascade(f0, f, counter, open, a) && a in f0 && f[a].revoked
    requires x in f0 && Descends(f0, counter, x, a)
    ensures f[x].revoked
    decreases |x|
  {
    if x != a {
      var p := f0[x].parent.value;
      ParentShorter(f0, counter, x);
      AllBelowRevoked(f0, f, counter, open, a, p);
    }
  }

  lemma EarlyExit(f0: Forest, f: Forest, counter: nat, open: set<AgentId>, a: AgentId)
    requires MidCascade(f0, f, counter, open, a) && a in f0 && f[a].revoked
    ensures Mark(f, Subtree(f0, counter, a)) == f
    ensures Unrevoked(f, Preorder(f0, counter, a)) == []
  {
    PreorderMembers(f0, counter, a);
    forall x | x in Subtree(f0, counter, a) ensures x in f && f[x].revoked {
      AllBelowRevoked(f0, f, counter, open, a, x);
    }
    UnrevokedNone(f, Preorder(f0, counter, a));
  }

  /** A child's subtree is untouched by the cascade through its earlier siblings. */
  lemma SiblingsUntouched(f0: Forest, counter: nat, a: AgentId, i: nat, x: AgentId)
    requires Tree(f0, counter) && a in f0 && i < |f0[a].children| && x in Subtree(f0, counter, f0[a].children[i])
    ensures x != a && x !in Below(f0, counter, f0[a].children[..i])
  {
    var kids := f0[a].children;
    assert kids[i] in kids;
    ChildDescends(f0, counter, a, kids[i]);
    BelowMembers(f0, counter, kids[..i], x);
    if x in Below(f0, counter, kids[..i]) {
      var k :| k in kids[..i] && x in Subtree(f0, counter, k);
      ChildDescends(f0, counter, a, k);
      SiblingsApart(f0, counter, a, k, kids[i], x);
    }
  }

  lemma MarkedClosed(f0: Forest, f: Forest, counter: nat, open: set<AgentId>, a: AgentId, kids: seq<AgentId>)
    requires Tree(f0, counter) && SameShape(f0, f) && ClosedExcept(f, open)
    ensures ClosedExcept(Mark(f, {a} + Below(f0, counter, kids)), open + {a})
  {
    var s := Below(f0, counter, kids);
    forall x | x in f && f[x].parent.Some? && f[x].parent.value in s ensures x in s {
      var p := f[x].parent.value;
      BelowMembers(f0, counter, kids, p);
      var k :| k in kids && p in Subtree(f0, counter, k);
      SubtreeClosed(f0, counter, k, x);
      BelowMembers(f0, counter, kids, x);
    }
  }

  /** Before the `i`-th child: the recursive call is in mid-cascade, on a smaller subtree. */
  lemma NextChild(f0: Forest, f: Forest, counter: nat, open: set<AgentId>, a: AgentId, i: nat)
    requires MidCascade(f0, f, counter, open, a) && a in f0 && i < |f0[a].children|
    ensures var c := f0[a].children[i];
      && MidCascade(f0, Mark(f, {a} + Below(f0, counter, f0[a].children[..i])), counter, open + {a}, c)
      && c in f0 && Subtree(f0, counter, c) < Subtree(f0, counter, a)
  {
    var c := f0[a].children[i];
    assert c in f0[a].children;
    ChildSubtreeSmaller(f0, counter, a, c);
    ChildDescends(f0, counter, a, c);
    MarkedClosed(f0, f, counter, open, a, f0[a].children[..i]);
    forall o | o in open + {a} && o in f0 ensures !Descends(f0, counter, o, c) {
      if o != a && Descends(f0, counter, o, c) { DescendsTransitive(f0, counter, o, c, a); }
    }
    assert c !in open by {
      assert Descends(f0, counter, c, a);
    }
  }

  /** After the `i`-th child: one more subtree is marked and one more stretch of the order logged. */
  lemma AfterChild(f0: Forest, f: Forest, counter: nat, a: AgentId, i: nat)
    requires Tree(f0, counter) && SameShape(f0, f) && a in f0 && i < |f0[a].children|
    ensures var kids := f0[a].children;
      var g := Mark(f, {a} + Below(f0, counter, kids[..i]));
      && kids[i] in f0
      && Mark(g, Subtree(f0, counter, kids[i])) == Mark(f, {a} + Below(f0, counter, kids[..i + 1]))
      && Unrevoked(g, Preorder(f0, counter, kids[i])) == Unrevoked(f, Preorder(f0, counter, kids[i]))
      && Unrevoked(f, PreorderAll(f0, counter, a, kids[..i + 1]))
         == Unrevoked(f, PreorderAll(f0, counter, a, kids[..i])) + Unrevoked(f, Preorder(f0, counter, kids[i]))
  {
    var kids := f0[a].children;
    assert kids[i] in kids;
    ChildDescends(f0, counter, a, kids[i]);
    var s := {a} + Below(f0, counter, kids[..i]);
    var g := Mark(f, s);
    assert kids[..i + 1][..i] == kids[..i];
    MarkTwice(f, s, Subtree(f0, counter, kids[i]));
    assert s + Subtree(f0, counter, kids[i]) == {a} + Below(f0, counter, kids[..i + 1]);
    var order := Preorder(f0, counter, kids[i]);
    PreorderMembers(f0, counter, kids[i]);
    forall x | x in order ensures (x in f && !f[x].revoked) == (x in g && !g[x].revoked) {
      SiblingsUntouched(f0, counter, a, i, x);
    }
    UnrevokedAgree(f, g, order);
    UnrevokedConcat(f, PreorderAll(f0, counter, a, kids[..i]), order);
  }

  /** The cascade from an unrevoked node: the node, then its children's stretches. */
  lemma WholeCascade(f0: Forest, f: Forest, counter: nat, a: AgentId)
    requires Tree(f0, counter) && SameShape(f0, f) && a in f0 && !f[a].revoked
    ensures Subtree(f0, counter, a) == {a} + Below(f0, counter, f0[a].children)
    ensures Unrevoked(f, Preorder(f0, counter, a)) == [a] + Unrevoked(f, PreorderAll(f0, counter, a, f0[a].children))
  {
    SubtreeSplits(f0, counter, a);
    UnrevokedConcat(f, [a], PreorderAll(f0, counter, a, f0[a].children));
    UnrevokedOne(f, a);
  }

  lemma UnrevokedOne(f: Forest, a: AgentId)
    requires a in f && !f[a].revoked
    ensures Unrevoked(f, [a]) == [a]
  {
    assert [a][..0] == [];
  }
}

/** What the state hash of a tick compares: the output, the lifecycle state and the memory snapshot,
    each up to `deepEqual` (execution/scheduler.ts, execution/replay-controller.ts). */
module StateHashes {
  import opened Texts
  import opened Values
  import opened Canonical
  import opened WellFormedTexts
  import opened Ticks
  import opened Lifecycles
  import opened Execution

  /** No two texts that have an exact UTF-8 encoding share a digest. */
  ghost predicate Injective(sha: Text -> Text) {
    forall s: Text, t: Text | WellFormed(s) && WellFormed(t) :: sha(s) == sha(t) ==> s == t
  }

  ghost predicate SameState(o: TickOutput, s: AgentState, m: JsonRecord, o': TickOutput, s': AgentState, m': JsonRecord) {
    DeepEqual(OutputValue(o), OutputValue(o')) && s == s' && DeepEqual(Obj(m), Obj(m'))
  }

  /** Equal states hash alike, whatever the order of their keys. */
  ghost predicate Respects(env: Env) {
    forall o: TickOutput, s: AgentState, m: JsonRecord, o': TickOutput, s': AgentState, m': JsonRecord |
      SameState(o, s, m, o', s', m') :: env.hash(o, s, m) == env.hash(o', s', m')
  }

  /** Only equal states hash alike. */
  ghost predicate CollisionFree(env: Env) {
    forall o: TickOutput, s: AgentState, m: JsonRecord, o': TickOutput, s': AgentState, m': JsonRecord |
      env.hash(o, s, m) == env.hash(o', s', m') :: SameState(o, s, m, o', s', m')
  }

  lemma StateNameInjective(s: AgentState, t: AgentState)
    requires StateName(s) == StateName(t)
    ensures s == t
  {
    assert |StateName(s)| == |StateName(t)| && StateName(s)[0] == StateName(t)[0];
  }

  lemma DeepEqualReflexive(v: Value)
    requires Valid(v)
    ensures DeepEqual(v, v)
  {
    CanonDecidesEquality(v, v);
  }

  ghost predicate SameValues(f: Record, g: Record)
    requires |f| == |g|
  {
    forall i | 0 <= i < |f| :: DeepEqual(f[i].value, g[i].value)
  }

  /** Objects with the same keys in the same order are compared property by property. */
  lemma AlignedFields(f: Record, g: Record)
    requires |f| == |g| && DistinctKeys(g) && forall i | 0 <= i < |f| :: f[i].key == g[i].key
    ensures DeepEqual(Obj(f), Obj(g)) <==> SameValues(f, g)
  {
    forall i | 0 <= i < |g| ensures HasKey(g, g[i].key) && Lookup(g, g[i].key) == g[i].value {
      LookupAt(g, i);
    }
  }

  lemma ThreeFields(k: Text, a: Value, b: Value, l: Text, c: Value, d: Value, m: Text, e: Value, f: Value)
    requires DistinctKeys([Field(k, b), Field(l, d), Field(m, f)])
    ensures DeepEqual(Obj([Field(k, a), Field(l, c), Field(m, e)]), Obj([Field(k, b), Field(l, d), Field(m, f)])) <==>
      DeepEqual(a, b) && DeepEqual(c, d) && DeepEqual(e, f)
  {
    var x, y := [Field(k, a), Field(l, c), Field(m, e)], [Field(k, b), Field(l, d), Field(m, f)];
    AlignedFields(x, y);
    ThreeValues(x, y);
  }

  lemma ThreeValues(f: Record, g: Record)
    requires |f| == |g| == 3
    ensures SameValues(f, g) <==>
      DeepEqual(f[0].value, g[0].value) && DeepEqual(f[1].value, g[1].value) && DeepEqual(f[2].value, g[2].value)
  {
  }

  lemma StateObjectParts(o: Json, s: Text, m: JsonRecord, o': Json, s': Text, m': JsonRecord)
    ensures DeepEqual(StateObject(o, s, m), StateObject(o', s', m')) <==>
      DeepEqual(o, o') && s == s' && DeepEqual(Obj(m), Obj(m'))
  {
    assert Valid(StateObject(o', s', m'));
    ThreeFields(Ascii("output"), o, o', Ascii("lifecycle"), Str(s), Str(s'), Ascii("memory"), Obj(m), Obj(m'));
  }

  /** The hashed object is compared part by part. */
  lemma KernelStateParts(o: TickOutput, s: AgentState, m: JsonRecord, o': TickOutput, s': AgentState, m': JsonRecord)
    ensures DeepEqual(KernelState(o, s, m), KernelState(o', s', m')) <==>
      && DeepEqual(OutputValue(o), OutputValue(o'))
      && s == s'
      && DeepEqual(Obj(m), Obj(m'))
  {
    StateObjectParts(OutputValue(o), StateName(s), m, OutputValue(o'), StateName(s'), m');
    if StateName(s) == StateName(s') { StateNameInjective(s, s'); }
  }

  ghost predicate SameOutput(o: TickOutput, p: TickOutput) {
    match (o, p)
    case (Completed(r), Completed(r')) => DeepEqual(r, r')
    case (PendingTool(t, a), PendingTool(t', a')) => t == t' && DeepEqual(a, a')
    case (PendingDelegation(t, a), PendingDelegation(t', a')) => t == t' && DeepEqual(a, a')
    case (Failed(e), Failed(e')) => e == e'
    case _ => false
  }

  lemma KindsAgree(o: TickOutput, p: TickOutput)
    requires DeepEqual(OutputValue(o), OutputValue(p))
    ensures SameKind(o, p)
  {
    var f, g := OutputValue(o).fields, OutputValue(p).fields;
    LookupAt(g, 0);
    assert f[0].key == g[0].key == KIND;
    assert DeepEqual(f[0].value, g[0].value);
    assert |f[0].value.text| == |g[0].value.text|;
  }

  ghost predicate SameKind(o: TickOutput, p: TickOutput) {
    && o.Completed? == p.Completed? && o.PendingTool? == p.PendingTool?
    && o.PendingDelegation? == p.PendingDelegation? && o.Failed? == p.Failed?
  }

  lemma OnePart(kind: Value, k: Text, v: Value, w: Value)
    requires kind.Str? && k != KIND
    ensures DeepEqual(Obj([Field(KIND, kind), Field(k, v)]), Obj([Field(KIND, kind), Field(k, w)])) <==> DeepEqual(v, w)
  {
    var x, y := [Field(KIND, kind), Field(k, v)], [Field(KIND, kind), Field(k, w)];
    assert y[0].key == KIND && y[1].key == k;
    AlignedFields(x, y);
    assert SameValues(x, y) <==> DeepEqual(x[0].value, y[0].value) && DeepEqual(x[1].value, y[1].value);
  }

  lemma SameKindCompared(o: TickOutput, p: TickOutput)
    requires SameKind(o, p)
    ensures DeepEqual(OutputValue(o), OutputValue(p)) <==> SameOutput(o, p)
  {
    OutputFields(o);
    OutputFields(p);
    var kind := OutputValue(o).fields[0].value;
    assert Valid(OutputValue(p));
    match (o, p) {
      case (Completed(r), Completed(r')) => OnePart(kind, Ascii("result"), r, r');
      case (PendingTool(t, a), PendingTool(t', a')) =>
        ThreeFields(KIND, kind, kind, Ascii("toolName"), Str(t), Str(t'), Ascii("args"), a, a');
      case (PendingDelegation(t, a), PendingDelegation(t', a')) =>
        ThreeFields(KIND, kind, kind, Ascii("target"), Str(t), Str(t'), Ascii("payload"), a, a');
      case (Failed(e), Failed(e')) => OnePart(kind, Ascii("error"), Str(e), Str(e'));
    }
  }

  /** The object of an output, written out. */
  lemma OutputFields(o: TickOutput)
    ensures OutputValue(o).Obj? && OutputValue(o).fields != [] && OutputValue(o).fields[0].value.Str?
    ensures var tag := Field(KIND, OutputValue(o).fields[0].value);
      OutputValue(o).fields ==
        match o
        case Completed(r) => [tag, Field(Ascii("result"), r)]
        case PendingTool(t, a) => [tag, Field(Ascii("toolName"), Str(t)), Field(Ascii("args"), a)]
        case PendingDelegation(t, a) => [tag, Field(Ascii("target"), Str(t)), Field(Ascii("payload"), a)]
        case Failed(e) => [tag, Field(Ascii("error"), Str(e))]
  {
  }

  /** Outputs compare equal as objects just when they are the same kind of output with equal parts. */
  lemma OutputsCompared(o: TickOutput, p: TickOutput)
    ensures DeepEqual(OutputValue(o), OutputValue(p)) <==> SameOutput(o, p)
  {
    if DeepEqual(OutputValue(o), OutputValue(p)) {
      KindsAgree(o, p);
    }
    if SameKind(o, p) {
      SameKindCompared(o, p);
    }
  }

  function StateText(o: TickOutput, s: AgentState, m: JsonRecord): Text {
    StableStringify(KernelState(o, s, m))
  }

  lemma StateTextsCompared(o: TickOutput, s: AgentState, m: JsonRecord, o': TickOutput, s': AgentState, m': JsonRecord)
    ensures WellFormed(StateText(o, s, m)) && WellFormed(StateText(o', s', m'))
    ensures StateText(o, s, m) == StateText(o', s', m') <==> SameState(o, s, m, o', s', m')
  {
    var a, b := KernelState(o, s, m), KernelState(o', s', m');
    KernelStateParts(o, s, m, o', s', m');
    CanonicalFormIsExact(a, b);
    CanonicalTextIsWellFormed(a);
    CanonicalTextIsWellFormed(b);
  }

  /** Equal states hash alike, and with a collision-free digest only equal states do. */
  lemma HashDecidesState(env: Env, sha: Text -> Text,
                         o: TickOutput, s: AgentState, m: JsonRecord, o': TickOutput, s': AgentState, m': JsonRecord)
    requires UsesHashState(env, sha)
    ensures SameState(o, s, m, o', s', m') ==> env.hash(o, s, m) == env.hash(o', s', m')
    ensures Injective(sha) && env.hash(o, s, m) == env.hash(o', s', m') ==> SameState(o, s, m, o', s', m')
  {
    var a, b := StateText(o, s, m), StateText(o', s', m');
    StateTextsCompared(o, s, m, o', s', m');
    assert env.hash(o, s, m) == sha(a) && env.hash(o', s', m') == sha(b);
  }

  /** The state hash compares states, because the canonical text is exact. */
  lemma HashStateComparesStates(env: Env, sha: Text -> Text)
    requires UsesHashState(env, sha)
    ensures Respects(env)
    ensures Injective(sha) ==> CollisionFree(env)
  {
    forall o: TickOutput, s: AgentState, m: JsonRecord, o': TickOutput, s': AgentState, m': JsonRecord
      ensures SameState(o, s, m, o', s', m') ==> env.hash(o, s, m) == env.hash(o', s', m')
      ensures Injective(sha) && env.hash(o, s, m) == env.hash(o', s', m') ==> SameState(o, s, m, o', s', m')
    {
      HashDecidesState(env, sha, o, s, m, o', s', m');
    }
  }
}

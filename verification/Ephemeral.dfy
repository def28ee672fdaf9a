/** Per-tick scratch memory with checkpoints, addressed by printed handles (memory/ephemeral.ts). */
module Ephemeral {
  import opened Options
  import opened Texts
  import opened Values
  import opened Ticks

  /** The safe integers, 2^53 - 1 at most, which JavaScript prints and parses exactly. */
  type TickSeq = n: int | -9_007_199_254_740_992 < n < 9_007_199_254_740_992

  // ---- Handles ----

  function GenerateHandle(agent: AgentId, tickSeq: TickSeq): Text {
    agent + [COLON] + Integer(tickSeq)
  }

  predicate WhiteSpace(u: CodeUnit) {
    || 0x09 <= u <= 0x0D || u == 0x20 || u == 0xA0 || u == 0x1680 || 0x2000 <= u <= 0x200A
    || u == 0x2028 || u == 0x2029 || u == 0x202F || u == 0x205F || u == 0x3000 || u == 0xFEFF
  }

  function TrimStart(t: Text): Text {
    if t != [] && WhiteSpace(t[0]) then TrimStart(t[1..]) else t
  }

  /** The longest prefix of digits. */
  function DigitPrefix(t: Text): (p: Text)
    ensures AllDigits(p)
  {
    if t != [] && IsDigit(t[0]) then [t[0]] + DigitPrefix(t[1..]) else []
  }

  /** `parseInt(t, 10)`: white space, a sign, then digits up to the first other unit; `None` is NaN. */
  function ParseInt(t: Text): Option<int> {
    var s := TrimStart(t);
    var signed := s != [] && s[0] in {MINUS, PLUS};
    var digits := DigitPrefix(if signed then s[1..] else s);
    if digits == [] then None
    else Some(if signed && s[0] == MINUS then 0 - ReadDecimal(digits) else ReadDecimal(digits))
  }

  function FirstColon(t: Text): (i: nat)
    ensures i <= |t| && (i < |t| ==> t[i] == COLON) && COLON !in t[..i]
  {
    if t == [] || t[0] == COLON then 0 else
      var i := 1 + FirstColon(t[1..]);
      assert t[..i] == [t[0]] + t[1..][..i - 1];
      i
  }

  /** `split(':')` must give two parts; the second goes through parseInt. `None` is a thrown error. */
  function ParseHandle(handle: Text): Option<(AgentId, Option<int>)> {
    var i := FirstColon(handle);
    if i == |handle| || COLON in handle[i + 1..] then None
    else Some((handle[..i], ParseInt(handle[i + 1..])))
  }

  lemma {:induction false} DigitPrefixAll(t: Text)
    requires AllDigits(t)
    ensures DigitPrefix(t) == t
  {
    if t != [] {
      DigitPrefixAll(t[1..]);
      assert t == [t[0]] + t[1..];
    }
  }

  lemma ParseIntOfInteger(n: int)
    ensures ParseInt(Integer(n)) == Some(n)
  {
    var m := if n < 0 then -n else n;
    DecimalReadsBack(m);
    DigitPrefixAll(Decimal(m));
    var t := Integer(n);
    assert !WhiteSpace(t[0]) && TrimStart(t) == t;
    if n < 0 {
      assert t[1..] == Decimal(m);
    }
  }

  /** Handles parse back to what printed them exactly when the agent id has no colon. */
  lemma HandleRoundTrip(agent: AgentId, tickSeq: TickSeq)
    ensures ParseHandle(GenerateHandle(agent, tickSeq)) == Some((agent, Some(tickSeq as int))) <==> COLON !in agent
    ensures COLON in agent ==> ParseHandle(GenerateHandle(agent, tickSeq)) == None
  {
    IntegerUnits(tickSeq);
    ParseIntOfInteger(tickSeq);
    if COLON in agent {
      ColonAgent(agent, Integer(tickSeq));
    } else {
      PlainAgent(agent, Integer(tickSeq));
    }
  }

  lemma PlainAgent(agent: AgentId, t: Text)
    requires COLON !in agent && COLON !in t
    ensures ParseHandle(agent + [COLON] + t) == Some((agent, ParseInt(t)))
  {
    var h := agent + [COLON] + t;
    FirstColonAt(agent, t);
    assert h[..|agent|] == agent && h[|agent| + 1..] == t;
  }

  lemma ColonAgent(agent: AgentId, t: Text)
    requires COLON in agent
    ensures ParseHandle(agent + [COLON] + t) == None
  {
    var h := agent + [COLON] + t;
    var i := FirstColon(agent);
    var rest := agent[i + 1..] + [COLON] + t;
    assert h == agent[..i] + [COLON] + rest by {
      assert agent == agent[..i] + [COLON] + agent[i + 1..];
    }
    FirstColonAt(agent[..i], rest);
    assert h[i + 1..] == rest;
    assert COLON in rest;
  }

  lemma {:induction false} FirstColonAt(p: Text, q: Text)
    requires COLON !in p
    ensures FirstColon(p + [COLON] + q) == |p|
  {
    if p == [] {
      assert [] + [COLON] + q == [COLON] + q;
    } else {
      assert (p + [COLON] + q)[1..] == p[1..] + [COLON] + q;
      FirstColonAt(p[1..], q);
    }
  }

  // ---- The store ----

  type Scopes = map<AgentId, map<int, JsonRecord>>

  datatype Scratch = Scratch(active: Scopes, checkpoints: Scopes)

  function At(m: Scopes, agent: AgentId, tick: int): Option<JsonRecord> {
    if agent in m && tick in m[agent] then Some(m[agent][tick]) else None
  }

  function Set(m: Scopes, agent: AgentId, tick: int, data: JsonRecord): Scopes {
    m[agent := (if agent in m then m[agent] else map[])[tick := data]]
  }

  function Unset(m: Scopes, agent: AgentId, tick: int): Scopes {
    if agent in m then m[agent := m[agent] - {tick}] else m
  }

  datatype Op =
    | Init(agent: AgentId, tick: TickSeq)
    | Write(handle: Text, key: Text, value: Json)
    | Checkpoint(agent: AgentId, tick: TickSeq)
    | Restore(agent: AgentId, tick: TickSeq)
    | Destroy(agent: AgentId, tick: TickSeq)

  /** The active scope a handle addresses. */
  function Scope(s: Scratch, handle: Text): Option<(AgentId, int)> {
    match ParseHandle(handle)
    case Some((agent, Some(tick))) => if At(s.active, agent, tick).Some? then Some((agent, tick)) else None
    case _ => None
  }

  /** `None` where the source throws. */
  function Apply(s: Scratch, op: Op): Option<Scratch> {
    match op
    case Init(agent, tick) => Some(s.(active := Set(s.active, agent, tick, [])))
    case Write(handle, key, value) =>
      (match Scope(s, handle)
       case None => None
       case Some((agent, tick)) =>
         Some(s.(active := Set(s.active, agent, tick, Store(At(s.active, agent, tick).value, key, value)))))
    case Checkpoint(agent, tick) =>
      (match At(s.active, agent, tick)
       case None => None
       case Some(data) => Some(s.(checkpoints := Set(s.checkpoints, agent, tick, data))))
    case Restore(agent, tick) =>
      (match At(s.checkpoints, agent, tick)
       case None => None
       case Some(data) => Some(s.(active := Set(s.active, agent, tick, data))))
    case Destroy(agent, tick) =>
      Some(Scratch(Unset(s.active, agent, tick), Unset(s.checkpoints, agent, tick)))
  }

  function After(s: Scratch, op: Op): Scratch {
    match Apply(s, op)
    case None => s
    case Some(t) => t
  }

  function AfterAll(s: Scratch, ops: seq<Op>): Scratch
    decreases |ops|
  {
    if ops == [] then s else AfterAll(After(s, ops[0]), ops[1..])
  }

  /** The scope an operation is about. */
  predicate About(op: Op, agent: AgentId, tick: int) {
    match op
    case Write(handle, _, _) => ParseHandle(handle) == Some((agent, Some(tick)))
    case Init(a, t) => a == agent && t == tick
    case Checkpoint(a, t) => a == agent && t == tick
    case Restore(a, t) => a == agent && t == tick
    case Destroy(a, t) => a == agent && t == tick
  }

  /** No operation on one (agent, tick) affects another. */
  lemma OthersUnaffected(s: Scratch, op: Op, agent: AgentId, tick: int)
    requires !About(op, agent, tick)
    ensures At(After(s, op).active, agent, tick) == At(s.active, agent, tick)
    ensures At(After(s, op).checkpoints, agent, tick) == At(s.checkpoints, agent, tick)
  {
  }

  /** `init` wipes what the scope held and leaves its checkpoint alone; `checkpoint` copies the active contents
      and `restore` the checkpoint, each leaving its source alone. */
  lemma ScopeOperations(s: Scratch, agent: AgentId, tick: TickSeq)
    ensures var t := After(s, Init(agent, tick));
      At(t.active, agent, tick) == Some([]) && At(t.checkpoints, agent, tick) == At(s.checkpoints, agent, tick)
    ensures var t := After(s, Checkpoint(agent, tick));
      && At(t.active, agent, tick) == At(s.active, agent, tick)
      && At(t.checkpoints, agent, tick) == (if At(s.active, agent, tick).Some? then At(s.active, agent, tick)
                                            else At(s.checkpoints, agent, tick))
    ensures var t := After(s, Restore(agent, tick));
      && At(t.checkpoints, agent, tick) == At(s.checkpoints, agent, tick)
      && At(t.active, agent, tick) == (if At(s.checkpoints, agent, tick).Some? then At(s.checkpoints, agent, tick)
                                       else At(s.active, agent, tick))
  {
  }

  /** What is refused: a write through a handle that names no active scope, a checkpoint of one that is not
      active, a restore of one without checkpoint. Nothing else is. */
  lemma RefusedExactly(s: Scratch, op: Op)
    ensures Apply(s, op) == None <==>
      match op
      case Init(_, _) => false
      case Destroy(_, _) => false
      case Checkpoint(agent, tick) => At(s.active, agent, tick) == None
      case Restore(agent, tick) => At(s.checkpoints, agent, tick) == None
      case Write(handle, _, _) =>
        !exists agent, tick :: ParseHandle(handle) == Some((agent, Some(tick))) && At(s.active, agent, tick).Some?
  {
  }

  /** A write through its own handle changes one key of an initialised scope, for colon-free agents. */
  lemma WriteThroughHandle(s: Scratch, agent: AgentId, tick: TickSeq, key: Text, value: Json)
    requires COLON !in agent && At(s.active, agent, tick).Some?
    ensures var data := At(After(s, Write(GenerateHandle(agent, tick), key, value)).active, agent, tick);
      && data == Some(Store(At(s.active, agent, tick).value, key, value))
      && HasKey(data.value, key) && Lookup(data.value, key) == value
  {
    HandleRoundTrip(agent, tick);
    PutMeaning(At(s.active, agent, tick).value, key, value, key);
  }

  lemma {:induction false} CheckpointSurvives(s: Scratch, ops: seq<Op>, agent: AgentId, tick: int)
    requires forall op | op in ops && (op.Checkpoint? || op.Destroy?) :: !About(op, agent, tick)
    ensures At(AfterAll(s, ops).checkpoints, agent, tick) == At(s.checkpoints, agent, tick)
    decreases |ops|
  {
    if ops != [] {
      assert ops[0] in ops;
      if !About(ops[0], agent, tick) { OthersUnaffected(s, ops[0], agent, tick); }
      CheckpointSurvives(After(s, ops[0]), ops[1..], agent, tick);
    }
  }

  /** `restore` after anything but a new checkpoint or a destroy gives the contents at the checkpoint. */
  lemma RestoreGivesCheckpoint(s: Scratch, ops: seq<Op>, agent: AgentId, tick: TickSeq)
    requires At(s.active, agent, tick).Some?
    requires forall op | op in ops && (op.Checkpoint? || op.Destroy?) :: !About(op, agent, tick)
    ensures var t := AfterAll(After(s, Checkpoint(agent, tick)), ops);
      Apply(t, Restore(agent, tick)).Some? && At(After(t, Restore(agent, tick)).active, agent, tick) == At(s.active, agent, tick)
  {
    CheckpointSurvives(After(s, Checkpoint(agent, tick)), ops, agent, tick);
  }

  lemma GoneForWrites(s: Scratch, agent: AgentId, tick: TickSeq, key: Text, value: Json)
    requires At(s.active, agent, tick) == None
    ensures Apply(s, Write(GenerateHandle(agent, tick), key, value)) == None
  {
    HandleRoundTrip(agent, tick);
    assert Scope(s, GenerateHandle(agent, tick)) == None;
  }

  /** A read through a colon-free agent's own handle sees the active contents of its scope, not the checkpoint. */
  lemma ReadThroughHandle(s: Scratch, agent: AgentId, tick: TickSeq)
    requires COLON !in agent
    ensures var handle := GenerateHandle(agent, tick);
      && (Scope(s, handle).Some? <==> At(s.active, agent, tick).Some?)
      && (At(s.active, agent, tick).Some? ==> ScopeData(s, handle) == At(s.active, agent, tick).value)
  {
    HandleRoundTrip(agent, tick);
  }

  /** `destroy` removes both copies: nothing can be written, checkpointed or restored afterwards. */
  lemma DestroyedIsGone(s: Scratch, agent: AgentId, tick: TickSeq, key: Text, value: Json)
    ensures var t := After(s, Destroy(agent, tick));
      && At(t.active, agent, tick) == None && At(t.checkpoints, agent, tick) == None
      && Apply(t, Write(GenerateHandle(agent, tick), key, value)) == None
      && Apply(t, Checkpoint(agent, tick)) == None && Apply(t, Restore(agent, tick)) == None
  {
    GoneForWrites(After(s, Destroy(agent, tick)), agent, tick, key, value);
  }

  class EphemeralStore {
    var memoryMap: Scopes
    var checkpoints: Scopes

    ghost function View(): Scratch
      reads this
    {
      Scratch(memoryMap, checkpoints)
    }

    constructor ()
      ensures View() == Scratch(map[], map[])
    {
      memoryMap, checkpoints := map[], map[];
    }

    method Init(agentId: AgentId, tickSeq: TickSeq) returns (handle: Text)
      modifies this
      ensures Some(View()) == Apply(old(View()), Op.Init(agentId, tickSeq))
      ensures handle == GenerateHandle(agentId, tickSeq)
    {
      handle := GenerateHandle(agentId, tickSeq);
      if agentId !in memoryMap {
        memoryMap := memoryMap[agentId := map[]];
      }
      var agentMem: map<int, JsonRecord> := memoryMap[agentId];
      agentMem := agentMem[tickSeq := []];
      memoryMap := memoryMap[agentId := agentMem];
      assert memoryMap == Set(old(memoryMap), agentId, tickSeq, []);
    }

    /** `ok` is false where the source throws. */
    method Read(handle: Text, key: Text) returns (ok: bool, value: Option<Json>)
      ensures ok <==> Scope(View(), handle).Some?
      ensures value ==
        if ok && HasKey(ScopeData(View(), handle), key) then Some(Lookup(ScopeData(View(), handle), key)) else None
    {
      var parsed := ParseHandle(handle);
      if parsed.None? || parsed.value.1.None? {
        return false, None;
      }
      var agentId, tickSeq := parsed.value.0, parsed.value.1.value;
      if agentId !in memoryMap || tickSeq !in memoryMap[agentId] {
        return false, None;
      }
      var data := memoryMap[agentId][tickSeq];
      if HasKey(data, key) {
        var v := Lookup(data, key);
        return true, Some(v);
      }
      return true, None;
    }

    method Write(handle: Text, key: Text, value: Json) returns (ok: bool)
      modifies this
      ensures ok <==> Apply(old(View()), Op.Write(handle, key, value)).Some?
      ensures View() == After(old(View()), Op.Write(handle, key, value))
    {
      var parsed := ParseHandle(handle);
      if parsed.None? || parsed.value.1.None? {
        return false;
      }
      var agentId, tickSeq := parsed.value.0, parsed.value.1.value;
      if agentId !in memoryMap || tickSeq !in memoryMap[agentId] {
        return false;
      }
      var agentMem: map<int, JsonRecord> := memoryMap[agentId];
      agentMem := agentMem[tickSeq := Store(agentMem[tickSeq], key, value)];
      memoryMap := memoryMap[agentId := agentMem];
      return true;
    }

    method Checkpoint(agentId: AgentId, tickSeq: TickSeq) returns (ok: bool)
      modifies this
      ensures ok <==> Apply(old(View()), Op.Checkpoint(agentId, tickSeq)).Some?
      ensures View() == After(old(View()), Op.Checkpoint(agentId, tickSeq))
    {
      if agentId !in memoryMap || tickSeq !in memoryMap[agentId] {
        return false;
      }
      if agentId !in checkpoints {
        checkpoints := checkpoints[agentId := map[]];
      }
      checkpoints := checkpoints[agentId := checkpoints[agentId][tickSeq := memoryMap[agentId][tickSeq]]];
      return true;
    }

    method Restore(agentId: AgentId, tickSeq: TickSeq) returns (handle: Option<Text>)
      modifies this
      ensures handle == if Apply(old(View()), Op.Restore(agentId, tickSeq)).Some?
                        then Some(GenerateHandle(agentId, tickSeq)) else None
      ensures View() == After(old(View()), Op.Restore(agentId, tickSeq))
    {
      if agentId !in checkpoints || tickSeq !in checkpoints[agentId] {
        return None;
      }
      if agentId !in memoryMap {
        memoryMap := memoryMap[agentId := map[]];
      }
      memoryMap := memoryMap[agentId := memoryMap[agentId][tickSeq := checkpoints[agentId][tickSeq]]];
      return Some(GenerateHandle(agentId, tickSeq));
    }

    method Destroy(agentId: AgentId, tickSeq: TickSeq)
      modifies this
      ensures View() == After(old(View()), Op.Destroy(agentId, tickSeq))
    {
      if agentId in memoryMap {
        memoryMap := memoryMap[agentId := memoryMap[agentId] - {tickSeq}];
      }
      if agentId in checkpoints {
        checkpoints := checkpoints[agentId := checkpoints[agentId] - {tickSeq}];
      }
    }
  }

  function ScopeData(s: Scratch, handle: Text): JsonRecord {
    match Scope(s, handle)
    case None => []
    case Some((agent, tick)) => At(s.active, agent, tick).value
  }
}

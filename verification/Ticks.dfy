/** One tick: an instruction in, an output out (execution/tick.ts). */
module Ticks {
  import opened Texts
  import opened Values

  type AgentId = Text

  datatype Instruction =
    | Noop
    | Return(value: Json)
    | CallTool(toolName: Text, args: Json)
    | Delegate(target: Text, payload: Json)
    | Unknown(kind: Text)

  datatype TickInput = TickInput(agentId: AgentId, sequenceNumber: nat, instruction: Instruction, maxSteps: int)

  datatype TickOutput =
    | Completed(result: Json)
    | PendingTool(toolName: Text, args: Json)
    | PendingDelegation(target: Text, payload: Json)
    | Failed(error: Text)

  function RunTick(input: TickInput): TickOutput {
    if input.maxSteps < 1 then Failed(Ascii("TICK_OVERFLOW"))
    else
      match input.instruction
      case Noop => Completed(Null)
      case Return(value) => Completed(value)
      case CallTool(toolName, args) => PendingTool(toolName, args)
      case Delegate(target, payload) => PendingDelegation(target, payload)
      case Unknown(_) => Failed(Ascii("UNKNOWN_INSTRUCTION"))
  }

  /** The step budget is exceeded only when there is none. */
  lemma OverflowsWithoutSteps(input: TickInput)
    ensures RunTick(input) == Failed(Ascii("TICK_OVERFLOW")) <==> input.maxSteps < 1
  {
    assert |Ascii("TICK_OVERFLOW")| != |Ascii("UNKNOWN_INSTRUCTION")|;
  }

  const KIND := Ascii("kind")

  /** An object with a `kind` and up to two more properties. */
  function Tagged(kind: string, rest: JsonRecord): Json
    requires forall i | 0 <= i < |kind| :: kind[i] < 128 as char
    requires !HasKey(rest, KIND)
  {
    ValidCons(Field(KIND, Str(Ascii(kind))), rest);
    Obj([Field(KIND, Str(Ascii(kind)))] + rest)
  }

  function Pair(k: Text, v: Json, l: Text, w: Json): (r: JsonRecord)
    requires k != l
    ensures forall key :: HasKey(r, key) <==> key == k || key == l
  {
    var r := [Field(k, v), Field(l, w)];
    assert r[0].key == k && r[1].key == l;
    r
  }

  /** The output as the object the log and the state hash see. */
  function OutputValue(output: TickOutput): Json {
    assert Ascii("result")[0] != KIND[0] && Ascii("toolName")[0] != KIND[0] && Ascii("args")[0] != KIND[0];
    assert Ascii("target")[0] != KIND[0] && Ascii("payload")[0] != KIND[0] && Ascii("error")[0] != KIND[0];
    match output
    case Completed(result) => Tagged("COMPLETED", [Field(Ascii("result"), result)])
    case PendingTool(toolName, args) =>
      Tagged("PENDING_TOOL", Pair(Ascii("toolName"), Str(toolName), Ascii("args"), args))
    case PendingDelegation(target, payload) =>
      Tagged("PENDING_DELEGATION", Pair(Ascii("target"), Str(target), Ascii("payload"), payload))
    case Failed(error) => Tagged("FAILED", [Field(Ascii("error"), Str(error))])
  }
}

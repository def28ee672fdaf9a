/** Per-agent persistent memory with write-ahead logging (memory/persistent.ts). */
module Memory {
  import opened Options
  import opened Texts
  import opened Values
  import opened Ticks
  import opened Log

  type Memories = map<AgentId, JsonRecord>

  datatype MemoryOp =
    | Write(agentId: AgentId, key: Text, value: Json, txId: Text)
    | Delete(agentId: AgentId, key: Text, txId: Text)

  function SnapshotOf(m: Memories, agent: AgentId): JsonRecord {
    if agent in m then m[agent] else []
  }

  function Perform(m: Memories, op: MemoryOp): Memories {
    match op
    case Write(agent, key, value, _) => m[agent := Store(SnapshotOf(m, agent), key, value)]
    case Delete(agent, key, _) => if agent in m then m[agent := Drop(m[agent], key)] else m
  }

  function WriteAhead(log: seq<LogEntry>, op: MemoryOp): seq<LogEntry> {
    match op
    case Write(agent, key, value, txId) => Append(log, agent, PersistentWrite(txId, key, value))
    case Delete(agent, key, txId) => Append(log, agent, PersistentDelete(txId, key))
  }

  function PerformAll(m: Memories, ops: seq<MemoryOp>): Memories
    decreases |ops|
  {
    if ops == [] then m else PerformAll(Perform(m, ops[0]), ops[1..])
  }

  function WriteAllAhead(log: seq<LogEntry>, ops: seq<MemoryOp>): seq<LogEntry>
    decreases |ops|
  {
    if ops == [] then log else WriteAllAhead(WriteAhead(log, ops[0]), ops[1..])
  }

  /** The store as a map from agent and key. */
  function ValueAt(m: Memories, agent: AgentId, key: Text): Option<Json> {
    if HasKey(SnapshotOf(m, agent), key) then Some(Lookup(SnapshotOf(m, agent), key)) else None
  }

  /** A write sets one key of one agent, a delete removes one; every other key of every agent stays. */
  lemma PerformMeaning(m: Memories, op: MemoryOp, agent: AgentId, key: Text)
    ensures ValueAt(Perform(m, op), agent, key) ==
      if op.agentId == agent && op.key == key then (if op.Write? then Some(op.value) else None)
      else ValueAt(m, agent, key)
  {
    var record := SnapshotOf(m, agent);
    if op.agentId == agent {
      match op {
        case Write(_, k, value, _) =>
          PutKeys(record, k, value, key);
          if k == key || HasKey(record, key) { PutMeaning(record, k, value, key); }
        case Delete(_, k, _) =>
          RemoveKeys(record, k, key);
          if k != key && HasKey(record, key) { RemoveMeaning(record, k, key); }
      }
    }
  }

  /** The entry that announces an operation. */
  function Announced(op: MemoryOp): Event {
    match op
    case Write(_, key, value, txId) => PersistentWrite(txId, key, value)
    case Delete(_, key, txId) => PersistentDelete(txId, key)
  }

  /** Each operation of a series is announced by one entry of its agent, in order. */
  lemma {:induction false} EachIsAnnounced(log: seq<LogEntry>, ops: seq<MemoryOp>)
    ensures var l := WriteAllAhead(log, ops);
      && |l| == |log| + |ops| && log <= l
      && forall i {:trigger ops[i]} | 0 <= i < |ops| ::
           l[|log| + i] == LogEntry(ops[i].agentId, |log| + i + 1, Announced(ops[i]))
    decreases |ops|
  {
    if ops != [] {
      var l := WriteAhead(log, ops[0]);
      assert l == log + [LogEntry(ops[0].agentId, |log| + 1, Announced(ops[0]))];
      EachIsAnnounced(l, ops[1..]);
      forall i {:trigger ops[i]} | 0 <= i < |ops|
        ensures WriteAllAhead(log, ops)[|log| + i] == LogEntry(ops[i].agentId, |log| + i + 1, Announced(ops[i]))
      {
        if i > 0 { assert ops[1..][i - 1] == ops[i]; }
      }
    }
  }

  predicate Concerns(op: MemoryOp, agent: AgentId, key: Text) {
    op.agentId == agent && op.key == key
  }

  /** A series of operations none of which concerns a key leaves it as it was. */
  lemma {:induction false} UnconcernedStays(m: Memories, ops: seq<MemoryOp>, agent: AgentId, key: Text)
    requires forall op | op in ops :: !Concerns(op, agent, key)
    ensures ValueAt(PerformAll(m, ops), agent, key) == ValueAt(m, agent, key)
    decreases |ops|
  {
    if ops != [] {
      assert ops[0] in ops && !Concerns(ops[0], agent, key);
      PerformMeaning(m, ops[0], agent, key);
      UnconcernedStays(Perform(m, ops[0]), ops[1..], agent, key);
    }
  }

  /** After a series of operations a key holds what the last one that concerns it says: the value of a write,
      nothing after a delete. */
  lemma {:induction false} LastOperationCounts(m: Memories, ops: seq<MemoryOp>, agent: AgentId, key: Text, i: nat)
    requires i < |ops| && Concerns(ops[i], agent, key) && forall op | op in ops[i + 1..] :: !Concerns(op, agent, key)
    ensures ValueAt(PerformAll(m, ops), agent, key) == if ops[i].Write? then Some(ops[i].value) else None
    decreases |ops|
  {
    assert ops != [];
    if i == 0 {
      PerformMeaning(m, ops[0], agent, key);
      UnconcernedStays(Perform(m, ops[0]), ops[1..], agent, key);
    } else {
      assert ops[1..][i..] == ops[i + 1..];
      LastOperationCounts(Perform(m, ops[0]), ops[1..], agent, key, i - 1);
    }
  }

  class PersistentStore {
    const logger: ExecutionLogger
    var store: Memories

    constructor (logger: ExecutionLogger)
      ensures this.logger == logger && store == map[]
    {
      this.logger := logger;
      store := map[];
    }

    method Read(agentId: AgentId, key: Text) returns (value: Option<Json>)
      ensures value == if HasKey(SnapshotOf(store, agentId), key)
                       then Some(Lookup(SnapshotOf(store, agentId), key)) else None
    {
      if agentId !in store || !HasKey(store[agentId], key) {
        return None;
      }
      var v := Lookup(store[agentId], key);
      return Some(v);
    }

    method Write(agentId: AgentId, key: Text, value: Json, txId: Text)
      requires logger.Valid()
      modifies this, logger
      ensures logger.Valid()
      ensures logger.logs == WriteAhead(old(logger.logs), MemoryOp.Write(agentId, key, value, txId))
      ensures store == Perform(old(store), MemoryOp.Write(agentId, key, value, txId))
    {
      var _ := logger.Write(agentId, PersistentWrite(txId, key, value));
      if agentId !in store {
        store := store[agentId := []];
      }
      store := store[agentId := Store(store[agentId], key, value)];
    }

    method Delete(agentId: AgentId, key: Text, txId: Text)
      requires logger.Valid()
      modifies this, logger
      ensures logger.Valid()
      ensures logger.logs == WriteAhead(old(logger.logs), MemoryOp.Delete(agentId, key, txId))
      ensures store == Perform(old(store), MemoryOp.Delete(agentId, key, txId))
    {
      var _ := logger.Write(agentId, PersistentDelete(txId, key));
      if agentId in store {
        store := store[agentId := Drop(store[agentId], key)];
      }
    }

    method Snapshot(agentId: AgentId) returns (data: JsonRecord)
      ensures data == SnapshotOf(store, agentId)
    {
      data := if agentId in store then store[agentId] else [];
    }

    /** What the environment does to this store: a sequence of writes and deletes. */
    method DoAll(ops: seq<MemoryOp>)
      requires logger.Valid()
      modifies this, logger
      ensures logger.Valid()
      ensures logger.logs == WriteAllAhead(old(logger.logs), ops)
      ensures store == PerformAll(old(store), ops)
      decreases |ops|
    {
      if ops != [] {
        match ops[0] {
          case Write(agent, key, value, txId) => Write(agent, key, value, txId);
          case Delete(agent, key, txId) => Delete(agent, key, txId);
        }
        DoAll(ops[1..]);
      }
    }
  }
}

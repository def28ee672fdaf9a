/** The shared, permission-gated store (memory/shared.ts). */
module SharedMemory {
  import opened Options
  import opened Texts
  import opened Values
  import opened Ticks
  import opened Grants
  import opened Log
  import opened Permissions

  type Namespaces = map<Text, JsonRecord>

  const READ := Ascii("read")
  const WRITE := Ascii("write")

  function ResourceOf(namespace: Text, key: Text): Text {
    Ascii("shared/") + namespace + Ascii("/") + key
  }

  function DataOf(store: Namespaces, namespace: Text): JsonRecord {
    if namespace in store then store[namespace] else []
  }

  datatype Access = Access(agentId: AgentId, namespace: Text, key: Text, grants: seq<Grant>, policies: seq<Policy>, now: Time) {
    function Asking(action: Text): Question {
      Question(agentId, action, ResourceOf(namespace, key), grants, now)
    }
  }

  /** The log after `checkPermission`. */
  ghost function Checked(log: seq<LogEntry>, a: Access, action: Text): seq<LogEntry> {
    Evaluated(log, a.Asking(action), a.policies)
  }

  ghost function LogAfterRead(log: seq<LogEntry>, store: Namespaces, a: Access): seq<LogEntry> {
    if Decision(a.Asking(READ), a.policies) == Allow && HasKey(DataOf(store, a.namespace), a.key)
    then Append(Checked(log, a, READ), a.agentId, SharedRead(a.namespace, a.key))
    else Checked(log, a, READ)
  }

  ghost function LogAfterWrite(log: seq<LogEntry>, a: Access, value: Json, txId: Text): seq<LogEntry> {
    if Decision(a.Asking(WRITE), a.policies) == Allow
    then Append(Checked(log, a, WRITE), a.agentId, SharedWrite(txId, a.namespace, a.key, value))
    else Checked(log, a, WRITE)
  }

  function Written(store: Namespaces, namespace: Text, key: Text, value: Json): Namespaces {
    store[namespace := Store(DataOf(store, namespace), key, value)]
  }

  function SharedValue(store: Namespaces, namespace: Text, key: Text): Option<Json> {
    if HasKey(DataOf(store, namespace), key) then Some(Lookup(DataOf(store, namespace), key)) else None
  }

  ghost function StoreAfterWrite(store: Namespaces, a: Access, value: Json): Namespaces {
    if Decision(a.Asking(WRITE), a.policies) == Allow then Written(store, a.namespace, a.key, value) else store
  }

  /** A permitted write sets one key of one namespace; a refused one sets none. */
  lemma WriteMeaning(store: Namespaces, a: Access, value: Json, namespace: Text, key: Text)
    ensures SharedValue(StoreAfterWrite(store, a, value), namespace, key) ==
      if Decision(a.Asking(WRITE), a.policies) == Allow && a.namespace == namespace && a.key == key then Some(value)
      else SharedValue(store, namespace, key)
  {
    var record := DataOf(store, namespace);
    PutKeys(record, a.key, value, key);
    if a.key == key || HasKey(record, key) { PutMeaning(record, a.key, value, key); }
  }

  function PathOf(a: Access): Text {
    Ascii("shared/") + a.namespace + Ascii("/") + a.key
  }

  /** A grant lets an access through if it names the action and the path, or `*` for either, and is live. */
  ghost predicate Lets(g: Grant, action: Text, a: Access) {
    && (g.action == action || g.action == Ascii("*")) && (g.resource == PathOf(a) || g.resource == Ascii("*"))
    && (g.notAfter.None? || g.notAfter.value == 0.0 || a.now < g.notAfter.value)
  }

  /** Without policies, reading takes a live grant to `read` the path and writing one to `write` it. */
  lemma ReadingNeedsReadWritingNeedsWrite(a: Access)
    ensures Decision(a.Asking(READ), []) == Allow <==> exists g :: g in a.grants && Lets(g, Ascii("read"), a)
    ensures Decision(a.Asking(WRITE), []) == Allow <==> exists g :: g in a.grants && Lets(g, Ascii("write"), a)
  {
    GrantsThatLet(a, READ);
    GrantsThatLet(a, WRITE);
  }

  lemma GrantsThatLet(a: Access, action: Text)
    ensures Decision(a.Asking(action), []) == Allow <==> exists g :: g in a.grants && Lets(g, action, a)
  {
    forall g ensures Permits(g, action, PathOf(a), a.now) <==> Lets(g, action, a) {
      PermitsMeaning(g, action, PathOf(a), a.now);
    }
  }

  /** Every access logs the evaluation it was decided by; a read, or write, is logged after it just when it is
      allowed and, for a read, when there is a value to return. */
  lemma AccessesLogged(log: seq<LogEntry>, store: Namespaces, a: Access, value: Json, txId: Text)
    ensures var r := Decision(a.Asking(Ascii("read")), a.policies);
      var n := |log|;
      var e := LogEntry(a.agentId, n + 1, PermissionEvaluation(Ascii("read"), PathOf(a), r, !Licensed(a.Asking(Ascii("read")))));
      LogAfterRead(log, store, a) == log + [e] +
        (if r == Allow && SharedValue(store, a.namespace, a.key).Some?
         then [LogEntry(a.agentId, n + 2, SharedRead(a.namespace, a.key))] else [])
    ensures var r := Decision(a.Asking(Ascii("write")), a.policies);
      var n := |log|;
      var e := LogEntry(a.agentId, n + 1, PermissionEvaluation(Ascii("write"), PathOf(a), r, !Licensed(a.Asking(Ascii("write")))));
      LogAfterWrite(log, a, value, txId) == log + [e] +
        (if r == Allow then [LogEntry(a.agentId, n + 2, SharedWrite(txId, a.namespace, a.key, value))] else [])
  {
  }

  class SharedStore {
    const logger: ExecutionLogger
    const permissionModel: PermissionModel
    var store: Namespaces

    constructor (logger: ExecutionLogger, permissionModel: PermissionModel)
      ensures this.logger == logger && this.permissionModel == permissionModel && store == map[]
    {
      this.logger, this.permissionModel := logger, permissionModel;
      store := map[];
    }

    /** `ok` is false where the source throws PERMISSION_DENIED or PERMISSION_ESCALATED. */
    method CheckPermission(action: Text, a: Access) returns (ok: bool)
      requires logger.Valid() && permissionModel.logger == logger
      modifies logger
      ensures logger.Valid() && logger.logs == Checked(old(logger.logs), a, action)
      ensures ok <==> Decision(a.Asking(action), a.policies) == Allow
    {
      var resource := ResourceOf(a.namespace, a.key);
      var result := permissionModel.Evaluate(a.agentId, action, resource, a.grants, a.policies, a.now);
      ok := result != Deny && result != Escalate;
    }

    /** A refused read returns nothing and is logged only as refused; a permitted read of an absent key
        is not logged as a read. */
    method Read(a: Access) returns (ok: bool, value: Option<Json>)
      requires logger.Valid() && permissionModel.logger == logger
      modifies logger
      ensures logger.Valid() && logger.logs == LogAfterRead(old(logger.logs), store, a)
      ensures ok <==> Decision(a.Asking(READ), a.policies) == Allow
      ensures value == if ok && HasKey(DataOf(store, a.namespace), a.key)
                       then Some(Lookup(DataOf(store, a.namespace), a.key)) else None
    {
      ok := CheckPermission(READ, a);
      if !ok || a.namespace !in store || !HasKey(store[a.namespace], a.key) {
        return ok, None;
      }
      var _ := logger.Write(a.agentId, SharedRead(a.namespace, a.key));
      var v := Lookup(store[a.namespace], a.key);
      return ok, Some(v);
    }

    /** A refused write leaves the store unchanged. */
    method Write(a: Access, value: Json, txId: Text) returns (ok: bool)
      requires logger.Valid() && permissionModel.logger == logger
      modifies this, logger
      ensures logger.Valid() && logger.logs == LogAfterWrite(old(logger.logs), a, value, txId)
      ensures ok <==> Decision(a.Asking(WRITE), a.policies) == Allow
      ensures store == StoreAfterWrite(old(store), a, value)
    {
      ok := CheckPermission(WRITE, a);
      if !ok {
        return;
      }
      var _ := logger.Write(a.agentId, SharedWrite(txId, a.namespace, a.key, value));
      if a.namespace !in store {
        store := store[a.namespace := []];
      }
      store := store[a.namespace := Store(store[a.namespace], a.key, value)];
    }
  }
}

/** The JSON values every memory scope and log payload is made of, with objects as fields in
    insertion order, and the structural equality the replay controller uses. */
module Values {
  import opened Texts
  import opened Numbers

  datatype Value =
    | Null
    | Bool(truth: bool)
    | Num(number: Number)
    | Str(text: Text)
    | Arr(items: seq<Value>)
    | Obj(fields: Record)

  datatype Field = Field(key: Text, value: Value)

  /** An object's own properties: distinct keys, in insertion order. */
  type Record = seq<Field>

  predicate DistinctKeys(fields: Record) {
    forall i, j | 0 <= i < j < |fields| :: fields[i].key != fields[j].key
  }

  predicate Valid(v: Value) {
    match v
    case Num(n) => n.Valid()
    case Arr(items) => forall i | 0 <= i < |items| :: Valid(items[i])
    case Obj(fields) => DistinctKeys(fields) && forall i | 0 <= i < |fields| :: Valid(fields[i].value)
    case _ => true
  }

  predicate ValidRecord(fields: Record) {
    DistinctKeys(fields) && forall i | 0 <= i < |fields| :: Valid(fields[i].value)
  }

  predicate HasKey(fields: Record, key: Text) {
    exists i | 0 <= i < |fields| :: fields[i].key == key
  }

  function Lookup(fields: Record, key: Text): (v: Value)
    requires HasKey(fields, key)
    ensures exists i | 0 <= i < |fields| :: fields[i].key == key && fields[i].value == v
  {
    if fields[0].key == key then fields[0].value
    else
      assert exists i | 0 <= i < |fields[1..]| :: fields[1..][i].key == key by {
        var i :| 0 <= i < |fields| && fields[i].key == key;
        assert fields[1..][i - 1].key == key;
      }
      var v := Lookup(fields[1..], key);
      assert exists i | 0 <= i < |fields| :: fields[i].key == key && fields[i].value == v by {
        var i :| 0 <= i < |fields[1..]| && fields[1..][i].key == key && fields[1..][i].value == v;
        assert fields[i + 1].key == key && fields[i + 1].value == v;
      }
      v
  }

  /** `record[key] = value`: in place when the key is present, at the end otherwise. */
  function Put(fields: Record, key: Text, value: Value): Record {
    if fields == [] then [Field(key, value)]
    else if fields[0].key == key then [Field(key, value)] + fields[1..]
    else [fields[0]] + Put(fields[1..], key, value)
  }

  /** `delete record[key]`. */
  function Remove(fields: Record, key: Text): Record {
    if fields == [] then []
    else if fields[0].key == key then fields[1..]
    else [fields[0]] + Remove(fields[1..], key)
  }

  lemma {:induction false} PutKeys(fields: Record, key: Text, value: Value, k: Text)
    ensures HasKey(Put(fields, key, value), k) <==> k == key || HasKey(fields, k)
  {
    var r := Put(fields, key, value);
    if fields == [] {
      assert HasKey(r, k) <==> r[0].key == k;
    } else {
      KeysOfCons(fields, k);
      KeysOfCons(r, k);
      if fields[0].key == key {
        assert r[1..] == fields[1..];
      } else {
        assert r[1..] == Put(fields[1..], key, value);
        PutKeys(fields[1..], key, value, k);
      }
    }
  }

  lemma KeysOfCons(fields: Record, k: Text)
    requires fields != []
    ensures HasKey(fields, k) <==> fields[0].key == k || HasKey(fields[1..], k)
  {
    if HasKey(fields, k) && fields[0].key != k {
      var i :| 0 <= i < |fields| && fields[i].key == k;
      assert fields[1..][i - 1].key == k;
    }
    if HasKey(fields[1..], k) {
      var i :| 0 <= i < |fields[1..]| && fields[1..][i].key == k;
      assert fields[i + 1].key == k;
    }
  }

  lemma {:induction false} RemoveKeys(fields: Record, key: Text, k: Text)
    requires DistinctKeys(fields)
    ensures HasKey(Remove(fields, key), k) <==> k != key && HasKey(fields, k)
  {
    var r := Remove(fields, key);
    if fields != [] {
      KeysOfCons(fields, k);
      if fields[0].key == key {
        assert HasKey(fields[1..], k) ==> k != key;
      } else {
        KeysOfCons(r, k);
        assert r[1..] == Remove(fields[1..], key);
        RemoveKeys(fields[1..], key, k);
      }
    }
  }

  /** Cons preserves well-formedness when the new key is not among the others. */
  lemma ValidCons(field: Field, rest: Record)
    requires ValidRecord(rest) && Valid(field.value) && !HasKey(rest, field.key)
    ensures ValidRecord([field] + rest)
  {
    var r := [field] + rest;
    assert forall i | 1 <= i < |r| :: r[i] == rest[i - 1];
  }

  lemma ValidTail(fields: Record)
    requires ValidRecord(fields) && fields != []
    ensures ValidRecord(fields[1..]) && !HasKey(fields[1..], fields[0].key)
  {
    assert forall i | 0 <= i < |fields[1..]| :: fields[1..][i] == fields[i + 1];
  }

  lemma {:induction false} PutValid(fields: Record, key: Text, value: Value)
    requires ValidRecord(fields) && Valid(value)
    ensures ValidRecord(Put(fields, key, value))
  {
    if fields != [] {
      ValidTail(fields);
      if fields[0].key == key {
        ValidCons(Field(key, value), fields[1..]);
      } else {
        PutValid(fields[1..], key, value);
        PutKeys(fields[1..], key, value, fields[0].key);
        ValidCons(fields[0], Put(fields[1..], key, value));
      }
    }
  }

  lemma {:induction false} RemoveValid(fields: Record, key: Text)
    requires ValidRecord(fields)
    ensures ValidRecord(Remove(fields, key))
  {
    if fields != [] {
      ValidTail(fields);
      if fields[0].key != key {
        RemoveValid(fields[1..], key);
        RemoveKeys(fields[1..], key, fields[0].key);
        ValidCons(fields[0], Remove(fields[1..], key));
      }
    }
  }

  /** A write changes what one key holds and nothing else. */
  lemma {:induction false} PutMeaning(fields: Record, key: Text, value: Value, k: Text)
    requires HasKey(fields, k) || k == key
    ensures HasKey(Put(fields, key, value), k)
    ensures Lookup(Put(fields, key, value), k) == if k == key then value else Lookup(fields, k)
  {
    PutKeys(fields, key, value, k);
    if fields != [] && fields[0].key != key {
      KeysOfCons(fields, k);
      var rest := Put(fields[1..], key, value);
      assert ([fields[0]] + rest)[1..] == rest;
      if fields[0].key != k {
        PutMeaning(fields[1..], key, value, k);
      }
    } else if fields != [] && fields[0].key != k {
      assert Put(fields, key, value)[1..] == fields[1..];
    }
  }

  /** A deletion removes one key and leaves what every other key holds. */
  lemma {:induction false} RemoveMeaning(fields: Record, key: Text, k: Text)
    requires DistinctKeys(fields) && HasKey(fields, k) && k != key
    ensures HasKey(Remove(fields, key), k) && Lookup(Remove(fields, key), k) == Lookup(fields, k)
  {
    RemoveKeys(fields, key, k);
    KeysOfCons(fields, k);
    if fields[0].key != key && fields[0].key != k {
      var rest := Remove(fields[1..], key);
      assert ([fields[0]] + rest)[1..] == rest;
      RemoveMeaning(fields[1..], key, k);
    }
  }

  /** `deepEqual`: same kind, same leaves, same items in order, same own properties in any order. */
  predicate DeepEqual(a: Value, b: Value) {
    match (a, b)
    case (Arr(xs), Arr(ys)) =>
      |xs| == |ys| && forall i | 0 <= i < |xs| :: DeepEqual(xs[i], ys[i])
    case (Obj(fs), Obj(gs)) =>
      |fs| == |gs| && forall i | 0 <= i < |fs| ::
        HasKey(gs, fs[i].key) && DeepEqual(fs[i].value, Lookup(gs, fs[i].key))
    case _ => a == b
  }

  lemma {:induction false} LookupAt(fields: Record, i: nat)
    requires i < |fields| && DistinctKeys(fields)
    ensures HasKey(fields, fields[i].key) && Lookup(fields, fields[i].key) == fields[i].value
  {
  }

  // ---- Well-formed values ----

  /** What JSON.parse(JSON.stringify(x)) can return: finite numbers, distinct keys. */
  type Json = v: Value | Valid(v) witness Null

  type JsonRecord = r: Record | ValidRecord(r) witness []

  function Store(fields: JsonRecord, key: Text, value: Json): JsonRecord {
    PutValid(fields, key, value);
    Put(fields, key, value)
  }

  function Drop(fields: JsonRecord, key: Text): JsonRecord {
    RemoveValid(fields, key);
    Remove(fields, key)
  }
}

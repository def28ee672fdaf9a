/** The canonical printer behind the state hash, and why comparing canonical strings is comparing
    values. String syntax: section 7 of RFC 8259; escaping: QuoteJSONString, ECMA-262. */
module Canonical {
  import opened Texts
  import opened Numbers
  import opened Sorting
  import opened Values

  const QUOTE: CodeUnit := 0x22
  const BACKSLASH: CodeUnit := 0x5C
  const LETTER_U: CodeUnit := 0x75
  const COMMA: CodeUnit := 0x2C
  const OPEN_BRACKET: CodeUnit := 0x5B
  const CLOSE_BRACKET: CodeUnit := 0x5D
  const OPEN_BRACE: CodeUnit := 0x7B
  const CLOSE_BRACE: CodeUnit := 0x7D

  // ---- Strings ----

  predicate HighSurrogate(u: CodeUnit) { 0xD800 <= u < 0xDC00 }

  predicate LowSurrogate(u: CodeUnit) { 0xDC00 <= u < 0xE000 }

  predicate StartsWithPair(s: Text) {
    |s| >= 2 && HighSurrogate(s[0]) && LowSurrogate(s[1])
  }

  function HexDigit(d: nat): CodeUnit
    requires d < 16
  {
    if d < 10 then 0x30 + d else 0x61 + d - 10
  }

  function UnicodeEscape(u: CodeUnit): Text {
    [BACKSLASH, LETTER_U,
     HexDigit(u / 16 / 16 / 16), HexDigit(u / 16 / 16 % 16), HexDigit(u / 16 % 16), HexDigit(u % 16)]
  }

  /** How one code unit outside any surrogate pair is written. */
  function Escape(u: CodeUnit): Text {
    if u == 0x08 then [BACKSLASH, 0x62]
    else if u == 0x09 then [BACKSLASH, 0x74]
    else if u == 0x0A then [BACKSLASH, 0x6E]
    else if u == 0x0C then [BACKSLASH, 0x66]
    else if u == 0x0D then [BACKSLASH, 0x72]
    else if u == QUOTE || u == BACKSLASH then [BACKSLASH, u]
    else if u < 0x20 || HighSurrogate(u) || LowSurrogate(u) then UnicodeEscape(u)
    else [u]
  }

  /** What QuoteJSONString escapes: seven units by a letter or themselves, the other controls and lone surrogates
      by four lower-case hexadecimal digits, and nothing else. */
  lemma EscapedUnits(u: CodeUnit)
    ensures |Escape(u)| == (if u in {0x08, 0x09, 0x0A, 0x0C, 0x0D, 0x22, 0x5C} then 2
                            else if u < 0x20 || 0xD800 <= u <= 0xDFFF then 6 else 1)
    ensures |Escape(u)| == 1 ==> Escape(u) == [u]
    ensures |Escape(u)| == 6 ==>
      Escape(u)[..2] == Ascii("\\u")
      && forall i | 2 <= i < 6 :: 0x30 <= Escape(u)[i] <= 0x39 || 0x61 <= Escape(u)[i] <= 0x66
  {
  }

  /** How many units the first code point takes, and how it is written. */
  function HeadLength(s: Text): (n: nat)
    requires s != []
    ensures 1 <= n <= |s|
  {
    if StartsWithPair(s) then 2 else 1
  }

  function HeadPiece(s: Text): Text
    requires s != []
  {
    if StartsWithPair(s) then s[..2] else Escape(s[0])
  }

  function QuoteBody(s: Text): Text {
    if s == [] then [] else HeadPiece(s) + QuoteBody(s[HeadLength(s)..])
  }

  function Quote(s: Text): Text {
    [QUOTE] + QuoteBody(s) + [QUOTE]
  }

  lemma UnicodeEscapeInjective(u: CodeUnit, v: CodeUnit)
    requires UnicodeEscape(u) == UnicodeEscape(v)
    ensures u == v
  {
    var a, b := UnicodeEscape(u), UnicodeEscape(v);
    assert a[2] == b[2] && a[3] == b[3] && a[4] == b[4] && a[5] == b[5];
    assert u / 16 / 16 / 16 == v / 16 / 16 / 16;
    assert u / 16 / 16 == v / 16 / 16;
    assert u / 16 == v / 16;
  }

  /** No piece is a proper prefix of another, and a piece determines the units it stands for. */
  lemma PieceUnique(s: Text, p: Text, t: Text, q: Text)
    requires s != [] && t != []
    requires HeadPiece(s) + p == HeadPiece(t) + q
    ensures HeadLength(s) == HeadLength(t) && s[..HeadLength(s)] == t[..HeadLength(t)]
    ensures p == q
  {
    var x, y := HeadPiece(s) + p, HeadPiece(t) + q;
    assert x[0] == y[0] && x[0] == HeadPiece(s)[0] && y[0] == HeadPiece(t)[0];
    assert |HeadPiece(s)| >= 2 ==> x[1] == HeadPiece(s)[1];
    assert |HeadPiece(t)| >= 2 ==> y[1] == HeadPiece(t)[1];
    assert |HeadPiece(s)| == |HeadPiece(t)|;
    assert HeadPiece(s) == x[..|HeadPiece(s)|] == y[..|HeadPiece(t)|] == HeadPiece(t);
    assert p == x[|HeadPiece(s)|..] && q == y[|HeadPiece(t)|..];
    if |HeadPiece(s)| == 6 {
      UnicodeEscapeInjective(s[0], t[0]);
    }
  }

  lemma QuoteBodyHead(s: Text, x: Text)
    ensures s == [] ==> QuoteBody(s) + [QUOTE] + x == [QUOTE] + x
    ensures s != [] ==>
      && QuoteBody(s) + [QUOTE] + x == HeadPiece(s) + (QuoteBody(s[HeadLength(s)..]) + [QUOTE] + x)
      && HeadPiece(s)[0] != QUOTE
  {
  }

  lemma {:induction false} QuoteBodyUnique(s: Text, x: Text, t: Text, y: Text)
    requires QuoteBody(s) + [QUOTE] + x == QuoteBody(t) + [QUOTE] + y
    ensures s == t && x == y
    decreases |s|
  {
    var a, b := QuoteBody(s) + [QUOTE] + x, QuoteBody(t) + [QUOTE] + y;
    QuoteBodyHead(s, x);
    QuoteBodyHead(t, y);
    assert (a[0] == QUOTE) == (s == []);
    assert (b[0] == QUOTE) == (t == []);
    if s == [] {
      assert x == a[1..] && y == b[1..];
    } else {
      var s', t' := s[HeadLength(s)..], t[HeadLength(t)..];
      PieceUnique(s, QuoteBody(s') + [QUOTE] + x, t, QuoteBody(t') + [QUOTE] + y);
      QuoteBodyUnique(s', x, t', y);
      assert s == s[..HeadLength(s)] + s' && t == t[..HeadLength(t)] + t';
    }
  }

  lemma QuoteUnique(s: Text, x: Text, t: Text, y: Text)
    requires Quote(s) + x == Quote(t) + y
    ensures s == t && x == y
  {
    var a, b := Quote(s) + x, Quote(t) + y;
    assert a[1..] == QuoteBody(s) + [QUOTE] + x;
    assert b[1..] == QuoteBody(t) + [QUOTE] + y;
    QuoteBodyUnique(s, x, t, y);
  }

  // ---- JSON.stringify ----

  function Join(parts: seq<Text>): Text {
    if parts == [] then []
    else if |parts| == 1 then parts[0]
    else parts[0] + [COMMA] + Join(parts[1..])
  }

  /** `JSON.stringify`: fields in the order they stand. */
  function Print(v: Value): Text
    requires Valid(v)
    decreases v, 1
  {
    match v
    case Null => Ascii("null")
    case Bool(b) => if b then Ascii("true") else Ascii("false")
    case Num(n) => PrintNumber(n)
    case Str(s) => Quote(s)
    case Arr(items) => [OPEN_BRACKET] + Join(PrintItems(items)) + [CLOSE_BRACKET]
    case Obj(fields) => [OPEN_BRACE] + Join(PrintFields(fields)) + [CLOSE_BRACE]
  }

  function PrintItems(items: seq<Value>): (parts: seq<Text>)
    requires forall i | 0 <= i < |items| :: Valid(items[i])
    ensures |parts| == |items|
    decreases items, 0
  {
    if items == [] then [] else [Print(items[0])] + PrintItems(items[1..])
  }

  function PrintFields(fields: Record): (parts: seq<Text>)
    requires forall i | 0 <= i < |fields| :: Valid(fields[i].value)
    ensures |parts| == |fields|
    decreases fields, 0
  {
    if fields == [] then []
    else [Quote(fields[0].key) + [COLON] + Print(fields[0].value)] + PrintFields(fields[1..])
  }

  /** A continuation that cannot extend a number. */
  predicate Stops(x: Text) {
    x == [] || !NumberUnit(x[0])
  }

  lemma NumberTextUnique(m: Number, x: Text, n: Number, y: Text)
    requires m.Valid() && n.Valid() && Stops(x) && Stops(y)
    requires PrintNumber(m) + x == PrintNumber(n) + y
    ensures m == n && x == y
  {
    var p, q := PrintNumber(m), PrintNumber(n);
    NumberUnits(m);
    NumberUnits(n);
    var a, b := p + x, q + y;
    assert |p| < |a| ==> a[|p|] == x[0];
    assert |q| < |b| ==> b[|q|] == y[0];
    assert forall i | 0 <= i < |p| :: NumberUnit(a[i]);
    assert forall i | 0 <= i < |q| :: NumberUnit(b[i]);
    assert |p| == |q|;
    assert p == a[..|p|] && q == b[..|q|] && x == a[|p|..] && y == b[|q|..];
    NumberReadsBack(m);
    NumberReadsBack(n);
  }

  /** What the first unit of a value's text tells. */
  function Lead(v: Value): CodeUnit {
    match v
    case Null => 0x6E
    case Bool(b) => if b then 0x74 else 0x66
    case Num(_) => DIGIT_ZERO
    case Str(_) => QUOTE
    case Arr(_) => OPEN_BRACKET
    case Obj(_) => OPEN_BRACE
  }

  lemma PrintLead(v: Value)
    requires Valid(v)
    ensures Print(v) != []
    ensures if v.Num? then IsDigit(Print(v)[0]) || Print(v)[0] == MINUS else Print(v)[0] == Lead(v)
  {
    if v.Num? {
      NumberUnits(v.number);
    }
  }

  lemma SameLead(a: Value, x: Text, b: Value, y: Text)
    requires Valid(a) && Valid(b) && Print(a) + x == Print(b) + y
    ensures Lead(a) == Lead(b)
  {
    PrintLead(a);
    PrintLead(b);
    assert (Print(a) + x)[0] == Print(a)[0] && (Print(b) + y)[0] == Print(b)[0];
  }

  lemma Unwrap(open: CodeUnit, body: Text, close: CodeUnit, x: Text, body': Text, y: Text)
    requires [open] + body + [close] + x == [open] + body' + [close] + y
    ensures body + [close] + x == body' + [close] + y
  {
    assert ([open] + body + [close] + x)[1..] == body + [close] + x;
    assert ([open] + body' + [close] + y)[1..] == body' + [close] + y;
  }

  /** Unique decodability: no two values, in any contexts that cannot extend a number, print alike. */
  lemma {:induction false} PrintUnique(a: Value, x: Text, b: Value, y: Text)
    requires Valid(a) && Valid(b) && Stops(x) && Stops(y)
    requires Print(a) + x == Print(b) + y
    ensures a == b && x == y
    decreases a, 1
  {
    SameLead(a, x, b, y);
    if a.Num? {
      NumberTextUnique(a.number, x, b.number, y);
    } else if a.Str? {
      QuoteUnique(a.text, x, b.text, y);
    } else if a.Arr? {
      Unwrap(OPEN_BRACKET, Join(PrintItems(a.items)), CLOSE_BRACKET, x, Join(PrintItems(b.items)), y);
      ItemsUnique(a.items, x, b.items, y);
    } else if a.Obj? {
      Unwrap(OPEN_BRACE, Join(PrintFields(a.fields)), CLOSE_BRACE, x, Join(PrintFields(b.fields)), y);
      FieldsUnique(a.fields, x, b.fields, y);
    } else {
      assert a == b;
      assert x == (Print(a) + x)[|Print(a)|..] && y == (Print(b) + y)[|Print(b)|..];
    }
  }

  /** What follows the first part of a joined list that ends in `close`. */
  function AfterFirst(parts: seq<Text>, close: CodeUnit, x: Text): Text
    requires parts != []
  {
    if |parts| == 1 then [close] + x else [COMMA] + (Join(parts[1..]) + [close] + x)
  }

  lemma JoinFirst(parts: seq<Text>, close: CodeUnit, x: Text)
    requires parts != []
    ensures Join(parts) + [close] + x == parts[0] + AfterFirst(parts, close, x)
  {
  }

  lemma {:induction false} ItemsUnique(items: seq<Value>, x: Text, others: seq<Value>, y: Text)
    requires forall i | 0 <= i < |items| :: Valid(items[i])
    requires forall i | 0 <= i < |others| :: Valid(others[i])
    requires Join(PrintItems(items)) + [CLOSE_BRACKET] + x == Join(PrintItems(others)) + [CLOSE_BRACKET] + y
    ensures items == others && x == y
    decreases items, 0
  {
    var p, q := PrintItems(items), PrintItems(others);
    var s, t := Join(p) + [CLOSE_BRACKET] + x, Join(q) + [CLOSE_BRACKET] + y;
    if items != [] { JoinFirst(p, CLOSE_BRACKET, x); PrintLead(items[0]); }
    if others != [] { JoinFirst(q, CLOSE_BRACKET, y); PrintLead(others[0]); }
    assert (s[0] == CLOSE_BRACKET) == (items == []);
    assert (t[0] == CLOSE_BRACKET) == (others == []);
    if items == [] {
      assert x == s[1..] && y == t[1..];
    } else {
      var u, v := AfterFirst(p, CLOSE_BRACKET, x), AfterFirst(q, CLOSE_BRACKET, y);
      PrintUnique(items[0], u, others[0], v);
      assert (u[0] == COMMA) == (|items| > 1) && (v[0] == COMMA) == (|others| > 1);
      if |items| > 1 {
        assert p[1..] == PrintItems(items[1..]) && q[1..] == PrintItems(others[1..]);
        assert u[1..] == Join(p[1..]) + [CLOSE_BRACKET] + x;
        assert v[1..] == Join(q[1..]) + [CLOSE_BRACKET] + y;
        ItemsUnique(items[1..], x, others[1..], y);
        assert items == [items[0]] + items[1..] && others == [others[0]] + others[1..];
      } else {
        assert x == u[1..] && y == v[1..];
      }
    }
  }

  lemma {:induction false} FieldsUnique(fields: Record, x: Text, others: Record, y: Text)
    requires forall i | 0 <= i < |fields| :: Valid(fields[i].value)
    requires forall i | 0 <= i < |others| :: Valid(others[i].value)
    requires Join(PrintFields(fields)) + [CLOSE_BRACE] + x == Join(PrintFields(others)) + [CLOSE_BRACE] + y
    ensures fields == others && x == y
    decreases fields, 0
  {
    var p, q := PrintFields(fields), PrintFields(others);
    var s, t := Join(p) + [CLOSE_BRACE] + x, Join(q) + [CLOSE_BRACE] + y;
    if fields != [] { JoinFirst(p, CLOSE_BRACE, x); }
    if others != [] { JoinFirst(q, CLOSE_BRACE, y); }
    assert (s[0] == CLOSE_BRACE) == (fields == []);
    assert (t[0] == CLOSE_BRACE) == (others == []);
    if fields == [] {
      assert x == s[1..] && y == t[1..];
    } else {
      var f, g := fields[0], others[0];
      var u, v := AfterFirst(p, CLOSE_BRACE, x), AfterFirst(q, CLOSE_BRACE, y);
      FieldUnique(f, u, g, v);
      assert (u[0] == COMMA) == (|fields| > 1) && (v[0] == COMMA) == (|others| > 1);
      if |fields| > 1 {
        assert p[1..] == PrintFields(fields[1..]) && q[1..] == PrintFields(others[1..]);
        assert u[1..] == Join(p[1..]) + [CLOSE_BRACE] + x;
        assert v[1..] == Join(q[1..]) + [CLOSE_BRACE] + y;
        FieldsUnique(fields[1..], x, others[1..], y);
        assert fields == [f] + fields[1..] && others == [g] + others[1..];
      } else {
        assert x == u[1..] && y == v[1..];
      }
    }
  }

  lemma {:induction false} FieldUnique(f: Field, u: Text, g: Field, v: Text)
    requires Valid(f.value) && Valid(g.value) && Stops(u) && Stops(v)
    requires Quote(f.key) + [COLON] + Print(f.value) + u == Quote(g.key) + [COLON] + Print(g.value) + v
    ensures f == g && u == v
    decreases f, 0
  {
    var p, q := Print(f.value) + u, Print(g.value) + v;
    Regroup(Quote(f.key), Print(f.value), u);
    Regroup(Quote(g.key), Print(g.value), v);
    QuoteUnique(f.key, [COLON] + p, g.key, [COLON] + q);
    assert ([COLON] + p)[1..] == p && ([COLON] + q)[1..] == q;
    PrintUnique(f.value, u, g.value, v);
  }

  lemma Regroup(p: Text, q: Text, r: Text)
    ensures p + [COLON] + q + r == p + ([COLON] + (q + r))
  {
  }

  // ---- The canonical form ----

  function Keys(fields: Record): (keys: seq<Text>)
    ensures |keys| == |fields| && forall i | 0 <= i < |fields| :: keys[i] == fields[i].key
  {
    seq(|fields|, i requires 0 <= i < |fields| => fields[i].key)
  }

  /** `stableStringify`: JSON text with the keys of every object sorted. */
  function StableStringify(v: Value): Text
    requires Valid(v)
    decreases v, 1, 0
  {
    match v
    case Arr(items) => [OPEN_BRACKET] + Join(StableItems(items)) + [CLOSE_BRACKET]
    case Obj(fields) => [OPEN_BRACE] + Join(StableParts(fields, Sort(Keys(fields)))) + [CLOSE_BRACE]
    case _ => Print(v)
  }

  function StableItems(items: seq<Value>): seq<Text>
    requires forall i | 0 <= i < |items| :: Valid(items[i])
    decreases items, 0, 0
  {
    if items == [] then [] else [StableStringify(items[0])] + StableItems(items[1..])
  }

  function StableParts(fields: Record, keys: seq<Text>): seq<Text>
    requires forall i | 0 <= i < |fields| :: Valid(fields[i].value)
    requires forall k | k in keys :: HasKey(fields, k)
    decreases fields, 0, |keys|
  {
    if keys == [] then [] else
      assert keys[0] in keys;
      [Quote(keys[0]) + [COLON] + StableStringify(Lookup(fields, keys[0]))] + StableParts(fields, keys[1..])
  }

  /** The value with the keys of every object sorted. */
  function Canon(v: Value): Value
    decreases v, 1, 0
  {
    match v
    case Arr(items) => Arr(CanonItems(items))
    case Obj(fields) => Obj(CanonFields(fields, Sort(Keys(fields))))
    case _ => v
  }

  function CanonItems(items: seq<Value>): (r: seq<Value>)
    ensures |r| == |items|
    decreases items, 0, 0
  {
    if items == [] then [] else [Canon(items[0])] + CanonItems(items[1..])
  }

  function CanonFields(fields: Record, keys: seq<Text>): (r: Record)
    requires forall k | k in keys :: HasKey(fields, k)
    ensures |r| == |keys| && forall i | 0 <= i < |keys| :: r[i].key == keys[i]
    decreases fields, 0, |keys|
  {
    if keys == [] then [] else
      assert keys[0] in keys;
      [Field(keys[0], Canon(Lookup(fields, keys[0])))] + CanonFields(fields, keys[1..])
  }

  lemma {:induction false} CanonItemsAt(items: seq<Value>, i: nat)
    requires i < |items|
    ensures CanonItems(items)[i] == Canon(items[i])
  {
    if i > 0 {
      CanonItemsAt(items[1..], i - 1);
    }
  }

  lemma {:induction false} CanonFieldsAt(fields: Record, keys: seq<Text>, i: nat)
    requires i < |keys| && forall k | k in keys :: HasKey(fields, k)
    ensures keys[i] in keys && CanonFields(fields, keys)[i] == Field(keys[i], Canon(Lookup(fields, keys[i])))
  {
    if i > 0 {
      CanonFieldsAt(fields, keys[1..], i - 1);
    }
  }

  /** The canonical text is the plain JSON text of the key-sorted value. */
  lemma {:induction false} StableIsPrintOfCanon(v: Value)
    requires Valid(v)
    ensures Valid(Canon(v)) && StableStringify(v) == Print(Canon(v))
    decreases v, 1, 0
  {
    match v {
      case Arr(items) => StableItemsOfCanon(items);
      case Obj(fields) =>
        var keys := Sort(Keys(fields));
        StableFieldsOfCanon(fields, keys);
        SortIncreasing(Keys(fields));
        forall i, j | 0 <= i < j < |keys| ensures keys[i] != keys[j] {
          LessTotal(keys[i], keys[j]);
        }
      case _ =>
    }
  }

  lemma {:induction false} StableItemsOfCanon(items: seq<Value>)
    requires forall i | 0 <= i < |items| :: Valid(items[i])
    ensures forall i | 0 <= i < |items| :: Valid(CanonItems(items)[i])
    ensures StableItems(items) == PrintItems(CanonItems(items))
    decreases items, 0, 0
  {
    if items != [] {
      StableIsPrintOfCanon(items[0]);
      StableItemsOfCanon(items[1..]);
    }
  }

  lemma {:induction false} StableFieldsOfCanon(fields: Record, keys: seq<Text>)
    requires forall i | 0 <= i < |fields| :: Valid(fields[i].value)
    requires forall k | k in keys :: HasKey(fields, k)
    ensures forall i | 0 <= i < |keys| :: Valid(CanonFields(fields, keys)[i].value)
    ensures StableParts(fields, keys) == PrintFields(CanonFields(fields, keys))
    decreases fields, 0, |keys|
  {
    if keys != [] {
      assert keys[0] in keys;
      StableIsPrintOfCanon(Lookup(fields, keys[0]));
      StableFieldsOfCanon(fields, keys[1..]);
    }
  }

  /** Sorting keys forgets exactly what structural equality ignores. */
  lemma {:induction false} CanonDecidesEquality(a: Value, b: Value)
    requires Valid(a) && Valid(b)
    ensures Canon(a) == Canon(b) <==> DeepEqual(a, b)
    decreases a, 2
  {
    if a.Arr? && b.Arr? && |a.items| == |b.items| {
      forall i | 0 <= i < |a.items|
        ensures CanonItems(a.items)[i] == CanonItems(b.items)[i] <==> DeepEqual(a.items[i], b.items[i])
      {
        CanonItemsAt(a.items, i);
        CanonItemsAt(b.items, i);
        CanonDecidesEquality(a.items[i], b.items[i]);
      }
    } else if a.Obj? && b.Obj? {
      if DeepEqual(a, b) {
        EqualObjectsCanon(a, b);
      }
      if Canon(a) == Canon(b) {
        CanonObjectsEqual(a, b);
      }
    }
  }

  lemma KeyAt(fields: Record, i: nat)
    requires i < |fields|
    ensures fields[i].key in Keys(fields) && fields[i].key in Sort(Keys(fields)) && HasKey(fields, fields[i].key)
  {
    assert Keys(fields)[i] == fields[i].key;
  }

  lemma SameKeysSortAlike(fields: Record, others: Record)
    requires DistinctKeys(fields) && DistinctKeys(others) && |fields| == |others|
    requires forall i | 0 <= i < |fields| :: HasKey(others, fields[i].key)
    ensures Sort(Keys(fields)) == Sort(Keys(others))
  {
    forall k | k in Keys(fields) ensures k in Keys(others) {
      var i :| 0 <= i < |fields| && fields[i].key == k;
      var j :| 0 <= j < |others| && others[j].key == k;
      KeyAt(others, j);
    }
    SortUnique(Keys(fields), Keys(others));
  }

  lemma {:induction false} EqualObjectsCanon(a: Value, b: Value)
    requires a.Obj? && b.Obj? && Valid(a) && Valid(b) && DeepEqual(a, b)
    ensures Canon(a) == Canon(b)
    decreases a, 1
  {
    var keys := Sort(Keys(a.fields));
    SameKeysSortAlike(a.fields, b.fields);
    forall k | k in keys
      ensures HasKey(b.fields, k) && Canon(Lookup(a.fields, k)) == Canon(Lookup(b.fields, k))
    {
      EqualFieldsCanon(a, b, k);
    }
    CanonFieldsAgree(a.fields, b.fields, keys);
  }

  lemma {:induction false} CanonFieldsAgree(fields: Record, others: Record, keys: seq<Text>)
    requires forall k | k in keys :: HasKey(fields, k) && HasKey(others, k)
    requires forall k | k in keys :: Canon(Lookup(fields, k)) == Canon(Lookup(others, k))
    ensures CanonFields(fields, keys) == CanonFields(others, keys)
  {
    if keys != [] {
      assert keys[0] in keys;
      CanonFieldsAgree(fields, others, keys[1..]);
    }
  }

  lemma {:induction false} EqualFieldsCanon(a: Value, b: Value, k: Text)
    requires a.Obj? && b.Obj? && Valid(a) && Valid(b) && DeepEqual(a, b)
    requires HasKey(a.fields, k)
    ensures HasKey(b.fields, k) && Canon(Lookup(a.fields, k)) == Canon(Lookup(b.fields, k))
    decreases a, 0
  {
    var j :| 0 <= j < |a.fields| && a.fields[j].key == k;
    LookupAt(a.fields, j);
    CanonDecidesEquality(a.fields[j].value, Lookup(b.fields, k));
  }

  lemma {:induction false} CanonObjectsEqual(a: Value, b: Value)
    requires a.Obj? && b.Obj? && Valid(a) && Valid(b) && Canon(a) == Canon(b)
    ensures DeepEqual(a, b)
    decreases a, 0
  {
    var keys, others := Sort(Keys(a.fields)), Sort(Keys(b.fields));
    var f, g := CanonFields(a.fields, keys), CanonFields(b.fields, others);
    assert f == g;
    assert keys == others by {
      assert forall i | 0 <= i < |keys| :: keys[i] == f[i].key == g[i].key == others[i];
    }
    forall i | 0 <= i < |a.fields|
      ensures HasKey(b.fields, a.fields[i].key)
      ensures DeepEqual(a.fields[i].value, Lookup(b.fields, a.fields[i].key))
    {
      var k := a.fields[i].key;
      KeyAt(a.fields, i);
      var j :| 0 <= j < |keys| && keys[j] == k;
      CanonFieldsAt(a.fields, keys, j);
      CanonFieldsAt(b.fields, keys, j);
      LookupAt(a.fields, i);
      CanonDecidesEquality(a.fields[i].value, Lookup(b.fields, k));
    }
  }

  /** The canonical string is exact: it is equal for two values just when `deepEqual` holds. */
  lemma CanonicalFormIsExact(a: Value, b: Value)
    requires Valid(a) && Valid(b)
    ensures StableStringify(a) == StableStringify(b) <==> DeepEqual(a, b)
  {
    StableIsPrintOfCanon(a);
    StableIsPrintOfCanon(b);
    CanonDecidesEquality(a, b);
    if StableStringify(a) == StableStringify(b) {
      PrintUnique(Canon(a), [], Canon(b), []);
    }
  }
}

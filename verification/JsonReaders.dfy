/** A reader of JSON text (RFC 8259), and what it makes of the canonical text: the value that was
    printed, with the keys of its objects sorted. */
module JsonReaders {
  import opened Options
  import opened Texts
  import opened Numbers
  import opened Sorting
  import opened Values
  import opened Canonical

  datatype Reading<T> = Got(value: T, rest: Text) | Malformed

  // ---- Strings (section 7) ----

  function HexValue(u: CodeUnit): Option<nat> {
    if 0x30 <= u <= 0x39 then Some(u - 0x30)
    else if 0x61 <= u <= 0x66 then Some(u - 0x61 + 10)
    else if 0x41 <= u <= 0x46 then Some(u - 0x41 + 10)
    else None
  }

  /** What four hexadecimal digits denote. */
  function HexFour(a: CodeUnit, b: CodeUnit, c: CodeUnit, d: CodeUnit): Option<CodeUnit> {
    match (HexValue(a), HexValue(b), HexValue(c), HexValue(d))
    case (Some(i), Some(j), Some(k), Some(l)) =>
      HexBound(a, b, c, d);
      Some(((i * 16 + j) * 16 + k) * 16 + l)
    case _ => None
  }

  lemma HexBound(a: CodeUnit, b: CodeUnit, c: CodeUnit, d: CodeUnit)
    requires HexValue(a).Some? && HexValue(b).Some? && HexValue(c).Some? && HexValue(d).Some?
    ensures ((HexValue(a).value * 16 + HexValue(b).value) * 16 + HexValue(c).value) * 16 + HexValue(d).value < 0x10000
  {
  }

  /** The two-character escapes: quotation mark, reverse solidus, solidus, \b, \f, \n, \r, \t. */
  function Unescaped(u: CodeUnit): Option<CodeUnit> {
    if u == 0x22 || u == 0x5C || u == 0x2F then Some(u)
    else if u == 0x62 then Some(0x08)
    else if u == 0x66 then Some(0x0C)
    else if u == 0x6E then Some(0x0A)
    else if u == 0x72 then Some(0x0D)
    else if u == 0x74 then Some(0x09)
    else None
  }

  function Prepend(u: Text, r: Reading<Text>): Reading<Text> {
    match r
    case Malformed => Malformed
    case Got(s, rest) => Got(u + s, rest)
  }

  /** The characters of a string after its opening quotation mark, up to the closing one. */
  function ReadChars(t: Text): (r: Reading<Text>)
    ensures r.Got? ==> |r.rest| < |t|
  {
    if t == [] then Malformed
    else if t[0] == 0x22 then Got([], t[1..])
    else if t[0] < 0x20 then Malformed
    else if t[0] != 0x5C then Prepend([t[0]], ReadChars(t[1..]))
    else if |t| < 2 then Malformed
    else if t[1] == 0x75 then
      if |t| < 6 then Malformed
      else
        match HexFour(t[2], t[3], t[4], t[5])
        case None => Malformed
        case Some(u) => Prepend([u], ReadChars(t[6..]))
    else
      match Unescaped(t[1])
      case None => Malformed
      case Some(u) => Prepend([u], ReadChars(t[2..]))
  }

  // ---- Values (sections 2 to 6) ----

  function SkipSpace(t: Text): (r: Text)
    ensures |r| <= |t|
  {
    if t != [] && t[0] in {0x20, 0x09, 0x0A, 0x0D} then SkipSpace(t[1..]) else t
  }

  /** How many leading units can belong to a number. */
  function NumberLength(t: Text): (n: nat)
    ensures n <= |t|
  {
    if t == [] || !NumberUnit(t[0]) then 0 else 1 + NumberLength(t[1..])
  }

  function ReadLiteral(t: Text, word: Text, v: Value): Reading<Value> {
    if word <= t then Got(v, t[|word|..]) else Malformed
  }

  function ReadNumeral(t: Text): (r: Reading<Value>)
    ensures r.Got? ==> |r.rest| < |t|
  {
    var n := NumberLength(t);
    if n == 0 then Malformed else Got(Num(ReadNumber(t[..n])), t[n..])
  }

  function ReadValue(text: Text): (r: Reading<Value>)
    ensures r.Got? ==> |r.rest| < |text|
    decreases |text|, 0
  {
    var t := SkipSpace(text);
    if t == [] then Malformed
    else if IsDigit(t[0]) || t[0] == 0x2D then ReadNumeral(t)
    else if t[0] == 0x22 then
      match ReadChars(t[1..])
      case Malformed => Malformed
      case Got(s, rest) => Got(Str(s), rest)
    else if t[0] == 0x5B then
      var inner := SkipSpace(t[1..]);
      if inner != [] && inner[0] == 0x5D then Got(Arr([]), inner[1..])
      else
        match ReadItems(inner)
        case Malformed => Malformed
        case Got(items, rest) => Got(Arr(items), rest)
    else if t[0] == 0x7B then
      var inner := SkipSpace(t[1..]);
      if inner != [] && inner[0] == 0x7D then Got(Obj([]), inner[1..])
      else
        match ReadFields(inner)
        case Malformed => Malformed
        case Got(fields, rest) => Got(Obj(fields), rest)
    else if t[0] == 0x6E then ReadLiteral(t, Ascii("null"), Null)
    else if t[0] == 0x74 then ReadLiteral(t, Ascii("true"), Bool(true))
    else if t[0] == 0x66 then ReadLiteral(t, Ascii("false"), Bool(false))
    else Malformed
  }

  /** The items of an array, one at least, up to the closing bracket. */
  function ReadItems(t: Text): (r: Reading<seq<Value>>)
    ensures r.Got? ==> |r.rest| < |t|
    decreases |t|, 1
  {
    match ReadValue(t)
    case Malformed => Malformed
    case Got(v, after) =>
      var rest := SkipSpace(after);
      if rest == [] then Malformed
      else if rest[0] == 0x5D then Got([v], rest[1..])
      else if rest[0] != 0x2C then Malformed
      else
        match ReadItems(rest[1..])
        case Malformed => Malformed
        case Got(vs, end) => Got([v] + vs, end)
  }

  function ReadKey(text: Text): (r: Reading<Text>)
    ensures r.Got? ==> |r.rest| < |text|
  {
    var t := SkipSpace(text);
    if t == [] || t[0] != 0x22 then Malformed
    else
      match ReadChars(t[1..])
      case Malformed => Malformed
      case Got(key, after) =>
        var rest := SkipSpace(after);
        if rest == [] || rest[0] != 0x3A then Malformed else Got(key, rest[1..])
  }

  /** The fields of an object, one at least, up to the closing brace. */
  function ReadFields(t: Text): (r: Reading<Record>)
    ensures r.Got? ==> |r.rest| < |t|
    decreases |t|, 1
  {
    match ReadKey(t)
    case Malformed => Malformed
    case Got(key, from) =>
      match ReadValue(from)
      case Malformed => Malformed
      case Got(v, after) =>
        var rest := SkipSpace(after);
        if rest == [] then Malformed
        else if rest[0] == 0x7D then Got([Field(key, v)], rest[1..])
        else if rest[0] != 0x2C then Malformed
        else
          match ReadFields(rest[1..])
          case Malformed => Malformed
          case Got(fields, end) => Got([Field(key, v)] + fields, end)
  }

  // ---- Reading back what is printed ----

  lemma EscapeReadsBack(u: CodeUnit, x: Text)
    ensures ReadChars(Escape(u) + x) == Prepend([u], ReadChars(x))
  {
    if |Escape(u)| == 6 { SixReadBack(u, x); } else { FewReadBack(u, x); }
  }

  lemma SixReadBack(u: CodeUnit, x: Text)
    ensures ReadChars(UnicodeEscape(u) + x) == Prepend([u], ReadChars(x))
  {
    var e := UnicodeEscape(u);
    var t := e + x;
    assert t[0] == e[0] && t[1] == e[1] && t[2] == e[2] && t[3] == e[3] && t[4] == e[4] && t[5] == e[5];
    assert t[6..] == x;
    HexReadsBack(u);
  }

  lemma FewReadBack(u: CodeUnit, x: Text)
    requires |Escape(u)| < 6
    ensures ReadChars(Escape(u) + x) == Prepend([u], ReadChars(x))
  {
    var e := Escape(u);
    var t := e + x;
    assert t[0] == e[0] && (|e| == 2 ==> t[1] == e[1]);
    assert t[|e|..] == x;
  }

  lemma HexReadsBack(u: CodeUnit)
    ensures var t := UnicodeEscape(u); HexFour(t[2], t[3], t[4], t[5]) == Some(u)
  {
    HexDigitReadsBack(u / 16 / 16 / 16);
    HexDigitReadsBack(u / 16 / 16 % 16);
    HexDigitReadsBack(u / 16 % 16);
    HexDigitReadsBack(u % 16);
  }

  lemma HexDigitReadsBack(d: nat)
    requires d < 16
    ensures HexValue(HexDigit(d)) == Some(d)
  {
  }

  lemma PieceReadsBack(s: Text, x: Text)
    requires s != []
    ensures ReadChars(HeadPiece(s) + x) == Prepend(s[..HeadLength(s)], ReadChars(x))
  {
    if StartsWithPair(s) {
      var t := s[..2] + x;
      assert t[1..][1..] == x && t[1..] != [] && t[1..][0] == s[1];
      assert ReadChars(t[1..]) == Prepend([s[1]], ReadChars(x));
      assert [s[0]] + [s[1]] == s[..2];
      PrependTwice([s[0]], [s[1]], ReadChars(x));
    } else {
      EscapeReadsBack(s[0], x);
      assert s[..1] == [s[0]];
    }
  }

  lemma PrependTwice(p: Text, q: Text, r: Reading<Text>)
    ensures Prepend(p, Prepend(q, r)) == Prepend(p + q, r)
  {
    if r.Got? { assert p + (q + r.value) == p + q + r.value; }
  }

  /** A quoted string is read back, whatever it holds and whatever follows. */
  lemma {:induction false} StringReadsBack(s: Text, x: Text)
    ensures ReadChars(QuoteBody(s) + [QUOTE] + x) == Got(s, x)
    decreases |s|
  {
    if s == [] {
      assert ([] + [QUOTE] + x)[1..] == x;
    } else {
      var more := s[HeadLength(s)..];
      QuoteBodyHead(s, x);
      PieceReadsBack(s, QuoteBody(more) + [QUOTE] + x);
      StringReadsBack(more, x);
      assert s[..HeadLength(s)] + more == s;
    }
  }

  lemma {:induction false} NumberLengthAt(p: Text, x: Text)
    requires Stops(x) && forall i | 0 <= i < |p| :: NumberUnit(p[i])
    ensures NumberLength(p + x) == |p|
  {
    if p == [] {
      assert p + x == x;
    } else {
      assert (p + x)[1..] == p[1..] + x;
      NumberLengthAt(p[1..], x);
    }
  }

  lemma NoSpace(t: Text)
    requires t != [] && t[0] > 0x20
    ensures SkipSpace(t) == t
  {
  }

  lemma ReadsAsNumber(t: Text)
    requires t != [] && (IsDigit(t[0]) || t[0] == MINUS)
    ensures ReadValue(t) == ReadNumeral(t)
  {
    NoSpace(t);
  }

  lemma NumberTextReadsBack(n: Number, x: Text)
    requires n.Valid() && Stops(x)
    ensures ReadValue(PrintNumber(n) + x) == Got(Num(n), x)
  {
    var p := PrintNumber(n);
    var t := p + x;
    NumberUnits(n);
    assert t[0] == p[0];
    ReadsAsNumber(t);
    NumeralReadsBack(n, p, x);
  }

  lemma NumeralReadsBack(n: Number, p: Text, x: Text)
    requires n.Valid() && Stops(x) && p == PrintNumber(n)
    ensures ReadNumeral(p + x) == Got(Num(n), x)
  {
    NumberUnits(n);
    NumberLengthAt(p, x);
    NumberReadsBack(n);
    assert (p + x)[..|p|] == p && (p + x)[|p|..] == x;
  }

  lemma ReadsAsString(t: Text, s: Text, x: Text)
    requires t != [] && t[0] == QUOTE && ReadChars(t[1..]) == Got(s, x)
    ensures ReadValue(t) == Got(Str(s), x)
  {
    assert SkipSpace(t) == t;
  }

  lemma ReadsAsArray(t: Text, items: seq<Value>, x: Text)
    requires t != [] && t[0] == OPEN_BRACKET && SkipSpace(t[1..]) == t[1..] && t[1..] != []
    requires if items == [] then t[1..] == [CLOSE_BRACKET] + x
             else t[1] != CLOSE_BRACKET && ReadItems(t[1..]) == Got(items, x)
    ensures ReadValue(t) == Got(Arr(items), x)
  {
    assert SkipSpace(t) == t;
  }

  lemma ReadsAsObject(t: Text, fields: Record, x: Text)
    requires t != [] && t[0] == OPEN_BRACE && SkipSpace(t[1..]) == t[1..] && t[1..] != []
    requires if fields == [] then t[1..] == [CLOSE_BRACE] + x
             else t[1] != CLOSE_BRACE && ReadFields(t[1..]) == Got(fields, x)
    ensures ReadValue(t) == Got(Obj(fields), x)
  {
    assert SkipSpace(t) == t;
  }

  lemma WordReadsBack(v: Value, x: Text)
    requires v.Null? || v.Bool?
    ensures ReadValue(Print(v) + x) == Got(v, x)
  {
    var t := Print(v) + x;
    assert t[0] == Print(v)[0] && SkipSpace(t) == t;
    assert Print(v) <= t && t[|Print(v)|..] == x;
  }

  /** Text between two delimiters, behind the first of them. */
  lemma BehindFirst(open: CodeUnit, body: Text, close: CodeUnit, x: Text)
    ensures var t := [open] + body + [close] + x;
      t != [] && t[0] == open && t[1..] == body + [close] + x
  {
  }

  /** Every JSON value is read back from its text, whatever follows that cannot extend a number. */
  lemma {:induction false} ValueReadsBack(v: Value, x: Text)
    requires Valid(v) && Stops(x)
    ensures ReadValue(Print(v) + x) == Got(v, x)
    decreases v, 1
  {
    match v {
      case Num(n) => NumberTextReadsBack(n, x);
      case Str(s) =>
        BehindFirst(QUOTE, QuoteBody(s), QUOTE, x);
        StringReadsBack(s, x);
        ReadsAsString(Print(v) + x, s, x);
      case Arr(items) => ArrayReadsBack(items, x);
      case Obj(fields) => ObjectReadsBack(fields, x);
      case _ => WordReadsBack(v, x);
    }
  }

  lemma {:induction false} ArrayReadsBack(items: seq<Value>, x: Text)
    requires Valid(Arr(items))
    ensures ReadValue(Print(Arr(items)) + x) == Got(Arr(items), x)
    decreases items, 1
  {
    BehindFirst(OPEN_BRACKET, Join(PrintItems(items)), CLOSE_BRACKET, x);
    if items != [] { ItemsReadBack(items, x); }
    ReadsAsArray(Print(Arr(items)) + x, items, x);
  }

  lemma {:induction false} ObjectReadsBack(fields: Record, x: Text)
    requires Valid(Obj(fields))
    ensures ReadValue(Print(Obj(fields)) + x) == Got(Obj(fields), x)
    decreases fields, 1
  {
    BehindFirst(OPEN_BRACE, Join(PrintFields(fields)), CLOSE_BRACE, x);
    if fields != [] { FieldsReadBack(fields, x); }
    ReadsAsObject(Print(Obj(fields)) + x, fields, x);
  }

  /** An item, and what follows it: more items, or the end. */
  lemma ReadsItem(t: Text, v: Value, after: Text, more: seq<Value>, x: Text)
    requires ReadValue(t) == Got(v, after)
    requires if more == [] then after == [CLOSE_BRACKET] + x
             else after != [] && after[0] == COMMA && ReadItems(after[1..]) == Got(more, x)
    ensures ReadItems(t) == Got([v] + more, x)
  {
    assert SkipSpace(after) == after;
    assert more == [] ==> after[1..] == x && [v] + more == [v];
  }

  lemma ReadsField(t: Text, key: Text, from: Text, v: Value, after: Text, more: Record, x: Text)
    requires ReadKey(t) == Got(key, from) && ReadValue(from) == Got(v, after)
    requires if more == [] then after == [CLOSE_BRACE] + x
             else after != [] && after[0] == COMMA && ReadFields(after[1..]) == Got(more, x)
    ensures ReadFields(t) == Got([Field(key, v)] + more, x)
  {
    assert SkipSpace(after) == after;
    assert more == [] ==> after[1..] == x && [Field(key, v)] + more == [Field(key, v)];
  }

  lemma {:induction false} ItemsReadBack(items: seq<Value>, x: Text)
    requires items != [] && forall i | 0 <= i < |items| :: Valid(items[i])
    ensures var inner := Join(PrintItems(items)) + [CLOSE_BRACKET] + x;
      ReadItems(inner) == Got(items, x) && inner != [] && inner[0] != CLOSE_BRACKET && SkipSpace(inner) == inner
    decreases items, 0
  {
    var parts := PrintItems(items);
    var after := AfterFirst(parts, CLOSE_BRACKET, x);
    JoinFirst(parts, CLOSE_BRACKET, x);
    PrintLead(items[0]);
    ValueReadsBack(items[0], after);
    if |items| > 1 {
      assert after[1..] == Join(PrintItems(items[1..])) + [CLOSE_BRACKET] + x;
      ItemsReadBack(items[1..], x);
    }
    ReadsItem(parts[0] + after, items[0], after, items[1..], x);
    assert [items[0]] + items[1..] == items;
  }

  lemma KeyReadsBack(key: Text, x: Text)
    ensures ReadKey(Quote(key) + [COLON] + x) == Got(key, x)
  {
    var t := Quote(key) + [COLON] + x;
    assert t[1..] == QuoteBody(key) + [QUOTE] + ([COLON] + x);
    StringReadsBack(key, [COLON] + x);
    assert ([COLON] + x)[1..] == x;
  }

  lemma {:induction false} FieldsReadBack(fields: Record, x: Text)
    requires fields != [] && forall i | 0 <= i < |fields| :: Valid(fields[i].value)
    ensures var inner := Join(PrintFields(fields)) + [CLOSE_BRACE] + x;
      ReadFields(inner) == Got(fields, x) && inner != [] && inner[0] != CLOSE_BRACE && SkipSpace(inner) == inner
    decreases fields, 0
  {
    var parts := PrintFields(fields);
    var after := AfterFirst(parts, CLOSE_BRACE, x);
    var f := fields[0];
    JoinFirst(parts, CLOSE_BRACE, x);
    assert parts[0] + after == Quote(f.key) + [COLON] + (Print(f.value) + after);
    KeyReadsBack(f.key, Print(f.value) + after);
    ValueReadsBack(f.value, after);
    if |fields| > 1 {
      assert after[1..] == Join(PrintFields(fields[1..])) + [CLOSE_BRACE] + x;
      FieldsReadBack(fields[1..], x);
    }
    ReadsField(parts[0] + after, f.key, Print(f.value) + after, f.value, after, fields[1..], x);
    assert [f] + fields[1..] == fields;
  }

  // ---- The canonical text ----

  /** Sorting keys changes nothing that `deepEqual` sees. */
  lemma {:induction false} CanonIsEqual(v: Value)
    requires Valid(v)
    ensures DeepEqual(v, Canon(v))
    decreases v
  {
    match v {
      case Arr(items) =>
        forall i | 0 <= i < |items| ensures DeepEqual(items[i], CanonItems(items)[i]) {
          CanonItemsAt(items, i);
          CanonIsEqual(items[i]);
        }
      case Obj(fields) =>
        StableIsPrintOfCanon(v);
        var keys := Sort(Keys(fields));
        var sorted := CanonFields(fields, keys);
        forall i | 0 <= i < |fields|
          ensures HasKey(sorted, fields[i].key) && DeepEqual(fields[i].value, Lookup(sorted, fields[i].key))
        {
          KeyAt(fields, i);
          LookupAt(fields, i);
          var j :| 0 <= j < |keys| && keys[j] == fields[i].key;
          CanonFieldsAt(fields, keys, j);
          LookupAt(sorted, j);
          CanonIsEqual(fields[i].value);
        }
      case _ =>
    }
  }

  /** The canonical text is JSON for the value: read back, it gives the value with the keys of every object
      sorted, which is deep-equal to it. */
  lemma CanonicalTextReadsBack(v: Value)
    requires Valid(v)
    ensures ReadValue(StableStringify(v)) == Got(Canon(v), []) && DeepEqual(v, Canon(v))
    ensures v.Obj? ==> Increasing(seq(|Canon(v).fields|, i requires 0 <= i < |Canon(v).fields| => Canon(v).fields[i].key))
  {
    StableIsPrintOfCanon(v);
    ValueReadsBack(Canon(v), []);
    assert Print(Canon(v)) + [] == Print(Canon(v));
    CanonIsEqual(v);
    if v.Obj? { SortIncreasing(Keys(v.fields)); }
  }
}

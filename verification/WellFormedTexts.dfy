/** Canonical texts hold no lone surrogate: JSON.stringify escapes them (ECMA-262, QuoteJSONString).
    Only such texts have an exact UTF-8 encoding, which is what a digest reads. */
module WellFormedTexts {
  import opened Texts
  import opened Numbers
  import opened Values
  import opened Canonical

  /** High and low surrogates occur in pairs only. */
  predicate WellFormed(t: Text) {
    t != [] ==>
      if StartsWithPair(t) then WellFormed(t[2..])
      else !HighSurrogate(t[0]) && !LowSurrogate(t[0]) && WellFormed(t[1..])
  }

  predicate Plain(t: Text) {
    forall i | 0 <= i < |t| :: !HighSurrogate(t[i]) && !LowSurrogate(t[i])
  }

  lemma {:induction false} PlainWellFormed(t: Text)
    requires Plain(t)
    ensures WellFormed(t)
  {
    if t != [] {
      PlainWellFormed(t[1..]);
    }
  }

  lemma {:induction false} ConcatWellFormed(p: Text, q: Text)
    requires WellFormed(p) && WellFormed(q)
    ensures WellFormed(p + q)
    decreases |p|
  {
    if p == [] {
      assert p + q == q;
    } else {
      var n := HeadLength(p);
      assert (p + q)[n..] == p[n..] + q;
      ConcatWellFormed(p[n..], q);
    }
  }

  lemma BracketedWellFormed(open: CodeUnit, body: Text, close: CodeUnit)
    requires WellFormed(body) && Plain([open, close])
    ensures WellFormed([open] + body + [close])
  {
    assert [open, close][0] == open && [open, close][1] == close;
    PlainWellFormed([open]);
    PlainWellFormed([close]);
    ConcatWellFormed([open], body);
    ConcatWellFormed([open] + body, [close]);
  }

  lemma PieceWellFormed(s: Text)
    requires s != []
    ensures WellFormed(HeadPiece(s))
  {
    if StartsWithPair(s) {
      assert s[..2][2..] == [];
    } else {
      assert Plain(HeadPiece(s));
      PlainWellFormed(HeadPiece(s));
    }
  }

  lemma {:induction false} QuoteBodyWellFormed(s: Text)
    ensures WellFormed(QuoteBody(s))
    decreases |s|
  {
    if s != [] {
      PieceWellFormed(s);
      QuoteBodyWellFormed(s[HeadLength(s)..]);
      ConcatWellFormed(HeadPiece(s), QuoteBody(s[HeadLength(s)..]));
    }
  }

  lemma QuoteWellFormed(s: Text)
    ensures WellFormed(Quote(s))
  {
    QuoteBodyWellFormed(s);
    BracketedWellFormed(QUOTE, QuoteBody(s), QUOTE);
  }

  lemma {:induction false} JoinWellFormed(parts: seq<Text>)
    requires forall i | 0 <= i < |parts| :: WellFormed(parts[i])
    ensures WellFormed(Join(parts))
  {
    if |parts| > 1 {
      JoinWellFormed(parts[1..]);
      PlainWellFormed([COMMA]);
      ConcatWellFormed(parts[0], [COMMA]);
      ConcatWellFormed(parts[0] + [COMMA], Join(parts[1..]));
    }
  }

  lemma {:induction false} PrintWellFormed(v: Value)
    requires Valid(v)
    ensures WellFormed(Print(v))
    decreases v, 1
  {
    match v {
      case Num(n) =>
        NumberUnits(n);
        PlainWellFormed(Print(v));
      case Str(s) => QuoteWellFormed(s);
      case Arr(items) =>
        ItemsWellFormed(items);
        JoinWellFormed(PrintItems(items));
        BracketedWellFormed(OPEN_BRACKET, Join(PrintItems(items)), CLOSE_BRACKET);
      case Obj(fields) =>
        FieldsWellFormed(fields);
        JoinWellFormed(PrintFields(fields));
        BracketedWellFormed(OPEN_BRACE, Join(PrintFields(fields)), CLOSE_BRACE);
      case _ => PlainWellFormed(Print(v));
    }
  }

  lemma {:induction false} ItemsWellFormed(items: seq<Value>)
    requires forall i | 0 <= i < |items| :: Valid(items[i])
    ensures forall i | 0 <= i < |items| :: WellFormed(PrintItems(items)[i])
    decreases items, 0
  {
    if items != [] {
      PrintWellFormed(items[0]);
      ItemsWellFormed(items[1..]);
    }
  }

  lemma {:induction false} FieldsWellFormed(fields: Record)
    requires forall i | 0 <= i < |fields| :: Valid(fields[i].value)
    ensures forall i | 0 <= i < |fields| :: WellFormed(PrintFields(fields)[i])
    decreases fields, 0
  {
    if fields != [] {
      var f := fields[0];
      QuoteWellFormed(f.key);
      PlainWellFormed([COLON]);
      ConcatWellFormed(Quote(f.key), [COLON]);
      PrintWellFormed(f.value);
      ConcatWellFormed(Quote(f.key) + [COLON], Print(f.value));
      FieldsWellFormed(fields[1..]);
    }
  }

  /** Every canonical text is well-formed, whatever strings the value holds. */
  lemma CanonicalTextIsWellFormed(v: Value)
    requires Valid(v)
    ensures WellFormed(StableStringify(v))
  {
    StableIsPrintOfCanon(v);
    PrintWellFormed(Canon(v));
  }
}

/** JavaScript strings: sequences of UTF-16 code units, with the decimal printing that template
    strings use and the splitting facts that make printed identifiers unambiguous. */
module Texts {
  type CodeUnit = u: int | 0 <= u < 0x10000
  type Text = seq<CodeUnit>

  const DOT: CodeUnit := 0x2E
  const MINUS: CodeUnit := 0x2D
  const PLUS: CodeUnit := 0x2B
  const COLON: CodeUnit := 0x3A
  const DIGIT_ZERO: CodeUnit := 0x30

  /** The code units of an ASCII literal. */
  function Ascii(s: string): Text
    requires forall i | 0 <= i < |s| :: s[i] < 128 as char
  {
    seq(|s|, i requires 0 <= i < |s| => s[i] as int)
  }

  predicate IsDigit(u: CodeUnit) {
    0x30 <= u <= 0x39
  }

  predicate AllDigits(t: Text) {
    forall i | 0 <= i < |t| :: IsDigit(t[i])
  }

  /** The decimal numeral of a natural number. */
  function Decimal(n: nat): Text {
    if n < 10 then [DIGIT_ZERO + n] else Decimal(n / 10) + [DIGIT_ZERO + n % 10]
  }

  /** The number a string of digits denotes. */
  function ReadDecimal(t: Text): nat
    requires AllDigits(t)
  {
    if t == [] then 0 else 10 * ReadDecimal(t[..|t| - 1]) + (t[|t| - 1] - DIGIT_ZERO)
  }

  lemma {:induction false} DecimalReadsBack(n: nat)
    ensures Decimal(n) != [] && AllDigits(Decimal(n)) && ReadDecimal(Decimal(n)) == n
  {
    if n >= 10 {
      DecimalReadsBack(n / 10);
      var t := Decimal(n);
      assert t[..|t| - 1] == Decimal(n / 10);
    } else {
      assert Decimal(n)[..0] == [];
    }
  }

  lemma DecimalInjective(m: nat, n: nat)
    requires Decimal(m) == Decimal(n)
    ensures m == n
  {
    DecimalReadsBack(m);
    DecimalReadsBack(n);
  }

  /** The numeral of an integer, with a sign when it is negative. */
  function Integer(n: int): Text {
    if n < 0 then [MINUS] + Decimal(-n) else Decimal(n)
  }

  lemma IntegerInjective(m: int, n: int)
    requires Integer(m) == Integer(n)
    ensures m == n
  {
    DecimalReadsBack(if m < 0 then -m else m);
    DecimalReadsBack(if n < 0 then -n else n);
    assert (m < 0) == (Integer(m)[0] == MINUS);
    assert (n < 0) == (Integer(n)[0] == MINUS);
    if m < 0 {
      assert Decimal(-m) == Integer(m)[1..] == Integer(n)[1..] == Decimal(-n);
    }
  }

  lemma IntegerUnits(n: int)
    ensures Integer(n) != []
    ensures forall i | 0 <= i < |Integer(n)| :: IsDigit(Integer(n)[i]) || Integer(n)[i] == MINUS
  {
    DecimalReadsBack(if n < 0 then -n else n);
  }

  /** A separator that occurs in neither suffix splits two equal strings at the same place. */
  lemma SplitAtLast(a: Text, x: Text, b: Text, y: Text, separator: CodeUnit)
    requires a + [separator] + x == b + [separator] + y
    requires separator !in x && separator !in y
    ensures a == b && x == y
  {
    var s, t := a + [separator] + x, b + [separator] + y;
    assert s[|a|] == separator && t[|b|] == separator;
    assert forall i | |a| < i < |s| :: s[i] == x[i - |a| - 1];
    assert forall i | |b| < i < |t| :: t[i] == y[i - |b| - 1];
    assert a == s[..|a|] && b == t[..|b|];
    assert x == s[|a| + 1..] && y == t[|b| + 1..];
  }
}

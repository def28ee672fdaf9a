/** Finite JavaScript numbers as their decimal form, and Number::toString in radix 10
    (ECMA-262, section 6.1.6.1.20), which JSON.stringify uses. */
module Numbers {
  import opened Texts

  const EXPONENT: CodeUnit := 0x65

  /** `Finite(negative, s, n)` is the number whose shortest decimal digits are `s` with the decimal
      point after `n` of them: 0.s * 10^n. Distinct finite doubles have distinct forms, except that
      0 and -0, which are `===` and print alike, are both `Zero`. */
  datatype Number = Zero | Finite(negative: bool, digits: Text, point: int) {
    predicate Valid() {
      Finite? ==>
        && AllDigits(digits)
        && digits != []
        && digits[0] != DIGIT_ZERO
        && digits[|digits| - 1] != DIGIT_ZERO
    }
  }

  predicate NumberUnit(u: CodeUnit) {
    IsDigit(u) || u in {DOT, MINUS, PLUS, EXPONENT}
  }

  function Zeros(n: nat): Text {
    seq(n, _ => DIGIT_ZERO)
  }

  function PrintExponent(e: int): Text {
    [EXPONENT, if e < 0 then MINUS else PLUS] + Decimal(if e < 0 then -e else e)
  }

  function PrintMagnitude(s: Text, n: int): Text
    requires s != []
  {
    if |s| <= n <= 21 then s + Zeros(n - |s|)
    else if 0 < n <= 21 then s[..n] + [DOT] + s[n..]
    else if -6 < n <= 0 then [DIGIT_ZERO, DOT] + Zeros(-n) + s
    else if |s| == 1 then s + PrintExponent(n - 1)
    else s[..1] + [DOT] + s[1..] + PrintExponent(n - 1)
  }

  function PrintNumber(x: Number): Text
    requires x.Valid()
  {
    match x
    case Zero => [DIGIT_ZERO]
    case Finite(negative, s, n) => (if negative then [MINUS] else []) + PrintMagnitude(s, n)
  }

  /** Where Number::toString changes format: numbers from 10^-6 up to below 10^21 are written out, with as many
      characters as they take, and others have an exponent. */
  lemma FormatBoundaries(s: Text, n: int)
    requires s != [] && AllDigits(s)
    ensures EXPONENT in PrintMagnitude(s, n) <==> n > 21 || n < -5
    ensures -5 <= n <= 21 ==>
      |PrintMagnitude(s, n)| == if n >= |s| then n else if n > 0 then |s| + 1 else |s| + 2 - n
  {
    assert EXPONENT !in s && EXPONENT !in Zeros(if n < 0 then -n else n) && EXPONENT !in Zeros(if n < |s| then 0 else n - |s|);
    if |s| <= n <= 21 {
    } else if 0 < n <= 21 {
      assert EXPONENT !in s[..n] && EXPONENT !in s[n..];
    } else if -6 < n <= 0 {
    } else {
      assert PrintExponent(n - 1)[0] == EXPONENT;
      assert PrintMagnitude(s, n)[if |s| == 1 then 1 else |s| + 1] == EXPONENT;
    }
  }

  // ---- Reading a printed number back ----

  function IndexOf(t: Text, u: CodeUnit): (i: nat)
    ensures i <= |t|
  {
    if t == [] || t[0] == u then 0 else 1 + IndexOf(t[1..], u)
  }

  function LeadingZeros(t: Text): (n: nat)
    ensures n <= |t|
  {
    if t == [] || t[0] != DIGIT_ZERO then 0 else 1 + LeadingZeros(t[1..])
  }

  function DropTrailingZeros(t: Text): Text {
    if t == [] || t[|t| - 1] != DIGIT_ZERO then t else DropTrailingZeros(t[..|t| - 1])
  }

  function ReadExponent(t: Text): int {
    if |t| < 2 || !AllDigits(t[2..]) then 0
    else if t[1] == MINUS then 0 - ReadDecimal(t[2..])
    else ReadDecimal(t[2..])
  }

  function ReadMantissa(negative: bool, t: Text, exponent: int): Number {
    var dot := IndexOf(t, DOT);
    var digits := t[..dot] + (if dot < |t| then t[dot + 1..] else []);
    var skipped := LeadingZeros(digits);
    var s := DropTrailingZeros(digits[skipped..]);
    if s == [] then Zero else Finite(negative, s, dot + exponent - skipped)
  }

  function ReadNumber(t: Text): Number {
    var negative := t != [] && t[0] == MINUS;
    var body := if negative then t[1..] else t;
    var e := IndexOf(body, EXPONENT);
    ReadMantissa(negative, body[..e], ReadExponent(body[e..]))
  }

  lemma {:induction false} IndexOfAt(p: Text, u: CodeUnit, q: Text)
    requires u !in p && (q == [] || q[0] == u)
    ensures IndexOf(p + q, u) == |p|
  {
    if p == [] {
      assert p + q == q;
    } else {
      assert (p + q)[1..] == p[1..] + q;
      IndexOfAt(p[1..], u, q);
    }
  }

  lemma {:induction false} LeadingZerosAt(n: nat, s: Text)
    requires s != [] && s[0] != DIGIT_ZERO
    ensures LeadingZeros(Zeros(n) + s) == n
  {
    if n == 0 {
      assert Zeros(n) + s == s;
    } else {
      assert (Zeros(n) + s)[1..] == Zeros(n - 1) + s;
      LeadingZerosAt(n - 1, s);
    }
  }

  lemma {:induction false} TrailingZerosAt(s: Text, n: nat)
    requires s != [] && s[|s| - 1] != DIGIT_ZERO
    ensures DropTrailingZeros(s + Zeros(n)) == s
  {
    var t := s + Zeros(n);
    if n == 0 {
      assert t == s;
    } else {
      assert t[..|t| - 1] == s + Zeros(n - 1);
      TrailingZerosAt(s, n - 1);
    }
  }

  /** A mantissa whose digits are zeros, then `s`, then zeros. */
  lemma ReadMantissaAt(negative: bool, whole: Text, fraction: Text, hasDot: bool, exponent: int, m: nat, s: Text, n: nat)
    requires DOT !in whole && (!hasDot ==> fraction == [])
    requires whole + fraction == Zeros(m) + s + Zeros(n)
    requires s != [] && s[0] != DIGIT_ZERO && s[|s| - 1] != DIGIT_ZERO
    ensures ReadMantissa(negative, whole + (if hasDot then [DOT] + fraction else []), exponent)
         == Finite(negative, s, |whole| + exponent - m)
  {
    var q := if hasDot then [DOT] + fraction else [];
    var t := whole + q;
    IndexOfAt(whole, DOT, q);
    assert t[..|whole|] == whole;
    if hasDot {
      assert t[|whole| + 1..] == fraction;
    }
    var digits := Zeros(m) + (s + Zeros(n));
    assert digits == whole + fraction;
    LeadingZerosAt(m, s + Zeros(n));
    assert digits[m..] == s + Zeros(n);
    TrailingZerosAt(s, n);
  }

  lemma ReadExponentAt(e: int)
    ensures ReadExponent(PrintExponent(e)) == e
  {
    var n := if e < 0 then -e else e;
    DecimalReadsBack(n);
    assert PrintExponent(e)[2..] == Decimal(n);
  }

  /** The body of a printed number, split at its exponent mark. */
  lemma ReadNumberAt(negative: bool, mantissa: Text, exponent: Text)
    requires mantissa != [] && mantissa[0] != MINUS && EXPONENT !in mantissa
    requires exponent == [] || exponent[0] == EXPONENT
    ensures ReadNumber((if negative then [MINUS] else []) + (mantissa + exponent))
         == ReadMantissa(negative, mantissa, ReadExponent(exponent))
  {
    var body := mantissa + exponent;
    var t := (if negative then [MINUS] else []) + body;
    assert t[0] == MINUS <==> negative;
    assert (if negative then t[1..] else t) == body;
    IndexOfAt(mantissa, EXPONENT, exponent);
    assert body[..|mantissa|] == mantissa && body[|mantissa|..] == exponent;
  }

  /** Printing loses nothing: every finite number is read back from its numeral. */
  lemma NumberReadsBack(x: Number)
    requires x.Valid()
    ensures ReadNumber(PrintNumber(x)) == x
  {
    match x {
      case Zero =>
        ReadNumberAt(false, [DIGIT_ZERO], []);
        assert PrintNumber(x) == [] + ([DIGIT_ZERO] + []);
        assert ReadMantissa(false, [DIGIT_ZERO], 0) == Zero by {
          IndexOfAt([DIGIT_ZERO], DOT, []);
          assert [DIGIT_ZERO] + [] == [DIGIT_ZERO];
          var digits: Text := [DIGIT_ZERO];
          assert digits[..1] + [] == digits;
          assert digits[1..] == [];
          assert LeadingZeros(digits) == 1;
        }
      case Finite(negative, s, n) =>
        assert forall i | 0 <= i < |s| :: s[i] != DOT && s[i] != EXPONENT && s[i] != MINUS;
        MagnitudeReadsBack(negative, s, n);
    }
  }

  lemma MagnitudeReadsBack(negative: bool, s: Text, n: int)
    requires Finite(negative, s, n).Valid()
    ensures ReadNumber((if negative then [MINUS] else []) + PrintMagnitude(s, n)) == Finite(negative, s, n)
  {
    if -6 < n <= 0 {
      SmallReadsBack(negative, s, n);
    } else if |s| <= n <= 21 {
      WholeReadsBack(negative, s, n);
    } else if 0 < n <= 21 {
      PointReadsBack(negative, s, n);
    } else {
      LargeReadsBack(negative, s, n);
    }
  }

  lemma LargeReadsBack(negative: bool, s: Text, n: int)
    requires Finite(negative, s, n).Valid() && (n <= -6 || n > 21)
    ensures ReadNumber((if negative then [MINUS] else []) + PrintMagnitude(s, n)) == Finite(negative, s, n)
  {
    var exponent := PrintExponent(n - 1);
    assert ReadExponent(exponent) == n - 1 by { ReadExponentAt(n - 1); }
    assert s[..1] + s[1..] == Zeros(0) + s + Zeros(0);
    PartsReadBack(negative, s[..1], s[1..], |s| > 1, exponent, 0, s, 0);
    ExponentParts(s, n);
  }

  lemma SmallReadsBack(negative: bool, s: Text, n: int)
    requires Finite(negative, s, n).Valid() && -6 < n <= 0
    ensures ReadNumber((if negative then [MINUS] else []) + PrintMagnitude(s, n)) == Finite(negative, s, n)
  {
    var fraction := Zeros(-n) + s;
    assert [DIGIT_ZERO] + fraction == Zeros(1 - n) + s + Zeros(0);
    PartsReadBack(negative, [DIGIT_ZERO], fraction, true, [], 1 - n, s, 0);
    SmallParts(s, n);
  }

  lemma WholeReadsBack(negative: bool, s: Text, n: int)
    requires Finite(negative, s, n).Valid() && |s| <= n <= 21
    ensures ReadNumber((if negative then [MINUS] else []) + PrintMagnitude(s, n)) == Finite(negative, s, n)
  {
    var whole := s + Zeros(n - |s|);
    assert whole + [] == Zeros(0) + s + Zeros(n - |s|);
    PartsReadBack(negative, whole, [], false, [], 0, s, n - |s|);
    WholeParts(s, n);
  }

  lemma PointReadsBack(negative: bool, s: Text, n: int)
    requires Finite(negative, s, n).Valid() && 0 < n < |s| && n <= 21
    ensures ReadNumber((if negative then [MINUS] else []) + PrintMagnitude(s, n)) == Finite(negative, s, n)
  {
    assert s[..n] + s[n..] == Zeros(0) + s + Zeros(0);
    PartsReadBack(negative, s[..n], s[n..], true, [], 0, s, 0);
    PointParts(s, n);
  }

  lemma WholeParts(s: Text, n: int)
    requires s != [] && |s| <= n <= 21
    ensures PrintMagnitude(s, n) == Parts(s + Zeros(n - |s|), [], false, [])
  {
  }

  lemma PointParts(s: Text, n: int)
    requires 0 < n < |s| && n <= 21
    ensures PrintMagnitude(s, n) == Parts(s[..n], s[n..], true, [])
  {
  }

  lemma ExponentParts(s: Text, n: int)
    requires s != [] && (n <= -6 || n > 21)
    ensures PrintMagnitude(s, n) == Parts(s[..1], s[1..], |s| > 1, PrintExponent(n - 1))
  {
  }

  lemma SmallParts(s: Text, n: int)
    requires s != [] && -6 < n <= 0
    ensures PrintMagnitude(s, n) == Parts([DIGIT_ZERO], Zeros(-n) + s, true, [])
  {
  }

  function Parts(whole: Text, fraction: Text, hasDot: bool, exponent: Text): Text {
    whole + (if hasDot then [DOT] + fraction else []) + exponent
  }

  lemma PartsReadBack(negative: bool, whole: Text, fraction: Text, hasDot: bool, exponent: Text,
                      m: nat, s: Text, n: nat)
    requires whole != [] && AllDigits(whole) && AllDigits(fraction) && (!hasDot ==> fraction == [])
    requires exponent == [] || exponent[0] == EXPONENT
    requires whole + fraction == Zeros(m) + s + Zeros(n)
    requires s != [] && s[0] != DIGIT_ZERO && s[|s| - 1] != DIGIT_ZERO
    ensures ReadNumber((if negative then [MINUS] else []) + Parts(whole, fraction, hasDot, exponent))
         == Finite(negative, s, |whole| + ReadExponent(exponent) - m)
  {
    ReadNumberAt(negative, whole + (if hasDot then [DOT] + fraction else []), exponent);
    ReadMantissaAt(negative, whole, fraction, hasDot, ReadExponent(exponent), m, s, n);
  }

  lemma NumberUnits(x: Number)
    requires x.Valid()
    ensures var t := PrintNumber(x);
      && t != []
      && (IsDigit(t[0]) || t[0] == MINUS)
      && forall i | 0 <= i < |t| :: NumberUnit(t[i])
  {
    if x.Finite? {
      var e := x.point - 1;
      DecimalReadsBack(if e < 0 then -e else e);
      var s := PrintMagnitude(x.digits, x.point);
      assert forall i | 0 <= i < |s| :: NumberUnit(s[i]);
      assert IsDigit(s[0]);
    }
  }
}

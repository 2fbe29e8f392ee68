/**
 * Decimal text of a double, as `Number::toString` of ECMAScript lays it out.
 * A double is given by its shortest digits d1...dk and the position n of its point: 0.d1...dk * 10^n.
 */
module JsNumbers {
  import opened Json

  const MINUS: CodeUnit := 45
  const PLUS: CodeUnit := 43
  const POINT: CodeUnit := 46
  const ZERO: CodeUnit := 48
  const EXPONENT: CodeUnit := 101

  predicate IsDigit(u: CodeUnit) { 48 <= u <= 57 }

  /** No leading and no trailing zero, as in the shortest representation. */
  predicate ValidDigits(digits: seq<int>) {
    && digits != [] && digits[0] != 0 && digits[|digits| - 1] != 0
    && forall i :: 0 <= i < |digits| ==> 0 <= digits[i] < 10
  }

  predicate ValidNumber(n: Number) {
    n.Finite? ==> ValidDigits(n.digits)
  }

  function Decimals(digits: seq<int>): Text
    requires forall i :: 0 <= i < |digits| ==> 0 <= digits[i] < 10
  {
    seq(|digits|, i requires 0 <= i < |digits| => 48 + digits[i])
  }

  function Zeros(n: nat): Text { seq(n, _ => ZERO) }

  function Natural(n: nat): Text {
    if n < 10 then [48 + n] else Natural(n / 10) + [48 + n % 10]
  }

  function Exponent(e: int): Text {
    [EXPONENT] + (if e < 0 then [MINUS] + Natural(-e) else [PLUS] + Natural(e))
  }

  function Magnitude(ds: Text, n: int): Text
    requires ds != []
  {
    var k := |ds|;
    if k <= n <= 21 then ds + Zeros(n - k)
    else if 0 < n <= 21 then ds[..n] + [POINT] + ds[n..]
    else if -6 < n <= 0 then [ZERO, POINT] + Zeros(-n) + ds
    else ds[..1] + (if k == 1 then [] else [POINT] + ds[1..]) + Exponent(n - 1)
  }

  /** `JSON.stringify` of a number: the two zeros print alike and what is not finite prints `null`. */
  function PrintNumber(n: Number): Text
    requires ValidNumber(n)
  {
    match n
    case NaN => Ascii("null")
    case Infinite(_) => Ascii("null")
    case Zero(_) => [ZERO]
    case Finite(negative, digits, point) =>
      (if negative then [MINUS] else []) + Magnitude(Decimals(digits), point)
  }

  // --- Reading the text back ---

  function Find(t: Text, u: CodeUnit): (i: nat)
    ensures i <= |t|
  {
    if t == [] || t[0] == u then 0 else 1 + Find(t[1..], u)
  }

  lemma {:induction false} FindSkips(a: Text, u: CodeUnit, b: Text)
    requires u !in a && (b != [] ==> b[0] == u)
    ensures Find(a + b, u) == |a|
  {
    if a == [] {
      assert a + b == b;
    } else {
      assert (a + b)[1..] == a[1..] + b;
      FindSkips(a[1..], u, b);
    }
  }

  function NaturalValue(t: Text): int {
    if t == [] then 0 else 10 * NaturalValue(t[..|t| - 1]) + t[|t| - 1] as int - 48
  }

  lemma {:induction false} NaturalRoundTrip(n: nat)
    ensures NaturalValue(Natural(n)) == n
    ensures forall i :: 0 <= i < |Natural(n)| ==> IsDigit(Natural(n)[i])
  {
    if n < 10 {
      assert Natural(n)[..0] == [];
    } else {
      NaturalRoundTrip(n / 10);
      var t := Natural(n);
      assert t[..|t| - 1] == Natural(n / 10);
    }
  }

  function ExponentValue(t: Text): int {
    if |t| < 2 then 0
    else if t[1] == MINUS then -NaturalValue(t[2..])
    else NaturalValue(t[2..])
  }

  lemma ExponentRoundTrip(e: int)
    ensures ExponentValue(Exponent(e)) == e
    ensures EXPONENT !in Exponent(e)[1..] && POINT !in Exponent(e)
  {
    var m: nat := if e < 0 then -e else e;
    NaturalRoundTrip(m);
    assert Exponent(e)[2..] == Natural(m);
  }

  function DropLeadingZeros(t: Text): (r: Text)
    ensures |r| <= |t|
  {
    if t != [] && t[0] == ZERO then DropLeadingZeros(t[1..]) else t
  }

  function DropTrailingZeros(t: Text): Text {
    if t != [] && t[|t| - 1] == ZERO then DropTrailingZeros(t[..|t| - 1]) else t
  }

  lemma {:induction false} DropsLeadingZeros(n: nat, ds: Text)
    requires ds != [] && ds[0] != ZERO
    ensures DropLeadingZeros(Zeros(n) + ds) == ds
  {
    if n == 0 {
      assert Zeros(0) + ds == ds;
    } else {
      assert (Zeros(n) + ds)[1..] == Zeros(n - 1) + ds;
      DropsLeadingZeros(n - 1, ds);
    }
  }

  lemma {:induction false} DropsTrailingZeros(ds: Text, n: nat)
    requires ds != [] && ds[|ds| - 1] != ZERO
    ensures DropTrailingZeros(ds + Zeros(n)) == ds
  {
    if n == 0 {
      assert ds + Zeros(0) == ds;
    } else {
      var t := ds + Zeros(n);
      assert t[..|t| - 1] == ds + Zeros(n - 1);
      DropsTrailingZeros(ds, n - 1);
    }
  }

  /** Where the mantissa ends and where its whole part ends. */
  function Mantissa(t: Text): Text { t[..Find(t, EXPONENT)] }

  function Whole(mantissa: Text): Text { mantissa[..Find(mantissa, POINT)] }

  function Fraction(mantissa: Text): Text {
    var dot := Find(mantissa, POINT);
    if dot < |mantissa| then mantissa[dot + 1..] else []
  }

  /** Significant digits and position of the point of an unsigned decimal text. */
  function ReadMagnitude(t: Text): (Text, int) {
    Significant(Whole(Mantissa(t)), Fraction(Mantissa(t)), ExponentValue(t[|Mantissa(t)|..]))
  }

  function Significant(whole: Text, fraction: Text, exponent: int): (Text, int) {
    var all := whole + fraction;
    var significant := DropLeadingZeros(all);
    (DropTrailingZeros(significant), |whole| + exponent - (|all| - |significant|))
  }

  lemma MantissaOf(mantissa: Text, exponent: Text)
    requires EXPONENT !in mantissa
    requires exponent != [] ==> exponent[0] == EXPONENT
    ensures Mantissa(mantissa + exponent) == mantissa
    ensures (mantissa + exponent)[|mantissa|..] == exponent
  {
    FindSkips(mantissa, EXPONENT, exponent);
  }

  lemma PartsOf(whole: Text, fraction: Text)
    requires POINT !in whole
    ensures Whole(whole) == whole && Fraction(whole) == []
    ensures Whole(whole + [POINT] + fraction) == whole && Fraction(whole + [POINT] + fraction) == fraction
  {
    FindSkips(whole, POINT, []);
    assert whole + [] == whole;
    var t := whole + [POINT] + fraction;
    assert t == whole + ([POINT] + fraction);
    FindSkips(whole, POINT, [POINT] + fraction);
    assert t[|whole| + 1..] == fraction;
  }

  predicate DigitText(ds: Text) {
    && ds != [] && ds[0] != ZERO && ds[|ds| - 1] != ZERO
    && forall i :: 0 <= i < |ds| ==> IsDigit(ds[i])
  }

  lemma WholeLayout(ds: Text, n: int)
    requires DigitText(ds) && |ds| <= n <= 21
    ensures ReadMagnitude(Magnitude(ds, n)) == (ds, n)
  {
    var whole := ds + Zeros(n - |ds|);
    assert Magnitude(ds, n) == whole && whole[0] == ds[0];
    assert EXPONENT !in whole && POINT !in whole;
    MantissaOf(whole, []);
    assert whole + [] == whole;
    PartsOf(whole, []);
    DropsTrailingZeros(ds, n - |ds|);
  }

  lemma PointInside(ds: Text, n: int)
    requires DigitText(ds) && 0 < n <= 21 && n < |ds|
    ensures ReadMagnitude(Magnitude(ds, n)) == (ds, n)
  {
    var t := ds[..n] + [POINT] + ds[n..];
    assert EXPONENT !in t;
    MantissaOf(t, []);
    assert t + [] == t;
    PartsOf(ds[..n], ds[n..]);
    assert ds[..n] + ds[n..] == ds;
  }

  lemma LeadingZeros(ds: Text, n: int)
    requires DigitText(ds) && -6 < n <= 0
    ensures ReadMagnitude(Magnitude(ds, n)) == (ds, n)
  {
    var fraction := Zeros(-n) + ds;
    var t := [ZERO] + [POINT] + fraction;
    assert t == Magnitude(ds, n);
    assert EXPONENT !in t;
    MantissaOf(t, []);
    assert t + [] == t;
    PartsOf([ZERO], fraction);
    assert [ZERO] + fraction == Zeros(1 - n) + ds;
    DropsLeadingZeros(1 - n, ds);
  }

  lemma ScientificParts(first: Text, rest: Text, exponent: Text)
    requires forall i :: 0 <= i < |first| ==> IsDigit(first[i])
    requires forall i :: 0 <= i < |rest| ==> IsDigit(rest[i])
    requires exponent != [] && exponent[0] == EXPONENT
    ensures ReadMagnitude(first + (if rest == [] then [] else [POINT] + rest) + exponent)
         == Significant(first, rest, ExponentValue(exponent))
  {
    var mantissa := first + (if rest == [] then [] else [POINT] + rest);
    assert mantissa == if rest == [] then first else first + [POINT] + rest;
    assert EXPONENT !in mantissa;
    MantissaOf(mantissa, exponent);
    PartsOf(first, rest);
  }

  lemma Scientific(ds: Text, n: int)
    requires DigitText(ds) && !(-6 < n <= 21)
    ensures ReadMagnitude(Magnitude(ds, n)) == (ds, n)
  {
    ExponentRoundTrip(n - 1);
    ScientificParts(ds[..1], ds[1..], Exponent(n - 1));
    OneAndRest(ds, n - 1);
  }

  lemma OneAndRest(ds: Text, exponent: int)
    requires DigitText(ds)
    ensures Significant(ds[..1], ds[1..], exponent) == (ds, 1 + exponent)
  {
    assert ds[..1] + ds[1..] == ds;
  }

  lemma WholeMarks(ds: Text, n: int)
    requires DigitText(ds) && |ds| <= n <= 21
    ensures EXPONENT !in Magnitude(ds, n) && POINT !in Magnitude(ds, n)
  {
    assert Magnitude(ds, n) == ds + Zeros(n - |ds|);
  }

  lemma InsideMarks(ds: Text, n: int)
    requires DigitText(ds) && 0 < n <= 21 && n < |ds|
    ensures EXPONENT !in Magnitude(ds, n) && POINT in Magnitude(ds, n)
  {
    var t := Magnitude(ds, n);
    assert t == ds[..n] + [POINT] + ds[n..] && t[n] == POINT;
  }

  lemma LeadingMarks(ds: Text, n: int)
    requires DigitText(ds) && -6 < n <= 0
    ensures EXPONENT !in Magnitude(ds, n) && POINT in Magnitude(ds, n)
  {
    var t := Magnitude(ds, n);
    assert t == [ZERO, POINT] + Zeros(-n) + ds && t[1] == POINT;
  }

  lemma ScientificMarks(ds: Text, n: int)
    requires DigitText(ds) && !(-6 < n <= 21)
    ensures EXPONENT in Magnitude(ds, n)
  {
    var mantissa := ds[..1] + (if |ds| == 1 then [] else [POINT] + ds[1..]);
    assert Magnitude(ds, n) == mantissa + Exponent(n - 1);
    assert (mantissa + Exponent(n - 1))[|mantissa|] == EXPONENT;
  }

  /** An exponent is written exactly below 1e-6 and from 1e21 on, and otherwise a point exactly where digits need one. */
  lemma LayoutByMagnitude(ds: Text, n: int)
    requires DigitText(ds)
    ensures EXPONENT in Magnitude(ds, n) <==> n <= -6 || n > 21
    ensures -6 < n <= 21 ==> (POINT in Magnitude(ds, n) <==> n < |ds|)
  {
    if |ds| <= n <= 21 {
      WholeMarks(ds, n);
    } else if 0 < n <= 21 {
      InsideMarks(ds, n);
    } else if -6 < n <= 0 {
      LeadingMarks(ds, n);
    } else {
      ScientificMarks(ds, n);
    }
  }

  /** Each of the four layouts can be read back: digits and point are recovered exactly. */
  lemma MagnitudeRoundTrip(ds: Text, n: int)
    requires DigitText(ds)
    ensures ReadMagnitude(Magnitude(ds, n)) == (ds, n)
  {
    if |ds| <= n <= 21 {
      WholeLayout(ds, n);
    } else if 0 < n <= 21 {
      PointInside(ds, n);
    } else if -6 < n <= 0 {
      LeadingZeros(ds, n);
    } else {
      Scientific(ds, n);
    }
  }

  predicate NumberUnit(u: CodeUnit) {
    IsDigit(u) || u == MINUS || u == PLUS || u == POINT || u == EXPONENT
  }

  predicate NumberText(t: Text) {
    forall i :: 0 <= i < |t| ==> NumberUnit(t[i])
  }

  lemma ExponentUnits(e: int)
    ensures NumberText(Exponent(e))
  {
    NaturalRoundTrip(if e < 0 then -e else e);
  }

  lemma UnitsConcatenate(a: Text, b: Text)
    requires NumberText(a) && NumberText(b)
    ensures NumberText(a + b)
  {
  }

  lemma MagnitudeUnits(ds: Text, n: int)
    requires DigitText(ds)
    ensures Magnitude(ds, n) != [] && IsDigit(Magnitude(ds, n)[0])
    ensures NumberText(Magnitude(ds, n))
  {
    if !(-6 < n <= 21) {
      ExponentUnits(n - 1);
      var mantissa := ds[..1] + (if |ds| == 1 then [] else [POINT] + ds[1..]);
      UnitsConcatenate(mantissa, Exponent(n - 1));
    }
  }

  lemma DecimalsAreDigits(digits: seq<int>)
    requires ValidDigits(digits)
    ensures DigitText(Decimals(digits))
  {
  }

  lemma PrintedUnits(n: Number)
    requires ValidNumber(n) && (n.Zero? || n.Finite?)
    ensures PrintNumber(n) != [] && (IsDigit(PrintNumber(n)[0]) || PrintNumber(n)[0] == MINUS)
    ensures NumberText(PrintNumber(n))
  {
    if n.Finite? {
      DecimalsAreDigits(n.digits);
      MagnitudeUnits(Decimals(n.digits), n.point);
    }
  }

  predicate SameNumber(m: Number, n: Number) {
    m == n || (m.Zero? && n.Zero?)
  }

  lemma DecimalsInjective(a: seq<int>, b: seq<int>)
    requires ValidDigits(a) && ValidDigits(b) && Decimals(a) == Decimals(b)
    ensures a == b
  {
    assert |a| == |Decimals(a)| && |b| == |Decimals(b)|;
    assert forall i :: 0 <= i < |a| ==> Decimals(a)[i] == 48 + a[i] && Decimals(b)[i] == 48 + b[i];
  }

  lemma ReadZero()
    ensures ReadMagnitude([ZERO]).0 == []
  {
    MantissaOf([ZERO], []);
    assert [ZERO] + [] == [ZERO];
    PartsOf([ZERO], []);
    assert DropLeadingZeros([ZERO]) == [];
  }

  lemma ZeroIsNoMagnitude(ds: Text, n: int)
    requires DigitText(ds)
    ensures Magnitude(ds, n) != [ZERO]
  {
    MagnitudeRoundTrip(ds, n);
    ReadZero();
  }

  function ReadNumber(t: Text): (bool, (Text, int)) {
    if t != [] && t[0] == MINUS then (true, ReadMagnitude(t[1..])) else (false, ReadMagnitude(t))
  }

  /** Sign, digits and point of every finite non-zero number are recovered from its text. */
  lemma NumberRoundTrip(n: Number)
    requires ValidNumber(n) && n.Finite?
    ensures ReadNumber(PrintNumber(n)) == (n.negative, (Decimals(n.digits), n.point))
    ensures PrintNumber(n) != [ZERO]
  {
    var ds := Decimals(n.digits);
    var magnitude := Magnitude(ds, n.point);
    DecimalsAreDigits(n.digits);
    MagnitudeUnits(ds, n.point);
    MagnitudeRoundTrip(ds, n.point);
    ZeroIsNoMagnitude(ds, n.point);
    SignedRead(n.negative, magnitude);
  }

  lemma SignedRead(negative: bool, magnitude: Text)
    requires magnitude != [] && IsDigit(magnitude[0])
    ensures ReadNumber((if negative then [MINUS] else []) + magnitude) == (negative, ReadMagnitude(magnitude))
    ensures magnitude != [ZERO] ==> (if negative then [MINUS] else []) + magnitude != [ZERO]
  {
    assert ([MINUS] + magnitude)[1..] == magnitude && [] + magnitude == magnitude;
    assert ([MINUS] + magnitude)[0] == MINUS;
  }

  /** Finite numbers print alike exactly when they are the same number. */
  lemma PrintNumberInjective(m: Number, n: Number)
    requires ValidNumber(m) && ValidNumber(n) && (m.Zero? || m.Finite?) && (n.Zero? || n.Finite?)
    ensures PrintNumber(m) == PrintNumber(n) <==> SameNumber(m, n)
  {
    if m.Finite? { NumberRoundTrip(m); }
    if n.Finite? { NumberRoundTrip(n); }
    if m.Finite? && n.Finite? && PrintNumber(m) == PrintNumber(n) {
      DecimalsInjective(m.digits, n.digits);
    }
  }

  /** Followed by something that no number contains, a printed number ends where it says it ends. */
  lemma NumberPrefixFree(m: Number, n: Number, p: Text, q: Text)
    requires ValidNumber(m) && ValidNumber(n) && (m.Zero? || m.Finite?) && (n.Zero? || n.Finite?)
    requires (p != [] ==> !NumberUnit(p[0])) && (q != [] ==> !NumberUnit(q[0]))
    requires PrintNumber(m) + p == PrintNumber(n) + q
    ensures SameNumber(m, n) && p == q
  {
    PrintedUnits(m);
    PrintedUnits(n);
    UnitsEnd(PrintNumber(m), PrintNumber(n), p, q);
    PrintNumberInjective(m, n);
  }

  /** Length of the longest prefix of number units. */
  function Span(t: Text): nat {
    if t == [] || !NumberUnit(t[0]) then 0 else 1 + Span(t[1..])
  }

  lemma {:induction false} SpanOf(a: Text, p: Text)
    requires NumberText(a) && (p != [] ==> !NumberUnit(p[0]))
    ensures Span(a + p) == |a|
  {
    if a == [] {
      assert a + p == p;
    } else {
      assert (a + p)[1..] == a[1..] + p;
      SpanOf(a[1..], p);
    }
  }

  lemma UnitsEnd(a: Text, b: Text, p: Text, q: Text)
    requires NumberText(a) && NumberText(b)
    requires (p != [] ==> !NumberUnit(p[0])) && (q != [] ==> !NumberUnit(q[0]))
    requires a + p == b + q
    ensures a == b && p == q
  {
    SpanOf(a, p);
    SpanOf(b, q);
    assert (a + p)[..|a|] == a && (b + q)[..|b|] == b;
    assert (a + p)[|a|..] == p && (b + q)[|b|..] == q;
  }
}

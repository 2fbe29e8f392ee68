/** Quoting of text as `JSON.stringify` does it (section 7 of RFC 8259, with lone surrogates escaped). */
module JsText {
  import opened Json

  const QUOTE: CodeUnit := 34
  const BACKSLASH: CodeUnit := 92

  predicate High(u: CodeUnit) { 0xD800 <= u <= 0xDBFF }
  predicate Low(u: CodeUnit) { 0xDC00 <= u <= 0xDFFF }

  /** A lower-case hexadecimal digit. */
  function Hex(d: nat): CodeUnit
    requires d < 16
  {
    if d < 10 then 48 + d else 87 + d
  }

  function UnicodeEscape(u: CodeUnit): Text {
    [BACKSLASH, 117, Hex(u / 4096), Hex(u / 256 % 16), Hex(u / 16 % 16), Hex(u % 16)]
  }

  function EscapeUnit(u: CodeUnit): Text {
    if u == 8 then [BACKSLASH, 98]
    else if u == 9 then [BACKSLASH, 116]
    else if u == 10 then [BACKSLASH, 110]
    else if u == 12 then [BACKSLASH, 102]
    else if u == 13 then [BACKSLASH, 114]
    else if u == QUOTE then [BACKSLASH, QUOTE]
    else if u == BACKSLASH then [BACKSLASH, BACKSLASH]
    else if u < 32 || High(u) || Low(u) then UnicodeEscape(u)
    else [u]
  }

  /** Surrogate pairs stay as they are; every other unit is escaped on its own. */
  function Escape(s: Text): Text {
    if s == [] then []
    else if |s| >= 2 && High(s[0]) && Low(s[1]) then [s[0], s[1]] + Escape(s[2..])
    else EscapeUnit(s[0]) + Escape(s[1..])
  }

  function Quote(s: Text): Text {
    [QUOTE] + Escape(s) + [QUOTE]
  }

  /** What one step of `Escape` writes and how much of the text it reads. */
  function Head(s: Text): Text
    requires s != []
  {
    if |s| >= 2 && High(s[0]) && Low(s[1]) then [s[0], s[1]] else EscapeUnit(s[0])
  }

  function Consumed(s: Text): nat
    requires s != []
  {
    if |s| >= 2 && High(s[0]) && Low(s[1]) then 2 else 1
  }

  lemma EscapeStep(s: Text)
    requires s != []
    ensures Consumed(s) <= |s|
    ensures Escape(s) == Head(s) + Escape(s[Consumed(s)..])
  {
  }

  /** Every surrogate is half of a pair. */
  predicate Paired(t: Text) {
    t == []
    || (|t| >= 2 && High(t[0]) && Low(t[1]) && Paired(t[2..]))
    || (!High(t[0]) && !Low(t[0]) && Paired(t[1..]))
  }

  lemma {:induction false} PairedConcatenation(a: Text, b: Text)
    requires Paired(a) && Paired(b)
    ensures Paired(a + b)
    decreases |a|
  {
    if a == [] {
      assert a + b == b;
    } else if |a| >= 2 && High(a[0]) && Low(a[1]) {
      PairedConcatenation(a[2..], b);
      assert (a + b)[2..] == a[2..] + b;
    } else {
      PairedConcatenation(a[1..], b);
      assert (a + b)[1..] == a[1..] + b;
    }
  }

  lemma {:induction false} PlainIsPaired(t: Text)
    requires forall i :: 0 <= i < |t| ==> !High(t[i]) && !Low(t[i])
    ensures Paired(t)
  {
    if t != [] { PlainIsPaired(t[1..]); }
  }

  /** Whatever the text, what is written has no control characters and no lone surrogate. */
  lemma {:induction false} EscapedIsClean(s: Text)
    ensures Paired(Escape(s))
    ensures forall u :: u in Escape(s) ==> u >= 32
    decreases |s|
  {
    if s != [] {
      EscapeStep(s);
      EscapedIsClean(s[Consumed(s)..]);
      if Consumed(s) == 2 {
        assert Head(s)[2..] == [] && Paired(Head(s));
      } else {
        PlainIsPaired(Head(s));
      }
      PairedConcatenation(Head(s), Escape(s[Consumed(s)..]));
    }
  }

  lemma HexInjective(a: CodeUnit, b: CodeUnit)
    requires UnicodeEscape(a) == UnicodeEscape(b)
    ensures a == b
  {
    var x, y := UnicodeEscape(a), UnicodeEscape(b);
    assert x[2] == y[2] && x[3] == y[3] && x[4] == y[4] && x[5] == y[5];
    HexDigit(a / 4096, b / 4096);
    HexDigit(a / 256 % 16, b / 256 % 16);
    HexDigit(a / 16 % 16, b / 16 % 16);
    HexDigit(a % 16, b % 16);
    FromDigits(a);
    FromDigits(b);
  }

  lemma FromDigits(u: CodeUnit)
    ensures u == 4096 * (u / 4096) + 256 * (u / 256 % 16) + 16 * (u / 16 % 16) + u % 16
  {
    assert u / 256 == 16 * (u / 4096) + u / 256 % 16;
    assert u / 16 == 16 * (u / 256) + u / 16 % 16;
  }

  lemma HexDigit(d: nat, e: nat)
    requires d < 16 && e < 16 && Hex(d) == Hex(e)
    ensures d == e
  {
  }

  /** No escape sequence starts like another one, nor with the closing quote. */
  lemma HeadPrefixFree(s: Text, t: Text, p: Text, q: Text)
    requires s != [] && t != [] && Head(s) + p == Head(t) + q
    ensures Consumed(s) == Consumed(t) && s[..Consumed(s)] == t[..Consumed(t)] && p == q
  {
    var x, y := Head(s), Head(t);
    assert (x + p)[0] == x[0] && (y + q)[0] == y[0];
    if x[0] == BACKSLASH {
      assert (x + p)[1] == x[1] && (y + q)[1] == y[1];
      if x[1] == 117 {
        assert |x| == 6 && |y| == 6;
        assert (x + p)[..6] == x && (y + q)[..6] == y;
        HexInjective(s[0], t[0]);
      }
    } else if Consumed(s) == 2 {
      assert (x + p)[1] == s[1] && (y + q)[1] == t[1];
      assert s[..2] == [s[0], s[1]] && t[..2] == [t[0], t[1]];
    }
    assert |x| == |y| && (x + p)[|x|..] == p && (y + q)[|y|..] == q;
  }

  lemma EscapeThen(s: Text, rest: Text)
    requires s != []
    ensures Consumed(s) <= |s|
    ensures Escape(s) + rest == Head(s) + (Escape(s[Consumed(s)..]) + rest)
  {
    EscapeStep(s);
    Concatenation(Head(s), Escape(s[Consumed(s)..]), rest);
  }

  lemma Concatenation(a: Text, b: Text, c: Text)
    ensures (a + b) + c == a + (b + c)
  {
  }

  lemma EscapeStartsUnquoted(s: Text, rest: Text)
    requires s != []
    ensures Escape(s) + rest != [] && (Escape(s) + rest)[0] != QUOTE
  {
    EscapeThen(s, rest);
    assert Head(s) != [] && Head(s)[0] != QUOTE;
  }

  /** The two remainders start with the closing quote. */
  lemma {:induction false} EscapePrefixFree(s: Text, t: Text, p: Text, q: Text)
    requires p != [] && q != [] && p[0] == q[0] == QUOTE
    requires Escape(s) + p == Escape(t) + q
    ensures s == t && p == q
    decreases |s|
  {
    if s == [] {
      assert Escape(s) + p == p;
      if t != [] {
        EscapeStartsUnquoted(t, q);
        assert false;
      }
      assert Escape(t) + q == q;
    } else if t == [] {
      assert Escape(t) + q == q;
      EscapeStartsUnquoted(s, p);
      assert false;
    } else {
      EscapeThen(s, p);
      EscapeThen(t, q);
      var n, m := Consumed(s), Consumed(t);
      HeadPrefixFree(s, t, Escape(s[n..]) + p, Escape(t[m..]) + q);
      EscapePrefixFree(s[n..], t[m..], p, q);
      assert s == s[..n] + s[n..] && t == t[..m] + t[m..];
    }
  }

  /** A quoted text ends where it says it ends, and tells texts apart. */
  lemma QuotePrefixFree(s: Text, t: Text, p: Text, q: Text)
    requires Quote(s) + p == Quote(t) + q
    ensures s == t && p == q
  {
    assert (Quote(s) + p)[1..] == Escape(s) + ([QUOTE] + p);
    assert (Quote(t) + q)[1..] == Escape(t) + ([QUOTE] + q);
    EscapePrefixFree(s, t, [QUOTE] + p, [QUOTE] + q);
    assert ([QUOTE] + p)[1..] == p && ([QUOTE] + q)[1..] == q;
  }
}

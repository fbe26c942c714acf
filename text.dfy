/**
 * Character classes and the small string routines the PHP and JavaScript
 * code relies on: trim(), the regex classes \d and \s, strtolower on ASCII,
 * decimal rendering and PHP's (int) cast, and strlen as a UTF-8 byte count.
 */
module Text {

  /** The characters PHP's trim() strips by default: " \t\n\r\0\x0B". */
  predicate IsPhpTrimChar(c: char)
  {
    c == ' ' || c == '\t' || c == '\n' || c == '\r' || c == '\0' || c == '\U{0B}'
  }

  /** PCRE's \s without the u modifier: space, \t, \n, \x0B, \f, \r. */
  predicate IsPcreSpace(c: char)
  {
    c == ' ' || c == '\t' || c == '\n' || c == '\U{0B}' || c == '\U{0C}' || c == '\r'
  }

  /** ECMAScript's \s: WhiteSpace and LineTerminator code points. */
  predicate IsJsSpace(c: char)
  {
    c == ' ' || c == '\t' || c == '\n' || c == '\U{0B}' || c == '\U{0C}' || c == '\r'
    || c == '\U{A0}' || c == '\U{1680}' || ('\U{2000}' <= c <= '\U{200A}')
    || c == '\U{2028}' || c == '\U{2029}' || c == '\U{202F}' || c == '\U{205F}'
    || c == '\U{3000}' || c == '\U{FEFF}'
  }

  predicate IsDigit(c: char)
  {
    '0' <= c <= '9'
  }

  predicate AllDigits(s: string)
  {
    forall i :: 0 <= i < |s| ==> IsDigit(s[i])
  }

  function DigitChar(n: nat): (c: char)
    requires n < 10
    ensures IsDigit(c)
  {
    ['0', '1', '2', '3', '4', '5', '6', '7', '8', '9'][n]
  }

  function DigitValue(c: char): (n: nat)
    requires IsDigit(c)
    ensures n < 10
  {
    (c as int - '0' as int) as nat
  }

  lemma DigitRoundTrip(n: nat)
    requires n < 10
    ensures DigitValue(DigitChar(n)) == n
  {
  }

  /** ASCII lower-casing, as PHP's strtolower does since PHP 8.2. */
  function ToLowerAscii(c: char): char
  {
    if 'A' <= c <= 'Z' then (c as int + 32) as char else c
  }

  function ToLower(s: string): (r: string)
    ensures |r| == |s|
    ensures forall i :: 0 <= i < |s| ==> r[i] == ToLowerAscii(s[i])
  {
    if s == [] then [] else [ToLowerAscii(s[0])] + ToLower(s[1..])
  }

  // ---------------------------------------------------------------------
  // Spans and trimming

  /** Length of the longest prefix of s whose characters all satisfy p. */
  function Span(s: string, p: char -> bool): (n: nat)
    ensures n <= |s|
    ensures forall i :: 0 <= i < n ==> p(s[i])
    ensures n < |s| ==> !p(s[n])
  {
    if s == [] || !p(s[0]) then 0 else 1 + Span(s[1..], p)
  }

  function TrimLeft(s: string): (r: string)
    ensures r == s[Span(s, IsPhpTrimChar)..]
  {
    s[Span(s, IsPhpTrimChar)..]
  }

  function TrimRight(s: string): (r: string)
    ensures |r| <= |s| && r == s[..|r|]
    ensures r == [] || !IsPhpTrimChar(r[|r| - 1])
    ensures forall i :: |r| <= i < |s| ==> IsPhpTrimChar(s[i])
  {
    if s == [] then []
    else if IsPhpTrimChar(s[|s| - 1]) then TrimRight(s[..|s| - 1])
    else s
  }

  /** PHP trim($s) with the default character list. */
  function Trim(s: string): (r: string)
    ensures r == [] || (!IsPhpTrimChar(r[0]) && !IsPhpTrimChar(r[|r| - 1]))
    ensures |r| <= |s|
  {
    TrimRight(TrimLeft(s))
  }

  lemma TrimEmptyIffBlank(s: string)
    ensures Trim(s) == [] <==> forall i :: 0 <= i < |s| ==> IsPhpTrimChar(s[i])
  {
    var k := Span(s, IsPhpTrimChar);
    if Trim(s) == [] {
      assert k == |s|;
    } else {
      var r := Trim(s);
      assert TrimLeft(s)[0] == r[0] == s[k];
    }
  }

  /** trim() leaves a string alone when neither end is a trim character. */
  lemma TrimOfUntrimmed(s: string)
    requires s != [] && !IsPhpTrimChar(s[0]) && !IsPhpTrimChar(s[|s| - 1])
    ensures Trim(s) == s
  {
    assert TrimLeft(s) == s;
  }

  /** The span over a + b stops exactly at the end of a when b starts outside p. */
  lemma {:induction false} SpanOfConcat(a: string, b: string, p: char -> bool)
    requires forall i :: 0 <= i < |a| ==> p(a[i])
    requires b == [] || !p(b[0])
    ensures Span(a + b, p) == |a|
  {
    if a != [] {
      assert (a + b)[1..] == a[1..] + b;
      SpanOfConcat(a[1..], b, p);
    }
  }

  /** PHP rtrim($s, $c) with a single character: drops every trailing c. */
  function RTrimChar(s: string, c: char): (r: string)
    ensures |r| <= |s| && r == s[..|r|]
    ensures r == [] || r[|r| - 1] != c
    ensures forall i :: |r| <= i < |s| ==> s[i] == c
  {
    if s == [] || s[|s| - 1] != c then s else RTrimChar(s[..|s| - 1], c)
  }

  /** A string that does not end in c loses only the one c appended to it. */
  lemma RTrimOne(a: string, c: char)
    requires a != [] && a[|a| - 1] != c
    ensures RTrimChar(a, c) == a && RTrimChar(a + [c], c) == a
  {
    assert (a + [c])[..|a|] == a;
  }

  predicate StartsWith(prefix: string, s: string)
  {
    |prefix| <= |s| && s[..|prefix|] == prefix
  }

  // ---------------------------------------------------------------------
  // Decimal numbers

  /** The value of a non-empty string of decimal digits (leading zeros allowed). */
  function DigitsValue(s: string): nat
    requires AllDigits(s)
  {
    if s == [] then 0 else DigitsValue(s[..|s| - 1]) * 10 + DigitValue(s[|s| - 1])
  }

  /** Shortest decimal rendering of n, as PHP's (string) and JavaScript's template strings print it. */
  function NatToString(n: nat): (s: string)
    ensures |s| >= 1 && AllDigits(s)
    ensures |s| > 1 ==> s[0] != '0'
  {
    if n < 10 then [DigitChar(n)] else NatToString(n / 10) + [DigitChar(n % 10)]
  }

  lemma {:induction false} DigitsOfNatToString(n: nat)
    ensures DigitsValue(NatToString(n)) == n
  {
    var s := NatToString(n);
    if n < 10 {
      DigitRoundTrip(n);
    } else {
      DigitsOfNatToString(n / 10);
      assert s[..|s| - 1] == NatToString(n / 10);
      DigitRoundTrip(n % 10);
    }
  }

  function IntToString(i: int): (s: string)
  {
    if i < 0 then "-" + NatToString(-i) else NatToString(i)
  }

  function Pow10(n: nat): (p: nat)
    ensures p >= 1
  {
    if n == 0 then 1 else 10 * Pow10(n - 1)
  }

  /**
   * The exponent part of a numeric string: 'e' or 'E', an optional sign and
   * at least one digit. Anything else is not an exponent and counts as 0.
   */
  function ExponentOf(w: string): int
  {
    if |w| < 2 || (w[0] != 'e' && w[0] != 'E') then 0
    else
      var x := w[1..];
      var negative := x[0] == '-';
      var y := if x[0] == '-' || x[0] == '+' then x[1..] else x;
      var digits := y[..Span(y, IsDigit)];
      var v: int := DigitsValue(digits);
      if negative then -v else v
  }

  /** n scaled by 10^shift, truncated toward zero when shift is negative. */
  function Scaled(n: nat, shift: int): nat
  {
    if shift >= 0 then MulNat(n, Pow10(shift)) else DivNat(n, Pow10(-shift))
  }

  function MulNat(a: nat, b: nat): nat
  {
    a * b
  }

  function DivNat(a: nat, b: nat): nat
    requires b >= 1
  {
    a / b
  }

  /**
   * The magnitude PHP reads from an unsigned numeric prefix: integer digits,
   * optionally a '.' with fraction digits, optionally an exponent. A prefix
   * with a fraction or an exponent is read as a float and truncated toward
   * zero; no digits before the exponent read as 0.
   */
  function CastMagnitude(u: string): nat
  {
    var k := Span(u, IsDigit);
    var rest := u[k..];
    if |rest| > 0 && rest[0] == '.' then FractionMagnitude(u[..k], rest[1..])
    else IntegerMagnitude(u[..k], rest)
  }

  /** Integer digits followed by an optional exponent. */
  function IntegerMagnitude(intDigits: string, rest: string): nat
    requires AllDigits(intDigits)
  {
    if intDigits == [] then 0 else Scaled(DigitsValue(intDigits), ExponentOf(rest))
  }

  /** Integer digits, a point, then fraction digits and an optional exponent. */
  function FractionMagnitude(intDigits: string, frac: string): nat
    requires AllDigits(intDigits)
  {
    var j := Span(frac, IsDigit);
    if intDigits == [] && j == 0 then 0
    else Scaled(DigitsValue(intDigits + frac[..j]), ExponentOf(frac[j..]) - j)
  }

  /** PHP's (int) cast of a string: leading whitespace, an optional sign, then the numeric prefix. */
  function PhpIntCast(s: string): int
  {
    var t := s[Span(s, IsPcreSpace)..];
    var signed := |t| > 0 && (t[0] == '-' || t[0] == '+');
    var v: int := CastMagnitude(if signed then t[1..] else t);
    if |t| > 0 && t[0] == '-' then -v else v
  }

  /** A string starting with a digit casts to its magnitude. */
  lemma PhpIntCastOfDigitStart(s: string)
    requires s != [] && IsDigit(s[0])
    ensures PhpIntCast(s) == CastMagnitude(s)
  {
    assert Span(s, IsPcreSpace) == 0;
    assert s[0..] == s;
  }

  /** Digits followed by something that starts neither a fraction nor an exponent: their value. */
  lemma CastMagnitudeOfDigits(a: string, rest: string)
    requires a != [] && AllDigits(a)
    requires rest == [] || (!IsDigit(rest[0]) && rest[0] != '.' && rest[0] != 'e' && rest[0] != 'E')
    ensures CastMagnitude(a + rest) == DigitsValue(a)
  {
    SpanOfConcat(a, rest, IsDigit);
    assert (a + rest)[..|a|] == a && (a + rest)[|a|..] == rest;
    assert a + [] == a;
  }

  /** Casting the decimal text of an integer gives the integer back. */
  lemma PhpIntCastOfIntToString(i: int)
    ensures PhpIntCast(IntToString(i)) == i
  {
    var s := IntToString(i);
    var d := NatToString(if i < 0 then -i else i);
    assert Span(s, IsPcreSpace) == 0;
    assert s[0..] == s;
    var u := if i < 0 then s[1..] else s;
    assert u == d + [];
    CastMagnitudeOfDigits(d, []);
    DigitsOfNatToString(if i < 0 then -i else i);
  }

  /** Digits written after digits scale the first value by a power of ten. */
  lemma {:induction false} DigitsValueConcat(a: string, b: string)
    requires AllDigits(a) && AllDigits(b)
    ensures DigitsValue(a + b) == DigitsValue(a) * Pow10(|b|) + DigitsValue(b)
    decreases |b|
  {
    if b == [] {
      assert a + b == a;
    } else {
      var init := b[..|b| - 1];
      assert (a + b)[..|a + b| - 1] == a + init;
      DigitsValueConcat(a, init);
      assert DigitsValue(a) * Pow10(|init|) * 10 == DigitsValue(a) * Pow10(|b|);
    }
  }

  /** k digits are worth less than 10^k. */
  lemma {:induction false} DigitsValueBound(s: string)
    requires AllDigits(s)
    ensures DigitsValue(s) < Pow10(|s|)
    decreases |s|
  {
    if s != [] {
      DigitsValueBound(s[..|s| - 1]);
    }
  }

  /** Dividing m * p + r by p drops the remainder r < p. */
  lemma DivOfScaled(m: nat, r: nat, p: nat)
    requires r < p
    ensures (m * p + r) / p == m
  {
    var q := (m * p + r) / p;
    var rem := (m * p + r) % p;
    assert q * p + rem == m * p + r;
    assert (q - m) * p == r - rem;
    if q > m {
      MulAtLeast(q - m, p);
    } else if q < m {
      MulAtLeast(m - q, p);
    }
  }

  lemma MulAtLeast(k: int, p: nat)
    requires k >= 1
    ensures k * p >= p
  {
    assert k * p == (k - 1) * p + p;
  }

  /** (int) of "<m>e<e>" is m * 10^e: an exponent is applied, not cut off. */
  lemma PhpIntCastScientific(m: nat, e: nat)
    ensures PhpIntCast(NatToString(m) + "e" + NatToString(e)) == m * Pow10(e)
  {
    var a := NatToString(m);
    var x := NatToString(e);
    var rest := ['e'] + x;
    var s := a + "e" + x;
    assert s == a + rest && s[0] == a[0];
    PhpIntCastOfDigitStart(s);
    SpanOfConcat(a, rest, IsDigit);
    assert s[..|a|] == a && s[|a|..] == rest;
    assert a + [] == a;
    assert ExponentOf(rest) == e by {
      assert rest[1..] == x;
      SpanOfAllDigits(x);
      assert x[..|x|] == x;
      DigitsOfNatToString(e);
    }
    DigitsOfNatToString(m);
  }

  /** Digits, a point and fraction digits: the whole digit string scaled down by the fraction's length. */
  lemma CastMagnitudeOfFraction(a: string, f: string)
    requires a != [] && AllDigits(a) && AllDigits(f)
    ensures CastMagnitude(a + (['.'] + f)) == DigitsValue(a + f) / Pow10(|f|)
  {
    var rest := ['.'] + f;
    var u := a + rest;
    assert Span(u, IsDigit) == |a| && u[..|a|] == a && u[|a|..] == rest by {
      SpanOfConcat(a, rest, IsDigit);
    }
    assert rest[1..] == f;
    assert FractionMagnitude(a, f) == DigitsValue(a + f) / Pow10(|f|) by {
      SpanOfAllDigits(f);
      assert f[..|f|] == f && f[|f|..] == [];
      assert ExponentOf([]) == 0;
      if f == [] {
        assert Scaled(DigitsValue(a + f), 0) == DigitsValue(a + f) * 1;
      }
    }
  }

  /** (int) of "<m>.<digits>" is m: the fraction is truncated. */
  lemma PhpIntCastTruncatesFraction(m: nat, f: string)
    requires AllDigits(f)
    ensures PhpIntCast(NatToString(m) + "." + f) == m
  {
    var a := NatToString(m);
    var s := a + "." + f;
    assert s == a + (['.'] + f) && s[0] == a[0];
    PhpIntCastOfDigitStart(s);
    CastMagnitudeOfFraction(a, f);
    DigitsValueConcat(a, f);
    DigitsValueBound(f);
    DigitsOfNatToString(m);
    DivOfScaled(m, DigitsValue(f), Pow10(|f|));
  }

  lemma {:induction false} SpanOfAllDigits(s: string)
    requires AllDigits(s)
    ensures Span(s, IsDigit) == |s|
  {
    if s != [] { SpanOfAllDigits(s[1..]); }
  }

  // ---------------------------------------------------------------------
  // Byte length

  /** Number of bytes the UTF-8 encoding of c occupies. */
  function Utf8Width(c: char): (n: nat)
    ensures 1 <= n <= 4
  {
    if c as int < 0x80 then 1
    else if c as int < 0x800 then 2
    else if c as int < 0x10000 then 3
    else 4
  }

  /** PHP strlen of the UTF-8 encoding of s. */
  function Utf8Length(s: string): (n: nat)
    ensures |s| <= n <= 4 * |s|
  {
    if s == [] then 0 else Utf8Width(s[0]) + Utf8Length(s[1..])
  }
}

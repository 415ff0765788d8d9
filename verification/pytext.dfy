/**
 * The few Python string built-ins the repository relies on, restricted to
 * ASCII: `str.isalpha`, `str.upper`, `str.replace` on single characters,
 * `str(int)` and the `Decimal(str)` constructor on the literals `str(int)`
 * can produce.
 */
module PyText {
  import opened Wrappers

  // ---------------------------------------------------------------------------
  // Characters

  /** `c.isalpha()` for an ASCII character. */
  predicate IsLetter(c: char) {
    ('a' <= c <= 'z') || ('A' <= c <= 'Z')
  }

  predicate IsDigit(c: char) {
    '0' <= c <= '9'
  }

  /** `c.upper()` for an ASCII character; every other character is kept. */
  function UpperChar(c: char): char {
    if 'a' <= c <= 'z' then (c as int - 32) as char else c
  }

  /**
   * `s.upper()` under the ASCII assumption: no lower-case letter remains,
   * each one becomes its capital, and every other character is kept.
   */
  function Upper(s: string): (u: string)
    ensures |u| == |s|
    ensures forall i :: 0 <= i < |u| ==> !('a' <= u[i] <= 'z')
    ensures forall i :: 0 <= i < |s| && !('a' <= s[i] <= 'z') ==> u[i] == s[i]
    ensures forall i :: 0 <= i < |s| && 'a' <= s[i] <= 'z' ==> u[i] as int == s[i] as int - 32
  {
    seq(|s|, i requires 0 <= i < |s| => UpperChar(s[i]))
  }

  /**
   * `s.replace(a, b)` for single characters `a` and `b`: no `a` is left
   * (unless `b` is `a`), each `a` becomes `b`, and every other character is
   * kept in place.
   */
  function ReplaceChar(s: string, a: char, b: char): (t: string)
    ensures |t| == |s|
    ensures a != b ==> a !in t
    ensures forall i :: 0 <= i < |s| && s[i] != a ==> t[i] == s[i]
    ensures forall i :: 0 <= i < |s| && s[i] == a ==> t[i] == b
  {
    seq(|s|, i requires 0 <= i < |s| => if s[i] == a then b else s[i])
  }

  /** Two characters that are equal up to ASCII case. */
  predicate SameLetterIgnoringCase(a: char, b: char) {
    a == b || (IsLetter(a) && IsLetter(b) && (a as int - b as int == 32 || b as int - a as int == 32))
  }

  /** Two strings that are equal up to ASCII case, position by position. */
  predicate EqualIgnoringCase(s: string, t: string) {
    |s| == |t| && forall i :: 0 <= i < |s| ==> SameLetterIgnoringCase(s[i], t[i])
  }

  /** Upper-casing identifies exactly the strings that differ only in ASCII case. */
  lemma UpperEqualIff(s: string, t: string)
    ensures Upper(s) == Upper(t) <==> EqualIgnoringCase(s, t)
  {
    if Upper(s) == Upper(t) {
      forall i | 0 <= i < |s|
        ensures SameLetterIgnoringCase(s[i], t[i])
      {
        assert Upper(s)[i] == Upper(t)[i];
      }
    }
    if EqualIgnoringCase(s, t) {
      forall i | 0 <= i < |s|
        ensures Upper(s)[i] == Upper(t)[i]
      {
        assert SameLetterIgnoringCase(s[i], t[i]);
      }
    }
  }

  lemma UpperIdempotent(s: string)
    ensures Upper(Upper(s)) == Upper(s)
  {
  }

  // ---------------------------------------------------------------------------
  // str(int)

  function Pow10(n: nat): (p: nat)
    ensures p >= 1
  {
    if n == 0 then 1 else 10 * Pow10(n - 1)
  }

  /** Number of decimal digits of `n`; zero is written with one digit. */
  function NumDigits(n: nat): (k: nat)
    ensures k >= 1
  {
    if n < 10 then 1 else 1 + NumDigits(n / 10)
  }

  function DigitChar(d: nat): char
    requires d < 10
  {
    ('0' as int + d) as char
  }

  function DigitValue(c: char): nat
    requires IsDigit(c)
  {
    c as int - '0' as int
  }

  /** `str(n)` for a non-negative integer: its digits without leading zeros. */
  function DigitString(n: nat): (s: string)
    ensures |s| >= 1
  {
    if n < 10 then [DigitChar(n)] else DigitString(n / 10) + [DigitChar(n % 10)]
  }

  /**
   * `str(i)` for any integer: the digits of |i|, preceded by "-" exactly
   * when i is negative.
   */
  function PyStr(i: int): (s: string)
    ensures |s| >= 1
    ensures i >= 0 ==> AllDigits(s) && DigitsValue(s) == i && |s| == NumDigits(i)
    ensures i < 0 ==> s[0] == '-' && AllDigits(s[1..]) && DigitsValue(s[1..]) == -i && |s| == NumDigits(-i) + 1
  {
    if i < 0 then
      DigitStringDenotes(-i);
      assert ("-" + DigitString(-i))[1..] == DigitString(-i);
      "-" + DigitString(-i)
    else
      DigitStringDenotes(i);
      DigitString(i)
  }

  predicate AllDigits(s: string) {
    forall i :: 0 <= i < |s| ==> IsDigit(s[i])
  }

  /** The natural number a string of decimal digits denotes. */
  function DigitsValue(s: string): nat
    requires AllDigits(s)
  {
    if |s| == 0 then 0 else 10 * DigitsValue(s[..|s| - 1]) + DigitValue(s[|s| - 1])
  }

  /** `n` is below 10 to the power of its digit count. */
  lemma {:induction false} BelowPow10(n: nat)
    ensures n < Pow10(NumDigits(n))
  {
    if n >= 10 {
      BelowPow10(n / 10);
    }
  }

  /** `str(n)` is a string of exactly NumDigits(n) digits denoting `n`. */
  lemma {:induction false} DigitStringDenotes(n: nat)
    ensures AllDigits(DigitString(n))
    ensures |DigitString(n)| == NumDigits(n)
    ensures DigitsValue(DigitString(n)) == n
  {
    var s := DigitString(n);
    if n >= 10 {
      var p := DigitString(n / 10);
      DigitStringDenotes(n / 10);
      assert s == p + [DigitChar(n % 10)];
      assert s[..|s| - 1] == p;
    }
  }

  // ---------------------------------------------------------------------------
  // Decimal(str)

  /** Index of the first '.' in `s`, or |s| when there is none. */
  function IndexOfDot(s: string): (k: nat)
    ensures k <= |s|
    ensures k < |s| ==> s[k] == '.'
    ensures forall i :: 0 <= i < k ==> s[i] != '.'
  {
    if |s| == 0 then 0 else if s[0] == '.' then 0 else 1 + IndexOfDot(s[1..])
  }

  /**
   * `Decimal(s)` for the plain decimal literals: an optional sign, digits, an
   * optional point followed by digits, at least one digit in all. Any other
   * text (such as "None" or ".-5") raises InvalidOperation, modelled as None.
   * Exponents, "NaN", "Infinity", whitespace and underscores are not modelled:
   * the literals built from `str(int)` never contain them.
   */
  function ParseDecimal(s: string): (r: Option<real>)
    ensures r.Some? ==> exists i :: 0 <= i < |s| && IsDigit(s[i])
    ensures |s| > 0 && AllDigits(s) ==> r == Some(DigitsValue(s) as real)
  {
    var negative := |s| > 0 && s[0] == '-';
    var body := if |s| > 0 && (s[0] == '-' || s[0] == '+') then s[1..] else s;
    var k := IndexOfDot(body);
    var whole := body[..k];
    var fraction := if k < |body| then body[k + 1..] else "";
    assert |s| > 0 && AllDigits(s) ==> body == s && whole == s && fraction == "" by {
      if |s| > 0 && AllDigits(s) {
        DigitsHaveNoDot(s);
        assert s[..|s|] == s;
      }
    }
    if AllDigits(whole) && AllDigits(fraction) && |whole| + |fraction| > 0 then
      assert exists i :: 0 <= i < |s| && IsDigit(s[i]) by {
        var offset := |s| - |body|;
        if |whole| > 0 {
          assert s[offset] == whole[0];
        } else {
          assert s[offset + k + 1] == fraction[0];
        }
      }
      var magnitude := DigitsValue(whole) as real
                       + DigitsValue(fraction) as real / Pow10(|fraction|) as real;
      Some(if negative then -magnitude else magnitude)
    else
      None
  }

  /** A string of digits contains no '.'. */
  lemma DigitsHaveNoDot(s: string)
    requires AllDigits(s)
    ensures IndexOfDot(s) == |s|
  {
  }

  /** Decimal(str(i)) == i: the literal `str` writes is read back exactly. */
  lemma IntLiteralRoundTrip(i: int)
    ensures ParseDecimal(PyStr(i)) == Some(i as real)
  {
    var n: nat := if i < 0 then -i else i;
    DigitStringDenotes(n);
    DigitsHaveNoDot(DigitString(n));
    var body := DigitString(n);
    assert body[..|body|] == body;
    if i < 0 {
      assert PyStr(i)[1..] == body;
    }
  }

  /**
   * Decimal('.' + str(n)) for a non-negative `n` is n divided by 10 to the
   * power of its digit count: the digits are read as written after the point.
   */
  lemma FractionLiteral(n: nat)
    ensures ParseDecimal("." + PyStr(n)) == Some(n as real / Pow10(NumDigits(n)) as real)
  {
    var digits := PyStr(n);
    var s := "." + digits;
    assert IndexOfDot(s) == 0;
    assert s[..0] == "";
    assert s[1..] == digits;
    assert !(|s| > 0 && (s[0] == '-' || s[0] == '+'));
    assert ParseDecimal(s) == Some(0 as real + DigitsValue(digits) as real / Pow10(|digits|) as real);
  }

  /** Decimal('.' + str(i)) raises for a negative `i`: ".-5" is not a literal. */
  lemma NegativeFractionLiteral(i: int)
    requires i < 0
    ensures ParseDecimal("." + PyStr(i)) == None
  {
    var s := "." + PyStr(i);
    assert IndexOfDot(s) == 0;
    assert s[1] == '-';
    assert !AllDigits(s[1..]) by { assert !IsDigit(s[1..][0]); }
  }
}

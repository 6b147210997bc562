/** The few PHP value semantics the behaviour relies on: array keys (a string
    that spells a canonical decimal integer becomes an integer key),
    `is_numeric`, `empty()` on strings, `strpos(..) === 0` and `str_replace`
    with an empty replacement. */
module Php {

  /** A PHP array key: integers and strings are the only kinds. */
  datatype Key = IntKey(i: int) | StrKey(s: string)

  predicate IsDigit(c: char) { '0' <= c <= '9' }

  predicate AllDigits(s: string) {
    forall i :: 0 <= i < |s| ==> IsDigit(s[i])
  }

  function DigitValue(c: char): nat
    requires IsDigit(c)
  {
    (c as int) - ('0' as int)
  }

  function DigitChar(d: nat): char
    requires d < 10
  {
    (('0' as int) + d) as char
  }

  /** Decimal value of a run of digits. */
  function ParseNat(s: string): nat
    requires AllDigits(s)
    decreases |s|
  {
    if |s| == 0 then 0 else ParseNat(s[..|s| - 1]) * 10 + DigitValue(s[|s| - 1])
  }

  /** Shortest decimal spelling of `n`: digits only, and a leading zero only for zero itself. */
  function NatToString(n: nat): (r: string)
    ensures |r| > 0 && AllDigits(r)
    ensures n == 0 <==> r == "0"
    ensures n > 0 ==> r[0] != '0'
    decreases n
  {
    if n < 10 then [DigitChar(n)] else NatToString(n / 10) + [DigitChar(n % 10)]
  }

  /** Digits without a superfluous leading zero. */
  predicate IsDigitRun(t: string) {
    |t| > 0 && AllDigits(t) && (t[0] != '0' || t == "0")
  }

  /** The strings PHP turns into integer keys: "0", "17", "-3", but not "-0", "07" or "+1".
      (PHP also leaves strings beyond the 64-bit range as strings; see README.) */
  predicate IsCanonicalInt(s: string) {
    || (IsDigitRun(s))
    || (|s| > 1 && s[0] == '-' && IsDigitRun(s[1..]) && s[1] != '0')
  }

  function ParseInt(s: string): int
    requires IsCanonicalInt(s)
  {
    if s[0] == '-' then -(ParseNat(s[1..]) as int) else ParseNat(s)
  }

  function IntToString(i: int): string {
    if i < 0 then "-" + NatToString(-i) else NatToString(i)
  }

  /** A key PHP can actually hold: a string key never spells a canonical integer. */
  predicate ValidKey(k: Key) {
    k.StrKey? ==> !IsCanonicalInt(k.s)
  }

  /** The key `$array[$s]` addresses. */
  function ToKey(s: string): (k: Key)
    ensures ValidKey(k)
    ensures k.IntKey? <==> IsCanonicalInt(s)
  {
    if IsCanonicalInt(s) then IntKey(ParseInt(s)) else StrKey(s)
  }

  /** The string a key converts to (`(string) $key`). */
  function KeyToString(k: Key): string {
    match k
    case IntKey(i) => IntToString(i)
    case StrKey(s) => s
  }

  lemma {:induction false} ParseNatOfNatToString(n: nat)
    ensures ParseNat(NatToString(n)) == n
    decreases n
  {
    if n >= 10 {
      var p := NatToString(n / 10);
      var s := p + [DigitChar(n % 10)];
      assert s[..|s| - 1] == p;
      ParseNatOfNatToString(n / 10);
    }
  }

  lemma {:induction false} ParseNatPositive(s: string)
    requires |s| > 0 && AllDigits(s) && s[0] != '0'
    ensures ParseNat(s) > 0
    decreases |s|
  {
    if |s| > 1 {
      ParseNatPositive(s[..|s| - 1]);
    }
  }

  lemma {:induction false} NatToStringOfParseNat(s: string)
    requires IsDigitRun(s)
    ensures NatToString(ParseNat(s)) == s
    decreases |s|
  {
    if |s| > 1 {
      var p := s[..|s| - 1];
      var d := DigitValue(s[|s| - 1]);
      ParseNatPositive(p);
      NatToStringOfParseNat(p);
      var n := ParseNat(s);
      assert n == ParseNat(p) * 10 + d;
      assert n / 10 == ParseNat(p) && n % 10 == d;
      assert DigitChar(d) == s[|s| - 1];
      assert s == p + [s[|s| - 1]];
    }
  }

  /** Printing an integer yields a string PHP reads back as that same integer key. */
  lemma IntToStringIsCanonical(i: int)
    ensures IsCanonicalInt(IntToString(i))
    ensures ParseInt(IntToString(i)) == i
  {
    if i < 0 {
      var t := NatToString(-i);
      assert IntToString(i)[1..] == t;
      ParseNatOfNatToString(-i);
    } else {
      ParseNatOfNatToString(i);
    }
  }

  /** Converting a key to a string and using that string as a key gives the key back. */
  lemma KeyStringRoundTrip(k: Key)
    requires ValidKey(k)
    ensures ToKey(KeyToString(k)) == k
  {
    if k.IntKey? {
      IntToStringIsCanonical(k.i);
    }
  }

  /** A string used as a key and converted back is the same string. */
  lemma StringKeyRoundTrip(s: string)
    ensures KeyToString(ToKey(s)) == s
  {
    if IsCanonicalInt(s) {
      if s[0] == '-' {
        var t := s[1..];
        NatToStringOfParseNat(t);
        ParseNatPositive(t);
        assert s == "-" + t;
      } else {
        NatToStringOfParseNat(s);
      }
    }
  }

  // ---------------------------------------------------------------------
  // is_numeric (PHP 7 grammar)

  /** Whitespace PHP skips in front of a numeric string: space, \t, \n, \v, \f, \r. */
  predicate IsWhitespace(c: char) {
    c == ' ' || c == '\t' || c == '\n' || c == '\r' || c as int == 11 || c as int == 12
  }

  function SkipWhitespace(s: string): (r: string)
    ensures |r| <= |s| && r == s[|s| - |r|..]
    ensures |r| > 0 ==> !IsWhitespace(r[0])
    ensures |s| > 0 && !IsWhitespace(s[0]) ==> r == s
    decreases |s|
  {
    if |s| > 0 && IsWhitespace(s[0]) then SkipWhitespace(s[1..]) else s
  }

  /** Length of the run of digits at the front of `s`. */
  function LeadingDigits(s: string): (n: nat)
    ensures n <= |s| && AllDigits(s[..n])
    ensures n < |s| ==> !IsDigit(s[n])
    decreases |s|
  {
    if |s| > 0 && IsDigit(s[0]) then
      var n := 1 + LeadingDigits(s[1..]);
      assert s[..n] == [s[0]] + s[1..][..n - 1];
      n
    else 0
  }

  /** Nothing, or `e`/`E`, an optional sign and at least one digit. */
  predicate IsExponentOrEnd(e: string) {
    |e| == 0
    || (|e| >= 2 && (e[0] == 'e' || e[0] == 'E') &&
        var x := if e[1] == '+' || e[1] == '-' then e[2..] else e[1..];
        |x| > 0 && AllDigits(x))
  }

  /** `digits [. digits]` or `. digits`, then an optional exponent. */
  predicate IsUnsignedNumber(u: string) {
    var d := LeadingDigits(u);
    var rest := u[d..];
    if |rest| > 0 && rest[0] == '.' then
      var f := LeadingDigits(rest[1..]);
      d + f > 0 && IsExponentOrEnd(rest[1..][f..])
    else
      d > 0 && IsExponentOrEnd(rest)
  }

  /** PHP 7's `is_numeric` on a string: optional leading whitespace and sign,
      then a decimal number. */
  predicate IsNumericString(s: string) {
    IsUnsignedNumber(Unsigned(s))
  }

  /** Trailing whitespace is not allowed: a numeric string ends in a digit
      or a decimal point. */
  lemma NumericStringEnd(s: string)
    ensures IsNumericString(s) ==> |s| > 0 && (IsDigit(s[|s| - 1]) || s[|s| - 1] == '.')
    ensures IsNumericString(s) ==> !IsWhitespace(s[|s| - 1])
  {
    UnsignedNumberEnd(Unsigned(s));
  }

  /** What follows the leading whitespace and the sign: a suffix of `s`. */
  function Unsigned(s: string): (u: string)
    ensures |u| <= |s|
    ensures |u| > 0 ==> u[|u| - 1] == s[|s| - 1]
  {
    var t := SkipWhitespace(s);
    assert |t| > 0 ==> t[|t| - 1] == s[|s| - 1] by {
      if |t| > 0 { assert t == s[|s| - |t|..]; }
    }
    if |t| > 0 && (t[0] == '+' || t[0] == '-') then t[1..] else t
  }

  /** A number ends in a digit, or in the point of `5.`. */
  lemma UnsignedNumberEnd(u: string)
    ensures IsUnsignedNumber(u) ==> |u| > 0 && (IsDigit(u[|u| - 1]) || u[|u| - 1] == '.')
  {
    if IsUnsignedNumber(u) {
      var d := LeadingDigits(u);
      if d < |u| && u[d] == '.' {
        FractionEnd(u, d);
      } else if d < |u| {
        ExponentEnd(u[d..]);
        LastOfSuffix(u, d);
      } else {
        assert u[..d][d - 1] == u[|u| - 1];
      }
    }
  }

  lemma FractionEnd(u: string, d: nat)
    requires d == LeadingDigits(u) && d < |u| && u[d] == '.' && IsUnsignedNumber(u)
    ensures IsDigit(u[|u| - 1]) || u[|u| - 1] == '.'
  {
    var r := u[d + 1..];
    FractionTail(u, d);
    DigitsThenExponentEnd(r);
    if |r| > 0 {
      LastOfSuffix(u, d + 1);
    }
  }

  /** After the point of a number: digits, then nothing or an exponent. */
  lemma FractionTail(u: string, d: nat)
    requires d == LeadingDigits(u) && d < |u| && u[d] == '.' && IsUnsignedNumber(u)
    ensures IsExponentOrEnd(u[d + 1..][LeadingDigits(u[d + 1..])..])
  {
    assert u[d..][0] == '.' && u[d..][1..] == u[d + 1..];
  }

  /** Digits followed by nothing or an exponent end in a digit, if they are not empty. */
  lemma DigitsThenExponentEnd(r: string)
    requires IsExponentOrEnd(r[LeadingDigits(r)..])
    ensures |r| > 0 ==> IsDigit(r[|r| - 1])
  {
    var f := LeadingDigits(r);
    if f < |r| {
      ExponentEnd(r[f..]);
      LastOfSuffix(r, f);
    } else if f > 0 {
      assert r[..f][f - 1] == r[|r| - 1];
    }
  }

  lemma LastOfSuffix(u: string, k: nat)
    requires k < |u|
    ensures u[k..][|u| - k - 1] == u[|u| - 1]
  {
  }

  lemma ExponentEnd(e: string)
    requires |e| > 0 && IsExponentOrEnd(e)
    ensures IsDigit(e[|e| - 1])
  {
    var x := if e[1] == '+' || e[1] == '-' then e[2..] else e[1..];
    assert e[|e| - 1] == x[|x| - 1];
  }

  /** Spellings PHP 7's `is_numeric` accepts. */
  lemma NumericStringExamples()
    ensures IsNumericString(" 5") && IsNumericString("1e3") && IsNumericString(".5") && IsNumericString("1.")
    ensures IsNumericString("-7")
  {
    LeadingSpace();
    PlainExponent();
    FractionOnly();
    TrailingPoint();
    NegativeDigit();
  }

  /** Spellings PHP 7's `is_numeric` rejects: trailing whitespace, hexadecimal,
      a lone point, the empty string, a word, an exponent without digits. */
  lemma NonNumericStringExamples()
    ensures !IsNumericString("5 ") && !IsNumericString("0x1A") && !IsNumericString(".") && !IsNumericString("")
    ensures !IsNumericString("foo") && !IsNumericString("1e")
  {
    TrailingSpace();
    Hexadecimal();
    LonePoint();
    Word();
    EmptyExponent();
  }

  lemma TrailingSpace()
    ensures !IsNumericString("5 ")
  {
    NumericStringEnd("5 ");
    assert IsWhitespace("5 "[1]);
  }

  lemma LeadingSpace()
    ensures IsNumericString(" 5")
  {
    var s := " 5";
    assert s[1..] == "5";
    assert IsWhitespace(s[0]);
    assert SkipWhitespace(s) == SkipWhitespace("5");
    assert !IsWhitespace("5"[0]);
    assert Unsigned(s) == "5";
    IntegerWithExponent("5", "");
    assert "5" + "" == "5";
  }

  lemma PlainExponent()
    ensures IsNumericString("1e3")
  {
    UnsignedPlain("1e3");
    assert IsExponentOrEnd("e3") by { assert "e3"[1..] == "3"; }
    IntegerWithExponent("1", "e3");
    assert "1" + "e3" == "1e3";
  }

  lemma FractionOnly()
    ensures IsNumericString(".5")
  {
    UnsignedPlain(".5");
    Decimal("", "5", "");
    assert "" + "." + "5" + "" == ".5";
  }

  lemma TrailingPoint()
    ensures IsNumericString("1.")
  {
    UnsignedPlain("1.");
    Decimal("1", "", "");
    assert "1" + "." + "" + "" == "1.";
  }

  lemma NegativeDigit()
    ensures IsNumericString("-7")
  {
    SignedPlain("-7");
    assert "-7"[1..] == "7";
    IntegerWithExponent("7", "");
    assert "7" + "" == "7";
  }

  lemma Hexadecimal()
    ensures !IsNumericString("0x1A")
  {
    var u := "0x1A";
    UnsignedPlain(u);
    LeadingDigitsAppend("0", "x1A");
    assert "0" + "x1A" == u;
    assert u[1..] == "x1A";
  }

  lemma LonePoint()
    ensures !IsNumericString(".")
  {
    var u := ".";
    UnsignedPlain(u);
    assert LeadingDigits(u) == 0;
    assert u[0..] == u && u[1..] == [];
    assert LeadingDigits([]) == 0;
  }

  lemma Word()
    ensures !IsNumericString("foo")
  {
    UnsignedPlain("foo");
    assert LeadingDigits("foo") == 0;
  }

  lemma EmptyExponent()
    ensures !IsNumericString("1e")
  {
    var u := "1e";
    UnsignedPlain(u);
    LeadingDigitsAppend("1", "e");
    assert "1" + "e" == u;
    assert u[1..] == "e";
  }

  /** A sign at the front is dropped. */
  lemma SignedPlain(s: string)
    requires |s| > 0 && (s[0] == '+' || s[0] == '-')
    ensures Unsigned(s) == s[1..]
  {
  }

  /** A string that starts with neither whitespace nor a sign is its own number part. */
  lemma UnsignedPlain(s: string)
    requires |s| > 0 && !IsWhitespace(s[0]) && s[0] != '+' && s[0] != '-'
    ensures Unsigned(s) == s
  {
  }

  lemma {:induction false} LeadingDigitsAppend(dg: string, e: string)
    requires AllDigits(dg) && (|e| == 0 || !IsDigit(e[0]))
    ensures LeadingDigits(dg + e) == |dg|
    decreases |dg|
  {
    if |dg| > 0 {
      assert (dg + e)[1..] == dg[1..] + e;
      LeadingDigitsAppend(dg[1..], e);
    } else {
      assert dg + e == e;
    }
  }

  /** Digits, then nothing or an exponent. */
  lemma IntegerWithExponent(dg: string, e: string)
    requires |dg| > 0 && AllDigits(dg) && IsExponentOrEnd(e)
    ensures IsUnsignedNumber(dg + e)
  {
    LeadingDigitsAppend(dg, e);
    assert (dg + e)[|dg|..] == e;
  }

  /** Digits, a point, digits (not both runs empty), then nothing or an exponent. */
  lemma Decimal(dg: string, fr: string, e: string)
    requires AllDigits(dg) && AllDigits(fr) && |dg| + |fr| > 0 && IsExponentOrEnd(e)
    ensures IsUnsignedNumber(dg + "." + fr + e)
  {
    var tail := "." + fr + e;
    var u := dg + tail;
    assert dg + "." + fr + e == u;
    LeadingDigitsAppend(dg, tail);
    assert u[|dg|..] == tail;
    FractionAfterPoint(fr, e);
  }

  lemma FractionAfterPoint(fr: string, e: string)
    requires AllDigits(fr) && IsExponentOrEnd(e)
    ensures var tail := "." + fr + e;
            tail[0] == '.' && LeadingDigits(tail[1..]) == |fr| && tail[1..][|fr|..] == e
  {
    var tail := "." + fr + e;
    assert tail[1..] == fr + e;
    LeadingDigitsAppend(fr, e);
    assert (fr + e)[|fr|..] == e;
  }

  /** `is_numeric($key)`: integer keys always, string keys by their spelling. */
  predicate IsNumericKey(k: Key) {
    k.IntKey? || IsNumericString(k.s)
  }

  lemma AllDigitsAreNumber(u: string)
    requires |u| > 0 && AllDigits(u)
    ensures IsUnsignedNumber(u)
  {
    var d := LeadingDigits(u);
    assert d == |u|;
    assert u[d..] == [];
  }

  /** Every string PHP turns into an integer key is also numeric. */
  lemma CanonicalIntIsNumeric(s: string)
    requires IsCanonicalInt(s)
    ensures IsNumericString(s)
  {
    assert !IsWhitespace(s[0]);
    assert SkipWhitespace(s) == s;
    if s[0] == '-' {
      AllDigitsAreNumber(s[1..]);
    } else {
      AllDigitsAreNumber(s);
    }
  }

  /** A non-numeric string addresses a string key, and that key is not numeric. */
  lemma NonNumericStringKey(s: string)
    requires !IsNumericString(s)
    ensures ToKey(s) == StrKey(s)
    ensures !IsNumericKey(ToKey(s))
  {
    if IsCanonicalInt(s) {
      CanonicalIntIsNumeric(s);
    }
  }

  // ---------------------------------------------------------------------
  // Strings

  /** `empty($s)` for a string: only "" and "0" are empty. */
  predicate IsEmptyString(s: string) {
    s == "" || s == "0"
  }

  /** Whether `pat` occurs anywhere in `s`. */
  predicate Occurs(pat: string, s: string) {
    exists i :: 0 <= i <= |s| - |pat| && pat <= s[i..]
  }

  /** `str_replace($pat, '', $s)`: one left-to-right scan deleting non-overlapping occurrences. */
  function RemoveAll(s: string, pat: string): (r: string)
    requires |pat| > 0
    ensures |r| <= |s|
    decreases |s|
  {
    if |s| == 0 then s
    else if pat <= s then RemoveAll(s[|pat|..], pat)
    else [s[0]] + RemoveAll(s[1..], pat)
  }

  /** Removing a pattern from a string that does not contain it changes nothing. */
  lemma {:induction false} RemoveAllAbsent(s: string, pat: string)
    requires |pat| > 0 && !Occurs(pat, s)
    ensures RemoveAll(s, pat) == s
    decreases |s|
  {
    if |s| > 0 {
      assert s[0..] == s;
      forall i | 0 <= i <= |s[1..]| - |pat|
        ensures !(pat <= s[1..][i..])
      {
        assert s[1..][i..] == s[i + 1..];
      }
      RemoveAllAbsent(s[1..], pat);
      assert s == [s[0]] + s[1..];
    }
  }

  /** The prefix checked by `strpos` is removed, and the rest is scanned as usual. */
  lemma RemoveAllPrefix(pat: string, x: string)
    requires |pat| > 0
    ensures RemoveAll(pat + x, pat) == RemoveAll(x, pat)
  {
    assert pat <= pat + x;
    assert (pat + x)[|pat|..] == x;
  }
}

/**
 * Decimal text of unsigned integers, as the C++ library writes it
 * (std::to_string) and reads it back (std::stoul, std::stoull).
 */
module Decimal {
  import opened Wrappers

  predicate IsDigit(c: char)
  {
    '0' <= c <= '9'
  }

  predicate AllDigits(s: string)
  {
    forall k :: 0 <= k < |s| ==> IsDigit(s[k])
  }

  function DigitChar(d: nat): (c: char)
    requires d < 10
    ensures IsDigit(c)
  {
    ('0' as int + d) as char
  }

  function DigitValue(c: char): (d: nat)
    requires IsDigit(c)
    ensures d < 10
  {
    c as int - '0' as int
  }

  /** The decimal text of `n`: digits only, most significant first, no leading zero. */
  function NatToString(n: nat): (s: string)
    ensures s != [] && AllDigits(s)
    ensures |s| > 1 ==> s[0] != '0'
  {
    if n < 10 then [DigitChar(n)] else NatToString(n / 10) + [DigitChar(n % 10)]
  }

  /** The number a run of decimal digits denotes. */
  function DigitsValue(s: string): nat
    requires AllDigits(s)
  {
    if s == [] then 0 else 10 * DigitsValue(s[..|s| - 1]) + DigitValue(s[|s| - 1])
  }

  /** Reading back the decimal text of `n` gives `n`. */
  lemma {:induction false} DigitsOfNatToString(n: nat)
    ensures DigitsValue(NatToString(n)) == n
  {
    var s := NatToString(n);
    if n >= 10 {
      DigitsOfNatToString(n / 10);
      assert s[..|s| - 1] == NatToString(n / 10);
    }
  }

  /** Distinct numbers have distinct decimal texts. */
  lemma NatToStringInjective(m: nat, n: nat)
    requires NatToString(m) == NatToString(n)
    ensures m == n
  {
    DigitsOfNatToString(m);
    DigitsOfNatToString(n);
  }

  /** The length of the longest prefix of `s` made of decimal digits. */
  function DigitRun(s: string): (n: nat)
    ensures n <= |s| && AllDigits(s[..n])
    ensures n < |s| ==> !IsDigit(s[n])
  {
    if s == [] || !IsDigit(s[0]) then 0
    else
      var m := DigitRun(s[1..]);
      assert s[..m + 1] == [s[0]] + s[1..][..m];
      1 + m
  }

  lemma {:induction false} DigitRunOfDigits(s: string)
    requires AllDigits(s)
    ensures DigitRun(s) == |s|
    decreases |s|
  {
    if s != [] {
      DigitRunOfDigits(s[1..]);
    }
  }

  datatype ParseError = InvalidArgument | OutOfRange

  /** The characters isspace accepts in the C locale. */
  predicate IsSpace(c: char)
  {
    c == ' ' || c == '\t' || c == '\n' || c == '\U{B}' || c == '\U{C}' || c == '\r'
  }

  /** The text after its leading white space. */
  function DropSpaces(s: string): (r: string)
    ensures |r| <= |s| && r == s[|s| - |r|..]
    ensures r != [] ==> !IsSpace(r[0])
  {
    if s != [] && IsSpace(s[0]) then DropSpaces(s[1..]) else s
  }

  /**
   * std::stoul / std::stoull with an unsigned range of 0..max: white space
   * is skipped, an optional '+' or '-' is read, then the longest run of
   * digits; the rest is ignored. No digit raises invalid_argument, a value
   * above `max` raises out_of_range, and a '-' negates the value modulo
   * max + 1.
   */
  function ParseUnsigned(s: string, max: nat): (r: Result<nat, ParseError>)
    ensures r.Success? ==> r.value <= max
  {
    var t := DropSpaces(s);
    var negative := t != [] && t[0] == '-';
    var u := if t != [] && (t[0] == '+' || t[0] == '-') then t[1..] else t;
    var n := DigitRun(u);
    if n == 0 then Failure(InvalidArgument)
    else
      var v := DigitsValue(u[..n]);
      if v > max then Failure(OutOfRange)
      else if negative && v > 0 then Success(max + 1 - v)
      else Success(v)
  }

  /** Text without any digit after its optional sign is rejected as invalid. */
  lemma ParseWithoutDigits(s: string, max: nat)
    requires s == [] || (!IsDigit(s[0]) && !IsSpace(s[0]) && s[0] != '+' && s[0] != '-')
    ensures ParseUnsigned(s, max) == Failure(InvalidArgument)
  {
  }

  /** Reading the decimal text of any `n <= max` gives back `n`. */
  lemma ParseNatToString(n: nat, max: nat)
    requires n <= max
    ensures ParseUnsigned(NatToString(n), max) == Success(n)
  {
    var s := NatToString(n);
    DigitRunOfDigits(s);
    assert s[..|s|] == s;
    DigitsOfNatToString(n);
  }

  /** Reading "-" and the decimal text of 0 < n <= max gives max + 1 - n, the negation modulo max + 1. */
  lemma ParseNegated(n: nat, max: nat)
    requires 0 < n <= max
    ensures ParseUnsigned("-" + NatToString(n), max) == Success(max + 1 - n)
  {
    var s := NatToString(n);
    var t := "-" + s;
    assert t[0] == '-' && !IsSpace(t[0]);
    assert DropSpaces(t) == t;
    assert t[1..] == s;
    DigitRunOfDigits(s);
    assert s[..|s|] == s;
    DigitsOfNatToString(n);
  }
}

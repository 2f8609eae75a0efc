/**
 * Decimal numbers as text: the page number and limit written into the request URL,
 * and JavaScript's `parseInt` applied to the total-count header (radix 10 only).
 */
module Decimal {

  /** A JavaScript number produced by `parseInt`: an integer or NaN. */
  datatype ParsedInt = Int(value: int) | NaN

  predicate IsDigit(c: char) {
    '0' <= c <= '9'
  }

  predicate AllDigits(s: string) {
    forall i :: 0 <= i < |s| ==> IsDigit(s[i])
  }

  function DigitValue(c: char): (d: nat)
    requires IsDigit(c)
    ensures d < 10
  {
    c as int - '0' as int
  }

  function DigitChar(d: nat): (c: char)
    requires d < 10
    ensures IsDigit(c) && DigitValue(c) == d
  {
    ('0' as int + d) as char
  }

  /** The decimal text of `n` as a template literal writes it: no sign, no leading zero. */
  function Show(n: nat): (s: string)
    ensures |s| >= 1 && AllDigits(s)
    ensures s[0] == '0' ==> n == 0
    decreases n
  {
    if n < 10 then [DigitChar(n)] else Show(n / 10) + [DigitChar(n % 10)]
  }

  /** The number a string of decimal digits denotes, most significant digit first. */
  function ValueOf(ds: string): (v: nat)
    requires AllDigits(ds)
  {
    if ds == [] then 0 else ValueOf(ds[..|ds| - 1]) * 10 + DigitValue(ds[|ds| - 1])
  }

  /** The length of the run of digits at the front of `s`. */
  function DigitRun(s: string): (k: nat)
    ensures k <= |s| && AllDigits(s[..k])
    ensures k < |s| ==> !IsDigit(s[k])
  {
    if s != [] && IsDigit(s[0]) then
      assert s[..1 + DigitRun(s[1..])] == [s[0]] + s[1..][..DigitRun(s[1..])];
      1 + DigitRun(s[1..])
    else 0
  }

  /** The ASCII white space `parseInt` skips: space, tab, line feed, vertical tab, form feed, carriage return. */
  predicate IsSpace(c: char) {
    c == ' ' || 9 <= c as int <= 13
  }

  function SkipSpace(s: string): (t: string)
    ensures |t| <= |s| && t == s[|s| - |t|..]
    ensures t != [] ==> !IsSpace(t[0])
  {
    if s != [] && IsSpace(s[0]) then SkipSpace(s[1..]) else s
  }

  /** The text after an optional leading `+` or `-`. */
  function Unsigned(t: string): string {
    if t != [] && (t[0] == '-' || t[0] == '+') then t[1..] else t
  }

  predicate StartsWithDigit(s: string) {
    s != [] && IsDigit(s[0])
  }

  /**
   * `parseInt(s)`: skip leading white space, read an optional sign, then the longest run of
   * decimal digits; NaN when that run is empty. Whatever follows the digits is ignored.
   */
  function ParseInt(s: string): (r: ParsedInt)
    ensures s == [] ==> r == NaN
    ensures s != [] && IsDigit(s[0]) ==> r.Int? && r.value >= 0
  {
    var t := SkipSpace(s);
    var signed := t != [] && (t[0] == '-' || t[0] == '+');
    var body := if signed then t[1..] else t;
    var k := DigitRun(body);
    if k == 0 then NaN
    else if signed && t[0] == '-' then Int(-(ValueOf(body[..k]) as int))
    else Int(ValueOf(body[..k]))
  }

  /** Reading back the decimal text of a number gives the number. */
  lemma {:induction false} ValueOfShow(n: nat)
    ensures ValueOf(Show(n)) == n
    decreases n
  {
    if n >= 10 {
      var s := Show(n);
      assert s[..|s| - 1] == Show(n / 10);
      ValueOfShow(n / 10);
    }
  }

  /** `parseInt` reads a number written by `Show` back, whatever non-digit text follows it. */
  lemma ParseShowFollowed(n: nat, rest: string)
    requires rest == [] || !IsDigit(rest[0])
    ensures ParseInt(Show(n) + rest) == Int(n)
  {
    var s := Show(n) + rest;
    assert SkipSpace(s) == s;
    DigitRunPrefix(Show(n), rest);
    assert s[..|Show(n)|] == Show(n);
    ValueOfShow(n);
  }

  lemma ParseShow(n: nat)
    ensures ParseInt(Show(n)) == Int(n)
  {
    assert Show(n) + [] == Show(n);
    ParseShowFollowed(n, []);
  }

  /** A negative number in decimal text comes back negated. */
  lemma ParseNegative(n: nat)
    ensures ParseInt("-" + Show(n)) == Int(-(n as int))
  {
    ParseMinusDigits(Show(n));
    ValueOfShow(n);
  }

  /** A minus sign followed by digits only parses to the negated value of the digits. */
  lemma ParseMinusDigits(ds: string)
    requires ds != [] && AllDigits(ds)
    ensures ParseInt("-" + ds) == Int(-(ValueOf(ds) as int))
  {
    var s := "-" + ds;
    assert s[0] == '-' && !IsSpace(s[0]);
    assert SkipSpace(s) == s;
    assert s[1..] == ds;
    assert ds + [] == ds;
    DigitRunPrefix(ds, []);
    assert ds[..|ds|] == ds;
  }

  /**
   * Text whose first character after the white space and the optional sign is not a digit
   * is NaN: the empty header, "abc1" and "-x5" for instance.
   */
  lemma ParseNoLeadingDigit(s: string)
    requires !StartsWithDigit(Unsigned(SkipSpace(s)))
    ensures ParseInt(s) == NaN
  {
    assert DigitRun(Unsigned(SkipSpace(s))) == 0;
  }

  lemma {:induction false} DigitRunPrefix(ds: string, rest: string)
    requires AllDigits(ds)
    requires rest == [] || !IsDigit(rest[0])
    ensures DigitRun(ds + rest) == |ds|
    decreases |ds|
  {
    if ds != [] {
      assert (ds + rest)[1..] == ds[1..] + rest;
      DigitRunPrefix(ds[1..], rest);
    } else {
      assert ds + rest == rest;
    }
  }
}

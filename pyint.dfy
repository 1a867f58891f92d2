/**
 * Python's `str(n)` and `int(s)` on decimal text: the bot writes admin ids into
 * callback tags with an f-string and reads them back, and reads admin ids from its
 * configuration, with these two conversions.
 */
module PyInt {
  import opened Wrappers

  predicate IsDigit(c: char) {
    '0' <= c <= '9'
  }

  /** The ASCII characters `int()` ignores around its argument. */
  predicate IsSpace(c: char) {
    c == ' ' || c == '\t' || c == '\n' || c == '\r' || c == '\U{B}' || c == '\U{C}'
    || ('\U{1C}' <= c <= '\U{1F}')
  }

  predicate AllDigits(s: string) {
    forall i :: 0 <= i < |s| ==> IsDigit(s[i])
  }

  function DigitValue(c: char): (d: nat)
    requires IsDigit(c)
    ensures d < 10
  {
    c as int - '0' as int
  }

  function DigitChar(d: nat): (c: char)
    requires d < 10
    ensures IsDigit(c) && DigitValue(c) == d
  {
    ('0' as int + d) as char
  }

  /** `str(n)` for a non-negative `n`: its decimal digits, no leading zero. */
  function NatToString(n: nat): (s: string)
    ensures |s| >= 1 && AllDigits(s)
    ensures n >= 10 ==> s[0] != '0'
  {
    if n < 10 then [DigitChar(n)] else NatToString(n / 10) + [DigitChar(n % 10)]
  }

  /** `str(n)`: a minus sign for negative numbers, then the digits of `|n|`. */
  function IntToString(n: int): (s: string)
    ensures |s| >= 1 && !IsSpace(s[0]) && IsDigit(s[|s| - 1])
    ensures '_' !in s
    ensures n < 0 <==> s[0] == '-'
  {
    if n < 0 then "-" + NatToString(-n) else NatToString(n)
  }

  /** The number a string of decimal digits denotes. */
  function DigitsValue(s: string): nat
    requires AllDigits(s)
  {
    if s == [] then 0 else DigitsValue(s[..|s| - 1]) * 10 + DigitValue(s[|s| - 1])
  }

  /**
   * The digits of a Python integer literal: at least one digit, single
   * underscores allowed between digits (`1_000`), nothing else.
   */
  predicate IsDigitGroup(b: string) {
    && |b| > 0
    && IsDigit(b[0]) && IsDigit(b[|b| - 1])
    && (forall i :: 0 <= i < |b| ==> IsDigit(b[i]) || b[i] == '_')
    && (forall i :: 0 <= i < |b| - 1 ==> !(b[i] == '_' && b[i + 1] == '_'))
  }

  /** The digits of `b` with its underscores taken out. */
  function Digits(b: string): (r: string)
    requires forall i :: 0 <= i < |b| ==> IsDigit(b[i]) || b[i] == '_'
    ensures AllDigits(r) && |r| <= |b|
  {
    if b == [] then []
    else (if b[0] == '_' then [] else [b[0]]) + Digits(b[1..])
  }

  /** An optional sign followed by a digit group, with nothing around them. */
  function ParseLiteral(t: string): Option<int> {
    if t == [] then None
    else
      var body := if t[0] == '-' || t[0] == '+' then t[1..] else t;
      if !IsDigitGroup(body) then None
      else
        var v: int := DigitsValue(Digits(body));
        Some(if t[0] == '-' then -v else v)
  }

  /**
   * `int(s)` in base 10: `Some(n)` when Python returns `n`, `None` when it
   * raises `ValueError`. White space around the literal is ignored.
   */
  function ParseInt(s: string): Option<int>
    decreases |s|
  {
    if s != [] && IsSpace(s[0]) then ParseInt(s[1..])
    else if s != [] && IsSpace(s[|s| - 1]) then ParseInt(s[..|s| - 1])
    else ParseLiteral(s)
  }

  /** `int` rejects a text of white space only, the empty text included. */
  lemma {:induction false} ParseIntRejectsBlank(s: string)
    requires forall i :: 0 <= i < |s| ==> IsSpace(s[i])
    ensures ParseInt(s) == None
    decreases |s|
  {
    if s != [] {
      ParseIntRejectsBlank(s[1..]);
    }
  }

  /** `int` reads a plain run of decimal digits as its decimal value. */
  lemma ParseIntOfDigits(s: string)
    requires s != [] && AllDigits(s)
    ensures ParseInt(s) == Some(DigitsValue(s))
  {
    DigitsOfAllDigits(s);
  }

  lemma {:induction false} DigitsValueOfNatToString(n: nat)
    ensures DigitsValue(NatToString(n)) == n
  {
    if n >= 10 {
      var s := NatToString(n / 10);
      var t := s + [DigitChar(n % 10)];
      assert t[..|t| - 1] == s;
      DigitsValueOfNatToString(n / 10);
    }
  }

  lemma {:induction false} DigitsOfAllDigits(s: string)
    requires AllDigits(s)
    ensures Digits(s) == s
  {
    if s != [] {
      DigitsOfAllDigits(s[1..]);
      assert [s[0]] + s[1..] == s;
    }
  }

  /** `int(str(n)) == n` for every integer `n`. */
  lemma ParseIntOfIntToString(n: int)
    ensures ParseInt(IntToString(n)) == Some(n)
  {
    var s := IntToString(n);
    ParseIntOfTrimmed(s);
    ParseLiteralOfIntToString(n);
  }

  /** Without white space at either end, `int` reads the literal itself. */
  lemma ParseIntOfTrimmed(s: string)
    requires s != [] && !IsSpace(s[0]) && !IsSpace(s[|s| - 1])
    ensures ParseInt(s) == ParseLiteral(s)
  {
  }

  lemma ParseLiteralOfIntToString(n: int)
    ensures ParseLiteral(IntToString(n)) == Some(n)
  {
    var s := IntToString(n);
    var m := if n < 0 then -n else n;
    var body := if s[0] == '-' || s[0] == '+' then s[1..] else s;
    assert body == NatToString(m);
    DigitsOfAllDigits(body);
    DigitsValueOfNatToString(m);
  }
}

/**
 * ECMAScript `parseInt(string, 10)` (ECMA-262, section 19.2.5) as a pure parser:
 * skip leading white space, accept one optional sign, take the longest prefix of
 * decimal digits and read it as an integer; no digit at all gives `NaN`, here `None`.
 * White space is restricted to the ASCII white-space and line-terminator characters.
 */
module Parsing {
  import opened Wrappers

  predicate IsWhiteSpace(c: char) {
    c == ' ' || c == '\t' || c == '\n' || c == '\r' || c == '\U{000B}' || c == '\U{000C}'
  }

  predicate IsDigit(c: char) {
    '0' <= c <= '9'
  }

  function DigitValue(c: char): (d: nat)
    requires IsDigit(c)
    ensures d < 10
  {
    c as int - '0' as int
  }

  function DigitChar(d: nat): (c: char)
    requires d < 10
    ensures IsDigit(c) && DigitValue(c) == d
  {
    ('0' as int + d) as char
  }

  predicate AllDigits(s: string) {
    forall i :: 0 <= i < |s| ==> IsDigit(s[i])
  }

  /** The string with its leading white space removed (TrimString with `start`). */
  function TrimStart(s: string): (t: string)
    ensures |t| <= |s|
    ensures t == [] || !IsWhiteSpace(t[0])
  {
    if s != [] && IsWhiteSpace(s[0]) then TrimStart(s[1..]) else s
  }

  /** The longest prefix of `s` made of decimal digits. */
  function DigitPrefix(s: string): (z: string)
    ensures |z| <= |s| && AllDigits(z)
  {
    if s != [] && IsDigit(s[0]) then [s[0]] + DigitPrefix(s[1..]) else []
  }

  /** TrimStart removes white space only, and all of the leading white space. */
  lemma {:induction false} TrimStartIsSuffix(s: string)
    ensures var t := TrimStart(s);
      t == s[|s| - |t|..] && forall i :: 0 <= i < |s| - |t| ==> IsWhiteSpace(s[i])
  {
    if s != [] && IsWhiteSpace(s[0]) {
      TrimStartIsSuffix(s[1..]);
    }
  }

  /** DigitPrefix is a prefix, and no longer one consisting of digits exists. */
  lemma {:induction false} DigitPrefixIsLongest(s: string)
    ensures var z := DigitPrefix(s);
      z <= s && (|z| == |s| || !IsDigit(s[|z|]))
  {
    if s != [] && IsDigit(s[0]) {
      DigitPrefixIsLongest(s[1..]);
    }
  }

  /** The value of a string of decimal digits, most significant digit first. */
  function DigitsValue(z: string): nat
    requires AllDigits(z)
  {
    if z == [] then 0 else DigitsValue(z[..|z| - 1]) * 10 + DigitValue(z[|z| - 1])
  }

  /** The string with one leading sign character removed, if it has one. */
  function Unsigned(t: string): string {
    if t != [] && (t[0] == '+' || t[0] == '-') then t[1..] else t
  }

  /**
   * `parseInt(s, 10)`: `None` stands for `NaN`, which it is exactly when no
   * digit follows the leading white space and the optional sign.
   */
  function ParseInt(s: string): (r: Option<int>)
    ensures r.None? <==> (var u := Unsigned(TrimStart(s)); u == [] || !IsDigit(u[0]))
  {
    var t := TrimStart(s);
    var z := DigitPrefix(Unsigned(t));
    if z == [] then None
    else if t[0] == '-' then Some(-(DigitsValue(z) as int))
    else Some(DigitsValue(z))
  }

  /**
   * The sign of a result follows the trimmed text's first character: negative
   * only after a leading minus sign, and never positive after one.
   */
  lemma ParseIntSign(s: string)
    ensures ParseInt(s).Some? && ParseInt(s).value < 0 ==> TrimStart(s)[0] == '-'
    ensures ParseInt(s).Some? && TrimStart(s)[0] == '-' ==> ParseInt(s).value <= 0
  {
  }

  /** The decimal rendering of a natural number, as `String(n)` gives it. */
  function NatToString(n: nat): (s: string)
    ensures s != [] && AllDigits(s)
  {
    if n < 10 then [DigitChar(n)] else NatToString(n / 10) + [DigitChar(n % 10)]
  }

  /** The decimal rendering of an integer, with a leading `-` when negative. */
  function IntToString(i: int): (s: string)
    ensures s != [] && (i < 0 <==> s[0] == '-')
  {
    if i < 0 then "-" + NatToString(-i) else NatToString(i)
  }

  lemma {:induction false} DigitsValueOfNatToString(n: nat)
    ensures DigitsValue(NatToString(n)) == n
  {
    var s := NatToString(n);
    if n >= 10 {
      DigitsValueOfNatToString(n / 10);
      assert s[..|s| - 1] == NatToString(n / 10);
    }
  }

  lemma {:induction false} DigitPrefixOfDigits(z: string, tail: string)
    requires AllDigits(z)
    requires tail == [] || !IsDigit(tail[0])
    ensures DigitPrefix(z + tail) == z
  {
    if z != [] {
      assert (z + tail)[1..] == z[1..] + tail;
      DigitPrefixOfDigits(z[1..], tail);
    } else {
      assert z + tail == tail;
    }
  }

  /**
   * Digits followed by anything that does not start with a digit read as
   * exactly those digits: the parse stops at the first non-digit.
   */
  lemma ParseIntStopsAtNonDigit(z: string, tail: string)
    requires z != [] && AllDigits(z)
    requires tail == [] || !IsDigit(tail[0])
    ensures ParseInt(z + tail) == Some(DigitsValue(z))
  {
    DigitPrefixOfDigits(z, tail);
  }

  /** A non-empty run of digits, on its own, reads as its value. */
  lemma ParseIntOfDigits(s: string)
    ensures s != [] && AllDigits(s) ==> ParseInt(s) == Some(DigitsValue(s))
  {
    if s != [] && AllDigits(s) {
      ParseIntStopsAtNonDigit(s, []);
      assert s + [] == s;
    }
  }

  lemma {:induction false} TrimStartSkipsWhiteSpace(ws: string, s: string)
    requires forall i :: 0 <= i < |ws| ==> IsWhiteSpace(ws[i])
    ensures TrimStart(ws + s) == TrimStart(s)
  {
    if ws != [] {
      assert (ws + s)[1..] == ws[1..] + s;
      TrimStartSkipsWhiteSpace(ws[1..], s);
    } else {
      assert ws + s == s;
    }
  }

  /** Leading white space never changes the result. */
  lemma ParseIntSkipsWhiteSpace(ws: string, s: string)
    requires forall i :: 0 <= i < |ws| ==> IsWhiteSpace(ws[i])
    ensures ParseInt(ws + s) == ParseInt(s)
  {
    TrimStartSkipsWhiteSpace(ws, s);
  }

  /**
   * A minus sign before a run of digits negates their value; whatever follows
   * the digits, from the first non-digit on, is ignored.
   */
  lemma ParseIntOfNegated(z: string, tail: string)
    requires z != [] && AllDigits(z)
    requires tail == [] || !IsDigit(tail[0])
    ensures ParseInt("-" + z + tail) == Some(-(DigitsValue(z) as int))
  {
    var s := "-" + z + tail;
    assert s[0] == '-' && s[1..] == z + tail;
    assert TrimStart(s) == s;
    assert Unsigned(s) == z + tail;
    DigitPrefixOfDigits(z, tail);
  }

  /**
   * A plus sign before a run of digits is dropped; whatever follows the
   * digits, from the first non-digit on, is ignored.
   */
  lemma ParseIntOfPlus(z: string, tail: string)
    requires z != [] && AllDigits(z)
    requires tail == [] || !IsDigit(tail[0])
    ensures ParseInt("+" + z + tail) == Some(DigitsValue(z))
  {
    var s := "+" + z + tail;
    assert s[0] == '+' && s[1..] == z + tail;
    assert TrimStart(s) == s;
    assert Unsigned(s) == z + tail;
    DigitPrefixOfDigits(z, tail);
  }

  /** `parseInt(String(i), 10) == i`: the parser reads back every integer rendering. */
  lemma ParseIntOfIntToString(i: int)
    ensures ParseInt(IntToString(i)) == Some(i)
  {
    var n: nat := if i < 0 then -i else i;
    DigitsValueOfNatToString(n);
    if i < 0 {
      ParseIntOfNegated(NatToString(n), []);
      assert "-" + NatToString(n) + [] == "-" + NatToString(n);
    } else {
      ParseIntStopsAtNonDigit(NatToString(n), []);
      assert NatToString(n) + [] == NatToString(n);
    }
  }

  /** `parseInt(undefined, 10)` reads the string "undefined" and is `NaN`. */
  lemma ParseIntOfUndefined()
    ensures ParseInt("undefined") == None
  {
  }

  /** A string that starts with neither a digit, a sign nor white space is `NaN`. */
  lemma ParseIntRejectsNonNumeric(s: string)
    requires s != [] && !IsDigit(s[0]) && !IsWhiteSpace(s[0]) && s[0] != '+' && s[0] != '-'
    ensures ParseInt(s) == None
  {
  }
}

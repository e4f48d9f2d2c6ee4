/**
 * Decimal text for integers: Python `str(n)` and JavaScript `n.toString()`
 * for whole numbers, and Python `int(s)` for the command-line arguments.
 */
module Decimal {
  import opened Wrappers
  import Strings

  predicate IsDigit(c: char) {
    '0' <= c <= '9'
  }

  predicate AllDigits(s: string) {
    forall i :: 0 <= i < |s| ==> IsDigit(s[i])
  }

  function DigitChar(d: nat): (c: char)
    requires d < 10
    ensures IsDigit(c) && c as int - '0' as int == d
  {
    ('0' as int + d) as char
  }

  /** The number a string of decimal digits denotes (leading zeros allowed). */
  function Value(s: string): nat
    requires AllDigits(s)
  {
    if s == [] then 0 else Value(s[..|s| - 1]) * 10 + (s[|s| - 1] as int - '0' as int)
  }

  /** `str(n)`: the shortest decimal spelling of `n`, non-empty and made of digits only. */
  function NatToString(n: nat): (s: string)
    ensures s != [] && AllDigits(s)
    ensures |s| > 1 ==> s[0] != '0'
  {
    if n < 10 then [DigitChar(n)] else NatToString(n / 10) + [DigitChar(n % 10)]
  }

  /** A non-empty run of decimal digits and the number it denotes, or nothing. */
  function ParseNat(s: string): (r: Option<nat>)
    ensures r.Some? <==> s != [] && AllDigits(s)
  {
    if s != [] && AllDigits(s) then Some(Value(s)) else None
  }

  /** Reading back what `str(n)` wrote gives `n`. */
  lemma {:induction false} ParseNatToString(n: nat)
    ensures ParseNat(NatToString(n)) == Some(n)
  {
    if n >= 10 {
      ParseNatToString(n / 10);
      var s := NatToString(n);
      assert s[..|s| - 1] == NatToString(n / 10);
      assert Value(s) == Value(NatToString(n / 10)) * 10 + n % 10;
    }
  }

  /** Distinct numbers have distinct decimal spellings. */
  lemma NatToStringInjective(a: nat, b: nat)
    requires NatToString(a) == NatToString(b)
    ensures a == b
  {
    ParseNatToString(a);
    ParseNatToString(b);
  }

  /** `str(i)` for any integer: a minus sign before the digits of a negative number. */
  function IntToString(i: int): (s: string)
    ensures s != []
  {
    if i < 0 then "-" + NatToString(-i) else NatToString(i)
  }

  /**
   * Python `int(s)` on text: surrounding whitespace is ignored, an optional
   * `+` or `-` sign is followed by one or more decimal digits; anything else
   * raises `ValueError`, modelled as `None`.
   */
  function ParseInt(s: string): (r: Option<int>)
    ensures r.Some? ==> Strings.Trim(Strings.PythonSpace, s) != []
  {
    var t := Strings.Trim(Strings.PythonSpace, s);
    if t == [] then None
    else if t[0] == '-' || t[0] == '+' then
      match ParseNat(t[1..])
      case None => None
      case Some(v) => Some(if t[0] == '-' then -(v as int) else v as int)
    else
      match ParseNat(t)
      case None => None
      case Some(v) => Some(v)
  }

  /** The decimal text of an integer has no surrounding whitespace. */
  lemma IntToStringTrimmed(i: int)
    ensures Strings.Trim(Strings.PythonSpace, IntToString(i)) == IntToString(i)
  {
    var d := NatToString(if i < 0 then -i else i);
    assert IsDigit(d[0]) && IsDigit(d[|d| - 1]);
    Strings.TrimOfTrimmed(Strings.PythonSpace, IntToString(i));
  }

  /** `int(str(i)) == i`. */
  lemma ParseIntToString(i: int)
    ensures ParseInt(IntToString(i)) == Some(i)
  {
    var s := IntToString(i);
    IntToStringTrimmed(i);
    if i < 0 {
      ParseNatToString(-i);
      assert s[1..] == NatToString(-i);
    } else {
      ParseNatToString(i);
      assert IsDigit(s[0]);
    }
  }

  /** Text with no digit in it is never an integer. */
  lemma ParseIntNeedsDigit(s: string)
    requires forall k :: 0 <= k < |s| ==> !IsDigit(s[k])
    ensures ParseInt(s) == None
  {
    var t := Strings.Trim(Strings.PythonSpace, s);
    Strings.TrimSlice(Strings.PythonSpace, s);
    if t != [] {
      var i := |s| - |Strings.TrimStart(Strings.PythonSpace, s)|;
      assert t[|t| - 1] == s[i + |t| - 1];
    }
  }
}

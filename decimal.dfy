/**
 * Decimal text of whole numbers, as JavaScript writes an integral `number`
 * below 2^53 in magnitude inside a template literal (`${n}`): an optional
 * minus sign followed by the digits, without leading zeros. From 2^53 on
 * JavaScript writes the shortest digits that read back to the double, padded
 * with zeros (and from 10^21 on, exponent form), which is not this rendering.
 */
module Decimal {
  import opened Wrappers

  predicate IsDigit(c: char) {
    '0' <= c <= '9'
  }

  function DigitChar(d: nat): (c: char)
    requires d < 10
    ensures IsDigit(c)
  {
    (('0' as int) + d) as char
  }

  function DigitValue(c: char): (d: nat)
    requires IsDigit(c)
    ensures d < 10 && DigitChar(d) == c
  {
    (c as int) - ('0' as int)
  }

  /** The digits of `n`, most significant first. */
  function NatToString(n: nat): (s: string)
    ensures |s| >= 1 && forall i :: 0 <= i < |s| ==> IsDigit(s[i])
    ensures s[0] == '0' <==> n == 0
  {
    if n < 10 then [DigitChar(n)] else NatToString(n / 10) + [DigitChar(n % 10)]
  }

  /** `${i}` for an integral number `i`. */
  function IntToString(i: int): (s: string)
    ensures |s| >= 1
    ensures s[0] == '-' <==> i < 0
    ensures var start := if i < 0 then 1 else 0;
            && start < |s|
            && (forall k :: start <= k < |s| ==> IsDigit(s[k]))
            && (s[start] == '0' <==> i == 0)
  {
    if i < 0 then "-" + NatToString(-i) else NatToString(i)
  }

  /** Reads back a non-empty string of digits. */
  function ParseNat(s: string): Option<nat>
  {
    if |s| == 0 || !IsDigit(s[|s| - 1]) then None
    else if |s| == 1 then Some(DigitValue(s[0]))
    else
      match ParseNat(s[..|s| - 1])
      case None => None
      case Some(m) => Some(10 * m + DigitValue(s[|s| - 1]))
  }

  /** Reads back `IntToString`'s text: an optional minus sign and digits. */
  function ParseInt(s: string): Option<int>
  {
    if |s| > 0 && s[0] == '-' then
      match ParseNat(s[1..])
      case None => None
      case Some(m) => Some(-(m as int))
    else
      match ParseNat(s)
      case None => None
      case Some(m) => Some(m)
  }

  lemma {:induction false} ParseNatOfNatToString(n: nat)
    ensures ParseNat(NatToString(n)) == Some(n)
  {
    if n >= 10 {
      ParseNatOfNatToString(n / 10);
      var s := NatToString(n);
      assert s == NatToString(n / 10) + [DigitChar(n % 10)];
      assert s[..|s| - 1] == NatToString(n / 10);
      assert DigitValue(s[|s| - 1]) == n % 10;
    }
  }

  /** Reading the text back gives the number: the rendering loses nothing. */
  lemma {:induction false} ParseIntOfIntToString(i: int)
    ensures ParseInt(IntToString(i)) == Some(i)
  {
    var s := IntToString(i);
    if i < 0 {
      ParseNatOfNatToString(-i);
      assert s == "-" + NatToString(-i);
      assert s[0] == '-' && s[1..] == NatToString(-i);
    } else {
      ParseNatOfNatToString(i);
      assert s == NatToString(i);
      assert IsDigit(s[0]);
    }
  }

  /**
   * The number written in front of `suffix` in `text`, when `text` ends with
   * `suffix` and what precedes it is exactly a number's text (no leading
   * zeros, no `-0`).
   */
  function ShownNumber(text: string, suffix: string): (r: Option<int>)
    ensures r.Some? ==> text == IntToString(r.value) + suffix
  {
    if |text| >= |suffix| && text[|text| - |suffix|..] == suffix then
      var prefix := text[..|text| - |suffix|];
      match ParseInt(prefix)
      case Some(n) =>
        if IntToString(n) == prefix then
          assert text == prefix + suffix;
          Some(n)
        else None
      case None => None
    else None
  }

  /** `${n}` followed by a suffix shows `n`. */
  lemma ShownNumberOf(n: int, suffix: string)
    ensures ShownNumber(IntToString(n) + suffix, suffix) == Some(n)
  {
    var t := IntToString(n) + suffix;
    assert t[|t| - |suffix|..] == suffix;
    assert t[..|t| - |suffix|] == IntToString(n);
    ParseIntOfIntToString(n);
  }
}

/** Python's `Decimal(text)` constructor, restricted to plain decimal
    notation, with values as exact `real`s. */
module Decimals {
  import opened Wrappers
  import opened Text

  /** The unsigned part of a decimal literal: digits, optionally followed by
      '.' and more digits, or '.' and digits; at least one digit in all. */
  function ParseUnsigned(t: string): (r: Option<real>)
    ensures r.Some? ==> r.value >= 0.0
  {
    var parts := Split(t, '.');
    if |parts| == 1 then
      (if t != [] && AllDigits(t) then Some(DigitsValue(t) as real) else None)
    else if |parts| == 2 && AllDigits(parts[0]) && AllDigits(parts[1])
            && |parts[0]| + |parts[1]| >= 1 then
      Some(DigitsValue(parts[0]) as real + DigitsValue(parts[1]) as real / Pow10(|parts[1]|) as real)
    else None
  }

  /** `Decimal(s)`: surrounding whitespace is ignored, an optional sign comes
      first. `None` where Python raises `InvalidOperation`. */
  function ParseDecimal(s: string): Option<real> {
    var t := Strip(s);
    if t != [] && t[0] == '-' then
      match ParseUnsigned(t[1..])
      case Some(v) => Some(-v)
      case None => None
    else if t != [] && t[0] == '+' then ParseUnsigned(t[1..])
    else ParseUnsigned(t)
  }

  /** `abs(x)` */
  function Abs(x: real): (r: real)
    ensures r >= 0.0 && (r == x || r == -x)
  {
    if x < 0.0 then -x else x
  }

  /** Only a text with a minus sign in it can denote a negative amount. */
  lemma NegativeNeedsMinus(s: string)
    ensures ParseDecimal(s).Some? && ParseDecimal(s).value < 0.0 ==> '-' in s
  {
    var t := Strip(s);
    if t != [] && t[0] == '-' {
      assert t[0] in t;
    }
  }

  /** Helper for `ParseNaturalText` and `ParseNegatedNaturalText`: a text
      with no space at either end is left as it is by stripping. */
  lemma StripUnchanged(s: string)
    requires s != [] && !IsSpace(s[0]) && !IsSpace(s[|s| - 1])
    ensures Strip(s) == s
  {
    assert TrimStart(s, IsSpace) == s;
    assert TrimEnd(s, IsSpace) == s;
  }

  lemma DigitsHaveNoDot(d: string)
    requires AllDigits(d)
    ensures '.' !in d && Split(d, '.') == [d]
  {
    assert forall i :: 0 <= i < |d| ==> IsDigit(d[i]);
    SplitWithoutSep(d, '.');
  }

  /** What `str(n)` renders, `Decimal` reads back. */
  lemma ParseNaturalText(n: nat)
    ensures ParseDecimal(NatToString(n)) == Some(n as real)
  {
    var d := NatToString(n);
    NatToStringDigits(n);
    StripUnchanged(d);
    DigitsHaveNoDot(d);
  }

  /** A minus sign in front negates the value read. */
  lemma ParseNegatedNaturalText(n: nat)
    ensures ParseDecimal("-" + NatToString(n)) == Some(-(n as real))
  {
    var d := NatToString(n);
    NatToStringDigits(n);
    var m := "-" + d;
    StripUnchanged(m);
    assert m[1..] == d;
    DigitsHaveNoDot(d);
  }
}

/** The string operations the adapters and formatters use: Python's
    `strip`, `join`, `split`, `in`, `startswith`, `upper`, `replace(c, "")`
    and the decimal rendering and parsing of natural numbers. */
module Text {
  import opened Wrappers

  /** The characters Python's `str.isspace()` accepts, which is what
      `str.strip()` with no argument removes. */
  predicate IsSpace(c: char) {
    var n := c as int;
    (9 <= n <= 13) || (28 <= n <= 32) || n == 0x85 || n == 0xA0 || n == 0x1680
    || (0x2000 <= n <= 0x200A) || n == 0x2028 || n == 0x2029 || n == 0x202F
    || n == 0x205F || n == 0x3000
  }

  /** Drops the longest prefix whose characters all satisfy `drop`. */
  function TrimStart(s: string, drop: char -> bool): (r: string)
    ensures |r| <= |s| && r == s[|s| - |r|..]
    ensures r == [] || !drop(r[0])
    ensures forall i :: 0 <= i < |s| - |r| ==> drop(s[i])
  {
    if s != [] && drop(s[0]) then
      var r := TrimStart(s[1..], drop);
      assert forall i :: 1 <= i < |s| - |r| ==> s[i] == s[1..][i - 1];
      r
    else s
  }

  /** Drops the longest suffix whose characters all satisfy `drop`. */
  function TrimEnd(s: string, drop: char -> bool): (r: string)
    ensures |r| <= |s| && r == s[..|r|]
    ensures r == [] || !drop(r[|r| - 1])
    ensures forall i :: |r| <= i < |s| ==> drop(s[i])
  {
    if s != [] && drop(s[|s| - 1]) then
      var r := TrimEnd(s[..|s| - 1], drop);
      assert forall i :: |r| <= i < |s| - 1 ==> s[i] == s[..|s| - 1][i];
      r
    else s
  }

  /** `s.strip(chars)`: a contiguous piece of `s` with no dropped character
      at either end. */
  function StripWith(s: string, drop: char -> bool): (r: string)
    ensures |r| <= |s|
    ensures r != [] ==> !drop(r[0]) && !drop(r[|r| - 1])
    ensures forall c :: c in r ==> c in s
  {
    var front := TrimStart(s, drop);
    var r := TrimEnd(front, drop);
    assert forall i :: 0 <= i < |r| ==> r[i] == s[|s| - |front| + i];
    r
  }

  /** `s.strip()` */
  function Strip(s: string): string {
    StripWith(s, IsSpace)
  }

  /** `s.strip(q)` for a single character `q`, as in `strip('"')`. */
  function StripChar(s: string, q: char): (r: string)
    ensures r != [] ==> r[0] != q && r[|r| - 1] != q
  {
    StripWith(s, c => c == q)
  }

  /** `s.strip().strip('"')`, the way most adapters clean a text field. */
  function Clean(s: string): string {
    StripChar(Strip(s), '"')
  }

  /** `sep.join(parts)` */
  function Join(sep: string, parts: seq<string>): string {
    if |parts| == 0 then ""
    else if |parts| == 1 then parts[0]
    else parts[0] + sep + Join(sep, parts[1..])
  }

  /** `s.split(sep)` for a one-character separator: always at least one piece. */
  function Split(s: string, sep: char): (parts: seq<string>)
    ensures |parts| >= 1
  {
    if s == [] then [""]
    else
      var rest := Split(s[1..], sep);
      if s[0] == sep then [""] + rest else [[s[0]] + rest[0]] + rest[1..]
  }

  lemma {:induction false} SplitWithoutSep(a: string, sep: char)
    requires sep !in a
    ensures Split(a, sep) == [a]
  {
    if a != [] {
      SplitWithoutSep(a[1..], sep);
      assert [a[0]] + a[1..] == a;
    }
  }

  lemma {:induction false} SplitAtFirstSep(a: string, sep: char, b: string)
    requires sep !in a
    ensures Split(a + [sep] + b, sep) == [a] + Split(b, sep)
  {
    if a == [] {
      assert a + [sep] + b == [sep] + b;
      assert ([sep] + b)[1..] == b;
    } else {
      SplitAtFirstSep(a[1..], sep, b);
      assert (a + [sep] + b)[1..] == a[1..] + [sep] + b;
      assert [a[0]] + a[1..] == a;
    }
  }

  /** Splitting a joined text gives the pieces back when no piece holds the
      separator: the number of lines of a "\n"-joined text is the number of
      pieces joined. */
  lemma {:induction false} SplitJoin(parts: seq<string>, sep: char)
    requires |parts| >= 1
    requires forall i :: 0 <= i < |parts| ==> sep !in parts[i]
    ensures Split(Join([sep], parts), sep) == parts
  {
    if |parts| == 1 {
      SplitWithoutSep(parts[0], sep);
    } else {
      SplitJoin(parts[1..], sep);
      SplitAtFirstSep(parts[0], sep, Join([sep], parts[1..]));
      assert [parts[0]] + parts[1..] == parts;
    }
  }

  /** `sub in s` */
  predicate Contains(s: string, sub: string) {
    sub <= s || (s != [] && Contains(s[1..], sub))
  }

  /** `s.startswith(prefix)` */
  predicate StartsWith(s: string, prefix: string) {
    prefix <= s
  }

  function UpperChar(c: char): char {
    if 'a' <= c <= 'z' then (c as int - 32) as char else c
  }

  /** `s.upper()` on the ASCII letters. */
  function Upper(s: string): (r: string)
    ensures |r| == |s|
    ensures forall i :: 0 <= i < |s| ==> r[i] == UpperChar(s[i])
  {
    seq(|s|, i requires 0 <= i < |s| => UpperChar(s[i]))
  }

  /** `s.replace(c, "")` */
  function RemoveAll(s: string, c: char): (r: string)
    ensures c !in r
    ensures forall x :: x in r ==> x in s
  {
    if s == [] then []
    else (if s[0] == c then [] else [s[0]]) + RemoveAll(s[1..], c)
  }

  // ---------------------------------------------------------------------
  // Decimal digits

  predicate IsDigit(c: char) {
    '0' <= c <= '9'
  }

  predicate AllDigits(s: string) {
    forall i :: 0 <= i < |s| ==> IsDigit(s[i])
  }

  function DigitValue(c: char): nat
    requires IsDigit(c)
  {
    c as int - '0' as int
  }

  function DigitChar(d: nat): (c: char)
    requires d < 10
    ensures IsDigit(c) && DigitValue(c) == d
  {
    ('0' as int + d) as char
  }

  function Pow10(k: nat): (p: nat)
    ensures p >= 1
  {
    if k == 0 then 1 else 10 * Pow10(k - 1)
  }

  /** The value of a run of decimal digits, most significant first. */
  function DigitsValue(s: string): nat
    requires AllDigits(s)
  {
    if s == [] then 0 else DigitsValue(s[..|s| - 1]) * 10 + DigitValue(s[|s| - 1])
  }

  /** `str(n)` for a natural number. */
  function NatToString(n: nat): string {
    if n < 10 then [DigitChar(n)] else NatToString(n / 10) + [DigitChar(n % 10)]
  }

  /** `str(n)` is a run of digits, without leading zeros, whose value is `n`. */
  lemma {:induction false} NatToStringDigits(n: nat)
    ensures 1 <= |NatToString(n)| && AllDigits(NatToString(n)) && DigitsValue(NatToString(n)) == n
    ensures n >= 10 ==> NatToString(n)[0] != '0'
  {
    if n >= 10 {
      NatToStringDigits(n / 10);
      var s := NatToString(n);
      assert s[..|s| - 1] == NatToString(n / 10);
    }
  }

  /** `int(s)` restricted to plain runs of decimal digits. */
  function ParseNat(s: string): Option<nat> {
    if s != [] && AllDigits(s) then Some(DigitsValue(s)) else None
  }

  lemma ParseNatToString(n: nat)
    ensures ParseNat(NatToString(n)) == Some(n)
  {
    NatToStringDigits(n);
  }

  function Zeros(k: nat): (s: string)
    ensures |s| == k && AllDigits(s)
  {
    if k == 0 then [] else Zeros(k - 1) + ['0']
  }

  lemma {:induction false} LeadingZerosValue(k: nat, d: string)
    requires AllDigits(d)
    ensures AllDigits(Zeros(k) + d) && DigitsValue(Zeros(k) + d) == DigitsValue(d)
  {
    var s := Zeros(k) + d;
    if d == [] {
      assert s == Zeros(k);
      ZerosValue(k);
    } else {
      LeadingZerosValue(k, d[..|d| - 1]);
      assert s[..|s| - 1] == Zeros(k) + d[..|d| - 1];
    }
  }

  lemma {:induction false} ZerosValue(k: nat)
    ensures DigitsValue(Zeros(k)) == 0
  {
    if k > 0 {
      ZerosValue(k - 1);
      assert Zeros(k)[..k - 1] == Zeros(k - 1);
    }
  }

  lemma {:induction false} NatToStringLength(n: nat, width: nat)
    ensures 1 <= width && n < Pow10(width) ==> |NatToString(n)| <= width
  {
    if n >= 10 && 1 <= width && n < Pow10(width) {
      assert Pow10(1) == 10;
      assert width >= 2;
      NatToStringLength(n / 10, width - 1);
    }
  }

  /** Python's `f"{n:0{width}d}"`: `n` in decimal, left-padded with zeros to
      `width` characters when shorter. */
  function PadNat(n: nat, width: nat): string {
    if |NatToString(n)| >= width then NatToString(n)
    else Zeros(width - |NatToString(n)|) + NatToString(n)
  }

  /** The padded text is a run of at least `width` digits whose value is
      `n`; exactly `width` of them when `n` fits. */
  lemma PadNatDigits(n: nat, width: nat)
    ensures 1 <= |PadNat(n, width)| && |PadNat(n, width)| >= width
    ensures AllDigits(PadNat(n, width)) && DigitsValue(PadNat(n, width)) == n
    ensures 1 <= width && n < Pow10(width) ==> |PadNat(n, width)| == width
  {
    var d := NatToString(n);
    NatToStringDigits(n);
    NatToStringLength(n, width);
    if |d| < width {
      LeadingZerosValue(width - |d|, d);
    }
  }

  lemma ParsePadNat(n: nat, width: nat)
    ensures ParseNat(PadNat(n, width)) == Some(n)
  {
    PadNatDigits(n, width);
  }

  // ---------------------------------------------------------------------
  // Byte-wise text order (SQLite's default BINARY collation on ASCII/UTF-8)

  /** `a <= b` in lexicographic order by code point. */
  predicate LexLe(a: string, b: string) {
    a == [] || (b != [] && (a[0] < b[0] || (a[0] == b[0] && LexLe(a[1..], b[1..]))))
  }

  /** The value of a digit run read from the front: the first digit
      weighted by its place, plus the value of the rest. */
  lemma {:induction false} DigitsValueFront(s: string)
    requires AllDigits(s) && s != []
    ensures DigitsValue(s) == DigitValue(s[0]) * Pow10(|s| - 1) + DigitsValue(s[1..])
  {
    if |s| == 1 {
      assert s[..0] == [] && s[1..] == [];
    } else {
      var init := s[..|s| - 1];
      var last := DigitValue(s[|s| - 1]);
      var lead := DigitValue(s[0]);
      DigitsValueFront(init);
      assert init[0] == s[0];
      assert s[1..][..|s| - 2] == init[1..];
      var p := Pow10(|s| - 2);
      var rest := DigitsValue(init[1..]);
      assert DigitsValue(init) == lead * p + rest;
      assert DigitsValue(s[1..]) == rest * 10 + last;
      assert DigitsValue(s) == (lead * p + rest) * 10 + last;
      assert Pow10(|s| - 1) == p * 10;
      ShiftPlace(lead, p, rest);
    }
  }

  lemma ShiftPlace(lead: int, p: int, rest: int)
    ensures (lead * p + rest) * 10 == lead * (p * 10) + rest * 10
  {
  }

  /** A run of `k` digits is worth less than `10^k`. */
  lemma {:induction false} DigitsValueBound(s: string)
    requires AllDigits(s)
    ensures DigitsValue(s) < Pow10(|s|)
  {
    if s != [] {
      DigitsValueBound(s[..|s| - 1]);
    }
  }

  /** A smaller leading digit gives a smaller number, whatever follows. */
  lemma LeadingDigitDecides(d: nat, e: nat, p: nat, r: nat, q: nat)
    requires d < e && r < p
    ensures d * p + r < e * p + q
  {
    assert d * p + p == (d + 1) * p;
    assert (d + 1) * p <= e * p;
  }

  /** On digit runs of equal length, text order is numeric order. */
  lemma {:induction false} DigitOrder(a: string, b: string)
    requires AllDigits(a) && AllDigits(b) && |a| == |b|
    ensures LexLe(a, b) <==> DigitsValue(a) <= DigitsValue(b)
  {
    if a != [] {
      DigitsValueFront(a);
      DigitsValueFront(b);
      DigitsValueBound(a[1..]);
      DigitsValueBound(b[1..]);
      DigitOrder(a[1..], b[1..]);
      var p := Pow10(|a| - 1);
      var da, db := DigitValue(a[0]), DigitValue(b[0]);
      if da < db {
        LeadingDigitDecides(da, db, p, DigitsValue(a[1..]), DigitsValue(b[1..]));
      } else if db < da {
        LeadingDigitDecides(db, da, p, DigitsValue(b[1..]), DigitsValue(a[1..]));
      }
    }
  }

  /** Text order on `a + x` against `b + y` with `|a| == |b|`: the first
      parts decide unless they are equal. */
  lemma {:induction false} LexLeConcat(a: string, x: string, b: string, y: string)
    requires |a| == |b|
    ensures LexLe(a + x, b + y) <==> (a != b && LexLe(a, b)) || (a == b && LexLe(x, y))
  {
    if a == [] {
      assert a + x == x && b + y == y;
    } else {
      LexLeConcat(a[1..], x, b[1..], y);
      assert (a + x)[0] == a[0] && (a + x)[1..] == a[1..] + x;
      assert (b + y)[0] == b[0] && (b + y)[1..] == b[1..] + y;
      assert a == b <==> a[0] == b[0] && a[1..] == b[1..];
    }
  }

  lemma {:induction false} LexLeTotal(a: string, b: string)
    ensures LexLe(a, b) || LexLe(b, a)
  {
    if a != [] && b != [] && a[0] == b[0] {
      LexLeTotal(a[1..], b[1..]);
    }
  }

  lemma {:induction false} LexLeAntisymmetric(a: string, b: string)
    requires LexLe(a, b) && LexLe(b, a)
    ensures a == b
  {
    if a != [] && b != [] {
      LexLeAntisymmetric(a[1..], b[1..]);
      assert a == [a[0]] + a[1..] && b == [b[0]] + b[1..];
    }
  }

  lemma {:induction false} LexLeTransitive(a: string, b: string, c: string)
    requires LexLe(a, b) && LexLe(b, c)
    ensures LexLe(a, c)
  {
    if a != [] && b != [] && c != [] && a[0] == b[0] == c[0] {
      LexLeTransitive(a[1..], b[1..], c[1..]);
    }
  }
}

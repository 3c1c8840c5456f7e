/**
 * The JavaScript string and number primitives the route handlers lean on:
 * `String(n)`, `padStart`, `trim`, `startsWith`, `includes`, `join`,
 * `parseInt` and `Number`. Numbers are integers here; where JavaScript
 * produces `NaN` the model produces `None`.
 */
module Js {

  /** `None` stands for `null`/`undefined`, or for `NaN` where a number is parsed. */
  datatype Option<+T> = None | Some(value: T)

  /** The values that are present, in order: `.filter(x => !isNaN(x))` after a parse. */
  function Defined<T>(s: seq<Option<T>>): (r: seq<T>)
    ensures |r| <= |s|
  {
    if s == [] then []
    else Defined(s[..|s| - 1]) + (if s[|s| - 1].Some? then [s[|s| - 1].value] else [])
  }

  /** When every value is present, all of them are kept, in order. */
  lemma {:induction false} DefinedAllPresent<T>(s: seq<Option<T>>, values: seq<T>)
    requires |s| == |values|
    requires forall i :: 0 <= i < |s| ==> s[i] == Some(values[i])
    ensures Defined(s) == values
  {
    if s != [] {
      var n := |s|;
      DefinedAllPresent(s[..n - 1], values[..n - 1]);
      assert values == values[..n - 1] + [values[n - 1]];
    }
  }

  /** When no value is present, nothing is kept. */
  lemma {:induction false} DefinedNonePresent<T>(s: seq<Option<T>>)
    requires forall i :: 0 <= i < |s| ==> s[i].None?
    ensures Defined(s) == []
  {
    if s != [] {
      DefinedNonePresent(s[..|s| - 1]);
    }
  }

  // ---------------------------------------------------------------- digits

  /** The value of an ASCII letter or digit as a digit of radix up to 36; 36 for any other character. */
  function DigitOf(c: char): (d: nat)
    ensures d <= 36
  {
    if '0' <= c <= '9' then c as int - '0' as int
    else if 'a' <= c <= 'z' then c as int - 'a' as int + 10
    else if 'A' <= c <= 'Z' then c as int - 'A' as int + 10
    else 36
  }

  predicate IsDigit(c: char) {
    '0' <= c <= '9'
  }

  predicate AllRadixDigits(s: string, radix: nat) {
    forall i :: 0 <= i < |s| ==> DigitOf(s[i]) < radix
  }

  predicate AllDigits(s: string) {
    forall i :: 0 <= i < |s| ==> IsDigit(s[i])
  }

  function DigitChar(d: nat): (c: char)
    requires d < 10
    ensures IsDigit(c) && DigitOf(c) == d
  {
    ('0' as int + d) as char
  }

  /** The number a string of radix digits spells, most significant digit first. */
  function RadixValue(s: string, radix: nat): nat
  {
    if s == [] then 0
    else radix * RadixValue(s[..|s| - 1], radix) + (if DigitOf(s[|s| - 1]) < radix then DigitOf(s[|s| - 1]) else 0)
  }

  /** `String(n)` for a non-negative integer: decimal digits without a leading zero. */
  function NatString(n: nat): (s: string)
    ensures 1 <= |s| && AllDigits(s)
    ensures |s| > 1 ==> s[0] != '0'
  {
    if n < 10 then [DigitChar(n)] else NatString(n / 10) + [DigitChar(n % 10)]
  }

  /** `String(n)` for any integer. */
  function IntString(n: int): (s: string)
    ensures 1 <= |s|
    ensures n >= 0 ==> AllDigits(s)
    ensures n < 0 ==> s[0] == '-' && AllDigits(s[1..])
  {
    if n < 0 then "-" + NatString(-n) else NatString(n)
  }

  lemma {:induction false} NatStringValue(n: nat)
    ensures RadixValue(NatString(n), 10) == n
  {
    if n >= 10 {
      var s := NatString(n);
      assert s[..|s| - 1] == NatString(n / 10);
      NatStringValue(n / 10);
    }
  }

  /** Leading zeros do not change a decimal value. */
  lemma {:induction false} LeadingZerosValue(z: string, s: string)
    requires forall i :: 0 <= i < |z| ==> z[i] == '0'
    ensures RadixValue(z + s, 10) == RadixValue(s, 10)
  {
    if s == [] {
      assert z + s == z;
      ZerosValue(z);
    } else {
      assert (z + s)[..|z + s| - 1] == z + s[..|s| - 1];
      LeadingZerosValue(z, s[..|s| - 1]);
    }
  }

  lemma {:induction false} ZerosValue(z: string)
    requires forall i :: 0 <= i < |z| ==> z[i] == '0'
    ensures RadixValue(z, 10) == 0
  {
    if z != [] {
      ZerosValue(z[..|z| - 1]);
    }
  }

  // ---------------------------------------------------------------- padding

  function Repeat(c: char, n: nat): (r: string)
    ensures |r| == n && forall i :: 0 <= i < n ==> r[i] == c
  {
    if n == 0 then [] else [c] + Repeat(c, n - 1)
  }

  /** `s.padStart(width, fill)` with a one-character fill. */
  function PadStart(s: string, width: nat, fill: char): (r: string)
    ensures |r| == if |s| >= width then |s| else width
    ensures r[|r| - |s|..] == s
    ensures forall i :: 0 <= i < |r| - |s| ==> r[i] == fill
  {
    if |s| >= width then s else Repeat(fill, width - |s|) + s
  }

  /** A non-negative number written in decimal and zero-padded reads back as itself. */
  lemma PaddedValue(n: nat, width: nat)
    ensures AllDigits(PadStart(NatString(n), width, '0'))
    ensures RadixValue(PadStart(NatString(n), width, '0'), 10) == n
  {
    var s := NatString(n);
    NatStringValue(n);
    if |s| < width {
      LeadingZerosValue(Repeat('0', width - |s|), s);
    }
  }

  // ---------------------------------------------------------------- whitespace, trim

  /**
   * The white space and line terminators that `trim`, `parseInt` and
   * `Number` skip: tab, line feed, vertical tab, form feed, carriage return,
   * the byte-order mark, the two line and paragraph separators, and every
   * Unicode `Zs` space (U+0020, U+00A0, U+1680, U+2000 to U+200A, U+202F,
   * U+205F, U+3000).
   */
  predicate IsWhitespace(c: char) {
    if c < '\U{A0}' then c == ' ' || ('\t' <= c <= '\r')
    else
      || c == '\U{A0}' || c == '\U{1680}' || ('\U{2000}' <= c <= '\U{200A}')
      || c == '\U{2028}' || c == '\U{2029}' || c == '\U{202F}' || c == '\U{205F}'
      || c == '\U{3000}' || c == '\U{FEFF}'
  }

  function TrimStart(s: string): (r: string)
    ensures r == [] || !IsWhitespace(r[0])
    ensures |r| <= |s| && r == s[|s| - |r|..]
    ensures forall i :: 0 <= i < |s| - |r| ==> IsWhitespace(s[i])
  {
    if s != [] && IsWhitespace(s[0]) then TrimStart(s[1..]) else s
  }

  function TrimEnd(s: string): (r: string)
    ensures r == [] || !IsWhitespace(r[|r| - 1])
    ensures |r| <= |s| && r == s[..|r|]
    ensures forall i :: |r| <= i < |s| ==> IsWhitespace(s[i])
  {
    if s != [] && IsWhitespace(s[|s| - 1]) then TrimEnd(s[..|s| - 1]) else s
  }

  /** `s.trim()`. */
  function Trim(s: string): string {
    TrimEnd(TrimStart(s))
  }

  // ---------------------------------------------------------------- string tests

  /** `s.startsWith(p)`. */
  predicate StartsWith(s: string, p: string) {
    |p| <= |s| && s[..|p|] == p
  }

  /** `s.includes(p)`. */
  predicate Contains(s: string, p: string)
    decreases |s|
  {
    StartsWith(s, p) || (s != [] && Contains(s[1..], p))
  }

  lemma ContainsPrefix(s: string, p: string)
    requires StartsWith(s, p)
    ensures Contains(s, p)
  {
  }

  /** `xs.join(sep)`. */
  function Join(xs: seq<string>, sep: string): string
  {
    if |xs| == 0 then "" else if |xs| == 1 then xs[0] else xs[0] + sep + Join(xs[1..], sep)
  }

  // ---------------------------------------------------------------- string order

  /**
   * `a <= b` on strings, character by character. On the ASCII digit-and-dash
   * keys this project sorts, `localeCompare` orders the same way.
   */
  predicate LexLe(a: string, b: string) {
    a == [] || (b != [] && (a[0] < b[0] || (a[0] == b[0] && LexLe(a[1..], b[1..]))))
  }

  lemma {:induction false} LexLeTotal(a: string, b: string)
    ensures LexLe(a, b) || LexLe(b, a)
  {
    if a != [] && b != [] && a[0] == b[0] {
      LexLeTotal(a[1..], b[1..]);
    }
  }

  lemma {:induction false} LexLeTransitive(a: string, b: string, c: string)
    requires LexLe(a, b) && LexLe(b, c)
    ensures LexLe(a, c)
  {
    if a != [] && b != [] && c != [] && a[0] == b[0] && b[0] == c[0] {
      LexLeTransitive(a[1..], b[1..], c[1..]);
    }
  }

  lemma {:induction false} LexLeAntisymmetric(a: string, b: string)
    requires LexLe(a, b) && LexLe(b, a)
    ensures a == b
  {
    if a != [] && b != [] {
      LexLeAntisymmetric(a[1..], b[1..]);
      assert a == [a[0]] + a[1..] && b == [b[0]] + b[1..];
    }
  }

  /** A common prefix does not affect the order. */
  lemma {:induction false} LexLeCommonPrefix(p: string, a: string, b: string)
    ensures LexLe(p + a, p + b) == LexLe(a, b)
  {
    if p != [] {
      assert (p + a)[1..] == p[1..] + a;
      assert (p + b)[1..] == p[1..] + b;
      LexLeCommonPrefix(p[1..], a, b);
    } else {
      assert p + a == a && p + b == b;
    }
  }

  /** A number from 1000 to 9999 is written with four digits. */
  lemma FourDigits(n: nat)
    requires 1000 <= n <= 9999
    ensures |NatString(n)| == 4
  {
    assert NatString(n) == NatString(n / 10) + [DigitChar(n % 10)];
    assert NatString(n / 10) == NatString(n / 100) + [DigitChar(n / 10 % 10)];
    assert NatString(n / 100) == NatString(n / 1000) + [DigitChar(n / 100 % 10)];
  }

  /** Between strings of one length that differ, whatever follows does not affect the order. */
  lemma {:induction false} LexLeFirstDifference(a: string, b: string, x: string, y: string)
    requires |a| == |b| && a != b
    ensures LexLe(a + x, b + y) == LexLe(a, b)
  {
    assert a != [];
    if a[0] == b[0] {
      assert a[1..] != b[1..] by {
        assert a == [a[0]] + a[1..] && b == [b[0]] + b[1..];
      }
      assert (a + x)[1..] == a[1..] + x;
      assert (b + y)[1..] == b[1..] + y;
      LexLeFirstDifference(a[1..], b[1..], x, y);
    }
  }

  function Pow10(n: nat): (r: nat)
    ensures r >= 1
  {
    if n == 0 then 1 else 10 * Pow10(n - 1)
  }

  lemma {:induction false} DigitsBound(s: string)
    requires AllDigits(s)
    ensures RadixValue(s, 10) < Pow10(|s|)
  {
    if s != [] {
      DigitsBound(s[..|s| - 1]);
    }
  }

  /** The value of a decimal string read from its first digit. */
  lemma {:induction false} DigitsFront(s: string)
    requires s != [] && AllDigits(s)
    ensures RadixValue(s, 10) == DigitOf(s[0]) * Pow10(|s| - 1) + RadixValue(s[1..], 10)
  {
    var n := |s|;
    if n >= 2 {
      var init, t := s[..n - 1], s[1..];
      var last := DigitOf(s[n - 1]);
      var d0, p := DigitOf(s[0]), Pow10(n - 2);
      var vi, vm := RadixValue(init, 10), RadixValue(t[..n - 2], 10);
      assert vi == d0 * p + vm by {
        DigitsFront(init);
        assert init[1..] == t[..n - 2];
      }
      assert RadixValue(s, 10) == 10 * vi + last;
      assert RadixValue(t, 10) == 10 * vm + last;
      assert 10 * (d0 * p) == d0 * Pow10(n - 1) by { MulAssoc10(d0, p); }
    }
  }

  lemma MulAssoc10(a: int, b: int)
    ensures 10 * (a * b) == a * (10 * b)
  {
  }

  /** On decimal strings of one length, string order is numeric order. */
  lemma {:induction false} DigitsOrder(a: string, b: string)
    requires |a| == |b| && AllDigits(a) && AllDigits(b)
    ensures LexLe(a, b) <==> RadixValue(a, 10) <= RadixValue(b, 10)
  {
    if a != [] {
      if a[0] == b[0] {
        assert LexLe(a, b) == LexLe(a[1..], b[1..]);
        DigitsOrder(a[1..], b[1..]);
        DigitsFront(a);
        DigitsFront(b);
      } else if a[0] < b[0] {
        assert LexLe(a, b);
        FirstDigitDecides(a, b);
      } else {
        assert !LexLe(a, b);
        FirstDigitDecides(b, a);
      }
    }
  }

  /** Of two decimal strings of one length, the one with the smaller first digit has the smaller value. */
  lemma FirstDigitDecides(a: string, b: string)
    requires |a| == |b| && a != [] && AllDigits(a) && AllDigits(b) && a[0] < b[0]
    ensures RadixValue(a, 10) < RadixValue(b, 10)
  {
    var p := Pow10(|a| - 1);
    var da, db := DigitOf(a[0]), DigitOf(b[0]);
    assert IsDigit(a[0]) && IsDigit(b[0]);
    assert da < db;
    DigitsFront(a);
    DigitsFront(b);
    DigitsBound(a[1..]);
    MulStep(da, db, p);
  }

  lemma MulStep(x: int, y: int, p: nat)
    requires x < y
    ensures x * p + p <= y * p
  {
    var k := y - x - 1;
    assert y * p == x * p + p + k * p;
  }

  // ---------------------------------------------------------------- parseInt, Number

  /** The length of the longest prefix of `s` made of digits of the radix. */
  function RadixPrefixLength(s: string, radix: nat): (n: nat)
    ensures n <= |s| && AllRadixDigits(s[..n], radix)
    ensures n < |s| ==> DigitOf(s[n]) >= radix
  {
    if s != [] && DigitOf(s[0]) < radix then
      var k := RadixPrefixLength(s[1..], radix);
      assert s[..k + 1] == [s[0]] + s[1..][..k];
      k + 1
    else 0
  }

  /** Reads the longest run of radix digits at the start of `v`; `NaN` when there is none. */
  function ParseDigitRun(v: string, radix: nat): (r: Option<nat>)
    ensures r.Some? <==> (v != [] && DigitOf(v[0]) < radix)
  {
    var n := RadixPrefixLength(v, radix);
    if n == 0 then None else Some(RadixValue(v[..n], radix))
  }

  function Signed(negative: bool, magnitude: nat): int {
    var m: int := magnitude;
    if negative then -m else m
  }

  /** `t` without a leading `+` or `-`. */
  function Unsigned(t: string): (u: string)
    ensures u == t || (t != [] && u == t[1..])
  {
    if t != [] && (t[0] == '-' || t[0] == '+') then t[1..] else t
  }

  predicate HasHexPrefix(u: string) {
    |u| >= 2 && u[0] == '0' && (u[1] == 'x' || u[1] == 'X')
  }

  /**
   * `parseInt(s)` without a radix argument: leading white space is skipped,
   * one sign is read, a `0x`/`0X` prefix switches to radix 16, and the longest
   * run of digits that follows is read; no digit at all gives `NaN`.
   */
  function ParseInt(s: string): Option<int>
  {
    var t := TrimStart(s);
    var u := Unsigned(t);
    var run := if HasHexPrefix(u) then ParseDigitRun(u[2..], 16) else ParseDigitRun(u, 10);
    if run.None? then None else Some(Signed(t != [] && t[0] == '-', run.value))
  }

  /** `parseInt` reads a run of decimal digits and stops at the first character that cannot continue it. */
  lemma ParseIntPrefix(digits: string, rest: string)
    requires |digits| >= 1 && AllDigits(digits)
    requires rest == [] || !IsDigit(rest[0])
    requires digits == "0" && rest != [] ==> rest[0] != 'x' && rest[0] != 'X'
    ensures ParseInt(digits + rest) == Some(RadixValue(digits, 10))
  {
    var s := digits + rest;
    assert !HasHexPrefix(s) by {
      if |s| >= 2 && s[0] == '0' {
        if |digits| >= 2 { assert s[1] == digits[1]; } else { assert digits == "0" && s[1] == rest[0]; }
      }
    }
    assert s[0] == digits[0];
    ParseIntUnsigned(s);
    PrefixLengthOfDigits(digits, rest);
    assert s[..|digits|] == digits;
  }

  /** On a string that starts with a decimal digit, `parseInt` is the digit run. */
  lemma ParseIntUnsigned(s: string)
    requires s != [] && IsDigit(s[0]) && !HasHexPrefix(s)
    ensures ParseInt(s) == Some(RadixValue(s[..RadixPrefixLength(s, 10)], 10))
  {
    TrimStartKeeps(s);
    UnsignedKeeps(s);
    assert ParseDigitRun(s, 10).Some?;
  }

  /** `parseInt` of a string that starts with neither white space, a sign nor a decimal digit is `NaN`. */
  lemma ParseIntNoDigit(s: string)
    requires s != [] && !IsWhitespace(s[0]) && s[0] != '-' && s[0] != '+' && DigitOf(s[0]) >= 10
    ensures ParseInt(s) == None
  {
    TrimStartKeeps(s);
    assert Unsigned(s) == s;
  }

  lemma UnsignedKeeps(s: string)
    requires s != [] && IsDigit(s[0])
    ensures Unsigned(s) == s
  {
  }

  lemma TrimStartKeeps(s: string)
    requires s == [] || !IsWhitespace(s[0])
    ensures TrimStart(s) == s
  {
  }

  lemma TrimEndKeeps(s: string)
    requires s == [] || !IsWhitespace(s[|s| - 1])
    ensures TrimEnd(s) == s
  {
  }

  lemma {:induction false} PrefixLengthOfDigits(digits: string, rest: string)
    requires AllDigits(digits)
    requires rest == [] || !IsDigit(rest[0])
    ensures RadixPrefixLength(digits + rest, 10) == |digits|
  {
    var s := digits + rest;
    if digits != [] {
      assert s[0] == digits[0] && DigitOf(s[0]) < 10;
      assert s[1..] == digits[1..] + rest;
      assert AllDigits(digits[1..]) by {
        forall i | 0 <= i < |digits| - 1
          ensures IsDigit(digits[1..][i])
        {
          assert digits[1..][i] == digits[i + 1];
        }
      }
      PrefixLengthOfDigits(digits[1..], rest);
      assert RadixPrefixLength(s, 10) == RadixPrefixLength(s[1..], 10) + 1;
    } else {
      assert s == rest;
      if rest != [] {
        assert DigitOf(rest[0]) >= 10;
      }
    }
  }

  /** `parseInt(String(n)) == n`. */
  lemma ParseIntOfIntString(n: int)
    ensures ParseInt(IntString(n)) == Some(n)
  {
    var m: nat := if n < 0 then -n else n;
    var d := NatString(m);
    NatStringValue(m);
    assert d + [] == d;
    if n >= 0 {
      ParseIntPrefix(d, []);
    } else {
      var s := IntString(n);
      assert s == "-" + d;
      assert TrimStart(s) == s;
      assert Unsigned(s) == d;
      assert !HasHexPrefix(d) by {
        if |d| >= 2 { assert IsDigit(d[1]); }
      }
      PrefixLengthOfDigits(d, []);
      assert d[..|d|] == d;
    }
  }

  /** The radix a `Number` literal prefix `0x`, `0o` or `0b` selects, or 0 for no such prefix. */
  function PrefixRadix(c: char): nat {
    if c == 'x' || c == 'X' then 16 else if c == 'o' || c == 'O' then 8 else if c == 'b' || c == 'B' then 2 else 0
  }

  /**
   * `Number(s)` on the integer spellings: after trimming, the empty string is
   * 0, an optionally signed run of decimal digits is its value, and an unsigned
   * `0x`, `0o` or `0b` literal is read in that radix; anything else is `NaN`.
   */
  function NumberOf(s: string): Option<int>
  {
    var t := Trim(s);
    if t == [] then Some(0)
    else if |t| > 2 && t[0] == '0' && PrefixRadix(t[1]) != 0 && AllRadixDigits(t[2..], PrefixRadix(t[1])) then
      Some(RadixValue(t[2..], PrefixRadix(t[1])))
    else
      var u := Unsigned(t);
      if u != [] && AllDigits(u) then Some(Signed(t[0] == '-', RadixValue(u, 10))) else None
  }

  /** `Number(String(n)) == n`. */
  lemma NumberOfIntString(n: int)
    ensures NumberOf(IntString(n)) == Some(n)
  {
    var m: nat := if n < 0 then -n else n;
    NatStringValue(m);
    var s := IntString(n);
    var d := NatString(m);
    assert s[|s| - 1] == d[|d| - 1];
    TrimStartKeeps(s);
    TrimEndKeeps(s);
    assert Trim(s) == s;
    if n < 0 {
      assert s[1..] == d;
      assert Unsigned(s) == d;
    } else {
      UnsignedKeeps(s);
    }
  }
}

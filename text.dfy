/** The handful of Python `str` operations the modelled code relies on:
    `isspace`/`\s`, `strip`, `lower`, `in`, `rfind`, slicing, `join` and
    `str(int)`. */
module Text {

  /** Python's `str.isspace`, which is also what the `\s` class of `re`
      matches in a `str` pattern. */
  predicate IsSpace(c: char) {
    || c == ' '
    || ('\t' <= c <= '\r')
    || ('\U{1C}' <= c <= '\U{1F}')
    || c == '\U{85}' || c == '\U{A0}' || c == '\U{1680}'
    || ('\U{2000}' <= c <= '\U{200A}')
    || c == '\U{2028}' || c == '\U{2029}' || c == '\U{202F}'
    || c == '\U{205F}' || c == '\U{3000}'
  }

  predicate AllSpace(s: string) {
    forall k :: 0 <= k < |s| ==> IsSpace(s[k])
  }

  /** `s.lstrip()`: what is left is a suffix of `s`, everything dropped is
      white space, and the remainder does not start with white space. */
  function TrimStart(s: string): (r: string)
    ensures |r| <= |s| && r == s[|s| - |r|..]
    ensures AllSpace(s[..|s| - |r|])
    ensures |r| > 0 ==> !IsSpace(r[0])
    decreases |s|
  {
    if |s| > 0 && IsSpace(s[0]) then
      var r := TrimStart(s[1..]);
      assert s[..|s| - |r|] == [s[0]] + s[1..][..|s[1..]| - |r|];
      r
    else s
  }

  /** `s.rstrip()`: what is left is a prefix of `s`, everything dropped is
      white space, and the remainder does not end with white space. */
  function TrimEnd(s: string): (r: string)
    ensures |r| <= |s| && r == s[..|r|]
    ensures AllSpace(s[|r|..])
    ensures |r| > 0 ==> !IsSpace(r[|r| - 1])
    decreases |s|
  {
    if |s| > 0 && IsSpace(s[|s| - 1]) then
      var r := TrimEnd(s[..|s| - 1]);
      assert s[|r|..] == s[..|s| - 1][|r|..] + [s[|s| - 1]];
      r
    else s
  }

  /** `s.strip()`. */
  function Trim(s: string): (r: string)
    ensures |r| <= |s|
    ensures |r| > 0 ==> !IsSpace(r[0]) && !IsSpace(r[|r| - 1])
  {
    var t := TrimStart(s);
    var r := TrimEnd(t);
    assert |r| > 0 ==> r[0] == t[0];
    r
  }

  /** A string with no white space at either end is its own strip. */
  lemma TrimUnpadded(s: string)
    requires |s| > 0 ==> !IsSpace(s[0]) && !IsSpace(s[|s| - 1])
    ensures Trim(s) == s
  {
  }

  lemma {:induction false} TrimStartSkipsSpace(a: string, y: string)
    requires AllSpace(a)
    ensures TrimStart(a + y) == TrimStart(y)
    decreases |a|
  {
    if a != [] {
      assert (a + y)[1..] == a[1..] + y;
      TrimStartSkipsSpace(a[1..], y);
    } else {
      assert a + y == y;
    }
  }

  lemma {:induction false} TrimEndSkipsSpace(y: string, b: string)
    requires AllSpace(b)
    ensures TrimEnd(y + b) == TrimEnd(y)
    decreases |b|
  {
    if b != [] {
      var b' := b[..|b| - 1];
      assert (y + b)[..|y + b| - 1] == y + b';
      TrimEndSkipsSpace(y, b');
    } else {
      assert y + b == y;
    }
  }

  lemma {:induction false} TrimSkipsTrailingSpace(x: string, b: string)
    requires AllSpace(b)
    ensures TrimEnd(TrimStart(x + b)) == TrimEnd(TrimStart(x))
    decreases |x|
  {
    if x == [] {
      assert x + b == b;
      assert TrimStart(b) == [];
    } else if IsSpace(x[0]) {
      assert (x + b)[1..] == x[1..] + b;
      TrimSkipsTrailingSpace(x[1..], b);
    } else {
      TrimEndSkipsSpace(x, b);
    }
  }

  /** Stripping ignores any white space added around the string. */
  lemma TrimPadded(a: string, x: string, b: string)
    requires AllSpace(a) && AllSpace(b)
    ensures Trim(a + x + b) == Trim(x)
  {
    assert a + x + b == a + (x + b);
    TrimStartSkipsSpace(a, x + b);
    assert TrimStart(a + (x + b)) == TrimStart(x + b);
    TrimSkipsTrailingSpace(x, b);
    assert TrimEnd(TrimStart(x + b)) == TrimEnd(TrimStart(x));
  }

  function LowerChar(c: char): char {
    if 'A' <= c <= 'Z' then (c as int - 'A' as int + 'a' as int) as char else c
  }

  /** `s.lower()`, restricted to the ASCII letters. */
  function Lower(s: string): string {
    seq(|s|, k requires 0 <= k < |s| => LowerChar(s[k]))
  }

  predicate IsPrefix(p: string, s: string) {
    |p| <= |s| && s[..|p|] == p
  }

  /** Python's `sub in s`. */
  predicate Contains(s: string, sub: string)
    decreases |s|
  {
    IsPrefix(sub, s) || (|s| > 0 && Contains(s[1..], sub))
  }

  /** An occurrence at a known offset makes `sub in s` true. */
  lemma {:induction false} ContainsAt(s: string, sub: string, k: nat)
    requires k + |sub| <= |s| && s[k..k + |sub|] == sub
    ensures Contains(s, sub)
    decreases k
  {
    if k > 0 {
      assert s[1..][k - 1..k - 1 + |sub|] == sub;
      ContainsAt(s[1..], sub, k - 1);
    }
  }

  /** `s[:n]`. */
  function Take(s: string, n: nat): (r: string)
    ensures |r| <= n && IsPrefix(r, s)
    ensures |s| <= n ==> r == s
    ensures |s| > n ==> |r| == n && r == s[..n]
  {
    if |s| <= n then s else s[..n]
  }

  /** `s.rfind(c)`: the last index holding `c`, or -1. */
  function LastIndexOf(s: string, c: char): (i: int)
    ensures -1 <= i < |s|
    ensures i >= 0 ==> s[i] == c
    ensures forall j :: i < j < |s| ==> s[j] != c
    decreases |s|
  {
    if |s| == 0 then -1
    else if s[|s| - 1] == c then |s| - 1
    else LastIndexOf(s[..|s| - 1], c)
  }

  /** `sep.join(parts)`. */
  function Join(sep: string, parts: seq<string>): string
    decreases |parts|
  {
    if |parts| == 0 then ""
    else if |parts| == 1 then parts[0]
    else parts[0] + sep + Join(sep, parts[1..])
  }

  /** Every part, each preceded by `sep`, run together. */
  function Prefixed(sep: string, parts: seq<string>): string
    decreases |parts|
  {
    if |parts| == 0 then "" else sep + parts[0] + Prefixed(sep, parts[1..])
  }

  /** Joining a head and a tail puts the separator before every tail part. */
  lemma {:induction false} JoinHeadTail(sep: string, h: string, t: seq<string>)
    ensures Join(sep, [h] + t) == h + Prefixed(sep, t)
    decreases |t|
  {
    if |t| > 0 {
      assert ([h] + t)[1..] == [t[0]] + t[1..];
      JoinHeadTail(sep, t[0], t[1..]);
    } else {
      assert [h] + t == [h];
    }
  }

  /** Every part occurs in the joined string. */
  lemma {:induction false} JoinContains(sep: string, parts: seq<string>, k: nat)
    requires k < |parts|
    ensures Contains(Join(sep, parts), parts[k])
    decreases |parts|
  {
    if |parts| == 1 {
      ContainsAt(parts[0], parts[0], 0);
    } else if k == 0 {
      ContainsAt(Join(sep, parts), parts[0], 0);
    } else {
      var rest := Join(sep, parts[1..]);
      JoinContains(sep, parts[1..], k - 1);
      ContainsShift(parts[0] + sep, rest, parts[k]);
    }
  }

  /** An occurrence in a suffix is an occurrence in the whole. */
  lemma {:induction false} ContainsShift(p: string, s: string, sub: string)
    requires Contains(s, sub)
    ensures Contains(p + s, sub)
    decreases |p|
  {
    if |p| > 0 {
      assert (p + s)[1..] == p[1..] + s;
      ContainsShift(p[1..], s, sub);
    } else {
      assert p + s == s;
    }
  }

  function DigitChar(d: nat): char
    requires d < 10
  {
    "0123456789"[d]
  }

  predicate IsDigits(s: string) {
    forall k :: 0 <= k < |s| ==> '0' <= s[k] <= '9'
  }

  /** `str(n)` for a non-negative integer: a non-empty run of decimal digits
      with a leading zero only for zero itself. */
  function NatToDecimal(n: nat): (r: string)
    ensures |r| > 0 && IsDigits(r)
    ensures (r[0] == '0') == (n == 0)
    decreases n
  {
    if n < 10 then [DigitChar(n)] else NatToDecimal(n / 10) + [DigitChar(n % 10)]
  }

  /** Reading a string of decimal digits back as a number. */
  function DecimalValue(s: string): nat
    requires IsDigits(s)
    decreases |s|
  {
    if |s| == 0 then 0 else DecimalValue(s[..|s| - 1]) * 10 + (s[|s| - 1] as int - '0' as int)
  }

  /** `int(str(n)) == n`. */
  lemma {:induction false} DecimalRoundTrip(n: nat)
    ensures DecimalValue(NatToDecimal(n)) == n
    decreases n
  {
    if n >= 10 {
      var r := NatToDecimal(n);
      assert r[..|r| - 1] == NatToDecimal(n / 10);
      DecimalRoundTrip(n / 10);
    }
  }
}

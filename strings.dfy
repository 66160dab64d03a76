/**
 * The few Python string operations the pipelines rely on: `str.isspace`/`str.strip`,
 * `str.startswith`, `str.split` on one character, `sep.join`, ASCII `str.lower`,
 * the `in` substring test and the decimal rendering of an `int` in an f-string.
 */
module Strings {

  /** Python's `str.isspace()` for one character: the code points `str.strip()` removes. */
  predicate IsSpace(c: char) {
    ('\t' <= c <= '\r') || ('\U{1C}' <= c <= '\U{1F}') || c == ' ' || c == '\U{85}' || c == '\U{A0}'
    || c == '\U{1680}' || ('\U{2000}' <= c <= '\U{200A}') || c == '\U{2028}' || c == '\U{2029}'
    || c == '\U{202F}' || c == '\U{205F}' || c == '\U{3000}'
  }

  /** `s.lstrip()`: drops the leading whitespace, and only that. */
  function StripStart(s: string): (r: string)
    ensures |r| <= |s| && r == s[|s| - |r|..]
    ensures forall k :: 0 <= k < |s| - |r| ==> IsSpace(s[k])
    ensures r == [] || !IsSpace(r[0])
  {
    if |s| > 0 && IsSpace(s[0]) then StripStart(s[1..]) else s
  }

  /** `s.rstrip()`: drops the trailing whitespace, and only that. */
  function StripEnd(s: string): (r: string)
    ensures |r| <= |s| && r == s[..|r|]
    ensures forall k :: |r| <= k < |s| ==> IsSpace(s[k])
    ensures r == [] || !IsSpace(r[|r| - 1])
  {
    if |s| > 0 && IsSpace(s[|s| - 1]) then StripEnd(s[..|s| - 1]) else s
  }

  /** `s.strip()`: whitespace removed at both ends. */
  function Strip(s: string): (r: string)
    ensures |r| <= |s|
    ensures r != [] ==> !IsSpace(r[0]) && !IsSpace(r[|r| - 1])
    ensures r == [] <==> forall k :: 0 <= k < |s| ==> IsSpace(s[k])
  {
    var t := StripStart(s);
    assert t != [] ==> t[0] == s[|s| - |t|];
    StripEnd(t)
  }

  /** `lstrip` of whitespace followed by a text that does not start with whitespace is that text. */
  lemma {:induction false} StripStartPadded(w: string, t: string)
    requires forall k :: 0 <= k < |w| ==> IsSpace(w[k])
    requires t == [] || !IsSpace(t[0])
    ensures StripStart(w + t) == t
  {
    if w != [] {
      assert (w + t)[1..] == w[1..] + t;
      StripStartPadded(w[1..], t);
    }
  }

  /** `rstrip` of a text that does not end in whitespace, followed by whitespace, is that text. */
  lemma {:induction false} StripEndPadded(t: string, w: string)
    requires forall k :: 0 <= k < |w| ==> IsSpace(w[k])
    requires t == [] || !IsSpace(t[|t| - 1])
    ensures StripEnd(t + w) == t
  {
    if w != [] {
      assert (t + w)[..|t + w| - 1] == t + w[..|w| - 1];
      StripEndPadded(t, w[..|w| - 1]);
    }
  }

  /** `Strip` finds the text between the padding: `(w1 + t + w2).strip() == t`. */
  lemma StripPadded(w1: string, t: string, w2: string)
    requires forall k :: 0 <= k < |w1| ==> IsSpace(w1[k])
    requires forall k :: 0 <= k < |w2| ==> IsSpace(w2[k])
    requires t != [] ==> !IsSpace(t[0]) && !IsSpace(t[|t| - 1])
    ensures Strip(w1 + t + w2) == t
  {
    if t == [] {
      assert w1 + t + w2 == w1 + w2;
      assert forall k :: 0 <= k < |w1 + w2| ==> IsSpace((w1 + w2)[k]);
    } else {
      assert w1 + t + w2 == w1 + (t + w2);
      StripStartPadded(w1, t + w2);
      StripEndPadded(t, w2);
    }
  }

  /** Stripping twice is stripping once. */
  lemma StripIdempotent(s: string)
    ensures Strip(Strip(s)) == Strip(s)
  {
    var r := Strip(s);
    StripPadded([], r, []);
    assert [] + r + [] == r;
  }

  /** `r` is the slice of `s` at `i`, with only whitespace outside it. */
  ghost predicate PaddedAt(s: string, r: string, i: int) {
    0 <= i <= |s| - |r| && r == s[i..i + |r|]
    && (forall k :: 0 <= k < i ==> IsSpace(s[k]))
    && (forall k :: i + |r| <= k < |s| ==> IsSpace(s[k]))
  }

  /** `s.strip()` is a slice of `s` with only whitespace outside it. */
  lemma StripWindow(s: string)
    ensures exists i :: PaddedAt(s, Strip(s), i)
  {
    var t := StripStart(s);
    var r := StripEnd(t);
    var i := |s| - |t|;
    assert Strip(s) == r;
    assert t == s[i..] && r == t[..|r|];
    assert forall k :: 0 <= k < i ==> IsSpace(s[k]);
    assert forall k :: |r| <= k < |t| ==> IsSpace(t[k]);
    PaddedInside(s, t, r, i);
    assert PaddedAt(s, Strip(s), i);
  }

  /** `r`, the start of the tail `t` of `s` at `i`, with whitespace before `i` and after `r` in `t`. */
  lemma PaddedInside(s: string, t: string, r: string, i: nat)
    requires i <= |s| && t == s[i..] && |r| <= |t| && r == t[..|r|]
    requires forall k :: 0 <= k < i ==> IsSpace(s[k])
    requires forall k :: |r| <= k < |t| ==> IsSpace(t[k])
    ensures PaddedAt(s, r, i)
  {
    forall k | i + |r| <= k < |s| ensures IsSpace(s[k]) {
      assert s[k] == t[k - i];
    }
  }

  /** `s.startswith(p)`. */
  predicate StartsWith(s: string, p: string) {
    |p| <= |s| && s[..|p|] == p
  }

  /** Index of the first `c` in `s`, or `|s|` when there is none. */
  function IndexOf(s: string, c: char): (k: nat)
    ensures k <= |s|
    ensures k < |s| ==> s[k] == c
    ensures forall j :: 0 <= j < k ==> s[j] != c
  {
    if |s| == 0 then 0 else if s[0] == c then 0 else 1 + IndexOf(s[1..], c)
  }

  /** `s.split(c)`: the maximal `c`-free pieces between the occurrences of `c`. */
  function Split(s: string, c: char): (parts: seq<string>)
    ensures |parts| >= 1
    ensures forall i :: 0 <= i < |parts| ==> c !in parts[i]
    decreases |s|
  {
    var k := IndexOf(s, c);
    if k == |s| then
      assert c !in s;
      [s]
    else
      assert c !in s[..k];
      [s[..k]] + Split(s[k + 1..], c)
  }

  /** `sep.join(parts)`. */
  function Join(parts: seq<string>, sep: string): string {
    if |parts| == 0 then ""
    else if |parts| == 1 then parts[0]
    else parts[0] + sep + Join(parts[1..], sep)
  }

  /** The first piece of `a + [c] + b` is `a` when `a` holds no `c`. */
  lemma SplitAtFirst(a: string, c: char, b: string)
    requires c !in a
    ensures Split(a + [c] + b, c) == [a] + Split(b, c)
  {
    var s := a + [c] + b;
    assert s[|a|] == c;
    assert forall j :: 0 <= j < |a| ==> s[j] == a[j];
    assert IndexOf(s, c) == |a|;
    assert s[..|a|] == a;
    assert s[|a| + 1..] == b;
  }

  /** ASCII `str.lower()` for one character. */
  function LowerChar(c: char): (d: char)
    ensures 'A' <= c <= 'Z' ==> d as int == c as int + 32
    ensures !('A' <= c <= 'Z') ==> d == c
  {
    if 'A' <= c <= 'Z' then (c as int + 32) as char else c
  }

  /** ASCII `str.lower()`. */
  function Lower(s: string): (r: string)
    ensures |r| == |s| && forall i :: 0 <= i < |s| ==> r[i] == LowerChar(s[i])
  {
    seq(|s|, i requires 0 <= i < |s| => LowerChar(s[i]))
  }

  /** Lower-casing is idempotent. */
  lemma LowerIdempotent(s: string)
    ensures Lower(Lower(s)) == Lower(s)
  {
    assert forall i :: 0 <= i < |s| ==> Lower(Lower(s))[i] == Lower(s)[i];
  }

  /** Python's `p in s` on strings, by scanning the start positions. */
  function Contains(s: string, p: string): bool
    decreases |s|
  {
    StartsWith(s, p) || (|s| > 0 && Contains(s[1..], p))
  }

  /** `p` occurs in `s` at offset `i`. */
  ghost predicate OccursAt(s: string, p: string, i: int) {
    0 <= i <= |s| - |p| && s[i..i + |p|] == p
  }

  /** `Contains` holds exactly when `p` occurs as an infix of `s`. */
  lemma {:induction false} ContainsIff(s: string, p: string)
    ensures Contains(s, p) <==> exists i :: OccursAt(s, p, i)
    decreases |s|
  {
    if |s| > 0 {
      ContainsIff(s[1..], p);
      if exists i :: OccursAt(s, p, i) {
        var i :| OccursAt(s, p, i);
        if i > 0 {
          assert OccursAt(s[1..], p, i - 1);
          assert Contains(s[1..], p);
        } else {
          assert StartsWith(s, p);
        }
      }
      if StartsWith(s, p) {
        assert OccursAt(s, p, 0);
      }
      if Contains(s[1..], p) {
        var i :| OccursAt(s[1..], p, i);
        assert OccursAt(s, p, i + 1);
      }
    } else {
      if exists i :: OccursAt(s, p, i) {
        var i :| OccursAt(s, p, i);
        assert p == [];
      }
      if p == [] {
        assert OccursAt(s, p, 0);
      }
    }
  }

  function DigitChar(d: nat): char
    requires d < 10
  {
    ('0' as int + d) as char
  }

  /** The decimal rendering `str(n)` of a non-negative integer. */
  function NatToString(n: nat): (r: string)
    ensures |r| >= 1
    ensures forall i :: 0 <= i < |r| ==> '0' <= r[i] <= '9'
  {
    if n < 10 then [DigitChar(n)] else NatToString(n / 10) + [DigitChar(n % 10)]
  }

  /** Reads a string of decimal digits back as a number. */
  function ParseDigits(s: string): nat
    requires forall i :: 0 <= i < |s| ==> '0' <= s[i] <= '9'
  {
    if s == [] then 0
    else ParseDigits(s[..|s| - 1]) * 10 + (s[|s| - 1] as int - '0' as int)
  }

  /** `ParseDigits` inverts `NatToString`. */
  lemma {:induction false} ParseNatToString(n: nat)
    ensures ParseDigits(NatToString(n)) == n
  {
    var r := NatToString(n);
    if n >= 10 {
      ParseNatToString(n / 10);
      assert r[..|r| - 1] == NatToString(n / 10);
    }
  }

  /** Distinct numbers render as distinct strings. */
  lemma NatToStringInjective(m: nat, n: nat)
    requires NatToString(m) == NatToString(n)
    ensures m == n
  {
    ParseNatToString(m);
    ParseNatToString(n);
  }

  /** Index of the last `c` in `s`, or -1 when there is none. */
  function LastIndexOf(s: string, c: char): int
  {
    if |s| == 0 then -1
    else if s[|s| - 1] == c then |s| - 1
    else LastIndexOf(s[..|s| - 1], c)
  }

  lemma {:induction false} LastIndexOfBefore(x: string, c: char, d: string)
    requires c !in d
    ensures LastIndexOf(x + [c] + d, c) == |x|
    decreases |d|
  {
    if d != [] {
      assert (x + [c] + d)[..|x| + |d|] == x + [c] + d[..|d| - 1];
      LastIndexOfBefore(x, c, d[..|d| - 1]);
    }
  }

  /** A string `x + [c] + d` whose tail `d` holds no `c` splits uniquely at its last `c`. */
  lemma SplitAtLast(x: string, d: string, y: string, e: string, c: char)
    requires c !in d && c !in e
    requires x + [c] + d == y + [c] + e
    ensures x == y && d == e
  {
    var s := x + [c] + d;
    LastIndexOfBefore(x, c, d);
    LastIndexOfBefore(y, c, e);
    assert x == s[..|x|] == y;
    assert d == s[|x| + 1..] == e;
  }
  /** Splitting at an occurrence of the separator splits the two sides independently. */
  lemma {:induction false} SplitConcat(a: string, c: char, b: string)
    ensures Split(a + [c] + b, c) == Split(a, c) + Split(b, c)
    decreases |a|
  {
    var k := IndexOf(a, c);
    if k == |a| {
      SplitAtFirst(a, c, b);
    } else {
      var x, y := a[..k], a[k + 1..];
      var rest := y + [c] + b;
      assert a == x + [c] + y;
      assert c !in x;
      assert a + [c] + b == x + [c] + rest;
      calc {
        Split(a + [c] + b, c);
        Split(x + [c] + rest, c);
        { SplitAtFirst(x, c, rest); }
        [x] + Split(rest, c);
        { SplitConcat(y, c, b); }
        [x] + (Split(y, c) + Split(b, c));
        ([x] + Split(y, c)) + Split(b, c);
        { SplitAtFirst(x, c, y); }
        Split(a, c) + Split(b, c);
      }
    }
  }

  /** An occurrence inside `s` is an occurrence inside any text around `s`. */
  lemma ContainsInfix(a: string, s: string, b: string, p: string)
    requires Contains(s, p)
    ensures Contains(a + s + b, p)
  {
    ContainsIff(s, p);
    var i :| OccursAt(s, p, i);
    assert (a + s + b)[|a| + i..|a| + i + |p|] == s[i..i + |p|];
    assert OccursAt(a + s + b, p, |a| + i);
    ContainsIff(a + s + b, p);
  }

  /** Every joined part occurs in the joined text. */
  lemma {:induction false} JoinContainsPart(parts: seq<string>, sep: string, i: nat)
    requires i < |parts|
    ensures Contains(Join(parts, sep), parts[i])
    decreases |parts|
  {
    if |parts| == 1 || i == 0 {
      var rest := if |parts| == 1 then "" else sep + Join(parts[1..], sep);
      assert Join(parts, sep) == [] + parts[0] + rest;
      assert OccursAt(parts[0], parts[0], 0);
      ContainsIff(parts[0], parts[0]);
      ContainsInfix([], parts[0], rest, parts[0]);
    } else {
      JoinContainsPart(parts[1..], sep, i - 1);
      assert Join(parts, sep) == (parts[0] + sep) + Join(parts[1..], sep) + [];
      ContainsInfix(parts[0] + sep, Join(parts[1..], sep), [], parts[i]);
    }
  }
}

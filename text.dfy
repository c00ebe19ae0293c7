/**
 * The Python `str` operations the core relies on, over an ASCII reading of text:
 * lower-casing, `strip`, `find`/`rfind`/`in`, `startswith`, slicing with Python's
 * index rules, `split` on one character and decimal rendering of integers.
 */
module Text {
  import opened Wrappers

  predicate IsDigit(c: char) { '0' <= c <= '9' }

  function DigitValue(c: char): (v: nat)
    requires IsDigit(c)
    ensures v < 10
  {
    (c as int - '0' as int) as nat
  }

  function DigitChar(d: nat): (c: char)
    requires d < 10
    ensures IsDigit(c) && DigitValue(c) == d
  {
    ('0' as int + d) as char
  }

  predicate IsAsciiLetter(c: char) { ('a' <= c <= 'z') || ('A' <= c <= 'Z') }

  /** Python's `str.isspace`, which is also what `\s` and argument-less `strip()` use. */
  predicate IsSpace(c: char) {
    c == ' ' || ('\t' <= c <= '\r') || ('\U{1c}' <= c <= '\U{1f}') || c == '\U{85}' || c == '\U{a0}'
    || c == '\U{1680}' || ('\U{2000}' <= c <= '\U{200a}') || c == '\U{2028}' || c == '\U{2029}'
    || c == '\U{202f}' || c == '\U{205f}' || c == '\U{3000}'
  }

  predicate AllDigits(s: string) { forall i :: 0 <= i < |s| ==> IsDigit(s[i]) }

  function LowerChar(c: char): char {
    if 'A' <= c <= 'Z' then (c as int + 32) as char else c
  }

  /** `s.lower()` on the ASCII letters. */
  function Lower(s: string): (r: string)
    ensures |r| == |s|
  {
    if s == [] then [] else [LowerChar(s[0])] + Lower(s[1..])
  }

  lemma {:induction false} LowerAt(s: string, i: int)
    requires 0 <= i < |s|
    ensures Lower(s)[i] == LowerChar(s[i])
  {
    if i > 0 {
      LowerAt(s[1..], i - 1);
    }
  }

  /** Text without capitals is its own lower case. */
  lemma {:induction false} LowerOfLowercase(t: string)
    requires forall i :: 0 <= i < |t| ==> !('A' <= t[i] <= 'Z')
    ensures Lower(t) == t
  {
    if t != [] {
      LowerOfLowercase(t[1..]);
    }
  }

  lemma LowerKeepsDigits(s: string)
    requires AllDigits(s)
    ensures Lower(s) == s
  {
    LowerOfLowercase(s);
  }

  function StripLeft(s: string): (r: string)
    ensures |r| <= |s|
    ensures r == [] || !IsSpace(r[0])
  {
    if s != [] && IsSpace(s[0]) then StripLeft(s[1..]) else s
  }

  function StripRight(s: string): (r: string)
    ensures |r| <= |s|
    ensures r == [] || !IsSpace(r[|r| - 1])
  {
    if s != [] && IsSpace(s[|s| - 1]) then StripRight(s[..|s| - 1]) else s
  }

  /** `StripLeft` keeps a suffix. */
  lemma {:induction false} StripLeftIsSuffix(s: string)
    ensures StripLeft(s) == s[|s| - |StripLeft(s)|..]
  {
    if s != [] && IsSpace(s[0]) {
      StripLeftIsSuffix(s[1..]);
      assert s[1..][|s| - 1 - |StripLeft(s[1..])|..] == s[|s| - |StripLeft(s)|..];
    }
  }

  /** `StripRight` keeps a prefix. */
  lemma {:induction false} StripRightIsPrefix(s: string)
    ensures StripRight(s) == s[..|StripRight(s)|]
  {
    if s != [] && IsSpace(s[|s| - 1]) {
      StripRightIsPrefix(s[..|s| - 1]);
      assert s[..|s| - 1][..|StripRight(s)|] == s[..|StripRight(s)|];
    }
  }

  /** What `StripLeft` drops is whitespace. */
  lemma {:induction false} StripLeftDropsSpaces(s: string)
    ensures forall i :: 0 <= i < |s| - |StripLeft(s)| ==> IsSpace(s[i])
  {
    if s != [] && IsSpace(s[0]) {
      StripLeftDropsSpaces(s[1..]);
      assert forall i :: 1 <= i < |s| ==> s[i] == s[1..][i - 1];
    }
  }

  /** What `StripRight` drops is whitespace. */
  lemma {:induction false} StripRightDropsSpaces(s: string)
    ensures forall i :: |StripRight(s)| <= i < |s| ==> IsSpace(s[i])
  {
    if s != [] && IsSpace(s[|s| - 1]) {
      StripRightDropsSpaces(s[..|s| - 1]);
      assert forall i :: 0 <= i < |s| - 1 ==> s[i] == s[..|s| - 1][i];
    }
  }

  /** Text without whitespace at either end is its own `strip()`. */
  lemma StripOfTrimmed(t: string)
    requires t == [] || (!IsSpace(t[0]) && !IsSpace(t[|t| - 1]))
    ensures Strip(t) == t
  {
    assert StripLeft(t) == t;
  }

  /** `s.strip()`: drops the leading and trailing whitespace. */
  function Strip(s: string): (r: string)
    ensures r == [] || (!IsSpace(r[0]) && !IsSpace(r[|r| - 1]))
  {
    StripRightIsPrefix(StripLeft(s));
    StripRight(StripLeft(s))
  }

  lemma StripIdempotent(s: string)
    ensures Strip(Strip(s)) == Strip(s)
  {
    var r := Strip(s);
    assert StripLeft(r) == r;
    assert StripRight(r) == r;
  }

  /** `s` and `t` agree from position `i` of `s` on: `s[i:i+len(t)] == t`. */
  predicate MatchAt(s: string, t: string, i: int) {
    0 <= i && i + |t| <= |s| && s[i..i + |t|] == t
  }

  function StartsWith(s: string, p: string): bool { MatchAt(s, p, 0) }

  predicate EndsWith(s: string, p: string) { |p| <= |s| && s[|s| - |p|..] == p }

  /** A text made of three pieces starts with the first and ends with the last. */
  lemma Framed(a: string, b: string, c: string)
    ensures StartsWith(a + b + c, a) && EndsWith(a + b + c, c)
  {
    assert (a + b + c)[..|a|] == a;
    assert (a + b + c)[|a + b|..] == c;
  }

  /** `s.find(t, start)`: the first match at or after `start`, or -1. */
  function Find(s: string, t: string, start: nat): (r: int)
    ensures r == -1 || (start <= r && MatchAt(s, t, r))
    ensures r != -1 ==> forall j :: start <= j < r ==> !MatchAt(s, t, j)
    ensures r == -1 ==> forall j :: start <= j ==> !MatchAt(s, t, j)
    decreases |s| - start
  {
    if start + |t| > |s| then -1
    else if s[start..start + |t|] == t then start
    else Find(s, t, start + 1)
  }

  /** `t in s` for strings. */
  predicate Contains(s: string, t: string) { Find(s, t, 0) >= 0 }

  lemma ContainsAt(s: string, t: string, i: int)
    requires MatchAt(s, t, i)
    ensures Contains(s, t)
  {
  }

  /** A match of `w` at `i` holds every piece `w[a..b]` at `i + a`. */
  lemma MatchInside(s: string, w: string, i: nat, a: nat, b: nat)
    requires i + |w| <= |s| && s[i..i + |w|] == w && a <= b <= |w|
    ensures s[i + a..i + b] == w[a..b]
  {
    forall j | 0 <= j < b - a
      ensures s[i + a..i + b][j] == w[a..b][j]
    {
      assert s[i + a..i + b][j] == s[i..i + |w|][a + j];
    }
  }

  lemma MatchAtShift(u: string, v: string, w: string, t: string, i: int)
    requires MatchAt(v, t, i)
    ensures MatchAt(u + v + w, t, |u| + i)
  {
    assert (u + v + w)[|u| + i..|u| + i + |t|] == v[i..i + |t|];
  }

  /** `t in (u + v + w)` whenever `t in v`. */
  lemma ContainsInfix(u: string, v: string, w: string, t: string)
    requires Contains(v, t)
    ensures Contains(u + v + w, t)
  {
    var i := Find(v, t, 0);
    MatchAtShift(u, v, w, t, i);
    ContainsAt(u + v + w, t, |u| + i);
  }

  /** `t in (u + t + w)`. */
  lemma ContainsPiece(u: string, t: string, w: string)
    ensures Contains(u + t + w, t)
  {
    assert (u + t + w)[|u|..|u| + |t|] == t;
    ContainsAt(u + t + w, t, |u|);
  }

  /** `t in (u + t)`. */
  lemma ContainsEnd(u: string, t: string)
    ensures Contains(u + t, t)
  {
    assert (u + t)[|u|..|u| + |t|] == t;
    ContainsAt(u + t, t, |u|);
  }

  /** A match in `v` is still one in `v + w`. */
  lemma ContainsExtend(v: string, w: string, t: string)
    requires Contains(v, t)
    ensures Contains(v + w, t)
  {
    var i := Find(v, t, 0);
    assert (v + w)[i..i + |t|] == v[i..i + |t|];
    ContainsAt(v + w, t, i);
  }

  /** A prefix of `v` is still one of `v + w`. */
  lemma StartsWithExtend(v: string, w: string, p: string)
    requires StartsWith(v, p)
    ensures StartsWith(v + w, p)
  {
    assert (v + w)[..|p|] == v[..|p|];
  }

  /** `a + b + c + d + e + f` starts with `a`, ends with `f`, and holds each of `b` to `e`. */
  lemma PiecesContained(a: string, b: string, c: string, d: string, e: string, f: string)
    ensures StartsWith(a + b + c + d + e + f, a) && EndsWith(a + b + c + d + e + f, f)
    ensures Contains(a + b + c + d + e + f, b) && Contains(a + b + c + d + e + f, c)
    ensures Contains(a + b + c + d + e + f, d) && Contains(a + b + c + d + e + f, e)
  {
    ContainsEnd(a, b);
    Grown(a + b, c, d, e, b);
    ContainsExtend(a + b + c + d + e, f, b);
    ContainsEnd(a + b, c);
    Grown(a + b + c, d, e, f, c);
    ContainsEnd(a + b + c, d);
    ContainsExtend(a + b + c + d, e, d);
    ContainsExtend(a + b + c + d + e, f, d);
    ContainsEnd(a + b + c + d, e);
    ContainsExtend(a + b + c + d + e, f, e);
    Framed(a + b + c + d + e, [], f);
    assert a + b + c + d + e + [] == a + b + c + d + e;
    assert StartsWith(a, a);
    StartsWithExtend(a, b, a);
    StartsWithExtend(a + b, c, a);
    StartsWithExtend(a + b + c, d, a);
    StartsWithExtend(a + b + c + d, e, a);
    StartsWithExtend(a + b + c + d + e, f, a);
  }

  /** A match in `v` is still one after three more pieces. */
  lemma Grown(v: string, x: string, y: string, z: string, t: string)
    requires Contains(v, t)
    ensures Contains(v + x + y + z, t)
  {
    ContainsExtend(v, x, t);
    ContainsExtend(v + x, y, t);
    ContainsExtend(v + x + y, z, t);
  }

  function RFindFrom(s: string, t: string, k: int): (r: int)
    requires k < |s| - |t| + 1
    ensures r == -1 || (0 <= r <= k && MatchAt(s, t, r))
    ensures forall j :: r < j <= k ==> !MatchAt(s, t, j)
    decreases k + 1
  {
    if k < 0 then -1
    else if s[k..k + |t|] == t then k
    else RFindFrom(s, t, k - 1)
  }

  /** `s.rfind(t)`: the last match, or -1. */
  function RFind(s: string, t: string): (r: int)
    ensures r == -1 || MatchAt(s, t, r)
    ensures forall j :: r < j ==> !MatchAt(s, t, j)
  {
    RFindFrom(s, t, |s| - |t|)
  }

  /** A match with no match before it is the one `find` reports. */
  lemma FindIsFirst(s: string, t: string, k: nat)
    requires MatchAt(s, t, k) && forall j :: 0 <= j < k ==> !MatchAt(s, t, j)
    ensures Find(s, t, 0) == k
  {
  }

  /** A match with no match after it is the one `rfind` reports. */
  lemma RFindIsLast(s: string, t: string, k: nat)
    requires MatchAt(s, t, k) && forall j :: k < j ==> !MatchAt(s, t, j)
    ensures RFind(s, t) == k
  {
  }

  /** The index an endpoint of a Python slice stands for in a string of length `n`. */
  function SliceIndex(i: int, n: nat): (k: nat)
    ensures k <= n
  {
    if i < 0 then (if i + n < 0 then 0 else i + n) else if i > n then n else i
  }

  /** `s[a:b]` with Python's rules for negative and out-of-range endpoints. */
  function PySlice(s: string, a: int, b: int): (r: string)
    ensures |r| <= |s|
  {
    var lo := SliceIndex(a, |s|);
    var hi := SliceIndex(b, |s|);
    if lo < hi then s[lo..hi] else []
  }

  /** `s[:k]` with Python's rules. */
  function PyPrefix<T>(s: seq<T>, k: int): (r: seq<T>)
    ensures |r| <= |s|
    ensures 0 <= k <= |s| ==> |r| == k
    ensures k >= |s| ==> r == s
  {
    if k >= 0 then (if k <= |s| then s[..k] else s)
    else if k + |s| < 0 then [] else s[..k + |s|]
  }

  /** The decimal rendering of a natural number, without leading zeros. */
  function NatToString(n: nat): (r: string)
    ensures |r| >= 1 && AllDigits(r)
    ensures r[0] != '0' || n == 0
  {
    if n < 10 then [DigitChar(n)] else NatToString(n / 10) + [DigitChar(n % 10)]
  }

  /** Python's `str(i)` for an `int`. */
  function IntToString(i: int): (r: string)
    ensures |r| >= 1
  {
    if i < 0 then "-" + NatToString(-i) else NatToString(i)
  }

  /** The value of a string of decimal digits, as `int(s)` reads it. */
  function DigitsValue(s: string): nat
    requires AllDigits(s)
  {
    if s == [] then 0 else DigitsValue(s[..|s| - 1]) * 10 + DigitValue(s[|s| - 1])
  }

  lemma {:induction false} NatToStringRoundTrip(n: nat)
    ensures DigitsValue(NatToString(n)) == n
  {
    if n >= 10 {
      NatToStringRoundTrip(n / 10);
      var r := NatToString(n);
      assert r[..|r| - 1] == NatToString(n / 10);
    }
  }

  lemma {:induction false} DigitsValueOfPadded(s: string)
    requires AllDigits(s) && |s| >= 1
    ensures DigitsValue("0" + s) == DigitsValue(s)
  {
    if |s| > 1 {
      assert ("0" + s)[..|"0" + s| - 1] == "0" + s[..|s| - 1];
      DigitsValueOfPadded(s[..|s| - 1]);
    } else {
      assert ("0" + s)[..1] == "0";
      assert DigitsValue("0") == 0 by { assert "0"[..0] == ""; }
    }
  }

  /** `int(s)` on ASCII text: surrounding whitespace, an optional sign, at least one digit. */
  function PyInt(s: string): (r: Option<int>)
    ensures r.Some? ==> Strip(s) != []
  {
    var t := Strip(s);
    if t != [] && (t[0] == '-' || t[0] == '+') && |t| > 1 && AllDigits(t[1..]) then
      Some(if t[0] == '-' then -(DigitsValue(t[1..]) as int) else DigitsValue(t[1..]))
    else if t != [] && AllDigits(t) then Some(DigitsValue(t))
    else None
  }

  lemma NoSpaceInDigits(s: string)
    requires AllDigits(s)
    ensures Strip(s) == s
  {
    if s != [] {
      assert IsDigit(s[0]) && IsDigit(s[|s| - 1]);
    }
    StripOfTrimmed(s);
  }

  lemma PyIntOfDigits(d: string)
    requires AllDigits(d) && d != []
    ensures PyInt(d) == Some(DigitsValue(d) as int)
  {
    NoSpaceInDigits(d);
    assert IsDigit(d[0]);
  }

  lemma PyIntOfNegated(d: string, i: int)
    requires AllDigits(d) && d != [] && DigitsValue(d) == -i
    ensures PyInt("-" + d).Some? && PyInt("-" + d).value == i
  {
    var t := "-" + d;
    assert t[1..] == d;
    assert t[0] == '-' && t[|t| - 1] == d[|d| - 1] && IsDigit(d[|d| - 1]);
    StripOfTrimmed(t);
    assert Strip(t) == t;
    assert AllDigits(t[1..]);
    assert PyInt(t) == Some(-(DigitsValue(d) as int));
  }

  /** `int(str(i)) == i`. */
  lemma PyIntOfIntToString(i: int)
    ensures PyInt(IntToString(i)) == Some(i)
  {
    if i < 0 {
      NatToStringRoundTrip(-i);
      PyIntOfNegated(NatToString(-i), i);
    } else {
      NatToStringRoundTrip(i);
      PyIntOfDigits(NatToString(i));
    }
  }

  function IndexOfChar(s: string, c: char): (r: int)
    ensures -1 <= r < |s|
    ensures r >= 0 ==> s[r] == c && forall j :: 0 <= j < r ==> s[j] != c
    ensures r == -1 ==> forall j :: 0 <= j < |s| ==> s[j] != c
  {
    if s == [] then -1
    else if s[0] == c then 0
    else var k := IndexOfChar(s[1..], c); if k < 0 then -1 else k + 1
  }

  /** `s.split(c)`: the pieces between occurrences of `c`; always at least one piece. */
  function Split(s: string, c: char): (r: seq<string>)
    ensures |r| >= 1
    ensures forall k, j :: 0 <= k < |r| && 0 <= j < |r[k]| ==> r[k][j] != c
    decreases |s|
  {
    var i := IndexOfChar(s, c);
    if i < 0 then [s] else [s[..i]] + Split(s[i + 1..], c)
  }

  /** `"".join(parts)`. */
  function Concat(parts: seq<string>): string {
    if parts == [] then [] else parts[0] + Concat(parts[1..])
  }

  lemma Associate(a: string, b: string, c: string)
    ensures a + b + c == a + (b + c)
  {
  }

  lemma {:induction false} ConcatAppend(a: seq<string>, b: seq<string>)
    ensures Concat(a + b) == Concat(a) + Concat(b)
  {
    if a != [] {
      assert (a + b)[1..] == a[1..] + b;
      ConcatAppend(a[1..], b);
    } else {
      assert a + b == b;
    }
  }

  /** `"".join(parts)` holds each of its parts. */
  lemma {:induction false} ConcatContains(parts: seq<string>, i: nat)
    requires i < |parts|
    ensures Contains(Concat(parts), parts[i])
  {
    var rest := Concat(parts[1..]);
    if i == 0 {
      ContainsPiece([], parts[0], rest);
      assert [] + parts[0] + rest == Concat(parts);
    } else {
      ConcatContains(parts[1..], i - 1);
      ContainsInfix(parts[0], rest, [], parts[i]);
      assert parts[0] + rest + [] == Concat(parts);
    }
  }

  /** `c.join(parts)`. */
  function Join(parts: seq<string>, c: char): string
    requires |parts| >= 1
  {
    if |parts| == 1 then parts[0] else parts[0] + [c] + Join(parts[1..], c)
  }

  lemma JoinCons(a: string, rest: seq<string>, c: char)
    requires |rest| >= 1
    ensures Join([a] + rest, c) == a + [c] + Join(rest, c)
  {
    assert ([a] + rest)[1..] == rest;
  }

  lemma {:induction false} SplitJoin(s: string, c: char)
    ensures Join(Split(s, c), c) == s
    decreases |s|
  {
    var i := IndexOfChar(s, c);
    if i >= 0 {
      SplitJoin(s[i + 1..], c);
      JoinCons(s[..i], Split(s[i + 1..], c), c);
      assert s == s[..i] + [c] + s[i + 1..];
    }
  }
}

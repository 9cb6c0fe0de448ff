/**
 * String primitives that the source borrows from its runtimes: JavaScript's
 * `slice`, `substring`, `indexOf` and `trim`, and Go's `strings.Index` and
 * `strings.TrimSpace`. Text is a sequence of characters throughout.
 */
module Strings {
  import opened Wrappers

  /** Whitespace as JavaScript's `trim()` and the regex class `\s` see it:
      the WhiteSpace and LineTerminator productions of ECMAScript. */
  predicate IsJsWhitespace(c: char) {
    c == '\t' || c == '\n' || c == '\U{000B}' || c == '\U{000C}' || c == '\r' || c == ' '
    || c == '\U{00A0}' || c == '\U{1680}' || ('\U{2000}' <= c <= '\U{200A}')
    || c == '\U{2028}' || c == '\U{2029}' || c == '\U{202F}' || c == '\U{205F}'
    || c == '\U{3000}' || c == '\U{FEFF}'
  }

  /** Whitespace as Go's `unicode.IsSpace` sees it (used by `strings.TrimSpace`).
      It differs from JavaScript's set: it has U+0085 and lacks U+FEFF. */
  predicate IsGoSpace(c: char) {
    c == '\t' || c == '\n' || c == '\U{000B}' || c == '\U{000C}' || c == '\r' || c == ' '
    || c == '\U{0085}' || c == '\U{00A0}' || c == '\U{1680}' || ('\U{2000}' <= c <= '\U{200A}')
    || c == '\U{2028}' || c == '\U{2029}' || c == '\U{202F}' || c == '\U{205F}'
    || c == '\U{3000}'
  }

  /** Number of leading characters of `s` that satisfy `ws`. */
  function Leading(s: string, ws: char -> bool): (r: nat)
    ensures r <= |s|
    ensures forall k | 0 <= k < r :: ws(s[k])
    ensures r < |s| ==> !ws(s[r])
  {
    if |s| > 0 && ws(s[0]) then 1 + Leading(s[1..], ws) else 0
  }

  /** Number of trailing characters of `s` that satisfy `ws`. */
  function Trailing(s: string, ws: char -> bool): (r: nat)
    ensures r <= |s|
    ensures forall k | |s| - r <= k < |s| :: ws(s[k])
    ensures r < |s| ==> !ws(s[|s| - 1 - r])
  {
    if |s| > 0 && ws(s[|s| - 1]) then 1 + Trailing(s[..|s| - 1], ws) else 0
  }

  /** `s` without its leading and trailing `ws` characters. The result is the
      infix of `s` that starts at its first non-`ws` character, it is empty
      exactly when every character is `ws`, and otherwise it neither starts
      nor ends with a `ws` character. */
  function TrimBy(s: string, ws: char -> bool): (r: string)
    ensures r == [] <==> forall k | 0 <= k < |s| :: ws(s[k])
    ensures r != [] ==> !ws(r[0]) && !ws(r[|r| - 1])
    ensures Leading(s, ws) + |r| <= |s| && r == s[Leading(s, ws)..Leading(s, ws) + |r|]
    ensures forall k | Leading(s, ws) + |r| <= k < |s| :: ws(s[k])
  {
    var i := Leading(s, ws);
    if i == |s| then []
    else
      var t := Trailing(s, ws);
      assert t <= |s| - 1 - i by {
        assert !ws(s[i]);
      }
      s[i..|s| - t]
  }

  /** JavaScript's `String.prototype.trim`. */
  function JsTrim(s: string): (r: string)
    ensures r == [] <==> forall k | 0 <= k < |s| :: IsJsWhitespace(s[k])
    ensures r != [] ==> !IsJsWhitespace(r[0]) && !IsJsWhitespace(r[|r| - 1])
  {
    TrimBy(s, IsJsWhitespace)
  }

  /** Go's `strings.TrimSpace`. */
  function GoTrimSpace(s: string): (r: string)
    ensures r == [] <==> forall k | 0 <= k < |s| :: IsGoSpace(s[k])
    ensures r != [] ==> !IsGoSpace(r[0]) && !IsGoSpace(r[|r| - 1])
  {
    TrimBy(s, IsGoSpace)
  }

  /** Trimming is the identity on text that has no surrounding whitespace. */
  lemma TrimByNoop(s: string, ws: char -> bool)
    requires s != [] && !ws(s[0]) && !ws(s[|s| - 1])
    ensures TrimBy(s, ws) == s
  {
    assert Leading(s, ws) == 0;
    assert Trailing(s, ws) == 0;
  }

  /** Trimming is idempotent. */
  lemma TrimByIdempotent(s: string, ws: char -> bool)
    ensures TrimBy(TrimBy(s, ws), ws) == TrimBy(s, ws)
  {
    var r := TrimBy(s, ws);
    if r != [] { TrimByNoop(r, ws); }
  }

  /** JavaScript's index normalisation for `slice`: a negative index counts
      from the end, and the result is clamped into `[0, n]`. */
  function JsSliceIndex(i: int, n: nat): (r: nat)
    ensures r <= n
    ensures 0 <= i <= n ==> r == i
  {
    if i < 0 then (if n + i < 0 then 0 else n + i)
    else if i > n then n
    else i
  }

  /** JavaScript's `s.slice(from, to)`; empty when the normalised `from` is not
      below the normalised `to`. */
  function Slice(s: string, from: int, to: int): (r: string)
    ensures |r| <= |s|
    ensures 0 <= from <= to <= |s| ==> r == s[from..to]
    ensures 0 <= to <= from ==> r == []
  {
    var f := JsSliceIndex(from, |s|);
    var t := JsSliceIndex(to, |s|);
    if f < t then s[f..t] else []
  }

  /** JavaScript's `s.slice(from)`. */
  function SliceFrom(s: string, from: int): (r: string)
    ensures 0 <= from <= |s| ==> r == s[from..]
    ensures from >= |s| ==> r == []
  {
    Slice(s, from, |s|)
  }

  /** JavaScript's `s.substring(a, b)`: both indices are clamped into
      `[0, |s|]` and swapped when `a > b`. */
  function Substring(s: string, a: int, b: int): (r: string)
    ensures 0 <= a <= b <= |s| ==> r == s[a..b]
    ensures 0 <= b <= a <= |s| ==> r == s[b..a]
  {
    var a' := if a < 0 then 0 else if a > |s| then |s| else a;
    var b' := if b < 0 then 0 else if b > |s| then |s| else b;
    if a' <= b' then s[a'..b'] else s[b'..a']
  }

  /** `p` occurs in `s` starting at index `k`. */
  predicate OccursAt(s: string, p: string, k: int) {
    0 <= k && k + |p| <= |s| && s[k..k + |p|] == p
  }

  /** `p` occurs nowhere in `s`. */
  predicate Absent(s: string, p: string) {
    forall k | 0 <= k <= |s| - |p| :: !OccursAt(s, p, k)
  }

  /** The first occurrence of `p` in `s` at or after `from`, or -1. */
  function IndexOfFrom(s: string, p: string, from: nat): (r: int)
    requires from <= |s|
    ensures r == -1 || (from <= r && OccursAt(s, p, r))
    ensures r == -1 ==> forall j :: from <= j ==> !OccursAt(s, p, j)
    ensures r != -1 ==> forall j :: from <= j < r ==> !OccursAt(s, p, j)
    decreases |s| - from
  {
    if OccursAt(s, p, from) then from
    else if from + |p| >= |s| then
      assert forall j :: from < j ==> !OccursAt(s, p, j);
      -1
    else IndexOfFrom(s, p, from + 1)
  }

  /** JavaScript's `s.indexOf(p)` and Go's `strings.Index(s, p)`: the first
      occurrence of `p` in `s`, or -1 when there is none. */
  function IndexOf(s: string, p: string): (r: int)
    ensures r == -1 <==> Absent(s, p)
    ensures r != -1 ==> OccursAt(s, p, r) && forall j :: 0 <= j < r ==> !OccursAt(s, p, j)
  {
    IndexOfFrom(s, p, 0)
  }

  /** `p` is a marker whose first character appears nowhere else in it, as
      for an XML-like tag that starts with `<`. */
  predicate OpensOnce(p: string) {
    |p| >= 2 && forall k | 0 < k < |p| :: p[k] != p[0]
  }

  /** An occurrence of such a marker cannot straddle a position of `s` that
      holds the marker's first character. */
  lemma NoStraddle(s: string, p: string, q: int, i: int)
    requires OpensOnce(p) && 0 <= i < |s| && s[i] == p[0]
    requires q < i < q + |p|
    ensures !OccursAt(s, p, q)
  {
    if 0 <= q && q + |p| <= |s| {
      assert s[q..q + |p|][i - q] == s[i];
    }
  }

  /** Two markers that open with the same character (`<`) can only occur
      at least `|p|` apart: the second first occurrence of `e` after the first
      occurrence of `p` begins after all of `p`. */
  lemma MarkersDoNotOverlap(s: string, p: string, e: string)
    requires OpensOnce(p) && |e| > 0 && e[0] == p[0]
    requires IndexOf(s, p) != -1 && IndexOf(s, e) > IndexOf(s, p)
    ensures IndexOf(s, p) + |p| <= IndexOf(s, e)
  {
    var i, j := IndexOf(s, p), IndexOf(s, e);
    assert s[i..i + |p|] == p;
    assert s[j..j + |e|][0] == s[j];
    assert forall k | i < k < i + |p| :: s[k] == s[i..i + |p|][k - i];
  }

  /** The first occurrences of an opening and a closing marker in
      `a + open + x + close + b`, when neither marker is in `a`, the closing
      marker is not in `x`, and the markers differ in their second character
      (`<x` against `</`). */
  lemma WrappedMarkers(a: string, open: string, x: string, close: string, b: string)
    requires OpensOnce(open) && OpensOnce(close) && open[0] == close[0] && open[1] != close[1]
    requires Absent(a, open) && Absent(a, close) && Absent(x, close)
    ensures IndexOf(a + open + x + close + b, open) == |a|
    ensures IndexOf(a + open + x + close + b, close) == |a| + |open| + |x|
  {
    var s := a + open + x + close + b;
    var e := |a| + |open| + |x|;
    assert s[|a|] == open[0];
    assert s[e] == close[0];
    assert s[|a|..|a| + |open|] == open;
    assert s[e..e + |close|] == close;
    assert OccursAt(s, open, |a|);
    assert OccursAt(s, close, e);
    forall q | 0 <= q < |a| ensures !OccursAt(s, open, q) {
      if q + |open| <= |a| {
        assert s[q..q + |open|] == a[q..q + |open|];
        assert !OccursAt(a, open, q);
      } else {
        NoStraddle(s, open, q, |a|);
      }
    }
    forall q | 0 <= q < e ensures !OccursAt(s, close, q) {
      if q + |close| <= |a| {
        assert s[q..q + |close|] == a[q..q + |close|];
        assert !OccursAt(a, close, q);
      } else if q < |a| {
        NoStraddle(s, close, q, |a|);
      } else if q == |a| {
        assert s[q + 1] == open[1];
        if q + |close| <= |s| {
          assert s[q..q + |close|][1] == s[q + 1];
        }
      } else if q < |a| + |open| {
        assert s[q] == open[q - |a|];
        if q + |close| <= |s| {
          assert s[q..q + |close|][0] == s[q];
        }
      } else if q + |close| <= e {
        assert s[q..q + |close|] == x[q - |a| - |open|..q - |a| - |open| + |close|];
        assert !OccursAt(x, close, q - |a| - |open|);
      } else {
        NoStraddle(s, close, q, e);
      }
    }
  }

  /** The text between the first `open` and the first `close` of `s`, when
      both occur and `close` starts after `open` does; otherwise nothing.
      The text begins after the whole of `open`: with markers that open with
      the same character the two cannot overlap, so the slice is in range. */
  function TaggedText(s: string, open: string, close: string): (r: Option<string>)
    requires OpensOnce(open) && |close| > 0 && close[0] == open[0]
    ensures var a, b := IndexOf(s, open), IndexOf(s, close);
      (r.None? <==> a == -1 || b == -1 || b <= a)
      && (r.Some? ==> a + |open| <= b && r.value == s[a + |open|..b])
  {
    var a := IndexOf(s, open);
    var b := IndexOf(s, close);
    if a == -1 || b == -1 || b <= a then None
    else
      MarkersDoNotOverlap(s, open, close);
      Some(s[a + |open|..b])
  }

  /** Text wrapped in the markers comes back as it was, when neither marker
      is in the text before it and the closing one is not in the text. */
  lemma {:induction false} TaggedTextRoundTrip(a: string, open: string, x: string, close: string, b: string)
    requires OpensOnce(open) && OpensOnce(close) && open[0] == close[0] && open[1] != close[1]
    requires Absent(a, open) && Absent(a, close) && Absent(x, close)
    ensures TaggedText(a + open + x + close + b, open, close) == Some(x)
  {
    var s := a + open + x + close + b;
    WrappedMarkers(a, open, x, close, b);
    var from := |a| + |open|;
    assert s[from..from + |x|] == x;
  }

  /** Number of occurrences of the character `c` in `s`. */
  function Count(s: string, c: char): (r: nat)
    ensures r <= |s|
    ensures r == 0 <==> c !in s
  {
    if s == [] then 0 else (if s[0] == c then 1 else 0) + Count(s[1..], c)
  }

  lemma {:induction false} CountAppend(s: string, t: string, c: char)
    ensures Count(s + t, c) == Count(s, c) + Count(t, c)
  {
    if s == [] {
      assert s + t == t;
    } else {
      assert (s + t)[1..] == s[1..] + t;
      CountAppend(s[1..], t, c);
    }
  }
}

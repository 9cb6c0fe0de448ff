/**
 * The editor's line index: `getLinesWithBoundaries` splits a buffer on `\n`
 * into `[positionFrom, positionTo]` spans and `getLineCoordinatesAtPosition`
 * finds the row and column of a cursor offset. The two helpers are the same
 * text in both editor generations (src/ui/input/TextInput.tsx and
 * src/ui/TextInput.tsx), so they are defined once here.
 */
module LineIndex {
  import opened Strings
  import opened Wrappers

  datatype Line = Line(positionFrom: int, positionTo: int, content: string)

  datatype Coordinates = Coordinates(lineRow: nat, lineColumn: int)

  /** JavaScript's `input.split("\n")`. */
  function Split(s: string): (r: seq<string>)
    ensures |r| == Count(s, '\n') + 1
    ensures forall i | 0 <= i < |r| :: '\n' !in r[i]
  {
    if s == [] then [[]]
    else
      var rest := Split(s[1..]);
      if s[0] == '\n' then [[]] + rest
      else [[s[0]] + rest[0]] + rest[1..]
  }

  /** The inverse of `Split`: lines glued back with `\n` between them. */
  function JoinLines(ls: seq<string>): string
    requires |ls| >= 1
  {
    if |ls| == 1 then ls[0] else ls[0] + "\n" + JoinLines(ls[1..])
  }

  lemma {:induction false} SplitJoin(s: string)
    ensures JoinLines(Split(s)) == s
  {
    if s != [] {
      var rest := Split(s[1..]);
      SplitJoin(s[1..]);
      if s[0] == '\n' {
        assert ([[]] + rest)[1..] == rest;
      } else if |rest| == 1 {
      } else {
        assert ([[s[0]] + rest[0]] + rest[1..])[1..] == rest[1..];
      }
    }
  }

  lemma {:induction false} JoinSplit(ls: seq<string>)
    requires |ls| >= 1
    requires forall i | 0 <= i < |ls| :: '\n' !in ls[i]
    ensures Split(JoinLines(ls)) == ls
  {
    if |ls| == 1 {
      SplitNoNewline(ls[0]);
      assert [ls[0]] == ls;
    } else {
      JoinSplit(ls[1..]);
      SplitPrefix(ls[0], JoinLines(ls[1..]));
      assert [ls[0]] + ls[1..] == ls;
    }
  }

  lemma {:induction false} SplitNoNewline(s: string)
    requires '\n' !in s
    ensures Split(s) == [s]
  {
    if s != [] {
      SplitNoNewline(s[1..]);
      assert [s[0]] + s[1..] == s;
    }
  }

  lemma {:induction false} SplitPrefix(l: string, t: string)
    requires '\n' !in l
    ensures Split(l + "\n" + t) == [l] + Split(t)
  {
    var x := l + "\n" + t;
    if l == [] {
      assert x[1..] == t;
    } else {
      assert x[0] == l[0];
      assert x[1..] == l[1..] + "\n" + t;
      SplitPrefix(l[1..], t);
      var rest := Split(x[1..]);
      assert rest == [l[1..]] + Split(t);
      assert rest[0] == l[1..] && rest[1..] == Split(t);
      assert [l[0]] + l[1..] == l;
    }
  }

  /** The spans of consecutive lines that start at `position`, each followed
      by one separator character. */
  function Bounds(ls: seq<string>, position: int): (r: seq<Line>)
    ensures |r| == |ls|
  {
    if ls == [] then []
    else [Line(position, position + |ls[0]|, ls[0])] + Bounds(ls[1..], position + |ls[0]| + 1)
  }

  /** `getLinesWithBoundaries`. */
  function LinesWithBoundaries(s: string): seq<Line> {
    Bounds(Split(s), 0)
  }

  /** The spans in `lines` tile `s`: they start at 0, end at `|s|`, each holds
      its content exactly, and one `\n` separates consecutive spans. */
  ghost predicate Tiles(s: string, lines: seq<Line>) {
    |lines| >= 1 && lines[0].positionFrom == 0 && lines[|lines| - 1].positionTo == |s|
    && (forall i | 0 <= i < |lines| ::
          0 <= lines[i].positionFrom <= lines[i].positionTo <= |s|
          && lines[i].positionTo == lines[i].positionFrom + |lines[i].content|
          && s[lines[i].positionFrom..lines[i].positionTo] == lines[i].content
          && '\n' !in lines[i].content)
    && (forall i | 0 <= i < |lines| - 1 ::
          lines[i + 1].positionFrom == lines[i].positionTo + 1
          && 0 <= lines[i].positionTo < |s| && s[lines[i].positionTo] == '\n')
  }

  /** The spans run left to right with a gap of one between neighbours. */
  predicate Ordered(lines: seq<Line>) {
    (forall i | 0 <= i < |lines| :: lines[i].positionFrom <= lines[i].positionTo)
    && (forall i | 0 <= i < |lines| - 1 :: lines[i + 1].positionFrom == lines[i].positionTo + 1)
  }

  /** Offset of line `i` in `JoinLines(ls)`: the lengths of the earlier lines
      plus one separator each. */
  function Offset(ls: seq<string>, i: nat): nat
    requires i <= |ls|
  {
    if i == 0 then 0 else |ls[0]| + 1 + Offset(ls[1..], i - 1)
  }

  lemma {:induction false} BoundsAt(ls: seq<string>, p: int, i: nat)
    requires i < |ls|
    ensures Bounds(ls, p)[i] == Line(p + Offset(ls, i), p + Offset(ls, i) + |ls[i]|, ls[i])
  {
    if i > 0 {
      BoundsAt(ls[1..], p + |ls[0]| + 1, i - 1);
    }
  }

  lemma {:induction false} OffsetNext(ls: seq<string>, i: nat)
    requires i < |ls|
    ensures Offset(ls, i + 1) == Offset(ls, i) + |ls[i]| + 1
  {
    if i > 0 {
      OffsetNext(ls[1..], i - 1);
    }
  }

  /** A slice or an element of `a + b` past `a` is one of `b`. */
  lemma SliceAfter(a: string, b: string, x: nat, y: nat)
    requires x <= y <= |b|
    ensures (a + b)[|a| + x..|a| + y] == b[x..y]
    ensures y < |b| ==> (a + b)[|a| + y] == b[y]
  {
  }

  /** Line `i` sits at `Offset(ls, i)` of the joined text and, unless it is
      the last, a `\n` follows it. */
  lemma {:induction false} JoinAt(ls: seq<string>, i: nat)
    requires i < |ls|
    ensures Offset(ls, i) + |ls[i]| <= |JoinLines(ls)|
    ensures JoinLines(ls)[Offset(ls, i)..Offset(ls, i) + |ls[i]|] == ls[i]
    ensures i < |ls| - 1 ==>
              Offset(ls, i) + |ls[i]| < |JoinLines(ls)| && JoinLines(ls)[Offset(ls, i) + |ls[i]|] == '\n'
    ensures i == |ls| - 1 ==> Offset(ls, i) + |ls[i]| == |JoinLines(ls)|
  {
    if |ls| > 1 {
      var a, J' := ls[0] + "\n", JoinLines(ls[1..]);
      assert JoinLines(ls) == a + J';
      if i > 0 {
        JoinAt(ls[1..], i - 1);
        var o := Offset(ls[1..], i - 1);
        assert ls[1..][i - 1] == ls[i];
        SliceAfter(a, J', o, o + |ls[i]|);
      } else {
        assert JoinLines(ls)[..|ls[0]|] == ls[0];
      }
    }
  }

  /** Splitting yields one line per `\n` plus one, and the spans tile the
      buffer. */
  lemma {:induction false} LinesTile(s: string)
    ensures |LinesWithBoundaries(s)| == Count(s, '\n') + 1
    ensures Tiles(s, LinesWithBoundaries(s))
  {
    SplitJoin(s);
    BoundsTile(s, Split(s));
  }

  lemma {:induction false} BoundsTile(s: string, ls: seq<string>)
    requires |ls| >= 1 && JoinLines(ls) == s
    requires forall i | 0 <= i < |ls| :: '\n' !in ls[i]
    ensures Tiles(s, Bounds(ls, 0))
  {
    var L := Bounds(ls, 0);
    forall i | 0 <= i < |L|
      ensures L[i] == Line(Offset(ls, i), Offset(ls, i) + |ls[i]|, ls[i])
      ensures L[i].positionTo <= |s| && s[L[i].positionFrom..L[i].positionTo] == ls[i]
      ensures i < |L| - 1 ==> L[i].positionTo < |s| && s[L[i].positionTo] == '\n'
      ensures i == |L| - 1 ==> L[i].positionTo == |s|
    {
      BoundsAt(ls, 0, i);
      JoinAt(ls, i);
    }
    forall i | 0 <= i < |L| - 1
      ensures L[i + 1].positionFrom == L[i].positionTo + 1
    {
      OffsetNext(ls, i);
    }
  }

  /** The buffer's spans run left to right, each as long as its content. */
  lemma {:induction false} LinesOrdered(s: string)
    ensures Ordered(LinesWithBoundaries(s))
    ensures forall i | 0 <= i < |LinesWithBoundaries(s)| ::
      LinesWithBoundaries(s)[i].positionTo == LinesWithBoundaries(s)[i].positionFrom + |LinesWithBoundaries(s)[i].content|
  {
    var ls := Split(s);
    var L := Bounds(ls, 0);
    forall i | 0 <= i < |L|
      ensures L[i] == Line(Offset(ls, i), Offset(ls, i) + |ls[i]|, ls[i])
    {
      BoundsAt(ls, 0, i);
    }
    forall i | 0 <= i < |L| - 1
      ensures L[i + 1].positionFrom == L[i].positionTo + 1
    {
      BoundsAt(ls, 0, i);
      BoundsAt(ls, 0, i + 1);
      OffsetNext(ls, i);
    }
  }

  /** The line span contains the offset, both ends inclusive. */
  predicate Contains(line: Line, c: int) {
    line.positionFrom <= c <= line.positionTo
  }

  /** `Array.prototype.findIndex` over the spans, from row `k` on. */
  function FindRow(lines: seq<Line>, c: int, k: nat): (r: int)
    requires k <= |lines|
    ensures r == -1 <==> forall i | k <= i < |lines| :: !Contains(lines[i], c)
    ensures r != -1 ==> k <= r < |lines| && Contains(lines[r], c)
    ensures r != -1 ==> forall i | k <= i < r :: !Contains(lines[i], c)
    decreases |lines| - k
  {
    if k == |lines| then -1
    else if Contains(lines[k], c) then k
    else FindRow(lines, c, k + 1)
  }

  /** `getLineCoordinatesAtPosition`: the first row whose span contains `c`,
      with the column measured from that span's start, or `null`. */
  function GetLineCoordinatesAtPosition(lines: seq<Line>, c: int): (r: Option<Coordinates>)
    ensures r.None? <==> forall i | 0 <= i < |lines| :: !Contains(lines[i], c)
    ensures r.Some? ==> r.value.lineRow < |lines| && Contains(lines[r.value.lineRow], c)
    ensures r.Some? ==> r.value.lineColumn == c - lines[r.value.lineRow].positionFrom
    ensures r.Some? ==> forall i | 0 <= i < r.value.lineRow :: !Contains(lines[i], c)
  {
    var row := FindRow(lines, c, 0);
    if row == -1 then None else Some(Coordinates(row, c - lines[row].positionFrom))
  }

  /** Index just after the last `\n` before offset `c`: where the line holding
      `c` starts. */
  function LineStart(s: string, c: nat): (r: nat)
    requires c <= |s|
    ensures r <= c
    ensures forall k | r <= k < c :: s[k] != '\n'
    ensures r > 0 ==> s[r - 1] == '\n'
  {
    if c == 0 then 0
    else if s[c - 1] == '\n' then c
    else LineStart(s, c - 1)
  }

  /** Spans of a tiling are in increasing order and disjoint. */
  lemma {:induction false} TilesOrdered(lines: seq<Line>, i: nat, j: nat)
    requires Ordered(lines) && i < j < |lines|
    ensures lines[i].positionTo < lines[j].positionFrom
    decreases j - i
  {
    if j > i + 1 { TilesOrdered(lines, i + 1, j); }
  }

  /** Each offset of the buffer lies in some span of a tiling. */
  lemma {:induction false} TilesCover(s: string, lines: seq<Line>, c: int, k: nat) returns (i: nat)
    requires Tiles(s, lines) && k < |lines| && lines[k].positionFrom <= c <= |s|
    ensures k <= i < |lines| && Contains(lines[i], c)
    decreases |lines| - k
  {
    if c <= lines[k].positionTo {
      i := k;
    } else {
      i := TilesCover(s, lines, c, k + 1);
    }
  }

  /** Row `i` of a tiling starts after exactly `i` newlines. */
  lemma {:induction false} TilesRowCount(s: string, lines: seq<Line>, i: nat)
    requires Tiles(s, lines) && i < |lines|
    ensures Count(s[..lines[i].positionFrom], '\n') == i
  {
    if i > 0 {
      TilesRowCount(s, lines, i - 1);
      var l := lines[i - 1];
      assert s[..lines[i].positionFrom] == s[..l.positionFrom] + s[l.positionFrom..l.positionTo] + [s[l.positionTo]];
      CountAppend(s[..l.positionFrom] + s[l.positionFrom..l.positionTo], [s[l.positionTo]], '\n');
      CountAppend(s[..l.positionFrom], s[l.positionFrom..l.positionTo], '\n');
    }
  }

  /** An offset `c` with no `\n` between a line start `f` and itself
      belongs to the line starting at `f`, after as many newlines. */
  lemma {:induction false} LineStartAfter(s: string, f: nat, c: nat)
    requires f <= c <= |s|
    requires f > 0 ==> s[f - 1] == '\n'
    requires forall k | f <= k < c :: s[k] != '\n'
    ensures LineStart(s, c) == f
    ensures Count(s[..c], '\n') == Count(s[..f], '\n')
    decreases c
  {
    if c > f {
      LineStartAfter(s, f, c - 1);
      assert s[..c] == s[..c - 1] + [s[c - 1]];
      CountAppend(s[..c - 1], [s[c - 1]], '\n');
    }
  }

  /** Within row `i`'s span, the line starts at the row's `positionFrom`. */
  lemma {:induction false} TilesLineStart(s: string, lines: seq<Line>, i: nat, c: nat)
    requires Tiles(s, lines) && i < |lines| && Contains(lines[i], c)
    ensures LineStart(s, c) == lines[i].positionFrom
    ensures Count(s[..c], '\n') == i
  {
    var l := lines[i];
    TilesRowCount(s, lines, i);
    if i > 0 {
      assert lines[(i - 1) + 1].positionFrom == lines[i - 1].positionTo + 1;
    }
    forall k | l.positionFrom <= k < c ensures s[k] != '\n' {
      assert s[k] == s[l.positionFrom..l.positionTo][k - l.positionFrom];
    }
    LineStartAfter(s, l.positionFrom, c);
  }

  /** On a tiling, `getLineCoordinatesAtPosition` is `null` exactly outside
      `[0, |s|]`; inside, the row is the number of newlines before `c` and
      the column its distance from the line's start. */
  lemma {:induction false} TilesLocate(s: string, lines: seq<Line>, c: int)
    requires Tiles(s, lines) && Ordered(lines)
    ensures GetLineCoordinatesAtPosition(lines, c).None? <==> c < 0 || c > |s|
    ensures 0 <= c <= |s| ==>
      GetLineCoordinatesAtPosition(lines, c) == Some(Coordinates(Count(s[..c], '\n'), c - LineStart(s, c)))
  {
    if 0 <= c <= |s| {
      var i := TilesCover(s, lines, c, 0);
      var row := GetLineCoordinatesAtPosition(lines, c).value.lineRow;
      if row < i { TilesOrdered(lines, row, i); }
      TilesLineStart(s, lines, i, c);
    } else {
      forall k | 0 <= k < |lines| ensures !Contains(lines[k], c) { }
    }
  }

  /** On a tiling, an offset `positionFrom + k` with `k` within the content
      lands on that row at column `k`. */
  lemma {:induction false} TilesLand(lines: seq<Line>, row: nat, k: nat)
    requires Ordered(lines) && row < |lines|
    requires lines[row].positionFrom + k <= lines[row].positionTo
    ensures GetLineCoordinatesAtPosition(lines, lines[row].positionFrom + k) == Some(Coordinates(row, k))
  {
    var c := lines[row].positionFrom + k;
    assert Contains(lines[row], c);
    var got := GetLineCoordinatesAtPosition(lines, c).value.lineRow;
    if got < row { TilesOrdered(lines, got, row); }
  }

  /** `getLineCoordinatesAtPosition` on the buffer's own lines is `null`
      exactly outside `[0, |s|]`; inside, the row is the number of newlines
      before `c` and the column its distance from the line's start. */
  lemma {:induction false} CoordinatesInBuffer(s: string, c: int)
    ensures GetLineCoordinatesAtPosition(LinesWithBoundaries(s), c).None? <==> c < 0 || c > |s|
    ensures 0 <= c <= |s| ==>
      GetLineCoordinatesAtPosition(LinesWithBoundaries(s), c)
        == Some(Coordinates(Count(s[..c], '\n'), c - LineStart(s, c)))
  {
    LinesTile(s);
    LinesOrdered(s);
    TilesLocate(s, LinesWithBoundaries(s), c);
  }

  /** An offset `positionFrom + k` with `k` within the content lands on that
      row at column `k`. */
  lemma {:induction false} LandsOnRow(s: string, row: nat, k: nat)
    requires row < |LinesWithBoundaries(s)|
    requires k <= |LinesWithBoundaries(s)[row].content|
    ensures var L := LinesWithBoundaries(s);
      GetLineCoordinatesAtPosition(L, L[row].positionFrom + k) == Some(Coordinates(row, k))
  {
    LinesOrdered(s);
    TilesLand(LinesWithBoundaries(s), row, k);
  }
}

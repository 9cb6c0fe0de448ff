/**
 * Vocabulary shared by the two line-aware editors (src/ui/input/TextInput.tsx
 * and src/ui/TextInput.tsx): the splices their key handlers perform, the row
 * and column of a cursor, the offset an Up/Down move aims at, and the cell
 * rendering of the buffer with its cursor, which is the same code in both.
 */
module Editing {
  import opened Wrappers
  import opened Strings
  import opened MathHelpers
  import opened LineIndex

  /** Editor state: the buffer, the cursor offset and the column that
      Up/Down try to keep (`lineColumnGoal`). */
  datatype EditorState = EditorState(input: string, cursor: nat, lineColumnGoal: nat)

  /** The cursor lies within the buffer, as every handler leaves it. */
  predicate Valid(st: EditorState) {
    st.cursor <= |st.input|
  }

  /** The arm of a key handler's `switch (true)` that a key event selects:
      the first label that holds. `CtrlNP` is the Ctrl+N / Ctrl+P arm that
      falls through into `Erase` (Backspace / Delete) unless conflicting keys
      are disabled; `ClearLine` is Ctrl+U, `Submit` Ctrl+D, and `Swallow` an
      arm that only breaks. */
  datatype Branch =
    | LeftArrow | RightArrow | UpArrow | DownArrow
    | CtrlNP | Erase | Return | ClearLine | Submit | Swallow
    | Insert

  /** `t` typed at offset `c`. */
  function InsertAt(s: string, c: nat, t: string): (r: string)
    requires c <= |s|
    ensures |r| == |s| + |t|
    ensures r[..c] == s[..c] && r[c..c + |t|] == t && r[c + |t|..] == s[c..]
  {
    s[..c] + t + s[c..]
  }

  /** One Backspace at offset `c`: the character before the cursor removed. */
  function EraseBefore(s: string, c: nat): (r: string)
    requires 0 < c <= |s|
    ensures |r| == |s| - 1
    ensures r[..c - 1] == s[..c - 1] && r[c - 1..] == s[c..]
  {
    s[..c - 1] + s[c..]
  }

  /** The handlers' JavaScript splice `s.slice(0, c) + t + s.slice(c)` is
      `InsertAt`. */
  lemma {:induction false} SliceSpliceInserts(s: string, c: nat, t: string)
    requires c <= |s|
    ensures Slice(s, 0, c) + t + SliceFrom(s, c) == InsertAt(s, c, t)
  {
    assert Slice(s, 0, c) == s[..c];
  }

  /** The handlers' JavaScript splice `s.slice(0, c - 1) + s.slice(c)` is
      `EraseBefore`. */
  lemma {:induction false} SliceSpliceErases(s: string, c: nat)
    requires 0 < c <= |s|
    ensures Slice(s, 0, c - 1) + SliceFrom(s, c) == EraseBefore(s, c)
  {
    assert Slice(s, 0, c - 1) == s[..c - 1];
  }

  /** `n` Backspaces starting at offset `c`. */
  function EraseRepeatedly(s: string, c: nat, n: nat): string
    requires n <= c <= |s|
    decreases n
  {
    if n == 0 then s else EraseRepeatedly(EraseBefore(s, c), c - 1, n - 1)
  }

  /** Typing `t` and then pressing Backspace `|t|` times restores the buffer. */
  lemma {:induction false} InsertEraseRoundTrip(s: string, c: nat, t: string)
    requires c <= |s|
    ensures EraseRepeatedly(InsertAt(s, c, t), c + |t|, |t|) == s
    decreases |t|
  {
    if t == [] {
      assert InsertAt(s, c, t) == s;
    } else {
      var t' := t[..|t| - 1];
      assert EraseBefore(InsertAt(s, c, t), c + |t|) == InsertAt(s, c, t');
      InsertEraseRoundTrip(s, c, t');
    }
  }

  /** The row of offset `c`: the number of newlines before it. */
  function Row(s: string, c: nat): (r: nat)
    requires c <= |s|
    ensures r <= Count(s, '\n')
  {
    assert s[..c] + s[c..] == s;
    CountAppend(s[..c], s[c..], '\n');
    Count(s[..c], '\n')
  }

  /** The column of offset `c`: its distance from the start of its line. */
  function Column(s: string, c: nat): nat
    requires c <= |s|
  {
    c - LineStart(s, c)
  }

  /** The line helpers on the buffer's own lines locate an offset inside
      the buffer at its row and column, and nothing outside it. */
  lemma {:induction false} CursorCoordinates(s: string, c: int)
    ensures 0 <= c <= |s| ==>
      GetLineCoordinatesAtPosition(LinesWithBoundaries(s), c) == Some(Coordinates(Row(s, c), Column(s, c)))
      && LinesWithBoundaries(s)[Row(s, c)].positionFrom == LineStart(s, c)
    ensures !(0 <= c <= |s|) ==> GetLineCoordinatesAtPosition(LinesWithBoundaries(s), c) == None
  {
    CoordinatesInBuffer(s, c);
  }

  /** `getLineCoordinatesAtPosition(lines, c)?.lineColumn ?? fallback`. */
  function ColumnOr(lines: seq<Line>, c: int, fallback: nat): nat {
    match GetLineCoordinatesAtPosition(lines, c)
    case Some(coordinates) => coordinates.lineColumn
    case None => fallback
  }

  /** On the buffer's own lines, the column lookup yields the column of an
      offset inside the buffer and keeps the fallback outside it. */
  lemma {:induction false} ColumnOrInBuffer(s: string, c: int, fallback: nat)
    ensures ColumnOr(LinesWithBoundaries(s), c, fallback) == if 0 <= c <= |s| then Column(s, c) else fallback
  {
    CursorCoordinates(s, c);
  }

  /** Where Up/Down put the cursor when they move to row `row`: that line's
      start plus the goal column, capped at the line's length. */
  function VerticalTarget(s: string, row: nat, goal: nat): int
    requires row < |LinesWithBoundaries(s)|
  {
    var line := LinesWithBoundaries(s)[row];
    line.positionFrom + Min(goal, |line.content|)
  }

  /** A vertical move lands inside the buffer, on the target row, at the goal
      column capped by that row's length. */
  lemma {:induction false} VerticalLands(s: string, row: nat, goal: nat)
    requires row < |LinesWithBoundaries(s)|
    ensures 0 <= VerticalTarget(s, row, goal) <= |s|
    ensures Row(s, VerticalTarget(s, row, goal)) == row
    ensures Column(s, VerticalTarget(s, row, goal))
              == Min(goal, |LinesWithBoundaries(s)[row].content|)
  {
    var L := LinesWithBoundaries(s);
    var k := Min(goal, |L[row].content|);
    LandsOnRow(s, row, k);
    CoordinatesInBuffer(s, L[row].positionFrom + k);
  }

  /** Aiming at the cursor's own row with its own column as the goal gives
      back the cursor: with the goal kept, Up then Down (or Down then Up)
      returns to where the cursor started. */
  lemma {:induction false} VerticalRoundTrip(s: string, c: nat)
    requires c <= |s|
    ensures Row(s, c) < |LinesWithBoundaries(s)|
    ensures VerticalTarget(s, Row(s, c), Column(s, c)) == c
  {
    LinesTile(s);
    CoordinatesInBuffer(s, c);
  }

  /** Return opens a new line: the cursor after the inserted `\n` is on the
      next row, at column 0. */
  lemma {:induction false} ReturnOpensLine(s: string, c: nat)
    requires c <= |s|
    ensures Row(InsertAt(s, c, "\n"), c + 1) == Row(s, c) + 1
    ensures Column(InsertAt(s, c, "\n"), c + 1) == 0
  {
    var s' := InsertAt(s, c, "\n");
    assert s'[..c + 1] == s[..c] + "\n";
    CountAppend(s[..c], "\n", '\n');
  }

  /** Clearing back to the line start leaves the cursor on the same row at
      column 0. */
  lemma {:induction false} ClearToLineStart(s: string, c: nat)
    requires c <= |s|
    ensures var s' := s[..LineStart(s, c)] + s[c..];
      Row(s', LineStart(s, c)) == Row(s, c) && Column(s', LineStart(s, c)) == 0
  {
    var b := LineStart(s, c);
    var s' := s[..b] + s[c..];
    assert s'[..b] == s[..b];
    assert b > 0 ==> s'[b - 1] == s[b - 1];
    assert s[..c] == s[..b] + s[b..c];
    CountAppend(s[..b], s[b..c], '\n');
    assert '\n' !in s[b..c] by {
      forall k | 0 <= k < c - b ensures s[b..c][k] != '\n' {
        assert s[b..c][k] == s[b + k];
      }
    }
  }

  /** The final `Math.max(0, Math.min(c, n))` of every handler. */
  function Clamp(c: int, n: nat): (r: nat)
    ensures r <= n
    ensures 0 <= c <= n ==> r == c
    ensures c < 0 ==> r == 0
    ensures c > n ==> r == n
  {
    Max(0, Min(c, n))
  }

  /** Where Up (`delta` = -1) or Down (`delta` = 1) puts the cursor: on the
      neighbouring row at the goal column, or nowhere new when there is no
      such row. */
  function VerticalMove(s: string, c: nat, goal: nat, delta: int): int
    requires c <= |s|
  {
    if 0 <= Row(s, c) + delta < |LinesWithBoundaries(s)| then VerticalTarget(s, Row(s, c) + delta, goal)
    else c
  }

  /** Up and Down stay inside the buffer. When the neighbouring row exists
      they land on it, at the goal column capped by that row's length;
      otherwise the cursor stays where it is. */
  lemma {:induction false} VerticalMoveLands(s: string, c: nat, goal: nat, delta: int)
    requires c <= |s| && (delta == -1 || delta == 1)
    ensures var r := VerticalMove(s, c, goal, delta);
      0 <= r <= |s|
      && (0 <= Row(s, c) + delta <= Count(s, '\n') ==>
            Row(s, r) == Row(s, c) + delta
            && Column(s, r) == Min(goal, |LinesWithBoundaries(s)[Row(s, c) + delta].content|))
      && (!(0 <= Row(s, c) + delta <= Count(s, '\n')) ==> r == c)
  {
    LinesTile(s);
    if 0 <= Row(s, c) + delta <= Count(s, '\n') {
      VerticalLands(s, Row(s, c) + delta, goal);
    }
  }

  /** The state a handler arm settles on: the arm's buffer and goal, with
      its cursor clamped into the buffer. */
  function Settle(input: string, cursor: int, goal: nat): (r: EditorState)
    ensures Valid(r) && r.input == input && r.lineColumnGoal == goal
    ensures 0 <= cursor <= |input| ==> r.cursor == cursor
  {
    EditorState(input, Clamp(cursor, |input|), goal)
  }

  /** The column at offset `p` of `s`, or `goal` when `p` is outside `s`. */
  function ColumnOrGoal(s: string, p: int, goal: nat): (r: nat)
    ensures 0 <= p <= |s| ==> r == Column(s, p)
    ensures !(0 <= p <= |s|) ==> r == goal
  {
    if 0 <= p <= |s| then Column(s, p) else goal
  }

  /** The Left (`delta` = -1) and Right (`delta` = 1) arms: the cursor
      moved by one, and the column there as the goal when it is inside the
      buffer. */
  function HorizontalArm(state: EditorState, delta: int): EditorState
    requires Valid(state)
  {
    var s, c := state.input, state.cursor;
    Settle(s, c + delta, ColumnOrGoal(s, c + delta, state.lineColumnGoal))
  }

  /** The Up (`delta` = -1) and Down (`delta` = 1) arms. */
  function VerticalArm(state: EditorState, delta: int): EditorState
    requires Valid(state)
  {
    Settle(state.input, VerticalMove(state.input, state.cursor, state.lineColumnGoal, delta), state.lineColumnGoal)
  }

  /** The Backspace / Delete arm. */
  function EraseArm(state: EditorState): EditorState
    requires Valid(state)
  {
    var s, c := state.input, state.cursor;
    if c == 0 then Settle(s, c, state.lineColumnGoal)
    else Settle(EraseBefore(s, c), c - 1, Column(EraseBefore(s, c), c - 1))
  }

  /** The Return arm. */
  function ReturnArm(state: EditorState): EditorState
    requires Valid(state)
  {
    Settle(InsertAt(state.input, state.cursor, "\n"), state.cursor + 1, 0)
  }

  /** The Ctrl+U arm. */
  function ClearLineArm(state: EditorState): EditorState
    requires Valid(state)
  {
    var s, c := state.input, state.cursor;
    Settle(s[..LineStart(s, c)] + s[c..], LineStart(s, c), 0)
  }

  /** The default arm. */
  function InsertArm(state: EditorState, input: string): EditorState
    requires Valid(state)
  {
    var s, c := state.input, state.cursor;
    Settle(InsertAt(s, c, input), c + |input|, Column(InsertAt(s, c, input), c + |input|))
  }

  /** What the key handler does to a valid state, as the handler computes
      it: each arm proposes a buffer, an unclamped cursor and a goal, and
      the cursor is then clamped into the buffer. The lemmas below say what
      that means in offsets, rows and columns. */
  function Step(state: EditorState, branch: Branch, input: string, disableConflictingKeys: bool): (r: EditorState)
    requires Valid(state)
    ensures Valid(r)
  {
    var s, c, goal := state.input, state.cursor, state.lineColumnGoal;
    match branch
    case LeftArrow => HorizontalArm(state, -1)
    case RightArrow => HorizontalArm(state, 1)
    case UpArrow => if disableConflictingKeys then Settle(s, c, goal) else VerticalArm(state, -1)
    case DownArrow => if disableConflictingKeys then Settle(s, c, goal) else VerticalArm(state, 1)
    case CtrlNP => if disableConflictingKeys then Settle(s, c, goal) else EraseArm(state)
    case Erase => EraseArm(state)
    case Return => if disableConflictingKeys then Settle(s, c, goal) else ReturnArm(state)
    case ClearLine => ClearLineArm(state)
    case Submit => if |JsTrim(s)| != 0 then Settle([], 0, 0) else Settle(s, c, goal)
    case Swallow => Settle(s, c, goal)
    case Insert => InsertArm(state, input)
  }

  /** Left and Right move the cursor by one character and take the column
      there as the goal; at the edge of the buffer they change nothing. */
  lemma {:induction false} StepHorizontal(state: EditorState, input: string, disableConflictingKeys: bool)
    requires Valid(state)
    ensures var s, c := state.input, state.cursor;
      Step(state, LeftArrow, input, disableConflictingKeys)
      == if c > 0 then EditorState(s, c - 1, Column(s, c - 1)) else state
    ensures var s, c := state.input, state.cursor;
      Step(state, RightArrow, input, disableConflictingKeys)
      == if c < |s| then EditorState(s, c + 1, Column(s, c + 1)) else state
  {
  }

  /** Up and Down keep the buffer and the goal and move the cursor to the
      goal column of the adjacent row, unless they are disabled. */
  lemma {:induction false} StepVertical(state: EditorState, branch: Branch, input: string, disableConflictingKeys: bool)
    requires Valid(state) && (branch == UpArrow || branch == DownArrow)
    ensures var r := Step(state, branch, input, disableConflictingKeys);
      r.input == state.input && r.lineColumnGoal == state.lineColumnGoal
      && r.cursor == if disableConflictingKeys then state.cursor
                     else VerticalMove(state.input, state.cursor, state.lineColumnGoal, if branch == UpArrow then -1 else 1)
  {
    VerticalMoveLands(state.input, state.cursor, state.lineColumnGoal, if branch == UpArrow then -1 else 1);
  }

  /** Backspace and Delete (and Ctrl+N / Ctrl+P unless disabled) remove the
      character before the cursor; at offset 0 they change nothing. With
      conflicting keys disabled, Ctrl+N / Ctrl+P change nothing. */
  lemma {:induction false} StepErase(state: EditorState, input: string, disableConflictingKeys: bool)
    requires Valid(state)
    ensures var s, c := state.input, state.cursor;
      Step(state, Erase, input, disableConflictingKeys)
      == if c == 0 then state else EditorState(EraseBefore(s, c), c - 1, Column(EraseBefore(s, c), c - 1))
    ensures Step(state, CtrlNP, input, disableConflictingKeys)
      == if disableConflictingKeys then state else Step(state, Erase, input, disableConflictingKeys)
  {
  }

  /** Return breaks the line at the cursor (unless disabled), Ctrl+U deletes
      back to the start of the cursor's line, and typed text goes in at the
      cursor, which ends up after it. */
  lemma {:induction false} StepEdits(state: EditorState, input: string, disableConflictingKeys: bool)
    requires Valid(state)
    ensures var s, c := state.input, state.cursor;
      Step(state, Return, input, disableConflictingKeys)
      == if disableConflictingKeys then state else EditorState(InsertAt(s, c, "\n"), c + 1, 0)
    ensures var s, c := state.input, state.cursor;
      Step(state, ClearLine, input, disableConflictingKeys)
      == EditorState(s[..LineStart(s, c)] + s[c..], LineStart(s, c), 0)
    ensures var s, c := state.input, state.cursor;
      Step(state, Insert, input, disableConflictingKeys)
      == EditorState(InsertAt(s, c, input), c + |input|, Column(InsertAt(s, c, input), c + |input|))
  {
  }

  /** Ctrl+D empties a buffer that does not trim to nothing and otherwise
      changes nothing; Ctrl+Y changes nothing. */
  lemma {:induction false} StepSubmit(state: EditorState, input: string, disableConflictingKeys: bool)
    requires Valid(state)
    ensures Step(state, Submit, input, disableConflictingKeys)
      == if JsTrim(state.input) == [] then state else EditorState([], 0, 0)
    ensures Step(state, Swallow, input, disableConflictingKeys) == state
  {
  }

  /** The Left / Right arms: move the cursor by one and take the column
      there as the new goal, keeping the old goal when the new offset is
      outside the buffer. */
  method MoveHorizontally(state: EditorState, lines: seq<Line>, delta: int)
    returns (newCursorPosition: int, newLineColumnGoal: nat)
    requires lines == LinesWithBoundaries(state.input)
    ensures Valid(state) ==>
      Settle(state.input, newCursorPosition, newLineColumnGoal) == HorizontalArm(state, delta)
  {
    newCursorPosition := state.cursor + delta;
    ColumnOrInBuffer(state.input, newCursorPosition, state.lineColumnGoal);
    newLineColumnGoal := ColumnOr(lines, newCursorPosition, state.lineColumnGoal);
  }

  /** The Up / Down arms (without their `disableConflictingKeys` guard): on
      a row that has a neighbour in direction `delta`, aim at the goal column
      there; otherwise stay. */
  method MoveVertically(state: EditorState, lines: seq<Line>, delta: int)
    returns (newCursorPosition: int)
    requires lines == LinesWithBoundaries(state.input)
    requires delta == -1 || delta == 1
    ensures Valid(state) ==>
      Settle(state.input, newCursorPosition, state.lineColumnGoal) == VerticalArm(state, delta)
  {
    newCursorPosition := state.cursor;
    CursorCoordinates(state.input, state.cursor);
    var lineCoordinates := GetLineCoordinatesAtPosition(lines, state.cursor);
    if lineCoordinates.Some? && (if delta < 0 then lineCoordinates.value.lineRow > 0 else lineCoordinates.value.lineRow < |lines| - 1) {
      var targetLine := lines[lineCoordinates.value.lineRow + delta];
      var targetLineColumn := Min(state.lineColumnGoal, |targetLine.content|);
      newCursorPosition := targetLine.positionFrom + targetLineColumn;
    }
  }

  /** The Backspace / Delete arm: remove the character before the cursor and
      take the column there as the goal; nothing at offset 0. */
  method EraseBackward(state: EditorState)
    returns (newInput: string, newCursorPosition: int, newLineColumnGoal: nat)
    ensures Valid(state) ==> Settle(newInput, newCursorPosition, newLineColumnGoal) == EraseArm(state)
  {
    var currentInput, currentCursorPosition := state.input, state.cursor;
    newInput, newCursorPosition, newLineColumnGoal := currentInput, currentCursorPosition, state.lineColumnGoal;
    if currentCursorPosition > 0 {
      newInput := Slice(currentInput, 0, currentCursorPosition - 1) + SliceFrom(currentInput, currentCursorPosition);
      if Valid(state) {
        SliceSpliceErases(currentInput, currentCursorPosition);
      }
      newCursorPosition := newCursorPosition - 1;
      var newInputLines := LinesWithBoundaries(newInput);
      ColumnOrInBuffer(newInput, newCursorPosition, newLineColumnGoal);
      newLineColumnGoal := ColumnOr(newInputLines, newCursorPosition, newLineColumnGoal);
    }
  }

  /** The Return arm: a `\n` at the cursor, the cursor after it, goal 0. */
  method BreakLine(state: EditorState)
    returns (newInput: string, newCursorPosition: int, newLineColumnGoal: nat)
    ensures Valid(state) ==> Settle(newInput, newCursorPosition, newLineColumnGoal) == ReturnArm(state)
  {
    var currentInput, currentCursorPosition := state.input, state.cursor;
    newInput := Slice(currentInput, 0, currentCursorPosition) + "\n" + SliceFrom(currentInput, currentCursorPosition);
    newCursorPosition := currentCursorPosition + 1;
    newLineColumnGoal := 0;
    if Valid(state) {
      SliceSpliceInserts(currentInput, currentCursorPosition, "\n");
    }
  }

  /** The Ctrl+U arm: delete from the start of the cursor's line up to the
      cursor, put the cursor there and reset the goal. */
  method ClearLineBeforeCursor(state: EditorState, lines: seq<Line>)
    returns (newInput: string, newCursorPosition: int, newLineColumnGoal: nat)
    requires lines == LinesWithBoundaries(state.input)
    ensures Valid(state) ==> Settle(newInput, newCursorPosition, newLineColumnGoal) == ClearLineArm(state)
  {
    var currentInput, currentCursorPosition := state.input, state.cursor;
    newInput, newCursorPosition, newLineColumnGoal := currentInput, currentCursorPosition, state.lineColumnGoal;
    CursorCoordinates(currentInput, currentCursorPosition);
    var lineCoordinates := GetLineCoordinatesAtPosition(lines, currentCursorPosition);
    if lineCoordinates.Some? {
      var currentLine := lines[lineCoordinates.value.lineRow];
      newInput := Slice(currentInput, 0, currentLine.positionFrom) + SliceFrom(currentInput, currentCursorPosition);
      newCursorPosition := currentLine.positionFrom;
      newLineColumnGoal := 0;
    }
  }

  /** The default arm: the typed text at the cursor, the cursor after it, and
      the column there as the goal. */
  method InsertInput(state: EditorState, input: string)
    returns (newInput: string, newCursorPosition: int, newLineColumnGoal: nat)
    ensures Valid(state) ==> Settle(newInput, newCursorPosition, newLineColumnGoal) == InsertArm(state, input)
  {
    var currentInput, currentCursorPosition := state.input, state.cursor;
    newInput := Slice(currentInput, 0, currentCursorPosition) + input + SliceFrom(currentInput, currentCursorPosition);
    newCursorPosition := currentCursorPosition + |input|;
    var newInputLines := LinesWithBoundaries(newInput);
    newLineColumnGoal := ColumnOr(newInputLines, newCursorPosition, state.lineColumnGoal);
    if Valid(state) {
      SliceSpliceInserts(currentInput, currentCursorPosition, input);
      ColumnOrInBuffer(newInput, newCursorPosition, state.lineColumnGoal);
    }
  }

  /** A styled character cell of the rendered buffer: plain, highlighted
      (`chalk.inverse`) or dimmed (the placeholder's tail). */
  datatype Cell = Plain(ch: char) | Inverse(ch: char) | Muted(ch: char)

  /** The characters a row of cells shows, without their styles. */
  function Text(cells: seq<Cell>): (r: string)
    ensures |r| == |cells|
  {
    if cells == [] then [] else [cells[0].ch] + Text(cells[1..])
  }

  /** Number of highlighted cells. */
  function Highlights(cells: seq<Cell>): nat {
    if cells == [] then 0 else (if cells[0].Inverse? then 1 else 0) + Highlights(cells[1..])
  }

  lemma {:induction false} TextAppend(a: seq<Cell>, b: seq<Cell>)
    ensures Text(a + b) == Text(a) + Text(b)
    ensures Highlights(a + b) == Highlights(a) + Highlights(b)
  {
    if a == [] {
      assert a + b == b;
    } else {
      assert (a + b)[1..] == a[1..] + b;
      TextAppend(a[1..], b);
    }
  }

  /** Unstyled cells. */
  function Plains(s: string): (r: seq<Cell>)
    ensures |r| == |s|
  {
    if s == [] then [] else [Plain(s[0])] + Plains(s[1..])
  }

  /** Unstyled cells show their characters and nothing highlighted. */
  lemma {:induction false} PlainsShow(s: string)
    ensures Text(Plains(s)) == s && Highlights(Plains(s)) == 0
  {
    if s != [] {
      PlainsShow(s[1..]);
      TextAppend([Plain(s[0])], Plains(s[1..]));
      assert [s[0]] + s[1..] == s;
    }
  }

  /** The cells of the character under the cursor: highlighted, and a `\n`
      shows as a highlighted blank before the line break. */
  function CursorCells(ch: char): seq<Cell> {
    if ch == '\n' then [Inverse(' '), Plain('\n')] else [Inverse(ch)]
  }

  /** The characters of `s` with the one at offset `c` (counted from the
      first) styled as the cursor. */
  function MarkCursor(s: string, c: int): seq<Cell> {
    if s == [] then []
    else (if c == 0 then CursorCells(s[0]) else [Plain(s[0])]) + MarkCursor(s[1..], c - 1)
  }

  /** `renderedCurrentInput`: nothing for an empty buffer; otherwise every
      character, the cursor's highlighted, and a highlighted trailing blank
      when the cursor is at the end. */
  function RenderedInput(s: string, c: int): seq<Cell> {
    if |s| == 0 then []
    else MarkCursor(s, c) + (if c == |s| then [Inverse(' ')] else [])
  }

  /** Every character but the cursor's is plain; the cursor's is highlighted. */
  lemma {:induction false} MarkCursorSplits(s: string, c: int)
    ensures 0 <= c < |s| ==> MarkCursor(s, c) == Plains(s[..c]) + CursorCells(s[c]) + Plains(s[c + 1..])
    ensures !(0 <= c < |s|) ==> MarkCursor(s, c) == Plains(s)
  {
    if s != [] {
      var u := s[1..];
      var rest := MarkCursor(u, c - 1);
      MarkCursorSplits(u, c - 1);
      assert Plains(s) == [Plain(s[0])] + Plains(u);
      if c == 0 {
        assert MarkCursor(s, c) == CursorCells(s[0]) + rest;
        assert s[..c] == [] && u == s[c + 1..];
      } else {
        assert MarkCursor(s, c) == [Plain(s[0])] + rest;
        if 0 < c < |s| {
          assert u[c - 1] == s[c] && u[c..] == s[c + 1..];
          assert s[..c] == [s[0]] + u[..c - 1];
          assert Plains(s[..c]) == [Plain(s[0])] + Plains(u[..c - 1]);
        }
      }
    }
  }

  /** The text shown around the cursor cell. */
  lemma {:induction false} CursorCellsShow(a: string, ch: char, b: string)
    ensures Text(Plains(a) + CursorCells(ch) + Plains(b))
              == if ch == '\n' then a + " \n" + b else a + [ch] + b
    ensures Highlights(Plains(a) + CursorCells(ch) + Plains(b)) == 1
  {
    PlainsShow(a);
    PlainsShow(b);
    TextAppend(Plains(a), CursorCells(ch));
    TextAppend(Plains(a) + CursorCells(ch), Plains(b));
    if ch == '\n' {
      assert CursorCells(ch)[1..] == [Plain('\n')];
      assert [Plain('\n')][1..] == [];
      assert Text(CursorCells(ch)) == " \n";
      assert Highlights(CursorCells(ch)) == 1;
    } else {
      assert Highlights(CursorCells(ch)) == 1;
    }
  }

  /** The shown text and highlight count of the marked characters. */
  lemma {:induction false} MarkCursorShows(s: string, c: int)
    ensures Text(MarkCursor(s, c))
              == if 0 <= c < |s| && s[c] == '\n' then s[..c] + " " + s[c..] else s
    ensures Highlights(MarkCursor(s, c)) == if 0 <= c < |s| then 1 else 0
  {
    MarkCursorSplits(s, c);
    if 0 <= c < |s| {
      var a, ch, b := s[..c], s[c], s[c + 1..];
      CursorCellsShow(a, ch, b);
      if ch == '\n' {
        assert a + " \n" + b == a + " " + s[c..] by {
          assert s[c..] == [ch] + b;
        }
      } else {
        assert a + [ch] + b == s;
      }
    } else {
      PlainsShow(s);
    }
  }

  /** What the rendering shows: the buffer with one blank inserted at a
      cursor that sits on a `\n` or at the end, and exactly one highlighted
      cell whenever the buffer is non-empty and the cursor within it. */
  lemma {:induction false} RenderedInputShows(s: string, c: int)
    ensures RenderedInput(s, c) == [] <==> s == []
    ensures Text(RenderedInput(s, c))
              == if s == [] then []
                 else if 0 <= c < |s| && s[c] == '\n' then s[..c] + " " + s[c..]
                 else if c == |s| then s + " "
                 else s
    ensures Highlights(RenderedInput(s, c)) == if s != [] && 0 <= c <= |s| then 1 else 0
  {
    if s != [] {
      MarkCursorShows(s, c);
      var tail: seq<Cell> := if c == |s| then [Inverse(' ')] else [];
      TextAppend(MarkCursor(s, c), tail);
      assert |MarkCursor(s, c)| > 0 by {
        assert |Text(MarkCursor(s, c))| >= |s|;
      }
    }
  }

  /** The placeholder's cells: its first character highlighted, the rest
      dimmed; nothing for an empty placeholder. */
  function PlaceholderCells(p: string): seq<Cell> {
    if p == [] then [] else [Inverse(p[0])] + Muteds(p[1..])
  }

  /** Dimmed cells. */
  function Muteds(s: string): (r: seq<Cell>)
    ensures |r| == |s|
  {
    if s == [] then [] else [Muted(s[0])] + Muteds(s[1..])
  }

  lemma {:induction false} MutedsShow(s: string)
    ensures Text(Muteds(s)) == s && Highlights(Muteds(s)) == 0
  {
    if s != [] {
      MutedsShow(s[1..]);
      TextAppend([Muted(s[0])], Muteds(s[1..]));
      assert [s[0]] + s[1..] == s;
    }
  }

  /** A non-empty placeholder shows its text with one highlighted cell. */
  lemma {:induction false} PlaceholderShows(p: string)
    requires p != []
    ensures Text(PlaceholderCells(p)) == p && Highlights(PlaceholderCells(p)) == 1
  {
    MutedsShow(p[1..]);
    TextAppend([Inverse(p[0])], Muteds(p[1..]));
    assert [p[0]] + p[1..] == p;
  }

  /** The input line: the rendered buffer when it is non-empty, the
      placeholder otherwise. */
  function Display(placeholder: string, s: string, c: int): (r: seq<Cell>)
    ensures s == [] ==> r == PlaceholderCells(placeholder)
    ensures s != [] ==> r == RenderedInput(s, c)
  {
    RenderedInputShows(s, c);
    var rendered := RenderedInput(s, c);
    if |rendered| > 0 then rendered else PlaceholderCells(placeholder)
  }
}

/**
 * The earliest editor, the `Main` component of src/index.tsx: a flat text
 * buffer with a cursor offset, a handler for Left, Right, Backspace /
 * Delete, Return and typed text, and a rendering built character by
 * character. It keeps no column goal and has no Up / Down arms.
 */
module FirstEditor {
  import opened MathHelpers
  import opened Strings
  import opened Ink
  import opened Editing

  const InputPlaceholder := "Describe your task..."

  /** The buffer and the cursor offset. */
  datatype Buffer = Buffer(text: string, offset: nat)

  /** The arm of the handler's `if` chain that a key takes. */
  function Dispatch(key: Key): (r: Branch)
    ensures r == LeftArrow || r == RightArrow || r == Erase || r == Return || r == Insert
  {
    if key.leftArrow then LeftArrow
    else if key.rightArrow then RightArrow
    else if key.backspace || key.delete then Erase
    else if key.returnKey then Return
    else Insert
  }

  /** One keystroke: the arm proposes a text and an unclamped offset, and
      the offset is then clamped into the text. */
  function Keystroke(b: Buffer, input: string, key: Key): (r: Buffer)
    requires b.offset <= |b.text|
    ensures r.offset <= |r.text|
  {
    var s, c := b.text, b.offset;
    match Dispatch(key)
    case LeftArrow => Buffer(s, Clamp(c - 1, |s|))
    case RightArrow => Buffer(s, Clamp(c + 1, |s|))
    case Erase => if c > 0 then Buffer(EraseBefore(s, c), c - 1) else b
    case Return => Buffer(InsertAt(s, c, "\n"), c + 1)
    case Insert => Buffer(InsertAt(s, c, input), c + |input|)
  }

  /** Left and Right move the offset by exactly one, Left stopping at 0 and
      Right at the end of the text, and leave the text alone. */
  lemma {:induction false} KeystrokeMoves(b: Buffer, input: string, key: Key)
    requires b.offset <= |b.text|
    ensures Dispatch(key) == LeftArrow ==> Keystroke(b, input, key) == Buffer(b.text, Max(0, b.offset - 1))
    ensures Dispatch(key) == RightArrow ==> Keystroke(b, input, key) == Buffer(b.text, Min(|b.text|, b.offset + 1))
  {
  }

  /** Backspace removes the character before the cursor, and nothing at
      offset 0; Return and typed text go in at the cursor, which ends up
      after them. Typed text can be taken back with as many Backspaces. */
  lemma {:induction false} KeystrokeEdits(b: Buffer, input: string, key: Key)
    requires b.offset <= |b.text|
    ensures Dispatch(key) == Erase ==>
      Keystroke(b, input, key)
      == if b.offset == 0 then b else Buffer(EraseBefore(b.text, b.offset), b.offset - 1)
    ensures Dispatch(key) == Return ==>
      Keystroke(b, input, key) == Buffer(InsertAt(b.text, b.offset, "\n"), b.offset + 1)
    ensures Dispatch(key) == Insert ==>
      var r := Keystroke(b, input, key);
      r == Buffer(InsertAt(b.text, b.offset, input), b.offset + |input|)
      && EraseRepeatedly(r.text, r.offset, |input|) == b.text
  {
    InsertEraseRoundTrip(b.text, b.offset, input);
  }

  /** The body of the key handler: the `if` chain over the locals
      `nextInputText` and `nextInputCursorOffset`, then the two clamps. */
  method Transition(inputText: string, inputCursorOffset: nat, input: string, key: Key)
    returns (next: Buffer)
    requires inputCursorOffset <= |inputText|
    ensures next == Keystroke(Buffer(inputText, inputCursorOffset), input, key)
  {
    var nextInputCursorOffset: int := inputCursorOffset;
    var nextInputText := inputText;

    if key.leftArrow {
      nextInputCursorOffset := nextInputCursorOffset - 1;
    } else if key.rightArrow {
      nextInputCursorOffset := nextInputCursorOffset + 1;
    } else if key.backspace || key.delete {
      if inputCursorOffset > 0 {
        nextInputText := Slice(inputText, 0, inputCursorOffset - 1) + Slice(inputText, inputCursorOffset, |inputText|);
        SliceSpliceErases(inputText, inputCursorOffset);
        nextInputCursorOffset := nextInputCursorOffset - 1;
      }
    } else if key.returnKey {
      nextInputText := Slice(inputText, 0, inputCursorOffset) + "\n" + Slice(inputText, inputCursorOffset, |inputText|);
      SliceSpliceInserts(inputText, inputCursorOffset, "\n");
      nextInputCursorOffset := nextInputCursorOffset + 1;
    } else {
      nextInputText := Slice(inputText, 0, inputCursorOffset) + input + Slice(inputText, inputCursorOffset, |inputText|);
      SliceSpliceInserts(inputText, inputCursorOffset, input);
      nextInputCursorOffset := nextInputCursorOffset + |input|;
    }

    if nextInputCursorOffset < 0 {
      nextInputCursorOffset := 0;
    }
    if nextInputCursorOffset > |nextInputText| {
      nextInputCursorOffset := |nextInputText|;
    }
    next := Buffer(nextInputText, nextInputCursorOffset);
  }

  /** The characters of `s`, the one at offset `c` highlighted (a `\n`
      included: this renderer has no special case for it). */
  function Marked(s: string, c: int): (r: seq<Cell>)
    ensures |r| == |s|
    ensures forall i | 0 <= i < |s| :: r[i] == if i == c then Inverse(s[i]) else Plain(s[i])
  {
    seq(|s|, i requires 0 <= i < |s| => if i == c then Inverse(s[i]) else Plain(s[i]))
  }

  /** `renderedInputText`: a highlighted blank for empty text; otherwise the
      marked characters and a highlighted trailing blank when the cursor is
      at the end. */
  function RenderedInputText(s: string, c: int): seq<Cell> {
    if |s| == 0 then [Inverse(' ')]
    else Marked(s, c) + (if c == |s| then [Inverse(' ')] else [])
  }

  /** The render loop: one cell per character, then the trailing blank. */
  method RenderInputText(inputText: string, inputCursorOffset: int) returns (r: seq<Cell>)
    ensures r == RenderedInputText(inputText, inputCursorOffset)
  {
    if |inputText| == 0 {
      return [Inverse(' ')];
    }
    r := [];
    var index := 0;
    while index < |inputText|
      invariant 0 <= index <= |inputText|
      invariant |r| == index
      invariant forall i | 0 <= i < index ::
        r[i] == if i == inputCursorOffset then Inverse(inputText[i]) else Plain(inputText[i])
    {
      var character := inputText[index];
      r := r + [if index == inputCursorOffset then Inverse(character) else Plain(character)];
      index := index + 1;
    }
    assert r == Marked(inputText, inputCursorOffset);
    if inputCursorOffset == |inputText| {
      r := r + [Inverse(' ')];
    }
  }

  /** The marked characters show the text, with one highlight exactly when
      the offset is inside it. */
  lemma {:induction false} MarkedShows(s: string, c: int)
    ensures Text(Marked(s, c)) == s
    ensures Highlights(Marked(s, c)) == if 0 <= c < |s| then 1 else 0
    decreases |s|
  {
    if s != [] {
      var m, rest := Marked(s, c), Marked(s[1..], c - 1);
      forall i | 0 <= i < |rest|
        ensures m[1..][i] == rest[i]
      {
        assert s[1..][i] == s[i + 1];
      }
      assert m[1..] == rest;
      MarkedShows(s[1..], c - 1);
      assert s == [s[0]] + s[1..];
    }
  }

  /** The rendering is never empty, so the placeholder branch of the display
      is dead. It shows the text, followed by a blank when the cursor is at
      the end (and a lone blank for empty text), and highlights exactly one
      cell whenever the cursor lies in `[0, |s|]`. */
  lemma {:induction false} RenderedInputTextShows(s: string, c: int)
    ensures |RenderedInputText(s, c)| > 0
    ensures Text(RenderedInputText(s, c)) == if s == [] || c == |s| then s + " " else s
    ensures Highlights(RenderedInputText(s, c)) == if s == [] || 0 <= c <= |s| then 1 else 0
  {
    if s != [] {
      MarkedShows(s, c);
      var tail: seq<Cell> := if c == |s| then [Inverse(' ')] else [];
      TextAppend(Marked(s, c), tail);
    }
  }

  /** What the component shows after the prompt: always the rendered text. */
  function InputLine(s: string, c: int): (r: seq<Cell>)
    ensures r == RenderedInputText(s, c)
  {
    RenderedInputTextShows(s, c);
    var rendered := RenderedInputText(s, c);
    if |rendered| > 0 then rendered else PlaceholderCells(InputPlaceholder)
  }

  /** The component with its two state cells. */
  class Main {
    var inputText: string
    var inputCursorOffset: nat

    /** The offset lies inside the text, as every keystroke leaves it. */
    predicate Valid()
      reads this
    {
      inputCursorOffset <= |inputText|
    }

    /** Empty text, the cursor at its end. */
    constructor()
      ensures Valid() && inputText == "" && inputCursorOffset == 0
    {
      inputText := "";
      inputCursorOffset := 0;
    }

    /** The key handler: one `Transition` of the two cells. `exitRequested`
        says whether `exit()` is called; the keystroke is handled anyway. */
    method HandleInput(input: string, key: Key) returns (exitRequested: bool)
      requires Valid()
      modifies this
      ensures Valid()
      ensures Buffer(inputText, inputCursorOffset)
              == Keystroke(Buffer(old(inputText), old(inputCursorOffset)), input, key)
      ensures exitRequested <==> (key.ctrl && input == "c") || key.escape
    {
      exitRequested := (key.ctrl && input == "c") || key.escape;
      var next := Transition(inputText, inputCursorOffset, input, key);
      inputCursorOffset := next.offset;
      inputText := next.text;
    }

    /** The rendered text for the current cells. */
    function View(): (r: seq<Cell>)
      reads this
      ensures |r| > 0 && r == RenderedInputText(inputText, inputCursorOffset)
    {
      InputLine(inputText, inputCursorOffset)
    }
  }
}

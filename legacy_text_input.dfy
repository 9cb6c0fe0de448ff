/**
 * The older, uncontrolled multi-line editor of src/ui/TextInput.tsx. It
 * keeps the buffer, the cursor and the column goal in three state cells of
 * its own, has the same line helpers and arms as the newer editor, but no
 * Ctrl+N / Ctrl+P, Ctrl+U or Ctrl+Y arms, a Ctrl+D arm that does nothing,
 * and no way to disable the Up / Down / Return arms. Ctrl+C and Escape ask
 * the application to exit, and the handler then carries on with the key.
 */
module LegacyTextInput {
  import opened Wrappers
  import opened MathHelpers
  import opened Strings
  import opened LineIndex
  import opened Ink
  import opened Editing

  const InputPlaceholder := "Describe your task..."

  /** The first `case` of the handler's `switch (true)` whose label holds. */
  function Dispatch(input: string, key: Key): (r: Branch)
    ensures r != CtrlNP && r != ClearLine && r != Submit
  {
    if key.leftArrow then LeftArrow
    else if key.rightArrow then RightArrow
    else if key.upArrow then UpArrow
    else if key.downArrow then DownArrow
    else if key.backspace || key.delete then Erase
    else if key.returnKey then Return
    else if key.ctrl && input == "d" then Swallow
    else Insert
  }

  /** Ctrl+D (with no arrow, Backspace, Delete or Return flag) leaves buffer,
      cursor and goal as they were, whatever the state. */
  lemma {:induction false} CtrlDKeepsState(state: EditorState, key: Key)
    requires Valid(state) && key.ctrl
    requires !(key.leftArrow || key.rightArrow || key.upArrow || key.downArrow)
    requires !(key.backspace || key.delete || key.returnKey)
    ensures Step(state, Dispatch("d", key), "d", false) == state
  {
    StepSubmit(state, "d", false);
  }

  /** Without a Ctrl+D arm of its own, a typed `n` or `p` with Ctrl goes into
      the buffer: unlike the newer editor, these never erase. */
  lemma {:induction false} CtrlNInserts(state: EditorState, key: Key)
    requires Valid(state) && key.ctrl
    requires !(key.leftArrow || key.rightArrow || key.upArrow || key.downArrow)
    requires !(key.backspace || key.delete || key.returnKey)
    ensures Step(state, Dispatch("n", key), "n", false).input == InsertAt(state.input, state.cursor, "n")
  {
    StepEdits(state, "n", false);
  }

  /** The body of the key handler: the `switch (true)` over locals seeded
      from the state cells, then the clamp of the cursor. */
  method Transition(state: EditorState, input: string, key: Key) returns (next: EditorState)
    requires Valid(state)
    ensures Valid(next)
    ensures next == Step(state, Dispatch(input, key), input, false)
  {
    var lines := LinesWithBoundaries(state.input);
    var newInput := state.input;
    var newCursorPosition: int := state.cursor;
    var newLineColumnGoal := state.lineColumnGoal;

    match Dispatch(input, key) {
    case LeftArrow =>
      newCursorPosition, newLineColumnGoal := MoveHorizontally(state, lines, -1);
    case RightArrow =>
      newCursorPosition, newLineColumnGoal := MoveHorizontally(state, lines, 1);
    case UpArrow =>
      newCursorPosition := MoveVertically(state, lines, -1);
    case DownArrow =>
      newCursorPosition := MoveVertically(state, lines, 1);
    case Erase =>
      newInput, newCursorPosition, newLineColumnGoal := EraseBackward(state);
    case Return =>
      newInput, newCursorPosition, newLineColumnGoal := BreakLine(state);
    case Swallow =>
      // Ctrl+D: submitting is not implemented
    case Insert =>
      newInput, newCursorPosition, newLineColumnGoal := InsertInput(state, input);
    }

    newCursorPosition := Clamp(newCursorPosition, |newInput|);
    next := EditorState(newInput, newCursorPosition, newLineColumnGoal);
  }

  /** The component with its three state cells. */
  class Editor {
    var currentInput: string
    var currentCursorPosition: nat
    var lineColumnGoal: nat

    /** The cursor lies inside the buffer, as every keystroke leaves it. */
    predicate Valid()
      reads this
    {
      currentCursorPosition <= |currentInput|
    }

    function State(): (r: EditorState)
      reads this
      ensures Valid() <==> Editing.Valid(r)
    {
      EditorState(currentInput, currentCursorPosition, lineColumnGoal)
    }

    /** An empty buffer, the cursor at its end, goal 0. */
    constructor()
      ensures Valid() && State() == EditorState("", 0, 0)
    {
      currentInput := "";
      currentCursorPosition := 0;
      lineColumnGoal := 0;
    }

    /** The key handler: one `Transition` of the three cells.
        `exitRequested` says whether `exit()` is called. */
    method HandleInput(input: string, key: Key) returns (exitRequested: bool)
      requires Valid()
      modifies this
      ensures Valid()
      ensures State() == Step(old(State()), Dispatch(input, key), input, false)
      ensures exitRequested <==> (key.ctrl && input == "c") || key.escape
    {
      exitRequested := (key.ctrl && input == "c") || key.escape;
      var next := Transition(State(), input, key);
      currentInput := next.input;
      currentCursorPosition := next.cursor;
      lineColumnGoal := next.lineColumnGoal;
    }

    /** What the component shows after the prompt: the rendered buffer, or
        the placeholder when the buffer is empty. */
    function InputLine(): (r: seq<Cell>)
      reads this
      ensures currentInput == [] ==> Text(r) == InputPlaceholder && Highlights(r) == 1
      ensures currentInput != [] ==> r == RenderedInput(currentInput, currentCursorPosition)
    {
      PlaceholderShows(InputPlaceholder);
      Display(InputPlaceholder, currentInput, currentCursorPosition)
    }
  }
}

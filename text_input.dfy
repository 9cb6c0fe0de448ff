/**
 * The controlled multi-line editor of src/ui/input/TextInput.tsx: its
 * `useInput` key handler as one transition over (buffer, cursor, column
 * goal), and the input line it displays.
 */
module TextInput {
  import opened Wrappers
  import opened MathHelpers
  import opened Strings
  import opened LineIndex
  import opened Ink
  import opened Editing

  const InputPlaceholder := "Take your cue…"

  /** The first `case` of the handler's `switch (true)` whose label holds. */
  function Dispatch(input: string, key: Key): Branch {
    if key.leftArrow then LeftArrow
    else if key.rightArrow then RightArrow
    else if key.upArrow then UpArrow
    else if key.downArrow then DownArrow
    else if key.ctrl && (input == "n" || input == "p") then CtrlNP
    else if key.backspace || key.delete then Erase
    else if key.returnKey then Return
    else if key.ctrl && input == "u" then ClearLine
    else if key.ctrl && input == "d" then Submit
    else if key.ctrl && input == "y" then Swallow
    else Insert
  }

  /** The key handler. `submitted` is the text passed to `onInputSubmit`,
      if it is called; `next` is what is reported through `onInputChange`
      (or stored) together with the new column goal. Ctrl+N / Ctrl+P fall
      through to the Backspace arm unless `disableConflictingKeys` is set. */
  method HandleInput(state: EditorState, input: string, key: Key, disableConflictingKeys: bool)
    returns (next: EditorState, submitted: Option<string>)
    ensures Valid(next)
    ensures Valid(state) ==> next == Step(state, Dispatch(input, key), input, disableConflictingKeys)
    ensures submitted.Some? <==> Dispatch(input, key) == Submit && JsTrim(state.input) != []
    ensures submitted.Some? ==> submitted.value == JsTrim(state.input)
  {
    var currentInput, currentCursorPosition := state.input, state.cursor;
    var lines := LinesWithBoundaries(currentInput);
    var newInput := currentInput;
    var newCursorPosition: int := currentCursorPosition;
    var newLineColumnGoal := state.lineColumnGoal;
    submitted := None;

    match Dispatch(input, key) {
    case LeftArrow =>
      newCursorPosition, newLineColumnGoal := MoveHorizontally(state, lines, -1);
    case RightArrow =>
      newCursorPosition, newLineColumnGoal := MoveHorizontally(state, lines, 1);
    case UpArrow =>
      if !disableConflictingKeys {
        newCursorPosition := MoveVertically(state, lines, -1);
      }
    case DownArrow =>
      if !disableConflictingKeys {
        newCursorPosition := MoveVertically(state, lines, 1);
      }
    case CtrlNP =>
      // without a `break`, control falls through into the Backspace arm
      if !disableConflictingKeys {
        newInput, newCursorPosition, newLineColumnGoal := EraseBackward(state);
      }
    case Erase =>
      newInput, newCursorPosition, newLineColumnGoal := EraseBackward(state);
    case Return =>
      if !disableConflictingKeys {
        newInput, newCursorPosition, newLineColumnGoal := BreakLine(state);
      }
    case ClearLine =>
      newInput, newCursorPosition, newLineColumnGoal := ClearLineBeforeCursor(state, lines);
    case Submit =>
      var trimmedInput := JsTrim(currentInput);
      if |trimmedInput| != 0 {
        submitted := Some(trimmedInput);
        newInput := "";
        newCursorPosition := 0;
        newLineColumnGoal := 0;
      }
    case Swallow =>
      // Ctrl+Y: only keeps the `y` out of the buffer
    case Insert =>
      newInput, newCursorPosition, newLineColumnGoal := InsertInput(state, input);
    }

    newCursorPosition := Clamp(newCursorPosition, |newInput|);
    next := EditorState(newInput, newCursorPosition, newLineColumnGoal);
  }

  /** The input line: the rendered buffer, or the placeholder when the
      buffer is empty. */
  function InputLine(state: EditorState): (r: seq<Cell>)
    ensures state.input == [] ==> Text(r) == InputPlaceholder && Highlights(r) == 1
    ensures state.input != [] ==> r == RenderedInput(state.input, state.cursor)
  {
    PlaceholderShows(InputPlaceholder);
    Display(InputPlaceholder, state.input, state.cursor)
  }
}

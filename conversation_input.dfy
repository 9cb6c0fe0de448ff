/**
 * The prompt box of src/components/ConversationInput.tsx: it owns the
 * editor's buffer and cursor, watches every change for an @-mention at the
 * cursor to drive the context picker, and splices a picked file into the
 * buffer.
 */
module ConversationInput {
  import opened Wrappers
  import opened Strings
  import opened Ink
  import opened Editing
  import TextInput
  import opened ContextPickerHook

  predicate NotJsWhitespace(c: char) {
    !IsJsWhitespace(c)
  }

  /** A match of `(^|[\s\n])@[^\s\n]*$` in `before` has its `@` at offset
      `q`: the `@` opens the text or follows whitespace, and no whitespace
      follows it. */
  predicate MentionAt(before: string, q: int) {
    0 <= q < |before| && before[q] == '@' && (q == 0 || IsJsWhitespace(before[q - 1]))
    && forall k | q < k < |before| :: !IsJsWhitespace(before[k])
  }

  /** At most one offset qualifies, so the leftmost match of the regular
      expression is the only one. */
  lemma {:induction false} MentionAtUnique(before: string, p: int, q: int)
    requires MentionAt(before, p) && MentionAt(before, q)
    ensures p == q
  {
  }

  /** `contextPickerCursorStartPosition` in `handleInputChange`: the offset
      of the `@` of the mention that ends at the cursor, or -1. The `@` must
      be the first character of the last whitespace-free stretch. */
  function MentionAnchor(before: string): (r: int)
    ensures r != -1 ==> MentionAt(before, r)
    ensures r == -1 <==> forall q | 0 <= q < |before| :: !MentionAt(before, q)
  {
    var t := Trailing(before, NotJsWhitespace);
    var q := |before| - t;
    if q < |before| && before[q] == '@' then
      assert MentionAt(before, q);
      q
    else
      assert forall p | 0 <= p < |before| :: !MentionAt(before, p) by {
        forall p | 0 <= p < |before| && MentionAt(before, p)
          ensures false
        {
        }
      }
      -1
  }

  /** `s.split(/[\s\n]/)[0]`: the text before the first whitespace. */
  function FirstWord(s: string): (r: string)
    ensures |r| <= |s| && r == s[..|r|]
    ensures forall k | 0 <= k < |r| :: !IsJsWhitespace(r[k])
    ensures |r| < |s| ==> IsJsWhitespace(s[|r|])
  {
    s[..Leading(s, NotJsWhitespace)]
  }

  /** What `handleInputChange` does to the picker. */
  datatype PickerAction =
    | OpenAt(anchor: nat, query: string)
    | Close
    | RefreshQuery
    | LeaveAlone

  /** `mentionIsLastInputCharacter`: an `@` just before the cursor, at the
      start of the text or after a blank or line break. */
  predicate MentionIsLast(newInput: string, c: nat)
    requires c <= |newInput|
  {
    0 < c && newInput[c - 1] == '@' && (c == 1 || newInput[c - 2] == ' ' || newInput[c - 2] == '\n')
  }

  /** `whitespaceIsLastInputCharacter`: a blank or line break just before
      the cursor. */
  predicate WhitespaceIsLast(newInput: string, c: nat)
    requires c <= |newInput|
  {
    0 < c && (newInput[c - 1] == ' ' || newInput[c - 1] == '\n')
  }

  /** The picker decision `handleInputChange` takes for the new buffer and
      cursor, given whether the picker was open. */
  function Decide(newInput: string, newCursorPosition: nat, isOpen: bool): PickerAction
    requires newCursorPosition <= |newInput|
  {
    var anchor := MentionAnchor(Slice(newInput, 0, newCursorPosition));
    if MentionIsLast(newInput, newCursorPosition) then OpenAt(newCursorPosition - 1, "")
    else if anchor != -1 && !isOpen then OpenAt(anchor, FirstWord(SliceFrom(newInput, anchor + 1)))
    else if isOpen then
      if WhitespaceIsLast(newInput, newCursorPosition) || anchor == -1 then Close else RefreshQuery
    else LeaveAlone
  }

  /** A just-typed `@` at the start or after a blank or line break opens the
      picker right there, with an empty query; the regular expression finds
      the same anchor. */
  lemma {:induction false} TypedMentionOpens(newInput: string, c: nat, isOpen: bool)
    requires 0 < c <= |newInput| && newInput[c - 1] == '@'
    requires c == 1 || newInput[c - 2] == ' ' || newInput[c - 2] == '\n'
    ensures Decide(newInput, c, isOpen) == OpenAt(c - 1, "")
    ensures MentionAnchor(newInput[..c]) == c - 1
  {
    assert MentionAt(newInput[..c], c - 1);
  }

  /** Otherwise a closed picker opens exactly when the text before the
      cursor ends in a mention; it is anchored at that mention's `@`, and
      its query is the mention's word in the whole buffer, which may run
      past the cursor. */
  lemma {:induction false} MentionOpensClosedPicker(newInput: string, c: nat)
    requires c <= |newInput|
    requires !(0 < c && newInput[c - 1] == '@' && (c == 1 || newInput[c - 2] == ' ' || newInput[c - 2] == '\n'))
    ensures Decide(newInput, c, false).OpenAt? <==> exists q :: MentionAt(newInput[..c], q)
    ensures forall q | MentionAt(newInput[..c], q) ::
      Decide(newInput, c, false) == OpenAt(q, FirstWord(newInput[q + 1..]))
    ensures Decide(newInput, c, false).OpenAt? || Decide(newInput, c, false) == LeaveAlone
  {
    var before := newInput[..c];
    var a := MentionAnchor(before);
    DecideClosed(newInput, c);
    if a != -1 {
      forall q | MentionAt(before, q)
        ensures q == a
      {
        MentionAtUnique(before, q, a);
      }
    }
  }

  /** The decision for a closed picker when no `@` was just typed, in terms
      of the anchor of the text before the cursor. */
  lemma {:induction false} DecideClosed(newInput: string, c: nat)
    requires c <= |newInput|
    requires !(0 < c && newInput[c - 1] == '@' && (c == 1 || newInput[c - 2] == ' ' || newInput[c - 2] == '\n'))
    ensures var a := MentionAnchor(newInput[..c]);
      Decide(newInput, c, false) == if a == -1 then LeaveAlone else OpenAt(a, FirstWord(newInput[a + 1..]))
  {
    assert Slice(newInput, 0, c) == newInput[..c];
    var a := MentionAnchor(newInput[..c]);
    if a != -1 {
      assert SliceFrom(newInput, a + 1) == newInput[a + 1..];
    }
  }

  /** An open picker closes when a blank or line break was typed last or no
      mention ends at the cursor; otherwise its query is refreshed. */
  lemma {:induction false} OpenPickerFollows(newInput: string, c: nat)
    requires c <= |newInput|
    requires !(0 < c && newInput[c - 1] == '@' && (c == 1 || newInput[c - 2] == ' ' || newInput[c - 2] == '\n'))
    ensures var closes :=
        (0 < c && (newInput[c - 1] == ' ' || newInput[c - 1] == '\n'))
        || forall q | 0 <= q < c :: !MentionAt(newInput[..c], q);
      Decide(newInput, c, true) == if closes then Close else RefreshQuery
  {
  }

  /** The picker's state after an action; a refresh re-reads the query at
      the picker's own anchor. */
  function Apply(action: PickerAction, state: PickerState, newInput: string): PickerState {
    match action
    case OpenAt(anchor, query) => PickerState(true, anchor, query)
    case Close => Closed
    case RefreshQuery => if state.isOpen then state.(query := MentionQuery(newInput, state.anchor)) else state
    case LeaveAlone => state
  }

  /** The component: the buffer and cursor it hands to the editor, and the
      picker hook it drives. */
  class ConversationInput {
    var currentInput: string
    var currentCursorPosition: nat
    const picker: ContextPicker

    constructor(directoryFiles: seq<string>)
      ensures fresh(picker) && picker.State() == Closed && picker.contextPickerFiles == directoryFiles
      ensures currentInput == "" && currentCursorPosition == 0
    {
      currentInput := "";
      currentCursorPosition := 0;
      picker := new ContextPicker(directoryFiles);
    }

    /** `handleInputChange`: the buffer and cursor are stored first, then the
        picker follows the decision for them. */
    method HandleInputChange(newInput: string, newCursorPosition: nat)
      requires newCursorPosition <= |newInput|
      modifies this, picker
      ensures currentInput == newInput && currentCursorPosition == newCursorPosition
      ensures picker.State()
              == Apply(Decide(newInput, newCursorPosition, old(picker.isContextPickerOpen)), old(picker.State()), newInput)
    {
      currentInput := newInput;
      currentCursorPosition := newCursorPosition;

      var c := newCursorPosition;
      var inputBeforeNewCursorPosition := Slice(newInput, 0, c);
      var contextPickerCursorStartPosition := MentionAnchor(inputBeforeNewCursorPosition);
      var mentionIsLastInputCharacter := MentionIsLast(newInput, c);
      var whitespaceIsLastInputCharacter := WhitespaceIsLast(newInput, c);

      if mentionIsLastInputCharacter {
        picker.ToggleOn(c - 1);
        return;
      }
      if contextPickerCursorStartPosition != -1 && !picker.isContextPickerOpen {
        var contextPickerQuery := FirstWord(SliceFrom(newInput, contextPickerCursorStartPosition + 1));
        picker.ToggleOn(contextPickerCursorStartPosition, contextPickerQuery);
        return;
      }
      if picker.isContextPickerOpen {
        if whitespaceIsLastInputCharacter || contextPickerCursorStartPosition == -1 {
          picker.ToggleOff();
          return;
        }
        picker.UpdateQuery(newInput);
      }
    }

    /** `handleSelectContextPickerFile`: the spliced buffer with a blank
        appended at its very end (not at the cursor), and the cursor one
        past the inserted file. */
    method HandleSelectContextPickerFile(contextPickerFile: string)
      modifies this, picker
      ensures currentInput
              == MentionSplice(old(currentInput), old(picker.contextPickerCursorStartPosition),
                               old(currentCursorPosition), contextPickerFile) + " "
      ensures currentCursorPosition == old(picker.contextPickerCursorStartPosition) + |contextPickerFile| + 2
      ensures picker.State() == Closed
    {
      var newInput, newCursorPosition := picker.SelectFile(contextPickerFile, currentInput, currentCursorPosition);
      currentInput := newInput + " ";
      currentCursorPosition := newCursorPosition + 1;
    }

    /** A key press in the editor this component renders: the editor runs
        with `disableConflictingKeys` set exactly while the picker is open,
        reports its result through `handleInputChange`, and passes any
        submitted text on. `lineColumnGoal` is the editor's own cell. */
    method HandleKey(lineColumnGoal: nat, input: string, key: Key)
      returns (newLineColumnGoal: nat, submitted: Option<string>)
      modifies this, picker
      ensures var before := old(EditorState(currentInput, currentCursorPosition, lineColumnGoal));
        Valid(before) ==>
          EditorState(currentInput, currentCursorPosition, newLineColumnGoal)
          == Step(before, TextInput.Dispatch(input, key), input, old(picker.isContextPickerOpen))
      ensures currentCursorPosition <= |currentInput|
      ensures submitted.Some? <==>
        TextInput.Dispatch(input, key) == Submit && JsTrim(old(currentInput)) != []
      ensures submitted.Some? ==> submitted.value == JsTrim(old(currentInput))
      ensures picker.State()
              == Apply(Decide(currentInput, currentCursorPosition, old(picker.isContextPickerOpen)),
                       old(picker.State()), currentInput)
    {
      var next;
      next, submitted := TextInput.HandleInput(
        EditorState(currentInput, currentCursorPosition, lineColumnGoal), input, key, picker.isContextPickerOpen);
      HandleInputChange(next.input, next.cursor);
      newLineColumnGoal := next.lineColumnGoal;
    }
  }
}

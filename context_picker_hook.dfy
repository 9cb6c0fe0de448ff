/**
 * The @-mention picker state of src/hooks/useContextPicker.ts: whether the
 * picker is open, the offset of the `@` it is anchored at, the query typed
 * after it, and the list of candidate files, read once when the hook is
 * created.
 */
module ContextPickerHook {
  import opened Strings

  /** The three state cells the toggles and the selection update. */
  datatype PickerState = PickerState(isOpen: bool, anchor: nat, query: string)

  const Closed := PickerState(false, 0, "")

  /** The end of the query that starts at offset `start` of `text`: the
      first `' '` or `'\n'` at or after `start`, or the end of the text. */
  method QueryEnd(text: string, start: nat) returns (end: nat)
    ensures start <= end && (end == start || end <= |text|)
    ensures forall k | start <= k < end :: text[k] != ' ' && text[k] != '\n'
    ensures end < |text| ==> text[end] == ' ' || text[end] == '\n'
  {
    end := start;
    while end < |text| && text[end] != ' ' && text[end] != '\n'
      invariant start <= end && (end == start || end <= |text|)
      invariant forall k | start <= k < end :: text[k] != ' ' && text[k] != '\n'
    {
      end := end + 1;
    }
  }

  /** The query of a mention anchored at `anchor`: the text after the `@`
      up to the first blank or line break, as a slice. It is the longest
      stretch after the `@` without either character. */
  function MentionQuery(text: string, anchor: nat): (r: string)
    ensures ' ' !in r && '\n' !in r
    ensures anchor + 1 + |r| <= |text| || r == []
    ensures anchor + 1 <= |text| ==> r == text[anchor + 1..anchor + 1 + |r|]
    ensures anchor + 1 + |r| < |text| ==> text[anchor + 1 + |r|] == ' ' || text[anchor + 1 + |r|] == '\n'
  {
    if anchor + 1 >= |text| then []
    else
      var r := text[anchor + 1..];
      var n := Leading(r, (c: char) => c != ' ' && c != '\n');
      assert forall k | 0 <= k < n :: r[k] == text[anchor + 1 + k];
      r[..n]
  }

  /** What a selection leaves in the buffer: the text before the anchor,
      `@`, the file, and the text from the cursor on. */
  function MentionSplice(currentInput: string, anchor: nat, cursor: int, file: string): (r: string)
    ensures anchor <= cursor <= |currentInput| ==>
      r == currentInput[..anchor] + "@" + file + currentInput[cursor..]
  {
    Slice(currentInput, 0, anchor) + "@" + file + SliceFrom(currentInput, cursor)
  }

  /** The spliced buffer keeps what came before the anchor and what came
      after the cursor, and the cursor placed after the file lies inside it. */
  lemma {:induction false} MentionSpliceKeepsContext(currentInput: string, anchor: nat, cursor: nat, file: string)
    requires anchor <= cursor <= |currentInput|
    ensures var r := MentionSplice(currentInput, anchor, cursor, file);
      r[..anchor] == currentInput[..anchor]
      && r[anchor..anchor + 1 + |file|] == "@" + file
      && r[anchor + 1 + |file|..] == currentInput[cursor..]
      && anchor + 1 + |file| <= |r|
  {
    var r := MentionSplice(currentInput, anchor, cursor, file);
    assert r == currentInput[..anchor] + ("@" + file) + currentInput[cursor..];
  }

  /** The hook's state cells and its fixed list of candidate files. */
  class ContextPicker {
    var isContextPickerOpen: bool
    var contextPickerCursorStartPosition: nat
    var contextPickerQuery: string
    const contextPickerFiles: seq<string>

    function State(): PickerState
      reads this
    {
      PickerState(isContextPickerOpen, contextPickerCursorStartPosition, contextPickerQuery)
    }

    /** A closed picker over the files of the working directory, which are
        listed once here and never again. */
    constructor(directoryFiles: seq<string>)
      ensures State() == Closed && contextPickerFiles == directoryFiles
    {
      isContextPickerOpen := false;
      contextPickerCursorStartPosition := 0;
      contextPickerQuery := "";
      contextPickerFiles := directoryFiles;
    }

    /** `toggleContextPickerOn`: open at `start` with the given query. */
    method ToggleOn(start: nat, query: string := "")
      modifies this
      ensures State() == PickerState(true, start, query)
    {
      isContextPickerOpen := true;
      contextPickerCursorStartPosition := start;
      contextPickerQuery := query;
    }

    /** `toggleContextPickerOff`: closed, anchor 0, empty query. */
    method ToggleOff()
      modifies this
      ensures State() == Closed
    {
      isContextPickerOpen := false;
      contextPickerCursorStartPosition := 0;
      contextPickerQuery := "";
    }

    /** `updateContextPickerQuery`: nothing while closed; otherwise the query
        becomes the mention at the anchor, read from the new text. */
    method UpdateQuery(newContextPickerQuery: string)
      modifies this
      ensures !old(isContextPickerOpen) ==> State() == old(State())
      ensures old(isContextPickerOpen) ==>
        State() == old(State()).(query := MentionQuery(newContextPickerQuery, contextPickerCursorStartPosition))
    {
      if !isContextPickerOpen {
        return;
      }
      var contextPickerQueryEnd := QueryEnd(newContextPickerQuery, contextPickerCursorStartPosition + 1);
      var query := Slice(newContextPickerQuery, contextPickerCursorStartPosition + 1, contextPickerQueryEnd);
      QueryIsMention(newContextPickerQuery, contextPickerCursorStartPosition, contextPickerQueryEnd);
      contextPickerQuery := query;
    }

    /** `selectContextPickerFile`: the spliced buffer and the cursor right
        after the inserted file; the picker closes. */
    method SelectFile(contextPickerFile: string, currentInput: string, currentCursorPosition: int)
      returns (newInput: string, newCursorPosition: nat)
      modifies this
      ensures newInput == MentionSplice(currentInput, old(contextPickerCursorStartPosition), currentCursorPosition, contextPickerFile)
      ensures newCursorPosition == old(contextPickerCursorStartPosition) + 1 + |contextPickerFile|
      ensures State() == Closed
    {
      newInput := Slice(currentInput, 0, contextPickerCursorStartPosition) + "@" + contextPickerFile
                  + SliceFrom(currentInput, currentCursorPosition);
      newCursorPosition := contextPickerCursorStartPosition + 1 + |contextPickerFile|;
      isContextPickerOpen := false;
      contextPickerCursorStartPosition := 0;
      contextPickerQuery := "";
    }
  }

  /** The slice up to the end `QueryEnd` finds is the mention's query. */
  lemma {:induction false} QueryIsMention(text: string, anchor: nat, end: nat)
    requires anchor + 1 <= end && (end == anchor + 1 || end <= |text|)
    requires forall k | anchor + 1 <= k < end :: text[k] != ' ' && text[k] != '\n'
    requires end < |text| ==> text[end] == ' ' || text[end] == '\n'
    ensures Slice(text, anchor + 1, end) == MentionQuery(text, anchor)
  {
  }
}

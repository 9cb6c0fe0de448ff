# cue — a Dafny model of its editors, prompt tooling and terminal programs

cue helps a user write prompts for a language model. The TypeScript
front end is an Ink (React for the terminal) application. It has
three generations of a text editor, an @-mention context picker that
attaches files to a prompt, a follow-up questions wizard, and the
conversation hook that reads the mentioned files, talks to the
backend and copies the generated prompt with Ctrl+Y. The Go side has
two Bubble Tea programs: `cue get` (cmd/get.go) and the chat screen
(internal/tui/chat.go). It also has a static table of model providers
(internal/providers/providers.go).

This project models those parts in Dafny and proves what they promise:

- **The editors.**
  - `LineIndex` and `Editing` hold the line index, the splices, the
    vertical moves and the cursor rendering. The two newer editors share
    this code.
  - `TextInput` is the controlled editor (src/ui/input/TextInput.tsx),
    `LegacyTextInput` the older uncontrolled one (src/ui/TextInput.tsx)
    and `FirstEditor` the `Main` component (src/index.tsx).
  - Each key handler is a method over its own local variables. It is
    proved equal to `Editing.Step`, and lemmas state what `Step` does in
    rows and columns.
- **The @-mention picker.**
  - `ContextPickerHook` models useContextPicker.ts: its state cells, the
    query scan and the file splice.
  - `ConversationInput` models ConversationInput.tsx: the mention
    regular expression and the open / close / refresh decision.
  - `ContextPickerList` models ContextPicker.tsx: the filtered list and
    the wrap-around index, including the NaN that JavaScript's `% 0`
    produces.
- **The questions wizard.** `Questions` models ConversationQuestions.tsx:
  answer commits, Tab / Shift+Tab / Ctrl+D navigation and the
  `<follow-up-answers>` block.
- **Conversation state.**
  - `Parsing` models parsing.ts, `Session` models SessionContext.tsx,
    `DirectoryWalk` models context.ts and `Conversation` models
    useConversation.ts.
  - The file system, the backend, the clipboard and the mention parser
    are parameters. Each is a function from a path to what the program
    finds there, or the way a call ends.
- **The Go programs.**
  - `GetCommand` models cmd/get.go and `ChatTui` models
    internal/tui/chat.go.
  - Go models are values, so each program is a spec function `Step` and
    a method `Update` proved equal to it. Lemmas about `Step` carry the
    properties.
  - `Providers` models the provider table and its lookups.
- **Shared helpers.** `Strings` holds JavaScript's `slice` /
  `substring` / `indexOf` / `trim`, Go's `strings.Index` /
  `strings.TrimSpace` and the tag search that both prompt extractors
  share. `Wrappers`, `MathHelpers` and `Ink` are small support modules.

A JavaScript or Go string is a `seq<char>`. Numbers are unbounded
integers: none of the modelled code reaches a bound.

## Model

| member | source | states |
|---|---|---|
| Strings.JsTrim | src/lib/parsing.ts:29-34 | `trim()`: empty exactly when every character is JavaScript whitespace; otherwise it neither starts nor ends with whitespace |
| Strings.GoTrimSpace | cmd/get.go:382 | `strings.TrimSpace`: the same, with Go's `unicode.IsSpace` set |
| Strings.TrimBy | src/lib/parsing.ts:29-34 | the trimmed text is the infix that starts at the first non-space character, and only spaces follow it |
| Strings.Leading | src/lib/parsing.ts:34 | counts exactly the leading characters in the set |
| Strings.Trailing | src/lib/parsing.ts:34 | counts exactly the trailing characters in the set |
| Strings.TrimByNoop | src/lib/parsing.ts:34 | trimming leaves text with no surrounding spaces unchanged |
| Strings.TrimByIdempotent | src/lib/parsing.ts:34 | trimming twice is trimming once |
| Strings.JsSliceIndex | src/hooks/useContextPicker.ts:62-65 | JavaScript's index normalisation: a negative index counts from the end, the result is clamped into the string, an in-range index is kept |
| Strings.Slice | src/hooks/useContextPicker.ts:62-65 | `slice(from, to)` is the ordinary slice for in-range bounds and empty when `to <= from` |
| Strings.SliceFrom | src/components/ConversationInput.tsx:67-68 | `slice(from)` is the suffix, and empty past the end |
| Strings.Substring | src/lib/parsing.ts:30-33 | `substring(a, b)` clamps both bounds and swaps reversed ones |
| Strings.IndexOfFrom | src/lib/parsing.ts:18-19 | the first occurrence at or after `from`, or -1 exactly when there is none |
| Strings.IndexOf | src/lib/parsing.ts:18-19 | `indexOf` / `strings.Index`: -1 exactly when the pattern is absent, else its first occurrence |
| Strings.NoStraddle | cmd/get.go:314-322 | a tag that opens with its only `<` cannot straddle another `<` |
| Strings.MarkersDoNotOverlap | cmd/get.go:320-322 | when the end tag is found after the start tag, it begins after the whole start tag, so the slice bounds are in order |
| Strings.WrappedMarkers | src/lib/parsing.ts:18-19 | in `a + open + x + close + b`, the first tags are found exactly where they were put |
| Strings.TaggedText | src/lib/parsing.ts:18-33 | nothing when a tag is missing or out of order; otherwise the text after the whole start tag up to the end tag |
| Strings.TaggedTextRoundTrip | src/lib/parsing.ts:18-33 | text wrapped in the tags comes back unchanged |
| Strings.Count | src/ui/input/TextInput.tsx:13 | the number of occurrences of a character: zero exactly when it is absent |
| Strings.CountAppend | src/ui/input/TextInput.tsx:13 | occurrences of a concatenation add up |
| MathHelpers.Min | src/ui/input/TextInput.tsx:155-158 | `Math.min` / Go's `min`: the smaller argument |
| MathHelpers.Max | src/ui/input/TextInput.tsx:299-302 | `Math.max`: the larger argument |
| LineIndex.Split | src/ui/input/TextInput.tsx:13 | `split("\n")`: one line per newline plus one, and no line holds a newline |
| LineIndex.SplitJoin | src/ui/input/TextInput.tsx:13 | joining the split lines with `\n` gives back the text |
| LineIndex.JoinSplit | src/ui/input/TextInput.tsx:13 | splitting newline-free lines after joining them gives back the lines |
| LineIndex.SplitNoNewline | src/ui/input/TextInput.tsx:13 | text without a newline is a single line |
| LineIndex.SplitPrefix | src/ui/input/TextInput.tsx:13 | a line followed by `\n` splits off as the first line |
| LineIndex.Bounds | src/ui/input/TextInput.tsx:15-25 | one span per line |
| LineIndex.BoundsAt | src/ui/input/TextInput.tsx:15-25 | span `i` starts after the earlier lines and one separator each, and is as long as its content |
| LineIndex.OffsetNext | src/ui/input/TextInput.tsx:22 | the next span starts one past the end of this one |
| LineIndex.SliceAfter | src/ui/input/TextInput.tsx:22 | slicing past a prefix slices the rest |
| LineIndex.JoinAt | src/ui/input/TextInput.tsx:15-25 | each line sits at its offset of the joined text and, unless it is the last, a newline follows it |
| LineIndex.LinesTile | src/ui/input/TextInput.tsx:12-26 | `getLinesWithBoundaries` has one span per newline plus one, and its spans tile the buffer: from 0 to the end, each holding its content, one newline between neighbours |
| LineIndex.BoundsTile | src/ui/input/TextInput.tsx:12-26 | the spans of any newline-free lines that join to a text tile that text |
| LineIndex.LinesOrdered | src/ui/input/TextInput.tsx:12-26 | the spans run left to right with a gap of one, each as long as its content |
| LineIndex.FindRow | src/ui/input/TextInput.tsx:32-35 | `findIndex`: the first span from `k` on that contains the offset, or -1 exactly when none does |
| LineIndex.GetLineCoordinatesAtPosition | src/ui/input/TextInput.tsx:28-45 | `null` exactly when no span contains the offset; otherwise the first such row, with the column measured from that span's start |
| LineIndex.LineStart | src/ui/input/TextInput.tsx:235-256 | where the offset's line starts: no newline between it and the offset, and a newline just before it |
| LineIndex.TilesOrdered | src/ui/input/TextInput.tsx:32-35 | earlier spans end before later spans start |
| LineIndex.TilesCover | src/ui/input/TextInput.tsx:32-35 | every offset of the buffer lies in some span |
| LineIndex.TilesRowCount | src/ui/input/TextInput.tsx:41-44 | row `i` starts after exactly `i` newlines |
| LineIndex.LineStartAfter | src/ui/input/TextInput.tsx:41-44 | an offset with no newline back to a line start belongs to that line |
| LineIndex.TilesLineStart | src/ui/input/TextInput.tsx:41-44 | inside row `i`'s span, the line starts at the span's start, after `i` newlines |
| LineIndex.TilesLocate | src/ui/input/TextInput.tsx:28-45 | on a tiling, the lookup is `null` exactly outside the buffer; inside, the row is the number of newlines before the offset and the column its distance from the line start |
| LineIndex.TilesLand | src/ui/input/TextInput.tsx:152-160 | an offset within a row's content lands on that row at that column |
| LineIndex.CoordinatesInBuffer | src/ui/input/TextInput.tsx:28-45 | the same for the buffer's own spans |
| LineIndex.LandsOnRow | src/ui/input/TextInput.tsx:152-160 | the same landing property on the buffer's own spans |
| Editing.InsertAt | src/ui/input/TextInput.tsx:283-286 | typed text goes in at the cursor: the text before it, the new text, then the text after it |
| Editing.EraseBefore | src/ui/input/TextInput.tsx:203-206 | one character fewer: the character just before the cursor is gone, everything else is kept in order |
| Editing.SliceSpliceInserts | src/ui/input/TextInput.tsx:224-227 | the handlers' `slice(0, c) + t + slice(c)` is that insertion |
| Editing.SliceSpliceErases | src/ui/input/TextInput.tsx:204-206 | the handlers' `slice(0, c - 1) + slice(c)` is that erasure |
| Editing.InsertEraseRoundTrip | src/ui/input/TextInput.tsx:202-217 | typing a text and then pressing Backspace once per character restores the buffer |
| Editing.Row | src/ui/input/TextInput.tsx:28-45 | the row of an offset never exceeds the number of newlines |
| Editing.CursorCoordinates | src/ui/input/TextInput.tsx:28-45 | the line lookup returns the row and column of an offset inside the buffer, and `null` outside |
| Editing.ColumnOrInBuffer | src/ui/input/TextInput.tsx:120-124 | `?.lineColumn ?? goal` is the column inside the buffer and keeps the goal outside it |
| Editing.VerticalLands | src/ui/input/TextInput.tsx:152-160 | Up / Down land inside the buffer, on the target row, at the goal column capped by the row's length |
| Editing.VerticalRoundTrip | src/ui/input/TextInput.tsx:141-194 | aiming at the cursor's own row with its own column gives back the cursor, so with the goal kept Up then Down returns to the start |
| Editing.ReturnOpensLine | src/ui/input/TextInput.tsx:219-233 | after Return the cursor is on the next row at column 0 |
| Editing.ClearToLineStart | src/ui/input/TextInput.tsx:235-256 | after Ctrl+U the cursor is on the same row at column 0 |
| Editing.Clamp | src/ui/input/TextInput.tsx:299-302 | the final clamp keeps an in-range cursor and moves an out-of-range one to the nearer end |
| Editing.VerticalMoveLands | src/ui/input/TextInput.tsx:141-194 | Up / Down move to the neighbouring row at the goal column capped by its length; with no such row the cursor stays |
| Editing.Settle | src/ui/input/TextInput.tsx:299-310 | the state after any arm has its cursor inside the buffer, and an in-range cursor is kept |
| Editing.ColumnOrGoal | src/ui/input/TextInput.tsx:120-124 | the column at an offset inside the buffer, else the goal |
| Editing.Step | src/ui/input/TextInput.tsx:111-311 | every key leaves the cursor inside the buffer |
| Editing.StepHorizontal | src/ui/input/TextInput.tsx:117-139 | Left / Right move by one character and take the column there as the goal; at the edge nothing changes |
| Editing.StepVertical | src/ui/input/TextInput.tsx:141-194 | Up / Down keep the buffer and the goal and move to the adjacent row, unless conflicting keys are disabled |
| Editing.StepErase | src/ui/input/TextInput.tsx:196-217 | Backspace / Delete remove the character before the cursor (nothing at offset 0); Ctrl+N / Ctrl+P fall through to that unless disabled |
| Editing.StepEdits | src/ui/input/TextInput.tsx:219-296 | Return breaks the line at the cursor unless disabled; Ctrl+U deletes back to the line start; typed text goes in at the cursor, with the cursor after it |
| Editing.StepSubmit | src/ui/input/TextInput.tsx:258-280 | Ctrl+D empties a buffer that does not trim to nothing, otherwise changes nothing; Ctrl+Y changes nothing |
| Editing.MoveHorizontally | src/ui/input/TextInput.tsx:117-139 | the Left / Right arm's locals settle to the horizontal step |
| Editing.MoveVertically | src/ui/input/TextInput.tsx:141-194 | the Up / Down arm's locals settle to the vertical step |
| Editing.EraseBackward | src/ui/input/TextInput.tsx:202-217 | the Backspace arm's locals settle to the erase step |
| Editing.BreakLine | src/ui/input/TextInput.tsx:219-233 | the Return arm's locals settle to the line break |
| Editing.ClearLineBeforeCursor | src/ui/input/TextInput.tsx:235-256 | the Ctrl+U arm's locals settle to the clear-line step |
| Editing.InsertInput | src/ui/input/TextInput.tsx:282-296 | the default arm's locals settle to the insertion |
| Editing.Text | src/ui/input/TextInput.tsx:85-104 | the shown text has one character per cell |
| Editing.TextAppend | src/ui/input/TextInput.tsx:103 | joining cells joins their text and adds their highlights |
| Editing.Plains | src/ui/input/TextInput.tsx:96 | one plain cell per character |
| Editing.PlainsShow | src/ui/input/TextInput.tsx:96 | plain cells show their characters with nothing highlighted |
| Editing.MarkCursorSplits | src/ui/input/TextInput.tsx:90-97 | every character is plain except the cursor's, which is highlighted |
| Editing.CursorCellsShow | src/ui/input/TextInput.tsx:91-95 | a cursor on `\n` shows as a highlighted blank before the line break; elsewhere the character itself is highlighted |
| Editing.MarkCursorShows | src/ui/input/TextInput.tsx:90-97 | the marked text is the buffer, plus a blank at a cursor on `\n`, with one highlight exactly when the cursor is on a character |
| Editing.RenderedInputShows | src/ui/input/TextInput.tsx:85-104 | nothing for an empty buffer; otherwise the buffer with a blank inserted where the cursor sits on `\n` or at the end, and exactly one highlighted cell whenever the cursor is within the buffer |
| Editing.Muteds | src/ui/input/TextInput.tsx:80 | one dimmed cell per character |
| Editing.MutedsShow | src/ui/input/TextInput.tsx:80 | dimmed cells show their characters with nothing highlighted |
| Editing.PlaceholderShows | src/ui/input/TextInput.tsx:76-83 | a non-empty placeholder shows its text with exactly one highlighted cell, its first |
| Editing.Display | src/ui/input/TextInput.tsx:318-322 | the placeholder for an empty buffer, the rendered buffer otherwise |
| TextInput.HandleInput | src/ui/input/TextInput.tsx:111-311 | the handler leaves the cursor in the buffer and does what `Step` says for the first matching arm; it submits exactly on Ctrl+D with non-blank text, and what it submits is the trimmed text |
| TextInput.InputLine | src/ui/input/TextInput.tsx:62 | an empty buffer shows "Take your cue…" with one highlight; otherwise the rendered buffer |
| LegacyTextInput.Dispatch | src/ui/TextInput.tsx:93-222 | the older editor has no Ctrl+N / Ctrl+P, Ctrl+U or submitting arm |
| LegacyTextInput.CtrlDKeepsState | src/ui/TextInput.tsx:202-205 | Ctrl+D, not yet implemented there, leaves buffer, cursor and goal unchanged |
| LegacyTextInput.CtrlNInserts | src/ui/TextInput.tsx:207-221 | Ctrl+N types an `n` into the buffer instead of erasing |
| LegacyTextInput.Transition | src/ui/TextInput.tsx:99-227 | the handler's switch and clamp follow `Step` with nothing disabled, and keep the cursor in the buffer |
| LegacyTextInput.Editor.State | src/ui/TextInput.tsx:51-56 | the three cells form a valid editor state exactly when the cursor is in the buffer |
| LegacyTextInput.Editor.constructor | src/ui/TextInput.tsx:51-56 | an empty buffer, cursor 0, goal 0 |
| LegacyTextInput.Editor.HandleInput | src/ui/TextInput.tsx:93-232 | one handler step of the three cells; exit is requested exactly on Ctrl+C or Escape, and the key is still handled |
| LegacyTextInput.Editor.InputLine | src/ui/TextInput.tsx:239-243 | an empty buffer shows "Describe your task..." with one highlight; otherwise the rendered buffer |
| FirstEditor.Dispatch | src/index.tsx:61-84 | only Left, Right, Backspace / Delete, Return and typed text have arms |
| FirstEditor.Keystroke | src/index.tsx:58-95 | every keystroke leaves the offset inside the text |
| FirstEditor.KeystrokeMoves | src/index.tsx:61-64 | Left / Right move by exactly one, stopping at 0 and at the end, and leave the text alone |
| FirstEditor.KeystrokeEdits | src/index.tsx:65-84 | Backspace removes the character before the cursor (nothing at 0); Return and typed text go in at the cursor; typed text is undone by as many Backspaces |
| FirstEditor.Transition | src/index.tsx:58-92 | the `if` chain over the locals and the two clamps compute `Keystroke` |
| FirstEditor.Marked | src/index.tsx:40-44 | one cell per character, only the one at the cursor highlighted, a `\n` included |
| FirstEditor.RenderInputText | src/index.tsx:34-51 | the render loop builds exactly the rendered text |
| FirstEditor.MarkedShows | src/index.tsx:40-44 | the marked cells show the text, with one highlight exactly when the offset is inside it |
| FirstEditor.RenderedInputTextShows | src/index.tsx:34-51 | the rendering is never empty; it shows the text plus a blank at the end cursor (a lone blank for empty text), with one highlight whenever the cursor is in range |
| FirstEditor.InputLine | src/index.tsx:103-107 | the placeholder branch is dead: the rendered text is always shown |
| FirstEditor.Main.constructor | src/index.tsx:20-23 | empty text, cursor 0 |
| FirstEditor.Main.HandleInput | src/index.tsx:53-96 | one keystroke of the two cells; exit is requested exactly on Ctrl+C or Escape, and the key is still handled |
| FirstEditor.Main.View | src/index.tsx:103-107 | a non-empty rendering of the current text and cursor |
| ContextPickerHook.QueryEnd | src/hooks/useContextPicker.ts:53-60 | the scan stops at the first blank or line break at or after the start, or at the end of the text |
| ContextPickerHook.MentionQuery | src/hooks/useContextPicker.ts:62-65 | the query is the longest stretch after the `@` with no blank or line break |
| ContextPickerHook.QueryIsMention | src/hooks/useContextPicker.ts:53-65 | the slice up to the end the scan finds is that query |
| ContextPickerHook.MentionSplice | src/hooks/useContextPicker.ts:75-79 | the text before the anchor, `@`, the file, then the text from the cursor on |
| ContextPickerHook.MentionSpliceKeepsContext | src/hooks/useContextPicker.ts:75-82 | the splice keeps the text before the anchor and after the cursor, and the new cursor lies inside the new text |
| ContextPickerHook.ContextPicker.constructor | src/hooks/useContextPicker.ts:24-33 | closed, holding the directory's file list it is given |
| ContextPickerHook.ContextPicker.ToggleOn | src/hooks/useContextPicker.ts:35-42 | open at the given anchor with the given query (empty by default) |
| ContextPickerHook.ContextPicker.ToggleOff | src/hooks/useContextPicker.ts:44-48 | closed, anchor 0, empty query |
| ContextPickerHook.ContextPicker.UpdateQuery | src/hooks/useContextPicker.ts:50-68 | nothing while closed; otherwise the query becomes the mention at the anchor in the new text |
| ContextPickerHook.ContextPicker.SelectFile | src/hooks/useContextPicker.ts:70-89 | returns the spliced text and the cursor just after the file, and closes the picker |
| ConversationInput.MentionAtUnique | src/components/ConversationInput.tsx:42-43 | at most one `@` can anchor the mention pattern (an `@` at the start or after whitespace, with no whitespace after it), so the match is unique |
| ConversationInput.MentionAnchor | src/components/ConversationInput.tsx:42-49 | the offset of the matched `@`, or -1 exactly when nothing matches |
| ConversationInput.FirstWord | src/components/ConversationInput.tsx:67-69 | `split(/[\s\n]/)[0]`: the prefix before the first whitespace |
| ConversationInput.TypedMentionOpens | src/components/ConversationInput.tsx:51-64 | an `@` just typed at the start or after a blank or line break opens the picker there with an empty query |
| ConversationInput.MentionOpensClosedPicker | src/components/ConversationInput.tsx:66-77 | otherwise a closed picker opens exactly when the text before the cursor ends in a mention, anchored at its `@`, with the mention's word (which may run past the cursor) as the query |
| ConversationInput.DecideClosed | src/components/ConversationInput.tsx:60-90 | for a closed picker: stay closed when nothing matches, otherwise open at the match |
| ConversationInput.OpenPickerFollows | src/components/ConversationInput.tsx:79-90 | an open picker closes when a blank or line break was typed last or no mention ends at the cursor; otherwise its query is refreshed |
| ConversationInput.ConversationInput.constructor | src/components/ConversationInput.tsx:16-29 | an empty buffer, cursor 0, a closed picker |
| ConversationInput.ConversationInput.HandleInputChange | src/components/ConversationInput.tsx:31-91 | stores the buffer and cursor, then puts the picker in the state the decision gives |
| ConversationInput.ConversationInput.HandleSelectContextPickerFile | src/components/ConversationInput.tsx:93-105 | the spliced buffer with a blank appended at its very end (not at the cursor), and the cursor two past the anchor plus the file; the picker is closed |
| ConversationInput.ConversationInput.HandleKey | src/components/ConversationInput.tsx:110-116 | the editor runs with conflicting keys disabled exactly while the picker is open, and the picker then follows the new buffer and cursor |
| ContextPickerList.JsRem | src/components/ContextPicker.tsx:47-60 | JavaScript's `%`: NaN exactly for a zero divisor; subtracts `n` once on `[0, 2n)`; keeps the sign of a small negative value |
| ContextPickerList.FilteredFiles | src/components/ContextPicker.tsx:32-41 | a blank query lists the first ten files in order; otherwise the first ten search hits in their order |
| ContextPickerList.StepUp | src/components/ContextPicker.tsx:45-54 | Up steps back one place and wraps from the top to the bottom; NaN on an empty list |
| ContextPickerList.StepDown | src/components/ContextPicker.tsx:56-63 | Down steps forward one place and wraps from the bottom to the top; NaN on an empty list |
| ContextPickerList.StepsUndo | src/components/ContextPicker.tsx:45-63 | Up and Down undo each other on a non-empty list |
| ContextPickerList.StepDownTimesCounts | src/components/ContextPicker.tsx:56-63 | `k` presses of Down count forward and wrap once past the end |
| ContextPickerList.StepDownGoesRound | src/components/ContextPicker.tsx:56-63 | one press of Down per entry comes back to the start |
| ContextPickerList.Pick | src/components/ContextPicker.tsx:71-82 | Return selects exactly when the index names a real, non-empty entry, and the selected file is from the list |
| ContextPickerList.Rows | src/components/ContextPicker.tsx:94-115 | one row per file, in order, highlighted exactly at the index |
| ContextPickerList.OneRowHighlighted | src/components/ContextPicker.tsx:100-109 | with the index inside the list exactly one row is highlighted |
| ContextPickerList.ContextPicker.constructor | src/components/ContextPicker.tsx:24-25 | the index starts at 0 |
| ContextPickerList.ContextPicker.SetQuery | src/components/ContextPicker.tsx:86-88 | a different query resets the index to 0; the same query keeps it |
| ContextPickerList.ContextPicker.HandleInput | src/components/ContextPicker.tsx:43-84 | Up / Down move the index round the list, Escape cancels, Return picks the highlighted file; the index always fits the list |
| ContextPickerList.ContextPicker.View | src/components/ContextPicker.tsx:90-115 | one row per filtered file, in order (none for an empty list), highlighted exactly at the index |
| Questions.Commit | src/components/ConversationQuestions.tsx:61-64 | a non-blank answer is stored, untrimmed, under the current question's identifier; otherwise the map is unchanged |
| Questions.CommitKeeps | src/components/ConversationQuestions.tsx:61-64 | a commit touches only the current question's entry and never stores a blank answer |
| Questions.Recall | src/components/ConversationQuestions.tsx:68 | the stored answer, or an empty one |
| Questions.AnswerFor | src/components/ConversationQuestions.tsx:32-33 | the stored answer if it is not empty, otherwise `[Not answered]`; never empty |
| Questions.Items | src/components/ConversationQuestions.tsx:31-39 | one `<item>` per question in order, each with the stored answer or `[Not answered]` |
| Questions.JoinItems | src/components/ConversationQuestions.tsx:42 | `join("\n")`: empty for no items, the items separated by line breaks otherwise |
| Questions.FormatAnswersFrame | src/components/ConversationQuestions.tsx:41-43 | the submission opens with `<follow-up-answers>` and closes with its end tag |
| Questions.FormatAnswersHoldsItem | src/components/ConversationQuestions.tsx:31-43 | question `i`'s item sits after the header and the `i` earlier items, with its answer |
| Questions.SliceInMiddle | src/components/ConversationQuestions.tsx:42 | a slice of the middle part of the block is a slice of the items |
| Questions.ReactKeepsFit | src/components/ConversationQuestions.tsx:51-110 | every key keeps the index on a question and blank answers out of the map |
| Questions.EdgesAreStill | src/components/ConversationQuestions.tsx:53-91 | Tab on the last question and Shift+Tab on the first change nothing; Escape quits and changes nothing |
| Questions.ForwardMoves | src/components/ConversationQuestions.tsx:76-91 | Tab commits, moves one question on and shows that question's stored answer or an empty one |
| Questions.ForwardThenBack | src/components/ConversationQuestions.tsx:59-91 | Tab then Shift+Tab returns to the same question; a non-blank answer comes back committed, a blank one is replaced by the stored answer |
| Questions.RecommitIsIdle | src/components/ConversationQuestions.tsx:61-69 | committing an answer just recalled changes nothing |
| Questions.CommitThenRecall | src/components/ConversationQuestions.tsx:61-69 | after a commit the recalled answer is the committed one, or the stored one for a blank answer |
| Questions.FinishOnLastSubmits | src/components/ConversationQuestions.tsx:93-99 | Ctrl+D on the last question commits and submits every answer |
| Questions.FinishAdvancesLikeForward | src/components/ConversationQuestions.tsx:93-107 | Ctrl+D before the last question acts like Tab when the two identifiers differ, although it recalls from the map before the commit |
| Questions.Transition | src/components/ConversationQuestions.tsx:51-110 | the handler's switch computes the wizard's reaction to the key |
| Questions.Wizard.constructor | src/components/ConversationQuestions.tsx:18-20 | no answers, an empty answer, the first question |
| Questions.Wizard.HandleInputChange | src/components/ConversationQuestions.tsx:47-49 | only the current answer changes |
| Questions.Wizard.HandleSubmit | src/components/ConversationQuestions.tsx:25-45 | the block for the answers with the current one committed |
| Questions.Wizard.HandleInput | src/components/ConversationQuestions.tsx:51-110 | one reaction of the three cells, and the outcome it asks for |
| Parsing.TagsAreMarkers | src/lib/constants.ts:4-5 | both generated-prompt tags open with their only `<` and differ after it |
| Parsing.LastAssistantIndex | src/lib/parsing.ts:9-11 | the last assistant message, or -1 when there is none; no assistant message follows it |
| Parsing.LastAssistantIndexAppend | src/lib/parsing.ts:9-11 | non-assistant messages appended later do not move it; an appended assistant message becomes it |
| Parsing.PromptBetweenTags | src/lib/parsing.ts:17-36 | a found prompt is non-empty and has no surrounding whitespace |
| Parsing.PromptBetweenTagsMeaning | src/lib/parsing.ts:17-36 | nothing when a tag is missing or out of order; otherwise the trimmed text between the whole start tag and the end tag, if anything is left |
| Parsing.ExtractGeneratedPrompt | src/lib/parsing.ts:8-37 | `null` without an assistant message, otherwise the prompt of the last one |
| Parsing.PromptRoundTrip | src/lib/parsing.ts:17-36 | a prompt wrapped in the tags comes back trimmed |
| Parsing.LaterUserMessagesIgnored | src/lib/parsing.ts:8-37 | user messages sent after the last reply do not change the extracted prompt |
| Session.Transcript | src/contexts/SessionContext.tsx:12 | the history read as role and text, message by message |
| Session.AddAll | src/contexts/SessionContext.tsx:14-16 | adding messages one at a time appends them in order |
| Session.HistoryOnlyGrows | src/contexts/SessionContext.tsx:14-16 | the earlier history stays a prefix and the added messages follow it in order |
| Session.TranscriptAppend | src/contexts/SessionContext.tsx:14-16 | appending commutes with reading the transcript |
| Session.SessionStore.constructor | src/contexts/SessionContext.tsx:12 | the history starts empty |
| Session.SessionStore.AddMessage | src/contexts/SessionContext.tsx:14-16 | the message goes at the end and everything before stays |
| DirectoryWalk.EntryFilesExact | src/lib/context.ts:13-27 | under an entry, a path is listed exactly when it leads through readable directories to a regular file |
| DirectoryWalk.EntriesFilesExact | src/lib/context.ts:13-27 | the same for a run of entries |
| DirectoryWalk.UnreadableIsEmpty | src/lib/context.ts:28-30 | an unreadable directory contributes nothing and raises nothing |
| DirectoryWalk.GetDirectoryFilesRecursive | src/lib/context.ts:4-33 | the loop and its recursion list the files of the walk, depth first in listing order |
| DirectoryWalk.GetDirectoryFiles | src/lib/context.ts:35-37 | the walk from the directory itself, so every path is relative to it |
| DirectoryWalk.ListsExactlyTheFiles | src/lib/context.ts:35-37 | a path is listed exactly when it leads to a regular file below the directory |
| DirectoryWalk.RelativePath | src/lib/context.ts:15-18 | a one-segment path is just its name; a longer one starts with its first segment |
| DirectoryWalk.RelativePathAfterHead | src/lib/context.ts:15-18 | the first segment is followed by `/` and the spelling of the rest exactly when more segments follow |
| DirectoryWalk.RelativePathInjective | src/lib/context.ts:15-18 | paths made of non-empty, `/`-free names are spelled differently when they differ, so the walk's files keep distinct relative paths |
| Conversation.CollapseSlashes | src/hooks/useConversation.ts:54-57 | the normalisation step of `path.join` that merges runs of `/`: no `//` is left, no other character is lost, and the first character is kept |
| Conversation.CollapseSlashesKeeps | src/hooks/useConversation.ts:54-57 | text without a run of `/` is left unchanged |
| Conversation.CollapseAtDoubled | src/hooks/useConversation.ts:54-57 | a doubled `/` after any prefix normalises like a single one |
| Conversation.JoinPath | src/hooks/useConversation.ts:54-57 | `path.join`: the result is never empty and never holds `//` |
| Conversation.JoinPathKeepsNames | src/hooks/useConversation.ts:54-57 | joining keeps every character of both parts other than `/`, in order |
| Conversation.JoinPathAppends | src/hooks/useConversation.ts:54-57 | for parts spelled without runs of `/` (the relative part not absolute), the join is the directory, one `/`, then the relative path: a `/` is added unless the directory already ends in one |
| Conversation.EntriesFor | src/hooks/useConversation.ts:50-74 | a path that cannot be examined gives one unreadable entry; a non-directory gives one entry with its content |
| Conversation.DirectoryEntries | src/hooks/useConversation.ts:51-62 | a directory gives one entry per file listed below it, in order, each joined onto the directory and read |
| Conversation.ReadDirectory | src/hooks/useConversation.ts:52-62 | the inner loop builds exactly those entries |
| Conversation.ContextEntriesAppend | src/hooks/useConversation.ts:49-75 | the entries of later mentions follow those of earlier ones |
| Conversation.DirectoryEntriesAreFiles | src/hooks/useConversation.ts:51-62 | every directory entry names a regular file reached below it; an unreadable directory gives none |
| Conversation.ReadContextFiles | src/hooks/useConversation.ts:46-75 | the outer loop builds the entries of each mentioned path in turn |
| Conversation.HandleCopyKey | src/hooks/useConversation.ts:110-128 | on Ctrl+Y it copies the extracted prompt and shows success exactly when there is one, otherwise it shows the error; other keys do nothing |
| Conversation.AbortController.constructor | src/hooks/useConversation.ts:92 | a fresh controller is not aborted |
| Conversation.AbortController.Abort | src/hooks/useConversation.ts:34 | the controller is aborted |
| Conversation.ConversationHook.constructor | src/hooks/useConversation.ts:27-30 | not loading, no controller |
| Conversation.ConversationHook.CancelAssistantMessage | src/hooks/useConversation.ts:32-43 | a request in flight is aborted and forgotten; otherwise nothing happens |
| Conversation.ConversationHook.SubmitStart | src/hooks/useConversation.ts:45-97 | the user message with its context files is appended, loading starts with a fresh controller, and the backend gets the earlier history plus the user message |
| Conversation.ConversationHook.SubmitSettle | src/hooks/useConversation.ts:94-107 | a reply is appended as one assistant message, a rejection appends nothing; loading stops and the controller is dropped either way |
| Conversation.AfterSubmission | src/hooks/useConversation.ts:82-98 | the history gains the user message, then the reply if there was one |
| Conversation.CopyReadsLatestReply | src/hooks/useConversation.ts:110-115 | after a successful submission Ctrl+Y reads the reply just appended |
| GetCommand.PromptFunc | cmd/get.go:211-216 | the marker is two characters wide, with `>` on the first line only |
| GetCommand.ContentTextOfBlocks | cmd/get.go:252-257 | a message's text is its text blocks in order; other blocks add nothing |
| GetCommand.BuildContent | cmd/get.go:304-310 | the builder loop yields exactly the message's text |
| GetCommand.LastAssistant | cmd/get.go:292-302 | the last assistant message, or -1; no assistant message follows it |
| GetCommand.FindLastAssistant | cmd/get.go:292-302 | the backward scan finds exactly that message |
| GetCommand.CueTagsAreMarkers | cmd/get.go:314-318 | both cue tags open with their only `<` and differ after it |
| GetCommand.PromptToCopy | cmd/get.go:312-326 | with both tags in order, the trimmed text between them; otherwise the whole reply; the slice is always in range |
| GetCommand.CopyRoundTrip | cmd/get.go:312-326 | a prompt wrapped in the tags is copied trimmed, even when nothing is left |
| GetCommand.CopyFallsBackToWholeReply | cmd/get.go:324-326 | a reply missing either tag is copied whole |
| GetCommand.LastGeneratedPrompt | cmd/get.go:290-330 | nothing to copy exactly when there is no assistant message |
| GetCommand.GetLastGeneratedPrompt | cmd/get.go:290-330 | the command body copies that text |
| GetCommand.LineCount | cmd/get.go:280-282 | the height of a text (`lipgloss.Height`, `TotalLineCount`): one line per newline plus one |
| GetCommand.GapHeight | cmd/get.go:280-282 | the gap between messages takes three lines |
| GetCommand.InitialModel | cmd/get.go:218-242 | no messages, not waiting, a one-line input area |
| GetCommand.UpdateViewportContent | cmd/get.go:248-268 | the view holds the messages' texts joined by blank lines, wrapped when the view has a width |
| GetCommand.UpdateViewportHeight | cmd/get.go:270-288 | skipped with no messages or no terminal height; otherwise the view is as tall as its content but no taller than the room left |
| GetCommand.Update | cmd/get.go:349-431 | the method computes `Step` for every message |
| GetCommand.BlankSubmitIsIgnored | cmd/get.go:381-385 | Ctrl+D with only white space sends nothing |
| GetCommand.SubmitAppendsUserMessage | cmd/get.go:381-403 | Ctrl+D with text appends one user message holding the trimmed text, clears the input, starts waiting and requests a reply to the whole conversation |
| GetCommand.ReplyEndsWait | cmd/get.go:413-427 | a reply ends the wait and appends itself; a failure appends an assistant message reading `Error: ` and the error |
| GetCommand.CopyNeedsMessages | cmd/get.go:405-410 | Ctrl+Y copies the last generated prompt only once there are messages, and changes nothing but the input's text |
| GetCommand.QuitKeysStop | cmd/get.go:378-379 | Ctrl+C and Escape quit, changing nothing but the input's text |
| GetCommand.ResizeFitsView | cmd/get.go:364-374 | a resize records the sizes; with messages the view fits its content within the room left |
| ChatTui.RenderedMessagesAppend | internal/tui/chat.go:158-160 | rendering a conversation renders its parts in order |
| ChatTui.PartialReplyShown | internal/tui/chat.go:162-164 | the partial reply is shown exactly while a non-empty reply streams, as the finished assistant message without its closing blank line |
| ChatTui.RenderMessages | internal/tui/chat.go:155-167 | the builder loop yields each message as `role: content` and a blank line, then the partial reply |
| ChatTui.NewModel | internal/tui/chat.go:33-53 | no messages, not streaming, no reply, no error |
| ChatTui.Recorded | internal/tui/chat.go:76-78 | a failed save replaces the recorded error; a successful one keeps it |
| ChatTui.Update | internal/tui/chat.go:59-130 | the method computes `Step` for every message |
| ChatTui.EnterSends | internal/tui/chat.go:68-85 | Enter with text and nothing streaming sends one user message, clears the input and the reply, and streams a reply to the whole conversation |
| ChatTui.EnterIgnored | internal/tui/chat.go:68-69 | Enter while streaming or with an empty input sends nothing |
| ChatTui.ChunkExtendsReply | internal/tui/chat.go:88-92 | a chunk extends the reply in progress and nothing else, and the view shows it |
| ChatTui.DoneKeepsReply | internal/tui/chat.go:94-107 | the end of the stream appends the reply as one assistant message and clears it; what was on screen stays, closed by a blank line |
| ChatTui.ErrorStops | internal/tui/chat.go:109-112 | an error stops streaming and is recorded; no message is appended |
| ChatTui.InputFrozenWhileStreaming | internal/tui/chat.go:121-124 | while a reply streams the input area receives nothing |
| Providers.Ids | internal/providers/providers.go:3-14 | the IDs of providers or of a provider's models, in table order |
| Providers.FirstWithId | internal/providers/providers.go:60-66 | the first position holding the ID, or -1 exactly when none does |
| Providers.FirstWithIdFinds | internal/providers/providers.go:60-66 | with distinct IDs the search finds the one position holding the ID |
| Providers.FirstWithIdIsFirst | internal/providers/providers.go:60-66 | a position holding the ID with none before it is what the search finds |
| Providers.GetProvidersCount | internal/providers/providers.go:51-53 | three providers |
| Providers.ProviderById | internal/providers/providers.go:59-67 | nothing exactly when no provider has the ID; otherwise a table entry with that ID |
| Providers.GetProvider | internal/providers/providers.go:59-67 | the loop returns the first provider with the ID, or nothing |
| Providers.GetProviderModelsCount | internal/providers/providers.go:69-76 | 0 for an unknown provider, otherwise its number of models |
| Providers.ModelById | internal/providers/providers.go:78-91 | nothing for an unknown provider; otherwise nothing exactly when no model has the ID, else one of its models with that ID |
| Providers.GetProviderModel | internal/providers/providers.go:78-91 | the lookup and the loop over the models return the first model with the ID, or nothing |
| Providers.TableIdsDistinct | internal/providers/providers.go:16-49 | provider IDs are distinct, and so are each provider's model IDs |
| Providers.LookupsFindEveryEntry | internal/providers/providers.go:16-91 | every table entry is what its IDs look up |

## Left out

- Text is a sequence of code points. JavaScript indexes UTF-16 code units and Go `strings.Index` counts bytes, so offsets differ for characters outside the Basic Multilingual Plane (TypeScript) or outside ASCII (Go).
- React's scheduling is not modelled. State setters take effect at once, in the order the handler calls them. Stale closures across renders and batched updates do not arise.
- The Fuse fuzzy search (`DEFAULT_FUZZY_THRESHOLD`) is the `search` parameter of the picker list. Its ranking is not modelled.
- Colours, chalk and lipgloss styles, the separators, the help texts and the keyboard-shortcut panel are left out. The model keeps only which cells are plain, highlighted or dimmed.
- The Ink `useApp().exit()` call, the picker's `onCancel` / `onSelect` callbacks and the wizard's `onQuestionsSubmit` / `onQuestionsQuit` callbacks are outcomes the handlers return.
- The wizard's per-question status characters and question list view (src/components/ConversationQuestions.tsx:112-154) are left out as presentation.
- The file system is a parameter: `statSync`, `readdirSync` and reading a file are functions from a path to what is found there. `path.relative` and `path.join` are modelled for POSIX `/` separators. `path.join` merges runs of `/` as Node does, but its other normalisation is left out: `.` and `..` segments and a leading `./` are kept as typed.
- `getContextFilesPaths` and `readContextFileContent`, which src/hooks/useConversation.ts imports from src/lib/context.ts, are not modelled: the mentioned paths and the file reader are parameters. `Session.Message` carries the fields the hook writes, including its context files.
- The backend call, the abort signal and the clipboard write are outcomes or parameters. `Conversation.Reply` is how the call ends. Notification timers are not modelled.
- `useSession` throwing outside a provider (src/contexts/SessionContext.tsx:25-33) is left out: the hook is always given its session.
- `ContextPickerHook.ContextPicker.constructor` takes the file list as a parameter instead of reading `getDirectoryFiles(process.cwd())`.
- `ConversationInput.ConversationInput.HandleInputChange` requires a cursor within the buffer. The editor always reports one, since it clamps the cursor before calling back.
- `ConversationInput.ConversationInput.HandleKey` connects the editor to the picker for one key. The picker list's own `useInput`, which sees the same key while it is shown, is modelled separately in `ContextPickerList`.
- In cmd/get.go the viewport, textarea and spinner widgets are reduced to what the program reads from them: sizes, content, and the input's text after the widget has seen the message (`typed`). Line wrapping is the `wrap` parameter. `GotoBottom`, scrolling, the spinner ticks and the batched widget commands are left out.
- `GetCommand.Update` accepts Ctrl+D while a reply is awaited and sends a second request, as the source does. This is stated in `GetCommand.SubmitAppendsUserMessage`.
- The system prompt text, the model name and the token limit of cmd/get.go are constants of the backend call, which is a parameter.
- `getAssistantMsg` (cmd/get.go:332-347) and `streamResponse` (internal/tui/chat.go:169-188) become the reply / stream messages that `Update` receives. Their channel and network plumbing is left out. As written, `streamResponse` delivers only the first message of a stream per call, and `Update` asks for no further one after a chunk (internal/tui/chat.go:92). So the program stays streaming after the first chunk. `ChatTui.Step` models every arm, and `ChatTui.ChunkExtendsReply` states the missing follow-up as `NoCommand`.
- In internal/tui/chat.go, `SaveMessage` is the `saveError` parameter. The `View` functions of both Go programs are left out as presentation.
- `GetProviders` is the table itself, so it has no contract of its own. `GetProvidersCount` states its length.

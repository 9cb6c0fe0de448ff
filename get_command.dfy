/**
 * The `cue get` terminal program of cmd/get.go: a conversation with the
 * model in a Bubble Tea program. Ctrl+D sends the trimmed text of the input
 * area, a reply (or an error) is appended when it arrives, Ctrl+Y copies the
 * generated prompt of the last reply (or the whole reply when it has no
 * tags), and the conversation view is sized to the terminal.
 *
 * The Go model is a value: `Update` receives a copy, changes it and returns
 * it. The input area and the view are library widgets; the model keeps what
 * the program reads from them (the input's text after the widget has seen
 * the message, the view's width, height and content) and the line-wrapping
 * renderer is a parameter.
 */
module GetCommand {
  import opened Wrappers
  import opened Strings
  import opened MathHelpers
  import LineIndex

  datatype Role = UserRole | AssistantRole

  /** A content block of a message; only text blocks carry text. */
  datatype Block = TextBlock(text: string) | OtherBlock

  datatype MessageParam = MessageParam(role: Role, content: seq<Block>)

  const LayoutGap := "\n\n"
  const LayoutPromptWidth := 2
  const LayoutDividerHeight := 5
  const PromptStartTag := "<cue-generated-prompt>"
  const PromptEndTag := "</cue-generated-prompt>"
  const ErrorPrefix := "Error: "

  /** `promptFunc`: the marker in front of each line of the input area, as
      wide as the width reserved for it; only the first line shows `>`. */
  function PromptFunc(lineIdx: int): (r: string)
    ensures |r| == LayoutPromptWidth
    ensures r[0] == '>' <==> lineIdx == 0
    ensures r[1] == ' '
  {
    if lineIdx == 0 then "> " else "  "
  }

  /** The text of a message: its text blocks in order, other blocks
      skipped. */
  function ContentText(blocks: seq<Block>): string {
    if blocks == [] then ""
    else
      var last := blocks[|blocks| - 1];
      ContentText(blocks[..|blocks| - 1]) + (if last.TextBlock? then last.text else "")
  }

  /** A message made of one text block reads back as that text; blocks of
      other kinds add nothing wherever they stand. */
  lemma {:induction false} ContentTextOfBlocks(t: string, blocks: seq<Block>)
    ensures ContentText([TextBlock(t)]) == t
    ensures ContentText(blocks + [OtherBlock]) == ContentText(blocks)
    ensures ContentText(blocks + [TextBlock(t)]) == ContentText(blocks) + t
  {
    assert [TextBlock(t)][..0] == [];
    assert (blocks + [OtherBlock])[..|blocks|] == blocks;
    assert (blocks + [TextBlock(t)])[..|blocks|] == blocks;
  }

  /** The `strings.Builder` loop over a message's blocks. */
  method BuildContent(blocks: seq<Block>) returns (content: string)
    ensures content == ContentText(blocks)
  {
    content := "";
    var k := 0;
    while k < |blocks|
      invariant 0 <= k <= |blocks|
      invariant content == ContentText(blocks[..k])
    {
      assert blocks[..k + 1][..k] == blocks[..k];
      if blocks[k].TextBlock? {
        content := content + blocks[k].text;
      }
      k := k + 1;
    }
    assert blocks[..k] == blocks;
  }

  /** The index of the last assistant message, or -1. */
  function LastAssistant(messages: seq<MessageParam>): (r: int)
    ensures -1 <= r < |messages|
    ensures r != -1 ==> messages[r].role == AssistantRole
    ensures forall j | r < j < |messages| :: messages[j].role != AssistantRole
  {
    if messages == [] then -1
    else if messages[|messages| - 1].role == AssistantRole then |messages| - 1
    else LastAssistant(messages[..|messages| - 1])
  }

  /** The backward scan of `getLastGeneratedPrompt`. */
  method FindLastAssistant(messages: seq<MessageParam>) returns (index: int)
    ensures index == LastAssistant(messages)
  {
    var i := |messages| - 1;
    while i >= 0
      invariant -1 <= i < |messages|
      invariant LastAssistant(messages) == LastAssistant(messages[..i + 1])
    {
      if messages[i].role == AssistantRole {
        return i;
      }
      assert messages[..i + 1][..i] == messages[..i];
      i := i - 1;
    }
    return -1;
  }

  /** The two tags open with `<` and no other `<`, and differ after it. */
  lemma {:induction false} CueTagsAreMarkers()
    ensures OpensOnce(PromptStartTag) && OpensOnce(PromptEndTag)
    ensures PromptStartTag[0] == PromptEndTag[0] && PromptStartTag[1] != PromptEndTag[1]
  {
  }

  /** The text to copy from a reply: with both tags present and the first
      end tag after the first start tag, the text between them with
      surrounding white space removed; otherwise the whole reply. The slice
      is always in range: the end tag cannot begin inside the start tag. */
  function PromptToCopy(contentString: string): (r: string)
    ensures var s, e := IndexOf(contentString, PromptStartTag), IndexOf(contentString, PromptEndTag);
      (s != -1 && e != -1 && e > s ==>
         s + |PromptStartTag| <= e && r == GoTrimSpace(contentString[s + |PromptStartTag|..e]))
      && (!(s != -1 && e != -1 && e > s) ==> r == contentString)
  {
    CueTagsAreMarkers();
    match TaggedText(contentString, PromptStartTag, PromptEndTag)
    case Some(textToCopy) => GoTrimSpace(textToCopy)
    case None => contentString
  }

  /** A prompt wrapped in the tags is copied with its surrounding white
      space removed, even when nothing is left. */
  lemma {:induction false} CopyRoundTrip(a: string, x: string, b: string)
    requires Absent(a, PromptStartTag) && Absent(a, PromptEndTag) && Absent(x, PromptEndTag)
    ensures PromptToCopy(a + PromptStartTag + x + PromptEndTag + b) == GoTrimSpace(x)
  {
    CueTagsAreMarkers();
    TaggedTextRoundTrip(a, PromptStartTag, x, PromptEndTag, b);
  }

  /** A reply without a start tag, or without an end tag, is copied whole. */
  lemma {:induction false} CopyFallsBackToWholeReply(contentString: string)
    requires Absent(contentString, PromptStartTag) || Absent(contentString, PromptEndTag)
    ensures PromptToCopy(contentString) == contentString
  {
  }

  /** What Ctrl+Y copies: nothing when no assistant message exists,
      otherwise the prompt (or the whole text) of the last one. */
  function LastGeneratedPrompt(messages: seq<MessageParam>): (r: Option<string>)
    ensures r.None? <==> forall j | 0 <= j < |messages| :: messages[j].role != AssistantRole
  {
    var i := LastAssistant(messages);
    if i == -1 then None else Some(PromptToCopy(ContentText(messages[i].content)))
  }

  /** `getLastGeneratedPrompt`'s command body, without the clipboard write. */
  method GetLastGeneratedPrompt(messages: seq<MessageParam>) returns (textToCopy: Option<string>)
    ensures textToCopy == LastGeneratedPrompt(messages)
  {
    var lastAssistantMsg := FindLastAssistant(messages);
    if lastAssistantMsg == -1 {
      return None;
    }
    var contentString := BuildContent(messages[lastAssistantMsg].content);
    textToCopy := Some(PromptToCopy(contentString));
  }

  /** `strings.Join(parts, "\n\n")`. */
  function JoinParagraphs(parts: seq<string>): string {
    if parts == [] then "" else if |parts| == 1 then parts[0] else parts[0] + LayoutGap + JoinParagraphs(parts[1..])
  }

  /** The conversation as the view shows it before wrapping. */
  function FormattedContent(messages: seq<MessageParam>): string {
    JoinParagraphs(seq(|messages|, i requires 0 <= i < |messages| => ContentText(messages[i].content)))
  }

  /** The number of lines of a text, as the view and the layout count them. */
  function LineCount(s: string): (r: nat)
    ensures r == Count(s, '\n') + 1
  {
    |LineIndex.Split(s)|
  }

  /** The gap between the view and the input area takes three lines. */
  lemma {:induction false} GapHeight()
    ensures LineCount(LayoutGap) == 3
  {
    assert LayoutGap == ['\n'] + ['\n'];
    CountAppend(['\n'], ['\n'], '\n');
  }

  /** The program's model. */
  datatype Model = Model(
    messages: seq<MessageParam>,
    termWidth: int,
    termHeight: int,
    waitingForResponse: bool,
    viewportWidth: int,
    viewportHeight: int,
    viewportContent: string,
    textareaWidth: int,
    textareaHeight: int,
    textareaValue: string)

  /** The model `initialModel` builds: a one-line input area and a view of
      no size. */
  function InitialModel(): (m: Model)
    ensures m.messages == [] && !m.waitingForResponse && m.textareaHeight == 1
  {
    Model([], 0, 0, false, 0, 0, "", 0, 1, "")
  }

  /** `updateViewportContent`: the conversation, wrapped to the view's width
      when it has one. */
  method UpdateViewportContent(m: Model, wrap: (int, string) -> string) returns (r: Model)
    ensures r == m.(viewportContent := if m.viewportWidth > 0 then wrap(m.viewportWidth, FormattedContent(m.messages))
                                       else FormattedContent(m.messages))
  {
    var formatted: seq<string> := [];
    var i := 0;
    while i < |m.messages|
      invariant 0 <= i <= |m.messages|
      invariant formatted == seq(i, j requires 0 <= j < i => ContentText(m.messages[j].content))
    {
      var content := BuildContent(m.messages[i].content);
      formatted := formatted + [content];
      i := i + 1;
    }
    var formattedContent := JoinParagraphs(formatted);
    if m.viewportWidth > 0 {
      r := m.(viewportContent := wrap(m.viewportWidth, formattedContent));
    } else {
      r := m.(viewportContent := formattedContent);
    }
  }

  /** `updateViewportHeight`: skipped with no messages or an unknown
      terminal height; otherwise the view is as tall as its content, but no
      taller than what the input area, the gap and the dividers leave. */
  function UpdateViewportHeight(m: Model): (r: Model)
    ensures |m.messages| == 0 || m.termHeight == 0 ==> r == m
    ensures |m.messages| != 0 && m.termHeight != 0 ==>
      var room := m.termHeight - m.textareaHeight - 3 - LayoutDividerHeight;
      r == m.(viewportHeight := r.viewportHeight)
      && r.viewportHeight <= room && r.viewportHeight <= LineCount(m.viewportContent)
      && (r.viewportHeight == room || r.viewportHeight == LineCount(m.viewportContent))
  {
    if |m.messages| == 0 || m.termHeight == 0 then m
    else
      GapHeight();
      var viewportContentHeight := LineCount(m.viewportContent);
      var viewportMaxHeight := m.termHeight - m.textareaHeight - LineCount(LayoutGap) - LayoutDividerHeight;
      m.(viewportHeight := Min(viewportMaxHeight, viewportContentHeight))
  }

  /** The messages the program receives. */
  datatype Msg =
    | WindowSize(width: int, height: int)
    | CtrlC
    | Esc
    | CtrlD
    | CtrlY
    | OtherKey
    | AssistantReply(param: MessageParam)
    | AssistantError(err: string)
    | OtherMsg

  /** What `Update` hands back to the runtime, besides redraws and spinner
      ticks: stop, ask the model for a reply to these messages, or copy this
      text (nothing when there is no reply yet). */
  datatype Command = Continue | Quit | RequestReply(history: seq<MessageParam>) | CopyPrompt(text: Option<string>)

  /** The message `Update` appends for a failed request. */
  function ErrorMessage(err: string): MessageParam {
    MessageParam(AssistantRole, [TextBlock(ErrorPrefix + err)])
  }

  /** The view brought up to date, then resized. */
  function Refreshed(m: Model, wrap: (int, string) -> string): Model {
    UpdateViewportHeight(m.(viewportContent := if m.viewportWidth > 0 then wrap(m.viewportWidth, FormattedContent(m.messages))
                                               else FormattedContent(m.messages)))
  }

  /** `Update` as a function of the model, the message, the input area's
      text once the widget has seen the message, and the renderer. */
  function Step(m: Model, msg: Msg, typed: string, wrap: (int, string) -> string): (Model, Command) {
    var m := m.(textareaValue := typed);
    match msg
    case WindowSize(width, height) =>
      var m := m.(viewportWidth := width, textareaWidth := width - LayoutPromptWidth,
                  termWidth := width, termHeight := height);
      (if |m.messages| > 0 then Refreshed(m, wrap) else m, Continue)
    case CtrlC => (m, Quit)
    case Esc => (m, Quit)
    case CtrlD =>
      var textareaValue := GoTrimSpace(typed);
      if textareaValue == [] then (m, Continue)
      else
        var m := Refreshed(m.(messages := m.messages + [MessageParam(UserRole, [TextBlock(textareaValue)])],
                              textareaValue := ""), wrap);
        var m := m.(waitingForResponse := true);
        (m, RequestReply(m.messages))
    case CtrlY => (m, if |m.messages| > 0 then CopyPrompt(LastGeneratedPrompt(m.messages)) else Continue)
    case AssistantReply(param) =>
      (Refreshed(m.(waitingForResponse := false, messages := m.messages + [param]), wrap), Continue)
    case AssistantError(err) =>
      (Refreshed(m.(waitingForResponse := false, messages := m.messages + [ErrorMessage(err)]), wrap), Continue)
    case OtherKey => (m, Continue)
    case OtherMsg => (m, Continue)
  }

  /** `Update`: the switch over the message, on the model's own copy. */
  method Update(m: Model, msg: Msg, typed: string, wrap: (int, string) -> string) returns (next: Model, cmd: Command)
    ensures (next, cmd) == Step(m, msg, typed, wrap)
  {
    next := m.(textareaValue := typed);
    cmd := Continue;
    match msg {
    case WindowSize(width, height) =>
      next := next.(viewportWidth := width, textareaWidth := width - LayoutPromptWidth);
      next := next.(termWidth := width, termHeight := height);
      if |next.messages| > 0 {
        next := UpdateViewportContent(next, wrap);
        next := UpdateViewportHeight(next);
      }
    case CtrlC =>
      cmd := Quit;
    case Esc =>
      cmd := Quit;
    case CtrlD =>
      var textareaValue := GoTrimSpace(typed);
      if textareaValue == [] {
        return;
      }
      next := next.(messages := next.messages + [MessageParam(UserRole, [TextBlock(textareaValue)])]);
      next := next.(textareaValue := "");
      next := UpdateViewportContent(next, wrap);
      next := UpdateViewportHeight(next);
      next := next.(waitingForResponse := true);
      cmd := RequestReply(next.messages);
    case CtrlY =>
      if |next.messages| > 0 {
        var textToCopy := GetLastGeneratedPrompt(next.messages);
        cmd := CopyPrompt(textToCopy);
      }
    case AssistantReply(param) =>
      next := next.(waitingForResponse := false);
      next := next.(messages := next.messages + [param]);
      next := UpdateViewportContent(next, wrap);
      next := UpdateViewportHeight(next);
    case AssistantError(err) =>
      next := next.(waitingForResponse := false);
      next := next.(messages := next.messages + [ErrorMessage(err)]);
      next := UpdateViewportContent(next, wrap);
      next := UpdateViewportHeight(next);
    case OtherKey =>
    case OtherMsg =>
    }
  }

  /** Ctrl+D with nothing but white space in the input area sends nothing:
      the conversation and the waiting flag stay as they were. */
  lemma {:induction false} BlankSubmitIsIgnored(m: Model, typed: string, wrap: (int, string) -> string)
    requires forall k | 0 <= k < |typed| :: IsGoSpace(typed[k])
    ensures var (next, cmd) := Step(m, CtrlD, typed, wrap);
      next.messages == m.messages && next.waitingForResponse == m.waitingForResponse && cmd == Continue
  {
  }

  /** Ctrl+D with text appends one user message holding the trimmed text,
      clears the input area, starts waiting (even when a reply is already
      awaited) and asks for a reply to the whole conversation. */
  lemma {:induction false} SubmitAppendsUserMessage(m: Model, typed: string, wrap: (int, string) -> string)
    requires exists k | 0 <= k < |typed| :: !IsGoSpace(typed[k])
    ensures var (next, cmd) := Step(m, CtrlD, typed, wrap);
      next.messages == m.messages + [MessageParam(UserRole, [TextBlock(GoTrimSpace(typed))])]
      && ContentText(next.messages[|m.messages|].content) == GoTrimSpace(typed)
      && next.waitingForResponse && next.textareaValue == ""
      && cmd == RequestReply(next.messages)
  {
    ContentTextOfBlocks(GoTrimSpace(typed), []);
  }

  /** A reply ends the wait and appends exactly one message: the reply
      itself, or for a failed request an assistant message reading
      `Error: ` and the error. */
  lemma {:induction false} ReplyEndsWait(m: Model, param: MessageParam, err: string, typed: string, wrap: (int, string) -> string)
    ensures var (next, cmd) := Step(m, AssistantReply(param), typed, wrap);
      !next.waitingForResponse && next.messages == m.messages + [param] && cmd == Continue
    ensures var (next, cmd) := Step(m, AssistantError(err), typed, wrap);
      !next.waitingForResponse && next.messages == m.messages + [ErrorMessage(err)] && cmd == Continue
      && next.messages[|m.messages|].role == AssistantRole
      && ContentText(next.messages[|m.messages|].content) == ErrorPrefix + err
  {
    ContentTextOfBlocks(ErrorPrefix + err, []);
  }

  /** Ctrl+Y copies only once there are messages, and changes nothing; with
      messages but no reply yet, the copy command finds nothing. */
  lemma {:induction false} CopyNeedsMessages(m: Model, typed: string, wrap: (int, string) -> string)
    ensures var (next, cmd) := Step(m, CtrlY, typed, wrap);
      next == m.(textareaValue := typed)
      && (cmd.CopyPrompt? <==> |m.messages| > 0)
      && (cmd.CopyPrompt? ==> cmd.text == LastGeneratedPrompt(m.messages))
  {
  }

  /** Quitting keys stop the program and leave the model alone. */
  lemma {:induction false} QuitKeysStop(m: Model, typed: string, wrap: (int, string) -> string)
    ensures Step(m, CtrlC, typed, wrap) == (m.(textareaValue := typed), Quit)
    ensures Step(m, Esc, typed, wrap) == (m.(textareaValue := typed), Quit)
  {
  }

  /** After a resize with messages on screen the view is as tall as its
      content allows within the room the terminal leaves; before any message
      only the sizes are recorded. */
  lemma {:induction false} ResizeFitsView(m: Model, width: int, height: int, typed: string, wrap: (int, string) -> string)
    ensures var (next, _) := Step(m, WindowSize(width, height), typed, wrap);
      next.termWidth == width && next.termHeight == height && next.viewportWidth == width
      && next.textareaWidth == width - LayoutPromptWidth && next.messages == m.messages
      && (|m.messages| == 0 ==> next.viewportHeight == m.viewportHeight)
      && (|m.messages| > 0 && height != 0 ==>
            next.viewportHeight == Min(height - m.textareaHeight - 3 - LayoutDividerHeight, LineCount(next.viewportContent)))
  {
  }
}

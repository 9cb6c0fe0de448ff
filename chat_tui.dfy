/**
 * The chat screen of internal/tui/chat.go: Enter sends the input area's
 * text and starts streaming a reply, chunks accumulate into the reply in
 * progress, the end of the stream turns it into an assistant message, and
 * an error stops streaming. The conversation is shown as `role: content`
 * paragraphs, followed by the partial reply while it streams. As written,
 * the program requests no stream message after the first chunk, so it
 * never reaches the later arms and stays streaming.
 *
 * As in Go, the model is a value that `Update` changes and returns. The
 * store's `SaveMessage` result, the input area's text after the widget has
 * seen a message and the provider's stream are parameters or left out.
 */
module ChatTui {
  import opened Wrappers

  /** `providers.Message`: a role name and the text. */
  datatype ChatMessage = ChatMessage(role: string, content: string)

  const UserRole := "user"
  const AssistantRole := "assistant"
  const RoleSeparator := ": "
  const MessageSeparator := "\n\n"

  /** One message as `renderMessages` writes it. */
  function RenderedMessage(msg: ChatMessage): string {
    msg.role + RoleSeparator + msg.content + MessageSeparator
  }

  /** The messages one after another, each as `role: content` and a blank
      line. */
  function RenderedMessages(messages: seq<ChatMessage>): string {
    if messages == [] then ""
    else RenderedMessages(messages[..|messages| - 1]) + RenderedMessage(messages[|messages| - 1])
  }

  /** The partial reply as shown while it streams. */
  function PartialReply(streaming: bool, currentReply: string): string {
    if streaming && currentReply != "" then AssistantRole + RoleSeparator + currentReply else ""
  }

  /** `renderMessages` as a function of the fields it reads. */
  function Rendered(messages: seq<ChatMessage>, streaming: bool, currentReply: string): string {
    RenderedMessages(messages) + PartialReply(streaming, currentReply)
  }

  /** Rendering a conversation renders its parts in order. */
  lemma {:induction false} RenderedMessagesAppend(a: seq<ChatMessage>, b: seq<ChatMessage>)
    ensures RenderedMessages(a + b) == RenderedMessages(a) + RenderedMessages(b)
    decreases |b|
  {
    if b == [] {
      assert a + b == a;
    } else {
      var ab, front, last := a + b, b[..|b| - 1], b[|b| - 1];
      assert ab[..|ab| - 1] == a + front && ab[|ab| - 1] == last;
      assert RenderedMessages(ab) == RenderedMessages(a + front) + RenderedMessage(last);
      RenderedMessagesAppend(a, front);
      assert RenderedMessages(b) == RenderedMessages(front) + RenderedMessage(last);
    }
  }

  /** The partial reply is shown exactly while streaming a non-empty reply,
      and it is then the reply rendered as an assistant message without the
      closing blank line. */
  lemma {:induction false} PartialReplyShown(messages: seq<ChatMessage>, streaming: bool, currentReply: string)
    ensures |Rendered(messages, streaming, currentReply)| > |RenderedMessages(messages)|
            <==> streaming && currentReply != ""
    ensures streaming && currentReply != "" ==>
      Rendered(messages, streaming, currentReply) + MessageSeparator
      == RenderedMessages(messages + [ChatMessage(AssistantRole, currentReply)])
  {
    if streaming && currentReply != "" {
      var last := ChatMessage(AssistantRole, currentReply);
      assert (messages + [last])[..|messages|] == messages;
    }
  }

  /** The `strings.Builder` loop of `renderMessages`. */
  method RenderMessages(messages: seq<ChatMessage>, streaming: bool, currentReply: string) returns (s: string)
    ensures s == Rendered(messages, streaming, currentReply)
  {
    s := "";
    var k := 0;
    while k < |messages|
      invariant 0 <= k <= |messages|
      invariant s == RenderedMessages(messages[..k])
    {
      assert messages[..k + 1][..k] == messages[..k];
      s := s + RenderedMessage(messages[k]);
      k := k + 1;
    }
    assert messages[..k] == messages;
    if streaming && currentReply != "" {
      s := s + AssistantRole + RoleSeparator + currentReply;
    }
  }

  /** The screen's model; `err` is the last error, kept until replaced. */
  datatype Model = Model(
    messages: seq<ChatMessage>,
    streaming: bool,
    currentReply: string,
    err: Option<string>,
    viewportWidth: int,
    viewportHeight: int,
    viewportContent: string,
    textareaWidth: int,
    textareaHeight: int,
    textareaValue: string)

  /** `NewModel`: no messages, not streaming, an 80-column view 20 lines
      high and a three-line input area. */
  function NewModel(): (m: Model)
    ensures m.messages == [] && !m.streaming && m.currentReply == "" && m.err == None
  {
    Model([], false, "", None, 80, 20, "", 80, 3, "")
  }

  datatype Msg =
    | CtrlC
    | Enter
    | OtherKey
    | StreamChunk(chunk: string)
    | StreamDone
    | StreamError(error: string)
    | WindowSize(width: int, height: int)
    | OtherMsg

  /** What `Update` returns besides the model: stop, stream a reply to
      these messages, the widgets' own commands, or nothing. */
  datatype Command = Quit | StreamResponse(history: seq<ChatMessage>) | WidgetCommands | NoCommand

  /** A failed save replaces the recorded error; a successful one keeps it. */
  function Recorded(err: Option<string>, saveError: Option<string>): (r: Option<string>)
    ensures saveError.Some? ==> r == saveError
    ensures saveError.None? ==> r == err
  {
    if saveError.Some? then saveError else err
  }

  /** The end of `Update` for messages the switch lets through: the input
      area sees the message only when no reply is streaming. */
  function PassOn(m: Model, typed: string): (Model, Command) {
    (if !m.streaming then m.(textareaValue := typed) else m, WidgetCommands)
  }

  /** `Update` as a function of the model, the message, the input area's
      text once the widget has seen the message, and the outcome of saving
      a message to the store. */
  function Step(m: Model, msg: Msg, typed: string, saveError: Option<string>): (Model, Command) {
    match msg
    case CtrlC => (m, Quit)
    case Enter =>
      if !m.streaming && m.textareaValue != "" then
        var m := m.(messages := m.messages + [ChatMessage(UserRole, m.textareaValue)], err := Recorded(m.err, saveError),
                    textareaValue := "", streaming := true, currentReply := "");
        (m, StreamResponse(m.messages))
      else PassOn(m, typed)
    case OtherKey => PassOn(m, typed)
    case StreamChunk(chunk) =>
      var m := m.(currentReply := m.currentReply + chunk);
      (m.(viewportContent := Rendered(m.messages, m.streaming, m.currentReply)), NoCommand)
    case StreamDone =>
      var m := m.(streaming := false, messages := m.messages + [ChatMessage(AssistantRole, m.currentReply)],
                  err := Recorded(m.err, saveError), currentReply := "");
      (m.(viewportContent := Rendered(m.messages, m.streaming, m.currentReply)), NoCommand)
    case StreamError(error) => (m.(streaming := false, err := Some(error)), NoCommand)
    case WindowSize(width, height) =>
      var m := m.(viewportWidth := width, viewportHeight := height - m.textareaHeight - 3, textareaWidth := width,
                  viewportContent := Rendered(m.messages, m.streaming, m.currentReply));
      PassOn(m, typed)
    case OtherMsg => PassOn(m, typed)
  }

  /** `Update`: the switch on the model's own copy, then the input area. */
  method Update(m: Model, msg: Msg, typed: string, saveError: Option<string>) returns (next: Model, cmd: Command)
    ensures (next, cmd) == Step(m, msg, typed, saveError)
  {
    next := m;
    match msg {
    case CtrlC =>
      return next, Quit;
    case Enter =>
      if !next.streaming && next.textareaValue != "" {
        var userMsg := next.textareaValue;
        next := next.(messages := next.messages + [ChatMessage(UserRole, userMsg)]);
        if saveError.Some? {
          next := next.(err := saveError);
        }
        next := next.(textareaValue := "");
        next := next.(streaming := true, currentReply := "");
        return next, StreamResponse(next.messages);
      }
    case StreamChunk(chunk) =>
      next := next.(currentReply := next.currentReply + chunk);
      var content := RenderMessages(next.messages, next.streaming, next.currentReply);
      next := next.(viewportContent := content);
      return next, NoCommand;
    case StreamDone =>
      next := next.(streaming := false);
      next := next.(messages := next.messages + [ChatMessage(AssistantRole, next.currentReply)]);
      if saveError.Some? {
        next := next.(err := saveError);
      }
      next := next.(currentReply := "");
      var content := RenderMessages(next.messages, next.streaming, next.currentReply);
      next := next.(viewportContent := content);
      return next, NoCommand;
    case StreamError(error) =>
      next := next.(streaming := false, err := Some(error));
      return next, NoCommand;
    case WindowSize(width, height) =>
      next := next.(viewportWidth := width, viewportHeight := height - next.textareaHeight - 3);
      next := next.(textareaWidth := width);
      var content := RenderMessages(next.messages, next.streaming, next.currentReply);
      next := next.(viewportContent := content);
    case OtherKey =>
    case OtherMsg =>
    }
    if !next.streaming {
      next := next.(textareaValue := typed);
    }
    cmd := WidgetCommands;
  }

  /** Enter with text and no reply streaming sends one user message with
      that text, clears the input area and the reply, and starts streaming a
      reply to the whole conversation. */
  lemma {:induction false} EnterSends(m: Model, typed: string, saveError: Option<string>)
    requires !m.streaming && m.textareaValue != ""
    ensures var (next, cmd) := Step(m, Enter, typed, saveError);
      next.messages == m.messages + [ChatMessage(UserRole, m.textareaValue)]
      && next.streaming && next.currentReply == "" && next.textareaValue == ""
      && cmd == StreamResponse(next.messages)
  {
  }

  /** Enter while a reply streams, or with an empty input area, sends
      nothing; the input area gets the key only when nothing streams. */
  lemma {:induction false} EnterIgnored(m: Model, typed: string, saveError: Option<string>)
    requires m.streaming || m.textareaValue == ""
    ensures var (next, cmd) := Step(m, Enter, typed, saveError);
      next.messages == m.messages && next.streaming == m.streaming && next.currentReply == m.currentReply
      && next.textareaValue == (if m.streaming then m.textareaValue else typed)
      && cmd == WidgetCommands
  {
  }

  /** A chunk extends the reply in progress and nothing else, and the view
      shows it. */
  lemma {:induction false} ChunkExtendsReply(m: Model, chunk: string, typed: string, saveError: Option<string>)
    ensures var (next, cmd) := Step(m, StreamChunk(chunk), typed, saveError);
      next.currentReply == m.currentReply + chunk
      && next.messages == m.messages && next.streaming == m.streaming && next.textareaValue == m.textareaValue
      && next.viewportContent == Rendered(m.messages, m.streaming, m.currentReply + chunk)
      && cmd == NoCommand
  {
  }

  /** The end of the stream appends the accumulated reply as one assistant
      message and clears it. What was on screen while streaming stays on
      screen, closed by a blank line. */
  lemma {:induction false} DoneKeepsReply(m: Model, typed: string, saveError: Option<string>)
    ensures var (next, cmd) := Step(m, StreamDone, typed, saveError);
      !next.streaming && next.currentReply == ""
      && next.messages == m.messages + [ChatMessage(AssistantRole, m.currentReply)]
      && next.viewportContent == RenderedMessages(next.messages)
      && (m.streaming && m.currentReply != "" ==>
            next.viewportContent == Rendered(m.messages, m.streaming, m.currentReply) + MessageSeparator)
      && cmd == NoCommand
  {
    PartialReplyShown(m.messages, m.streaming, m.currentReply);
  }

  /** An error stops streaming and is recorded; no message is appended and
      the reply in progress is left as it was. */
  lemma {:induction false} ErrorStops(m: Model, error: string, typed: string, saveError: Option<string>)
    ensures var (next, cmd) := Step(m, StreamError(error), typed, saveError);
      !next.streaming && next.err == Some(error) && next.messages == m.messages
      && next.currentReply == m.currentReply && cmd == NoCommand
  {
  }

  /** While a reply streams the input area receives nothing, whatever the
      message. */
  lemma {:induction false} InputFrozenWhileStreaming(m: Model, msg: Msg, typed: string, saveError: Option<string>)
    requires m.streaming
    ensures Step(m, msg, typed, saveError).0.textareaValue == m.textareaValue
  {
  }
}

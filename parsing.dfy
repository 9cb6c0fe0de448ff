/**
 * `extractGeneratedPrompt` of src/lib/parsing.ts: the text between the
 * generated-prompt tags of the last assistant message, trimmed, or nothing.
 */
module Parsing {
  import opened Wrappers
  import opened Strings

  datatype MessageRole = User | Assistant

  /** A conversation message: who wrote it and its text. */
  datatype Message = Message(role: MessageRole, content: string)

  /** The tags of src/lib/constants.ts around a generated prompt. */
  const GeneratedPromptStartTag := "<generated-prompt>"
  const GeneratedPromptEndTag := "</generated-prompt>"

  /** The tags open with `<` and no other `<`, and differ in their second
      character. */
  lemma {:induction false} TagsAreMarkers()
    ensures OpensOnce(GeneratedPromptStartTag) && OpensOnce(GeneratedPromptEndTag)
    ensures GeneratedPromptStartTag[0] == GeneratedPromptEndTag[0]
    ensures GeneratedPromptStartTag[1] != GeneratedPromptEndTag[1]
  {
  }

  /** `[...messages].reverse().find(...)`: the index of the last assistant
      message, or -1 when there is none. */
  function LastAssistantIndex(messages: seq<Message>): (r: int)
    ensures -1 <= r < |messages|
    ensures r != -1 ==> messages[r].role == Assistant
    ensures forall j | r < j < |messages| :: messages[j].role != Assistant
  {
    if |messages| == 0 then -1
    else if messages[|messages| - 1].role == Assistant then |messages| - 1
    else LastAssistantIndex(messages[..|messages| - 1])
  }

  /** Messages after the last assistant message do not move it; a new
      assistant message becomes it. */
  lemma {:induction false} LastAssistantIndexAppend(messages: seq<Message>, later: seq<Message>)
    ensures (forall j | 0 <= j < |later| :: later[j].role != Assistant) ==>
      LastAssistantIndex(messages + later) == LastAssistantIndex(messages)
    ensures |later| > 0 && later[|later| - 1].role == Assistant ==>
      LastAssistantIndex(messages + later) == |messages| + |later| - 1
    decreases |later|
  {
    if |later| > 0 && later[|later| - 1].role != Assistant {
      assert (messages + later)[..|messages + later| - 1] == messages + later[..|later| - 1];
      LastAssistantIndexAppend(messages, later[..|later| - 1]);
    } else if |later| == 0 {
      assert messages + later == messages;
    }
  }

  /** The prompt in one message's text: the text between the first start
      tag and the first end tag, trimmed, when both tags are there in that
      order and something is left; otherwise nothing. (`substring` would
      swap reversed bounds, but the bounds are never reversed: the end tag
      cannot begin inside the start tag.) */
  function PromptBetweenTags(content: string): (r: Option<string>)
    ensures r.Some? ==> r.value != [] && !IsJsWhitespace(r.value[0]) && !IsJsWhitespace(r.value[|r.value| - 1])
  {
    TagsAreMarkers();
    match TaggedText(content, GeneratedPromptStartTag, GeneratedPromptEndTag)
    case None => None
    case Some(between) =>
      var prompt := JsTrim(between);
      if |prompt| > 0 then Some(prompt) else None
  }

  /** Nothing when a tag is missing or the first end tag does not follow
      the first start tag; otherwise the text after the whole start tag up to
      the end tag, trimmed, if anything is left. */
  lemma {:induction false} PromptBetweenTagsMeaning(content: string)
    ensures var s, e := IndexOf(content, GeneratedPromptStartTag), IndexOf(content, GeneratedPromptEndTag);
      (s == -1 || e == -1 || e <= s ==> PromptBetweenTags(content) == None)
      && (s != -1 && e > s ==>
            s + |GeneratedPromptStartTag| <= e
            && PromptBetweenTags(content)
               == var t := JsTrim(content[s + |GeneratedPromptStartTag|..e]); if t != [] then Some(t) else None)
  {
    TagsAreMarkers();
    var between := TaggedText(content, GeneratedPromptStartTag, GeneratedPromptEndTag);
    if between.Some? {
      var prompt := JsTrim(between.value);
      assert PromptBetweenTags(content) == if |prompt| > 0 then Some(prompt) else None;
    }
  }

  /** `extractGeneratedPrompt`: nothing without an assistant message,
      otherwise the prompt in the last one, whatever follows it. */
  function ExtractGeneratedPrompt(messages: seq<Message>): (r: Option<string>)
    ensures LastAssistantIndex(messages) == -1 ==> r == None
    ensures LastAssistantIndex(messages) != -1 ==> r == PromptBetweenTags(messages[LastAssistantIndex(messages)].content)
  {
    var i := LastAssistantIndex(messages);
    if i == -1 then None else PromptBetweenTags(messages[i].content)
  }

  /** A prompt wrapped in the tags comes back trimmed, when neither tag is
      in the text before it and the end tag is not in the prompt. */
  lemma {:induction false} PromptRoundTrip(a: string, x: string, b: string)
    requires Absent(a, GeneratedPromptStartTag) && Absent(a, GeneratedPromptEndTag)
    requires Absent(x, GeneratedPromptEndTag) && JsTrim(x) != []
    ensures PromptBetweenTags(a + GeneratedPromptStartTag + x + GeneratedPromptEndTag + b) == Some(JsTrim(x))
  {
    TagsAreMarkers();
    TaggedTextRoundTrip(a, GeneratedPromptStartTag, x, GeneratedPromptEndTag, b);
  }

  /** User messages sent after the last assistant message change nothing. */
  lemma {:induction false} LaterUserMessagesIgnored(messages: seq<Message>, later: seq<Message>)
    requires forall j | 0 <= j < |later| :: later[j].role == User
    ensures ExtractGeneratedPrompt(messages + later) == ExtractGeneratedPrompt(messages)
  {
    LastAssistantIndexAppend(messages, later);
    var i := LastAssistantIndex(messages);
    if i != -1 {
      assert (messages + later)[i] == messages[i];
    }
  }
}

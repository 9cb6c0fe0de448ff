/**
 * The session of src/contexts/SessionContext.tsx: the conversation history,
 * empty at first, whose only mutation is appending a message.
 */
module Session {
  import opened Wrappers
  import Parsing

  /** A file attached to a user message: its path and its text, or `null`
      when it could not be read. */
  datatype ContextFile = ContextFile(path: string, content: Option<string>)

  /** A message as the session keeps it; assistant messages carry no files. */
  datatype Message = Message(role: Parsing.MessageRole, content: string, contextFiles: seq<ContextFile>)

  /** The history as the prompt extraction reads it: role and text only. */
  function Transcript(messages: seq<Message>): (r: seq<Parsing.Message>)
    ensures |r| == |messages|
    ensures forall k | 0 <= k < |r| :: r[k] == Parsing.Message(messages[k].role, messages[k].content)
  {
    seq(|messages|, k requires 0 <= k < |messages| => Parsing.Message(messages[k].role, messages[k].content))
  }

  /** The history after a run of `addMessage` calls, one at a time. */
  function AddAll(history: seq<Message>, added: seq<Message>): (r: seq<Message>)
    ensures r == history + added
    decreases |added|
  {
    if added == [] then history
    else
      var r := AddAll(history + [added[0]], added[1..]);
      assert history + [added[0]] + added[1..] == history + added;
      r
  }

  /** Appending never disturbs what is there: whatever is added, the earlier
      history is a prefix of the later one, in the same order. */
  lemma {:induction false} HistoryOnlyGrows(history: seq<Message>, added: seq<Message>)
    ensures |AddAll(history, added)| == |history| + |added|
    ensures AddAll(history, added)[..|history|] == history
    ensures forall k | 0 <= k < |added| :: AddAll(history, added)[|history| + k] == added[k]
  {
    var r := AddAll(history, added);
    assert r == history + added;
  }

  /** Appending to the history commutes with reading it as a transcript. */
  lemma {:induction false} TranscriptAppend(history: seq<Message>, m: Message)
    ensures Transcript(history + [m]) == Transcript(history) + [Parsing.Message(m.role, m.content)]
  {
  }

  /** The provider's state: the history, starting empty, and `addMessage`. */
  class SessionStore {
    var messages: seq<Message>

    constructor()
      ensures messages == []
    {
      messages := [];
    }

    /** `addMessage`: the message goes at the end; everything before stays. */
    method AddMessage(message: Message)
      modifies this
      ensures messages == AddAll(old(messages), [message])
      ensures |messages| == |old(messages)| + 1 && messages[|messages| - 1] == message
    {
      messages := messages + [message];
    }
  }
}

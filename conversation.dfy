/**
 * `useConversation` of src/hooks/useConversation.ts: it gathers the files a
 * submitted prompt mentions, appends the user message, asks the backend for
 * a reply, appends the reply when there is one, lets the caller cancel the
 * request, and copies the last generated prompt on Ctrl+Y.
 *
 * The file system, the mention parser and the backend are parameters: what
 * `statSync` finds at a path, what reading a file gives, the mentioned paths,
 * and how the backend call ends.
 */
module Conversation {
  import opened Wrappers
  import opened Ink
  import Parsing
  import DirectoryWalk
  import opened Session

  /** What `fs.statSync(path)` finds: a directory (with the tree below it),
      anything else, or nothing (it throws). */
  datatype Probe = DirectoryAt(listing: DirectoryWalk.Listing) | NotDirectory | StatThrows

  /** No `/` directly follows another. */
  predicate SingleSlashes(s: string) {
    forall k | 0 <= k < |s| - 1 :: !(s[k] == '/' && s[k + 1] == '/')
  }

  /** The characters of `s` other than `/`, in order. */
  function NonSlashes(s: string): string {
    if s == [] then [] else (if s[0] == '/' then [] else [s[0]]) + NonSlashes(s[1..])
  }

  /** The part of `path.normalize` that merges each run of `/` into one. */
  function CollapseSlashes(s: string): (r: string)
    ensures SingleSlashes(r)
    ensures NonSlashes(r) == NonSlashes(s)
    ensures |r| <= |s| && (s != [] ==> r != [] && r[0] == s[0])
  {
    if |s| <= 1 then s
    else if s[0] == '/' && s[1] == '/' then CollapseSlashes(s[1..])
    else [s[0]] + CollapseSlashes(s[1..])
  }

  /** Text with no run of `/` is left as it is. */
  lemma {:induction false} CollapseSlashesKeeps(s: string)
    requires SingleSlashes(s)
    ensures CollapseSlashes(s) == s
  {
    if |s| > 1 {
      assert SingleSlashes(s[1..]) by {
        forall k | 0 <= k < |s[1..]| - 1
          ensures !(s[1..][k] == '/' && s[1..][k + 1] == '/')
        {
          assert s[1..][k] == s[k + 1] && s[1..][k + 1] == s[k + 2];
        }
      }
      CollapseSlashesKeeps(s[1..]);
    }
  }

  /** `path.join` of a directory and a relative path: the non-empty parts
      joined by `/`, each run of `/` merged into one, and `.` for nothing. */
  function JoinPath(directory: string, relative: string): (r: string)
    ensures r != []
    ensures SingleSlashes(r)
  {
    var joined :=
      if directory == [] then relative
      else if relative == [] then directory
      else directory + "/" + relative;
    if joined == [] then "." else CollapseSlashes(joined)
  }

  /** Joining loses no name character: only `/`s are added or merged. */
  lemma {:induction false} JoinPathKeepsNames(directory: string, relative: string)
    requires directory != [] && relative != []
    ensures NonSlashes(JoinPath(directory, relative)) == NonSlashes(directory) + NonSlashes(relative)
  {
    var joined := directory + "/" + relative;
    assert JoinPath(directory, relative) == CollapseSlashes(joined);
    NonSlashesAppend(directory, "/");
    NonSlashesAppend(directory + "/", relative);
    assert NonSlashes("/") == [] by {
      assert "/"[1..] == [];
    }
  }

  /** Dropping the `/`s of a concatenation drops them from each part. */
  lemma {:induction false} NonSlashesAppend(a: string, b: string)
    ensures NonSlashes(a + b) == NonSlashes(a) + NonSlashes(b)
    decreases |a|
  {
    if a != [] {
      assert (a + b)[1..] == a[1..] + b;
      NonSlashesAppend(a[1..], b);
    } else {
      assert a + b == b;
    }
  }

  /** A directory and a relative path each spelled without runs of `/` are
      joined by exactly one `/`: added when the directory does not end in
      one, and not doubled when it does. */
  lemma {:induction false} JoinPathAppends(directory: string, relative: string)
    requires directory != [] && relative != [] && relative[0] != '/'
    requires SingleSlashes(directory) && SingleSlashes(relative)
    ensures directory[|directory| - 1] != '/' ==> JoinPath(directory, relative) == directory + "/" + relative
    ensures directory[|directory| - 1] == '/' ==> JoinPath(directory, relative) == directory + relative
  {
    var joined := directory + "/" + relative;
    if directory[|directory| - 1] != '/' {
      assert SingleSlashes(joined) by {
        forall k | 0 <= k < |joined| - 1
          ensures !(joined[k] == '/' && joined[k + 1] == '/')
        {
          if k < |directory| - 1 {
            assert joined[k] == directory[k] && joined[k + 1] == directory[k + 1];
          } else if k > |directory| {
            assert joined[k] == relative[k - |directory| - 1] && joined[k + 1] == relative[k - |directory|];
          }
        }
      }
      CollapseSlashesKeeps(joined);
    } else {
      var d := directory[..|directory| - 1];
      assert joined == d + "//" + relative;
      CollapseAtDoubled(d, relative);
      var plain := directory + relative;
      assert SingleSlashes(plain) by {
        forall k | 0 <= k < |plain| - 1
          ensures !(plain[k] == '/' && plain[k + 1] == '/')
        {
          if k < |directory| - 1 {
            assert plain[k] == directory[k] && plain[k + 1] == directory[k + 1];
          } else if k >= |directory| {
            assert plain[k] == relative[k - |directory|] && plain[k + 1] == relative[k - |directory| + 1];
          }
        }
      }
      assert d + "/" + relative == plain;
      CollapseSlashesKeeps(plain);
    }
  }

  /** Merging runs of `/` treats `//` after a prefix as one `/`. */
  lemma {:induction false} CollapseAtDoubled(d: string, t: string)
    ensures CollapseSlashes(d + "//" + t) == CollapseSlashes(d + "/" + t)
    decreases |d|
  {
    if d == [] {
      assert ("//" + t)[1..] == "/" + t;
    } else {
      var x, y := d + "//" + t, d + "/" + t;
      assert x[1..] == d[1..] + "//" + t && y[1..] == d[1..] + "/" + t;
      assert x[0] == y[0] && |x| > 1 && |y| > 1;
      assert x[1] == y[1];
      CollapseAtDoubled(d[1..], t);
    }
  }

  /** The entries of a directory: one per file the walk lists below it, in
      the walk's order, each path joined onto the directory's and read. */
  function DirectoryEntriesOf(path: string, listing: DirectoryWalk.Listing, read: string -> Option<string>): seq<ContextFile>
  {
    var files := DirectoryWalk.ListingFiles(listing, []);
    seq(|files|, k requires 0 <= k < |files| =>
      var full := JoinPath(path, DirectoryWalk.RelativePath(files[k]));
      ContextFile(full, read(full)))
  }

  /** The entries one mentioned path contributes: those of a directory; one
      for anything else that exists; a single unreadable entry when the path
      cannot be examined. */
  function EntriesFor(path: string, probe: string -> Probe, read: string -> Option<string>): (r: seq<ContextFile>)
    ensures probe(path) == StatThrows ==> r == [ContextFile(path, None)]
    ensures probe(path) == NotDirectory ==> r == [ContextFile(path, read(path))]
  {
    match probe(path)
    case StatThrows => [ContextFile(path, None)]
    case NotDirectory => [ContextFile(path, read(path))]
    case DirectoryAt(listing) => DirectoryEntriesOf(path, listing, read)
  }

  /** A directory gives exactly one entry per file listed below it, in the
      walk's order, each path joined onto the directory's and read. */
  lemma {:induction false} DirectoryEntries(path: string, listing: DirectoryWalk.Listing, read: string -> Option<string>)
    ensures var r, files := DirectoryEntriesOf(path, listing, read), DirectoryWalk.ListingFiles(listing, []);
      |r| == |files|
      && forall k | 0 <= k < |r| ::
           r[k].path == JoinPath(path, DirectoryWalk.RelativePath(files[k])) && r[k].content == read(r[k].path)
  {
  }

  /** The inner loop of `handleInputSubmit`: the entries of a mentioned
      directory. */
  method ReadDirectory(contextFilePath: string, listing: DirectoryWalk.Listing, read: string -> Option<string>)
    returns (entries: seq<ContextFile>)
    ensures entries == DirectoryEntriesOf(contextFilePath, listing, read)
  {
    var directoryFiles := DirectoryWalk.GetDirectoryFiles(listing);
    ghost var expected := DirectoryEntriesOf(contextFilePath, listing, read);
    DirectoryEntries(contextFilePath, listing, read);
    entries := [];
    var j := 0;
    while j < |directoryFiles|
      invariant 0 <= j <= |directoryFiles| == |expected|
      invariant entries == expected[..j]
    {
      var fullDirectoryFilePath := JoinPath(contextFilePath, DirectoryWalk.RelativePath(directoryFiles[j]));
      assert expected[j] == ContextFile(fullDirectoryFilePath, read(fullDirectoryFilePath));
      assert expected[..j + 1] == expected[..j] + [expected[j]];
      entries := entries + [ContextFile(fullDirectoryFilePath, read(fullDirectoryFilePath))];
      j := j + 1;
    }
    assert expected[..j] == expected;
  }

  /** The context files of a prompt: the entries of each mentioned path, in
      the order the paths are mentioned. */
  function ContextEntries(paths: seq<string>, probe: string -> Probe, read: string -> Option<string>): seq<ContextFile>
  {
    if paths == [] then []
    else ContextEntries(paths[..|paths| - 1], probe, read) + EntriesFor(paths[|paths| - 1], probe, read)
  }

  /** The entries of later mentions follow those of earlier ones. */
  lemma {:induction false} ContextEntriesAppend(
    paths: seq<string>, later: seq<string>, probe: string -> Probe, read: string -> Option<string>)
    ensures ContextEntries(paths + later, probe, read) == ContextEntries(paths, probe, read) + ContextEntries(later, probe, read)
    decreases |later|
  {
    if later == [] {
      assert paths + later == paths;
    } else {
      var front, last := later[..|later| - 1], later[|later| - 1];
      var e := EntriesFor(last, probe, read);
      assert (paths + later)[..|paths + later| - 1] == paths + front;
      assert (paths + later)[|paths + later| - 1] == last;
      assert ContextEntries(paths + later, probe, read) == ContextEntries(paths + front, probe, read) + e;
      assert ContextEntries(later, probe, read) == ContextEntries(front, probe, read) + e;
      ContextEntriesAppend(paths, front, probe, read);
    }
  }

  /** Every entry taken from a directory names a regular file reached below
      it, and an unreadable directory gives no entries at all. */
  lemma {:induction false} DirectoryEntriesAreFiles(path: string, listing: DirectoryWalk.Listing, read: string -> Option<string>)
    ensures listing.Unreadable? ==> DirectoryEntriesOf(path, listing, read) == []
    ensures var files := DirectoryWalk.ListingFiles(listing, []);
      forall k | 0 <= k < |files| :: listing.Readable? && DirectoryWalk.EntriesReach(listing.entries, files[k])
  {
    var files := DirectoryWalk.ListingFiles(listing, []);
    forall k | 0 <= k < |files|
      ensures listing.Readable? && DirectoryWalk.EntriesReach(listing.entries, files[k])
    {
      DirectoryWalk.ListsExactlyTheFiles(listing, files[k]);
    }
  }

  /** The loop of `handleInputSubmit` that reads the mentioned paths. */
  method ReadContextFiles(contextFilesPaths: seq<string>, probe: string -> Probe, read: string -> Option<string>)
    returns (contextFilesWithContent: seq<ContextFile>)
    ensures contextFilesWithContent == ContextEntries(contextFilesPaths, probe, read)
  {
    contextFilesWithContent := [];
    var i := 0;
    while i < |contextFilesPaths|
      invariant 0 <= i <= |contextFilesPaths|
      invariant contextFilesWithContent == ContextEntries(contextFilesPaths[..i], probe, read)
    {
      var contextFilePath := contextFilesPaths[i];
      assert contextFilesPaths[..i + 1][..i] == contextFilesPaths[..i];
      match probe(contextFilePath) {
      case StatThrows =>
        contextFilesWithContent := contextFilesWithContent + [ContextFile(contextFilePath, None)];
      case NotDirectory =>
        contextFilesWithContent := contextFilesWithContent + [ContextFile(contextFilePath, read(contextFilePath))];
      case DirectoryAt(listing) =>
        var entries := ReadDirectory(contextFilePath, listing, read);
        contextFilesWithContent := contextFilesWithContent + entries;
      }
      i := i + 1;
    }
    assert contextFilesPaths[..i] == contextFilesPaths;
  }

  /** How the backend call ends: with the reply's text, or rejected (an
      abort or any other error). */
  datatype Reply = Answered(text: string) | Rejected(errorName: string)

  datatype NotificationType = Success | Error

  datatype Notification = Notification(message: string, kind: NotificationType)

  const CopiedMessage := "Prompt copied to clipboard!"
  const CopyFailedMessage := "Failed to copy prompt to clipboard."

  /** The Ctrl+Y handler: with a generated prompt in the last assistant
      message it is copied and a success is shown, otherwise an error is.
      Other keys do nothing. */
  method HandleCopyKey(messages: seq<Message>, input: string, key: Key)
    returns (notification: Option<Notification>, copied: Option<string>)
    ensures !(key.ctrl && input == "y") ==> notification == None && copied == None
    ensures key.ctrl && input == "y" ==>
      var prompt := Parsing.ExtractGeneratedPrompt(Transcript(messages));
      notification.Some?
      && (notification.value.kind == Success <==> prompt.Some?)
      && copied == prompt
      && notification.value == if prompt.Some? then Notification(CopiedMessage, Success)
                               else Notification(CopyFailedMessage, Error)
  {
    notification, copied := None, None;
    if key.ctrl && input == "y" {
      var generatedPrompt := Parsing.ExtractGeneratedPrompt(Transcript(messages));
      if generatedPrompt.Some? && generatedPrompt.value != [] {
        copied := generatedPrompt;
        notification := Some(Notification(CopiedMessage, Success));
      } else {
        notification := Some(Notification(CopyFailedMessage, Error));
      }
    }
  }

  /** The handle the hook keeps on a request in flight. */
  class AbortController {
    var aborted: bool

    constructor()
      ensures !aborted
    {
      aborted := false;
    }

    method Abort()
      modifies this
      ensures aborted
    {
      aborted := true;
    }
  }

  /** The hook's state: the shared session, the loading flag and the
      controller of the request in flight, if any. */
  class ConversationHook {
    const session: SessionStore
    var isLoadingAssistantMessage: bool
    var abortController: AbortController?

    constructor(session: SessionStore)
      ensures this.session == session
      ensures !isLoadingAssistantMessage && abortController == null
    {
      this.session := session;
      isLoadingAssistantMessage := false;
      abortController := null;
    }

    /** `cancelAssistantMessage`, also run on unmount: with a request in
        flight it is aborted and forgotten, otherwise nothing happens. */
    method CancelAssistantMessage()
      modifies this, abortController
      ensures old(abortController) != null ==> old(abortController).aborted && abortController == null
      ensures old(abortController) == null ==> abortController == null
      ensures isLoadingAssistantMessage == old(isLoadingAssistantMessage)
    {
      if abortController != null {
        abortController.Abort();
        abortController := null;
      }
    }

    /** `handleInputSubmit` up to the backend call: the context files are
        read, the user message is appended, loading starts with a new
        controller, and the backend is handed the earlier history followed by
        the user message. */
    method SubmitStart(content: string, contextFilesPaths: seq<string>,
                       probe: string -> Probe, read: string -> Option<string>)
      returns (request: seq<Message>)
      modifies this, session
      ensures var userMessage := Message(Parsing.User, content, ContextEntries(contextFilesPaths, probe, read));
        session.messages == old(session.messages) + [userMessage]
        && request == old(session.messages) + [userMessage]
      ensures isLoadingAssistantMessage && abortController != null && fresh(abortController)
      ensures !abortController.aborted
    {
      var contextFilesWithContent := ReadContextFiles(contextFilesPaths, probe, read);
      var userMessage := Message(Parsing.User, content, contextFilesWithContent);
      var messages := session.messages;
      session.AddMessage(userMessage);
      request := messages + [userMessage];
      isLoadingAssistantMessage := true;
      abortController := new AbortController();
    }

    /** The rest of `handleInputSubmit`: a reply is appended as one assistant
        message, a rejection appends nothing, and either way loading stops
        and the controller is dropped. */
    method SubmitSettle(reply: Reply)
      modifies this, session
      ensures reply.Answered? ==> session.messages == old(session.messages) + [Message(Parsing.Assistant, reply.text, [])]
      ensures reply.Rejected? ==> session.messages == old(session.messages)
      ensures !isLoadingAssistantMessage && abortController == null
    {
      if reply.Answered? {
        session.AddMessage(Message(Parsing.Assistant, reply.text, []));
      }
      isLoadingAssistantMessage := false;
      abortController := null;
    }
  }

  /** A whole submission as the history sees it: the user message, then the
      reply if there was one. The backend's view is the history before the
      submission plus the user message. */
  function AfterSubmission(history: seq<Message>, userMessage: Message, reply: Reply): (r: seq<Message>)
    ensures |r| == |history| + (if reply.Answered? then 2 else 1)
    ensures r[..|history| + 1] == history + [userMessage]
    ensures reply.Answered? ==> r[|history| + 1] == Message(Parsing.Assistant, reply.text, [])
  {
    var withUser := AddAll(history, [userMessage]);
    match reply
    case Answered(text) => AddAll(withUser, [Message(Parsing.Assistant, text, [])])
    case Rejected(_) => withUser
  }

  /** After a successful submission Ctrl+Y reads the reply just appended: the
      user message in between does not hide it. */
  lemma {:induction false} CopyReadsLatestReply(history: seq<Message>, userMessage: Message, text: string)
    ensures var r := AfterSubmission(history, userMessage, Answered(text));
      Parsing.ExtractGeneratedPrompt(Transcript(r)) == Parsing.PromptBetweenTags(text)
  {
    var r := AfterSubmission(history, userMessage, Answered(text));
    var t := Transcript(r);
    Parsing.LastAssistantIndexAppend(t[..|t| - 1], [t[|t| - 1]]);
    assert t[..|t| - 1] + [t[|t| - 1]] == t;
  }
}

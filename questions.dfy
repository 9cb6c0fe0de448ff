/**
 * The follow-up question wizard of src/components/ConversationQuestions.tsx:
 * one question at a time, Tab / Shift+Tab to move between questions keeping
 * the non-blank answers in a map, Ctrl+D to advance or, on the last
 * question, to submit every answer as one `<follow-up-answers>` block, and
 * Escape to quit.
 */
module Questions {
  import opened Strings
  import opened Ink
  import opened LineIndex

  /** A follow-up question: its identifier and its text. */
  datatype Question = Question(id: string, content: string)

  const AnswersHeader := "<follow-up-answers>\n"
  const AnswersFooter := "\n</follow-up-answers>\n"
  const NotAnswered := "[Not answered]"

  /** The fixed pieces of an `<item>` element, around the question's
      identifier, its text and the answer. */
  const ItemOpen := "<item question-id=\""
  const ItemQuestion := "\">\n  <question>"
  const ItemAnswer := "</question>\n  <answer>"
  const ItemClose := "</answer>\n</item>"

  /** Every stored answer has a non-blank character. */
  predicate Blankless(answers: map<string, string>) {
    forall id | id in answers :: JsTrim(answers[id]) != []
  }

  /** The map after committing the current answer: stored, untrimmed, under
      the current question's identifier when there is a current question and
      the answer is not blank; otherwise the map as it was. */
  function Commit(answers: map<string, string>, questions: seq<Question>, index: nat, currentAnswer: string)
    : (r: map<string, string>)
    ensures JsTrim(currentAnswer) == [] || index >= |questions| ==> r == answers
    ensures JsTrim(currentAnswer) != [] && index < |questions| ==>
      questions[index].id in r && r[questions[index].id] == currentAnswer
  {
    if index < |questions| && JsTrim(currentAnswer) != [] then answers[questions[index].id := currentAnswer]
    else answers
  }

  /** A commit touches only the current question's entry and never stores a
      blank answer. */
  lemma {:induction false} CommitKeeps(answers: map<string, string>, questions: seq<Question>, index: nat, currentAnswer: string)
    ensures var r := Commit(answers, questions, index, currentAnswer);
      r.Keys >= answers.Keys
      && (forall id | id in r && (index >= |questions| || id != questions[index].id) :: id in answers && r[id] == answers[id])
      && (Blankless(answers) ==> Blankless(r))
  {
  }

  /** `answers.get(id) || ""`: the stored answer, or an empty one. */
  function Recall(answers: map<string, string>, id: string): (r: string)
    ensures id in answers ==> r == answers[id]
    ensures id !in answers ==> r == []
  {
    if id in answers then answers[id] else ""
  }

  /** `answers.get(id) || "[Not answered]"`: the stored answer if it is not
      empty; never empty itself. */
  function AnswerFor(answers: map<string, string>, id: string): (r: string)
    ensures r != []
    ensures id in answers && answers[id] != [] ==> r == answers[id]
    ensures id !in answers || answers[id] == [] ==> r == NotAnswered
  {
    if id in answers && answers[id] != [] then answers[id] else NotAnswered
  }

  /** One `<item>` element of the submission. */
  function Item(question: Question, answer: string): string {
    ItemOpen + question.id + ItemQuestion + question.content + ItemAnswer + answer + ItemClose
  }

  /** The items, one per question in the questions' order. */
  function Items(questions: seq<Question>, answers: map<string, string>): (r: seq<string>)
    ensures |r| == |questions|
    ensures forall i | 0 <= i < |r| :: r[i] == Item(questions[i], AnswerFor(answers, questions[i].id))
  {
    seq(|questions|, i requires 0 <= i < |questions| => Item(questions[i], AnswerFor(answers, questions[i].id)))
  }

  /** JavaScript's `items.join("\n")`, empty for no items. */
  function JoinItems(items: seq<string>): (r: string)
    ensures |items| == 0 ==> r == []
    ensures |items| > 0 ==> r == JoinLines(items)
  {
    if |items| == 0 then "" else JoinLines(items)
  }

  /** The text `handleSubmit` passes on: the header, the items separated by
      line breaks, and the footer. */
  function FormatAnswers(questions: seq<Question>, answers: map<string, string>): string {
    AnswersHeader + JoinItems(Items(questions, answers)) + AnswersFooter
  }

  /** The submission opens with the header and closes with the footer. */
  lemma {:induction false} FormatAnswersFrame(questions: seq<Question>, answers: map<string, string>)
    ensures var r := FormatAnswers(questions, answers);
      |AnswersHeader| + |AnswersFooter| <= |r|
      && r[..|AnswersHeader|] == AnswersHeader
      && r[|r| - |AnswersFooter|..] == AnswersFooter
  {
    var body := JoinItems(Items(questions, answers));
    var r := AnswersHeader + body + AnswersFooter;
    assert r[..|AnswersHeader|] == AnswersHeader;
    assert r[|r| - |AnswersFooter|..] == AnswersFooter;
  }

  /** The `i`-th question's item sits in the submission after the header and
      the `i` earlier items (each followed by a line break), and carries the
      stored answer or `[Not answered]`. */
  lemma {:induction false} FormatAnswersHoldsItem(questions: seq<Question>, answers: map<string, string>, i: nat)
    requires i < |questions|
    ensures var items, r := Items(questions, answers), FormatAnswers(questions, answers);
      var at := |AnswersHeader| + Offset(items, i);
      var item := Item(questions[i], AnswerFor(answers, questions[i].id));
      at + |item| <= |r| && r[at..at + |item|] == item
  {
    var items := Items(questions, answers);
    var r := FormatAnswers(questions, answers);
    assert r == AnswersHeader + JoinLines(items) + AnswersFooter;
    JoinAt(items, i);
    var o := Offset(items, i);
    var at := |AnswersHeader| + o;
    SliceInMiddle(AnswersHeader, JoinLines(items), AnswersFooter, o, o + |items[i]|);
    assert at + |items[i]| <= |r| && r[at..at + |items[i]|] == items[i];
  }

  /** A slice of the middle part of `h + b + f`. */
  lemma SliceInMiddle(h: string, b: string, f: string, x: nat, y: nat)
    requires x <= y <= |b|
    ensures |h| + y <= |h + b + f| && (h + b + f)[|h| + x..|h| + y] == b[x..y]
  {
    assert h + b + f == h + (b + f);
  }

  /** The wizard's three state cells. */
  datatype WizardState = WizardState(answers: map<string, string>, currentAnswer: string, currentQuestionIndex: nat)

  /** What a key press asks of the component's owner. */
  datatype Outcome = Stay | Quit | SubmitThenQuit(formattedAnswers: string)

  datatype Reaction = Reaction(next: WizardState, outcome: Outcome)

  /** The first `case` of the handler's `switch (true)` whose label holds. */
  datatype Action = Escape | Back | Forward | Finish | Ignore

  function Dispatch(input: string, key: Key): Action {
    if key.escape then Escape
    else if key.tab && key.shift then Back
    else if key.tab then Forward
    else if key.ctrl && input == "d" then Finish
    else Ignore
  }

  /** Shift+Tab: after the first question, commit, then show the previous
      question and its stored answer. */
  function BackArm(questions: seq<Question>, s: WizardState): WizardState {
    var i := s.currentQuestionIndex;
    var updated := Commit(s.answers, questions, i, s.currentAnswer);
    if i > 0 && i - 1 < |questions| then WizardState(updated, Recall(updated, questions[i - 1].id), i - 1)
    else if i > 0 then s.(answers := updated)
    else s
  }

  /** Tab: before the last question, commit, then show the next question and
      its stored answer. */
  function ForwardArm(questions: seq<Question>, s: WizardState): WizardState {
    var i := s.currentQuestionIndex;
    var updated := Commit(s.answers, questions, i, s.currentAnswer);
    if i + 1 < |questions| then WizardState(updated, Recall(updated, questions[i + 1].id), i + 1)
    else s
  }

  /** Ctrl+D: commit; on the last question submit, else show the next
      question with the answer recalled from the map before the commit. */
  function FinishArm(questions: seq<Question>, s: WizardState): Reaction {
    var i := s.currentQuestionIndex;
    var updated := Commit(s.answers, questions, i, s.currentAnswer);
    if i == |questions| - 1 then
      Reaction(s.(answers := updated), SubmitThenQuit(FormatAnswers(questions, updated)))
    else if i + 1 < |questions| then
      Reaction(WizardState(updated, Recall(s.answers, questions[i + 1].id), i + 1), Stay)
    else Reaction(s.(answers := updated), Stay)
  }

  /** The effect of one key press on the three cells. */
  function React(questions: seq<Question>, s: WizardState, action: Action): Reaction {
    match action
    case Escape => Reaction(s, Quit)
    case Back => Reaction(BackArm(questions, s), Stay)
    case Forward => Reaction(ForwardArm(questions, s), Stay)
    case Finish => FinishArm(questions, s)
    case Ignore => Reaction(s, Stay)
  }

  /** The index is that of a question, or the initial 0. */
  predicate Fits(questions: seq<Question>, s: WizardState) {
    (s.currentQuestionIndex == 0 || s.currentQuestionIndex < |questions|) && Blankless(s.answers)
  }

  /** Every key press keeps the index on a question and keeps blank answers
      out of the map. */
  lemma {:induction false} ReactKeepsFit(questions: seq<Question>, s: WizardState, action: Action)
    requires Fits(questions, s)
    ensures Fits(questions, React(questions, s, action).next)
  {
    CommitKeeps(s.answers, questions, s.currentQuestionIndex, s.currentAnswer);
  }

  /** Tab on the last question and Shift+Tab on the first change nothing;
      Escape quits without submitting and changes nothing. */
  lemma {:induction false} EdgesAreStill(questions: seq<Question>, s: WizardState)
    ensures s.currentQuestionIndex >= |questions| - 1 ==> React(questions, s, Forward) == Reaction(s, Stay)
    ensures s.currentQuestionIndex == 0 ==> React(questions, s, Back) == Reaction(s, Stay)
    ensures React(questions, s, Escape) == Reaction(s, Quit)
  {
  }

  /** Tab before the last question commits the answer, moves one question on
      and shows that question's stored answer, or an empty one. */
  lemma {:induction false} ForwardMoves(questions: seq<Question>, s: WizardState)
    requires s.currentQuestionIndex + 1 < |questions|
    ensures var r, i := React(questions, s, Forward), s.currentQuestionIndex;
      var answers := Commit(s.answers, questions, i, s.currentAnswer);
      r.outcome == Stay && r.next.currentQuestionIndex == i + 1 && r.next.answers == answers
      && (questions[i + 1].id in answers ==> r.next.currentAnswer == answers[questions[i + 1].id])
      && (questions[i + 1].id !in answers ==> r.next.currentAnswer == [])
  {
  }

  /** Tab then Shift+Tab returns to the same question. A non-blank answer
      comes back as it was, now committed; a blank one was not committed, so
      the stored answer (or an empty one) replaces it. */
  lemma {:induction false} ForwardThenBack(questions: seq<Question>, s: WizardState)
    requires s.currentQuestionIndex + 1 < |questions|
    ensures var i, a := s.currentQuestionIndex, s.currentAnswer;
      var t := React(questions, React(questions, s, Forward).next, Back);
      t.outcome == Stay
      && t.next == WizardState(Commit(s.answers, questions, i, a),
                               if JsTrim(a) != [] then a else Recall(s.answers, questions[i].id), i)
  {
    var i, q, a := s.currentQuestionIndex, questions, s.currentAnswer;
    var a1 := Commit(s.answers, q, i, a);
    var s1 := WizardState(a1, Recall(a1, q[i + 1].id), i + 1);
    assert ForwardArm(q, s) == s1;
    RecommitIsIdle(a1, q, i + 1);
    assert BackArm(q, s1) == WizardState(a1, Recall(a1, q[i].id), i);
    CommitThenRecall(s.answers, q, i, a);
  }

  /** Committing the answer just recalled for a question changes nothing. */
  lemma {:induction false} RecommitIsIdle(answers: map<string, string>, questions: seq<Question>, j: nat)
    requires j < |questions|
    ensures Commit(answers, questions, j, Recall(answers, questions[j].id)) == answers
  {
    var id := questions[j].id;
    if id in answers {
      assert answers[id := answers[id]] == answers;
    }
  }

  /** After a commit, the question's recalled answer is the committed one,
      or the stored one when the answer was blank. */
  lemma {:induction false} CommitThenRecall(answers: map<string, string>, questions: seq<Question>, i: nat, a: string)
    requires i < |questions|
    ensures Recall(Commit(answers, questions, i, a), questions[i].id)
            == if JsTrim(a) != [] then a else Recall(answers, questions[i].id)
  {
  }

  /** Ctrl+D on the last question commits the answer and submits every
      question's answer. */
  lemma {:induction false} FinishOnLastSubmits(questions: seq<Question>, s: WizardState)
    requires |questions| > 0 && s.currentQuestionIndex == |questions| - 1
    ensures var answers := Commit(s.answers, questions, s.currentQuestionIndex, s.currentAnswer);
      React(questions, s, Finish) == Reaction(s.(answers := answers), SubmitThenQuit(FormatAnswers(questions, answers)))
  {
  }

  /** Ctrl+D before the last question commits and moves on like Tab when the
      two questions have different identifiers; it recalls the next answer
      from the map as it was before the commit. */
  lemma {:induction false} FinishAdvancesLikeForward(questions: seq<Question>, s: WizardState)
    requires s.currentQuestionIndex + 1 < |questions|
    requires questions[s.currentQuestionIndex].id != questions[s.currentQuestionIndex + 1].id
    ensures React(questions, s, Finish) == React(questions, s, Forward)
  {
  }

  /** The body of the key handler: the `switch (true)` over the cells'
      values, each `case` computing the new answers, answer and index. */
  method Transition(questions: seq<Question>, s: WizardState, input: string, key: Key) returns (r: Reaction)
    ensures r == React(questions, s, Dispatch(input, key))
  {
    var answers, currentAnswer, currentQuestionIndex := s.answers, s.currentAnswer, s.currentQuestionIndex;
    var outcome := Stay;
    match Dispatch(input, key) {
    case Escape =>
      outcome := Quit;
    case Back =>
      if currentQuestionIndex > 0 {
        var updatedAnswers := Commit(answers, questions, currentQuestionIndex, currentAnswer);
        answers := updatedAnswers;
        if currentQuestionIndex - 1 < |questions| {
          currentAnswer := Recall(updatedAnswers, questions[currentQuestionIndex - 1].id);
          currentQuestionIndex := currentQuestionIndex - 1;
        }
      }
    case Forward =>
      if currentQuestionIndex < |questions| - 1 {
        var updatedAnswers := Commit(answers, questions, currentQuestionIndex, currentAnswer);
        answers := updatedAnswers;
        currentQuestionIndex := currentQuestionIndex + 1;
        currentAnswer := Recall(updatedAnswers, questions[currentQuestionIndex].id);
      }
    case Finish =>
      var previousAnswers := answers;
      answers := Commit(answers, questions, currentQuestionIndex, currentAnswer);
      if currentQuestionIndex == |questions| - 1 {
        outcome := SubmitThenQuit(FormatAnswers(questions, answers));
      } else if currentQuestionIndex + 1 < |questions| {
        currentQuestionIndex := currentQuestionIndex + 1;
        currentAnswer := Recall(previousAnswers, questions[currentQuestionIndex].id);
      }
    case Ignore =>
    }
    r := Reaction(WizardState(answers, currentAnswer, currentQuestionIndex), outcome);
  }

  /** The component with its three state cells. */
  class Wizard {
    const questions: seq<Question>
    var answers: map<string, string>
    var currentAnswer: string
    var currentQuestionIndex: nat

    function State(): WizardState
      reads this
    {
      WizardState(answers, currentAnswer, currentQuestionIndex)
    }

    /** No answers, an empty answer, the first question. */
    constructor(questionList: seq<Question>)
      ensures questions == questionList && State() == WizardState(map[], "", 0)
      ensures Fits(questions, State())
    {
      questions := questionList;
      answers := map[];
      currentAnswer := "";
      currentQuestionIndex := 0;
    }

    /** `handleInputChange`: the embedded editor reports a new answer. */
    method HandleInputChange(newInput: string)
      modifies this
      ensures State() == old(State()).(currentAnswer := newInput)
    {
      currentAnswer := newInput;
    }

    /** `handleSubmit`: the answers with the current one committed, as one
        block. */
    method HandleSubmit() returns (formattedAnswers: string)
      ensures formattedAnswers == FormatAnswers(questions, Commit(answers, questions, currentQuestionIndex, currentAnswer))
    {
      var submittedAnswers := answers;
      if currentQuestionIndex < |questions| && JsTrim(currentAnswer) != [] {
        submittedAnswers := submittedAnswers[questions[currentQuestionIndex].id := currentAnswer];
      }
      var submittedAnswerItems: seq<string> := [];
      var k := 0;
      while k < |questions|
        invariant 0 <= k <= |questions| && |submittedAnswerItems| == k
        invariant forall j | 0 <= j < k ::
          submittedAnswerItems[j] == Item(questions[j], AnswerFor(submittedAnswers, questions[j].id))
      {
        var question := questions[k];
        var questionAnswer := AnswerFor(submittedAnswers, question.id);
        submittedAnswerItems := submittedAnswerItems + [Item(question, questionAnswer)];
        k := k + 1;
      }
      assert submittedAnswerItems == Items(questions, submittedAnswers);
      formattedAnswers := AnswersHeader + JoinItems(submittedAnswerItems) + AnswersFooter;
    }

    /** The key handler: one `Transition` of the three cells. */
    method HandleInput(input: string, key: Key) returns (outcome: Outcome)
      modifies this
      ensures State() == React(questions, old(State()), Dispatch(input, key)).next
      ensures outcome == React(questions, old(State()), Dispatch(input, key)).outcome
    {
      var r := Transition(questions, State(), input, key);
      answers, currentAnswer, currentQuestionIndex := r.next.answers, r.next.currentAnswer, r.next.currentQuestionIndex;
      outcome := r.outcome;
    }
  }
}

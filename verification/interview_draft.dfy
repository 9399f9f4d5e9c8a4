/**
 * The earlier draft of the interview screen: questions arrive one at a time from the server
 * and are kept once per id, answered questions are remembered by id, and the candidate may
 * move on only from an answered question. Server replies are inputs; the resume upload and
 * interview start handlers of this draft are not part of the model.
 */
module InterviewDraft {
  import opened Wrappers
  import opened Text

  datatype BackendQuestion = BackendQuestion(id: int, order: int, question: string)

  /** What `get-next-question` answers. */
  datatype NextReply = Done | Question(q: BackendQuestion) | NoQuestion | NextError(message: string)

  /** What `submit-answer` ends with: an error, or the next-question reply fetched after it. */
  datatype SubmitOutcome = SubmitError(message: string) | Submitted(next: NextReply)

  predicate UniqueIds(qs: seq<BackendQuestion>) {
    forall i, j :: 0 <= i < j < |qs| ==> qs[i].id != qs[j].id
  }

  function Ids(qs: seq<BackendQuestion>): (ids: set<int>)
    ensures forall id :: id in ids <==> exists i :: 0 <= i < |qs| && qs[i].id == id
  {
    if qs == [] then {} else {qs[0].id} + Ids(qs[1..])
  }

  /** The `setQuestions` updater: a question whose id is already loaded is dropped. */
  function AddQuestion(qs: seq<BackendQuestion>, q: BackendQuestion): (r: seq<BackendQuestion>)
    requires UniqueIds(qs)
    ensures UniqueIds(r)
    ensures q.id in Ids(qs) ==> r == qs
    ensures q.id !in Ids(qs) ==> r == qs + [q]
    ensures Ids(r) == Ids(qs) + {q.id}
  {
    if q.id in Ids(qs) then qs
    else
      IdsAppend(qs, q);
      qs + [q]
  }

  lemma IdsAppend(qs: seq<BackendQuestion>, q: BackendQuestion)
    ensures Ids(qs + [q]) == Ids(qs) + {q.id}
  {
    forall id | id in Ids(qs)
      ensures id in Ids(qs + [q])
    {
      var i :| 0 <= i < |qs| && qs[i].id == id;
      assert (qs + [q])[i] == qs[i];
    }
    assert (qs + [q])[|qs|] == q;
  }

  /** Loading the same question twice changes nothing the second time. */
  lemma AddQuestionIdempotent(qs: seq<BackendQuestion>, q: BackendQuestion)
    requires UniqueIds(qs)
    ensures AddQuestion(AddQuestion(qs, q), q) == AddQuestion(qs, q)
  {
  }

  /** Enter submits for a non-blank draft on an unanswered question while no submit runs. */
  predicate EnterSubmits(current: Option<BackendQuestion>, draft: string, answered: set<int>, answering: bool) {
    current.Some? && JsTrim(draft) != [] && current.value.id !in answered && !answering
  }

  class DraftScreen {
    var sessionId: Option<int>
    var questions: seq<BackendQuestion>
    /** `answeredMap`: only `true` is ever stored, so the ids mapped to `true`. */
    var answered: set<int>
    var currentQuestionIndex: int
    var answerDraft: string
    var answering: bool
    var error: Option<string>
    /** Whether the screen handed over to the results page. */
    var finished: bool

    ghost predicate Valid()
      reads this
    {
      UniqueIds(questions) && 0 <= currentQuestionIndex
    }

    constructor ()
      ensures Valid() && sessionId == None && questions == [] && answered == {} && currentQuestionIndex == 0
      ensures answerDraft == "" && !answering && error == None && !finished
    {
      sessionId := None;
      questions := [];
      answered := {};
      currentQuestionIndex := 0;
      answerDraft := "";
      answering := false;
      error := None;
      finished := false;
    }

    /** `questions[currentQuestionIndex]`, absent past the end. */
    function Current(): (q: Option<BackendQuestion>)
      reads this
      requires Valid()
      ensures q.Some? <==> currentQuestionIndex < |questions|
      ensures q.Some? ==> q.value == questions[currentQuestionIndex]
    {
      if currentQuestionIndex < |questions| then Some(questions[currentQuestionIndex]) else None
    }

    /** `isAnswered`: false when no question is at the current index. */
    function IsAnswered(): (b: bool)
      reads this
      requires Valid()
      ensures b <==> currentQuestionIndex < |questions| && questions[currentQuestionIndex].id in answered
    {
      Current().Some? && Current().value.id in answered
    }

    /** The `loadNextQuestion` reply handler. */
    method OnNextQuestion(reply: NextReply)
      requires Valid()
      modifies this
      ensures Valid()
      ensures reply.Done? ==> finished && questions == old(questions) && error == old(error)
      ensures reply.Question? ==>
                questions == AddQuestion(old(questions), reply.q) && finished == old(finished) && error == old(error)
      ensures reply.NoQuestion? ==> questions == old(questions) && finished == old(finished) && error == old(error)
      ensures reply.NextError? ==>
                questions == old(questions) && finished == old(finished) && error == Some(reply.message)
      ensures answered == old(answered) && currentQuestionIndex == old(currentQuestionIndex)
      ensures answerDraft == old(answerDraft) && sessionId == old(sessionId) && answering == old(answering)
    {
      match reply {
        case Done => finished := true;
        case Question(q) => questions := AddQuestion(questions, q);
        case NoQuestion =>
        case NextError(m) => error := Some(m);
      }
    }

    /** `submitAnswer`, with the request's outcome as `outcome`. Answers whether it was sent. */
    method SubmitAnswer(outcome: SubmitOutcome) returns (sent: bool)
      requires Valid()
      modifies this
      ensures Valid()
      ensures sent <==> old(Current()).Some? && old(sessionId).Some? && old(sessionId).value != 0
      ensures !sent ==>
                questions == old(questions) && answered == old(answered) && answerDraft == old(answerDraft) &&
                answering == old(answering) && finished == old(finished) && error == old(error)
      ensures sent ==> !answering
      ensures (sent && outcome.SubmitError?) ==>
                answered == old(answered) && answerDraft == old(answerDraft) && error == Some(outcome.message) &&
                questions == old(questions) && finished == old(finished)
      ensures (sent && outcome.Submitted?) ==>
                answered == old(answered) + {old(Current()).value.id} && answerDraft == ""
      // After a recorded answer, the reply for the next question acts as `OnNextQuestion` does.
      ensures (sent && outcome.Submitted?) ==>
                match outcome.next
                case Done => finished && questions == old(questions) && error == old(error)
                case Question(q) =>
                  questions == AddQuestion(old(questions), q) && finished == old(finished) && error == old(error)
                case NoQuestion => questions == old(questions) && finished == old(finished) && error == old(error)
                case NextError(m) => questions == old(questions) && finished == old(finished) && error == Some(m)
      ensures old(answered) <= answered && currentQuestionIndex == old(currentQuestionIndex)
      ensures sessionId == old(sessionId)
    {
      var q := Current();
      if q.None? || sessionId.None? || sessionId.value == 0 {
        return false;
      }
      answering := true;
      match outcome {
        case SubmitError(m) =>
          error := Some(m);
        case Submitted(next) =>
          answerDraft := "";
          answered := answered + {q.value.id};
          OnNextQuestion(next);
      }
      answering := false;
      return true;
    }

    /** `nextQuestion`: moves on by one from an answered question only, then asks for the next one. */
    method NextQuestion(reply: NextReply) returns (moved: bool)
      requires Valid()
      modifies this
      ensures Valid()
      ensures moved <==> old(IsAnswered())
      ensures moved ==> currentQuestionIndex == old(currentQuestionIndex) + 1
      ensures !moved ==> currentQuestionIndex == old(currentQuestionIndex) && questions == old(questions) &&
                         finished == old(finished) && error == old(error)
      ensures (moved && !(old(sessionId).Some? && old(sessionId).value != 0)) ==>
                questions == old(questions) && finished == old(finished) && error == old(error)
      // With a session, the reply for the next question acts as `OnNextQuestion` does.
      ensures (moved && old(sessionId).Some? && old(sessionId).value != 0) ==>
                match reply
                case Done => finished && questions == old(questions) && error == old(error)
                case Question(q) =>
                  questions == AddQuestion(old(questions), q) && finished == old(finished) && error == old(error)
                case NoQuestion => questions == old(questions) && finished == old(finished) && error == old(error)
                case NextError(m) => questions == old(questions) && finished == old(finished) && error == Some(m)
      ensures answered == old(answered) && answerDraft == old(answerDraft) && sessionId == old(sessionId)
      ensures answering == old(answering)
    {
      if !IsAnswered() {
        return false;
      }
      currentQuestionIndex := currentQuestionIndex + 1;
      if sessionId.Some? && sessionId.value != 0 {
        OnNextQuestion(reply);
      }
      return true;
    }

    /** Enter without Shift in the answer box. Answers whether it submitted. */
    method OnEnterKey(outcome: SubmitOutcome) returns (submitted: bool)
      requires Valid()
      modifies this
      ensures Valid()
      ensures submitted <==>
                old(EnterSubmits(Current(), answerDraft, answered, answering)) &&
                old(sessionId).Some? && old(sessionId).value != 0
      ensures !submitted ==>
                questions == old(questions) && answered == old(answered) && answerDraft == old(answerDraft) &&
                answering == old(answering) && finished == old(finished) && error == old(error)
      // When it submits, the new state is the one `SubmitAnswer` gives for `outcome`.
      ensures submitted ==> !answering
      ensures (submitted && outcome.SubmitError?) ==>
                answered == old(answered) && answerDraft == old(answerDraft) && error == Some(outcome.message) &&
                questions == old(questions) && finished == old(finished)
      ensures (submitted && outcome.Submitted?) ==>
                answered == old(answered) + {old(Current()).value.id} && answerDraft == ""
      ensures (submitted && outcome.Submitted?) ==>
                match outcome.next
                case Done => finished && questions == old(questions) && error == old(error)
                case Question(q) =>
                  questions == AddQuestion(old(questions), q) && finished == old(finished) && error == old(error)
                case NoQuestion => questions == old(questions) && finished == old(finished) && error == old(error)
                case NextError(m) => questions == old(questions) && finished == old(finished) && error == Some(m)
      ensures old(answered) <= answered && currentQuestionIndex == old(currentQuestionIndex)
      ensures sessionId == old(sessionId)
    {
      submitted := false;
      var q := Current();
      if q.Some? && JsTrim(answerDraft) != [] && q.value.id !in answered && !answering {
        submitted := SubmitAnswer(outcome);
      }
    }
  }

  /** Moving on is possible only after answering: a fresh question blocks `nextQuestion`. */
  method AnswerThenMoveOn(screen: DraftScreen, next: NextReply)
    requires screen.Valid() && screen.sessionId.Some? && screen.sessionId.value != 0
    requires screen.currentQuestionIndex < |screen.questions|
    requires screen.questions[screen.currentQuestionIndex].id !in screen.answered
    modifies screen
    ensures screen.currentQuestionIndex == old(screen.currentQuestionIndex) + 1
  {
    var before := screen.NextQuestion(NoQuestion);
    assert !before;
    var sent := screen.SubmitAnswer(Submitted(NoQuestion));
    assert sent;
    var after := screen.NextQuestion(next);
    assert after;
  }
}

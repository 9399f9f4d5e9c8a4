/**
 * The live (chat-style) mock interview: a session clock shown as MM:SS, an AI message per
 * question, and responses the candidate submits one per question. The random "time spent" of
 * a response is a parameter.
 */
module LiveInterview {
  import opened Wrappers
  import opened Text
  import opened Decimal

  /** The number of `mockQuestions`. */
  const QuestionCount: nat := 5

  /** `formatTime`: whole minutes and the remaining seconds, each padded to two digits. */
  function FormatTime(seconds: nat): string {
    Format02d(seconds / 60) + ":" + Format02d(seconds % 60)
  }

  /** Reads "MM:SS" back; `None` for any other shape. */
  function ParseTime(t: string): (r: Option<nat>)
    ensures r.Some? ==> |t| == 5 && t[2] == ':'
  {
    if |t| == 5 && t[2] == ':' && AllDigits(t[..2]) && AllDigits(t[3..])
    then Some(Value(t[..2]) * 60 + Value(t[3..]))
    else None
  }

  /** Below 100 minutes the clock reads "MM:SS", and reading it back gives the seconds. */
  lemma FormatTimeRoundTrip(seconds: nat)
    requires seconds < 6000
    ensures |FormatTime(seconds)| == 5
    ensures ParseTime(FormatTime(seconds)) == Some(seconds)
  {
    Format02dSpec(seconds / 60);
    Format02dSpec(seconds % 60);
    var m := Format02d(seconds / 60);
    var x := Format02d(seconds % 60);
    var t := m + ":" + x;
    assert t[..2] == m && t[3..] == x;
  }

  datatype Message = AiQuestion(index: nat) | UserMessage(content: string)

  datatype Response = Response(questionId: int, answer: string, timeSpent: int)

  class Page {
    var isRecording: bool
    var interviewStarted: bool
    var currentQuestionIndex: nat
    var messages: seq<Message>
    var currentResponse: string
    var sessionTime: nat
    var responses: seq<Response>
    /** The list handed to `onEndInterview`, once called. */
    var ended: Option<seq<Response>>

    predicate Valid()
      reads this
    {
      currentQuestionIndex < QuestionCount
    }

    constructor ()
      ensures Valid() && !isRecording && !interviewStarted && currentQuestionIndex == 0
      ensures messages == [] && currentResponse == "" && sessionTime == 0 && responses == [] && ended == None
    {
      isRecording := false;
      interviewStarted := false;
      currentQuestionIndex := 0;
      messages := [];
      currentResponse := "";
      sessionTime := 0;
      responses := [];
      ended := None;
    }

    method StartInterview()
      modifies this
      ensures interviewStarted && isRecording
      ensures currentQuestionIndex == old(currentQuestionIndex) && responses == old(responses) && messages == old(messages)
      ensures currentResponse == old(currentResponse) && sessionTime == old(sessionTime) && ended == old(ended)
      ensures Valid() == old(Valid())
    {
      interviewStarted := true;
      isRecording := true;
    }

    /** `pauseInterview` flips recording; nothing else changes. */
    method PauseInterview()
      modifies this
      ensures isRecording == !old(isRecording)
      ensures interviewStarted == old(interviewStarted) && currentQuestionIndex == old(currentQuestionIndex)
      ensures responses == old(responses) && messages == old(messages) && sessionTime == old(sessionTime)
      ensures currentResponse == old(currentResponse) && ended == old(ended)
      ensures Valid() == old(Valid())
    {
      isRecording := !isRecording;
    }

    /** One tick of the session clock, which runs only while the interview is started. */
    method Tick()
      modifies this
      ensures sessionTime == old(sessionTime) + (if interviewStarted then 1 else 0)
      ensures interviewStarted == old(interviewStarted) && responses == old(responses) && messages == old(messages)
      ensures isRecording == old(isRecording) && currentQuestionIndex == old(currentQuestionIndex)
      ensures currentResponse == old(currentResponse) && ended == old(ended)
      ensures Valid() == old(Valid())
    {
      if interviewStarted {
        sessionTime := sessionTime + 1;
      }
    }

    /** The delayed effect that posts the current question as an AI message. */
    method AskQuestion()
      requires Valid()
      modifies this
      ensures interviewStarted ==> messages == old(messages) + [AiQuestion(currentQuestionIndex)]
      ensures !interviewStarted ==> messages == old(messages)
      ensures Valid()
      ensures currentQuestionIndex == old(currentQuestionIndex) && responses == old(responses)
      ensures isRecording == old(isRecording) && interviewStarted == old(interviewStarted)
      ensures currentResponse == old(currentResponse) && sessionTime == old(sessionTime) && ended == old(ended)
    {
      if interviewStarted {
        messages := messages + [AiQuestion(currentQuestionIndex)];
      }
    }

    /** `endInterview`: stops the interview and hands over the responses recorded so far. */
    method EndInterview()
      modifies this
      ensures !interviewStarted && !isRecording && ended == Some(responses)
      ensures responses == old(responses) && messages == old(messages) && currentQuestionIndex == old(currentQuestionIndex)
      ensures currentResponse == old(currentResponse) && sessionTime == old(sessionTime)
      ensures Valid() == old(Valid())
    {
      interviewStarted := false;
      isRecording := false;
      ended := Some(responses);
    }

    /**
     * `submitResponse` as written: on the last question it ends the interview with the list
     * from before this submit, because `endInterview` reads the render's `responses`.
     */
    method SubmitResponseAsWritten(mockTime: int)
      requires Valid()
      modifies this
      ensures Valid()
      ensures IsBlank(old(currentResponse), JavaScript) ==>
                responses == old(responses) && messages == old(messages) && ended == old(ended) &&
                currentQuestionIndex == old(currentQuestionIndex) && currentResponse == old(currentResponse) &&
                interviewStarted == old(interviewStarted) && isRecording == old(isRecording)
      ensures sessionTime == old(sessionTime)
      ensures !IsBlank(old(currentResponse), JavaScript) ==>
                responses == old(responses) + [Response(old(currentQuestionIndex) + 1, old(currentResponse), mockTime)] &&
                messages == old(messages) + [UserMessage(old(currentResponse))] && currentResponse == ""
      ensures !IsBlank(old(currentResponse), JavaScript) && old(currentQuestionIndex) < QuestionCount - 1 ==>
                currentQuestionIndex == old(currentQuestionIndex) + 1 && ended == old(ended) &&
                interviewStarted == old(interviewStarted) && isRecording == old(isRecording)
      ensures !IsBlank(old(currentResponse), JavaScript) && old(currentQuestionIndex) == QuestionCount - 1 ==>
                ended == Some(old(responses)) && !interviewStarted && !isRecording &&
                currentQuestionIndex == old(currentQuestionIndex)
    {
      if IsBlank(currentResponse, JavaScript) {
        return;
      }
      var before := responses;
      messages := messages + [UserMessage(currentResponse)];
      responses := responses + [Response(currentQuestionIndex + 1, currentResponse, mockTime)];
      currentResponse := "";
      if currentQuestionIndex < QuestionCount - 1 {
        currentQuestionIndex := currentQuestionIndex + 1;
      } else {
        interviewStarted := false;
        isRecording := false;
        ended := Some(before);
      }
    }

    /**
     * `submitResponse` handing the updated list to `onEndInterview`: a non-blank response adds
     * one user message and one response for question index + 1, then moves on or ends.
     */
    method SubmitResponse(mockTime: int)
      requires Valid()
      modifies this
      ensures Valid()
      ensures IsBlank(old(currentResponse), JavaScript) ==>
                responses == old(responses) && messages == old(messages) && ended == old(ended) &&
                currentQuestionIndex == old(currentQuestionIndex) && currentResponse == old(currentResponse) &&
                interviewStarted == old(interviewStarted) && isRecording == old(isRecording)
      ensures sessionTime == old(sessionTime)
      ensures !IsBlank(old(currentResponse), JavaScript) ==>
                responses == old(responses) + [Response(old(currentQuestionIndex) + 1, old(currentResponse), mockTime)] &&
                messages == old(messages) + [UserMessage(old(currentResponse))] && currentResponse == ""
      ensures !IsBlank(old(currentResponse), JavaScript) && old(currentQuestionIndex) < QuestionCount - 1 ==>
                currentQuestionIndex == old(currentQuestionIndex) + 1 && ended == old(ended) &&
                interviewStarted == old(interviewStarted) && isRecording == old(isRecording)
      ensures !IsBlank(old(currentResponse), JavaScript) && old(currentQuestionIndex) == QuestionCount - 1 ==>
                ended == Some(responses) && !interviewStarted && !isRecording &&
                currentQuestionIndex == old(currentQuestionIndex)
    {
      if IsBlank(currentResponse, JavaScript) {
        return;
      }
      messages := messages + [UserMessage(currentResponse)];
      responses := responses + [Response(currentQuestionIndex + 1, currentResponse, mockTime)];
      currentResponse := "";
      if currentQuestionIndex < QuestionCount - 1 {
        currentQuestionIndex := currentQuestionIndex + 1;
      } else {
        EndInterview();
      }
    }
  }

  /** As written, answering the last question ends the interview without that answer. */
  method LastAnswerLostAsWritten(page: Page, answer: string, mockTime: int)
    requires page.Valid() && page.currentQuestionIndex == QuestionCount - 1
    requires !IsBlank(answer, JavaScript)
    modifies page
    ensures page.responses == old(page.responses) + [Response(QuestionCount, answer, mockTime)]
    ensures page.ended == Some(old(page.responses))
  {
    page.currentResponse := answer;
    page.SubmitResponseAsWritten(mockTime);
  }

  /** Handing over the updated list, the last answer is the last response the results receive. */
  method LastAnswerKept(page: Page, answer: string, mockTime: int)
    requires page.Valid() && page.currentQuestionIndex == QuestionCount - 1
    requires !IsBlank(answer, JavaScript)
    modifies page
    ensures page.ended.Some? && |page.ended.value| == |old(page.responses)| + 1
    ensures page.ended.value[|page.ended.value| - 1] == Response(QuestionCount, answer, mockTime)
  {
    page.currentResponse := answer;
    page.SubmitResponse(mockTime);
  }
}

/**
 * The mock interview page: five fixed questions, one answer box, and a list of responses that
 * grows by one every time the candidate moves on. The clock is a parameter (milliseconds).
 */
module InterviewPage {
  import opened Wrappers

  datatype QuestionType = Behavioral | Technical | Situational

  datatype Question = Question(id: int, kind: QuestionType, category: string)

  datatype Response = Response(questionId: int, answer: string, timeSpent: int)

  /** `mockQuestions`, without their texts. */
  const MockQuestions: seq<Question> := [
    Question(1, Behavioral, "Problem Solving"),
    Question(2, Technical, "Technical Skills"),
    Question(3, Behavioral, "Teamwork"),
    Question(4, Situational, "Leadership"),
    Question(5, Behavioral, "Growth Mindset")
  ]

  /** `Math.floor(elapsed / 1000)`: whole seconds, rounded down (also for a negative elapsed time). */
  function Seconds(elapsedMs: int): (t: int)
    ensures t * 1000 <= elapsedMs < (t + 1) * 1000
  {
    elapsedMs / 1000
  }

  /** The progress bar: (index + 1) / number of questions, in percent. */
  function Progress(index: nat): (p: real)
    requires index < |MockQuestions|
    ensures 0.0 < p <= 100.0
    ensures p == 100.0 <==> index == |MockQuestions| - 1
  {
    (index + 1) as real / |MockQuestions| as real * 100.0
  }

  /** `getTypeColor`. */
  function TypeColor(kind: QuestionType): (c: string)
    ensures c != "bg-gray-100 text-gray-800"
    ensures kind.Technical? <==> c == "bg-green-100 text-green-800"
  {
    match kind
    case Behavioral => "bg-blue-100 text-blue-800"
    case Technical => "bg-green-100 text-green-800"
    case Situational => "bg-purple-100 text-purple-800"
  }

  class Page {
    var currentQuestionIndex: nat
    var currentAnswer: string
    var responses: seq<Response>
    var questionStartTime: int
    var isRecording: bool
    /** The list handed to `onCompleteInterview`, once called. */
    var completed: Option<seq<Response>>

    predicate Valid()
      reads this
    {
      currentQuestionIndex < |MockQuestions|
    }

    constructor (now: int)
      ensures Valid() && currentQuestionIndex == 0 && currentAnswer == "" && responses == []
      ensures questionStartTime == now && !isRecording && completed == None
    {
      currentQuestionIndex := 0;
      currentAnswer := "";
      responses := [];
      questionStartTime := now;
      isRecording := false;
      completed := None;
    }

    /**
     * `handleNextQuestion` at time `now`, followed by the effect that restarts the question
     * clock when the index changes.
     */
    method HandleNextQuestion(now: int)
      requires Valid()
      modifies this
      ensures Valid()
      ensures responses == old(responses) +
                [Response(MockQuestions[old(currentQuestionIndex)].id, old(currentAnswer), Seconds(now - old(questionStartTime)))]
      ensures old(currentQuestionIndex) == |MockQuestions| - 1 ==>
                completed == Some(responses) && currentQuestionIndex == old(currentQuestionIndex) &&
                currentAnswer == old(currentAnswer) && questionStartTime == old(questionStartTime)
      ensures old(currentQuestionIndex) < |MockQuestions| - 1 ==>
                currentQuestionIndex == old(currentQuestionIndex) + 1 && currentAnswer == "" &&
                questionStartTime == now && completed == old(completed)
      ensures isRecording == old(isRecording)
    {
      var response := Response(MockQuestions[currentQuestionIndex].id, currentAnswer, Seconds(now - questionStartTime));
      responses := responses + [response];
      if currentQuestionIndex == |MockQuestions| - 1 {
        completed := Some(responses);
      } else {
        currentQuestionIndex := currentQuestionIndex + 1;
        currentAnswer := "";
        questionStartTime := now;
      }
    }

    /** The Previous button: back one question, if there is one, with an empty answer box. */
    method PreviousQuestion(now: int)
      requires Valid()
      modifies this
      ensures Valid()
      ensures old(currentQuestionIndex) > 0 ==>
                currentQuestionIndex == old(currentQuestionIndex) - 1 && currentAnswer == "" && questionStartTime == now
      ensures old(currentQuestionIndex) == 0 ==>
                currentQuestionIndex == 0 && currentAnswer == old(currentAnswer) && questionStartTime == old(questionStartTime)
      ensures responses == old(responses) && completed == old(completed) && isRecording == old(isRecording)
    {
      if currentQuestionIndex > 0 {
        currentQuestionIndex := currentQuestionIndex - 1;
        currentAnswer := "";
        questionStartTime := now;
      }
    }

    method ToggleRecording()
      modifies this
      ensures isRecording == !old(isRecording)
      ensures currentQuestionIndex == old(currentQuestionIndex) && responses == old(responses)
      ensures currentAnswer == old(currentAnswer) && completed == old(completed)
      ensures questionStartTime == old(questionStartTime)
      ensures Valid() == old(Valid())
    {
      isRecording := !isRecording;
    }
  }

  /** Going back and answering again records the question twice; nothing is replaced. */
  method AnswerTwice(page: Page, t0: int, t1: int, t2: int)
    requires page.Valid() && page.currentQuestionIndex == 0 && page.responses == []
    modifies page
    ensures |page.responses| == 2
    ensures page.responses[0].questionId == page.responses[1].questionId == 1
  {
    page.HandleNextQuestion(t0);
    page.PreviousQuestion(t1);
    page.HandleNextQuestion(t2);
  }
}

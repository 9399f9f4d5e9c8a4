/**
 * The web client's interview screen: the answer draft fed by speech, the word counter, the
 * facial alerts it polls, and the state updates of submitting an answer and of ending the
 * interview early. Server replies are inputs; camera, speech and facial side effects of the
 * handlers are not modelled.
 */
module InterviewScreen {
  import opened Wrappers
  import opened Text
  import opened Decimal
  import FileType

  // ---------------------------------------------------------------- pure view logic

  /**
   * The speech-sync effect: a non-empty transcript is appended to the draft unless the draft
   * already ends with it.
   */
  function SyncDraft(draft: string, transcript: string): (r: string)
    ensures transcript != [] ==> EndsWith(r, transcript)
    ensures StartsWith(r, draft)
    ensures transcript == [] || EndsWith(draft, transcript) ==> r == draft
  {
    if transcript != [] && !EndsWith(draft, transcript) then draft + transcript else draft
  }

  /** Running the effect again with the same transcript changes nothing. */
  lemma SyncDraftIdempotent(draft: string, transcript: string)
    ensures SyncDraft(SyncDraft(draft, transcript), transcript) == SyncDraft(draft, transcript)
  {
    var r := SyncDraft(draft, transcript);
    if transcript != [] && !EndsWith(draft, transcript) {
      assert r[|r| - |transcript|..] == transcript;
    }
  }

  /** A non-empty run of characters that are not whitespace. */
  predicate IsWord(w: string) {
    w != [] && forall k :: 0 <= k < |w| ==> !IsJsSpace(w[k])
  }

  /** The length of the leading run of non-whitespace characters. */
  function RunLength(s: string): (n: nat)
    ensures n <= |s| && IsBlankFree(s[..n])
    ensures n < |s| ==> IsJsSpace(s[n])
  {
    if s == [] || IsJsSpace(s[0]) then 0
    else
      var m := RunLength(s[1..]);
      assert s[..m + 1] == [s[0]] + s[1..][..m];
      m + 1
  }

  predicate IsBlankFree(s: string) {
    forall k :: 0 <= k < |s| ==> !IsJsSpace(s[k])
  }

  /** `s.split(/\s+/).filter(Boolean)`: the maximal runs of non-whitespace, in order. */
  function Words(s: string): (ws: seq<string>)
    ensures forall i :: 0 <= i < |ws| ==> IsWord(ws[i])
    decreases |s|
  {
    if s == [] then []
    else if IsJsSpace(s[0]) then Words(s[1..])
    else
      var n := RunLength(s);
      [s[..n]] + Words(s[n..])
  }

  /** `wordCount`: 0 for a blank draft, else the number of words of the trimmed draft. */
  function WordCount(draft: string): nat {
    var t := JsTrim(draft);
    if t == [] then 0 else |Words(t)|
  }

  /** The counter shows 0 exactly for a draft made only of whitespace. */
  lemma WordCountZero(draft: string)
    ensures WordCount(draft) == 0 <==> IsBlank(draft, JavaScript)
  {
    var t := JsTrim(draft);
    if t != [] {
      assert !IsJsSpace(t[0]);
    }
  }

  /** Words joined by single spaces. */
  function Unwords(ws: seq<string>): string {
    if ws == [] then "" else if |ws| == 1 then ws[0] else ws[0] + " " + Unwords(ws[1..])
  }

  /** Splitting words joined by spaces gives the words back. */
  lemma {:induction false} WordsOfUnwords(ws: seq<string>)
    requires forall i :: 0 <= i < |ws| ==> IsWord(ws[i])
    ensures Words(Unwords(ws)) == ws
  {
    if |ws| == 1 {
      WordsOfWord(ws[0], "");
      assert ws[0] + "" == ws[0];
    } else if |ws| > 1 {
      var rest := Unwords(ws[1..]);
      WordsOfUnwords(ws[1..]);
      WordsOfWord(ws[0], " " + rest);
      assert ws[0] + " " + rest == ws[0] + (" " + rest);
      assert (" " + rest)[1..] == rest;
      assert [ws[0]] + ws[1..] == ws;
    }
  }

  /** A word followed by text that starts with whitespace (or nothing) is split off first. */
  lemma {:induction false} WordsOfWord(w: string, rest: string)
    requires IsWord(w)
    requires rest == [] || IsJsSpace(rest[0])
    ensures Words(w + rest) == [w] + Words(rest)
  {
    var s := w + rest;
    RunOfWord(w, rest);
    assert s[..|w|] == w && s[|w|..] == rest;
    if rest != [] {
      assert Words(rest) == Words(rest[1..]);
    }
  }

  lemma {:induction false} RunOfWord(w: string, rest: string)
    requires IsBlankFree(w)
    requires rest == [] || IsJsSpace(rest[0])
    ensures RunLength(w + rest) == |w|
  {
    if w != [] {
      assert (w + rest)[1..] == w[1..] + rest;
      RunOfWord(w[1..], rest);
    }
  }

  /** `getAttentionColor`. */
  function AttentionColor(score: real): (c: string)
    ensures c == "text-green-600" <==> score >= 0.7
    ensures c == "text-red-600" <==> score < 0.5
    ensures c == "text-yellow-600" <==> 0.5 <= score < 0.7
  {
    if score >= 0.7 then "text-green-600" else if score >= 0.5 then "text-yellow-600" else "text-red-600"
  }

  /** Newly polled alert messages go in front; the list is cut to 5. */
  function MergeAlerts(prev: seq<string>, incoming: seq<string>): (r: seq<string>)
    ensures incoming == [] ==> r == prev
    ensures incoming != [] ==> |r| == (if |incoming| + |prev| < 5 then |incoming| + |prev| else 5)
    ensures incoming != [] ==> r == (incoming + prev)[..|r|]
    ensures |prev| <= 5 ==> |r| <= 5
  {
    if incoming == [] then prev else FirstN(incoming + prev, 5)
  }

  // ---------------------------------------------------------------- the Enter key

  /** The answer box is disabled while the current question is answered or a submit runs. */
  predicate TextareaEnabled(index: int, answeredCount: nat, answering: bool) {
    !(index < answeredCount) && !answering
  }

  /** The Enter handler's guard as written: it asks for an answered question. */
  predicate EnterSubmitsAsWritten(draft: string, answering: bool, index: int, answeredCount: nat) {
    JsTrim(draft) != [] && !answering && index < answeredCount
  }

  /** Keys only reach an enabled textarea, where the written guard is always false. */
  lemma EnterNeverSubmits(draft: string, answering: bool, index: int, answeredCount: nat)
    requires TextareaEnabled(index, answeredCount, answering)
    ensures !EnterSubmitsAsWritten(draft, answering, index, answeredCount)
  {
  }

  /** The guard the Submit button uses: a non-blank draft on an unanswered question, no submit running. */
  predicate EnterSubmits(draft: string, answering: bool, index: int, answeredCount: nat) {
    JsTrim(draft) != [] && !answering && !(index < answeredCount)
  }

  /** With the corrected guard, Enter in the enabled box submits any non-blank draft. */
  lemma EnterSubmitsWhenEnabled(draft: string, answering: bool, index: int, answeredCount: nat)
    ensures EnterSubmits(draft, answering, index, answeredCount) <==>
              TextareaEnabled(index, answeredCount, answering) && !IsBlank(draft, JavaScript)
  {
  }

  // ---------------------------------------------------------------- the screen

  /** What the server answered to a submit, and to the question fetched after it. */
  datatype SubmitOutcome =
    | SubmitFailed(message: string)
    | Finished(score: real, currentScore: real)
    | NextQuestion(score: real, currentScore: real, nextIndex: int, question: string)
    | NextQuestionFailed(score: real, currentScore: real, message: string)

  class Screen {
    var sessionId: Option<int>
    var questions: seq<string>
    var scores: seq<real>
    var currentQuestionIndex: int
    /** `currentScore`: `null` until the first graded answer. */
    var currentScore: Option<real>
    var answerDraft: string
    var answering: bool
    var facialAlerts: seq<string>
    var error: Option<string>
    /** `window.sessionStorage`. */
    var storage: map<string, string>
    /** Whether the screen handed over to the results page. */
    var finished: bool

    ghost predicate Valid()
      reads this
    {
      |facialAlerts| <= 5
    }

    constructor ()
      ensures Valid() && sessionId == None && questions == [] && scores == [] && currentQuestionIndex == 0
      ensures currentScore == None && answerDraft == "" && !answering && facialAlerts == [] && error == None
      ensures storage == map[] && !finished
    {
      sessionId := None;
      questions := [];
      scores := [];
      currentQuestionIndex := 0;
      currentScore := None;
      answerDraft := "";
      answering := false;
      facialAlerts := [];
      error := None;
      storage := map[];
      finished := false;
    }

    /** The resume picker: a refused file only sets the error. Answers whether it is sent. */
    method ChooseFile(name: string) returns (sent: bool)
      requires Valid()
      modifies this
      ensures Valid()
      ensures sent <==> FileType.Accepted(name)
      ensures !sent ==> error == Some("Please upload PDF, DOCX, or TXT files only")
      ensures sent ==> error == None
      ensures sessionId == old(sessionId) && questions == old(questions) && scores == old(scores)
      ensures currentQuestionIndex == old(currentQuestionIndex) && currentScore == old(currentScore)
      ensures answerDraft == old(answerDraft) && answering == old(answering) && facialAlerts == old(facialAlerts)
      ensures storage == old(storage) && finished == old(finished)
    {
      if !FileType.Accepted(name) {
        error := Some("Please upload PDF, DOCX, or TXT files only");
        return false;
      }
      error := None;
      return true;
    }

    /** The speech-sync effect for a new transcript. */
    method OnTranscript(transcript: string)
      requires Valid()
      modifies this
      ensures Valid()
      ensures answerDraft == SyncDraft(old(answerDraft), transcript)
      ensures sessionId == old(sessionId) && questions == old(questions) && scores == old(scores)
      ensures currentQuestionIndex == old(currentQuestionIndex) && currentScore == old(currentScore)
      ensures answering == old(answering) && facialAlerts == old(facialAlerts) && error == old(error)
      ensures storage == old(storage) && finished == old(finished)
    {
      answerDraft := SyncDraft(answerDraft, transcript);
    }

    /** A successful facial-data poll: the messages of its recent alerts. */
    method OnFacialData(recentAlertMessages: seq<string>)
      requires Valid()
      modifies this
      ensures Valid()
      ensures facialAlerts == MergeAlerts(old(facialAlerts), recentAlertMessages)
      ensures sessionId == old(sessionId) && questions == old(questions) && scores == old(scores)
      ensures currentQuestionIndex == old(currentQuestionIndex) && currentScore == old(currentScore)
      ensures answerDraft == old(answerDraft) && answering == old(answering) && error == old(error)
      ensures storage == old(storage) && finished == old(finished)
    {
      facialAlerts := MergeAlerts(facialAlerts, recentAlertMessages);
    }

    /** `submitAnswer`, with the server's replies as `outcome`. */
    method SubmitAnswer(outcome: SubmitOutcome)
      requires Valid()
      modifies this
      ensures Valid()
      ensures var guard := old(sessionId).Some? && old(sessionId).value != 0 &&
                           old(currentQuestionIndex) < |old(questions)|;
              !guard ==> scores == old(scores) && currentScore == old(currentScore) && questions == old(questions) &&
                         currentQuestionIndex == old(currentQuestionIndex) && answerDraft == old(answerDraft) &&
                         error == old(error) && storage == old(storage) && finished == old(finished) &&
                         answering == old(answering)
      ensures var guard := old(sessionId).Some? && old(sessionId).value != 0 &&
                           old(currentQuestionIndex) < |old(questions)|;
              guard ==>
                match outcome
                case SubmitFailed(m) =>
                  scores == old(scores) && currentScore == old(currentScore) && questions == old(questions) &&
                  currentQuestionIndex == old(currentQuestionIndex) && answerDraft == old(answerDraft) &&
                  error == Some(m) && storage == old(storage) && finished == old(finished)
                case Finished(s, total) =>
                  scores == old(scores) + [s] && currentScore == Some(total) && questions == old(questions) &&
                  currentQuestionIndex == old(currentQuestionIndex) && answerDraft == old(answerDraft) &&
                  error == old(error) &&
                  storage == old(storage)["session_id" := IntToString(old(sessionId).value)] && finished
                case NextQuestion(s, total, next, q) =>
                  scores == old(scores) + [s] && currentScore == Some(total) && questions == old(questions) + [q] &&
                  currentQuestionIndex == next && answerDraft == "" &&
                  error == old(error) && storage == old(storage) && finished == old(finished)
                case NextQuestionFailed(s, total, m) =>
                  scores == old(scores) + [s] && currentScore == Some(total) && questions == old(questions) &&
                  currentQuestionIndex == old(currentQuestionIndex) && answerDraft == old(answerDraft) &&
                  error == Some(m) && storage == old(storage) && finished == old(finished)
      ensures old(sessionId).Some? && old(sessionId).value != 0 && old(currentQuestionIndex) < |old(questions)| ==>
                !answering
      ensures sessionId == old(sessionId) && facialAlerts == old(facialAlerts)
    {
      if sessionId.None? || sessionId.value == 0 || currentQuestionIndex >= |questions| {
        return;
      }
      answering := true;
      match outcome {
        case SubmitFailed(m) =>
          error := Some(m);
        case Finished(s, total) =>
          scores := scores + [s];
          currentScore := Some(total);
          storage := storage["session_id" := IntToString(sessionId.value)];
          finished := true;
        case NextQuestion(s, total, next, q) =>
          scores := scores + [s];
          currentScore := Some(total);
          questions := questions + [q];
          currentQuestionIndex := next;
          answerDraft := "";
        case NextQuestionFailed(s, total, m) =>
          scores := scores + [s];
          currentScore := Some(total);
          error := Some(m);
      }
      answering := false;
    }

    /** `endInterviewEarly`: remembers a session id, if any, and hands over to the results. */
    method EndInterviewEarly()
      requires Valid()
      modifies this
      ensures Valid() && finished
      ensures sessionId.Some? && sessionId.value != 0 ==>
                storage == old(storage)["session_id" := IntToString(sessionId.value)]
      ensures !(sessionId.Some? && sessionId.value != 0) ==> storage == old(storage)
      ensures sessionId == old(sessionId) && questions == old(questions) && scores == old(scores)
      ensures currentQuestionIndex == old(currentQuestionIndex) && currentScore == old(currentScore)
      ensures answerDraft == old(answerDraft) && answering == old(answering) && facialAlerts == old(facialAlerts)
      ensures error == old(error)
    {
      if sessionId.Some? && sessionId.value != 0 {
        storage := storage["session_id" := IntToString(sessionId.value)];
      }
      finished := true;
    }

    /** Enter without Shift in the answer box, with the corrected guard. */
    method OnEnterKey(outcome: SubmitOutcome) returns (submitted: bool)
      requires Valid()
      modifies this
      ensures Valid()
      ensures submitted <==> old(EnterSubmits(answerDraft, answering, currentQuestionIndex, |scores|))
      ensures !submitted ==>
                sessionId == old(sessionId) && questions == old(questions) && scores == old(scores) &&
                currentQuestionIndex == old(currentQuestionIndex) && currentScore == old(currentScore) &&
                answerDraft == old(answerDraft) && answering == old(answering) && facialAlerts == old(facialAlerts) &&
                error == old(error) && storage == old(storage) && finished == old(finished)
      // When it submits, the new state is the one `SubmitAnswer` gives for `outcome`.
      ensures var guard := old(sessionId).Some? && old(sessionId).value != 0 &&
                           old(currentQuestionIndex) < |old(questions)|;
              (submitted && !guard) ==>
                scores == old(scores) && currentScore == old(currentScore) && questions == old(questions) &&
                currentQuestionIndex == old(currentQuestionIndex) && answerDraft == old(answerDraft) &&
                error == old(error) && storage == old(storage) && finished == old(finished) &&
                answering == old(answering)
      ensures var guard := old(sessionId).Some? && old(sessionId).value != 0 &&
                           old(currentQuestionIndex) < |old(questions)|;
              (submitted && guard) ==>
                !answering &&
                match outcome
                case SubmitFailed(m) =>
                  scores == old(scores) && currentScore == old(currentScore) && questions == old(questions) &&
                  currentQuestionIndex == old(currentQuestionIndex) && answerDraft == old(answerDraft) &&
                  error == Some(m) && storage == old(storage) && finished == old(finished)
                case Finished(s, total) =>
                  scores == old(scores) + [s] && currentScore == Some(total) && questions == old(questions) &&
                  currentQuestionIndex == old(currentQuestionIndex) && answerDraft == old(answerDraft) &&
                  error == old(error) &&
                  storage == old(storage)["session_id" := IntToString(old(sessionId).value)] && finished
                case NextQuestion(s, total, next, q) =>
                  scores == old(scores) + [s] && currentScore == Some(total) && questions == old(questions) + [q] &&
                  currentQuestionIndex == next && answerDraft == "" &&
                  error == old(error) && storage == old(storage) && finished == old(finished)
                case NextQuestionFailed(s, total, m) =>
                  scores == old(scores) + [s] && currentScore == Some(total) && questions == old(questions) &&
                  currentQuestionIndex == old(currentQuestionIndex) && answerDraft == old(answerDraft) &&
                  error == Some(m) && storage == old(storage) && finished == old(finished)
      ensures submitted ==> sessionId == old(sessionId) && facialAlerts == old(facialAlerts)
    {
      if JsTrim(answerDraft) != [] && !answering && !(currentQuestionIndex < |scores|) {
        SubmitAnswer(outcome);
        return true;
      }
      return false;
    }
  }
}

/**
 * The interview back end's session bookkeeping, with the HTTP layer removed.
 *
 * `Server` holds the two global session stores: interview sessions (questions, submitted
 * answers, similarity scores and their running total) and facial-analysis sessions (a frame
 * counter, an alert list kept newest first and capped at 20, and attention and emotion
 * histories that keep the latest 100 and 200 entries). Each handler is a method or a function
 * of `Server` that answers with a body or with an error status and message.
 *
 * The question generator, the answer scorer, frame decoding, face detection, attention
 * estimation, emotion picking and the clock are outside the model: their results are
 * parameters.
 */
module Backend {
  import opened Wrappers
  import opened Text
  import opened Decimal
  import opened Numeric
  import opened Counter
  import ResumeScanner

  /** A handler's answer: a JSON body, or an error status with its "error" message. */
  datatype Reply<T> = Ok(body: T) | Fail(status: nat, error: string)

  function MinNat(a: nat, b: nat): nat { if a < b then a else b }

  // ---------------------------------------------------------------- resume upload

  const AllowedExtensions: seq<string> := [".pdf", ".docx", ".txt"]

  /**
   * The checks `upload_resume` makes before saving the file: a file part must be present,
   * its name non-empty, and the extension of the lower-cased name one of the allowed three.
   * An accepted upload answers with its file name.
   */
  function CheckUpload(filePart: Option<string>): (r: Reply<string>)
    ensures r.Ok? <==> filePart.Some? && filePart.value != "" &&
                       ResumeScanner.Extension(Lower(filePart.value)) in AllowedExtensions
    ensures r.Ok? ==> r.body == filePart.value
    ensures r.Fail? ==> r.status == 400
  {
    match filePart
    case None => Fail(400, "No file provided")
    case Some(name) =>
      if name == "" then Fail(400, "No file selected")
      else if ResumeScanner.Extension(Lower(name)) !in AllowedExtensions then
        Fail(400, "Only .pdf, .docx, .txt files are allowed")
      else Ok(name)
  }

  /**
   * A plain name `stem.ext` is accepted exactly when `ext`, in any letter case, is pdf, docx
   * or txt.
   */
  lemma UploadByExtension(stem: string, ext: string)
    requires stem != [] && '.' !in stem && '/' !in stem && '.' !in ext && '/' !in ext
    ensures CheckUpload(Some(stem + "." + ext)).Ok? <==> Lower(ext) in ["pdf", "docx", "txt"]
  {
    LowerName(stem, ext);
    ResumeScanner.ExtensionOfName(Lower(stem), Lower(ext));
    DottedAllowed(Lower(ext));
  }

  lemma LowerName(stem: string, ext: string)
    requires '.' !in stem && '/' !in stem && '.' !in ext && '/' !in ext
    ensures Lower(stem + "." + ext) == Lower(stem) + "." + Lower(ext)
    ensures |Lower(stem)| == |stem| && '.' !in Lower(stem) && '/' !in Lower(stem)
    ensures '.' !in Lower(ext) && '/' !in Lower(ext)
  {
    LowerAppend(stem + ".", ext);
    LowerAppend(stem, ".");
    LowerKeepsOthers(stem, '.');
    LowerKeepsOthers(stem, '/');
    LowerKeepsOthers(ext, '.');
    LowerKeepsOthers(ext, '/');
    assert Lower(".") == ".";
  }

  lemma DottedAllowed(e: string)
    ensures "." + e in AllowedExtensions <==> e in ["pdf", "docx", "txt"]
  {
    var d := "." + e;
    assert d[1..] == e;
    if d in AllowedExtensions {
      if d == ".pdf" { assert e == ".pdf"[1..]; }
      else if d == ".docx" { assert e == ".docx"[1..]; }
      else { assert e == ".txt"[1..]; }
    }
    if e in ["pdf", "docx", "txt"] {
      if e == "pdf" { assert d == ".pdf"; }
      else if e == "docx" { assert d == ".docx"; }
      else { assert d == ".txt"; }
    }
  }

  /** A file called just ".pdf" has no extension and is refused. */
  lemma BareExtensionRejected()
    ensures CheckUpload(Some(".pdf")) == Fail(400, "Only .pdf, .docx, .txt files are allowed")
  {
    var p := ".pdf";
    assert Lower(p) == p;
    assert p[..3] == ".pd" && p[..2] == ".p" && p[..1] == ".";
    assert ".pd"[..2] == ".p" && ".p"[..1] == ".";
    assert LastIndexOf(".", '.') == 0;
    assert LastIndexOf(".p", '.') == 0;
    assert LastIndexOf(".pd", '.') == 0;
    assert LastIndexOf(p, '.') == 0;
  }

  // ---------------------------------------------------------------- interview sessions

  datatype Question = Question(text: string, category: string)

  datatype AnswerRecord = AnswerRecord(question: string, userAnswer: string, score: real, isCorrect: bool)

  /** One entry of the interview store. `current` is set to 0 and never moved. */
  datatype Interview = Interview(questions: seq<Question>, current: nat, answers: seq<AnswerRecord>,
                                 scores: seq<real>, totalScore: real)

  function NewInterview(questions: seq<Question>): (s: Interview)
    requires questions != []
    ensures InterviewOk(s) && s.answers == [] && s.totalScore == 0.0
  {
    Interview(questions, 0, [], [], 0.0)
  }

  /**
   * What every stored interview satisfies: it has questions, one score per answer record,
   * each record carries its score, and the total is the sum of the scores.
   */
  predicate InterviewOk(s: Interview) {
    s.questions != [] && s.current == 0 && |s.answers| == |s.scores| &&
    (forall i :: 0 <= i < |s.answers| ==> s.answers[i].score == s.scores[i]) &&
    s.totalScore == Sum(s.scores)
  }

  datatype Started = Started(sessionId: int, totalQuestions: nat, firstQuestion: Question)

  datatype QuestionView = QuestionView(question: Question, position: int, totalQuestions: nat)

  /** The JSON fields `submit_answer` reads; 0, "" and a missing field are all falsy. */
  datatype Submission = Submission(sessionId: Option<int>, questionIndex: Option<int>, answer: Option<string>)

  predicate HasRequiredFields(req: Submission) {
    req.sessionId.Some? && req.sessionId.value != 0 && req.questionIndex.Some? &&
    req.answer.Some? && req.answer.value != ""
  }

  datatype Graded = Graded(score: real, isCorrect: bool, currentScore: real, isComplete: bool,
                           nextQuestionIndex: Option<int>)

  /** The index to ask next after answering `index`: none once the last question is answered. */
  function NextIndex(total: nat, index: int): (next: Option<int>)
    requires 0 <= index < total
    ensures next.None? <==> index + 1 >= total
    ensures next.Some? ==> next.value == index + 1 && 0 <= next.value < total
  {
    if index + 1 >= total then None else Some(index + 1)
  }

  /** The interview after answer `answer` to question `index` was scored. */
  function Answered(s: Interview, index: int, answer: string, score: real, isCorrect: bool): (t: Interview)
    requires 0 <= index < |s.questions|
    requires InterviewOk(s)
    ensures InterviewOk(t)
    ensures t.questions == s.questions
    ensures t.answers == s.answers + [AnswerRecord(s.questions[index].text, answer, score, isCorrect)]
    ensures t.totalScore == s.totalScore + score
  {
    SumAppend(s.scores, score);
    Interview(s.questions, s.current,
              s.answers + [AnswerRecord(s.questions[index].text, answer, score, isCorrect)],
              s.scores + [score], Sum(s.scores + [score]))
  }

  // ---------------------------------------------------------------- results

  datatype ResultRow = ResultRow(order: nat, question: string, userAnswer: string, similarity: real,
                                 isCorrect: bool, category: string, timeSpent: nat)

  datatype EmotionCount = EmotionCount(emotion: string, count: nat)

  datatype FacialChart = FacialChart(attention: seq<real>, emotions: seq<EmotionCount>, alerts: seq<Alert>,
                                     totalFrames: nat)

  datatype Completion = FullyCompleted(finalScore: real) | PartiallyCompleted(remaining: nat, message: string)

  datatype Results = Results(sessionId: int, status: string, score: real, correctnessPct: real,
                             correct: nat, answered: nat, total: nat, avgSimilarity: real,
                             avgAttention: real, dominantEmotion: string, rows: seq<ResultRow>,
                             facialData: FacialChart, completion: Completion)

  function CountCorrect(answers: seq<AnswerRecord>): (n: nat)
    ensures n <= |answers|
  {
    if answers == [] then 0
    else CountCorrect(answers[..|answers| - 1]) + (if answers[|answers| - 1].isCorrect then 1 else 0)
  }

  /** Every answer flagged correct is counted, and only those. */
  lemma {:induction false} CountCorrectBounds(answers: seq<AnswerRecord>)
    ensures (CountCorrect(answers) == |answers|) <==> forall i :: 0 <= i < |answers| ==> answers[i].isCorrect
    ensures (CountCorrect(answers) == 0) <==> forall i :: 0 <= i < |answers| ==> !answers[i].isCorrect
  {
    if answers != [] {
      var init := answers[..|answers| - 1];
      CountCorrectBounds(init);
      assert forall i :: 0 <= i < |init| ==> init[i] == answers[i];
    }
  }

  const DemoAttention: seq<real> := [0.8, 0.75, 0.85, 0.9, 0.7, 0.88, 0.82, 0.79, 0.91, 0.84]

  const DemoEmotions: seq<EmotionCount> :=
    [EmotionCount("Focused", 40), EmotionCount("Neutral", 30), EmotionCount("Confident", 20),
     EmotionCount("Concentrating", 10)]

  /** The emotion distribution of a facial session, capitalized, in first-seen order. */
  function EmotionCounts(emotions: seq<string>): (r: seq<EmotionCount>)
    ensures |r| == |Counts(emotions)|
    ensures forall i :: 0 <= i < |r| ==> r[i].count == multiset(emotions)[Counts(emotions)[i].0] &&
                                         r[i].emotion == Capitalize(Counts(emotions)[i].0)
    // The entries follow the first occurrences of their emotions.
    ensures forall i, j :: 0 <= i < j < |r| ==>
              FirstIndex(emotions, Counts(emotions)[i].0) < FirstIndex(emotions, Counts(emotions)[j].0)
  {
    var c := Counts(emotions);
    seq(|c|, i requires 0 <= i < |c| => EmotionCount(Capitalize(c[i].0), c[i].1))
  }

  function TotalCount(r: seq<EmotionCount>): nat {
    if r == [] then 0 else TotalCount(r[..|r| - 1]) + r[|r| - 1].count
  }

  /** The chart's emotion counts add up to the number of recorded emotions. */
  lemma EmotionCountsTotal(emotions: seq<string>)
    ensures TotalCount(EmotionCounts(emotions)) == |emotions|
  {
    CountsTotal(emotions);
    SameTotal(EmotionCounts(emotions), Counts(emotions));
  }

  lemma {:induction false} SameTotal(r: seq<EmotionCount>, c: seq<(string, nat)>)
    requires |r| == |c| && forall i :: 0 <= i < |r| ==> r[i].count == c[i].1
    ensures TotalCount(r) == SumCounts(c)
  {
    if r != [] {
      SumCountsFront(c);
      SameTotal(r[..|r| - 1], c[..|c| - 1]);
      SumCountsBack(c);
    }
  }

  lemma {:induction false} SumCountsBack(c: seq<(string, nat)>)
    requires c != []
    ensures SumCounts(c) == SumCounts(c[..|c| - 1]) + c[|c| - 1].1
  {
    if |c| > 1 {
      SumCountsBack(c[1..]);
      assert c[1..][..|c| - 2] == c[..|c| - 1][1..];
      assert c[..|c| - 1][0] == c[0];
    } else {
      assert c[..|c| - 1] == [];
    }
  }

  lemma DemoEmotionsTotal()
    ensures TotalCount(DemoEmotions) == 100
  {
    var d := DemoEmotions;
    assert d[..3][..2] == d[..2] && d[..2][..1] == d[..1] && d[..1][..0] == [];
    assert TotalCount(d[..1]) == 40;
    assert TotalCount(d[..2]) == 70;
    assert TotalCount(d[..3]) == 90;
  }

  /** The facial part of the results: the session's data, or fixed demo data without one. */
  function ChartOf(fac: Option<Facial>, answered: nat): (chart: FacialChart)
    ensures fac.Some? ==> chart.attention == fac.value.attention && chart.alerts == fac.value.alerts &&
                          chart.totalFrames == fac.value.frames &&
                          TotalCount(chart.emotions) == |fac.value.emotions|
    ensures fac.Some? ==> chart.emotions == EmotionCounts(fac.value.emotions)
    ensures fac.None? ==> chart.emotions == DemoEmotions
    ensures fac.None? ==> chart.attention == DemoAttention[..MinNat(answered, 10)] && chart.alerts == [] &&
                          chart.totalFrames == 25 * answered && TotalCount(chart.emotions) == 100
  {
    match fac
    case Some(f) =>
      EmotionCountsTotal(f.emotions);
      FacialChart(f.attention, EmotionCounts(f.emotions), f.alerts, f.frames)
    case None =>
      DemoEmotionsTotal();
      FacialChart(FirstN(DemoAttention, answered), DemoEmotions, [], answered * 25)
  }

  function PartialMessage(answered: nat, total: nat): string {
    "Interview ended early. Completed " + IntToString(answered) + "/" + IntToString(total) + " questions."
  }

  /** One row per answer, paired with the question at the same position. */
  function ResultRows(s: Interview): (rows: seq<ResultRow>)
    requires |s.answers| <= |s.questions| && |s.scores| == |s.answers|
    ensures |rows| == |s.answers|
    ensures forall i :: 0 <= i < |rows| ==>
              rows[i] == ResultRow(i + 1, s.questions[i].text, s.answers[i].userAnswer, s.scores[i],
                                   s.answers[i].isCorrect, s.questions[i].category, 45)
  {
    seq(|s.answers|, i requires 0 <= i < |s.answers| =>
          ResultRow(i + 1, s.questions[i].text, s.answers[i].userAnswer, s.scores[i],
                    s.answers[i].isCorrect, s.questions[i].category, 45))
  }

  /** Completed when every question has an answer; otherwise how many remain. */
  function CompletionOf(answered: nat, total: nat, score: real): (c: Completion)
    requires 0 < answered <= total
    ensures c.FullyCompleted? <==> answered == total
    ensures c.FullyCompleted? ==> c.finalScore == score
    ensures c.PartiallyCompleted? ==> 0 < c.remaining == total - answered && c.message == PartialMessage(answered, total)
  {
    if answered == total then FullyCompleted(score) else PartiallyCompleted(total - answered, PartialMessage(answered, total))
  }

  /**
   * The results of an interview with between one answer and one answer per question. Score,
   * correctness percentage and average similarity are exact: the rounding to 2, 1 and 4
   * decimals is not modelled.
   */
  function Summarize(id: int, s: Interview, fac: Option<Facial>): (b: Results)
    requires InterviewOk(s) && 0 < |s.answers| <= |s.questions|
    ensures b.sessionId == id && b.answered == |s.answers| && b.total == |s.questions|
    ensures b.correct == CountCorrect(s.answers) && b.correct <= b.answered
    ensures b.correctnessPct == b.correct as real / b.answered as real * 100.0
    ensures 0.0 <= b.correctnessPct <= 100.0
    ensures b.avgSimilarity == Mean(s.scores) && b.score == 10.0 * b.avgSimilarity
    ensures b.status == "completed" <==> b.answered == b.total
    ensures b.status != "completed" ==> b.status == "partial"
    ensures b.completion == CompletionOf(b.answered, b.total, b.score)
    ensures b.rows == ResultRows(s) && b.facialData == ChartOf(fac, b.answered)
    ensures b.avgAttention == 0.82 && b.dominantEmotion == "focused"
  {
    var n := |s.answers|;
    var total := |s.questions|;
    var correct := CountCorrect(s.answers);
    var q := correct as real / n as real;
    RatioAtMostOne(correct, n);
    var avg := Sum(s.scores) / n as real;
    Results(id, if n == total then "completed" else "partial", avg * 10.0, q * 100.0, correct, n, total,
            avg, 0.82, "focused", ResultRows(s), ChartOf(fac, n), CompletionOf(n, total, avg * 10.0))
  }

  /**
   * `get_interview_results` for a stored session. Rows are built for every answer from the
   * question at the same position, so a session with more answers than questions (a question
   * answered twice) fails with the list-index error.
   */
  function ResultsOf(id: int, s: Interview, fac: Option<Facial>): (r: Reply<Results>)
    requires InterviewOk(s)
    ensures s.answers == [] ==> r == Fail(400, "No answers submitted for this session")
    ensures s.answers != [] && |s.answers| > |s.questions| ==>
              r == Fail(500, "Failed to get results: list index out of range")
    ensures r.Ok? <==> 0 < |s.answers| <= |s.questions|
    ensures r.Ok? ==> r.body == Summarize(id, s, fac)
  {
    if s.answers == [] then Fail(400, "No answers submitted for this session")
    else if |s.answers| > |s.questions| then Fail(500, "Failed to get results: list index out of range")
    else Ok(Summarize(id, s, fac))
  }

  /** Similarity scores within [0, 1] give an overall score within [0, 10]. */
  lemma ResultsScoreBounds(id: int, s: Interview, fac: Option<Facial>)
    requires InterviewOk(s)
    requires forall i :: 0 <= i < |s.scores| ==> 0.0 <= s.scores[i] <= 1.0
    requires ResultsOf(id, s, fac).Ok?
    ensures 0.0 <= ResultsOf(id, s, fac).body.score <= 10.0
  {
    MeanBetween(s.scores, 0.0, 1.0);
  }

  // ---------------------------------------------------------------- facial sessions

  datatype Alert = Alert(kind: string, message: string, timestamp: string)

  /** One entry of the facial store (its never-used disturbance list is left out). */
  datatype Facial = Facial(startTime: string, emotions: seq<string>, attention: seq<real>, frames: nat,
                           active: bool, alerts: seq<Alert>)

  function NewFacial(now: string): (f: Facial)
    ensures FacialOk(f) && f.frames == 0 && f.active
  {
    Facial(now, [], [], 0, true, [])
  }

  /**
   * What every stored facial session satisfies: at most one alert per frame and at most 20,
   * and histories holding one entry per frame up to their caps.
   */
  predicate FacialOk(f: Facial) {
    |f.alerts| <= MinNat(f.frames, 20) &&
    |f.attention| == MinNat(f.frames, 100) &&
    |f.emotions| == MinNat(f.frames, 200)
  }

  /** What the vision helpers report for a frame that decoded. */
  datatype FrameReading = FrameReading(faces: nat, attention: real, emotion: string)

  datatype FrameReply = FrameReply(framesProcessed: nat, attention: real, emotion: string, faceCount: nat,
                                   alert: Option<Alert>)

  /** A decoded frame with no face or with several faces raises an alert; nothing else does. */
  function FrameAlert(frame: Option<FrameReading>, now: string): (a: Option<Alert>)
    ensures a.Some? <==> frame.Some? && frame.value.faces != 1
    ensures a.Some? ==> a.value.timestamp == now &&
                        (a.value.kind == "no_face" <==> frame.value.faces == 0) &&
                        (a.value.kind == "multiple_faces" <==> frame.value.faces > 1)
  {
    match frame
    case None => None
    case Some(f) =>
      if f.faces > 1 then Some(Alert("multiple_faces", IntToString(f.faces) + " faces detected", now))
      else if f.faces == 0 then Some(Alert("no_face", "No face detected", now))
      else None
  }

  /** Appends `x` to a history that keeps only its latest `cap` entries (`h[-cap:]`). */
  function Push<T>(h: seq<T>, x: T, cap: nat): (r: seq<T>)
    requires cap > 0
    ensures |r| == MinNat(|h| + 1, cap)
    ensures r == (h + [x])[|h| + 1 - |r|..]
    ensures r[|r| - 1] == x
  {
    LastN(h + [x], cap)
  }

  /** Puts the alert, if there is one, in front and keeps the first `cap` alerts. */
  function PushAlert(alerts: seq<Alert>, a: Option<Alert>, cap: nat): (r: seq<Alert>)
    requires cap > 0
    ensures |r| == MinNat(|alerts| + (if a.Some? then 1 else 0), cap)
    ensures a.Some? ==> r[0] == a.value && r[1..] == alerts[..|r| - 1]
    ensures a.None? ==> r == alerts[..|r|]
  {
    if a.Some? then
      var r := FirstN([a.value] + alerts, cap);
      assert r[1..] == ([a.value] + alerts)[1..|r|];
      r
    else FirstN(alerts, cap)
  }

  /**
   * One `process_frame` on a session: an undecodable frame counts with attention 0.7, no
   * face and "neutral"; the attention history stores the score rounded to 3 decimals.
   */
  function FrameStep(f: Facial, frame: Option<FrameReading>, now: string): (r: (Facial, FrameReply))
    ensures r.0.frames == f.frames + 1 && r.1.framesProcessed == r.0.frames
    ensures r.0.startTime == f.startTime && r.0.active == f.active
    ensures r.1.alert == FrameAlert(frame, now)
    ensures r.0.alerts == PushAlert(f.alerts, r.1.alert, 20)
    ensures r.0.attention == Push(f.attention, Round3(r.1.attention), 100)
    ensures r.0.emotions == Push(f.emotions, r.1.emotion, 200)
    ensures frame.None? ==> r.1.attention == 0.7 && r.1.emotion == "neutral" && r.1.faceCount == 0
    ensures frame.Some? ==> r.1.attention == frame.value.attention && r.1.emotion == frame.value.emotion &&
                            r.1.faceCount == frame.value.faces
  {
    var alert := FrameAlert(frame, now);
    var attention := if frame.Some? then frame.value.attention else 0.7;
    var emotion := if frame.Some? then frame.value.emotion else "neutral";
    var faces := if frame.Some? then frame.value.faces else 0;
    var g := f.(emotions := Push(f.emotions, emotion, 200),
                attention := Push(f.attention, Round3(attention), 100),
                frames := f.frames + 1,
                alerts := PushAlert(f.alerts, alert, 20));
    (g, FrameReply(g.frames, attention, emotion, faces, alert))
  }

  /** A frame keeps a session's bounds: at most 20 alerts, one per frame, and capped histories. */
  lemma FrameStepKeepsOk(f: Facial, frame: Option<FrameReading>, now: string)
    requires FacialOk(f)
    ensures FacialOk(FrameStep(f, frame, now).0)
  {
    var g := FrameStep(f, frame, now).0;
    assert |g.alerts| <= |f.alerts| + 1;
  }

  datatype FacialStarted = FacialStarted(sessionId: int, message: string, status: string)

  /**
   * The least id at or above `start` that is not in use. `start_facial_analysis` takes
   * `len(store) + 1` outright; see `StartFacialAsWritten`.
   */
  function FreshFrom(keys: set<int>, start: int): (id: int)
    ensures id >= start && id !in keys
    ensures forall k :: start <= k < id ==> k in keys
    decreases |set k | k in keys && k >= start|
  {
    if start in keys then
      FewerAbove(keys, start);
      FreshFrom(keys, start + 1)
    else start
  }

  lemma FewerAbove(keys: set<int>, start: int)
    requires start in keys
    ensures |set k | k in keys && k >= start + 1| < |set k | k in keys && k >= start|
  {
    var above := set k | k in keys && k >= start + 1;
    assert (set k | k in keys && k >= start) == above + {start};
  }

  /** With ids 1 .. n in use, the fresh id is n + 1, the id the handler takes. */
  lemma FreshIdAfterContiguous(keys: set<int>, n: nat)
    requires forall k :: k in keys <==> 1 <= k <= n
    ensures FreshFrom(keys, n + 1) == n + 1
  {
  }

  /** `start_facial_analysis` as written: the id is the store size plus one, used or not. */
  function StartFacialAsWritten(sessions: map<int, Facial>, now: string): (r: (map<int, Facial>, int))
    ensures r.1 == |sessions| + 1
    ensures r.0.Keys == sessions.Keys + {r.1} && r.0[r.1] == NewFacial(now)
    ensures forall k :: k in sessions && k != r.1 ==> r.0[k] == sessions[k]
  {
    var id := |sessions| + 1;
    (sessions[id := NewFacial(now)], id)
  }

  /**
   * A frame posted for session 2 before any analysis was started creates session 2; starting
   * an analysis then takes id 2 again and wipes that session's frames.
   */
  lemma FacialIdCollision(s: Facial, t: string)
    requires s.frames > 0
    ensures var (after, id) := StartFacialAsWritten(map[2 := s], t);
            id == 2 && |after| == 1 && after[2].frames == 0
  {
    assert |map[2 := s]| == 1;
    assert map[2 := s][2 := NewFacial(t)] == map[2 := NewFacial(t)];
  }

  /** The corrected start takes id 3 instead and leaves session 2 alone. */
  lemma FacialIdNoCollision(s: Facial, t: string)
    ensures var m := map[2 := s];
            var id := FreshFrom(m.Keys, |m| + 1);
            id == 3 && m[id := NewFacial(t)][2] == s && |m[id := NewFacial(t)]| == 2
  {
    var m := map[2 := s];
    assert |m| == 1 && m.Keys == {2};
  }

  datatype FacialView = FacialView(sessionId: int, active: bool, frames: nat, recentAlerts: seq<Alert>,
                                   currentAttention: real, currentEmotion: string)

  /**
   * `get_facial_data` as written: the last emotion is read with no guard, so a session with no
   * frame yet makes the handler raise and the server answer 500.
   */
  function FacialDataAsWritten(id: int, sessions: map<int, Facial>): (r: Reply<FacialView>)
    ensures id in sessions && sessions[id].emotions == [] ==> r == Fail(500, "Internal Server Error")
    ensures r.Ok? ==> r == FacialData(id, sessions)
  {
    if id !in sessions then Fail(404, "Session not found")
    else if sessions[id].emotions == [] then Fail(500, "Internal Server Error")
    else FacialData(id, sessions)
  }

  /**
   * `get_facial_data` with the default the handler names for a missing emotion list:
   * "neutral" when no emotion is recorded.
   */
  function FacialData(id: int, sessions: map<int, Facial>): (r: Reply<FacialView>)
    ensures id !in sessions <==> r == Fail(404, "Session not found")
    ensures r.Ok? ==>
              var f := sessions[id];
              r.body.sessionId == id && r.body.active == f.active && r.body.frames == f.frames &&
              |r.body.recentAlerts| == MinNat(|f.alerts|, 5) && r.body.recentAlerts == f.alerts[..|r.body.recentAlerts|] &&
              (f.attention == [] ==> r.body.currentAttention == 0.0) &&
              (f.attention != [] ==> r.body.currentAttention == f.attention[|f.attention| - 1]) &&
              (f.emotions == [] ==> r.body.currentEmotion == "neutral") &&
              (f.emotions != [] ==> r.body.currentEmotion == f.emotions[|f.emotions| - 1])
  {
    if id !in sessions then Fail(404, "Session not found")
    else
      var f := sessions[id];
      Ok(FacialView(id, f.active, f.frames, FirstN(f.alerts, 5),
                    if f.attention == [] then 0.0 else f.attention[|f.attention| - 1],
                    if f.emotions == [] then "neutral" else f.emotions[|f.emotions| - 1]))
  }

  /** Polling a session right after it was started crashes as written and not when corrected. */
  lemma FacialDataOnFreshSession(now: string)
    ensures FacialDataAsWritten(1, map[1 := NewFacial(now)]).Fail?
    ensures FacialData(1, map[1 := NewFacial(now)]).Ok?
    ensures FacialData(1, map[1 := NewFacial(now)]).body.currentEmotion == "neutral"
  {
  }

  datatype FacialSummary = FacialSummary(frames: nat, alertsCount: nat, lastEmotion: string, avgAttention: real)

  /** The summary `stop_facial_analysis` returns. */
  function SummaryOf(f: Facial): (s: FacialSummary)
    ensures s.frames == f.frames && s.alertsCount == |f.alerts|
    ensures FacialOk(f) ==> s.alertsCount <= 20 && s.alertsCount <= s.frames
    ensures s.lastEmotion == if f.emotions == [] then "neutral" else f.emotions[|f.emotions| - 1]
    ensures s.avgAttention == Mean(f.attention)
  {
    FacialSummary(f.frames, |f.alerts|, if f.emotions == [] then "neutral" else f.emotions[|f.emotions| - 1],
                  Mean(f.attention))
  }

  /** Attention scores within [lo, hi] average to a value within [lo, hi]; none gives 0. */
  lemma SummaryAttentionBounds(f: Facial, lo: real, hi: real)
    requires forall i :: 0 <= i < |f.attention| ==> lo <= f.attention[i] <= hi
    ensures f.attention == [] ==> SummaryOf(f).avgAttention == 0.0
    ensures f.attention != [] ==> lo <= SummaryOf(f).avgAttention <= hi
  {
    if f.attention != [] {
      MeanBetween(f.attention, lo, hi);
    }
  }

  // ---------------------------------------------------------------- PDF report

  /** The PDF report shows an answer longer than 150 characters as its first 147 and "...". */
  function TruncateAnswer(s: string): (r: string)
    ensures |s| <= 150 ==> r == s
    ensures |s| > 150 ==> |r| == 150 && r[..147] == s[..147] && r[147..] == "..."
    ensures |r| <= 150 || r == s
  {
    if |s| > 150 then s[..147] + "..." else s
  }

  // ---------------------------------------------------------------- the server

  class Server {
    /** `interview_sessions`. */
    var interviews: map<int, Interview>
    /** `facial_sessions`. */
    var facial: map<int, Facial>
    /** Whether the facial-analysis module loaded at start-up. */
    const analyzerAvailable: bool

    /** Interview ids are exactly 1 .. n; every stored session keeps its invariant. */
    ghost predicate Valid()
      reads this
    {
      (forall id :: id in interviews <==> 1 <= id <= |interviews|) &&
      (forall id :: id in interviews ==> InterviewOk(interviews[id])) &&
      (forall id :: id in facial ==> FacialOk(facial[id]))
    }

    constructor (analyzerAvailable: bool)
      ensures Valid()
      ensures interviews == map[] && facial == map[] && this.analyzerAvailable == analyzerAvailable
    {
      interviews := map[];
      facial := map[];
      this.analyzerAvailable := analyzerAvailable;
    }

    /** `start_interview` with the generated questions as input. */
    method StartInterview(questions: seq<Question>) returns (r: Reply<Started>)
      requires Valid()
      modifies this
      ensures Valid() && facial == old(facial)
      ensures questions == [] ==>
                r == Fail(400, "No questions available for the extracted skills") && interviews == old(interviews)
      ensures questions != [] ==>
                var id := |old(interviews)| + 1;
                id !in old(interviews) &&
                r == Ok(Started(id, |questions|, questions[0])) &&
                interviews == old(interviews)[id := NewInterview(questions)]
    {
      if questions == [] {
        return Fail(400, "No questions available for the extracted skills");
      }
      var id := |interviews| + 1;
      interviews := interviews[id := NewInterview(questions)];
      r := Ok(Started(id, |questions|, questions[0]));
    }

    /** `get_question`. */
    function GetQuestion(id: int, index: int): (r: Reply<QuestionView>)
      reads this
      ensures id !in interviews ==> r == Fail(404, "Session not found")
      ensures id in interviews && !(0 <= index < |interviews[id].questions|) ==>
                r == Fail(400, "Question index out of range")
      ensures r.Ok? <==> id in interviews && 0 <= index < |interviews[id].questions|
      ensures r.Ok? ==> r.body == QuestionView(interviews[id].questions[index], index + 1,
                                               |interviews[id].questions|)
    {
      if id !in interviews then Fail(404, "Session not found")
      else
        var qs := interviews[id].questions;
        if index < 0 || index >= |qs| then Fail(400, "Question index out of range")
        else Ok(QuestionView(qs[index], index + 1, |qs|))
    }

    /** `submit_answer`, with the scorer's similarity and verdict as inputs. */
    method SubmitAnswer(req: Submission, score: real, isCorrect: bool) returns (r: Reply<Graded>)
      requires Valid()
      modifies this
      ensures Valid() && facial == old(facial)
      ensures !HasRequiredFields(req) ==>
                r == Fail(400, "Missing required fields") && interviews == old(interviews)
      ensures HasRequiredFields(req) && req.sessionId.value !in old(interviews) ==>
                r == Fail(404, "Session not found") && interviews == old(interviews)
      ensures HasRequiredFields(req) && req.sessionId.value in old(interviews) &&
              !(0 <= req.questionIndex.value < |old(interviews)[req.sessionId.value].questions|) ==>
                r == Fail(400, "Question index out of range") && interviews == old(interviews)
      ensures r.Ok? ==>
                HasRequiredFields(req) && req.sessionId.value in old(interviews) &&
                var id := req.sessionId.value;
                var index := req.questionIndex.value;
                var s := old(interviews)[id];
                0 <= index < |s.questions| &&
                interviews == old(interviews)[id := Answered(s, index, req.answer.value, score, isCorrect)] &&
                var next := NextIndex(|s.questions|, index);
                r.body == Graded(score, isCorrect, interviews[id].totalScore, next.None?, next)
      ensures (HasRequiredFields(req) && req.sessionId.value in old(interviews) &&
               0 <= req.questionIndex.value < |old(interviews)[req.sessionId.value].questions|) ==> r.Ok?
      ensures r.Fail? ==> interviews == old(interviews)
    {
      if !HasRequiredFields(req) {
        return Fail(400, "Missing required fields");
      }
      var id := req.sessionId.value;
      var index := req.questionIndex.value;
      if id !in interviews {
        return Fail(404, "Session not found");
      }
      var s := interviews[id];
      if index < 0 || index >= |s.questions| {
        return Fail(400, "Question index out of range");
      }
      var t := Answered(s, index, req.answer.value, score, isCorrect);
      interviews := interviews[id := t];
      var next := NextIndex(|s.questions|, index);
      r := Ok(Graded(score, isCorrect, t.totalScore, next.None?, next));
    }

    /** `get_interview_results`: the session's results, with its facial session if one shares the id. */
    function GetInterviewResults(id: int): (r: Reply<Results>)
      requires Valid()
      reads this
      ensures id !in interviews ==> r == Fail(404, "Session " + IntToString(id) + " not found")
      ensures id in interviews ==>
                r == ResultsOf(id, interviews[id], if id in facial then Some(facial[id]) else None)
    {
      if id !in interviews then Fail(404, "Session " + IntToString(id) + " not found")
      else ResultsOf(id, interviews[id], if id in facial then Some(facial[id]) else None)
    }

    /**
     * `start_facial_analysis` with a fresh id; `analyzerStarts` is whether the analysis module
     * started. The session is created before the module is asked, so it stays on failure.
     */
    method StartFacialAnalysis(now: string, analyzerStarts: bool) returns (r: Reply<FacialStarted>)
      requires Valid()
      modifies this
      ensures Valid() && interviews == old(interviews)
      ensures var id := FreshFrom(old(facial).Keys, |old(facial)| + 1);
              id !in old(facial) && facial == old(facial)[id := NewFacial(now)] &&
              (!analyzerAvailable ==> r == Ok(FacialStarted(id, "Facial analysis module not available", "simulation"))) &&
              (analyzerAvailable && !analyzerStarts ==> r == Fail(500, "Failed to start facial analysis")) &&
              (analyzerAvailable && analyzerStarts ==> r == Ok(FacialStarted(id, "Facial analysis started", "active")))
    {
      var id := FreshFrom(facial.Keys, |facial| + 1);
      facial := facial[id := NewFacial(now)];
      if !analyzerAvailable {
        return Ok(FacialStarted(id, "Facial analysis module not available", "simulation"));
      }
      if !analyzerStarts {
        return Fail(500, "Failed to start facial analysis");
      }
      r := Ok(FacialStarted(id, "Facial analysis started", "active"));
    }

    /** `process_frame`; a session that does not exist yet is created first. */
    method ProcessFrame(id: int, frame: Option<FrameReading>, now: string) returns (reply: FrameReply)
      requires Valid()
      modifies this
      ensures Valid() && interviews == old(interviews)
      ensures var before := if id in old(facial) then old(facial)[id] else NewFacial(now);
              var step := FrameStep(before, frame, now);
              facial == old(facial)[id := step.0] && reply == step.1
    {
      var before := if id in facial then facial[id] else NewFacial(now);
      var step := FrameStep(before, frame, now);
      FrameStepKeepsOk(before, frame, now);
      facial := facial[id := step.0];
      reply := step.1;
    }

    /** `get_facial_data`, with the missing-emotion default. */
    function GetFacialData(id: int): (r: Reply<FacialView>)
      reads this
      ensures r == FacialData(id, facial)
      ensures r.Ok? ==> |r.body.recentAlerts| <= 5
    {
      FacialData(id, facial)
    }

    /** `stop_facial_analysis`. */
    method StopFacialAnalysis(id: int) returns (r: Reply<FacialSummary>)
      requires Valid()
      modifies this
      ensures Valid() && interviews == old(interviews)
      ensures id !in old(facial) ==> r == Fail(404, "Session not found") && facial == old(facial)
      ensures id in old(facial) ==>
                facial == old(facial)[id := old(facial)[id].(active := false)] &&
                r == Ok(SummaryOf(old(facial)[id]))
    {
      if id !in facial {
        return Fail(404, "Session not found");
      }
      var f := facial[id];
      facial := facial[id := f.(active := false)];
      r := Ok(SummaryOf(f));
    }
  }

  /** The index `submit_answer` proposes next is one `get_question` serves. */
  lemma NextIndexIsServed(s: Interview, index: int)
    requires 0 <= index < |s.questions|
    requires NextIndex(|s.questions|, index).Some?
    ensures 0 <= NextIndex(|s.questions|, index).value < |s.questions|
  {
  }

  /** Answering the only question of an interview twice leaves results unobtainable. */
  lemma AnsweringTwiceBreaksResults(q: Question, a: string, x: real, y: real)
    ensures var s1 := Answered(NewInterview([q]), 0, a, x, true);
            var s2 := Answered(s1, 0, a, y, false);
            ResultsOf(1, s1, None).Ok? &&
            ResultsOf(1, s2, None) == Fail(500, "Failed to get results: list index out of range")
  {
  }
}

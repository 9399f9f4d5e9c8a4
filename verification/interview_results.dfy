/**
 * The results screen of the web client: the metrics it derives from the backend's per-question
 * results (correct count, accuracy, per-category performance, mean response time, grade), the
 * per-category chart, the per-row correctness mark and the score colour and badge thresholds.
 */
module InterviewResults {
  import opened Wrappers
  import opened Numeric

  /** One entry of the backend's `questions`; optional fields may be absent. */
  datatype QuestionResult = QuestionResult(
    order: int,
    question: string,
    similarityScore: Option<real>,
    category: Option<string>,
    timeSpent: Option<real>)

  /** `q.similarity_score || 0`. */
  function Similarity(q: QuestionResult): real {
    q.similarityScore.GetOr(0.0)
  }

  /** `(q.similarity_score || 0) > 0.5`. */
  predicate Correct(q: QuestionResult) {
    Similarity(q) > 0.5
  }

  /** `q.category || 'General'`. */
  function CategoryOf(q: QuestionResult): string {
    if q.category.Some? && q.category.value != "" then q.category.value else "General"
  }

  function TimeOf(q: QuestionResult): real {
    q.timeSpent.GetOr(0.0)
  }

  function CountCorrect(qs: seq<QuestionResult>): (n: nat)
    ensures n <= |qs|
  {
    if qs == [] then 0
    else CountCorrect(qs[..|qs| - 1]) + (if Correct(qs[|qs| - 1]) then 1 else 0)
  }

  function Times(qs: seq<QuestionResult>): (ts: seq<real>)
    ensures |ts| == |qs| && forall i :: 0 <= i < |qs| ==> ts[i] == TimeOf(qs[i])
  {
    if qs == [] then [] else [TimeOf(qs[0])] + Times(qs[1..])
  }

  // ---------------------------------------------------------------- per-category performance

  datatype CategoryStat = CategoryStat(total: nat, correct: nat)

  /** Categories in the order they were first met, with their tallies. */
  type Performance = seq<(string, CategoryStat)>

  function Keys(p: Performance): (ks: seq<string>)
    ensures |ks| == |p| && forall i :: 0 <= i < |p| ==> ks[i] == p[i].0
  {
    if p == [] then [] else [p[0].0] + Keys(p[1..])
  }

  predicate WellFormed(p: Performance) {
    DistinctKeys(p) && forall i :: 0 <= i < |p| ==> Plausible(p[i].1)
  }

  predicate DistinctKeys(p: Performance) {
    forall i, j :: 0 <= i < j < |p| ==> p[i].0 != p[j].0
  }

  predicate Plausible(s: CategoryStat) {
    1 <= s.total && s.correct <= s.total
  }

  /** The tally after one more question, correct or not. */
  function Count(s: CategoryStat, correct: bool): (r: CategoryStat)
    ensures r.total == s.total + 1 && r.correct == s.correct + (if correct then 1 else 0)
  {
    CategoryStat(s.total + 1, s.correct + if correct then 1 else 0)
  }

  /** The reducer's step for one question of category `cat`. */
  function Tally(p: Performance, cat: string, correct: bool): (r: Performance)
    requires WellFormed(p)
    ensures WellFormed(r)
    ensures Keys(r) == if cat in Keys(p) then Keys(p) else Keys(p) + [cat]
  {
    if p == [] then [(cat, Count(CategoryStat(0, 0), correct))]
    else
      WellFormedTail(p);
      if p[0].0 == cat then
        var r := [(cat, Count(p[0].1, correct))] + p[1..];
        WellFormedCons(r[0], p[1..]);
        r
      else
        var rest := Tally(p[1..], cat, correct);
        WellFormedCons(p[0], rest);
        [p[0]] + rest
  }

  lemma WellFormedTail(p: Performance)
    requires WellFormed(p) && p != []
    ensures WellFormed(p[1..]) && p[0].0 !in Keys(p[1..])
    ensures Keys(p) == [p[0].0] + Keys(p[1..])
  {
  }

  lemma WellFormedCons(x: (string, CategoryStat), q: Performance)
    requires WellFormed(q) && x.0 !in Keys(q) && Plausible(x.1)
    ensures WellFormed([x] + q)
    ensures Keys([x] + q) == [x.0] + Keys(q)
  {
    var r := [x] + q;
    forall i, j | 0 <= i < j < |r|
      ensures r[i].0 != r[j].0
    {
      assert r[j] == q[j - 1];
      if i > 0 {
        assert r[i] == q[i - 1];
      }
    }
  }

  /** The step counts the question in the tally of `cat` only, opening it at the end if new. */
  lemma TallyStats(p: Performance, cat: string, correct: bool)
    requires WellFormed(p)
    ensures forall i :: 0 <= i < |p| ==>
              Tally(p, cat, correct)[i].1 == if p[i].0 == cat then Count(p[i].1, correct) else p[i].1
    ensures cat !in Keys(p) ==> Tally(p, cat, correct)[|p|] == (cat, Count(CategoryStat(0, 0), correct))
  {
    forall i | 0 <= i < |p|
      ensures Tally(p, cat, correct)[i].1 == if p[i].0 == cat then Count(p[i].1, correct) else p[i].1
    {
      TallyAt(p, cat, correct, i);
    }
    if cat !in Keys(p) {
      TallyOpens(p, cat, correct);
    }
  }

  lemma {:induction false} TallyAt(p: Performance, cat: string, correct: bool, i: nat)
    requires WellFormed(p) && i < |p|
    ensures Tally(p, cat, correct)[i].1 == if p[i].0 == cat then Count(p[i].1, correct) else p[i].1
  {
    if p[0].0 != cat && i > 0 {
      TallyAt(p[1..], cat, correct, i - 1);
      assert p[1..][i - 1] == p[i];
    }
  }

  lemma {:induction false} TallyOpens(p: Performance, cat: string, correct: bool)
    requires WellFormed(p) && cat !in Keys(p)
    ensures Tally(p, cat, correct)[|p|] == (cat, Count(CategoryStat(0, 0), correct))
  {
    if p != [] {
      assert Keys(p) == [p[0].0] + Keys(p[1..]);
      TallyOpens(p[1..], cat, correct);
    }
  }

  /** Each question as its category and whether it counts as correct. */
  type Mark = (string, bool)

  /** The reduce over marks, in order. */
  function Tallies(ms: seq<Mark>): (p: Performance)
    ensures WellFormed(p)
  {
    if ms == [] then []
    else Tally(Tallies(ms[..|ms| - 1]), ms[|ms| - 1].0, ms[|ms| - 1].1)
  }

  function Marks(qs: seq<QuestionResult>): (ms: seq<Mark>)
    ensures |ms| == |qs| && forall i :: 0 <= i < |qs| ==> ms[i] == (CategoryOf(qs[i]), Correct(qs[i]))
  {
    seq(|qs|, i requires 0 <= i < |qs| => (CategoryOf(qs[i]), Correct(qs[i])))
  }

  /** The `categoryPerformance` reduce. */
  function CategoryPerformance(qs: seq<QuestionResult>): (p: Performance)
    ensures WellFormed(p)
  {
    Tallies(Marks(qs))
  }

  /** How many marks have category `cat`, and how many of those are correct. */
  function StatIn(ms: seq<Mark>, cat: string): CategoryStat {
    if ms == [] then CategoryStat(0, 0)
    else
      var s := StatIn(ms[..|ms| - 1], cat);
      if ms[|ms| - 1].0 == cat then Count(s, ms[|ms| - 1].1) else s
  }

  /** A category without a tally has no marks. */
  lemma {:induction false} TalliesAbsent(ms: seq<Mark>, cat: string)
    requires cat !in Keys(Tallies(ms))
    ensures StatIn(ms, cat) == CategoryStat(0, 0)
  {
    if ms != [] {
      var init := ms[..|ms| - 1];
      assert ms[|ms| - 1].0 in Keys(Tallies(ms));
      assert cat !in Keys(Tallies(init));
      TalliesAbsent(init, cat);
    }
  }

  /** Each category's tally counts exactly its marks and its correct ones. */
  lemma {:induction false} TalliesCount(ms: seq<Mark>)
    ensures forall i :: 0 <= i < |Tallies(ms)| ==> Tallies(ms)[i].1 == StatIn(ms, Tallies(ms)[i].0)
  {
    if ms != [] {
      var init := ms[..|ms| - 1];
      var m := ms[|ms| - 1];
      TalliesCount(init);
      var p := Tallies(init);
      TallyStats(p, m.0, m.1);
      var r := Tallies(ms);
      forall i | 0 <= i < |r|
        ensures r[i].1 == StatIn(ms, r[i].0)
      {
        if i < |p| {
          assert r[i].0 == Keys(r)[i] == Keys(p)[i] == p[i].0;
        } else {
          assert Keys(r) == Keys(p) + [m.0];
          assert r[i].0 == Keys(r)[i] == m.0;
          TalliesAbsent(init, m.0);
        }
      }
    }
  }

  function Totals(p: Performance): nat {
    if p == [] then 0 else p[0].1.total + Totals(p[1..])
  }

  function Corrects(p: Performance): nat {
    if p == [] then 0 else p[0].1.correct + Corrects(p[1..])
  }

  lemma {:induction false} TallySums(p: Performance, cat: string, correct: bool)
    requires WellFormed(p)
    ensures Totals(Tally(p, cat, correct)) == Totals(p) + 1
    ensures Corrects(Tally(p, cat, correct)) == Corrects(p) + (if correct then 1 else 0)
  {
    if p != [] && p[0].0 != cat {
      TallySums(p[1..], cat, correct);
      assert Tally(p, cat, correct)[1..] == Tally(p[1..], cat, correct);
    }
  }

  function CountTrue(ms: seq<Mark>): nat {
    if ms == [] then 0 else CountTrue(ms[..|ms| - 1]) + (if ms[|ms| - 1].1 then 1 else 0)
  }

  /** The category totals add up to the number of marks, the correct counts to the correct marks. */
  lemma {:induction false} TalliesSums(ms: seq<Mark>)
    ensures Totals(Tallies(ms)) == |ms|
    ensures Corrects(Tallies(ms)) == CountTrue(ms)
  {
    if ms != [] {
      TalliesSums(ms[..|ms| - 1]);
      TallySums(Tallies(ms[..|ms| - 1]), ms[|ms| - 1].0, ms[|ms| - 1].1);
    }
  }

  /** The per-category correct counts add up to `correctAnswers`, the totals to the question count. */
  lemma {:induction false} PerformanceSums(qs: seq<QuestionResult>)
    ensures Totals(CategoryPerformance(qs)) == |qs|
    ensures Corrects(CategoryPerformance(qs)) == CountCorrect(qs)
  {
    TalliesSums(Marks(qs));
    MarksCorrect(qs);
  }

  lemma {:induction false} MarksCorrect(qs: seq<QuestionResult>)
    ensures CountTrue(Marks(qs)) == CountCorrect(qs)
  {
    if qs != [] {
      MarksCorrect(qs[..|qs| - 1]);
      assert Marks(qs)[..|qs| - 1] == Marks(qs[..|qs| - 1]);
    }
  }

  // ---------------------------------------------------------------- metrics

  datatype Metrics = Metrics(
    correctAnswers: nat,
    totalQuestions: nat,
    accuracy: int,
    categoryPerformance: Performance,
    avgResponseTime: int,
    grade: string)

  /** `calculateEnhancedMetrics`; `None` when the backend sent no questions list. */
  function CalculateEnhancedMetrics(questions: Option<seq<QuestionResult>>): (m: Option<Metrics>)
    ensures m.None? <==> questions.None?
    ensures m.Some? ==> m.value.totalQuestions == |questions.value| && m.value.correctAnswers == CountCorrect(questions.value)
    ensures m.Some? ==> 0 <= m.value.accuracy <= 100 && WellFormed(m.value.categoryPerformance)
    ensures m.Some? && questions.value != [] ==>
              m.value.accuracy == Percent(CountCorrect(questions.value), |questions.value|)
    ensures m.Some? && questions.value == [] ==>
              m.value.accuracy == 0 && m.value.categoryPerformance == [] && m.value.avgResponseTime == 0
    ensures m.Some? ==> m.value.categoryPerformance == CategoryPerformance(questions.value)
    ensures m.Some? && questions.value != [] ==> m.value.avgResponseTime == Round(Mean(Times(questions.value)))
    ensures m.Some? ==> (m.value.grade == "Excellent" <==> questions.value != [] && 5 * CountCorrect(questions.value) >= 4 * |questions.value|)
    ensures m.Some? ==> (m.value.grade == "Good" <==>
                           (questions.value != [] && 5 * CountCorrect(questions.value) < 4 * |questions.value| &&
                            5 * CountCorrect(questions.value) >= 3 * |questions.value|))
    ensures m.Some? ==> (m.value.grade == "Needs Improvement" <==> 5 * CountCorrect(questions.value) < 3 * |questions.value| || questions.value == [])
  {
    match questions
    case None => None
    case Some(qs) =>
      if qs == [] then Some(Metrics(0, 0, 0, [], 0, "Needs Improvement"))
      else
        var correct := CountCorrect(qs);
        var accuracy := correct as real / |qs| as real * 100.0;
        GradeThresholds(correct, |qs|);
        Some(Metrics(
          correct,
          |qs|,
          Percent(correct, |qs|),
          CategoryPerformance(qs),
          Round(Mean(Times(qs))),
          Grade(accuracy)))
  }

  /** The grade for an accuracy percentage. */
  function Grade(accuracy: real): string {
    if accuracy >= 80.0 then "Excellent" else if accuracy >= 60.0 then "Good" else "Needs Improvement"
  }

  /** Accuracy 80 and 60 are four and three fifths of the questions. */
  lemma GradeThresholds(correct: nat, total: nat)
    requires 0 < total
    ensures Grade(correct as real / total as real * 100.0) == "Excellent" <==> 5 * correct >= 4 * total
    ensures Grade(correct as real / total as real * 100.0) == "Good" <==> 5 * correct < 4 * total && 5 * correct >= 3 * total
  {
    AtLeastFraction(correct as real, total as real, 0.8);
    AtLeastFraction(correct as real, total as real, 0.6);
  }

  lemma AtLeastFraction(c: real, t: real, k: real)
    requires t > 0.0
    ensures c / t * 100.0 >= k * 100.0 <==> c >= k * t
  {
    var x := c / t;
    assert x * t == c;
    if x >= k {
      assert x * t >= k * t;
    } else {
      assert x * t < k * t;
    }
  }

  /** The category chart's bars: each category's accuracy, rounded, in category order. */
  function CategoryChart(p: Performance): (bars: seq<(string, int)>)
    requires WellFormed(p)
    ensures |bars| == |p|
    ensures forall i :: 0 <= i < |p| ==> bars[i].0 == p[i].0 && 0 <= bars[i].1 <= 100
    ensures forall i :: 0 <= i < |p| && p[i].1.correct == p[i].1.total ==> bars[i].1 == 100
    ensures forall i :: 0 <= i < |p| && p[i].1.correct == 0 ==> bars[i].1 == 0
    ensures forall i :: 0 <= i < |p| ==> bars[i].1 == Percent(p[i].1.correct, p[i].1.total)
  {
    if p == [] then []
    else
      [(p[0].0, Percent(p[0].1.correct, p[0].1.total))] + CategoryChart(p[1..])
  }

  // ---------------------------------------------------------------- the answers table

  /** The table marks a row correct when its percentage score is above 50. */
  predicate RowMarkedCorrect(q: QuestionResult) {
    Similarity(q) * 100.0 > 50.0
  }

  /** The rows the table marks correct. */
  function MarkedRows(qs: seq<QuestionResult>): nat {
    if qs == [] then 0 else (if RowMarkedCorrect(qs[0]) then 1 else 0) + MarkedRows(qs[1..])
  }

  /** The table marks as many rows correct as the metrics count as correct answers. */
  lemma {:induction false} MarkedRowsAgree(qs: seq<QuestionResult>)
    ensures MarkedRows(qs) == CountCorrect(qs)
  {
    if qs != [] {
      MarkedRowsAgree(qs[1..]);
      CountCorrectFront(qs);
    }
  }

  lemma {:induction false} CountCorrectFront(qs: seq<QuestionResult>)
    requires qs != []
    ensures CountCorrect(qs) == (if Correct(qs[0]) then 1 else 0) + CountCorrect(qs[1..])
  {
    if |qs| > 1 {
      CountCorrectFront(qs[..|qs| - 1]);
      assert qs[..|qs| - 1][1..] == qs[1..][..|qs[1..]| - 1];
    }
  }

  /** `getScoreColor`. */
  function ScoreColor(score: real): (c: string)
    ensures c == "text-green-600" <==> score >= 60.0
    ensures c == "text-yellow-600" <==> 50.0 <= score < 60.0
    ensures c == "text-red-600" <==> score < 50.0
  {
    if score >= 60.0 then "text-green-600" else if score >= 50.0 then "text-yellow-600" else "text-red-600"
  }

  /** `getScoreBadgeVariant`. */
  function ScoreBadgeVariant(score: real): (v: string)
    ensures v == "default" <==> score >= 60.0
    ensures v == "secondary" <==> 50.0 <= score < 60.0
    ensures v == "destructive" <==> score < 50.0
  {
    if score >= 60.0 then "default" else if score >= 50.0 then "secondary" else "destructive"
  }

  /** Colour and badge always tell the same band. */
  lemma ColorMatchesBadge(score: real)
    ensures ScoreColor(score) == "text-green-600" <==> ScoreBadgeVariant(score) == "default"
    ensures ScoreColor(score) == "text-red-600" <==> ScoreBadgeVariant(score) == "destructive"
  {
  }
}

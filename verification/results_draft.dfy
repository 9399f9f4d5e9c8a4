/**
 * The earlier draft of the results screen: per-category scores from the backend's `is_correct`
 * flags, the rounded total score, and the badge, label and colour bands (85 and 70). The
 * per-category tallying is the one the results screen uses, fed with this draft's marks.
 */
module ResultsDraft {
  import opened Wrappers
  import opened Numeric
  import InterviewResults

  datatype QuestionResult = QuestionResult(
    order: int,
    question: string,
    isCorrect: Option<bool>,
    similarityScore: Option<real>,
    category: Option<string>)

  datatype BackendResults = BackendResults(sessionId: int, score: real, questions: seq<QuestionResult>)

  /** `r.category || 'General'`. */
  function CategoryOf(r: QuestionResult): string {
    if r.category.Some? && r.category.value != "" then r.category.value else "General"
  }

  /** Only an `is_correct` of `true` counts; absent counts as not correct. */
  function MarkOf(r: QuestionResult): InterviewResults.Mark {
    (CategoryOf(r), r.isCorrect == Some(true))
  }

  function MarksOf(rs: seq<QuestionResult>): (ms: seq<InterviewResults.Mark>)
    ensures |ms| == |rs| && forall i :: 0 <= i < |rs| ==> ms[i] == MarkOf(rs[i])
  {
    seq(|rs|, i requires 0 <= i < |rs| => MarkOf(rs[i]))
  }

  /**
   * `categoryScores`: the `byCat` loop, then one rounded percentage per category in the order
   * categories were first met; nothing for no results.
   */
  method CategoryScores(results: seq<QuestionResult>) returns (scores: seq<(string, int)>)
    ensures results == [] ==> scores == []
    ensures var byCat := InterviewResults.Tallies(MarksOf(results));
            |scores| == |byCat| &&
            forall i :: 0 <= i < |scores| ==>
              scores[i].0 == byCat[i].0 && 0 <= scores[i].1 <= 100 &&
              byCat[i].1 == InterviewResults.StatIn(MarksOf(results), byCat[i].0)
    ensures forall i :: 0 <= i < |scores| ==>
              var st := InterviewResults.StatIn(MarksOf(results), scores[i].0);
              st.total > 0 && scores[i].1 == Percent(st.correct, st.total)
    ensures scores == InterviewResults.CategoryChart(InterviewResults.Tallies(MarksOf(results)))
  {
    if |results| == 0 {
      return [];
    }
    var byCat: InterviewResults.Performance := [];
    var i := 0;
    while i < |results|
      invariant 0 <= i <= |results|
      invariant byCat == InterviewResults.Tallies(MarksOf(results)[..i])
    {
      TalliesStep(results, i);
      byCat := InterviewResults.Tally(byCat, CategoryOf(results[i]), results[i].isCorrect == Some(true));
      i := i + 1;
    }
    assert MarksOf(results)[..i] == MarksOf(results);
    scores := InterviewResults.CategoryChart(byCat);
    ScoresOfResults(results);
  }

  /** The chart of the results' tallies: one bounded bar per category, the rounded share correct. */
  lemma ScoresOfResults(results: seq<QuestionResult>)
    ensures var ms := MarksOf(results);
            var byCat := InterviewResults.Tallies(ms);
            var scores := InterviewResults.CategoryChart(byCat);
            |scores| == |byCat| &&
            (forall i :: 0 <= i < |scores| ==>
              scores[i].0 == byCat[i].0 && 0 <= scores[i].1 <= 100 &&
              byCat[i].1 == InterviewResults.StatIn(ms, byCat[i].0)) &&
            forall i :: 0 <= i < |scores| ==>
              var st := InterviewResults.StatIn(ms, scores[i].0);
              st.total > 0 && scores[i].1 == Percent(st.correct, st.total)
  {
    var ms := MarksOf(results);
    var byCat := InterviewResults.Tallies(ms);
    InterviewResults.TalliesCount(ms);
    ChartOfStats(ms, byCat, InterviewResults.CategoryChart(byCat));
  }

  /** Each bar of the chart of a reduce is the rounded share of its category's marks that are correct. */
  lemma ChartOfStats(ms: seq<InterviewResults.Mark>, byCat: InterviewResults.Performance, scores: seq<(string, int)>)
    requires InterviewResults.WellFormed(byCat) && scores == InterviewResults.CategoryChart(byCat)
    requires forall i :: 0 <= i < |byCat| ==> byCat[i].1 == InterviewResults.StatIn(ms, byCat[i].0)
    ensures forall i :: 0 <= i < |scores| ==>
              var st := InterviewResults.StatIn(ms, scores[i].0);
              st.total > 0 && scores[i].1 == Percent(st.correct, st.total)
  {
    forall i | 0 <= i < |scores|
      ensures var st := InterviewResults.StatIn(ms, scores[i].0);
              st.total > 0 && scores[i].1 == Percent(st.correct, st.total)
    {
      assert scores[i].0 == byCat[i].0;
      assert InterviewResults.Plausible(byCat[i].1);
    }
  }

  /** One more result tallies its mark into the categories of the results before it. */
  lemma TalliesStep(results: seq<QuestionResult>, i: nat)
    requires i < |results|
    ensures InterviewResults.Tallies(MarksOf(results)[..i + 1]) ==
            InterviewResults.Tally(InterviewResults.Tallies(MarksOf(results)[..i]), CategoryOf(results[i]), results[i].isCorrect == Some(true))
  {
    var ms := MarksOf(results);
    assert ms[..i + 1][..i] == ms[..i];
  }

  /** `totalScore`: the backend's score rounded, 0 before results arrive. */
  function TotalScore(backend: Option<BackendResults>): (t: int)
    ensures backend.None? ==> t == 0
    ensures backend.Some? ==> backend.value.score - 0.5 < t as real <= backend.value.score + 0.5
  {
    if backend.None? then 0 else Round(backend.value.score)
  }

  /** `getScoreColor`. */
  function ScoreColor(score: int): (c: string)
    ensures c == "text-green-600" <==> score >= 85
    ensures c == "text-yellow-600" <==> 70 <= score < 85
    ensures c == "text-red-600" <==> score < 70
  {
    if score >= 85 then "text-green-600" else if score >= 70 then "text-yellow-600" else "text-red-600"
  }

  /** `getScoreBadgeVariant`. */
  function ScoreBadgeVariant(score: int): (v: string)
    ensures v == "default" <==> score >= 85
    ensures v == "secondary" <==> 70 <= score < 85
    ensures v == "destructive" <==> score < 70
  {
    if score >= 85 then "default" else if score >= 70 then "secondary" else "destructive"
  }

  /** The badge text. */
  function BadgeLabel(totalScore: int, resultCount: nat, loading: bool): (l: string)
    ensures totalScore >= 85 ==> l == "Excellent"
    ensures 70 <= totalScore < 85 ==> l == "Good"
    ensures totalScore < 70 && resultCount > 0 ==> l == "Needs Improvement"
    ensures totalScore < 70 && resultCount == 0 ==> l == (if loading then "Loading" else "No Data")
  {
    if totalScore >= 85 then "Excellent"
    else if totalScore >= 70 then "Good"
    else if resultCount > 0 then "Needs Improvement"
    else if loading then "Loading"
    else "No Data"
  }

  /** Before results arrive the badge is destructive and says Loading or No Data. */
  lemma NoResultsBadge(loading: bool)
    ensures ScoreBadgeVariant(TotalScore(None)) == "destructive"
    ensures BadgeLabel(TotalScore(None), 0, loading) in ["Loading", "No Data"]
  {
  }

  /** A positive badge variant always comes with a positive label. */
  lemma BadgeAgreesWithLabel(backend: Option<BackendResults>, loading: bool)
    ensures var t := TotalScore(backend);
            var n := if backend.Some? then |backend.value.questions| else 0;
            (ScoreBadgeVariant(t) == "default" <==> BadgeLabel(t, n, loading) == "Excellent") &&
            (ScoreBadgeVariant(t) == "secondary" <==> BadgeLabel(t, n, loading) == "Good")
  {
  }
}

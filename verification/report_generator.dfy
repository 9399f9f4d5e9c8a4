/**
 * The facial module's interview report: the summary `generate_report` computes (mean
 * attention, each frame's strongest emotion, the most frequent of those) and the conversion
 * of numpy scalars to plain numbers before the report is written as JSON. Writing the file
 * and the generation timestamp are outside the model; the timestamp is a parameter.
 */
module ReportGenerator {
  import opened Wrappers
  import opened Numeric
  import opened Counter

  /** One frame's emotion scores, in the dictionary's order. */
  type EmotionScores = seq<(string, real)>

  /**
   * The fields of the interview data the report reads. A frame's emotion map is `None` when
   * it was missing; disturbances and cheating attempts are only counted.
   */
  datatype InterviewData = InterviewData(attentionScores: seq<real>, emotions: seq<Option<EmotionScores>>,
                                         framesAnalyzed: int, disturbances: nat, cheatingAttempts: nat,
                                         duration: Option<string>)

  datatype Metadata = Metadata(generatedAt: string, analysisDuration: string, totalFramesAnalyzed: int)

  datatype Summary = Summary(averageAttentionScore: real, dominantEmotion: string, disturbanceCount: nat,
                             cheatingAttemptCount: nat)

  datatype Report = Report(metadata: Metadata, summary: Summary, detailedAnalysis: InterviewData)

  /** `max(scores.items(), key=value)`: the first entry holding the largest score. */
  function ArgMax(m: EmotionScores): (i: nat)
    requires m != []
    ensures i < |m|
    ensures forall j :: 0 <= j < |m| ==> m[j].1 <= m[i].1
    ensures forall j :: 0 <= j < i ==> m[j].1 < m[i].1
  {
    if |m| == 1 then 0
    else
      var n := |m| - 1;
      var k := ArgMax(m[..n]);
      assert forall j :: 0 <= j < n ==> m[..n][j] == m[j];
      if m[n].1 > m[k].1 then n else k
  }

  /** A frame counts when its emotion map is present and non-empty. */
  predicate Usable(frame: Option<EmotionScores>) {
    frame.Some? && frame.value != []
  }

  /** The strongest emotion of each usable frame, in frame order. */
  function Dominants(frames: seq<Option<EmotionScores>>): (ds: seq<string>)
    ensures |ds| <= |frames|
  {
    if frames == [] then []
    else
      var f := frames[|frames| - 1];
      var before := Dominants(frames[..|frames| - 1]);
      if Usable(f) then before + [f.value[ArgMax(f.value)].0] else before
  }

  /** The positions of the usable frames. */
  function UsableAt(frames: seq<Option<EmotionScores>>): set<nat> {
    set i: nat | i < |frames| && Usable(frames[i])
  }

  /** Every usable frame contributes exactly one emotion. */
  lemma {:induction false} DominantsCount(frames: seq<Option<EmotionScores>>)
    ensures |Dominants(frames)| == |UsableAt(frames)|
  {
    if frames != [] {
      var n := |frames| - 1;
      var init := frames[..n];
      DominantsCount(init);
      if Usable(frames[n]) {
        assert UsableAt(frames) == UsableAt(init) + {n};
      } else {
        assert UsableAt(frames) == UsableAt(init);
      }
    }
  }

  /** With no usable frame there is no emotion, and the other way round. */
  lemma DominantsEmpty(frames: seq<Option<EmotionScores>>)
    ensures (Dominants(frames) == []) <==> forall i :: 0 <= i < |frames| ==> !Usable(frames[i])
  {
    DominantsCount(frames);
    if exists i :: 0 <= i < |frames| && Usable(frames[i]) {
      var i :| 0 <= i < |frames| && Usable(frames[i]);
      assert i in UsableAt(frames);
    } else {
      assert UsableAt(frames) == {};
    }
  }

  /** The emotions loop of `generate_report`. */
  method CollectDominants(frames: seq<Option<EmotionScores>>) returns (emotions: seq<string>)
    ensures emotions == Dominants(frames)
  {
    emotions := [];
    var i := 0;
    while i < |frames|
      invariant 0 <= i <= |frames|
      invariant emotions == Dominants(frames[..i])
    {
      assert frames[..i + 1][..i] == frames[..i];
      var f := frames[i];
      if f.Some? && f.value != [] {
        var k := ArgMax(f.value);
        emotions := emotions + [f.value[k].0];
      }
      i := i + 1;
    }
    assert frames[..i] == frames;
  }

  /**
   * `generate_report` without the file: the average attention (0 with no scores), the most
   * frequent per-frame dominant emotion ("unknown" with no usable frame), and the counts.
   */
  method GenerateReport(data: InterviewData, now: string) returns (report: Report)
    ensures report.summary.averageAttentionScore == Mean(data.attentionScores)
    ensures var ds := Dominants(data.emotions);
            (ds == [] ==> report.summary.dominantEmotion == "unknown") &&
            (ds != [] ==> report.summary.dominantEmotion in ds &&
                          forall e :: e in ds ==> multiset(ds)[e] <= multiset(ds)[report.summary.dominantEmotion])
    // On a tie, the emotion that occurs first wins.
    ensures var ds := Dominants(data.emotions);
            ds != [] ==>
              forall e :: e in ds && multiset(ds)[e] == multiset(ds)[report.summary.dominantEmotion] ==>
                FirstIndex(ds, report.summary.dominantEmotion) <= FirstIndex(ds, e)
    ensures report.summary.disturbanceCount == data.disturbances
    ensures report.summary.cheatingAttemptCount == data.cheatingAttempts
    ensures report.metadata == Metadata(now, data.duration.GetOr("unknown"), data.framesAnalyzed)
    ensures report.detailedAnalysis == data
  {
    var avg := 0.0;
    if data.attentionScores != [] {
      avg := Sum(data.attentionScores) / |data.attentionScores| as real;
    }
    var dominant := "unknown";
    if data.emotions != [] {
      var emotions := CollectDominants(data.emotions);
      var top := MostCommon(emotions);
      dominant := top.GetOr("unknown");
    }
    report := Report(Metadata(now, data.duration.GetOr("unknown"), data.framesAnalyzed),
                     Summary(avg, dominant, data.disturbances, data.cheatingAttempts), data);
  }

  /** Attention scores within [0, 1] give an average within [0, 1]. */
  lemma AverageAttentionBounds(scores: seq<real>)
    requires forall i :: 0 <= i < |scores| ==> 0.0 <= scores[i] <= 1.0
    ensures 0.0 <= Mean(scores) <= 1.0
  {
    if scores != [] {
      MeanBetween(scores, 0.0, 1.0);
    }
  }

  // ---------------------------------------------------------------- JSON conversion

  /** A JSON-like value that may hold numpy scalars. */
  datatype Value =
    | Dict(entries: seq<(string, Value)>)
    | List(items: seq<Value>)
    | NpFloat(f: real)
    | NpInt(n: int)
    | Float(x: real)
    | Int(i: int)
    | Str(s: string)
    | Bool(b: bool)
    | Null

  /** No numpy scalar anywhere inside. */
  predicate Native(v: Value) {
    match v
    case Dict(es) => forall i :: 0 <= i < |es| ==> Native(es[i].1)
    case List(xs) => forall i :: 0 <= i < |xs| ==> Native(xs[i])
    case NpFloat(_) => false
    case NpInt(_) => false
    case _ => true
  }

  /**
   * `r` has the shape of `v`: the same keys in the same order and the same list lengths;
   * numpy scalars become plain numbers of the same value and every other leaf is kept.
   */
  predicate SameShape(v: Value, r: Value) {
    match v
    case Dict(es) =>
      r.Dict? && |r.entries| == |es| &&
      forall i :: 0 <= i < |es| ==> r.entries[i].0 == es[i].0 && SameShape(es[i].1, r.entries[i].1)
    case List(xs) =>
      r.List? && |r.items| == |xs| && forall i :: 0 <= i < |xs| ==> SameShape(xs[i], r.items[i])
    case NpFloat(x) => r == Float(x)
    case NpInt(n) => r == Int(n)
    case _ => r == v
  }

  /** `_convert_to_serializable`. */
  function Convert(v: Value): (r: Value)
    ensures Native(r)
    ensures SameShape(v, r)
    ensures Native(v) ==> r == v
  {
    match v
    case Dict(es) =>
      Dict(seq(|es|, i requires 0 <= i < |es| => (es[i].0, Convert(es[i].1))))
    case List(xs) =>
      List(seq(|xs|, i requires 0 <= i < |xs| => Convert(xs[i])))
    case NpFloat(x) => Float(x)
    case NpInt(n) => Int(n)
    case _ => v
  }
}

/**
 * The job matcher: reads jobs with a comma-separated skills column, scores each job by the
 * share of its listed skills the candidate has, and ranks the jobs by that score.
 *
 * A CSV row enters as a map from column name to cell text; scores are exact reals.
 */
module Matcher {
  import opened Wrappers
  import opened Text
  import opened Numeric

  /** A job: its other columns, and its skills split into a list. */
  datatype Job = Job(fields: map<string, string>, skills: seq<string>)

  /** A ranked entry: the job's columns together with its score. */
  datatype Scored = Scored(job: Job, score: real)

  // ---------------------------------------------------------------------------------
  // Loading

  /** The skills cell split at every ',' with each piece stripped. */
  function SplitSkills(cell: string): (skills: seq<string>)
    ensures |skills| >= 1
    ensures forall k :: 0 <= k < |skills| ==> ',' !in skills[k] && IsTrimmed(skills[k], Python)
  {
    var pieces := SplitOn(cell, ',');
    var skills := seq(|pieces|, k requires 0 <= k < |pieces| => PyStrip(pieces[k]));
    assert forall k :: 0 <= k < |skills| ==> ',' !in skills[k] by {
      forall k | 0 <= k < |skills|
        ensures ',' !in skills[k]
      {
        StripSubstring(pieces[k], Python);
      }
    }
    skills
  }

  /** Stripping only removes characters. */
  lemma {:induction false} StripSubstring(s: string, f: Flavour)
    ensures forall c :: c in Strip(s, f) ==> c in s
  {
    var a := DropLeading(s, f);
    var b := DropTrailing(a, f);
    assert forall c :: c in b ==> c in a;
    assert forall c :: c in a ==> c in s;
  }

  /** A cell without commas is one skill. */
  lemma OneSkill(cell: string)
    requires ',' !in cell
    ensures SplitSkills(cell) == [PyStrip(cell)]
  {
    SplitOnNoSeparator(cell, ',');
  }

  /** Skills written without surrounding blanks are read back from their comma-joined cell. */
  lemma SplitSkillsJoin(skills: seq<string>)
    requires |skills| >= 1
    requires forall k :: 0 <= k < |skills| ==> ',' !in skills[k] && IsTrimmed(skills[k], Python)
    ensures SplitSkills(Join(skills, ',')) == skills
  {
    SplitOnJoin(skills, ',');
    forall k | 0 <= k < |skills|
      ensures PyStrip(skills[k]) == skills[k]
    {
      StripTrimmed(skills[k], Python);
    }
  }

  /** The job a row describes, or `None` when it has no skills column (a `KeyError`). */
  function RowJob(row: map<string, string>): Option<Job> {
    if "skills" in row then Some(Job(row - {"skills"}, SplitSkills(row["skills"]))) else None
  }

  /** All the rows' jobs, or `None` as soon as one row has no skills column. */
  function JobsOf(rows: seq<map<string, string>>): (r: Option<seq<Job>>)
    ensures r.Some? ==> |r.value| == |rows|
    ensures r.Some? <==> forall i :: 0 <= i < |rows| ==> "skills" in rows[i]
  {
    if rows == [] then Some([])
    else
      var init := JobsOf(rows[..|rows| - 1]);
      var last := RowJob(rows[|rows| - 1]);
      assert forall i :: 0 <= i < |rows| - 1 ==> rows[..|rows| - 1][i] == rows[i];
      if init.Some? && last.Some? then Some(init.value + [last.value]) else None
  }

  /** `load_jobs`, given the rows of the CSV file. */
  method LoadJobs(rows: seq<map<string, string>>) returns (jobs: Option<seq<Job>>)
    ensures jobs == JobsOf(rows)
    ensures jobs.Some? ==> forall i :: 0 <= i < |rows| ==>
      jobs.value[i].skills == SplitSkills(rows[i]["skills"]) && jobs.value[i].fields == rows[i] - {"skills"}
  {
    var acc: seq<Job> := [];
    for i := 0 to |rows|
      invariant JobsOf(rows[..i]) == Some(acc)
    {
      assert rows[..i + 1][..i] == rows[..i];
      if "skills" !in rows[i] {
        assert rows[i] == rows[..i + 1][i];
        return None;
      }
      acc := acc + [Job(rows[i] - {"skills"}, SplitSkills(rows[i]["skills"]))];
    }
    assert rows[..|rows|] == rows;
    JobsOfElements(rows);
    return Some(acc);
  }

  /** Each loaded job comes from the row at the same position. */
  lemma {:induction false} JobsOfElements(rows: seq<map<string, string>>)
    requires JobsOf(rows).Some?
    ensures forall i :: 0 <= i < |rows| ==>
      JobsOf(rows).value[i] == Job(rows[i] - {"skills"}, SplitSkills(rows[i]["skills"]))
  {
    if rows != [] {
      var init := rows[..|rows| - 1];
      JobsOfElements(init);
      assert forall i :: 0 <= i < |init| ==> init[i] == rows[i];
    }
  }

  // ---------------------------------------------------------------------------------
  // Scoring

  function SetOf(s: seq<string>): set<string> {
    set x | x in s
  }

  /** `match_skills`: the candidate's distinct skills among the job's, per listed job skill. */
  function MatchSkills(candidate: seq<string>, job: seq<string>): (r: real)
    ensures 0.0 <= r <= 1.0
    ensures job == [] ==> r == 0.0
  {
    if job == [] then 0.0
    else
      var matched := SetOf(candidate) * SetOf(job);
      SetOfSize(job);
      assert matched <= SetOf(job);
      SubsetSize(matched, SetOf(job));
      RatioAtMostOne(|matched|, |job|);
      |matched| as real / |job| as real
  }

  lemma SubsetSize<T>(a: set<T>, b: set<T>)
    requires a <= b
    ensures |a| <= |b|
    ensures |a| == |b| ==> a == b
    decreases a
  {
    if a != {} {
      var x :| x in a;
      SubsetSize(a - {x}, b - {x});
      assert a == (a - {x}) + {x};
      assert b == (b - {x}) + {x};
    }
  }

  /** A list has at least as many entries as distinct entries, and as many when none repeats. */
  lemma {:induction false} SetOfSize(s: seq<string>)
    ensures |SetOf(s)| <= |s|
    ensures |SetOf(s)| == |s| <==> NoDuplicates(s)
  {
    if s != [] {
      var init := s[..|s| - 1];
      var x := s[|s| - 1];
      SetOfSize(init);
      assert s == init + [x];
      assert SetOf(s) == SetOf(init) + {x};
      NoDuplicatesSnoc(init, x);
    }
  }

  lemma NoDuplicatesSnoc(init: seq<string>, x: string)
    ensures NoDuplicates(init + [x]) <==> NoDuplicates(init) && x !in init
  {
    var s := init + [x];
    if NoDuplicates(s) {
      forall i, j | 0 <= i < j < |init|
        ensures init[i] != init[j]
      {
        assert init[i] == s[i] && init[j] == s[j];
      }
      forall i | 0 <= i < |init|
        ensures init[i] != x
      {
        assert init[i] == s[i] && x == s[|init|];
      }
    }
    if NoDuplicates(init) && x !in init {
      forall i, j | 0 <= i < j < |s|
        ensures s[i] != s[j]
      {
        assert s[i] == init[i];
        if j < |init| {
          assert s[j] == init[j];
        }
      }
    }
  }

  /** A perfect score means the job lists each skill once and the candidate has them all. */
  lemma MatchSkillsFull(candidate: seq<string>, job: seq<string>)
    ensures MatchSkills(candidate, job) == 1.0 <==>
      job != [] && NoDuplicates(job) && forall x :: x in job ==> x in candidate
  {
    if job != [] {
      var matched := SetOf(candidate) * SetOf(job);
      SetOfSize(job);
      SubsetSize(matched, SetOf(job));
      RatioAtMostOne(|matched|, |job|);
      var r := MatchSkills(candidate, job);
      assert r == |matched| as real / |job| as real;
      if r == 1.0 {
        assert |matched| == |job|;
        assert matched == SetOf(job);
        forall x | x in job
          ensures x in candidate
        {
          assert x in SetOf(job);
        }
      }
      if NoDuplicates(job) && forall x :: x in job ==> x in candidate {
        assert matched == SetOf(job);
      }
    }
  }

  /** A job skill listed twice counts twice in the denominator. */
  lemma RepeatedSkillHalvesScore()
    ensures MatchSkills(["python"], ["python", "python"]) == 0.5
  {
    assert SetOf(["python"]) == {"python"};
    assert SetOf(["python", "python"]) == {"python"};
  }

  // ---------------------------------------------------------------------------------
  // Ranking

  /** The scored copies of the jobs, in input order. */
  function ScoreAll(candidate: seq<string>, jobs: seq<Job>): (scored: seq<Scored>)
    ensures |scored| == |jobs|
    ensures forall i :: 0 <= i < |jobs| ==>
      scored[i] == Scored(jobs[i], MatchSkills(candidate, jobs[i].skills))
  {
    if jobs == [] then []
    else
      var n := |jobs| - 1;
      assert forall i :: 0 <= i < n ==> jobs[..n][i] == jobs[i];
      ScoreAll(candidate, jobs[..n]) + [Scored(jobs[n], MatchSkills(candidate, jobs[n].skills))]
  }

  predicate SortedDesc(s: seq<Scored>) {
    forall i, j :: 0 <= i < j < |s| ==> s[i].score >= s[j].score
  }

  /** Puts `x` in front of the first entry that does not score higher. */
  function Insert(x: Scored, s: seq<Scored>): (r: seq<Scored>)
    ensures |r| == |s| + 1
    ensures multiset(r) == multiset(s) + multiset{x}
  {
    if s == [] || s[0].score <= x.score then [x] + s
    else
      var r := [s[0]] + Insert(x, s[1..]);
      assert s == [s[0]] + s[1..];
      r
  }

  /** Inserting into a sorted list keeps it sorted. */
  lemma {:induction false} InsertSorted(x: Scored, s: seq<Scored>)
    requires SortedDesc(s)
    ensures SortedDesc(Insert(x, s))
  {
    if s != [] && s[0].score > x.score {
      var t := Insert(x, s[1..]);
      InsertSorted(x, s[1..]);
      assert t[0] == x || t[0] == s[1];
      var r := [s[0]] + t;
      forall i, j | 0 <= i < j < |r|
        ensures r[i].score >= r[j].score
      {
        assert r[j] == t[j - 1];
        if i > 0 {
          assert r[i] == t[i - 1];
        } else {
          assert t[0].score >= t[j - 1].score;
        }
      }
    }
  }

  /** `list.sort(key=score, reverse=True)`: a stable sort by descending score. */
  function SortDesc(s: seq<Scored>): (r: seq<Scored>)
    ensures |r| == |s|
    ensures multiset(r) == multiset(s)
    ensures SortedDesc(r)
  {
    if s == [] then []
    else
      assert s == [s[0]] + s[1..];
      InsertSorted(s[0], SortDesc(s[1..]));
      Insert(s[0], SortDesc(s[1..]))
  }

  /** The entries of `s` that have score `v`, in order. */
  function WithScore(s: seq<Scored>, v: real): seq<Scored> {
    if s == [] then []
    else (if s[0].score == v then [s[0]] else []) + WithScore(s[1..], v)
  }

  lemma {:induction false} InsertWithScore(x: Scored, s: seq<Scored>, v: real)
    requires SortedDesc(s)
    ensures WithScore(Insert(x, s), v) == (if x.score == v then [x] else []) + WithScore(s, v)
  {
    if s != [] && s[0].score > x.score {
      InsertWithScore(x, s[1..], v);
      var r := Insert(x, s);
      assert r[1..] == Insert(x, s[1..]);
      if x.score == v {
        assert s[0].score != v;
      }
    } else {
      assert ([x] + s)[1..] == s;
    }
  }

  /** Jobs with equal scores keep their input order. */
  lemma {:induction false} SortDescStable(s: seq<Scored>, v: real)
    ensures WithScore(SortDesc(s), v) == WithScore(s, v)
  {
    if s != [] {
      SortDescStable(s[1..], v);
      InsertWithScore(s[0], SortDesc(s[1..]), v);
    }
  }

  /** `scored[:top_n]`, where a negative bound counts from the end. */
  function Take<T>(s: seq<T>, n: int): (r: seq<T>)
    ensures n >= 0 ==> |r| == if n < |s| then n else |s|
    ensures n < 0 ==> |r| == if -n < |s| then |s| + n else 0
    ensures r == s[..|r|]
  {
    if n >= 0 then (if n < |s| then s[..n] else s)
    else if -n < |s| then s[..|s| + n]
    else []
  }

  /** `rank_jobs`: the `topN` best-scoring jobs, best first, ties in input order. */
  method RankJobs(candidate: seq<string>, jobs: seq<Job>, topN: int) returns (ranked: seq<Scored>)
    ensures ranked == Take(SortDesc(ScoreAll(candidate, jobs)), topN)
    ensures SortedDesc(ranked)
    ensures topN >= 0 ==> |ranked| == if topN < |jobs| then topN else |jobs|
  {
    var scored: seq<Scored> := [];
    for i := 0 to |jobs|
      invariant scored == ScoreAll(candidate, jobs[..i])
    {
      var score := MatchSkills(candidate, jobs[i].skills);
      ScoreAllSnoc(candidate, jobs, i);
      scored := scored + [Scored(jobs[i], score)];
    }
    assert jobs[..|jobs|] == jobs;
    scored := SortDesc(scored);
    ranked := Take(scored, topN);
    SortedPrefix(scored, |ranked|);
  }

  /** A prefix of a list sorted by descending score is sorted too. */
  lemma SortedPrefix(s: seq<Scored>, n: nat)
    requires SortedDesc(s) && n <= |s|
    ensures SortedDesc(s[..n])
  {
    forall i, j | 0 <= i < j < n
      ensures s[..n][i].score >= s[..n][j].score
    {
      assert s[..n][i] == s[i] && s[..n][j] == s[j];
    }
  }

  lemma ScoreAllSnoc(candidate: seq<string>, jobs: seq<Job>, i: nat)
    requires i < |jobs|
    ensures ScoreAll(candidate, jobs[..i + 1]) ==
            ScoreAll(candidate, jobs[..i]) + [Scored(jobs[i], MatchSkills(candidate, jobs[i].skills))]
  {
    assert jobs[..i + 1][..i] == jobs[..i];
  }

  /** Every ranked entry is one of the input jobs with its own score. */
  lemma RankedFromJobs(candidate: seq<string>, jobs: seq<Job>, topN: int, e: Scored)
    requires e in Take(SortDesc(ScoreAll(candidate, jobs)), topN)
    ensures exists i :: 0 <= i < |jobs| && e == Scored(jobs[i], MatchSkills(candidate, jobs[i].skills))
  {
    var sorted := SortDesc(ScoreAll(candidate, jobs));
    assert e in sorted;
    assert e in multiset(sorted);
    assert e in ScoreAll(candidate, jobs);
  }
}

/**
 * `collections.Counter` on a list: the distinct elements with their numbers of occurrences,
 * in the order each was first seen, and `most_common(1)`, which prefers the element seen
 * first among those counted most often.
 */
module Counter {
  import opened Wrappers

  predicate DistinctKeys(c: seq<(string, nat)>) {
    forall i, j :: 0 <= i < j < |c| ==> c[i].0 != c[j].0
  }

  /** The position of the first occurrence of `x` in `xs`. */
  function FirstIndex(xs: seq<string>, x: string): (k: nat)
    requires x in xs
    ensures k < |xs| && xs[k] == x
    ensures forall j :: 0 <= j < k ==> xs[j] != x
  {
    if xs[0] == x then 0 else 1 + FirstIndex(xs[1..], x)
  }

  /** A position holding `x` with no earlier `x` is the first index of `x`. */
  lemma FirstIndexUnique(xs: seq<string>, x: string, k: nat)
    requires k < |xs| && xs[k] == x && forall j :: 0 <= j < k ==> xs[j] != x
    ensures FirstIndex(xs, x) == k
  {
  }

  /** One more element at the end moves no first occurrence, and places a new one last. */
  lemma FirstIndexAppend(init: seq<string>, x: string, y: string)
    requires y in init + [x]
    ensures y in init ==> FirstIndex(init + [x], y) == FirstIndex(init, y)
    ensures y !in init ==> FirstIndex(init + [x], y) == |init|
  {
    var xs := init + [x];
    if y in init {
      var k := FirstIndex(init, y);
      assert forall j :: 0 <= j < k ==> xs[j] == init[j];
      FirstIndexUnique(xs, y, k);
    } else {
      assert forall j :: 0 <= j < |init| ==> xs[j] == init[j];
      FirstIndexUnique(xs, y, |init|);
    }
  }

  /** The keys of `c` are elements of `xs`, in the order `xs` first shows them. */
  predicate InFirstSeenOrder(xs: seq<string>, c: seq<(string, nat)>) {
    (forall i :: 0 <= i < |c| ==> c[i].0 in xs) &&
    forall i, j :: 0 <= i < j < |c| ==> FirstIndex(xs, c[i].0) < FirstIndex(xs, c[j].0)
  }

  /** Whether `x` has a count already. */
  predicate Has(c: seq<(string, nat)>, x: string) {
    exists i :: 0 <= i < |c| && c[i].0 == x
  }

  /** Counts one more occurrence of `x`. */
  function Bump(c: seq<(string, nat)>, x: string): (r: seq<(string, nat)>)
    requires DistinctKeys(c)
    ensures DistinctKeys(r)
    ensures |r| == if Has(c, x) then |c| else |c| + 1
    ensures forall i :: 0 <= i < |c| ==> r[i].0 == c[i].0 && r[i].1 == c[i].1 + (if c[i].0 == x then 1 else 0)
    ensures |r| > |c| ==> r[|c|] == (x, 1)
  {
    if c == [] then [(x, 1)]
    else
      HasCons(c, x);
      if c[0].0 == x then
        var r := [(x, c[0].1 + 1)] + c[1..];
        ConsKeys(r, c);
        r
      else
        var rest := Bump(c[1..], x);
        var r := [c[0]] + rest;
        BumpCons(c, x, rest, r);
        r
  }

  lemma HasCons(c: seq<(string, nat)>, x: string)
    requires c != []
    ensures Has(c, x) <==> c[0].0 == x || Has(c[1..], x)
  {
    if Has(c, x) && c[0].0 != x {
      var i :| 0 <= i < |c| && c[i].0 == x;
      assert c[1..][i - 1] == c[i];
    }
    if Has(c[1..], x) {
      var i :| 0 <= i < |c| - 1 && c[1..][i].0 == x;
      assert c[i + 1].0 == x;
    }
  }

  /** Replacing the first count keeps every key where it was. */
  lemma ConsKeys(r: seq<(string, nat)>, c: seq<(string, nat)>)
    requires DistinctKeys(c) && c != [] && |r| == |c| && r[0].0 == c[0].0 && r[1..] == c[1..]
    ensures DistinctKeys(r)
  {
    forall i, j | 0 <= i < j < |r|
      ensures r[i].0 != r[j].0
    {
      assert r[j] == c[j];
      if i > 0 {
        assert r[i] == c[i];
      }
    }
  }

  lemma BumpCons(c: seq<(string, nat)>, x: string, rest: seq<(string, nat)>, r: seq<(string, nat)>)
    requires DistinctKeys(c) && c != [] && c[0].0 != x && r == [c[0]] + rest
    requires DistinctKeys(rest)
    requires |rest| == if Has(c[1..], x) then |c| - 1 else |c|
    requires forall i :: 0 <= i < |c| - 1 ==>
               rest[i].0 == c[1..][i].0 && rest[i].1 == c[1..][i].1 + (if c[1..][i].0 == x then 1 else 0)
    requires |rest| > |c| - 1 ==> rest[|c| - 1] == (x, 1)
    ensures DistinctKeys(r)
    ensures forall i :: 0 <= i < |c| ==> r[i].0 == c[i].0 && r[i].1 == c[i].1 + (if c[i].0 == x then 1 else 0)
    ensures |r| > |c| ==> r[|c|] == (x, 1)
  {
    forall i | 1 <= i < |c|
      ensures r[i].0 == c[i].0 && r[i].1 == c[i].1 + (if c[i].0 == x then 1 else 0)
    {
      assert r[i] == rest[i - 1] && c[1..][i - 1] == c[i];
    }
    forall i, j | 0 <= i < j < |r|
      ensures r[i].0 != r[j].0
    {
      if i == 0 {
        if j < |c| {
          assert r[j].0 == c[j].0;
        } else {
          assert r[j] == rest[|c| - 1];
        }
      } else {
        assert r[i] == rest[i - 1] && r[j] == rest[j - 1];
      }
    }
  }

  /** `Counter(xs).items()`. */
  function Counts(xs: seq<string>): (c: seq<(string, nat)>)
    ensures DistinctKeys(c)
    ensures forall i :: 0 <= i < |c| ==> c[i].1 == multiset(xs)[c[i].0] && c[i].1 >= 1
    ensures forall x :: x in xs <==> Has(c, x)
    ensures InFirstSeenOrder(xs, c)
  {
    if xs == [] then []
    else
      var init := xs[..|xs| - 1];
      var x := xs[|xs| - 1];
      var prev := Counts(init);
      var c := Bump(prev, x);
      CountsStep(xs, prev, c);
      OrderLast(xs, prev, c);
      c
  }

  /** Bumping the counts of all but the last element keeps the keys in first-seen order. */
  lemma OrderLast(xs: seq<string>, prev: seq<(string, nat)>, c: seq<(string, nat)>)
    requires xs != [] && DistinctKeys(prev) && InFirstSeenOrder(xs[..|xs| - 1], prev)
    requires forall y :: y in xs[..|xs| - 1] <==> Has(prev, y)
    requires c == Bump(prev, xs[|xs| - 1])
    ensures InFirstSeenOrder(xs, c)
  {
    var init, x := xs[..|xs| - 1], xs[|xs| - 1];
    OrderStep(init, x, prev, c);
    assert xs == init + [x];
  }

  /** Bumping keeps the first-seen order: an old key keeps its place, a new one comes last. */
  lemma OrderStep(init: seq<string>, x: string, prev: seq<(string, nat)>, c: seq<(string, nat)>)
    requires DistinctKeys(prev) && InFirstSeenOrder(init, prev)
    requires forall y :: y in init <==> Has(prev, y)
    requires c == Bump(prev, x)
    ensures InFirstSeenOrder(init + [x], c)
  {
    var xs := init + [x];
    forall i | 0 <= i < |c|
      ensures c[i].0 in xs
    {
      if i == |prev| {
        assert c[i] == (x, 1);
      }
    }
    forall i, j | 0 <= i < j < |c|
      ensures FirstIndex(xs, c[i].0) < FirstIndex(xs, c[j].0)
    {
      FirstIndexAppend(init, x, c[i].0);
      FirstIndexAppend(init, x, c[j].0);
      if j == |prev| {
        assert c[j] == (x, 1);
        assert !Has(prev, x);
        assert c[i].0 == prev[i].0;
        assert FirstIndex(init, prev[i].0) < |init|;
      }
    }
  }

  /** Bumping the counts of all but the last element by that element gives the counts of `xs`. */
  lemma CountsStep(xs: seq<string>, prev: seq<(string, nat)>, c: seq<(string, nat)>)
    requires xs != [] && DistinctKeys(prev)
    requires forall i :: 0 <= i < |prev| ==> prev[i].1 == multiset(xs[..|xs| - 1])[prev[i].0] && prev[i].1 >= 1
    requires forall y :: y in xs[..|xs| - 1] <==> Has(prev, y)
    requires c == Bump(prev, xs[|xs| - 1])
    ensures forall i :: 0 <= i < |c| ==> c[i].1 == multiset(xs)[c[i].0] && c[i].1 >= 1
    ensures forall y :: y in xs <==> Has(c, y)
  {
    forall i | 0 <= i < |c|
      ensures c[i].1 == multiset(xs)[c[i].0] && c[i].1 >= 1
    {
      CountStepAt(xs, prev, c, i);
    }
    forall y
      ensures y in xs <==> Has(c, y)
    {
      HasStep(xs, prev, c, y);
    }
  }

  lemma CountStepAt(xs: seq<string>, prev: seq<(string, nat)>, c: seq<(string, nat)>, i: nat)
    requires xs != [] && DistinctKeys(prev)
    requires forall i :: 0 <= i < |prev| ==> prev[i].1 == multiset(xs[..|xs| - 1])[prev[i].0] && prev[i].1 >= 1
    requires forall y :: y in xs[..|xs| - 1] <==> Has(prev, y)
    requires c == Bump(prev, xs[|xs| - 1]) && i < |c|
    ensures c[i].1 == multiset(xs)[c[i].0] && c[i].1 >= 1
  {
    var init, x := xs[..|xs| - 1], xs[|xs| - 1];
    var k := c[i].0;
    MultisetLast(xs, k);
    if i < |prev| {
      assert k == prev[i].0 && c[i].1 == prev[i].1 + (if k == x then 1 else 0);
    } else {
      assert c[i] == (x, 1);
      assert !Has(prev, x);
      assert x !in init;
    }
  }

  /** The last element adds one to its own count only. */
  lemma MultisetLast(xs: seq<string>, k: string)
    requires xs != []
    ensures multiset(xs)[k] == multiset(xs[..|xs| - 1])[k] + (if k == xs[|xs| - 1] then 1 else 0)
  {
    assert xs == xs[..|xs| - 1] + [xs[|xs| - 1]];
  }

  lemma HasStep(xs: seq<string>, prev: seq<(string, nat)>, c: seq<(string, nat)>, y: string)
    requires xs != [] && DistinctKeys(prev)
    requires forall y :: y in xs[..|xs| - 1] <==> Has(prev, y)
    requires c == Bump(prev, xs[|xs| - 1])
    ensures y in xs <==> Has(c, y)
  {
    var init, x := xs[..|xs| - 1], xs[|xs| - 1];
    assert xs == init + [x];
    if y in init {
      assert Has(prev, y);
      var i :| 0 <= i < |prev| && prev[i].0 == y;
      assert c[i].0 == y;
    }
    if y == x && !Has(prev, x) {
      assert c[|prev|].0 == x;
    } else if y == x {
      var i :| 0 <= i < |prev| && prev[i].0 == x;
      assert c[i].0 == x;
    }
    if Has(c, y) {
      var i :| 0 <= i < |c| && c[i].0 == y;
      if i < |prev| {
        assert Has(prev, y);
      }
    }
  }

  /** The counts add up to the number of elements. */
  lemma {:induction false} CountsTotal(xs: seq<string>)
    ensures SumCounts(Counts(xs)) == |xs|
  {
    if xs != [] {
      var init := xs[..|xs| - 1];
      CountsTotal(init);
      BumpTotal(Counts(init), xs[|xs| - 1]);
    }
  }

  function SumCounts(c: seq<(string, nat)>): nat {
    if c == [] then 0 else SumCounts(c[..|c| - 1]) + c[|c| - 1].1
  }

  lemma {:induction false} SumCountsFront(c: seq<(string, nat)>)
    requires c != []
    ensures SumCounts(c) == c[0].1 + SumCounts(c[1..])
  {
    if |c| > 1 {
      SumCountsFront(c[..|c| - 1]);
      assert c[..|c| - 1][1..] == c[1..][..|c| - 2];
    }
  }

  lemma {:induction false} BumpTotal(c: seq<(string, nat)>, x: string)
    requires DistinctKeys(c)
    ensures SumCounts(Bump(c, x)) == SumCounts(c) + 1
  {
    var r := Bump(c, x);
    if c == [] {
    } else if c[0].0 == x {
      SumCountsFront(c);
      SumCountsFront(r);
      assert r[1..] == c[1..];
    } else {
      BumpTotal(c[1..], x);
      SumCountsFront(c);
      SumCountsFront(r);
      assert r[1..] == Bump(c[1..], x);
    }
  }

  /** The first position holding the largest value. */
  function FirstMax(c: seq<(string, nat)>): (b: nat)
    requires c != []
    ensures b < |c|
    ensures forall j :: 0 <= j < |c| ==> c[j].1 <= c[b].1
    ensures forall j :: 0 <= j < b ==> c[j].1 < c[b].1
  {
    if |c| == 1 then 0
    else
      var n := |c| - 1;
      var b := FirstMax(c[..n]);
      assert forall j :: 0 <= j < n ==> c[..n][j] == c[j];
      if c[n].1 > c[b].1 then n else b
  }

  /** `Counter(xs).most_common(1)[0][0]`, or `None` for no elements. */
  function MostCommon(xs: seq<string>): (r: Option<string>)
    ensures r.None? <==> xs == []
    ensures r.Some? ==> r.value in xs && forall y :: y in xs ==> multiset(xs)[y] <= multiset(xs)[r.value]
    ensures r.Some? ==> forall y :: y in xs && multiset(xs)[y] == multiset(xs)[r.value] ==>
                                   FirstIndex(xs, r.value) <= FirstIndex(xs, y)
  {
    var c := Counts(xs);
    if c == [] then
      None
    else
      var b := FirstMax(c);
      FirstMaxIsMostCommon(xs, c, b);
      Some(c[b].0)
  }

  /** The first largest count belongs to a most frequent element seen before any other such. */
  lemma FirstMaxIsMostCommon(xs: seq<string>, c: seq<(string, nat)>, b: nat)
    requires c == Counts(xs) && c != [] && b == FirstMax(c)
    ensures c[b].0 in xs && multiset(xs)[c[b].0] == c[b].1
    ensures forall y :: y in xs ==> multiset(xs)[y] <= c[b].1
    ensures forall y :: y in xs && multiset(xs)[y] == c[b].1 ==> FirstIndex(xs, c[b].0) <= FirstIndex(xs, y)
  {
    forall y | y in xs
      ensures multiset(xs)[y] <= c[b].1
      ensures multiset(xs)[y] == c[b].1 ==> FirstIndex(xs, c[b].0) <= FirstIndex(xs, y)
    {
      var i :| 0 <= i < |c| && c[i].0 == y;
      if multiset(xs)[y] == c[b].1 {
        assert !(i < b);
      }
    }
  }
}

/** `Series.value_counts()`: one row per distinct value with the number of
    times it occurs, most frequent first. pandas does not fix the order of
    equal counts; the definition here keeps them in order of first appearance,
    and no contract below depends on that choice. */
module Counts {
  import opened Frame

  /** One row of a `value_counts()` result: its index entry and its count. */
  datatype Tally<T> = Tally(value: T, count: nat)

  /** The index of a `value_counts()` result. */
  function Values<T>(vc: seq<Tally<T>>): seq<T>
  {
    seq(|vc|, i requires 0 <= i < |vc| => vc[i].value)
  }

  /** Sum of the count column. */
  function TotalCount<T>(vc: seq<Tally<T>>): nat
  {
    if vc == [] then 0 else vc[0].count + TotalCount(vc[1..])
  }

  /** No value occurs twice. */
  ghost predicate NoDuplicates<T>(s: seq<T>)
  {
    forall i, j :: 0 <= i < j < |s| ==> s[i] != s[j]
  }

  /** Each distinct value of `xs` appears once, with its exact count. */
  ghost predicate IsTally<T>(xs: seq<T>, vc: seq<Tally<T>>)
  {
    && NoDuplicates(Values(vc))
    && (forall i :: 0 <= i < |vc| ==> vc[i].count == Occurrences(xs, vc[i].value))
    && (forall x :: x in xs ==> x in Values(vc))
    && (forall x :: x in Values(vc) ==> x in xs)
  }

  /** Counts never increase from one row to the next. */
  ghost predicate Descending<T>(vc: seq<Tally<T>>)
  {
    forall i :: 0 <= i < |vc| - 1 ==> vc[i].count >= vc[i + 1].count
  }

  /** Everything `value_counts()` promises about its result. */
  ghost predicate IsValueCounts<T>(xs: seq<T>, vc: seq<Tally<T>>)
  {
    IsTally(xs, vc) && Descending(vc)
  }

  /** A sequence without repetitions has as many distinct values as elements. */
  lemma {:induction false} DistinctCardinality<T>(s: seq<T>)
    requires NoDuplicates(s)
    ensures |set x | x in s| == |s|
  {
    if s != [] {
      DistinctCardinality(s[1..]);
      assert s == [s[0]] + s[1..];
      assert (set x | x in s) == {s[0]} + (set x | x in s[1..]);
      assert s[0] !in s[1..];
    }
  }

  /** The distinct values of `xs`, each once, in order of first appearance. */
  function Distinct<T(==)>(xs: seq<T>): (d: seq<T>)
    ensures NoDuplicates(d)
    ensures forall x :: x in d ==> x in xs
    ensures forall x :: x in xs ==> x in d
  {
    if xs == [] then []
    else
      var last := xs[|xs| - 1];
      var d := Distinct(xs[..|xs| - 1]);
      assert xs == xs[..|xs| - 1] + [last];
      if last in d then d else d + [last]
  }

  function Tallies<T(==)>(d: seq<T>, xs: seq<T>): seq<Tally<T>>
  {
    seq(|d|, i requires 0 <= i < |d| => Tally(d[i], Occurrences(xs, d[i])))
  }

  /** Inserts `t` before the first row whose count does not exceed its own. */
  function InsertByCount<T(==)>(t: Tally<T>, sorted: seq<Tally<T>>): (r: seq<Tally<T>>)
    ensures multiset(r) == multiset(sorted) + multiset{t}
  {
    if sorted == [] || t.count >= sorted[0].count then [t] + sorted
    else
      assert sorted == [sorted[0]] + sorted[1..];
      [sorted[0]] + InsertByCount(t, sorted[1..])
  }

  lemma {:induction false} InsertKeepsDescending<T>(t: Tally<T>, sorted: seq<Tally<T>>)
    requires Descending(sorted)
    ensures Descending(InsertByCount(t, sorted))
  {
    if sorted != [] && t.count < sorted[0].count {
      InsertKeepsDescending(t, sorted[1..]);
      var rest := InsertByCount(t, sorted[1..]);
      assert rest[0] == t || rest[0] == sorted[1];
    }
  }

  lemma {:induction false} InsertKeepsDistinct<T>(t: Tally<T>, sorted: seq<Tally<T>>)
    requires NoDuplicates(sorted) && t !in sorted
    ensures NoDuplicates(InsertByCount(t, sorted))
  {
    if sorted != [] && t.count < sorted[0].count {
      InsertKeepsDistinct(t, sorted[1..]);
      var rest := InsertByCount(t, sorted[1..]);
      assert sorted[0] !in sorted[1..];
      assert sorted[0] !in multiset(rest);
    }
  }

  /** Stable sort by descending count. */
  function SortByCount<T(==)>(ts: seq<Tally<T>>): (r: seq<Tally<T>>)
    ensures multiset(r) == multiset(ts)
    ensures Descending(r)
  {
    if ts == [] then []
    else
      assert ts == [ts[0]] + ts[1..];
      var rest := SortByCount(ts[1..]);
      InsertKeepsDescending(ts[0], rest);
      InsertByCount(ts[0], rest)
  }

  lemma {:induction false} SortKeepsDistinct<T>(ts: seq<Tally<T>>)
    requires NoDuplicates(ts)
    ensures NoDuplicates(SortByCount(ts))
  {
    if ts != [] {
      SortKeepsDistinct(ts[1..]);
      var rest := SortByCount(ts[1..]);
      assert ts[0] !in ts[1..];
      assert ts[0] !in multiset(rest);
      InsertKeepsDistinct(ts[0], rest);
    }
  }

  /** `xs.value_counts()`. */
  function ValueCounts<T(==)>(xs: seq<T>): (vc: seq<Tally<T>>)
    ensures IsValueCounts(xs, vc)
  {
    var d := Distinct(xs);
    var ts := Tallies(d, xs);
    var vc := SortByCount(ts);
    SortKeepsDistinct(ts);
    SortedTalliesAreValueCounts(xs, d, ts, vc);
    vc
  }

  lemma {:induction false} SortedTalliesAreValueCounts<T>(xs: seq<T>, d: seq<T>, ts: seq<Tally<T>>, vc: seq<Tally<T>>)
    requires NoDuplicates(d)
    requires forall x :: x in d ==> x in xs
    requires forall x :: x in xs ==> x in d
    requires ts == Tallies(d, xs) && NoDuplicates(ts)
    requires multiset(vc) == multiset(ts) && Descending(vc) && NoDuplicates(vc)
    ensures IsValueCounts(xs, vc)
  {
    forall k | 0 <= k < |vc|
      ensures vc[k].count == Occurrences(xs, vc[k].value) && vc[k].value in xs
    {
      assert vc[k] in multiset(ts);
      var i :| 0 <= i < |ts| && ts[i] == vc[k];
    }
    forall x | x in xs
      ensures x in Values(vc)
    {
      var i :| 0 <= i < |d| && d[i] == x;
      assert ts[i] in multiset(vc);
      var k :| 0 <= k < |vc| && vc[k] == ts[i];
      assert Values(vc)[k] == x;
    }
  }

  /** The counts of a tally add up to the number of values tallied. */
  lemma {:induction false} CountsSumToLength<T>(xs: seq<T>, vc: seq<Tally<T>>)
    requires IsTally(xs, vc)
    ensures TotalCount(vc) == |xs|
    decreases |vc|
  {
    if vc == [] {
      forall x
        ensures multiset(xs)[x] == 0
      {
        assert x !in Values(vc);
      }
      assert multiset(xs) == multiset{};
    } else {
      var v := vc[0].value;
      var ys := Where(xs, Other(v));
      forall y | y in xs || y in ys
        ensures Occurrences(ys, y) == if y == v then 0 else Occurrences(xs, y)
        ensures y in ys <==> y in xs && y != v
      {
        WhereOccurrences(xs, Other(v), y);
        WhereMembership(xs, Other(v), y);
      }
      var rest := vc[1..];
      forall x | x in ys || x in Values(rest)
        ensures x in ys <==> x in Values(rest)
      {
        if x in Values(rest) {
          var k :| 0 <= k < |rest| && Values(rest)[k] == x;
          assert vc[k + 1].value == x;
          assert Values(vc)[k + 1] == x && Values(vc)[0] == v;
        }
        if x in ys {
          assert x in Values(vc);
          var k :| 0 <= k < |vc| && Values(vc)[k] == x;
          assert k != 0;
          assert Values(rest)[k - 1] == x;
        }
      }
      assert Values(rest) == Values(vc)[1..];
      forall k | 0 <= k < |rest|
        ensures rest[k].value != v
      {
        assert Values(vc)[0] == v && Values(vc)[k + 1] == rest[k].value;
      }
      assert IsTally(ys, rest);
      CountsSumToLength(ys, rest);
      SplitByValue(xs, v);
      assert vc[0].count == Occurrences(xs, v);
    }
  }
}

/** Row-sequence primitives behind the dashboard's pandas expressions:
    selecting rows with a boolean mask (`df[mask]`), counting equal values,
    and the "same rows, same order, some dropped" relation that a mask
    selection satisfies. */
module Frame {

  /** Number of positions of `xs` that hold `x`. */
  function Occurrences<T(==)>(xs: seq<T>, x: T): (n: nat)
    ensures n <= |xs|
    ensures n > 0 <==> x in xs
  {
    if xs == [] then 0
    else
      assert x in xs <==> xs[0] == x || x in xs[1..] by {
        assert xs == [xs[0]] + xs[1..];
      }
      (if xs[0] == x then 1 else 0) + Occurrences(xs[1..], x)
  }

  /** `rows[mask]`: the rows on which `keep` holds, in their original order. */
  function Where<T>(rows: seq<T>, keep: T -> bool): (r: seq<T>)
    ensures |r| <= |rows|
    ensures forall i :: 0 <= i < |r| ==> keep(r[i]) && r[i] in rows
  {
    if rows == [] then []
    else if keep(rows[0]) then [rows[0]] + Where(rows[1..], keep)
    else Where(rows[1..], keep)
  }

  /** The mask `p & q`. */
  function Both<T>(p: T -> bool, q: T -> bool): T -> bool
  {
    x => p(x) && q(x)
  }

  /** The mask `x != v`. */
  function Other<T(==)>(v: T): T -> bool
  {
    x => x != v
  }

  /** `a` is `b` with some elements dropped and the others kept in order. */
  predicate IsSubsequence<T(==)>(a: seq<T>, b: seq<T>)
    decreases |b|
  {
    && |a| <= |b|
    && (|| a == []
        || (a[0] == b[0] && IsSubsequence(a[1..], b[1..]))
        || IsSubsequence(a, b[1..]))
  }

  /** A mask keeps every copy of a value it accepts and no copy of one it rejects. */
  lemma {:induction false} WhereOccurrences<T>(rows: seq<T>, keep: T -> bool, x: T)
    ensures Occurrences(Where(rows, keep), x) == if keep(x) then Occurrences(rows, x) else 0
  {
    if rows != [] {
      WhereOccurrences(rows[1..], keep, x);
      if keep(rows[0]) {
        var r := Where(rows, keep);
        assert r[0] == rows[0] && r[1..] == Where(rows[1..], keep);
      }
    }
  }

  /** A value is selected exactly when it is a row and the mask accepts it. */
  lemma {:induction false} WhereMembership<T>(rows: seq<T>, keep: T -> bool, x: T)
    ensures x in Where(rows, keep) <==> x in rows && keep(x)
  {
    WhereOccurrences(rows, keep, x);
  }

  /** Masking only drops rows: the selection is an ordered subsequence. */
  lemma {:induction false} WhereIsSubsequence<T>(rows: seq<T>, keep: T -> bool)
    ensures IsSubsequence(Where(rows, keep), rows)
  {
    if rows != [] {
      WhereIsSubsequence(rows[1..], keep);
      var r := Where(rows, keep);
      if keep(rows[0]) {
        assert r[0] == rows[0] && r[1..] == Where(rows[1..], keep);
      }
    }
  }

  /** A mask that accepts every row selects them all. */
  lemma {:induction false} WhereAll<T>(rows: seq<T>, keep: T -> bool)
    requires forall i :: 0 <= i < |rows| ==> keep(rows[i])
    ensures Where(rows, keep) == rows
  {
    if rows != [] {
      WhereAll(rows[1..], keep);
    }
  }

  /** A mask that accepts nothing selects nothing. */
  lemma {:induction false} WhereNone<T>(rows: seq<T>, keep: T -> bool)
    requires forall x :: !keep(x)
    ensures Where(rows, keep) == []
  {
    if rows != [] {
      WhereNone(rows[1..], keep);
    }
  }

  /** Two successive masks select what their conjunction selects. */
  lemma {:induction false} WhereWhere<T>(rows: seq<T>, p: T -> bool, q: T -> bool)
    ensures Where(Where(rows, p), q) == Where(rows, Both(p, q))
  {
    if rows != [] {
      WhereWhere(rows[1..], p, q);
      if p(rows[0]) {
        var r := Where(rows, p);
        assert r[0] == rows[0] && r[1..] == Where(rows[1..], p);
      }
    }
  }

  /** Masks that agree on every value select the same rows. */
  lemma {:induction false} WhereSameMask<T>(rows: seq<T>, p: T -> bool, q: T -> bool)
    requires forall x :: p(x) == q(x)
    ensures Where(rows, p) == Where(rows, q)
  {
    if rows != [] {
      WhereSameMask(rows[1..], p, q);
    }
  }

  /** The order in which two masks are applied does not matter. */
  lemma {:induction false} WhereCommutes<T>(rows: seq<T>, p: T -> bool, q: T -> bool)
    ensures Where(Where(rows, p), q) == Where(Where(rows, q), p)
  {
    WhereWhere(rows, p, q);
    WhereWhere(rows, q, p);
    WhereSameMask(rows, Both(p, q), Both(q, p));
  }

  /** Removing one value leaves the rows that are not copies of it. */
  lemma {:induction false} SplitByValue<T>(xs: seq<T>, v: T)
    ensures |xs| == Occurrences(xs, v) + |Where(xs, Other(v))|
  {
    if xs != [] {
      SplitByValue(xs[1..], v);
    }
  }
}

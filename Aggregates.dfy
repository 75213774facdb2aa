/** The shapes of the server's read queries and the folds its routes apply to
    their results: a query condition keeping rows in store order, the 1000-row
    cap of `to_list(1000)`, sums, and Python's `max` over numbers. */
module Aggregates {

  /** The row limit of every aggregating query. */
  const FetchLimit: nat := 1000

  /** The rows of a query whose condition `keep` holds, in store order. */
  function Filter<T>(rows: seq<T>, keep: T -> bool): (r: seq<T>)
    ensures |r| <= |rows|
  {
    if rows == [] then []
    else
      var init := Filter(rows[..|rows| - 1], keep);
      if keep(rows[|rows| - 1]) then init + [rows[|rows| - 1]] else init
  }

  /** `r` is `rows` read at the strictly increasing positions `idx`. */
  ghost predicate PicksAt<T>(r: seq<T>, rows: seq<T>, idx: seq<nat>) {
    && |idx| == |r|
    && (forall k :: 0 <= k < |idx| ==> idx[k] < |rows| && r[k] == rows[idx[k]])
    && (forall k, l :: 0 <= k < l < |idx| ==> idx[k] < idx[l])
  }

  /** A query returns exactly the rows its condition keeps, each once and in
      store order: it reads the store at increasing positions, and a position
      is read exactly when its row satisfies the condition. */
  lemma {:induction false} FilterSpec<T>(rows: seq<T>, keep: T -> bool)
    ensures exists idx: seq<nat> :: PicksAt(Filter(rows, keep), rows, idx)
              && (forall j :: 0 <= j < |rows| ==> (keep(rows[j]) <==> j in idx))
    ensures forall x :: x in Filter(rows, keep) <==> x in rows && keep(x)
    decreases |rows|
  {
    if rows == [] {
      var none: seq<nat> := [];
      assert PicksAt(Filter(rows, keep), rows, none);
    } else {
      var init := rows[..|rows| - 1];
      FilterSpec(init, keep);
      var idx: seq<nat> :| PicksAt(Filter(init, keep), init, idx)
                 && (forall j :: 0 <= j < |init| ==> (keep(init[j]) <==> j in idx));
      var idx' := FilterStep(rows, keep, idx);
      forall x
        ensures x in Filter(rows, keep) <==> x in rows && keep(x)
      {
        if x in rows && keep(x) {
          var j :| 0 <= j < |rows| && rows[j] == x;
          var k :| 0 <= k < |idx'| && idx'[k] == j;
          assert Filter(rows, keep)[k] == x;
        }
      }
    }
  }

  /** One row more: the positions read for the rows before the last extend
      by the last position exactly when the last row is kept. */
  lemma FilterStep<T>(rows: seq<T>, keep: T -> bool, idx: seq<nat>) returns (idx': seq<nat>)
    requires rows != []
    requires PicksAt(Filter(rows[..|rows| - 1], keep), rows[..|rows| - 1], idx)
    requires forall j :: 0 <= j < |rows| - 1 ==> (keep(rows[j]) <==> j in idx)
    ensures PicksAt(Filter(rows, keep), rows, idx')
    ensures forall j :: 0 <= j < |rows| ==> (keep(rows[j]) <==> j in idx')
  {
    var init := rows[..|rows| - 1];
    var last := rows[|rows| - 1];
    var r := Filter(init, keep);
    assert |init| !in idx;
    if keep(last) {
      idx' := idx + [|init|];
      assert Filter(rows, keep) == r + [last];
      forall k | 0 <= k < |idx'|
        ensures idx'[k] < |rows| && Filter(rows, keep)[k] == rows[idx'[k]]
      {
        if k < |idx| {
          assert rows[idx[k]] == init[idx[k]];
        }
      }
    } else {
      idx' := idx;
      assert Filter(rows, keep) == r;
      forall k | 0 <= k < |idx'|
        ensures idx'[k] < |rows| && Filter(rows, keep)[k] == rows[idx'[k]]
      {
        assert rows[idx[k]] == init[idx[k]];
      }
    }
    forall j | 0 <= j < |rows|
      ensures keep(rows[j]) <==> j in idx'
    {
      if j < |init| {
        assert rows[j] == init[j];
      }
    }
  }

  /** The values `f` reads from each row, in order. */
  function Project<T>(rows: seq<T>, f: T -> real): (r: seq<real>)
    ensures |r| == |rows| && forall k :: 0 <= k < |rows| ==> r[k] == f(rows[k])
  {
    seq(|rows|, k requires 0 <= k < |rows| => f(rows[k]))
  }

  /** `to_list(1000)`: the first 1000 rows of a query result. */
  function Cap<T>(rows: seq<T>): (r: seq<T>)
    ensures |r| == (if |rows| <= FetchLimit then |rows| else FetchLimit)
    ensures r == rows[..|r|]
  {
    if |rows| <= FetchLimit then rows else rows[..FetchLimit]
  }

  /** `sum(xs)`, left to right. */
  function Sum(xs: seq<real>): real {
    if xs == [] then 0.0 else Sum(xs[..|xs| - 1]) + xs[|xs| - 1]
  }

  /** Python's `max(a, b)`: the first argument unless the second is
      larger. */
  function Max2(a: real, b: real): (m: real)
    ensures m >= a && m >= b && (m == a || m == b)
  {
    if b > a then b else a
  }

  /** `max(xs)` of a non-empty sequence: the running maximum, left to
      right. */
  function MaxOf(xs: seq<real>): real
    requires xs != []
  {
    if |xs| == 1 then xs[0] else Max2(MaxOf(xs[..|xs| - 1]), xs[|xs| - 1])
  }

  /** The running maximum of `xs` starting from `m`, as the leaderboard's
      `best_wpm = max(best_wpm, wpm)` computes it from its initial 0. */
  function MaxFrom(m: real, xs: seq<real>): real {
    if xs == [] then m else Max2(MaxFrom(m, xs[..|xs| - 1]), xs[|xs| - 1])
  }

  /** `max` returns an element, and no element is larger. */
  lemma {:induction false} MaxOfIsMaximum(xs: seq<real>)
    requires xs != []
    ensures MaxOf(xs) in xs
    ensures forall k :: 0 <= k < |xs| ==> xs[k] <= MaxOf(xs)
    decreases |xs|
  {
    if |xs| > 1 {
      var init := xs[..|xs| - 1];
      MaxOfIsMaximum(init);
      assert forall k :: 0 <= k < |init| ==> xs[k] == init[k];
    }
  }

  /** The running maximum from `m` is `m` or an element, and bounds `m` and
      every element. */
  lemma {:induction false} MaxFromIsMaximum(m: real, xs: seq<real>)
    ensures MaxFrom(m, xs) == m || MaxFrom(m, xs) in xs
    ensures MaxFrom(m, xs) >= m
    ensures forall k :: 0 <= k < |xs| ==> xs[k] <= MaxFrom(m, xs)
    decreases |xs|
  {
    if xs != [] {
      var init := xs[..|xs| - 1];
      MaxFromIsMaximum(m, init);
      assert forall k :: 0 <= k < |init| ==> xs[k] == init[k];
    }
  }

  /** A sum is at most the count times any bound of the elements. */
  lemma {:induction false} SumAtMost(xs: seq<real>, bound: real)
    requires forall k :: 0 <= k < |xs| ==> xs[k] <= bound
    ensures Sum(xs) <= |xs| as real * bound
    decreases |xs|
  {
    if xs != [] {
      var init := xs[..|xs| - 1];
      assert forall k :: 0 <= k < |init| ==> init[k] == xs[k];
      SumAtMost(init, bound);
      assert |xs| as real * bound == |init| as real * bound + bound;
    }
  }

  /** The mean of a non-empty sequence is at most its maximum. */
  lemma MeanAtMostMax(xs: seq<real>)
    requires xs != []
    ensures Sum(xs) / |xs| as real <= MaxOf(xs)
  {
    MaxOfIsMaximum(xs);
    SumAtMost(xs, MaxOf(xs));
    DivAtMost(Sum(xs), |xs| as real, MaxOf(xs));
  }

  /** Dividing by a positive count: `t / n <= b` when `t <= n * b`. */
  lemma DivAtMost(t: real, n: real, b: real)
    requires n > 0.0 && t <= n * b
    ensures t / n <= b
  {
    var q := t / n;
    assert q * n == t;
    assert (q - b) * n <= 0.0;
  }
}

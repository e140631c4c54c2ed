/** NaN-skipping reductions over the non-missing values of a column. */
module Stats {
  import opened Wrappers
  import Seqs

  function Sum(xs: seq<real>): real
  {
    if xs == [] then 0.0 else xs[0] + Sum(xs[1..])
  }

  /** Arithmetic mean; a column with no values has no mean (pandas gives NaN). */
  function Mean(xs: seq<real>): (r: Option<real>)
    ensures r.None? <==> xs == []
  {
    if xs == [] then None else Some(Sum(xs) / (|xs| as real))
  }

  /** Largest value; a column with no values has no maximum. */
  function Max(xs: seq<real>): (r: Option<real>)
    ensures r.None? <==> xs == []
    ensures r.Some? ==> r.value in xs && forall x :: x in xs ==> x <= r.value
  {
    if xs == [] then None
    else
      assert xs == [xs[0]] + xs[1..];
      match Max(xs[1..])
      case None => Some(xs[0])
      case Some(m) => Some(if xs[0] >= m then xs[0] else m)
  }

  /** The mean times the number of values is their sum. */
  lemma {:induction false} MeanTimesCount(xs: seq<real>)
    ensures Mean(xs).Some? ==> Mean(xs).value * (|xs| as real) == Sum(xs)
  {
    if xs != [] {
      var n := |xs| as real;
      assert n > 0.0;
      var m := Sum(xs) / n;
      assert m * n == Sum(xs);
    }
  }

  lemma {:induction false} SumAppend(a: seq<real>, b: seq<real>)
    ensures Sum(a + b) == Sum(a) + Sum(b)
  {
    if a == [] {
      assert a + b == b;
    } else {
      assert (a + b)[1..] == a[1..] + b;
      SumAppend(a[1..], b);
    }
  }

  lemma {:induction false} SumAtMost(xs: seq<real>, bound: real)
    requires forall x :: x in xs ==> x <= bound
    ensures Sum(xs) <= (|xs| as real) * bound
  {
    if xs != [] {
      var tail := xs[1..];
      assert forall x :: x in tail ==> x in xs;
      assert xs[0] in xs;
      SumAtMost(tail, bound);
      assert (|xs| as real) * bound == bound + (|tail| as real) * bound;
    }
  }

  /** Taking out the element at `i` takes its value out of the sum. */
  lemma {:induction false} SumRemoveAt(b: seq<real>, i: nat)
    requires i < |b|
    ensures Sum(b) == b[i] + Sum(b[..i] + b[i + 1..])
  {
    assert b == b[..i] + ([b[i]] + b[i + 1..]);
    SumAppend(b[..i], [b[i]] + b[i + 1..]);
    SumAppend(b[..i], b[i + 1..]);
  }

  /** The sum does not depend on the order of the values. */
  lemma {:induction false} SumPermutation(a: seq<real>, b: seq<real>)
    requires multiset(a) == multiset(b)
    ensures Sum(a) == Sum(b)
    decreases |a|
  {
    if a == [] {
      assert |multiset(b)| == 0;
    } else {
      assert a[0] in multiset(b);
      var i :| 0 <= i < |b| && b[i] == a[0];
      var rest := b[..i] + b[i + 1..];
      Seqs.MultisetRemoveAt(a, b, i);
      SumPermutation(a[1..], rest);
      SumRemoveAt(b, i);
    }
  }

  /** The mean never exceeds the maximum, and both exist for the same columns. */
  lemma {:induction false} MeanAtMostMax(xs: seq<real>)
    ensures Mean(xs).Some? <==> Max(xs).Some?
    ensures Mean(xs).Some? ==> Mean(xs).value <= Max(xs).value
  {
    if xs != [] {
      var m := Max(xs).value;
      SumAtMost(xs, m);
      var n := |xs| as real;
      assert Sum(xs) / n <= m by {
        assert Sum(xs) <= n * m;
      }
    }
  }
}

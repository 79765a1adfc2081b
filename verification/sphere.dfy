/**
 The n-dimensional sphere benchmark: the evaluation of a chromosome is the
 sum of the squares of its genes, minimised (at 0) by the origin; a run has
 reached its goal once some evaluated parent scores at most 0.0005.
 */
module Sphere {
  import opened Individuals

  /** The convergence threshold of the goal test. */
  const Threshold: real := 0.0005

  /**
   The sum of squares of `c`. It is never negative, so a computed evaluation
   can never be mistaken for the `Unset` sentinel.
   */
  function SumOfSquares(c: seq<real>): (r: real)
    ensures r >= 0.0
    ensures r != Unset
  {
    if |c| == 0 then 0.0 else Square(c[0]) + SumOfSquares(c[1..])
  }

  function Square(x: real): (r: real)
    ensures r >= 0.0
  {
    x * x
  }

  lemma {:induction false} SumOfSquaresAppend(a: seq<real>, b: seq<real>)
    ensures SumOfSquares(a + b) == SumOfSquares(a) + SumOfSquares(b)
    decreases |a|
  {
    if |a| == 0 {
      assert a + b == b;
    } else {
      assert (a + b)[0] == a[0];
      assert (a + b)[1..] == a[1..] + b;
      SumOfSquaresAppend(a[1..], b);
    }
  }

  /** The origin scores 0. */
  lemma {:induction false} SumOfSquaresOfZeros(c: seq<real>)
    requires forall i :: 0 <= i < |c| ==> c[i] == 0.0
    ensures SumOfSquares(c) == 0.0
    decreases |c|
  {
    if |c| > 0 {
      SumOfSquaresOfZeros(c[1..]);
    }
  }

  /** The all-ones starting point of dimension n scores n. */
  lemma {:induction false} SumOfSquaresOfOnes(c: seq<real>)
    requires forall i :: 0 <= i < |c| ==> c[i] == 1.0
    ensures SumOfSquares(c) == |c| as real
    decreases |c|
  {
    if |c| > 0 {
      SumOfSquaresOfOnes(c[1..]);
    }
  }

  /** Negating any selection of genes leaves the evaluation unchanged. */
  lemma {:induction false} SumOfSquaresSignInvariant(c: seq<real>, d: seq<real>)
    requires |c| == |d|
    requires forall i :: 0 <= i < |c| ==> d[i] == c[i] || d[i] == -c[i]
    ensures SumOfSquares(c) == SumOfSquares(d)
    decreases |c|
  {
    if |c| > 0 {
      assert Square(d[0]) == Square(c[0]);
      SumOfSquaresSignInvariant(c[1..], d[1..]);
    }
  }

  /** Removing the gene at `j` takes exactly its square off the sum. */
  lemma {:induction false} SumOfSquaresRemove(d: seq<real>, j: nat)
    requires j < |d|
    ensures SumOfSquares(d) == Square(d[j]) + SumOfSquares(d[..j] + d[j + 1..])
    decreases j
  {
    if j == 0 {
      assert d[..0] + d[1..] == d[1..];
    } else {
      var tail := d[1..];
      SumOfSquaresRemove(tail, j - 1);
      assert tail[j - 1] == d[j];
      var rest := d[..j] + d[j + 1..];
      assert rest[0] == d[0];
      assert rest[1..] == tail[..j - 1] + tail[j..];
    }
  }

  /** Taking the gene at `j` out of `d` leaves the rest of its genes. */
  lemma MultisetSplit(d: seq<real>, j: nat)
    requires j < |d|
    ensures multiset(d) == multiset(d[..j] + d[j + 1..]) + multiset{d[j]}
  {
    assert d == d[..j] + [d[j]] + d[j + 1..];
  }

  lemma MultisetCancel(m1: multiset<real>, m2: multiset<real>, x: real)
    requires m1 + multiset{x} == m2 + multiset{x}
    ensures m1 == m2
  {
    forall y ensures m1[y] == m2[y] {
      assert (m1 + multiset{x})[y] == (m2 + multiset{x})[y];
    }
  }

  /**
   For two chromosomes holding the same genes, the position in `d` of the
   first gene of `c`; what remains of both still holds the same genes.
   */
  lemma MatchFirst(c: seq<real>, d: seq<real>) returns (j: nat)
    requires multiset(c) == multiset(d) && |c| > 0
    ensures j < |d| && d[j] == c[0]
    ensures multiset(c[1..]) == multiset(d[..j] + d[j + 1..])
  {
    assert c[0] in multiset(d);
    j :| 0 <= j < |d| && d[j] == c[0];
    MultisetSplit(d, j);
    MultisetSplit(c, 0);
    assert c[..0] + c[1..] == c[1..];
    MultisetCancel(multiset(c[1..]), multiset(d[..j] + d[j + 1..]), c[0]);
  }

  /** Reordering the genes leaves the evaluation unchanged. */
  lemma {:induction false} SumOfSquaresPermutationInvariant(c: seq<real>, d: seq<real>)
    requires multiset(c) == multiset(d)
    ensures SumOfSquares(c) == SumOfSquares(d)
    decreases |c|
  {
    if |c| == 0 {
      assert |multiset(d)| == 0;
    } else {
      var j := MatchFirst(c, d);
      SumOfSquaresPermutationInvariant(c[1..], d[..j] + d[j + 1..]);
      SumOfSquaresRemove(d, j);
    }
  }

  /**
   The goal test. It reads only the evaluations already cached in the
   parents (it takes no evaluation log and computes nothing), skips the
   unevaluated ones, and holds as soon as one of the others is at most
   `Threshold`.
   */
  function Goal(parents: seq<Individual>): (b: bool)
    ensures b <==> exists i :: 0 <= i < |parents| && parents[i].Evaluated() && parents[i].eval <= Threshold
  {
    if |parents| == 0 then false
    else (parents[0].Evaluated() && parents[0].eval <= Threshold) || Goal(parents[1..])
  }

  /** A population none of whose members has been evaluated never meets the goal. */
  lemma UnevaluatedNeverReachGoal(parents: seq<Individual>)
    requires forall i :: 0 <= i < |parents| ==> !parents[i].Evaluated()
    ensures !Goal(parents)
  {
  }

  /** When every parent is evaluated, missing the goal means every evaluation is above the threshold. */
  lemma MissedGoal(parents: seq<Individual>)
    requires forall i :: 0 <= i < |parents| ==> parents[i].Evaluated()
    requires !Goal(parents)
    ensures forall i :: 0 <= i < |parents| ==> parents[i].eval > Threshold
  {
  }
}

/**
 The caching evaluator of a run. An individual is evaluated at most once:
 the first request computes the sphere objective, stores it in the
 individual and appends it to the run's evaluation log; every later request
 returns the stored value and leaves the log alone.
 */
module Evaluator {
  import opened Individuals
  import opened Sphere

  datatype Eval = Eval(value: real, idv: Individual, log: seq<real>)

  function GetEval(idv: Individual, log: seq<real>): (e: Eval)
    ensures e.idv.Evaluated() && e.value == e.idv.eval
    ensures e.idv.chromosome == idv.chromosome && e.idv.sigmas == idv.sigmas
    ensures !idv.Evaluated() ==> e.value == SumOfSquares(idv.chromosome) && e.log == log + [e.value]
    ensures idv.Evaluated() ==> e.value == idv.eval && e.idv == idv && e.log == log
  {
    if idv.eval == Unset then
      var v := SumOfSquares(idv.chromosome);
      Eval(v, SetEval(idv, v), log + [v])
    else
      Eval(idv.eval, idv, log)
  }

  /** `k` successive requests for the evaluation of one individual. */
  function GetEvalTimes(idv: Individual, log: seq<real>, k: nat): (e: Eval)
    requires k >= 1
    decreases k
  {
    var first := GetEval(idv, log);
    if k == 1 then first else GetEvalTimes(first.idv, first.log, k - 1)
  }

  /** A second request returns the same value and changes nothing. */
  lemma GetEvalIdempotent(idv: Individual, log: seq<real>)
    ensures var e := GetEval(idv, log);
            GetEval(e.idv, e.log) == e
  {
  }

  /**
   However many times an individual is asked for, the log grows by exactly
   one entry if it was unevaluated and by none otherwise, and every request
   returns the same value.
   */
  lemma {:induction false} AtMostOnce(idv: Individual, log: seq<real>, k: nat)
    requires k >= 1
    ensures GetEvalTimes(idv, log, k) == GetEval(idv, log)
    ensures |GetEvalTimes(idv, log, k).log| == |log| + (if idv.Evaluated() then 0 else 1)
    decreases k
  {
    if k > 1 {
      var first := GetEval(idv, log);
      AtMostOnce(first.idv, first.log, k - 1);
      GetEvalIdempotent(idv, log);
    }
  }

  /** The evaluations of the not yet evaluated members, in list order: what evaluating the list appends. */
  function FreshEvals(ps: seq<Individual>): (vs: seq<real>)
    ensures |vs| <= |ps|
  {
    if |ps| == 0 then []
    else (if ps[0].Evaluated() then [] else [SumOfSquares(ps[0].chromosome)]) + FreshEvals(ps[1..])
  }

  /**
   A fully evaluated list has no fresh evaluations; a list with nothing
   evaluated yet has every member's sphere value, in list order.
   */
  lemma {:induction false} FreshEvalsContents(ps: seq<Individual>)
    ensures (forall i :: 0 <= i < |ps| ==> ps[i].Evaluated()) ==> FreshEvals(ps) == []
    ensures (forall i :: 0 <= i < |ps| ==> !ps[i].Evaluated()) ==>
              |FreshEvals(ps)| == |ps| && forall i :: 0 <= i < |ps| ==> FreshEvals(ps)[i] == SumOfSquares(ps[i].chromosome)
    decreases |ps|
  {
    if |ps| > 0 {
      FreshEvalsContents(ps[1..]);
    }
  }

  /** The fresh evaluations of a concatenation are those of its front followed by those of its back. */
  lemma {:induction false} FreshEvalsAppend(a: seq<Individual>, b: seq<Individual>)
    ensures FreshEvals(a + b) == FreshEvals(a) + FreshEvals(b)
    decreases |a|
  {
    if |a| > 0 {
      assert (a + b)[1..] == a[1..] + b;
      FreshEvalsAppend(a[1..], b);
    } else {
      assert a + b == b;
    }
  }

  datatype Evals = Evals(values: seq<real>, members: seq<Individual>, log: seq<real>)

  /**
   Requests the evaluation of every member of a list, front to back, as the
   source's streams over a population do.
   */
  function EvalAll(ps: seq<Individual>, log: seq<real>): (r: Evals)
    ensures |r.values| == |ps| && |r.members| == |ps|
    ensures forall i :: 0 <= i < |ps| ==>
              && r.members[i].Evaluated()
              && r.values[i] == r.members[i].eval
              && r.members[i].chromosome == ps[i].chromosome
              && r.members[i].sigmas == ps[i].sigmas
              && (ps[i].Evaluated() ==> r.members[i] == ps[i])
              && (!ps[i].Evaluated() ==> r.values[i] == SumOfSquares(ps[i].chromosome))
    ensures r.log == log + FreshEvals(ps)
    decreases |ps|
  {
    if |ps| == 0 then Evals([], [], log)
    else
      var e := GetEval(ps[0], log);
      var rest := EvalAll(ps[1..], e.log);
      Evals([e.value] + rest.values, [e.idv] + rest.members, rest.log)
  }

  /** Evaluating an already evaluated list again reports the same values and appends nothing. */
  lemma {:induction false} EvalAllIdempotent(ps: seq<Individual>, log: seq<real>)
    ensures var r := EvalAll(ps, log);
            EvalAll(r.members, r.log) == r
    decreases |ps|
  {
    var r := EvalAll(ps, log);
    forall i | 0 <= i < |r.members| ensures r.members[i].Evaluated() { }
    AllEvaluatedUnchanged(r.members, r.log);
  }

  lemma {:induction false} AllEvaluatedUnchanged(ps: seq<Individual>, log: seq<real>)
    requires forall i :: 0 <= i < |ps| ==> ps[i].Evaluated()
    ensures EvalAll(ps, log) == Evals(seq(|ps|, i requires 0 <= i < |ps| => ps[i].eval), ps, log)
    decreases |ps|
  {
    if |ps| > 0 {
      AllEvaluatedUnchanged(ps[1..], log);
    }
  }

  function Sum(xs: seq<real>): real
  {
    if |xs| == 0 then 0.0 else xs[0] + Sum(xs[1..])
  }

  /** The arithmetic mean of a non-empty list, as the source's stream average. */
  function Mean(xs: seq<real>): (m: real)
    requires |xs| > 0
    ensures m * |xs| as real == Sum(xs)
  {
    Sum(xs) / |xs| as real
  }

  lemma {:induction false} SumAboveBound(xs: seq<real>, b: real)
    requires forall i :: 0 <= i < |xs| ==> xs[i] > b
    ensures |xs| > 0 ==> Sum(xs) > |xs| as real * b
    decreases |xs|
  {
    if |xs| > 1 {
      SumAboveBound(xs[1..], b);
    }
  }

  /** A mean of members that are all above a bound is above it. */
  lemma MeanAboveBound(xs: seq<real>, b: real)
    requires |xs| > 0
    requires forall i :: 0 <= i < |xs| ==> xs[i] > b
    ensures Mean(xs) > b
  {
    SumAboveBound(xs, b);
    var n := |xs| as real;
    assert Sum(xs) > n * b;
    assert Sum(xs) / n > (n * b) / n;
  }

  /**
   A mean at or below a bound has a member at or below it: if the older
   stopping test (on the average) fires, the newer goal test (on any member)
   would fire too.
   */
  lemma MeanAtMostBoundHasMember(xs: seq<real>, b: real)
    requires |xs| > 0 && Mean(xs) <= b
    ensures exists i :: 0 <= i < |xs| && xs[i] <= b
  {
    if forall i :: 0 <= i < |xs| ==> xs[i] > b {
      MeanAboveBound(xs, b);
      assert false;
    }
  }
}

/** Invariants of the evaluation cache across a run. */
module Caching {
  import opened Individuals
  import opened Sphere
  import opened Evaluator

  /** A cached evaluation is the sphere value of the genes the individual holds. */
  predicate Consistent(idv: Individual)
  {
    idv.Evaluated() ==> idv.eval == SumOfSquares(idv.chromosome)
  }

  predicate AllConsistent(ps: seq<Individual>)
  {
    forall i :: 0 <= i < |ps| ==> Consistent(ps[i])
  }

  predicate AllEvaluated(ps: seq<Individual>)
  {
    forall i :: 0 <= i < |ps| ==> ps[i].Evaluated()
  }

  /**
   `ps'` is `ps` in which some unevaluated members have had their evaluation
   computed and cached, and nothing else has changed.
   */
  predicate OnlyCached(ps: seq<Individual>, ps': seq<Individual>)
  {
    && |ps'| == |ps|
    && forall i :: 0 <= i < |ps| ==>
         ps'[i] == ps[i] || (!ps[i].Evaluated() && ps'[i] == SetEval(ps[i], SumOfSquares(ps[i].chromosome)))
  }

  lemma OnlyCachedTransitive(a: seq<Individual>, b: seq<Individual>, c: seq<Individual>)
    requires OnlyCached(a, b) && OnlyCached(b, c)
    ensures OnlyCached(a, c)
  {
  }

  /** Caching keeps a consistent population consistent. */
  lemma OnlyCachedConsistent(ps: seq<Individual>, ps': seq<Individual>)
    requires OnlyCached(ps, ps') && AllConsistent(ps)
    ensures AllConsistent(ps')
  {
  }

  /** `GetEval` on one member of a population only caches. */
  lemma GetEvalOnlyCaches(ps: seq<Individual>, k: nat, log: seq<real>)
    requires k < |ps|
    ensures OnlyCached(ps, ps[k := GetEval(ps[k], log).idv])
  {
  }

  /** Evaluating a whole population changes nothing but caches. */
  lemma EvalAllOnlyCaches(ps: seq<Individual>, log: seq<real>)
    ensures OnlyCached(ps, EvalAll(ps, log).members)
  {
  }

  /** Evaluating a whole population leaves it fully evaluated, and consistent if it was. */
  lemma EvalAllEvaluates(ps: seq<Individual>, log: seq<real>)
    ensures AllEvaluated(EvalAll(ps, log).members)
    ensures AllConsistent(ps) ==> AllConsistent(EvalAll(ps, log).members)
  {
  }

  /** The values reported for a population: cached ones as cached, and for a consistent population its sphere values. */
  lemma EvalAllReports(ps: seq<Individual>, log: seq<real>)
    ensures var r := EvalAll(ps, log);
            && (forall i :: 0 <= i < |ps| && ps[i].Evaluated() ==> r.values[i] == ps[i].eval)
            && (AllConsistent(ps) ==> forall i :: 0 <= i < |ps| ==> r.values[i] == SumOfSquares(ps[i].chromosome))
  {
  }
}

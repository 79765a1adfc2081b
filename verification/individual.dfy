/**
 One candidate solution: a chromosome, the step sizes it carries (empty in
 the variants that keep step sizes elsewhere) and a cached evaluation whose
 value `-1` means "not evaluated yet".
 */
module Individuals {

  /** The sentinel the source stores in an individual that was never evaluated. */
  const Unset: real := -1.0

  datatype Individual = Individual(chromosome: seq<real>, sigmas: seq<real>, eval: real)
  {
    predicate Evaluated() {
      eval != Unset
    }
  }

  /**
   A new individual holding exactly the given genes (the source stores the
   array it is given without copying it) and no evaluation yet.
   */
  function New(chromosome: seq<real>): (idv: Individual)
    ensures idv.chromosome == chromosome && idv.sigmas == []
    ensures !idv.Evaluated()
  {
    Individual(chromosome, [], Unset)
  }

  /** A new individual that also carries its own step sizes. */
  function NewWithSigmas(chromosome: seq<real>, sigmas: seq<real>): (idv: Individual)
    ensures idv.chromosome == chromosome && idv.sigmas == sigmas
    ensures !idv.Evaluated()
  {
    Individual(chromosome, sigmas, Unset)
  }

  /** The starting point of every run: `n` genes, all equal to 1. */
  function Generate(n: nat): (idv: Individual)
    ensures |idv.chromosome| == n
    ensures forall i :: 0 <= i < n ==> idv.chromosome[i] == 1.0
    ensures idv.sigmas == [] && !idv.Evaluated()
  {
    New(seq(n, _ => 1.0))
  }

  /** Stores an evaluation; genes and step sizes are left alone. */
  function SetEval(idv: Individual, v: real): (r: Individual)
    ensures r.eval == v
    ensures r.chromosome == idv.chromosome && r.sigmas == idv.sigmas
  {
    idv.(eval := v)
  }

  /** `SetEval` followed by a read gives back the stored value, and a second store wins. */
  lemma SetEvalThenGet(idv: Individual, v: real, w: real)
    ensures SetEval(idv, v).eval == v
    ensures SetEval(SetEval(idv, v), w) == SetEval(idv, w)
    ensures v != Unset ==> SetEval(idv, v).Evaluated()
  {
  }

  /** The initial population: `mu` independent copies of `Generate(n)`. */
  function InitialPopulation(n: nat, mu: nat): (ps: seq<Individual>)
    ensures |ps| == mu
    ensures forall k :: 0 <= k < mu ==> ps[k] == Generate(n)
  {
    seq(mu, _ => Generate(n))
  }
}

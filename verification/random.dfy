/**
 The random source of a run, abstracted as a fixed stream of draws.

 Position `p` of the stream holds a raw integer `raw(p)` and a standard
 normal variate `normal(p)`. Every call of the generator consumes exactly
 one position, whichever of the two it reads, so the order of the calls in
 the program decides which draw each of them sees. With the stream fixed,
 every operation of the model is a deterministic function of its inputs.
 */
module Random {

  datatype Rng = Rng(raw: nat -> nat, normal: nat -> real, pos: nat)
  {
    /** The same stream, `k` draws further on. */
    function Skip(k: nat): (r: Rng)
      ensures r.raw == raw && r.normal == normal
      ensures r.pos == pos + k
    {
      this.(pos := pos + k)
    }
  }

  /**
   A draw in `[0, bound)`. The generator's own reduction of its raw output is
   abstracted as `raw % bound`: every value of the range is the result for
   some raw draw, so nothing reachable is lost.
   */
  function NextInt(r: Rng, bound: nat): (res: (nat, Rng))
    requires bound > 0
    ensures res.0 < bound
    ensures res.1 == r.Skip(1)
  {
    (r.raw(r.pos) % bound, r.Skip(1))
  }

  /** A Gaussian draw with mean 0 and standard deviation `stddev`: the standard draw at the current position, scaled. */
  function NextGaussian(r: Rng, stddev: real): (res: (real, Rng))
    ensures res.0 == stddev * r.normal(r.pos)
    ensures res.1 == r.Skip(1)
  {
    (stddev * r.normal(r.pos), r.Skip(1))
  }

  /** `k` successive standard normal draws, in call order. */
  function Normals(r: Rng, k: nat): (zs: seq<real>)
    ensures |zs| == k
    ensures forall i :: 0 <= i < k ==> zs[i] == NextGaussian(r.Skip(i), 1.0).0
  {
    seq(k, i requires 0 <= i < k => r.normal(r.pos + i))
  }
}

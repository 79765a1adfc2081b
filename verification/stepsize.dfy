/**
 The log-normal step-size update of the uncorrelated n-step-size mutation,
 shared by its three variants: every step size `d_i` becomes
 `max(d_i * e^(tau' * g' + tau * g_i), epsilon0)` with one shared draw `g'`
 and one draw `g_i` per dimension. The exponential and the square root are
 the platform's floating-point functions; the model takes them as
 parameters and assumes nothing about them unless a lemma says so.
 */
module StepSize {

  /** The floor that keeps a step size from collapsing: `max(x, epsilon0)`. */
  function Floor(x: real, epsilon0: real): (r: real)
    ensures r >= epsilon0
    ensures r >= x
    ensures r == x || r == epsilon0
  {
    if x < epsilon0 then epsilon0 else x
  }

  /** One step size after the update. */
  function Perturb(d: real, gPrime: real, gi: real, tau: real, tauPrime: real, epsilon0: real,
                   exp: real -> real): (r: real)
    ensures r >= epsilon0
    ensures r >= d * exp(tauPrime * gPrime + tau * gi)
    ensures r == epsilon0 || r == d * exp(tauPrime * gPrime + tau * gi)
  {
    Floor(d * exp(tauPrime * gPrime + tau * gi), epsilon0)
  }

  /**
   The first `|ds|` step sizes updated with the shared draw `gPrime` and the
   per-dimension draws `gs`.
   */
  function PerturbAll(ds: seq<real>, gPrime: real, gs: seq<real>, tau: real, tauPrime: real,
                      epsilon0: real, exp: real -> real): (r: seq<real>)
    requires |gs| >= |ds|
    ensures |r| == |ds|
    ensures forall i :: 0 <= i < |ds| ==> r[i] >= epsilon0
    ensures forall i :: 0 <= i < |ds| ==> r[i] == Perturb(ds[i], gPrime, gs[i], tau, tauPrime, epsilon0, exp)
  {
    seq(|ds|, i requires 0 <= i < |ds| => Perturb(ds[i], gPrime, gs[i], tau, tauPrime, epsilon0, exp))
  }

  /** With a positive floor and a positive exponential, every updated step size stays positive. */
  lemma PerturbPositive(d: real, gPrime: real, gi: real, tau: real, tauPrime: real, epsilon0: real,
                        exp: real -> real)
    requires epsilon0 > 0.0
    ensures Perturb(d, gPrime, gi, tau, tauPrime, epsilon0, exp) > 0.0
  {
  }

  /** `sqrt` returns a positive value for a positive argument. */
  ghost predicate PositiveRoot(sqrt: real -> real)
  {
    forall x :: x > 0.0 ==> sqrt(x) > 0.0
  }

  /** `sqrt` is the positive square root on positive arguments. */
  ghost predicate SquareRoot(sqrt: real -> real)
  {
    forall x :: x > 0.0 ==> sqrt(x) > 0.0 && sqrt(x) * sqrt(x) == x
  }

  /** The default tau of the self-adaptive variant: `1e-7 / sqrt(2 * sqrt(n))`. */
  function DefaultTau(n: nat, sqrt: real -> real): (t: real)
    requires n >= 1 && PositiveRoot(sqrt)
    ensures t > 0.0
    ensures t * sqrt(2.0 * sqrt(n as real)) == 0.0000001
  {
    0.0000001 / sqrt(2.0 * sqrt(n as real))
  }

  /** The default tau of the global step-size variant: `1 / sqrt(2 * sqrt(n))`. */
  function GlobalDefaultTau(n: nat, sqrt: real -> real): (t: real)
    requires n >= 1 && PositiveRoot(sqrt)
    ensures t > 0.0
    ensures t * sqrt(2.0 * sqrt(n as real)) == 1.0
  {
    1.0 / sqrt(2.0 * sqrt(n as real))
  }

  /** The default tau' of both variants: `1 / sqrt(2n)`. */
  function DefaultTauPrime(n: nat, sqrt: real -> real): (t: real)
    requires n >= 1 && PositiveRoot(sqrt)
    ensures t > 0.0
    ensures t * sqrt(2.0 * n as real) == 1.0
  {
    1.0 / sqrt(2.0 * n as real)
  }

  /**
   The two revisions' default learning rates differ by exactly the factor
   1e-7 in tau, and both are positive.
   */
  lemma DefaultTauScaled(n: nat, sqrt: real -> real)
    requires n >= 1 && PositiveRoot(sqrt)
    ensures DefaultTau(n, sqrt) == 0.0000001 * GlobalDefaultTau(n, sqrt)
    ensures DefaultTau(n, sqrt) > 0.0 && GlobalDefaultTau(n, sqrt) > 0.0
    ensures DefaultTauPrime(n, sqrt) > 0.0
  {
    var q := sqrt(2.0 * sqrt(n as real));
    assert sqrt(n as real) > 0.0;
    assert q > 0.0;
    assert 0.0000001 / q == 0.0000001 * (1.0 / q);
  }

  /** For a true square root, `2n * tau'^2 == 1`. */
  lemma DefaultTauPrimeSquared(n: nat, sqrt: real -> real)
    requires n >= 1 && SquareRoot(sqrt)
    ensures DefaultTauPrime(n, sqrt) * DefaultTauPrime(n, sqrt) * (2.0 * n as real) == 1.0
  {
    var m := 2.0 * n as real;
    var s := sqrt(m);
    assert s > 0.0 && s * s == m;
    var t := 1.0 / s;
    assert t * s == 1.0;
    calc {
      t * t * m;
      t * t * (s * s);
      (t * s) * (t * s);
      1.0;
    }
  }
}

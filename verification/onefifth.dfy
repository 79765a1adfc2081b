/**
 Rechenberg's 1/5-success rule as the source applies it: at a window
 boundary the success rate `p_s = successes / g` is compared with 1/5; a
 higher rate divides the step size by the factor `a`, a lower rate
 multiplies it by `a`, exactly 1/5 keeps it, and the success count starts
 again from 0.
 */
module OneFifth {

  /** A factor that can be divided by. */
  type NonZero = x: real | x != 0.0 witness 1.0

  const TargetRate: real := 0.2

  /** The default adaptation factor. */
  const DefaultFactor: NonZero := 0.817

  /** The success rate `p_s` of a window: the share of its `g` mutations that succeeded. */
  function SuccessRate(successes: nat, g: nat): (p: real)
    requires g > 0
    ensures 0.0 <= p
    ensures successes <= g ==> p <= 1.0
  {
    successes as real / g as real
  }

  /** The adapted step size after a window with `successes` successful mutations out of `g`. */
  function Adapt(sigma: real, successes: nat, g: nat, a: NonZero): (s: real)
    requires g > 0
    ensures SuccessRate(successes, g) > TargetRate ==> s * a == sigma
    ensures SuccessRate(successes, g) < TargetRate ==> s == sigma * a
    ensures SuccessRate(successes, g) == TargetRate ==> s == sigma
  {
    var ps := SuccessRate(successes, g);
    if ps > TargetRate then sigma / a
    else if ps < TargetRate then sigma * a
    else sigma
  }

  /**
   With a factor strictly between 0 and 1 and a positive step size, a
   success rate above 1/5 enlarges the step, one below 1/5 shrinks it, and
   the step stays positive.
   */
  lemma AdaptDirection(sigma: real, successes: nat, g: nat, a: NonZero)
    requires g > 0 && 0.0 < a < 1.0 && sigma > 0.0
    ensures Adapt(sigma, successes, g, a) > 0.0
    ensures SuccessRate(successes, g) > TargetRate <==> Adapt(sigma, successes, g, a) > sigma
    ensures SuccessRate(successes, g) < TargetRate <==> Adapt(sigma, successes, g, a) < sigma
  {
    ShrinkByFactor(sigma, a);
    GrowByFactor(sigma, a);
  }

  /**
   The rate comparison in integers: out of `g` mutations, `successes` is
   above, below or at 1/5 exactly when five times it is above, below or at `g`.
   */
  lemma RateVersusTarget(successes: nat, g: nat)
    requires g > 0
    ensures SuccessRate(successes, g) < TargetRate <==> 5 * successes < g
    ensures SuccessRate(successes, g) > TargetRate <==> 5 * successes > g
    ensures SuccessRate(successes, g) == TargetRate <==> 5 * successes == g
  {
    var ps := SuccessRate(successes, g);
    var gr := g as real;
    var s := successes as real;
    assert ps * gr == s;
    assert TargetRate * gr == 0.2 * gr;
    assert (5 * successes) as real == 5.0 * s;
    if ps < TargetRate {
      MulStrict(ps, TargetRate, gr);
      calc {
        s;
        == ps * gr;
        < TargetRate * gr;
        == 0.2 * gr;
      }
    } else if ps > TargetRate {
      MulStrict(TargetRate, ps, gr);
      calc {
        s;
        == ps * gr;
        > TargetRate * gr;
        == 0.2 * gr;
      }
    } else {
      assert s == TargetRate * gr;
      assert 5.0 * s == gr;
    }
  }

  lemma MulStrict(x: real, y: real, k: real)
    requires x < y && k > 0.0
    ensures x * k < y * k
  {
    assert (y - x) * k > 0.0;
    assert (y - x) * k == y * k - x * k;
  }

  lemma ShrinkByFactor(sigma: real, a: real)
    requires sigma > 0.0 && 0.0 < a < 1.0
    ensures 0.0 < sigma * a < sigma
  {
    var d := 1.0 - a;
    assert sigma * d > 0.0;
    assert sigma * d == sigma - sigma * a;
  }

  lemma GrowByFactor(sigma: real, a: real)
    requires sigma > 0.0 && 0.0 < a < 1.0
    ensures sigma / a > sigma > 0.0
  {
    var inv := 1.0 / a;
    assert inv > 1.0;
    assert sigma / a == sigma * inv;
    assert sigma * inv - sigma == sigma * (inv - 1.0);
    assert sigma * (inv - 1.0) > 0.0;
  }
}

/**
 The adaptation state of the two 1/5-rule variants: one step size and one
 success counter per offspring slot, or a single scalar pair.
 */
module OneFifthState {
  import opened OneFifth

  datatype SlotWindow = SlotWindow(sigmaPrime: seq<real>, successes: seq<nat>, g: nat, a: NonZero)
  {
    predicate Fits(lambda: nat) {
      |sigmaPrime| == lambda && |successes| == lambda
    }
  }

  /** The constructor's state: `lambda` step sizes equal to `sigma` and `lambda` counters at 0. */
  function NewSlotWindow(lambda: nat, sigma: real, g: nat, a: NonZero): (w: SlotWindow)
    ensures w.Fits(lambda) && w.g == g && w.a == a
    ensures forall k :: 0 <= k < lambda ==> w.sigmaPrime[k] == sigma && w.successes[k] == 0
  {
    SlotWindow(seq(lambda, _ => sigma), seq(lambda, _ => 0), g, a)
  }

  /** The constructor without a factor uses 0.817. */
  function NewSlotWindowDefault(lambda: nat, sigma: real, g: nat): (w: SlotWindow)
    ensures w.a == 0.817
    ensures w == NewSlotWindow(lambda, sigma, g, DefaultFactor)
  {
    NewSlotWindow(lambda, sigma, g, DefaultFactor)
  }

  /**
   The window update of slot `k`: its step size follows the 1/5 rule on its
   own counter, its counter restarts at 0, and every other slot is untouched.
   */
  function UpdateSigma(w: SlotWindow, k: nat): (w': SlotWindow)
    requires w.g > 0 && k < |w.sigmaPrime| && k < |w.successes|
    ensures w'.g == w.g && w'.a == w.a
    ensures |w'.sigmaPrime| == |w.sigmaPrime| && |w'.successes| == |w.successes|
    ensures w'.sigmaPrime[k] == Adapt(w.sigmaPrime[k], w.successes[k], w.g, w.a)
    ensures w'.successes[k] == 0
    ensures forall j :: 0 <= j < |w.sigmaPrime| && j != k ==> w'.sigmaPrime[j] == w.sigmaPrime[j]
    ensures forall j :: 0 <= j < |w.successes| && j != k ==> w'.successes[j] == w.successes[j]
  {
    w.(sigmaPrime := w.sigmaPrime[k := Adapt(w.sigmaPrime[k], w.successes[k], w.g, w.a)],
       successes := w.successes[k := 0])
  }

  /** Counts one more success for slot `k` when `success` holds; nothing else changes. */
  function CountSuccess(w: SlotWindow, k: nat, success: bool): (w': SlotWindow)
    requires k < |w.successes|
    ensures w'.sigmaPrime == w.sigmaPrime && w'.g == w.g && w'.a == w.a
    ensures |w'.successes| == |w.successes|
    ensures w'.successes[k] == w.successes[k] + (if success then 1 else 0)
    ensures forall j :: 0 <= j < |w.successes| && j != k ==> w'.successes[j] == w.successes[j]
  {
    if success then w.(successes := w.successes[k := w.successes[k] + 1]) else w
  }

  datatype ScalarWindow = ScalarWindow(sigmaPrime: real, successes: nat, g: nat, a: NonZero)

  /** The constructor's state: the step size is `sigma` and the counter starts at 0. */
  function NewScalarWindow(sigma: real, g: nat, a: NonZero): (w: ScalarWindow)
    ensures w.sigmaPrime == sigma && w.successes == 0 && w.g == g && w.a == a
  {
    ScalarWindow(sigma, 0, g, a)
  }

  /** The scalar constructor without a factor uses 0.817. */
  function NewScalarWindowDefault(sigma: real, g: nat): (w: ScalarWindow)
    ensures w.a == 0.817
    ensures w == NewScalarWindow(sigma, g, DefaultFactor)
  {
    NewScalarWindow(sigma, g, DefaultFactor)
  }

  /** The scalar window update: the 1/5 rule on the single counter, which restarts at 0. */
  function UpdateScalar(w: ScalarWindow): (w': ScalarWindow)
    requires w.g > 0
    ensures w'.sigmaPrime == Adapt(w.sigmaPrime, w.successes, w.g, w.a)
    ensures w'.successes == 0 && w'.g == w.g && w'.a == w.a
  {
    w.(sigmaPrime := Adapt(w.sigmaPrime, w.successes, w.g, w.a), successes := 0)
  }
}

/**
 The mutation operators of the slot-indexed engine: each call produces one
 offspring for offspring slot `slot` of the current generation, threading
 the random stream, the evaluation log, the parents (whose cached
 evaluations a call may fill in) and the variant's own adaptation state.
 */
module Strategies {
  import opened Random
  import opened Individuals
  import opened Sphere
  import opened Evaluator
  import opened Caching
  import opened OneFifth
  import opened OneFifthState
  import opened StepSize
  import opened Outcomes
  import opened Settings

  datatype Strategy =
      /** A random parent, every gene perturbed with one fixed step size. */
    | Fixed(sigma: real)
      /** The parent at the slot's own index, every gene perturbed with one fixed step size. */
    | FixedBySlot(stddev: real)
      /** The 1/5 rule with one step size and one success counter per offspring slot. */
    | OneFifthPerSlot(window: SlotWindow)
      /** The 1/5 rule with a single step size and counter; the parent at the slot's index. */
    | OneFifthScalar(scalar: ScalarWindow)
      /** Self-adaptation: each individual carries its own n step sizes. */
    | SelfAdaptive(tau: real, tauPrime: real, epsilon0: real)
      /** Self-adaptation with the step sizes stored per parent position (a mu x n matrix). */
    | PerParentSteps(stddevs: seq<seq<real>>, tau: real, tauPrime: real, epsilon0: real)
  {
    /** The array sizes the constructors establish. */
    predicate Fits(cfg: Config) {
      match this
      case OneFifthPerSlot(w) => w.Fits(cfg.lambda)
      case PerParentSteps(rows, _, _, _) => |rows| == cfg.mu && forall k :: 0 <= k < |rows| ==> |rows[k]| == cfg.n
      case _ => true
    }

    predicate SameVariant(other: Strategy) {
      match this
      case Fixed(s) => other == Fixed(s)
      case FixedBySlot(s) => other == FixedBySlot(s)
      case OneFifthPerSlot(w) => other.OneFifthPerSlot? && other.window.g == w.g && other.window.a == w.a
      case OneFifthScalar(w) => other.OneFifthScalar? && other.scalar.g == w.g && other.scalar.a == w.a
      case SelfAdaptive(t, tp, e) => other == SelfAdaptive(t, tp, e)
      case PerParentSteps(_, t, tp, e) =>
        other.PerParentSteps? && other.tau == t && other.tauPrime == tp && other.epsilon0 == e
    }
  }

  /** The parents' step-size matrix of the per-parent variant: mu rows of n entries, all `stddev`. */
  function NewStepMatrix(mu: nat, n: nat, stddev: real): (rows: seq<seq<real>>)
    ensures |rows| == mu
    ensures forall k :: 0 <= k < mu ==> |rows[k]| == n && forall i :: 0 <= i < n ==> rows[k][i] == stddev
  {
    seq(mu, _ => seq(n, _ => stddev))
  }

  datatype Mutation = Mutation(child: Individual, strategy: Strategy, parents: seq<Individual>, rng: Rng, log: seq<real>)

  /** `n` copies of `x`. */
  function Uniform(x: real, n: nat): (s: seq<real>)
    ensures |s| == n && forall i :: 0 <= i < n ==> s[i] == x
  {
    seq(n, _ => x)
  }

  /** Gene `i` plus `steps[i]` times the `i`-th draw of `r`: a fresh array, `c` is not touched. */
  function Jitter(c: seq<real>, steps: seq<real>, r: Rng): (m: seq<real>)
    requires |steps| >= |c|
    ensures |m| == |c|
    ensures forall i :: 0 <= i < |c| ==> m[i] == c[i] + steps[i] * r.normal(r.pos + i)
  {
    seq(|c|, i requires 0 <= i < |c| => c[i] + NextGaussian(r.Skip(i), steps[i]).0)
  }

  /** Gene `i` plus `sigma` times the `i`-th draw of `r`. */
  function Shift(c: seq<real>, sigma: real, r: Rng): (m: seq<real>)
    ensures |m| == |c|
    ensures forall i :: 0 <= i < |c| ==> m[i] == c[i] + sigma * r.normal(r.pos + i)
  {
    Jitter(c, Uniform(sigma, |c|), r)
  }

  /** The outcome of evaluating a mutant and then its parent, as the 1/5 rule does. */
  datatype Duel = Duel(mutant: Individual, parent: Individual, log: seq<real>, success: bool)

  /**
   Evaluates the new mutant with genes `genes` and then the parent `p`
   through the cache; the mutant is a success exactly when it is strictly
   better than its parent.
   */
  function Compete(genes: seq<real>, p: Individual, log: seq<real>): (d: Duel)
    ensures d.mutant.chromosome == genes && d.mutant.sigmas == []
    ensures d.mutant.Evaluated() && d.mutant.eval == SumOfSquares(genes)
    ensures d.parent == GetEval(p, log + [d.mutant.eval]).idv
    ensures d.parent.Evaluated() && d.parent.chromosome == p.chromosome
    ensures d.log == log + [d.mutant.eval] + (if p.Evaluated() then [] else [d.parent.eval])
    ensures d.success <==> d.mutant.eval < d.parent.eval
  {
    var mutant := GetEval(New(genes), log);
    var parent := GetEval(p, mutant.log);
    Duel(mutant.idv, parent.idv, parent.log, mutant.value < parent.value)
  }

  // ---------------------------------------------------------------- fixed step size

  /**
   A uniformly drawn parent with every gene perturbed by its own
   `N(0, sigma)` draw, taken in gene order after the index draw. The slot is
   ignored, the parents are not touched, and the child is new and unevaluated.
   */
  function MutateFixed(sigma: real, mu: nat, parents: seq<Individual>, rng: Rng, log: seq<real>): (r: Result<Mutation>)
    ensures r.Err? <==> mu == 0 || NextInt(rng, mu).0 >= |parents|
    ensures r.Ok? ==>
      var p := parents[NextInt(rng, mu).0].chromosome;
      var m := r.value;
      && |m.child.chromosome| == |p|
      && (forall i :: 0 <= i < |p| ==> m.child.chromosome[i] == p[i] + sigma * rng.normal(rng.pos + 1 + i))
      && m.child.sigmas == [] && !m.child.Evaluated()
      && m.parents == parents && m.log == log && m.strategy == Fixed(sigma)
      && m.rng == rng.Skip(1 + |p|)
  {
    if mu == 0 then Err(IllegalArgument)
    else
      var draw := NextInt(rng, mu);
      if draw.0 >= |parents| then Err(IndexOutOfBounds)
      else
        var p := parents[draw.0].chromosome;
        Ok(Mutation(New(Shift(p, sigma, draw.1)), Fixed(sigma), parents, draw.1.Skip(|p|), log))
  }

  /**
   The older fixed-step operator: the parent is the one at the slot's own
   index, so no index is drawn, and the slot must be a parent position.
   */
  function MutateFixedBySlot(stddev: real, parents: seq<Individual>, slot: nat, rng: Rng, log: seq<real>): (r: Result<Mutation>)
    ensures r.Err? <==> slot >= |parents|
    ensures r.Ok? ==>
      var p := parents[slot].chromosome;
      var m := r.value;
      && |m.child.chromosome| == |p|
      && (forall i :: 0 <= i < |p| ==> m.child.chromosome[i] == p[i] + stddev * rng.normal(rng.pos + i))
      && m.child.sigmas == [] && !m.child.Evaluated()
      && m.parents == parents && m.log == log && m.strategy == FixedBySlot(stddev)
      && m.rng == rng.Skip(|p|)
  {
    if slot >= |parents| then Err(IndexOutOfBounds)
    else
      var p := parents[slot].chromosome;
      Ok(Mutation(New(Shift(p, stddev, rng)), FixedBySlot(stddev), parents, rng.Skip(|p|), log))
  }

  // ---------------------------------------------------------------- 1/5 rule

  /**
   The per-slot 1/5 rule. The parent index is drawn first; in a generation
   whose counter is a multiple of `g` the slot's step size is adapted (and
   its counter reset) before the genes are perturbed with it. The mutant and
   then the parent are evaluated through the cache, and the slot counts a
   success exactly when the mutant is strictly better.
   */
  function MutateOneFifthSlot(w: SlotWindow, mu: nat, iterations: nat, parents: seq<Individual>,
                              slot: nat, rng: Rng, log: seq<real>): (r: Result<Mutation>)
    requires slot < |w.sigmaPrime| && slot < |w.successes|
    ensures r.Err? <==> mu == 0 || w.g == 0 || NextInt(rng, mu).0 >= |parents|
    ensures r.Ok? ==>
      var sel := NextInt(rng, mu).0;
      var adapt := iterations % w.g == 0;
      var step := if adapt then Adapt(w.sigmaPrime[slot], w.successes[slot], w.g, w.a) else w.sigmaPrime[slot];
      var p := parents[sel];
      var m := r.value;
      && |m.child.chromosome| == |p.chromosome|
      && m.child.chromosome == Shift(p.chromosome, step, rng.Skip(1))
      && m.child.sigmas == []
      && m.child.Evaluated() && m.child.eval == SumOfSquares(m.child.chromosome)
      && m.parents == parents[sel := GetEval(p, log + [m.child.eval]).idv]
      && m.log == log + [m.child.eval] + (if p.Evaluated() then [] else [m.parents[sel].eval])
      && m.strategy.OneFifthPerSlot?
      && m.strategy.window.g == w.g && m.strategy.window.a == w.a
      && m.strategy.window.sigmaPrime == w.sigmaPrime[slot := step]
      && |m.strategy.window.successes| == |w.successes|
      && m.strategy.window.successes[slot]
         == (if adapt then 0 else w.successes[slot]) + (if m.child.eval < m.parents[sel].eval then 1 else 0)
      && (forall j :: 0 <= j < |w.successes| && j != slot ==> m.strategy.window.successes[j] == w.successes[j])
      && m.rng == rng.Skip(1 + |p.chromosome|)
  {
    if mu == 0 then Err(IllegalArgument)
    else
      var draw := NextInt(rng, mu);
      if w.g == 0 then Err(DivisionByZero)
      else
        var w1 := if iterations % w.g == 0 then UpdateSigma(w, slot) else w;
        if draw.0 >= |parents| then Err(IndexOutOfBounds)
        else
          var p := parents[draw.0];
          var d := Compete(Shift(p.chromosome, w1.sigmaPrime[slot], rng.Skip(1)), p, log);
          var w2 := CountSuccess(w1, slot, d.success);
          Ok(Mutation(d.mutant, OneFifthPerSlot(w2), parents[draw.0 := d.parent], rng.Skip(1 + |p.chromosome|), d.log))
  }

  /**
   The scalar 1/5 rule. No index is drawn: the parent is the one at the
   slot's index. The window test runs on every call, so in a generation
   whose counter is a multiple of `g` the single step size is adapted once
   per slot, each time from the successes counted since the previous slot.
   */
  function MutateOneFifthScalar(w: ScalarWindow, iterations: nat, parents: seq<Individual>,
                                slot: nat, rng: Rng, log: seq<real>): (r: Result<Mutation>)
    ensures r.Err? <==> w.g == 0 || slot >= |parents|
    ensures r.Ok? ==>
      var adapt := iterations % w.g == 0;
      var step := if adapt then Adapt(w.sigmaPrime, w.successes, w.g, w.a) else w.sigmaPrime;
      var p := parents[slot];
      var m := r.value;
      && |m.child.chromosome| == |p.chromosome|
      && m.child.chromosome == Shift(p.chromosome, step, rng)
      && m.child.sigmas == []
      && m.child.Evaluated() && m.child.eval == SumOfSquares(m.child.chromosome)
      && m.parents == parents[slot := GetEval(p, log + [m.child.eval]).idv]
      && m.log == log + [m.child.eval] + (if p.Evaluated() then [] else [m.parents[slot].eval])
      && m.strategy == OneFifthScalar(ScalarStep(w, iterations, m.child.eval < m.parents[slot].eval))
      && m.rng == rng.Skip(|p.chromosome|)
  {
    if w.g == 0 then Err(DivisionByZero)
    else
      var w1 := if iterations % w.g == 0 then UpdateScalar(w) else w;
      if slot >= |parents| then Err(IndexOutOfBounds)
      else
        var p := parents[slot];
        var d := Compete(Shift(p.chromosome, w1.sigmaPrime, rng), p, log);
        Ok(Mutation(d.mutant, OneFifthScalar(ScalarStep(w, iterations, d.success)), parents[slot := d.parent],
                    rng.Skip(|p.chromosome|), d.log))
  }

  /**
   The scalar window after one call: adapted (counter reset) when the
   generation counter is a multiple of `g`, then one more success counted
   when the mutant won.
   */
  function ScalarStep(w: ScalarWindow, iterations: nat, success: bool): (w': ScalarWindow)
    requires w.g > 0
    ensures w'.g == w.g && w'.a == w.a
    ensures iterations % w.g == 0 ==> w'.sigmaPrime == Adapt(w.sigmaPrime, w.successes, w.g, w.a)
    ensures iterations % w.g != 0 ==> w'.sigmaPrime == w.sigmaPrime
    ensures w'.successes == (if iterations % w.g == 0 then 0 else w.successes) + (if success then 1 else 0)
  {
    var w1 := if iterations % w.g == 0 then UpdateScalar(w) else w;
    if success then w1.(successes := w1.successes + 1) else w1
  }

  // ---------------------------------------------------------------- uncorrelated n step sizes

  /**
   The self-adaptive child of `p`: `n` step sizes, each the parent's
   log-normally perturbed with the shared `gPrime` and its own draw
   (`r`'s first `n`), then `n` genes, each moved by the child's new step
   size times its own draw (`r`'s next `n`).
   */
  function SelfAdaptChild(p: Individual, n: nat, gPrime: real, r: Rng, tau: real, tauPrime: real,
                          epsilon0: real, exp: real -> real): (c: Individual)
    requires |p.sigmas| >= n && |p.chromosome| >= n
    ensures |c.sigmas| == n && |c.chromosome| == n && !c.Evaluated()
    ensures forall i :: 0 <= i < n ==>
              c.sigmas[i] == Perturb(p.sigmas[i], gPrime, r.normal(r.pos + i), tau, tauPrime, epsilon0, exp)
    ensures forall i :: 0 <= i < n ==> c.chromosome[i] == p.chromosome[i] + c.sigmas[i] * r.normal(r.pos + n + i)
  {
    var sigmas := PerturbAll(p.sigmas[..n], gPrime, Normals(r, n), tau, tauPrime, epsilon0, exp);
    NewWithSigmas(Jitter(p.chromosome[..n], sigmas, r.Skip(n)), sigmas)
  }

  /**
   Self-adaptation with step sizes carried by the individual. Draw order:
   the parent index, one shared `g'`, `n` draws for the step sizes, then `n`
   draws for the genes. The child gets new arrays of length `n`: step `i` is
   the parent's step `i` log-normally perturbed and floored at `epsilon0`,
   and gene `i` moves by the child's NEW step `i` times its own draw.
   */
  function MutateSelfAdaptive(n: nat, tau: real, tauPrime: real, epsilon0: real, exp: real -> real,
                              mu: nat, parents: seq<Individual>, rng: Rng, log: seq<real>): (r: Result<Mutation>)
    ensures r.Err? <==>
      mu == 0 ||
      var sel := NextInt(rng, mu).0;
      sel >= |parents| || |parents[sel].sigmas| < n || |parents[sel].chromosome| < n
    ensures r.Ok? ==>
      var p := parents[NextInt(rng, mu).0];
      var gPrime := rng.normal(rng.pos + 1);
      var m := r.value;
      && m.child == SelfAdaptChild(p, n, gPrime, rng.Skip(2), tau, tauPrime, epsilon0, exp)
      && (forall i :: 0 <= i < n ==> m.child.sigmas[i] >= epsilon0)
      && m.parents == parents && m.log == log && m.strategy == SelfAdaptive(tau, tauPrime, epsilon0)
      && m.rng == rng.Skip(2 + 2 * n)
  {
    if mu == 0 then Err(IllegalArgument)
    else
      var draw := NextInt(rng, mu);
      if draw.0 >= |parents| then Err(IndexOutOfBounds)
      else
        var p := parents[draw.0];
        if |p.sigmas| < n || |p.chromosome| < n then Err(IndexOutOfBounds)
        else
          // after the index: g' at the next position, then n draws for the steps and n for the genes
          var gPrime := rng.normal(rng.pos + 1);
          Ok(Mutation(SelfAdaptChild(p, n, gPrime, rng.Skip(2), tau, tauPrime, epsilon0, exp),
                      SelfAdaptive(tau, tauPrime, epsilon0), parents, rng.Skip(2 + 2 * n), log))
  }

  /**
   Self-adaptation with step sizes indexed by parent position. Row `sel` of
   the matrix is updated in place (one shared `g'`, one draw per dimension,
   floored at `epsilon0`) before the parent at `sel` is mutated with it; the
   child carries no step sizes, so they stay with the position, not with an
   individual.
   */
  function MutatePerParent(rows: seq<seq<real>>, tau: real, tauPrime: real, epsilon0: real, exp: real -> real,
                           n: nat, mu: nat, parents: seq<Individual>, rng: Rng, log: seq<real>): (r: Result<Mutation>)
    requires |rows| == mu && forall k :: 0 <= k < mu ==> |rows[k]| == n
    ensures r.Err? <==>
      mu == 0 ||
      var sel := NextInt(rng, mu).0;
      sel >= |parents| || |parents[sel].chromosome| > n
    ensures r.Ok? ==>
      var sel := NextInt(rng, mu).0;
      var p := parents[sel].chromosome;
      var row := PerturbAll(rows[sel], rng.normal(rng.pos + 1), Normals(rng.Skip(2), n), tau, tauPrime, epsilon0, exp);
      var m := r.value;
      && m.strategy == PerParentSteps(rows[sel := row], tau, tauPrime, epsilon0)
      && (forall i :: 0 <= i < n ==> row[i] >= epsilon0)
      && m.child == New(Jitter(p, row, rng.Skip(2 + n)))
      && m.parents == parents && m.log == log
      && m.rng == rng.Skip(2 + n + |p|)
  {
    if mu == 0 then Err(IllegalArgument)
    else
      var sel := NextInt(rng, mu).0;
      // after the index: g' at the next position, then n draws for the row and one per gene
      var row := PerturbAll(rows[sel], rng.normal(rng.pos + 1), Normals(rng.Skip(2), n), tau, tauPrime, epsilon0, exp);
      if sel >= |parents| then Err(IndexOutOfBounds)
      else
        var p := parents[sel].chromosome;
        if |p| > n then Err(IndexOutOfBounds)
        else
          Ok(Mutation(New(Jitter(p, row, rng.Skip(2 + n))), PerParentSteps(rows[sel := row], tau, tauPrime, epsilon0),
                      parents, rng.Skip(2 + n + |p|), log))
  }

  // ---------------------------------------------------------------- dispatch

  /**
   One call of the active variant's mutation for offspring slot `slot`.
   Whatever the variant, the parents only gain cached evaluations, the log
   only grows, the adaptation state keeps its shape, and a consistent cache
   stays consistent.
   */
  function Mutate(s: Strategy, exp: real -> real, cfg: Config, iterations: nat, parents: seq<Individual>, slot: nat,
                  rng: Rng, log: seq<real>): (r: Result<Mutation>)
    requires s.Fits(cfg) && slot < cfg.lambda
    ensures r.Ok? ==> r.value.strategy.Fits(cfg) && s.SameVariant(r.value.strategy)
    ensures r.Ok? ==> OnlyCached(parents, r.value.parents)
    ensures r.Ok? ==> |r.value.log| >= |log| && r.value.log[..|log|] == log
    ensures r.Ok? ==> Consistent(r.value.child)
  {
    match s
    case Fixed(sigma) => MutateFixed(sigma, cfg.mu, parents, rng, log)
    case FixedBySlot(stddev) => MutateFixedBySlot(stddev, parents, slot, rng, log)
    case OneFifthPerSlot(w) =>
      var r := MutateOneFifthSlot(w, cfg.mu, iterations, parents, slot, rng, log);
      if r.Ok? then
        var sel := NextInt(rng, cfg.mu).0;
        GetEvalOnlyCaches(parents, sel, log + [r.value.child.eval]);
        r
      else r
    case OneFifthScalar(w) =>
      var r := MutateOneFifthScalar(w, iterations, parents, slot, rng, log);
      if r.Ok? then
        GetEvalOnlyCaches(parents, slot, log + [r.value.child.eval]);
        r
      else r
    case SelfAdaptive(tau, tauPrime, epsilon0) =>
      MutateSelfAdaptive(cfg.n, tau, tauPrime, epsilon0, exp, cfg.mu, parents, rng, log)
    case PerParentSteps(rows, tau, tauPrime, epsilon0) =>
      MutatePerParent(rows, tau, tauPrime, epsilon0, exp, cfg.n, cfg.mu, parents, rng, log)
  }

  // ---------------------------------------------------------------- properties

  /** The fixed-step operator ignores the slot it is called for. */
  lemma FixedIgnoresSlot(sigma: real, exp: real -> real, cfg: Config, iterations: nat, parents: seq<Individual>,
                         slot1: nat, slot2: nat, rng: Rng, log: seq<real>)
    requires slot1 < cfg.lambda && slot2 < cfg.lambda
    ensures Mutate(Fixed(sigma), exp, cfg, iterations, parents, slot1, rng, log)
         == Mutate(Fixed(sigma), exp, cfg, iterations, parents, slot2, rng, log)
  {
  }

  /**
   The two fixed-step operators differ only in how the parent is chosen:
   when the random index happens to equal the slot, the drawn-parent
   operator produces the same child as the slot-parent operator applied to
   the stream after the index draw.
   */
  lemma FixedAgreesWithFixedBySlot(sigma: real, mu: nat, parents: seq<Individual>, slot: nat, rng: Rng, log: seq<real>)
    requires mu > 0 && slot < |parents| && NextInt(rng, mu).0 == slot
    ensures var drawn := MutateFixed(sigma, mu, parents, rng, log);
            var bySlot := MutateFixedBySlot(sigma, parents, slot, rng.Skip(1), log);
            drawn.Ok? && bySlot.Ok? && drawn.value == bySlot.value.(strategy := Fixed(sigma))
  {
    var drawn := MutateFixed(sigma, mu, parents, rng, log).value;
    var bySlot := MutateFixedBySlot(sigma, parents, slot, rng.Skip(1), log).value;
    assert drawn.child.chromosome == bySlot.child.chromosome;
  }

  /**
   The first generation of the per-slot 1/5 rule always shrinks: every
   counter starts at 0, a rate of 0 is below 1/5, so each slot's first
   mutation uses `sigma * a`.
   */
  lemma FirstGenerationShrinks(lambda: nat, sigma: real, g: nat, a: NonZero, mu: nat, parents: seq<Individual>,
                               slot: nat, rng: Rng, log: seq<real>)
    requires g > 0 && slot < lambda
    requires MutateOneFifthSlot(NewSlotWindow(lambda, sigma, g, a), mu, 0, parents, slot, rng, log).Ok?
    ensures var m := MutateOneFifthSlot(NewSlotWindow(lambda, sigma, g, a), mu, 0, parents, slot, rng, log).value;
            m.strategy.window.sigmaPrime[slot] == sigma * a
  {
    RateVersusTarget(0, g);
  }

  /**
   In a window generation of the scalar 1/5 rule with a window longer than
   5, the adaptation runs again at the next slot from a counter of at most
   1, which is below 1/5 of the window: the step shrinks by `a` once per
   offspring slot, not once per window.
   */
  lemma ScalarShrinksAgain(w: ScalarWindow, iterations: nat, success: bool, next: bool)
    requires w.g > 5 && iterations % w.g == 0
    ensures var w' := ScalarStep(w, iterations, success);
            && w'.successes <= 1
            && ScalarStep(w', iterations, next).sigmaPrime == w'.sigmaPrime * w.a
  {
    var w' := ScalarStep(w, iterations, success);
    RateVersusTarget(w'.successes, w'.g);
  }
}

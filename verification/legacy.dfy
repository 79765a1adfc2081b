/**
 The older generational loop. Its mutation operators work on a bare
 chromosome: the plain operator perturbs a copy with one fixed step size,
 the global-step-size operator first updates one shared vector of `n` step
 sizes and then writes the perturbed genes back into the parent's own
 array, so the parent's cached evaluation no longer matches its genes.
 The loop is a do-while: a generation always runs, then the run stops when
 the parents' average reached the threshold or the counter reached its cap.
 */
module Legacy {
  import opened Random
  import opened Individuals
  import opened Sphere
  import opened Evaluator
  import opened Caching
  import opened Selection
  import opened StepSize
  import opened Outcomes
  import opened Settings
  import opened Engine
  import opened Strategies

  /** The fixed cap on the generation counter. */
  const Cap: nat := 10000000

  datatype LegacyStrategy =
      /** Every gene plus its own `N(0, stddev)` draw. */
    | Plain(stddev: real)
      /** One vector of step sizes shared by the whole run, updated before every mutation. */
    | GlobalSteps(stddevs: seq<real>, tau: real, tauPrime: real, epsilon0: real)
  {
    predicate Fits(n: nat) {
      GlobalSteps? ==> |stddevs| == n
    }
  }

  /** The global-step-size operator as constructed: `n` step sizes, all `stddev`. */
  function NewGlobalSteps(n: nat, stddev: real, tau: real, tauPrime: real, epsilon0: real): (s: LegacyStrategy)
    ensures s.GlobalSteps? && s.Fits(n)
    ensures forall i :: 0 <= i < n ==> s.stddevs[i] == stddev
    ensures s.tau == tau && s.tauPrime == tauPrime && s.epsilon0 == epsilon0
  {
    GlobalSteps(seq(n, _ => stddev), tau, tauPrime, epsilon0)
  }

  /** What one legacy mutation yields: the new genes, the parent's genes afterwards, the updated operator and stream. */
  datatype Mutated = Mutated(genes: seq<real>, written: seq<real>, strategy: LegacyStrategy, rng: Rng)

  /**
   One legacy mutation of chromosome `c`. The global-step-size operator
   draws one shared `g'` and `n` values `g_i`, updates every step size, and
   reuses the same `g_i` to move gene `i`; a chromosome longer than `n`
   runs past the step sizes.
   */
  function LegacyMutate(s: LegacyStrategy, exp: real -> real, n: nat, c: seq<real>, rng: Rng): (r: Result<Mutated>)
    requires s.Fits(n)
    ensures s.Plain? ==> r.Ok? && var m := r.value;
      && |m.genes| == |c|
      && (forall i :: 0 <= i < |c| ==> m.genes[i] == c[i] + s.stddev * rng.normal(rng.pos + i))
      && m.written == c && m.strategy == s && m.rng == rng.Skip(|c|)
    ensures s.GlobalSteps? ==> (r.Err? <==> |c| > n)
    ensures s.GlobalSteps? && r.Ok? ==>
      r.value == GlobalMutation(s.stddevs, s.tau, s.tauPrime, s.epsilon0, exp, c, rng)
  {
    match s
    case Plain(stddev) =>
      var genes := Shift(c, stddev, rng);
      Ok(Mutated(genes, c, s, rng.Skip(|c|)))
    case GlobalSteps(ds, tau, tauPrime, epsilon0) =>
      if |c| > n then Err(IndexOutOfBounds)
      else Ok(GlobalMutation(ds, tau, tauPrime, epsilon0, exp, c, rng))
  }

  /**
   The global-step-size mutation of a chromosome no longer than the step
   sizes: draw `g'`, then one `g_i` per step size; step size `i` is updated
   with `g'` and `g_i`, and gene `i` moves by the updated step size times
   the same `g_i`. The moved genes are also what the parent holds afterwards.
   */
  function GlobalMutation(ds: seq<real>, tau: real, tauPrime: real, epsilon0: real, exp: real -> real,
                          c: seq<real>, rng: Rng): (m: Mutated)
    requires |c| <= |ds|
    ensures var gPrime := rng.normal(rng.pos);
      && m.strategy.GlobalSteps? && |m.strategy.stddevs| == |ds|
      && m.strategy.tau == tau && m.strategy.tauPrime == tauPrime && m.strategy.epsilon0 == epsilon0
      && (forall i :: 0 <= i < |ds| ==>
            m.strategy.stddevs[i] == Perturb(ds[i], gPrime, rng.normal(rng.pos + 1 + i), tau, tauPrime, epsilon0, exp))
    ensures |m.genes| == |c|
    ensures forall i :: 0 <= i < |c| ==> m.genes[i] == c[i] + m.strategy.stddevs[i] * rng.normal(rng.pos + 1 + i)
    ensures m.written == m.genes
    ensures m.rng == rng.Skip(1 + |ds|)
  {
    // g' first, then one draw per step size, reused for the gene of the same index
    var ds' := PerturbAll(ds, rng.normal(rng.pos), Normals(rng.Skip(1), |ds|), tau, tauPrime, epsilon0, exp);
    var genes := Jitter(c, ds', rng.Skip(1));
    Mutated(genes, genes, GlobalSteps(ds', tau, tauPrime, epsilon0), rng.Skip(1 + |ds|))
  }

  /** One bred offspring: the child, the parents after the write-back, the updated operator and stream. */
  datatype Bred = Bred(child: Individual, parents: seq<Individual>, strategy: LegacyStrategy, rng: Rng)

  /**
   One offspring slot: draw a parent index below `mu`, look the parent up,
   mutate its chromosome, write the chromosome back into that parent as the
   operator left it (the cached evaluation is kept), and wrap the new genes
   in a new, unevaluated individual.
   */
  function BreedOne(cfg: Config, exp: real -> real, parents: seq<Individual>, s: LegacyStrategy, rng: Rng): (r: Result<Bred>)
    requires s.Fits(cfg.n)
    ensures r.Ok? <==>
      && cfg.mu > 0
      && NextInt(rng, cfg.mu).0 < |parents|
      && LegacyMutate(s, exp, cfg.n, parents[NextInt(rng, cfg.mu).0].chromosome, rng.Skip(1)).Ok?
    ensures r.Err? && r.fault == IllegalArgument ==> cfg.mu == 0
    ensures r.Ok? ==>
      var d := NextInt(rng, cfg.mu).0;
      var m := LegacyMutate(s, exp, cfg.n, parents[d].chromosome, rng.Skip(1)).value;
      && r.value.child == New(m.genes)
      && r.value.parents == parents[d := parents[d].(chromosome := m.written)]
      && r.value.strategy == m.strategy && r.value.rng == m.rng
    ensures r.Ok? ==>
      && |r.value.parents| == |parents|
      && (forall i :: 0 <= i < |parents| ==>
            r.value.parents[i].eval == parents[i].eval && r.value.parents[i].sigmas == parents[i].sigmas)
      && r.value.strategy.Fits(cfg.n) && r.value.strategy.Plain? == s.Plain?
      && (s.Plain? ==> r.value.parents == parents && r.value.strategy == s)
  {
    if cfg.mu == 0 then Err(IllegalArgument)
    else
      var d := NextInt(rng, cfg.mu);
      if d.0 >= |parents| then Err(IndexOutOfBounds)
      else
        match LegacyMutate(s, exp, cfg.n, parents[d.0].chromosome, d.1)
        case Err(f) => Err(f)
        case Ok(m) => Ok(Bred(New(m.genes), parents[d.0 := parents[d.0].(chromosome := m.written)], m.strategy, m.rng))
  }

  datatype Brood = Brood(offspring: seq<Individual>, parents: seq<Individual>, strategy: LegacyStrategy, rng: Rng)

  /**
   Breeds the offspring of slots `slot .. lambda-1` in slot order, each slot
   working on the parents, operator and stream the previous one left.
   */
  function LegacyBreed(cfg: Config, exp: real -> real, parents: seq<Individual>, s: LegacyStrategy, rng: Rng, slot: nat): (r: Result<Brood>)
    requires s.Fits(cfg.n) && slot <= cfg.lambda
    ensures r.Ok? ==> var b := r.value;
      && |b.offspring| == cfg.lambda - slot
      && (forall k :: 0 <= k < |b.offspring| ==> !b.offspring[k].Evaluated())
      && |b.parents| == |parents|
      && (forall i :: 0 <= i < |parents| ==> b.parents[i].eval == parents[i].eval && b.parents[i].sigmas == parents[i].sigmas)
      && b.strategy.Fits(cfg.n) && b.strategy.Plain? == s.Plain?
      && (s.Plain? ==> b.parents == parents && b.strategy == s)
    ensures r.Err? && r.fault == IllegalArgument ==> cfg.mu == 0
    // no slot left: nothing is drawn and nothing changes
    ensures slot == cfg.lambda ==> r == Ok(Brood([], parents, s, rng))
    // otherwise the first offspring is this slot's, and the remaining slots continue from what it left
    ensures slot < cfg.lambda ==>
      var one := BreedOne(cfg, exp, parents, s, rng);
      && (one.Err? ==> r == Err(one.fault))
      && (one.Ok? ==>
            var rest := LegacyBreed(cfg, exp, one.value.parents, one.value.strategy, one.value.rng, slot + 1);
            && (rest.Err? ==> r == Err(rest.fault))
            && (rest.Ok? ==> r == Ok(rest.value.(offspring := [one.value.child] + rest.value.offspring))))
    decreases cfg.lambda - slot
  {
    if slot == cfg.lambda then Ok(Brood([], parents, s, rng))
    else
      var one := BreedOne(cfg, exp, parents, s, rng);
      if one.Err? then Err(one.fault)
      else
        var rest := LegacyBreed(cfg, exp, one.value.parents, one.value.strategy, one.value.rng, slot + 1);
        if rest.Err? then Err(rest.fault)
        else Ok(rest.value.(offspring := [one.value.child] + rest.value.offspring))
  }

  datatype LegacyState = LegacyState(parents: seq<Individual>, strategy: LegacyStrategy, rng: Rng, log: seq<real>, iterations: nat)

  datatype LegacyStep = LegacyStep(record: Record, state: LegacyState, finished: bool)

  /** How many pool members the replacement step looks at. */
  function PoolLimit(cfg: Config): (l: nat)
    ensures l >= cfg.lambda
    ensures cfg.mode == Plus ==> l - cfg.lambda == cfg.mu
    ensures cfg.mode == Comma ==> l == cfg.lambda
  {
    if cfg.mode == Plus then cfg.lambda + cfg.mu else cfg.lambda
  }

  datatype Replacement = Replacement(offspringEvals: seq<real>, next: seq<Individual>, log: seq<real>)

  /**
   Evaluates the new offspring, then keeps the `mu` best of the offspring
   followed by the (already evaluated) parents, the list first cut to
   `PoolLimit` members.
   */
  function LegacyReplace(cfg: Config, offspring: seq<Individual>, parents: seq<Individual>, log: seq<real>): (r: Replacement)
    requires AllEvaluated(parents)
    ensures |r.offspringEvals| == |offspring|
    ensures forall j :: 0 <= j < |offspring| && !offspring[j].Evaluated() ==> r.offspringEvals[j] == SumOfSquares(offspring[j].chromosome)
    ensures |r.next| == Min(cfg.mu, Min(PoolLimit(cfg), |offspring| + |parents|))
    ensures AllEvaluated(r.next) && SortedByEval(r.next)
    ensures AllConsistent(offspring) && AllConsistent(parents) ==> AllConsistent(r.next)
    ensures r.log == log + FreshEvals(offspring)
    // the survivors are the selection from the evaluated offspring followed by the parents, cut to the limit
    ensures var whole := EvalAll(offspring, log).members + parents;
            r.next == Select(whole[..Min(PoolLimit(cfg), |whole|)], cfg.mu)
    ensures r.offspringEvals == EvalAll(offspring, log).values
  {
    var oe := EvalAll(offspring, log);
    EvalAllEvaluates(offspring, log);
    var whole := oe.members + parents;
    var pool := whole[..Min(PoolLimit(cfg), |whole|)];
    assert AllEvaluated(pool) by {
      forall k | 0 <= k < |pool| ensures pool[k].Evaluated() {
        assert pool[k] == whole[k];
      }
    }
    SelectEvaluated(pool, cfg.mu);
    if AllConsistent(offspring) && AllConsistent(parents) then
      assert AllConsistent(pool) by {
        forall k | 0 <= k < |pool| ensures Consistent(pool[k]) {
          assert pool[k] == whole[k];
        }
      }
      SelectConsistent(pool, cfg.mu);
      Replacement(oe.values, Select(pool, cfg.mu), oe.log)
    else
      Replacement(oe.values, Select(pool, cfg.mu), oe.log)
  }

  /**
   When there are exactly `lambda` offspring and, in Plus mode, no more
   than `mu` parents, the cut keeps the whole pool, so the older
   replacement selects from the same pool as the newer engine: the
   offspring, followed by the parents in Plus mode only.
   */
  lemma ReplaceMatchesPool(cfg: Config, offspring: seq<Individual>, parents: seq<Individual>, log: seq<real>)
    requires AllEvaluated(parents) && |offspring| == cfg.lambda
    requires cfg.mode == Plus ==> |parents| <= cfg.mu
    ensures LegacyReplace(cfg, offspring, parents, log).next
         == Select(Pool(cfg.mode, EvalAll(offspring, log).members, parents), cfg.mu)
  {
    var members := EvalAll(offspring, log).members;
    var whole := members + parents;
    var cut := whole[..Min(PoolLimit(cfg), |whole|)];
    assert cut == Pool(cfg.mode, members, parents) by {
      if cfg.mode == Plus {
        assert cut == whole;
      } else {
        assert cut == members;
      }
    }
  }

  /**
   One legacy generation, row number `row`: average the parents (an empty
   population has no average), decide whether this is the last generation
   (the counter is only advanced when the average missed the threshold),
   breed, record, and select the `mu` best of the offspring followed by
   the parents, cut to `lambda + mu` in Plus mode and to `lambda` otherwise.
   */
  function LegacyGeneration(cfg: Config, exp: real -> real, row: nat, st: LegacyState): (r: Result<LegacyStep>)
    requires st.strategy.Fits(cfg.n)
    ensures |st.parents| == 0 ==> r == Err(NoSuchElement)
    ensures r.Ok? ==> |st.parents| > 0 && var rec := r.value.record;
      && rec.iteration == row
      && |rec.parentEvals| == |st.parents| && rec.average == Mean(rec.parentEvals)
      && (forall i :: 0 <= i < |st.parents| && st.parents[i].Evaluated() ==> rec.parentEvals[i] == st.parents[i].eval)
      && (AllConsistent(st.parents) ==> forall i :: 0 <= i < |st.parents| ==> rec.parentEvals[i] == SumOfSquares(st.parents[i].chromosome))
      && |rec.offspringEvals| == cfg.lambda
      && (r.value.finished <==> rec.average <= Threshold || st.iterations + 1 >= Cap)
      && r.value.state.iterations == (if rec.average <= Threshold then st.iterations else st.iterations + 1)
    ensures r.Ok? ==> var next := r.value.state.parents;
      && |next| == Min(cfg.mu, Min(PoolLimit(cfg), cfg.lambda + |st.parents|))
      && AllEvaluated(next) && SortedByEval(next)
      && r.value.state.strategy.Fits(cfg.n) && r.value.state.strategy.Plain? == st.strategy.Plain?
      && (st.strategy.Plain? && AllConsistent(st.parents) ==> AllConsistent(next))
    // the offspring cells, survivors, operator, stream and log are those of breeding and replacing
    // from the parents after their evaluation
    ensures r.Ok? ==> var pe := EvalAll(st.parents, st.log);
      && AllEvaluated(pe.members)
      && var o := BreedAndReplace(cfg, exp, pe.members, st.strategy, st.rng, pe.log);
      && o.Ok?
      && r.value.record.offspringEvals == o.value.offspringEvals
      && r.value.state == LegacyState(o.value.next, o.value.strategy, o.value.rng, o.value.log, r.value.state.iterations)
    // with parents, the generation succeeds exactly when breeding and replacing does, and otherwise fails with its fault
    ensures |st.parents| > 0 ==> var pe := EvalAll(st.parents, st.log);
      && AllEvaluated(pe.members)
      && var o := BreedAndReplace(cfg, exp, pe.members, st.strategy, st.rng, pe.log);
      && (r.Ok? <==> o.Ok?)
      && (r.Err? ==> r.fault == o.fault)
  {
    if |st.parents| == 0 then Err(NoSuchElement)
    else
      var pe := EvalAll(st.parents, st.log);
      EvalAllEvaluates(st.parents, st.log);
      EvalAllReports(st.parents, st.log);
      var avg := Mean(pe.values);
      var finished := avg <= Threshold || st.iterations + 1 >= Cap;
      var iterations := if avg <= Threshold then st.iterations else st.iterations + 1;
      match BreedAndReplace(cfg, exp, pe.members, st.strategy, st.rng, pe.log)
      case Err(f) => Err(f)
      case Ok(o) =>
        Ok(LegacyStep(Record(row, avg, pe.values, o.offspringEvals), LegacyState(o.next, o.strategy, o.rng, o.log, iterations), finished))
  }

  datatype Offspring = Offspring(offspringEvals: seq<real>, next: seq<Individual>, strategy: LegacyStrategy, rng: Rng, log: seq<real>)

  /** The second half of a legacy generation: breed every slot from the evaluated parents, then replace. */
  function BreedAndReplace(cfg: Config, exp: real -> real, parents: seq<Individual>, s: LegacyStrategy, rng: Rng,
                           log: seq<real>): (r: Result<Offspring>)
    requires s.Fits(cfg.n) && AllEvaluated(parents)
    ensures r.Ok? ==> var o := r.value;
      && |o.offspringEvals| == cfg.lambda
      && |o.next| == Min(cfg.mu, Min(PoolLimit(cfg), cfg.lambda + |parents|))
      && AllEvaluated(o.next) && SortedByEval(o.next)
      && o.strategy.Fits(cfg.n) && o.strategy.Plain? == s.Plain?
      && (s.Plain? && AllConsistent(parents) ==> AllConsistent(o.next))
    // breeding, then replacement from the parents as breeding left them
    ensures var b := LegacyBreed(cfg, exp, parents, s, rng, 0);
      && (r.Ok? <==> b.Ok?)
      && (r.Err? ==> r.fault == b.fault)
      && (r.Ok? ==> var rep := LegacyReplace(cfg, b.value.offspring, b.value.parents, log);
            && r.value.offspringEvals == rep.offspringEvals && r.value.next == rep.next && r.value.log == rep.log
            && r.value.strategy == b.value.strategy && r.value.rng == b.value.rng)
  {
    match LegacyBreed(cfg, exp, parents, s, rng, 0)
    case Err(f) => Err(f)
    case Ok(b) =>
      assert AllEvaluated(b.parents) by {
        forall i | 0 <= i < |b.parents| ensures b.parents[i].Evaluated() {
          assert b.parents[i].eval == parents[i].eval;
        }
      }
      var rep := LegacyReplace(cfg, b.offspring, b.parents, log);
      Ok(Offspring(rep.offspringEvals, rep.next, b.strategy, b.rng, rep.log))
  }

  /** Selecting from a pool whose cached evaluations are right keeps them right. */
  lemma SelectConsistent(pool: seq<Individual>, mu: nat)
    ensures AllConsistent(pool) ==> AllConsistent(Select(pool, mu))
  {
    if AllConsistent(pool) {
      var next := Select(pool, mu);
      forall k | 0 <= k < |next| ensures Consistent(next[k]) {
        assert next[k] in pool;
      }
    }
  }

  datatype LegacyOutcome = LegacyOutcome(status: Status, header: seq<Column>, records: seq<Record>, state: LegacyState)

  /** Why a finished run stopped, read off its last row. */
  function StopReason(records: seq<Record>): (s: Status)
    requires |records| > 0
    ensures !s.Failed?
    ensures s == Converged <==> records[|records| - 1].average <= Threshold
  {
    if records[|records| - 1].average <= Threshold then Converged else CappedOut
  }

  /**
   The do-while as a recursion: run a generation on the state the previous
   one left and append its row; stop after the generation that finishes,
   or at the first fault.
   */
  function LegacyIterate(cfg: Config, exp: real -> real, records: seq<Record>, st: LegacyState): (out: LegacyOutcome)
    requires st.strategy.Fits(cfg.n) && st.iterations < Cap
    ensures out.header == LegacyHeader(cfg.mu, cfg.lambda)
    ensures |records| <= |out.records|
    ensures !out.status.Failed? ==> |records| < |out.records| && out.status == StopReason(out.records)
    decreases Cap - st.iterations
  {
    match LegacyGeneration(cfg, exp, |records|, st)
    case Err(f) => LegacyOutcome(Failed(f), LegacyHeader(cfg.mu, cfg.lambda), records, st)
    case Ok(step) =>
      if step.finished then
        LegacyOutcome(StopReason(records + [step.record]), LegacyHeader(cfg.mu, cfg.lambda), records + [step.record], step.state)
      else LegacyIterate(cfg, exp, records + [step.record], step.state)
  }

  /** One step of the recursion: a fault ends it, a finishing generation ends it after its row, any other continues from the state it left. */
  lemma LegacyIterateStep(cfg: Config, exp: real -> real, records: seq<Record>, st: LegacyState)
    requires st.strategy.Fits(cfg.n) && st.iterations < Cap
    ensures var g := LegacyGeneration(cfg, exp, |records|, st);
      && (g.Err? ==> LegacyIterate(cfg, exp, records, st) == LegacyOutcome(Failed(g.fault), LegacyHeader(cfg.mu, cfg.lambda), records, st))
      && (g.Ok? && g.value.finished ==>
            LegacyIterate(cfg, exp, records, st)
            == LegacyOutcome(StopReason(records + [g.value.record]), LegacyHeader(cfg.mu, cfg.lambda), records + [g.value.record], g.value.state))
      && (g.Ok? && !g.value.finished ==>
            && g.value.state.strategy.Fits(cfg.n) && g.value.state.iterations < Cap
            && LegacyIterate(cfg, exp, records, st) == LegacyIterate(cfg, exp, records + [g.value.record], g.value.state))
  {
  }

  /** The invariant of the legacy loop after `records` rows, in state `st`. */
  predicate LegacyRunning(cfg: Config, s0: LegacyStrategy, records: seq<Record>, st: LegacyState, finished: bool)
  {
    && st.strategy.Fits(cfg.n) && st.strategy.Plain? == s0.Plain?
    && (s0.Plain? ==> AllConsistent(st.parents))
    && Progress(records, st.iterations, finished)
    && (cfg.mu == 0 ==> records == [])
    && (|records| == 0 ==> |st.parents| == cfg.mu)
    && (|records| > 0 ==> Width(records[0]) == 2 + cfg.mu + cfg.lambda)
  }

  /**
   Iterating from a running state keeps the loop invariant: the outcome
   is finished unless a generation failed, and with no parents the first
   generation fails for want of an average.
   */
  lemma {:induction false} LegacyIterateRuns(cfg: Config, exp: real -> real, s0: LegacyStrategy, records: seq<Record>, st: LegacyState)
    requires LegacyRunning(cfg, s0, records, st, false)
    ensures var out := LegacyIterate(cfg, exp, records, st);
      && out.header == LegacyHeader(cfg.mu, cfg.lambda)
      && LegacyRunning(cfg, s0, out.records, out.state, !out.status.Failed?)
      && (!out.status.Failed? ==> out.status == StopReason(out.records))
      && (out.status.Failed? && cfg.mu == 0 ==> out.status.fault == NoSuchElement)
    decreases Cap - st.iterations
  {
    LegacyIterateStep(cfg, exp, records, st);
    var g := LegacyGeneration(cfg, exp, |records|, st);
    if g.Ok? {
      LegacyRunningStep(cfg, exp, s0, records, st);
      if !g.value.finished {
        LegacyIterateRuns(cfg, exp, s0, records + [g.value.record], g.value.state);
      }
    }
  }

  /** A generation entered while running keeps the loop invariant. */
  lemma LegacyRunningStep(cfg: Config, exp: real -> real, s0: LegacyStrategy, records: seq<Record>, st: LegacyState)
    requires LegacyRunning(cfg, s0, records, st, false)
    requires LegacyGeneration(cfg, exp, |records|, st).Ok?
    ensures var g := LegacyGeneration(cfg, exp, |records|, st).value;
            LegacyRunning(cfg, s0, records + [g.record], g.state, g.finished)
  {
    var g := LegacyGeneration(cfg, exp, |records|, st).value;
    ProgressStep(records, st.iterations, g.record, g.state.iterations, g.finished);
  }

  /** An outcome that keeps the loop invariant, stopped for the reason its last row gives, keeps the promises of a legacy run. */
  lemma RunningOutcome(cfg: Config, strategy: LegacyStrategy, out: LegacyOutcome)
    requires out.header == LegacyHeader(cfg.mu, cfg.lambda)
    requires LegacyRunning(cfg, strategy, out.records, out.state, !out.status.Failed?)
    requires !out.status.Failed? ==> out.status == StopReason(out.records)
    requires out.status.Failed? && cfg.mu == 0 ==> out.status.fault == NoSuchElement
    // one row per generation run, numbered from 0; the counter advanced in all but a converging one
    ensures forall k :: 0 <= k < |out.records| ==> out.records[k].iteration == k
    ensures out.state.iterations <= Cap
    ensures !out.status.Failed? ==> |out.records| > 0
    ensures !out.status.Failed? ==> out.state.iterations == |out.records| - (if out.status == Converged then 1 else 0)
    // every generation but the last missed the threshold on average
    ensures forall k :: 0 <= k < |out.records| - 1 ==> out.records[k].average > Threshold
    // why the run stopped
    ensures out.status == Converged ==> out.records[|out.records| - 1].average <= Threshold
    ensures out.status == CappedOut ==> out.state.iterations == Cap
    ensures out.status.Failed? && cfg.mu == 0 ==> out.status.fault == NoSuchElement && out.records == []
    // the first row has one cell per parent and per offspring, so not one per header label
    ensures |out.records| > 0 ==> Width(out.records[0]) == 2 + cfg.mu + cfg.lambda
    ensures |out.records| > 0 && cfg.mu + cfg.lambda != 4 ==> Width(out.records[0]) != |out.header|
    // with the plain operator every cached evaluation stays right
    ensures strategy.Plain? ==> AllConsistent(out.state.parents)
  {
    if out.status.Failed? {
      assert Progress(out.records, out.state.iterations, false);
    } else {
      Finished(out.records, out.state.iterations);
    }
  }

  /**
   A legacy run: `mu` all-ones individuals of dimension `n`, then the
   do-while of `LegacyIterate` until a generation ends finished, under the
   header the loop writes.
   */
  method LegacyRun(cfg: Config, exp: real -> real, strategy: LegacyStrategy, rng: Rng) returns (out: LegacyOutcome)
    requires strategy.Fits(cfg.n)
    // the header as the loop writes it, which fits the rows only when mu + lambda == 4
    ensures out.header == LegacyHeader(cfg.mu, cfg.lambda)
    // one row per generation run, numbered from 0; the counter advanced in all but a converging one
    ensures forall k :: 0 <= k < |out.records| ==> out.records[k].iteration == k
    ensures out.state.iterations <= Cap
    ensures !out.status.Failed? ==> |out.records| > 0
    ensures !out.status.Failed? ==> out.state.iterations == |out.records| - (if out.status == Converged then 1 else 0)
    // every generation but the last missed the threshold on average
    ensures forall k :: 0 <= k < |out.records| - 1 ==> out.records[k].average > Threshold
    // why the run stopped
    ensures out.status == Converged ==> out.records[|out.records| - 1].average <= Threshold
    ensures out.status == CappedOut ==> out.state.iterations == Cap
    ensures out.status.Failed? && cfg.mu == 0 ==> out.status.fault == NoSuchElement && out.records == []
    // the first row has one cell per parent and per offspring, so not one per header label
    ensures |out.records| > 0 ==> Width(out.records[0]) == 2 + cfg.mu + cfg.lambda
    ensures |out.records| > 0 && cfg.mu + cfg.lambda != 4 ==> Width(out.records[0]) != |out.header|
    // with the plain operator every cached evaluation stays right
    ensures strategy.Plain? ==> AllConsistent(out.state.parents)
    // the rows and the final state are those of generation after generation from the initial population
    ensures out == LegacyIterate(cfg, exp, [], LegacyState(InitialPopulation(cfg.n, cfg.mu), strategy, rng, [], 0))
  {
    var st0 := LegacyState(InitialPopulation(cfg.n, cfg.mu), strategy, rng, [], 0);
    out := LegacyIterate(cfg, exp, [], st0);
    LegacyIterateRuns(cfg, exp, strategy, [], st0);
    RunningOutcome(cfg, strategy, out);
  }

  /** A finished run: every row but the last missed the threshold, and the last says why the run stopped. */
  lemma Finished(records: seq<Record>, iterations: nat)
    requires Progress(records, iterations, true)
    ensures |records| > 0
    ensures forall k :: 0 <= k < |records| - 1 ==> records[k].average > Threshold
    ensures records[|records| - 1].average <= Threshold ==> iterations == |records| - 1
    ensures records[|records| - 1].average > Threshold ==> iterations == |records| == Cap
  {
    var init := records[..|records| - 1];
    forall k | 0 <= k < |records| - 1 ensures records[k].average > Threshold {
      assert records[k] == init[k];
    }
  }

  /** Every row's parent average is above the threshold. */
  predicate AllMissed(records: seq<Record>)
  {
    forall k :: 0 <= k < |records| ==> records[k].average > Threshold
  }

  /**
   The loop's bookkeeping: rows numbered from 0; while running, one counter
   step per row and every average above the threshold; once finished, the
   last row either reached the threshold (without a counter step) or the
   counter reached the cap.
   */
  predicate Progress(records: seq<Record>, iterations: nat, finished: bool)
  {
    && (forall k :: 0 <= k < |records| ==> records[k].iteration == k)
    && iterations <= Cap
    && (!finished ==> iterations == |records| < Cap && AllMissed(records))
    && (finished ==>
          && |records| > 0 && AllMissed(records[..|records| - 1])
          && (if records[|records| - 1].average <= Threshold then iterations == |records| - 1
              else iterations == |records| == Cap))
  }

  /** A generation entered while running keeps the bookkeeping. */
  lemma ProgressStep(records: seq<Record>, iterations: nat, rec: Record, iterations': nat, finished': bool)
    requires Progress(records, iterations, false)
    requires rec.iteration == |records|
    requires finished' <==> rec.average <= Threshold || iterations + 1 >= Cap
    requires iterations' == if rec.average <= Threshold then iterations else iterations + 1
    ensures Progress(records + [rec], iterations', finished')
  {
    var rs := records + [rec];
    assert rs[..|records|] == records;
  }

  // ---------------------------------------------------------------- the header as the loop builds it

  /**
   The legacy header as written: the column lists come from the two-element
   streams `(0, mu)` and `(0, lambda)`, not from the ranges `0 .. mu-1` and
   `0 .. lambda-1`.
   */
  function LegacyHeader(mu: nat, lambda: nat): (h: seq<Column>)
    ensures |h| == 6
    ensures h[2] == X(0) && h[3] == X(mu) && h[4] == Y(0) && h[5] == Y(lambda)
  {
    [Iteration, Average, X(0), X(mu), Y(0), Y(lambda)]
  }

  /**
   The header as written never matches the rows: it always differs from
   the intended one, it names a parent column `X(mu)` that no row has, and
   it has six labels whatever the row width.
   */
  lemma LegacyHeaderMislabels(mu: nat, lambda: nat)
    ensures LegacyHeader(mu, lambda) != Header(mu, lambda)
    ensures X(mu) in LegacyHeader(mu, lambda) && X(mu) !in Header(mu, lambda)
  {
    var h := Header(mu, lambda);
    forall k | 0 <= k < |h| ensures h[k] != X(mu) {
      if 2 <= k < 2 + mu {
        assert h[k] == X(k - 2);
      } else if 2 + mu <= k {
        assert h[k] == Y(k - 2 - mu);
      }
    }
    assert LegacyHeader(mu, lambda)[3] == X(mu);
  }

  /** For 3 parents and 5 offspring the rows have 10 cells but the header labels `X0, X3, Y0, Y5`. */
  lemma LegacyHeaderExample()
    ensures LegacyHeader(3, 5) == [Iteration, Average, X(0), X(3), Y(0), Y(5)]
    ensures Header(3, 5) == [Iteration, Average, X(0), X(1), X(2), Y(0), Y(1), Y(2), Y(3), Y(4)]
  {
    var h := Header(3, 5);
    assert h[2] == X(0) && h[3] == X(1) && h[4] == X(2);
    assert h[5] == Y(0) && h[6] == Y(1) && h[7] == Y(2) && h[8] == Y(3) && h[9] == Y(4);
  }

  // ---------------------------------------------------------------- the in-place write-back

  /**
   The global-step-size operator writes the mutated genes back into the
   parent it was given, while the parent keeps its cached evaluation: from
   an evaluated, consistent all-ones parent, with every draw 1 and a floor
   of 1, the parent is left with genes of at least 2 and its old evaluation 1.
   */
  lemma StaleEvaluation(exp: real -> real, raw: nat -> nat)
    ensures var cfg := Config(1, Plus, 1, 1);
            var parent := Individual([1.0], [], 1.0);
            var rng := Rng(raw, _ => 1.0, 0);
            var r := LegacyBreed(cfg, exp, [parent], GlobalSteps([1.0], 1.0, 1.0, 1.0), rng, 0);
            && Consistent(parent)
            && r.Ok? && r.value.parents[0].Evaluated()
            && r.value.parents[0].eval == 1.0
            && r.value.parents[0].chromosome[0] >= 2.0
            && !Consistent(r.value.parents[0])
  {
    var cfg := Config(1, Plus, 1, 1);
    var parent := Individual([1.0], [], 1.0);
    var rng := Rng(raw, _ => 1.0, 0);
    assert SumOfSquares([1.0]) == Square(1.0) + SumOfSquares([]);
    var draw := NextInt(rng, 1);
    var m := LegacyMutate(GlobalSteps([1.0], 1.0, 1.0, 1.0), exp, 1, [1.0], draw.1);
    var c := m.value.genes;
    assert c[0] >= 2.0;
    assert Square(c[0]) >= 4.0 by {
      assert c[0] * c[0] >= 2.0 * c[0];
    }
    assert SumOfSquares(c) == Square(c[0]) + SumOfSquares(c[1..]);
  }
}

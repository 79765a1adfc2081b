/**
 The generational loop of the newer engine. Each generation breeds one
 offspring per slot `0 .. lambda-1` with the active mutation operator,
 records the parents' average and every member's evaluation, selects the
 `mu` best of the offspring (plus the parents in Plus mode) and tests the
 goal on them. The loop stops when the goal holds or the generation
 counter reaches its upper limit.
 */
module Engine {
  import opened Random
  import opened Individuals
  import opened Sphere
  import opened Evaluator
  import opened Caching
  import opened Selection
  import opened Strategies
  import opened Outcomes
  import opened Settings

  /** A column of the output table. */
  datatype Column = Iteration | Average | X(parent: nat) | Y(offspring: nat)

  /** One output row: the generation counter, the parents' average, then every parent's and every offspring's evaluation. */
  datatype Record = Record(iteration: nat, average: real, parentEvals: seq<real>, offspringEvals: seq<real>)

  /** The header row: the counter, the average, one column per parent, one per offspring. */
  function Header(mu: nat, lambda: nat): (h: seq<Column>)
    ensures |h| == 2 + mu + lambda
    ensures h[0] == Iteration && h[1] == Average
    ensures forall i :: 0 <= i < mu ==> h[2 + i] == X(i)
    ensures forall j :: 0 <= j < lambda ==> h[2 + mu + j] == Y(j)
  {
    [Iteration, Average] + seq(mu, i requires 0 <= i => X(i)) + seq(lambda, j requires 0 <= j => Y(j))
  }

  /** No column label appears twice in the header. */
  lemma HeaderDistinct(mu: nat, lambda: nat)
    ensures var h := Header(mu, lambda);
            forall a, b :: 0 <= a < b < |h| ==> h[a] != h[b]
  {
    var h := Header(mu, lambda);
    forall a, b | 0 <= a < b < |h| ensures h[a] != h[b] {
      if 2 <= a < 2 + mu && 2 <= b < 2 + mu {
        assert h[a] == X(a - 2) && h[b] == X(b - 2);
      } else if 2 + mu <= a && 2 + mu <= b {
        assert h[a] == Y(a - 2 - mu) && h[b] == Y(b - 2 - mu);
      }
    }
  }

  /** The number of cells of a row. */
  function Width(rec: Record): nat
  {
    2 + |rec.parentEvals| + |rec.offspringEvals|
  }

  /** What a run carries from one mutation call to the next. */
  datatype State = State(parents: seq<Individual>, strategy: Strategy, rng: Rng, log: seq<real>)

  /** The invariant of a run's state: the adaptation state has its configured shape and every cached evaluation is right. */
  predicate Sound(cfg: Config, s0: Strategy, st: State)
  {
    st.strategy.Fits(cfg) && s0.SameVariant(st.strategy) && AllConsistent(st.parents)
  }

  lemma SameVariantTransitive(a: Strategy, b: Strategy, c: Strategy)
    requires a.SameVariant(b) && b.SameVariant(c)
    ensures a.SameVariant(c)
  {
  }

  /**
   `st'` can follow `st` within a run: the adaptation state keeps its shape
   and variant, the parents only gain cached evaluations, and the
   evaluation log only grows at its end.
   */
  predicate Evolves(cfg: Config, st: State, st': State)
  {
    && st'.strategy.Fits(cfg) && st.strategy.SameVariant(st'.strategy)
    && OnlyCached(st.parents, st'.parents)
    && Extends(st.log, st'.log)
  }

  /** `log'` is `log` with entries appended. */
  predicate Extends(log: seq<real>, log': seq<real>)
  {
    |log'| >= |log| && log'[..|log|] == log
  }

  lemma ExtendsTransitive(a: seq<real>, b: seq<real>, c: seq<real>)
    requires Extends(a, b) && Extends(b, c)
    ensures Extends(a, c)
  {
    assert c[..|a|] == c[..|b|][..|a|];
  }

  lemma ExtendsAppend(a: seq<real>, b: seq<real>, more: seq<real>)
    requires Extends(a, b)
    ensures Extends(a, b + more)
  {
    assert (b + more)[..|a|] == b[..|a|];
  }

  /** Caching leaves every member's genes as they were. */
  lemma OnlyCachedKeepsGenes(ps: seq<Individual>, ps': seq<Individual>)
    requires OnlyCached(ps, ps')
    ensures forall i :: 0 <= i < |ps| ==> ps'[i].chromosome == ps[i].chromosome
  {
  }

  lemma EvolvesTransitive(cfg: Config, a: State, b: State, c: State)
    requires Evolves(cfg, a, b) && Evolves(cfg, b, c)
    ensures Evolves(cfg, a, c)
  {
    OnlyCachedTransitive(a.parents, b.parents, c.parents);
    SameVariantTransitive(a.strategy, b.strategy, c.strategy);
    ExtendsTransitive(a.log, b.log, c.log);
  }

  /**
   Breeds the offspring of slots `slot .. lambda-1`, in slot order, threading
   the state through the mutation calls. The first failing call ends the
   generation with its fault.
   */
  function Breed(cfg: Config, exp: real -> real, iterations: nat, st: State, slot: nat): (r: Result<(seq<Individual>, State)>)
    requires st.strategy.Fits(cfg) && slot <= cfg.lambda
    ensures r.Ok? ==> |r.value.0| == cfg.lambda - slot && Evolves(cfg, st, r.value.1) && AllConsistent(r.value.0)
    // no slot left: no offspring and the state unchanged
    ensures slot == cfg.lambda ==> r == Ok(([], st))
    // otherwise the first offspring is the child of this slot's mutation call, and the later slots
    // are bred from the state that call left behind
    ensures slot < cfg.lambda ==>
      var m := Mutate(st.strategy, exp, cfg, iterations, st.parents, slot, st.rng, st.log);
      && (m.Err? ==> r == Err(m.fault))
      && (m.Ok? ==>
            var rest := Breed(cfg, exp, iterations, State(m.value.parents, m.value.strategy, m.value.rng, m.value.log), slot + 1);
            && (rest.Err? ==> r == Err(rest.fault))
            && (rest.Ok? ==> r == Ok(([m.value.child] + rest.value.0, rest.value.1))))
    decreases cfg.lambda - slot
  {
    if slot == cfg.lambda then Ok(([], st))
    else
      match Mutate(st.strategy, exp, cfg, iterations, st.parents, slot, st.rng, st.log)
      case Err(f) => Err(f)
      case Ok(m) =>
        var st1 := State(m.parents, m.strategy, m.rng, m.log);
        match Breed(cfg, exp, iterations, st1, slot + 1)
        case Err(f) => Err(f)
        case Ok(rest) =>
          EvolvesTransitive(cfg, st, st1, rest.1);
          Ok(([m.child] + rest.0, rest.1))
  }

  /** Survivors are non-decreasing in evaluation. */
  predicate SortedByEval(ps: seq<Individual>)
  {
    forall a, b :: 0 <= a < b < |ps| ==> ps[a].eval <= ps[b].eval
  }

  /** The pool selection draws from: the offspring, followed by the parents in Plus mode. */
  function Pool(mode: Mode, offspring: seq<Individual>, parents: seq<Individual>): (pool: seq<Individual>)
    ensures |pool| == |offspring| + (if mode == Plus then |parents| else 0)
    ensures forall k :: 0 <= k < |offspring| ==> pool[k] == offspring[k]
    ensures mode == Plus ==> forall k :: 0 <= k < |parents| ==> pool[|offspring| + k] == parents[k]
  {
    offspring + (if mode == Plus then parents else [])
  }

  /** `c` is the chromosome of some member of `ps`. */
  predicate GenesOf(c: seq<real>, ps: seq<Individual>)
  {
    exists j :: 0 <= j < |ps| && ps[j].chromosome == c
  }

  /** Every survivor carries the genes of an offspring or, in Plus mode only, of a parent. */
  predicate DrawnFrom(next: seq<Individual>, mode: Mode, offspring: seq<Individual>, parents: seq<Individual>)
  {
    forall k :: 0 <= k < |next| ==> GenesOf(next[k].chromosome, offspring) || (mode == Plus && GenesOf(next[k].chromosome, parents))
  }

  /** Two lists whose members agree gene for gene. */
  predicate SameGenes(ps: seq<Individual>, qs: seq<Individual>)
  {
    |ps| == |qs| && forall i :: 0 <= i < |ps| ==> ps[i].chromosome == qs[i].chromosome
  }

  lemma DrawnFromSameGenes(next: seq<Individual>, mode: Mode, o: seq<Individual>, p: seq<Individual>,
                           o': seq<Individual>, p': seq<Individual>)
    requires SameGenes(o, o') && SameGenes(p, p') && DrawnFrom(next, mode, o, p)
    ensures DrawnFrom(next, mode, o', p')
  {
    forall k | 0 <= k < |next|
      ensures GenesOf(next[k].chromosome, o') || (mode == Plus && GenesOf(next[k].chromosome, p'))
    {
      if GenesOf(next[k].chromosome, o) {
        var j :| 0 <= j < |o| && o[j].chromosome == next[k].chromosome;
        assert o'[j].chromosome == next[k].chromosome;
      } else {
        var j :| 0 <= j < |p| && p[j].chromosome == next[k].chromosome;
        assert p'[j].chromosome == next[k].chromosome;
      }
    }
  }

  /**
   The replacement step: the `mu` best of the evaluated pool, best first,
   ties in pool order.
   */
  function Survive(mode: Mode, mu: nat, offspring: seq<Individual>, parents: seq<Individual>): (next: seq<Individual>)
    requires AllEvaluated(offspring) && AllEvaluated(parents)
    ensures |next| == Min(mu, |offspring| + (if mode == Plus then |parents| else 0))
    ensures AllEvaluated(next) && SortedByEval(next)
    ensures AllConsistent(offspring) && AllConsistent(parents) ==> AllConsistent(next)
    ensures DrawnFrom(next, mode, offspring, parents)
    // exactly the stable selection of the `mu` best from the pool
    ensures next == Select(Pool(mode, offspring, parents), mu)
  {
    SurvivorsFromPool(mode, mu, offspring, parents);
    Select(Pool(mode, offspring, parents), mu)
  }

  lemma SurvivorsFromPool(mode: Mode, mu: nat, offspring: seq<Individual>, parents: seq<Individual>)
    requires AllEvaluated(offspring) && AllEvaluated(parents)
    ensures var next := Select(Pool(mode, offspring, parents), mu);
            && AllEvaluated(next)
            && (AllConsistent(offspring) && AllConsistent(parents) ==> AllConsistent(next))
            && DrawnFrom(next, mode, offspring, parents)
  {
    var pool := Pool(mode, offspring, parents);
    var next := Select(pool, mu);
    SelectEvaluated(pool, mu);
    forall k | 0 <= k < |next|
      ensures GenesOf(next[k].chromosome, offspring) || (mode == Plus && GenesOf(next[k].chromosome, parents))
    {
      var q := Survivors(Keys(pool), mu)[k];
      if q < |offspring| {
        assert next[k] == offspring[q];
      } else {
        assert next[k] == parents[q - |offspring|];
      }
    }
    if AllConsistent(offspring) && AllConsistent(parents) {
      forall k | 0 <= k < |next| ensures Consistent(next[k]) {
        assert next[k] in pool;
      }
    }
  }

  /**
   Ties go to the offspring: in Plus mode a parent can only survive if
   every offspring with the same evaluation survives too, and ranks behind it.
   */
  lemma TiesFavourOffspring(mu: nat, offspring: seq<Individual>, parents: seq<Individual>, i: nat, j: nat)
    requires i < |offspring| && j < |parents| && offspring[i].eval == parents[j].eval
    ensures var r := Survivors(Keys(Pool(Plus, offspring, parents)), mu);
            && (|offspring| + j in r ==> i in r)
            && forall a, b :: 0 <= a < |r| && 0 <= b < |r| && r[a] == i && r[b] == |offspring| + j ==> a < b
  {
    var keys := Keys(Pool(Plus, offspring, parents));
    assert keys[i] == keys[|offspring| + j];
  }

  datatype Step = Step(record: Record, state: State, finished: bool)

  /**
   Everything a generation does after breeding: evaluate the parents and
   average them (an empty population has no average), evaluate the
   offspring, record the row, select the survivors and test the goal on them.
   */
  function Conclude(cfg: Config, iterations: nat, offspring: seq<Individual>, st: State): (r: Result<Step>)
    requires AllConsistent(st.parents) && AllConsistent(offspring)
    ensures r.Err? <==> |st.parents| == 0
    ensures r.Err? ==> r.fault == NoSuchElement
    ensures r.Ok? ==> var rec := r.value.record;
      && rec.iteration == iterations
      && |rec.parentEvals| == |st.parents| && |rec.offspringEvals| == |offspring|
      && (forall i :: 0 <= i < |st.parents| ==> rec.parentEvals[i] == SumOfSquares(st.parents[i].chromosome))
      && (forall j :: 0 <= j < |offspring| ==> rec.offspringEvals[j] == SumOfSquares(offspring[j].chromosome))
      && rec.average == Mean(rec.parentEvals)
    ensures r.Ok? ==> var next := r.value.state.parents;
      && |next| == Min(cfg.mu, |offspring| + (if cfg.mode == Plus then |st.parents| else 0))
      && AllEvaluated(next) && AllConsistent(next) && SortedByEval(next)
      && DrawnFrom(next, cfg.mode, offspring, st.parents)
      && (r.value.finished <==> Goal(next))
    ensures r.Ok? ==>
      && r.value.state.strategy == st.strategy && r.value.state.rng == st.rng
      && r.value.state.log == st.log + FreshEvals(st.parents) + FreshEvals(offspring)
      && Extends(st.log, r.value.state.log)
    // the row is the assessment's, and the survivors are selected from the evaluated offspring and parents
    ensures r.Ok? ==> |st.parents| > 0 && var a := Assess(iterations, st.parents, offspring, st.log);
      && r.value.record == a.record
      && r.value.state.parents == Survive(cfg.mode, cfg.mu, a.offspring, a.parents)
  {
    if |st.parents| == 0 then Err(NoSuchElement)
    else
      var a := Assess(iterations, st.parents, offspring, st.log);
      var next := Survive(cfg.mode, cfg.mu, a.offspring, a.parents);
      DrawnFromSameGenes(next, cfg.mode, a.offspring, a.parents, offspring, st.parents);
      Ok(Step(a.record, State(next, st.strategy, st.rng, a.log), Goal(next)))
  }

  /** A generation's evaluations: its record row, the evaluated lists and the log after them. */
  datatype Assessment = Assessment(record: Record, parents: seq<Individual>, offspring: seq<Individual>, log: seq<real>)

  /**
   Evaluates the parents (for the average and the parent columns), then the
   offspring, through the cache.
   */
  function Assess(iterations: nat, parents: seq<Individual>, offspring: seq<Individual>, log: seq<real>): (a: Assessment)
    requires |parents| > 0 && AllConsistent(parents) && AllConsistent(offspring)
    ensures var rec := a.record;
      && rec.iteration == iterations
      && |rec.parentEvals| == |parents| && |rec.offspringEvals| == |offspring|
      && (forall i :: 0 <= i < |parents| ==> rec.parentEvals[i] == SumOfSquares(parents[i].chromosome))
      && (forall j :: 0 <= j < |offspring| ==> rec.offspringEvals[j] == SumOfSquares(offspring[j].chromosome))
      && rec.average == Mean(rec.parentEvals)
    ensures AllEvaluated(a.parents) && AllConsistent(a.parents) && SameGenes(a.parents, parents)
    ensures AllEvaluated(a.offspring) && AllConsistent(a.offspring) && SameGenes(a.offspring, offspring)
    ensures a.log == log + FreshEvals(parents) + FreshEvals(offspring)
    ensures Extends(log, a.log)
  {
    var pe := EvalConsistent(parents, log);
    var oe := EvalConsistent(offspring, pe.log);
    ExtendsAppend(log, log, FreshEvals(parents) + FreshEvals(offspring));
    assert oe.log == log + (FreshEvals(parents) + FreshEvals(offspring));
    Assessment(Record(iterations, Mean(pe.values), pe.values, oe.values), pe.members, oe.members, oe.log)
  }

  /** Evaluating a consistent list: its sphere values, the list evaluated and still consistent, the fresh values logged. */
  function EvalConsistent(ps: seq<Individual>, log: seq<real>): (r: Evals)
    requires AllConsistent(ps)
    ensures |r.values| == |ps|
    ensures forall i :: 0 <= i < |ps| ==> r.values[i] == SumOfSquares(ps[i].chromosome)
    ensures AllEvaluated(r.members) && AllConsistent(r.members) && SameGenes(r.members, ps)
    ensures r.log == log + FreshEvals(ps)
  {
    EvalAllEvaluates(ps, log);
    EvalAll(ps, log)
  }

  /** One generation: breed every slot, then conclude. */
  function Generation(cfg: Config, exp: real -> real, iterations: nat, st: State): (r: Result<Step>)
    requires st.strategy.Fits(cfg) && AllConsistent(st.parents)
    ensures r.Ok? ==> var rec := r.value.record; var next := r.value.state.parents;
      && rec.iteration == iterations && |st.parents| > 0
      && |rec.parentEvals| == |st.parents| && |rec.offspringEvals| == cfg.lambda
      && (forall i :: 0 <= i < |st.parents| ==> rec.parentEvals[i] == SumOfSquares(st.parents[i].chromosome))
      && rec.average == Mean(rec.parentEvals)
      && |next| == Min(cfg.mu, cfg.lambda + (if cfg.mode == Plus then |st.parents| else 0))
      && AllEvaluated(next) && AllConsistent(next) && SortedByEval(next)
      && (r.value.finished <==> Goal(next))
      && r.value.state.strategy.Fits(cfg) && st.strategy.SameVariant(r.value.state.strategy)
      && Extends(st.log, r.value.state.log)
  {
    match Breed(cfg, exp, iterations, st, 0)
    case Err(f) => Err(f)
    case Ok(bred) =>
      var st1 := bred.1;
      OnlyCachedConsistent(st.parents, st1.parents);
      var r := Conclude(cfg, iterations, bred.0, st1);
      OnlyCachedKeepsGenes(st.parents, st1.parents);
      if r.Ok? then
        ExtendsTransitive(st.log, st1.log, r.value.state.log);
        r
      else r
  }

  /**
   A generation is breeding every slot, then concluding from the offspring
   and the state breeding left: a breeding fault is the generation's fault.
   */
  lemma GenerationBreedsThenConcludes(cfg: Config, exp: real -> real, iterations: nat, st: State)
    requires st.strategy.Fits(cfg) && AllConsistent(st.parents)
    ensures var b := Breed(cfg, exp, iterations, st, 0);
      && (b.Err? ==> Generation(cfg, exp, iterations, st) == Err(b.fault))
      && (b.Ok? ==> AllConsistent(b.value.1.parents)
                    && Generation(cfg, exp, iterations, st) == Conclude(cfg, iterations, b.value.0, b.value.1))
  {
    var b := Breed(cfg, exp, iterations, st, 0);
    if b.Ok? {
      OnlyCachedConsistent(st.parents, b.value.1.parents);
    }
  }

  /** The rows of a run so far: numbered from 0, each with one cell per offspring, and all parents above the threshold after the first. */
  predicate RowsSoFar(records: seq<Record>, lambda: nat)
  {
    && (forall k :: 0 <= k < |records| ==> records[k].iteration == k)
    && (forall k :: 0 <= k < |records| ==> |records[k].offspringEvals| == lambda)
    && (forall k, i :: 1 <= k < |records| && 0 <= i < |records[k].parentEvals| ==> records[k].parentEvals[i] > Threshold)
  }

  /**
   A generation entered after a missed goal records parents that are all
   above the threshold, so appending its row keeps the rows well formed.
   */
  lemma AppendRow(records: seq<Record>, lambda: nat, parents: seq<Individual>, rec: Record)
    requires RowsSoFar(records, lambda)
    requires rec.iteration == |records| && |rec.offspringEvals| == lambda
    requires |rec.parentEvals| == |parents|
    requires forall i :: 0 <= i < |parents| ==> rec.parentEvals[i] == SumOfSquares(parents[i].chromosome)
    requires |records| > 0 ==> AllEvaluated(parents) && AllConsistent(parents) && !Goal(parents)
    ensures RowsSoFar(records + [rec], lambda)
  {
    if |records| > 0 {
      MissedGoal(parents);
    }
  }

  /** The loop invariant of a run that has produced `records` and reached state `st`. */
  predicate Running(cfg: Config, s0: Strategy, initial: seq<Individual>, records: seq<Record>, st: State, finished: bool)
  {
    && RowsSoFar(records, cfg.lambda)
    && Sound(cfg, s0, st)
    && (finished ==> |records| > 0)
    && (|records| > 0 ==> (finished <==> Goal(st.parents)) && AllEvaluated(st.parents) && SortedByEval(st.parents))
    && (cfg.mode == Plus && |initial| == cfg.mu ==> |st.parents| == cfg.mu)
    && RowWidths(cfg, initial, records, st)
  }

  /**
   How many parent cells the rows hold: the first row one per initial
   parent, every later row as many as the previous selection kept.
   */
  predicate RowWidths(cfg: Config, initial: seq<Individual>, records: seq<Record>, st: State)
  {
    && (|records| == 0 ==> |st.parents| == |initial|)
    && (|records| > 0 ==> |records[0].parentEvals| == |initial|)
    && (cfg.mode == Comma && |records| > 0 ==> |st.parents| == Min(cfg.mu, cfg.lambda))
    && (cfg.mode == Comma ==> forall k :: 1 <= k < |records| ==> |records[k].parentEvals| == Min(cfg.mu, cfg.lambda))
    && (cfg.mode == Plus && |initial| == cfg.mu ==> forall k :: 0 <= k < |records| ==> |records[k].parentEvals| == cfg.mu)
  }

  /** Appending the row of a generation that kept `next` keeps the row widths. */
  lemma RowWidthsStep(cfg: Config, initial: seq<Individual>, records: seq<Record>, st: State, rec: Record, next: State)
    requires RowWidths(cfg, initial, records, st)
    requires |rec.parentEvals| == |st.parents|
    requires |next.parents| == Min(cfg.mu, cfg.lambda + (if cfg.mode == Plus then |st.parents| else 0))
    requires cfg.mode == Plus && |initial| == cfg.mu ==> |st.parents| == cfg.mu
    ensures RowWidths(cfg, initial, records + [rec], next)
  {
  }

  /** A generation entered while the goal is unmet keeps the loop invariant. */
  lemma RunningStep(cfg: Config, exp: real -> real, s0: Strategy, initial: seq<Individual>, records: seq<Record>, st: State)
    requires Running(cfg, s0, initial, records, st, false)
    requires Generation(cfg, exp, |records|, st).Ok?
    ensures var step := Generation(cfg, exp, |records|, st).value;
            Running(cfg, s0, initial, records + [step.record], step.state, step.finished)
  {
    var step := Generation(cfg, exp, |records|, st).value;
    AppendRow(records, cfg.lambda, st.parents, step.record);
    RowWidthsStep(cfg, initial, records, st, step.record, step.state);
    SameVariantTransitive(s0, st.strategy, step.state.strategy);
  }

  datatype Status = Converged | CappedOut | Failed(fault: Fault)

  datatype Outcome = Outcome(status: Status, records: seq<Record>, iterations: nat, state: State)

  /**
   The run as a recursion: from the rows so far and the state the last
   generation left, run the next generation unless the goal was met or the
   counter reached `upperLimit`; each row is the record of the generation
   run on the state its predecessor left.
   */
  function Iterate(cfg: Config, exp: real -> real, upperLimit: nat, records: seq<Record>, st: State, finished: bool): (out: Outcome)
    requires st.strategy.Fits(cfg) && AllConsistent(st.parents)
    ensures |records| <= |out.records| == out.iterations
    ensures out.status == CappedOut ==> upperLimit <= |out.records|
    ensures out.status == Converged ==> finished || |records| < |out.records|
    decreases upperLimit - |records|
  {
    if upperLimit <= |records| || finished then
      Outcome(if finished then Converged else CappedOut, records, |records|, st)
    else
      match Generation(cfg, exp, |records|, st)
      case Err(f) => Outcome(Failed(f), records, |records|, st)
      case Ok(step) =>
        Iterate(cfg, exp, upperLimit, records + [step.record], step.state, step.finished)
  }

  /**
   Iterating from a state that keeps the loop invariant ends in a state
   that keeps it too, with one row per generation and no more rows than
   the limit; the run counts as finished exactly when it converged.
   */
  lemma {:induction false} IterateRuns(cfg: Config, exp: real -> real, s0: Strategy, initial: seq<Individual>, upperLimit: nat,
                                       records: seq<Record>, st: State, finished: bool)
    requires |records| <= upperLimit && Running(cfg, s0, initial, records, st, finished)
    ensures var out := Iterate(cfg, exp, upperLimit, records, st, finished);
      && |records| <= |out.records| == out.iterations <= upperLimit
      && Running(cfg, s0, initial, out.records, out.state, out.status == Converged)
      && (out.status == CappedOut ==> out.iterations == upperLimit)
    decreases upperLimit - |records|
  {
    if |records| < upperLimit && !finished {
      var g := Generation(cfg, exp, |records|, st);
      if g.Ok? {
        RunningStep(cfg, exp, s0, initial, records, st);
        IterateRuns(cfg, exp, s0, initial, upperLimit, records + [g.value.record], g.value.state, g.value.finished);
      }
    }
  }

  /**
   A run from the initial population: the while loop of `Iterate`, one
   generation at a time while the counter is below `upperLimit` and the
   goal has not been met. The source reads the
   cap from a settable global whose default is 10000000, so it is a
   parameter here.
   */
  method Run(cfg: Config, exp: real -> real, initial: seq<Individual>, strategy: Strategy, rng: Rng, upperLimit: nat)
    returns (out: Outcome)
    requires strategy.Fits(cfg) && AllConsistent(initial)
    // one row per completed generation, numbered from 0
    ensures |out.records| == out.iterations <= upperLimit
    ensures forall k :: 0 <= k < |out.records| ==> out.records[k].iteration == k
    ensures forall k :: 0 <= k < |out.records| ==> |out.records[k].offspringEvals| == cfg.lambda
    // why the run stopped
    ensures out.status == Converged ==> out.iterations > 0 && Goal(out.state.parents)
    ensures out.status == CappedOut ==> out.iterations == upperLimit && (upperLimit > 0 ==> !Goal(out.state.parents))
    ensures out.status == CappedOut || out.status == Converged ==> out.state.strategy.Fits(cfg) && strategy.SameVariant(out.state.strategy)
    // no generation runs once the goal is met: every row after the first shows parents all above the threshold
    ensures forall k, i :: 1 <= k < |out.records| && 0 <= i < |out.records[k].parentEvals| ==>
              out.records[k].parentEvals[i] > Threshold
    // survivors are evaluated, correctly cached and ranked
    ensures !out.status.Failed? && out.iterations > 0 ==>
              AllEvaluated(out.state.parents) && AllConsistent(out.state.parents) && SortedByEval(out.state.parents)
    // in Plus mode a population of mu parents keeps its size
    ensures cfg.mode == Plus && |initial| == cfg.mu && !out.status.Failed? ==> |out.state.parents| == cfg.mu
    // row widths against the header's `2 + mu + lambda` labels: the first row has a cell per initial parent;
    // in Plus mode from `mu` parents every row fits the header; in Comma mode every later row has
    // `min(mu, lambda)` parent cells, fewer than the header's `mu` parent labels when `lambda < mu`
    ensures |out.records| > 0 ==> |out.records[0].parentEvals| == |initial|
    ensures cfg.mode == Plus && |initial| == cfg.mu ==>
              forall k :: 0 <= k < |out.records| ==> Width(out.records[k]) == |Header(cfg.mu, cfg.lambda)|
    ensures cfg.mode == Comma ==> forall k :: 1 <= k < |out.records| ==> |out.records[k].parentEvals| == Min(cfg.mu, cfg.lambda)
    ensures cfg.mode == Comma && cfg.lambda < cfg.mu ==>
              forall k :: 1 <= k < |out.records| ==> Width(out.records[k]) < |Header(cfg.mu, cfg.lambda)|
    // the rows and the final state are those of generation after generation from the initial state
    ensures out == Iterate(cfg, exp, upperLimit, [], State(initial, strategy, rng, []), false)
  {
    var st := State(initial, strategy, rng, []);
    out := Iterate(cfg, exp, upperLimit, [], st, false);
    IterateRuns(cfg, exp, strategy, initial, upperLimit, [], st, false);
  }
}

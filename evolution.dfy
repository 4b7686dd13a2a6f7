/**
 * The generational driver `adaptive_quiz_ga` of geneticAlgorithm.py:
 * evaluate everything, keep the best as the elite, select clones by
 * tournament, cross and mutate them, append the elite and replace the
 * population; after the last generation return the best by cached fitness.
 */
module Evolution {
  import opened Wrappers
  import opened Evaluator
  import opened Operators

  /** A candidate quiz and its cached fitness; None once the cache was deleted. */
  datatype Individual = Individual(genes: seq<Question>, fitness: Option<int>)

  /** Both failures are IndexErrors in the source. */
  datatype GAError =
    | EmptyPool        // `random.choice` on an empty pool while building the population
    | EmptyPopulation  // `tools.selBest(population, 1)[0]` on an empty population

  /** The random draws of one generation, in the order the source consumes them. */
  datatype GenerationDraws = GenerationDraws(
    aspirants: seq<seq<nat>>,         // per offspring, the tournament's sampled population indexes
    mate: seq<bool>,                  // per consecutive pair, whether `random.random() < 0.7`
    cuts: seq<(nat, nat)>,            // per consecutive pair, the two-point cut
    mutate: seq<bool>,                // per offspring, whether `random.random() < 0.2`
    swaps: seq<seq<Option<nat>>>)     // per offspring, the index-shuffle partners per position

  /** The random draws of one run: the initial genes (pool indexes), then each generation's. */
  datatype RunDraws = RunDraws(initial: seq<seq<nat>>, generations: seq<GenerationDraws>)

  const TournamentSize: nat := 3

  /** `range(num_questions)`: a negative count builds empty genomes. */
  function GenomeLength(numQuestions: int): nat
  {
    if numQuestions < 0 then 0 else numQuestions
  }

  predicate Uniform(pop: seq<Individual>, len: nat)
  {
    forall i :: 0 <= i < |pop| ==> |pop[i].genes| == len
  }

  predicate DrawnFrom(pop: seq<Individual>, questions: seq<Question>)
  {
    forall i :: 0 <= i < |pop| ==> forall q :: q in pop[i].genes ==> q in questions
  }

  /** The engine never reads a stale cache: every cached fitness is the genome's fitness. */
  predicate CacheSound(pop: seq<Individual>, perf: Performance)
  {
    forall i :: 0 <= i < |pop| && pop[i].fitness.Some? ==> pop[i].fitness.value == Fitness(pop[i].genes, perf)
  }

  function Keys(pop: seq<Individual>): seq<Option<int>>
  {
    seq(|pop|, i requires 0 <= i < |pop| => pop[i].fitness)
  }

  /** The population after lines 54-56: same genomes, every cache set to the genome's fitness. */
  function Evaluated(pop: seq<Individual>, perf: Performance): seq<Individual>
  {
    seq(|pop|, i requires 0 <= i < |pop| => Individual(pop[i].genes, Some(Fitness(pop[i].genes, perf))))
  }

  /** The last member of `next` is at least as fit as every member of `prev`. */
  predicate EliteDominates(prev: seq<Individual>, next: seq<Individual>, perf: Performance)
  {
    |next| > 0 && forall i :: 0 <= i < |prev| ==> Fitness(prev[i].genes, perf) <= Fitness(next[|next| - 1].genes, perf)
  }

  /** The last member has a cached fitness, and no cached fitness exceeds it. */
  predicate EliteOnTop(pop: seq<Individual>)
  {
    |pop| > 0 && pop[|pop| - 1].fitness.Some?
    && forall i :: 0 <= i < |pop| && pop[i].fitness.Some? ==> pop[i].fitness.value <= pop[|pop| - 1].fitness.value
  }

  /** No member of any population in `history` is fitter than `bound`. */
  predicate BoundedBy(history: seq<seq<Individual>>, bound: int, perf: Performance)
  {
    forall g, i :: 0 <= g < |history| && 0 <= i < |history[g]| ==> Fitness(history[g][i].genes, perf) <= bound
  }

  /** Each population's elite dominates the population before it. */
  predicate ElitesChain(history: seq<seq<Individual>>, perf: Performance)
  {
    forall g :: 0 < g < |history| ==> EliteDominates(history[g - 1], history[g], perf)
  }

  /** Draws fit for varying `count` offspring of genome length `len`. */
  predicate VariationDraws(d: GenerationDraws, count: nat, len: nat)
  {
    |d.mate| == count / 2 && |d.cuts| == count / 2
    && (forall k :: 0 <= k < |d.cuts| ==> d.cuts[k].0 <= d.cuts[k].1 <= len)
    && |d.mutate| == count && |d.swaps| == count
    && (forall i :: 0 <= i < |d.swaps| ==> ValidPartners(d.swaps[i], len))
  }

  /** Draws fit for one generation of a population of `popSize` genomes of length `len`. */
  predicate ValidGenerationDraws(d: GenerationDraws, popSize: nat, len: nat)
  {
    popSize >= 1
    && |d.aspirants| == popSize - 1
    && (forall i :: 0 <= i < |d.aspirants| ==> |d.aspirants[i]| == TournamentSize)
    && (forall i, p :: 0 <= i < |d.aspirants| && 0 <= p < |d.aspirants[i]| ==> d.aspirants[i][p] < popSize)
    && VariationDraws(d, popSize - 1, len)
  }

  /**
   * Draws fit for a whole run. When the run fails before drawing anything
   * (empty population, or genes to draw from an empty pool) any draws do.
   */
  predicate ValidRunDraws(poolSize: nat, populationSize: int, len: nat, generations: int, d: RunDraws)
  {
    populationSize <= 0 || (poolSize == 0 && len > 0) ||
    (|d.initial| == populationSize
     && (forall i :: 0 <= i < |d.initial| ==> |d.initial[i]| == len)
     && (forall i, j :: 0 <= i < |d.initial| && 0 <= j < |d.initial[i]| ==> d.initial[i][j] < poolSize)
     && |d.generations| >= generations
     && forall g :: 0 <= g < |d.generations| ==> ValidGenerationDraws(d.generations[g], populationSize, len))
  }

  /** `toolbox.population`: each gene is the drawn question of the pool; no fitness yet. */
  function InitialPopulation(questions: seq<Question>, initial: seq<seq<nat>>): (pop: seq<Individual>)
    requires forall i, j :: 0 <= i < |initial| && 0 <= j < |initial[i]| ==> initial[i][j] < |questions|
    ensures |pop| == |initial| && DrawnFrom(pop, questions)
    ensures forall i :: 0 <= i < |pop| ==> pop[i].fitness == None && |pop[i].genes| == |initial[i]|
  {
    seq(|initial|, i requires 0 <= i < |initial| =>
      Individual(seq(|initial[i]|, j requires 0 <= j < |initial[i]| => questions[initial[i][j]]), None))
  }

  /**
   * Pair k of offspring (positions 2k and 2k+1) after the crossover loop
   * (lines 64-67): when its draw says mate and both genomes are longer
   * than 1, the two swap a segment and lose their cached fitness.
   */
  function MatedPair(off: seq<Individual>, d: GenerationDraws, len: nat, k: nat): (r: seq<Individual>)
    requires VariationDraws(d, |off|, len) && Uniform(off, len) && k < |off| / 2
    ensures |r| == 2
  {
    if d.mate[k] && len > 1 then
      var pair := CrossTwoPoint(off[2 * k].genes, off[2 * k + 1].genes, d.cuts[k].0, d.cuts[k].1);
      [Individual(pair.0, None), Individual(pair.1, None)]
    else [off[2 * k], off[2 * k + 1]]
  }

  /**
   * A mated pair keeps the genome length and is made of the parents'
   * genes; a member that kept its cache (both, for genomes of length at
   * most 1) is its parent unchanged.
   */
  lemma MatedPairFacts(off: seq<Individual>, d: GenerationDraws, len: nat, k: nat)
    requires VariationDraws(d, |off|, len) && Uniform(off, len) && k < |off| / 2
    ensures var r := MatedPair(off, d, len, k);
      (forall j :: 0 <= j < 2 ==>
         |r[j].genes| == len && ((r[j].fitness.Some? || len <= 1) ==> r[j] == off[2 * k + j]))
      && multiset(r[0].genes) + multiset(r[1].genes) == multiset(off[2 * k].genes) + multiset(off[2 * k + 1].genes)
  {
    if d.mate[k] && len > 1 {
      CrossTwoPointMultiset(off[2 * k].genes, off[2 * k + 1].genes, d.cuts[k].0, d.cuts[k].1);
    }
  }

  /** The first k pairs of offspring after the crossover loop. */
  function CrossedPairs(off: seq<Individual>, d: GenerationDraws, len: nat, k: nat): (r: seq<Individual>)
    requires VariationDraws(d, |off|, len) && Uniform(off, len) && k <= |off| / 2
    ensures |r| == 2 * k
  {
    if k == 0 then [] else CrossedPairs(off, d, len, k - 1) + MatedPair(off, d, len, k - 1)
  }

  /** The offspring after the crossover loop: the pairs crossed, an unpaired last offspring untouched. */
  function Crossed(off: seq<Individual>, d: GenerationDraws, len: nat): (r: seq<Individual>)
    requires VariationDraws(d, |off|, len) && Uniform(off, len)
    ensures |r| == |off|
  {
    CrossedPairs(off, d, len, |off| / 2) + off[2 * (|off| / 2)..]
  }

  /** Positions 2m and 2m+1 of the first k crossed pairs hold pair m. */
  lemma {:induction false} CrossedPairsAt(off: seq<Individual>, d: GenerationDraws, len: nat, k: nat, m: nat)
    requires VariationDraws(d, |off|, len) && Uniform(off, len) && m < k <= |off| / 2
    ensures CrossedPairs(off, d, len, k)[2 * m] == MatedPair(off, d, len, m)[0]
    ensures CrossedPairs(off, d, len, k)[2 * m + 1] == MatedPair(off, d, len, m)[1]
  {
    if m < k - 1 {
      CrossedPairsAt(off, d, len, k - 1, m);
    }
  }

  /**
   * Crossover treats each pair as one unit and leaves an unpaired last
   * offspring alone: each position of the result is the matching member
   * of its mated pair.
   */
  lemma CrossedByPair(off: seq<Individual>, d: GenerationDraws, len: nat, i: nat)
    requires VariationDraws(d, |off|, len) && Uniform(off, len) && i < |off|
    ensures i < 2 * (|off| / 2) ==> Crossed(off, d, len)[i] == MatedPair(off, d, len, i / 2)[i % 2]
    ensures i >= 2 * (|off| / 2) ==> Crossed(off, d, len)[i] == off[i]
  {
    var n := |off| / 2;
    if i < 2 * n {
      var m := i / 2;
      assert i == 2 * m + i % 2;
      CrossedPairsAt(off, d, len, n, m);
    }
  }

  /**
   * Crossed offspring i keeps the genome length, holds only genes of the
   * offspring, and is unchanged if it kept its cache (always, for genomes
   * of length at most 1).
   */
  lemma CrossedAtFacts(off: seq<Individual>, d: GenerationDraws, len: nat, i: nat, questions: seq<Question>)
    requires VariationDraws(d, |off|, len) && Uniform(off, len) && i < |off|
    ensures var c := Crossed(off, d, len)[i];
      |c.genes| == len && ((c.fitness.Some? || len <= 1) ==> c == off[i])
      && (DrawnFrom(off, questions) ==> forall q :: q in c.genes ==> q in questions)
  {
    CrossedByPair(off, d, len, i);
    if i < 2 * (|off| / 2) {
      var m := i / 2;
      assert i == 2 * m + i % 2;
      MatedPairFacts(off, d, len, m);
      var pair := MatedPair(off, d, len, m);
      var c := pair[i % 2];
      if DrawnFrom(off, questions) {
        forall q | q in c.genes ensures q in questions {
          assert q in multiset(pair[0].genes) + multiset(pair[1].genes);
          assert q in off[2 * m].genes || q in off[2 * m + 1].genes;
        }
      }
    }
  }

  /** The crossed offspring as a whole: same genome length, pool genes only, cached ones unchanged. */
  lemma CrossedFacts(off: seq<Individual>, d: GenerationDraws, len: nat, questions: seq<Question>)
    requires VariationDraws(d, |off|, len) && Uniform(off, len)
    ensures var r := Crossed(off, d, len);
      Uniform(r, len)
      && (forall i :: 0 <= i < |off| && (r[i].fitness.Some? || len <= 1) ==> r[i] == off[i])
      && (DrawnFrom(off, questions) ==> DrawnFrom(r, questions))
  {
    forall i | 0 <= i < |off| {
      CrossedAtFacts(off, d, len, i, questions);
    }
  }

  /**
   * Offspring i after the mutation loop (lines 68-71): a genome longer
   * than 1 whose draw says mutate is index-shuffled and loses its cache.
   */
  function MutatedAt(crossed: seq<Individual>, d: GenerationDraws, len: nat, i: nat): (v: Individual)
    requires VariationDraws(d, |crossed|, len) && Uniform(crossed, len) && i < |crossed|
    ensures |v.genes| == len && multiset(v.genes) == multiset(crossed[i].genes)
    ensures v.fitness.Some? ==> v == crossed[i]
    ensures len <= 1 ==> v == crossed[i]
  {
    var c := crossed[i];
    if d.mutate[i] && len > 1 then Individual(ShuffleIndexes(c.genes, d.swaps[i]), None) else c
  }

  /** Mutation only rearranges a genome's genes: no question comes from outside the pool. */
  lemma MutatedDrawnFrom(crossed: seq<Individual>, d: GenerationDraws, len: nat, i: nat, questions: seq<Question>)
    requires VariationDraws(d, |crossed|, len) && Uniform(crossed, len) && i < |crossed|
    requires DrawnFrom(crossed, questions)
    ensures forall q :: q in MutatedAt(crossed, d, len, i).genes ==> q in questions
  {
    var v := MutatedAt(crossed, d, len, i);
    forall q | q in v.genes ensures q in questions {
      assert q in multiset(v.genes);
      assert q in crossed[i].genes;
    }
  }

  /** Mutation shuffles genes within a genome, so it never changes the genome's fitness. */
  lemma MutationKeepsFitness(crossed: seq<Individual>, d: GenerationDraws, len: nat, i: nat, perf: Performance)
    requires VariationDraws(d, |crossed|, len) && Uniform(crossed, len) && i < |crossed|
    ensures Fitness(MutatedAt(crossed, d, len, i).genes, perf) == Fitness(crossed[i].genes, perf)
  {
    FitnessPermutation(MutatedAt(crossed, d, len, i).genes, crossed[i].genes, perf);
  }

  /** Line 60: `len(population) - 1` tournament winners, one tournament per draw. */
  function Selected(evaluated: seq<Individual>, d: GenerationDraws, len: nat): (r: seq<Individual>)
    requires Uniform(evaluated, len) && ValidGenerationDraws(d, |evaluated|, len)
    ensures |r| == |evaluated| - 1 && Uniform(r, len)
  {
    seq(|evaluated| - 1, i requires 0 <= i < |evaluated| - 1 => evaluated[Tournament(Keys(evaluated), d.aspirants[i])])
  }

  /** The crossed offspring after the mutation loop (lines 68-71). */
  function Mutated(crossed: seq<Individual>, d: GenerationDraws, len: nat): (r: seq<Individual>)
    requires VariationDraws(d, |crossed|, len) && Uniform(crossed, len)
    ensures |r| == |crossed| && Uniform(r, len)
  {
    seq(|crossed|, i requires 0 <= i < |crossed| => MutatedAt(crossed, d, len, i))
  }

  /** Lines 60-71: the offspring bred from an evaluated population. */
  function Bred(evaluated: seq<Individual>, d: GenerationDraws, len: nat): (r: seq<Individual>)
    requires Uniform(evaluated, len) && ValidGenerationDraws(d, |evaluated|, len)
    ensures |r| == |evaluated| - 1 && Uniform(r, len)
  {
    var selected := Selected(evaluated, d, len);
    CrossedFacts(selected, d, len, []);
    Mutated(Crossed(selected, d, len), d, len)
  }

  /**
   * One generation of lines 53-75 as a function of the population and the
   * draws: evaluate, breed the offspring, append the first best of the
   * evaluated population.
   */
  function NextPopulation(pop: seq<Individual>, perf: Performance, len: nat, d: GenerationDraws): (r: seq<Individual>)
    requires Uniform(pop, len) && ValidGenerationDraws(d, |pop|, len)
    ensures |r| == |pop| && Uniform(r, len)
  {
    var ev := Evaluated(pop, perf);
    Bred(ev, d, len) + [ev[FirstBest(Keys(ev))]]
  }

  /** The population after the first n generations of the loop of lines 52-75. */
  function Run(initial: seq<Individual>, perf: Performance, len: nat, draws: seq<GenerationDraws>, n: nat)
    : (r: seq<Individual>)
    requires Uniform(initial, len) && n <= |draws|
    requires forall g :: 0 <= g < |draws| ==> ValidGenerationDraws(draws[g], |initial|, len)
    ensures |r| == |initial| && Uniform(r, len)
  {
    if n == 0 then initial else NextPopulation(Run(initial, perf, len, draws, n - 1), perf, len, draws[n - 1])
  }

  /** `range(generations)`: a negative count runs no generation. */
  function GenerationCount(generations: int): nat
  {
    if generations > 0 then generations else 0
  }

  /**
   * What `adaptive_quiz_ga` returns (lines 32-79): the error of an empty
   * population or of genes drawn from an empty pool; otherwise the first
   * best, by cached fitness, of the population after the last generation,
   * which has the requested length.
   */
  function Search(questions: seq<Question>, perf: Performance, numQuestions: int, generations: int,
                  populationSize: int, draws: RunDraws): (r: Result<Individual, GAError>)
    requires ValidRunDraws(|questions|, populationSize, GenomeLength(numQuestions), generations, draws)
    ensures r.Ok? ==> |r.value.genes| == GenomeLength(numQuestions)
  {
    var len := GenomeLength(numQuestions);
    if populationSize <= 0 then Err(EmptyPopulation)
    else if |questions| == 0 && len > 0 then Err(EmptyPool)
    else
      var final := Run(InitialPopulation(questions, draws.initial), perf, len, draws.generations,
                       GenerationCount(generations));
      Ok(final[FirstBest(Keys(final))])
  }

  /** Lines 54-56: the fitness of every individual is computed and cached. */
  method EvaluateAll(population: seq<Individual>, perf: Performance) returns (evaluated: seq<Individual>)
    ensures evaluated == Evaluated(population, perf)
    ensures CacheSound(evaluated, perf)
  {
    evaluated := population;
    var i := 0;
    while i < |population|
      invariant 0 <= i <= |population| && |evaluated| == |population|
      invariant forall j :: 0 <= j < i ==>
        evaluated[j].genes == population[j].genes && evaluated[j].fitness == Some(Fitness(population[j].genes, perf))
    {
      var fit := Evaluate(population[i].genes, perf);
      evaluated := evaluated[i := Individual(population[i].genes, Some(fit))];
      i := i + 1;
    }
    assert evaluated == Evaluated(population, perf);
  }

  /** In a fully evaluated population the first best is at least as fit as every member. */
  lemma FirstBestIsFittest(population: seq<Individual>, perf: Performance)
    requires |population| > 0
    ensures var ev := Evaluated(population, perf); var best := ev[FirstBest(Keys(ev))];
      best.fitness == Some(Fitness(best.genes, perf))
      && forall j :: 0 <= j < |ev| ==>
           ev[j].fitness.value <= best.fitness.value && Fitness(population[j].genes, perf) <= Fitness(best.genes, perf)
  {
    var ev := Evaluated(population, perf);
    var keys := Keys(ev);
    forall j | 0 <= j < |ev| ensures ev[j].fitness.value <= ev[FirstBest(keys)].fitness.value {
      assert !KeyLt(keys[FirstBest(keys)], keys[j]);
    }
  }

  /** Lines 64-67: two-point crossover of consecutive pairs of offspring. */
  method Crossover(offspring: seq<Individual>, d: GenerationDraws, len: nat) returns (crossed: seq<Individual>)
    requires VariationDraws(d, |offspring|, len) && Uniform(offspring, len)
    ensures crossed == Crossed(offspring, d, len)
  {
    crossed := [];
    var k := 0;
    while k < |offspring| / 2
      invariant 0 <= k <= |offspring| / 2
      invariant crossed == CrossedPairs(offspring, d, len, k)
    {
      var child1, child2 := offspring[2 * k], offspring[2 * k + 1];
      if d.mate[k] && |child1.genes| > 1 && |child2.genes| > 1 {
        var pair := CrossTwoPoint(child1.genes, child2.genes, d.cuts[k].0, d.cuts[k].1);
        child1, child2 := Individual(pair.0, None), Individual(pair.1, None);
      }
      crossed := crossed + [child1, child2];
      k := k + 1;
    }
    crossed := crossed + offspring[2 * k..];
  }

  /** Lines 68-71: index-shuffle mutation of each crossed offspring. */
  method Mutation(crossed: seq<Individual>, d: GenerationDraws, len: nat) returns (varied: seq<Individual>)
    requires VariationDraws(d, |crossed|, len) && Uniform(crossed, len)
    ensures |varied| == |crossed|
    ensures forall i :: 0 <= i < |crossed| ==> varied[i] == MutatedAt(crossed, d, len, i)
  {
    varied := crossed;
    var i := 0;
    while i < |varied|
      invariant 0 <= i <= |varied| == |crossed|
      invariant forall j :: 0 <= j < i ==> varied[j] == MutatedAt(crossed, d, len, j)
      invariant forall j :: i <= j < |crossed| ==> varied[j] == crossed[j]
    {
      var mutant := varied[i];
      if d.mutate[i] && |mutant.genes| > 1 {
        varied := varied[i := Individual(ShuffleIndexes(mutant.genes, d.swaps[i]), None)];
      }
      i := i + 1;
    }
  }

  /** Lines 60-71: `len(population) - 1` tournament winners are cloned, crossed and mutated. */
  method Breed(evaluated: seq<Individual>, d: GenerationDraws, len: nat) returns (offspring: seq<Individual>)
    requires Uniform(evaluated, len) && ValidGenerationDraws(d, |evaluated|, len)
    ensures offspring == Bred(evaluated, d, len)
  {
    var selected := Selected(evaluated, d, len);
    var crossed := Crossover(selected, d, len);
    CrossedFacts(selected, d, len, []);
    offspring := Mutation(crossed, d, len);
    assert offspring == Mutated(crossed, d, len);
  }

  /**
   * Every bred offspring that kept its cache (every one, when genomes have
   * length at most 1) is an unchanged clone of its tournament's winner.
   */
  lemma BredClones(evaluated: seq<Individual>, d: GenerationDraws, len: nat)
    requires Uniform(evaluated, len) && ValidGenerationDraws(d, |evaluated|, len)
    ensures var r := Bred(evaluated, d, len);
      forall i :: 0 <= i < |r| && (r[i].fitness.Some? || len <= 1) ==>
        r[i] == evaluated[Tournament(Keys(evaluated), d.aspirants[i])]
  {
    var selected := Selected(evaluated, d, len);
    CrossedFacts(selected, d, len, []);
    var crossed := Crossed(selected, d, len);
    var r := Bred(evaluated, d, len);
    forall i | 0 <= i < |r| && (r[i].fitness.Some? || len <= 1)
      ensures r[i] == evaluated[Tournament(Keys(evaluated), d.aspirants[i])]
    {
      assert r[i] == MutatedAt(crossed, d, len, i);
      assert selected[i] == evaluated[Tournament(Keys(evaluated), d.aspirants[i])];
    }
  }

  /** Breeding draws no question from outside the pool. */
  lemma BredDrawnFrom(evaluated: seq<Individual>, d: GenerationDraws, len: nat, questions: seq<Question>)
    requires Uniform(evaluated, len) && ValidGenerationDraws(d, |evaluated|, len)
    requires DrawnFrom(evaluated, questions)
    ensures DrawnFrom(Bred(evaluated, d, len), questions)
  {
    var selected := Selected(evaluated, d, len);
    assert DrawnFrom(selected, questions) by {
      forall i | 0 <= i < |selected| ensures forall q :: q in selected[i].genes ==> q in questions {
        assert selected[i] == evaluated[Tournament(Keys(evaluated), d.aspirants[i])];
      }
    }
    CrossedFacts(selected, d, len, questions);
    var crossed := Crossed(selected, d, len);
    var r := Bred(evaluated, d, len);
    forall i | 0 <= i < |r| ensures forall q :: q in r[i].genes ==> q in questions {
      assert r[i] == MutatedAt(crossed, d, len, i);
      MutatedDrawnFrom(crossed, d, len, i, questions);
    }
  }

  /** One generation (lines 53-75): evaluate, breed, and append the elite. */
  method Generation(population: seq<Individual>, perf: Performance, len: nat, d: GenerationDraws)
    returns (next: seq<Individual>)
    requires Uniform(population, len) && ValidGenerationDraws(d, |population|, len)
    ensures next == NextPopulation(population, perf, len, d)
  {
    var evaluated := EvaluateAll(population, perf);
    assert Uniform(evaluated, len);
    var best := evaluated[FirstBest(Keys(evaluated))];
    var offspring := Breed(evaluated, d, len);
    next := offspring + [best];
  }

  /**
   * One generation's caches are sound; its last member is the elite (the
   * first best of the evaluated population, unchanged), which dominates the
   * population before and whose cached fitness no other exceeds.
   */
  lemma NextPopulationElite(pop: seq<Individual>, perf: Performance, len: nat, d: GenerationDraws)
    requires Uniform(pop, len) && ValidGenerationDraws(d, |pop|, len)
    ensures var next := NextPopulation(pop, perf, len, d); var ev := Evaluated(pop, perf);
      CacheSound(next, perf) && next[|next| - 1] == ev[FirstBest(Keys(ev))]
      && EliteDominates(pop, next, perf) && EliteOnTop(next)
  {
    var ev := Evaluated(pop, perf);
    assert Uniform(ev, len);
    BredClones(ev, d, len);
    EliteAppended(pop, Bred(ev, d, len), perf, d, len);
  }

  /**
   * Every offspring of one generation that kept its cache (all of them, for
   * genomes of length at most 1) is an unchanged clone of its tournament's
   * winner among the evaluated population.
   */
  lemma NextPopulationClones(pop: seq<Individual>, perf: Performance, len: nat, d: GenerationDraws)
    requires Uniform(pop, len) && ValidGenerationDraws(d, |pop|, len)
    ensures var next := NextPopulation(pop, perf, len, d); var ev := Evaluated(pop, perf);
      forall i :: 0 <= i < |next| - 1 && (next[i].fitness.Some? || len <= 1) ==>
        next[i] == ev[Tournament(Keys(ev), d.aspirants[i])]
  {
    var ev := Evaluated(pop, perf);
    assert Uniform(ev, len);
    BredClones(ev, d, len);
  }

  /** Evaluation changes no genome, so it draws no question from outside the pool. */
  lemma EvaluatedDrawnFrom(pop: seq<Individual>, perf: Performance, questions: seq<Question>)
    requires DrawnFrom(pop, questions)
    ensures DrawnFrom(Evaluated(pop, perf), questions)
  {
    var ev := Evaluated(pop, perf);
    forall i | 0 <= i < |ev| ensures forall q :: q in ev[i].genes ==> q in questions {
      assert ev[i].genes == pop[i].genes;
    }
  }

  /** One generation draws no question from outside the pool. */
  lemma NextPopulationDrawnFrom(pop: seq<Individual>, perf: Performance, len: nat, d: GenerationDraws,
                                questions: seq<Question>)
    requires Uniform(pop, len) && ValidGenerationDraws(d, |pop|, len) && DrawnFrom(pop, questions)
    ensures DrawnFrom(NextPopulation(pop, perf, len, d), questions)
  {
    var ev := Evaluated(pop, perf);
    assert Uniform(ev, len);
    EvaluatedDrawnFrom(pop, perf, questions);
    BredDrawnFrom(ev, d, len, questions);
    var best := ev[FirstBest(Keys(ev))];
    assert forall q :: q in best.genes ==> q in questions;
    DrawnFromAppend(Bred(ev, d, len), best, questions);
  }

  /** Appending an individual drawn from the pool keeps a population drawn from it. */
  lemma DrawnFromAppend(pop: seq<Individual>, x: Individual, questions: seq<Question>)
    requires DrawnFrom(pop, questions) && forall q :: q in x.genes ==> q in questions
    ensures DrawnFrom(pop + [x], questions)
  {
    var r := pop + [x];
    forall i | 0 <= i < |r| ensures forall q :: q in r[i].genes ==> q in questions {
      if i < |pop| {
        assert r[i] == pop[i];
      }
    }
  }

  /**
   * Appending the first best of the evaluated population to offspring that
   * are cached clones of evaluated members (or uncached) gives sound caches
   * with the elite on top, dominating the population before.
   */
  lemma EliteAppended(population: seq<Individual>, offspring: seq<Individual>, perf: Performance,
                      d: GenerationDraws, len: nat)
    requires ValidGenerationDraws(d, |population|, len) && |offspring| == |population| - 1
    requires forall i :: 0 <= i < |offspring| && offspring[i].fitness.Some? ==>
      offspring[i] == Evaluated(population, perf)[Tournament(Keys(Evaluated(population, perf)), d.aspirants[i])]
    ensures var ev := Evaluated(population, perf); var next := offspring + [ev[FirstBest(Keys(ev))]];
      CacheSound(next, perf) && EliteDominates(population, next, perf) && EliteOnTop(next)
  {
    var ev := Evaluated(population, perf);
    var best := ev[FirstBest(Keys(ev))];
    FirstBestIsFittest(population, perf);
    forall i | 0 <= i < |offspring| && offspring[i].fitness.Some?
      ensures offspring[i].fitness.value == Fitness(offspring[i].genes, perf)
      ensures offspring[i].fitness.value <= best.fitness.value
    {
      assert offspring[i] == ev[Tournament(Keys(ev), d.aspirants[i])];
    }
  }

  /** Appending a generation to the history keeps the history bounded by the newest elite and the elites chained. */
  lemma HistoryStep(history: seq<seq<Individual>>, population: seq<Individual>, next: seq<Individual>, perf: Performance)
    requires |population| > 0 && EliteDominates(population, next, perf)
    requires BoundedBy(history, Fitness(population[|population| - 1].genes, perf), perf)
    requires ElitesChain(history, perf)
    requires |history| > 0 ==> history[|history| - 1] == population || EliteDominates(history[|history| - 1], population, perf)
    ensures BoundedBy(history + [population], Fitness(next[|next| - 1].genes, perf), perf)
    ensures ElitesChain(history + [population], perf)
  {
    var h := history + [population];
    forall g | 0 < g < |h| ensures EliteDominates(h[g - 1], h[g], perf) {
      if g < |history| {
        assert h[g - 1] == history[g - 1] && h[g] == history[g];
      }
    }
  }

  /** With an elite on top of sound caches, the first best by cached fitness is exactly as fit as the elite. */
  lemma FinalPick(population: seq<Individual>, perf: Performance)
    requires CacheSound(population, perf) && EliteOnTop(population)
    ensures var b := FirstBest(Keys(population));
      population[b].fitness == Some(Fitness(population[b].genes, perf))
      && Fitness(population[b].genes, perf) == Fitness(population[|population| - 1].genes, perf)
  {
    var keys := Keys(population);
    assert !KeyLt(keys[FirstBest(keys)], keys[|population| - 1]);
  }

  /** With no cached fitness at all, the first individual is picked. */
  lemma PickWithoutFitness(population: seq<Individual>)
    requires |population| > 0 && forall i :: 0 <= i < |population| ==> population[i].fitness == None
    ensures FirstBest(Keys(population)) == 0
  {
    var keys := Keys(population);
    var b := FirstBest(keys);
    assert !KeyLt(keys[0], keys[b]);
  }

  /**
   * The generation loop (lines 52-75), from a population with sound caches.
   * `history` holds the population at the start of each generation; every
   * member of it is at most as fit as the final elite, which sits last with
   * the best cached fitness, and each generation's elite dominates the
   * generation before.
   */
  method Evolve(initial: seq<Individual>, perf: Performance, len: nat, generations: int,
                draws: seq<GenerationDraws>, ghost questions: seq<Question>)
    returns (population: seq<Individual>, ghost history: seq<seq<Individual>>)
    requires Uniform(initial, len) && DrawnFrom(initial, questions) && CacheSound(initial, perf)
    requires |draws| >= generations
    requires forall g :: 0 <= g < |draws| ==> ValidGenerationDraws(draws[g], |initial|, len)
    ensures population == Run(initial, perf, len, draws, GenerationCount(generations))
    ensures |history| == GenerationCount(generations)
    ensures forall g :: 0 <= g < |history| ==> history[g] == Run(initial, perf, len, draws, g)
    ensures |population| == |initial| && Uniform(population, len) && DrawnFrom(population, questions)
    ensures CacheSound(population, perf)
    ensures generations <= 0 ==> population == initial && history == []
    ensures generations > 0 ==> |history| == generations && history[0] == initial && EliteOnTop(population)
    ensures |initial| > 0 ==> BoundedBy(history, Fitness(population[|population| - 1].genes, perf), perf)
    ensures ElitesChain(history, perf)
  {
    population := initial;
    history := [];
    var gen := 0;
    while gen < generations
      invariant 0 <= gen <= GenerationCount(generations)
      invariant population == Run(initial, perf, len, draws, gen)
      invariant |history| == gen && forall g :: 0 <= g < gen ==> history[g] == Run(initial, perf, len, draws, g)
      invariant DrawnFrom(population, questions) && CacheSound(population, perf)
      invariant gen > 0 ==> EliteOnTop(population)
      invariant |initial| > 0 ==> BoundedBy(history, Fitness(population[|population| - 1].genes, perf), perf)
      invariant ElitesChain(history, perf)
      invariant gen > 0 ==> EliteDominates(history[gen - 1], population, perf)
    {
      var next := Generation(population, perf, len, draws[gen]);
      NextPopulationElite(population, perf, len, draws[gen]);
      NextPopulationDrawnFrom(population, perf, len, draws[gen], questions);
      HistoryStep(history, population, next, perf);
      ghost var h := history + [population];
      forall g | 0 <= g < gen + 1 ensures h[g] == Run(initial, perf, len, draws, g) {
        if g < gen {
          assert h[g] == history[g];
        }
      }
      history := h;
      population := next;
      gen := gen + 1;
    }
  }

  /**
   * The whole search (lines 32-79). `history` holds the population at the
   * start of each generation. Fails as the source does on an empty
   * population or when genes must be drawn from an empty pool. Otherwise
   * the result has the requested length and only pool questions; without
   * generations it is the first initial individual; with generations its
   * cached fitness is its true fitness and is at least that of every
   * individual of every evaluated generation, and each generation's elite
   * dominates the previous generation.
   */
  method AdaptiveQuizGA(questions: seq<Question>, perf: Performance, numQuestions: int,
                        generations: int, populationSize: int, draws: RunDraws)
    returns (result: Result<Individual, GAError>, ghost history: seq<seq<Individual>>)
    requires ValidRunDraws(|questions|, populationSize, GenomeLength(numQuestions), generations, draws)
    ensures populationSize <= 0 ==> result == Err(EmptyPopulation)
    ensures populationSize > 0 && |questions| == 0 && numQuestions > 0 ==> result == Err(EmptyPool)
    ensures populationSize > 0 && (|questions| > 0 || numQuestions <= 0) ==> result.Ok?
    ensures result.Ok? ==>
      |result.value.genes| == GenomeLength(numQuestions) && forall q :: q in result.value.genes ==> q in questions
    ensures result.Ok? && generations <= 0 ==> result.value == InitialPopulation(questions, draws.initial)[0]
    ensures result.Ok? && generations > 0 ==>
      |history| == generations && history[0] == InitialPopulation(questions, draws.initial)
      && result.value.fitness == Some(Fitness(result.value.genes, perf))
    ensures result == Search(questions, perf, numQuestions, generations, populationSize, draws)
    ensures result.Ok? ==> Uniform(InitialPopulation(questions, draws.initial), GenomeLength(numQuestions))
    ensures result.Ok? ==> |history| == GenerationCount(generations) && forall g :: 0 <= g < |history| ==>
      history[g] == Run(InitialPopulation(questions, draws.initial), perf, GenomeLength(numQuestions),
                        draws.generations, g)
    ensures result.Ok? ==> BoundedBy(history, Fitness(result.value.genes, perf), perf)
    ensures ElitesChain(history, perf)
  {
    history := [];
    if populationSize <= 0 {
      return Err(EmptyPopulation), history;
    }
    var len := GenomeLength(numQuestions);
    if |questions| == 0 && len > 0 {
      return Err(EmptyPool), history;
    }
    var initial := InitialPopulation(questions, draws.initial);
    var population;
    population, history := Evolve(initial, perf, len, generations, draws.generations, questions);
    var b := FirstBest(Keys(population));
    if generations > 0 {
      FinalPick(population, perf);
    } else {
      PickWithoutFitness(population);
    }
    result := Ok(population[b]);
  }
}

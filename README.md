# Adaptive quiz selection: a Dafny model

This project models the core of an adaptive German-vocabulary quiz,
`geneticAlgorithm.py`, which has three parts:

- **`evaluate`** scores a candidate quiz (a list of questions). Each
  question earns the learner's score on its topic (1 when the topic has no
  score yet) times a difficulty weight: Easy 1, Medium 2, Hard 3, any other
  label 1. Each question whose topic already appeared earlier in the
  candidate costs 1.
- **`adaptive_quiz_ga`** is a genetic search built on DEAP's operators:
  - random initial population;
  - tournament selection of size 3;
  - two-point crossover of consecutive pairs;
  - index-shuffle mutation;
  - one elite carried into each next generation.

  It returns the best individual of the last population.
- **`run_quiz`** runs the session. Each turn it searches for a one-question
  quiz under the current performance record and reads the learner's choice.
  On a valid choice it updates the topic's score, the count of correct
  answers and the list of asked questions.

The files are `wrappers.dfy` (`Option`, `Result`), `evaluator.dfy`
(`evaluate`), `operators.dfy` (the four DEAP operators), `evolution.dfy`
(`adaptive_quiz_ga`) and `session.dfy` (`run_quiz`).

Modelling choices:

- **Fitness has two forms.** The spec function `Evaluator.Fitness` is a
  closed form: raw score minus one per question beyond the first of its
  topic. The loop of `evaluate` is the method `Evaluator.Evaluate`, proved
  equal to it. `Evaluator.FitnessSnoc` proves the loop's per-step rule.
- **Individuals are values.** An individual is a genome plus a cached
  fitness, `None` once the cache is deleted. The source deep-clones every
  selected individual, and after `population[:] = offspring` the elite is
  the only reference to its object, so no aliasing is lost.
- **Randomness is input.** Every random draw is an explicit input:
  - the initial genes, as pool indexes;
  - the tournament aspirants;
  - the 0.7 and 0.2 coin flips;
  - the crossover cut points;
  - the shuffle partners.

  Well-formedness predicates say which draws are possible. Every theorem
  holds for all draws.
- **DEAP ordering.** A deleted fitness ranks below any valid one. Both
  `tools.selBest` and `max` pick the first of equal maxima
  (`Operators.FirstBest`). The final `selBest` (line 78) reads the caches
  as they are: offspring changed in the last generation have no fitness.
  The model proves that, when at least one generation runs, the returned
  individual still has a valid cache equal to its true fitness, and that it
  is exactly as fit as the last elite. With no generation it is the first
  individual of the initial population, which has no cache.
- **Two error cases.** The source fails with an `IndexError` in two
  places, both modelled as `Result` errors:
  - `random.choice` on an empty pool, when genes must be drawn;
  - `selBest(...)[0]` on an empty population.

  A non-positive question count gives empty genomes, as `range` does.

## Model

| member | source | states |
|---|---|---|
| Evaluator.PerformanceOf | geneticAlgorithm.py:20 | a topic with no score yet counts as 1; while every score is at least 1, so is every lookup |
| Evaluator.DifficultyWeight | geneticAlgorithm.py:21 | weight is between 1 and 3, and above 1 exactly for "Medium" and "Hard" |
| Evaluator.QuestionScore | geneticAlgorithm.py:20-22 | while every topic score is at least 1, a question earns at least its difficulty weight |
| Evaluator.Evaluate | geneticAlgorithm.py:13-29 | the loop with its running set of seen topics returns the closed-form fitness (score sum minus repeated-topic count) |
| Evaluator.FitnessSnoc | geneticAlgorithm.py:22-27 | appending a question adds its score and subtracts 1 exactly when its topic was already seen |
| Evaluator.TopicsBound | geneticAlgorithm.py:24-27 | a candidate has at most as many distinct topics as questions, so the penalty is never negative |
| Evaluator.FitnessOfOne | geneticAlgorithm.py:18-22 | a one-question candidate (the per-turn quiz) is worth exactly that question's score |
| Evaluator.HardVerbsExample | geneticAlgorithm.py:20-22 | score 2 on "Verbs" at "Hard" gives fitness 6 |
| Evaluator.RepeatedTopicExample | geneticAlgorithm.py:24-27 | two Easy "Verbs" questions at score 1 give 1 + (1 - 1) = 1 |
| Evaluator.RawScoreAtLeastLength | geneticAlgorithm.py:20-22 | while every score is at least 1, the raw score is at least the number of questions |
| Evaluator.FitnessLowerBound | geneticAlgorithm.py:13-29 | while every score is at least 1, fitness is at least the number of distinct topics |
| Evaluator.RawScoreRemove | geneticAlgorithm.py:18-22 | removing one question anywhere takes exactly its score off the raw score |
| Evaluator.RawScorePermutation | geneticAlgorithm.py:18-22 | the raw score depends only on the multiset of questions |
| Evaluator.FitnessPermutation | geneticAlgorithm.py:13-29 | reordering a candidate's questions never changes its fitness |
| Operators.KeyLt | geneticAlgorithm.py:59-60 | DEAP's fitness order: a deleted fitness ranks below every valid one, and a deleted one ranks above nothing |
| Operators.KeyLtStrictTotal | geneticAlgorithm.py:59-60 | the order is irreflexive, transitive and total on distinct keys |
| Operators.FirstBest | geneticAlgorithm.py:59 | the index returned is maximal under DEAP's order, and every earlier index is strictly worse (first of equal maxima) |
| Operators.Tournament | geneticAlgorithm.py:60 | the winner is one of the aspirants, no aspirant beats it, and every aspirant drawn before the winner's first draw is strictly worse (first of equal best) |
| Operators.CrossTwoPoint | geneticAlgorithm.py:66 | children keep their lengths; inside the cut segment each holds the other parent's gene, outside it its own |
| Operators.CrossTwoPointInvolution | geneticAlgorithm.py:66 | crossing the children again at the same cuts gives back the parents |
| Operators.CrossTwoPointMultiset | geneticAlgorithm.py:66 | the two children together hold exactly the parents' genes |
| Operators.Swap | geneticAlgorithm.py:70 | exchanges two positions, leaves the rest and the multiset of genes unchanged |
| Operators.ShuffleIndexes | geneticAlgorithm.py:70 | the shuffled genome is a permutation of the original |
| Evolution.InitialPopulation | geneticAlgorithm.py:38-49 | `population_size` individuals of the requested length, genes from the pool, no fitness yet |
| Evolution.EvaluateAll | geneticAlgorithm.py:54-56 | every individual keeps its genes and caches its true fitness |
| Evolution.FirstBestIsFittest | geneticAlgorithm.py:59 | in an evaluated population the first best is valid and at least as fit as every member |
| Evolution.MatedPair | geneticAlgorithm.py:64-67 | each crossover step yields two individuals |
| Evolution.MatedPairFacts | geneticAlgorithm.py:64-67 | a pair keeps the genome length and the parents' genes; a member still cached (both, for length at most 1) is its parent unchanged |
| Evolution.CrossedPairs | geneticAlgorithm.py:64-67 | k crossover steps yield 2k individuals |
| Evolution.Crossed | geneticAlgorithm.py:64-67 | crossover keeps the number of offspring |
| Evolution.CrossedPairsAt | geneticAlgorithm.py:64 | positions 2m and 2m+1 after k steps hold pair m |
| Evolution.CrossedByPair | geneticAlgorithm.py:64 | each position holds its pair's crossed member; an unpaired last offspring is untouched |
| Evolution.CrossedAtFacts | geneticAlgorithm.py:64-67 | crossed offspring i keeps the length, only holds offspring genes, and is unchanged if still cached |
| Evolution.CrossedFacts | geneticAlgorithm.py:64-67 | the crossed offspring are uniform in length, drawn from the pool, and cached ones are unchanged |
| Evolution.Crossover | geneticAlgorithm.py:64-67 | the crossover loop produces exactly `Crossed` |
| Evolution.MutatedAt | geneticAlgorithm.py:68-71 | a mutant keeps its length and multiset of genes; a cached one, or one of length at most 1, is unchanged |
| Evolution.MutatedDrawnFrom | geneticAlgorithm.py:68-71 | mutation never brings in a question from outside the pool |
| Evolution.MutationKeepsFitness | geneticAlgorithm.py:68-71 | mutation never changes a genome's fitness |
| Evolution.Mutation | geneticAlgorithm.py:68-71 | the mutation loop produces `MutatedAt` at every position |
| Evolution.Selected | geneticAlgorithm.py:60-61 | `len(population) - 1` tournament winners, each of the genome length |
| Evolution.Mutated | geneticAlgorithm.py:68-71 | mutation keeps the number of offspring and their length |
| Evolution.Bred | geneticAlgorithm.py:60-71 | selection, crossover and mutation give `len(population) - 1` offspring of the genome length |
| Evolution.BredClones | geneticAlgorithm.py:60-71 | each bred offspring still cached (all, for length at most 1) is its tournament winner unchanged |
| Evolution.BredDrawnFrom | geneticAlgorithm.py:60-71 | breeding never brings in a question from outside the pool |
| Evolution.Breed | geneticAlgorithm.py:60-71 | the selection and variation steps compute exactly `Bred` of the evaluated population |
| Evolution.EliteAppended | geneticAlgorithm.py:58-75 | appending the elite gives sound caches, the elite on top, and an elite at least as fit as every previous member |
| Evolution.NextPopulation | geneticAlgorithm.py:53-75 | one generation keeps the population size and genome length |
| Evolution.NextPopulationElite | geneticAlgorithm.py:53-75 | the next population has sound caches, ends with the first best of the evaluated population, whose fitness dominates the previous population and which no cached fitness in the new one exceeds |
| Evolution.NextPopulationClones | geneticAlgorithm.py:60-71 | every cached offspring of the next population is its tournament winner unchanged |
| Evolution.EvaluatedDrawnFrom | geneticAlgorithm.py:54-56 | evaluation keeps every individual's genes from the pool |
| Evolution.NextPopulationDrawnFrom | geneticAlgorithm.py:53-75 | one generation never brings in a question from outside the pool |
| Evolution.Run | geneticAlgorithm.py:52-75 | any number of generations keeps the population size and genome length |
| Evolution.Generation | geneticAlgorithm.py:53-75 | the loop body computes exactly `NextPopulation` of the current population |
| Evolution.HistoryStep | geneticAlgorithm.py:52-75 | one more generation keeps every past member bounded by the new elite and the elites chained |
| Evolution.FinalPick | geneticAlgorithm.py:78 | the final `selBest` returns an individual with a valid cache equal to the last elite's fitness |
| Evolution.PickWithoutFitness | geneticAlgorithm.py:78 | with no cached fitness at all (no generations) the first individual is returned |
| Evolution.Evolve | geneticAlgorithm.py:52-75 | the final population is `Run` after `generations` steps (none when not positive), `history[g]` is `Run` after g steps, caches are sound, pool genes only, and every recorded member is bounded by the final elite |
| Evolution.Search | geneticAlgorithm.py:32-79 | the functional statement of the search: an individual of the requested length when it succeeds |
| Evolution.AdaptiveQuizGA | geneticAlgorithm.py:32-79 | the result is exactly `Search` and `history[g]` is `Run` after g generations from the initial population; both error cases exactly; otherwise the requested length, pool questions, first initial individual without generations, and otherwise a true cached fitness at least that of every member of every generation |
| Session.PythonIndexedChoice | geneticAlgorithm.py:101-102 | as written: a choice is selected exactly for numbers from -(n-1) to n |
| Session.SelectedChoice | geneticAlgorithm.py:99-102 | as intended: a choice is selected exactly for numbers 1 to n |
| Session.SelectionAgreesInRange | geneticAlgorithm.py:101-102 | on 1 to n both readings select the same choice |
| Session.ZeroSelectsLastChoice | geneticAlgorithm.py:101-102 | as written, answer 0 to a four-choice question selects the fourth choice |
| Session.RecordAnswer | geneticAlgorithm.py:108-114 | correct adds 1 to the topic's score (default 1); wrong subtracts 1 but never goes below 1; no other topic changes |
| Session.RecordAnswerKeepsFloor | geneticAlgorithm.py:108-114 | every score stays at least 1 |
| Session.WrongUndoesCorrect | geneticAlgorithm.py:108-114 | a wrong answer right after a correct one on the same topic restores its score |
| Session.AnswerOutcome | geneticAlgorithm.py:99-108 | there is no outcome exactly when the input is not a number in 1 to n |
| Session.Step | geneticAlgorithm.py:99-117 | an invalid answer changes nothing; a valid one records the question, counts it if correct and updates the score |
| Session.ReplaySnoc | geneticAlgorithm.py:88-117 | one more turn applies `Step` to the session so far |
| Session.ReplayInvariant | geneticAlgorithm.py:81-117 | scores stay at least 1, only asked topics are scored, asked questions are picks, correct ≤ asked ≤ turns |
| Session.ReplayAllCorrect | geneticAlgorithm.py:107-117 | when every answer is correct, every turn is asked and counted correct |
| Session.CorrectStepNeverLowers | geneticAlgorithm.py:108-111 | a correct answer never lowers any topic's score |
| Session.ChosenQuestion | geneticAlgorithm.py:90-91 | the first gene of the one-question search; an error exactly on an empty pool |
| Session.NextQuestion | geneticAlgorithm.py:90-91 | the pick is exactly `ChosenQuestion`; its recorded history starts at the initial population and is `Run` after g generations; fails exactly on an empty pool; otherwise a pool question scoring at least every one-question quiz the search evaluated |
| Session.Turn | geneticAlgorithm.py:89-117 | one turn picks `ChosenQuestion` under the current scores and then applies `Step` of the answer; its only error is the empty pool, and on it nothing changes |
| Session.ChosenSnoc | geneticAlgorithm.py:88-117 | a turn whose pick is the search under the replayed scores extends the record of searched picks |
| Session.ChosenAt | geneticAlgorithm.py:88-117 | after one more turn, every pick is still the search under the scores before it |
| Session.ChosenEarlier | geneticAlgorithm.py:88-117 | an extra turn does not change the scores any earlier turn saw |
| Session.ChosenLast | geneticAlgorithm.py:88-117 | the new turn's scores are the replay of all earlier turns |
| Session.ApplyAnswer | geneticAlgorithm.py:99-117 | the answer handling produces `Step` of the old session |
| Session.RunQuiz | geneticAlgorithm.py:81-119 | fails, with the empty-pool error, exactly when turns are asked of an empty pool; otherwise turn j's pick is `ChosenQuestion` under the replayed scores of turns before j and draw j, the session is the replay of the picks and answers, with scores at least 1 and correct ≤ asked ≤ turns |

## Left out

- Console and file I/O are left out: `load_questions`, `main`, the prints and `input`. Answers are a parameter: `None` for text `int()` rejects, otherwise the parsed number.
- `random` and DEAP's internal draws are parameters with well-formedness predicates. Nothing is said about their probabilities (0.7 mating, 0.2 mutation, `indpb=0.2` per position).
- Operators.CrossTwoPoint: any cut points `0 <= i <= j <= len` are allowed. DEAP draws `1 <= i < j`, a subset, so every theorem still covers it.
- `creator.create` re-registration warnings and DEAP's float weights and tuple fitness values are left out. Fitness is a single integer, which is all `evaluate` returns.
- Evolution.MatedPair, Evolution.CrossedPairs, Evolution.Crossed: their own contracts state only sizes. What they mean is stated by Evolution.MatedPairFacts, Evolution.CrossedByPair and Evolution.CrossedFacts.
- Evolution.Crossover builds the crossed list pair by pair. The source changes the cloned children in place. The resulting list is the same, and the in-place aliasing is not modelled.
- Session.RunQuiz: the final summary print (line 119) is not modelled. The returned session carries the counts it would print.
- `quizGeneration.py`, `main.py`, `summarizeContext.py` and the front-end `.jsx` files are not part of this model.

Notes on the code's behaviour, which the model follows:

- An invalid answer is skipped before `asked_questions.append`, so it is not recorded as asked.
- There is no configuration error: an empty pool or population ends in an `IndexError`, modelled as `GAError`.
- The last population is not re-evaluated before the final pick.

## Findings

| source | as written | input that shows it | evidently intended | confidence | as-written member | corrected member |
|---|---|---|---|---|---|---|
| geneticAlgorithm.py:101-102 | `question["Choices"][user_choice - 1]` accepts 0 and negative numbers through Python's negative indexing | answer "0" to a four-choice question selects the fourth choice instead of "Invalid choice" | only 1 to `len(choices)` (the prompt says "1-4") selects a choice | high, not executed | Session.PythonIndexedChoice (shown by Session.ZeroSelectsLastChoice) | Session.SelectedChoice, used by Session.AnswerOutcome and Session.RunQuiz |

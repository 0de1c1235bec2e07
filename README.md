# Darwin genetic algorithm engine, modelled in Dafny

This project models the core of Darwin, a Java library for genetic algorithms,
and proves properties of that model. The modelled core is:

- `GeneticAlgorithm`: the engine. Its constructor checks the settings and sorts the
  first population. `calculate` runs generations until a stop condition fires.
  `performGeneration` breeds one sub-population. Migration moves individuals between
  sub-populations. `reset` restores the population the engine was built with.
- `Result`: the record of a run. It holds the per-generation history, the statistics
  summaries, the best individual, the termination reason and the exception.
- `Individual`: an individual with a memoised fitness, a birth generation and an
  origin, the crossover dispatch and the comparison.
- The crossover strategies: SinglePoint and Scattered in their discrete and fuzzy forms,
  ScatteredFitnessFuzzy, and their shared clone tests.
- The fitness scaling strategies Rank, Top and Proportional.
- The selection strategies StochasticUniform, Roulette, Remainder and Tournament.
- The migration strategies Elitism and Ancients.
- The migration directions Network, Forward, SingleForward, SingleForwardWrap and
  BidirectionalWrap.
- The mutation scaling schedules CONSTANT, LINEAR_GENERATION, STALL_ADAPT and ASYMPTOT,
  and LinearFitnessMutationScaling.
- The Boolean and Int prototypes and their individuals.

How the model is built:

- Code that updates state becomes methods with loops, proved against
  specification functions:
  - `GeneticAlgorithm`, `Result`, `Individual`, the prototypes, Tournament and
    LinearFitnessMutationScaling are classes;
  - the strategies' loops are methods whose `ensures` ties the result to a function
    of the inputs.
- Properties of those functions are proved as lemmas:
  - the scaled fitness sums to the parents needed;
  - selection only returns members of its input;
  - a crossover vector names existing parents;
  - a generation step keeps the best individual when there is an elite slot;
  - the result reports the fittest individual of the last generation;
  - and more.
- Randomness is an input. Every random draw reads from a tape (module `Draws`).
  Reading past the end of a tape gives the lowest value, so every tape is a possible
  run of the generator.
- Fitness values are `real`. IEEE special values (infinities, NaN) appear only
  where the engine relies on them:
  - the min and max of an empty summary;
  - the 0/0 of LinearFitnessMutationScaling;
  - the sum check of ProportionalScaling.
- `1/Math.sqrt(rank)` in RankScaling is an abstract weight function, positive and
  strictly decreasing in the rank (`RankWeight`).
- Java `int` arithmetic (32-bit wrap-around), `Math.round`, `Math.ceil`/`floor` and
  `(int)` casts are written out in module `JavaLang`.
- Exceptions are values: `Outcome<T>` is a result or the exception thrown.
- `performGeneration` returns the fitness of the head of the population it started
  from. The method's javadoc says it returns the new best fitness; the model
  follows the code.
- The sub-populations are stepped one after another in index order. The engine
  submits them to a thread pool and reads the futures in that same order.
- An exception thrown inside a step is recorded as itself. The source would record
  its `ExecutionException` wrapper.
- Populations are held as sequences. Each generation step allocates new arrays, so
  its aliasing is not observable. The one place where it is, the migration step,
  is listed under "## Left out".
- Calls to `stop()` from other threads are an input: the set `stops` of
  generations at which the flag has been set.
- The clock is an input: `runtimes`, the elapsed time read before each generation,
  and `totalRuntime`.
- The engine copies one migrant per target (`migrationCount` is 1, as the field
  is initialised at `GeneticAlgorithm.java:125`).
- The mutation scale is computed with stall count 0, as `performGeneration` passes it.

## Model

| member | source | states |
|---|---|---|
| Individuals.ValueAt | src/main/java/com/github/kilianB/geneticAlgorithm/prototypes/BooleanPrototype.java:152-155 | getValue(index) answers the gene at index exactly when 0 <= index < getVariableCount(), IndexOutOfBounds otherwise |
| Individuals.BooleanPrototype.constructor | src/main/java/com/github/kilianB/geneticAlgorithm/prototypes/BooleanPrototype.java:18-21 | the prototype keeps its fitness function and variable count |
| Individuals.BooleanPrototype.CreateIndividual | src/main/java/com/github/kilianB/geneticAlgorithm/prototypes/BooleanPrototype.java:24-33 | a new, unevaluated individual of this prototype with one gene per variable, gene k the k-th coin flip; a negative variable count throws NegativeArraySize |
| Individuals.EffectiveConstraints | src/main/java/com/github/kilianB/geneticAlgorithm/prototypes/IntPrototype.java:43-87 | a missing constraint becomes the pair [Integer.MIN_VALUE, Integer.MAX_VALUE] for every variable |
| Individuals.IntPrototype.Init | src/main/java/com/github/kilianB/geneticAlgorithm/prototypes/IntPrototype.java:43-87 | the prototype holds its ranges, constraints, range widths and fitness function |
| Individuals.IntPrototype.Create | src/main/java/com/github/kilianB/geneticAlgorithm/prototypes/IntPrototype.java:43-87 | the constructor succeeds exactly when every length matches, every row is a pair, no range width overflows and every initial range lies in its constraint; otherwise IllegalArgument |
| Individuals.IntPrototype.CreateIndividual | src/main/java/com/github/kilianB/geneticAlgorithm/prototypes/IntPrototype.java:91-104 | a new, unevaluated individual whose value i lies in [min_i, max_i); IllegalArgument exactly when some range is empty |
| Individuals.Individual.constructor | src/main/java/com/github/kilianB/geneticAlgorithm/Individual.java:36-50 | a new individual has its genes, the sentinel Double.MIN_VALUE as fitness cache, and no birth or origin |
| Individuals.Individual.GetFitness | src/main/java/com/github/kilianB/geneticAlgorithm/Individual.java:210-215 | getFitness answers the fitness function's value, evaluating it only while the cache holds the sentinel, and leaves the cache filled |
| Individuals.Individual.SetBirth | src/main/java/com/github/kilianB/geneticAlgorithm/Individual.java:222-224 | the birth generation is the one given |
| Individuals.Individual.GetBirth | src/main/java/com/github/kilianB/geneticAlgorithm/Individual.java:232-234 | answers the stored birth generation |
| Individuals.Individual.SetOrigin | src/main/java/com/github/kilianB/geneticAlgorithm/Individual.java:242-244 | the origin is the one given |
| Individuals.Individual.GetOrigin | src/main/java/com/github/kilianB/geneticAlgorithm/Individual.java:252-254 | answers the stored origin |
| Individuals.Individual.CompareTo | src/main/java/com/github/kilianB/geneticAlgorithm/Individual.java:282-285 | 1, 0 or -1 exactly when this fitness is greater than, equal to or less than the other's |
| Individuals.Individual.DefaultToCsv | src/main/java/com/github/kilianB/geneticAlgorithm/Individual.java:320-328 | toCSV lists the birth, the fitness, then every gene value in order |
| Individuals.Individual.BooleanToCsv | src/main/java/com/github/kilianB/geneticAlgorithm/prototypes/BooleanPrototype.java:143-149 | the boolean override lists only the gene values, in order |
| Individuals.Individual.IntToCsv | src/main/java/com/github/kilianB/geneticAlgorithm/prototypes/IntPrototype.java:189-199 | the int override lists the fitness, then the gene values in order |
| Individuals.EqualsIsEquivalence | src/main/java/com/github/kilianB/geneticAlgorithm/prototypes/BooleanPrototype.java:127-140 | equals is reflexive, symmetric and transitive, and equal individuals have equal fitness and compare as 0 |
| Individuals.CompareToIsOrder | src/main/java/com/github/kilianB/geneticAlgorithm/Individual.java:282-285 | compareTo is antisymmetric and transitive |
| Individuals.BirthAndOriginRoundTrip | src/main/java/com/github/kilianB/geneticAlgorithm/Individual.java:222-254 | setBirth then getBirth, and setOrigin then getOrigin, answer the values set |
| Sorting.SortByIsSortedPermutation | src/main/java/com/github/kilianB/geneticAlgorithm/GeneticAlgorithm.java:528 | the insertion sort by a key answers a permutation of its input, sorted by the key |
| Sorting.SortByKeepsSorted | src/main/java/com/github/kilianB/geneticAlgorithm/GeneticAlgorithm.java:528 | sorting a sequence that is already sorted by the key leaves it unchanged |
| Sorting.SortByFitnessIsSortedPermutation | src/main/java/com/github/kilianB/geneticAlgorithm/GeneticAlgorithm.java:528 | Arrays.sort by compareTo answers a permutation of the population in ascending fitness |
| Sorting.SortedMembers | src/main/java/com/github/kilianB/geneticAlgorithm/GeneticAlgorithm.java:528 | sorting by fitness keeps exactly the individuals it was given |
| Genotypes.HeadIsFittest | src/main/java/com/github/kilianB/geneticAlgorithm/GeneticAlgorithm.java:528-530 | in a population sorted by fitness the head is at least as fit as every member |
| Genotypes.SortKeepsGenotypes | src/main/java/com/github/kilianB/geneticAlgorithm/GeneticAlgorithm.java:525-528 | sorting by fitness keeps every member and yields a sorted population |
| Genotypes.EliteSurvives | src/main/java/com/github/kilianB/geneticAlgorithm/GeneticAlgorithm.java:416-419 | when at least one elite individual is copied and the result is sorted, the new head is no worse than the old head |
| Genotypes.SortStillKeeps | src/main/java/com/github/kilianB/geneticAlgorithm/GeneticAlgorithm.java:528 | sorting keeps every genotype a generation holds |
| AgeOrder.AgeOrdered | src/main/java/com/github/kilianB/geneticAlgorithm/GeneticAlgorithm.java:1058-1060 | ordering by age (the sortByAge comparator) keeps the length of the generation |
| AgeOrder.AgeOrderKeepsMembers | src/main/java/com/github/kilianB/geneticAlgorithm/GeneticAlgorithm.java:478 | Arrays.sort by age keeps every individual of the generation |
| AgeOrder.AgedClonePass | src/main/java/com/github/kilianB/geneticAlgorithm/GeneticAlgorithm.java:472-515 | clone prevention over the generation sorted by age succeeds or throws exactly as the clone pass over its genotypes, keeps the length and keeps every genotype; on success (ClonedFrom) the i-th individual carries the i-th kept genotype of the pass, is the i-th aged individual itself where no retry was needed and otherwise an individual born this generation with origin ForceCloneMutation, and the pass separated the clones (an individual needs no retry exactly when no individual kept before it has its genes, takes at most cutoff + 1 retries, and when kept within the cutoff differs from every individual kept before it) |
| AgeOrder.CloneAndSort | src/main/java/com/github/kilianB/geneticAlgorithm/GeneticAlgorithm.java:472-528 | without clone prevention the sorted generation is a permutation of the bred one; with it, it succeeds exactly when the clone pass over the aged genotypes succeeds, throws the pass's exception, and is a permutation of the individuals the pass left (ClonedFrom: the kept genotypes, carried or freshly born, with the clones separated); either way the result is sorted by fitness, of the same length, and keeps every genotype |
| ForceClone.ByAgeOrdersOldestFirst | src/main/java/com/github/kilianB/geneticAlgorithm/GeneticAlgorithm.java:1058-1060 | ordering by birth is a permutation with non-decreasing birth generations |
| ForceClone.RetryRamp | src/main/java/com/github/kilianB/geneticAlgorithm/GeneticAlgorithm.java:483-498 | the retry probability p * (1 / (p * (cutoff - 1))) * attempt is attempt / (cutoff - 1): 0 at the first attempt and 1 at attempt cutoff - 1 |
| ForceClone.RetryWithoutProbability | src/main/java/com/github/kilianB/geneticAlgorithm/GeneticAlgorithm.java:483 | with mutation probability 0 the retry probability is NaN, which no draw falls under |
| ForceClone.CloneScaleHasAFloor | src/main/java/com/github/kilianB/geneticAlgorithm/GeneticAlgorithm.java:494-500 | the scale of a retry is the step's scale above 1e-10 and never below 1e-10 |
| ForceClone.GenesSetMembers | src/main/java/com/github/kilianB/geneticAlgorithm/GeneticAlgorithm.java:479-489 | the HashSet of kept individuals holds exactly the genotypes kept so far |
| ForceClone.RetriedSettles | src/main/java/com/github/kilianB/geneticAlgorithm/GeneticAlgorithm.java:487-509 | a kept individual is retried only when its genotype was already kept, at most cutoff + 1 times, and a retry that did not hit the cutoff is new to the set |
| ForceClone.ClonePassSeparatesClones | src/main/java/com/github/kilianB/geneticAlgorithm/GeneticAlgorithm.java:485-513 | every individual the pass keeps either has a genotype not kept before it or ran out of retries |
| ForceClone.ClonePassKeepsEveryGenotype | src/main/java/com/github/kilianB/geneticAlgorithm/GeneticAlgorithm.java:485-515 | the pass keeps one individual per slot, and every input genotype is kept at its own slot or an earlier one |
| ForceClone.RetryClone | src/main/java/com/github/kilianB/geneticAlgorithm/GeneticAlgorithm.java:487-509 | the while loop of one individual answers what the retry function specifies: the same individual when its genotype is new, otherwise the last mutant, marked with FORCE_CLONE_MUTATION and the generation |
| ForceClone.KeepOne | src/main/java/com/github/kilianB/geneticAlgorithm/GeneticAlgorithm.java:485-513 | one turn of the for loop extends the clone pass by the individual kept, or ends it with the exception of the retry |
| ForceClone.ForceClonePass | src/main/java/com/github/kilianB/geneticAlgorithm/GeneticAlgorithm.java:472-515 | the loop over the generation answers the clone pass over its genotypes: its outcome, its length, and each kept individual carried from its slot |
| Mutation.EffectiveProbability | src/main/java/com/github/kilianB/geneticAlgorithm/prototypes/BooleanPrototype.java:99-111 | a uniform draw u in [0, 1) falls under the effective probability exactly when u < probability holds in the source's comparison |
| Mutation.MutantKeepsItsShape | src/main/java/com/github/kilianB/geneticAlgorithm/prototypes/IntPrototype.java:165-181 | a mutant keeps its kind, prototype and gene count; an int gene stays inside its constraint; a boolean individual with negative probability is copied unchanged |
| Mutation.Mutate | src/main/java/com/github/kilianB/geneticAlgorithm/prototypes/BooleanPrototype.java:99-111 | mutate answers a new, unevaluated individual whose genes are the specified mutation of this one, or the exception the mutation throws |
| Generation.SelectedAnswersTheCount | src/main/java/com/github/kilianB/geneticAlgorithm/GeneticAlgorithm.java:404-406 | selectParents answers exactly the number of parents asked for, and a negative count throws |
| Generation.SelectParents | src/main/java/com/github/kilianB/geneticAlgorithm/GeneticAlgorithm.java:404-406 | the selection step answers the selection function of the strategy, with the tournament size as it was before the call |
| Generation.SlotExact | src/main/java/com/github/kilianB/geneticAlgorithm/GeneticAlgorithm.java:437 | the slot index i + offset computed with int wrap-around is the plain sum whenever that sum is a valid index |
| Generation.WrittenInPlace | src/main/java/com/github/kilianB/geneticAlgorithm/GeneticAlgorithm.java:429-438 | children written from a valid offset replace exactly that stretch of the array |
| Generation.CopyElite | src/main/java/com/github/kilianB/geneticAlgorithm/GeneticAlgorithm.java:416-419 | the first eliteCount slots hold the head of the old population, the rest is untouched; a population or array too short throws |
| Generation.MutantsTakeTheTail | src/main/java/com/github/kilianB/geneticAlgorithm/GeneticAlgorithm.java:429-434 | mutation child i is the mutation of the i-th parent from the tail of the shuffled pool, with the i-th draws |
| Generation.MutationTurn | src/main/java/com/github/kilianB/geneticAlgorithm/GeneticAlgorithm.java:433-437 | one mutation turn stores a new child with origin MUTATION and the current birth generation in its slot and changes no other slot |
| Generation.MutateInto | src/main/java/com/github/kilianB/geneticAlgorithm/GeneticAlgorithm.java:429-438 | the mutation loop answers the mutation phase: the pool without the parents taken from its tail, and the array with the mutation children behind the elite |
| Generation.CrossbredFromTheGroups | src/main/java/com/github/kilianB/geneticAlgorithm/GeneticAlgorithm.java:553-600 | crossover child i is bred from the i-th group of participants taken from the pool |
| Generation.CrossbredFits | src/main/java/com/github/kilianB/geneticAlgorithm/GeneticAlgorithm.java:600 | when the crossover phase succeeds, every child's slot eliteCount + mutationCount + i lies in the array |
| Generation.StoreChildren | src/main/java/com/github/kilianB/geneticAlgorithm/GeneticAlgorithm.java:596-600 | each stored child is new, has its genes, origin CROSSOVER and the current birth generation, in its slot |
| Generation.CrossInto | src/main/java/com/github/kilianB/geneticAlgorithm/GeneticAlgorithm.java:548-602 | the crossover loop answers the crossover phase: the pool that is left, and the children stored behind the mutation children |
| ParentPool.ShuffledPermutes | src/main/java/com/github/kilianB/geneticAlgorithm/GeneticAlgorithm.java:410-411 | Collections.shuffle keeps the length and the multiset of the parents |
| ParentPool.Shuffle | src/main/java/com/github/kilianB/geneticAlgorithm/GeneticAlgorithm.java:410-411 | the in-place Fisher-Yates loop answers the shuffle function over the same draws |
| ParentPool.LastUnlisted | src/main/java/com/github/kilianB/geneticAlgorithm/GeneticAlgorithm.java:579-585 | the backward scan answers the last pool index at or below m whose individual is not yet a participant, or -1 when there is none |
| ParentPool.FindUnlisted | src/main/java/com/github/kilianB/geneticAlgorithm/GeneticAlgorithm.java:579-585 | the scanning loop answers the index the backward-scan function specifies |
| ParentPool.RemovedPermutes | src/main/java/com/github/kilianB/geneticAlgorithm/GeneticAlgorithm.java:588 | List.remove(k) takes exactly the k-th element out of the pool |
| ParentPool.PickPrefersNewParents | src/main/java/com/github/kilianB/geneticAlgorithm/GeneticAlgorithm.java:587-592 | a pick succeeds exactly on a non-empty pool; it removes one element; when some element other than the first is not yet a participant it picks the last such one |
| ParentPool.PickFallsBackToTheTail | src/main/java/com/github/kilianB/geneticAlgorithm/GeneticAlgorithm.java:587-592 | when every element but the first is already a participant, the pick takes the tail of the pool (index 0 is never chosen: the guard is index > 0) |
| ParentPool.GatheredTakesFromThePool | src/main/java/com/github/kilianB/geneticAlgorithm/GeneticAlgorithm.java:565-594 | gathering succeeds exactly when the pool holds enough parents; the participants grow by that many and pool plus participants keep their multiset |
| ParentPool.ParticipantsRemoveTheirGroup | src/main/java/com/github/kilianB/geneticAlgorithm/GeneticAlgorithm.java:560-594 | a crossover group holds max(1, parentsPerCrossover) parents, starting with the tail of the pool, and is removed from the pool; a pool too small throws IndexOutOfBounds |
| ParentPool.TakeParticipants | src/main/java/com/github/kilianB/geneticAlgorithm/GeneticAlgorithm.java:560-594 | the nested loops answer the participants function |
| ParentPool.GroupsConsumeThePool | src/main/java/com/github/kilianB/geneticAlgorithm/GeneticAlgorithm.java:553-594 | i crossover groups succeed exactly when the pool holds i groups' worth of parents, and groups plus leftover keep the pool's multiset |
| Composition.CountsPartitionThePopulation | src/main/java/com/github/kilianB/geneticAlgorithm/GeneticAlgorithm.java:267-291 | eliteCount = ceil(n * eliteFraction) and crossoverCount = floor(n * crossoverFraction) are non-negative and, with mutationCount, sum to the population count |
| Composition.ParentsNeededCoverTheChildren | src/main/java/com/github/kilianB/geneticAlgorithm/GeneticAlgorithm.java:309-310 | parents needed = mutationCount + parentCount * crossoverCount, at least one parent per mutation child and two per crossover child |
| Breeding.VectorFor | src/main/java/com/github/kilianB/geneticAlgorithm/Individual.java:85-94 | a discrete strategy's crossover vector names, per variable, one of the parents; no parents throws IndexOutOfBounds |
| Breeding.MatrixFor | src/main/java/com/github/kilianB/geneticAlgorithm/Individual.java:85-94 | a fuzzy strategy's crossover matrix; no parents throws IndexOutOfBounds |
| Breeding.GetCrossoverVector | src/main/java/com/github/kilianB/geneticAlgorithm/crossover/SinglePointDiscrete.java:50-126 | getCrossoverVector answers the vector the strategy specifies over the same draws |
| Breeding.GetCrossoverMatrix | src/main/java/com/github/kilianB/geneticAlgorithm/crossover/SinglePointFuzzy.java:53-106 | getCrossoverMatrix answers the matrix the strategy specifies over the same draws |
| Breeding.MatrixForIsStochastic | src/main/java/com/github/kilianB/geneticAlgorithm/crossover/ScatteredFuzzy.java:46-86 | single point and scattered fuzzy matrices have one row per parent and columns of non-negative weights summing to 1 |
| Breeding.FitnessMatrixShares | src/main/java/com/github/kilianB/geneticAlgorithm/crossover/ScatteredFitnessFuzzy.java:50-76 | the fitness-weighted matrix has one row per parent and every column of weights sums to 1 |
| Breeding.BoolCopy | src/main/java/com/github/kilianB/geneticAlgorithm/prototypes/BooleanPrototype.java:84-93 | the boolean child copy loop answers the copy function from an all-false array |
| Breeding.IntCopy | src/main/java/com/github/kilianB/geneticAlgorithm/prototypes/IntPrototype.java:140-151 | the int child copy loop answers the copy function from an all-zero array |
| Breeding.BoolCopyInherits | src/main/java/com/github/kilianB/geneticAlgorithm/prototypes/BooleanPrototype.java:84-93 | gene g of a boolean child is gene g of the parent the vector names for g |
| Breeding.IntCopyInherits | src/main/java/com/github/kilianB/geneticAlgorithm/prototypes/IntPrototype.java:140-151 | gene g of an int child is gene g of the parent the vector names for g |
| Breeding.BoolCopySucceeds | src/main/java/com/github/kilianB/geneticAlgorithm/prototypes/BooleanPrototype.java:84-93 | with boolean parents covering the vector and every entry naming a parent, the copy does not throw |
| Breeding.IntCopySucceeds | src/main/java/com/github/kilianB/geneticAlgorithm/prototypes/IntPrototype.java:140-151 | with int parents covering the vector and every entry naming a parent, the copy does not throw |
| Breeding.RoundToInt | src/main/java/com/github/kilianB/geneticAlgorithm/prototypes/IntPrototype.java:122-137 | (int) Math.round of an in-range value lies within half a unit of it |
| Breeding.FuzzyInt | src/main/java/com/github/kilianB/geneticAlgorithm/prototypes/IntPrototype.java:122-137 | the fuzzy int crossover loop answers the weighted-sum function from an all-zero array |
| Breeding.FuzzySumIsDot | src/main/java/com/github/kilianB/geneticAlgorithm/prototypes/IntPrototype.java:122-137 | the inner loop's weighted sum is the dot product of the matrix column with the parents' genes |
| Breeding.FuzzyGeneBetween | src/main/java/com/github/kilianB/geneticAlgorithm/prototypes/IntPrototype.java:122-137 | a fuzzy gene built from a stochastic column lies between the smallest and largest parent value |
| Breeding.FuzzyGeneOneHot | src/main/java/com/github/kilianB/geneticAlgorithm/prototypes/IntPrototype.java:122-137 | a column that gives all weight to one parent yields exactly that parent's gene |
| Breeding.FuzzyIntGenes | src/main/java/com/github/kilianB/geneticAlgorithm/prototypes/IntPrototype.java:122-137 | the fuzzy child's gene g is the rounded weighted sum for g, and the copy throws exactly when some sum does |
| Breeding.Crossover | src/main/java/com/github/kilianB/geneticAlgorithm/Individual.java:85-94 | crossover answers a new, unevaluated individual whose genes are the specified child genes, or their exception |
| Breeding.DiscreteBoolChild | src/main/java/com/github/kilianB/geneticAlgorithm/prototypes/BooleanPrototype.java:84-93 | a discrete boolean child has the prototype and length of its parent, and gene i of the parent the vector names |
| Breeding.DiscreteIntChild | src/main/java/com/github/kilianB/geneticAlgorithm/prototypes/IntPrototype.java:140-151 | a discrete int child takes gene i from the parent the vector names, so it stays inside every bound the parents respect |
| Breeding.FuzzyIntBetween | src/main/java/com/github/kilianB/geneticAlgorithm/prototypes/IntPrototype.java:122-137 | every gene of a fuzzy child from a stochastic matrix lies between the bounds its parents respect |
| Breeding.FuzzyIntChild | src/main/java/com/github/kilianB/geneticAlgorithm/prototypes/IntPrototype.java:122-137 | a fuzzy int child from a single point or scattered fuzzy strategy stays inside every bound its parents respect |
| CrossoverStrategy.NewStrategy | src/main/java/com/github/kilianB/geneticAlgorithm/crossover/CrossoverStrategy.java:29-32 | the two-argument constructors keep kind and numParents, and checkClones is kept except by ScatteredFitnessFuzzy, which passes false |
| CrossoverStrategy.DefaultStrategy | src/main/java/com/github/kilianB/geneticAlgorithm/crossover/CrossoverStrategy.java:29-32 | the one-argument constructors check clones, except ScatteredFitnessFuzzy, and fitness-fuzzy uses rank scaling |
| CrossoverStrategy.ParentCountRoundTrip | src/main/java/com/github/kilianB/geneticAlgorithm/crossover/CrossoverStrategy.java:37-39 | getParentCount answers the numParents the strategy was built with |
| CrossoverStrategy.EqualsIsEquivalence | src/main/java/com/github/kilianB/geneticAlgorithm/crossover/CrossoverStrategy.java:95-108 | equals is an equivalence and ignores the fitness scaler |
| CrossoverStrategy.DefaultIsCheckedStrategy | src/main/java/com/github/kilianB/geneticAlgorithm/crossover/SinglePointDiscrete.java:35-47 | the one-argument constructor equals the two-argument one with checkClones true; single point fuzzy never redraws |
| CrossoverStrategy.IsCloneVector | src/main/java/com/github/kilianB/geneticAlgorithm/crossover/CrossoverStrategy.java:48-62 | a vector is a clone exactly when all its entries name the same parent |
| CrossoverStrategy.IsCloneMatrix | src/main/java/com/github/kilianB/geneticAlgorithm/crossover/CrossoverStrategy.java:71-83 | a matrix is a clone exactly when its first row alone decides every column |
| CrossoverStrategy.OtherRowsIgnored | src/main/java/com/github/kilianB/geneticAlgorithm/crossover/CrossoverStrategy.java:71-83 | isClone on a matrix looks only at its first row |
| CrossoverStrategy.ScanFindsFirstLargest | src/main/java/com/github/kilianB/geneticAlgorithm/crossover/CrossoverStrategyFuzzy.java:56-75 | the column scan answers -1 when no weight is positive, else the first row holding the largest weight |
| CrossoverStrategy.ScanColumn | src/main/java/com/github/kilianB/geneticAlgorithm/crossover/CrossoverStrategyFuzzy.java:56-75 | the scanning loop of one column answers the scan function, and throws IndexOutOfBounds on a row too short |
| CrossoverStrategy.FuzzyToDiscrete | src/main/java/com/github/kilianB/geneticAlgorithm/crossover/CrossoverStrategyFuzzy.java:56-75 | fuzzyToDiscrete maps each column to the row of its first largest positive weight (or -1); an empty or ragged matrix throws IndexOutOfBounds |
| CrossoverStrategy.OtherParent | src/main/java/com/github/kilianB/geneticAlgorithm/crossover/ScatteredDiscrete.java:69-75 | the repair draw names a parent other than the given one; with a single parent nextInt(0) throws IllegalArgument |
| SinglePointStrategy.Shares | src/main/java/com/github/kilianB/geneticAlgorithm/crossover/SinglePointDiscrete.java:57-61 | each parent's share is one nextDouble draw, in [0, 1) |
| SinglePointStrategy.ShareTotal | src/main/java/com/github/kilianB/geneticAlgorithm/crossover/SinglePointDiscrete.java:58-61 | the share total starts at Double.MIN_VALUE and so is positive |
| SinglePointStrategy.CutLength | src/main/java/com/github/kilianB/geneticAlgorithm/crossover/SinglePointDiscrete.java:66-71 | a block length Math.round(v / (sum / share)) is never negative; a zero share gives an empty block |
| SinglePointStrategy.DrawShares | src/main/java/com/github/kilianB/geneticAlgorithm/crossover/SinglePointDiscrete.java:57-61 | the drawing loop answers the shares and their total |
| SinglePointStrategy.CutLengths | src/main/java/com/github/kilianB/geneticAlgorithm/crossover/SinglePointDiscrete.java:66-71 | the cut loop answers one rounded block length per share and their running total |
| SinglePointStrategy.DrawCuts | src/main/java/com/github/kilianB/geneticAlgorithm/crossover/SinglePointDiscrete.java:57-71 | drawing and cutting together answer the cut lengths of the attempt and where the last block ends |
| SinglePointStrategy.PaddedCovers | src/main/java/com/github/kilianB/geneticAlgorithm/crossover/SinglePointDiscrete.java:75-78 | padding grows only the last block, and only until the blocks cover every variable |
| SinglePointStrategy.Pad | src/main/java/com/github/kilianB/geneticAlgorithm/crossover/SinglePointDiscrete.java:75-78 | the padding loop answers the padded cuts |
| SinglePointStrategy.CutEndMonotone | src/main/java/com/github/kilianB/geneticAlgorithm/crossover/SinglePointDiscrete.java:66-71 | block ends never decrease along the parents |
| SinglePointStrategy.OwnerIsBlock | src/main/java/com/github/kilianB/geneticAlgorithm/crossover/SinglePointDiscrete.java:82-93 | the owner of gene i is the parent whose block holds i, and no other |
| SinglePointStrategy.OwnerMonotone | src/main/java/com/github/kilianB/geneticAlgorithm/crossover/SinglePointDiscrete.java:82-93 | owners never decrease along the genes |
| SinglePointStrategy.Walk | src/main/java/com/github/kilianB/geneticAlgorithm/crossover/SinglePointDiscrete.java:82-93 | the cursor walk answers the block owner of each gene, and throws IndexOutOfBounds exactly when the blocks end before the last gene |
| SinglePointStrategy.OwnersOrdered | src/main/java/com/github/kilianB/geneticAlgorithm/crossover/SinglePointDiscrete.java:82-93 | every owner names a parent and owners are sorted along the genes |
| SinglePointStrategy.PaddedOwners | src/main/java/com/github/kilianB/geneticAlgorithm/crossover/SinglePointDiscrete.java:75-93 | after padding every gene has an owner, owners are parents and they never decrease |
| SinglePointStrategy.AttemptOwners | src/main/java/com/github/kilianB/geneticAlgorithm/crossover/SinglePointDiscrete.java:50-93 | one attempt's draws, cuts, padding and walk answer the padded owners |
| SinglePointStrategy.Spliced | src/main/java/com/github/kilianB/geneticAlgorithm/crossover/SinglePointDiscrete.java:113-117 | the forced cut keeps the vector's length |
| SinglePointStrategy.OverwriteFrom | src/main/java/com/github/kilianB/geneticAlgorithm/crossover/SinglePointDiscrete.java:115-117 | the overwrite loop gives every gene from the forced cut on to the new parent |
| SinglePointStrategy.Repair | src/main/java/com/github/kilianB/geneticAlgorithm/crossover/SinglePointDiscrete.java:96-118 | the small-vector repair answers the repaired clone over the attempt's draws |
| SinglePointStrategy.CrossoverVector | src/main/java/com/github/kilianB/geneticAlgorithm/crossover/SinglePointDiscrete.java:50-126 | getCrossoverVector answers the discrete vector over the attempts, redrawing a clone of more than three genes |
| SinglePointStrategy.DiscreteVectorInRange | src/main/java/com/github/kilianB/geneticAlgorithm/crossover/SinglePointDiscrete.java:50-126 | every entry of the answered vector names a parent, one entry per variable |
| SinglePointStrategy.RepairSplitsOnce | src/main/java/com/github/kilianB/geneticAlgorithm/crossover/SinglePointDiscrete.java:96-118 | a clone of at most three genes is repaired by one cut after which a different parent owns the rest, so it is no longer a clone |
| SinglePointStrategy.DiscreteVectorNotClone | src/main/java/com/github/kilianB/geneticAlgorithm/crossover/SinglePointDiscrete.java:96-122 | with clone checks on and at least two genes an answered vector is never a clone |
| SinglePointStrategy.DiscreteVectorFailures | src/main/java/com/github/kilianB/geneticAlgorithm/crossover/SinglePointDiscrete.java:96-122 | with checks: no genes throws IndexOutOfBounds, one gene or one parent with up to three genes throws IllegalArgument, one parent with more redraws until the redraw limit; without checks the padded owners are answered |
| SinglePointStrategy.OneHot | src/main/java/com/github/kilianB/geneticAlgorithm/crossover/SinglePointFuzzy.java:85-94 | the one-hot matrix has a row per parent and a column per gene |
| SinglePointStrategy.WriteColumn | src/main/java/com/github/kilianB/geneticAlgorithm/crossover/SinglePointFuzzy.java:91-93 | the inner loop writes 1 for the column's owner and 0 for every other parent in column i, and nothing else |
| SinglePointStrategy.FillOneHot | src/main/java/com/github/kilianB/geneticAlgorithm/crossover/SinglePointFuzzy.java:85-94 | the fill loop answers the one-hot matrix of the owners |
| SinglePointStrategy.CrossoverMatrix | src/main/java/com/github/kilianB/geneticAlgorithm/crossover/SinglePointFuzzy.java:53-106 | getCrossoverMatrix answers the fuzzy matrix of the attempt |
| SinglePointStrategy.FuzzyMatrixOneHot | src/main/java/com/github/kilianB/geneticAlgorithm/crossover/SinglePointFuzzy.java:53-106 | an answered matrix holds 1 exactly at each gene's owner and 0 elsewhere, every column sums to 1, and owners never decrease |
| SinglePointStrategy.FuzzyMatrixShortfall | src/main/java/com/github/kilianB/geneticAlgorithm/crossover/SinglePointFuzzy.java:71-94 | without padding the walk throws IndexOutOfBounds exactly when the rounded blocks end before the last gene |
| ScatteredDiscreteStrategy.RawVector | src/main/java/com/github/kilianB/geneticAlgorithm/crossover/ScatteredDiscrete.java:50-54 | one nextInt(numParents) per gene, each naming a parent |
| ScatteredDiscreteStrategy.CrossoverVector | src/main/java/com/github/kilianB/geneticAlgorithm/crossover/ScatteredDiscrete.java:45-83 | getCrossoverVector answers the scattered vector over the attempts |
| ScatteredDiscreteStrategy.VectorInRange | src/main/java/com/github/kilianB/geneticAlgorithm/crossover/ScatteredDiscrete.java:45-83 | every entry of the answered vector names a parent, one per variable |
| ScatteredDiscreteStrategy.VectorNotClone | src/main/java/com/github/kilianB/geneticAlgorithm/crossover/ScatteredDiscrete.java:59-81 | with clone checks on and at least two genes an answered vector is never a clone |
| ScatteredDiscreteStrategy.RepairChangesOneGene | src/main/java/com/github/kilianB/geneticAlgorithm/crossover/ScatteredDiscrete.java:63-76 | a clone of fewer than four genes is repaired by changing exactly one gene |
| ScatteredDiscreteStrategy.UncheckedIsRaw | src/main/java/com/github/kilianB/geneticAlgorithm/crossover/ScatteredDiscrete.java:45-83 | without clone checks the raw draws are answered as they are |
| ScatteredDiscreteStrategy.CheckedFailures | src/main/java/com/github/kilianB/geneticAlgorithm/crossover/ScatteredDiscrete.java:59-81 | with checks: no genes or a single parent with under four genes throws IllegalArgument; a single parent with more redraws until the redraw limit |
| ScatteredFuzzyStrategy.Weight | src/main/java/com/github/kilianB/geneticAlgorithm/crossover/ScatteredFuzzy.java:60-61 | every raw weight is a nextDouble draw in [0, 1) |
| ScatteredFuzzyStrategy.DrawRow | src/main/java/com/github/kilianB/geneticAlgorithm/crossover/ScatteredFuzzy.java:58-63 | the inner draw loop fills row i with its draws and adds each to its column's total |
| ScatteredFuzzyStrategy.DrawWeights | src/main/java/com/github/kilianB/geneticAlgorithm/crossover/ScatteredFuzzy.java:57-64 | the draw loops answer the raw weight matrix and its column totals |
| ScatteredFuzzyStrategy.DivideRow | src/main/java/com/github/kilianB/geneticAlgorithm/crossover/ScatteredFuzzy.java:69-71 | dividing a row by the column totals gives row[j] / avg[j], and a zero total (a NaN in Java) is unrepresentable |
| ScatteredFuzzyStrategy.Divide | src/main/java/com/github/kilianB/geneticAlgorithm/crossover/ScatteredFuzzy.java:68-72 | the normalising loops answer the normalised matrix exactly when no column total is zero |
| ScatteredFuzzyStrategy.CrossoverMatrix | src/main/java/com/github/kilianB/geneticAlgorithm/crossover/ScatteredFuzzy.java:46-86 | getCrossoverMatrix answers the scattered fuzzy matrix over the attempts, redrawing a clone |
| ScatteredFuzzyStrategy.WeightColumnSum | src/main/java/com/github/kilianB/geneticAlgorithm/crossover/ScatteredFuzzy.java:57-64 | a column's weights add up to the column total the loop keeps |
| ScatteredFuzzyStrategy.NormalisedColumn | src/main/java/com/github/kilianB/geneticAlgorithm/crossover/ScatteredFuzzy.java:68-72 | a normalised column is the raw column scaled by the inverse of its total |
| ScatteredFuzzyStrategy.NormalisedShares | src/main/java/com/github/kilianB/geneticAlgorithm/crossover/ScatteredFuzzy.java:68-72 | after normalising every column sums to 1 and every weight lies in [0, 1] |
| ScatteredFuzzyStrategy.MatrixShares | src/main/java/com/github/kilianB/geneticAlgorithm/crossover/ScatteredFuzzy.java:46-86 | an answered matrix has one row per parent and one column per gene, every column sums to 1, every weight lies in [0, 1], and with checks it is not a clone |
| ScatteredFuzzyStrategy.CheckedNeverSettles | src/main/java/com/github/kilianB/geneticAlgorithm/crossover/ScatteredFuzzy.java:75-83 | with clone checks and a single parent or no genes every attempt is a clone, so the redraws never settle |
| ScatteredFitnessFuzzyStrategy.ConstantRows | src/main/java/com/github/kilianB/geneticAlgorithm/crossover/ScatteredFitnessFuzzy.java:61-66 | row p of the matrix holds parent p's scaled fitness in every column |
| ScatteredFitnessFuzzyStrategy.FillRow | src/main/java/com/github/kilianB/geneticAlgorithm/crossover/ScatteredFitnessFuzzy.java:63-65 | the inner loop fills one row with the parent's scaled fitness |
| ScatteredFitnessFuzzyStrategy.FillRows | src/main/java/com/github/kilianB/geneticAlgorithm/crossover/ScatteredFitnessFuzzy.java:61-66 | the outer loop answers the constant rows of the scaled fitnesses |
| ScatteredFitnessFuzzyStrategy.CrossoverMatrix | src/main/java/com/github/kilianB/geneticAlgorithm/crossover/ScatteredFitnessFuzzy.java:50-76 | no parents throws IndexOutOfBounds; otherwise the matrix repeats each parent's fitness scaled with factor 1, and fails exactly when that scaling is unrepresentable |
| ScatteredFitnessFuzzyStrategy.FitnessColumnsSumToOne | src/main/java/com/github/kilianB/geneticAlgorithm/crossover/ScatteredFitnessFuzzy.java:57-58 | scaling to factor 1 makes every column of the matrix sum to 1 |
| FitnessScaling.RankAt | src/main/java/com/github/kilianB/geneticAlgorithm/fitnessScaling/RankScaling.java:26-34 | an individual's rank is at least 1 and at most its 1-based position |
| FitnessScaling.RankWeights | src/main/java/com/github/kilianB/geneticAlgorithm/fitnessScaling/RankScaling.java:29-38 | raw rank i is the weight 1/sqrt(rank) of individual i's rank |
| FitnessScaling.WeightTotal | src/main/java/com/github/kilianB/geneticAlgorithm/fitnessScaling/RankScaling.java:36 | the scale factor before division is the sum of the raw ranks, positive for a non-empty population |
| FitnessScaling.RawRanks | src/main/java/com/github/kilianB/geneticAlgorithm/fitnessScaling/RankScaling.java:21-38 | the ranking loop answers the raw ranks and their sum |
| FitnessScaling.RankPassMeaning | src/main/java/com/github/kilianB/geneticAlgorithm/fitnessScaling/RankScaling.java:29-38 | after n steps of the ranking loop the raw ranks so far are the weights of their ranks and the factor is their sum |
| FitnessScaling.RankPassRank | src/main/java/com/github/kilianB/geneticAlgorithm/fitnessScaling/RankScaling.java:31-37 | after n steps the current rank is individual n-1's rank and the last fitness is its fitness |
| FitnessScaling.ScaleEach | src/main/java/com/github/kilianB/geneticAlgorithm/fitnessScaling/RankScaling.java:44-46 | the final loop pairs individual i with its raw value times the factor, keeping the population order |
| FitnessScaling.RankScaleFitness | src/main/java/com/github/kilianB/geneticAlgorithm/fitnessScaling/RankScaling.java:19-49 | rank scaling keeps the population order and gives each individual its rank weight scaled to parentsNeeded; a first fitness of Double.MAX_VALUE leaves rank 0 and is unrepresentable |
| FitnessScaling.RankScaledSum | src/main/java/com/github/kilianB/geneticAlgorithm/fitnessScaling/RankScaling.java:40-46 | rank-scaled values sum to parentsNeeded |
| FitnessScaling.RankNonDecreasing | src/main/java/com/github/kilianB/geneticAlgorithm/fitnessScaling/RankScaling.java:31-34 | ranks never decrease along the population |
| FitnessScaling.RankScaledShape | src/main/java/com/github/kilianB/geneticAlgorithm/fitnessScaling/RankScaling.java:29-46 | rank-scaled values never increase along the population, and equal neighbouring fitnesses get equal values |
| FitnessScaling.RankExamples | src/main/java/com/github/kilianB/geneticAlgorithm/fitnessScaling/RankScaling.java:25-34 | distinct fitnesses get ranks 1, 2, 3; a tie shares the first rank and the next takes rank 3 |
| FitnessScaling.NewTopScaling | src/main/java/com/github/kilianB/geneticAlgorithm/fitnessScaling/TopScaling.java:23-29 | the constructor accepts exactly a percentage in [0, 1] and otherwise throws IllegalArgument |
| FitnessScaling.TopCount | src/main/java/com/github/kilianB/geneticAlgorithm/fitnessScaling/TopScaling.java:41 | the top count is Math.round(n * percentage) but at least 1, and at most n for a non-empty population |
| FitnessScaling.TopScaled | src/main/java/com/github/kilianB/geneticAlgorithm/fitnessScaling/TopScaling.java:41-55 | the first topCount individuals get parentsNeeded / topCount each and the rest 0 |
| FitnessScaling.TopScaleFitness | src/main/java/com/github/kilianB/geneticAlgorithm/fitnessScaling/TopScaling.java:39-57 | top scaling keeps the population order and answers the top-scaled values |
| FitnessScaling.TopScaledSum | src/main/java/com/github/kilianB/geneticAlgorithm/fitnessScaling/TopScaling.java:41-55 | top-scaled values of a non-empty population sum to parentsNeeded |
| FitnessScaling.ZeroCandidates | src/main/java/com/github/kilianB/geneticAlgorithm/fitnessScaling/ProportionalScaling.java:17-27 | an individual is a zero candidate exactly when its fitness is 0 |
| FitnessScaling.ZeroCount | src/main/java/com/github/kilianB/geneticAlgorithm/fitnessScaling/ProportionalScaling.java:43 | the number of zero fitnesses is positive exactly when some fitness is 0 |
| FitnessScaling.ReciprocalSum | src/main/java/com/github/kilianB/geneticAlgorithm/fitnessScaling/ProportionalScaling.java:17-29 | the first loop collects exactly the zero candidates, and the reciprocal sum is finite without them and infinite with them |
| FitnessScaling.ReciprocalStep | src/main/java/com/github/kilianB/geneticAlgorithm/fitnessScaling/ProportionalScaling.java:21-29 | one step of the loop adds 1/f to the reciprocal sum unless f is 0 |
| FitnessScaling.ScaleReciprocals | src/main/java/com/github/kilianB/geneticAlgorithm/fitnessScaling/ProportionalScaling.java:38-41 | without zeros each individual gets its reciprocal fitness times the scale factor |
| FitnessScaling.ShareAmongZeros | src/main/java/com/github/kilianB/geneticAlgorithm/fitnessScaling/ProportionalScaling.java:43-50 | with zeros each zero candidate gets the share and everyone else 0 |
| FitnessScaling.ScaleWithoutZero | src/main/java/com/github/kilianB/geneticAlgorithm/fitnessScaling/ProportionalScaling.java:37-41 | without zeros the scaled values are parentsNeeded / (sum of 1/f) times 1/f |
| FitnessScaling.ProportionalScaleFitnessAsWritten | src/main/java/com/github/kilianB/geneticAlgorithm/fitnessScaling/ProportionalScaling.java:11-55 | proportional scaling as written keeps the order and answers the as-written values, with the integer share (1/zeroCount)*parentsNeeded |
| FitnessScaling.ProportionalScaleFitness | src/main/java/com/github/kilianB/geneticAlgorithm/fitnessScaling/ProportionalScaling.java:11-55 | proportional scaling with the share parentsNeeded / zeroCount keeps the order and answers the intended values |
| FitnessScaling.ProportionalSumWithoutZero | src/main/java/com/github/kilianB/geneticAlgorithm/fitnessScaling/ProportionalScaling.java:37-41 | without zeros the proportional values sum to parentsNeeded |
| FitnessScaling.ProportionalFavoursSmallerFitness | src/main/java/com/github/kilianB/geneticAlgorithm/fitnessScaling/ProportionalScaling.java:37-41 | without zeros a smaller positive fitness gets a strictly larger scaled value |
| FitnessScaling.ProportionalValue | src/main/java/com/github/kilianB/geneticAlgorithm/fitnessScaling/ProportionalScaling.java:40 | each value is (1/f) times parentsNeeded over the reciprocal sum |
| FitnessScaling.ProportionalZeroShareLost | src/main/java/com/github/kilianB/geneticAlgorithm/fitnessScaling/ProportionalScaling.java:43-46 | as written, two or more distinct zero-fitness genotypes give every individual 0, so the scaled values sum to 0 |
| FitnessScaling.ProportionalIntendedSum | src/main/java/com/github/kilianB/geneticAlgorithm/fitnessScaling/ProportionalScaling.java:42-50 | with the intended share the proportional values always sum to parentsNeeded |
| FitnessScaling.SumZeroShares | src/main/java/com/github/kilianB/geneticAlgorithm/fitnessScaling/ProportionalScaling.java:43-50 | the zero shares add up to the zero count times the share |
| FitnessScaling.ScaledBySum | src/main/java/com/github/kilianB/geneticAlgorithm/fitnessScaling/FitnessScalingStrategy.java:49-52 | every modelled strategy's scaled values of a non-empty population sum to parentsNeeded |
| FitnessScaling.ScaleFitness | src/main/java/com/github/kilianB/geneticAlgorithm/fitnessScaling/FitnessScalingStrategy.java:49-52 | scaleFitness dispatches to the strategy, keeps the population order and makes the values sum to parentsNeeded |
| Selection.FirstReach | src/main/java/com/github/kilianB/geneticAlgorithm/selection/StochasticUniform.java:35-37 | the first cumulative bound from a position that reaches the target, or none when no bound does |
| Selection.FirstReachMonotone | src/main/java/com/github/kilianB/geneticAlgorithm/selection/StochasticUniform.java:34-37 | a smaller target is reached no later than a larger one |
| Selection.Spin | src/main/java/com/github/kilianB/geneticAlgorithm/selection/StochasticUniform.java:35-37 | the cursor loop stops at the first section whose upper bound reaches the target |
| Selection.Pointer | src/main/java/com/github/kilianB/geneticAlgorithm/selection/StochasticUniform.java:33 | pointer i lies in [i, i + 1) |
| Selection.StochasticUniformParents | src/main/java/com/github/kilianB/geneticAlgorithm/selection/StochasticUniform.java:21-43 | a negative count throws NegativeArraySize, a cursor overrun throws IndexOutOfBounds, otherwise exactly count parents |
| Selection.PicksAt | src/main/java/com/github/kilianB/geneticAlgorithm/selection/StochasticUniform.java:33-39 | parent i is the individual of the section pointer i lands in |
| Selection.StochasticUniformParentsAreMembers | src/main/java/com/github/kilianB/geneticAlgorithm/selection/StochasticUniform.java:39 | every selected parent is a member of the population |
| Selection.StochasticUniformSelect | src/main/java/com/github/kilianB/geneticAlgorithm/selection/StochasticUniform.java:21-43 | the loop answers the stochastic uniform parents |
| Selection.NextPick | src/main/java/com/github/kilianB/geneticAlgorithm/selection/StochasticUniform.java:33-39 | one pointer moves the cursor forward to its section and reads that section's individual, or overruns |
| Selection.Advance | src/main/java/com/github/kilianB/geneticAlgorithm/selection/StochasticUniform.java:35-37 | the inner loop stops at the first section reaching the location, or overruns the array |
| Selection.StochasticCursorForward | src/main/java/com/github/kilianB/geneticAlgorithm/selection/StochasticUniform.java:34-37 | a later pointer lands no earlier than a previous one |
| Selection.StochasticUniformCompletes | src/main/java/com/github/kilianB/geneticAlgorithm/selection/StochasticUniform.java:29-40 | scaled values summing to at least count, with a positive first draw, never overrun |
| Selection.StochasticUniformZeroFirstDraw | src/main/java/com/github/kilianB/geneticAlgorithm/selection/StochasticUniform.java:33-39 | a first draw of 0 reads index curIndex-1 = -1 and throws IndexOutOfBounds |
| Selection.StochasticUniformOverrun | src/main/java/com/github/kilianB/geneticAlgorithm/selection/StochasticUniform.java:35-37 | a scaled total below the last pointer runs the cursor past the end |
| Selection.WheelDraw | src/main/java/com/github/kilianB/geneticAlgorithm/selection/Roulette.java:27 | each roulette draw lies in [0, count) |
| Selection.RouletteSlot | src/main/java/com/github/kilianB/geneticAlgorithm/selection/Roulette.java:29-37 | a slot that lands holds a member of the population |
| Selection.RouletteSelect | src/main/java/com/github/kilianB/geneticAlgorithm/selection/Roulette.java:20-40 | count slots, each the first section whose prefix reaches draw i; a negative count throws NegativeArraySize |
| Selection.RouletteNoNull | src/main/java/com/github/kilianB/geneticAlgorithm/selection/Roulette.java:29-37 | when the scaled values sum to at least count no slot stays null |
| Selection.RouletteNullPastTotal | src/main/java/com/github/kilianB/geneticAlgorithm/selection/Roulette.java:29-37 | a draw past the scaled total leaves its slot null |
| Selection.Copies | src/main/java/com/github/kilianB/geneticAlgorithm/selection/Remainder.java:37 | the integer part is the truncated value, never above it |
| Selection.Fraction | src/main/java/com/github/kilianB/geneticAlgorithm/selection/Remainder.java:44 | integer part plus fraction gives back the value |
| Selection.FloorAndFraction | src/main/java/com/github/kilianB/geneticAlgorithm/selection/Remainder.java:35-46 | the copies emitted plus the fractional area equal the scaled total |
| Selection.RemainderParents | src/main/java/com/github/kilianB/geneticAlgorithm/selection/Remainder.java:24-70 | the result array has count slots |
| Selection.RemainderThrows | src/main/java/com/github/kilianB/geneticAlgorithm/selection/Remainder.java:27-46 | a negative count throws NegativeArraySize and more floor copies than count overflow the index |
| Selection.RemainderSelect | src/main/java/com/github/kilianB/geneticAlgorithm/selection/Remainder.java:24-70 | the two phases answer the remainder parents |
| Selection.CopyPhase | src/main/java/com/github/kilianB/geneticAlgorithm/selection/Remainder.java:35-46 | the first phase writes each individual floor(scaled) times in input order, overflowing exactly when the copies exceed count, and sums the fractional area |
| Selection.CopyItem | src/main/java/com/github/kilianB/geneticAlgorithm/selection/Remainder.java:37-41 | one item writes its copies, overflowing exactly when they no longer fit |
| Selection.SpinFractions | src/main/java/com/github/kilianB/geneticAlgorithm/selection/Remainder.java:55-67 | one roulette spin over the fractional parts lands on the fractional slot of its draw |
| Selection.RoulettePhase | src/main/java/com/github/kilianB/geneticAlgorithm/selection/Remainder.java:48-68 | the second phase appends the individuals its spins land on |
| Selection.RemainderNoNull | src/main/java/com/github/kilianB/geneticAlgorithm/selection/Remainder.java:24-70 | when the scaled values sum to count every slot is filled |
| Selection.RemainderSlotsLand | src/main/java/com/github/kilianB/geneticAlgorithm/selection/Remainder.java:53-68 | with fractional area n every one of m <= n spins lands |
| Selection.DrawWithoutReplacement | src/main/java/com/github/kilianB/geneticAlgorithm/selection/Tournament.java:51-58 | a tournament draws distinct candidates: its draws are a sub-multiset of the population |
| Selection.DrawAll | src/main/java/com/github/kilianB/geneticAlgorithm/selection/Tournament.java:51-58 | a tournament as large as the population draws all of it |
| Selection.DrawPartition | src/main/java/com/github/kilianB/geneticAlgorithm/selection/Tournament.java:51-58 | the drawn and the left-over candidates together are the population |
| Selection.BestIsWinner | src/main/java/com/github/kilianB/geneticAlgorithm/selection/Tournament.java:56-65 | the kept candidate is the first drawn of the largest scaled fitness |
| Selection.WinnerUnique | src/main/java/com/github/kilianB/geneticAlgorithm/selection/Tournament.java:56-65 | the winner of a round is unique |
| Selection.RoundKeepsWinner | src/main/java/com/github/kilianB/geneticAlgorithm/selection/Tournament.java:54-66 | the round loop keeps the winner of the candidates it draws |
| Selection.RoundWinnerIsMember | src/main/java/com/github/kilianB/geneticAlgorithm/selection/Tournament.java:54-66 | a round's winner is a member of the population |
| Selection.WinnersAreMembers | src/main/java/com/github/kilianB/geneticAlgorithm/selection/Tournament.java:50-68 | every round's winner is a member of the population |
| Selection.TournamentParentsAreMembers | src/main/java/com/github/kilianB/geneticAlgorithm/selection/Tournament.java:38-70 | every selected parent is a member of the population |
| Selection.TournamentParents | src/main/java/com/github/kilianB/geneticAlgorithm/selection/Tournament.java:38-70 | a negative count throws, as does a positive count with an empty population; otherwise count parents |
| Selection.Tournament.constructor | src/main/java/com/github/kilianB/geneticAlgorithm/selection/Tournament.java:30-35 | the size is kept |
| Selection.Tournament.Create | src/main/java/com/github/kilianB/geneticAlgorithm/selection/Tournament.java:30-35 | a size below 2 throws IllegalArgument; otherwise a tournament of that size |
| Selection.Tournament.PlayRound | src/main/java/com/github/kilianB/geneticAlgorithm/selection/Tournament.java:51-66 | one round answers the winner of its draws |
| Selection.Tournament.Nominate | src/main/java/com/github/kilianB/geneticAlgorithm/selection/Tournament.java:58-64 | the nominee is removed from the candidates and replaces mostFit exactly when mostFit is null or strictly less fit |
| Selection.Tournament.SelectParents | src/main/java/com/github/kilianB/geneticAlgorithm/selection/Tournament.java:38-70 | selectParents clamps the size to the population for good and answers the tournament parents |
| Selection.Tournament.PlayRounds | src/main/java/com/github/kilianB/geneticAlgorithm/selection/Tournament.java:50-68 | the rounds loop answers the tournament parents |
| Selection.Tournament.SelectParentsUnitTest | src/main/java/com/github/kilianB/geneticAlgorithm/selection/Tournament.java:79-106 | the size is clamped; the answer lists the drawn candidates then the winner, which is at least as fit as each of them |
| Selection.FullTournamentPicksBest | src/main/java/com/github/kilianB/geneticAlgorithm/selection/Tournament.java:50-66 | a tournament over the whole population picks its unique fittest member |
| Statistics.StatsDescribe | src/main/java/com/github/kilianB/geneticAlgorithm/result/Result.java:164-166 | a summary counts and sums the fitnesses, its min and max are attained and bound every value, and an empty one is the empty summary |
| Statistics.StatsOrdered | src/main/java/com/github/kilianB/geneticAlgorithm/result/Result.java:164-166 | a summary's min is never above its max |
| Statistics.MinAssociates | src/main/java/com/github/kilianB/geneticAlgorithm/result/Result.java:167-174 | min and max are associative, so combining in any grouping gives the same bounds |
| Statistics.CombineIsConcatenation | src/main/java/com/github/kilianB/geneticAlgorithm/result/Result.java:167-174 | combining two summaries is the summary of the concatenated values |
| Statistics.BoundsConcat | src/main/java/com/github/kilianB/geneticAlgorithm/result/Result.java:167-174 | the bounds of a concatenation are the min of the mins and the max of the maxes |
| Statistics.StatsEach | src/main/java/com/github/kilianB/geneticAlgorithm/result/Result.java:162-166 | one summary per sub-population |
| Statistics.CombineAllIsFlatten | src/main/java/com/github/kilianB/geneticAlgorithm/result/Result.java:161-175 | the whole-population summary is the summary of all fitnesses of all sub-populations |
| Results.Put | src/main/java/com/github/kilianB/geneticAlgorithm/result/Result.java:177-179 | put maps the generation to the value, leaves every other key alone, and keeps the insertion order of the keys already present |
| Results.ClearLinkedHashMap | src/main/java/com/github/kilianB/geneticAlgorithm/result/Result.java:659-669 | the loop removes leading keys while they are at least the cut and stops at the first smaller key |
| Results.ClearedAsWrittenAllOrNothing | src/main/java/com/github/kilianB/geneticAlgorithm/result/Result.java:659-669 | on ascending keys the loop as written removes everything when the first key is at least the cut and nothing otherwise |
| Results.ClearedAsWrittenKeepsOlder | src/main/java/com/github/kilianB/geneticAlgorithm/result/Result.java:659-669 | with the initial generation -1 recorded first, resetting from generation 5 keeps every entry |
| Results.ClearedUpToRemovesOlder | src/main/java/com/github/kilianB/geneticAlgorithm/result/Result.java:629-632 | the intended reset removes exactly the generations up to the cut and keeps the later ones |
| Results.FirstMatchFrom | src/main/java/com/github/kilianB/geneticAlgorithm/result/Result.java:251-256 | the scan finds the first sub-population whose minimum equals the best fitness, or none |
| Results.Result.constructor | src/main/java/com/github/kilianB/geneticAlgorithm/result/Result.java:138-140 | a new result keeps its record step, holds no generation, no exception, reason None, and getFitness and getBestResult throw IllegalState |
| Results.Result.SummaryOf | src/main/java/com/github/kilianB/geneticAlgorithm/result/Result.java:165-166 | the stream summary of one sub-population is the summary of its fitnesses |
| Results.Result.Summaries | src/main/java/com/github/kilianB/geneticAlgorithm/result/Result.java:161-175 | the loop answers the sub-population summaries and their combination |
| Results.Result.AddGeneration | src/main/java/com/github/kilianB/geneticAlgorithm/result/Result.java:158-186 | addGeneration records the population and both summaries under the generation and makes it the latest; a runtime below the recorded one throws IllegalState after recording |
| Results.Result.GetBestResult | src/main/java/com/github/kilianB/geneticAlgorithm/result/Result.java:247-259 | getBestResult answers the head of the first sub-population whose minimum equals the best fitness |
| Results.Result.GetGeneration | src/main/java/com/github/kilianB/geneticAlgorithm/result/Result.java:470-477 | getGeneration answers null for an unrecorded generation, the sub-population for a valid index, and throws for an invalid one |
| Results.Result.SetTerminationReason | src/main/java/com/github/kilianB/geneticAlgorithm/result/Result.java:201-203 | the reason is set |
| Results.Result.SetException | src/main/java/com/github/kilianB/geneticAlgorithm/result/Result.java:220-222 | the exception is set |
| Results.Result.ResetState | src/main/java/com/github/kilianB/geneticAlgorithm/result/Result.java:589-594 | the history is cleared |
| Results.Result.ResetStateStatistics | src/main/java/com/github/kilianB/geneticAlgorithm/result/Result.java:605-611 | the history is cleared, and the statistics too exactly when asked |
| Results.Result.ResetStateFrom | src/main/java/com/github/kilianB/geneticAlgorithm/result/Result.java:629-632 | the history of generations up to the cut is removed |
| Results.Result.ResetStateFromStatistics | src/main/java/com/github/kilianB/geneticAlgorithm/result/Result.java:647-653 | history, and when asked the statistics, of generations up to the cut are removed |
| Results.GenerationMinimum | src/main/java/com/github/kilianB/geneticAlgorithm/result/Result.java:161-175 | the combined minimum of a generation bounds every fitness and is some sub-population's minimum |
| Results.HeadHoldsMinimum | src/main/java/com/github/kilianB/geneticAlgorithm/result/Result.java:253-254 | in a fitness-sorted sub-population the head has the sub-population's minimum fitness |
| Results.BestResultIsFittest | src/main/java/com/github/kilianB/geneticAlgorithm/result/Result.java:247-259 | after recording a sorted population getFitness answers its least fitness and getBestResult a sub-population head of that fitness |
| StopCriteria.Add | src/main/java/com/github/kilianB/geneticAlgorithm/GeneticAlgorithm.java:886-887 | adding to the stale window keeps its capacity and the last capacity values |
| StopCriteria.LastOfLast | src/main/java/com/github/kilianB/geneticAlgorithm/GeneticAlgorithm.java:886-887 | keeping the last n after each add is the same as keeping the last n at the end |
| StopCriteria.WindowHoldsTheLatest | src/main/java/com/github/kilianB/geneticAlgorithm/GeneticAlgorithm.java:886-888 | after any history the window holds its last capacity values, is full exactly when the history is that long, and peeks the oldest of them |
| StopCriteria.StopBeforeOrder | src/main/java/com/github/kilianB/geneticAlgorithm/GeneticAlgorithm.java:788-806 | the checks before a generation stop for the generation step first, then an interrupt, then the runtime limit, and otherwise continue |
| StopCriteria.StopAfterOrder | src/main/java/com/github/kilianB/geneticAlgorithm/GeneticAlgorithm.java:874-893 | after a generation the target fitness stops first, then the last generation, then a full window whose oldest value equals the new best; the window is only updated when neither of the first two stops |
| StopCriteria.FirstFailure | src/main/java/com/github/kilianB/geneticAlgorithm/GeneticAlgorithm.java:816-821 | the index of the first sub-population whose task threw, or the count when none did |
| StopCriteria.StepBestIsTheMinimum | src/main/java/com/github/kilianB/geneticAlgorithm/GeneticAlgorithm.java:810-829 | the best generated fitness is the least of the sub-population steps' results (at most Double.MAX_VALUE), or the first exception thrown |
| Migration.ElitismTakesTheFittest | src/main/java/com/github/kilianB/geneticAlgorithm/migration/strategy/Elitism.java:19-24 | on a sorted population Elitism answers its first min(count, size) members, each no less fit than any member left behind; a negative count throws |
| Migration.AncientsAnswersThePopulation | src/main/java/com/github/kilianB/geneticAlgorithm/migration/strategy/Ancients.java:14-38 | Ancients answers the whole population; a negative count throws NegativeArraySize and an empty queue or zero count throws |
| Migration.AncientsCandidates | src/main/java/com/github/kilianB/geneticAlgorithm/migration/strategy/Ancients.java:14-38 | the priority-queue loop answers the Ancients candidates |
| Migration.Youngest | src/main/java/com/github/kilianB/geneticAlgorithm/migration/strategy/Ancients.java:20-31 | the queue head is an individual of the greatest birth, as the inverted comparator orders them |
| Migration.CandidatesAreMembers | src/main/java/com/github/kilianB/geneticAlgorithm/migration/strategy/Elitism.java:19-24 | every candidate of a strategy is a member of the population it was given |
| Migration.PoolDrawnFrom | src/main/java/com/github/kilianB/geneticAlgorithm/migration/direction/NetworkMigration.java:35-45 | the collected pool only holds members of the source sub-populations |
| Migration.RefilteredDrawnFrom | src/main/java/com/github/kilianB/geneticAlgorithm/migration/direction/NetworkMigration.java:45-47 | sorting the pool and applying the strategy again keeps only members of the sources |
| Migration.MigrantsDrawnFromSources | src/main/java/com/github/kilianB/geneticAlgorithm/migration/direction/MigrationProcess.java:26-27 | every migrant of every direction comes from a sub-population that direction reads from |
| Migration.SourcesOfEachDirection | src/main/java/com/github/kilianB/geneticAlgorithm/migration/direction/ForwardMigration.java:41-44 | Network reads every other sub-population, Forward only lower ones, SingleForward the one before, SingleForwardWrap the one before with wrap-around, and BidirectionalWrap of two reads the other one twice |
| Migration.EmptyTargets | src/main/java/com/github/kilianB/geneticAlgorithm/migration/direction/ForwardMigration.java:33-35 | the last target of Forward and BidirectionalWrap, target 0 of SingleForward, and a lone sub-population under Network receive nothing |
| Migration.ElitismBoundsMigrants | src/main/java/com/github/kilianB/geneticAlgorithm/migration/direction/NetworkMigration.java:47 | with Elitism no direction answers more than count migrants |
| Migration.ElitismPoolNonEmpty | src/main/java/com/github/kilianB/geneticAlgorithm/migration/direction/NetworkMigration.java:35-45 | Elitism over non-empty sources collects at least one candidate |
| Migration.IntendedTargetsReceive | src/main/java/com/github/kilianB/geneticAlgorithm/migration/direction/BidirectionalWrapMigration.java:34-59 | without the early return every Forward target above 0 and every BidirectionalWrap target receives between 1 and count migrants |
| Migration.NeighboursOnTheRing | src/main/java/com/github/kilianB/geneticAlgorithm/migration/direction/BidirectionalWrapMigration.java:40-49 | the intended neighbours are target-1 and target+1 on the ring, and with more than two sub-populations never the target |
| Migration.LastTargetLosesItsMigrants | src/main/java/com/github/kilianB/geneticAlgorithm/migration/direction/ForwardMigration.java:33-35 | as written the last sub-population receives no migrants under Forward and BidirectionalWrap, though the intended directions give it some |
| Migration.NetworkMigrated | src/main/java/com/github/kilianB/geneticAlgorithm/migration/direction/NetworkMigration.java:30-48 | the Network loop answers the Network migrants |
| Migration.PoolUpToIsPool | src/main/java/com/github/kilianB/geneticAlgorithm/migration/direction/NetworkMigration.java:37-42 | the loop's pool after i steps is the pool of every sub-population below i but the target |
| Migration.NetworkTurn | src/main/java/com/github/kilianB/geneticAlgorithm/migration/direction/NetworkMigration.java:38-41 | one step appends the candidates of sub-population i, or keeps the first exception |
| Migration.ForwardMigrated | src/main/java/com/github/kilianB/geneticAlgorithm/migration/direction/ForwardMigration.java:30-51 | the Forward loop answers the Forward migrants |
| Migration.ForwardStep | src/main/java/com/github/kilianB/geneticAlgorithm/migration/direction/ForwardMigration.java:41-44 | one Forward step appends the candidates of sub-population i, or throws what they throw |
| Migration.PoolOneMore | src/main/java/com/github/kilianB/geneticAlgorithm/migration/direction/ForwardMigration.java:41-44 | pooling one more source appends its candidates |
| Migration.BidirectionalWrapMigrated | src/main/java/com/github/kilianB/geneticAlgorithm/migration/direction/BidirectionalWrapMigration.java:31-61 | the BidirectionalWrap code answers the BidirectionalWrap migrants |
| MutationScaling.ConstantIsOne | src/main/java/com/github/kilianB/geneticAlgorithm/mutationScaling/MutationScalingStrategy.java:58-60 | CONSTANT is always 1 |
| MutationScaling.LinearGenerationFalls | src/main/java/com/github/kilianB/geneticAlgorithm/mutationScaling/MutationScalingStrategy.java:67-69 | LINEAR_GENERATION is (maxGen - gen) / maxGen: 1 at the start, 0 at maxGen, and within [0, 1] in between |
| MutationScaling.LinearGenerationDecreases | src/main/java/com/github/kilianB/geneticAlgorithm/mutationScaling/MutationScalingStrategy.java:67-69 | LINEAR_GENERATION never rises with the generation |
| MutationScaling.LinearGenerationFractions | src/main/java/com/github/kilianB/geneticAlgorithm/mutationScaling/MutationScalingStrategy.java:67-69 | a tenth of the way the factor is 0.9 and half way it is 0.5 |
| MutationScaling.StallAdaptRaises | src/main/java/com/github/kilianB/geneticAlgorithm/mutationScaling/MutationScalingStrategy.java:130-137 | STALL_ADAPT differs from the linear factor exactly when the stall count exceeds maxGen / 20, then it is 1.3 times it, and it stays within [0, 1.3] |
| MutationScaling.AsymptotValues | src/main/java/com/github/kilianB/geneticAlgorithm/mutationScaling/MutationScalingStrategy.java:140-142 | ASYMPTOT is (maxGen / (gen + 1) - 1) / maxGen, 1 - 1/maxGen at generation 0 and 0 at the last generation |
| MutationScaling.LinearFitnessMutationScaling.constructor | src/main/java/com/github/kilianB/geneticAlgorithm/mutationScaling/LinearFitnessMutationScaling.java:11 | firstFitness starts at 0 |
| MutationScaling.LinearFitnessMutationScaling.ComputeScaleFactor | src/main/java/com/github/kilianB/geneticAlgorithm/mutationScaling/LinearFitnessMutationScaling.java:14-22 | computeScaleFactor anchors firstFitness at the first non-zero gap and answers the gap over it |
| MutationScaling.LinearFitnessMutationScaling.Reset | src/main/java/com/github/kilianB/geneticAlgorithm/mutationScaling/LinearFitnessMutationScaling.java:25-27 | reset sets firstFitness back to 0 |
| MutationScaling.LinearFitnessAnchors | src/main/java/com/github/kilianB/geneticAlgorithm/mutationScaling/LinearFitnessMutationScaling.java:17-21 | the first call anchors at best - target and answers 1; later calls answer the gap relative to that anchor |
| MutationScaling.LinearFitnessReachesZero | src/main/java/com/github/kilianB/geneticAlgorithm/mutationScaling/LinearFitnessMutationScaling.java:21 | once the best fitness reaches the target the factor is 0 |
| MutationScaling.LinearFitnessZeroGap | src/main/java/com/github/kilianB/geneticAlgorithm/mutationScaling/LinearFitnessMutationScaling.java:17-21 | a first call whose gap is 0 leaves the anchor at 0 and answers NaN |
| MutationScaling.Compute | src/main/java/com/github/kilianB/geneticAlgorithm/mutationScaling/MutationScalingStrategy.java:38-39 | computeScaleFactor answers the constant's schedule, or runs the stateful linear-fitness strategy |
| MutationScaling.Reset | src/main/java/com/github/kilianB/geneticAlgorithm/mutationScaling/MutationScalingStrategy.java:49-50 | reset is a no-op for the constants and clears the linear-fitness anchor |
| MutationScaling.ResetAll | src/main/java/com/github/kilianB/geneticAlgorithm/GeneticAlgorithm.java:979-994 | resetting every sub-population's strategy clears each linear-fitness anchor |
| PrototypeGenes.MutateBoolean | src/main/java/com/github/kilianB/geneticAlgorithm/prototypes/BooleanPrototype.java:99-111 | mutate answers a new, unevaluated boolean individual with each gene flipped exactly when its draw is at most the probability |
| PrototypeGenes.FlippedGenes | src/main/java/com/github/kilianB/geneticAlgorithm/prototypes/BooleanPrototype.java:103-109 | flipping twice with the same draws gives back the genes; probability 1 flips all, a negative probability none, probability 0 only genes whose draw is 0 |
| PrototypeGenes.Candidate | src/main/java/com/github/kilianB/geneticAlgorithm/prototypes/IntPrototype.java:171-175 | a draw above the probability keeps the gene |
| PrototypeGenes.MutateGene | src/main/java/com/github/kilianB/geneticAlgorithm/prototypes/IntPrototype.java:170-177 | each attempt of the do-while consumes one draw |
| PrototypeGenes.MutateGeneLoop | src/main/java/com/github/kilianB/geneticAlgorithm/prototypes/IntPrototype.java:170-177 | the do-while loop answers the gene the retries settle on, or the redraw limit |
| PrototypeGenes.MutateInt | src/main/java/com/github/kilianB/geneticAlgorithm/prototypes/IntPrototype.java:165-181 | mutate answers a new, unevaluated int individual with the genes the retries settle on, or the exception |
| PrototypeGenes.MutateGeneMeetsBounds | src/main/java/com/github/kilianB/geneticAlgorithm/prototypes/IntPrototype.java:170-177 | a settled gene lies within its constraint and is either the old gene or the old gene plus one 32-bit wrapped offset |
| PrototypeGenes.MutateMeetsConstraints | src/main/java/com/github/kilianB/geneticAlgorithm/prototypes/IntPrototype.java:168-178 | every gene of a mutated int individual lies within its constraint |
| PrototypeGenes.MutateCopies | src/main/java/com/github/kilianB/geneticAlgorithm/prototypes/IntPrototype.java:173-174 | when no draw is at or below the probability the mutant copies the genes |
| PrototypeGenes.BinaryStringRoundTrip | src/main/java/com/github/kilianB/geneticAlgorithm/prototypes/BooleanPrototype.java:50-66 | parsing the 0/1 string of some genes gives them back, and a parsed string is the 0/1 string of its genes |
| PrototypeGenes.BooleanFromString | src/main/java/com/github/kilianB/geneticAlgorithm/prototypes/BooleanPrototype.java:50-66 | the string constructor accepts exactly strings of 0s and 1s, '1' being true, and throws IllegalArgument otherwise |
| EngineConfig.CountsAll | src/main/java/com/github/kilianB/geneticAlgorithm/GeneticAlgorithm.java:267-311 | one elite, mutation and crossover count per sub-population |
| EngineConfig.RejectedCompositionThrows | src/main/java/com/github/kilianB/geneticAlgorithm/GeneticAlgorithm.java:209-264 | fractions adding up to more than 1, or a crossover of fewer than two parents, make the constructor throw IllegalArgument |
| EngineConfig.ConfiguredCountsPartition | src/main/java/com/github/kilianB/geneticAlgorithm/GeneticAlgorithm.java:267-311 | in an accepted configuration elite, mutation and crossover counts are non-negative and add up to the population count |
| EngineStep.ScaledPopulation | src/main/java/com/github/kilianB/geneticAlgorithm/GeneticAlgorithm.java:400-402 | step 1 answers the strategy's scaled population in population order, or Unrepresentable |
| EngineStep.ScaledPopulationIsDetermined | src/main/java/com/github/kilianB/geneticAlgorithm/GeneticAlgorithm.java:400-402 | the scaled population is the only one with those members and values |
| EngineStep.OffspringCounts | src/main/java/com/github/kilianB/geneticAlgorithm/GeneticAlgorithm.java:429-458 | a generation's offspring are m mutants and c crossover children |
| EngineStep.ChildrenInOrder | src/main/java/com/github/kilianB/geneticAlgorithm/GeneticAlgorithm.java:414-458 | the new generation holds the elite, then the mutants, then the crossover children, each child new and stamped with its origin and birth |
| EngineStep.NoEmptySlot | src/main/java/com/github/kilianB/geneticAlgorithm/GeneticAlgorithm.java:414-458 | when the three counts fill the array no slot stays null |
| EngineStep.LaidSideBySide | src/main/java/com/github/kilianB/geneticAlgorithm/GeneticAlgorithm.java:414-458 | elite, mutants and children side by side are the laid-out generation |
| EngineStep.SelectPool | src/main/java/com/github/kilianB/geneticAlgorithm/GeneticAlgorithm.java:404-411 | selection then shuffle answer the specified parent pool, starting from the tournament size before the call |
| EngineStep.FillChildren | src/main/java/com/github/kilianB/geneticAlgorithm/GeneticAlgorithm.java:421-458 | the mutation and crossover loops write the mutants after the elite and the children after them, or report the first exception |
| EngineStep.Fill | src/main/java/com/github/kilianB/geneticAlgorithm/GeneticAlgorithm.java:414-458 | filling throws IndexOutOfBounds when the elite does not fit, and otherwise lays out elite, mutants and children; the mutation scale is the strategy's value for the old head's fitness and a stall count of 0 |
| EngineStep.Unwrap | src/main/java/com/github/kilianB/geneticAlgorithm/GeneticAlgorithm.java:522-528 | a next generation with a null slot throws NullPointer when sorted; otherwise its slots in order |
| EngineStep.Breed | src/main/java/com/github/kilianB/geneticAlgorithm/GeneticAlgorithm.java:396-458 | steps 1 to 3 answer the specified offspring laid out in populationCount slots, or the first exception |
| EngineStep.BreedFrom | src/main/java/com/github/kilianB/geneticAlgorithm/GeneticAlgorithm.java:414-458 | reproduction from a given pool answers the specified offspring laid out in populationCount slots |
| EngineGeneration.Advance | src/main/java/com/github/kilianB/geneticAlgorithm/GeneticAlgorithm.java:396-530 | Stepped: a generation throws the specified offspring's exception, lays out the specified offspring, and succeeds without clone prevention; with clone prevention it succeeds exactly when the clone pass over the aged generation does, throws the pass's exception, and is a permutation of what the pass left (ClonedFrom); without it, a permutation of the laid-out generation; it is sorted by fitness, keeps every genotype, and with an elite the new head is no less fit than the old one |
| EngineMigration.ArrayCopied | src/main/java/com/github/kilianB/geneticAlgorithm/GeneticAlgorithm.java:860-861 | System.arraycopy writes the first count migrants into the last count slots, and throws IndexOutOfBounds when either side is too short |
| EngineMigration.ReceivedOne | src/main/java/com/github/kilianB/geneticAlgorithm/GeneticAlgorithm.java:857-866 | with the intended copy the worst slot of a non-empty target takes the first migrant, or keeps its individual when none is offered |
| EngineMigration.EmptyOfferThrows | src/main/java/com/github/kilianB/geneticAlgorithm/GeneticAlgorithm.java:857-866 | the last target of Forward and target 0 of SingleForward are offered nothing, so arraycopy as written throws, while the intended copy keeps them |
| EngineMigration.Offers | src/main/java/com/github/kilianB/geneticAlgorithm/GeneticAlgorithm.java:850-855 | the migrants of every target are computed before any target is written |
| EngineMigration.MigrantsEach | src/main/java/com/github/kilianB/geneticAlgorithm/GeneticAlgorithm.java:852-855 | the collected migrants are the offers in target order, or the first exception |
| EngineMigration.ReceivedEach | src/main/java/com/github/kilianB/geneticAlgorithm/GeneticAlgorithm.java:857-866 | every non-empty target receives its migrants without error and later targets are not yet touched |
| EngineMigration.SortedEachSorts | src/main/java/com/github/kilianB/geneticAlgorithm/GeneticAlgorithm.java:868-870 | each sub-population is sorted again, keeping its members |
| EngineMigration.MigrationStepMeaning | src/main/java/com/github/kilianB/geneticAlgorithm/GeneticAlgorithm.java:847-872 | a migration step collects all offers, then every target receives its migrants and is re-sorted, or the step fails with the first exception |
| EngineMigration.ArrivedAfterSort | src/main/java/com/github/kilianB/geneticAlgorithm/GeneticAlgorithm.java:857-870 | receiving then sorting gives a sorted permutation of the received population |
| EngineMigration.ArrivalKeepsTheBest | src/main/java/com/github/kilianB/geneticAlgorithm/GeneticAlgorithm.java:857-870 | a migration never makes a sub-population's best fitness worse |
| EngineMigration.Migrate | src/main/java/com/github/kilianB/geneticAlgorithm/GeneticAlgorithm.java:847-872 | the migration code answers the migration step |
| EngineMigration.CollectMigrants | src/main/java/com/github/kilianB/geneticAlgorithm/GeneticAlgorithm.java:850-855 | the collecting loop answers the migrants of every target |
| EngineMigration.WriteMigrants | src/main/java/com/github/kilianB/geneticAlgorithm/GeneticAlgorithm.java:857-866 | the copying loop answers the received populations |
| EngineMigration.SortAll | src/main/java/com/github/kilianB/geneticAlgorithm/GeneticAlgorithm.java:868-870 | the sorting loop answers every sub-population sorted |
| EngineState.EmptyWindow | src/main/java/com/github/kilianB/geneticAlgorithm/GeneticAlgorithm.java:217-221 | the stale window is absent when maxStaleGenerations is at most 0 (the builder default -1 included), and an empty window of that capacity when it is positive |
| EngineState.LastIsBest | src/main/java/com/github/kilianB/geneticAlgorithm/GeneticAlgorithm.java:925-932 | after the final recording getBestResult answers a sub-population head no other individual beats |
| Engine.GeneticAlgorithm.constructor | src/main/java/com/github/kilianB/geneticAlgorithm/GeneticAlgorithm.java:193-380 | the engine keeps its settings and first population, starts at generation 0, not interrupted, with an empty stale window |
| Engine.GeneticAlgorithm.Create | src/main/java/com/github/kilianB/geneticAlgorithm/GeneticAlgorithm.java:193-380 | construction throws what the checks throw, else builds and sorts the first population from the given individuals or the prototype, each marked as a founder |
| Engine.GeneticAlgorithm.MarkFounders | src/main/java/com/github/kilianB/geneticAlgorithm/GeneticAlgorithm.java:334-362 | every given first individual is marked as born in generation -1 with origin INITIAL_POPULATION |
| Engine.GeneticAlgorithm.PrototypePopulation | src/main/java/com/github/kilianB/geneticAlgorithm/GeneticAlgorithm.java:334-362 | one sub-population per setting, of its populationCount new founders, or the prototype's exception |
| Engine.GeneticAlgorithm.SubPopulationOf | src/main/java/com/github/kilianB/geneticAlgorithm/GeneticAlgorithm.java:340-356 | count new founders from the prototype, or its exception |
| Engine.GeneticAlgorithm.PerformGeneration | src/main/java/com/github/kilianB/geneticAlgorithm/GeneticAlgorithm.java:396-532 | performGeneration is Advance's step (Stepped) on the old sub-population: it fails with the exception of the specified offspring when that throws, and succeeds when it does not and clone prevention is off; with clone prevention it succeeds exactly when the clone pass over the aged generation does and otherwise throws the pass's exception; on success it replaces only its own sub-population, with the bred generation laid out as specified (elite, crossover and mutation children, fresh birth and origin), after the clone pass (kept genotypes carried, or born this generation with origin ForceCloneMutation, clones separated), sorted by fitness, keeping the bred genotypes and, without clone prevention, exactly the bred individuals; it answers the old head's fitness, a failure leaves every sub-population as it was, and with an elite the new head is no worse |
| Engine.GeneticAlgorithm.Call | src/main/java/com/github/kilianB/geneticAlgorithm/GeneticAlgorithm.java:1167-1178 | one task runs performGeneration on its own sub-population: its step is Stepped for the offspring StepOffspring breeds from the sub-population with the tournament size it started from; the sub-population becomes the step's result, or stays as it was when the step throws, and no other sub-population changes; it answers the old head's fitness or the step's exception |
| Engine.GeneticAlgorithm.StepAll | src/main/java/com/github/kilianB/geneticAlgorithm/GeneticAlgorithm.java:812-821 | every sub-population task runs, each from the population it started with (SteppedAll): each sub-population is the result of its own step, Stepped for the offspring StepOffspring breeds from its old members (Specified), or is unchanged when its step threw; the outcomes are, in order, the old heads' fitness or the steps' exceptions, and each successful sub-population is sorted and no worse |
| Engine.GeneticAlgorithm.StepAndMigrate | src/main/java/com/github/kilianB/geneticAlgorithm/GeneticAlgorithm.java:810-872 | every sub-population is stepped as StepAll states (SteppedAll and Specified from the old population); the best generated fitness is the smallest old head fitness (Double.MAX_VALUE when none) or the first exception; in a migration generation after a successful step the new population is the migration step applied to the stepped one, with its exception escaping; otherwise it is the stepped population |
| Engine.GeneticAlgorithm.Calculate | src/main/java/com/github/kilianB/geneticAlgorithm/GeneticAlgorithm.java:753-952 | calculate records the first population as generation -1 and the sorted last one at the end; every earlier pass passed all checks before and after its step, and the last pass stopped for exactly the first check that fired, with the exception recorded exactly when the reason is Exception, and the stale window as those checks left it; it throws exactly when the last pass lets an exception escape (PassFailure: the migration exception, or IllegalState from a due record with a runtime below the recorded time) or the total runtime is below the last recorded time, and then throws that exception, else IllegalState; the last pass stepped as Traced says |
| Engine.GeneticAlgorithm.Begin | src/main/java/com/github/kilianB/geneticAlgorithm/GeneticAlgorithm.java:758-761 | a new result holding the first population as generation -1, recorded without error at execution time 0 |
| Engine.GeneticAlgorithm.Run | src/main/java/com/github/kilianB/geneticAlgorithm/GeneticAlgorithm.java:783-919 | the generation loop ends after passes that each went on, and a last pass that stopped for exactly the first check that fired, or that let an exception escape; the failure it answers is exactly the exception the last pass lets escape (PassFailure); the stale window holds the best fitness of every pass that reached the staleness check, the execution time is the runtime of the last recorded pass, and the last pass stepped as Traced says |
| Engine.GeneticAlgorithm.Turn | src/main/java/com/github/kilianB/geneticAlgorithm/GeneticAlgorithm.java:784-918 | one pass stops before its step with the first of the generation-step, interrupt and runtime checks that fires; otherwise it steps every sub-population from the old population as Traced says (Stepped per sub-population, the best fitness the tasks answered, the migrated population), and stops with Exception and the step's exception, or with the first of the fitness, generation and staleness checks that fires, or goes on when none fires; it fails exactly when PassFailure names an exception, and with that one: the migration exception, or IllegalState when a due record finds the runtime below the recorded time; a due record sets the execution time |
| Engine.GeneticAlgorithm.AfterStep | src/main/java/com/github/kilianB/geneticAlgorithm/GeneticAlgorithm.java:874-918 | after a step the fitness target, the generation limit and staleness are checked in that order; the loop stops exactly when one fires, for that one, and the stale window takes the best fitness exactly when the first two did not fire; when none fires and recordGeneration is positive and divides the generation, the population is recorded under it and it becomes the latest generation, and the pass fails with IllegalState exactly when the runtime is below the recorded execution time; otherwise the history, the latest generation and the execution time are unchanged |
| EngineStopping.StoppedForMeaning | src/main/java/com/github/kilianB/geneticAlgorithm/GeneticAlgorithm.java:788-806 | a pass stops for GenerationStep, Interrupted or Runtime exactly when that check fires and no earlier one did, for Exception exactly when the step threw, and for Fitness, Generation or Staleness exactly when that check fires after a successful step and no earlier one did; the exception is recorded exactly when the reason is Exception |
| EngineStopping.QuietMeaning | src/main/java/com/github/kilianB/geneticAlgorithm/GeneticAlgorithm.java:874-893 | every pass that went on had a best fitness above the target and was not the last allowed generation, and the stale window then holds all those best fitnesses, oldest first |
| EngineStopping.QuietNeverStale | src/main/java/com/github/kilianB/geneticAlgorithm/GeneticAlgorithm.java:886-893 | no pass that went on left a full window whose oldest value equals its best fitness |
| EngineStopping.WentOnExtends | src/main/java/com/github/kilianB/geneticAlgorithm/GeneticAlgorithm.java:783-919 | one more pass that went on keeps the history quiet, and the window is the one its checks left |
| EngineStopping.PassEndsOneWay | src/main/java/com/github/kilianB/geneticAlgorithm/GeneticAlgorithm.java:783-919 | a pass that went on neither let an exception escape nor stopped, and a pass that stopped let no exception escape |
| Engine.GeneticAlgorithm.SortFinal | src/main/java/com/github/kilianB/geneticAlgorithm/GeneticAlgorithm.java:928-930 | every sub-population is sorted by fitness |
| Engine.GeneticAlgorithm.Finish | src/main/java/com/github/kilianB/geneticAlgorithm/GeneticAlgorithm.java:925-932 | the final recording stores the sorted population under the current generation and changes nothing else; it throws IllegalState exactly when the total runtime is below the recorded execution time |
| Engine.GeneticAlgorithm.Stop | src/main/java/com/github/kilianB/geneticAlgorithm/GeneticAlgorithm.java:1002-1004 | stop sets the interrupt flag |
| Engine.GeneticAlgorithm.Reset | src/main/java/com/github/kilianB/geneticAlgorithm/GeneticAlgorithm.java:979-994 | reset restores the first population, generation 0 and an empty stale window, and resets every mutation-scaling strategy |

## Left out

- Concurrency: the thread pool, `invokeAll` and the joining of futures. Sub-population steps run sequentially in index order.
- The `ExecutionException` wrapping of a failed step: the model records the cause itself.
- Result listeners, console output, `toString`, `Result.toFile` and `dumpContent`: these are I/O only.
- The staged builder and the MigrationBuilder: the model takes a plain settings record (`EngineConfig`).
- The random number generator and its pools: draws are input tapes.
- The clock and `stop()` from other threads: these are inputs.
- `crossoverHash`, the path `performGeneration` takes with 14 or more parents: its result depends on the iteration order of an external hash collection.
- The RICHARD, ELLIPSE and RANDOM schedules, SinMutationScaling and RichardFitnessMutationScaling: they use exp, sin, sqrt or a random draw.
- DoublePrototype: its mutation is Gaussian over doubles.
- AgeScaling: it binary-searches a list sorted by birth using the fitness order, so its result is unspecified.
- SimpleIndividual: it is reflection-based.
- The Uniform selection strategy: it is a deprecated debugging aid.
- The charting package and the example problems: they are UI and demonstrations.
- Floating point: there is no rounding, no `-0.0` and no overflow to infinity.
  - ProportionalScaling's `ArithmeticException` for an infinite reciprocal sum cannot arise over the reals.
  - DoubleSummaryStatistics' compensated summation is exact summation here.
- Ancients' priority queue is filled and polled, but its result is discarded. The model states only what Ancients answers and what the queue head would be.
- The fitness cache of `Individual.getFitness`: the cache write is modelled, but everything outside `GetFitness` reads the fitness function's value directly.
- A null prototype or strategy, which would throw IllegalState or NullPointer in the builder: the settings record cannot hold one.
- SinglePointStrategy.CrossoverVector, ScatteredDiscreteStrategy.CrossoverVector, ScatteredFuzzyStrategy.CrossoverMatrix and PrototypeGenes.MutateGeneLoop: the source redraws or retries without bound. The model reads a finite list of attempts, and running out is the model-only exception RedrawLimit. A result is stated only for runs that finish within the list.
- FitnessScaling.RankScaleFitness: a first fitness of Double.MAX_VALUE gives rank 0 and an infinite weight. The model reports this as the model-only exception Unrepresentable instead of continuing with infinite values.
- FitnessScaling.ProportionalScaleFitness: a reciprocal sum of 0, possible only with negative fitness values, makes the source divide by zero and continue with infinities or NaN. The model reports this as Unrepresentable.
- ForceClone.ForceClonePass: does not state that a retried individual is a new object, only what its genes are.
- Generation.MutateInto: does not state that the mutation children are new objects, only what their genes are.
- EngineMigration.Offers: computes the corrected offers of "## Findings" (MigratedIntended), not the source's empty offer to the last target under Forward and BidirectionalWrap.
- EngineMigration.CollectMigrants: collects the corrected offers (MigratedIntended), as EngineMigration.Offers.
- EngineMigration.ReceivedEach: states the corrected copy (Received), under which a target offered nothing keeps its population; the source's arraycopy throws IndexOutOfBounds there.
- EngineMigration.WriteMigrants: writes with the corrected copy (Received), so it never fails where the source's arraycopy throws IndexOutOfBounds.
- EngineMigration.MigrationStepMeaning: describes the corrected migration step, which has no IndexOutOfBounds from an empty offer.
- EngineMigration.Migrate: uses the corrected migration of "## Findings": Forward and BidirectionalWrap offer the last sub-population its migrants, and a target offered nothing keeps its population, where the source throws IndexOutOfBounds out of calculate.
- Engine.GeneticAlgorithm.StepAndMigrate: uses the corrected migration of "## Findings": Forward and BidirectionalWrap offer the last sub-population its migrants, and a target offered nothing keeps its population, where the source throws IndexOutOfBounds out of calculate.
- Engine.GeneticAlgorithm.Calculate: runs the corrected migration, so at a migration generation where the source's calculate throws IndexOutOfBounds the model's calculate goes on.
- FitnessScaling.ScaleFitness: dispatches Proportional to the corrected share of "## Findings", so two or more distinct zero-fitness genotypes share parentsNeeded instead of all getting 0.
- FitnessScaling.ScaledBySum: the sum parentsNeeded holds for Proportional only with the corrected share; the source's share sums to 0 with two or more distinct zero-fitness genotypes.
- EngineStep.ScaledPopulation: answers the corrected Proportional scaling of "## Findings", not the source's share that gives two or more distinct zero-fitness genotypes 0.
- EngineStep.Breed: selects and breeds from the corrected Proportional scaling (EngineStep.ScaledPopulation).
- EngineStep.BreedFrom: the specified offspring it lays out is bred from the corrected Proportional scaling.
- EngineGeneration.Advance: steps a sub-population with the corrected Proportional scaling, through EngineStep.Breed.
- Engine.GeneticAlgorithm.PerformGeneration: steps its sub-population with the corrected Proportional scaling, through EngineGeneration.Advance.
- Engine.GeneticAlgorithm.Call: runs performGeneration with the corrected Proportional scaling.
- Engine.GeneticAlgorithm.StepAll: steps every sub-population with the corrected Proportional scaling.
- Engine.GeneticAlgorithm.Run: every generation of the loop is bred with the corrected Proportional scaling.
- Engine.GeneticAlgorithm.StepAll: the tournament size each step bred with is tied to the one at the start only for a sub-population whose tournament no earlier sub-population shares; with a shared tournament an earlier step may have clamped the size, and the model then leaves it open.
- Engine.GeneticAlgorithm.StepAndMigrate: ties the tournament sizes as StepAll does, for unshared tournaments only.
- Engine.GeneticAlgorithm.Turn: ties the tournament sizes as StepAll does, for unshared tournaments only.
- ScatteredFitnessFuzzyStrategy.CrossoverMatrix: scales the parents with the corrected Proportional share.
- ScatteredFitnessFuzzyStrategy.FitnessColumnsSumToOne: holds with the corrected Proportional share; with the source's share and two or more distinct zero-fitness genotypes every column sums to 0.
- Breeding.FitnessMatrixShares: the columns sum to 1 with the corrected Proportional share only, as ScatteredFitnessFuzzyStrategy.FitnessColumnsSumToOne.
- Results.Result.ResetStateFrom: removes the generations up to the cut, as the javadoc says (the corrected clearing of "## Findings"), not what clearLinkedHashMap as written removes.
- Results.Result.ResetStateFromStatistics: clears history and statistics with the corrected clearing, as Results.Result.ResetStateFrom.
- EngineMigration.Migrate and Engine.GeneticAlgorithm.StepAndMigrate: Ancients answers the live array of the neighbouring sub-population under SingleForward and SingleForwardWrap. When that sub-population has a single individual, the source's in-place arraycopy into it changes what the next target then receives. The model computes every offer from the population before migration.
- ScatteredFuzzyStrategy.CrossoverMatrix: a gene whose draws are all exactly 0.0 has a column total of 0. The source divides 0 by 0 and continues with NaN weights; the model reports the model-only exception Unrepresentable.

## Findings

| source | as written | input that shows it | evidently intended | confidence | as-written member | corrected member |
|---|---|---|---|---|---|---|
| src/main/java/com/github/kilianB/geneticAlgorithm/fitnessScaling/ProportionalScaling.java:43-46 | each zero-fitness individual gets `(1 / zeroCount) * parentsNeeded`, where `1 / zeroCount` is int division | two distinct individuals of fitness 0: every scaled value is 0 and the sum is 0, not parentsNeeded | the zero-fitness individuals share parentsNeeded equally, and the scaled values sum to parentsNeeded; the corrected share divides parentsNeeded by the number of zero-fitness entries of the population, so the sum is parentsNeeded even when clones share a genotype (the source's set counts distinct genotypes) | not executed | FitnessScaling.ProportionalZeroShareLost | FitnessScaling.ProportionalIntendedSum |
| src/main/java/com/github/kilianB/geneticAlgorithm/result/Result.java:659-669 | clearLinkedHashMap removes leading keys while they are at least the cut, and stops at the first smaller key | history keys -1, 0, 10 cleared from generation 5: nothing is removed | as the javadoc of resetState at Result.java:613-628 says, the given generation and every older one are removed and the newer ones kept | not executed | Results.ClearedAsWrittenKeepsOlder | Results.ClearedUpToRemovesOlder |
| src/main/java/com/github/kilianB/geneticAlgorithm/migration/direction/ForwardMigration.java:33-35 | Forward and BidirectionalWrap return an empty array for the last sub-population | two sub-populations of one individual each, target 1, Elitism(1): no migrant | as the class comments say, the last sub-population receives from the lower ones (Forward) or from its two ring neighbours (BidirectionalWrap) | not executed | Migration.LastTargetLosesItsMigrants | Migration.IntendedTargetsReceive |
| src/main/java/com/github/kilianB/geneticAlgorithm/GeneticAlgorithm.java:860-861 | `System.arraycopy` copies migrationCount (1) migrants from the offered array even when it is empty | Forward migration with two sub-populations: target 1 is offered nothing, and as written arraycopy would throw IndexOutOfBounds outside the try block, so calculate would fail; the engine of the model uses the intended copy | a target offered no migrant keeps its population | not executed | EngineMigration.EmptyOfferThrows | EngineMigration.ReceivedOne |

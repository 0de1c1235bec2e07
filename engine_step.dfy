/**
 * The breeding half of performGeneration for one sub-population: scale the
 * fitness, select and shuffle the parents, copy the elite, compute the
 * mutation scale, store the mutation children and then the crossover
 * children in a new array, which must come out without an empty slot.
 */
module EngineStep {
  import opened JavaLang
  import opened Individuals
  import opened FitnessScaling
  import opened CrossoverStrategy
  import opened ParentPool
  import opened Mutation
  import opened Generation
  import opened Composition
  import opened EngineConfig
  import MS = MutationScaling

  /** The draws of one generation step of one sub-population. */
  datatype StepDraws = StepDraws(
    selection: SelectionDraws,
    shuffle: seq<int>,
    mutation: seq<MutationDraws>,
    crossover: seq<seq<Attempt>>,
    clones: seq<seq<MutationDraws>>)

  /** The shuffled parent pool and the genes of the mutation and of the crossover children. */
  datatype Offspring = Offspring(pool: seq<Option<Individual>>, mutants: seq<Genes>, crossed: seq<Genes>)

  /** The object a mutation scaling strategy may change. */
  function ScalerObjects(m: MS.MutationScaler): set<object>
  {
    if m.LinearFitness? then {m.scaling} else {}
  }

  /** The size a tournament plays with before it clamps it; 0 for the other strategies. */
  function TournamentSize(s: SelectionStrategy): nat
    reads SelectionObjects(s)
  {
    if s.TournamentSelection? then s.tournament.tournamentSize else 0
  }

  /** scaleFitness of a strategy as one value: the population paired with its scaled values. */
  function ScaledPopulation(scaler: Scaler, population: seq<Individual>, parentsNeeded: int): (r: Outcome<seq<ScaledFitness>>)
    ensures r.Ok? <==> Representable(scaler, population)
    ensures r.Thrown? ==> r.ex == Unrepresentable
    ensures r.Ok? ==> Members(r.value) == population && ScaledValues(r.value) == ScaledBy(scaler, population, parentsNeeded)
  {
    if !Representable(scaler, population) then Thrown(Unrepresentable)
    else
      var v := ScaledBy(scaler, population, parentsNeeded);
      Ok(seq(|population|, i requires 0 <= i < |population| => ScaledFitness(v[i], population[i])))
  }

  /** A scaled population is fixed by its members and its scaled values. */
  lemma ScaledPopulationIsDetermined(scaler: Scaler, population: seq<Individual>, parentsNeeded: int, s: seq<ScaledFitness>)
    requires Representable(scaler, population)
    requires Members(s) == population && ScaledValues(s) == ScaledBy(scaler, population, parentsNeeded)
    ensures s == ScaledPopulation(scaler, population, parentsNeeded).value
  {
    var t := ScaledPopulation(scaler, population, parentsNeeded).value;
    assert |s| == |Members(s)| == |Members(t)| == |t|;
    forall i | 0 <= i < |s|
      ensures s[i] == t[i]
    {
      assert s[i].individual == Members(s)[i] == Members(t)[i] == t[i].individual;
      assert s[i].scaledFitness == ScaledValues(s)[i] == ScaledValues(t)[i] == t[i].scaledFitness;
    }
  }

  /** Steps 1 and 2: the scaled population, the parents selected from it and their shuffle. */
  function PoolOf(sub: SubSettings, k: Counts, tournamentSize: nat, population: seq<Individual>, d: StepDraws)
    : Outcome<seq<Option<Individual>>>
  {
    match ScaledPopulation(sub.scaling, population, k.parentsNeeded)
    case Thrown(x) => Thrown(x)
    case Ok(scaled) =>
      match Selected(sub.selection, tournamentSize, scaled, k.parentsNeeded, d.selection)
      case Thrown(x) => Thrown(x)
      case Ok(parents) => Ok(Shuffled(parents, d.shuffle))
  }

  /**
   * The children of step 3 from a shuffled pool: the mutation children
   * taken from the tail of the pool, then the crossover children bred from
   * the pool that is left.
   */
  function ChildrenOf(sub: SubSettings, e: Int32, m: Int32, c: Int32, pool: seq<Option<Individual>>, d: StepDraws)
    : Outcome<Offspring>
    requires sub.populationCount >= 0
  {
    var n := sub.populationCount;
    match MutationPhase(pool, e, n, m, sub.mutationProbability, d.mutation)
    case Thrown(x) => Thrown(x)
    case Ok(mutants) =>
      var crossover := CrossoverOf(sub.crossover, d.crossover);
      match CrossoverPhase(pool[..|pool| - |mutants|], GetParentCount(sub.crossover), e, m, n, c, crossover)
      case Thrown(x) => Thrown(x)
      case Ok(brood) => Ok(Offspring(pool, mutants, brood.children))
  }

  /**
   * The array holds the front slots, then the mutation children, then the
   * crossover children, each made from its genes.
   */
  ghost predicate FilledWith(now: seq<Individual?>, front: seq<Individual?>, o: Offspring,
                             mutants: seq<Individual>, children: seq<Individual>, generation: int)
    reads mutants, children
  {
    && now == front + mutants + children
    && AllMade(mutants, o.mutants, Mutation, generation)
    && AllMade(children, o.crossed, Crossover, generation)
  }

  /** With counts that are not negative, the offspring has one genotype per mutation and per crossover slot. */
  lemma OffspringCounts(sub: SubSettings, e: Int32, m: Int32, c: Int32, pool: seq<Option<Individual>>, d: StepDraws)
    requires sub.populationCount >= 0 && 0 <= m && 0 <= c
    ensures var o := ChildrenOf(sub, e, m, c, pool, d);
            o.Ok? ==> |o.value.mutants| == m && |o.value.crossed| == c
  {
  }

  /**
   * When the counts partition the array, the mutation children stored
   * behind the elite and the crossover children stored behind them fill the
   * array up to its end.
   */
  lemma ChildrenInOrder(next: array<Individual?>, elite: seq<Individual?>, mid: seq<Individual?>,
                        mutants: seq<Individual>, children: seq<Individual>, e: int, m: int, o: Offspring, generation: int)
    requires 0 <= e && |mutants| == m && e + m + |children| == |elite| == next.Length <= INT_MAX
    requires mid == Written(elite, mutants, e) && AllMade(mutants, o.mutants, Mutation, generation)
    requires Stored(next, mid, children, e + m, o.crossed, Crossover, generation)
    ensures FilledWith(next[..], elite[..e], o, mutants, children, generation)
  {
    FilledInOrder(elite, mid, next[..], elite[..e], mutants, children);
  }

  /** Step 3 from a shuffled pool: the elite bounds, then the children. */
  function OffspringFrom(sub: SubSettings, k: Counts, population: seq<Individual>, pool: seq<Option<Individual>>,
                         d: StepDraws)
    : Outcome<Offspring>
    requires sub.populationCount >= 0
  {
    match EliteError(|population|, k.elite, sub.populationCount)
    case Some(x) => Thrown(x)
    case None => ChildrenOf(sub, k.elite, k.mutation, k.crossover, pool, d)
  }

  /** What a step breeds, phase by phase; the first phase that throws decides. */
  function StepOffspring(sub: SubSettings, k: Counts, tournamentSize: nat, population: seq<Individual>, d: StepDraws)
    : Outcome<Offspring>
    requires sub.populationCount >= 0
  {
    match PoolOf(sub, k, tournamentSize, population, d)
    case Thrown(x) => Thrown(x)
    case Ok(pool) => OffspringFrom(sub, k, population, pool, d)
  }

  /**
   * The new generation before any reordering: the elite of the old
   * population in front, then one mutation child per mutant genotype, then
   * one crossover child per crossed genotype, each marked with its operator
   * and this generation.
   */
  ghost predicate Laid(slots: seq<Individual>, population: seq<Individual>, k: Counts, o: Offspring, generation: int)
    reads slots
  {
    && 0 <= k.elite <= |population|
    && 0 <= k.mutation && 0 <= k.crossover
    && |slots| == k.elite + k.mutation + k.crossover
    && slots[..k.elite] == population[..k.elite]
    && AllMade(slots[k.elite..k.elite + k.mutation], o.mutants, Mutation, generation)
    && AllMade(slots[k.elite + k.mutation..], o.crossed, Crossover, generation)
  }

  /** Slots holding the elite, the mutation children and the crossover children are never empty. */
  lemma NoEmptySlot(slots: seq<Individual?>, elite: seq<Individual>, mutants: seq<Individual>, children: seq<Individual>)
    requires slots == elite + mutants + children
    ensures forall i :: 0 <= i < |slots| ==> slots[i] != null
  {
  }

  /** The elite, the mutation children and the crossover children side by side form the layout. */
  lemma LaidSideBySide(slots: seq<Individual>, filled: seq<Individual?>, elite: seq<Individual>, mutants: seq<Individual>,
                       children: seq<Individual>, population: seq<Individual>, k: Counts, o: Offspring, generation: int)
    requires 0 <= k.elite <= |population| && elite == population[..k.elite]
    requires |mutants| == k.mutation && |children| == k.crossover
    requires filled == elite + mutants + children
    requires |slots| == |filled| && forall i :: 0 <= i < |filled| ==> slots[i] == filled[i]
    requires AllMade(mutants, o.mutants, Mutation, generation) && AllMade(children, o.crossed, Crossover, generation)
    ensures Laid(slots, population, k, o, generation)
  {
    assert slots == elite + mutants + children;
    assert slots[..k.elite] == elite;
    assert slots[k.elite..k.elite + k.mutation] == mutants;
    assert slots[k.elite + k.mutation..] == children;
  }

  /** Mutation children behind the elite and crossover children behind them fill the array in that order. */
  lemma FilledInOrder(elite: seq<Individual?>, mid: seq<Individual?>, final: seq<Individual?>, front: seq<Individual?>,
                      mutants: seq<Individual>, children: seq<Individual>)
    requires |elite| == |front| + |mutants| + |children| <= INT_MAX && elite[..|front|] == front
    requires mid == Written(elite, mutants, |front|) && final == Written(mid, children, |front| + |mutants|)
    ensures final == front + mutants + children
  {
    WrittenInPlace(elite, mutants, |front|);
    WrittenInPlace(mid, children, |front| + |mutants|);
    assert mid[..|front| + |mutants|] == front + mutants;
    assert mid[|front| + |mutants| + |children|..] == [];
  }

  /** Steps 1 and 2 of performGeneration: scale the fitness, select the parents and shuffle them. */
  method SelectPool(sub: SubSettings, k: Counts, population: seq<Individual>, d: StepDraws)
    returns (r: Outcome<seq<Option<Individual>>>)
    modifies SelectionObjects(sub.selection)
    ensures r == PoolOf(sub, k, old(TournamentSize(sub.selection)), population, d)
  {
    var scaled := ScaleFitness(sub.scaling, population, k.parentsNeeded);
    if scaled.Thrown? {
      return Thrown(scaled.ex);
    }
    ScaledPopulationIsDetermined(sub.scaling, population, k.parentsNeeded, scaled.value);
    var parents := SelectParents(sub.selection, scaled.value, k.parentsNeeded, d.selection);
    if parents.Thrown? {
      return Thrown(parents.ex);
    }
    var pool := Shuffle(parents.value, d.shuffle);
    return Ok(pool);
  }

  /**
   * The mutation and crossover loops of step 3: when the counts partition
   * the array, the mutation children follow the elite and the crossover
   * children follow them, up to the end of the array.
   */
  method FillChildren(next: array<Individual?>, sub: SubSettings, e: Int32, m: Int32, c: Int32,
                      pool: seq<Option<Individual>>, d: StepDraws, scale: Double, generation: Int32)
    returns (error: Option<Exception>, ghost mid: seq<Individual?>, ghost mutants: seq<Individual>,
             ghost children: seq<Individual>)
    requires next.Length == sub.populationCount
    modifies next
    ensures var spec := ChildrenOf(sub, e, m, c, pool, d);
            && error == (if spec.Thrown? then Some(spec.ex) else None)
            && (error.None? ==>
                  && mid == Written(old(next[..]), mutants, e)
                  && AllMade(mutants, spec.value.mutants, Mutation, generation)
                  && Stored(next, mid, children, e + m, spec.value.crossed, Crossover, generation))
  {
    mid, children := [], [];
    var mutated;
    mutated, mutants := MutateInto(next, pool, e, m, sub.mutationProbability, scale, d.mutation, generation);
    if mutated.Thrown? {
      return Some(mutated.ex), mid, mutants, children;
    }
    mid := next[..];
    var crossover := CrossoverOf(sub.crossover, d.crossover);
    var crossed;
    crossed, children := CrossInto(next, mutated.value, GetParentCount(sub.crossover), e, m, c, crossover, generation);
    if crossed.Thrown? {
      return Some(crossed.ex), mid, mutants, children;
    }
    error := None;
  }

  /**
   * Step 3 of performGeneration into a new array: the elite, the mutation
   * scale from the current best fitness and the target, then the children.
   * When the counts partition the array, it ends up holding exactly the
   * elite, the mutation children and the crossover children, in that order.
   */
  method Fill(next: array<Individual?>, sub: SubSettings, e: Int32, m: Int32, c: Int32, population: seq<Individual>,
              pool: seq<Option<Individual>>, d: StepDraws, generation: Int32, maxGenerationCount: Int32, target: real)
    returns (error: Option<Exception>, scale: Double, ghost mutants: seq<Individual>, ghost children: seq<Individual>)
    requires |population| >= 1 && next.Length == sub.populationCount
    modifies next, ScalerObjects(sub.mutationScaling)
    ensures var bounds := EliteError(|population|, e, next.Length);
            var spec := ChildrenOf(sub, e, m, c, pool, d);
            && (bounds.Some? ==> error == bounds)
            && (bounds.None? ==> error == (if spec.Thrown? then Some(spec.ex) else None))
            && (error.None? && 0 <= e && 0 <= m && 0 <= c && e + m + c == next.Length ==>
                  FilledWith(next[..], population[..e], spec.value, mutants, children, generation))
    ensures error.None? && sub.mutationScaling.Stateless? ==>
              scale == MS.ScaleFactor(sub.mutationScaling.schedule, generation, maxGenerationCount, 0)
    ensures error.None? && sub.mutationScaling.LinearFitness? ==>
              (sub.mutationScaling.scaling.firstFitness, scale)
              == MS.LinearFitnessStep(old(sub.mutationScaling.scaling.firstFitness),
                                      Finite(population[0].CalculateFitness()), Finite(target))
  {
    scale := Finite(1.0);
    mutants, children := [], [];
    error := CopyElite(next, population, e);
    if error.Some? {
      return;
    }
    ghost var elite := next[..];
    scale := MS.Compute(sub.mutationScaling, generation, maxGenerationCount, Finite(population[0].CalculateFitness()),
                        Finite(target), 0);
    assert next[..] == elite;
    ghost var mid;
    error, mid, mutants, children := FillChildren(next, sub, e, m, c, pool, d, scale, generation);
    if error.None? && 0 <= e && 0 <= m && 0 <= c && e + m + c == next.Length {
      OffspringCounts(sub, e, m, c, pool, d);
      ChildrenInOrder(next, elite, mid, mutants, children, e, m, ChildrenOf(sub, e, m, c, pool, d).value, generation);
      assert elite[..e] == population[..e];
    }
  }

  /** The array as individuals, or a NullPointerException for an empty slot. */
  method Unwrap(next: array<Individual?>) returns (r: Outcome<seq<Individual>>)
    ensures r.Ok? <==> forall i :: 0 <= i < next.Length ==> next[i] != null
    ensures r.Thrown? ==> r.ex == NullPointer
    ensures r.Ok? ==> |r.value| == next.Length && forall i :: 0 <= i < next.Length ==> r.value[i] == next[i]
  {
    var slots: seq<Individual> := [];
    var j := 0;
    while j < next.Length
      invariant 0 <= j <= next.Length && |slots| == j
      invariant forall i :: 0 <= i < j ==> next[i] == slots[i]
    {
      var x := next[j];
      if x == null {
        return Thrown(NullPointer);
      }
      slots := slots + [x];
      j := j + 1;
    }
    return Ok(slots);
  }

  /**
   * Steps 1 to 3 of performGeneration. The step throws what its first
   * failing phase throws; when the counts partition the population it
   * succeeds exactly when breeding does, and the new array holds the elite,
   * the mutation children and the crossover children in that order.
   */
  method Breed(sub: SubSettings, k: Counts, population: seq<Individual>, generation: Int32, maxGenerationCount: Int32,
               target: real, d: StepDraws)
    returns (r: Outcome<seq<Individual>>, scale: Double)
    requires |population| >= 1 && sub.populationCount > 0
    modifies SelectionObjects(sub.selection), ScalerObjects(sub.mutationScaling)
    ensures var spec := StepOffspring(sub, k, old(TournamentSize(sub.selection)), population, d);
            && (spec.Thrown? ==> r == Thrown(spec.ex))
            && (r.Ok? ==> spec.Ok? && |r.value| == sub.populationCount)
            && (Composed(k, sub.populationCount) && spec.Ok? ==> r.Ok? && Laid(r.value, population, k, spec.value, generation))
    ensures r.Ok? && sub.mutationScaling.Stateless? ==>
              scale == MS.ScaleFactor(sub.mutationScaling.schedule, generation, maxGenerationCount, 0)
    ensures r.Ok? && sub.mutationScaling.LinearFitness? ==>
              (sub.mutationScaling.scaling.firstFitness, scale)
              == MS.LinearFitnessStep(old(sub.mutationScaling.scaling.firstFitness),
                                      Finite(population[0].CalculateFitness()), Finite(target))
  {
    scale := Finite(1.0);
    var pool := SelectPool(sub, k, population, d);
    if pool.Thrown? {
      return Thrown(pool.ex), scale;
    }
    r, scale := BreedFrom(sub, k, population, pool.value, generation, maxGenerationCount, target, d);
  }

  /** Step 3 of performGeneration from a selected pool, into a new array of the population size. */
  method BreedFrom(sub: SubSettings, k: Counts, population: seq<Individual>, pool: seq<Option<Individual>>,
                   generation: Int32, maxGenerationCount: Int32, target: real, d: StepDraws)
    returns (r: Outcome<seq<Individual>>, scale: Double)
    requires |population| >= 1 && sub.populationCount > 0
    modifies ScalerObjects(sub.mutationScaling)
    ensures var spec := OffspringFrom(sub, k, population, pool, d);
            && (spec.Thrown? ==> r == Thrown(spec.ex))
            && (r.Ok? ==> spec.Ok? && |r.value| == sub.populationCount)
            && (Composed(k, sub.populationCount) && spec.Ok? ==> r.Ok? && Laid(r.value, population, k, spec.value, generation))
    ensures r.Ok? && sub.mutationScaling.Stateless? ==>
              scale == MS.ScaleFactor(sub.mutationScaling.schedule, generation, maxGenerationCount, 0)
    ensures r.Ok? && sub.mutationScaling.LinearFitness? ==>
              (sub.mutationScaling.scaling.firstFitness, scale)
              == MS.LinearFitnessStep(old(sub.mutationScaling.scaling.firstFitness),
                                      Finite(population[0].CalculateFitness()), Finite(target))
  {
    var next := new Individual?[sub.populationCount];
    var error;
    ghost var mutants, children;
    error, scale, mutants, children := Fill(next, sub, k.elite, k.mutation, k.crossover, population, pool, d,
                                            generation, maxGenerationCount, target);
    if error.Some? {
      return Thrown(error.value), scale;
    }
    ghost var composed := Composed(k, sub.populationCount);
    ghost var filled := next[..];
    if composed {
      NoEmptySlot(filled, population[..k.elite], mutants, children);
    }
    r := Unwrap(next);
    if composed {
      LaidSideBySide(r.value, filled, population[..k.elite], mutants, children, population, k,
                     OffspringFrom(sub, k, population, pool, d).value, generation);
    }
  }
}

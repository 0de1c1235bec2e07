/**
 * The settings a GeneticAlgorithm is built from, the checks its constructor
 * runs on them in order, and the per sub-population counts it derives:
 * elite, crossover and mutation children and the parents a generation needs.
 */
module EngineConfig {
  import opened JavaLang
  import opened Individuals
  import opened FitnessScaling
  import opened CrossoverStrategy
  import opened Composition
  import opened Generation
  import MS = MutationScaling
  import M = Migration

  /** The settings of one sub-population. */
  datatype SubSettings = SubSettings(
    populationCount: Int32,
    eliteFraction: real,
    crossoverFraction: real,
    mutationProbability: real,
    scaling: Scaler,
    selection: SelectionStrategy,
    crossover: Strategy,
    mutationScaling: MS.MutationScaler)

  /** The settings shared by all sub-populations, and the list of sub-population settings. */
  datatype Settings = Settings(
    maxGenerationCount: Int32,
    maxExecutionTime: int,
    targetFitness: real,
    maxStaleGenerations: Int32,
    migrationInterval: Int32,
    migrationStrategy: M.MigrationStrategy,
    migrationProcess: M.Direction,
    forceCloneMutation: bool,
    mutationAttemptCutoff: Int32,
    subPopulations: seq<SubSettings>)

  /**
   * Where the first population comes from: an array every sub-population
   * starts from, or a prototype with the coin flips or int draws each new
   * individual consumes (indexed by sub-population, then by individual).
   */
  datatype Seed =
    | Given(individuals: seq<Individual>)
    | FromBooleans(booleans: BooleanPrototype, coins: seq<seq<seq<bool>>>)
    | FromInts(ints: IntPrototype, draws: seq<seq<seq<int>>>)

  /** The checks on one sub-population: a positive size, a probability, at least two parents, fractions that fit. */
  predicate SubAccepted(sub: SubSettings)
  {
    && sub.populationCount > 0
    && 0.0 <= sub.mutationProbability <= 1.0
    && CompositionAccepted(sub.eliteFraction, sub.crossoverFraction, GetParentCount(sub.crossover))
  }

  /** The checks that throw IllegalArgumentException before the seed is looked at. */
  predicate SettingsAccepted(s: Settings)
  {
    && s.maxGenerationCount > 0
    && s.maxExecutionTime > 0
    && 0.0 <= s.targetFitness <= DOUBLE_MAX_VALUE
    && s.migrationInterval > 0
    && forall i :: 0 <= i < |s.subPopulations| ==> SubAccepted(s.subPopulations[i])
  }

  /**
   * What a constructed engine holds for good: settings that passed the
   * checks, a clone cutoff of at least one when clone prevention is on, a
   * count and a non-empty first population per sub-population.
   */
  predicate Configured(s: Settings, counts: seq<Counts>, initialPopulation: seq<seq<Individual>>)
  {
    && SettingsAccepted(s)
    && (s.forceCloneMutation ==> s.mutationAttemptCutoff >= 1)
    && |counts| == |s.subPopulations|
    && |initialPopulation| == |s.subPopulations|
    && (forall i :: 0 <= i < |initialPopulation| ==> |initialPopulation[i]| >= 1)
  }

  /** The counts of every sub-population. */
  function CountsAll(s: Settings): (r: seq<Counts>)
    ensures |r| == |s.subPopulations|
  {
    seq(|s.subPopulations|, i requires 0 <= i < |s.subPopulations| =>
      CountsOf(s.subPopulations[i].populationCount, s.subPopulations[i].eliteFraction,
               s.subPopulations[i].crossoverFraction, GetParentCount(s.subPopulations[i].crossover)))
  }

  /**
   * The constructor's checks in their order: the settings, then the first
   * element of a given population, then the mutation cutoff when clone
   * prevention is on.
   */
  function Configure(s: Settings, seed: Seed): Outcome<seq<Counts>>
  {
    if !SettingsAccepted(s) then Thrown(IllegalArgument)
    else if seed.Given? && |seed.individuals| == 0 then Thrown(IndexOutOfBounds)
    else if s.forceCloneMutation && s.mutationAttemptCutoff <= 0 then Thrown(IllegalArgument)
    else Ok(CountsAll(s))
  }

  /** Elite, mutation and crossover children are non-negative and fill the n slots exactly. */
  predicate Composed(k: Counts, n: int)
  {
    0 <= k.elite && 0 <= k.mutation && 0 <= k.crossover && k.elite + k.mutation + k.crossover == n
  }

  /**
   * A sub-population whose fractions add up to more than 1, or whose
   * crossover takes fewer than two parents, makes the constructor throw
   * IllegalArgumentException, whatever the seed.
   */
  lemma RejectedCompositionThrows(s: Settings, seed: Seed, i: int)
    requires 0 <= i < |s.subPopulations|
    requires var sub := s.subPopulations[i];
             sub.eliteFraction + sub.crossoverFraction > 1.0 || GetParentCount(sub.crossover) < 2
    ensures Configure(s, seed) == Thrown(IllegalArgument)
  {
    assert !SubAccepted(s.subPopulations[i]);
  }

  /**
   * Every configuration the constructor accepts has, in each sub-population
   * whose fractions are not negative, elite, mutation and crossover counts
   * that partition the population.
   */
  lemma {:induction false} ConfiguredCountsPartition(s: Settings, seed: Seed, i: int)
    requires Configure(s, seed).Ok? && 0 <= i < |s.subPopulations|
    requires 0.0 <= s.subPopulations[i].eliteFraction && 0.0 <= s.subPopulations[i].crossoverFraction
    ensures var sub := s.subPopulations[i];
            var k := Configure(s, seed).value[i];
            var n := sub.populationCount;
            Composed(k, n)
  {
    var sub := s.subPopulations[i];
    assert SubAccepted(sub);
    var n, ef, cf, pc := sub.populationCount, sub.eliteFraction, sub.crossoverFraction, GetParentCount(sub.crossover);
    var k := CountsOf(n, ef, cf, pc);
    assert Configure(s, seed).value[i] == k;
    CountsPartitionThePopulation(n, ef, cf, pc);
    assert Composed(k, n);
  }
}

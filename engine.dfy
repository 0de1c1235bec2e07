/**
 * GeneticAlgorithm: the engine that owns the sub-populations. It is built
 * from settings and a seed, sorts its first population, runs generations
 * in calculate until a stop condition fires, and can be reset to the
 * population it was built with. The sub-populations are stepped one after
 * another; each step, migration and stop check is the one of the modules
 * it imports.
 */
module Engine {
  import opened JavaLang
  import opened Draws
  import opened Individuals
  import opened Sorting
  import opened Results
  import opened Statistics
  import opened StopCriteria
  import opened Composition
  import opened Generation
  import opened EngineConfig
  import opened EngineStep
  import opened EngineGeneration
  import opened EngineMigration
  import opened EngineState
  import opened EngineStopping
  import opened Genotypes
  import opened AgeOrder
  import opened EngineTrace
  import MS = MutationScaling

  /** The strategy objects a generation step may change: the tournaments and the linear fitness scalers. */
  function StrategyObjects(subs: seq<SubSettings>): set<object>
  {
    set i, o | 0 <= i < |subs| && o in SelectionObjects(subs[i].selection) + ScalerObjects(subs[i].mutationScaling) :: o
  }

  /** The tournament size each sub-population plays with, in order. */
  function TournamentSizes(subs: seq<SubSettings>): (r: seq<nat>)
    reads StrategyObjects(subs)
    ensures |r| == |subs| && forall i :: 0 <= i < |subs| ==> r[i] == TournamentSize(subs[i].selection)
  {
    seq(|subs|, i requires 0 <= i < |subs| reads StrategyObjects(subs) =>
      StrategyObjectsHold(subs, i); TournamentSize(subs[i].selection))
  }

  /** The mutation scaling strategies of the sub-populations, in order. */
  function Scalers(subs: seq<SubSettings>): (r: seq<MS.MutationScaler>)
    ensures |r| == |subs|
  {
    seq(|subs|, i requires 0 <= i < |subs| => subs[i].mutationScaling)
  }

  /** The coin flips or int draws of individual j of sub-population i. */
  function BoolTape(coins: seq<seq<seq<bool>>>, i: int, j: int): seq<bool>
  {
    if 0 <= i < |coins| && 0 <= j < |coins[i]| then coins[i][j] else []
  }

  function IntTape(draws: seq<seq<seq<int>>>, i: int, j: int): seq<int>
  {
    if 0 <= i < |draws| && 0 <= j < |draws[i]| then draws[i][j] else []
  }

  /** An individual of the first population: born in generation -1, of origin INITIAL_POPULATION. */
  predicate Founder(x: Individual)
    reads x
  {
    x.birth == -1 && x.origin == Some(InitialPopulation)
  }

  /** The individuals a given seed holds; the constructor marks them as founders. */
  function Members(seed: Seed): set<Individual>
  {
    if seed.Given? then set x | x in seed.individuals else {}
  }

  /** The error a prototype answers to every createIndividual, if it has one. */
  predicate PrototypeThrows(seed: Seed)
    requires seed.FromInts? ==> seed.ints.Valid()
    reads if seed.FromInts? then {seed.ints} else {}
    reads if seed.FromBooleans? then {seed.booleans} else {}
  {
    match seed
    case Given(_) => false
    case FromBooleans(booleans, _) => booleans.variableCount < 0
    case FromInts(ints, _) => exists i :: 0 <= i < |ints.initialRange| && ints.rangeOfRange[i] <= 0
  }

  class GeneticAlgorithm {
    const settings: Settings
    const counts: seq<Counts>
    /** The sorted first population; reset goes back to it. */
    const initialPopulation: seq<seq<Individual>>
    var population: seq<seq<Individual>>
    var currentGeneration: int
    /** The CircularQueue of recent best fitness values; null when staleness is not checked. */
    var bestFitness: Option<Window>
    var interrupted: bool

    /**
     * The constructor's checks passed, every sub-population holds an
     * individual, and the generation counter stays below the limit.
     */
    predicate Valid()
      reads this
    {
      && Configured(settings, counts, initialPopulation)
      && Running(settings, population, currentGeneration, bestFitness)
    }

    /** The counts are those the constructor derives from the settings. */
    predicate CountsDerived()
    {
      counts == CountsAll(settings)
    }

    constructor (settings: Settings, initialPopulation: seq<seq<Individual>>)
      requires SettingsAccepted(settings)
      requires settings.forceCloneMutation ==> settings.mutationAttemptCutoff >= 1
      requires |initialPopulation| == |settings.subPopulations|
      requires forall i :: 0 <= i < |initialPopulation| ==> |initialPopulation[i]| >= 1
      ensures Valid() && CountsDerived() && this.settings == settings && this.initialPopulation == initialPopulation
      ensures population == initialPopulation && currentGeneration == 0 && !interrupted
      ensures bestFitness == EmptyWindow(settings)
    {
      this.settings := settings;
      counts := CountsAll(settings);
      this.initialPopulation := initialPopulation;
      population := initialPopulation;
      currentGeneration := 0;
      bestFitness := EmptyWindow(settings);
      interrupted := false;
    }

    /**
     * The constructor as a whole: its checks, the first population (the
     * given array in every sub-population, or new individuals from the
     * prototype), each individual marked as a founder, and every
     * sub-population sorted by fitness.
     */
    static method Create(settings: Settings, seed: Seed) returns (r: Outcome<GeneticAlgorithm>)
      requires seed.FromInts? ==> seed.ints.Valid()
      modifies Members(seed)
      ensures Configure(settings, seed).Thrown? ==> r == Thrown(Configure(settings, seed).ex)
      ensures Configure(settings, seed).Ok? ==> (r.Thrown? <==> |settings.subPopulations| > 0 && PrototypeThrows(seed))
      ensures r.Ok? ==> fresh(r.value) && r.value.Valid() && r.value.CountsDerived() && r.value.settings == settings
      ensures r.Ok? ==> r.value.population == r.value.initialPopulation && r.value.currentGeneration == 0
      ensures r.Ok? ==> forall i :: 0 <= i < |r.value.population| ==> FitnessSorted(r.value.population[i])
      ensures r.Ok? && seed.Given? ==>
                && (forall i :: 0 <= i < |r.value.population| ==> r.value.population[i] == SortByFitness(seed.individuals))
                && (forall x :: x in seed.individuals ==> Founder(x))
      ensures r.Ok? && !seed.Given? ==>
                forall i :: 0 <= i < |r.value.population| ==>
                  && |r.value.population[i]| == settings.subPopulations[i].populationCount
                  && forall x :: x in r.value.population[i] ==> fresh(x) && Founder(x)
    {
      var configured := Configure(settings, seed);
      if configured.Thrown? {
        return Thrown(configured.ex);
      }
      var first: seq<seq<Individual>>;
      if seed.Given? {
        MarkFounders(seed.individuals);
        first := seq(|settings.subPopulations|, i => seed.individuals);
      } else {
        var made := PrototypePopulation(seed, settings.subPopulations);
        if made.Thrown? {
          return Thrown(made.ex);
        }
        first := made.value;
      }
      var sorted := SortAll(first);
      SortedEachSorts(first);
      var ga := new GeneticAlgorithm(settings, sorted);
      if !seed.Given? {
        forall i, x | 0 <= i < |sorted| && x in sorted[i]
          ensures x in first[i]
        {
          SortedMembers(first[i], x);
        }
      }
      return Ok(ga);
    }

    /** setBirth(-1) and setOrigin(INITIAL_POPULATION) on every individual of a given population. */
    static method MarkFounders(individuals: seq<Individual>)
      modifies set x | x in individuals
      ensures forall x :: x in individuals ==> Founder(x)
    {
      for i := 0 to |individuals|
        invariant forall k :: 0 <= k < i ==> Founder(individuals[k])
      {
        individuals[i].SetBirth(-1);
        individuals[i].SetOrigin(InitialPopulation);
      }
    }

    /** populationCount new founders for every sub-population, from the prototype. */
    static method PrototypePopulation(seed: Seed, subs: seq<SubSettings>) returns (r: Outcome<seq<seq<Individual>>>)
      requires !seed.Given? && (seed.FromInts? ==> seed.ints.Valid())
      requires forall i :: 0 <= i < |subs| ==> subs[i].populationCount > 0
      ensures r.Thrown? <==> |subs| > 0 && PrototypeThrows(seed)
      ensures r.Ok? ==> |r.value| == |subs|
      ensures r.Ok? ==> forall i :: 0 <= i < |subs| ==>
                          && |r.value[i]| == subs[i].populationCount
                          && forall x :: x in r.value[i] ==> fresh(x) && Founder(x)
    {
      var made: seq<seq<Individual>> := [];
      for i := 0 to |subs|
        invariant |made| == i && (i > 0 ==> !PrototypeThrows(seed))
        invariant forall k :: 0 <= k < i ==>
                    && |made[k]| == subs[k].populationCount
                    && forall x :: x in made[k] ==> fresh(x) && Founder(x)
      {
        var sub := SubPopulationOf(seed, i, subs[i].populationCount);
        if sub.Thrown? {
          return Thrown(sub.ex);
        }
        made := made + [sub.value];
      }
      return Ok(made);
    }

    /** The inner loop: count individuals from the prototype, each marked as a founder right away. */
    static method SubPopulationOf(seed: Seed, i: int, count: int) returns (r: Outcome<seq<Individual>>)
      requires !seed.Given? && (seed.FromInts? ==> seed.ints.Valid()) && count > 0
      ensures r.Thrown? <==> PrototypeThrows(seed)
      ensures r.Ok? ==> |r.value| == count && forall x :: x in r.value ==> fresh(x) && Founder(x)
    {
      var individuals: seq<Individual> := [];
      for j := 0 to count
        invariant |individuals| == j && (j > 0 ==> !PrototypeThrows(seed))
        invariant forall x :: x in individuals ==> fresh(x) && Founder(x)
      {
        var created: Outcome<Individual>;
        if seed.FromBooleans? {
          created := seed.booleans.CreateIndividual(BoolTape(seed.coins, i, j));
        } else {
          created := seed.ints.CreateIndividual(IntTape(seed.draws, i, j));
        }
        if created.Thrown? {
          return Thrown(created.ex);
        }
        var x := created.value;
        x.SetBirth(-1);
        x.SetOrigin(InitialPopulation);
        individuals := individuals + [x];
      }
      return Ok(individuals);
    }

    /**
     * performGeneration(popIndex): one sub-population bred, cleared of
     * clones when asked, sorted and stored. It answers the fitness of the
     * head of the population the step started from.
     */
    method PerformGeneration(popIndex: int, d: StepDraws)
      returns (r: Outcome<real>, ghost next: Outcome<seq<Individual>>, ghost layout: seq<Individual>,
               ghost passed: seq<Individual>)
      requires Valid() && 0 <= popIndex < |population|
      modifies this`population, SelectionObjects(settings.subPopulations[popIndex].selection)
      modifies ScalerObjects(settings.subPopulations[popIndex].mutationScaling)
      ensures Valid()
      ensures var sub := settings.subPopulations[popIndex];
              Stepped(next, layout, passed, sub, counts[popIndex],
                      StepOffspring(sub, counts[popIndex], old(TournamentSize(sub.selection)), old(population[popIndex]), d),
                      old(population[popIndex]), old(currentGeneration), settings.forceCloneMutation,
                      settings.mutationAttemptCutoff, d.clones)
      ensures next.Thrown? ==> r == Thrown(next.ex) && population == old(population)
      ensures next.Ok? ==> r == Ok(old(population[popIndex][0]).CalculateFitness())
                           && population == old(population)[popIndex := next.value]
    {
      // The step needs only the sizes Stepped promises.
      hide StepOffspring, Laid, AgedPass, ClonedFrom, GenotypesKept;
      var sub := settings.subPopulations[popIndex];
      assert IsInt(currentGeneration);
      var stepped;
      stepped, layout, passed := Advance(sub, counts[popIndex], population[popIndex], currentGeneration, settings.maxGenerationCount,
                                  settings.targetFitness, settings.forceCloneMutation, settings.mutationAttemptCutoff, d);
      next := stepped;
      if stepped.Thrown? {
        r := Thrown(stepped.ex);
      } else {
        r := Ok(population[popIndex][0].CalculateFitness());
        population := population[popIndex := stepped.value];
      }
    }

    /**
     * call() of the PerformGeneration task of sub-population popIndex: the
     * step of that sub-population alone, which answers the head fitness it
     * started from.
     */
    method Call(popIndex: int, d: StepDraws)
      returns (r: Outcome<real>, ghost next: Outcome<seq<Individual>>, ghost layout: seq<Individual>,
               ghost passed: seq<Individual>, ghost spec: Outcome<Offspring>, ghost size: nat)
      requires Valid() && 0 <= popIndex < |population|
      modifies this`population, SelectionObjects(settings.subPopulations[popIndex].selection)
      modifies ScalerObjects(settings.subPopulations[popIndex].mutationScaling)
      ensures Valid()
      ensures size == old(TournamentSize(settings.subPopulations[popIndex].selection))
      ensures settings.subPopulations[popIndex].populationCount >= 0
      ensures spec == StepOffspring(settings.subPopulations[popIndex], counts[popIndex], size, old(population[popIndex]), d)
      ensures SteppedOne(population[popIndex], old(population[popIndex]), next, layout, passed, spec,
                         settings.subPopulations[popIndex], counts[popIndex], currentGeneration, settings, d)
      ensures r == (if next.Ok? then Ok(old(population[popIndex][0]).CalculateFitness()) else Thrown(next.ex))
      ensures population == old(population)[popIndex := population[popIndex]]
      ensures r.Thrown? ==> population == old(population)
      ensures r.Ok? ==> r.value == old(population[popIndex][0]).CalculateFitness() && FitnessSorted(population[popIndex])
      ensures r.Ok? && Composed(counts[popIndex], settings.subPopulations[popIndex].populationCount) && counts[popIndex].elite >= 1 ==>
                population[popIndex][0].CalculateFitness() <= r.value
    {
      // The task needs only the contract of PerformGeneration.
      hide StepOffspring, Laid, AgedPass, ClonedFrom, GenotypesKept;
      size := TournamentSize(settings.subPopulations[popIndex].selection);
      spec := StepOffspring(settings.subPopulations[popIndex], counts[popIndex], size, population[popIndex], d);
      r, next, layout, passed := PerformGeneration(popIndex, d);
    }

    /**
     * The step of every sub-population, in order (the source runs them on a
     * thread pool and then reads their futures in order): each answers the
     * head fitness of the population it started from, or its exception.
     */
    method StepAll(draws: seq<StepDraws>) returns (outcomes: seq<Outcome<real>>, ghost steps: Steps)
      requires Valid()
      modifies this`population, StrategyObjects(settings.subPopulations)
      ensures Valid() && |outcomes| == |population|
      ensures SteppedAll(population, old(population), steps, settings, counts, currentGeneration, draws)
      ensures Specified(old(population), steps, settings, counts, draws)
      ensures outcomes == Answered(old(population), steps.nexts)
      ensures forall i :: 0 <= i < |population| && Unshared(settings.subPopulations, i) ==>
                steps.sizes[i] == old(TournamentSize(settings.subPopulations[i].selection))
      ensures forall i :: 0 <= i < |population| && outcomes[i].Thrown? ==> population[i] == old(population[i])
      ensures forall i :: 0 <= i < |population| && outcomes[i].Ok? ==>
                && outcomes[i].value == old(population[i][0]).CalculateFitness()
                && FitnessSorted(population[i])
      ensures forall i :: 0 <= i < |population| && outcomes[i].Ok? && Composed(counts[i], settings.subPopulations[i].populationCount)
                          && counts[i].elite >= 1 ==>
                population[i][0].CalculateFitness() <= outcomes[i].value
    {
      // The loop needs only the contracts of StepNext.
      hide SteppedOne, Stepped, StepOffspring, SteppedAll, Specified;
      outcomes := [];
      steps := Steps([], [], [], [], []);
      NoSteps(population[..0], old(population)[..0], settings, counts, currentGeneration, draws);
      ghost var entry := TournamentSizes(settings.subPopulations);
      for i := 0 to |population|
        invariant Valid() && |outcomes| == i && |population| == |old(population)| == |entry|
        invariant |steps.nexts| == |steps.sizes| == i
        invariant SteppedAll(population[..i], old(population)[..i], steps, settings, counts, currentGeneration, draws)
        invariant Specified(old(population)[..i], steps, settings, counts, draws)
        invariant outcomes == Answered(old(population), steps.nexts)
        invariant forall k :: 0 <= k < i && Unshared(settings.subPopulations, k) ==> steps.sizes[k] == entry[k]
        invariant forall k :: i <= k < |population| && Unshared(settings.subPopulations, k) ==>
                    TournamentSize(settings.subPopulations[k].selection) == entry[k]
        invariant forall k :: i <= k < |population| ==> population[k] == old(population)[k]
      {
        StrategyObjectsHold(settings.subPopulations, i);
        ghost var nexts := steps.nexts;
        var o;
        o, steps := StepNext(i, draws, old(population), entry, steps);
        AnsweredSnoc(old(population), nexts, steps.nexts[i], outcomes, o);
        outcomes := outcomes + [o];
      }
      assert population[..|population|] == population && old(population)[..|population|] == old(population);
      SteppedAllAnswers(population, old(population), steps, settings, counts, currentGeneration, draws, outcomes);
    }

    /**
     * The task of sub-population i in the loop of StepAll: the steps of the
     * sub-populations before it, extended by its own.
     */
    method StepNext(i: int, draws: seq<StepDraws>, ghost start: seq<seq<Individual>>, ghost entry: seq<nat>,
                    ghost steps: Steps)
      returns (o: Outcome<real>, ghost steps': Steps)
      requires Valid() && 0 <= i < |population| == |start| == |entry|
      requires forall k :: i <= k < |population| ==> population[k] == start[k]
      requires SteppedAll(population[..i], start[..i], steps, settings, counts, currentGeneration, draws)
      requires Specified(start[..i], steps, settings, counts, draws)
      requires |steps.nexts| == |steps.sizes| == i
      requires forall k :: 0 <= k < i && Unshared(settings.subPopulations, k) ==> steps.sizes[k] == entry[k]
      requires forall k :: i <= k < |population| && Unshared(settings.subPopulations, k) ==>
                 TournamentSize(settings.subPopulations[k].selection) == entry[k]
      modifies this`population, SelectionObjects(settings.subPopulations[i].selection)
      modifies ScalerObjects(settings.subPopulations[i].mutationScaling)
      ensures Valid() && population == old(population)[i := population[i]]
      ensures forall k :: i < k < |population| ==> population[k] == start[k]
      ensures SteppedAll(population[..i + 1], start[..i + 1], steps', settings, counts, currentGeneration, draws)
      ensures Specified(start[..i + 1], steps', settings, counts, draws)
      ensures steps'.nexts == steps.nexts + [steps'.nexts[i]] && |steps'.sizes| == i + 1
      ensures forall k :: 0 <= k < i + 1 && Unshared(settings.subPopulations, k) ==> steps'.sizes[k] == entry[k]
      ensures forall k :: i < k < |population| && Unshared(settings.subPopulations, k) ==>
                TournamentSize(settings.subPopulations[k].selection) == entry[k]
      ensures o == (if steps'.nexts[i].Ok? then Ok(start[i][0].CalculateFitness()) else Thrown(steps'.nexts[i].ex))
    {
      // The extension needs only the contracts of the call and the lemmas.
      hide SteppedOne, Stepped, StepOffspring;
      ghost var next, layout, passed, spec, size;
      o, next, layout, passed, spec, size := Call(i, DrawsAt(draws, i));
      // The step changes no individual of the earlier steps.
      assert unchanged(StepObjects(steps));
      assert SteppedAll(old(population)[..i], start[..i], steps, settings, counts, currentGeneration, draws);
      SteppedAllSnoc(old(population), population, start, i, steps, settings, counts, currentGeneration, draws,
                     next, layout, passed, spec, size);
      SpecifiedSnoc(start, i, steps, settings, counts, draws, next, layout, passed, spec, size);
      steps' := Snoc(steps, next, layout, passed, spec, size);
    }

    /**
     * calculate(recordGeneration, generations): generations are run until a
     * stop condition fires. The draws of each generation, the generations in
     * which another thread calls stop(), the clock read before each
     * generation and the total runtime are inputs. The result holds the
     * initial population under generation -1, every recordGeneration-th
     * generation, and the final population, sorted, under the last
     * generation; its best result is a fittest individual of the final
     * population. The loop never ends without a termination reason.
     */
    method Calculate(recordGeneration: Int32, generations: int, draws: seq<seq<StepDraws>>, stops: set<int>,
                     runtimes: seq<int>, totalRuntime: int)
      returns (r: Outcome<Result>, ghost last: LastPass, ghost bests: seq<real>, ghost trace: Trace)
      requires Valid()
      modifies this`population, this`currentGeneration, this`bestFitness, this`interrupted
      modifies StrategyObjects(settings.subPopulations)
      ensures Valid() && old(currentGeneration) <= currentGeneration
      ensures Preceded(last, bests, generations, stops, runtimes, settings, old(currentGeneration), currentGeneration, old(bestFitness))
      ensures last.clock == ClockThrough(0, old(currentGeneration), recordGeneration, runtimes, last.generation)
      ensures Traced(last, trace, settings, counts, currentGeneration, GenerationDraws(draws, last.generation))
      ensures var failure := PassFailure(last, generations, stops, runtimes, settings, currentGeneration, recordGeneration);
              && (r.Thrown? <==> failure.Some? || totalRuntime < last.clock)
              && (r.Thrown? ==> r.ex == if failure.Some? then failure.value else IllegalState)
      ensures r.Ok? ==> fresh(r.value) && r.value.fullHistory.Get(-1) == Some(old(population))
      ensures r.Ok? ==> Recorded(r.value, population, currentGeneration)
      ensures r.Ok? ==> Concluded(r.value.terminationResult, r.value.exception, last, bests, generations, stops, runtimes,
                                  settings, old(currentGeneration), currentGeneration, old(bestFitness), bestFitness)
    {
      // The run needs only the contracts of Run and Finish.
      hide SteppedOne, Stepped, StepOffspring, SteppedAll, Specified, Traced, Answered, StepBest, Migrated, MigrationStep,
           Preceded, Concluded, PassFailure, Recorded;
      var result := Begin(recordGeneration);
      interrupted := false;
      var failure;
      failure, last, bests, trace := Run(result, recordGeneration, generations, draws, stops, runtimes);
      if failure.Some? {
        return Thrown(failure.value), last, bests, trace;
      }
      label Ran:
      SortFinal();
      r := Finish(result, totalRuntime);
      // The last sort and the record change no individual.
      assert unchanged@Ran(StepObjects(trace.steps));
    }

    /** The new result of calculate, with the population it starts from recorded under generation -1. */
    method Begin(recordGeneration: Int32) returns (result: Result)
      ensures fresh(result) && result.fullHistory.Get(-1) == Some(population)
      ensures result.exception.None? && result.terminationResult == TerminationReason.None
      ensures result.executionTime == 0 && result.generations == -1
    {
      result := new Result(recordGeneration);
      var error := result.AddGeneration(-1, population, 0);
      // A new result has run for no time yet, so runtime 0 is never a step back.
      assert error.None?;
    }

    /**
     * The loop of calculate: one pass per generation until a pass stops it
     * with a termination reason recorded in the result, or an exception
     * escapes.
     */
    method Run(result: Result, recordGeneration: Int32, generations: int, draws: seq<seq<StepDraws>>, stops: set<int>,
               runtimes: seq<int>)
      returns (failure: Option<JavaLang.Exception>, ghost last: LastPass, ghost bests: seq<real>, ghost trace: Trace)
      requires Valid() && !interrupted
      requires result.exception.None? && result.terminationResult == TerminationReason.None
      modifies this`population, this`currentGeneration, this`bestFitness, this`interrupted
      modifies StrategyObjects(settings.subPopulations), result
      ensures Valid() && old(currentGeneration) <= currentGeneration
      ensures result.fullHistory.Get(-1) == old(result.fullHistory.Get(-1))
      ensures Preceded(last, bests, generations, stops, runtimes, settings, old(currentGeneration), currentGeneration, old(bestFitness))
      ensures last.clock == ClockThrough(old(result.executionTime), old(currentGeneration), recordGeneration, runtimes, last.generation)
      ensures Traced(last, trace, settings, counts, currentGeneration, GenerationDraws(draws, last.generation))
      ensures population == PopulationAfter(last, trace, settings, currentGeneration)
      ensures failure == PassFailure(last, generations, stops, runtimes, settings, currentGeneration, recordGeneration)
      ensures failure.None? ==> Concluded(result.terminationResult, result.exception, last, bests, generations, stops, runtimes,
                                          settings, old(currentGeneration), currentGeneration, old(bestFitness), bestFitness)
      ensures failure.None? ==> result.executionTime == last.clock
    {
      // The loop needs only the contracts of Turn.
      hide SteppedOne, Stepped, StepOffspring, SteppedAll, Specified, Traced, Answered, StepBest, Migrated, MigrationStep,
           PopulationAfter;
      var generation := 0;
      bests := [];
      while true
        invariant Valid() && !interrupted
        invariant currentGeneration == old(currentGeneration) + generation && generation >= 0
        invariant result.fullHistory.Get(-1) == old(result.fullHistory.Get(-1))
        invariant result.exception.None? && result.terminationResult == TerminationReason.None
        invariant result.executionTime == ClockThrough(old(result.executionTime), old(currentGeneration), recordGeneration, runtimes, generation)
        invariant |bests| == generation
        invariant forall g :: 0 <= g < generation ==> BeforeAt(g, generations, stops, runtimes, settings).None?
        invariant Quiet(settings, old(bestFitness), old(currentGeneration), bests)
        invariant bestFitness == Through(settings, old(bestFitness), old(currentGeneration), bests)
        decreases settings.maxGenerationCount - currentGeneration
      {
        var turn;
        ghost var pass;
        turn, pass, trace := Turn(result, generation, generations, recordGeneration, GenerationDraws(draws, generation), stops, runtimes);
        last := pass;
        if turn.Failed? {
          return Some(turn.ex), last, bests, trace;
        } else if turn.Stopped? {
          return Option.None, last, bests, trace;
        }
        WentOnExtends(settings, old(bestFitness), old(currentGeneration), bests, pass, generations, stops, runtimes, recordGeneration);
        bests := bests + [pass.step.value.value];
        currentGeneration := currentGeneration + 1;
        generation := generation + 1;
      }
    }

    /**
     * One pass of the loop of calculate: the checks before the step, the
     * step of every sub-population, migration when due, the checks after
     * the step, and the record of the generation when it is due. It stops
     * the loop with a termination reason recorded in the result, or with an
     * exception that escapes calculate.
     */
    method Turn(result: Result, generation: int, generations: int, recordGeneration: Int32, draws: seq<StepDraws>,
                stops: set<int>, runtimes: seq<int>) returns (t: Pass, ghost p: LastPass, ghost trace: Trace)
      requires Valid() && !interrupted && currentGeneration >= 0
      requires result.exception.None? && result.terminationResult == TerminationReason.None
      modifies this`population, this`bestFitness, this`interrupted, StrategyObjects(settings.subPopulations), result
      ensures Valid()
      ensures result.fullHistory.Get(-1) == old(result.fullHistory.Get(-1))
      ensures p.generation == generation && p.window == old(bestFitness) && p.clock == old(result.executionTime)
      ensures trace.from == old(population) && population == PopulationAfter(p, trace, settings, currentGeneration)
      ensures Traced(p, trace, settings, counts, currentGeneration, draws)
      ensures p.step.Some? ==> forall i :: 0 <= i < |trace.from| && Unshared(settings.subPopulations, i) ==>
                trace.steps.sizes[i] == old(TournamentSize(settings.subPopulations[i].selection))
      ensures PassFailure(p, generations, stops, runtimes, settings, currentGeneration, recordGeneration)
              == (if t.Failed? then Some(t.ex) else Option.None)
      ensures result.executionTime == (if t.Continue? && RecordDue(recordGeneration, currentGeneration) then IntAt(runtimes, generation)
                                       else old(result.executionTime))
      ensures t.Continue? ==> !interrupted && currentGeneration + 1 < settings.maxGenerationCount
      ensures t.Continue? ==> result.exception.None? && result.terminationResult == TerminationReason.None
      ensures t.Continue? ==> WentOn(p, generations, stops, runtimes, settings, currentGeneration, recordGeneration)
      ensures t.Stopped? ==> StoppedFor(result.terminationResult, result.exception, p, generations, stops, runtimes, settings,
                                        currentGeneration)
      ensures !t.Failed? ==> bestFitness == WindowAfter(p, settings, currentGeneration)
    {
      // The pass needs only the contracts of StepAndMigrate.
      hide SteppedOne, Stepped, StepOffspring, SteppedAll, Specified, Answered, StepBest, Migrated, MigrationStep;
      var runtime := IntAt(runtimes, generation);
      if generation in stops {
        interrupted := true;
      }
      var before := StopBefore(generation, generations, interrupted, runtime, settings.maxExecutionTime);
      StopBeforeOrder(generation, generations, interrupted, runtime, settings.maxExecutionTime);
      if before.Some? {
        if before.value == Interrupted {
          interrupted := false;
        }
        result.SetTerminationReason(before.value);
        t := Stopped(before.value);
        p := LastPass(generation, Option.None, bestFitness, Option.None, result.executionTime);
        trace := Trace(population, population, Steps([], [], [], [], []));
      } else {
        var best, escaped;
        ghost var from, stepped, steps := population, [], Steps([], [], [], [], []);
        best, escaped, stepped, steps := StepAndMigrate(draws);
        label Stepped:
        p := LastPass(generation, Some(best), bestFitness, escaped, result.executionTime);
        trace := Trace(from, stepped, steps);
        if best.Thrown? {
          result.SetTerminationReason(TerminationReason.Exception);
          result.SetException(best.ex);
          t := Stopped(TerminationReason.Exception);
        } else if escaped.Some? {
          t := Failed(escaped.value);
        } else {
          t := AfterStep(result, best.value, generation, generations, recordGeneration, stops, runtimes);
        }
        // The checks after the step change no individual.
        assert unchanged@Stepped(StepObjects(steps));
      }
    }

    /**
     * The checks after the step: the fitness target, the generation limit
     * and staleness (the window takes the best fitness of the step), then
     * the record of the generation when it is due.
     */
    method AfterStep(result: Result, best: real, generation: int, generations: int, recordGeneration: Int32,
                     stops: set<int>, runtimes: seq<int>) returns (t: Pass)
      requires Valid() && currentGeneration >= 0
      requires result.exception.None? && result.terminationResult == TerminationReason.None
      modifies this`bestFitness, result
      ensures Valid()
      ensures result.fullHistory.Get(-1) == old(result.fullHistory.Get(-1))
      ensures t.Continue? ==> currentGeneration + 1 < settings.maxGenerationCount
      ensures t.Continue? ==> result.exception.None? && result.terminationResult == TerminationReason.None
      ensures var after := StopAfter(best, settings.targetFitness, currentGeneration, settings.maxGenerationCount, old(bestFitness));
              && bestFitness == after.window
              && (t.Stopped? <==> after.reason.Some?)
              && (t.Stopped? ==> t.reason == after.reason.value && result.terminationResult == t.reason && result.exception.None?)
      ensures var due := StopAfter(best, settings.targetFitness, currentGeneration, settings.maxGenerationCount, old(bestFitness)).reason.None?
                         && RecordDue(recordGeneration, currentGeneration);
              var runtime := IntAt(runtimes, generation);
              && (t.Failed? <==> due && runtime < old(result.executionTime))
              && (t.Failed? ==> t.ex == IllegalState)
              && (due ==> result.fullHistory == old(result.fullHistory).Put(currentGeneration, population)
                          && result.generations == currentGeneration)
              && (!due ==> result.fullHistory == old(result.fullHistory) && result.generations == old(result.generations))
              && result.executionTime == (if due && runtime >= old(result.executionTime) then runtime else old(result.executionTime))
    {
      var after := StopAfter(best, settings.targetFitness, currentGeneration, settings.maxGenerationCount, bestFitness);
      StopAfterOrder(best, settings.targetFitness, currentGeneration, settings.maxGenerationCount, bestFitness);
      bestFitness := after.window;
      if after.reason.Some? {
        result.SetTerminationReason(after.reason.value);
        t := Stopped(after.reason.value);
      } else {
        t := Continue;
        if RecordDue(recordGeneration, currentGeneration) {
          var failed := result.AddGeneration(currentGeneration, population, IntAt(runtimes, generation));
          if failed.Some? {
            t := Failed(failed.value);
          }
        }
      }
    }

    /**
     * The step of every sub-population, then, in a migration generation,
     * the migration step. The best fitness of the step is the smallest head
     * fitness the sub-populations answered, or the first exception among
     * them; an exception of the migration escapes.
     */
    method StepAndMigrate(draws: seq<StepDraws>) returns (best: Outcome<real>, escaped: Option<JavaLang.Exception>,
                                                          ghost stepped: seq<seq<Individual>>, ghost steps: Steps)
      requires Valid()
      modifies this`population, StrategyObjects(settings.subPopulations)
      ensures Valid() && |stepped| == |old(population)|
      ensures SteppedAll(stepped, old(population), steps, settings, counts, currentGeneration, draws)
      ensures Specified(old(population), steps, settings, counts, draws)
      ensures best == StepBest(Answered(old(population), steps.nexts))
      ensures forall i :: 0 <= i < |stepped| && Unshared(settings.subPopulations, i) ==>
                steps.sizes[i] == old(TournamentSize(settings.subPopulations[i].selection))
      ensures population == Migrated(stepped, best, settings, currentGeneration).population
      ensures escaped == Migrated(stepped, best, settings, currentGeneration).error
      ensures best.Ok? ==> forall i :: 0 <= i < |stepped| ==> FitnessSorted(stepped[i])
      ensures best.Ok? ==> forall i :: 0 <= i < |old(population)| ==> best.value <= old(population[i][0]).CalculateFitness()
      ensures best.Ok? ==> best.value == DOUBLE_MAX_VALUE
                           || exists i :: 0 <= i < |old(population)| && best.value == old(population[i][0]).CalculateFitness()
      ensures var migrating := best.Ok? && MigrationGeneration(|stepped|, currentGeneration, settings.migrationInterval);
              && population == (if migrating then MigrationStep(settings.migrationProcess, settings.migrationStrategy, stepped).population
                                else stepped)
              && escaped == (if migrating then MigrationStep(settings.migrationProcess, settings.migrationStrategy, stepped).error
                             else Option.None)
    {
      // The step needs only the contracts of StepAll.
      hide SteppedOne, Stepped, StepOffspring, SteppedAll, Specified;
      var outcomes;
      outcomes, steps := StepAll(draws);
      label Stepped:
      stepped := population;
      StepBestIsTheMinimum(outcomes);
      best := StepBest(outcomes);
      escaped := Option.None;
      if best.Ok? && MigrationGeneration(|population|, currentGeneration, settings.migrationInterval) {
        MigrationStepMeaning(settings.migrationProcess, settings.migrationStrategy, population);
        var migrated := Migrate(settings.migrationProcess, settings.migrationStrategy, population);
        population := migrated.population;
        escaped := migrated.error;
      }
      // The migration moves individuals between sub-populations and changes none of them.
      assert unchanged@Stepped(StepObjects(steps));
    }

    /** The last sort of calculate: every sub-population in fitness order. */
    method SortFinal()
      requires Valid()
      modifies this`population
      ensures Valid() && forall i :: 0 <= i < |population| ==> FitnessSorted(population[i])
    {
      SortedEachSorts(population);
      population := SortAll(population);
    }

    /**
     * The end of calculate: the sorted population recorded under the
     * current generation; the best result of the result is then a fittest
     * individual of the final population.
     */
    method Finish(result: Result, totalRuntime: int) returns (r: Outcome<Result>)
      requires forall i :: 0 <= i < |population| ==> FitnessSorted(population[i]) && |population[i]| >= 1
      modifies result
      ensures r.Thrown? <==> totalRuntime < old(result.executionTime)
      ensures r.Thrown? ==> r.ex == IllegalState
      ensures r.Ok? ==> r.value == result && Recorded(result, population, currentGeneration)
      ensures r.Ok? ==> forall k :: k != currentGeneration ==> result.fullHistory.Get(k) == old(result.fullHistory.Get(k))
      ensures r.Ok? ==> result.terminationResult == old(result.terminationResult) && result.exception == old(result.exception)
    {
      ghost var statistics, subStatistics, history := result.generationStatistics, result.generationStatisticsSubPopulation, result.fullHistory;
      var failed := result.AddGeneration(currentGeneration, population, totalRuntime);
      if failed.Some? {
        return Thrown(failed.value);
      }
      LastIsBest(statistics, subStatistics, history, currentGeneration, population);
      return Ok(result);
    }

    /** stop(): the run stops before its next generation. */
    method Stop()
      modifies this`interrupted
      ensures interrupted
    {
      interrupted := true;
    }

    /**
     * reset(): the first population again, the generation counter at 0, the
     * window of recent best fitness values emptied, and every mutation
     * scaling strategy reset.
     */
    method Reset()
      requires Valid()
      modifies this`population, this`currentGeneration, this`bestFitness, MS.Objects(Scalers(settings.subPopulations))
      ensures Valid()
      ensures population == initialPopulation && currentGeneration == 0 && bestFitness == EmptyWindow(settings)
      ensures forall s :: s in MS.Objects(Scalers(settings.subPopulations)) ==> s.firstFitness == Finite(0.0)
    {
      population := initialPopulation;
      currentGeneration := 0;
      bestFitness := EmptyWindow(settings);
      MS.ResetAll(Scalers(settings.subPopulations));
    }
  }

  /** The strategy objects of one sub-population are among those of all of them. */
  lemma StrategyObjectsHold(subs: seq<SubSettings>, i: int)
    requires 0 <= i < |subs|
    ensures SelectionObjects(subs[i].selection) + ScalerObjects(subs[i].mutationScaling) <= StrategyObjects(subs)
  {
  }
}

/**
 * performGeneration of one sub-population after breeding: the optional
 * clone-prevention pass over the generation ordered by age, then the sort
 * by fitness. The step keeps every genotype it bred, and with at least one
 * elite slot its best individual is at least as fit as the best of the
 * population it started from.
 */
module EngineGeneration {
  import opened JavaLang
  import opened Individuals
  import opened Sorting
  import opened ForceClone
  import opened Genotypes
  import opened AgeOrder
  import opened Mutation
  import opened Generation
  import opened Composition
  import opened EngineConfig
  import opened EngineStep

  /**
   * What steps 1 to 5 of performGeneration promise for one sub-population,
   * given the specified offspring `spec` of the old population: breeding
   * throws what its first failing phase throws, and otherwise lays the bred
   * generation out as specified; the clone-prevention pass, when switched
   * on, decides success and throws what its first failing retry throws; a
   * result is the fitness sort of what the pass left (of the bred
   * generation itself without the pass), keeps every bred genotype and,
   * with at least one elite slot, has a head at least as fit as the old
   * head.
   */
  ghost predicate Stepped(r: Outcome<seq<Individual>>, layout: seq<Individual>, passed: seq<Individual>, sub: SubSettings,
                          k: Counts, spec: Outcome<Offspring>, population: seq<Individual>, generation: int,
                          forceClone: bool, cutoff: int, clones: seq<seq<MutationDraws>>)
    reads layout, passed
  {
    var composed := Composed(k, sub.populationCount);
    var pass := AgedPass(layout, sub.mutationProbability, cutoff, clones);
    && (spec.Thrown? ==> r == Thrown(spec.ex))
    && (r.Ok? ==> spec.Ok? && |layout| == |r.value| == sub.populationCount && FitnessSorted(r.value))
    && (spec.Ok? && composed ==> Laid(layout, population, k, spec.value, generation))
    && (spec.Ok? && composed && !forceClone ==> r.Ok?)
    && (spec.Ok? && composed && forceClone ==> (r.Ok? <==> pass.Ok?) && (r.Thrown? ==> r.ex == pass.ex))
    && (r.Ok? ==> multiset(r.value) == multiset(passed) && GenotypesKept(layout, r.value))
    && (r.Ok? && !forceClone ==> passed == layout)
    && (r.Ok? && forceClone ==> ClonedFrom(passed, layout, sub.mutationProbability, cutoff, clones, generation))
    && (r.Ok? && composed && k.elite >= 1 ==> r.value[0].CalculateFitness() <= population[0].CalculateFitness())
  }

  /** Steps 1 to 5 of performGeneration for one sub-population, as Stepped specifies them. */
  method Advance(sub: SubSettings, k: Counts, population: seq<Individual>, generation: Int32,
                 maxGenerationCount: Int32, target: real, forceClone: bool, cutoff: Int32, d: StepDraws)
    returns (r: Outcome<seq<Individual>>, ghost layout: seq<Individual>, ghost passed: seq<Individual>)
    requires |population| >= 1 && sub.populationCount > 0 && (forceClone ==> cutoff >= 1)
    modifies SelectionObjects(sub.selection), ScalerObjects(sub.mutationScaling)
    ensures Stepped(r, layout, passed, sub, k, StepOffspring(sub, k, old(TournamentSize(sub.selection)), population, d),
                    population, generation, forceClone, cutoff, d.clones)
  {
    var bred, scale := Breed(sub, k, population, generation, maxGenerationCount, target, d);
    layout, passed := [], [];
    if bred.Thrown? {
      return Thrown(bred.ex), layout, passed;
    }
    layout := bred.value;
    r, passed := CloneAndSort(bred.value, sub.mutationProbability, scale, forceClone, cutoff, generation, d.clones);
    if r.Ok? && Composed(k, sub.populationCount) && k.elite >= 1 {
      EliteSurvives(layout, population, k.elite, r.value);
    }
  }
}

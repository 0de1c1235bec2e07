/**
 * What one pass of calculate did to the population, as ghost values: the
 * step of every sub-population (each the performGeneration task of
 * GeneticAlgorithm), the best fitness the tasks answered, and the migration
 * step that followed. The engine's methods state their effect through these
 * predicates.
 */
module EngineTrace {
  import opened JavaLang
  import opened Individuals
  import opened Sorting
  import opened Generation
  import opened Composition
  import opened StopCriteria
  import opened EngineConfig
  import opened EngineStep
  import opened EngineGeneration
  import opened EngineMigration
  import opened EngineState

  /** The draws of sub-population i in one generation; none past the end. */
  function DrawsAt(draws: seq<StepDraws>, i: int): StepDraws
  {
    if 0 <= i < |draws| then draws[i] else StepDraws(SelectionDraws([], []), [], [], [], [])
  }

  /** The draws of every sub-population in generation g of a calculate call. */
  function GenerationDraws(draws: seq<seq<StepDraws>>, g: int): seq<StepDraws>
  {
    if 0 <= g < |draws| then draws[g] else []
  }

  /**
   * The steps of every sub-population in one generation: for
   * sub-population i, the outcome of its step, the generation it laid out,
   * what the clone pass left of it, the offspring it was to breed, and the
   * tournament size it started from.
   */
  datatype Steps = Steps(nexts: seq<Outcome<seq<Individual>>>, layouts: seq<seq<Individual>>,
                         passeds: seq<seq<Individual>>, specs: seq<Outcome<Offspring>>, sizes: seq<nat>)

  /** The individuals the steps laid out or the clone pass left. */
  function StepObjects(steps: Steps): (r: set<Individual>)
    ensures forall i, x :: 0 <= i < |steps.layouts| && x in steps.layouts[i] ==> x in r
    ensures forall i, x :: 0 <= i < |steps.passeds| && x in steps.passeds[i] ==> x in r
  {
    (set i, x | 0 <= i < |steps.layouts| && x in steps.layouts[i] :: x)
    + (set i, x | 0 <= i < |steps.passeds| && x in steps.passeds[i] :: x)
  }

  /**
   * One sub-population stepped from `from` to `to`: its step is the one
   * Stepped specifies for the offspring `spec`, and the sub-population
   * becomes the step's result when there is one and stays as it was
   * otherwise.
   */
  ghost predicate SteppedOne(to: seq<Individual>, from: seq<Individual>, next: Outcome<seq<Individual>>, layout: seq<Individual>,
                             passed: seq<Individual>, spec: Outcome<Offspring>, sub: SubSettings, k: Counts, generation: int,
                             s: Settings, d: StepDraws)
    reads layout, passed
  {
    && Stepped(next, layout, passed, sub, k, spec, from, generation, s.forceCloneMutation, s.mutationAttemptCutoff, d.clones)
    && to == (if next.Ok? then next.value else from)
  }

  /** Every sub-population stepped from `from` to `to`, as SteppedOne says, with its own draws. */
  ghost predicate SteppedAll(to: seq<seq<Individual>>, from: seq<seq<Individual>>, steps: Steps, s: Settings,
                             counts: seq<Counts>, generation: int, draws: seq<StepDraws>)
    reads StepObjects(steps)
  {
    && |to| == |from| == |steps.nexts| == |steps.layouts| == |steps.passeds| == |steps.specs| == |steps.sizes|
    && |from| <= |s.subPopulations| && |from| <= |counts|
    && forall i {:trigger SteppedOne(to[i], from[i], steps.nexts[i], steps.layouts[i], steps.passeds[i], steps.specs[i],
                                     s.subPopulations[i], counts[i], generation, s, DrawsAt(draws, i))} :: 0 <= i < |from| ==>
         SteppedOne(to[i], from[i], steps.nexts[i], steps.layouts[i], steps.passeds[i], steps.specs[i],
                    s.subPopulations[i], counts[i], generation, s, DrawsAt(draws, i))
  }

  /**
   * The offspring each step was to breed is the one StepOffspring breeds
   * from the sub-population it started from, with the tournament size it
   * started from and its own draws.
   */
  ghost predicate Specified(from: seq<seq<Individual>>, steps: Steps, s: Settings, counts: seq<Counts>, draws: seq<StepDraws>)
  {
    && |from| == |steps.specs| == |steps.sizes|
    && |from| <= |s.subPopulations| && |from| <= |counts|
    && forall i {:trigger steps.specs[i]} :: 0 <= i < |from| ==>
         && s.subPopulations[i].populationCount >= 0
         && steps.specs[i] == StepOffspring(s.subPopulations[i], counts[i], steps.sizes[i], from[i], DrawsAt(draws, i))
  }

  /** No steps yet: nothing has stepped and no offspring was specified. */
  lemma NoSteps(to: seq<seq<Individual>>, from: seq<seq<Individual>>, s: Settings, counts: seq<Counts>, generation: int,
                draws: seq<StepDraws>)
    requires |to| == |from| == 0
    ensures SteppedAll(to, from, Steps([], [], [], [], []), s, counts, generation, draws)
    ensures Specified(from, Steps([], [], [], [], []), s, counts, draws)
  {
  }

  /** The steps of one more sub-population, at the next index. */
  function Snoc(steps: Steps, next: Outcome<seq<Individual>>, layout: seq<Individual>, passed: seq<Individual>,
                spec: Outcome<Offspring>, size: nat): (r: Steps)
    ensures r.nexts == steps.nexts + [next] && r.layouts == steps.layouts + [layout] && r.passeds == steps.passeds + [passed]
    ensures r.specs == steps.specs + [spec] && r.sizes == steps.sizes + [size]
  {
    Steps(steps.nexts + [next], steps.layouts + [layout], steps.passeds + [passed], steps.specs + [spec], steps.sizes + [size])
  }

  /**
   * Stepping sub-population i after those before it extends SteppedAll by
   * its step: `after` is `before` with sub-population i stepped.
   */
  lemma SteppedAllSnoc(before: seq<seq<Individual>>, after: seq<seq<Individual>>, from: seq<seq<Individual>>, i: nat,
                       steps: Steps, s: Settings, counts: seq<Counts>, generation: int, draws: seq<StepDraws>,
                       next: Outcome<seq<Individual>>, layout: seq<Individual>, passed: seq<Individual>,
                       spec: Outcome<Offspring>, size: nat)
    requires i < |before| == |after| == |from| && after == before[i := after[i]]
    requires SteppedAll(before[..i], from[..i], steps, s, counts, generation, draws)
    requires i < |s.subPopulations| && i < |counts|
    requires SteppedOne(after[i], from[i], next, layout, passed, spec, s.subPopulations[i], counts[i], generation, s,
                        DrawsAt(draws, i))
    ensures SteppedAll(after[..i + 1], from[..i + 1], Snoc(steps, next, layout, passed, spec, size), s, counts, generation, draws)
  {
    var steps' := Snoc(steps, next, layout, passed, spec, size);
    forall k | 0 <= k < i + 1
      ensures SteppedOne(after[..i + 1][k], from[..i + 1][k], steps'.nexts[k], steps'.layouts[k], steps'.passeds[k],
                         steps'.specs[k], s.subPopulations[k], counts[k], generation, s, DrawsAt(draws, k))
    {
      if k < i {
        assert SteppedOne(before[..i][k], from[..i][k], steps.nexts[k], steps.layouts[k], steps.passeds[k], steps.specs[k],
                          s.subPopulations[k], counts[k], generation, s, DrawsAt(draws, k));
      }
    }
  }

  /** The offspring of sub-population i, bred from where it started, extends Specified. */
  lemma SpecifiedSnoc(from: seq<seq<Individual>>, i: nat, steps: Steps, s: Settings, counts: seq<Counts>,
                      draws: seq<StepDraws>, next: Outcome<seq<Individual>>, layout: seq<Individual>, passed: seq<Individual>,
                      spec: Outcome<Offspring>, size: nat)
    requires i < |from| && Specified(from[..i], steps, s, counts, draws)
    requires i < |s.subPopulations| && i < |counts| && s.subPopulations[i].populationCount >= 0
    requires spec == StepOffspring(s.subPopulations[i], counts[i], size, from[i], DrawsAt(draws, i))
    ensures Specified(from[..i + 1], Snoc(steps, next, layout, passed, spec, size), s, counts, draws)
  {
    var steps' := Snoc(steps, next, layout, passed, spec, size);
    forall k | 0 <= k < i + 1
      ensures && s.subPopulations[k].populationCount >= 0
              && steps'.specs[k] == StepOffspring(s.subPopulations[k], counts[k], steps'.sizes[k], from[..i + 1][k], DrawsAt(draws, k))
    {
      if k < i {
        assert steps'.specs[k] == steps.specs[k] && steps'.sizes[k] == steps.sizes[k] && from[..i + 1][k] == from[..i][k];
      }
    }
  }

  /** What the task of each sub-population answers: the fitness of the head it started from, or its step's exception. */
  function Answered(from: seq<seq<Individual>>, nexts: seq<Outcome<seq<Individual>>>): (r: seq<Outcome<real>>)
    requires |nexts| <= |from| && forall i :: 0 <= i < |from| ==> |from[i]| >= 1
    ensures |r| == |nexts|
    ensures forall i :: 0 <= i < |nexts| ==>
              (r[i].Ok? <==> nexts[i].Ok?)
              && (r[i].Ok? ==> r[i].value == from[i][0].CalculateFitness())
              && (r[i].Thrown? ==> r[i].ex == nexts[i].ex)
  {
    seq(|nexts|, i requires 0 <= i < |nexts| =>
      if nexts[i].Ok? then Ok(from[i][0].CalculateFitness()) else Thrown(nexts[i].ex))
  }

  /**
   * What the tasks answered, read back from the steps: a task that threw
   * left its sub-population as it was, and one that answered left it
   * fitness-sorted, with a head no worse than the answer when it keeps an
   * elite.
   */
  lemma SteppedAllAnswers(to: seq<seq<Individual>>, from: seq<seq<Individual>>, steps: Steps, s: Settings,
                          counts: seq<Counts>, generation: int, draws: seq<StepDraws>, outcomes: seq<Outcome<real>>)
    requires SteppedAll(to, from, steps, s, counts, generation, draws) && forall i :: 0 <= i < |from| ==> |from[i]| >= 1
    requires outcomes == Answered(from, steps.nexts)
    ensures forall i :: 0 <= i < |from| && outcomes[i].Thrown? ==> to[i] == from[i]
    ensures forall i :: 0 <= i < |from| && outcomes[i].Ok? ==>
              outcomes[i].value == from[i][0].CalculateFitness() && FitnessSorted(to[i])
    ensures forall i :: 0 <= i < |from| && outcomes[i].Ok? && Composed(counts[i], s.subPopulations[i].populationCount)
                        && counts[i].elite >= 1 && |to[i]| >= 1 ==>
              to[i][0].CalculateFitness() <= outcomes[i].value
  {
    forall i | 0 <= i < |from|
      ensures outcomes[i].Thrown? ==> to[i] == from[i]
      ensures outcomes[i].Ok? ==> outcomes[i].value == from[i][0].CalculateFitness() && FitnessSorted(to[i])
      ensures outcomes[i].Ok? && Composed(counts[i], s.subPopulations[i].populationCount) && counts[i].elite >= 1
                && |to[i]| >= 1 ==>
                to[i][0].CalculateFitness() <= outcomes[i].value
    {
      assert SteppedOne(to[i], from[i], steps.nexts[i], steps.layouts[i], steps.passeds[i], steps.specs[i],
                        s.subPopulations[i], counts[i], generation, s, DrawsAt(draws, i));
    }
  }

  /** One more task answers as Answered says for its step. */
  lemma AnsweredSnoc(from: seq<seq<Individual>>, nexts: seq<Outcome<seq<Individual>>>, next: Outcome<seq<Individual>>,
                     outcomes: seq<Outcome<real>>, o: Outcome<real>)
    requires |nexts| < |from| && forall i :: 0 <= i < |from| ==> |from[i]| >= 1
    requires outcomes == Answered(from, nexts)
    requires o == (if next.Ok? then Ok(from[|nexts|][0].CalculateFitness()) else Thrown(next.ex))
    ensures outcomes + [o] == Answered(from, nexts + [next])
  {
    var r := Answered(from, nexts + [next]);
    assert forall i :: 0 <= i < |nexts| ==> (nexts + [next])[i] == nexts[i];
    assert forall i :: 0 <= i < |r| ==> r[i] == (outcomes + [o])[i];
  }

  /** No earlier sub-population shares the tournament of sub-population i, whose size a step may clamp. */
  predicate Unshared(subs: seq<SubSettings>, i: int)
    requires 0 <= i < |subs|
  {
    forall j :: 0 <= j < i ==> SelectionObjects(subs[j].selection) !! SelectionObjects(subs[i].selection)
  }

  /**
   * The population after one generation step and, in a migration
   * generation after a step that answered a best fitness, the migration
   * step. Accepted settings always have a positive migration interval.
   */
  function Migrated(stepped: seq<seq<Individual>>, best: Outcome<real>, s: Settings, current: int): Written
  {
    if best.Ok? && s.migrationInterval > 0 && MigrationGeneration(|stepped|, current, s.migrationInterval)
    then MigrationStep(s.migrationProcess, s.migrationStrategy, stepped)
    else Written(stepped, Option.None)
  }

  /** What one pass of calculate did: the population it started from, the stepped one, and the steps. */
  datatype Trace = Trace(from: seq<seq<Individual>>, stepped: seq<seq<Individual>>, steps: Steps)

  /**
   * Pass p followed trace t: when the pass reached the step, every
   * sub-population stepped from the population the pass started with, the
   * best fitness is the one the tasks answered, and the migration exception
   * is the one the migration step of the stepped population throws; when
   * it did not, no migration ran.
   */
  ghost predicate Traced(p: LastPass, t: Trace, s: Settings, counts: seq<Counts>, current: int, draws: seq<StepDraws>)
    reads StepObjects(t.steps)
  {
    && (p.step.None? ==> p.escaped.None?)
    && (p.step.Some? ==>
          && SteppedAll(t.stepped, t.from, t.steps, s, counts, current, draws)
          && (forall i :: 0 <= i < |t.from| ==> |t.from[i]| >= 1)
          && p.step.value == StepBest(Answered(t.from, t.steps.nexts))
          && p.escaped == Migrated(t.stepped, p.step.value, s, current).error)
  }

  /** The population a pass leaves: the one it started from when no step ran, else the migrated one. */
  function PopulationAfter(p: LastPass, t: Trace, s: Settings, current: int): seq<seq<Individual>>
  {
    if p.step.None? then t.from else Migrated(t.stepped, p.step.value, s, current).population
  }
}

/**
 * The state of a running engine and of a finished run of calculate, as
 * values: the population and counters an engine keeps valid, the window of
 * recent best fitness values, and what a result says about how and where
 * calculate ended.
 */
module EngineState {
  import opened JavaLang
  import opened Draws
  import opened Individuals
  import opened Sorting
  import opened Results
  import opened Statistics
  import opened StopCriteria
  import opened EngineConfig

  /**
   * The state an engine keeps between calls: one non-empty sub-population
   * per sub-population setting, a generation counter below the limit, and a
   * window that fits the staleness setting.
   */
  predicate Running(s: Settings, population: seq<seq<Individual>>, current: int, window: Option<Window>)
  {
    && |population| == |s.subPopulations|
    && (forall i :: 0 <= i < |population| ==> |population[i]| >= 1)
    && 0 <= current < s.maxGenerationCount
    && WindowFits(s, window)
  }

  /** The window of recent best fitness values exists exactly when staleness is checked, with its capacity. */
  predicate WindowFits(s: Settings, window: Option<Window>)
  {
    && (window.Some? <==> s.maxStaleGenerations > 0)
    && (window.Some? ==> window.value.Valid() && window.value.capacity == s.maxStaleGenerations)
  }

  /** The empty window the constructor and reset leave behind; none when staleness is not checked (0 or the builder's -1). */
  function EmptyWindow(s: Settings): (w: Option<Window>)
    ensures WindowFits(s, w)
    ensures s.maxStaleGenerations <= 0 ==> w.None?
    ensures s.maxStaleGenerations > 0 ==> w.value.values == []
  {
    if s.maxStaleGenerations > 0 then Some(Window(s.maxStaleGenerations, [])) else Option.None
  }

  /** How one pass of the loop of calculate ends: the loop goes on, stops for a reason, or an exception escapes. */
  datatype Pass = Continue | Stopped(reason: TerminationReason) | Failed(ex: JavaLang.Exception)

  /**
   * A pass of the loop of calculate as the stop checks see it: its number
   * within the call, the outcome of its step when the step ran (the best
   * generated fitness or the step's exception), the window of recent best
   * fitness values before the checks after the step, the exception of the
   * migration step when one ran and threw, and the execution time the
   * result held when the pass began.
   */
  datatype LastPass = LastPass(generation: int, step: Option<Outcome<real>>, window: Option<Window>,
                               escaped: Option<JavaLang.Exception>, clock: int)

  /** A generation is recorded when recordGeneration is positive and divides it. */
  predicate RecordDue(recordGeneration: int, current: int)
  {
    recordGeneration > 0 && current % recordGeneration == 0
  }

  /**
   * The execution time a result holds after n passes that went on, from
   * `clock`: each pass whose generation is recorded sets it to the runtime
   * read before that pass.
   */
  function ClockThrough(clock: int, start: int, recordGeneration: int, runtimes: seq<int>, n: nat): int
  {
    if n == 0 then clock
    else if RecordDue(recordGeneration, start + n - 1) then IntAt(runtimes, n - 1)
    else ClockThrough(clock, start, recordGeneration, runtimes, n - 1)
  }

  /**
   * The exception that escapes calculate from a pass, if any: when no check
   * before the step fired and the step answered a best fitness, the
   * exception of the migration step, or else, when no check after the step
   * fired and the generation is recorded, IllegalState from addGeneration
   * if the runtime read before the pass is below the recorded execution
   * time. A step exception is recorded in the result and escapes nothing.
   */
  function PassFailure(p: LastPass, generations: int, stops: set<int>, runtimes: seq<int>, s: Settings, current: int,
                       recordGeneration: int): Option<JavaLang.Exception>
  {
    if BeforeAt(p.generation, generations, stops, runtimes, s).Some? || p.step.None? || p.step.value.Thrown? then Option.None
    else if p.escaped.Some? then p.escaped
    else if p.window.Some? && !p.window.value.Valid() then Option.None
    else if StopAfter(p.step.value.value, s.targetFitness, current, s.maxGenerationCount, p.window).reason.None?
            && RecordDue(recordGeneration, current) && IntAt(runtimes, p.generation) < p.clock then Some(IllegalState)
    else Option.None
  }

  /** The checks before the step of pass g: stop() called during pass g sets the flag they read. */
  function BeforeAt(g: int, generations: int, stops: set<int>, runtimes: seq<int>, s: Settings): Option<TerminationReason>
  {
    StopBefore(g, generations, g in stops, IntAt(runtimes, g), s.maxExecutionTime)
  }

  /**
   * The reason a pass stopped for: the first check before the step that
   * fires; when none does, EXCEPTION with the step's exception; otherwise the
   * first check after the step that fires. `current` is the engine's
   * generation counter during the pass.
   */
  predicate StoppedFor(reason: TerminationReason, exception: Option<JavaLang.Exception>, p: LastPass, generations: int,
                       stops: set<int>, runtimes: seq<int>, s: Settings, current: int)
  {
    match BeforeAt(p.generation, generations, stops, runtimes, s)
    case Some(before) => p.step.None? && reason == before && exception.None?
    case None =>
      && p.step.Some?
      && (p.window.Some? ==> p.window.value.Valid())
      && match p.step.value
         case Thrown(e) => reason == TerminationReason.Exception && exception == Some(e)
         case Ok(best) =>
           && p.escaped.None?
           && StopAfter(best, s.targetFitness, current, s.maxGenerationCount, p.window).reason == Some(reason)
           && exception.None?
  }

  /** The window after a pass: the checks after the step record the best fitness when they get to staleness. */
  function WindowAfter(p: LastPass, s: Settings, current: int): Option<Window>
    requires p.window.Some? ==> p.window.value.Valid()
  {
    match p.step
    case Some(Ok(best)) => StopAfter(best, s.targetFitness, current, s.maxGenerationCount, p.window).window
    case _ => p.window
  }

  /**
   * The window after passes that went on, each with best fitness bests[g],
   * starting from window w with the engine's generation counter at start.
   */
  function Through(s: Settings, w: Option<Window>, start: int, bests: seq<real>): (r: Option<Window>)
    requires w.Some? ==> w.value.Valid()
    ensures r.Some? ==> r.value.Valid()
    decreases |bests|
  {
    if |bests| == 0 then w
    else
      var before := Through(s, w, start, bests[..|bests| - 1]);
      StopAfterOrder(bests[|bests| - 1], s.targetFitness, start + |bests| - 1, s.maxGenerationCount, before);
      StopAfter(bests[|bests| - 1], s.targetFitness, start + |bests| - 1, s.maxGenerationCount, before).window
  }

  /** No check after the step fired in any of these passes. */
  predicate Quiet(s: Settings, w: Option<Window>, start: int, bests: seq<real>)
    requires w.Some? ==> w.value.Valid()
    decreases |bests|
  {
    |bests| == 0 ||
    (&& Quiet(s, w, start, bests[..|bests| - 1])
     && StopAfter(bests[|bests| - 1], s.targetFitness, start + |bests| - 1, s.maxGenerationCount,
                  Through(s, w, start, bests[..|bests| - 1])).reason.None?)
  }

  /**
   * The pass went on: no check before the step fired, the step succeeded,
   * no migration exception escaped, no check after the step fired, and a
   * due record did not find the runtime below the recorded execution time.
   */
  predicate WentOn(p: LastPass, generations: int, stops: set<int>, runtimes: seq<int>, s: Settings, current: int,
                   recordGeneration: int)
  {
    && BeforeAt(p.generation, generations, stops, runtimes, s).None?
    && p.step.Some? && p.step.value.Ok?
    && p.escaped.None?
    && (p.window.Some? ==> p.window.value.Valid())
    && StopAfter(p.step.value.value, s.targetFitness, current, s.maxGenerationCount, p.window).reason.None?
    && !(RecordDue(recordGeneration, current) && IntAt(runtimes, p.generation) < p.clock)
  }

  /**
   * How a run of calculate that started at generation `start` with window
   * `startWindow` ended at generation `current` with window `window`: every
   * pass before the last went on (no check before its step fired, and its
   * best fitness bests[g] fired no check after it), and the last pass
   * stopped for the first check that fired in it.
   */
  predicate Concluded(reason: TerminationReason, exception: Option<JavaLang.Exception>, last: LastPass, bests: seq<real>,
                      generations: int, stops: set<int>, runtimes: seq<int>, s: Settings, start: int, current: int,
                      startWindow: Option<Window>, window: Option<Window>)
    requires startWindow.Some? ==> startWindow.value.Valid()
  {
    && Preceded(last, bests, generations, stops, runtimes, s, start, current, startWindow)
    && StoppedFor(reason, exception, last, generations, stops, runtimes, s, current)
    && window == WindowAfter(last, s, current)
  }

  /**
   * The passes of a run of calculate before `last`: every one of them went
   * on (no check before its step fired, and its best fitness bests[g] fired
   * no check after it), and `last` starts from the window they left.
   */
  predicate Preceded(last: LastPass, bests: seq<real>, generations: int, stops: set<int>, runtimes: seq<int>, s: Settings,
                     start: int, current: int, startWindow: Option<Window>)
    requires startWindow.Some? ==> startWindow.value.Valid()
  {
    && current == start + last.generation
    && |bests| == last.generation
    && (forall g :: 0 <= g < last.generation ==> BeforeAt(g, generations, stops, runtimes, s).None?)
    && Quiet(s, startWindow, start, bests)
    && last.window == Through(s, startWindow, start, bests)
  }

  /**
   * The last generation a result recorded: the population, sorted, under
   * the generation the engine reached, and a best result no individual of
   * it beats.
   */
  predicate Recorded(result: Result, population: seq<seq<Individual>>, current: int)
    reads result
  {
    && result.generations == current
    && result.fullHistory.Get(current) == Some(population)
    && (forall i :: 0 <= i < |population| ==> FitnessSorted(population[i]))
    && (|population| >= 1 ==> BestOfTheLast(result.GetBestResultValue(), population))
  }

  /** The best result is the head of a sub-population, and no individual of the population is fitter. */
  predicate BestOfTheLast(best: Outcome<Individual>, population: seq<seq<Individual>>)
  {
    && best.Ok?
    && (exists i :: 0 <= i < |population| && |population[i]| > 0 && best.value == population[i][0])
    && (forall i, j :: 0 <= i < |population| && 0 <= j < |population[i]| ==>
          best.value.CalculateFitness() <= population[i][j].CalculateFitness())
  }

  /**
   * After a sorted population is recorded under generation g, the best
   * result of g is a head of the population that no individual beats.
   */
  lemma LastIsBest(statistics: LinkedMap<Option<Summary>>, subStatistics: LinkedMap<seq<Summary>>,
                   history: LinkedMap<seq<seq<Individual>>>, g: int, population: seq<seq<Individual>>)
    requires forall i :: 0 <= i < |population| ==> FitnessSorted(population[i])
    requires forall i :: 0 <= i < |population| ==> |population[i]| >= 1
    ensures var each := StatsEach(FitnessesEach(population));
            |population| >= 1 ==>
              BestOfTheLast(BestResultOf(statistics.Put(g, CombineAll(each)), subStatistics.Put(g, each), history.Put(g, population), g),
                            population)
  {
    if |population| >= 1 {
      assert |population[0]| > 0;
      BestResultIsFittest(statistics, subStatistics, history, g, population);
    }
  }
}

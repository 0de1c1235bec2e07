/**
 * The stop conditions of the engine's main loop: the checks made before a
 * generation step, the checks made after it, the best fitness of a step,
 * and the bounded window of recent best fitness values that detects a
 * stalled run.
 */
module StopCriteria {
  import opened JavaLang
  import opened Results

  // ------------------------------------------------------------ window

  /** The last n elements of s, or all of s when it is shorter. */
  function Last(s: seq<real>, n: nat): (r: seq<real>)
    ensures |r| <= n && |r| <= |s|
  {
    if |s| <= n then s else s[|s| - n..]
  }

  /**
   * The CircularQueue<Double> of best fitness values: a FIFO of at most
   * `capacity` values, where adding to a full queue evicts the oldest.
   */
  datatype Window = Window(capacity: int, values: seq<real>)
  {
    predicate Valid()
    {
      1 <= capacity && |values| <= capacity
    }

    function Add(x: real): (w: Window)
      requires Valid()
      ensures w.Valid() && w.capacity == capacity
      ensures w.values == Last(values + [x], capacity)
    {
      if |values| == capacity then Window(capacity, values[1..] + [x]) else Window(capacity, values + [x])
    }

    predicate Full()
    {
      |values| == capacity
    }

    /** The oldest value; the queue is never peeked at while empty. */
    function Peek(): real
      requires |values| > 0
    {
      values[0]
    }
  }

  /** A window after the values of a history were added one by one, oldest first. */
  function AddAll(w: Window, history: seq<real>): (r: Window)
    requires w.Valid()
    ensures r.Valid() && r.capacity == w.capacity
    decreases |history|
  {
    if |history| == 0 then w else AddAll(w, history[..|history| - 1]).Add(history[|history| - 1])
  }

  lemma LastOfLast(s: seq<real>, x: real, n: nat)
    requires n >= 1
    ensures Last(Last(s, n) + [x], n) == Last(s + [x], n)
  {
    if |s| > n {
      assert Last(s, n) + [x] == (s + [x])[|s| - n..];
      assert Last(s, n)[1..] + [x] == (s + [x])[|s| + 1 - n..];
    }
  }

  /**
   * A window that starts empty holds the latest `capacity` best values: it
   * is full once `capacity` values have been added, and then its oldest
   * value is the one added capacity - 1 generations before the newest. The
   * staleness check therefore compares the best fitness with the best
   * fitness capacity - 1 generations earlier.
   */
  lemma WindowHoldsTheLatest(capacity: int, history: seq<real>)
    requires capacity >= 1
    ensures AddAll(Window(capacity, []), history).values == Last(history, capacity)
    ensures AddAll(Window(capacity, []), history).Full() <==> |history| >= capacity
    ensures |history| >= capacity ==> AddAll(Window(capacity, []), history).Peek() == history[|history| - capacity]
  {
    WindowValues(capacity, history);
    var values := Last(history, capacity);
    if |history| >= capacity {
      assert |values| == capacity && values[0] == history[|history| - capacity];
    } else {
      assert values == history;
    }
  }

  /** Adding a history to an empty window leaves its latest `capacity` values. */
  lemma {:induction false} WindowValues(capacity: int, history: seq<real>)
    requires capacity >= 1
    ensures AddAll(Window(capacity, []), history).values == Last(history, capacity)
    decreases |history|
  {
    if |history| > 0 {
      var front, x := history[..|history| - 1], history[|history| - 1];
      WindowValues(capacity, front);
      LastOfLast(front, x, capacity);
      assert front + [x] == history;
    }
  }

  // ---------------------------------------------------------- the checks

  /**
   * The checks before a step, in order: the requested number of steps of
   * this call, a user interrupt, the runtime limit.
   */
  function StopBefore(generation: int, generations: int, interrupted: bool, runtime: int, maxExecutionTime: int)
    : Option<TerminationReason>
  {
    if generation == generations then Some(GenerationStep)
    else if interrupted then Some(Interrupted)
    else if runtime > maxExecutionTime then Some(Runtime)
    else Option.None
  }

  /** Each reason fires exactly when its condition holds and no earlier check fired. */
  lemma StopBeforeOrder(generation: int, generations: int, interrupted: bool, runtime: int, maxExecutionTime: int)
    ensures var r := StopBefore(generation, generations, interrupted, runtime, maxExecutionTime);
            && (r == Some(GenerationStep) <==> generation == generations)
            && (r == Some(Interrupted) <==> generation != generations && interrupted)
            && (r == Some(Runtime) <==> generation != generations && !interrupted && runtime > maxExecutionTime)
            && (r.None? <==> generation != generations && !interrupted && runtime <= maxExecutionTime)
  {
  }

  /** The outcome of the checks after a step: the reason to stop, if any, and the window afterwards. */
  datatype AfterStep = AfterStep(reason: Option<TerminationReason>, window: Option<Window>)

  /**
   * The checks after a step, in order: the target fitness, the last
   * generation, and, when a window exists, staleness, which first records
   * the best fitness in the window.
   */
  function StopAfter(best: real, target: real, current: int, maxGenerationCount: int, window: Option<Window>): AfterStep
    requires window.Some? ==> window.value.Valid()
  {
    if best <= target then AfterStep(Some(Fitness), window)
    else if current == maxGenerationCount - 1 then AfterStep(Some(Generation), window)
    else match window
      case None => AfterStep(Option.None, Option.None)
      case Some(w) =>
        var added := w.Add(best);
        AfterStep(if added.Full() && added.Peek() == best then Some(Staleness) else Option.None, Some(added))
  }

  /**
   * Fitness wins over the generation limit, which wins over staleness; the
   * window takes the best fitness only when the two earlier checks did not
   * fire; staleness fires exactly when the window is full and its oldest
   * value equals the new best.
   */
  lemma StopAfterOrder(best: real, target: real, current: int, maxGenerationCount: int, window: Option<Window>)
    requires window.Some? ==> window.value.Valid()
    ensures var r := StopAfter(best, target, current, maxGenerationCount, window);
            && (r.reason == Some(Fitness) <==> best <= target)
            && (r.reason == Some(Generation) <==> best > target && current == maxGenerationCount - 1)
            && (best <= target || current == maxGenerationCount - 1 ==> r.window == window)
            && (best > target && current != maxGenerationCount - 1 ==>
                  && (window.None? ==> r == AfterStep(Option.None, Option.None))
                  && (window.Some? ==>
                        var latest := Last(window.value.values + [best], window.value.capacity);
                        && r.window == Some(window.value.Add(best))
                        && (r.reason == Some(Staleness) <==> (|latest| == window.value.capacity && latest[0] == best))))
            && (r.window.Some? ==> r.window.value.Valid())
  {
  }

  // ------------------------------------------------------- best of a step

  /**
   * The best fitness over the sub-populations' results, taken in order and
   * starting from Double.MAX_VALUE; the first failed sub-population decides
   * the outcome instead.
   */
  function StepBest(outcomes: seq<Outcome<real>>): Outcome<real>
  {
    if |outcomes| == 0 then Ok(DOUBLE_MAX_VALUE)
    else
      match StepBest(outcomes[..|outcomes| - 1])
      case Thrown(e) => Thrown(e)
      case Ok(best) =>
        match outcomes[|outcomes| - 1]
        case Thrown(e) => Thrown(e)
        case Ok(f) => Ok(if f < best then f else best)
  }

  /** The index of the first failed outcome, or |outcomes| when none failed. */
  function FirstFailure(outcomes: seq<Outcome<real>>): (k: nat)
    ensures k <= |outcomes|
    ensures k < |outcomes| ==> outcomes[k].Thrown?
    ensures forall j :: 0 <= j < k ==> outcomes[j].Ok?
  {
    if |outcomes| == 0 then 0
    else if FirstFailure(outcomes[..|outcomes| - 1]) < |outcomes| - 1 then FirstFailure(outcomes[..|outcomes| - 1])
    else if outcomes[|outcomes| - 1].Thrown? then |outcomes| - 1
    else |outcomes|
  }

  /**
   * The step succeeds exactly when every sub-population did; then its best
   * is the minimum of their fitness values and Double.MAX_VALUE. Otherwise
   * the step fails with the first failure's exception.
   */
  lemma {:induction false} StepBestIsTheMinimum(outcomes: seq<Outcome<real>>)
    ensures var r := StepBest(outcomes);
            && (r.Ok? <==> FirstFailure(outcomes) == |outcomes|)
            && (r.Thrown? ==> r.ex == outcomes[FirstFailure(outcomes)].ex)
            && (r.Ok? ==>
                  && r.value <= DOUBLE_MAX_VALUE
                  && (forall j :: 0 <= j < |outcomes| ==> r.value <= outcomes[j].value)
                  && (r.value == DOUBLE_MAX_VALUE || exists j :: 0 <= j < |outcomes| && r.value == outcomes[j].value))
  {
    if |outcomes| > 0 {
      var front := outcomes[..|outcomes| - 1];
      StepBestIsTheMinimum(front);
      var r := StepBest(outcomes);
      if r.Ok? {
        assert forall j :: 0 <= j < |front| ==> front[j] == outcomes[j];
        var b := StepBest(front).value;
        if b != DOUBLE_MAX_VALUE {
          var j :| 0 <= j < |front| && b == front[j].value;
          assert b == outcomes[j].value;
        }
      } else if StepBest(front).Thrown? {
        assert front[FirstFailure(front)] == outcomes[FirstFailure(front)];
      }
    }
  }

  /** A migration step follows every migrationInterval-th generation after the first, with more than one sub-population. */
  predicate MigrationGeneration(subPopulations: int, current: int, migrationInterval: int)
    requires migrationInterval > 0
  {
    subPopulations > 1 && current % migrationInterval == 0 && current != 0
  }
}

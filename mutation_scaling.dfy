/**
 * Mutation scaling: the scale factor handed to Individual.mutate. The
 * stateless schedules are arithmetic on the generation counters; the linear
 * fitness schedule remembers the first gap between the best and the target
 * fitness and reports later gaps relative to it.
 */
module MutationScaling {
  import opened JavaLang
  import Sums

  function Of(x: int): Double { Finite(x as real) }

  // ------------------------------------------------------ stateless schedules

  /** The stateless strategies among the interface's constants. */
  datatype Schedule = Constant | LinearGeneration | StallAdapt | Asymptot

  /** computeScaleFactor of each constant; the fitness arguments are ignored by all four. */
  function ScaleFactor(schedule: Schedule, gen: Int32, maxGen: Int32, curStall: Int32): (r: Double)
  {
    match schedule
    case Constant => Finite(1.0)
    case LinearGeneration => Linear(gen, maxGen)
    case StallAdapt =>
      var scale := Linear(gen, maxGen);
      if curStall > JavaDiv(maxGen, 20) then Mul(scale, Finite(1.3)) else scale
    case Asymptot => Div(Sub(Div(Of(maxGen), Finite(gen as real + 1.0)), Finite(1.0)), Of(maxGen))
  }

  /** 1 - gen/(double)maxGen. */
  function Linear(gen: Int32, maxGen: Int32): Double
  {
    Sub(Finite(1.0), Div(Of(gen), Of(maxGen)))
  }

  /** CONSTANT answers 1 whatever it is given. */
  lemma ConstantIsOne(gen: Int32, maxGen: Int32, curStall: Int32)
    ensures ScaleFactor(Constant, gen, maxGen, curStall) == Finite(1.0)
  {
  }

  /**
   * LINEAR_GENERATION falls linearly from 1 at generation 0 to 0 at the
   * maximum generation: the fraction of generations still to come.
   */
  lemma {:induction false} LinearGenerationFalls(gen: Int32, maxGen: Int32, curStall: Int32)
    requires maxGen > 0
    ensures ScaleFactor(LinearGeneration, gen, maxGen, curStall) == Finite((maxGen - gen) as real / maxGen as real)
    ensures gen == 0 ==> ScaleFactor(LinearGeneration, gen, maxGen, curStall) == Finite(1.0)
    ensures gen == maxGen ==> ScaleFactor(LinearGeneration, gen, maxGen, curStall) == Finite(0.0)
    ensures 0 <= gen <= maxGen ==> LessEq(Finite(0.0), ScaleFactor(LinearGeneration, gen, maxGen, curStall))
                                   && LessEq(ScaleFactor(LinearGeneration, gen, maxGen, curStall), Finite(1.0))
  {
    LinearShare(gen, maxGen, curStall);
    LinearBounds(gen, maxGen, curStall);
  }

  /** The linear scale is the share of generations still to come. */
  lemma LinearShare(gen: Int32, maxGen: Int32, curStall: Int32)
    requires maxGen > 0
    ensures ScaleFactor(LinearGeneration, gen, maxGen, curStall) == Finite((maxGen - gen) as real / maxGen as real)
  {
    assert ScaleFactor(LinearGeneration, gen, maxGen, curStall) == Finite(1.0 - gen as real / maxGen as real);
    Remaining(gen, maxGen);
  }

  /** The share of generations still to come is 1 at the start, 0 at the end and in [0, 1] between. */
  lemma LinearBounds(gen: Int32, maxGen: Int32, curStall: Int32)
    requires maxGen > 0
    ensures var x := (maxGen - gen) as real / maxGen as real;
            && (gen == 0 ==> x == 1.0)
            && (gen == maxGen ==> x == 0.0)
            && (0 <= gen <= maxGen ==> 0.0 <= x <= 1.0)
  {
    var x := (maxGen - gen) as real / maxGen as real;
    assert x * maxGen as real == (maxGen - gen) as real;
    if gen == 0 {
      Cancel(x, 1.0, maxGen as real);
    } else if gen == maxGen {
      Cancel(x, 0.0, maxGen as real);
    } else if 0 <= gen <= maxGen {
      Fraction(maxGen - gen, maxGen);
    }
  }

  /** 1 - g/m is the share (m - g)/m. */
  lemma Remaining(g: int, m: int)
    requires m > 0
    ensures 1.0 - g as real / m as real == (m - g) as real / m as real
  {
    var x, y := g as real / m as real, (m - g) as real / m as real;
    assert x * m as real == g as real && y * m as real == (m - g) as real;
    Cancel(y, 1.0 - x, m as real);
  }

  /** Equal multiples of a positive factor have equal multiplicands. */
  lemma Cancel(a: real, b: real, m: real)
    requires a * m == b * m && m > 0.0
    ensures a == b
  {
    assert a == (a * m) / m;
    assert b == (b * m) / m;
  }

  /** A quotient is the multiplicand that gives the numerator back. */
  lemma Quotient(a: int, m: int, q: real)
    requires m > 0 && q * m as real == a as real
    ensures a as real / m as real == q
  {
    var x := a as real / m as real;
    assert x * m as real == a as real;
    Cancel(x, q, m as real);
  }

  /** A fraction of a positive whole with a numerator between 0 and the whole lies in [0, 1]. */
  lemma Fraction(a: int, m: int)
    requires 0 <= a <= m && m > 0
    ensures 0.0 <= a as real / m as real <= 1.0
  {
    Sums.DivNonNegative(a as real, m as real);
    Sums.DivNonNegative((m - a) as real, m as real);
    Remaining(a, m);
  }

  /** A later generation never gets a larger linear scale. */
  lemma {:induction false} LinearGenerationDecreases(gen1: Int32, gen2: Int32, maxGen: Int32, curStall: Int32)
    requires maxGen > 0 && gen1 <= gen2
    ensures LessEq(ScaleFactor(LinearGeneration, gen2, maxGen, curStall), ScaleFactor(LinearGeneration, gen1, maxGen, curStall))
  {
    LinearGenerationFalls(gen1, maxGen, curStall);
    LinearGenerationFalls(gen2, maxGen, curStall);
    NumeratorMonotone(maxGen - gen2, maxGen - gen1, maxGen);
  }

  lemma NumeratorMonotone(a: int, b: int, m: int)
    requires a <= b && m > 0
    ensures a as real / m as real <= b as real / m as real
  {
    var x, y, z := a as real / m as real, b as real / m as real, (b - a) as real / m as real;
    assert x * m as real == a as real && y * m as real == b as real && z * m as real == (b - a) as real;
    assert (y - x) * m as real == z * m as real;
    Cancel(y - x, z, m as real);
    Sums.DivNonNegative((b - a) as real, m as real);
  }

  /** LINEAR_GENERATION at a tenth and at half of the maximum generation. */
  lemma {:induction false} LinearGenerationFractions(tenth: Int32, curStall: Int32)
    requires 0 < tenth && 10 * tenth <= INT_MAX
    ensures ScaleFactor(LinearGeneration, tenth, 10 * tenth, curStall) == Finite(0.9)
    ensures ScaleFactor(LinearGeneration, 5 * tenth, 10 * tenth, curStall) == Finite(0.5)
  {
    LinearGenerationFalls(tenth, 10 * tenth, curStall);
    Quotient(10 * tenth - tenth, 10 * tenth, 0.9);
    LinearGenerationFalls(5 * tenth, 10 * tenth, curStall);
    Quotient(10 * tenth - 5 * tenth, 10 * tenth, 0.5);
  }

  /**
   * STALL_ADAPT raises the linear scale by 30% exactly when the stall count
   * exceeds a twentieth of the maximum generation (integer division); the
   * raised value stays within [0, 1.3].
   */
  lemma {:induction false} StallAdaptRaises(gen: Int32, maxGen: Int32, curStall: Int32)
    requires 0 <= gen < maxGen
    ensures var linear := ScaleFactor(LinearGeneration, gen, maxGen, curStall);
            var stall := ScaleFactor(StallAdapt, gen, maxGen, curStall);
            && (stall != linear <==> curStall > maxGen / 20)
            && (curStall > maxGen / 20 ==> stall == Mul(linear, Finite(1.3)))
            && LessEq(Finite(0.0), stall) && LessEq(stall, Finite(1.3))
  {
    LinearGenerationFalls(gen, maxGen, curStall);
    var v := (maxGen - gen) as real / maxGen as real;
    assert v > 0.0;
    assert JavaDiv(maxGen, 20) == maxGen / 20 by {
      var q := JavaDiv(maxGen, 20);
      assert q * 20 <= maxGen < (q + 1) * 20;
    }
  }

  /**
   * ASYMPTOT is (maxGen/(gen+1) - 1)/maxGen: it starts just below 1 and
   * reaches 0 in the last generation, maxGen - 1.
   */
  lemma {:induction false} AsymptotValues(gen: Int32, maxGen: Int32, curStall: Int32)
    requires maxGen > 0 && gen >= 0
    ensures ScaleFactor(Asymptot, gen, maxGen, curStall) == Finite((maxGen as real / (gen as real + 1.0) - 1.0) / maxGen as real)
    ensures gen == 0 ==> ScaleFactor(Asymptot, gen, maxGen, curStall) == Finite(1.0 - 1.0 / maxGen as real)
    ensures gen == maxGen - 1 ==> ScaleFactor(Asymptot, gen, maxGen, curStall) == Finite(0.0)
  {
    var m := maxGen as real;
    if gen == 0 {
      assert (m / 1.0 - 1.0) / m == 1.0 - 1.0 / m;
    }
    if gen == maxGen - 1 {
      assert gen as real + 1.0 == m;
    }
  }

  // ------------------------------------------------------- linear fitness

  /**
   * One call of LinearFitnessMutationScaling.computeScaleFactor, given the
   * stored first gap: the stored gap afterwards and the scale factor.
   */
  function LinearFitnessStep(firstFitness: Double, best: Double, target: Double): (Double, Double)
  {
    var anchor := if firstFitness == Finite(0.0) then Sub(best, target) else firstFitness;
    (anchor, Div(Sub(best, target), anchor))
  }

  class LinearFitnessMutationScaling {
    /** The gap between the best and the target fitness at the first call; 0 until then. */
    var firstFitness: Double

    constructor()
      ensures firstFitness == Finite(0.0)
    {
      firstFitness := Finite(0.0);
    }

    /** The gap now, relative to the first gap; the generation and stall arguments are ignored. */
    method ComputeScaleFactor(gen: Int32, maxGen: Int32, best: Double, target: Double, curStall: Int32)
      returns (scale: Double)
      modifies this
      ensures (firstFitness, scale) == LinearFitnessStep(old(firstFitness), best, target)
    {
      if firstFitness == Finite(0.0) {
        firstFitness := Sub(best, target);
      }
      scale := Div(Sub(best, target), firstFitness);
    }

    /** Forgets the first gap, so that the next call anchors again. */
    method Reset()
      modifies this
      ensures firstFitness == Finite(0.0)
    {
      firstFitness := Finite(0.0);
    }
  }

  /**
   * The first call after construction or reset anchors on the current gap
   * and answers 1 (when the gap is finite and not 0); later calls answer the
   * current gap over the anchored one and keep the anchor.
   */
  lemma {:induction false} LinearFitnessAnchors(best: real, target: real, later: real)
    requires best != target
    ensures var (anchor, scale) := LinearFitnessStep(Finite(0.0), Finite(best), Finite(target));
            && anchor == Finite(best - target) && scale == Finite(1.0)
            && LinearFitnessStep(anchor, Finite(later), Finite(target))
               == (anchor, Finite((later - target) / (best - target)))
  {
    SelfRatio(best - target);
  }

  lemma SelfRatio(x: real)
    requires x != 0.0
    ensures x / x == 1.0
  {
    assert (x / x) * x == 1.0 * x;
  }

  /** Reaching the target fitness answers 0 once anchored. */
  lemma {:induction false} LinearFitnessReachesZero(anchor: real, target: real)
    requires anchor != 0.0
    ensures LinearFitnessStep(Finite(anchor), Finite(target), Finite(target)) == (Finite(anchor), Finite(0.0))
  {
  }

  /** A first gap of 0 answers 0/0, NaN, and leaves nothing anchored, so every call anchors again. */
  lemma {:induction false} LinearFitnessZeroGap(target: real)
    ensures LinearFitnessStep(Finite(0.0), Finite(target), Finite(target)) == (Finite(0.0), NaN)
  {
  }

  // ------------------------------------------------------------ dispatch

  /** A strategy as the engine holds it: a stateless constant or a stateful linear fitness object. */
  datatype MutationScaler = Stateless(schedule: Schedule) | LinearFitness(scaling: LinearFitnessMutationScaling)

  /** The objects a list of strategies may change. */
  function Objects(scalers: seq<MutationScaler>): set<LinearFitnessMutationScaling>
  {
    set i | 0 <= i < |scalers| && scalers[i].LinearFitness? :: scalers[i].scaling
  }

  /** computeScaleFactor through the interface. */
  method Compute(scaler: MutationScaler, gen: Int32, maxGen: Int32, best: Double, target: Double, curStall: Int32)
    returns (scale: Double)
    modifies if scaler.LinearFitness? then {scaler.scaling} else {}
    ensures scaler.Stateless? ==> scale == ScaleFactor(scaler.schedule, gen, maxGen, curStall)
    ensures scaler.LinearFitness? ==> (scaler.scaling.firstFitness, scale)
                                      == LinearFitnessStep(old(scaler.scaling.firstFitness), best, target)
  {
    match scaler
    case Stateless(schedule) => scale := ScaleFactor(schedule, gen, maxGen, curStall);
    case LinearFitness(scaling) => scale := scaling.ComputeScaleFactor(gen, maxGen, best, target, curStall);
  }

  /** reset through the interface: the default reset of the constants does nothing. */
  method Reset(scaler: MutationScaler)
    modifies if scaler.LinearFitness? then {scaler.scaling} else {}
    ensures scaler.LinearFitness? ==> scaler.scaling.firstFitness == Finite(0.0)
  {
    match scaler
    case Stateless(_) =>
    case LinearFitness(scaling) => scaling.Reset();
  }

  /** GeneticAlgorithm.reset: every strategy of the list is reset, and nothing else changes. */
  method ResetAll(scalers: seq<MutationScaler>)
    modifies Objects(scalers)
    ensures forall s :: s in Objects(scalers) ==> s.firstFitness == Finite(0.0)
  {
    var i := 0;
    while i < |scalers|
      invariant 0 <= i <= |scalers|
      invariant forall k :: 0 <= k < i && scalers[k].LinearFitness? ==> scalers[k].scaling.firstFitness == Finite(0.0)
    {
      Reset(scalers[i]);
      i := i + 1;
    }
  }
}

/**
 * Parent selection: turning scaled fitness values into the list of parents
 * the next generation is bred from. The scaled values lay out a line; a
 * parent is picked where a pointer lands on it.
 */
module Selection {
  import opened JavaLang
  import opened Sums
  import opened Draws
  import opened Individuals
  import opened FitnessScaling

  // ------------------------------------------------------------ the line

  /** The running total of the first k values of the line. */
  function Upto(s: seq<real>, k: nat): real
    requires k <= |s|
  {
    Sum(s[..k])
  }

  lemma {:induction false} UptoStep(s: seq<real>, k: nat)
    requires k < |s|
    ensures Upto(s, k + 1) == Upto(s, k) + s[k]
  {
    SumStep(s, k);
  }

  lemma {:induction false} UptoEnds(s: seq<real>)
    ensures Upto(s, 0) == 0.0 && Upto(s, |s|) == Sum(s)
  {
    assert s[..0] == [] && s[..|s|] == s;
  }

  /**
   * The first position c >= from at which the running total of the first c
   * values reaches target, or None when no position up to the end of the
   * line does.
   */
  function FirstReach(s: seq<real>, from: nat, target: real): (c: Option<nat>)
    ensures c.Some? ==> from <= c.value <= |s| && Upto(s, c.value) >= target
    ensures c.Some? ==> forall k :: from <= k < c.value ==> Upto(s, k) < target
    ensures c.None? ==> forall k :: from <= k <= |s| ==> Upto(s, k) < target
    decreases |s| + 1 - from
  {
    if from > |s| then None
    else if Upto(s, from) >= target then Some(from)
    else FirstReach(s, from + 1, target)
  }

  /** The first reaching position is the only one with both properties. */
  lemma {:induction false} FirstReachIs(s: seq<real>, from: nat, target: real, c: nat)
    requires from <= c <= |s| && Upto(s, c) >= target
    requires forall k :: from <= k < c ==> Upto(s, k) < target
    ensures FirstReach(s, from, target) == Some(c)
  {
  }

  /** A larger target is reached no earlier. */
  lemma {:induction false} FirstReachMonotone(s: seq<real>, from: nat, a: real, b: real)
    requires a <= b && FirstReach(s, from, b).Some?
    ensures FirstReach(s, from, a).Some?
    ensures FirstReach(s, from, a).value <= FirstReach(s, from, b).value
  {
  }

  /** Spinning a wheel: the prefix-sum scan of the roulette loops, which stops at the first hit. */
  method Spin(values: seq<real>, target: real) returns (c: Option<nat>)
    ensures c == FirstReach(values, 1, target)
  {
    var currentCount := 0.0;
    for j := 0 to |values|
      invariant currentCount == Upto(values, j)
      invariant forall k :: 1 <= k <= j ==> Upto(values, k) < target
    {
      UptoStep(values, j);
      currentCount := currentCount + values[j];
      if target <= currentCount {
        FirstReachIs(values, 1, target, j + 1);
        return Some(j + 1);
      }
    }
    return None;
  }

  // -------------------------------------------------------- stochastic uniform

  /** Pointer i sits at i plus a fresh draw in [0, 1). */
  function Pointer(draws: seq<real>, i: nat): (location: real)
    ensures i as real <= location < i as real + 1.0
  {
    i as real + NextDouble(RealAt(draws, i))
  }

  /** Where pointer i lands: the first position whose cumulative upper bound reaches it. */
  function Landing(scaled: seq<ScaledFitness>, draws: seq<real>, i: nat): Option<nat>
  {
    FirstReach(ScaledValues(scaled), 0, Pointer(draws, i))
  }

  /** Pointer i lands inside the line, on the section of individual Landing - 1. */
  predicate Lands(scaled: seq<ScaledFitness>, draws: seq<real>, i: nat)
  {
    var c := Landing(scaled, draws, i);
    c.Some? && c.value >= 1
  }

  /**
   * The parents stochastic uniform selection picks: one per pointer, the
   * individual whose section the pointer lands on. A pointer beyond the end
   * of the line, or one at 0 (a first draw of exactly 0.0), makes the source
   * index outside the array.
   */
  function StochasticUniformParents(scaled: seq<ScaledFitness>, count: int, draws: seq<real>)
    : (r: Outcome<seq<Individual>>)
    ensures r.Thrown? ==> r.ex == (if count < 0 then NegativeArraySize else IndexOutOfBounds)
    ensures r.Ok? ==> |r.value| == count
  {
    if count < 0 then Thrown(NegativeArraySize)
    else match Picks(scaled, draws, count)
      case None => Thrown(IndexOutOfBounds)
      case Some(parents) => Ok(parents)
  }

  /** The position of the individual pointer i lands on. */
  function Pick(scaled: seq<ScaledFitness>, draws: seq<real>, i: nat): (p: nat)
    requires Lands(scaled, draws, i)
    ensures p < |scaled|
  {
    Landing(scaled, draws, i).value - 1
  }

  /** The individuals the first n pointers land on, or None once one of them misses the line. */
  function Picks(scaled: seq<ScaledFitness>, draws: seq<real>, n: nat): (r: Option<seq<Individual>>)
    ensures r.Some? ==> |r.value| == n
    decreases n
  {
    if n == 0 then Some([])
    else match Picks(scaled, draws, n - 1)
      case None => None
      case Some(before) =>
        if Lands(scaled, draws, n - 1) then Some(before + [scaled[Pick(scaled, draws, n - 1)].individual])
        else None
  }

  /** The first n pointers yield parents exactly when every one of them lands. */
  lemma {:induction false} PicksLand(scaled: seq<ScaledFitness>, draws: seq<real>, n: nat)
    ensures Picks(scaled, draws, n).Some? <==> forall i: nat :: i < n ==> Lands(scaled, draws, i)
    decreases n
  {
    if n > 0 {
      PicksLand(scaled, draws, n - 1);
    }
  }

  /** Parent i is the individual whose section pointer i lands on. */
  lemma {:induction false} PicksAt(scaled: seq<ScaledFitness>, draws: seq<real>, n: nat)
    requires Picks(scaled, draws, n).Some?
    ensures forall i: nat :: i < n ==>
      Lands(scaled, draws, i) && Picks(scaled, draws, n).value[i] == scaled[Pick(scaled, draws, i)].individual
    decreases n
  {
    if n > 0 {
      PicksAt(scaled, draws, n - 1);
    }
  }

  /** Once a pointer misses, no longer run of pointers yields parents. */
  lemma {:induction false} PicksStayNone(scaled: seq<ScaledFitness>, draws: seq<real>, i: nat, n: nat)
    requires i <= n && Picks(scaled, draws, i).None?
    ensures Picks(scaled, draws, n).None?
    decreases n
  {
    if i < n {
      PicksStayNone(scaled, draws, i, n - 1);
    }
  }

  /** Every parent stochastic uniform selection returns is a member of the population. */
  lemma StochasticUniformParentsAreMembers(scaled: seq<ScaledFitness>, count: int, draws: seq<real>)
    requires StochasticUniformParents(scaled, count, draws).Ok?
    ensures forall i :: 0 <= i < count ==> StochasticUniformParents(scaled, count, draws).value[i] in Members(scaled)
  {
    PicksAt(scaled, draws, count);
    forall i: nat | i < count
      ensures Picks(scaled, draws, count).value[i] in Members(scaled)
    {
      assert Picks(scaled, draws, count).value[i] == Members(scaled)[Pick(scaled, draws, i)];
    }
  }

  /** StochasticUniform.selectParents: one cursor walks forward along the line for all pointers. */
  method StochasticUniformSelect(scaled: seq<ScaledFitness>, count: int, draws: seq<real>)
    returns (r: Outcome<seq<Individual>>)
    ensures r == StochasticUniformParents(scaled, count, draws)
  {
    if count < 0 {
      return Thrown(NegativeArraySize);
    }
    var values := ScaledValues(scaled);
    var selected: seq<Individual> := [];
    var curIndex: nat := 0;
    var currentMax := 0.0;
    for i := 0 to count
      invariant curIndex <= |values| && currentMax == Upto(values, curIndex)
      invariant i == 0 ==> curIndex == 0
      invariant i > 0 ==> Landing(scaled, draws, i - 1) == Some(curIndex)
      invariant Picks(scaled, draws, i) == Some(selected)
    {
      var pick;
      curIndex, currentMax, pick := NextPick(scaled, values, draws, i, curIndex, currentMax);
      if pick.None? {
        PicksStayNone(scaled, draws, i + 1, count);
        return Thrown(IndexOutOfBounds);
      }
      selected := selected + [pick.value];
    }
    return Ok(selected);
  }

  /** One pointer of StochasticUniform.selectParents: move the cursor on to pointer i and read its section. */
  method NextPick(scaled: seq<ScaledFitness>, values: seq<real>, draws: seq<real>, i: nat, from: nat, total: real)
    returns (curIndex: nat, currentMax: real, pick: Option<Individual>)
    requires values == ScaledValues(scaled)
    requires from <= |values| && total == Upto(values, from)
    requires i == 0 ==> from == 0
    requires i > 0 ==> Landing(scaled, draws, i - 1) == Some(from)
    ensures pick.None? <==> !Lands(scaled, draws, i)
    ensures pick.Some? ==> Landing(scaled, draws, i) == Some(curIndex) && curIndex <= |values|
    ensures pick.Some? ==> currentMax == Upto(values, curIndex)
    ensures pick.Some? ==> pick.value == scaled[Pick(scaled, draws, i)].individual
  {
    var location := Pointer(draws, i);
    if i > 0 {
      assert Pointer(draws, i - 1) < location;
    }
    var overrun;
    curIndex, currentMax, overrun := Advance(values, from, total, location);
    if overrun || curIndex == 0 {
      pick := None;
    } else {
      pick := Some(scaled[curIndex - 1].individual);
    }
  }

  /**
   * The inner loop of StochasticUniform.selectParents: the cursor moves on
   * until the running total reaches location. Running off the end of the
   * line is where the source indexes past the array.
   */
  method Advance(values: seq<real>, from: nat, total: real, location: real)
    returns (curIndex: nat, currentMax: real, overrun: bool)
    requires from <= |values| && total == Upto(values, from)
    requires forall k :: 0 <= k < from ==> Upto(values, k) < location
    ensures overrun <==> FirstReach(values, 0, location).None?
    ensures !overrun ==> FirstReach(values, 0, location) == Some(curIndex) && currentMax == Upto(values, curIndex)
  {
    curIndex, currentMax := from, total;
    while currentMax < location
      invariant from <= curIndex <= |values| && currentMax == Upto(values, curIndex)
      invariant forall k :: 0 <= k < curIndex ==> Upto(values, k) < location
      decreases |values| - curIndex
    {
      if curIndex == |values| {
        return curIndex, currentMax, true;
      }
      UptoStep(values, curIndex);
      currentMax := currentMax + values[curIndex];
      curIndex := curIndex + 1;
    }
    FirstReachIs(values, 0, location, curIndex);
    overrun := false;
  }

  /** The cursor only moves forward: a later pointer never lands on an earlier section. */
  lemma {:induction false} StochasticCursorForward(scaled: seq<ScaledFitness>, draws: seq<real>, i: nat, j: nat)
    requires i <= j && Landing(scaled, draws, j).Some?
    ensures Landing(scaled, draws, i).Some?
    ensures Landing(scaled, draws, i).value <= Landing(scaled, draws, j).value
  {
    if i < j {
      assert Pointer(draws, i) < Pointer(draws, j);
    }
    FirstReachMonotone(ScaledValues(scaled), 0, Pointer(draws, i), Pointer(draws, j));
  }

  /**
   * When the line is at least count long, as the scaling strategies arrange,
   * and the first draw is not exactly 0.0, every pointer lands on a parent.
   */
  lemma {:induction false} StochasticUniformCompletes(scaled: seq<ScaledFitness>, count: int, draws: seq<real>)
    requires count >= 1 && Sum(ScaledValues(scaled)) >= count as real
    requires NextDouble(RealAt(draws, 0)) > 0.0
    ensures StochasticUniformParents(scaled, count, draws).Ok?
  {
    var values := ScaledValues(scaled);
    UptoEnds(values);
    forall i: nat | i < count
      ensures Lands(scaled, draws, i)
    {
      assert Upto(values, |values|) > Pointer(draws, i);
      assert Upto(values, 0) < Pointer(draws, i);
    }
    PicksLand(scaled, draws, count);
  }

  /** A first draw of exactly 0.0 puts pointer 0 at 0, and the source reads index -1. */
  lemma {:induction false} StochasticUniformZeroFirstDraw(scaled: seq<ScaledFitness>, count: int, draws: seq<real>)
    requires count >= 1 && NextDouble(RealAt(draws, 0)) == 0.0
    ensures StochasticUniformParents(scaled, count, draws) == Thrown(IndexOutOfBounds)
  {
    assert ScaledValues(scaled)[..0] == [];
    assert Landing(scaled, draws, 0) == Some(0);
    assert !Lands(scaled, draws, 0);
    PicksLand(scaled, draws, count);
  }

  /** With non-negative values and a total below the last pointer, the cursor runs past the end. */
  lemma {:induction false} StochasticUniformOverrun(scaled: seq<ScaledFitness>, count: int, draws: seq<real>)
    requires NonNegative(ScaledValues(scaled))
    requires count >= 1 && Sum(ScaledValues(scaled)) < Pointer(draws, count - 1)
    ensures StochasticUniformParents(scaled, count, draws) == Thrown(IndexOutOfBounds)
  {
    var values := ScaledValues(scaled);
    UptoEnds(values);
    forall k | 0 <= k <= |values|
      ensures Upto(values, k) < Pointer(draws, count - 1)
    {
      PrefixSumMonotone(values, k, |values|);
    }
    assert !Lands(scaled, draws, count - 1);
    PicksLand(scaled, draws, count);
  }

  // ---------------------------------------------------------------- roulette

  /** Roulette draw i: a uniform draw in [0, 1) spread over a wheel of the given area. */
  function WheelDraw(draws: seq<real>, i: nat, area: real): (x: real)
    ensures area >= 0.0 ==> 0.0 <= x <= area
    ensures area > 0.0 ==> x < area
  {
    var u := NextDouble(RealAt(draws, i));
    SpreadBounds(u, area);
    u * area
  }

  lemma {:induction false} SpreadBounds(u: real, area: real)
    requires 0.0 <= u < 1.0
    ensures area >= 0.0 ==> 0.0 <= u * area <= area
    ensures area > 0.0 ==> u * area < area
  {
    if area >= 0.0 {
      MulMonotone(0.0, u, area);
      MulMonotone(u, 1.0, area);
    }
    if area > 0.0 {
      MulStrictMonotone(u, 1.0, area);
    }
  }

  /** The individual whose section holds target, or None (a null slot) when no prefix reaches it. */
  function RouletteSlot(scaled: seq<ScaledFitness>, target: real): (slot: Option<Individual>)
    ensures slot.Some? ==> slot.value in Members(scaled)
  {
    match FirstReach(ScaledValues(scaled), 1, target)
    case None => None
    case Some(c) => Some(scaled[c - 1].individual)
  }

  /** Roulette.selectParents. */
  method RouletteSelect(scaled: seq<ScaledFitness>, count: int, draws: seq<real>)
    returns (r: Outcome<seq<Option<Individual>>>)
    ensures r.Thrown? <==> count < 0
    ensures r.Thrown? ==> r.ex == NegativeArraySize
    ensures r.Ok? ==> |r.value| == count
    ensures r.Ok? ==> forall i :: 0 <= i < count ==> r.value[i] == RouletteSlot(scaled, WheelDraw(draws, i, count as real))
  {
    if count < 0 {
      return Thrown(NegativeArraySize);
    }
    var values := ScaledValues(scaled);
    var generated: seq<Option<Individual>> := [];
    for i := 0 to count
      invariant |generated| == i
      invariant forall k :: 0 <= k < i ==> generated[k] == RouletteSlot(scaled, WheelDraw(draws, k, count as real))
    {
      var roulette := WheelDraw(draws, i, count as real);
      var c := Spin(values, roulette);
      var slot := if c.Some? then Some(scaled[c.value - 1].individual) else None;
      generated := generated + [slot];
    }
    return Ok(generated);
  }

  /** No slot stays null when the scaled values sum to at least count (they sum to count after scaling). */
  lemma {:induction false} RouletteNoNull(scaled: seq<ScaledFitness>, count: int, draws: seq<real>, i: nat)
    requires i < count && Sum(ScaledValues(scaled)) >= count as real
    ensures RouletteSlot(scaled, WheelDraw(draws, i, count as real)).Some?
  {
    var values := ScaledValues(scaled);
    var target := WheelDraw(draws, i, count as real);
    UptoEnds(values);
    assert |values| >= 1;
    assert Upto(values, |values|) >= target;
  }

  /** With non-negative values, a draw beyond their sum reaches no section and leaves the slot null. */
  lemma {:induction false} RouletteNullPastTotal(scaled: seq<ScaledFitness>, target: real)
    requires NonNegative(ScaledValues(scaled)) && target > Sum(ScaledValues(scaled))
    ensures RouletteSlot(scaled, target).None?
  {
    var values := ScaledValues(scaled);
    UptoEnds(values);
    forall k | 1 <= k <= |values|
      ensures Upto(values, k) < target
    {
      PrefixSumMonotone(values, k, |values|);
    }
  }

  // --------------------------------------------------------------- remainder

  /** The integer part the source takes with an (int) cast; a non-positive one gives no copies. */
  function Copies(v: real): (n: nat)
    ensures v >= 0.0 ==> n == DoubleToInt(v) && n as real <= v
  {
    var t := DoubleToInt(v);
    if t < 0 then 0 else t
  }

  /** What is left of a value after its (int) cast. */
  function Fraction(v: real): (f: real)
    ensures v >= 0.0 ==> f >= 0.0 && Copies(v) as real + f == v
  {
    v - DoubleToInt(v) as real
  }

  function Fractions(values: seq<real>): (r: seq<real>)
    ensures |r| == |values|
    ensures forall j :: 0 <= j < |values| ==> r[j] == Fraction(values[j])
  {
    seq(|values|, j requires 0 <= j < |values| => Fraction(values[j]))
  }

  function Repeat<T>(x: T, n: nat): (r: seq<T>)
    ensures |r| == n && forall k :: 0 <= k < n ==> r[k] == x
  {
    seq(n, _ => x)
  }

  /** The deterministic part: each individual listed as often as its integer part says, in input order. */
  function FloorCopies(scaled: seq<ScaledFitness>): seq<Individual>
  {
    if |scaled| == 0 then []
    else
      var last := scaled[|scaled| - 1];
      FloorCopies(scaled[..|scaled| - 1]) + Repeat(last.individual, Copies(last.scaledFitness))
  }

  /** The copies of a line split in two are the copies of each part, one after the other. */
  lemma {:induction false} FloorCopiesConcat(a: seq<ScaledFitness>, b: seq<ScaledFitness>)
    ensures FloorCopies(a + b) == FloorCopies(a) + FloorCopies(b)
    decreases |b|
  {
    if b == [] {
      assert a + b == a;
    } else {
      var front := b[..|b| - 1];
      assert (a + b)[..|a + b| - 1] == a + front;
      FloorCopiesConcat(a, front);
    }
  }

  /** The number of deterministic copies and the fractional area together make up the scaled total. */
  lemma {:induction false} FloorAndFraction(scaled: seq<ScaledFitness>)
    requires NonNegative(ScaledValues(scaled))
    ensures |FloorCopies(scaled)| as real + Sum(Fractions(ScaledValues(scaled))) == Sum(ScaledValues(scaled))
    ensures Sum(Fractions(ScaledValues(scaled))) >= 0.0
  {
    if |scaled| > 0 {
      var n := |scaled|;
      var front := scaled[..n - 1];
      var values := ScaledValues(scaled);
      assert ScaledValues(front) == values[..n - 1];
      assert Fractions(ScaledValues(front)) == Fractions(values)[..n - 1];
      assert values[n - 1] >= 0.0;
      FloorAndFraction(front);
    }
  }

  /** Drops the nulls: the parents the roulette phase actually writes, in order. */
  function Landed(slots: seq<Option<Individual>>): (r: seq<Individual>)
    ensures |r| <= |slots|
  {
    if |slots| == 0 then []
    else
      Landed(slots[..|slots| - 1])
        + (match slots[|slots| - 1] case Some(x) => [x] case None => [])
  }

  function Present<T>(s: seq<T>): (r: seq<Option<T>>)
    ensures |r| == |s| && forall k :: 0 <= k < |s| ==> r[k] == Some(s[k])
  {
    seq(|s|, k requires 0 <= k < |s| => Some(s[k]))
  }

  /** An array of n slots holding s at its front and null after it. */
  function Padded<T>(s: seq<T>, n: nat): (r: seq<Option<T>>)
    requires |s| <= n
    ensures |r| == n
    ensures forall k :: 0 <= k < n ==> r[k] == if k < |s| then Some(s[k]) else None
  {
    Present(s) + Repeat(None, n - |s|)
  }

  /** The individual whose section of the fractional wheel holds target, or None when no prefix reaches it. */
  function FractionSlot(scaled: seq<ScaledFitness>, target: real): Option<Individual>
  {
    match FirstReach(Fractions(ScaledValues(scaled)), 1, target)
    case None => None
    case Some(c) => Some(scaled[c - 1].individual)
  }

  /** The area of the fractional wheel. */
  function FractionalArea(scaled: seq<ScaledFitness>): real
  {
    Sum(Fractions(ScaledValues(scaled)))
  }

  /** The roulette phase: n draws over the fractional parts, spread over the fractional area. */
  function RemainderSlots(scaled: seq<ScaledFitness>, draws: seq<real>, n: nat): (r: seq<Option<Individual>>)
    ensures |r| == n
    decreases n
  {
    if n == 0 then []
    else RemainderSlots(scaled, draws, n - 1) + [FractionSlot(scaled, WheelDraw(draws, n - 1, FractionalArea(scaled)))]
  }

  /** A null slot writes nothing; a hit is packed behind the earlier ones. */
  lemma {:induction false} LandedAppend(slots: seq<Option<Individual>>, x: Option<Individual>)
    ensures Landed(slots + [x]) == Landed(slots) + (match x case Some(v) => [v] case None => [])
  {
    assert (slots + [x])[..|slots|] == slots;
  }

  /**
   * The parents remainder selection returns: the deterministic copies, then
   * the roulette hits packed behind them, then null slots for the draws that
   * reached no section. More copies than count overflow the array.
   */
  function RemainderParents(scaled: seq<ScaledFitness>, count: int, draws: seq<real>)
    : (r: Outcome<seq<Option<Individual>>>)
    ensures r.Ok? ==> |r.value| == count
  {
    if count < 0 then Thrown(NegativeArraySize)
    else
      var fixed := FloorCopies(scaled);
      if |fixed| > count then Thrown(IndexOutOfBounds)
      else
        var landed := Landed(RemainderSlots(scaled, draws, count - |fixed|));
        Ok(Padded(fixed + landed, count))
  }

  /** One draw of the roulette phase: the wheel over the fractional parts, spun with draw i. */
  method SpinFractions(scaled: seq<ScaledFitness>, fractions: seq<real>, rouletteArea: real, draws: seq<real>, i: nat)
    returns (slot: Option<Individual>)
    requires fractions == Fractions(ScaledValues(scaled)) && rouletteArea == FractionalArea(scaled)
    ensures slot == FractionSlot(scaled, WheelDraw(draws, i, FractionalArea(scaled)))
  {
    var roulette := WheelDraw(draws, i, rouletteArea);
    var c := Spin(fractions, roulette);
    if c.Some? {
      return Some(scaled[c.value - 1].individual);
    }
    return None;
  }

  /**
   * Remainder selection fails only for a negative count, or when the
   * deterministic copies alone overflow the array.
   */
  lemma {:induction false} RemainderThrows(scaled: seq<ScaledFitness>, count: int, draws: seq<real>)
    ensures RemainderParents(scaled, count, draws).Thrown?
        <==> count < 0 || |FloorCopies(scaled)| > count
    ensures RemainderParents(scaled, count, draws).Thrown? ==>
        RemainderParents(scaled, count, draws).ex == (if count < 0 then NegativeArraySize else IndexOutOfBounds)
  {
  }

  /** Remainder.selectParents. */
  method RemainderSelect(scaled: seq<ScaledFitness>, count: int, draws: seq<real>)
    returns (r: Outcome<seq<Option<Individual>>>)
    ensures r == RemainderParents(scaled, count, draws)
  {
    if count < 0 {
      return Thrown(NegativeArraySize);
    }
    var overflow, written, rouletteArea := CopyPhase(scaled, count);
    if overflow {
      RemainderThrows(scaled, count, draws);
      return Thrown(IndexOutOfBounds);
    }
    var landed := RoulettePhase(scaled, rouletteArea, count - |written|, draws);
    return Ok(Padded(written + landed, count));
  }

  /** The first loop of Remainder.selectParents: the copies of the integer parts, and the fractional area. */
  method CopyPhase(scaled: seq<ScaledFitness>, count: nat)
    returns (overflow: bool, written: seq<Individual>, rouletteArea: real)
    ensures overflow <==> |FloorCopies(scaled)| > count
    ensures !overflow ==> written == FloorCopies(scaled) && rouletteArea == FractionalArea(scaled)
  {
    var fractions := Fractions(ScaledValues(scaled));
    written := [];
    rouletteArea := 0.0;
    for j := 0 to |scaled|
      invariant written == FloorCopies(scaled[..j]) && |written| <= count
      invariant rouletteArea == Upto(fractions, j)
    {
      var item := scaled[j];
      FloorCopiesStep(scaled, j);
      var full;
      full, written := CopyItem(item, written, count);
      if full {
        FloorCopiesGrow(scaled, j + 1, count);
        return true, written, rouletteArea;
      }
      UptoStep(fractions, j);
      rouletteArea := rouletteArea + (item.scaledFitness - DoubleToInt(item.scaledFitness) as real);
    }
    assert scaled[..|scaled|] == scaled;
    UptoEnds(fractions);
    overflow := false;
  }

  /**
   * The copy loop of Remainder.selectParents for one individual: as many
   * copies as its (int) cast, unless the parent array fills up first.
   */
  method CopyItem(item: ScaledFitness, written: seq<Individual>, count: nat)
    returns (full: bool, written': seq<Individual>)
    requires |written| <= count
    ensures full <==> |written| + Copies(item.scaledFitness) > count
    ensures !full ==> written' == written + Repeat(item.individual, Copies(item.scaledFitness))
  {
    var intPart := DoubleToInt(item.scaledFitness);
    written' := written;
    var t := 0;
    while t < intPart
      invariant 0 <= t <= Copies(item.scaledFitness)
      invariant written' == written + Repeat(item.individual, t) && |written'| <= count
    {
      if |written'| == count {
        return true, written';
      }
      written' := written' + [item.individual];
      t := t + 1;
    }
    full := false;
  }

  /** One more individual of the line adds its copies at the end. */
  lemma {:induction false} FloorCopiesStep(scaled: seq<ScaledFitness>, j: nat)
    requires j < |scaled|
    ensures FloorCopies(scaled[..j + 1])
            == FloorCopies(scaled[..j]) + Repeat(scaled[j].individual, Copies(scaled[j].scaledFitness))
  {
    assert scaled[..j + 1][..j] == scaled[..j];
  }

  /** Copies only accumulate: once a prefix needs more than count slots, the whole line does. */
  lemma {:induction false} FloorCopiesGrow(scaled: seq<ScaledFitness>, j: nat, count: nat)
    requires j <= |scaled| && |FloorCopies(scaled[..j])| > count
    ensures |FloorCopies(scaled)| > count
  {
    FloorCopiesConcat(scaled[..j], scaled[j..]);
    assert scaled[..j] + scaled[j..] == scaled;
  }

  /**
   * The second loop of Remainder.selectParents: roulette over the fractional
   * parts, writing each hit at the next free slot behind the copies.
   */
  method RoulettePhase(scaled: seq<ScaledFitness>, rouletteArea: real, parentsNeeded: nat, draws: seq<real>)
    returns (landed: seq<Individual>)
    requires rouletteArea == FractionalArea(scaled)
    ensures landed == Landed(RemainderSlots(scaled, draws, parentsNeeded))
  {
    var fractions := Fractions(ScaledValues(scaled));
    landed := [];
    for i := 0 to parentsNeeded
      invariant landed == Landed(RemainderSlots(scaled, draws, i))
    {
      var slot := SpinFractions(scaled, fractions, rouletteArea, draws, i);
      LandedAppend(RemainderSlots(scaled, draws, i), slot);
      if slot.Some? {
        landed := landed + [slot.value];
      }
    }
  }

  /**
   * When the scaled values are non-negative and sum to count, the copies fit
   * and every roulette draw lands, so no slot is null.
   */
  lemma {:induction false} RemainderNoNull(scaled: seq<ScaledFitness>, count: int, draws: seq<real>)
    requires NonNegative(ScaledValues(scaled)) && Sum(ScaledValues(scaled)) == count as real
    ensures RemainderParents(scaled, count, draws).Ok?
    ensures forall k :: 0 <= k < count ==> RemainderParents(scaled, count, draws).value[k].Some?
  {
    FloorAndFraction(scaled);
    var n := count - |FloorCopies(scaled)|;
    RemainderSlotsLand(scaled, draws, n, n);
  }

  /** A draw within a positive fractional area lands on some section. */
  lemma {:induction false} FractionSlotLands(scaled: seq<ScaledFitness>, x: real)
    requires 0.0 < FractionalArea(scaled) && x <= FractionalArea(scaled)
    ensures FractionSlot(scaled, x).Some?
  {
    var fractions := Fractions(ScaledValues(scaled));
    UptoEnds(fractions);
    assert |fractions| >= 1;
    assert FirstReach(fractions, 1, x).Some?;
  }

  /** When the fractional area is the number of draws, every draw of the roulette phase lands. */
  lemma {:induction false} RemainderSlotsLand(scaled: seq<ScaledFitness>, draws: seq<real>, n: nat, m: nat)
    requires FractionalArea(scaled) == n as real && m <= n
    ensures |Landed(RemainderSlots(scaled, draws, m))| == m
    decreases m
  {
    if m > 0 {
      var x := WheelDraw(draws, m - 1, n as real);
      FractionSlotLands(scaled, x);
      LandedAppend(RemainderSlots(scaled, draws, m - 1), FractionSlot(scaled, x));
      RemainderSlotsLand(scaled, draws, n, m - 1);
    }
  }

  // -------------------------------------------------------------- tournament

  /**
   * The candidates one tournament round draws: each draw takes a position of
   * what is left and removes it, so no position is drawn twice.
   */
  function Draw(pool: seq<ScaledFitness>, draws: seq<int>, offset: nat, size: nat): (drawn: seq<ScaledFitness>)
    ensures |drawn| == if size <= |pool| then size else |pool|
    decreases size
  {
    if size == 0 || |pool| == 0 then []
    else
      var k := NextInt(IntAt(draws, offset), |pool|).value;
      [pool[k]] + Draw(Without(pool, k), draws, offset + 1, size - 1)
  }

  /** The pool with position k taken out, as List.remove(int) leaves it. */
  function Without(pool: seq<ScaledFitness>, k: nat): (rest: seq<ScaledFitness>)
    requires k < |pool|
    ensures |rest| == |pool| - 1
    decreases k
  {
    if k == 0 then pool[1..] else [pool[0]] + Without(pool[1..], k - 1)
  }

  /** Taking out position k keeps the positions before it and closes the gap after it. */
  lemma {:induction false} WithoutIs(pool: seq<ScaledFitness>, k: nat)
    requires k < |pool|
    ensures Without(pool, k) == pool[..k] + pool[k + 1..]
    decreases k
  {
    if k > 0 {
      WithoutIs(pool[1..], k - 1);
      assert pool[1..][..k - 1] == pool[1..k];
      assert pool[1..][k..] == pool[k + 1..];
      assert [pool[0]] + pool[1..k] == pool[..k];
    }
  }

  /** What is still in the pool after a round's draws. */
  function Leftover(pool: seq<ScaledFitness>, draws: seq<int>, offset: nat, size: nat): (left: seq<ScaledFitness>)
    ensures |left| == if size <= |pool| then |pool| - size else 0
    decreases size
  {
    if size == 0 || |pool| == 0 then pool
    else
      var k := NextInt(IntAt(draws, offset), |pool|).value;
      Leftover(Without(pool, k), draws, offset + 1, size - 1)
  }

  /** Taking out position k leaves the rest of the pool. */
  lemma {:induction false} RemoveAt(pool: seq<ScaledFitness>, k: int)
    requires 0 <= k < |pool|
    ensures multiset(pool) == multiset{pool[k]} + multiset(Without(pool, k))
  {
    WithoutIs(pool, k);
    assert pool == pool[..k] + [pool[k]] + pool[k + 1..];
  }

  /** A round that draws position k first. */
  lemma {:induction false} DrawFirst(pool: seq<ScaledFitness>, draws: seq<int>, offset: nat, size: nat)
    requires size > 0 && |pool| > 0
    ensures var k := NextInt(IntAt(draws, offset), |pool|).value;
      multiset(Draw(pool, draws, offset, size))
      == multiset{pool[k]} + multiset(Draw(Without(pool, k), draws, offset + 1, size - 1))
  {
    var k := NextInt(IntAt(draws, offset), |pool|).value;
    var d := Draw(Without(pool, k), draws, offset + 1, size - 1);
    assert Draw(pool, draws, offset, size) == [pool[k]] + d;
    assert multiset([pool[k]] + d) == multiset{pool[k]} + multiset(d);
  }

  /** A round splits the pool: every position is either drawn, exactly once, or left over. */
  predicate Splits(pool: seq<ScaledFitness>, draws: seq<int>, offset: nat, size: nat)
  {
    multiset(Draw(pool, draws, offset, size)) + multiset(Leftover(pool, draws, offset, size)) == multiset(pool)
  }

  /** Every round splits its pool. */
  lemma {:induction false} DrawPartition(pool: seq<ScaledFitness>, draws: seq<int>, offset: nat, size: nat)
    ensures Splits(pool, draws, offset, size)
    decreases size
  {
    if size > 0 && |pool| > 0 {
      var rest := Without(pool, NextInt(IntAt(draws, offset), |pool|).value);
      DrawPartition(rest, draws, offset + 1, size - 1);
      DrawPartitionStep(pool, draws, offset, size, rest);
    }
  }

  /** If the rest of a round splits what is left, the whole round splits the pool. */
  lemma {:induction false} DrawPartitionStep(pool: seq<ScaledFitness>, draws: seq<int>, offset: nat, size: nat,
                                             rest: seq<ScaledFitness>)
    requires size > 0 && |pool| > 0
    requires rest == Without(pool, NextInt(IntAt(draws, offset), |pool|).value)
    requires Splits(rest, draws, offset + 1, size - 1)
    ensures Splits(pool, draws, offset, size)
  {
    var k := NextInt(IntAt(draws, offset), |pool|).value;
    DrawFirst(pool, draws, offset, size);
    RemoveAt(pool, k);
  }

  /** A round only draws what the pool holds, each position at most once. */
  lemma {:induction false} DrawWithoutReplacement(pool: seq<ScaledFitness>, draws: seq<int>, offset: nat, size: nat)
    ensures multiset(Draw(pool, draws, offset, size)) <= multiset(pool)
  {
    DrawPartition(pool, draws, offset, size);
  }

  /** A round as large as the pool draws all of it. */
  lemma {:induction false} DrawAll(pool: seq<ScaledFitness>, draws: seq<int>, offset: nat, size: nat)
    requires size >= |pool|
    ensures multiset(Draw(pool, draws, offset, size)) == multiset(pool)
  {
    DrawPartition(pool, draws, offset, size);
    assert Leftover(pool, draws, offset, size) == [];
  }

  /** One draw of a round: the candidate at the drawn position, then the rest of the round from what is left. */
  lemma {:induction false} DrawStep(pool: seq<ScaledFitness>, draws: seq<int>, offset: nat, size: nat,
                                    before: seq<ScaledFitness>, whole: seq<ScaledFitness>,
                                    c: ScaledFitness, rest: seq<ScaledFitness>)
    requires size > 0 && |pool| > 0
    requires var k := NextInt(IntAt(draws, offset), |pool|).value;
      c == pool[k] && rest == Without(pool, k)
    requires before + Draw(pool, draws, offset, size) == whole
    ensures (before + [c]) + Draw(rest, draws, offset + 1, size - 1) == whole
  {
    assert Draw(pool, draws, offset, size) == [c] + Draw(rest, draws, offset + 1, size - 1);
  }

  /** m is the winner: nobody beats it, and everybody before it is strictly worse. */
  predicate IsWinner(drawn: seq<ScaledFitness>, m: int)
  {
    && 0 <= m < |drawn|
    && (forall k :: 0 <= k < |drawn| ==> drawn[k].scaledFitness <= drawn[m].scaledFitness)
    && (forall k :: 0 <= k < m ==> drawn[k].scaledFitness < drawn[m].scaledFitness)
  }

  /** The candidate a round keeps: a later one replaces it only with a strictly larger scaled value. */
  function Best(drawn: seq<ScaledFitness>): (m: nat)
    requires |drawn| > 0
    ensures m < |drawn|
  {
    if |drawn| == 1 then 0
    else
      var b := Best(drawn[..|drawn| - 1]);
      if drawn[b].scaledFitness < drawn[|drawn| - 1].scaledFitness then |drawn| - 1 else b
  }

  /** The candidate a round keeps is the winner. */
  lemma {:induction false} BestIsWinner(drawn: seq<ScaledFitness>)
    requires |drawn| > 0
    ensures IsWinner(drawn, Best(drawn))
  {
    if |drawn| > 1 {
      var front := drawn[..|drawn| - 1];
      BestIsWinner(front);
      assert forall k :: 0 <= k < |front| ==> front[k] == drawn[k];
    }
  }

  /** A later candidate takes over only with a strictly larger scaled value. */
  lemma {:induction false} BestAppend(drawn: seq<ScaledFitness>, x: ScaledFitness)
    requires |drawn| > 0
    ensures Best(drawn + [x]) == if drawn[Best(drawn)].scaledFitness < x.scaledFitness then |drawn| else Best(drawn)
  {
    assert (drawn + [x])[..|drawn|] == drawn;
  }

  /** There is only one winner. */
  lemma {:induction false} WinnerUnique(drawn: seq<ScaledFitness>, m: int)
    requires IsWinner(drawn, m)
    ensures m == Best(drawn)
  {
    BestIsWinner(drawn);
  }

  /** A round's size after the clamp to the population length. */
  function Clamped(size: nat, length: nat): (c: nat)
    ensures c <= length && c <= size && (c == size || c == length)
  {
    if size > length then length else size
  }

  /**
   * The rest of a round as the inner loop of Tournament.selectParents plays
   * it: left more draws, each taking a position of what is still in the pool
   * and removing it; the drawn candidate replaces the kept one when nothing
   * is kept yet or when its scaled value is strictly larger.
   */
  function RoundFrom(pool: seq<ScaledFitness>, draws: seq<int>, offset: nat, left: nat, mostFit: Option<ScaledFitness>)
    : (r: Option<ScaledFitness>)
    ensures r.None? <==> mostFit.None? && (left == 0 || |pool| == 0)
    decreases left
  {
    if left == 0 || |pool| == 0 then mostFit
    else
      var k := NextInt(IntAt(draws, offset), |pool|).value;
      var onTheHotSeat := pool[k];
      RoundFrom(Without(pool, k), draws, offset + 1, left - 1,
                if mostFit.None? || mostFit.value.scaledFitness < onTheHotSeat.scaledFitness then Some(onTheHotSeat)
                else mostFit)
  }

  /** The individual a round of size draws, reading from offset, keeps. */
  function RoundWinner(scaled: seq<ScaledFitness>, draws: seq<int>, offset: nat, size: nat): Individual
    requires 0 < size <= |scaled|
  {
    RoundFrom(scaled, draws, offset, size, None).value.individual
  }

  /** What a round keeps is the winner of the candidates it draws. */
  lemma {:induction false} RoundFromKeepsWinner(pool: seq<ScaledFitness>, draws: seq<int>, offset: nat, left: nat,
                                                before: seq<ScaledFitness>, mostFit: Option<ScaledFitness>)
    requires mostFit == if before == [] then None else Some(before[Best(before)])
    ensures var d := before + Draw(pool, draws, offset, left);
      RoundFrom(pool, draws, offset, left, mostFit) == if d == [] then None else Some(d[Best(d)])
    decreases left
  {
    if left == 0 || |pool| == 0 {
      assert before + Draw(pool, draws, offset, left) == before;
    } else {
      var k := NextInt(IntAt(draws, offset), |pool|).value;
      var c := pool[k];
      var rest := Without(pool, k);
      var next := if mostFit.None? || mostFit.value.scaledFitness < c.scaledFitness then Some(c) else mostFit;
      assert before + Draw(pool, draws, offset, left) == (before + [c]) + Draw(rest, draws, offset + 1, left - 1);
      if before == [] {
        assert before + [c] == [c];
      } else {
        BestAppend(before, c);
      }
      RoundFromKeepsWinner(rest, draws, offset + 1, left - 1, before + [c], next);
    }
  }

  /** A round keeps the winner of the candidates it draws, and nothing when it draws nobody. */
  lemma {:induction false} RoundKeepsWinner(scaled: seq<ScaledFitness>, draws: seq<int>, offset: nat, size: nat)
    ensures var drawn := Draw(scaled, draws, offset, size);
      RoundFrom(scaled, draws, offset, size, None) == if drawn == [] then None else Some(drawn[Best(drawn)])
  {
    RoundFromKeepsWinner(scaled, draws, offset, size, [], None);
    assert [] + Draw(scaled, draws, offset, size) == Draw(scaled, draws, offset, size);
  }

  /** A round's winner is a member of the population. */
  lemma {:induction false} RoundWinnerIsMember(scaled: seq<ScaledFitness>, draws: seq<int>, offset: nat, size: nat)
    requires 0 < size <= |scaled|
    ensures RoundWinner(scaled, draws, offset, size) in Members(scaled)
  {
    var drawn := Draw(scaled, draws, offset, size);
    RoundKeepsWinner(scaled, draws, offset, size);
    DrawWithoutReplacement(scaled, draws, offset, size);
    assert drawn[Best(drawn)] in multiset(drawn);
    var p :| 0 <= p < |scaled| && scaled[p] == drawn[Best(drawn)];
    assert Members(scaled)[p] == RoundWinner(scaled, draws, offset, size);
  }

  /** The winners of the rounds played so far, and where the next round reads its first draw. */
  datatype Rounds = Rounds(parents: seq<Individual>, cursor: nat)

  /** n rounds played one after another, each reading the size draws after those of the rounds before it. */
  function PlayedRounds(scaled: seq<ScaledFitness>, draws: seq<int>, size: nat, n: nat): (r: Rounds)
    requires 0 < size <= |scaled|
    ensures |r.parents| == n
    decreases n
  {
    if n == 0 then Rounds([], 0)
    else
      var before := PlayedRounds(scaled, draws, size, n - 1);
      Rounds(before.parents + [RoundWinner(scaled, draws, before.cursor, size)], before.cursor + size)
  }

  /** Every round's winner is a member of the population. */
  lemma {:induction false} WinnersAreMembers(scaled: seq<ScaledFitness>, draws: seq<int>, size: nat, n: nat)
    requires 0 < size <= |scaled|
    ensures forall i :: 0 <= i < n ==> PlayedRounds(scaled, draws, size, n).parents[i] in Members(scaled)
    decreases n
  {
    if n > 0 {
      var before := PlayedRounds(scaled, draws, size, n - 1);
      RoundWinnerIsMember(scaled, draws, before.cursor, size);
      WinnersAreMembers(scaled, draws, size, n - 1);
    }
  }

  /** Tournament selection only ever returns members of the population. */
  lemma {:induction false} TournamentParentsAreMembers(scaled: seq<ScaledFitness>, count: int, draws: seq<int>, size: nat)
    requires size <= |scaled|
    ensures var r := TournamentParents(scaled, count, draws, size);
      r.Ok? ==> forall i :: 0 <= i < |r.value| ==> r.value[i] in Members(scaled)
  {
    if count > 0 && size > 0 {
      WinnersAreMembers(scaled, draws, size, count);
    }
  }

  /**
   * The parents tournament selection picks with rounds of size draws each.
   * A round with no candidate leaves no winner, and the source dereferences
   * null.
   */
  function TournamentParents(scaled: seq<ScaledFitness>, count: int, draws: seq<int>, size: nat)
    : (r: Outcome<seq<Individual>>)
    requires size <= |scaled|
    ensures r.Thrown? <==> count < 0 || (count > 0 && size == 0)
    ensures r.Ok? ==> |r.value| == count
  {
    if count < 0 then Thrown(NegativeArraySize)
    else if count == 0 then Ok([])
    else if size == 0 then Thrown(NullPointer)
    else Ok(PlayedRounds(scaled, draws, size, count).parents)
  }

  class Tournament {
    /** How many candidates a round draws; at least 2 when constructed, then clamped to a population length. */
    var tournamentSize: nat

    constructor (tournamentSize: nat)
      requires tournamentSize >= 2
      ensures this.tournamentSize == tournamentSize
    {
      this.tournamentSize := tournamentSize;
    }

    /** new Tournament(size): sizes below 2 are refused. */
    static method Create(tournamentSize: int) returns (r: Outcome<Tournament>)
      ensures r.Thrown? <==> tournamentSize < 2
      ensures r.Thrown? ==> r.ex == IllegalArgument
      ensures r.Ok? ==> fresh(r.value) && r.value.tournamentSize == tournamentSize
    {
      if tournamentSize < 2 {
        return Thrown(IllegalArgument);
      }
      var t := new Tournament(tournamentSize);
      return Ok(t);
    }

    /** One round of selectParents: draw tournamentSize candidates from a fresh copy of the population and keep the best. */
    static method PlayRound(scaled: seq<ScaledFitness>, draws: seq<int>, offset: nat, tournamentSize: nat)
      returns (mostFit: Option<ScaledFitness>)
      requires tournamentSize <= |scaled|
      ensures mostFit == RoundFrom(scaled, draws, offset, tournamentSize, None)
    {
      var nominationCandidates := scaled;
      mostFit := None;
      var cursor, left := offset, tournamentSize;
      for j := 0 to tournamentSize
        invariant cursor == offset + j && left == tournamentSize - j
        invariant |nominationCandidates| == |scaled| - j
        invariant RoundFrom(nominationCandidates, draws, cursor, left, mostFit)
                  == RoundFrom(scaled, draws, offset, tournamentSize, None)
      {
        var onTheHotSeat;
        nominationCandidates, mostFit, onTheHotSeat := Nominate(nominationCandidates, draws, cursor, mostFit);
        cursor, left := cursor + 1, left - 1;
      }
    }

    /**
     * One draw of a round: take the drawn position out of the pool; the
     * candidate there is kept when nothing is kept yet or when its scaled
     * value is strictly larger.
     */
    static method Nominate(pool: seq<ScaledFitness>, draws: seq<int>, cursor: nat, mostFit: Option<ScaledFitness>)
      returns (rest: seq<ScaledFitness>, kept: Option<ScaledFitness>, onTheHotSeat: ScaledFitness)
      requires |pool| > 0
      ensures var k := NextInt(IntAt(draws, cursor), |pool|).value;
        onTheHotSeat == pool[k] && rest == Without(pool, k) && |rest| == |pool| - 1
      ensures kept.Some?
      ensures kept.value.scaledFitness >= onTheHotSeat.scaledFitness
      ensures mostFit.Some? ==> kept.value.scaledFitness >= mostFit.value.scaledFitness
      ensures kept == if mostFit.None? || mostFit.value.scaledFitness < onTheHotSeat.scaledFitness then Some(onTheHotSeat) else mostFit
    {
      var k := NextInt(IntAt(draws, cursor), |pool|).value;
      onTheHotSeat := pool[k];
      rest := pool[..k] + pool[k + 1..];
      WithoutIs(pool, k);
      kept := mostFit;
      if kept.None? {
        kept := Some(onTheHotSeat);
      } else if kept.value.scaledFitness < onTheHotSeat.scaledFitness {
        kept := Some(onTheHotSeat);
      }
    }

    /** One draw of selectParentsUnitTest's round, which also appends the drawn candidate to the record. */
    static method RecordDraw(pool: seq<ScaledFitness>, draws: seq<int>, cursor: nat, left: nat,
                             mostFit: Option<ScaledFitness>, drawn: seq<ScaledFitness>,
                             ghost whole: seq<ScaledFitness>, ghost winner: Option<ScaledFitness>)
      returns (rest: seq<ScaledFitness>, kept: Option<ScaledFitness>, recorded: seq<ScaledFitness>)
      requires left > 0 && |pool| > 0
      requires drawn + Draw(pool, draws, cursor, left) == whole
      requires RoundFrom(pool, draws, cursor, left, mostFit) == winner
      ensures |rest| == |pool| - 1
      ensures recorded + Draw(rest, draws, cursor + 1, left - 1) == whole
      ensures RoundFrom(rest, draws, cursor + 1, left - 1, kept) == winner
    {
      var onTheHotSeat;
      rest, kept, onTheHotSeat := Nominate(pool, draws, cursor, mostFit);
      DrawStep(pool, draws, cursor, left, drawn, whole, onTheHotSeat, rest);
      recorded := drawn + [onTheHotSeat];
    }

    /** The round of selectParentsUnitTest, which also records every drawn candidate. */
    static method PlayRecordedRound(scaled: seq<ScaledFitness>, draws: seq<int>, offset: nat, tournamentSize: nat)
      returns (mostFit: Option<ScaledFitness>, drawn: seq<ScaledFitness>)
      requires tournamentSize <= |scaled|
      ensures drawn == Draw(scaled, draws, offset, tournamentSize)
      ensures mostFit == RoundFrom(scaled, draws, offset, tournamentSize, None)
    {
      var nominationCandidates := scaled;
      mostFit := None;
      drawn := [];
      var cursor, left := offset, tournamentSize;
      for j := 0 to tournamentSize
        invariant cursor == offset + j && left == tournamentSize - j
        invariant |nominationCandidates| == |scaled| - j
        invariant drawn + Draw(nominationCandidates, draws, cursor, left) == Draw(scaled, draws, offset, tournamentSize)
        invariant RoundFrom(nominationCandidates, draws, cursor, left, mostFit)
                  == RoundFrom(scaled, draws, offset, tournamentSize, None)
      {
        nominationCandidates, mostFit, drawn :=
          RecordDraw(nominationCandidates, draws, cursor, left, mostFit, drawn,
                     Draw(scaled, draws, offset, tournamentSize), RoundFrom(scaled, draws, offset, tournamentSize, None));
        cursor, left := cursor + 1, left - 1;
      }
      assert Draw(nominationCandidates, draws, cursor, 0) == [];
    }

    /**
     * Tournament.selectParents. The clamp of the round size to the
     * population length is written back to the field and outlives the call.
     */
    method SelectParents(scaled: seq<ScaledFitness>, count: int, draws: seq<int>)
      returns (r: Outcome<seq<Individual>>)
      modifies this
      ensures count < 0 ==> tournamentSize == old(tournamentSize)
      ensures count >= 0 ==> tournamentSize == Clamped(old(tournamentSize), |scaled|)
      ensures r == TournamentParents(scaled, count, draws, Clamped(old(tournamentSize), |scaled|))
    {
      if count < 0 {
        return Thrown(NegativeArraySize);
      }
      if tournamentSize > |scaled| {
        tournamentSize := |scaled|;
      }
      r := PlayRounds(scaled, count, draws, tournamentSize);
    }

    /** The loop of selectParents: count rounds, each drawing size candidates and keeping the best. */
    static method PlayRounds(scaled: seq<ScaledFitness>, count: nat, draws: seq<int>, size: nat)
      returns (r: Outcome<seq<Individual>>)
      requires size <= |scaled|
      ensures r == TournamentParents(scaled, count, draws, size)
    {
      var selected: seq<Individual> := [];
      var cursor: nat := 0;
      for i := 0 to count
        invariant size == 0 ==> i == 0 && selected == []
        invariant size > 0 ==> selected == PlayedRounds(scaled, draws, size, i).parents
        invariant size > 0 ==> cursor == PlayedRounds(scaled, draws, size, i).cursor
      {
        var mostFit := PlayRound(scaled, draws, cursor, size);
        if mostFit.None? {
          return Thrown(NullPointer);
        }
        selected := selected + [mostFit.value.individual];
        cursor := cursor + size;
      }
      return Ok(selected);
    }

    /**
     * Tournament.selectParentsUnitTest: one round, returning the drawn
     * candidates followed by the winner (null when nobody was drawn).
     */
    method SelectParentsUnitTest(scaled: seq<ScaledFitness>, draws: seq<int>)
      returns (r: seq<Option<ScaledFitness>>)
      modifies this
      ensures tournamentSize == Clamped(old(tournamentSize), |scaled|)
      ensures |r| == tournamentSize + 1
      ensures r[..tournamentSize] == Present(Draw(scaled, draws, 0, tournamentSize))
      ensures r[tournamentSize].None? <==> tournamentSize == 0
      ensures forall k :: 0 <= k < tournamentSize ==>
                (r[k].Some? && r[tournamentSize].Some? &&
                 r[k].value.scaledFitness <= r[tournamentSize].value.scaledFitness)
    {
      if tournamentSize > |scaled| {
        tournamentSize := |scaled|;
      }
      var mostFit, drawn := PlayRecordedRound(scaled, draws, 0, tournamentSize);
      RoundKeepsWinner(scaled, draws, 0, tournamentSize);
      if tournamentSize > 0 {
        BestIsWinner(drawn);
      }
      r := Present(drawn) + [mostFit];
      assert r[..tournamentSize] == Present(drawn);
    }
  }

  /** A round that draws the whole population picks its unique best member. */
  lemma {:induction false} FullTournamentPicksBest(scaled: seq<ScaledFitness>, draws: seq<int>, offset: nat, m: int)
    requires 0 <= m < |scaled|
    requires forall k :: 0 <= k < |scaled| && k != m ==> scaled[k].scaledFitness < scaled[m].scaledFitness
    ensures var drawn := Draw(scaled, draws, offset, |scaled|); drawn[Best(drawn)] == scaled[m]
  {
    var drawn := Draw(scaled, draws, offset, |scaled|);
    DrawAll(scaled, draws, offset, |scaled|);
    assert scaled[m] in multiset(drawn);
    var p :| 0 <= p < |drawn| && drawn[p] == scaled[m];
    var w := Best(drawn);
    BestIsWinner(drawn);
    assert drawn[w] in multiset(drawn);
    assert drawn[w] in multiset(scaled);
    var q :| 0 <= q < |scaled| && scaled[q] == drawn[w];
    assert drawn[p].scaledFitness <= drawn[w].scaledFitness;
  }
}

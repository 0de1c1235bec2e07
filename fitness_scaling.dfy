/**
 * Fitness scaling: turning the fitness of a population (sorted, lower is
 * better) into scaled fitness values (higher is better) that are meant to sum
 * to the number of parents the next generation needs.
 */
module FitnessScaling {
  import opened JavaLang
  import opened Sums
  import opened Individuals

  /** An individual bundled with its scaled fitness. */
  datatype ScaledFitness = ScaledFitness(scaledFitness: real, individual: Individual)

  function ScaledValues(s: seq<ScaledFitness>): (r: seq<real>)
    ensures |r| == |s|
    ensures forall i :: 0 <= i < |s| ==> r[i] == s[i].scaledFitness
  {
    seq(|s|, i requires 0 <= i < |s| => s[i].scaledFitness)
  }

  function Members(s: seq<ScaledFitness>): (r: seq<Individual>)
    ensures |r| == |s|
    ensures forall i :: 0 <= i < |s| ==> r[i] == s[i].individual
  {
    seq(|s|, i requires 0 <= i < |s| => s[i].individual)
  }

  function Fitnesses(population: seq<Individual>): (r: seq<real>)
    ensures |r| == |population|
    ensures forall i :: 0 <= i < |population| ==> r[i] == population[i].CalculateFitness()
  {
    seq(|population|, i requires 0 <= i < |population| => population[i].CalculateFitness())
  }

  // ------------------------------------------------------------ rank scaling

  /**
   * The stand-in for 1 / Math.sqrt(rank): any weight that is positive and
   * never increases from rank 1 on, and strictly decreases over the ranks an
   * int can hold. Only these facts are used.
   */
  ghost predicate IsRankWeight(weight: nat -> real)
  {
    forall a: nat, b: nat {:trigger RankPair(a, b)} :: RankPair(a, b) ==>
      0.0 < weight(b) <= weight(a) && (a < b <= INT_MAX ==> weight(b) < weight(a))
  }

  /** Two ranks in order. */
  predicate RankPair(a: nat, b: nat) { 1 <= a <= b }

  type RankWeight = weight: nat -> real | IsRankWeight(weight)
    witness (r: nat) => if r <= INT_MAX then (INT_MAX + 1 - r) as real else 1.0

  lemma {:induction false} WeightPositive(weight: RankWeight, rank: nat)
    requires rank >= 1
    ensures weight(rank) > 0.0
  {
    assert RankPair(rank, rank);
  }

  /** A worse rank never weighs more; within the int range it weighs strictly less. */
  lemma {:induction false} WeightOrder(weight: RankWeight, a: nat, b: nat)
    requires 1 <= a <= b
    ensures weight(b) <= weight(a)
    ensures b <= INT_MAX && a < b ==> weight(b) < weight(a)
  {
    assert RankPair(a, b);
  }

  /**
   * The rank of element i: i + 1, unless its fitness equals that of element
   * i - 1, whose rank it then shares.
   */
  function RankAt(fits: seq<real>, i: nat): (rank: nat)
    requires i < |fits|
    ensures 1 <= rank <= i + 1
    decreases i
  {
    if i == 0 then 1 else if fits[i] != fits[i - 1] then i + 1 else RankAt(fits, i - 1)
  }

  function RankWeights(fits: seq<real>, weight: RankWeight): (r: seq<real>)
    ensures |r| == |fits|
    ensures forall i {:trigger r[i]} :: 0 <= i < |fits| ==> r[i] == weight(RankAt(fits, i))
  {
    seq(|fits|, i requires 0 <= i < |fits| => weight(RankAt(fits, i)))
  }

  lemma {:induction false} WeightsPositive(fits: seq<real>, weight: RankWeight)
    ensures forall i :: 0 <= i < |fits| ==> RankWeights(fits, weight)[i] > 0.0
  {
    forall i | 0 <= i < |fits|
      ensures RankWeights(fits, weight)[i] > 0.0
    {
      WeightPositive(weight, RankAt(fits, i));
    }
  }

  lemma {:induction false} WeightSumPositive(s: seq<real>)
    requires forall i :: 0 <= i < |s| ==> s[i] > 0.0
    ensures |s| > 0 ==> Sum(s) > 0.0
  {
    if |s| > 1 {
      WeightSumPositive(s[..|s| - 1]);
    }
  }

  /** The sum of the rank weights, which the source calls scaleFactor before inverting it. */
  function WeightTotal(fits: seq<real>, weight: RankWeight): (total: real)
    ensures total == Sum(RankWeights(fits, weight))
    ensures |fits| > 0 ==> total > 0.0
  {
    WeightsPositive(fits, weight);
    WeightSumPositive(RankWeights(fits, weight));
    Sum(RankWeights(fits, weight))
  }

  /** The rank-scaled values: each weight times parentsNeeded / (sum of weights). */
  function RankScaled(fits: seq<real>, parentsNeeded: int, weight: RankWeight): (r: seq<real>)
    ensures |r| == |fits|
  {
    Scale(RankWeights(fits, weight), RankFactor(fits, parentsNeeded, weight))
  }

  /** parentsNeeded divided by the sum of the weights, the source's final scaleFactor. */
  function RankFactor(fits: seq<real>, parentsNeeded: int, weight: RankWeight): real
  {
    if |fits| == 0 then 0.0 else parentsNeeded as real / WeightTotal(fits, weight)
  }

  /** The final loop of scaleFitness: each raw value times the factor, paired with its individual. */
  method ScaleEach(population: seq<Individual>, raw: seq<real>, factor: real) returns (scaled: seq<ScaledFitness>)
    requires |raw| == |population|
    ensures Members(scaled) == population
    ensures ScaledValues(scaled) == Scale(raw, factor)
  {
    scaled := [];
    var i := 0;
    while i < |population|
      invariant 0 <= i <= |population|
      invariant |scaled| == i
      invariant forall k {:trigger scaled[k]} :: 0 <= k < i ==>
                  scaled[k] == ScaledFitness(raw[k] * factor, population[k])
    {
      scaled := scaled + [ScaledFitness(raw[i] * factor, population[i])];
      i := i + 1;
    }
    forall k | 0 <= k < |scaled|
      ensures ScaledValues(scaled)[k] == Scale(raw, factor)[k]
    {
      assert scaled[k].scaledFitness == raw[k] * factor;
    }
  }

  /**
   * The ranking loop of RankScaling.scaleFitness: rank i + 1 whenever the
   * fitness differs from the previous one, the weight of each rank, and their
   * running sum.
   */
  method RawRanks(population: seq<Individual>, weight: RankWeight)
    returns (rawRank: seq<real>, scaleFactor: real)
    requires |population| > 0 ==> population[0].CalculateFitness() != DOUBLE_MAX_VALUE
    ensures rawRank == RankWeights(Fitnesses(population), weight)
    ensures scaleFactor == WeightTotal(Fitnesses(population), weight)
  {
    var fits := Fitnesses(population);
    scaleFactor := 0.0;
    var curRank: nat := 0;
    var lastFitness := DOUBLE_MAX_VALUE;
    rawRank := [];
    for i := 0 to |population|
      invariant RankPass(curRank, lastFitness, rawRank, scaleFactor) == RankPassAfter(fits, weight, i)
    {
      var fitness := population[i].CalculateFitness();
      if fitness != lastFitness {
        curRank := i + 1;
      }
      var raw := weight(curRank);
      rawRank := rawRank + [raw];
      scaleFactor := scaleFactor + raw;
      lastFitness := fitness;
    }
    RankPassMeaning(fits, weight, |fits|);
    assert rawRank == RankWeights(fits, weight);
  }

  /** The variables of the rank loop: current rank, last fitness seen, weights so far and their total. */
  datatype RankPass = RankPass(curRank: nat, lastFitness: real, rawRank: seq<real>, scaleFactor: real)

  /** The rank loop after its first i individuals: a fitness different from the last one starts a new rank. */
  function RankPassAfter(fits: seq<real>, weight: RankWeight, i: nat): (st: RankPass)
    requires i <= |fits|
    ensures |st.rawRank| == i
    decreases i
  {
    if i == 0 then RankPass(0, DOUBLE_MAX_VALUE, [], 0.0)
    else
      var before := RankPassAfter(fits, weight, i - 1);
      var rank := if fits[i - 1] != before.lastFitness then i else before.curRank;
      RankPass(rank, fits[i - 1], before.rawRank + [weight(rank)], before.scaleFactor + weight(rank))
  }

  /**
   * When the first fitness is not Double.MAX_VALUE, the loop hands every
   * individual the weight of its rank and keeps the running total.
   */
  lemma RankPassMeaning(fits: seq<real>, weight: RankWeight, n: nat)
    requires n <= |fits| && (|fits| > 0 ==> fits[0] != DOUBLE_MAX_VALUE)
    ensures forall k :: 0 <= k < n ==> RankPassAfter(fits, weight, n).rawRank[k] == weight(RankAt(fits, k))
    ensures RankPassAfter(fits, weight, n).scaleFactor == Sum(RankPassAfter(fits, weight, n).rawRank)
  {
    RankPassWeights(fits, weight, n);
    RankPassTotal(fits, weight, n);
  }

  /** The loop hands every individual the weight of its rank. */
  lemma {:induction false} RankPassWeights(fits: seq<real>, weight: RankWeight, n: nat)
    requires n <= |fits| && (|fits| > 0 ==> fits[0] != DOUBLE_MAX_VALUE)
    ensures forall k :: 0 <= k < n ==> RankPassAfter(fits, weight, n).rawRank[k] == weight(RankAt(fits, k))
    decreases n
  {
    if n > 0 {
      RankPassWeights(fits, weight, n - 1);
      var before := RankPassAfter(fits, weight, n - 1);
      RankPassRank(fits, weight, n);
      var w := weight(RankAt(fits, n - 1));
      assert RankPassAfter(fits, weight, n).rawRank == before.rawRank + [w];
      RanksOneMore(before.rawRank, fits, weight, w);
    }
  }

  /** The loop's running total is the sum of the weights handed out. */
  lemma {:induction false} RankPassTotal(fits: seq<real>, weight: RankWeight, n: nat)
    requires n <= |fits|
    ensures RankPassAfter(fits, weight, n).scaleFactor == Sum(RankPassAfter(fits, weight, n).rawRank)
    decreases n
  {
    if n > 0 {
      RankPassTotal(fits, weight, n - 1);
      var before := RankPassAfter(fits, weight, n - 1);
      var st := RankPassAfter(fits, weight, n);
      var w := st.rawRank[n - 1];
      assert st.rawRank == before.rawRank + [w] && st.scaleFactor == before.scaleFactor + w;
      SumAppend(before.rawRank, w);
    }
  }

  /** Appending the weight of the next rank keeps every weight at its index. */
  lemma RanksOneMore(raw: seq<real>, fits: seq<real>, weight: RankWeight, w: real)
    requires |raw| < |fits|
    requires forall k {:trigger raw[k]} :: 0 <= k < |raw| ==> raw[k] == weight(RankAt(fits, k))
    requires w == weight(RankAt(fits, |raw|))
    ensures forall k {:trigger (raw + [w])[k]} :: 0 <= k <= |raw| ==> (raw + [w])[k] == weight(RankAt(fits, k))
  {
    forall k | 0 <= k <= |raw|
      ensures (raw + [w])[k] == weight(RankAt(fits, k))
    {
      if k < |raw| {
        assert (raw + [w])[k] == raw[k];
      }
    }
  }

  /** After n individuals the loop holds the rank of the n-th and its fitness. */
  lemma {:induction false} RankPassRank(fits: seq<real>, weight: RankWeight, n: nat)
    requires 0 < n <= |fits| && fits[0] != DOUBLE_MAX_VALUE
    ensures RankPassAfter(fits, weight, n).curRank == RankAt(fits, n - 1)
    ensures RankPassAfter(fits, weight, n).lastFitness == fits[n - 1]
    decreases n
  {
    if n > 1 {
      RankPassRank(fits, weight, n - 1);
    }
  }

  /**
   * RankScaling.scaleFitness. A first fitness equal to Double.MAX_VALUE would
   * leave rank 0, whose weight 1/sqrt(0) is infinite; the model reports that
   * case as Unrepresentable.
   */
  method RankScaleFitness(population: seq<Individual>, parentsNeeded: int, weight: RankWeight)
    returns (r: Outcome<seq<ScaledFitness>>)
    ensures r.Thrown? <==> |population| > 0 && population[0].CalculateFitness() == DOUBLE_MAX_VALUE
    ensures r.Thrown? ==> r.ex == Unrepresentable
    ensures r.Ok? ==> Members(r.value) == population
    ensures r.Ok? ==> ScaledValues(r.value) == RankScaled(Fitnesses(population), parentsNeeded, weight)
  {
    var fits := Fitnesses(population);
    if |population| > 0 && population[0].CalculateFitness() == DOUBLE_MAX_VALUE {
      return Thrown(Unrepresentable);
    }
    var rawRank, scaleFactor := RawRanks(population, weight);
    // With no individuals the source divides by zero, but never uses the factor.
    scaleFactor := RankFactor(fits, parentsNeeded, weight);
    var scaled := ScaleEach(population, rawRank, scaleFactor);
    return Ok(scaled);
  }

  /** Rank scaling hands out exactly parentsNeeded in total. */
  lemma {:induction false} RankScaledSum(fits: seq<real>, parentsNeeded: int, weight: RankWeight)
    requires |fits| > 0
    ensures Sum(RankScaled(fits, parentsNeeded, weight)) == parentsNeeded as real
  {
    var weights, total := RankWeights(fits, weight), WeightTotal(fits, weight);
    assert RankScaled(fits, parentsNeeded, weight) == Scale(weights, parentsNeeded as real / total);
    SumScaleToTarget(weights, parentsNeeded as real);
  }

  /** Ranks never decrease along the population. */
  lemma {:induction false} RankNonDecreasing(fits: seq<real>, i: nat, j: nat)
    requires i <= j < |fits|
    ensures RankAt(fits, i) <= RankAt(fits, j)
    decreases j - i
  {
    if i < j {
      RankNonDecreasing(fits, i, j - 1);
    }
  }

  /**
   * Equal neighbours share their scaled value, and the scaled values never
   * increase along the population (whether or not it is sorted).
   */
  lemma {:induction false} RankScaledShape(fits: seq<real>, parentsNeeded: int, weight: RankWeight, i: nat, j: nat)
    requires parentsNeeded >= 0
    requires i <= j < |fits|
    ensures RankScaled(fits, parentsNeeded, weight)[j] <= RankScaled(fits, parentsNeeded, weight)[i]
    ensures j == i + 1 && fits[i] == fits[j] ==>
              RankScaled(fits, parentsNeeded, weight)[j] == RankScaled(fits, parentsNeeded, weight)[i]
  {
    var weights := RankWeights(fits, weight);
    var ri, rj := RankAt(fits, i), RankAt(fits, j);
    RankNonDecreasing(fits, i, j);
    WeightOrder(weight, ri, rj);
    var factor := RankFactor(fits, parentsNeeded, weight);
    DivNonNegative(parentsNeeded as real, WeightTotal(fits, weight));
    MulMonotone(weights[j], weights[i], factor);
  }

  /** Distinct fitness values get ranks 1, 2, 3; two equal leaders share rank 1 and the third gets rank 3. */
  lemma {:induction false} RankExamples(a: real, b: real, c: real)
    requires a != b && b != c && a != c
    ensures [RankAt([a, b, c], 0), RankAt([a, b, c], 1), RankAt([a, b, c], 2)] == [1, 2, 3]
    ensures [RankAt([a, a, c], 0), RankAt([a, a, c], 1), RankAt([a, a, c], 2)] == [1, 1, 3]
  {
  }

  // ------------------------------------------------------------- top scaling

  type Fraction = p: real | 0.0 <= p <= 1.0

  /** TopScaling keeps the share of the population that may reproduce. */
  datatype TopScaling = TopScaling(topPercentage: Fraction)

  /** The constructor rejects a percentage outside [0, 1]. */
  function NewTopScaling(topPercentage: real): (r: Outcome<TopScaling>)
    ensures r.Ok? <==> 0.0 <= topPercentage <= 1.0
    ensures r.Ok? ==> r.value.topPercentage == topPercentage
    ensures r.Thrown? ==> r.ex == IllegalArgument
  {
    if topPercentage > 1.0 || topPercentage < 0.0 then Thrown(IllegalArgument) else Ok(TopScaling(topPercentage))
  }

  /** The default constructor's percentage. */
  const DEFAULT_TOP_SCALING: TopScaling := TopScaling(0.4)

  /** The number of top individuals: round(n * p), but at least one. */
  function TopCount(n: nat, p: Fraction): (k: int)
    ensures k >= 1
    ensures n > 0 ==> k <= n
    ensures k > 1 ==> k as real - 0.5 <= n as real * p < k as real + 0.5
  {
    MulMonotone(p, 1.0, n as real);
    RoundAtLeastOne(n as real * p, n)
  }

  /** Math.round of a value no larger than bound, raised to at least one. */
  function RoundAtLeastOne(x: real, bound: nat): (k: int)
    requires x <= bound as real
    ensures k >= 1
    ensures bound > 0 ==> k <= bound
    ensures k > 1 ==> k as real - 0.5 <= x < k as real + 0.5
  {
    var rounded := Round(x);
    if rounded > 1 then rounded else 1
  }

  /** The first TopCount individuals share parentsNeeded equally, the rest get 0. */
  function TopScaled(n: nat, t: TopScaling, parentsNeeded: int): (r: seq<real>)
    ensures |r| == n
    ensures forall i {:trigger r[i]} :: 0 <= i < n ==>
              r[i] == if i < TopCount(n, t.topPercentage)
                      then parentsNeeded as real / TopCount(n, t.topPercentage) as real
                      else 0.0
  {
    var top := TopCount(n, t.topPercentage);
    seq(n, i requires 0 <= i < n => if i < top then parentsNeeded as real / top as real else 0.0)
  }

  /** TopScaling.scaleFitness. */
  method TopScaleFitness(t: TopScaling, population: seq<Individual>, parentsNeeded: int)
    returns (scaled: seq<ScaledFitness>)
    ensures Members(scaled) == population
    ensures ScaledValues(scaled) == TopScaled(|population|, t, parentsNeeded)
  {
    var top := TopCount(|population|, t.topPercentage);
    var scaleFactor := parentsNeeded as real / top as real;
    scaled := [];
    var i := 0;
    while i < |population|
      invariant 0 <= i <= |population|
      invariant |scaled| == i
      invariant forall k {:trigger scaled[k]} :: 0 <= k < i ==>
                  scaled[k] == ScaledFitness(if k < top then scaleFactor else 0.0, population[k])
    {
      if i < top {
        scaled := scaled + [ScaledFitness(scaleFactor, population[i])];
      } else {
        scaled := scaled + [ScaledFitness(0.0, population[i])];
      }
      i := i + 1;
    }
    forall k | 0 <= k < |scaled|
      ensures ScaledValues(scaled)[k] == TopScaled(|population|, t, parentsNeeded)[k]
    {
      assert scaled[k].scaledFitness == if k < top then scaleFactor else 0.0;
    }
  }

  /** Top scaling hands out exactly parentsNeeded to a non-empty population. */
  lemma {:induction false} TopScaledSum(n: nat, t: TopScaling, parentsNeeded: int)
    requires n > 0
    ensures Sum(TopScaled(n, t, parentsNeeded)) == parentsNeeded as real
  {
    var s, top := TopScaled(n, t, parentsNeeded), TopCount(n, t.topPercentage);
    var v := parentsNeeded as real / top as real;
    SumLeadingBlock(s, top, v);
    assert top as real * v == parentsNeeded as real;
  }

  // ---------------------------------------------------- proportional scaling

  /**
   * The zero-fitness candidates: a set under equals, so equal individuals
   * count once.
   */
  function ZeroCandidates(population: seq<Individual>): (z: set<Genes>)
    ensures forall i :: 0 <= i < |population| ==>
              (population[i].genes in z <==> population[i].CalculateFitness() == 0.0)
  {
    set i | 0 <= i < |population| && population[i].CalculateFitness() == 0.0 :: population[i].genes
  }

  lemma {:induction false} ZeroCandidatesStep(population: seq<Individual>, i: int)
    requires 0 <= i < |population|
    ensures ZeroCandidates(population[..i + 1])
            == if population[i].CalculateFitness() == 0.0
               then ZeroCandidates(population[..i]) + {population[i].genes}
               else ZeroCandidates(population[..i])
  {
    var p, q := population[..i + 1], population[..i];
    assert forall k :: 0 <= k < i ==> p[k] == q[k];
  }

  predicate HasZero(fits: seq<real>) { exists i :: 0 <= i < |fits| && fits[i] == 0.0 }

  function Reciprocals(fits: seq<real>): (r: seq<real>)
    requires !HasZero(fits)
    ensures |r| == |fits|
    ensures forall i {:trigger r[i]} :: 0 <= i < |fits| ==> r[i] == 1.0 / fits[i]
  {
    seq(|fits|, i requires 0 <= i < |fits| => 1.0 / fits[i])
  }

  /**
   * With no zero fitness and a reciprocal sum of zero (possible only with
   * negative fitness values) the source divides parentsNeeded by zero and
   * goes on with infinite or NaN scaled values.
   */
  predicate ProportionalUnrepresentable(fits: seq<real>)
  {
    |fits| > 0 && !HasZero(fits) && Sum(Reciprocals(fits)) == 0.0
  }

  /** Without a zero fitness each individual gets parentsNeeded / (sum of 1/f) times 1/f. */
  function ProportionalWithoutZero(fits: seq<real>, parentsNeeded: int): (r: seq<real>)
    requires !HasZero(fits) && !ProportionalUnrepresentable(fits)
    ensures |r| == |fits|
  {
    if |fits| == 0 then [] else Scale(Reciprocals(fits), parentsNeeded as real / Sum(Reciprocals(fits)))
  }

  /** With a zero fitness, the zero-fitness individuals get share and all others 0. */
  function ZeroShares(fits: seq<real>, share: real): (r: seq<real>)
    ensures |r| == |fits|
    ensures forall i {:trigger r[i]} :: 0 <= i < |fits| ==> r[i] == if fits[i] == 0.0 then share else 0.0
  {
    seq(|fits|, i requires 0 <= i < |fits| => if fits[i] == 0.0 then share else 0.0)
  }

  /** The values ProportionalScaling computes as written: `(1 / zeroCount) * parentsNeeded` in int arithmetic. */
  function ProportionalAsWritten(population: seq<Individual>, parentsNeeded: int): (r: seq<real>)
    requires !ProportionalUnrepresentable(Fitnesses(population))
    ensures |r| == |population|
  {
    var fits := Fitnesses(population);
    if !HasZero(fits) then ProportionalWithoutZero(fits, parentsNeeded)
    else
      ZeroCandidatesNonEmpty(population);
      ZeroShares(fits, (JavaDiv(1, |ZeroCandidates(population)|) * parentsNeeded) as real)
  }

  /** The number of zero-fitness entries. */
  function ZeroCount(fits: seq<real>): (n: nat)
    ensures n <= |fits|
    ensures n > 0 <==> HasZero(fits)
  {
    if |fits| == 0 then 0
    else
      var n := ZeroCount(fits[..|fits| - 1]) + (if fits[|fits| - 1] == 0.0 then 1 else 0);
      assert HasZero(fits) <==> HasZero(fits[..|fits| - 1]) || fits[|fits| - 1] == 0.0 by {
        if HasZero(fits) {
          var i :| 0 <= i < |fits| && fits[i] == 0.0;
          if i < |fits| - 1 {
            assert fits[..|fits| - 1][i] == 0.0;
          }
        }
        if HasZero(fits[..|fits| - 1]) {
          var i :| 0 <= i < |fits| - 1 && fits[..|fits| - 1][i] == 0.0;
          assert fits[i] == 0.0;
        }
      }
      n
  }

  /**
   * The values the interface promises: parentsNeeded shared out in real
   * arithmetic among the zero-fitness individuals, so that they sum to it.
   */
  function ProportionalIntended(population: seq<Individual>, parentsNeeded: int): (r: seq<real>)
    requires !ProportionalUnrepresentable(Fitnesses(population))
    ensures |r| == |population|
  {
    var fits := Fitnesses(population);
    if !HasZero(fits) then ProportionalWithoutZero(fits, parentsNeeded)
    else ZeroShares(fits, parentsNeeded as real / ZeroCount(fits) as real)
  }

  lemma {:induction false} ZeroCandidatesNonEmpty(population: seq<Individual>)
    requires HasZero(Fitnesses(population))
    ensures |ZeroCandidates(population)| > 0
  {
    var i :| 0 <= i < |population| && Fitnesses(population)[i] == 0.0;
    assert population[i].genes in ZeroCandidates(population);
  }

  /**
   * The first loop of ProportionalScaling.scaleFitness: collecting the
   * zero-fitness candidates and summing the reciprocals as doubles.
   */
  method ReciprocalSum(population: seq<Individual>) returns (zeroCandidates: set<Genes>, fitnessSum: Double)
    ensures zeroCandidates == ZeroCandidates(population)
    ensures zeroCandidates == {} <==> !HasZero(Fitnesses(population))
    ensures zeroCandidates == {} ==> fitnessSum == Finite(Sum(Reciprocals(Fitnesses(population))))
    ensures zeroCandidates != {} ==> fitnessSum == PositiveInfinity
  {
    var fits := Fitnesses(population);
    zeroCandidates := {};
    fitnessSum := Finite(0.0);
    var i := 0;
    while i < |population|
      invariant 0 <= i <= |population|
      invariant zeroCandidates == ZeroCandidates(population[..i])
      invariant zeroCandidates == {} <==> !HasZero(fits[..i])
      invariant zeroCandidates == {} ==> fitnessSum == Finite(Sum(Reciprocals(fits[..i])))
      invariant zeroCandidates != {} ==> fitnessSum == PositiveInfinity
    {
      var fitness := population[i].CalculateFitness();
      ZeroCandidatesStep(population, i);
      ReciprocalStep(fits, i);
      if fitness == 0.0 {
        zeroCandidates := zeroCandidates + {population[i].genes};
      }
      fitnessSum := Add(fitnessSum, Div(Finite(1.0), Finite(fitness)));
      i := i + 1;
    }
    assert population[..i] == population && fits[..i] == fits;
  }

  /** One more element of the fitness prefix: a zero is found, or its reciprocal joins the sum. */
  lemma {:induction false} ReciprocalStep(fits: seq<real>, i: int)
    requires 0 <= i < |fits|
    ensures HasZero(fits[..i + 1]) <==> HasZero(fits[..i]) || fits[i] == 0.0
    ensures !HasZero(fits[..i + 1]) ==>
              Sum(Reciprocals(fits[..i + 1])) == Sum(Reciprocals(fits[..i])) + 1.0 / fits[i]
  {
    var longer, shorter := fits[..i + 1], fits[..i];
    assert longer == shorter + [fits[i]];
    assert longer[i] == fits[i];
    if !HasZero(longer) {
      assert Reciprocals(longer) == Reciprocals(shorter) + [1.0 / fits[i]];
      SumAppend(Reciprocals(shorter), 1.0 / fits[i]);
    }
  }

  /**
   * ProportionalScaling.scaleFitness as written. The ArithmeticException guard
   * of the source is kept; over real fitness values it never fires, because
   * the sum of reciprocals is finite without a zero fitness and +infinity
   * with one.
   */
  method ProportionalScaleFitnessAsWritten(population: seq<Individual>, parentsNeeded: int)
    returns (r: Outcome<seq<ScaledFitness>>)
    ensures r.Thrown? <==> ProportionalUnrepresentable(Fitnesses(population))
    ensures r.Thrown? ==> r.ex == Unrepresentable
    ensures r.Ok? ==> Members(r.value) == population
    ensures r.Ok? ==> ScaledValues(r.value) == ProportionalAsWritten(population, parentsNeeded)
  {
    var zeroCandidates, fitnessSum := ReciprocalSum(population);
    if (|zeroCandidates| == 0 && fitnessSum.IsInfinite()) || fitnessSum.NaN? {
      assert false;
      return Thrown(Arithmetic);
    }
    if zeroCandidates == {} {
      r := ScaleWithoutZero(population, parentsNeeded, fitnessSum.value);
    } else {
      ZeroCandidatesNonEmpty(population);
      var scaled := ShareAmongZeros(population, zeroCandidates, (JavaDiv(1, |zeroCandidates|) * parentsNeeded) as real);
      r := Ok(scaled);
    }
  }

  /**
   * ProportionalScaling.scaleFitness with the zero-fitness share computed in
   * real arithmetic over the number of zero-fitness individuals.
   */
  method ProportionalScaleFitness(population: seq<Individual>, parentsNeeded: int)
    returns (r: Outcome<seq<ScaledFitness>>)
    ensures r.Thrown? <==> ProportionalUnrepresentable(Fitnesses(population))
    ensures r.Thrown? ==> r.ex == Unrepresentable
    ensures r.Ok? ==> Members(r.value) == population
    ensures r.Ok? ==> ScaledValues(r.value) == ProportionalIntended(population, parentsNeeded)
  {
    var zeroCandidates, fitnessSum := ReciprocalSum(population);
    if (|zeroCandidates| == 0 && fitnessSum.IsInfinite()) || fitnessSum.NaN? {
      assert false;
      return Thrown(Arithmetic);
    }
    if zeroCandidates == {} {
      r := ScaleWithoutZero(population, parentsNeeded, fitnessSum.value);
    } else {
      var zeroCount := ZeroCount(Fitnesses(population));
      var scaled := ShareAmongZeros(population, zeroCandidates, parentsNeeded as real / zeroCount as real);
      r := Ok(scaled);
    }
  }

  /** The branch without a zero fitness: scaleFactor * 1 / fitness for each individual. */
  method ScaleWithoutZero(population: seq<Individual>, parentsNeeded: int, fitnessSum: real)
    returns (r: Outcome<seq<ScaledFitness>>)
    requires !HasZero(Fitnesses(population))
    requires fitnessSum == Sum(Reciprocals(Fitnesses(population)))
    ensures r.Thrown? <==> ProportionalUnrepresentable(Fitnesses(population))
    ensures r.Thrown? ==> r.ex == Unrepresentable
    ensures r.Ok? ==> Members(r.value) == population
    ensures r.Ok? ==> ScaledValues(r.value) == ProportionalWithoutZero(Fitnesses(population), parentsNeeded)
  {
    var fits := Fitnesses(population);
    if |population| > 0 && fitnessSum == 0.0 {
      return Thrown(Unrepresentable);
    }
    var scaleFactor := if |population| > 0 then parentsNeeded as real / fitnessSum else 0.0;
    var scaled := ScaleReciprocals(population, scaleFactor);
    assert |population| > 0 ==> ProportionalWithoutZero(fits, parentsNeeded) == Scale(Reciprocals(fits), scaleFactor);
    r := Ok(scaled);
  }

  /** The loop of the branch without a zero fitness: scaleFactor * 1 / fitness, paired with its individual. */
  method ScaleReciprocals(population: seq<Individual>, scaleFactor: real) returns (scaled: seq<ScaledFitness>)
    requires !HasZero(Fitnesses(population))
    ensures Members(scaled) == population
    ensures ScaledValues(scaled) == Scale(Reciprocals(Fitnesses(population)), scaleFactor)
  {
    var fits := Fitnesses(population);
    scaled := [];
    var i := 0;
    while i < |population|
      invariant 0 <= i <= |population|
      invariant |scaled| == i
      invariant forall k {:trigger scaled[k]} :: 0 <= k < i ==>
                  scaled[k] == ScaledFitness(Reciprocals(fits)[k] * scaleFactor, population[k])
    {
      var fitness := population[i].CalculateFitness();
      assert fitness == fits[i] && fitness != 0.0;
      ReciprocalFactor(scaleFactor, fitness);
      scaled := scaled + [ScaledFitness(scaleFactor * 1.0 / fitness, population[i])];
      i := i + 1;
    }
    forall k | 0 <= k < |scaled|
      ensures ScaledValues(scaled)[k] == Scale(Reciprocals(fits), scaleFactor)[k]
    {
      assert scaled[k].scaledFitness == Reciprocals(fits)[k] * scaleFactor;
    }
  }

  lemma {:induction false} ReciprocalFactor(c: real, f: real)
    requires f != 0.0
    ensures c * 1.0 / f == (1.0 / f) * c
  {
  }

  /** The branch with a zero fitness: share for each zero candidate, 0 for everyone else. */
  method ShareAmongZeros(population: seq<Individual>, zeroCandidates: set<Genes>, share: real)
    returns (scaled: seq<ScaledFitness>)
    requires zeroCandidates == ZeroCandidates(population)
    ensures Members(scaled) == population
    ensures ScaledValues(scaled) == ZeroShares(Fitnesses(population), share)
  {
    scaled := [];
    var i := 0;
    while i < |population|
      invariant 0 <= i <= |population|
      invariant |scaled| == i
      invariant forall k {:trigger scaled[k]} :: 0 <= k < i ==>
                  scaled[k] == ScaledFitness(ZeroShares(Fitnesses(population), share)[k], population[k])
    {
      if population[i].genes in zeroCandidates {
        scaled := scaled + [ScaledFitness(share, population[i])];
      } else {
        scaled := scaled + [ScaledFitness(0.0, population[i])];
      }
      i := i + 1;
    }
  }

  /** Without a zero fitness, proportional scaling hands out exactly parentsNeeded. */
  lemma {:induction false} ProportionalSumWithoutZero(fits: seq<real>, parentsNeeded: int)
    requires |fits| > 0 && !HasZero(fits) && !ProportionalUnrepresentable(fits)
    ensures Sum(ProportionalWithoutZero(fits, parentsNeeded)) == parentsNeeded as real
  {
    SumScaleToTarget(Reciprocals(fits), parentsNeeded as real);
  }

  /** Without a zero fitness, a smaller (better) positive fitness gets a larger share. */
  lemma {:induction false} ProportionalFavoursSmallerFitness(fits: seq<real>, parentsNeeded: int, i: int, j: int)
    requires !HasZero(fits) && !ProportionalUnrepresentable(fits)
    requires 0 <= i < |fits| && 0 <= j < |fits|
    requires 0.0 < fits[i] < fits[j]
    requires parentsNeeded > 0 && Sum(Reciprocals(fits)) > 0.0
    ensures ProportionalWithoutZero(fits, parentsNeeded)[j] < ProportionalWithoutZero(fits, parentsNeeded)[i]
  {
    var w, total := ProportionalWithoutZero(fits, parentsNeeded), Sum(Reciprocals(fits));
    ProportionalValue(fits, parentsNeeded, i);
    ProportionalValue(fits, parentsNeeded, j);
    ScaledReciprocalDecreasing(fits[i], fits[j], parentsNeeded as real, total, w[i], w[j]);
  }

  /** Each value of the branch without a zero fitness is 1/f times parentsNeeded over the reciprocal sum. */
  lemma {:induction false} ProportionalValue(fits: seq<real>, parentsNeeded: int, i: int)
    requires !HasZero(fits) && !ProportionalUnrepresentable(fits)
    requires 0 <= i < |fits|
    ensures ProportionalWithoutZero(fits, parentsNeeded)[i]
            == (1.0 / fits[i]) * (parentsNeeded as real / Sum(Reciprocals(fits)))
  {
    var rec := Reciprocals(fits);
    assert ProportionalWithoutZero(fits, parentsNeeded) == Scale(rec, parentsNeeded as real / Sum(rec));
  }

  /**
   * As written, two or more distinct zero-fitness individuals make
   * `1 / zeroCount` zero in int arithmetic, so nobody gets any share.
   */
  lemma {:induction false} ProportionalZeroShareLost(population: seq<Individual>, parentsNeeded: int)
    requires HasZero(Fitnesses(population)) && |ZeroCandidates(population)| >= 2
    ensures forall i :: 0 <= i < |population| ==> ProportionalAsWritten(population, parentsNeeded)[i] == 0.0
    ensures Sum(ProportionalAsWritten(population, parentsNeeded)) == 0.0
  {
    var z := |ZeroCandidates(population)|;
    assert JavaDiv(1, z) == 0;
    var values := ProportionalAsWritten(population, parentsNeeded);
    assert forall i :: 0 <= i < |values| ==> values[i] == 0.0;
    SumConstant(values, 0.0);
  }

  /** With the share computed in real arithmetic the zero-fitness individuals receive exactly parentsNeeded. */
  lemma {:induction false} ProportionalIntendedSum(population: seq<Individual>, parentsNeeded: int)
    requires |population| > 0 && !ProportionalUnrepresentable(Fitnesses(population))
    ensures Sum(ProportionalIntended(population, parentsNeeded)) == parentsNeeded as real
  {
    var fits := Fitnesses(population);
    if !HasZero(fits) {
      assert ProportionalIntended(population, parentsNeeded) == ProportionalWithoutZero(fits, parentsNeeded);
      ProportionalSumWithoutZero(fits, parentsNeeded);
    } else {
      assert ProportionalIntended(population, parentsNeeded)
             == ZeroShares(fits, parentsNeeded as real / ZeroCount(fits) as real);
      SumEqualZeroShares(fits, parentsNeeded as real);
    }
  }

  /** Equal shares of a total among the zero fitness values add up to the total. */
  lemma {:induction false} SumEqualZeroShares(fits: seq<real>, total: real)
    requires ZeroCount(fits) > 0
    ensures Sum(ZeroShares(fits, total / ZeroCount(fits) as real)) == total
  {
    var z := ZeroCount(fits) as real;
    SumZeroShares(fits, total / z);
    MulDivCancel(total, z);
  }

  /** 1.0 at every zero fitness, 0.0 elsewhere. */
  function ZeroIndicator(fits: seq<real>): (r: seq<real>)
    ensures |r| == |fits|
    ensures forall i {:trigger r[i]} :: 0 <= i < |fits| ==> r[i] == if fits[i] == 0.0 then 1.0 else 0.0
  {
    seq(|fits|, i requires 0 <= i < |fits| => if fits[i] == 0.0 then 1.0 else 0.0)
  }

  lemma {:induction false} SumZeroIndicator(fits: seq<real>)
    ensures Sum(ZeroIndicator(fits)) == ZeroCount(fits) as real
  {
    if |fits| > 0 {
      var front := fits[..|fits| - 1];
      assert ZeroIndicator(fits)[..|fits| - 1] == ZeroIndicator(front);
      SumZeroIndicator(front);
    }
  }

  lemma {:induction false} SumZeroShares(fits: seq<real>, share: real)
    ensures Sum(ZeroShares(fits, share)) == ZeroCount(fits) as real * share
  {
    assert ZeroShares(fits, share) == Scale(ZeroIndicator(fits), share);
    SumScale(ZeroIndicator(fits), share);
    SumZeroIndicator(fits);
  }

  // ------------------------------------------------------------------ dispatch

  /** The scaling strategies of the engine. */
  datatype Scaler = Rank(weight: RankWeight) | Top(top: TopScaling) | Proportional

  /** Can the strategy scale this population in the model? */
  predicate Representable(scaler: Scaler, population: seq<Individual>)
  {
    match scaler
    case Rank(_) => !(|population| > 0 && population[0].CalculateFitness() == DOUBLE_MAX_VALUE)
    case Top(_) => true
    case Proportional => !ProportionalUnrepresentable(Fitnesses(population))
  }

  /** The scaled values a strategy gives to the population. */
  function ScaledBy(scaler: Scaler, population: seq<Individual>, parentsNeeded: int): (r: seq<real>)
    requires Representable(scaler, population)
    ensures |r| == |population|
  {
    match scaler
    case Rank(weight) => RankScaled(Fitnesses(population), parentsNeeded, weight)
    case Top(t) => TopScaled(|population|, t, parentsNeeded)
    case Proportional => ProportionalIntended(population, parentsNeeded)
  }

  /** Every strategy hands out exactly parentsNeeded to a non-empty population. */
  lemma {:induction false} ScaledBySum(scaler: Scaler, population: seq<Individual>, parentsNeeded: int)
    requires |population| > 0 && Representable(scaler, population)
    ensures Sum(ScaledBy(scaler, population, parentsNeeded)) == parentsNeeded as real
  {
    match scaler
    case Rank(weight) => RankScaledSum(Fitnesses(population), parentsNeeded, weight);
    case Top(t) => TopScaledSum(|population|, t, parentsNeeded);
    case Proportional => ProportionalIntendedSum(population, parentsNeeded);
  }

  /** scaleFitness through the interface. */
  method ScaleFitness(scaler: Scaler, population: seq<Individual>, parentsNeeded: int)
    returns (r: Outcome<seq<ScaledFitness>>)
    ensures r.Ok? <==> Representable(scaler, population)
    ensures r.Thrown? ==> r.ex == Unrepresentable
    ensures r.Ok? ==> Members(r.value) == population
    ensures r.Ok? ==> ScaledValues(r.value) == ScaledBy(scaler, population, parentsNeeded)
    ensures r.Ok? && |population| > 0 ==> Sum(ScaledValues(r.value)) == parentsNeeded as real
  {
    match scaler {
      case Rank(weight) =>
        r := RankScaleFitness(population, parentsNeeded, weight);
      case Top(t) =>
        var s := TopScaleFitness(t, population, parentsNeeded);
        r := Ok(s);
      case Proportional =>
        r := ProportionalScaleFitness(population, parentsNeeded);
    }
    if r.Ok? && |population| > 0 {
      ScaledBySum(scaler, population, parentsNeeded);
    }
  }
}

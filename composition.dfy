/**
 * How the genetic algorithm's constructor divides each sub-population into
 * elite, crossover and mutation children, and how many parents one
 * generation asks the selection strategy for. The arithmetic is Java's: the
 * fractions are turned into counts by Math.ceil / Math.floor followed by an
 * (int) cast, and the differences and products are int operations.
 */
module Composition {
  import opened JavaLang

  /** The per-sub-population counts the constructor stores. */
  datatype Counts = Counts(elite: Int32, crossover: Int32, mutation: Int32, parentsNeeded: Int32)

  /**
   * The counts of one sub-population: eliteCount = (int) Math.ceil(n *
   * eliteFraction), crossoverCount = (int) Math.floor(n * crossoverFraction),
   * mutationCount = n - elite - crossover and parentsNeeded = parentCount *
   * crossover + mutation, the last two in int arithmetic (one wrap of the
   * whole expression equals Java's wrap after every operation).
   */
  function CountsOf(n: int, eliteFraction: real, crossoverFraction: real, parentCount: int): Counts
  {
    CountsOfShares(n, n as real * eliteFraction, n as real * crossoverFraction, parentCount)
  }

  /** The counts for the elite share x and the crossover share y of n. */
  function CountsOfShares(n: int, x: real, y: real, parentCount: int): Counts
  {
    var e := DoubleToInt(Ceil(x) as real);
    var c := DoubleToInt(y.Floor as real);
    var m := Wrap32(n - e - c);
    Counts(e, c, m, Wrap32(parentCount * c + m))
  }

  /** The (int) cast leaves a whole number in the int range as it is. */
  lemma WholeCast(i: int)
    requires IsInt(i)
    ensures DoubleToInt(i as real) == i
  {
    assert (i as real).Floor == i;
  }

  /** Multiplying by a non-negative factor keeps an order. */
  lemma ScaleOrder(n: real, a: real, b: real)
    requires 0.0 <= n && a <= b
    ensures n * a <= n * b
  {
  }

  /**
   * For fractions in [0, 1] whose sum is at most 1, the elite count is the
   * exact ceiling and the crossover count the exact floor, the three counts
   * are non-negative and add up to the population count.
   */
  lemma {:induction false} CountsPartitionThePopulation(n: Int32, eliteFraction: real, crossoverFraction: real, parentCount: int)
    requires n > 0 && 0.0 <= eliteFraction && 0.0 <= crossoverFraction && eliteFraction + crossoverFraction <= 1.0
    ensures var k := CountsOf(n, eliteFraction, crossoverFraction, parentCount);
            && k.elite == Ceil(n as real * eliteFraction)
            && k.crossover == (n as real * crossoverFraction).Floor
            && 0 <= k.elite && 0 <= k.crossover && 0 <= k.mutation
            && k.elite + k.crossover + k.mutation == n
  {
    ShareOfN(n as real, eliteFraction, crossoverFraction);
    PartitionAtShares(n, eliteFraction, crossoverFraction, parentCount, n as real * eliteFraction, n as real * crossoverFraction);
  }

  /** The partition stated for the shares x = n * eliteFraction and y = n * crossoverFraction. */
  lemma PartitionAtShares(n: Int32, eliteFraction: real, crossoverFraction: real, parentCount: int, x: real, y: real)
    requires x == n as real * eliteFraction && y == n as real * crossoverFraction
    requires n > 0 && 0.0 <= x && 0.0 <= y && x + y <= n as real
    ensures var k := CountsOf(n, eliteFraction, crossoverFraction, parentCount);
            && k.elite == Ceil(x) && k.crossover == y.Floor
            && 0 <= k.elite && 0 <= k.crossover && 0 <= k.mutation
            && k.elite + k.crossover + k.mutation == n
  {
    SharesPartition(n, x, y, parentCount);
  }

  /**
   * The same partition for two shares x and y of n: rounding x up and y
   * down and casting to int is exact, and what is left of n is the mutation
   * count.
   */
  lemma SharesPartition(n: Int32, x: real, y: real, parentCount: int)
    requires n > 0 && 0.0 <= x && 0.0 <= y && x + y <= n as real
    ensures var k := CountsOfShares(n, x, y, parentCount);
            && k.elite == Ceil(x) && k.crossover == y.Floor
            && 0 <= k.elite && 0 <= k.crossover && 0 <= k.mutation
            && k.elite + k.crossover + k.mutation == n
  {
    CeilAndFloorFit(n, x, y);
    IntPartition(n, Ceil(x), y.Floor);
    WholeCast(Ceil(x));
    WholeCast(y.Floor);
  }

  /** Two non-negative counts that fit in n are ints, and n minus both is their int difference. */
  lemma IntPartition(n: Int32, e: int, c: int)
    requires 0 <= e && 0 <= c && e + c <= n
    ensures IsInt(e) && IsInt(c)
    ensures 0 <= Wrap32(n - e - c) && e + c + Wrap32(n - e - c) == n
  {
    assert IsInt(n);
  }

  /** Two fractions of n whose sum is at most 1 share at most n. */
  lemma ShareOfN(n: real, a: real, b: real)
    requires 0.0 <= n && 0.0 <= a && 0.0 <= b && a + b <= 1.0
    ensures 0.0 <= n * a && 0.0 <= n * b && n * a + n * b <= n
  {
    ScaleOrder(n, 0.0, a);
    ScaleOrder(n, 0.0, b);
    ScaleOrder(n, a + b, 1.0);
    assert n * (a + b) == n * a + n * b;
  }

  /** Rounding the first share up and the second down still fits in n. */
  lemma CeilAndFloorFit(n: int, x: real, y: real)
    requires 0.0 <= x && 0.0 <= y && x + y <= n as real
    ensures 0 <= Ceil(x) && 0 <= y.Floor && Ceil(x) + y.Floor <= n
  {
  }

  /**
   * The construction-time checks of one sub-population that the count
   * derivation depends on: elite and crossover fractions may not add up to
   * more than 1, and a crossover needs at least two parents.
   */
  predicate CompositionAccepted(eliteFraction: real, crossoverFraction: real, parentCount: int)
  {
    eliteFraction + crossoverFraction <= 1.0 && 2 <= parentCount
  }

  /**
   * Every parent a generation asks for is used: each mutation child consumes
   * one, each crossover child parentCount of them.
   */
  lemma {:induction false} ParentsNeededCoverTheChildren(n: Int32, eliteFraction: real, crossoverFraction: real, parentCount: int)
    requires n > 0 && 0.0 <= eliteFraction && 0.0 <= crossoverFraction
    requires CompositionAccepted(eliteFraction, crossoverFraction, parentCount)
    requires IsInt(parentCount * CountsOf(n, eliteFraction, crossoverFraction, parentCount).crossover + n)
    ensures var k := CountsOf(n, eliteFraction, crossoverFraction, parentCount);
            && k.parentsNeeded == k.mutation + parentCount * k.crossover
            && k.parentsNeeded >= k.mutation + 2 * k.crossover
            && k.parentsNeeded <= parentCount * k.crossover + n
  {
    CountsPartitionThePopulation(n, eliteFraction, crossoverFraction, parentCount);
    var k := CountsOf(n, eliteFraction, crossoverFraction, parentCount);
    var product := parentCount * k.crossover;
    ParentsBound(parentCount, k.crossover, k.mutation, n, product);
    assert k.parentsNeeded == Wrap32(product + k.mutation);
  }

  /** At least two parents per crossover child, and no more mutation children than the population. */
  lemma ParentsBound(parentCount: int, c: int, m: int, n: int, product: int)
    requires product == parentCount * c && 2 <= parentCount && 0 <= c && 0 <= m <= n
    ensures product >= 2 * c && m + product <= product + n
  {
    assert (parentCount - 2) * c >= 0;
  }
}

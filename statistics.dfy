/**
 * DoubleSummaryStatistics over fitness values: the count, the sum, the
 * minimum and the maximum. An empty summary has minimum +Infinity and maximum
 * -Infinity. Sums are exact (the compensated summation of the library is not
 * modelled).
 */
module Statistics {
  import opened JavaLang
  import opened Sums

  datatype Summary = Summary(count: nat, sum: real, min: Double, max: Double)

  /** new DoubleSummaryStatistics(). */
  const Empty: Summary := Summary(0, 0.0, PositiveInfinity, NegativeInfinity)

  /** accept(x). */
  function Accept(s: Summary, x: real): Summary
  {
    Summary(s.count + 1, s.sum + x, Min(s.min, Finite(x)), Max(s.max, Finite(x)))
  }

  /** combine(other). */
  function Combine(a: Summary, b: Summary): Summary
  {
    Summary(a.count + b.count, a.sum + b.sum, Min(a.min, b.min), Max(a.max, b.max))
  }

  /** summaryStatistics() of a stream: every value accepted in order. */
  function Stats(xs: seq<real>): Summary
  {
    if |xs| == 0 then Empty else Accept(Stats(xs[..|xs| - 1]), xs[|xs| - 1])
  }

  /**
   * A summary counts and adds up its values; the minimum and the maximum of a
   * non-empty list are finite values of the list that bound every value.
   */
  lemma {:induction false} StatsDescribe(xs: seq<real>)
    ensures Stats(xs).count == |xs| && Stats(xs).sum == Sum(xs)
    ensures |xs| == 0 ==> Stats(xs) == Empty
    ensures |xs| > 0 ==> Stats(xs).min.Finite? && Stats(xs).min.value in xs
                         && forall i :: 0 <= i < |xs| ==> Stats(xs).min.value <= xs[i]
    ensures |xs| > 0 ==> Stats(xs).max.Finite? && Stats(xs).max.value in xs
                         && forall i :: 0 <= i < |xs| ==> xs[i] <= Stats(xs).max.value
  {
    if |xs| > 0 {
      var front := xs[..|xs| - 1];
      StatsDescribe(front);
      assert xs == front + [xs[|xs| - 1]];
    }
  }

  /** Neither bound of a summary of values is NaN. */
  predicate Ordered(s: Summary)
  {
    !s.min.NaN? && !s.max.NaN?
  }

  lemma {:induction false} StatsOrdered(xs: seq<real>)
    ensures Ordered(Stats(xs))
  {
    if |xs| > 0 {
      StatsOrdered(xs[..|xs| - 1]);
    }
  }

  lemma MinAssociates(a: Double, b: Double, c: Double)
    requires !a.NaN? && !b.NaN? && !c.NaN?
    ensures Min(Min(a, b), c) == Min(a, Min(b, c))
    ensures Max(Max(a, b), c) == Max(a, Max(b, c))
  {
  }

  /**
   * Combining the summaries of two lists gives the summary of their
   * concatenation: combining per sub-population summaries is the summary of
   * the whole population.
   */
  lemma CombineIsConcatenation(a: seq<real>, b: seq<real>)
    ensures Combine(Stats(a), Stats(b)) == Stats(a + b)
  {
    StatsDescribe(a);
    StatsDescribe(b);
    StatsDescribe(a + b);
    SumConcat(a, b);
    BoundsConcat(a, b);
  }

  /** The bounds of a concatenation are the combined bounds of its parts. */
  lemma {:induction false} BoundsConcat(a: seq<real>, b: seq<real>)
    ensures Stats(a + b).min == Min(Stats(a).min, Stats(b).min)
    ensures Stats(a + b).max == Max(Stats(a).max, Stats(b).max)
    decreases |b|
  {
    if |b| == 0 {
      assert a + b == a;
      StatsOrdered(a);
    } else {
      var front, x := b[..|b| - 1], b[|b| - 1];
      BoundsConcat(a, front);
      assert (a + b)[..|a + b| - 1] == a + front && (a + b)[|a + b| - 1] == x;
      var ab, sa, sf := Stats(a + front), Stats(a), Stats(front);
      assert Stats(a + b).min == Min(ab.min, Finite(x)) && Stats(b).min == Min(sf.min, Finite(x));
      assert Stats(a + b).max == Max(ab.max, Finite(x)) && Stats(b).max == Max(sf.max, Finite(x));
      StatsOrdered(a);
      StatsOrdered(front);
      MinAssociates(sa.min, sf.min, Finite(x));
      MinAssociates(sa.max, sf.max, Finite(x));
    }
  }

  /** The summaries of a list of lists, combined in order as addGeneration does. */
  function CombineAll(summaries: seq<Summary>): Option<Summary>
  {
    if |summaries| == 0 then None
    else if |summaries| == 1 then Some(summaries[0])
    else Some(Combine(CombineAll(summaries[..|summaries| - 1]).value, summaries[|summaries| - 1]))
  }

  /** Every list concatenated in order. */
  function Flatten(xss: seq<seq<real>>): seq<real>
  {
    if |xss| == 0 then [] else Flatten(xss[..|xss| - 1]) + xss[|xss| - 1]
  }

  /** The summary of every list, in order. */
  function StatsEach(xss: seq<seq<real>>): (r: seq<Summary>)
    ensures |r| == |xss| && forall i :: 0 <= i < |xss| ==> r[i] == Stats(xss[i])
  {
    seq(|xss|, i requires 0 <= i < |xss| => Stats(xss[i]))
  }

  /** The combined summary of the per-list summaries is the summary of all values. */
  lemma {:induction false} CombineAllIsFlatten(xss: seq<seq<real>>)
    requires |xss| > 0
    ensures CombineAll(StatsEach(xss)) == Some(Stats(Flatten(xss)))
    decreases |xss|
  {
    var n := |xss|;
    if n == 1 {
      assert Flatten(xss) == [] + xss[0];
      assert Flatten(xss) == xss[0];
    } else {
      var front := xss[..n - 1];
      assert StatsEach(xss)[..n - 1] == StatsEach(front);
      CombineAllIsFlatten(front);
      CombineIsConcatenation(Flatten(front), xss[n - 1]);
    }
  }
}

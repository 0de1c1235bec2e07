/**
 * Genotypes a generation carries, and what sorting by fitness does to them:
 * the sort keeps every member, and its head is at least as fit as any
 * individual whose genes it still holds.
 */
module Genotypes {
  import opened Individuals
  import opened Sorting

  /** The head of a population sorted by fitness is at least as fit as any member. */
  lemma HeadIsFittest(s: seq<Individual>, y: Individual)
    requires FitnessSorted(s) && y in s
    ensures s[0].CalculateFitness() <= y.CalculateFitness()
  {
    var i :| 0 <= i < |s| && s[i] == y;
    if i > 0 {
      assert s[0].CalculateFitness() <= s[i].CalculateFitness();
    }
  }

  /** Some member of the generation has these genes. */
  predicate HasGenotype(s: seq<Individual>, g: Genes)
  {
    exists x :: x in s && x.genes == g
  }

  /** Every genotype of `from` is found in `to`. */
  predicate GenotypesKept(from: seq<Individual>, to: seq<Individual>)
  {
    forall x :: x in from ==> HasGenotype(to, x.genes)
  }

  /** Sorting by fitness keeps the genotypes, and the new head is at least as fit as any of them. */
  lemma SortKeepsGenotypes(s: seq<Individual>)
    ensures |SortByFitness(s)| == |s| && FitnessSorted(SortByFitness(s))
    ensures forall x :: x in s <==> x in SortByFitness(s)
  {
    SortByFitnessIsSortedPermutation(s);
    var r := SortByFitness(s);
    forall x | x in r
      ensures x in s
    {
      assert x in multiset(r);
    }
    forall x | x in s
      ensures x in r
    {
      assert x in multiset(s);
    }
  }

  /**
   * Two individuals with equal genes have equal fitness, so when a sorted
   * generation holds the genotype of the old head, its head is at least as
   * fit as the old head.
   */
  lemma NoWorseThanTheHead(next: seq<Individual>, head: Individual)
    requires FitnessSorted(next) && HasGenotype(next, head.genes)
    ensures |next| >= 1 && next[0].CalculateFitness() <= head.CalculateFitness()
  {
    var y :| y in next && y.genes == head.genes;
    HeadIsFittest(next, y);
  }

  /**
   * A generation whose first `e` slots are the old population's first `e`
   * individuals, once sorted with its genotypes kept, has a head at least as
   * fit as the old head: elitism never loses the best.
   */
  lemma EliteSurvives(layout: seq<Individual>, population: seq<Individual>, e: int, next: seq<Individual>)
    requires 1 <= e <= |layout| && e <= |population| && layout[..e] == population[..e]
    requires FitnessSorted(next) && GenotypesKept(layout, next)
    ensures |next| >= 1 && next[0].CalculateFitness() <= population[0].CalculateFitness()
  {
    assert layout[0] == layout[..e][0] == population[0];
    assert layout[0] in layout;
    NoWorseThanTheHead(next, population[0]);
  }

  /** Sorting by fitness a generation that kept the genotypes of `bred` still keeps them. */
  lemma SortStillKeeps(bred: seq<Individual>, next: seq<Individual>)
    requires GenotypesKept(bred, next)
    ensures |SortByFitness(next)| == |next| && FitnessSorted(SortByFitness(next))
    ensures GenotypesKept(bred, SortByFitness(next))
  {
    SortKeepsGenotypes(next);
    forall x | x in bred
      ensures HasGenotype(SortByFitness(next), x.genes)
    {
      var y :| y in next && y.genes == x.genes;
      assert y in SortByFitness(next);
    }
  }
}

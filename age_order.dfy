/**
 * The order the clone-prevention pass of performGeneration walks a
 * generation in (stable sort by birth generation, oldest first), and the
 * genotypes the pass and the sort after it keep.
 */
module AgeOrder {
  import opened JavaLang
  import opened Individuals
  import opened Sorting
  import opened Mutation
  import opened ForceClone
  import opened Genotypes

  /** Each individual with the birth generation it carries now. */
  function Ages(s: seq<Individual>): (r: seq<Aged>)
    reads set x | x in s
    ensures |r| == |s| && forall i :: 0 <= i < |s| ==> r[i] == Aged(s[i], s[i].birth)
  {
    if |s| == 0 then [] else Ages(s[..|s| - 1]) + [Aged(s[|s| - 1], s[|s| - 1].birth)]
  }

  /** The order the clone-prevention pass walks: the generation sorted by birth, oldest first. */
  function AgeOrdered(s: seq<Individual>): (r: seq<Individual>)
    reads set x | x in s
    ensures |r| == |s|
  {
    ByAgeOrdersOldestFirst(Ages(s));
    AgedIndividuals(ByAge(Ages(s)))
  }

  /** Ordering by age keeps the generation: every member is in the age order. */
  lemma AgeOrderKeepsMembers(s: seq<Individual>, x: Individual)
    requires x in s
    ensures |AgeOrdered(s)| == |s| && x in AgeOrdered(s)
  {
    var aged := Ages(s);
    ByAgeOrdersOldestFirst(aged);
    var i :| 0 <= i < |s| && s[i] == x;
    assert aged[i] in multiset(ByAge(aged));
    var j :| 0 <= j < |ByAge(aged)| && ByAge(aged)[j] == aged[i];
    assert AgeOrdered(s)[j] == x;
  }

  /** The individual at a kept position carries its genes. */
  lemma KeptAt(out: seq<Individual>, kept: seq<Kept>, j: int, g: Genes)
    requires 0 <= j < |out| == |kept| && kept[j].genes == g && out[j].genes == kept[j].genes
    ensures HasGenotype(out, g)
  {
    assert out[j] in out;
  }

  /**
   * A pass whose output carries, position by position, what the clone pass
   * kept keeps the genotype of every individual it walked.
   */
  lemma {:induction false} PassKeepsGenotypes(ordered: seq<Individual>, out: seq<Individual>, kept: seq<Kept>, generation: int)
    requires |out| == |ordered| == |kept|
    requires forall k :: 0 <= k < |ordered| ==> KeptEarlier(kept, ordered[k].genes, k)
    requires forall k :: 0 <= k < |ordered| ==> Carried(out[k], ordered[k], kept[k], generation)
    ensures GenotypesKept(ordered, out)
  {
    forall x | x in ordered
      ensures HasGenotype(out, x.genes)
    {
      var k :| 0 <= k < |ordered| && ordered[k] == x;
      var j :| 0 <= j <= k && kept[j].genes == ordered[k].genes;
      KeptAt(out, kept, j, x.genes);
    }
  }

  /** The genes of what the clone pass kept, position by position. */
  function KeptGenes(kept: seq<Kept>): (r: seq<Genes>)
    ensures |r| == |kept| && forall j :: 0 <= j < |kept| ==> r[j] == kept[j].genes
  {
    seq(|kept|, j requires 0 <= j < |kept| => kept[j].genes)
  }

  /** The clone pass over the genotypes of a bred generation, ordered by age. */
  function AgedPass(bred: seq<Individual>, p: real, cutoff: int, tapes: seq<seq<MutationDraws>>): Outcome<seq<Kept>>
    reads set x | x in bred
  {
    ClonePass(GenesOf(AgeOrdered(bred)), p, cutoff, tapes, |bred|)
  }

  /**
   * What a successful clone-prevention pass left: the individuals, in age
   * order, are those the pass kept (the originals where no retry was
   * needed, retried ones born in this generation with origin
   * FORCE_CLONE_MUTATION), their genes are the kept genes, and every kept
   * genotype within the cutoff differs from all kept before it.
   */
  ghost predicate ClonedFrom(passed: seq<Individual>, bred: seq<Individual>, p: real, cutoff: int,
                             tapes: seq<seq<MutationDraws>>, generation: int)
    reads set x | x in bred, set x | x in passed
  {
    var pass := AgedPass(bred, p, cutoff, tapes);
    && pass.Ok? && |pass.value| == |bred| == |passed|
    && AllCarried(passed, AgeOrdered(bred), pass.value, generation)
    && GenesOf(passed) == KeptGenes(pass.value)
    && Separated(pass.value, GenesOf(AgeOrdered(bred)), cutoff)
  }

  /**
   * The clone-prevention pass over a bred generation: it walks the
   * generation oldest first, throws what its first failing retry throws, and
   * otherwise keeps the genotype of every bred individual.
   */
  method AgedClonePass(bred: seq<Individual>, p: real, scale: Double, cutoff: Int32,
                       generation: Int32, tapes: seq<seq<MutationDraws>>)
    returns (r: Outcome<seq<Individual>>)
    requires cutoff >= 1
    ensures var pass := ClonePass(GenesOf(AgeOrdered(bred)), p, cutoff, tapes, |bred|);
            && (r.Ok? <==> pass.Ok?)
            && (r.Thrown? ==> r.ex == pass.ex)
    ensures r.Ok? ==> |r.value| == |bred| && GenotypesKept(bred, r.value)
    ensures r.Ok? ==> ClonedFrom(r.value, bred, p, cutoff, tapes, generation)
  {
    var ordered := AgeOrdered(bred);
    r := ForceClonePass(ordered, p, scale, cutoff, generation, tapes);
    if r.Ok? {
      ghost var kept := ClonePass(GenesOf(ordered), p, cutoff, tapes, |ordered|).value;
      ClonePassKeepsEveryGenotype(GenesOf(ordered), p, cutoff, tapes);
      ClonePassSeparatesClones(GenesOf(ordered), p, cutoff, tapes, |ordered|);
      assert GenesOf(r.value) == KeptGenes(kept);
      PassKeepsGenotypes(ordered, r.value, kept, generation);
      forall x | x in bred
        ensures HasGenotype(r.value, x.genes)
      {
        AgeOrderKeepsMembers(bred, x);
      }
    }
  }

  /**
   * Step 5 of performGeneration once the children are in place: with clone
   * prevention on, the pass over the generation ordered by age; then the
   * sort by fitness. The result keeps every genotype of the bred generation
   * and is a permutation of what the pass left (of the bred generation
   * itself without the pass).
   */
  method CloneAndSort(bred: seq<Individual>, p: real, scale: Double, forceClone: bool, cutoff: Int32,
                      generation: Int32, tapes: seq<seq<MutationDraws>>)
    returns (r: Outcome<seq<Individual>>, ghost passed: seq<Individual>)
    requires forceClone ==> cutoff >= 1
    ensures !forceClone ==> r.Ok? && passed == bred && multiset(r.value) == multiset(bred)
    ensures forceClone ==>
              var pass := AgedPass(bred, p, cutoff, tapes);
              && (r.Ok? <==> pass.Ok?)
              && (r.Thrown? ==> r.ex == pass.ex)
    ensures r.Ok? && forceClone ==> ClonedFrom(passed, bred, p, cutoff, tapes, generation)
    ensures r.Ok? ==> multiset(r.value) == multiset(passed)
    ensures r.Ok? ==> |r.value| == |bred| && FitnessSorted(r.value) && GenotypesKept(bred, r.value)
  {
    var next := bred;
    if forceClone {
      var pass := AgedClonePass(bred, p, scale, cutoff, generation, tapes);
      if pass.Thrown? {
        return pass, next;
      }
      next := pass.value;
    }
    SortByFitnessIsSortedPermutation(next);
    SortStillKeeps(bred, next);
    r, passed := Ok(SortByFitness(next)), next;
  }
}

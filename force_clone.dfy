/**
 * Clone prevention at the end of a generation step: the new generation is
 * ordered by age, oldest first, and walked once; an individual whose genes
 * equal those of one already kept is mutated again, with a probability that
 * rises with every attempt, until it is new or the attempts run out.
 */
module ForceClone {
  import opened JavaLang
  import opened Individuals
  import opened Sorting
  import opened Mutation

  // ------------------------------------------------------------ age order

  /** An individual together with the birth generation read from it before sorting. */
  datatype Aged = Aged(individual: Individual, birth: int)

  function Birth(a: Aged): real
  {
    a.birth as real
  }

  /** Arrays.sort(nextGeneration, sortByAge): a stable sort by birth, oldest first. */
  function ByAge(s: seq<Aged>): seq<Aged>
  {
    SortBy(s, Birth)
  }

  /** The age order keeps the generation and puts every individual after all older ones. */
  lemma ByAgeOrdersOldestFirst(s: seq<Aged>)
    ensures |ByAge(s)| == |s| && multiset(ByAge(s)) == multiset(s)
    ensures forall i, j :: 0 <= i < j < |s| ==> ByAge(s)[i].birth <= ByAge(s)[j].birth
  {
    SortByIsSortedPermutation(s, Birth);
    var r := ByAge(s);
    forall i, j | 0 <= i < j < |s|
      ensures r[i].birth <= r[j].birth
    {
      assert Birth(r[i]) <= Birth(r[j]);
    }
  }

  function AgedIndividuals(s: seq<Aged>): (r: seq<Individual>)
    ensures |r| == |s| && forall i :: 0 <= i < |s| ==> r[i] == s[i].individual
  {
    seq(|s|, i requires 0 <= i < |s| => s[i].individual)
  }

  function GenesOf(s: seq<Individual>): (r: seq<Genes>)
    ensures |r| == |s| && forall i :: 0 <= i < |s| ==> r[i] == s[i].genes
  {
    seq(|s|, i requires 0 <= i < |s| => s[i].genes)
  }

  // ----------------------------------------------------- retry probability

  /** The probability of the retry numbered `attempt`: p * (1 / (p * (cutoff - 1))) * attempt, in double arithmetic. */
  function RetryProbability(p: real, cutoff: int, attempt: int): Double
  {
    Mul(Mul(Finite(p), Div(Finite(1.0), Mul(Finite(p), Finite((cutoff - 1) as real)))), Finite(attempt as real))
  }

  lemma Cancel(p: real, k: real)
    requires p > 0.0 && k > 0.0
    ensures p * (1.0 / (p * k)) == 1.0 / k
  {
    assert p * (1.0 / (p * k)) * (p * k) == p;
  }

  /**
   * With a positive probability and a cutoff above 1 the retries ramp up
   * linearly from 0, whatever the probability, and reach certainty at retry
   * cutoff - 1.
   */
  lemma RetryRamp(p: real, cutoff: int, attempt: int)
    requires p > 0.0 && cutoff > 1
    ensures RetryProbability(p, cutoff, attempt) == Finite(attempt as real / (cutoff - 1) as real)
    ensures attempt == 0 ==> EffectiveProbability(RetryProbability(p, cutoff, attempt)) == 0.0
    ensures attempt == cutoff - 1 ==> EffectiveProbability(RetryProbability(p, cutoff, attempt)) == 1.0
  {
    var k := (cutoff - 1) as real;
    var pk := p * k;
    assert Mul(Finite(p), Finite(k)) == Finite(pk);
    assert Div(Finite(1.0), Finite(pk)) == Finite(1.0 / pk);
    Cancel(p, k);
    assert Mul(Finite(p), Finite(1.0 / pk)) == Finite(1.0 / k);
    assert 1.0 / k * attempt as real == attempt as real / k;
    if attempt == cutoff - 1 {
      assert attempt as real / k == 1.0;
    }
  }

  /** With a probability of 0 every retry probability is NaN, which no draw passes. */
  lemma RetryWithoutProbability(cutoff: int, attempt: int)
    ensures RetryProbability(0.0, cutoff, attempt).NaN?
    ensures EffectiveProbability(RetryProbability(0.0, cutoff, attempt)) < 0.0
  {
    var zero := Mul(Finite(0.0), Finite((cutoff - 1) as real));
    assert zero == Finite(0.0);
    assert Div(Finite(1.0), zero) == PositiveInfinity;
    assert Mul(Finite(0.0), PositiveInfinity).NaN?;
  }

  /** The scale handed to mutate: the step's scale when it exceeds 1e-10, and 1e-10 otherwise. */
  function CloneScale(scale: Double): Double
  {
    if !scale.NaN? && !LessEq(scale, Finite(0.0000000001)) then scale else Finite(0.0000000001)
  }

  /** The scale of a retry is never NaN and never below 1e-10. */
  lemma CloneScaleHasAFloor(scale: Double)
    ensures !CloneScale(scale).NaN? && LessEq(Finite(0.0000000001), CloneScale(scale))
    ensures scale.Finite? && scale.value > 0.0000000001 ==> CloneScale(scale) == scale
  {
  }

  // ----------------------------------------------------------- the pass

  /** What the pass keeps at one position: the genes and the number of mutations it took. */
  datatype Kept = Kept(genes: Genes, retries: nat)

  /** The genes of the individuals kept so far, the HashSet of the pass. */
  function GenesSet(kept: seq<Kept>): set<Genes>
  {
    if |kept| == 0 then {} else GenesSet(kept[..|kept| - 1]) + {kept[|kept| - 1].genes}
  }

  lemma {:induction false} GenesSetMembers(kept: seq<Kept>, g: Genes)
    ensures g in GenesSet(kept) <==> exists j :: 0 <= j < |kept| && kept[j].genes == g
    decreases |kept|
  {
    if |kept| > 0 {
      var front := kept[..|kept| - 1];
      GenesSetMembers(front, g);
      if exists j :: 0 <= j < |front| && front[j].genes == g {
        var j :| 0 <= j < |front| && front[j].genes == g;
        assert kept[j].genes == g;
      }
      if exists j :: 0 <= j < |kept| && kept[j].genes == g {
        var j :| 0 <= j < |kept| && kept[j].genes == g;
        if j < |kept| - 1 {
          assert front[j].genes == g;
        }
      }
    }
  }

  /**
   * The retry loop of one individual from retry `attempt` on: while its
   * genes are among those kept, mutate with the retry probability; the loop
   * gives up once the attempt count exceeds the cutoff.
   */
  function Retried(g: Genes, seen: set<Genes>, p: real, cutoff: int, tape: seq<MutationDraws>, attempt: nat)
    : Outcome<Kept>
    decreases cutoff - attempt
  {
    if g !in seen then Ok(Kept(g, attempt))
    else
      match MutatedGenes(g, EffectiveProbability(RetryProbability(p, cutoff, attempt)), DrawsAt(tape, attempt))
      case Thrown(e) => Thrown(e)
      case Ok(next) => if attempt + 1 > cutoff then Ok(Kept(next, attempt + 1)) else Retried(next, seen, p, cutoff, tape, attempt + 1)
  }

  /**
   * An individual is kept as it is exactly when it is new; a mutant is kept
   * after at most cutoff + 1 retries, and one kept within the cutoff is new.
   */
  lemma {:induction false} RetriedSettles(g: Genes, seen: set<Genes>, p: real, cutoff: int, tape: seq<MutationDraws>, attempt: nat)
    requires attempt <= cutoff
    ensures var r := Retried(g, seen, p, cutoff, tape, attempt);
            r.Ok? ==>
              && attempt <= r.value.retries <= cutoff + 1
              && (r.value.retries == attempt <==> g !in seen)
              && (g !in seen ==> r.value.genes == g)
              && (r.value.retries <= cutoff ==> r.value.genes !in seen)
    decreases cutoff - attempt
  {
    if g in seen {
      var m := MutatedGenes(g, EffectiveProbability(RetryProbability(p, cutoff, attempt)), DrawsAt(tape, attempt));
      if m.Ok? && attempt + 1 <= cutoff {
        RetriedSettles(m.value, seen, p, cutoff, tape, attempt + 1);
      }
    }
  }

  function TapeAt(tapes: seq<seq<MutationDraws>>, k: int): seq<MutationDraws>
  {
    if 0 <= k < |tapes| then tapes[k] else []
  }

  /** The first i positions of the pass over the age-ordered genes. */
  function ClonePass(genes: seq<Genes>, p: real, cutoff: int, tapes: seq<seq<MutationDraws>>, i: nat): Outcome<seq<Kept>>
    requires i <= |genes|
    decreases i
  {
    if i == 0 then Ok([])
    else
      match ClonePass(genes, p, cutoff, tapes, i - 1)
      case Thrown(e) => Thrown(e)
      case Ok(kept) =>
        match Retried(genes[i - 1], GenesSet(kept), p, cutoff, TapeAt(tapes, i - 1), 0)
        case Thrown(e) => Thrown(e)
        case Ok(x) => Ok(kept + [x])
  }

  /** A retry that throws at position k makes the whole pass throw it. */
  lemma ClonePassStops(genes: seq<Genes>, p: real, cutoff: int, tapes: seq<seq<MutationDraws>>, k: nat, kept: seq<Kept>)
    requires k < |genes| && ClonePass(genes, p, cutoff, tapes, k) == Ok(kept)
    requires Retried(genes[k], GenesSet(kept), p, cutoff, TapeAt(tapes, k), 0).Thrown?
    ensures ClonePass(genes, p, cutoff, tapes, |genes|)
            == Thrown(Retried(genes[k], GenesSet(kept), p, cutoff, TapeAt(tapes, k), 0).ex)
  {
    ClonePassThrowsOnward(genes, p, cutoff, tapes, k + 1, |genes|);
  }

  /** A retry that settles at position k appends what it kept, and its genes join the HashSet. */
  lemma ClonePassGoesOn(genes: seq<Genes>, p: real, cutoff: int, tapes: seq<seq<MutationDraws>>, k: nat, kept: seq<Kept>, x: Kept)
    requires k < |genes| && ClonePass(genes, p, cutoff, tapes, k) == Ok(kept)
    requires Retried(genes[k], GenesSet(kept), p, cutoff, TapeAt(tapes, k), 0) == Ok(x)
    ensures ClonePass(genes, p, cutoff, tapes, k + 1) == Ok(kept + [x])
    ensures GenesSet(kept + [x]) == GenesSet(kept) + {x.genes}
  {
    assert (kept + [x])[..|kept|] == kept;
  }

  /** A pass that fails somewhere fails for good. */
  lemma {:induction false} ClonePassThrowsOnward(genes: seq<Genes>, p: real, cutoff: int, tapes: seq<seq<MutationDraws>>, i: nat, j: nat)
    requires i <= j <= |genes|
    requires ClonePass(genes, p, cutoff, tapes, i).Thrown?
    ensures ClonePass(genes, p, cutoff, tapes, j) == ClonePass(genes, p, cutoff, tapes, i)
    decreases j - i
  {
    if i < j {
      ClonePassThrowsOnward(genes, p, cutoff, tapes, i, j - 1);
    }
  }

  /**
   * What the pass promises about its first positions: an individual stays
   * as it is exactly when no older one has its genes, no position takes
   * more than cutoff + 1 retries, and every individual kept within the
   * cutoff differs from every individual before it.
   */
  predicate Separated(kept: seq<Kept>, genes: seq<Genes>, cutoff: int)
    requires |kept| <= |genes|
  {
    forall k :: 0 <= k < |kept| ==> SeparatedAt(kept, genes, cutoff, k)
  }

  /** The promise at position k. */
  predicate SeparatedAt(kept: seq<Kept>, genes: seq<Genes>, cutoff: int, k: int)
    requires 0 <= k < |kept| <= |genes|
  {
    && kept[k].retries <= cutoff + 1
    && (kept[k].retries == 0 <==> NoneBefore(kept, k, genes[k]))
    && (kept[k].retries == 0 ==> kept[k].genes == genes[k])
    && (kept[k].retries <= cutoff ==> NoneBefore(kept, k, kept[k].genes))
  }

  /** No individual kept before position k has the genes g. */
  predicate NoneBefore(kept: seq<Kept>, k: int, g: Genes)
    requires 0 <= k <= |kept|
  {
    forall j :: 0 <= j < k ==> kept[j].genes != g
  }

  /** Genes outside the HashSet are genes no kept individual has. */
  lemma NotInGenesSet(kept: seq<Kept>, g: Genes)
    ensures g !in GenesSet(kept) <==> NoneBefore(kept, |kept|, g)
  {
    GenesSetMembers(kept, g);
  }

  /** Keeping one more individual does not change the promise at an earlier position. */
  lemma SeparatedAtExtends(kept: seq<Kept>, genes: seq<Genes>, cutoff: int, x: Kept, k: int)
    requires 0 <= k < |kept| < |genes| && SeparatedAt(kept, genes, cutoff, k)
    ensures SeparatedAt(kept + [x], genes, cutoff, k)
  {
    assert forall j :: 0 <= j <= k ==> (kept + [x])[j] == kept[j];
  }

  /** One more position of the pass keeps the promise. */
  lemma SeparatedStep(kept: seq<Kept>, genes: seq<Genes>, cutoff: int, x: Kept)
    requires |kept| < |genes| && Separated(kept, genes, cutoff)
    requires x.retries <= cutoff + 1
    requires x.retries == 0 <==> genes[|kept|] !in GenesSet(kept)
    requires x.retries == 0 ==> x.genes == genes[|kept|]
    requires x.retries <= cutoff ==> x.genes !in GenesSet(kept)
    ensures Separated(kept + [x], genes, cutoff)
  {
    var now := kept + [x];
    var i := |kept|;
    NotInGenesSet(kept, genes[i]);
    NotInGenesSet(kept, x.genes);
    assert forall j :: 0 <= j < i ==> now[j] == kept[j];
    assert SeparatedAt(now, genes, cutoff, i);
    forall k | 0 <= k < i
      ensures SeparatedAt(now, genes, cutoff, k)
    {
      SeparatedAtExtends(kept, genes, cutoff, x, k);
    }
  }

  /**
   * The pass keeps the length of the generation and keeps its promise; so a
   * pass that never reaches the cutoff leaves no two individuals with equal
   * genes.
   */
  lemma {:induction false} ClonePassSeparatesClones(genes: seq<Genes>, p: real, cutoff: int, tapes: seq<seq<MutationDraws>>, i: nat)
    requires i <= |genes| && cutoff >= 0
    ensures var r := ClonePass(genes, p, cutoff, tapes, i);
            r.Ok? ==> |r.value| == i && Separated(r.value, genes, cutoff)
    decreases i
  {
    if i > 0 {
      ClonePassSeparatesClones(genes, p, cutoff, tapes, i - 1);
      var before := ClonePass(genes, p, cutoff, tapes, i - 1);
      if before.Ok? {
        var kept := before.value;
        RetriedSettles(genes[i - 1], GenesSet(kept), p, cutoff, TapeAt(tapes, i - 1), 0);
        var x := Retried(genes[i - 1], GenesSet(kept), p, cutoff, TapeAt(tapes, i - 1), 0);
        if x.Ok? {
          SeparatedStep(kept, genes, cutoff, x.value);
        }
      }
    }
  }

  /** Position k or an older one of what the pass kept has the genes g. */
  predicate KeptEarlier(kept: seq<Kept>, g: Genes, k: int)
    requires 0 <= k < |kept|
  {
    exists j :: 0 <= j <= k && kept[j].genes == g
  }

  /**
   * Every individual of the age-ordered generation has its genes kept at its
   * own position or at an older one: a clone is only replaced while an older
   * individual with the same genes stays.
   */
  lemma {:induction false} ClonePassKeepsEveryGenotype(genes: seq<Genes>, p: real, cutoff: int, tapes: seq<seq<MutationDraws>>)
    requires cutoff >= 0
    ensures var r := ClonePass(genes, p, cutoff, tapes, |genes|);
            r.Ok? ==> |r.value| == |genes| && forall k :: 0 <= k < |genes| ==> KeptEarlier(r.value, genes[k], k)
  {
    ClonePassSeparatesClones(genes, p, cutoff, tapes, |genes|);
    var r := ClonePass(genes, p, cutoff, tapes, |genes|);
    if r.Ok? {
      var kept := r.value;
      forall k | 0 <= k < |genes|
        ensures KeptEarlier(kept, genes[k], k)
      {
        assert SeparatedAt(kept, genes, cutoff, k);
        if kept[k].retries == 0 {
          assert kept[k].genes == genes[k];
        } else {
          assert !NoneBefore(kept, k, genes[k]);
        }
      }
    }
  }

  // -------------------------------------------------------- the imperative pass

  /** Position k of the pass's output: the original when it was new, otherwise a retried mutant. */
  predicate Carried(x: Individual, original: Individual, kept: Kept, generation: int)
    reads x
  {
    && x.genes == kept.genes
    && (kept.retries == 0 ==> x == original)
    && (kept.retries > 0 ==> x.birth == generation && x.origin == Some(ForceCloneMutation))
  }

  /** The retry loop of one individual, against the genes kept so far. */
  method RetryClone(original: Individual, seen: set<Genes>, p: real, cutoff: int, retryScale: Double,
                    tape: seq<MutationDraws>, generation: int) returns (r: Outcome<Individual>, ghost kept: Kept)
    requires cutoff >= 1
    ensures var spec := Retried(original.genes, seen, p, cutoff, tape, 0);
            && (r.Ok? <==> spec.Ok?)
            && (r.Thrown? ==> r.ex == spec.ex)
            && (r.Ok? ==> kept == spec.value && Carried(r.value, original, kept, generation)
                          && (kept.retries > 0 ==> fresh(r.value)))
  {
    var individual := original;
    var attempt := 0;
    var going := individual.genes in seen;
    while going
      invariant 0 <= attempt <= cutoff + 1
      invariant going ==> attempt <= cutoff && individual.genes in seen
      invariant Retried(original.genes, seen, p, cutoff, tape, 0)
             == if going then Retried(individual.genes, seen, p, cutoff, tape, attempt) else Ok(Kept(individual.genes, attempt))
      invariant attempt == 0 ==> individual == original
      invariant attempt > 0 ==> fresh(individual) && individual.birth == generation && individual.origin == Some(ForceCloneMutation)
      decreases cutoff + 1 - attempt
    {
      var child := Mutate(individual, RetryProbability(p, cutoff, attempt), retryScale, DrawsAt(tape, attempt));
      if child.Thrown? {
        return Thrown(child.ex), Kept(individual.genes, attempt);
      }
      individual := child.value;
      individual.SetBirth(generation);
      individual.SetOrigin(ForceCloneMutation);
      attempt := attempt + 1;
      going := attempt <= cutoff && individual.genes in seen;
    }
    r, kept := Ok(individual), Kept(individual.genes, attempt);
  }

  /** Every position of the output so far is carried from the same position of the age order. */
  predicate AllCarried(out: seq<Individual>, ordered: seq<Individual>, kept: seq<Kept>, generation: int)
    reads out
  {
    && |out| <= |ordered| && |out| == |kept|
    && forall j :: 0 <= j < |out| ==> Carried(out[j], ordered[j], kept[j], generation)
  }

  lemma CarriedOneMore(out: seq<Individual>, ordered: seq<Individual>, kept: seq<Kept>, generation: int,
                       y: Individual, x: Kept)
    requires AllCarried(out, ordered, kept, generation) && |out| < |ordered|
    requires Carried(y, ordered[|out|], x, generation)
    ensures AllCarried(out + [y], ordered, kept + [x], generation)
  {
    forall j | 0 <= j < |out| + 1
      ensures Carried((out + [y])[j], ordered[j], (kept + [x])[j], generation)
    {
      if j < |out| {
        assert (out + [y])[j] == out[j] && (kept + [x])[j] == kept[j];
      }
    }
  }

  /**
   * One position of the pass: the individual at position k is retried
   * against the HashSet of the genes kept so far; a failing retry makes the
   * whole pass throw, and a settled one is appended with its genes added to
   * the HashSet.
   */
  method KeepOne(ordered: seq<Individual>, ghost genes: seq<Genes>, p: real, cutoff: int, retryScale: Double,
                 tapes: seq<seq<MutationDraws>>, generation: int, k: nat, seen: set<Genes>, ghost kept: seq<Kept>)
    returns (r: Outcome<Individual>, ghost x: Kept)
    requires cutoff >= 1 && k < |ordered| && genes == GenesOf(ordered)
    requires ClonePass(genes, p, cutoff, tapes, k) == Ok(kept) && seen == GenesSet(kept)
    ensures r.Thrown? ==> ClonePass(genes, p, cutoff, tapes, |genes|) == Thrown(r.ex)
    ensures r.Ok? ==>
              && ClonePass(genes, p, cutoff, tapes, k + 1) == Ok(kept + [x])
              && seen + {r.value.genes} == GenesSet(kept + [x])
              && Carried(r.value, ordered[k], x, generation)
              && (x.retries > 0 ==> fresh(r.value))
  {
    assert genes[k] == ordered[k].genes;
    r, x := RetryClone(ordered[k], seen, p, cutoff, retryScale, TapeAt(tapes, k), generation);
    if r.Thrown? {
      ClonePassStops(genes, p, cutoff, tapes, k, kept);
    } else {
      ClonePassGoesOn(genes, p, cutoff, tapes, k, kept, x);
    }
  }

  /**
   * The clone-prevention loop over the age-ordered generation, with the
   * HashSet of kept individuals as a set of genes (the individuals' equals
   * and hashCode compare the genes).
   */
  method ForceClonePass(ordered: seq<Individual>, p: real, scale: Double, cutoff: int, generation: int,
                        tapes: seq<seq<MutationDraws>>) returns (r: Outcome<seq<Individual>>)
    requires cutoff >= 1
    ensures var spec := ClonePass(GenesOf(ordered), p, cutoff, tapes, |ordered|);
            && (r.Ok? <==> spec.Ok?)
            && (r.Thrown? ==> r.ex == spec.ex)
            && (r.Ok? ==>
                  && |r.value| == |ordered| == |spec.value|
                  && AllCarried(r.value, ordered, spec.value, generation))
  {
    var genes := GenesOf(ordered);
    var out: seq<Individual> := [];
    ghost var kept: seq<Kept> := [];
    var seen: set<Genes> := {};
    var retryScale := CloneScale(scale);
    for k := 0 to |ordered|
      invariant ClonePass(genes, p, cutoff, tapes, k) == Ok(kept)
      invariant seen == GenesSet(kept)
      invariant |out| == k == |kept|
      invariant AllCarried(out, ordered, kept, generation)
    {
      var individual, x := KeepOne(ordered, genes, p, cutoff, retryScale, tapes, generation, k, seen, kept);
      if individual.Thrown? {
        return Thrown(individual.ex);
      }
      CarriedOneMore(out, ordered, kept, generation, individual.value, x);
      seen := seen + {individual.value.genes};
      kept := kept + [x];
      out := out + [individual.value];
    }
    assert ClonePass(genes, p, cutoff, tapes, |ordered|) == Ok(kept);
    r := Ok(out);
  }
}

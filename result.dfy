/**
 * The result of a run: per recorded generation, the sub-populations and
 * their fitness summaries, kept in insertion-ordered maps keyed by the
 * generation number, together with the last recorded generation, the
 * runtime so far and the termination reason.
 */
module Results {
  import opened JavaLang
  import opened Individuals
  import opened Statistics
  import Sorting

  /** The state of the engine a result describes; the default is None, not terminated yet. */
  datatype TerminationReason =
    | None
    | Runtime
    | Fitness
    | Generation
    | Staleness
    | Interrupted
    | GenerationStep
    | Exception

  // ------------------------------------------------------ linked hash maps

  /** A LinkedHashMap with int keys: the keys in insertion order and the entries. */
  datatype LinkedMap<V> = LinkedMap(keys: seq<int>, entries: map<int, V>)
  {
    /** Each key is listed once, and exactly the keys of the entries are listed. */
    predicate Valid()
    {
      && Distinct(keys)
      && entries.Keys == set k | k in keys
    }

    /** get: null (None) for an absent key. */
    function Get(k: int): Option<V>
    {
      if k in entries then Some(entries[k]) else Option.None
    }

    /** put: a new key goes to the end, an existing key keeps its place and gets the new value. */
    function Put(k: int, v: V): (r: LinkedMap<V>)
      ensures r.Get(k) == Some(v)
      ensures forall j :: j != k ==> r.Get(j) == Get(j)
      ensures Valid() ==> r.Valid()
      ensures keys <= r.keys
    {
      LinkedMap(if k in entries then keys else keys + [k], entries[k := v])
    }
  }

  predicate Distinct(s: seq<int>)
  {
    forall i, j :: 0 <= i < j < |s| ==> s[i] != s[j]
  }

  function EmptyMap<V>(): (m: LinkedMap<V>)
    ensures m.Valid() && forall k :: m.Get(k) == Option.None
  {
    LinkedMap([], map[])
  }

  /** How many keys at the front are at least the cut. */
  function LeadingAtLeast(keys: seq<int>, cut: int): (n: nat)
    ensures n <= |keys| && (forall j :: 0 <= j < n ==> keys[j] >= cut) && (n < |keys| ==> keys[n] < cut)
    decreases |keys|
  {
    if |keys| == 0 || keys[0] < cut then 0 else 1 + LeadingAtLeast(keys[1..], cut)
  }

  /** clearLinkedHashMap as written: keys are removed from the front while they are at least the cut. */
  function ClearedAsWritten<V>(m: LinkedMap<V>, cut: int): LinkedMap<V>
  {
    var n := LeadingAtLeast(m.keys, cut);
    LinkedMap(m.keys[n..], m.entries - set k | k in m.keys[..n])
  }

  /** The iterator loop of clearLinkedHashMap: remove while at least the cut, return at the first smaller key. */
  method ClearLinkedHashMap<V>(m: LinkedMap<V>, cut: int) returns (r: LinkedMap<V>)
    ensures r == ClearedAsWritten(m, cut)
  {
    var removed := 0;
    var entries := m.entries;
    while removed < |m.keys|
      invariant 0 <= removed <= LeadingAtLeast(m.keys, cut)
      invariant entries == m.entries - set k | k in m.keys[..removed]
      decreases |m.keys| - removed
    {
      if m.keys[removed] >= cut {
        assert m.keys[..removed + 1] == m.keys[..removed] + [m.keys[removed]];
        entries := entries - {m.keys[removed]};
        removed := removed + 1;
      } else {
        break;
      }
    }
    return LinkedMap(m.keys[removed..], entries);
  }

  predicate Ascending(keys: seq<int>)
  {
    forall i, j :: 0 <= i < j < |keys| ==> keys[i] < keys[j]
  }

  /**
   * On keys in ascending order, as the engine records them, the loop as
   * written removes every key when the oldest is at least the cut and
   * nothing otherwise: the generations older than the cut are never removed.
   */
  lemma {:induction false} ClearedAsWrittenAllOrNothing<V>(m: LinkedMap<V>, cut: int)
    requires m.Valid() && Ascending(m.keys)
    ensures |m.keys| > 0 && m.keys[0] >= cut ==> ClearedAsWritten(m, cut).keys == [] && ClearedAsWritten(m, cut).entries == map[]
    ensures |m.keys| == 0 || m.keys[0] < cut ==> ClearedAsWritten(m, cut) == m
  {
    var n := LeadingAtLeast(m.keys, cut);
    if |m.keys| > 0 && m.keys[0] >= cut {
      assert n == |m.keys|;
      assert m.keys[..n] == m.keys;
    } else {
      assert m.keys[..n] == [];
      assert (set k | k in m.keys[..n]) == {};
    }
  }

  /** Generations -1, 0 and 10 recorded, cut at 5: the two older ones survive the clearing. */
  lemma ClearedAsWrittenKeepsOlder<V>(a: V, b: V, c: V)
    ensures var m := LinkedMap([-1, 0, 10], map[-1 := a, 0 := b, 10 := c]);
            ClearedAsWritten(m, 5) == m && -1 in ClearedAsWritten(m, 5).entries
  {
    var m := LinkedMap([-1, 0, 10], map[-1 := a, 0 := b, 10 := c]);
    assert LeadingAtLeast(m.keys, 5) == 0;
    assert m.keys[..0] == [];
    assert (set k | k in m.keys[..0]) == {};
  }

  /** The keys above the cut, in order. */
  function KeysAbove(keys: seq<int>, cut: int): (r: seq<int>)
    ensures forall k :: k in r <==> k in keys && k > cut
    decreases |keys|
  {
    if |keys| == 0 then []
    else (if keys[0] > cut then [keys[0]] else []) + KeysAbove(keys[1..], cut)
  }

  /** The intended clearing: this and every older generation is removed, the rest keeps its order. */
  function ClearedUpTo<V>(m: LinkedMap<V>, cut: int): LinkedMap<V>
  {
    LinkedMap(KeysAbove(m.keys, cut), map k | k in m.entries && k > cut :: m.entries[k])
  }

  /**
   * The intended clearing removes exactly the generations at or below the
   * cut, keeps the values of the others and leaves a valid map.
   */
  lemma {:induction false} ClearedUpToRemovesOlder<V>(m: LinkedMap<V>, cut: int)
    requires m.Valid()
    ensures ClearedUpTo(m, cut).Valid()
    ensures forall k :: ClearedUpTo(m, cut).Get(k) == if k > cut then m.Get(k) else Option.None
  {
    KeysAboveDistinct(m.keys, cut);
    var r := ClearedUpTo(m, cut);
    assert r.entries.Keys == set k | k in r.keys;
  }

  lemma {:induction false} KeysAboveDistinct(keys: seq<int>, cut: int)
    requires Distinct(keys)
    ensures Distinct(KeysAbove(keys, cut))
    decreases |keys|
  {
    if |keys| > 0 {
      var tail := keys[1..];
      assert Distinct(tail) by {
        forall i, j | 0 <= i < j < |tail|
          ensures tail[i] != tail[j]
        {
          assert tail[i] == keys[i + 1] && tail[j] == keys[j + 1];
        }
      }
      KeysAboveDistinct(tail, cut);
      var rest := KeysAbove(tail, cut);
      if keys[0] > cut {
        assert keys[0] !in tail by {
          forall j | 0 <= j < |tail|
            ensures tail[j] != keys[0]
          {
            assert tail[j] == keys[j + 1];
          }
        }
        var r := [keys[0]] + rest;
        forall i, j | 0 <= i < j < |r|
          ensures r[i] != r[j]
        {
          if i == 0 {
            assert r[j] == rest[j - 1] && rest[j - 1] in rest;
          } else {
            assert r[i] == rest[i - 1] && r[j] == rest[j - 1];
          }
        }
        assert KeysAbove(keys, cut) == r;
      } else {
        assert KeysAbove(keys, cut) == [] + rest == rest;
      }
    }
  }

  // ---------------------------------------------------------------- values

  /** The fitness of every individual, in order. */
  function Fitnesses(s: seq<Individual>): (r: seq<real>)
    ensures |r| == |s| && forall i :: 0 <= i < |s| ==> r[i] == s[i].CalculateFitness()
  {
    seq(|s|, i requires 0 <= i < |s| => s[i].CalculateFitness())
  }

  function FitnessesEach(population: seq<seq<Individual>>): (r: seq<seq<real>>)
    ensures |r| == |population| && forall i :: 0 <= i < |population| ==> r[i] == Fitnesses(population[i])
  {
    seq(|population|, i requires 0 <= i < |population| => Fitnesses(population[i]))
  }

  /** Java's == on doubles: false when NaN is involved. */
  predicate SameDouble(a: Double, b: Double)
  {
    !a.NaN? && a == b
  }

  /** getFitness: the minimum of the last generation's summary; a missing summary is IllegalState. */
  function FitnessOf(statistics: LinkedMap<Option<Summary>>, generations: int): Outcome<Double>
  {
    match statistics.Get(generations)
    case Some(Some(s)) => Ok(s.min)
    case _ => Thrown(IllegalState)
  }

  /** The first sub-population summary, from index i on, whose minimum equals the best fitness. */
  function FirstMatchFrom(summaries: seq<Summary>, best: Double, i: nat): (r: Option<nat>)
    ensures r.Some? ==> i <= r.value < |summaries| && SameDouble(summaries[r.value].min, best)
                        && forall k :: i <= k < r.value ==> !SameDouble(summaries[k].min, best)
    ensures r.None? ==> forall k :: i <= k < |summaries| ==> !SameDouble(summaries[k].min, best)
    decreases |summaries| - i
  {
    if i >= |summaries| then Option.None
    else if SameDouble(summaries[i].min, best) then Some(i)
    else FirstMatchFrom(summaries, best, i + 1)
  }

  /** getGeneration(generation, index)[0]: null history is NullPointer, a bad index or an empty array IndexOutOfBounds. */
  function GenerationHead(history: LinkedMap<seq<seq<Individual>>>, generation: int, index: nat): Outcome<Individual>
  {
    match history.Get(generation)
    case None => Thrown(NullPointer)
    case Some(population) =>
      if index < |population| && |population[index]| > 0 then Ok(population[index][0]) else Thrown(IndexOutOfBounds)
  }

  /** getBestResult over the three maps. */
  function BestResultOf(statistics: LinkedMap<Option<Summary>>, subStatistics: LinkedMap<seq<Summary>>,
                        history: LinkedMap<seq<seq<Individual>>>, generations: int): Outcome<Individual>
  {
    match FitnessOf(statistics, generations)
    case Thrown(e) => Thrown(e)
    case Ok(best) =>
      match subStatistics.Get(generations)
      case None => Thrown(NullPointer)
      case Some(summaries) =>
        match FirstMatchFrom(summaries, best, 0)
        case None => Thrown(IllegalState)
        case Some(i) => GenerationHead(history, generations, i)
  }

  class Result {
    var terminationResult: TerminationReason
    var executionTime: int
    var generations: int
    var fullHistory: LinkedMap<seq<seq<Individual>>>
    var generationStatistics: LinkedMap<Option<Summary>>
    var generationStatisticsSubPopulation: LinkedMap<seq<Summary>>
    var exception: Option<JavaLang.Exception>
    const generationStep: int

    /** A result that has recorded nothing: getFitness and getBestResult throw IllegalState. */
    constructor(generationStep: int)
      ensures this.generationStep == generationStep && terminationResult == TerminationReason.None
      ensures executionTime == 0 && generations == 0 && exception == Option.None
      ensures fullHistory == EmptyMap() && generationStatistics == EmptyMap() && generationStatisticsSubPopulation == EmptyMap()
      ensures GetFitness() == Thrown(IllegalState) && GetBestResultValue() == Thrown(IllegalState)
    {
      this.generationStep := generationStep;
      terminationResult := TerminationReason.None;
      executionTime := 0;
      generations := 0;
      fullHistory := EmptyMap();
      generationStatistics := EmptyMap();
      generationStatisticsSubPopulation := EmptyMap();
      exception := Option.None;
    }

    /** summaryStatistics of one sub-population's fitness values. */
    static method SummaryOf(s: seq<Individual>) returns (summary: Summary)
      ensures summary == Stats(Fitnesses(s))
    {
      summary := Empty;
      var j := 0;
      while j < |s|
        invariant 0 <= j <= |s| && summary == Stats(Fitnesses(s)[..j])
      {
        assert Fitnesses(s)[..j + 1][..j] == Fitnesses(s)[..j];
        summary := Accept(summary, s[j].CalculateFitness());
        j := j + 1;
      }
      assert Fitnesses(s)[..j] == Fitnesses(s);
    }

    /** The loop of addGeneration: each sub-population's summary, and their combination. */
    static method Summaries(population: seq<seq<Individual>>) returns (subs: seq<Summary>, summary: Option<Summary>)
      ensures subs == StatsEach(FitnessesEach(population)) && summary == CombineAll(subs)
    {
      subs := [];
      summary := Option.None;
      var i := 0;
      while i < |population|
        invariant 0 <= i <= |population| && |subs| == i
        invariant forall k :: 0 <= k < i ==> subs[k] == Stats(Fitnesses(population[k]))
        invariant summary == CombineAll(subs)
      {
        var s := SummaryOf(population[i]);
        assert (subs + [s])[..i] == subs;
        if i == 0 {
          summary := Some(s);
        } else {
          summary := Some(Combine(summary.value, s));
        }
        subs := subs + [s];
        i := i + 1;
      }
      assert subs == StatsEach(FitnessesEach(population));
    }

    /**
     * addGeneration: the sub-populations, their summaries and the combined
     * summary (none for an empty list) are stored under the generation, which
     * becomes the last generation; a runtime below the recorded one throws
     * IllegalState after all of that is stored.
     */
    method AddGeneration(generation: int, population: seq<seq<Individual>>, runtime: int) returns (error: Option<JavaLang.Exception>)
      modifies this
      ensures fullHistory == old(fullHistory).Put(generation, population)
      ensures generationStatisticsSubPopulation == old(generationStatisticsSubPopulation).Put(generation, StatsEach(FitnessesEach(population)))
      ensures generationStatistics == old(generationStatistics).Put(generation, CombineAll(StatsEach(FitnessesEach(population))))
      ensures generations == generation
      ensures runtime < old(executionTime) ==> error == Some(IllegalState) && executionTime == old(executionTime)
      ensures runtime >= old(executionTime) ==> error == Option.None && executionTime == runtime
      ensures terminationResult == old(terminationResult) && exception == old(exception)
    {
      var subs, summary := Summaries(population);
      fullHistory := fullHistory.Put(generation, population);
      generationStatisticsSubPopulation := generationStatisticsSubPopulation.Put(generation, subs);
      generationStatistics := generationStatistics.Put(generation, summary);
      generations := generation;
      if runtime < executionTime {
        return Some(IllegalState);
      }
      executionTime := runtime;
      return Option.None;
    }

    /** getFitness. */
    function GetFitness(): Outcome<Double>
      reads this
    {
      FitnessOf(generationStatistics, generations)
    }

    function GetBestResultValue(): Outcome<Individual>
      reads this
    {
      BestResultOf(generationStatistics, generationStatisticsSubPopulation, fullHistory, generations)
    }

    /** getBestResult: the head of the first sub-population whose minimum is the best fitness. */
    method GetBestResult() returns (r: Outcome<Individual>)
      ensures r == GetBestResultValue()
    {
      var best := GetFitness();
      if best.Thrown? {
        return Thrown(best.ex);
      }
      var subSum := generationStatisticsSubPopulation.Get(generations);
      if subSum.None? {
        return Thrown(NullPointer);
      }
      var i := 0;
      while i < |subSum.value|
        invariant 0 <= i <= |subSum.value|
        invariant FirstMatchFrom(subSum.value, best.value, 0) == FirstMatchFrom(subSum.value, best.value, i)
      {
        if SameDouble(subSum.value[i].min, best.value) {
          return GenerationHead(fullHistory, generations, i);
        }
        i := i + 1;
      }
      return Thrown(IllegalState);
    }

    /** getGeneration(generation, index): null (None) for a generation that was not recorded. */
    function GetGeneration(generation: int, index: int): (r: Outcome<Option<seq<Individual>>>)
      reads this
      ensures fullHistory.Get(generation).None? ==> r == Ok(Option.None)
      ensures fullHistory.Get(generation).Some? ==>
                (r.Ok? <==> 0 <= index < |fullHistory.Get(generation).value|)
                && (r.Ok? ==> r.value == Some(fullHistory.Get(generation).value[index]))
    {
      match fullHistory.Get(generation)
      case None => Ok(Option.None)
      case Some(population) =>
        if 0 <= index < |population| then Ok(Some(population[index])) else Thrown(IndexOutOfBounds)
    }

    function GetGenerationCount(): int
      reads this
    {
      generations
    }

    method SetTerminationReason(reason: TerminationReason)
      modifies this`terminationResult
      ensures terminationResult == reason
    {
      terminationResult := reason;
    }

    function GetTerminationReason(): TerminationReason
      reads this
    {
      terminationResult
    }

    method SetException(e: JavaLang.Exception)
      modifies this`exception
      ensures exception == Some(e)
    {
      exception := Some(e);
    }

    /** resetState(): every recorded individual is dropped, the statistics are kept. */
    method ResetState()
      modifies this`fullHistory
      ensures fullHistory == EmptyMap()
    {
      fullHistory := EmptyMap();
    }

    /** resetState(resetStatistics): the statistics go as well when asked. */
    method ResetStateStatistics(resetStatistics: bool)
      modifies this`fullHistory, this`generationStatistics, this`generationStatisticsSubPopulation
      ensures fullHistory == EmptyMap()
      ensures resetStatistics ==> generationStatistics == EmptyMap() && generationStatisticsSubPopulation == EmptyMap()
                                  && GetFitness() == Thrown(IllegalState)
      ensures !resetStatistics ==> generationStatistics == old(generationStatistics)
                                   && generationStatisticsSubPopulation == old(generationStatisticsSubPopulation)
    {
      ResetState();
      if resetStatistics {
        generationStatistics := EmptyMap();
        generationStatisticsSubPopulation := EmptyMap();
      }
    }

    /** resetState(fromGeneration): the individuals of this and every older generation are dropped. */
    method ResetStateFrom(fromGeneration: int)
      modifies this`fullHistory
      ensures fullHistory == ClearedUpTo(old(fullHistory), fromGeneration)
    {
      fullHistory := ClearedUpTo(fullHistory, fromGeneration);
    }

    /** resetState(fromGeneration, resetStatistics). */
    method ResetStateFromStatistics(fromGeneration: int, resetStatistics: bool)
      modifies this`fullHistory, this`generationStatistics, this`generationStatisticsSubPopulation
      ensures fullHistory == ClearedUpTo(old(fullHistory), fromGeneration)
      ensures resetStatistics ==> generationStatistics == ClearedUpTo(old(generationStatistics), fromGeneration)
                                  && generationStatisticsSubPopulation == ClearedUpTo(old(generationStatisticsSubPopulation), fromGeneration)
      ensures !resetStatistics ==> generationStatistics == old(generationStatistics)
                                   && generationStatisticsSubPopulation == old(generationStatisticsSubPopulation)
    {
      ResetStateFrom(fromGeneration);
      if resetStatistics {
        generationStatistics := ClearedUpTo(generationStatistics, fromGeneration);
        generationStatisticsSubPopulation := ClearedUpTo(generationStatisticsSubPopulation, fromGeneration);
      }
    }
  }

  // --------------------------------------------------------- the best result

  lemma {:induction false} FlattenMembers(xss: seq<seq<real>>, x: real)
    ensures x in Flatten(xss) <==> exists i :: 0 <= i < |xss| && x in xss[i]
    decreases |xss|
  {
    if |xss| > 0 {
      FlattenMembers(xss[..|xss| - 1], x);
      if x in Flatten(xss) && x !in xss[|xss| - 1] {
        var i :| 0 <= i < |xss| - 1 && x in xss[..|xss| - 1][i];
      }
      if exists i :: 0 <= i < |xss| && x in xss[i] {
        var i :| 0 <= i < |xss| && x in xss[i];
        if i < |xss| - 1 {
          assert xss[..|xss| - 1][i] == xss[i];
        }
      }
    }
  }

  /** The combined summary of a generation holding someone: its minimum is the smallest fitness, held by a sub-population. */
  lemma {:induction false} GenerationMinimum(population: seq<seq<Individual>>)
    requires exists i :: 0 <= i < |population| && |population[i]| > 0
    ensures var fs := FitnessesEach(population);
            var c := CombineAll(StatsEach(fs));
            && c.Some? && c.value.min.Finite?
            && (forall i, j :: 0 <= i < |population| && 0 <= j < |population[i]| ==> c.value.min.value <= population[i][j].CalculateFitness())
            && exists h :: 0 <= h < |population| && Stats(fs[h]).min == c.value.min
  {
    var fs := FitnessesEach(population);
    var all := Flatten(fs);
    var i0 :| 0 <= i0 < |population| && |population[i0]| > 0;
    FlattenMembers(fs, fs[i0][0]);
    CombineAllIsFlatten(fs);
    StatsDescribe(all);
    var m := Stats(all).min.value;
    forall i, j | 0 <= i < |population| && 0 <= j < |population[i]|
      ensures m <= population[i][j].CalculateFitness()
    {
      assert fs[i][j] == population[i][j].CalculateFitness();
      FlattenMembers(fs, fs[i][j]);
      var k :| 0 <= k < |all| && all[k] == fs[i][j];
    }
    FlattenMembers(fs, m);
    var h :| 0 <= h < |fs| && m in fs[h];
    StatsDescribe(fs[h]);
    var q :| 0 <= q < |fs[h]| && fs[h][q] == m;
    assert m <= Stats(fs[h]).min.value;
  }

  /** In a sorted sub-population whose minimum is the generation's smallest fitness, the head holds it. */
  lemma {:induction false} HeadHoldsMinimum(sub: seq<Individual>, m: real)
    requires Sorting.FitnessSorted(sub) && Stats(Fitnesses(sub)).min == Finite(m)
    ensures |sub| > 0 && sub[0].CalculateFitness() == m
  {
    StatsDescribe(Fitnesses(sub));
    var p :| 0 <= p < |sub| && Fitnesses(sub)[p] == m;
    assert sub[0].CalculateFitness() <= sub[p].CalculateFitness();
  }

  /**
   * After recording a generation whose sub-populations are sorted by
   * fitness and hold at least one individual, getFitness answers the
   * smallest fitness of the generation and getBestResult answers the head of
   * a sub-population holding it: an individual of the generation whose
   * fitness no individual beats.
   */
  lemma {:induction false} BestResultIsFittest(statistics: LinkedMap<Option<Summary>>, subStatistics: LinkedMap<seq<Summary>>,
                                               history: LinkedMap<seq<seq<Individual>>>, g: int, population: seq<seq<Individual>>)
    requires forall i :: 0 <= i < |population| ==> Sorting.FitnessSorted(population[i])
    requires exists i :: 0 <= i < |population| && |population[i]| > 0
    ensures var each := StatsEach(FitnessesEach(population));
            var stats := statistics.Put(g, CombineAll(each));
            var r := BestResultOf(stats, subStatistics.Put(g, each), history.Put(g, population), g);
            && FitnessOf(stats, g).Ok? && FitnessOf(stats, g).value.Finite?
            && (forall i, j :: 0 <= i < |population| && 0 <= j < |population[i]| ==>
                  FitnessOf(stats, g).value.value <= population[i][j].CalculateFitness())
            && r.Ok? && (exists i :: 0 <= i < |population| && |population[i]| > 0 && r.value == population[i][0])
            && Finite(r.value.CalculateFitness()) == FitnessOf(stats, g).value
  {
    var fs := FitnessesEach(population);
    var each := StatsEach(fs);
    var stats := statistics.Put(g, CombineAll(each));
    GenerationMinimum(population);
    var best := CombineAll(each).value.min;
    assert FitnessOf(stats, g) == Ok(best);
    var h :| 0 <= h < |population| && Stats(fs[h]).min == best;
    var found := FirstMatchFrom(each, best, 0);
    assert found.Some?;
    var i := found.value;
    HeadHoldsMinimum(population[i], best.value);
    assert BestResultOf(stats, subStatistics.Put(g, each), history.Put(g, population), g) == Ok(population[i][0]);
  }
}

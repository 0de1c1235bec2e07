/**
 * Migration between sub-populations: a strategy names the candidates a
 * sub-population offers, and a direction decides which sub-populations send
 * candidates to which target. Pooled candidates are sorted by fitness and
 * filtered once more by the same strategy.
 */
module Migration {
  import opened JavaLang
  import opened Individuals
  import opened Sorting

  // ---------------------------------------------------------- strategies

  /** The migration strategies; getMigrationCount answers the constructor's count. */
  datatype MigrationStrategy = Elitism(migrationCount: int) | Ancients(migrationCount: int)

  function Min(a: int, b: int): int { if a < b then a else b }

  /**
   * getMigrationCandidates. Both clamp the count to the population length and
   * allocate an array of that size, which throws for a negative count.
   * Elitism answers the first count members. Ancients fills a priority queue
   * whose initial capacity is the count, which throws for a count below 1, and
   * then answers the population itself.
   */
  function Candidates(strategy: MigrationStrategy, population: seq<Individual>, migrationCount: int)
    : (r: Outcome<seq<Individual>>)
  {
    var count := Min(migrationCount, |population|);
    if count < 0 then Thrown(NegativeArraySize)
    else match strategy
      case Elitism(_) => Ok(population[..count])
      case Ancients(_) => if count < 1 then Thrown(IllegalArgument) else Ok(population)
  }

  /**
   * Elitism answers min(count, n) members; on a population sorted by fitness
   * they are the fittest, in order. A count of 0 answers no one.
   */
  lemma {:induction false} ElitismTakesTheFittest(population: seq<Individual>, migrationCount: int)
    requires FitnessSorted(population)
    ensures var r := Candidates(Elitism(migrationCount), population, migrationCount);
            && (r.Ok? <==> migrationCount >= 0)
            && (r.Ok? ==> |r.value| == Min(migrationCount, |population|) && r.value <= population
                          && forall c, x :: c in r.value && x in population[|r.value|..] ==> c.CalculateFitness() <= x.CalculateFitness())
            && (migrationCount == 0 ==> r == Ok([]))
  {
    var r := Candidates(Elitism(migrationCount), population, migrationCount);
    if r.Ok? {
      var k := |r.value|;
      forall c, x | c in r.value && x in population[k..]
        ensures c.CalculateFitness() <= x.CalculateFitness()
      {
        var i :| 0 <= i < k && population[..k][i] == c;
        var j :| 0 <= j < |population[k..]| && population[k..][j] == x;
        assert population[k + j] == x;
      }
    }
  }

  /** Ancients answers the whole population, whatever count it is given, when it answers at all. */
  lemma {:induction false} AncientsAnswersThePopulation(population: seq<Individual>, migrationCount: int)
    ensures var r := Candidates(Ancients(migrationCount), population, migrationCount);
            && (r.Ok? <==> migrationCount >= 1 && |population| >= 1)
            && (r.Ok? ==> r.value == population)
            && (r.Thrown? ==> r.ex == (if migrationCount < 0 then NegativeArraySize else IllegalArgument))
  {
  }

  /**
   * Ancients.getMigrationCandidates with its priority queue: the queue puts
   * the larger birth first, and count members are polled into an array that
   * is then dropped.
   */
  method AncientsCandidates(population: seq<Individual>, migrationCount: int) returns (r: Outcome<seq<Individual>>)
    ensures r == Candidates(Ancients(migrationCount), population, migrationCount)
  {
    var count := Min(migrationCount, |population|);
    if count < 0 {
      return Thrown(NegativeArraySize);
    }
    if count < 1 {
      return Thrown(IllegalArgument);
    }
    var prio := population;
    var result: seq<Individual> := [];
    var i := 0;
    while i < count
      invariant 0 <= i <= count && |result| == i && |prio| == |population| - i
      invariant multiset(result) + multiset(prio) == multiset(population)
      invariant forall a, b :: a in result && b in prio ==> a.birth >= b.birth
    {
      var k := Youngest(prio);
      result := result + [prio[k]];
      assert prio == prio[..k] + [prio[k]] + prio[k + 1..];
      prio := prio[..k] + prio[k + 1..];
      i := i + 1;
    }
    return Ok(population);
  }

  /** The head of the queue: the first member with the largest birth. */
  method Youngest(queue: seq<Individual>) returns (k: nat)
    requires |queue| > 0
    ensures k < |queue| && forall j :: 0 <= j < |queue| ==> queue[j].birth <= queue[k].birth
  {
    k := 0;
    var j := 1;
    while j < |queue|
      invariant k < j <= |queue|
      invariant forall q :: 0 <= q < j ==> queue[q].birth <= queue[k].birth
    {
      if queue[j].birth > queue[k].birth {
        k := j;
      }
      j := j + 1;
    }
  }

  // ---------------------------------------------------------- directions

  datatype Direction = Network | Forward | SingleForward | SingleForwardWrap | BidirectionalWrap

  /** population.get(i) on the list of sub-populations. */
  function SubPopulation(population: seq<seq<Individual>>, i: int): (r: Outcome<seq<Individual>>)
  {
    if 0 <= i < |population| then Ok(population[i]) else Thrown(IndexOutOfBounds)
  }

  /** The candidates of the listed sub-populations, appended in the order listed. */
  function Pool(strategy: MigrationStrategy, population: seq<seq<Individual>>, sources: seq<int>, count: int)
    : (r: Outcome<seq<Individual>>)
    decreases |sources|
  {
    if |sources| == 0 then Ok([])
    else
      match Pool(strategy, population, sources[..|sources| - 1], count)
      case Thrown(e) => Thrown(e)
      case Ok(front) =>
        match SubPopulation(population, sources[|sources| - 1])
        case Thrown(e) => Thrown(e)
        case Ok(sub) =>
          match Candidates(strategy, sub, count)
          case Thrown(e) => Thrown(e)
          case Ok(c) => Ok(front + c)
  }

  /** The candidates of one sub-population, with no second filtering. */
  function FromOne(strategy: MigrationStrategy, population: seq<seq<Individual>>, source: int, count: int)
    : (r: Outcome<seq<Individual>>)
  {
    match SubPopulation(population, source)
    case Thrown(e) => Thrown(e)
    case Ok(sub) => Candidates(strategy, sub, count)
  }

  /** The pseudo population: the pool, sorted by fitness and filtered by the strategy again. */
  function Refiltered(strategy: MigrationStrategy, pool: Outcome<seq<Individual>>, count: int): Outcome<seq<Individual>>
  {
    match pool
    case Thrown(e) => Thrown(e)
    case Ok(p) => Candidates(strategy, SortByFitness(p), count)
  }

  /** 0, 1, …, n-1 without the target. */
  function AllBut(n: nat, target: int): (r: seq<int>)
    ensures forall i :: i in r <==> 0 <= i < n && i != target
    decreases n
  {
    if n == 0 then [] else AllBut(n - 1, target) + (if n - 1 == target then [] else [n - 1])
  }

  /** 0, 1, …, n-1. */
  function Below(n: int): (r: seq<int>)
    ensures forall i :: i in r <==> 0 <= i < n
    decreases if n < 0 then 0 else n
  {
    if n <= 0 then [] else Below(n - 1) + [n - 1]
  }

  /** The two neighbours BidirectionalWrapMigration reads, with its index arithmetic as written. */
  function BidirectionalSources(n: int, target: int): (r: seq<int>)
    ensures |r| == 2
  {
    var left := if target - 1 < 0 then n - 1 else target - 1;
    var right := target + 1;
    var left' := if right > n - 1 then 0 else left;
    [left', right]
  }

  /** migratedIndividuals of every direction, as written. */
  function Migrated(direction: Direction, population: seq<seq<Individual>>, target: int, count: int, strategy: MigrationStrategy)
    : (r: Outcome<seq<Individual>>)
  {
    var n := |population|;
    match direction
    case Network =>
      Refiltered(strategy, Pool(strategy, population, AllBut(n, target), count), count)
    case Forward =>
      if target == n - 1 then Ok([])
      else Refiltered(strategy, Pool(strategy, population, Below(target), count), count)
    case SingleForward =>
      if target == 0 then Ok([]) else FromOne(strategy, population, target - 1, count)
    case SingleForwardWrap =>
      FromOne(strategy, population, if target == 0 then n - 1 else target - 1, count)
    case BidirectionalWrap =>
      if target == n - 1 then Ok([])
      else Refiltered(strategy, Pool(strategy, population, BidirectionalSources(n, target), count), count)
  }

  /** The sub-populations a direction reads for a target. */
  function Sources(direction: Direction, n: nat, target: int): (r: seq<int>)
  {
    match direction
    case Network => AllBut(n, target)
    case Forward => if target == n - 1 then [] else Below(target)
    case SingleForward => if target == 0 then [] else [target - 1]
    case SingleForwardWrap => [if target == 0 then n - 1 else target - 1]
    case BidirectionalWrap => if target == n - 1 then [] else BidirectionalSources(n, target)
  }

  /** Every migrant is a member of one of the given sub-populations. */
  predicate DrawnFrom(migrants: seq<Individual>, population: seq<seq<Individual>>, sources: seq<int>)
  {
    forall x :: x in migrants ==> exists i :: i in sources && 0 <= i < |population| && x in population[i]
  }

  lemma {:induction false} CandidatesAreMembers(strategy: MigrationStrategy, population: seq<Individual>, count: int)
    ensures var r := Candidates(strategy, population, count);
            r.Ok? ==> forall x :: x in r.value ==> x in population
  {
  }

  lemma {:induction false} PoolDrawnFrom(strategy: MigrationStrategy, population: seq<seq<Individual>>, sources: seq<int>, count: int)
    ensures var r := Pool(strategy, population, sources, count);
            r.Ok? ==> DrawnFrom(r.value, population, sources)
    decreases |sources|
  {
    if |sources| > 0 {
      var front := sources[..|sources| - 1];
      var i := sources[|sources| - 1];
      PoolDrawnFrom(strategy, population, front, count);
      var r := Pool(strategy, population, sources, count);
      if r.Ok? {
        var f := Pool(strategy, population, front, count).value;
        var c := Candidates(strategy, population[i], count).value;
        CandidatesAreMembers(strategy, population[i], count);
        assert r.value == f + c;
        forall x | x in r.value
          ensures exists k :: k in sources && 0 <= k < |population| && x in population[k]
        {
          if x in f {
            var k :| k in front && 0 <= k < |population| && x in population[k];
            assert k in sources;
          } else {
            assert x in c;
            assert i in sources;
          }
        }
      }
    }
  }

  lemma {:induction false} RefilteredDrawnFrom(strategy: MigrationStrategy, population: seq<seq<Individual>>, sources: seq<int>, count: int)
    ensures var r := Refiltered(strategy, Pool(strategy, population, sources, count), count);
            r.Ok? ==> DrawnFrom(r.value, population, sources)
  {
    var pool := Pool(strategy, population, sources, count);
    PoolDrawnFrom(strategy, population, sources, count);
    if pool.Ok? {
      var sorted := SortByFitness(pool.value);
      CandidatesAreMembers(strategy, sorted, count);
      forall x | x in sorted
        ensures x in pool.value
      {
        SortedMembers(pool.value, x);
      }
    }
  }

  /**
   * Every migrant comes from a sub-population the direction names for the
   * target: Network reads every other one, Forward the lower ones,
   * SingleForward the one below, SingleForwardWrap the one below with the
   * last one for target 0, and BidirectionalWrap the two neighbours.
   */
  lemma {:induction false} MigrantsDrawnFromSources(direction: Direction, population: seq<seq<Individual>>, target: int,
                                                    count: int, strategy: MigrationStrategy)
    ensures var r := Migrated(direction, population, target, count, strategy);
            r.Ok? ==> DrawnFrom(r.value, population, Sources(direction, |population|, target))
  {
    var n := |population|;
    var sources := Sources(direction, n, target);
    match direction
    case Network => RefilteredDrawnFrom(strategy, population, sources, count);
    case Forward => if target != n - 1 { RefilteredDrawnFrom(strategy, population, sources, count); }
    case SingleForward =>
      if target != 0 && 0 <= target - 1 < n {
        CandidatesAreMembers(strategy, population[target - 1], count);
      }
    case SingleForwardWrap =>
      var source := if target == 0 then n - 1 else target - 1;
      if 0 <= source < n {
        CandidatesAreMembers(strategy, population[source], count);
      }
    case BidirectionalWrap => if target != n - 1 { RefilteredDrawnFrom(strategy, population, sources, count); }
  }

  /**
   * Which sub-populations are read. Network and Forward never read the target
   * (Forward nothing at or above it); SingleForwardWrap reads the target only
   * when it is the only sub-population; BidirectionalWrap reads the same
   * neighbour twice when there are two.
   */
  lemma {:induction false} SourcesOfEachDirection(n: nat, target: int)
    ensures target !in Sources(Network, n, target)
    ensures forall i :: i in Sources(Forward, n, target) ==> i < target
    ensures Sources(SingleForward, n, target) == (if target == 0 then [] else [target - 1])
    ensures 0 <= target < n && n > 1 ==> Sources(SingleForwardWrap, n, target) != [target]
    ensures n == 1 ==> Sources(SingleForwardWrap, n, 0) == [0]
    ensures n == 2 ==> Sources(BidirectionalWrap, n, 0) == [1, 1]
  {
  }

  /**
   * The targets that receive no one: Forward and BidirectionalWrap answer an
   * empty array for the last sub-population, SingleForward for the first, and
   * Network with Elitism for a single sub-population.
   */
  lemma {:induction false} EmptyTargets(population: seq<seq<Individual>>, count: int, strategy: MigrationStrategy)
    ensures |population| > 0 ==> Migrated(Forward, population, |population| - 1, count, strategy) == Ok([])
    ensures |population| > 0 ==> Migrated(BidirectionalWrap, population, |population| - 1, count, strategy) == Ok([])
    ensures Migrated(SingleForward, population, 0, count, strategy) == Ok([])
    ensures |population| == 1 && count >= 0 ==> Migrated(Network, population, 0, count, Elitism(count)) == Ok([])
  {
    if |population| == 1 && count >= 0 {
      assert AllBut(1, 0) == [];
    }
  }

  /** With Elitism, no target receives more than the migration count; a target that receives no one gets an empty array. */
  lemma {:induction false} ElitismBoundsMigrants(direction: Direction, population: seq<seq<Individual>>, target: int, count: int)
    ensures var r := Migrated(direction, population, target, count, Elitism(count));
            r.Ok? ==> |r.value| <= count || r.value == []
  {
    var n := |population|;
    var strategy := Elitism(count);
    match direction
    case SingleForward =>
      if target != 0 && 0 <= target - 1 < n {
        ElitismCountBound(population[target - 1], count);
      }
    case SingleForwardWrap =>
      var source := if target == 0 then n - 1 else target - 1;
      if 0 <= source < n {
        ElitismCountBound(population[source], count);
      }
    case Network =>
      var pool := Pool(strategy, population, AllBut(n, target), count);
      if pool.Ok? {
        ElitismCountBound(SortByFitness(pool.value), count);
      }
    case Forward =>
      var pool := Pool(strategy, population, Below(target), count);
      if target != n - 1 && pool.Ok? {
        ElitismCountBound(SortByFitness(pool.value), count);
      }
    case BidirectionalWrap =>
      var pool := Pool(strategy, population, BidirectionalSources(n, target), count);
      if target != n - 1 && pool.Ok? {
        ElitismCountBound(SortByFitness(pool.value), count);
      }
  }

  /** Elitism answers at most the count. */
  lemma ElitismCountBound(population: seq<Individual>, count: int)
    ensures var r := Candidates(Elitism(count), population, count);
            r.Ok? ==> |r.value| <= count
  {
  }

  // --------------------------------------------------- the intended topologies

  /**
   * The topologies the class comments describe: Forward's last target pools
   * every lower sub-population, and BidirectionalWrap's last target pools its
   * left neighbour and, wrapping, the first sub-population.
   */
  function MigratedIntended(direction: Direction, population: seq<seq<Individual>>, target: int, count: int,
                            strategy: MigrationStrategy): (r: Outcome<seq<Individual>>)
  {
    var n := |population|;
    match direction
    case Forward => Refiltered(strategy, Pool(strategy, population, Below(target), count), count)
    case BidirectionalWrap => Refiltered(strategy, Pool(strategy, population, NeighbourSources(n, target), count), count)
    case _ => Migrated(direction, population, target, count, strategy)
  }

  /** The left and right neighbour of the target on a ring of n sub-populations. */
  function NeighbourSources(n: int, target: int): (r: seq<int>)
  {
    [if target - 1 < 0 then n - 1 else target - 1, if target + 1 > n - 1 then 0 else target + 1]
  }

  /** The candidates of a list of non-empty sub-populations are non-empty under Elitism with a positive count. */
  lemma {:induction false} ElitismPoolNonEmpty(population: seq<seq<Individual>>, sources: seq<int>, count: int)
    requires count >= 1 && |sources| >= 1
    requires forall i :: i in sources ==> 0 <= i < |population| && |population[i]| >= 1
    ensures var r := Pool(Elitism(count), population, sources, count);
            r.Ok? && |r.value| >= 1
    decreases |sources|
  {
    var front := sources[..|sources| - 1];
    forall i | i in front
      ensures 0 <= i < |population| && |population[i]| >= 1
    {
      assert i in sources;
    }
    if |front| >= 1 {
      ElitismPoolNonEmpty(population, front, count);
    } else {
      assert Pool(Elitism(count), population, front, count) == Ok([]);
    }
    assert sources[|sources| - 1] in sources;
  }

  /**
   * Under the intended topologies every target of a ring of at least two
   * non-empty sub-populations receives a migrant, Forward's first target
   * excepted.
   */
  lemma {:induction false} IntendedTargetsReceive(direction: Direction, population: seq<seq<Individual>>, target: int, count: int)
    requires direction == Forward || direction == BidirectionalWrap
    requires |population| >= 2 && 0 <= target < |population| && count >= 1
    requires forall i :: 0 <= i < |population| ==> |population[i]| >= 1
    requires direction == Forward ==> target >= 1
    ensures var r := MigratedIntended(direction, population, target, count, Elitism(count));
            r.Ok? && 1 <= |r.value| <= count
  {
    var n := |population|;
    var sources := if direction == Forward then Below(target) else NeighbourSources(n, target);
    if direction == Forward {
      assert 0 in sources;
    }
    ElitismPoolNonEmpty(population, sources, count);
    var pool := Pool(Elitism(count), population, sources, count).value;
    SortByFitnessIsSortedPermutation(pool);
    assert MigratedIntended(direction, population, target, count, Elitism(count))
        == Candidates(Elitism(count), SortByFitness(pool), count);
  }

  /** The intended BidirectionalWrap reads exactly the two neighbours on the ring. */
  lemma {:induction false} NeighboursOnTheRing(n: int, target: int)
    requires 0 <= target < n
    ensures NeighbourSources(n, target) == [(target - 1) % n, (target + 1) % n]
    ensures n > 2 ==> target !in NeighbourSources(n, target)
  {
    if target == 0 {
      RingBelow(n - 1, n);
    } else {
      RingIn(target - 1, n);
    }
    if target == n - 1 {
      RingAbove(0, n);
    } else {
      RingIn(target + 1, n);
    }
  }

  /** One step left of 0 on the ring [0, n) is brought back by % n. */
  lemma RingBelow(r: int, n: int)
    requires 0 <= r < n
    ensures (r - n) % n == r
  {
    assert (r - n) / n == -1;
  }

  /** One step right of n - 1 on the ring [0, n) is brought back by % n. */
  lemma RingAbove(r: int, n: int)
    requires 0 <= r < n
    ensures (r + n) % n == r
  {
    assert (r + n) / n == 1;
  }

  /** A value on the ring [0, n) is left alone by % n. */
  lemma RingIn(r: int, n: int)
    requires 0 <= r < n
    ensures r % n == r
  {
  }

  /**
   * The last target under the topologies as written receives nothing where
   * the comments promise migrants.
   */
  lemma {:induction false} LastTargetLosesItsMigrants(population: seq<seq<Individual>>, count: int)
    requires |population| >= 2 && count >= 1
    requires forall i :: 0 <= i < |population| ==> |population[i]| >= 1
    ensures Migrated(Forward, population, |population| - 1, count, Elitism(count)) == Ok([])
    ensures Migrated(BidirectionalWrap, population, |population| - 1, count, Elitism(count)) == Ok([])
    ensures MigratedIntended(Forward, population, |population| - 1, count, Elitism(count)) != Ok([])
    ensures MigratedIntended(BidirectionalWrap, population, |population| - 1, count, Elitism(count)) != Ok([])
  {
    IntendedTargetsReceive(Forward, population, |population| - 1, count);
    IntendedTargetsReceive(BidirectionalWrap, population, |population| - 1, count);
  }

  // ------------------------------------------------- the imperative directions

  /** NetworkMigration.migratedIndividuals: the pool is appended in a loop over the other sub-populations. */
  method NetworkMigrated(population: seq<seq<Individual>>, target: int, count: int, strategy: MigrationStrategy)
    returns (r: Outcome<seq<Individual>>)
    ensures r == Migrated(Network, population, target, count, strategy)
  {
    var migrationIndividuals: seq<Individual> := [];
    var i := 0;
    while i < |population|
      invariant 0 <= i <= |population|
      invariant PoolUpTo(strategy, population, target, i, count) == Ok(migrationIndividuals)
    {
      if i != target {
        var c := Candidates(strategy, population[i], count);
        if c.Thrown? {
          PoolUpToThrowsOnward(strategy, population, target, i + 1, |population|, count);
          PoolUpToIsPool(strategy, population, target, |population|, count);
          return Thrown(c.ex);
        }
        migrationIndividuals := migrationIndividuals + c.value;
      }
      i := i + 1;
    }
    PoolUpToIsPool(strategy, population, target, |population|, count);
    r := Candidates(strategy, SortByFitness(migrationIndividuals), count);
  }

  /** The Network pool of the sub-populations below i, the target excepted, built as the loop builds it. */
  function PoolUpTo(strategy: MigrationStrategy, population: seq<seq<Individual>>, target: int, i: nat, count: int)
    : (r: Outcome<seq<Individual>>)
    decreases i
  {
    if i == 0 then Ok([])
    else
      match PoolUpTo(strategy, population, target, i - 1, count)
      case Thrown(e) => Thrown(e)
      case Ok(front) =>
        if i - 1 == target then Ok(front)
        else
          match FromOne(strategy, population, i - 1, count)
          case Thrown(e) => Thrown(e)
          case Ok(c) => Ok(front + c)
  }

  /** The pool the loop builds is the pool of AllBut. */
  lemma {:induction false} PoolUpToIsPool(strategy: MigrationStrategy, population: seq<seq<Individual>>, target: int, i: nat, count: int)
    ensures PoolUpTo(strategy, population, target, i, count) == Pool(strategy, population, AllBut(i, target), count)
    decreases i
  {
    if i > 0 {
      var j := i - 1;
      PoolUpToIsPool(strategy, population, target, j, count);
      PoolUpToStep(strategy, population, target, j, count);
      assert j + 1 == i;
    }
  }

  /** One more index keeps PoolUpTo and the pool of AllBut together. */
  lemma PoolUpToStep(strategy: MigrationStrategy, population: seq<seq<Individual>>, target: int, i: nat, count: int)
    requires PoolUpTo(strategy, population, target, i, count) == Pool(strategy, population, AllBut(i, target), count)
    ensures PoolUpTo(strategy, population, target, i + 1, count) == Pool(strategy, population, AllBut(i + 1, target), count)
  {
    if i == target {
      AllButSkipsTheTarget(i, target);
    } else {
      NetworkTurn(strategy, population, target, i, count);
    }
  }

  /** One turn of the Network loop past the target: the pool so far, then the candidates of i. */
  lemma NetworkTurn(strategy: MigrationStrategy, population: seq<seq<Individual>>, target: int, i: nat, count: int)
    requires i != target
    ensures Pool(strategy, population, AllBut(i + 1, target), count)
         == match Pool(strategy, population, AllBut(i, target), count)
            case Thrown(e) => Thrown(e)
            case Ok(front) =>
              match FromOne(strategy, population, i, count)
              case Thrown(e) => Thrown(e)
              case Ok(c) => Ok(front + c)
  {
    assert AllBut(i + 1, target) == AllBut(i, target) + [i];
    PoolOneMore(strategy, population, AllBut(i, target), i, count);
  }

  /** Once the pool up to i throws, every longer pool throws the same exception. */
  lemma {:induction false} PoolUpToThrowsOnward(strategy: MigrationStrategy, population: seq<seq<Individual>>, target: int, i: nat, j: nat, count: int)
    requires i <= j && PoolUpTo(strategy, population, target, i, count).Thrown?
    ensures PoolUpTo(strategy, population, target, j, count) == PoolUpTo(strategy, population, target, i, count)
    decreases j - i
  {
    if i < j {
      PoolUpToThrowsOnward(strategy, population, target, i, j - 1, count);
    }
  }

  /** The turn of the target adds no source. */
  lemma AllButSkipsTheTarget(i: nat, target: int)
    requires i == target
    ensures AllBut(i + 1, target) == AllBut(i, target)
  {
    assert AllBut(i + 1, target) == AllBut(i, target) + [];
  }

  /** ForwardMigration.migratedIndividuals: the pool is appended in a loop over the lower sub-populations. */
  method ForwardMigrated(population: seq<seq<Individual>>, target: int, count: int, strategy: MigrationStrategy)
    returns (r: Outcome<seq<Individual>>)
    ensures r == Migrated(Forward, population, target, count, strategy)
  {
    if target == |population| - 1 {
      return Ok([]);
    }
    var migrationIndividuals: seq<Individual> := [];
    var i := 0;
    while i < target
      invariant 0 <= i <= (if target < 0 then 0 else target)
      invariant Pool(strategy, population, Below(i), count) == Ok(migrationIndividuals)
    {
      ForwardStep(strategy, population, target, i, count, migrationIndividuals);
      var c := FromOne(strategy, population, i, count);
      if c.Thrown? {
        return Thrown(c.ex);
      }
      migrationIndividuals := migrationIndividuals + c.value;
      i := i + 1;
    }
    assert Below(target) == Below(i);
    r := Candidates(strategy, SortByFitness(migrationIndividuals), count);
  }

  /** One turn of the Forward loop: the pool grows by the candidates of i, or throws for good. */
  lemma {:induction false} ForwardStep(strategy: MigrationStrategy, population: seq<seq<Individual>>, target: int, i: int,
                                       count: int, front: seq<Individual>)
    requires 0 <= i < target && Pool(strategy, population, Below(i), count) == Ok(front)
    ensures var c := FromOne(strategy, population, i, count);
            && (c.Thrown? ==> Pool(strategy, population, Below(target), count) == Thrown(c.ex))
            && (c.Ok? ==> Pool(strategy, population, Below(i + 1), count) == Ok(front + c.value))
  {
    PoolOneMore(strategy, population, Below(i), i, count);
    assert Below(i + 1) == Below(i) + [i];
    if FromOne(strategy, population, i, count).Thrown? {
      BelowPrefix(i + 1, target);
      PoolThrowsOnward(strategy, population, Below(i + 1), Below(target), count);
    }
  }

  /** Below(i) is a prefix of Below(j) for i <= j. */
  lemma {:induction false} BelowPrefix(i: int, j: int)
    requires 0 <= i <= j
    ensures Below(i) <= Below(j)
    decreases j - i
  {
    if i < j {
      BelowPrefix(i, j - 1);
    }
  }

  /** AllBut(i) is a prefix of AllBut(j) for i <= j. */
  lemma {:induction false} AllButPrefix(i: nat, j: nat, target: int)
    requires i <= j
    ensures AllBut(i, target) <= AllBut(j, target)
    decreases j - i
  {
    if i < j {
      AllButPrefix(i, j - 1, target);
    }
  }

  /** The pool of one more source: the pool so far, then that source's candidates. */
  lemma PoolOneMore(strategy: MigrationStrategy, population: seq<seq<Individual>>, sources: seq<int>, s: int, count: int)
    ensures Pool(strategy, population, sources + [s], count)
         == match Pool(strategy, population, sources, count)
            case Thrown(e) => Thrown(e)
            case Ok(front) =>
              match FromOne(strategy, population, s, count)
              case Thrown(e) => Thrown(e)
              case Ok(c) => Ok(front + c)
  {
    assert (sources + [s])[..|sources|] == sources;
  }

  /** Once the pool of a prefix of sources throws, the pool of all of them throws the same exception. */
  lemma {:induction false} PoolThrowsOnward(strategy: MigrationStrategy, population: seq<seq<Individual>>, prefix: seq<int>,
                                            sources: seq<int>, count: int)
    requires prefix <= sources && Pool(strategy, population, prefix, count).Thrown?
    ensures Pool(strategy, population, sources, count) == Pool(strategy, population, prefix, count)
    decreases |sources|
  {
    if |sources| > |prefix| {
      PoolThrowsOnward(strategy, population, prefix, sources[..|sources| - 1], count);
    } else {
      assert sources == prefix;
    }
  }

  /**
   * BidirectionalWrapMigration.migratedIndividuals: the neighbour indices are
   * reassigned in place, and the wrap of the right neighbour assigns the left
   * index.
   */
  method BidirectionalWrapMigrated(population: seq<seq<Individual>>, target: int, count: int, strategy: MigrationStrategy)
    returns (r: Outcome<seq<Individual>>)
    ensures r == Migrated(BidirectionalWrap, population, target, count, strategy)
  {
    var n := |population|;
    if target == n - 1 {
      return Ok([]);
    }
    var leftIndex := target - 1;
    var rightIndex := target + 1;
    if leftIndex < 0 {
      leftIndex := n - 1;
    }
    if rightIndex > n - 1 {
      leftIndex := 0;
    }
    assert BidirectionalSources(n, target) == [leftIndex, rightIndex];
    assert [leftIndex, rightIndex][..1] == [leftIndex] && [leftIndex][..0] == [];
    var left := SubPopulation(population, leftIndex);
    if left.Thrown? {
      assert Pool(strategy, population, [leftIndex], count) == Thrown(left.ex);
      return Thrown(left.ex);
    }
    var fromLeft := Candidates(strategy, left.value, count);
    if fromLeft.Thrown? {
      assert Pool(strategy, population, [leftIndex], count) == Thrown(fromLeft.ex);
      return Thrown(fromLeft.ex);
    }
    assert [] + fromLeft.value == fromLeft.value;
    assert Pool(strategy, population, [leftIndex], count) == Ok(fromLeft.value);
    var right := SubPopulation(population, rightIndex);
    if right.Thrown? {
      return Thrown(right.ex);
    }
    var fromRight := Candidates(strategy, right.value, count);
    if fromRight.Thrown? {
      return Thrown(fromRight.ex);
    }
    r := Candidates(strategy, SortByFitness(fromLeft.value + fromRight.value), count);
  }
}

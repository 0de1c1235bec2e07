/**
 * The migration step of the engine's main loop: the migrants of every
 * target are computed before any sub-population is written, then the worst
 * slot of each target receives the first of its migrants, then every
 * sub-population is sorted again. The copy as written throws for a target
 * that is offered no migrant; the engine of this model uses the copy that
 * leaves such a target as it is, and the topologies its class comments
 * describe.
 */
module EngineMigration {
  import opened JavaLang
  import opened Individuals
  import opened Sorting
  import opened Migration

  /** The engine's field migrationCount: one individual is copied into each target. */
  const MIGRATION_COUNT: int := 1

  // ------------------------------------------------------------ the copy

  /**
   * System.arraycopy(migrants, 0, sub, |sub| - count, count): the last count
   * slots of the target take the first count migrants, and a negative count,
   * or a source or a target shorter than count, throws.
   */
  function ArrayCopied(migrants: seq<Individual>, sub: seq<Individual>, count: int): (r: Outcome<seq<Individual>>)
    ensures r.Ok? <==> 0 <= count <= |migrants| && count <= |sub|
    ensures r.Thrown? ==> r.ex == IndexOutOfBounds
    ensures r.Ok? ==> |r.value| == |sub|
    ensures r.Ok? ==> forall i :: 0 <= i < |sub| ==>
                        r.value[i] == if i < |sub| - count then sub[i] else migrants[i - (|sub| - count)]
  {
    if count < 0 || |migrants| < count || |sub| < count then Thrown(IndexOutOfBounds)
    else Ok(sub[..|sub| - count] + migrants[..count])
  }

  /** The copy the engine intends: a target offered no migrant keeps its population. */
  function Received(migrants: seq<Individual>, sub: seq<Individual>, count: int): (r: Outcome<seq<Individual>>)
  {
    if |migrants| == 0 then Ok(sub) else ArrayCopied(migrants, sub, count)
  }

  /**
   * A non-empty target receives one migrant into its last slot when it is
   * offered one, and is left as it is otherwise; either way the copy does
   * not throw.
   */
  lemma ReceivedOne(migrants: seq<Individual>, sub: seq<Individual>)
    requires |sub| >= 1
    ensures var r := Received(migrants, sub, MIGRATION_COUNT);
            && r.Ok? && |r.value| == |sub|
            && r.value[..|sub| - 1] == sub[..|sub| - 1]
            && r.value[|sub| - 1] == if |migrants| == 0 then sub[|sub| - 1] else migrants[0]
  {
    var r := Received(migrants, sub, MIGRATION_COUNT);
    assert r.value[..|sub| - 1] == sub[..|sub| - 1];
  }

  /**
   * The target the topologies as written offer nothing, Forward's last or
   * SingleForward's first, makes the copy as written throw, while the
   * intended copy leaves it as it is.
   */
  lemma {:induction false} EmptyOfferThrows(population: seq<seq<Individual>>, count: int)
    requires |population| >= 2 && count >= 1
    requires forall i :: 0 <= i < |population| ==> |population[i]| >= 1
    ensures var last := |population| - 1;
            var offered := Migrated(Forward, population, last, count, Elitism(count));
            && offered == Ok([])
            && ArrayCopied(offered.value, population[last], MIGRATION_COUNT) == Thrown(IndexOutOfBounds)
            && Received(offered.value, population[last], MIGRATION_COUNT) == Ok(population[last])
    ensures var offered := Migrated(SingleForward, population, 0, count, Elitism(count));
            && offered == Ok([])
            && ArrayCopied(offered.value, population[0], MIGRATION_COUNT) == Thrown(IndexOutOfBounds)
            && Received(offered.value, population[0], MIGRATION_COUNT) == Ok(population[0])
  {
    LastTargetLosesItsMigrants(population, count);
  }

  // ------------------------------------------------------- the migrants

  /**
   * migratedIndividuals(population, target, getMigrationCount(), strategy)
   * of every target, with the intended topologies.
   */
  function Offers(direction: Direction, strategy: MigrationStrategy, population: seq<seq<Individual>>)
    : (r: seq<Outcome<seq<Individual>>>)
    ensures |r| == |population|
    ensures forall t :: 0 <= t < |population| ==> r[t] == MigratedIntended(direction, population, t, strategy.migrationCount, strategy)
  {
    seq(|population|, t requires 0 <= t < |population| =>
      MigratedIntended(direction, population, t, strategy.migrationCount, strategy))
  }

  /**
   * The migrants of the targets 0 to i-1, collected in order before any
   * sub-population is written; the first target whose migrants throw
   * decides the outcome.
   */
  function MigrantsUpTo(offers: seq<Outcome<seq<Individual>>>, i: nat): (r: Outcome<seq<seq<Individual>>>)
    requires i <= |offers|
    ensures r.Ok? ==> |r.value| == i
    decreases i
  {
    if i == 0 then Ok([])
    else
      match MigrantsUpTo(offers, i - 1)
      case Thrown(e) => Thrown(e)
      case Ok(front) =>
        match offers[i - 1]
        case Thrown(e) => Thrown(e)
        case Ok(m) => Ok(front + [m])
  }

  /**
   * The migrants of a prefix are there exactly when no target of it throws,
   * and they are each target's migrants, in target order.
   */
  lemma {:induction false} MigrantsEach(offers: seq<Outcome<seq<Individual>>>, i: nat)
    requires i <= |offers|
    ensures var r := MigrantsUpTo(offers, i);
            && (r.Ok? <==> forall t :: 0 <= t < i ==> offers[t].Ok?)
            && (r.Ok? ==> forall t :: 0 <= t < i ==> offers[t] == Ok(r.value[t]))
    decreases i
  {
    if i > 0 {
      MigrantsEach(offers, i - 1);
    }
  }

  /** Once a target's migrants throw, every later prefix throws the same. */
  lemma {:induction false} MigrantsThrowOnward(offers: seq<Outcome<seq<Individual>>>, i: nat, j: nat)
    requires i <= j <= |offers| && MigrantsUpTo(offers, i).Thrown?
    ensures MigrantsUpTo(offers, j) == MigrantsUpTo(offers, i)
    decreases j
  {
    if j > i {
      MigrantsThrowOnward(offers, i, j - 1);
    }
  }

  // ------------------------------------------------------- the writes

  /** The sub-populations after some writes, and the exception that stopped the writes, if one did. */
  datatype Written = Written(population: seq<seq<Individual>>, error: Option<Exception>)

  /** The targets 0 to i-1 receive their migrants in order; the first copy that throws stops the writes. */
  function ReceivedUpTo(population: seq<seq<Individual>>, migrants: seq<seq<Individual>>, i: nat): (w: Written)
    requires i <= |population| && |migrants| == |population|
    ensures |w.population| == |population|
    ensures forall t :: i <= t < |population| ==> w.population[t] == population[t]
    decreases i
  {
    if i == 0 then Written(population, Option.None)
    else
      var w := ReceivedUpTo(population, migrants, i - 1);
      if w.error.Some? then w
      else
        match Received(migrants[i - 1], w.population[i - 1], MIGRATION_COUNT)
        case Thrown(e) => Written(w.population, Some(e))
        case Ok(sub) => Written(w.population[i - 1 := sub], Option.None)
  }

  /** Once a copy throws, the later targets are not written. */
  lemma {:induction false} ReceivedStopsOnward(population: seq<seq<Individual>>, migrants: seq<seq<Individual>>, i: nat, j: nat)
    requires i <= j <= |population| && |migrants| == |population|
    requires ReceivedUpTo(population, migrants, i).error.Some?
    ensures ReceivedUpTo(population, migrants, j) == ReceivedUpTo(population, migrants, i)
    decreases j
  {
    if j > i {
      ReceivedStopsOnward(population, migrants, i, j - 1);
    }
  }

  /** Non-empty targets never make a copy throw, and each written target is its own copy. */
  lemma {:induction false} ReceivedEach(population: seq<seq<Individual>>, migrants: seq<seq<Individual>>, i: nat)
    requires i <= |population| && |migrants| == |population|
    requires forall t :: 0 <= t < |population| ==> |population[t]| >= 1
    ensures ReceivedUpTo(population, migrants, i).error.None?
    ensures forall t :: 0 <= t < i ==>
              Received(migrants[t], population[t], MIGRATION_COUNT) == Ok(ReceivedUpTo(population, migrants, i).population[t])
    decreases i
  {
    if i > 0 {
      ReceivedEach(population, migrants, i - 1);
      ReceivedOne(migrants[i - 1], population[i - 1]);
    }
  }

  /** Every sub-population sorted by fitness. */
  function SortedEach(population: seq<seq<Individual>>): (r: seq<seq<Individual>>)
    ensures |r| == |population|
    ensures forall i :: 0 <= i < |population| ==> r[i] == SortByFitness(population[i])
  {
    seq(|population|, i requires 0 <= i < |population| => SortByFitness(population[i]))
  }

  /** Every sorted sub-population is ordered by fitness, keeps its members and its length. */
  lemma SortedEachSorts(population: seq<seq<Individual>>)
    ensures forall i :: 0 <= i < |population| ==>
              && FitnessSorted(SortedEach(population)[i])
              && |SortedEach(population)[i]| == |population[i]|
              && multiset(SortedEach(population)[i]) == multiset(population[i])
  {
    forall i | 0 <= i < |population|
      ensures FitnessSorted(SortByFitness(population[i]))
    {
      SortByFitnessIsSortedPermutation(population[i]);
    }
    forall i | 0 <= i < |population|
      ensures |SortByFitness(population[i])| == |population[i]| && multiset(SortByFitness(population[i])) == multiset(population[i])
    {
      SortByFitnessIsSortedPermutation(population[i]);
    }
  }

  // ------------------------------------------------------- the step

  /**
   * The migration step: the migrants of every target, then the writes,
   * then a sort of every sub-population. An exception while computing the
   * migrants leaves the population as it was; one while writing leaves the
   * writes made before it, unsorted.
   */
  function MigrationStep(direction: Direction, strategy: MigrationStrategy, population: seq<seq<Individual>>): Written
  {
    match MigrantsUpTo(Offers(direction, strategy, population), |population|)
    case Thrown(e) => Written(population, Some(e))
    case Ok(migrants) =>
      var w := ReceivedUpTo(population, migrants, |population|);
      if w.error.Some? then w else Written(SortedEach(w.population), Option.None)
  }

  /**
   * One target after the step: as long as before, sorted by fitness, and
   * holding the old members with the last (worst) one replaced by the
   * first migrant, when there is one.
   */
  predicate Arrived(before: seq<Individual>, migrants: seq<Individual>, after: seq<Individual>)
    requires |before| >= 1
  {
    && |after| == |before|
    && FitnessSorted(after)
    && multiset(after) == multiset(before[..|before| - 1] + [if |migrants| == 0 then before[|before| - 1] else migrants[0]])
  }

  /**
   * With non-empty sub-populations the step fails exactly when computing
   * some target's migrants throws, and then changes nothing; otherwise every
   * target has received the first of its intended migrants in place of its
   * last member and is sorted again.
   */
  lemma {:induction false} MigrationStepMeaning(direction: Direction, strategy: MigrationStrategy, population: seq<seq<Individual>>)
    requires forall t :: 0 <= t < |population| ==> |population[t]| >= 1
    ensures var r := MigrationStep(direction, strategy, population);
            var m := MigrantsUpTo(Offers(direction, strategy, population), |population|);
            && (r.error.None? <==> m.Ok?)
            && (m.Thrown? ==> r == Written(population, Some(m.ex)))
            && (m.Ok? ==> |r.population| == |population|
                          && forall t :: 0 <= t < |population| ==> Arrived(population[t], m.value[t], r.population[t]))
  {
    var m := MigrantsUpTo(Offers(direction, strategy, population), |population|);
    MigrantsEach(Offers(direction, strategy, population), |population|);
    if m.Ok? {
      ReceivedEach(population, m.value, |population|);
      var w := ReceivedUpTo(population, m.value, |population|);
      forall t | 0 <= t < |population|
        ensures Arrived(population[t], m.value[t], SortedEach(w.population)[t])
      {
        ArrivedAfterSort(population[t], m.value[t], w.population[t]);
      }
    }
  }

  /** A received target, once sorted, has arrived. */
  lemma ArrivedAfterSort(before: seq<Individual>, migrants: seq<Individual>, written: seq<Individual>)
    requires |before| >= 1 && Received(migrants, before, MIGRATION_COUNT) == Ok(written)
    ensures Arrived(before, migrants, SortByFitness(written))
  {
    ReceivedOne(migrants, before);
    var n := |before|;
    assert written == written[..n - 1] + [written[n - 1]];
    SortByFitnessIsSortedPermutation(written);
  }

  /**
   * A sorted target of at least two members keeps its fittest member
   * through the step, so its best fitness does not get worse.
   */
  lemma ArrivalKeepsTheBest(before: seq<Individual>, migrants: seq<Individual>, after: seq<Individual>)
    requires |before| >= 2 && FitnessSorted(before) && Arrived(before, migrants, after)
    ensures after[0].CalculateFitness() <= before[0].CalculateFitness()
  {
    var rest := before[..|before| - 1] + [if |migrants| == 0 then before[|before| - 1] else migrants[0]];
    assert rest[0] == before[0];
    assert before[0] in multiset(after);
    var j :| 0 <= j < |after| && after[j] == before[0];
    assert j == 0 || after[0].CalculateFitness() <= after[j].CalculateFitness();
  }

  /**
   * The migration step as the loops of calculate run it: migrants for every
   * target first, then the copies, then the sorts.
   */
  method Migrate(direction: Direction, strategy: MigrationStrategy, population: seq<seq<Individual>>) returns (w: Written)
    ensures w == MigrationStep(direction, strategy, population)
  {
    var migrants := CollectMigrants(direction, strategy, population);
    if migrants.Thrown? {
      return Written(population, Some(migrants.ex));
    }
    w := WriteMigrants(population, migrants.value);
    if w.error.None? {
      var sorted := SortAll(w.population);
      w := Written(sorted, Option.None);
    }
  }

  /** The first loop: the migrants of every target, in order, stopping at the first exception. */
  method CollectMigrants(direction: Direction, strategy: MigrationStrategy, population: seq<seq<Individual>>)
    returns (r: Outcome<seq<seq<Individual>>>)
    ensures r == MigrantsUpTo(Offers(direction, strategy, population), |population|)
  {
    var n := |population|;
    ghost var offers := Offers(direction, strategy, population);
    var migrating: seq<seq<Individual>> := [];
    for i := 0 to n
      invariant MigrantsUpTo(offers, i) == Ok(migrating)
    {
      var m := MigratedIntended(direction, population, i, strategy.migrationCount, strategy);
      if m.Thrown? {
        MigrantsThrowOnward(offers, i + 1, n);
        return Thrown(m.ex);
      }
      migrating := migrating + [m.value];
    }
    return Ok(migrating);
  }

  /** The second loop: each target receives its migrants in place, stopping at the first exception. */
  method WriteMigrants(population: seq<seq<Individual>>, migrants: seq<seq<Individual>>) returns (w: Written)
    requires |migrants| == |population|
    ensures w == ReceivedUpTo(population, migrants, |population|)
  {
    var n := |population|;
    var written := population;
    for i := 0 to n
      invariant ReceivedUpTo(population, migrants, i) == Written(written, Option.None)
    {
      var r := Received(migrants[i], written[i], MIGRATION_COUNT);
      if r.Thrown? {
        ReceivedStopsOnward(population, migrants, i + 1, n);
        return Written(written, Some(r.ex));
      }
      written := written[i := r.value];
    }
    return Written(written, Option.None);
  }

  /** Arrays.sort on every sub-population, in place. */
  method SortAll(population: seq<seq<Individual>>) returns (sorted: seq<seq<Individual>>)
    ensures sorted == SortedEach(population)
  {
    var n := |population|;
    sorted := population;
    for i := 0 to n
      invariant |sorted| == n
      invariant forall t :: 0 <= t < i ==> sorted[t] == SortByFitness(population[t])
      invariant forall t :: i <= t < n ==> sorted[t] == population[t]
    {
      sorted := sorted[i := SortByFitness(sorted[i])];
    }
  }
}

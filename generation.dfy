/**
 * One generation step of a sub-population (performGeneration): scaling and
 * selection of parents, the shuffle, the elite copies, the mutation children,
 * the crossover children, clone prevention and the final sort. The new
 * generation is built in an array of slots; the phases are specified by
 * functions on the genes the children get.
 */
module Generation {
  import opened JavaLang
  import opened Individuals
  import opened Sorting
  import opened FitnessScaling
  import opened Selection
  import opened CrossoverStrategy
  import opened Breeding
  import opened ParentPool
  import opened Mutation
  import opened ForceClone

  // ------------------------------------------------------------ selection

  /** The selection strategy of a sub-population; a tournament keeps a size it may clamp. */
  datatype SelectionStrategy = StochasticUniform | Roulette | Remainder | TournamentSelection(tournament: Tournament)

  /** The draws a selection consumes: uniform doubles, and the ints of the tournament rounds. */
  datatype SelectionDraws = SelectionDraws(reals: seq<real>, ints: seq<int>)

  /** The object a selection strategy may change. */
  function SelectionObjects(s: SelectionStrategy): set<object>
  {
    if s.TournamentSelection? then {s.tournament} else {}
  }

  /** An array of individuals seen as nullable slots. */
  function Lifted(r: Outcome<seq<Individual>>): (l: Outcome<seq<Option<Individual>>>)
    ensures l.Ok? <==> r.Ok?
    ensures l.Thrown? ==> l.ex == r.ex
    ensures l.Ok? ==> l.value == Present(r.value)
  {
    match r
    case Thrown(e) => Thrown(e)
    case Ok(v) => Ok(Present(v))
  }

  /** Roulette.selectParents as a whole: slot i holds the section draw i lands in, or null. */
  function RouletteParents(scaled: seq<ScaledFitness>, count: int, draws: seq<real>): Outcome<seq<Option<Individual>>>
  {
    if count < 0 then Thrown(NegativeArraySize)
    else Ok(seq(count, i requires 0 <= i < count => RouletteSlot(scaled, WheelDraw(draws, i, count as real))))
  }

  /** selectParents of each strategy; a tournament plays with its size clamped to the population. */
  function Selected(s: SelectionStrategy, tournamentSize: nat, scaled: seq<ScaledFitness>, count: int, d: SelectionDraws)
    : Outcome<seq<Option<Individual>>>
  {
    match s
    case StochasticUniform => Lifted(StochasticUniformParents(scaled, count, d.reals))
    case Roulette => RouletteParents(scaled, count, d.reals)
    case Remainder => RemainderParents(scaled, count, d.reals)
    case TournamentSelection(_) => Lifted(TournamentParents(scaled, count, d.ints, Clamped(tournamentSize, |scaled|)))
  }

  /** Every strategy answers exactly the requested number of parents, and none for a negative count. */
  lemma SelectedAnswersTheCount(s: SelectionStrategy, tournamentSize: nat, scaled: seq<ScaledFitness>, count: int, d: SelectionDraws)
    ensures var r := Selected(s, tournamentSize, scaled, count, d);
            && (r.Ok? ==> |r.value| == count)
            && (count < 0 ==> r.Thrown?)
  {
  }

  /** selectParents through the interface. */
  method SelectParents(s: SelectionStrategy, scaled: seq<ScaledFitness>, count: int, d: SelectionDraws)
    returns (r: Outcome<seq<Option<Individual>>>)
    modifies SelectionObjects(s)
    ensures r == Selected(s, if s.TournamentSelection? then old(s.tournament.tournamentSize) else 0, scaled, count, d)
  {
    match s
    case StochasticUniform =>
      var parents := StochasticUniformSelect(scaled, count, d.reals);
      r := Lifted(parents);
    case Roulette =>
      r := RouletteSelect(scaled, count, d.reals);
      if r.Ok? {
        assert r.value == RouletteParents(scaled, count, d.reals).value;
      }
    case Remainder =>
      r := RemainderSelect(scaled, count, d.reals);
    case TournamentSelection(t) =>
      var parents := t.SelectParents(scaled, count, d.ints);
      r := Lifted(parents);
  }

  // --------------------------------------------------- the new generation

  /** Java's int index of child i behind `offset` earlier slots. */
  function Slot(i: int, offset: int): Int32
  {
    Wrap32(i + offset)
  }

  /** Within Java's ranges, a slot is the plain sum exactly when that sum is an index. */
  lemma SlotExact(i: int, offset: Int32, n: int)
    requires 0 <= i <= INT_MAX && n <= INT_MAX
    ensures (0 <= Slot(i, offset) < n) <==> (0 <= i + offset < n)
    ensures 0 <= i + offset < n ==> Slot(i, offset) == i + offset
  {
    assert IsInt(offset);
    var x := i + offset;
    if !IsInt(x) {
      assert INT_MAX < x <= 2 * INT_MAX;
      var r := Slot(i, offset);
      assert IsInt(r) && (x - r) % TWO_TO_32 == 0;
      var q := (x - r) / TWO_TO_32;
      assert x - r == TWO_TO_32 * q;
      assert 0 < x - r < 2 * TWO_TO_32;
      assert q == 1;
      assert r < 0;
    }
  }

  /** Children 0 to count - 1 behind `offset` all land inside an array of n slots. */
  predicate SlotsFit(count: int, offset: int, n: int)
  {
    forall i :: 0 <= i < count ==> 0 <= Slot(i, offset) < n
  }

  /** Slot x holds a child with these genes, made by this operator in this generation. */
  predicate Made(x: Individual?, genes: Genes, origin: Origin, generation: int)
    reads x
  {
    x != null && x.genes == genes && x.origin == Some(origin) && x.birth == generation
  }

  /** One more child made with its genes keeps every child made. */
  lemma AllMadeOneMore(children: seq<Individual>, genes: seq<Genes>, child: Individual, origin: Origin, generation: int)
    requires AllMade(children, genes, origin, generation) && Made(child, child.genes, origin, generation)
    ensures AllMade(children + [child], genes + [child.genes], origin, generation)
  {
  }

  /** The slots after the children were stored one by one at their slots behind `offset`. */
  function Written(before: seq<Individual?>, children: seq<Individual>, offset: int): (r: seq<Individual?>)
    ensures |r| == |before|
    decreases |children|
  {
    if |children| == 0 then before
    else
      var w := Written(before, children[..|children| - 1], offset);
      var slot := Slot(|children| - 1, offset);
      if 0 <= slot < |w| then w[slot := children[|children| - 1]] else w
  }

  /** Storing one more child updates the slots of the earlier ones by its own slot. */
  lemma WrittenStep(before: seq<Individual?>, children: seq<Individual>, child: Individual, offset: int)
    requires 0 <= Slot(|children|, offset) < |before|
    ensures Written(before, children + [child], offset) == Written(before, children, offset)[Slot(|children|, offset) := child]
  {
    assert (children + [child])[..|children|] == children;
  }

  /** Children stored behind a non-negative offset inside the array fill a contiguous run of slots. */
  lemma {:induction false} WrittenInPlace(before: seq<Individual?>, children: seq<Individual>, offset: int)
    requires 0 <= offset && offset + |children| <= |before| <= INT_MAX
    ensures forall i :: 0 <= i < |children| ==> Slot(i, offset) == offset + i
    ensures Written(before, children, offset) == before[..offset] + children + before[offset + |children|..]
    decreases |children|
  {
    forall i | 0 <= i < |children|
      ensures Slot(i, offset) == offset + i
    {
      assert IsInt(offset + i);
    }
    if |children| > 0 {
      var k := |children| - 1;
      WrittenInPlace(before, children[..k], offset);
      var w := Written(before, children[..k], offset);
      assert w == before[..offset] + children[..k] + before[offset + k..];
      assert Slot(k, offset) == offset + k;
      assert w[offset + k := children[k]] == before[..offset] + children + before[offset + |children|..];
    }
  }

  /** Every child has its genes and is marked with the operator and the generation. */
  ghost predicate AllMade(children: seq<Individual>, genes: seq<Genes>, origin: Origin, generation: int)
    reads children
  {
    |children| == |genes| && forall j :: 0 <= j < |children| ==> Made(children[j], genes[j], origin, generation)
  }

  /**
   * The slots hold what they held before with the children stored behind
   * `offset`, and every child has its genes and is marked with the operator
   * and the generation.
   */
  ghost predicate Stored(next: array<Individual?>, before: seq<Individual?>, children: seq<Individual>, offset: int,
                         genes: seq<Genes>, origin: Origin, generation: int)
    reads next, children
  {
    next[..] == Written(before, children, offset) && AllMade(children, genes, origin, generation)
  }

  // ------------------------------------------------------------ elite

  /** The elite loop reads past the old population or writes past the new generation. */
  function EliteError(populationSize: nat, e: int, n: nat): Option<Exception>
  {
    if e > populationSize || e > n then Some(IndexOutOfBounds) else Option.None
  }

  /** The elite loop: the first e individuals of the old population, the very same objects. */
  method CopyElite(next: array<Individual?>, population: seq<Individual>, e: int) returns (error: Option<Exception>)
    modifies next
    ensures error == EliteError(|population|, e, next.Length)
    ensures error.None? ==> forall i :: 0 <= i < next.Length ==> next[i] == if i < e then population[i] else old(next[i])
  {
    var i := 0;
    while i < e
      invariant 0 <= i <= (if e > 0 then e else 0) && i <= |population| && i <= next.Length
      invariant forall j :: 0 <= j < next.Length ==> next[j] == if j < i then population[j] else old(next[j])
    {
      if i >= |population| || i >= next.Length {
        return Some(IndexOutOfBounds);
      }
      next[i] := population[i];
      i := i + 1;
    }
    return Option.None;
  }

  // ------------------------------------------------------------ mutation

  /**
   * One turn of the mutation loop on what is left of the pool: the parent is
   * removed from the tail and mutated, and the child goes to slot i +
   * offset. An empty pool, a null parent, a failed mutation or a slot
   * outside the array throws.
   */
  function MutantTurn(parents: seq<Option<Individual>>, offset: int, n: int, p: real, tape: seq<MutationDraws>, i: nat)
    : (r: Outcome<Genes>)
    ensures r.Ok? ==> |parents| > 0 && parents[|parents| - 1].Some? && 0 <= Slot(i, offset) < n
                      && MutatedGenes(parents[|parents| - 1].value.genes, p, DrawsAt(tape, i)) == Ok(r.value)
  {
    if |parents| == 0 then Thrown(IndexOutOfBounds)
    else
      match parents[|parents| - 1]
      case None => Thrown(NullPointer)
      case Some(parent) =>
        match MutatedGenes(parent.genes, p, DrawsAt(tape, i))
        case Thrown(x) => Thrown(x)
        case Ok(g) => if 0 <= Slot(i, offset) < n then Ok(g) else Thrown(IndexOutOfBounds)
  }

  /** The genes of the first k mutation children, each from one turn on what the earlier turns left. */
  function Mutants(pool: seq<Option<Individual>>, offset: int, n: int, p: real, tape: seq<MutationDraws>, k: nat)
    : (r: Outcome<seq<Genes>>)
    ensures r.Ok? ==> |r.value| == k <= |pool|
    decreases k
  {
    if k == 0 then Ok([])
    else
      match Mutants(pool, offset, n, p, tape, k - 1)
      case Thrown(x) => Thrown(x)
      case Ok(done) =>
        match MutantTurn(pool[..|pool| - (k - 1)], offset, n, p, tape, k - 1)
        case Thrown(x) => Thrown(x)
        case Ok(g) => Ok(done + [g])
  }

  /**
   * Mutation child i mutates the parent i places from the tail of the pool
   * and goes to slot i + offset; a run succeeds only when the pool holds
   * enough parents, none of them null, and every slot is inside the array.
   */
  lemma {:induction false} MutantsTakeTheTail(pool: seq<Option<Individual>>, offset: int, n: int, p: real,
                                              tape: seq<MutationDraws>, k: nat)
    ensures var r := Mutants(pool, offset, n, p, tape, k);
            r.Ok? ==> forall i :: 0 <= i < k ==>
              && 0 <= Slot(i, offset) < n
              && pool[|pool| - 1 - i].Some?
              && MutatedGenes(pool[|pool| - 1 - i].value.genes, p, DrawsAt(tape, i)) == Ok(r.value[i])
    decreases k
  {
    if k > 0 {
      MutantsTakeTheTail(pool, offset, n, p, tape, k - 1);
      var r := Mutants(pool, offset, n, p, tape, k);
      if r.Ok? {
        var done := Mutants(pool, offset, n, p, tape, k - 1).value;
        assert r.value[..k - 1] == done;
        var rest := pool[..|pool| - (k - 1)];
        assert rest[|rest| - 1] == pool[|pool| - k];
      }
    }
  }

  /** The mutation loop runs mutationCount times, not at all for a negative count. */
  function MutationPhase(pool: seq<Option<Individual>>, e: int, n: int, m: int, p: real, tape: seq<MutationDraws>)
    : Outcome<seq<Genes>>
  {
    Mutants(pool, e, n, p, tape, if m > 0 then m else 0)
  }

  /** One turn of the mutation loop: the child is marked as a mutation child of this generation and stored. */
  method MutationTurn(next: array<Individual?>, parents: seq<Option<Individual>>, offset: int, p: real, scale: Double,
                      tape: seq<MutationDraws>, i: nat, generation: int)
    returns (r: Outcome<Individual>)
    modifies next
    ensures var expected := MutantTurn(parents, offset, next.Length, p, tape, i);
            && (r.Ok? <==> expected.Ok?)
            && (r.Thrown? ==> r.ex == expected.ex)
            && (r.Ok? ==> fresh(r.value) && Made(r.value, expected.value, Mutation, generation)
                          && next[..] == old(next[..])[Slot(i, offset) := r.value])
  {
    if |parents| == 0 {
      return Thrown(IndexOutOfBounds);
    }
    var parent := parents[|parents| - 1];
    if parent.None? {
      return Thrown(NullPointer);
    }
    r := Mutate(parent.value, Finite(p), scale, DrawsAt(tape, i));
    if r.Thrown? {
      return;
    }
    var newIndividual := r.value;
    newIndividual.SetOrigin(Mutation);
    newIndividual.SetBirth(generation);
    var slot := Slot(i, offset);
    if slot < 0 || slot >= next.Length {
      return Thrown(IndexOutOfBounds);
    }
    next[slot] := newIndividual;
  }

  /**
   * The mutation loop: each child mutates the parent removed from the tail
   * of the pool, is marked as a mutation child of this generation and is
   * stored behind the elite.
   */
  method MutateInto(next: array<Individual?>, pool: seq<Option<Individual>>, e: int, m: int, p: real, scale: Double,
                    tape: seq<MutationDraws>, generation: int)
    returns (r: Outcome<seq<Option<Individual>>>, ghost children: seq<Individual>)
    modifies next
    ensures var spec := MutationPhase(pool, e, next.Length, m, p, tape);
            && (r.Ok? <==> spec.Ok?)
            && (r.Thrown? ==> r.ex == spec.ex)
            && (r.Ok? ==>
                  && |children| == |spec.value|
                  && r.value == pool[..|pool| - |children|]
                  && next[..] == Written(old(next[..]), children, e)
                  && AllMade(children, spec.value, Mutation, generation))
  {
    ghost var before := next[..];
    var parents := pool;
    children := [];
    ghost var genes: seq<Genes> := [];
    var i := 0;
    while i < m
      invariant 0 <= i <= (if m > 0 then m else 0) && i <= |pool|
      invariant Mutants(pool, e, next.Length, p, tape, i) == Ok(genes)
      invariant |children| == i && parents == pool[..|pool| - i]
      invariant next[..] == Written(before, children, e)
      invariant AllMade(children, genes, Mutation, generation)
    {
      var child := MutationStep(next, pool, parents, e, m, p, scale, tape, i, generation, before, children, genes);
      if child.Thrown? {
        return Thrown(child.ex), children;
      }
      AllMadeOneMore(children, genes, child.value, Mutation, generation);
      genes := genes + [child.value.genes];
      children := children + [child.value];
      parents := parents[..|parents| - 1];
      i := i + 1;
    }
    r := Ok(parents);
  }

  /** One turn of the mutation loop, with what it means for the run so far and for the array. */
  method MutationStep(next: array<Individual?>, pool: seq<Option<Individual>>, parents: seq<Option<Individual>>, e: int,
                      m: int, p: real, scale: Double, tape: seq<MutationDraws>, i: nat, generation: int,
                      ghost before: seq<Individual?>, ghost children: seq<Individual>, ghost genes: seq<Genes>)
    returns (child: Outcome<Individual>)
    requires i < m && i <= |pool| && parents == pool[..|pool| - i] && |children| == i
    requires Mutants(pool, e, next.Length, p, tape, i) == Ok(genes)
    requires next[..] == Written(before, children, e)
    modifies next
    ensures child.Thrown? ==> MutationPhase(pool, e, next.Length, m, p, tape) == Thrown(child.ex)
    ensures child.Ok? ==>
              && fresh(child.value) && Made(child.value, child.value.genes, Mutation, generation)
              && i < |pool| && Mutants(pool, e, next.Length, p, tape, i + 1) == Ok(genes + [child.value.genes])
              && next[..] == Written(before, children + [child.value], e)
  {
    child := MutationTurn(next, parents, e, p, scale, tape, i, generation);
    if child.Thrown? {
      MutantsFailAt(pool, parents, e, next.Length, m, p, tape, i, genes);
      return;
    }
    WrittenStep(before, children, child.value, e);
    MutantsStep(pool, parents, e, next.Length, p, tape, i, genes, child.value.genes);
  }

  /** A run of k mutants that succeeds, then one more mutant: a run of k + 1. */
  lemma MutantsStep(pool: seq<Option<Individual>>, parents: seq<Option<Individual>>, offset: int, n: int, p: real,
                    tape: seq<MutationDraws>, k: nat, genes: seq<Genes>, g: Genes)
    requires k <= |pool| && parents == pool[..|pool| - k] && Mutants(pool, offset, n, p, tape, k) == Ok(genes)
    requires MutantTurn(parents, offset, n, p, tape, k) == Ok(g)
    ensures Mutants(pool, offset, n, p, tape, k + 1) == Ok(genes + [g])
  {
  }

  /** A run of k mutants that succeeds, then a mutant that fails: the whole phase fails with it. */
  lemma MutantsFailAt(pool: seq<Option<Individual>>, parents: seq<Option<Individual>>, offset: int, n: int, m: int, p: real,
                      tape: seq<MutationDraws>, k: nat, genes: seq<Genes>)
    requires k < m && k <= |pool| && parents == pool[..|pool| - k] && Mutants(pool, offset, n, p, tape, k) == Ok(genes)
    requires MutantTurn(parents, offset, n, p, tape, k).Thrown?
    ensures MutationPhase(pool, offset, n, m, p, tape) == Thrown(MutantTurn(parents, offset, n, p, tape, k).ex)
  {
    assert Mutants(pool, offset, n, p, tape, k + 1) == Thrown(MutantTurn(parents, offset, n, p, tape, k).ex);
    MutantsThrowOnward(pool, offset, n, p, tape, k + 1, m);
  }

  /** Once k children fail, every longer run fails the same way. */
  lemma {:induction false} MutantsThrowOnward(pool: seq<Option<Individual>>, offset: int, n: int, p: real,
                                              tape: seq<MutationDraws>, k: nat, m: int)
    requires Mutants(pool, offset, n, p, tape, k).Thrown? && k <= m
    ensures MutationPhase(pool, offset, n, m, p, tape) == Mutants(pool, offset, n, p, tape, k)
    decreases m - k
  {
    if k < m {
      MutantsThrowOnward(pool, offset, n, p, tape, k + 1, m);
    }
  }
  // ------------------------------------------------------------ crossover

  /** The attempts crossover i of a step consumes. */
  function AttemptsFor(tape: seq<seq<Attempt>>, i: int): seq<Attempt>
  {
    if 0 <= i < |tape| then tape[i] else []
  }

  /** The crossover a generation step breeds with: the strategy, and the attempts of each crossover i. */
  datatype Breeder = Crossing(strategy: Strategy, tape: seq<seq<Attempt>>)

  /** The crossover of the sub-population's strategy, with its attempts. */
  function CrossoverOf(s: Strategy, tape: seq<seq<Attempt>>): Breeder
  {
    Crossing(s, tape)
  }

  /**
   * crossoverParticipants.get(0).crossover(strategy, participants): the first
   * participant crosses with the whole group, with the attempts of crossover i.
   */
  function Cross(breed: Breeder, parents: seq<Individual>, i: nat): Outcome<Genes>
  {
    if |parents| == 0 then Thrown(IndexOutOfBounds)
    else ChildGenes(parents[0].genes, breed.strategy, parents, AttemptsFor(breed.tape, i))
  }

  /** The participants as individuals, or None when one of them is null. */
  function Unwrapped(group: seq<Option<Individual>>): (r: Option<seq<Individual>>)
    ensures r.Some? <==> forall j :: 0 <= j < |group| ==> group[j].Some?
    ensures r.Some? ==> Present(r.value) == group
  {
    if |group| == 0 then Some([])
    else
      match Unwrapped(group[..|group| - 1])
      case None => Option.None
      case Some(front) =>
        match group[|group| - 1]
        case None => Option.None
        case Some(x) =>
          assert group == group[..|group| - 1] + [group[|group| - 1]];
          Some(front + [x])
  }

  /** The child crossover i breeds from a group; a null participant throws. */
  function Bred(group: seq<Option<Individual>>, breed: Breeder, i: nat): (r: Outcome<Genes>)
    ensures r.Ok? ==> Unwrapped(group).Some? && Cross(breed, Unwrapped(group).value, i) == r
  {
    match Unwrapped(group)
    case None => Thrown(NullPointer)
    case Some(parents) => Cross(breed, parents, i)
  }

  /** What one crossover turn leaves: the child's genes and the rest of the pool. */
  datatype Turn = Turn(child: Genes, left: seq<Option<Individual>>)

  /** What a run of crossovers leaves: the children's genes and the rest of the pool. */
  datatype Brood = Brood(children: seq<Genes>, left: seq<Option<Individual>>)

  /**
   * One turn of the crossover loop on what is left of the pool: the
   * participants are taken, bred, and the child goes to slot i + offset. A
   * pool that runs dry, a null participant, a failed crossover or a slot
   * outside the array throws.
   */
  function CrossTurn(pool: seq<Option<Individual>>, parentsPerCrossover: int, offset: int, n: int, breed: Breeder, i: nat)
    : (r: Outcome<Turn>)
    ensures r.Ok? ==> var taken := Participants(pool, parentsPerCrossover);
                      && taken.Ok? && taken.value.1 == r.value.left && 0 <= Slot(i, offset) < n
                      && Bred(taken.value.0, breed, i) == Ok(r.value.child)
  {
    match Participants(pool, parentsPerCrossover)
    case Thrown(x) => Thrown(x)
    case Ok((group, left)) =>
      match Bred(group, breed, i)
      case Thrown(x) => Thrown(x)
      case Ok(g) => if 0 <= Slot(i, offset) < n then Ok(Turn(g, left)) else Thrown(IndexOutOfBounds)
  }

  /** The genes of the first k crossover children and the pool they leave behind. */
  function Crossbred(pool: seq<Option<Individual>>, parentsPerCrossover: int, offset: int, n: int, breed: Breeder, k: nat)
    : (r: Outcome<Brood>)
    ensures r.Ok? ==> |r.value.children| == k
    decreases k
  {
    if k == 0 then Ok(Brood([], pool))
    else
      match Crossbred(pool, parentsPerCrossover, offset, n, breed, k - 1)
      case Thrown(x) => Thrown(x)
      case Ok(Brood(done, rest)) =>
        match CrossTurn(rest, parentsPerCrossover, offset, n, breed, k - 1)
        case Thrown(x) => Thrown(x)
        case Ok(Turn(g, left)) => Ok(Brood(done + [g], left))
  }

  /** The crossover loop runs crossoverCount times, behind the elite and the mutation children. */
  function CrossoverPhase(pool: seq<Option<Individual>>, parentsPerCrossover: int, e: int, m: int, n: int, c: int,
                          breed: Breeder)
    : Outcome<Brood>
  {
    Crossbred(pool, parentsPerCrossover, e + m, n, breed, if c > 0 then c else 0)
  }

  /**
   * Crossover child i is bred from group i of the pool and goes to slot
   * i + offset; the pool left behind is the one the groups leave, so each
   * crossover has consumed exactly its group.
   */
  lemma {:induction false} CrossbredFromTheGroups(pool: seq<Option<Individual>>, parentsPerCrossover: int, offset: int,
                                                  n: int, breed: Breeder, k: nat)
    ensures var r := Crossbred(pool, parentsPerCrossover, offset, n, breed, k);
            var groups := GroupsAfter(pool, parentsPerCrossover, k);
            r.Ok? ==>
              && groups.Ok? && |groups.value.0| == k && r.value.left == groups.value.1
              && forall i :: 0 <= i < k ==> Bred(groups.value.0[i], breed, i) == Ok(r.value.children[i])
    decreases k
  {
    if k > 0 {
      CrossbredFromTheGroups(pool, parentsPerCrossover, offset, n, breed, k - 1);
      var r := Crossbred(pool, parentsPerCrossover, offset, n, breed, k);
      if r.Ok? {
        var prev := Crossbred(pool, parentsPerCrossover, offset, n, breed, k - 1);
        var done, rest := prev.value.children, prev.value.left;
        var turn := CrossTurn(rest, parentsPerCrossover, offset, n, breed, k - 1);
        assert r.value == Brood(done + [turn.value.child], turn.value.left);
        var before := GroupsAfter(pool, parentsPerCrossover, k - 1);
        var taken := Participants(rest, parentsPerCrossover);
        assert GroupsAfter(pool, parentsPerCrossover, k) == Ok((before.value.0 + [taken.value.0], taken.value.1));
        BredOneMore(before.value.0, done, taken.value.0, turn.value.child, breed);
      }
    }
  }

  /** Appending a group and the child bred from it keeps every child bred from the group at its index. */
  lemma BredOneMore(groups: seq<seq<Option<Individual>>>, children: seq<Genes>, group: seq<Option<Individual>>,
                    child: Genes, breed: Breeder)
    requires |groups| == |children|
    requires forall i :: 0 <= i < |groups| ==> Bred(groups[i], breed, i) == Ok(children[i])
    requires Bred(group, breed, |groups|) == Ok(child)
    ensures forall i :: 0 <= i <= |groups| ==> Bred((groups + [group])[i], breed, i) == Ok((children + [child])[i])
  {
    forall i | 0 <= i <= |groups|
      ensures Bred((groups + [group])[i], breed, i) == Ok((children + [child])[i])
    {
      if i < |groups| {
        assert (groups + [group])[i] == groups[i] && (children + [child])[i] == children[i];
      }
    }
  }

  /** A run of k crossovers that succeeds has found a slot inside the array for every child. */
  lemma {:induction false} CrossbredFits(pool: seq<Option<Individual>>, parentsPerCrossover: int, offset: int, n: int,
                                         breed: Breeder, k: nat)
    ensures Crossbred(pool, parentsPerCrossover, offset, n, breed, k).Ok? ==> SlotsFit(k, offset, n)
    decreases k
  {
    if k > 0 && Crossbred(pool, parentsPerCrossover, offset, n, breed, k).Ok? {
      var before := Crossbred(pool, parentsPerCrossover, offset, n, breed, k - 1);
      assert before.Ok? && CrossTurn(before.value.left, parentsPerCrossover, offset, n, breed, k - 1).Ok?;
      CrossbredFits(pool, parentsPerCrossover, offset, n, breed, k - 1);
      SlotsFitOneMore(k - 1, offset, n);
    }
  }

  /** One more slot inside the array extends the slots that fit. */
  lemma SlotsFitOneMore(k: nat, offset: int, n: int)
    requires SlotsFit(k, offset, n) && 0 <= Slot(k, offset) < n
    ensures SlotsFit(k + 1, offset, n)
  {
  }

  /**
   * The children stored one by one behind `offset`, each a new individual
   * with its genes, marked with the operator and the generation.
   */
  method StoreChildren(next: array<Individual?>, genes: seq<Genes>, offset: int, origin: Origin, generation: int)
    returns (ghost children: seq<Individual>)
    requires SlotsFit(|genes|, offset, next.Length)
    modifies next
    ensures Stored(next, old(next[..]), children, offset, genes, origin, generation)
    ensures forall i :: 0 <= i < |children| ==> fresh(children[i])
  {
    ghost var before := next[..];
    children := [];
    for i := 0 to |genes|
      invariant |children| == i && next[..] == Written(before, children, offset)
      invariant forall j :: 0 <= j < i ==> fresh(children[j]) && Made(children[j], genes[j], origin, generation)
    {
      var child := new Individual(genes[i]);
      child.SetOrigin(origin);
      child.SetBirth(generation);
      WrittenStep(before, children, child, offset);
      next[Slot(i, offset)] := child;
      children := children + [child];
    }
  }

  /**
   * The crossover loop: child i is bred from the next group of participants
   * and stored at slot i behind the elite and the mutation children, marked
   * as a crossover child of this generation.
   */
  method CrossInto(next: array<Individual?>, pool: seq<Option<Individual>>, parentsPerCrossover: int, e: int, m: int,
                   c: int, breed: Breeder, generation: int)
    returns (r: Outcome<seq<Option<Individual>>>, ghost children: seq<Individual>)
    modifies next
    ensures var spec := CrossoverPhase(pool, parentsPerCrossover, e, m, next.Length, c, breed);
            && (r.Ok? <==> spec.Ok?)
            && (r.Thrown? ==> r.ex == spec.ex && next[..] == old(next[..]))
            && (r.Ok? ==>
                  && r.value == spec.value.left
                  && Stored(next, old(next[..]), children, e + m, spec.value.children, Crossover, generation)
                  && forall i :: 0 <= i < |children| ==> fresh(children[i]))
  {
    var k := if c > 0 then c else 0;
    var crossed := Crossbred(pool, parentsPerCrossover, e + m, next.Length, breed, k);
    if crossed.Thrown? {
      return Thrown(crossed.ex), [];
    }
    CrossbredFits(pool, parentsPerCrossover, e + m, next.Length, breed, k);
    children := StoreChildren(next, crossed.value.children, e + m, Crossover, generation);
    r := Ok(crossed.value.left);
  }
}

/**
 * The list of selected parents a generation step consumes: it is shuffled
 * once, mutation children pop it from the tail, and every crossover takes
 * its first participant from the tail and each further one by a backward
 * scan for a parent that is not already taking part.
 */
module ParentPool {
  import opened JavaLang
  import opened Draws
  import opened Individuals

  // ---------------------------------------------------------------- shuffle

  function Swap<T>(s: seq<T>, a: nat, b: nat): (r: seq<T>)
    requires a < |s| && b < |s|
    ensures |r| == |s| && r[a] == s[b] && r[b] == s[a]
    ensures forall k :: 0 <= k < |s| && k != a && k != b ==> r[k] == s[k]
  {
    s[a := s[b]][b := s[a]]
  }

  lemma SwapPermutes<T>(s: seq<T>, a: nat, b: nat)
    requires a < |s| && b < |s|
    ensures multiset(Swap(s, a, b)) == multiset(s)
  {
    var t := s[a := s[b]];
    assert multiset(t) == multiset(s) - multiset{s[a]} + multiset{s[b]};
    assert multiset(t[b := s[a]]) == multiset(t) - multiset{t[b]} + multiset{s[a]};
  }

  /** The position Collections.shuffle swaps with position i - 1: nextInt(i), its (size - i)-th draw. */
  function SwapPartner(size: nat, draws: seq<int>, i: nat): (j: nat)
    requires i >= 1
    ensures j < i
  {
    NextInt(IntAt(draws, size - i), i).value
  }

  /** The list after the swaps at positions |s| - 1, |s| - 2, …, down to `down` (exclusive). */
  function ShuffledDownTo<T>(s: seq<T>, draws: seq<int>, down: nat): (r: seq<T>)
    requires down <= |s|
    ensures |r| == |s|
    decreases |s| - down
  {
    if down == |s| then s
    else Swap(ShuffledDownTo(s, draws, down + 1), down, SwapPartner(|s|, draws, down + 1))
  }

  /** Collections.shuffle(list, rnd): for i from size down to 2, swap i - 1 with nextInt(i). */
  function Shuffled<T>(s: seq<T>, draws: seq<int>): (r: seq<T>)
  {
    if |s| == 0 then s else ShuffledDownTo(s, draws, 1)
  }

  /** Shuffling only reorders the parents. */
  lemma {:induction false} ShuffledDownToPermutes<T>(s: seq<T>, draws: seq<int>, down: nat)
    requires down <= |s|
    ensures multiset(ShuffledDownTo(s, draws, down)) == multiset(s)
    decreases |s| - down
  {
    if down < |s| {
      var r, j := ShuffledDownTo(s, draws, down + 1), SwapPartner(|s|, draws, down + 1);
      assert ShuffledDownTo(s, draws, down) == Swap(r, down, j);
      ShuffledDownToPermutes(s, draws, down + 1);
      SwapPermutes(r, down, j);
    }
  }

  lemma {:induction false} ShuffledPermutes<T>(s: seq<T>, draws: seq<int>)
    ensures |Shuffled(s, draws)| == |s|
    ensures multiset(Shuffled(s, draws)) == multiset(s)
  {
    if |s| > 0 {
      ShuffledDownToPermutes(s, draws, 1);
    }
  }

  /** Collections.shuffle on the parent list. */
  method Shuffle<T>(s: seq<T>, draws: seq<int>) returns (r: seq<T>)
    ensures r == Shuffled(s, draws)
  {
    r := s;
    if |s| == 0 {
      return;
    }
    var i := |s|;
    while i > 1
      invariant 1 <= i <= |s|
      invariant r == ShuffledDownTo(s, draws, i)
    {
      var j := NextInt(IntAt(draws, |s| - i), i).value;
      r := r[i - 1 := r[j]][j := r[i - 1]];
      i := i - 1;
    }
  }

  // ------------------------------------------------------- distinct picking

  /**
   * ArrayList.contains with the parents' equals: a null entry matches null,
   * and an individual matches a participant with equal genes.
   */
  predicate Listed(x: Option<Individual>, chosen: seq<Option<Individual>>)
  {
    match x
    case None => Option.None in chosen
    case Some(individual) => exists k :: 0 <= k < |chosen| && chosen[k].Some? && chosen[k].value.genes == individual.genes
  }

  /** The backward scan from m: the last position at or below m whose parent is not listed, or -1. */
  function LastUnlisted(pool: seq<Option<Individual>>, chosen: seq<Option<Individual>>, m: int): (index: int)
    requires -1 <= m < |pool|
    ensures -1 <= index <= m
    ensures index >= 0 ==> !Listed(pool[index], chosen)
    ensures forall k :: index < k <= m ==> Listed(pool[k], chosen)
    decreases m + 1
  {
    if m < 0 then -1
    else if !Listed(pool[m], chosen) then m
    else LastUnlisted(pool, chosen, m - 1)
  }

  /**
   * The position a further participant is removed from: the scan's hit when
   * it is above 0, and otherwise, a hit at 0 included, the tail.
   */
  function PickIndex(pool: seq<Option<Individual>>, chosen: seq<Option<Individual>>): (k: int)
    requires |pool| > 0
    ensures 0 <= k < |pool|
  {
    var index := LastUnlisted(pool, chosen, |pool| - 1);
    if index > 0 then index else |pool| - 1
  }

  function Removed<T>(s: seq<T>, k: nat): (r: seq<T>)
    requires k < |s|
    ensures |r| == |s| - 1
  {
    s[..k] + s[k + 1..]
  }

  lemma RemovedPermutes<T>(s: seq<T>, k: nat)
    requires k < |s|
    ensures multiset(s) == multiset(Removed(s, k)) + multiset{s[k]}
  {
    assert s == s[..k] + [s[k]] + s[k + 1..];
  }

  /** One further participant, removed from the pool; remove(-1) on an empty pool throws. */
  function Pick(pool: seq<Option<Individual>>, chosen: seq<Option<Individual>>)
    : Outcome<(Option<Individual>, seq<Option<Individual>>)>
  {
    if |pool| == 0 then Thrown(IndexOutOfBounds)
    else
      var k := PickIndex(pool, chosen);
      Ok((pool[k], Removed(pool, k)))
  }

  /**
   * A pick takes one parent out of the pool; when some parent above position
   * 0 is not yet taking part, the pick is the last such parent and so no
   * clone of a participant.
   */
  lemma {:induction false} PickPrefersNewParents(pool: seq<Option<Individual>>, chosen: seq<Option<Individual>>)
    ensures var r := Pick(pool, chosen);
            && (r.Ok? <==> |pool| > 0)
            && (r.Thrown? ==> r.ex == IndexOutOfBounds)
            && (r.Ok? ==> |r.value.1| == |pool| - 1 && multiset(pool) == multiset(r.value.1) + multiset{r.value.0})
            && (r.Ok? && (exists k :: 1 <= k < |pool| && !Listed(pool[k], chosen)) ==>
                  !Listed(r.value.0, chosen)
                  && exists k :: 1 <= k < |pool| && r.value.0 == pool[k] && forall q :: k < q < |pool| ==> Listed(pool[q], chosen))
  {
    if |pool| > 0 {
      var k := PickIndex(pool, chosen);
      RemovedPermutes(pool, k);
      if exists k :: 1 <= k < |pool| && !Listed(pool[k], chosen) {
        var w :| 1 <= w < |pool| && !Listed(pool[w], chosen);
        var index := LastUnlisted(pool, chosen, |pool| - 1);
        assert index >= w;
      }
    }
  }

  /**
   * When every parent above position 0 is already taking part, the tail is
   * taken even if the parent at position 0 is new: the pick is then a clone
   * of a participant.
   */
  lemma {:induction false} PickFallsBackToTheTail(pool: seq<Option<Individual>>, chosen: seq<Option<Individual>>)
    requires |pool| > 0
    requires forall k :: 1 <= k < |pool| ==> Listed(pool[k], chosen)
    ensures Pick(pool, chosen) == Ok((pool[|pool| - 1], pool[..|pool| - 1]))
    ensures |pool| > 1 ==> Listed(Pick(pool, chosen).value.0, chosen)
  {
    var index := LastUnlisted(pool, chosen, |pool| - 1);
    assert index <= 0;
    assert PickIndex(pool, chosen) == |pool| - 1;
    assert pool[|pool|..] == [];
    assert Removed(pool, |pool| - 1) == pool[..|pool| - 1];
  }

  /** The scan loop of crossover: from the tail down, stop at the first parent not taking part. */
  method FindUnlisted(pool: seq<Option<Individual>>, chosen: seq<Option<Individual>>) returns (index: int)
    ensures index == LastUnlisted(pool, chosen, |pool| - 1)
  {
    index := -1;
    var m := |pool| - 1;
    while m >= 0
      invariant -1 <= m < |pool|
      invariant LastUnlisted(pool, chosen, |pool| - 1) == LastUnlisted(pool, chosen, m)
    {
      if !Listed(pool[m], chosen) {
        index := m;
        return;
      }
      m := m - 1;
    }
  }

  // ---------------------------------------------------- crossover groups

  /** Further participants, `left` of them, each picked against those chosen so far. */
  function Gathered(pool: seq<Option<Individual>>, chosen: seq<Option<Individual>>, left: nat)
    : Outcome<(seq<Option<Individual>>, seq<Option<Individual>>)>
    decreases left
  {
    if left == 0 then Ok((chosen, pool))
    else
      match Pick(pool, chosen)
      case Thrown(e) => Thrown(e)
      case Ok((x, rest)) => Gathered(rest, chosen + [x], left - 1)
  }

  /** The number of participants of one crossover: the first parent and parentsPerCrossover - 1 more. */
  function GroupSize(parentsPerCrossover: int): nat
  {
    if parentsPerCrossover > 1 then parentsPerCrossover else 1
  }

  /** The participants of one crossover and the pool left behind. */
  function Participants(pool: seq<Option<Individual>>, parentsPerCrossover: int)
    : Outcome<(seq<Option<Individual>>, seq<Option<Individual>>)>
  {
    if |pool| == 0 then Thrown(IndexOutOfBounds)
    else Gathered(pool[..|pool| - 1], [pool[|pool| - 1]], GroupSize(parentsPerCrossover) - 1)
  }

  lemma {:induction false} GatheredTakesFromThePool(pool: seq<Option<Individual>>, chosen: seq<Option<Individual>>, left: nat)
    ensures var r := Gathered(pool, chosen, left);
            && (r.Ok? <==> |pool| >= left)
            && (r.Thrown? ==> r.ex == IndexOutOfBounds)
            && (r.Ok? ==> |r.value.0| == |chosen| + left && r.value.0[..|chosen|] == chosen
                          && |r.value.1| == |pool| - left
                          && multiset(pool) + multiset(chosen) == multiset(r.value.1) + multiset(r.value.0))
    decreases left
  {
    if left > 0 {
      PickPrefersNewParents(pool, chosen);
      if |pool| > 0 {
        var (x, rest) := Pick(pool, chosen).value;
        GatheredTakesFromThePool(rest, chosen + [x], left - 1);
        var r := Gathered(rest, chosen + [x], left - 1);
        if r.Ok? {
          assert r.value.0[..|chosen|] == (r.value.0[..|chosen| + 1])[..|chosen|];
        }
      }
    }
  }

  /**
   * One crossover removes exactly its group from the pool: the tail first,
   * then parentsPerCrossover - 1 picks; a pool that runs dry throws.
   */
  lemma {:induction false} ParticipantsRemoveTheirGroup(pool: seq<Option<Individual>>, parentsPerCrossover: int)
    ensures var r := Participants(pool, parentsPerCrossover);
            && (r.Ok? <==> |pool| >= GroupSize(parentsPerCrossover))
            && (r.Thrown? ==> r.ex == IndexOutOfBounds)
            && (r.Ok? ==> |r.value.0| == GroupSize(parentsPerCrossover) && r.value.0[0] == pool[|pool| - 1]
                          && |r.value.1| == |pool| - GroupSize(parentsPerCrossover)
                          && multiset(pool) == multiset(r.value.1) + multiset(r.value.0))
  {
    if |pool| > 0 {
      var last := pool[|pool| - 1];
      GatheredTakesFromThePool(pool[..|pool| - 1], [last], GroupSize(parentsPerCrossover) - 1);
      assert pool == pool[..|pool| - 1] + [last];
      var r := Participants(pool, parentsPerCrossover);
      if r.Ok? {
        assert r.value.0[0] == r.value.0[..1][0];
      }
    }
  }

  /**
   * The participant loop of crossover: the tail first, then for each further
   * participant the backward scan, taking its hit when above 0 and the tail
   * otherwise.
   */
  method TakeParticipants(pool: seq<Option<Individual>>, parentsPerCrossover: int)
    returns (r: Outcome<(seq<Option<Individual>>, seq<Option<Individual>>)>)
    ensures r == Participants(pool, parentsPerCrossover)
  {
    if |pool| == 0 {
      return Thrown(IndexOutOfBounds);
    }
    var parents := pool[..|pool| - 1];
    var chosen := [pool[|pool| - 1]];
    var j := 1;
    while j < parentsPerCrossover
      invariant 1 <= j <= GroupSize(parentsPerCrossover)
      invariant Gathered(parents, chosen, GroupSize(parentsPerCrossover) - j) == Participants(pool, parentsPerCrossover)
    {
      var index := FindUnlisted(parents, chosen);
      var k := if index > 0 then index else |parents| - 1;
      if k < 0 {
        return Thrown(IndexOutOfBounds);
      }
      chosen := chosen + [parents[k]];
      parents := Removed(parents, k);
      j := j + 1;
    }
    return Ok((chosen, parents));
  }

  /** The groups of the first i crossovers and the pool left behind. */
  function GroupsAfter(pool: seq<Option<Individual>>, parentsPerCrossover: int, i: nat)
    : Outcome<(seq<seq<Option<Individual>>>, seq<Option<Individual>>)>
    decreases i
  {
    if i == 0 then Ok(([], pool))
    else
      match GroupsAfter(pool, parentsPerCrossover, i - 1)
      case Thrown(e) => Thrown(e)
      case Ok((groups, rest)) =>
        match Participants(rest, parentsPerCrossover)
        case Thrown(e) => Thrown(e)
        case Ok((group, left)) => Ok((groups + [group], left))
  }

  /**
   * Every crossover removes exactly its group: after i of them the pool has
   * lost i groups of GroupSize parents, and parents are neither lost nor
   * duplicated. The pool suffices exactly when it holds i groups.
   */
  lemma {:induction false} GroupsConsumeThePool(pool: seq<Option<Individual>>, parentsPerCrossover: int, i: nat)
    ensures var r := GroupsAfter(pool, parentsPerCrossover, i);
            && (r.Ok? <==> |pool| >= i * GroupSize(parentsPerCrossover))
            && (r.Ok? ==> |r.value.0| == i && |r.value.1| == |pool| - i * GroupSize(parentsPerCrossover)
                          && (forall g :: 0 <= g < i ==> |r.value.0[g]| == GroupSize(parentsPerCrossover))
                          && multiset(pool) == multiset(r.value.1) + Joined(r.value.0))
    decreases i
  {
    var size := GroupSize(parentsPerCrossover);
    if i > 0 {
      GroupsConsumeThePool(pool, parentsPerCrossover, i - 1);
      var before := GroupsAfter(pool, parentsPerCrossover, i - 1);
      assert (i - 1) * size + size == i * size;
      if before.Ok? {
        var (groups, rest) := before.value;
        ParticipantsRemoveTheirGroup(rest, parentsPerCrossover);
        var r := Participants(rest, parentsPerCrossover);
        if r.Ok? {
          assert Joined(groups + [r.value.0]) == Joined(groups) + multiset(r.value.0) by {
            assert (groups + [r.value.0])[..|groups|] == groups;
          }
        }
      } else {
        assert |pool| < (i - 1) * size;
      }
    }
  }

  /** The parents of a list of groups, counted with multiplicity. */
  function Joined(groups: seq<seq<Option<Individual>>>): multiset<Option<Individual>>
  {
    if |groups| == 0 then multiset{} else Joined(groups[..|groups| - 1]) + multiset(groups[|groups| - 1])
  }
}

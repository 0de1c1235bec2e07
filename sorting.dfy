/**
 * Arrays.sort on objects and on a comparator is a stable sort. Stable sorting
 * by a key has one result, so it is modelled here by a stable insertion sort:
 * the result is ordered by the key, is a permutation of the input, and an
 * input that is already ordered comes back unchanged.
 */
module Sorting {
  import opened Individuals

  predicate SortedBy<T>(s: seq<T>, key: T -> real)
  {
    forall i, j :: 0 <= i < j < |s| ==> key(s[i]) <= key(s[j])
  }

  /** Puts x before the first element whose key is not smaller than x's. */
  function Insert<T>(x: T, s: seq<T>, key: T -> real): (r: seq<T>)
    decreases |s|
  {
    if |s| == 0 then [x]
    else if key(x) <= key(s[0]) then [x] + s
    else [s[0]] + Insert(x, s[1..], key)
  }

  /** Insertion adds x to the elements. */
  lemma {:induction false} InsertPermutes<T>(x: T, s: seq<T>, key: T -> real)
    ensures |Insert(x, s, key)| == |s| + 1
    ensures multiset(Insert(x, s, key)) == multiset(s) + multiset{x}
    decreases |s|
  {
    if |s| > 0 && key(x) > key(s[0]) {
      InsertPermutes(x, s[1..], key);
      assert s == [s[0]] + s[1..];
    }
  }

  /** Every element of s after insertion either is x or was in s. */
  lemma InsertMembers<T>(x: T, s: seq<T>, key: T -> real, y: T)
    requires y in Insert(x, s, key)
    ensures y == x || y in s
  {
    InsertPermutes(x, s, key);
    assert y in multiset(Insert(x, s, key));
  }

  /** Insertion keeps an ordered sequence ordered. */
  lemma {:induction false} InsertKeepsSorted<T>(x: T, s: seq<T>, key: T -> real)
    requires SortedBy(s, key)
    ensures SortedBy(Insert(x, s, key), key)
    decreases |s|
  {
    if |s| == 0 {
    } else if key(x) <= key(s[0]) {
      var r := [x] + s;
      forall i, j | 0 <= i < j < |r|
        ensures key(r[i]) <= key(r[j])
      {
        if i == 0 {
          assert r[j] == s[j - 1];
          assert key(s[0]) <= key(s[j - 1]);
        } else {
          assert r[i] == s[i - 1] && r[j] == s[j - 1];
        }
      }
    } else {
      var tail := s[1..];
      assert SortedBy(tail, key) by {
        forall i, j | 0 <= i < j < |tail|
          ensures key(tail[i]) <= key(tail[j])
        {
          assert tail[i] == s[i + 1] && tail[j] == s[j + 1];
        }
      }
      InsertKeepsSorted(x, tail, key);
      var rest := Insert(x, tail, key);
      var r := [s[0]] + rest;
      forall i, j | 0 <= i < j < |r|
        ensures key(r[i]) <= key(r[j])
      {
        if i == 0 {
          assert r[j] == rest[j - 1];
          HeadBelowInserted(x, s, key, rest[j - 1]);
        } else {
          assert r[i] == rest[i - 1] && r[j] == rest[j - 1];
        }
      }
    }
  }

  /** In an ordered s whose head's key is below x's, the head's key is below everything inserted after it. */
  lemma HeadBelowInserted<T>(x: T, s: seq<T>, key: T -> real, y: T)
    requires SortedBy(s, key) && |s| > 0 && key(x) > key(s[0])
    requires y in Insert(x, s[1..], key)
    ensures key(s[0]) <= key(y)
  {
    InsertMembers(x, s[1..], key, y);
    if y != x {
      var k :| 0 <= k < |s[1..]| && s[1..][k] == y;
      assert s[k + 1] == y;
    }
  }

  /** The stable sort of s by the key: equal keys keep their order. */
  function SortBy<T>(s: seq<T>, key: T -> real): (r: seq<T>)
    decreases |s|
  {
    if |s| == 0 then [] else Insert(s[0], SortBy(s[1..], key), key)
  }

  /** Sorting permutes the input. */
  lemma {:induction false} SortByPermutes<T>(s: seq<T>, key: T -> real)
    ensures |SortBy(s, key)| == |s|
    ensures multiset(SortBy(s, key)) == multiset(s)
    decreases |s|
  {
    if |s| > 0 {
      SortByPermutes(s[1..], key);
      InsertPermutes(s[0], SortBy(s[1..], key), key);
      assert s == [s[0]] + s[1..];
    }
  }

  /** Sorting orders by the key. */
  lemma {:induction false} SortBySorts<T>(s: seq<T>, key: T -> real)
    ensures SortedBy(SortBy(s, key), key)
    decreases |s|
  {
    if |s| > 0 {
      SortBySorts(s[1..], key);
      InsertKeepsSorted(s[0], SortBy(s[1..], key), key);
    }
  }

  /** Sorting orders by the key and permutes the input. */
  lemma SortByIsSortedPermutation<T>(s: seq<T>, key: T -> real)
    ensures |SortBy(s, key)| == |s|
    ensures multiset(SortBy(s, key)) == multiset(s)
    ensures SortedBy(SortBy(s, key), key)
  {
    SortByPermutes(s, key);
    SortBySorts(s, key);
  }

  /** A sequence that is already in order is left as it is. */
  lemma {:induction false} SortByKeepsSorted<T>(s: seq<T>, key: T -> real)
    requires SortedBy(s, key)
    ensures SortBy(s, key) == s
    decreases |s|
  {
    if |s| > 0 {
      assert SortedBy(s[1..], key);
      SortByKeepsSorted(s[1..], key);
      var rest := s[1..];
      if |rest| > 0 {
        assert key(s[0]) <= key(rest[0]);
      }
      assert s == [s[0]] + rest;
    }
  }

  function Fitness(individual: Individual): real
  {
    individual.CalculateFitness()
  }

  /** Arrays.sort(Individual[]): ascending fitness, by compareTo. */
  function SortByFitness(s: seq<Individual>): (r: seq<Individual>)
  {
    SortBy(s, Fitness)
  }

  /** Sorting a population orders it by fitness, best first, and keeps its members. */
  lemma {:induction false} SortByFitnessIsSortedPermutation(s: seq<Individual>)
    ensures |SortByFitness(s)| == |s|
    ensures multiset(SortByFitness(s)) == multiset(s)
    ensures forall i, j :: 0 <= i < j < |s| ==> SortByFitness(s)[i].CalculateFitness() <= SortByFitness(s)[j].CalculateFitness()
  {
    SortByIsSortedPermutation(s, Fitness);
  }

  /** A population is ordered by fitness, best first. */
  predicate FitnessSorted(s: seq<Individual>)
  {
    forall i, j :: 0 <= i < j < |s| ==> s[i].CalculateFitness() <= s[j].CalculateFitness()
  }

  /** Every member of a sorted population is a member of the population. */
  lemma {:induction false} SortedMembers(s: seq<Individual>, x: Individual)
    ensures x in SortByFitness(s) <==> x in s
  {
    SortByIsSortedPermutation(s, Fitness);
    assert x in SortByFitness(s) <==> x in multiset(SortByFitness(s));
  }
}

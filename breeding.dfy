/**
 * How an individual breeds: Individual.crossover sends a strategy to the
 * fuzzy or the discrete overload, the strategy builds its vector or matrix
 * from the parents, and the Boolean and Int individuals turn it into the
 * genes of a child. Mutation and the Boolean string constructor live here
 * too, as the other ways the prototypes make new genes.
 */
module Breeding {
  import opened JavaLang
  import opened Draws
  import opened Sums
  import opened Individuals
  import opened FitnessScaling
  import opened CrossoverStrategy
  import SD = ScatteredDiscreteStrategy
  import SP = SinglePointStrategy
  import SF = ScatteredFuzzyStrategy
  import FF = ScatteredFitnessFuzzyStrategy

  // ------------------------------------------------ the strategy's answer

  /**
   * getCrossoverVector of the two discrete strategies: both read
   * parents.length and parents[0].getVariableCount() first.
   */
  function VectorFor(s: Strategy, parents: seq<Individual>, attempts: seq<Attempt>): (r: Outcome<seq<int>>)
    requires IsDiscrete(s.kind)
    ensures |parents| == 0 ==> r == Thrown(IndexOutOfBounds)
    ensures r.Ok? ==> |parents| > 0 && |r.value| == parents[0].VariableCount()
    ensures r.Ok? ==> forall i :: 0 <= i < |r.value| ==> 0 <= r.value[i] < |parents|
  {
    if |parents| == 0 then Thrown(IndexOutOfBounds)
    else
      var n, v := |parents|, parents[0].VariableCount();
      if s.kind == ScatteredDiscrete then
        SD.VectorInRange(n, v, s.checkClones, attempts, 0);
        SD.Vector(n, v, s.checkClones, attempts, 0)
      else
        SP.DiscreteVectorInRange(n, v, s.checkClones, attempts, 0);
        SP.DiscreteVector(n, v, s.checkClones, attempts, 0)
  }

  /**
   * getCrossoverMatrix of the three fuzzy strategies. SinglePointFuzzy never
   * redraws, so it reads one attempt only.
   */
  function MatrixFor(s: Strategy, parents: seq<Individual>, attempts: seq<Attempt>): (r: Outcome<seq<seq<real>>>)
    requires IsFuzzy(s.kind)
    ensures |parents| == 0 ==> r == Thrown(IndexOutOfBounds)
  {
    if |parents| == 0 then Thrown(IndexOutOfBounds)
    else
      var n, v := |parents|, parents[0].VariableCount();
      if s.kind == SinglePointFuzzy then SP.FuzzyMatrix(n, v, AttemptAt(attempts, 0))
      else if s.kind == ScatteredFuzzy then SF.Matrix(n, v, s.checkClones, attempts, 0)
      else if Representable(s.fitnessScaling, parents) then Ok(FF.ConstantRows(ScaledBy(s.fitnessScaling, parents, 1), v))
      else Thrown(Unrepresentable)
  }

  /** A discrete strategy's getCrossoverVector. */
  method GetCrossoverVector(s: Strategy, parents: seq<Individual>, attempts: seq<Attempt>) returns (r: Outcome<seq<int>>)
    requires IsDiscrete(s.kind)
    ensures r == VectorFor(s, parents, attempts)
  {
    if |parents| == 0 {
      return Thrown(IndexOutOfBounds);
    }
    var n, v := |parents|, parents[0].VariableCount();
    if s.kind == ScatteredDiscrete {
      r := SD.CrossoverVector(n, v, s.checkClones, attempts, 0);
    } else {
      r := SP.CrossoverVector(n, v, s.checkClones, attempts, 0);
    }
  }

  /** A fuzzy strategy's getCrossoverMatrix. */
  method GetCrossoverMatrix(s: Strategy, parents: seq<Individual>, attempts: seq<Attempt>) returns (r: Outcome<seq<seq<real>>>)
    requires IsFuzzy(s.kind)
    ensures r == MatrixFor(s, parents, attempts)
  {
    if |parents| == 0 {
      return Thrown(IndexOutOfBounds);
    }
    var n, v := |parents|, parents[0].VariableCount();
    if s.kind == SinglePointFuzzy {
      r := SP.CrossoverMatrix(n, v, AttemptAt(attempts, 0));
    } else if s.kind == ScatteredFuzzy {
      r := SF.CrossoverMatrix(n, v, s.checkClones, attempts, 0);
    } else {
      r := FF.CrossoverMatrix(s.fitnessScaling, parents);
    }
  }

  /** A matrix whose every weight is non-negative and whose every column sums to 1. */
  predicate Stochastic(m: seq<seq<real>>, n: nat, v: nat)
  {
    && |m| == n && (forall j :: 0 <= j < n ==> |m[j]| == v)
    && (forall j, i :: 0 <= j < n && 0 <= i < v ==> m[j][i] >= 0.0)
    && (forall i :: 0 <= i < v ==> Sum(Column(m, i)) == 1.0)
  }

  /** Column i of the matrix: n non-negative weights that sum to 1. */
  predicate StochasticColumn(m: seq<seq<real>>, n: nat, i: nat)
  {
    && |m| == n && (forall j :: 0 <= j < n ==> i < |m[j]| && m[j][i] >= 0.0)
    && Sum(Column(m, i)) == 1.0
  }

  /**
   * The matrices of SinglePointFuzzy and ScatteredFuzzy share every gene out
   * among the parents: n rows of v non-negative weights, every column
   * summing to 1.
   */
  lemma {:induction false} MatrixForIsStochastic(s: Strategy, parents: seq<Individual>, attempts: seq<Attempt>)
    requires s.kind == SinglePointFuzzy || s.kind == ScatteredFuzzy
    ensures var r := MatrixFor(s, parents, attempts);
            r.Ok? ==> |parents| > 0 && Stochastic(r.value, |parents|, parents[0].VariableCount())
  {
    if |parents| > 0 {
      var n, v := |parents|, parents[0].VariableCount();
      if s.kind == SinglePointFuzzy {
        SP.FuzzyMatrixOneHot(n, v, AttemptAt(attempts, 0));
      } else {
        SF.MatrixShares(n, v, s.checkClones, attempts, 0);
      }
    }
  }

  /**
   * The ScatteredFitnessFuzzy matrix has n rows of v weights, each column
   * summing to 1.
   */
  lemma {:induction false} FitnessMatrixShares(s: Strategy, parents: seq<Individual>, attempts: seq<Attempt>)
    requires s.kind == ScatteredFitnessFuzzy
    ensures var r := MatrixFor(s, parents, attempts);
            r.Ok? ==> var v := parents[0].VariableCount();
                      && |r.value| == |parents| && (forall j :: 0 <= j < |parents| ==> |r.value[j]| == v)
                      && forall i :: 0 <= i < v ==> Sum(Column(r.value, i)) == 1.0
  {
    if |parents| > 0 && Representable(s.fitnessScaling, parents) {
      var v := parents[0].VariableCount();
      forall i | 0 <= i < v
        ensures Sum(Column(MatrixFor(s, parents, attempts).value, i)) == 1.0
      {
        FF.FitnessColumnsSumToOne(s.fitnessScaling, parents, v, i);
      }
    }
  }

  // ----------------------------------------------------- discrete children

  /**
   * newValues[i] = crossoverParent[parentIndex].getValue(i) for a
   * boolean[] newValues of length size: an index outside the parents or the
   * parent's genes throws, an Integer cannot be cast to Boolean, and the
   * store throws past the end of newValues.
   */
  function BoolGene(parents: seq<Individual>, parentIndex: int, i: nat, size: nat): (r: Outcome<bool>)
    ensures r.Ok? ==> i < size
  {
    if !(0 <= parentIndex < |parents|) then Thrown(IndexOutOfBounds)
    else
      match parents[parentIndex].genes.ValueAt(i)
      case Thrown(e) => Thrown(e)
      case Ok(IntValue(_)) => Thrown(ClassCast)
      case Ok(BoolValue(b)) => if i < size then Ok(b) else Thrown(IndexOutOfBounds)
  }

  /** The same store into an int[]: a Boolean cannot be cast to Integer. */
  function IntGene(parents: seq<Individual>, parentIndex: int, i: nat, size: nat): (r: Outcome<Int32>)
    ensures r.Ok? ==> i < size
  {
    if !(0 <= parentIndex < |parents|) then Thrown(IndexOutOfBounds)
    else
      match parents[parentIndex].genes.ValueAt(i)
      case Thrown(e) => Thrown(e)
      case Ok(BoolValue(_)) => Thrown(ClassCast)
      case Ok(IntValue(x)) => if i < size then Ok(x) else Thrown(IndexOutOfBounds)
  }

  /** A new boolean[] of the given length: all false. */
  function NewBools(size: nat): (a: seq<bool>)
    ensures |a| == size && forall i :: 0 <= i < size ==> !a[i]
  {
    seq(size, _ => false)
  }

  /** A new int[] of the given length: all 0. */
  function NewInts(size: nat): (a: seq<Int32>)
    ensures |a| == size && forall i :: 0 <= i < size ==> a[i] == 0
  {
    seq(size, _ => 0)
  }

  /** The discrete crossover loop of BooleanIndividual from gene i on, newValues holding the genes so far. */
  function BoolCopyFrom(parents: seq<Individual>, vector: seq<int>, i: nat, newValues: seq<bool>): (r: Outcome<seq<bool>>)
    decreases |vector| - i
  {
    if i >= |vector| then Ok(newValues)
    else
      match BoolGene(parents, vector[i], i, |newValues|)
      case Thrown(e) => Thrown(e)
      case Ok(b) => BoolCopyFrom(parents, vector, i + 1, newValues[i := b])
  }

  /** The discrete crossover loop of IntIndividual from gene i on. */
  function IntCopyFrom(parents: seq<Individual>, vector: seq<int>, i: nat, newValues: seq<Int32>): (r: Outcome<seq<Int32>>)
    decreases |vector| - i
  {
    if i >= |vector| then Ok(newValues)
    else
      match IntGene(parents, vector[i], i, |newValues|)
      case Thrown(e) => Thrown(e)
      case Ok(x) => IntCopyFrom(parents, vector, i + 1, newValues[i := x])
  }

  /** crossover(CrossoverStrategyDiscrete, ...) of BooleanIndividual once the vector is drawn. */
  method BoolCopy(parents: seq<Individual>, vector: seq<int>, size: nat) returns (r: Outcome<seq<bool>>)
    ensures r == BoolCopyFrom(parents, vector, 0, NewBools(size))
  {
    var newValues := NewBools(size);
    var i := 0;
    while i < |vector|
      invariant 0 <= i <= |vector| && |newValues| == size
      invariant BoolCopyFrom(parents, vector, 0, NewBools(size)) == BoolCopyFrom(parents, vector, i, newValues)
    {
      var gene := BoolGene(parents, vector[i], i, |newValues|);
      if gene.Thrown? {
        return Thrown(gene.ex);
      }
      newValues := newValues[i := gene.value];
      i := i + 1;
    }
    return Ok(newValues);
  }

  /** crossover(CrossoverStrategyDiscrete, ...) of IntIndividual once the vector is drawn. */
  method IntCopy(parents: seq<Individual>, vector: seq<int>, size: nat) returns (r: Outcome<seq<Int32>>)
    ensures r == IntCopyFrom(parents, vector, 0, NewInts(size))
  {
    var newValues: seq<Int32> := NewInts(size);
    var i := 0;
    while i < |vector|
      invariant 0 <= i <= |vector| && |newValues| == size
      invariant IntCopyFrom(parents, vector, 0, NewInts(size)) == IntCopyFrom(parents, vector, i, newValues)
    {
      var gene := IntGene(parents, vector[i], i, |newValues|);
      if gene.Thrown? {
        return Thrown(gene.ex);
      }
      newValues := newValues[i := gene.value];
      i := i + 1;
    }
    return Ok(newValues);
  }

  /**
   * A child of a successful boolean copy has the array's length; gene i is
   * gene i of the parent vector[i] names for every position of the vector,
   * and keeps its initial value past it.
   */
  lemma {:induction false} BoolCopyInherits(parents: seq<Individual>, vector: seq<int>, i: nat, newValues: seq<bool>)
    requires i <= |vector| && i <= |newValues|
    ensures var r := BoolCopyFrom(parents, vector, i, newValues);
            r.Ok? ==>
              && |vector| <= |newValues| == |r.value|
              && (forall g :: 0 <= g < i ==> r.value[g] == newValues[g])
              && (forall g :: i <= g < |vector| ==>
                    0 <= vector[g] < |parents| && parents[vector[g]].genes.BooleanGenes?
                    && g < |parents[vector[g]].genes.bits| && r.value[g] == parents[vector[g]].genes.bits[g])
              && (forall g :: |vector| <= g < |newValues| ==> r.value[g] == newValues[g])
    decreases |vector| - i
  {
    if i < |vector| {
      var gene := BoolGene(parents, vector[i], i, |newValues|);
      if gene.Ok? {
        BoolCopyInherits(parents, vector, i + 1, newValues[i := gene.value]);
      }
    }
  }

  /** The same for the int copy. */
  lemma {:induction false} IntCopyInherits(parents: seq<Individual>, vector: seq<int>, i: nat, newValues: seq<Int32>)
    requires i <= |vector| && i <= |newValues|
    ensures var r := IntCopyFrom(parents, vector, i, newValues);
            r.Ok? ==>
              && |vector| <= |newValues| == |r.value|
              && (forall g :: 0 <= g < i ==> r.value[g] == newValues[g])
              && (forall g :: i <= g < |vector| ==>
                    0 <= vector[g] < |parents| && parents[vector[g]].genes.IntGenes?
                    && g < |parents[vector[g]].genes.values| && r.value[g] == parents[vector[g]].genes.values[g])
              && (forall g :: |vector| <= g < |newValues| ==> r.value[g] == newValues[g])
    decreases |vector| - i
  {
    if i < |vector| {
      var gene := IntGene(parents, vector[i], i, |newValues|);
      if gene.Ok? {
        IntCopyInherits(parents, vector, i + 1, newValues[i := gene.value]);
      }
    }
  }

  /** Parents made by one prototype with at least `size` genes each. */
  predicate IntParents(parents: seq<Individual>, size: nat)
  {
    forall j :: 0 <= j < |parents| ==> parents[j].genes.IntGenes? && size <= |parents[j].genes.values|
  }

  predicate BoolParents(parents: seq<Individual>, size: nat)
  {
    forall j :: 0 <= j < |parents| ==> parents[j].genes.BooleanGenes? && size <= |parents[j].genes.bits|
  }

  /** The copy cannot fail when the vector fits the child and names only parents of the right kind. */
  lemma {:induction false} BoolCopySucceeds(parents: seq<Individual>, vector: seq<int>, i: nat, newValues: seq<bool>)
    requires i <= |vector| <= |newValues| && BoolParents(parents, |vector|)
    requires forall g :: 0 <= g < |vector| ==> 0 <= vector[g] < |parents|
    ensures BoolCopyFrom(parents, vector, i, newValues).Ok?
    decreases |vector| - i
  {
    if i < |vector| {
      BoolCopySucceeds(parents, vector, i + 1, newValues[i := parents[vector[i]].genes.bits[i]]);
    }
  }

  lemma {:induction false} IntCopySucceeds(parents: seq<Individual>, vector: seq<int>, i: nat, newValues: seq<Int32>)
    requires i <= |vector| <= |newValues| && IntParents(parents, |vector|)
    requires forall g :: 0 <= g < |vector| ==> 0 <= vector[g] < |parents|
    ensures IntCopyFrom(parents, vector, i, newValues).Ok?
    decreases |vector| - i
  {
    if i < |vector| {
      IntCopySucceeds(parents, vector, i + 1, newValues[i := parents[vector[i]].genes.values[i]]);
    }
  }

  // ---------------------------------------------------- fuzzy Int children

  const LONG_MIN: int := -0x8000_0000_0000_0000
  const LONG_MAX: int := 0x7FFF_FFFF_FFFF_FFFF

  /** (int) Math.round(x): rounded to a long, saturating, then narrowed to its low 32 bits. */
  function RoundToInt(x: real): (r: Int32)
    ensures INT_MIN as real <= x <= INT_MAX as real ==> x - 0.5 < r as real <= x + 0.5
  {
    var l := Round(x);
    Wrap32(if l < LONG_MIN then LONG_MIN else if l > LONG_MAX then LONG_MAX else l)
  }

  /** crossoverMatrix[j][i] * (int) crossoverParent[j].getValue(i). */
  function FuzzyTerm(matrix: seq<seq<real>>, parents: seq<Individual>, i: nat, j: nat): (r: Outcome<real>)
    requires j < |parents|
  {
    if !(j < |matrix| && i < |matrix[j]|) then Thrown(IndexOutOfBounds)
    else
      match parents[j].genes.ValueAt(i)
      case Thrown(e) => Thrown(e)
      case Ok(BoolValue(_)) => Thrown(ClassCast)
      case Ok(IntValue(x)) => Ok(matrix[j][i] * x as real)
  }

  /** The inner loop over the parents from j on, with the running tempValue. */
  function FuzzySumFrom(matrix: seq<seq<real>>, parents: seq<Individual>, i: nat, j: nat, temp: real): (r: Outcome<real>)
    decreases |parents| - j
  {
    if j >= |parents| then Ok(temp)
    else
      match FuzzyTerm(matrix, parents, i, j)
      case Thrown(e) => Thrown(e)
      case Ok(t) => FuzzySumFrom(matrix, parents, i, j + 1, temp + t)
  }

  /** The outer loop over the genes from i on, newValues holding the genes so far. */
  function FuzzyIntFrom(matrix: seq<seq<real>>, parents: seq<Individual>, i: nat, newValues: seq<Int32>): (r: Outcome<seq<Int32>>)
    decreases |newValues| - i
  {
    if i >= |newValues| then Ok(newValues)
    else
      match FuzzySumFrom(matrix, parents, i, 0, 0.0)
      case Thrown(e) => Thrown(e)
      case Ok(t) => FuzzyIntFrom(matrix, parents, i + 1, newValues[i := RoundToInt(t)])
  }

  /** crossover(CrossoverStrategyFuzzy, ...) of IntIndividual once the matrix is drawn. */
  method FuzzyInt(matrix: seq<seq<real>>, parents: seq<Individual>, size: nat) returns (r: Outcome<seq<Int32>>)
    ensures r == FuzzyIntFrom(matrix, parents, 0, NewInts(size))
  {
    var newValues: seq<Int32> := NewInts(size);
    var i := 0;
    while i < size
      invariant 0 <= i <= size == |newValues|
      invariant FuzzyIntFrom(matrix, parents, 0, NewInts(size)) == FuzzyIntFrom(matrix, parents, i, newValues)
    {
      var tempValue := 0.0;
      var j := 0;
      while j < |parents|
        invariant 0 <= j <= |parents|
        invariant FuzzySumFrom(matrix, parents, i, 0, 0.0) == FuzzySumFrom(matrix, parents, i, j, tempValue)
      {
        var term := FuzzyTerm(matrix, parents, i, j);
        if term.Thrown? {
          return Thrown(term.ex);
        }
        tempValue := tempValue + term.value;
        j := j + 1;
      }
      newValues := newValues[i := RoundToInt(tempValue)];
      i := i + 1;
    }
    return Ok(newValues);
  }

  /** Gene i of every parent, as reals. */
  function GeneColumn(parents: seq<Individual>, i: nat): (x: seq<real>)
    requires IntParents(parents, i + 1)
    ensures |x| == |parents|
  {
    seq(|parents|, j requires 0 <= j < |parents| => parents[j].genes.values[i] as real)
  }

  /** The weighted sum of x by w, accumulated front to back. */
  function Dot(w: seq<real>, x: seq<real>): real
    requires |w| == |x|
    decreases |w|
  {
    if |w| == 0 then 0.0 else Dot(w[..|w| - 1], x[..|w| - 1]) + w[|w| - 1] * x[|w| - 1]
  }

  /** The inner loop computes the weighted sum of gene i by column i. */
  lemma {:induction false} FuzzySumIsDot(matrix: seq<seq<real>>, parents: seq<Individual>, i: nat, j: nat)
    requires |matrix| == |parents| && j <= |parents| && IntParents(parents, i + 1)
    requires forall q :: 0 <= q < |matrix| ==> i < |matrix[q]|
    ensures FuzzySumFrom(matrix, parents, i, j, Dot(Column(matrix, i)[..j], GeneColumn(parents, i)[..j]))
            == Ok(Dot(Column(matrix, i), GeneColumn(parents, i)))
    decreases |parents| - j
  {
    var w, x := Column(matrix, i), GeneColumn(parents, i);
    if j < |parents| {
      assert w[..j + 1][..j] == w[..j] && x[..j + 1][..j] == x[..j];
      assert parents[j].genes.ValueAt(i) == Ok(IntValue(parents[j].genes.values[i]));
      var t := FuzzyTerm(matrix, parents, i, j).value;
      assert t == w[j] * x[j];
      var d := Dot(w[..j], x[..j]);
      assert FuzzySumFrom(matrix, parents, i, j, d) == FuzzySumFrom(matrix, parents, i, j + 1, d + t);
      assert Dot(w[..j + 1], x[..j + 1]) == d + t;
      FuzzySumIsDot(matrix, parents, i, j + 1);
    } else {
      assert w[..j] == w && x[..j] == x;
    }
  }

  /** Non-negative weights keep the weighted sum between lo and hi times their total. */
  lemma {:induction false} DotBetween(w: seq<real>, x: seq<real>, lo: real, hi: real)
    requires |w| == |x| && NonNegative(w)
    requires forall q :: 0 <= q < |x| ==> lo <= x[q] <= hi
    ensures lo * Sum(w) <= Dot(w, x) <= hi * Sum(w)
    decreases |w|
  {
    if |w| > 0 {
      var k := |w| - 1;
      var s, d := Sum(w[..k]), Dot(w[..k], x[..k]);
      assert Sum(w) == s + w[k] && Dot(w, x) == d + w[k] * x[k];
      DotBetween(w[..k], x[..k], lo, hi);
      DotBetweenStep(s, d, w[k], x[k], lo, hi);
    }
  }

  /** One more non-negative weight keeps the weighted sum between lo and hi times the total. */
  lemma {:induction false} DotBetweenStep(s: real, d: real, wk: real, xk: real, lo: real, hi: real)
    requires lo * s <= d <= hi * s && wk >= 0.0 && lo <= xk <= hi
    ensures lo * (s + wk) <= d + wk * xk <= hi * (s + wk)
  {
    MulMonotone(lo, xk, wk);
    MulMonotone(xk, hi, wk);
    assert lo * (s + wk) == lo * s + lo * wk;
    assert hi * (s + wk) == hi * s + hi * wk;
  }

  /** Against a one-hot weight column the weighted sum picks the owner's value. */
  lemma {:induction false} DotOneHot(w: seq<real>, x: seq<real>, o: nat)
    requires |w| == |x| && o < |w| && w[o] == 1.0
    requires forall q :: 0 <= q < |w| && q != o ==> w[q] == 0.0
    ensures Dot(w, x) == x[o]
    decreases |w|
  {
    var k := |w| - 1;
    if o < k {
      DotOneHot(w[..k], x[..k], o);
    } else {
      DotZero(w[..k], x[..k]);
    }
  }

  lemma {:induction false} DotZero(w: seq<real>, x: seq<real>)
    requires |w| == |x| && forall q :: 0 <= q < |w| ==> w[q] == 0.0
    ensures Dot(w, x) == 0.0
    decreases |w|
  {
    if |w| > 0 {
      DotZero(w[..|w| - 1], x[..|w| - 1]);
    }
  }

  /** Rounding a real between two ints stays between them, and no wrap-around happens. */
  lemma {:induction false} RoundBetween(x: real, lo: Int32, hi: Int32)
    requires lo as real <= x <= hi as real
    ensures lo <= RoundToInt(x) <= hi
  {
    var l := Round(x);
    assert lo as real - 0.5 < l as real <= hi as real + 0.5;
    assert lo <= l <= hi;
    assert IsInt(lo) && IsInt(hi);
    assert IsInt(l) && LONG_MIN <= l <= LONG_MAX;
    assert RoundToInt(x) == Wrap32(l);
  }

  /** Rounding an int's value gives the int back. */
  lemma {:induction false} RoundExact(x: Int32)
    ensures RoundToInt(x as real) == x
  {
    RoundBetween(x as real, x, x);
  }

  /**
   * Gene i of a fuzzy child lies between the smallest and the largest gene i
   * of its parents whenever the matrix is stochastic, so a child of parents
   * that meet a constraint meets it too.
   */
  lemma {:induction false} FuzzyGeneBetween(matrix: seq<seq<real>>, parents: seq<Individual>, i: nat, lo: Int32, hi: Int32)
    requires |parents| > 0 && IntParents(parents, i + 1) && StochasticColumn(matrix, |parents|, i)
    requires forall j :: 0 <= j < |parents| ==> lo <= parents[j].genes.values[i] <= hi
    ensures var r := FuzzySumFrom(matrix, parents, i, 0, 0.0);
            r.Ok? && lo <= RoundToInt(r.value) <= hi
  {
    var w, x := Column(matrix, i), GeneColumn(parents, i);
    assert w[..0] == [] && x[..0] == [];
    FuzzySumIsDot(matrix, parents, i, 0);
    assert NonNegative(w);
    DotBetween(w, x, lo as real, hi as real);
    RoundBetween(Dot(w, x), lo, hi);
  }

  /** Against a one-hot column, gene i of a fuzzy child is gene i of the owning parent. */
  lemma {:induction false} FuzzyGeneOneHot(matrix: seq<seq<real>>, parents: seq<Individual>, i: nat, o: nat)
    requires o < |parents| && IntParents(parents, i + 1) && |matrix| == |parents|
    requires forall q :: 0 <= q < |matrix| ==> i < |matrix[q]| && matrix[q][i] == if q == o then 1.0 else 0.0
    ensures var r := FuzzySumFrom(matrix, parents, i, 0, 0.0);
            r.Ok? && RoundToInt(r.value) == parents[o].genes.values[i]
  {
    var w, x := Column(matrix, i), GeneColumn(parents, i);
    assert w[..0] == [] && x[..0] == [];
    FuzzySumIsDot(matrix, parents, i, 0);
    DotOneHot(w, x, o);
    RoundExact(parents[o].genes.values[i]);
  }

  /** A successful fuzzy child keeps the length of newValues and sets gene g from column g from gene i on. */
  lemma {:induction false} FuzzyIntGenes(matrix: seq<seq<real>>, parents: seq<Individual>, i: nat, newValues: seq<Int32>)
    ensures var r := FuzzyIntFrom(matrix, parents, i, newValues);
            && (r.Ok? <==> forall g :: i <= g < |newValues| ==> FuzzySumFrom(matrix, parents, g, 0, 0.0).Ok?)
            && (r.Ok? ==>
                  && |r.value| == |newValues|
                  && (forall g :: 0 <= g < i && g < |newValues| ==> r.value[g] == newValues[g])
                  && forall g :: i <= g < |newValues| ==>
                       r.value[g] == RoundToInt(FuzzySumFrom(matrix, parents, g, 0, 0.0).value))
    decreases |newValues| - i
  {
    if i < |newValues| {
      var t := FuzzySumFrom(matrix, parents, i, 0, 0.0);
      if t.Ok? {
        var next := newValues[i := RoundToInt(t.value)];
        assert FuzzyIntFrom(matrix, parents, i, newValues) == FuzzyIntFrom(matrix, parents, i + 1, next);
        FuzzyIntGenes(matrix, parents, i + 1, next);
        assert |next| == |newValues|;
        assert (forall g :: i <= g < |newValues| ==> FuzzySumFrom(matrix, parents, g, 0, 0.0).Ok?)
           <==> (forall g :: i + 1 <= g < |newValues| ==> FuzzySumFrom(matrix, parents, g, 0, 0.0).Ok?);
      } else {
        assert FuzzyIntFrom(matrix, parents, i, newValues).Thrown?;
        assert !(forall g :: i <= g < |newValues| ==> FuzzySumFrom(matrix, parents, g, 0, 0.0).Ok?) by {
          assert !FuzzySumFrom(matrix, parents, i, 0, 0.0).Ok?;
        }
      }
    }
  }

  // ------------------------------------------------------------- dispatch

  /**
   * The genes of the child Individual.crossover makes of `self`: a fuzzy
   * strategy goes to the fuzzy overload, a discrete one to the discrete
   * overload, and any other strategy is unsupported. BooleanIndividual does
   * not support fuzzy strategies.
   */
  function ChildGenes(self: Genes, s: Strategy, parents: seq<Individual>, attempts: seq<Attempt>): (r: Outcome<Genes>)
  {
    if IsFuzzy(s.kind) then
      match self
      case BooleanGenes(_, _) => Thrown(UnsupportedOperation)
      case IntGenes(prototype, values) =>
        match MatrixFor(s, parents, attempts)
        case Thrown(e) => Thrown(e)
        case Ok(m) =>
          match FuzzyIntFrom(m, parents, 0, NewInts(|values|))
          case Thrown(e) => Thrown(e)
          case Ok(child) => Ok(IntGenes(prototype, child))
    else if IsDiscrete(s.kind) then
      match VectorFor(s, parents, attempts)
      case Thrown(e) => Thrown(e)
      case Ok(vector) =>
        match self
        case BooleanGenes(prototype, bits) =>
          (match BoolCopyFrom(parents, vector, 0, NewBools(|bits|))
           case Thrown(e) => Thrown(e)
           case Ok(child) => Ok(BooleanGenes(prototype, child)))
        case IntGenes(prototype, values) =>
          (match IntCopyFrom(parents, vector, 0, NewInts(|values|))
           case Thrown(e) => Thrown(e)
           case Ok(child) => Ok(IntGenes(prototype, child)))
    else Thrown(UnsupportedOperation)
  }

  /** Individual.crossover(strategy, parents) on `self`, with its overloads. */
  method Crossover(self: Individual, s: Strategy, parents: seq<Individual>, attempts: seq<Attempt>)
    returns (r: Outcome<Individual>)
    ensures var expected := ChildGenes(self.genes, s, parents, attempts);
            && (r.Ok? <==> expected.Ok?)
            && (r.Thrown? ==> r.ex == expected.ex)
            && (r.Ok? ==> fresh(r.value) && r.value.Fresh() && r.value.genes == expected.value)
  {
    var genes: Genes;
    if IsFuzzy(s.kind) {
      if self.genes.BooleanGenes? {
        return Thrown(UnsupportedOperation);
      }
      var matrix := GetCrossoverMatrix(s, parents, attempts);
      if matrix.Thrown? {
        return Thrown(matrix.ex);
      }
      var child := FuzzyInt(matrix.value, parents, |self.genes.values|);
      if child.Thrown? {
        return Thrown(child.ex);
      }
      genes := IntGenes(self.genes.intPrototype, child.value);
    } else if IsDiscrete(s.kind) {
      var vector := GetCrossoverVector(s, parents, attempts);
      if vector.Thrown? {
        return Thrown(vector.ex);
      }
      if self.genes.BooleanGenes? {
        var child := BoolCopy(parents, vector.value, |self.genes.bits|);
        if child.Thrown? {
          return Thrown(child.ex);
        }
        genes := BooleanGenes(self.genes.booleanPrototype, child.value);
      } else {
        var child := IntCopy(parents, vector.value, |self.genes.values|);
        if child.Thrown? {
          return Thrown(child.ex);
        }
        genes := IntGenes(self.genes.intPrototype, child.value);
      }
    } else {
      return Thrown(UnsupportedOperation);
    }
    var individual := new Individual(genes);
    return Ok(individual);
  }

  /**
   * Discrete crossover of Boolean parents with as many genes as the child:
   * it succeeds whenever the strategy does, and gene i of the child is gene i
   * of the parent the vector names.
   */
  lemma {:induction false} DiscreteBoolChild(self: Genes, s: Strategy, parents: seq<Individual>, attempts: seq<Attempt>)
    requires IsDiscrete(s.kind) && self.BooleanGenes? && |parents| > 0
    requires BoolParents(parents, |self.bits|) && parents[0].VariableCount() == |self.bits|
    ensures var vector := VectorFor(s, parents, attempts);
            var r := ChildGenes(self, s, parents, attempts);
            && (r.Ok? <==> vector.Ok?)
            && (r.Ok? ==> r.value.BooleanGenes? && r.value.booleanPrototype == self.booleanPrototype
                          && |r.value.bits| == |self.bits|
                          && forall i :: 0 <= i < |self.bits| ==> r.value.bits[i] == parents[vector.value[i]].genes.bits[i])
  {
    var vector := VectorFor(s, parents, attempts);
    if vector.Ok? {
      var init := NewBools(|self.bits|);
      BoolCopySucceeds(parents, vector.value, 0, init);
      BoolCopyInherits(parents, vector.value, 0, init);
    }
  }

  /**
   * Discrete crossover of Int parents: the child copies every gene from a
   * parent, so parents that all meet a per-gene bound give a child that meets it.
   */
  lemma {:induction false} DiscreteIntChild(self: Genes, s: Strategy, parents: seq<Individual>, attempts: seq<Attempt>,
                                            lo: seq<Int32>, hi: seq<Int32>)
    requires IsDiscrete(s.kind) && self.IntGenes? && |parents| > 0
    requires IntParents(parents, |self.values|) && parents[0].VariableCount() == |self.values|
    requires |lo| == |hi| == |self.values|
    requires forall j, i :: 0 <= j < |parents| && 0 <= i < |self.values| ==> lo[i] <= parents[j].genes.values[i] <= hi[i]
    ensures var vector := VectorFor(s, parents, attempts);
            var r := ChildGenes(self, s, parents, attempts);
            && (r.Ok? <==> vector.Ok?)
            && (r.Ok? ==> r.value.IntGenes? && r.value.intPrototype == self.intPrototype
                          && |r.value.values| == |self.values|
                          && (forall i :: 0 <= i < |self.values| ==> r.value.values[i] == parents[vector.value[i]].genes.values[i])
                          && forall i :: 0 <= i < |self.values| ==> lo[i] <= r.value.values[i] <= hi[i])
  {
    var vector := VectorFor(s, parents, attempts);
    if vector.Ok? {
      var init := NewInts(|self.values|);
      IntCopySucceeds(parents, vector.value, 0, init);
      IntCopyInherits(parents, vector.value, 0, init);
    }
  }

  /**
   * Against a stochastic matrix, the fuzzy Int child of parents whose gene i
   * lies in [lo[i], hi[i]] exists and has every gene i in [lo[i], hi[i]].
   */
  lemma {:induction false} FuzzyIntBetween(m: seq<seq<real>>, parents: seq<Individual>, size: nat, lo: seq<Int32>, hi: seq<Int32>)
    requires |parents| > 0 && IntParents(parents, size) && Stochastic(m, |parents|, size)
    requires |lo| == |hi| == size
    requires forall j, i :: 0 <= j < |parents| && 0 <= i < size ==> lo[i] <= parents[j].genes.values[i] <= hi[i]
    ensures var r := FuzzyIntFrom(m, parents, 0, NewInts(size));
            r.Ok? && |r.value| == size && forall i :: 0 <= i < size ==> lo[i] <= r.value[i] <= hi[i]
  {
    forall i | 0 <= i < size
      ensures FuzzySumFrom(m, parents, i, 0, 0.0).Ok?
      ensures lo[i] <= RoundToInt(FuzzySumFrom(m, parents, i, 0, 0.0).value) <= hi[i]
    {
      assert StochasticColumn(m, |parents|, i);
      FuzzyGeneBetween(m, parents, i, lo[i], hi[i]);
    }
    FuzzyIntGenes(m, parents, 0, NewInts(size));
  }

  /**
   * Fuzzy crossover of Int parents by SinglePointFuzzy or ScatteredFuzzy:
   * every gene of the child lies within the parents' values for that gene,
   * so the unchecked constraints of the prototype still hold.
   */
  lemma {:induction false} FuzzyIntChild(self: Genes, s: Strategy, parents: seq<Individual>, attempts: seq<Attempt>,
                                         lo: seq<Int32>, hi: seq<Int32>)
    requires (s.kind == SinglePointFuzzy || s.kind == ScatteredFuzzy) && self.IntGenes? && |parents| > 0
    requires IntParents(parents, |self.values|) && parents[0].VariableCount() == |self.values|
    requires |lo| == |hi| == |self.values|
    requires forall j, i :: 0 <= j < |parents| && 0 <= i < |self.values| ==> lo[i] <= parents[j].genes.values[i] <= hi[i]
    ensures var matrix := MatrixFor(s, parents, attempts);
            var r := ChildGenes(self, s, parents, attempts);
            && (r.Ok? <==> matrix.Ok?)
            && (r.Ok? ==> r.value.IntGenes? && r.value.intPrototype == self.intPrototype
                          && |r.value.values| == |self.values|
                          && forall i :: 0 <= i < |self.values| ==> lo[i] <= r.value.values[i] <= hi[i])
  {
    var matrix := MatrixFor(s, parents, attempts);
    if matrix.Ok? {
      MatrixForIsStochastic(s, parents, attempts);
      FuzzyIntBetween(matrix.value, parents, |self.values|, lo, hi);
    }
  }
}

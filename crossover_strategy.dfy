/**
 * What every crossover strategy shares: the parent count and clone flag it
 * is built with, its equality, the two clone tests, the conversion of a
 * fuzzy matrix into a discrete vector, and the repair step that moves one
 * parent index to another one.
 */
module CrossoverStrategy {
  import opened JavaLang
  import opened Draws
  import opened FitnessScaling

  /**
   * The concrete strategy classes. Other stands for a user class that extends
   * CrossoverStrategy directly, being neither fuzzy nor discrete.
   */
  datatype Kind =
    | ScatteredDiscrete
    | SinglePointDiscrete
    | SinglePointFuzzy
    | ScatteredFuzzy
    | ScatteredFitnessFuzzy
    | Other

  predicate IsDiscrete(kind: Kind) { kind == ScatteredDiscrete || kind == SinglePointDiscrete }

  predicate IsFuzzy(kind: Kind) { kind == SinglePointFuzzy || kind == ScatteredFuzzy || kind == ScatteredFitnessFuzzy }

  /**
   * A strategy instance: its class, the numParents and checkClones fields of
   * the base class, and the scaler a ScatteredFitnessFuzzy owns (ignored by
   * the other classes).
   */
  datatype Strategy = Strategy(kind: Kind, numParents: int, checkClones: bool, fitnessScaling: Scaler)

  /**
   * The two-argument constructors. ScatteredFitnessFuzzy hands false to the
   * base class whatever it is given.
   */
  function NewStrategy(kind: Kind, numParents: int, checkClones: bool, fitnessScaling: Scaler): (s: Strategy)
    ensures s.kind == kind && s.numParents == numParents
    ensures s.checkClones <==> checkClones && kind != ScatteredFitnessFuzzy
  {
    Strategy(kind, numParents, checkClones && kind != ScatteredFitnessFuzzy, fitnessScaling)
  }

  /**
   * The one-argument constructors: clone checking on, and for
   * ScatteredFitnessFuzzy a RankScaling with the default weight.
   */
  function DefaultStrategy(kind: Kind, numParents: int, rankWeight: RankWeight): (s: Strategy)
    ensures s.kind == kind && s.numParents == numParents
    ensures s.checkClones <==> kind != ScatteredFitnessFuzzy
    ensures s.fitnessScaling.Rank?
  {
    NewStrategy(kind, numParents, true, Rank(rankWeight))
  }

  /** getParentCount. */
  function GetParentCount(s: Strategy): int
  {
    s.numParents
  }

  /**
   * SinglePointFuzzy declares a private checkClones field of its own that is
   * never assigned, so its redraw test reads false whatever the base field
   * says. This is the flag the strategies act on.
   */
  predicate RedrawsClones(s: Strategy)
  {
    s.checkClones && s.kind != SinglePointFuzzy
  }

  /** equals: same class, same checkClones, same numParents. */
  predicate Equals(a: Strategy, b: Strategy)
  {
    a.kind == b.kind && a.checkClones == b.checkClones && a.numParents == b.numParents
  }

  /** getParentCount returns what either constructor was given. */
  lemma {:induction false} ParentCountRoundTrip(kind: Kind, numParents: int, checkClones: bool, scaler: Scaler, w: RankWeight)
    ensures GetParentCount(NewStrategy(kind, numParents, checkClones, scaler)) == numParents
    ensures GetParentCount(DefaultStrategy(kind, numParents, w)) == numParents
  {
  }

  /**
   * equals is an equivalence that ignores the scaler: two ScatteredFitnessFuzzy
   * strategies with different scalers are equal.
   */
  lemma {:induction false} EqualsIsEquivalence(a: Strategy, b: Strategy, c: Strategy)
    ensures Equals(a, a)
    ensures Equals(a, b) ==> Equals(b, a)
    ensures Equals(a, b) && Equals(b, c) ==> Equals(a, c)
    ensures Equals(a, b) <==> Equals(a.(fitnessScaling := c.fitnessScaling), b)
  {
  }

  /** The one-argument constructor and the two-argument one given true build equal strategies. */
  lemma {:induction false} DefaultIsCheckedStrategy(kind: Kind, numParents: int, w: RankWeight, scaler: Scaler)
    ensures Equals(DefaultStrategy(kind, numParents, w), NewStrategy(kind, numParents, true, scaler))
    ensures kind == SinglePointFuzzy ==> !RedrawsClones(DefaultStrategy(kind, numParents, w))
    ensures kind != SinglePointFuzzy && kind != ScatteredFitnessFuzzy ==> RedrawsClones(DefaultStrategy(kind, numParents, w))
  {
  }

  // ------------------------------------------------------------ clone tests

  /** Every entry of the vector names the same parent (true for no entries). */
  predicate AllSame(v: seq<int>)
  {
    forall i :: 0 <= i < |v| ==> v[i] == v[0]
  }

  /** isClone(int[]): an early-exit scan against the first entry. */
  method IsCloneVector(input: seq<int>) returns (clone: bool)
    ensures clone <==> AllSame(input)
  {
    if |input| == 0 {
      return true;
    }
    var needle := input[0];
    var i := 1;
    while i < |input|
      invariant 1 <= i <= |input|
      invariant forall k :: 0 <= k < i ==> input[k] == needle
    {
      if needle != input[i] {
        return false;
      }
      i := i + 1;
    }
    return true;
  }

  /** A weight that gives its gene (almost) wholly to one side. */
  predicate Decided(x: real)
  {
    !(x < 0.99 && x > 0.01)
  }

  /** No rows, or every weight of row 0 is decided; the other rows are not looked at. */
  predicate FirstRowDecided(m: seq<seq<real>>)
  {
    |m| == 0 || forall i :: 0 <= i < |m[0]| ==> Decided(m[0][i])
  }

  /** isClone(double[][]): an early-exit scan over row 0. */
  method IsCloneMatrix(input: seq<seq<real>>) returns (clone: bool)
    ensures clone <==> FirstRowDecided(input)
  {
    if |input| == 0 {
      return true;
    }
    var count := |input[0]|;
    var i := 0;
    while i < count
      invariant 0 <= i <= count
      invariant forall k :: 0 <= k < i ==> Decided(input[0][k])
    {
      if input[0][i] < 0.99 && input[0][i] > 0.01 {
        return false;
      }
      i := i + 1;
    }
    return true;
  }

  /** Only row 0 decides whether a matrix counts as a clone. */
  lemma {:induction false} OtherRowsIgnored(m: seq<seq<real>>, rows: seq<seq<real>>)
    requires |m| > 0
    ensures FirstRowDecided(m) <==> FirstRowDecided([m[0]] + rows)
  {
    assert ([m[0]] + rows)[0] == m[0];
  }

  // ------------------------------------------------------- fuzzyToDiscrete

  /** Row p of the matrix has an entry in column c. */
  predicate Reaches(m: seq<seq<real>>, c: nat, rows: nat)
    requires rows <= |m|
  {
    forall p :: 0 <= p < rows ==> c < |m[p]|
  }

  /**
   * The (maxIndex, maxValue) pair of the scan of column c after its first
   * `rows` rows: it starts at (-1, 0) and only a strictly larger value
   * replaces it.
   */
  function ScanAfter(m: seq<seq<real>>, c: nat, rows: nat): (r: (int, real))
    requires rows <= |m| && Reaches(m, c, rows)
    decreases rows
  {
    if rows == 0 then (-1, 0.0)
    else
      var prev := ScanAfter(m, c, rows - 1);
      if m[rows - 1][c] > prev.1 then (rows - 1, m[rows - 1][c]) else prev
  }

  /**
   * The scan finds the first row holding the strictly largest positive value
   * of the column, or -1 when no value in the column is positive.
   */
  lemma {:induction false} ScanFindsFirstLargest(m: seq<seq<real>>, c: nat, rows: nat)
    requires rows <= |m| && Reaches(m, c, rows)
    ensures ScanAfter(m, c, rows).0 == -1 <==> forall p :: 0 <= p < rows ==> m[p][c] <= 0.0
    ensures ScanAfter(m, c, rows).0 == -1 ==> ScanAfter(m, c, rows).1 == 0.0
    ensures ScanAfter(m, c, rows).0 != -1 ==>
              var best := ScanAfter(m, c, rows).0;
              && 0 <= best < rows
              && m[best][c] == ScanAfter(m, c, rows).1 > 0.0
              && (forall p :: 0 <= p < rows ==> m[p][c] <= m[best][c])
              && (forall p :: 0 <= p < best ==> m[p][c] < m[best][c])
    decreases rows
  {
    if rows > 0 {
      ScanFindsFirstLargest(m, c, rows - 1);
    }
  }

  /** The inner loop of fuzzyToDiscrete over the rows of one column. */
  method ScanColumn(fuzzy: seq<seq<real>>, c: nat) returns (r: Outcome<int>)
    ensures r.Thrown? <==> !Reaches(fuzzy, c, |fuzzy|)
    ensures r.Thrown? ==> r.ex == IndexOutOfBounds
    ensures r.Ok? ==> r.value == ScanAfter(fuzzy, c, |fuzzy|).0
  {
    var maxIndex := -1;
    var maxValue := 0.0;
    var p := 0;
    while p < |fuzzy|
      invariant 0 <= p <= |fuzzy|
      invariant Reaches(fuzzy, c, p)
      invariant (maxIndex, maxValue) == ScanAfter(fuzzy, c, p)
    {
      if |fuzzy[p]| <= c {
        return Thrown(IndexOutOfBounds);
      }
      var value := fuzzy[p][c];
      if value > maxValue {
        maxValue := value;
        maxIndex := p;
      }
      p := p + 1;
    }
    return Ok(maxIndex);
  }

  /** Some row is shorter than row 0. */
  predicate Ragged(fuzzy: seq<seq<real>>)
    requires |fuzzy| > 0
  {
    exists p :: 0 <= p < |fuzzy| && |fuzzy[p]| < |fuzzy[0]|
  }

  /**
   * fuzzyToDiscrete: one entry per column of row 0, the row the scan of that
   * column settles on. No rows, or a row shorter than row 0, is an index out
   * of bounds.
   */
  method FuzzyToDiscrete(fuzzy: seq<seq<real>>) returns (r: Outcome<seq<int>>)
    ensures r.Thrown? <==> |fuzzy| == 0 || Ragged(fuzzy)
    ensures r.Thrown? ==> r.ex == IndexOutOfBounds
    ensures r.Ok? ==> |r.value| == |fuzzy[0]|
    ensures r.Ok? ==> forall c :: 0 <= c < |r.value| ==> Reaches(fuzzy, c, |fuzzy|) && r.value[c] == ScanAfter(fuzzy, c, |fuzzy|).0
  {
    if |fuzzy| == 0 {
      return Thrown(IndexOutOfBounds);
    }
    var width := |fuzzy[0]|;
    var vector: seq<int> := [];
    var variable := 0;
    while variable < width
      invariant 0 <= variable <= width
      invariant forall p :: 0 <= p < |fuzzy| ==> variable <= |fuzzy[p]|
      invariant |vector| == variable
      invariant forall c :: 0 <= c < variable ==> Reaches(fuzzy, c, |fuzzy|) && vector[c] == ScanAfter(fuzzy, c, |fuzzy|).0
    {
      var maxIndex := ScanColumn(fuzzy, variable);
      if maxIndex.Thrown? {
        var p :| 0 <= p < |fuzzy| && variable >= |fuzzy[p]|;
        assert |fuzzy[p]| < width;
        return Thrown(IndexOutOfBounds);
      }
      vector := vector + [maxIndex.value];
      variable := variable + 1;
    }
    return Ok(vector);
  }

  /** One column of the matrix: the weights of all parents for gene i. */
  function Column(m: seq<seq<real>>, i: nat): (c: seq<real>)
    requires forall j :: 0 <= j < |m| ==> i < |m[j]|
    ensures |c| == |m|
  {
    seq(|m|, j requires 0 <= j < |m| => m[j][i])
  }

  // ------------------------------------------------------------ the draws

  /**
   * The draws one attempt of a strategy makes: nextInt draws, nextDouble
   * draws, the nextInt draws of a clone repair and its one nextBoolean. A
   * strategy that redraws a clone starts the next attempt.
   */
  datatype Attempt = Attempt(ints: seq<int>, reals: seq<real>, repair: seq<int>, coin: bool)

  /** Attempt k, with every draw reading as zero past the end of the list. */
  function AttemptAt(attempts: seq<Attempt>, k: nat): Attempt
  {
    if k < |attempts| then attempts[k] else Attempt([], [], [], false)
  }

  /**
   * The repair's choice of a different parent index: from index 0 a draw in
   * [1, n), from index n - 1 a draw in [0, n - 1), otherwise the neighbour
   * above when `up` holds and the one below when it does not. With a single
   * parent there is none to move to and nextInt(0) throws.
   */
  function OtherParent(value: int, n: int, draw: int, up: bool): (r: Outcome<int>)
    requires 0 <= value < n
    ensures r.Thrown? <==> n == 1
    ensures r.Thrown? ==> r.ex == IllegalArgument
    ensures r.Ok? ==> 0 <= r.value < n && r.value != value
  {
    if value == 0 then
      match NextInt(draw, n - 1)
      case Thrown(e) => Thrown(e)
      case Ok(x) => Ok(x + 1)
    else if value == n - 1 then NextInt(draw, n - 1)
    else Ok(if up then value + 1 else value - 1)
  }
}

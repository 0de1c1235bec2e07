/**
 * ScatteredFitnessFuzzy: a parent's weight for every gene is its fitness,
 * scaled so that the weights of all parents add up to 1. The matrix is
 * determined by the parents, so it is never checked for clones.
 */
module ScatteredFitnessFuzzyStrategy {
  import opened JavaLang
  import opened Sums
  import opened Individuals
  import opened FitnessScaling
  import opened CrossoverStrategy

  /** A weight repeated once per gene. */
  function ConstantRow(weight: real, v: nat): (row: seq<real>)
    ensures |row| == v && forall j :: 0 <= j < v ==> row[j] == weight
  {
    seq(v, _ => weight)
  }

  /** Parent p's row repeats its scaled fitness once per gene. */
  function ConstantRows(weights: seq<real>, v: nat): (m: seq<seq<real>>)
    ensures |m| == |weights|
    ensures forall p, j :: 0 <= p < |weights| && 0 <= j < v ==> |m[p]| == v && m[p][j] == weights[p]
  {
    seq(|weights|, p requires 0 <= p < |weights| => ConstantRow(weights[p], v))
  }

  /** The inner loop of getCrossoverMatrix: one row of the matrix. */
  method FillRow(fitness: real, variableCount: nat) returns (row: seq<real>)
    ensures row == ConstantRow(fitness, variableCount)
  {
    row := [];
    var j := 0;
    while j < variableCount
      invariant 0 <= j <= variableCount && |row| == j
      invariant forall q :: 0 <= q < j ==> row[q] == fitness
    {
      row := row + [fitness];
      j := j + 1;
    }
  }

  /** The outer loop of getCrossoverMatrix: row p repeats parent p's weight. */
  method FillRows(weights: seq<real>, variableCount: nat) returns (matrix: seq<seq<real>>)
    ensures matrix == ConstantRows(weights, variableCount)
  {
    matrix := [];
    var parentIndex := 0;
    while parentIndex < |weights|
      invariant 0 <= parentIndex <= |weights| && |matrix| == parentIndex
      invariant forall p :: 0 <= p < parentIndex ==> matrix[p] == ConstantRow(weights[p], variableCount)
    {
      var row := FillRow(weights[parentIndex], variableCount);
      matrix := matrix + [row];
      parentIndex := parentIndex + 1;
    }
    var expected := ConstantRows(weights, variableCount);
    assert |matrix| == |expected|;
    forall p | 0 <= p < |matrix|
      ensures matrix[p] == expected[p]
    {
    }
  }

  /**
   * getCrossoverMatrix: reading parents[0] of an empty array throws, and a
   * fitness the scaler cannot represent is Unrepresentable; otherwise every
   * row is the parent's scaled fitness for a parentsNeeded of 1.
   */
  method CrossoverMatrix(scaler: Scaler, parents: seq<Individual>) returns (r: Outcome<seq<seq<real>>>)
    ensures |parents| == 0 ==> r == Thrown(IndexOutOfBounds)
    ensures |parents| > 0 ==> (r.Ok? <==> Representable(scaler, parents))
    ensures r.Thrown? && |parents| > 0 ==> r.ex == Unrepresentable
    ensures r.Ok? ==> |parents| > 0 && r.value == ConstantRows(ScaledBy(scaler, parents, 1), parents[0].VariableCount())
  {
    if |parents| == 0 {
      return Thrown(IndexOutOfBounds);
    }
    var variableCount := parents[0].VariableCount();
    var scaled := ScaleFitness(scaler, parents, 1);
    if scaled.Thrown? {
      return Thrown(scaled.ex);
    }
    var matrix := FillRows(ScaledValues(scaled.value), variableCount);
    return Ok(matrix);
  }

  /**
   * Every gene is shared out in full: each column of the matrix is the list
   * of scaled fitnesses, which adds up to the parentsNeeded of 1.
   */
  lemma {:induction false} FitnessColumnsSumToOne(scaler: Scaler, parents: seq<Individual>, v: nat, j: nat)
    requires |parents| > 0 && Representable(scaler, parents) && j < v
    ensures Sum(Column(ConstantRows(ScaledBy(scaler, parents, 1), v), j)) == 1.0
  {
    var weights := ScaledBy(scaler, parents, 1);
    assert Column(ConstantRows(weights, v), j) == weights;
    ScaledBySum(scaler, parents, 1);
  }
}

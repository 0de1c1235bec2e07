/**
 * ScatteredFuzzy: every parent gets a random weight per gene, and the weights
 * of each gene are divided by their total so that they share the gene out.
 * With clone checking on, a matrix whose row 0 gives every gene (almost)
 * wholly to or away from parent 0 is redrawn.
 */
module ScatteredFuzzyStrategy {
  import opened JavaLang
  import opened Draws
  import opened Sums
  import opened CrossoverStrategy

  /** Draw (i, j) of an attempt: the matrix is drawn row by row. */
  function Weight(reals: seq<real>, v: nat, i: nat, j: nat): (u: real)
    ensures 0.0 <= u < 1.0
  {
    NextDouble(RealAt(reals, i * v + j))
  }

  /** avg[j] once the first `rows` rows are drawn. */
  function ColumnTotal(reals: seq<real>, v: nat, rows: nat, j: nat): (t: real)
    ensures t >= 0.0
    decreases rows
  {
    if rows == 0 then 0.0 else ColumnTotal(reals, v, rows - 1, j) + Weight(reals, v, rows - 1, j)
  }

  /** The whole avg array once the first `rows` rows are drawn. */
  function Totals(reals: seq<real>, v: nat, rows: nat): (avg: seq<real>)
    ensures |avg| == v
  {
    seq(v, j requires 0 <= j < v => ColumnTotal(reals, v, rows, j))
  }

  /** Row i as drawn. */
  function RawRow(reals: seq<real>, v: nat, i: nat): (row: seq<real>)
    ensures |row| == v
  {
    seq(v, j requires 0 <= j < v => Weight(reals, v, i, j))
  }

  /**
   * Some gene drew 0 for every parent. Its column total is 0, and the source
   * divides 0 by 0.
   */
  predicate EmptyColumn(reals: seq<real>, n: nat, v: nat)
  {
    exists j :: 0 <= j < v && ColumnTotal(reals, v, n, j) == 0.0
  }

  /** Row i after the division by the column totals. */
  function NormalisedRow(reals: seq<real>, n: nat, v: nat, i: nat): (row: seq<real>)
    requires !EmptyColumn(reals, n, v)
    ensures |row| == v
  {
    seq(v, j requires 0 <= j < v => Weight(reals, v, i, j) / ColumnTotal(reals, v, n, j))
  }

  /** The n x v matrix of an attempt after the division. */
  function Normalised(reals: seq<real>, n: nat, v: nat): (m: seq<seq<real>>)
    requires !EmptyColumn(reals, n, v)
    ensures |m| == n && forall i :: 0 <= i < n ==> |m[i]| == v
  {
    seq(n, i requires 0 <= i < n => NormalisedRow(reals, n, v, i))
  }

  /**
   * The matrix getCrossoverMatrix returns from attempt k on. A gene with a
   * zero column total is Unrepresentable; a clone is redrawn, and running out
   * of attempts is RedrawLimit.
   */
  function Matrix(n: int, v: nat, checkClones: bool, attempts: seq<Attempt>, k: nat): (r: Outcome<seq<seq<real>>>)
    requires n > 0
    decreases |attempts| - k
  {
    var a := AttemptAt(attempts, k);
    if EmptyColumn(a.reals, n, v) then Thrown(Unrepresentable)
    else
      var m := Normalised(a.reals, n, v);
      if !(checkClones && FirstRowDecided(m)) then Ok(m)
      else if k + 1 < |attempts| then Matrix(n, v, checkClones, attempts, k + 1)
      else Thrown(RedrawLimit)
  }

  /** The inner drawing loop over one row: each draw is stored and added to its column total. */
  method DrawRow(reals: seq<real>, v: nat, i: nat, avg: seq<real>) returns (row: seq<real>, avg': seq<real>)
    requires |avg| == v
    ensures row == RawRow(reals, v, i)
    ensures |avg'| == v && forall j :: 0 <= j < v ==> avg'[j] == avg[j] + Weight(reals, v, i, j)
  {
    row := [];
    avg' := avg;
    var j := 0;
    while j < v
      invariant 0 <= j <= v && |row| == j && |avg'| == v
      invariant forall q :: 0 <= q < j ==> row[q] == Weight(reals, v, i, q)
      invariant forall q :: 0 <= q < v ==> avg'[q] == if q < j then avg[q] + Weight(reals, v, i, q) else avg[q]
    {
      var rDouble := Weight(reals, v, i, j);
      row := row + [rDouble];
      avg' := avg'[j := avg'[j] + rDouble];
      j := j + 1;
    }
  }

  /** The drawing loops: n rows of v draws, with the column totals in avg. */
  method DrawWeights(n: nat, v: nat, reals: seq<real>) returns (matrix: seq<seq<real>>, avg: seq<real>)
    ensures |matrix| == n && forall i :: 0 <= i < n ==> matrix[i] == RawRow(reals, v, i)
    ensures avg == Totals(reals, v, n)
  {
    matrix := [];
    avg := seq(v, _ => 0.0);
    var i := 0;
    while i < n
      invariant 0 <= i <= n && |matrix| == i
      invariant forall r :: 0 <= r < i ==> matrix[r] == RawRow(reals, v, r)
      invariant avg == Totals(reals, v, i)
    {
      var row;
      row, avg := DrawRow(reals, v, i, avg);
      matrix := matrix + [row];
      i := i + 1;
    }
  }

  /** The inner division loop over one row; a zero total would make the entry NaN. */
  method DivideRow(row: seq<real>, avg: seq<real>) returns (r: Outcome<seq<real>>)
    requires |row| == |avg|
    ensures r.Thrown? <==> exists j :: 0 <= j < |avg| && avg[j] == 0.0
    ensures r.Thrown? ==> r.ex == Unrepresentable
    ensures r.Ok? ==> |r.value| == |row| && forall j :: 0 <= j < |row| ==> avg[j] != 0.0 && r.value[j] == row[j] / avg[j]
  {
    var divided := row;
    var j := 0;
    while j < |row|
      invariant 0 <= j <= |row| == |divided|
      invariant forall q :: 0 <= q < j ==> avg[q] != 0.0 && divided[q] == row[q] / avg[q]
      invariant forall q :: j <= q < |row| ==> divided[q] == row[q]
    {
      if avg[j] == 0.0 {
        return Thrown(Unrepresentable);
      }
      divided := divided[j := divided[j] / avg[j]];
      j := j + 1;
    }
    return Ok(divided);
  }

  /** The division loops: every entry divided by its column total. */
  method Divide(reals: seq<real>, n: nat, v: nat, raw: seq<seq<real>>, avg: seq<real>)
    returns (r: Outcome<seq<seq<real>>>)
    requires n > 0
    requires |raw| == n && forall i :: 0 <= i < n ==> raw[i] == RawRow(reals, v, i)
    requires avg == Totals(reals, v, n)
    ensures r.Thrown? <==> EmptyColumn(reals, n, v)
    ensures r.Thrown? ==> r.ex == Unrepresentable
    ensures r.Ok? ==> r.value == Normalised(reals, n, v)
  {
    var matrix := raw;
    var i := 0;
    while i < n
      invariant 0 <= i <= n && |matrix| == n
      invariant i > 0 ==> !EmptyColumn(reals, n, v)
      invariant forall q :: 0 <= q < i ==> !EmptyColumn(reals, n, v) && matrix[q] == NormalisedRow(reals, n, v, q)
      invariant forall q :: i <= q < n ==> matrix[q] == raw[q]
    {
      var row := DivideRow(matrix[i], avg);
      if row.Thrown? {
        var j :| 0 <= j < |avg| && avg[j] == 0.0;
        assert ColumnTotal(reals, v, n, j) == 0.0;
        return Thrown(row.ex);
      }
      forall j | 0 <= j < v
        ensures ColumnTotal(reals, v, n, j) != 0.0
      {
        assert avg[j] != 0.0;
      }
      assert !EmptyColumn(reals, n, v);
      assert row.value == NormalisedRow(reals, n, v, i);
      matrix := matrix[i := row.value];
      i := i + 1;
    }
    assert matrix == Normalised(reals, n, v);
    return Ok(matrix);
  }

  /** ScatteredFuzzy.getCrossoverMatrix once n and v are read. */
  method CrossoverMatrix(n: int, v: nat, checkClones: bool, attempts: seq<Attempt>, k: nat)
    returns (r: Outcome<seq<seq<real>>>)
    requires n > 0
    ensures r == Matrix(n, v, checkClones, attempts, k)
    decreases |attempts| - k
  {
    var a := AttemptAt(attempts, k);
    var matrix, avg := DrawWeights(n, v, a.reals);
    var divided := Divide(a.reals, n, v, matrix, avg);
    if divided.Thrown? {
      return divided;
    }
    if checkClones {
      var clone := IsCloneMatrix(divided.value);
      if clone {
        if k + 1 < |attempts| {
          r := CrossoverMatrix(n, v, checkClones, attempts, k + 1);
          return;
        }
        return Thrown(RedrawLimit);
      }
    }
    return divided;
  }

  // ------------------------------------------------------------- properties

  /** The draws of gene j for the first `rows` parents. */
  function WeightColumn(reals: seq<real>, v: nat, rows: nat, j: nat): (c: seq<real>)
    ensures |c| == rows
  {
    seq(rows, i requires 0 <= i < rows => Weight(reals, v, i, j))
  }

  lemma {:induction false} WeightColumnSum(reals: seq<real>, v: nat, rows: nat, j: nat)
    ensures Sum(WeightColumn(reals, v, rows, j)) == ColumnTotal(reals, v, rows, j)
    decreases rows
  {
    if rows > 0 {
      var c := WeightColumn(reals, v, rows, j);
      assert c[..rows - 1] == WeightColumn(reals, v, rows - 1, j);
      WeightColumnSum(reals, v, rows - 1, j);
    }
  }

  /** No single draw exceeds the total of its column. */
  lemma {:induction false} WeightBelowTotal(reals: seq<real>, v: nat, rows: nat, i: nat, j: nat)
    requires i < rows
    ensures Weight(reals, v, i, j) <= ColumnTotal(reals, v, rows, j)
    decreases rows
  {
    if i < rows - 1 {
      WeightBelowTotal(reals, v, rows - 1, i, j);
    }
  }

  /** Dividing by the total: a fraction in [0, 1]. */
  lemma {:induction false} ShareOfTotal(x: real, t: real)
    requires 0.0 <= x <= t && t > 0.0
    ensures 0.0 <= x / t <= 1.0
  {
    DivNonNegative(x, t);
    assert (x / t) * t == x;
  }

  /** Every column of a normalised matrix sums to 1 and every weight lies in [0, 1]. */
  /** Column j of a normalised matrix is the column of draws scaled by 1 / total. */
  lemma {:induction false} NormalisedColumn(reals: seq<real>, n: nat, v: nat, j: nat)
    requires !EmptyColumn(reals, n, v) && j < v
    ensures Column(Normalised(reals, n, v), j) == Scale(WeightColumn(reals, v, n, j), 1.0 / ColumnTotal(reals, v, n, j))
  {
    var m := Normalised(reals, n, v);
    var t := ColumnTotal(reals, v, n, j);
    var c := WeightColumn(reals, v, n, j);
    assert t != 0.0;
    forall i | 0 <= i < n
      ensures Column(m, j)[i] == Scale(c, 1.0 / t)[i]
    {
      assert Column(m, j)[i] == c[i] / t;
    }
  }

  /** Every column of a normalised matrix sums to 1. */
  lemma {:induction false} NormalisedColumnSum(reals: seq<real>, n: nat, v: nat, j: nat)
    requires !EmptyColumn(reals, n, v) && j < v
    ensures Sum(Column(Normalised(reals, n, v), j)) == 1.0
  {
    var c := WeightColumn(reals, v, n, j);
    WeightColumnSum(reals, v, n, j);
    assert Sum(c) != 0.0;
    NormalisedColumn(reals, n, v, j);
    SumScaleToTarget(c, 1.0);
  }

  /** Every column of a normalised matrix sums to 1 and every weight lies in [0, 1]. */
  lemma {:induction false} NormalisedShares(reals: seq<real>, n: nat, v: nat)
    requires !EmptyColumn(reals, n, v)
    ensures forall j :: 0 <= j < v ==> Sum(Column(Normalised(reals, n, v), j)) == 1.0
    ensures forall i, j :: 0 <= i < n && 0 <= j < v ==> 0.0 <= Normalised(reals, n, v)[i][j] <= 1.0
  {
    var m := Normalised(reals, n, v);
    forall j | 0 <= j < v
      ensures Sum(Column(m, j)) == 1.0
    {
      NormalisedColumnSum(reals, n, v, j);
    }
    forall i, j | 0 <= i < n && 0 <= j < v
      ensures 0.0 <= m[i][j] <= 1.0
    {
      assert m[i][j] == Weight(reals, v, i, j) / ColumnTotal(reals, v, n, j);
      WeightBelowTotal(reals, v, n, i, j);
      ShareOfTotal(Weight(reals, v, i, j), ColumnTotal(reals, v, n, j));
    }
  }

  /**
   * Whatever attempt it comes from, the returned matrix shares every gene out
   * among the parents: each column sums to 1 and each weight lies in [0, 1].
   * With clone checking on, row 0 keeps some weight strictly between 0.01 and 0.99.
   */
  lemma {:induction false} MatrixShares(n: int, v: nat, checkClones: bool, attempts: seq<Attempt>, k: nat)
    requires n > 0
    ensures var r := Matrix(n, v, checkClones, attempts, k);
            r.Ok? ==>
              && |r.value| == n && (forall i :: 0 <= i < n ==> |r.value[i]| == v)
              && (forall j :: 0 <= j < v ==> Sum(Column(r.value, j)) == 1.0)
              && (forall i, j :: 0 <= i < n && 0 <= j < v ==> 0.0 <= r.value[i][j] <= 1.0)
              && (checkClones ==> !FirstRowDecided(r.value))
    decreases |attempts| - k
  {
    var a := AttemptAt(attempts, k);
    if !EmptyColumn(a.reals, n, v) {
      var m := Normalised(a.reals, n, v);
      if checkClones && FirstRowDecided(m) {
        if k + 1 < |attempts| {
          MatrixShares(n, v, checkClones, attempts, k + 1);
        }
      } else {
        NormalisedShares(a.reals, n, v);
      }
    }
  }

  /**
   * With clone checking on, a single parent or a gene-less individual never
   * gives a matrix: one parent gets every gene wholly, and an empty row 0
   * counts as a clone, so every attempt is redrawn.
   */
  lemma {:induction false} CheckedNeverSettles(n: int, v: nat, attempts: seq<Attempt>, k: nat)
    requires n == 1 || (n > 0 && v == 0)
    ensures Matrix(n, v, true, attempts, k).Thrown?
    decreases |attempts| - k
  {
    var a := AttemptAt(attempts, k);
    if !EmptyColumn(a.reals, n, v) {
      var m := Normalised(a.reals, n, v);
      if n == 1 {
        forall j | 0 <= j < v
          ensures m[0][j] == 1.0
        {
          var w := Weight(a.reals, v, 0, j);
          assert ColumnTotal(a.reals, v, 1, j) != 0.0;
          assert ColumnTotal(a.reals, v, 1, j) == w;
          assert w != 0.0;
          assert m[0][j] == w / w;
          assert w / w == 1.0;
        }
      }
      assert FirstRowDecided(m);
      if k + 1 < |attempts| {
        CheckedNeverSettles(n, v, attempts, k + 1);
      }
    }
  }
}

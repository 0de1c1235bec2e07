/**
 * ScatteredDiscrete: every gene is given to a parent drawn uniformly. With
 * clone checking on, a vector that names one parent only is repaired in
 * place when it has fewer than four genes and redrawn otherwise.
 */
module ScatteredDiscreteStrategy {
  import opened JavaLang
  import opened Draws
  import opened CrossoverStrategy

  /** The raw vector of one attempt: one nextInt(n) per gene. */
  function RawVector(n: int, v: nat, ints: seq<int>): (raw: seq<int>)
    requires n > 0
    ensures |raw| == v
    ensures forall i :: 0 <= i < v ==> 0 <= raw[i] < n
  {
    seq(v, i requires 0 <= i < v => NextInt(IntAt(ints, i), n).value)
  }

  /**
   * The vector getCrossoverVector returns from attempt k on, for n parents
   * and v genes. A repair draws the gene to change and its new parent; a
   * redraw moves on to the next attempt, and running out of attempts is
   * RedrawLimit.
   */
  function Vector(n: int, v: nat, checkClones: bool, attempts: seq<Attempt>, k: nat): (r: Outcome<seq<int>>)
    requires n > 0
    decreases |attempts| - k
  {
    var a := AttemptAt(attempts, k);
    var raw := RawVector(n, v, a.ints);
    if !(checkClones && AllSame(raw)) then Ok(raw)
    else if v < 4 then
      match NextInt(IntAt(a.repair, 0), v)
      case Thrown(e) => Thrown(e)
      case Ok(index) =>
        match OtherParent(raw[index], n, IntAt(a.repair, 1), a.coin)
        case Thrown(e) => Thrown(e)
        case Ok(value) => Ok(raw[index := value])
    else if k + 1 < |attempts| then Vector(n, v, checkClones, attempts, k + 1)
    else Thrown(RedrawLimit)
  }

  /** getCrossoverVector once the parent count n and the gene count v are read. */
  method CrossoverVector(n: int, v: nat, checkClones: bool, attempts: seq<Attempt>, k: nat)
    returns (r: Outcome<seq<int>>)
    requires n > 0
    ensures r == Vector(n, v, checkClones, attempts, k)
    decreases |attempts| - k
  {
    var a := AttemptAt(attempts, k);
    var matrix: seq<int> := [];
    var i := 0;
    while i < v
      invariant 0 <= i <= v
      invariant |matrix| == i
      invariant forall j :: 0 <= j < i ==> matrix[j] == NextInt(IntAt(a.ints, j), n).value
    {
      var draw := NextInt(IntAt(a.ints, i), n);
      matrix := matrix + [draw.value];
      i := i + 1;
    }
    assert matrix == RawVector(n, v, a.ints);
    if checkClones {
      var clone := IsCloneVector(matrix);
      if clone {
        if v < 4 {
          var index := NextInt(IntAt(a.repair, 0), v);
          if index.Thrown? {
            return Thrown(index.ex);
          }
          var value := OtherParent(matrix[index.value], n, IntAt(a.repair, 1), a.coin);
          if value.Thrown? {
            return Thrown(value.ex);
          }
          matrix := matrix[index.value := value.value];
        } else if k + 1 < |attempts| {
          r := CrossoverVector(n, v, checkClones, attempts, k + 1);
          return;
        } else {
          return Thrown(RedrawLimit);
        }
      }
    }
    return Ok(matrix);
  }

  /** The vector has one entry per gene and every entry names one of the parents. */
  lemma {:induction false} VectorInRange(n: int, v: nat, checkClones: bool, attempts: seq<Attempt>, k: nat)
    requires n > 0
    ensures var r := Vector(n, v, checkClones, attempts, k);
            r.Ok? ==> |r.value| == v && forall i :: 0 <= i < v ==> 0 <= r.value[i] < n
    decreases |attempts| - k
  {
    var a := AttemptAt(attempts, k);
    var raw := RawVector(n, v, a.ints);
    if checkClones && AllSame(raw) && v >= 4 && k + 1 < |attempts| {
      VectorInRange(n, v, checkClones, attempts, k + 1);
    }
  }

  /** With clone checking on, a vector of two or more genes never names a single parent. */
  lemma {:induction false} VectorNotClone(n: int, v: nat, attempts: seq<Attempt>, k: nat)
    requires n > 0 && v >= 2
    ensures var r := Vector(n, v, true, attempts, k);
            r.Ok? ==> !AllSame(r.value)
    decreases |attempts| - k
  {
    var a := AttemptAt(attempts, k);
    var raw := RawVector(n, v, a.ints);
    var r := Vector(n, v, true, attempts, k);
    if AllSame(raw) && r.Ok? {
      if v < 4 {
        var index := NextInt(IntAt(a.repair, 0), v).value;
        var other := if index == 0 then 1 else 0;
        assert r.value[other] == raw[other] == raw[index] != r.value[index];
      } else {
        VectorNotClone(n, v, attempts, k + 1);
      }
    }
  }

  /**
   * Below four genes a clone is repaired in place: exactly one gene, the
   * drawn one, moves to a different parent.
   */
  lemma {:induction false} RepairChangesOneGene(n: int, v: nat, attempts: seq<Attempt>, k: nat)
    requires n > 0 && v < 4
    requires AllSame(RawVector(n, v, AttemptAt(attempts, k).ints))
    ensures var raw := RawVector(n, v, AttemptAt(attempts, k).ints);
            var r := Vector(n, v, true, attempts, k);
            r.Ok? ==> exists g :: 0 <= g < v && r.value[g] != raw[g] && forall i :: 0 <= i < v && i != g ==> r.value[i] == raw[i]
  {
    var a := AttemptAt(attempts, k);
    var r := Vector(n, v, true, attempts, k);
    if r.Ok? {
      var g := NextInt(IntAt(a.repair, 0), v).value;
      assert r.value[g] != RawVector(n, v, a.ints)[g];
    }
  }

  /** Without clone checking the raw draws of the first attempt are the vector. */
  lemma {:induction false} UncheckedIsRaw(n: int, v: nat, attempts: seq<Attempt>, k: nat)
    requires n > 0
    ensures Vector(n, v, false, attempts, k) == Ok(RawVector(n, v, AttemptAt(attempts, k).ints))
  {
  }

  /**
   * The exceptions a checked call throws: nextInt(0) for the gene index of a
   * vector without genes, nextInt(0) for the new parent when there is only
   * one, and with a single parent and four or more genes every attempt is a
   * clone, so the redraws run out.
   */
  lemma {:induction false} CheckedFailures(n: int, v: nat, attempts: seq<Attempt>, k: nat)
    requires n > 0
    ensures v == 0 ==> Vector(n, v, true, attempts, k) == Thrown(IllegalArgument)
    ensures n == 1 && 1 <= v < 4 ==> Vector(n, v, true, attempts, k) == Thrown(IllegalArgument)
    ensures n == 1 && v >= 4 ==> Vector(n, v, true, attempts, k) == Thrown(RedrawLimit)
    decreases |attempts| - k
  {
    var raw := RawVector(n, v, AttemptAt(attempts, k).ints);
    if n == 1 {
      assert AllSame(raw);
      if v >= 4 && k + 1 < |attempts| {
        CheckedFailures(n, v, attempts, k + 1);
      }
    }
  }
}

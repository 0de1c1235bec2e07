/**
 * The other ways the Boolean and Int prototypes make genes: mutation, and
 * the BooleanIndividual constructor that reads a string of 0s and 1s.
 */
module PrototypeGenes {
  import opened JavaLang
  import opened Draws
  import opened Individuals

  // ------------------------------------------------------ boolean mutate

  /** Gene i is flipped when its draw is at most the probability and copied otherwise. */
  function Flipped(bits: seq<bool>, probability: real, draws: seq<real>): (r: seq<bool>)
    ensures |r| == |bits|
  {
    seq(|bits|, i requires 0 <= i < |bits| => if NextDouble(RealAt(draws, i)) <= probability then !bits[i] else bits[i])
  }

  /** BooleanIndividual.mutate: one draw per gene, in order. The scale factor is not used. */
  method MutateBoolean(self: Individual, probability: real, scaleFactor: real, draws: seq<real>) returns (child: Individual)
    requires self.genes.BooleanGenes?
    ensures fresh(child) && child.Fresh()
    ensures child.genes == BooleanGenes(self.genes.booleanPrototype, Flipped(self.genes.bits, probability, draws))
  {
    var values := self.genes.bits;
    var newValues := seq(|values|, _ => false);
    var i := 0;
    while i < |values|
      invariant 0 <= i <= |values| == |newValues|
      invariant forall k :: 0 <= k < i ==> newValues[k] == Flipped(values, probability, draws)[k]
    {
      if NextDouble(RealAt(draws, i)) <= probability {
        newValues := newValues[i := !values[i]];
      } else {
        newValues := newValues[i := values[i]];
      }
      i := i + 1;
    }
    assert newValues == Flipped(values, probability, draws);
    child := new Individual(BooleanGenes(self.genes.booleanPrototype, newValues));
  }

  /**
   * What a mutation does to each gene: with the same draws a second mutation
   * undoes the first; a probability of 1 or more flips every gene, a negative
   * one flips none, and a probability of 0 still flips the genes whose draw
   * is exactly 0.
   */
  lemma {:induction false} FlippedGenes(bits: seq<bool>, probability: real, draws: seq<real>)
    ensures Flipped(Flipped(bits, probability, draws), probability, draws) == bits
    ensures probability >= 1.0 ==> forall i :: 0 <= i < |bits| ==> Flipped(bits, probability, draws)[i] == !bits[i]
    ensures probability < 0.0 ==> Flipped(bits, probability, draws) == bits
    ensures probability == 0.0 ==>
              forall i :: 0 <= i < |bits| ==> (Flipped(bits, probability, draws)[i] != bits[i] <==> NextDouble(RealAt(draws, i)) == 0.0)
  {
    var once := Flipped(bits, probability, draws);
    var twice := Flipped(once, probability, draws);
    forall i | 0 <= i < |bits|
      ensures twice[i] == bits[i]
    {
    }
  }

  // ---------------------------------------------------------- int mutate

  /**
   * One pass of the do-while body for a gene with value x: a uniform draw at
   * most the probability adds the offset, the Gaussian draw rounded to a long
   * and narrowed to an int, with int wrap-around.
   */
  function Candidate(x: Int32, probability: real, uniform: real, offset: int): (c: Int32)
    ensures NextDouble(uniform) > probability ==> c == x
  {
    if NextDouble(uniform) <= probability then Wrap32(x + Wrap32(offset)) else x
  }

  /** The constraint row of gene i; reading a missing row throws as an empty one does. */
  function RowAt(constraints: seq<seq<Int32>>, i: nat): seq<Int32>
  {
    if i < |constraints| then constraints[i] else []
  }

  /**
   * The do-while loop of one gene from try d on: it ends with the first
   * candidate in [bounds[0], bounds[1]] and the index of the next try. The
   * condition reads bounds[1] only when the candidate is not below bounds[0].
   * Running out of draws is RedrawLimit.
   */
  function MutateGene(x: Int32, bounds: seq<Int32>, probability: real, uniform: seq<real>, offsets: seq<int>, d: nat)
    : (r: Outcome<(Int32, nat)>)
    ensures r.Ok? ==> d < r.value.1 <= |uniform|
    decreases |uniform| - d
  {
    if d >= |uniform| then Thrown(RedrawLimit)
    else
      var c := Candidate(x, probability, uniform[d], IntAt(offsets, d));
      if |bounds| == 0 then Thrown(IndexOutOfBounds)
      else if c < bounds[0] then MutateGene(x, bounds, probability, uniform, offsets, d + 1)
      else if |bounds| < 2 then Thrown(IndexOutOfBounds)
      else if c > bounds[1] then MutateGene(x, bounds, probability, uniform, offsets, d + 1)
      else Ok((c, d + 1))
  }

  /** The loop over the genes from gene i and try d on, newValues holding the genes so far. */
  function MutateFrom(values: seq<Int32>, constraints: seq<seq<Int32>>, probability: real, uniform: seq<real>,
                      offsets: seq<int>, i: nat, d: nat, newValues: seq<Int32>): (r: Outcome<seq<Int32>>)
    decreases |values| - i
  {
    if i >= |values| then Ok(newValues)
    else
      match MutateGene(values[i], RowAt(constraints, i), probability, uniform, offsets, d)
      case Thrown(e) => Thrown(e)
      case Ok((c, next)) =>
        if i < |newValues| then MutateFrom(values, constraints, probability, uniform, offsets, i + 1, next, newValues[i := c])
        else Thrown(IndexOutOfBounds)
  }

  /** The do-while loop of one gene. */
  method MutateGeneLoop(x: Int32, bounds: seq<Int32>, probability: real, uniform: seq<real>, offsets: seq<int>, d: nat)
    returns (r: Outcome<(Int32, nat)>)
    ensures r == MutateGene(x, bounds, probability, uniform, offsets, d)
  {
    var t := d;
    while true
      invariant d <= t
      invariant MutateGene(x, bounds, probability, uniform, offsets, d) == MutateGene(x, bounds, probability, uniform, offsets, t)
      decreases |uniform| - t
    {
      if t >= |uniform| {
        return Thrown(RedrawLimit);
      }
      var c := Candidate(x, probability, uniform[t], IntAt(offsets, t));
      t := t + 1;
      if |bounds| == 0 {
        return Thrown(IndexOutOfBounds);
      }
      if !(c < bounds[0]) {
        if |bounds| < 2 {
          return Thrown(IndexOutOfBounds);
        }
        if !(c > bounds[1]) {
          return Ok((c, t));
        }
      }
    }
  }

  /**
   * IntIndividual.mutate: every gene is retried until it meets its
   * constraint. The scale factor only widens the Gaussian, whose rounded
   * values come from the offsets.
   */
  method MutateInt(self: Individual, probability: real, uniform: seq<real>, offsets: seq<int>) returns (r: Outcome<Individual>)
    requires self.genes.IntGenes?
    ensures var values := self.genes.values;
            var expected := MutateFrom(values, self.genes.intPrototype.variableConstraints, probability, uniform, offsets,
                                       0, 0, seq(|values|, _ => 0));
            && (r.Ok? <==> expected.Ok?)
            && (r.Thrown? ==> r.ex == expected.ex)
            && (r.Ok? ==> fresh(r.value) && r.value.Fresh() && r.value.genes == IntGenes(self.genes.intPrototype, expected.value))
  {
    var values := self.genes.values;
    var constraints := self.genes.intPrototype.variableConstraints;
    ghost var expected := MutateFrom(values, constraints, probability, uniform, offsets, 0, 0, seq(|values|, _ => 0));
    var newValues: seq<Int32> := seq(|values|, _ => 0);
    var i, d := 0, 0;
    while i < |values|
      invariant 0 <= i <= |values| == |newValues|
      invariant expected == MutateFrom(values, constraints, probability, uniform, offsets, i, d, newValues)
    {
      var gene := MutateGeneLoop(values[i], RowAt(constraints, i), probability, uniform, offsets, d);
      if gene.Thrown? {
        return Thrown(gene.ex);
      }
      newValues := newValues[i := gene.value.0];
      d := gene.value.1;
      i := i + 1;
    }
    var child := new Individual(IntGenes(self.genes.intPrototype, newValues));
    return Ok(child);
  }

  /** A mutated gene meets its constraint, and is the old value or the old value plus an offset. */
  lemma {:induction false} MutateGeneMeetsBounds(x: Int32, bounds: seq<Int32>, probability: real, uniform: seq<real>,
                                                 offsets: seq<int>, d: nat)
    ensures var r := MutateGene(x, bounds, probability, uniform, offsets, d);
            r.Ok? ==> |bounds| >= 2 && bounds[0] <= r.value.0 <= bounds[1]
                      && (r.value.0 == x || exists t :: d <= t < |uniform| && r.value.0 == Wrap32(x + Wrap32(IntAt(offsets, t))))
    decreases |uniform| - d
  {
    if d < |uniform| {
      MutateGeneMeetsBounds(x, bounds, probability, uniform, offsets, d + 1);
    }
  }

  /**
   * A successful mutation keeps the gene count and puts every gene within its
   * constraint, whatever the draws.
   */
  lemma {:induction false} MutateMeetsConstraints(values: seq<Int32>, constraints: seq<seq<Int32>>, probability: real,
                                                  uniform: seq<real>, offsets: seq<int>, i: nat, d: nat, newValues: seq<Int32>)
    requires |newValues| == |values|
    requires forall g :: 0 <= g < i && g < |values| ==> |RowAt(constraints, g)| >= 2 && constraints[g][0] <= newValues[g] <= constraints[g][1]
    ensures var r := MutateFrom(values, constraints, probability, uniform, offsets, i, d, newValues);
            r.Ok? ==> |r.value| == |values|
                      && forall g :: 0 <= g < |values| ==> |RowAt(constraints, g)| >= 2 && constraints[g][0] <= r.value[g] <= constraints[g][1]
    decreases |values| - i
  {
    if i < |values| {
      var gene := MutateGene(values[i], RowAt(constraints, i), probability, uniform, offsets, d);
      MutateGeneMeetsBounds(values[i], RowAt(constraints, i), probability, uniform, offsets, d);
      if gene.Ok? {
        var next := newValues[i := gene.value.0];
        MutateMeetsConstraints(values, constraints, probability, uniform, offsets, i + 1, gene.value.1, next);
      }
    }
  }

  /** Every gene has a constraint pair [low, high] that it meets. */
  predicate WithinConstraints(values: seq<Int32>, constraints: seq<seq<Int32>>)
  {
    forall g :: 0 <= g < |values| ==> g < |constraints| && |constraints[g]| == 2 && constraints[g][0] <= values[g] <= constraints[g][1]
  }

  /**
   * With a draw above the probability for every gene, and values that already
   * meet their constraints, mutation copies the genes: one try per gene.
   */
  lemma {:induction false} MutateCopies(values: seq<Int32>, constraints: seq<seq<Int32>>, probability: real,
                                        uniform: seq<real>, offsets: seq<int>, i: nat, newValues: seq<Int32>)
    requires i <= |values| == |newValues| <= |uniform|
    requires forall g :: 0 <= g < |values| ==> NextDouble(uniform[g]) > probability
    requires WithinConstraints(values, constraints)
    requires newValues[..i] == values[..i]
    ensures MutateFrom(values, constraints, probability, uniform, offsets, i, i, newValues) == Ok(values)
    decreases |values| - i
  {
    if i < |values| {
      assert MutateGene(values[i], RowAt(constraints, i), probability, uniform, offsets, i) == Ok((values[i], (i + 1) as nat));
      var next := newValues[i := values[i]];
      assert next[..i + 1] == values[..i + 1];
      MutateCopies(values, constraints, probability, uniform, offsets, i + 1, next);
    } else {
      assert newValues == newValues[..i] && values == values[..i];
    }
  }

  // ------------------------------------------------- BooleanIndividual(String)

  predicate IsBinary(binaryString: string)
  {
    forall i :: 0 <= i < |binaryString| ==> binaryString[i] == '0' || binaryString[i] == '1'
  }

  /** The genes a string of 0s and 1s describes, '1' being true; any other character is illegal. */
  function ParseBits(binaryString: string): (r: Outcome<seq<bool>>)
  {
    if IsBinary(binaryString) then Ok(seq(|binaryString|, i requires 0 <= i < |binaryString| => binaryString[i] == '1'))
    else Thrown(IllegalArgument)
  }

  /** The string of 0s and 1s that describes the genes. */
  function BinaryString(bits: seq<bool>): (s: string)
    ensures |s| == |bits|
  {
    seq(|bits|, i requires 0 <= i < |bits| => if bits[i] then '1' else '0')
  }

  /** Parsing and printing the genes are inverse to each other. */
  lemma {:induction false} BinaryStringRoundTrip(bits: seq<bool>, binaryString: string)
    ensures ParseBits(BinaryString(bits)) == Ok(bits)
    ensures ParseBits(binaryString).Ok? ==> BinaryString(ParseBits(binaryString).value) == binaryString
  {
    var s := BinaryString(bits);
    assert IsBinary(s);
    assert ParseBits(s).value == bits;
  }

  /** The BooleanIndividual(String) constructor, made inside the given prototype. */
  method BooleanFromString(prototype: BooleanPrototype, binaryString: string) returns (r: Outcome<Individual>)
    ensures r.Ok? <==> IsBinary(binaryString)
    ensures r.Thrown? ==> r.ex == IllegalArgument
    ensures r.Ok? ==> fresh(r.value) && r.value.Fresh() && r.value.genes == BooleanGenes(prototype, ParseBits(binaryString).value)
  {
    var values := seq(|binaryString|, _ => false);
    var i := 0;
    while i < |values|
      invariant 0 <= i <= |values| == |binaryString|
      invariant forall k :: 0 <= k < i ==> (binaryString[k] == '0' || binaryString[k] == '1') && (values[k] <==> binaryString[k] == '1')
    {
      var c := binaryString[i];
      if c == '1' {
        values := values[i := true];
      } else if c == '0' {
        values := values[i := false];
      } else {
        return Thrown(IllegalArgument);
      }
      i := i + 1;
    }
    assert values == ParseBits(binaryString).value;
    var individual := new Individual(BooleanGenes(prototype, values));
    return Ok(individual);
  }
}

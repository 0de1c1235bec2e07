/**
 * Individual.mutate(probability, scaleFactor) as the generation step calls
 * it: a double probability that may be NaN or infinite, dispatched to the
 * Boolean or Int prototype's mutation.
 */
module Mutation {
  import opened JavaLang
  import opened Draws
  import opened Individuals
  import opened PrototypeGenes

  /**
   * The draws one call of mutate consumes: the uniform draws compared with
   * the probability, and for the Int prototype the rounded Gaussian offsets.
   */
  datatype MutationDraws = MutationDraws(uniform: seq<real>, offsets: seq<int>)

  function DrawsAt(tape: seq<MutationDraws>, k: int): MutationDraws
  {
    if 0 <= k < |tape| then tape[k] else MutationDraws([], [])
  }

  /**
   * Both prototypes test `nextDouble() <= probability`. This is the real
   * number that makes the same test on every draw in [0, 1): NaN and
   * negative infinity never pass, positive infinity always does.
   */
  function EffectiveProbability(p: Double): (r: real)
    ensures forall u: real :: 0.0 <= u < 1.0 ==> (u <= r <==> LessEq(Finite(u), p))
  {
    match p
    case Finite(x) => x
    case PositiveInfinity => 2.0
    case NegativeInfinity => -1.0
    case NaN => -1.0
  }

  /** The genes mutate produces from the given genes. */
  function MutatedGenes(genes: Genes, probability: real, d: MutationDraws): Outcome<Genes>
  {
    match genes
    case BooleanGenes(prototype, bits) => Ok(BooleanGenes(prototype, Flipped(bits, probability, d.uniform)))
    case IntGenes(prototype, values) =>
      match MutateFrom(values, prototype.variableConstraints, probability, d.uniform, d.offsets, 0, 0, seq(|values|, _ => 0))
      case Thrown(e) => Thrown(e)
      case Ok(v) => Ok(IntGenes(prototype, v))
  }

  /**
   * A mutant is of the same kind, from the same prototype and of the same
   * length as its parent; Boolean mutation never fails, an Int mutant meets
   * every constraint of its prototype, and a probability that no draw can
   * pass leaves Boolean genes as they are.
   */
  lemma {:induction false} MutantKeepsItsShape(genes: Genes, probability: real, d: MutationDraws)
    ensures var r := MutatedGenes(genes, probability, d);
            && (genes.BooleanGenes? ==> r.Ok?)
            && (r.Ok? ==> r.value.BooleanGenes? == genes.BooleanGenes? && r.value.VariableCount() == genes.VariableCount())
            && (r.Ok? && genes.BooleanGenes? ==> r.value.booleanPrototype == genes.booleanPrototype)
            && (r.Ok? && genes.IntGenes? ==>
                  && r.value.intPrototype == genes.intPrototype
                  && forall g :: 0 <= g < |genes.values| ==>
                       && |RowAt(genes.intPrototype.variableConstraints, g)| >= 2
                       && genes.intPrototype.variableConstraints[g][0] <= r.value.values[g] <= genes.intPrototype.variableConstraints[g][1])
            && (genes.BooleanGenes? && probability < 0.0 ==> r == Ok(genes))
  {
    match genes
    case BooleanGenes(prototype, bits) =>
      FlippedGenes(bits, probability, d.uniform);
    case IntGenes(prototype, values) =>
      MutateMeetsConstraints(values, prototype.variableConstraints, probability, d.uniform, d.offsets, 0, 0, seq(|values|, _ => 0));
  }

  /** individual.mutate(probability, scaleFactor). The scale factor only widens the Int prototype's Gaussian, whose values come from the offsets. */
  method Mutate(self: Individual, probability: Double, scaleFactor: Double, d: MutationDraws) returns (r: Outcome<Individual>)
    ensures var expected := MutatedGenes(self.genes, EffectiveProbability(probability), d);
            && (r.Ok? <==> expected.Ok?)
            && (r.Thrown? ==> r.ex == expected.ex)
            && (r.Ok? ==> fresh(r.value) && r.value.Fresh() && r.value.genes == expected.value)
  {
    var p := EffectiveProbability(probability);
    if self.genes.BooleanGenes? {
      var scale := if scaleFactor.Finite? then scaleFactor.value else 0.0;
      var child := MutateBoolean(self, p, scale, d.uniform);
      r := Ok(child);
    } else {
      r := MutateInt(self, p, d.uniform, d.offsets);
    }
  }
}

/**
 * The Individual contract and the state every individual carries: its genes,
 * its memoised fitness, its birth generation and its origin. Only the two
 * gene kinds of the Boolean and Int prototypes are modelled; their prototypes
 * live here too because an individual refers to the prototype that made it.
 */
module Individuals {
  import opened JavaLang
  import opened Draws

  /** How an individual came to be. */
  datatype Origin =
    | InitialPopulation
    | Crossover
    | Mutation
    | MigrationInitial
    | MigrationCrossover
    | MigrationMutation
    | ForceCloneMutation

  /** A gene value as getValue returns it. */
  datatype Value = BoolValue(b: bool) | IntValue(i: Int32)

  /**
   * The genes of a BooleanIndividual or an IntIndividual together with the
   * prototype instance that made it. Equality of two Genes values is the
   * source's equals: same individual class, same prototype object and
   * element-wise equal values.
   */
  datatype Genes =
    | BooleanGenes(booleanPrototype: BooleanPrototype, bits: seq<bool>)
    | IntGenes(intPrototype: IntPrototype, values: seq<Int32>)
  {
    function VariableCount(): nat
    {
      if BooleanGenes? then |bits| else |values|
    }

    /** calculateFitness: the prototype's fitness function applied to the values. */
    function Evaluate(): real
    {
      match this
      case BooleanGenes(p, b) => p.fitnessFunction(b)
      case IntGenes(p, v) => p.fitnessFunction(v)
    }

    /** getValue(index). */
    function ValueAt(index: int): (r: Outcome<Value>)
      ensures r.Ok? <==> 0 <= index < VariableCount()
      ensures r.Thrown? ==> r.ex == IndexOutOfBounds
      ensures r.Ok? && BooleanGenes? ==> r.value == BoolValue(bits[index])
      ensures r.Ok? && IntGenes? ==> r.value == IntValue(values[index])
    {
      if !(0 <= index < VariableCount()) then Thrown(IndexOutOfBounds)
      else if BooleanGenes? then Ok(BoolValue(bits[index]))
      else Ok(IntValue(values[index]))
    }
  }

  /** One entry of a CSV line. */
  datatype CsvField = BirthField(birth: int) | FitnessField(fitness: real) | ValueField(value: Value)

  class BooleanPrototype {
    const fitnessFunction: seq<bool> -> real
    const variableCount: int

    constructor (fitnessFunction: seq<bool> -> real, variableCount: int)
      ensures this.fitnessFunction == fitnessFunction && this.variableCount == variableCount
    {
      this.fitnessFunction := fitnessFunction;
      this.variableCount := variableCount;
    }

    /** createIndividual: one coin flip per gene. */
    method CreateIndividual(coins: seq<bool>) returns (r: Outcome<Individual>)
      ensures r.Thrown? <==> variableCount < 0
      ensures r.Thrown? ==> r.ex == NegativeArraySize
      ensures r.Ok? ==> fresh(r.value) && r.value.Fresh() && r.value.genes.BooleanGenes? && r.value.genes.booleanPrototype == this
      ensures r.Ok? ==> |r.value.genes.bits| == variableCount
      ensures r.Ok? ==> forall k :: 0 <= k < variableCount ==> r.value.genes.bits[k] == BoolAt(coins, k)
    {
      if variableCount < 0 {
        return Thrown(NegativeArraySize);
      }
      var bits: seq<bool> := [];
      var i := 0;
      while i < variableCount
        invariant 0 <= i <= variableCount
        invariant |bits| == i
        invariant forall k :: 0 <= k < i ==> bits[k] == BoolAt(coins, k)
      {
        bits := bits + [BoolAt(coins, i)];
        i := i + 1;
      }
      var individual := new Individual(BooleanGenes(this, bits));
      return Ok(individual);
    }
  }

  /** The (min, max) pair of every variable, as the source's int[][] rows. */
  predicate IsPair(row: seq<Int32>) { |row| == 2 }

  /** A missing constraint allows every int for every variable. */
  function EffectiveConstraints(initialRange: seq<seq<Int32>>, constraint: Option<seq<seq<Int32>>>): (c: seq<seq<Int32>>)
    ensures constraint.Some? ==> c == constraint.value
    ensures constraint.None? ==> |c| == |initialRange| && forall i :: 0 <= i < |c| ==> c[i] == [INT_MIN, INT_MAX]
  {
    if constraint.Some? then constraint.value else seq(|initialRange|, _ => [INT_MIN as Int32, INT_MAX as Int32])
  }

  /** The settings the IntPrototype constructor accepts without throwing. */
  predicate AcceptedRanges(initialRange: seq<seq<Int32>>, constraint: seq<seq<Int32>>)
  {
    && |initialRange| == |constraint|
    && forall i :: 0 <= i < |initialRange| ==>
         && IsPair(initialRange[i]) && IsPair(constraint[i])
         && IsInt(initialRange[i][1] as int - initialRange[i][0] as int)
         && constraint[i][0] <= initialRange[i][0]
         && initialRange[i][1] <= constraint[i][1]
  }

  class IntPrototype {
    const initialRange: seq<seq<Int32>>
    const rangeOfRange: seq<int>
    const variableConstraints: seq<seq<Int32>>
    const fitnessFunction: seq<Int32> -> real

    predicate Valid()
    {
      && AcceptedRanges(initialRange, variableConstraints)
      && |rangeOfRange| == |initialRange|
      && forall i :: 0 <= i < |initialRange| ==> rangeOfRange[i] == initialRange[i][1] - initialRange[i][0]
    }

    constructor Init(initialRange: seq<seq<Int32>>, constraint: seq<seq<Int32>>, rangeOfRange: seq<int>,
                     fitnessFunction: seq<Int32> -> real)
      requires AcceptedRanges(initialRange, constraint)
      requires |rangeOfRange| == |initialRange|
      requires forall i :: 0 <= i < |initialRange| ==> rangeOfRange[i] == initialRange[i][1] - initialRange[i][0]
      ensures Valid()
      ensures this.initialRange == initialRange && this.variableConstraints == constraint
      ensures this.rangeOfRange == rangeOfRange && this.fitnessFunction == fitnessFunction
    {
      this.initialRange := initialRange;
      this.variableConstraints := constraint;
      this.rangeOfRange := rangeOfRange;
      this.fitnessFunction := fitnessFunction;
    }

    /**
     * The public constructor: a missing constraint becomes the full int range
     * per variable; any length mismatch, any row that is not a pair, a range
     * max - min that overflows an int, or an initial range outside its
     * constraint throws IllegalArgumentException.
     */
    static method Create(initialRange: seq<seq<Int32>>, constraint: Option<seq<seq<Int32>>>,
                         fitnessFunction: seq<Int32> -> real)
      returns (r: Outcome<IntPrototype>)
      ensures r.Ok? <==> AcceptedRanges(initialRange, EffectiveConstraints(initialRange, constraint))
      ensures r.Thrown? ==> r.ex == IllegalArgument
      ensures r.Ok? ==> r.value.Valid() && r.value.initialRange == initialRange
      ensures r.Ok? ==> r.value.variableConstraints == EffectiveConstraints(initialRange, constraint)
      ensures r.Ok? ==> r.value.fitnessFunction == fitnessFunction
    {
      var c := EffectiveConstraints(initialRange, constraint);
      if |initialRange| != |c| {
        return Thrown(IllegalArgument);
      }
      var ranges: seq<int> := [];
      var i := 0;
      while i < |initialRange|
        invariant 0 <= i <= |initialRange|
        invariant AcceptedRanges(initialRange[..i], c[..i])
        invariant |ranges| == i
        invariant forall k :: 0 <= k < i ==> ranges[k] == initialRange[k][1] - initialRange[k][0]
      {
        var minMax, constr := initialRange[i], c[i];
        if |minMax| != 2 || |constr| != 2 {
          return Thrown(IllegalArgument);
        }
        var range := minMax[1] as int - minMax[0] as int;
        if !IsInt(range) {
          return Thrown(IllegalArgument);
        }
        ranges := ranges + [range];
        if minMax[0] < constr[0] || minMax[1] > constr[1] {
          return Thrown(IllegalArgument);
        }
        assert initialRange[..i + 1] == initialRange[..i] + [minMax];
        assert c[..i + 1] == c[..i] + [constr];
        i := i + 1;
      }
      assert initialRange[..i] == initialRange && c[..i] == c;
      var prototype := new IntPrototype.Init(initialRange, c, ranges, fitnessFunction);
      return Ok(prototype);
    }

    /** createIndividual: every value drawn uniformly from its initial range [min, max). */
    method CreateIndividual(draws: seq<int>) returns (r: Outcome<Individual>)
      requires Valid()
      ensures r.Thrown? <==> exists i :: 0 <= i < |initialRange| && rangeOfRange[i] <= 0
      ensures r.Thrown? ==> r.ex == IllegalArgument
      ensures r.Ok? ==> fresh(r.value) && r.value.Fresh() && r.value.genes.IntGenes? && r.value.genes.intPrototype == this
      ensures r.Ok? ==> |r.value.genes.values| == |initialRange|
      ensures r.Ok? ==> forall i :: 0 <= i < |initialRange| ==>
                initialRange[i][0] <= r.value.genes.values[i] < initialRange[i][1]
    {
      var values: seq<Int32> := [];
      var i := 0;
      while i < |initialRange|
        invariant 0 <= i <= |initialRange|
        invariant |values| == i
        invariant forall k :: 0 <= k < i ==> rangeOfRange[k] > 0
        invariant forall k :: 0 <= k < i ==> initialRange[k][0] <= values[k] < initialRange[k][1]
      {
        var min, max := initialRange[i][0], initialRange[i][1];
        var range := max - min;
        var offset := NextInt(IntAt(draws, i), range);
        if offset.Thrown? {
          return Thrown(offset.ex);
        }
        values := values + [offset.value + min];
        i := i + 1;
      }
      var individual := new Individual(IntGenes(this, values));
      return Ok(individual);
    }
  }

  class Individual {
    const genes: Genes
    /** The fitness cache; DOUBLE_MIN_VALUE means "not computed yet". */
    var fitness: real
    var birth: int
    var origin: Option<Origin>
    /** How often the fitness function has been evaluated for this individual. */
    ghost var evaluations: nat

    /** The cache is either empty or holds the value of the fitness function. */
    ghost predicate Valid()
      reads this
    {
      fitness == DOUBLE_MIN_VALUE || fitness == CalculateFitness()
    }

    /** The state of a newly constructed individual. */
    ghost predicate Fresh()
      reads this
    {
      Valid() && fitness == DOUBLE_MIN_VALUE && birth == 0 && origin == None && evaluations == 0
    }

    constructor (genes: Genes)
      ensures this.genes == genes && Fresh()
    {
      this.genes := genes;
      fitness := DOUBLE_MIN_VALUE;
      birth := 0;
      origin := None;
      evaluations := 0;
    }

    function CalculateFitness(): real
    {
      genes.Evaluate()
    }

    function VariableCount(): nat
    {
      genes.VariableCount()
    }

    /**
     * getFitness: evaluates the fitness function only while the cache holds
     * the sentinel, then answers from the cache.
     */
    method GetFitness() returns (f: real)
      requires Valid()
      modifies this`fitness, this`evaluations
      ensures Valid()
      ensures f == CalculateFitness() && fitness == f
      ensures evaluations == old(evaluations) + (if old(fitness) == DOUBLE_MIN_VALUE then 1 else 0)
    {
      if fitness == DOUBLE_MIN_VALUE {
        fitness := CalculateFitness();
        evaluations := evaluations + 1;
      }
      return fitness;
    }

    method SetBirth(age: int)
      modifies this`birth
      ensures birth == age
    {
      birth := age;
    }

    method GetBirth() returns (age: int)
      ensures age == birth
    {
      return birth;
    }

    method SetOrigin(o: Origin)
      modifies this`origin
      ensures origin == Some(o)
    {
      origin := Some(o);
    }

    method GetOrigin() returns (o: Option<Origin>)
      ensures o == origin
    {
      return origin;
    }

    /** compareTo: orders individuals by fitness, lower first. */
    function CompareTo(other: Individual): (c: int)
      ensures c == 1 <==> CalculateFitness() > other.CalculateFitness()
      ensures c == 0 <==> CalculateFitness() == other.CalculateFitness()
      ensures c == -1 <==> CalculateFitness() < other.CalculateFitness()
    {
      var f2 := other.CalculateFitness();
      if CalculateFitness() > f2 then 1 else if CalculateFitness() == f2 then 0 else -1
    }

    /** equals of BooleanIndividual and IntIndividual. */
    predicate Equals(other: Individual?)
    {
      other != null && genes == other.genes
    }

    /** toCSV of Individual: birth, fitness, then every gene value in order. */
    method DefaultToCsv() returns (csv: seq<CsvField>)
      ensures |csv| == VariableCount() + 2
      ensures csv[0] == BirthField(birth) && csv[1] == FitnessField(CalculateFitness())
      ensures forall i :: 2 <= i < |csv| ==> csv[i].ValueField? && genes.ValueAt(i - 2) == Ok(csv[i].value)
    {
      csv := [BirthField(birth), FitnessField(CalculateFitness())];
      var i := 2;
      while i < VariableCount() + 2
        invariant 2 <= i <= VariableCount() + 2
        invariant |csv| == i
        invariant csv[0] == BirthField(birth) && csv[1] == FitnessField(CalculateFitness())
        invariant forall k :: 2 <= k < i ==> csv[k].ValueField? && genes.ValueAt(k - 2) == Ok(csv[k].value)
      {
        csv := csv + [ValueField(genes.ValueAt(i - 2).value)];
        i := i + 1;
      }
    }

    /** toCSV as BooleanIndividual overrides it: the gene values only. */
    method BooleanToCsv() returns (csv: seq<CsvField>)
      requires genes.BooleanGenes?
      ensures |csv| == VariableCount()
      ensures forall i :: 0 <= i < |csv| ==> csv[i] == ValueField(BoolValue(genes.bits[i]))
    {
      csv := [];
      var i := 0;
      while i < |genes.bits|
        invariant 0 <= i <= |genes.bits|
        invariant |csv| == i
        invariant forall k :: 0 <= k < i ==> csv[k] == ValueField(BoolValue(genes.bits[k]))
      {
        csv := csv + [ValueField(BoolValue(genes.bits[i]))];
        i := i + 1;
      }
    }

    /** toCSV as IntIndividual overrides it: the fitness, then the gene values. */
    method IntToCsv() returns (csv: seq<CsvField>)
      requires genes.IntGenes?
      ensures |csv| == VariableCount() + 1
      ensures csv[0] == FitnessField(CalculateFitness())
      ensures forall i :: 1 <= i < |csv| ==> csv[i] == ValueField(IntValue(genes.values[i - 1]))
    {
      csv := [FitnessField(CalculateFitness())];
      var i := 0;
      while i < |genes.values|
        invariant 0 <= i <= |genes.values|
        invariant |csv| == i + 1
        invariant csv[0] == FitnessField(CalculateFitness())
        invariant forall k :: 1 <= k <= i ==> csv[k] == ValueField(IntValue(genes.values[k - 1]))
      {
        csv := csv + [ValueField(IntValue(genes.values[i]))];
        i := i + 1;
      }
    }
  }

  /** Java's equals on possibly-null references, as List.contains uses it. */
  predicate NullableEquals(a: Individual?, b: Individual?)
  {
    if a == null then b == null else a.Equals(b)
  }

  /** equals is an equivalence relation, and equal individuals have equal fitness. */
  lemma {:induction false} EqualsIsEquivalence(a: Individual, b: Individual, c: Individual)
    ensures a.Equals(a)
    ensures a.Equals(b) ==> b.Equals(a)
    ensures a.Equals(b) && b.Equals(c) ==> a.Equals(c)
    ensures a.Equals(b) ==> a.CalculateFitness() == b.CalculateFitness() && a.CompareTo(b) == 0
  {
  }

  /** compareTo is a total preorder: antisymmetric and transitive. */
  lemma {:induction false} CompareToIsOrder(a: Individual, b: Individual, c: Individual)
    ensures a.CompareTo(b) == -b.CompareTo(a)
    ensures a.CompareTo(b) <= 0 && b.CompareTo(c) <= 0 ==> a.CompareTo(c) <= 0
  {
  }

  /** setBirth/getBirth and setOrigin/getOrigin round-trip. */
  method BirthAndOriginRoundTrip(individual: Individual, age: int, o: Origin) returns (a: int, p: Option<Origin>)
    modifies individual`birth, individual`origin
    ensures a == age && p == Some(o)
  {
    individual.SetBirth(age);
    individual.SetOrigin(o);
    a := individual.GetBirth();
    p := individual.GetOrigin();
  }
}

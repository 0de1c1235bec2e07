/**
 * SinglePointDiscrete and SinglePointFuzzy: the genes are cut into one
 * consecutive block per parent, the block lengths proportional to one
 * nextDouble share per parent, and a cursor walks the blocks to give every
 * gene its owner.
 */
module SinglePointStrategy {
  import opened JavaLang
  import opened Draws
  import opened Sums
  import opened CrossoverStrategy

  // -------------------------------------------------------------- the cuts

  /** The n shares of one attempt. */
  function Shares(n: nat, reals: seq<real>): (u: seq<real>)
    ensures |u| == n && NonNegative(u)
    ensures forall i :: 0 <= i < n ==> u[i] < 1.0
  {
    seq(n, i requires 0 <= i < n => NextDouble(RealAt(reals, i)))
  }

  /** The running total of the shares starts at Double.MIN_VALUE, so it is never 0. */
  function ShareTotal(u: seq<real>): (total: real)
    requires NonNegative(u)
    ensures total > 0.0
  {
    SumNonNegative(u);
    DOUBLE_MIN_VALUE + Sum(u)
  }

  /**
   * The length of one parent's block: Math.round(v / (total / share)). A share
   * of 0 makes total / share infinite and the block empty.
   */
  function CutLength(v: nat, share: real, total: real): (c: int)
    requires total > 0.0 && share >= 0.0
    ensures c >= 0
  {
    if share == 0.0 then 0
    else
      DivPositive(total, share);
      DivNonNegative(v as real, total / share);
      Round(v as real / (total / share))
  }

  /** Every block length is non-negative. */
  predicate Lengths(cuts: seq<int>)
  {
    forall i :: 0 <= i < |cuts| ==> cuts[i] >= 0
  }

  /** The block lengths of one attempt, before any padding. */
  function Cuts(n: nat, v: nat, reals: seq<real>): (cuts: seq<int>)
    ensures |cuts| == n && Lengths(cuts)
  {
    var u := Shares(n, reals);
    seq(n, i requires 0 <= i < n => CutLength(v, u[i], ShareTotal(u)))
  }

  /** Where block p ends: the total length of blocks 0 .. p - 1. */
  function CutEnd(cuts: seq<int>, p: nat): int
    requires p <= |cuts|
    decreases p
  {
    if p == 0 then 0 else CutEnd(cuts, p - 1) + cuts[p - 1]
  }

  lemma {:induction false} CutEndMonotone(cuts: seq<int>, p: nat, q: nat)
    requires p <= q <= |cuts| && Lengths(cuts)
    ensures CutEnd(cuts, p) <= CutEnd(cuts, q)
    decreases q
  {
    if p < q {
      CutEndMonotone(cuts, p, q - 1);
    }
  }

  lemma {:induction false} CutEndSamePrefix(a: seq<int>, b: seq<int>, p: nat)
    requires p <= |a| && p <= |b| && a[..p] == b[..p]
    ensures CutEnd(a, p) == CutEnd(b, p)
    decreases p
  {
    if p > 0 {
      assert a[..p - 1] == a[..p][..p - 1] && b[..p - 1] == b[..p][..p - 1];
      assert a[p - 1] == a[..p][p - 1];
      CutEndSamePrefix(a, b, p - 1);
    }
  }

  /** Lengthening the last block by d moves the end of all blocks by d. */
  lemma {:induction false} CutEndLonger(cuts: seq<int>, d: int)
    requires |cuts| > 0
    ensures var n := |cuts|;
            CutEnd(cuts[n - 1 := cuts[n - 1] + d], n) == CutEnd(cuts, n) + d
  {
    var n := |cuts|;
    var longer := cuts[n - 1 := cuts[n - 1] + d];
    assert longer[..n - 1] == cuts[..n - 1];
    CutEndSamePrefix(longer, cuts, n - 1);
  }

  /** The shortfall below v, if any, added to the last block. */
  function Padded(cuts: seq<int>, v: nat): (padded: seq<int>)
    requires |cuts| > 0
  {
    var n := |cuts|;
    if CutEnd(cuts, n) < v then cuts[n - 1 := cuts[n - 1] + (v - CutEnd(cuts, n))] else cuts
  }

  /**
   * Padding leaves every block but the last alone, never shortens the last,
   * and makes the blocks cover at least the v genes, exactly v when they fell
   * short.
   */
  lemma {:induction false} PaddedCovers(cuts: seq<int>, v: nat)
    requires |cuts| > 0 && Lengths(cuts)
    ensures var n := |cuts|;
            var padded := Padded(cuts, v);
            && |padded| == n && Lengths(padded)
            && padded[..n - 1] == cuts[..n - 1]
            && padded[n - 1] >= cuts[n - 1]
            && CutEnd(padded, n) == (if CutEnd(cuts, n) < v then v else CutEnd(cuts, n))
  {
    var n := |cuts|;
    if CutEnd(cuts, n) < v {
      CutEndLonger(cuts, v - CutEnd(cuts, n));
    }
  }

  /** The first loop: one nextDouble share per parent, summed from Double.MIN_VALUE. */
  method DrawShares(n: nat, reals: seq<real>) returns (share: seq<real>, sum: real)
    ensures share == Shares(n, reals)
    ensures sum == ShareTotal(share)
  {
    share := [];
    sum := DOUBLE_MIN_VALUE;
    var i := 0;
    while i < n
      invariant 0 <= i <= n
      invariant |share| == i
      invariant forall j :: 0 <= j < i ==> share[j] == NextDouble(RealAt(reals, j))
      invariant sum == DOUBLE_MIN_VALUE + Sum(share)
    {
      SumAppend(share, NextDouble(RealAt(reals, i)));
      share := share + [NextDouble(RealAt(reals, i))];
      sum := sum + share[i];
      i := i + 1;
    }
  }

  /** The second loop: the shares turned into block lengths, and their total. */
  method CutLengths(v: nat, share: seq<real>, sum: real) returns (cuts: seq<int>, sumVars: int)
    requires NonNegative(share) && sum > 0.0
    ensures |cuts| == |share| && forall j :: 0 <= j < |share| ==> cuts[j] == CutLength(v, share[j], sum)
    ensures sumVars == CutEnd(cuts, |cuts|)
  {
    cuts := [];
    sumVars := 0;
    var i := 0;
    while i < |share|
      invariant 0 <= i <= |share|
      invariant |cuts| == i
      invariant forall j :: 0 <= j < i ==> cuts[j] == CutLength(v, share[j], sum)
      invariant sumVars == CutEnd(cuts, i)
    {
      cuts := cuts + [CutLength(v, share[i], sum)];
      assert cuts[..i] == cuts[..|cuts| - 1];
      CutEndSamePrefix(cuts[..i], cuts, i);
      sumVars := sumVars + cuts[i];
      i := i + 1;
    }
  }

  /** The two loops that draw the shares and turn them into block lengths. */
  method DrawCuts(n: nat, v: nat, reals: seq<real>) returns (cuts: seq<int>, sumVars: int)
    ensures cuts == Cuts(n, v, reals)
    ensures sumVars == CutEnd(cuts, n)
  {
    var share, sum := DrawShares(n, reals);
    cuts, sumVars := CutLengths(v, share, sum);
  }

  /** The padding loop: one more gene for the last parent until the blocks cover v genes. */
  method Pad(cuts: seq<int>, sumVars: int, v: nat) returns (padded: seq<int>)
    requires |cuts| > 0 && sumVars == CutEnd(cuts, |cuts|)
    ensures padded == Padded(cuts, v)
  {
    var n := |cuts|;
    padded := cuts;
    var total := sumVars;
    while total < v
      invariant sumVars <= total <= (if sumVars < v then v else sumVars)
      invariant padded == cuts[n - 1 := cuts[n - 1] + (total - sumVars)]
    {
      padded := padded[n - 1 := padded[n - 1] + 1];
      total := total + 1;
    }
  }

  // ------------------------------------------------------------- the owners

  /** The first block from p on that ends after gene i. */
  function OwnerFrom(cuts: seq<int>, i: nat, p: nat): (o: nat)
    requires p < |cuts| && i < CutEnd(cuts, |cuts|)
    ensures p <= o < |cuts|
    decreases |cuts| - p
  {
    if i < CutEnd(cuts, p + 1) then p else OwnerFrom(cuts, i, p + 1)
  }

  /** The parent that owns gene i: the block that ends first after it. */
  function Owner(cuts: seq<int>, i: nat): (o: nat)
    requires |cuts| > 0 && i < CutEnd(cuts, |cuts|)
    ensures o < |cuts|
  {
    OwnerFrom(cuts, i, 0)
  }

  lemma {:induction false} OwnerFromInBlock(cuts: seq<int>, i: nat, p: nat)
    requires p < |cuts| && i < CutEnd(cuts, |cuts|) && CutEnd(cuts, p) <= i
    ensures var o := OwnerFrom(cuts, i, p);
            CutEnd(cuts, o) <= i < CutEnd(cuts, o + 1)
    decreases |cuts| - p
  {
    if !(i < CutEnd(cuts, p + 1)) {
      OwnerFromInBlock(cuts, i, p + 1);
    }
  }

  /** Gene i lies inside its owner's block, and only one block holds it. */
  lemma {:induction false} OwnerIsBlock(cuts: seq<int>, i: nat, p: nat)
    requires Lengths(cuts) && p < |cuts| && i < CutEnd(cuts, |cuts|)
    ensures CutEnd(cuts, Owner(cuts, i)) <= i < CutEnd(cuts, Owner(cuts, i) + 1)
    ensures CutEnd(cuts, p) <= i < CutEnd(cuts, p + 1) <==> Owner(cuts, i) == p
  {
    var o := Owner(cuts, i);
    OwnerFromInBlock(cuts, i, 0);
    if o < p {
      CutEndMonotone(cuts, o + 1, p);
    } else if p < o {
      CutEndMonotone(cuts, p + 1, o);
    }
  }

  /** The owners never go back: later genes belong to the same or a later parent. */
  lemma {:induction false} OwnerMonotone(cuts: seq<int>, i: nat, j: nat)
    requires Lengths(cuts) && |cuts| > 0 && i <= j < CutEnd(cuts, |cuts|)
    ensures Owner(cuts, i) <= Owner(cuts, j)
  {
    var oi, oj := Owner(cuts, i), Owner(cuts, j);
    OwnerIsBlock(cuts, i, oi);
    OwnerIsBlock(cuts, j, oj);
    if oj < oi {
      CutEndMonotone(cuts, oj + 1, oi);
    }
  }

  /** The owner of each of the first v genes. */
  function Owners(cuts: seq<int>, v: nat): (o: seq<int>)
    requires |cuts| > 0 && v <= CutEnd(cuts, |cuts|)
    ensures |o| == v
  {
    seq(v, i requires 0 <= i < v => Owner(cuts, i))
  }

  /**
   * The cursor loop: curIndex is the last gene of parent curParent's block,
   * and the cursor moves on while it lies before gene i. When the blocks end
   * before gene i the cursor indexes past the last parent.
   */
  method Walk(cuts: seq<int>, v: nat) returns (r: Outcome<seq<int>>)
    requires |cuts| > 0 && Lengths(cuts)
    ensures r.Ok? <==> v <= CutEnd(cuts, |cuts|)
    ensures r.Thrown? ==> r.ex == IndexOutOfBounds
    ensures r.Ok? ==> r.value == Owners(cuts, v)
  {
    var n := |cuts|;
    var owners: seq<int> := [];
    var curIndex := cuts[0] - 1;
    var curParent := 0;
    var i := 0;
    CutEndMonotone(cuts, 0, n);
    while i < v
      invariant 0 <= i <= v && 0 <= curParent < n
      invariant curIndex == CutEnd(cuts, curParent + 1) - 1
      invariant CutEnd(cuts, curParent) <= i <= CutEnd(cuts, n)
      invariant |owners| == i
      invariant forall j :: 0 <= j < i ==> owners[j] == Owner(cuts, j)
    {
      while curIndex < i
        invariant 0 <= curParent < n
        invariant curIndex == CutEnd(cuts, curParent + 1) - 1
        invariant CutEnd(cuts, curParent) <= i
        decreases n - curParent
      {
        if curParent + 1 >= n {
          return Thrown(IndexOutOfBounds);
        }
        curParent := curParent + 1;
        curIndex := curIndex + cuts[curParent];
      }
      CutEndMonotone(cuts, curParent + 1, n);
      OwnerIsBlock(cuts, i, curParent);
      owners := owners + [curParent];
      i := i + 1;
    }
    return Ok(owners);
  }

  /** Every owner is a parent index, and the owners never decrease. */
  lemma {:induction false} OwnersOrdered(cuts: seq<int>, v: nat)
    requires |cuts| > 0 && Lengths(cuts) && v <= CutEnd(cuts, |cuts|)
    ensures forall i :: 0 <= i < v ==> 0 <= Owners(cuts, v)[i] < |cuts|
    ensures forall i, j :: 0 <= i <= j < v ==> Owners(cuts, v)[i] <= Owners(cuts, v)[j]
  {
    forall i, j | 0 <= i <= j < v
      ensures Owners(cuts, v)[i] <= Owners(cuts, v)[j]
    {
      OwnerMonotone(cuts, i, j);
    }
  }

  // --------------------------------------------------- SinglePointDiscrete

  /** The padded blocks of an attempt cover every gene. */
  function PaddedCuts(n: nat, v: nat, reals: seq<real>): (cuts: seq<int>)
    requires n > 0
    ensures |cuts| == n && Lengths(cuts) && v <= CutEnd(cuts, n)
  {
    PaddedCovers(Cuts(n, v, reals), v);
    Padded(Cuts(n, v, reals), v)
  }

  /** The owners of the genes under the padded blocks of an attempt. */
  function PaddedOwners(n: nat, v: nat, reals: seq<real>): (owners: seq<int>)
    requires n > 0
    ensures |owners| == v && forall i :: 0 <= i < v ==> 0 <= owners[i] < n
    ensures forall i, j :: 0 <= i <= j < v ==> owners[i] <= owners[j]
  {
    OwnersOrdered(PaddedCuts(n, v, reals), v);
    Owners(PaddedCuts(n, v, reals), v)
  }

  /** The three loops of one attempt: shares and blocks, padding, and the cursor walk. */
  method AttemptOwners(n: nat, v: nat, a: Attempt) returns (owners: seq<int>)
    requires n > 0
    ensures owners == PaddedOwners(n, v, a.reals)
  {
    var cuts, sumVars := DrawCuts(n, v, a.reals);
    cuts := Pad(cuts, sumVars, v);
    assert cuts == PaddedCuts(n, v, a.reals);
    var walked := Walk(cuts, v);
    owners := walked.value;
  }

  /** The repaired vector: the owners up to the cut, the new parent from the cut on. */
  function Spliced(owners: seq<int>, cut: nat, parent: int): (r: seq<int>)
    requires cut <= |owners|
    ensures |r| == |owners|
  {
    owners[..cut] + seq(|owners| - cut, _ => parent)
  }

  /**
   * The vector SinglePointDiscrete returns from attempt k on. A clone of at
   * most three genes keeps the genes before a forced cut in [1, v) and gives
   * the rest to a different parent; a longer clone is redrawn.
   */
  function DiscreteVector(n: int, v: nat, checkClones: bool, attempts: seq<Attempt>, k: nat): (r: Outcome<seq<int>>)
    requires n > 0
    decreases |attempts| - k
  {
    var a := AttemptAt(attempts, k);
    var owners := PaddedOwners(n, v, a.reals);
    if !(checkClones && AllSame(owners)) then Ok(owners)
    else if v == 0 then Thrown(IndexOutOfBounds)
    else if v <= 3 then RepairedClone(n, v, owners, a)
    else if k + 1 < |attempts| then DiscreteVector(n, v, checkClones, attempts, k + 1)
    else Thrown(RedrawLimit)
  }

  /** The suffix loop of the repair. */
  method OverwriteFrom(matrix: seq<int>, forcedCut: nat, parent: int) returns (r: seq<int>)
    requires forcedCut <= |matrix|
    ensures r == Spliced(matrix, forcedCut, parent)
  {
    r := matrix;
    var i := forcedCut;
    while i < |r|
      invariant forcedCut <= i <= |r| == |matrix|
      invariant r[..forcedCut] == matrix[..forcedCut]
      invariant forall j :: forcedCut <= j < i ==> r[j] == parent
      invariant forall j :: i <= j < |r| ==> r[j] == matrix[j]
    {
      r := r[i := parent];
      i := i + 1;
    }
    assert r == Spliced(matrix, forcedCut, parent);
  }

  /** The repair of a clone of one to three genes: what DiscreteVector does with it. */
  function RepairedClone(n: int, v: nat, owners: seq<int>, a: Attempt): (r: Outcome<seq<int>>)
    requires 0 < v == |owners| && forall i :: 0 <= i < v ==> 0 <= owners[i] < n
  {
    match OtherParent(owners[0], n, IntAt(a.repair, 0), !a.coin)
    case Thrown(e) => Thrown(e)
    case Ok(parent) =>
      match NextInt(IntAt(a.repair, 1), v - 1)
      case Thrown(e) => Thrown(e)
      case Ok(c) => Ok(Spliced(owners, c + 1, parent))
  }

  /** The repair branch: a different parent, a forced cut, and the suffix overwritten. */
  method Repair(n: int, v: nat, matrix: seq<int>, a: Attempt) returns (r: Outcome<seq<int>>)
    requires 0 < v == |matrix| && forall i :: 0 <= i < v ==> 0 <= matrix[i] < n
    ensures r == RepairedClone(n, v, matrix, a)
  {
    var parent := OtherParent(matrix[0], n, IntAt(a.repair, 0), !a.coin);
    if parent.Thrown? {
      return Thrown(parent.ex);
    }
    var forcedCut := NextInt(IntAt(a.repair, 1), v - 1);
    if forcedCut.Thrown? {
      return Thrown(forcedCut.ex);
    }
    var spliced := OverwriteFrom(matrix, forcedCut.value + 1, parent.value);
    return Ok(spliced);
  }

  /** SinglePointDiscrete.getCrossoverVector once n and v are read. */
  method CrossoverVector(n: int, v: nat, checkClones: bool, attempts: seq<Attempt>, k: nat)
    returns (r: Outcome<seq<int>>)
    requires n > 0
    ensures r == DiscreteVector(n, v, checkClones, attempts, k)
    decreases |attempts| - k
  {
    var a := AttemptAt(attempts, k);
    var matrix := AttemptOwners(n, v, a);
    if checkClones {
      var clone := IsCloneVector(matrix);
      if clone {
        if v == 0 {
          return Thrown(IndexOutOfBounds);
        } else if v <= 3 {
          r := Repair(n, v, matrix, a);
          return;
        } else if k + 1 < |attempts| {
          r := CrossoverVector(n, v, checkClones, attempts, k + 1);
          return;
        } else {
          return Thrown(RedrawLimit);
        }
      }
    }
    return Ok(matrix);
  }

  /** Every entry names a parent, checked or not, repaired or not. */
  lemma {:induction false} DiscreteVectorInRange(n: int, v: nat, checkClones: bool, attempts: seq<Attempt>, k: nat)
    requires n > 0
    ensures var r := DiscreteVector(n, v, checkClones, attempts, k);
            r.Ok? ==> |r.value| == v && forall i :: 0 <= i < v ==> 0 <= r.value[i] < n
    decreases |attempts| - k
  {
    var a := AttemptAt(attempts, k);
    var owners := PaddedOwners(n, v, a.reals);
    if checkClones && AllSame(owners) && v > 3 && k + 1 < |attempts| {
      DiscreteVectorInRange(n, v, checkClones, attempts, k + 1);
    }
  }

  /**
   * A repaired clone keeps the genes before the forced cut, which lies in
   * [1, v), and gives every gene from the cut on to one different parent, so
   * it is no clone any more.
   */
  lemma {:induction false} RepairSplitsOnce(n: int, v: nat, attempts: seq<Attempt>, k: nat)
    requires n > 0 && v <= 3
    requires AllSame(PaddedOwners(n, v, AttemptAt(attempts, k).reals))
    ensures var owners := PaddedOwners(n, v, AttemptAt(attempts, k).reals);
            var r := DiscreteVector(n, v, true, attempts, k);
            r.Ok? ==> exists cut, parent ::
              && 1 <= cut < v && parent != owners[0]
              && r.value == Spliced(owners, cut, parent)
              && !AllSame(r.value)
  {
    var a := AttemptAt(attempts, k);
    var owners := PaddedOwners(n, v, a.reals);
    var r := DiscreteVector(n, v, true, attempts, k);
    if r.Ok? {
      var parent := OtherParent(owners[0], n, IntAt(a.repair, 0), !a.coin).value;
      var cut := NextInt(IntAt(a.repair, 1), v - 1).value + 1;
      assert r.value[0] == owners[0] != parent == r.value[v - 1];
    }
  }

  /** With clone checking on, two or more genes always come from more than one parent. */
  lemma {:induction false} DiscreteVectorNotClone(n: int, v: nat, attempts: seq<Attempt>, k: nat)
    requires n > 0 && v >= 2
    ensures var r := DiscreteVector(n, v, true, attempts, k);
            r.Ok? ==> !AllSame(r.value)
    decreases |attempts| - k
  {
    var owners := PaddedOwners(n, v, AttemptAt(attempts, k).reals);
    if AllSame(owners) {
      if v <= 3 {
        RepairSplitsOnce(n, v, attempts, k);
      } else if k + 1 < |attempts| {
        DiscreteVectorNotClone(n, v, attempts, k + 1);
      }
    }
  }

  /**
   * The failures of a checked call: a vector without genes reads matrix[0], a
   * single gene has no cut in [1, 1) to draw, and a single parent makes every
   * longer vector a clone that is redrawn until the attempts run out.
   * Unchecked, the owners are returned as they are.
   */
  lemma {:induction false} DiscreteVectorFailures(n: int, v: nat, attempts: seq<Attempt>, k: nat)
    requires n > 0
    ensures v == 0 ==> DiscreteVector(n, v, true, attempts, k) == Thrown(IndexOutOfBounds)
    ensures v == 1 ==> DiscreteVector(n, v, true, attempts, k) == Thrown(IllegalArgument)
    ensures n == 1 && 2 <= v <= 3 ==> DiscreteVector(n, v, true, attempts, k) == Thrown(IllegalArgument)
    ensures n == 1 && v > 3 ==> DiscreteVector(n, v, true, attempts, k) == Thrown(RedrawLimit)
    ensures DiscreteVector(n, v, false, attempts, k) == Ok(PaddedOwners(n, v, AttemptAt(attempts, k).reals))
    decreases |attempts| - k
  {
    var owners := PaddedOwners(n, v, AttemptAt(attempts, k).reals);
    if n == 1 {
      assert AllSame(owners);
      if v > 3 && k + 1 < |attempts| {
        DiscreteVectorFailures(n, v, attempts, k + 1);
      }
    }
  }

  // ------------------------------------------------------ SinglePointFuzzy

  /** The weight matrix that gives every gene wholly to its owner. */
  function OneHot(n: nat, owners: seq<int>): (m: seq<seq<real>>)
    ensures |m| == n && forall j :: 0 <= j < n ==> |m[j]| == |owners|
  {
    seq(n, j requires 0 <= j < n => seq(|owners|, i requires 0 <= i < |owners| => if j == owners[i] then 1.0 else 0.0))
  }

  /**
   * The matrix SinglePointFuzzy returns. The blocks are not padded, so when
   * they fall short of v the cursor indexes past the last parent. The clone
   * test reads the subclass field that is never set, so it never redraws and
   * one attempt is all it draws.
   */
  function FuzzyMatrix(n: int, v: nat, a: Attempt): (r: Outcome<seq<seq<real>>>)
    requires n > 0
  {
    var cuts := Cuts(n, v, a.reals);
    if CutEnd(cuts, n) < v then Thrown(IndexOutOfBounds) else Ok(OneHot(n, Owners(cuts, v)))
  }

  /** The column loop that writes one gene's weights. */
  method WriteColumn(matrix: seq<seq<real>>, i: nat, owner: int) returns (r: seq<seq<real>>)
    requires forall j :: 0 <= j < |matrix| ==> i < |matrix[j]|
    ensures |r| == |matrix|
    ensures forall j :: 0 <= j < |r| ==> r[j] == matrix[j][i := if j == owner then 1.0 else 0.0]
  {
    r := matrix;
    var j := 0;
    while j < |matrix|
      invariant 0 <= j <= |matrix| == |r|
      invariant forall q :: 0 <= q < j ==> r[q] == matrix[q][i := if q == owner then 1.0 else 0.0]
      invariant forall q :: j <= q < |r| ==> r[q] == matrix[q]
    {
      r := r[j := r[j][i := if j == owner then 1.0 else 0.0]];
      j := j + 1;
    }
  }

  /** The n x v matrix of zeros that new double[n][v] allocates. */
  function Zeros(n: nat, v: nat): (m: seq<seq<real>>)
    ensures |m| == n && forall j :: 0 <= j < n ==> m[j] == seq(v, _ => 0.0)
  {
    seq(n, _ => seq(v, _ => 0.0))
  }

  /** The matrix once the columns of the first i genes are written. */
  function Filled(n: nat, owners: seq<int>, i: nat): (m: seq<seq<real>>)
    ensures |m| == n && forall j :: 0 <= j < n ==> |m[j]| == |owners|
  {
    seq(n, j requires 0 <= j < n => seq(|owners|, g requires 0 <= g < |owners| => if g < i && j == owners[g] then 1.0 else 0.0))
  }

  lemma {:induction false} FilledStep(n: nat, owners: seq<int>, i: nat, next: seq<seq<real>>)
    requires i < |owners|
    requires |next| == n
    requires forall j :: 0 <= j < n ==> next[j] == Filled(n, owners, i)[j][i := if j == owners[i] then 1.0 else 0.0]
    ensures next == Filled(n, owners, i + 1)
  {
    forall j | 0 <= j < n
      ensures next[j] == Filled(n, owners, i + 1)[j]
    {
    }
  }

  /** SinglePointFuzzy.getCrossoverMatrix once n and v are read. */
  method CrossoverMatrix(n: int, v: nat, a: Attempt) returns (r: Outcome<seq<seq<real>>>)
    requires n > 0
    ensures r == FuzzyMatrix(n, v, a)
  {
    var cuts, _ := DrawCuts(n, v, a.reals);
    var walked := Walk(cuts, v);
    if walked.Thrown? {
      return Thrown(walked.ex);
    }
    var matrix := FillOneHot(n, walked.value);
    return Ok(matrix);
  }

  /** The loop over the genes that writes each gene's column. */
  method FillOneHot(n: nat, owners: seq<int>) returns (matrix: seq<seq<real>>)
    ensures matrix == OneHot(n, owners)
  {
    matrix := Zeros(n, |owners|);
    forall j | 0 <= j < n
      ensures matrix[j] == Filled(n, owners, 0)[j]
    {
    }
    var i := 0;
    while i < |owners|
      invariant 0 <= i <= |owners|
      invariant matrix == Filled(n, owners, i)
    {
      matrix := WriteColumn(matrix, i, owners[i]);
      FilledStep(n, owners, i, matrix);
      i := i + 1;
    }
    forall j | 0 <= j < n
      ensures matrix[j] == OneHot(n, owners)[j]
    {
    }
  }

  /**
   * Every column of a SinglePointFuzzy matrix holds a single 1 in its owner's
   * row and 0 elsewhere, so it sums to 1, and the owners never decrease along
   * the genes.
   */
  lemma {:induction false} FuzzyMatrixOneHot(n: int, v: nat, a: Attempt)
    requires n > 0
    ensures var r := FuzzyMatrix(n, v, a);
            r.Ok? ==>
              var owners := Owners(Cuts(n, v, a.reals), v);
              && |r.value| == n
              && (forall j :: 0 <= j < n ==> |r.value[j]| == v)
              && (forall i, j :: 0 <= i < v && 0 <= j < n ==> (r.value[j][i] == 1.0 <==> j == owners[i]))
              && (forall i, j :: 0 <= i < v && 0 <= j < n ==> (r.value[j][i] == 0.0 <==> j != owners[i]))
              && (forall i :: 0 <= i < v ==> Sum(Column(r.value, i)) == 1.0)
              && (forall i, g :: 0 <= i <= g < v ==> owners[i] <= owners[g])
  {
    var r := FuzzyMatrix(n, v, a);
    if r.Ok? {
      var cuts := Cuts(n, v, a.reals);
      var owners := Owners(cuts, v);
      OwnersOrdered(cuts, v);
      forall i | 0 <= i < v
        ensures Sum(Column(r.value, i)) == 1.0
      {
        SumSingle(Column(r.value, i), owners[i]);
      }
    }
  }

  /** The blocks fall short exactly when the cursor runs past the last parent. */
  lemma {:induction false} FuzzyMatrixShortfall(n: int, v: nat, a: Attempt)
    requires n > 0
    ensures FuzzyMatrix(n, v, a).Thrown? <==> CutEnd(Cuts(n, v, a.reals), n) < v
    ensures FuzzyMatrix(n, v, a).Thrown? ==> FuzzyMatrix(n, v, a).ex == IndexOutOfBounds
  {
  }
}

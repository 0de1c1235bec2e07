/** Sums of real sequences, accumulated front to back as the source's loops do. */
module Sums {

  function Sum(s: seq<real>): real
  {
    if |s| == 0 then 0.0 else Sum(s[..|s| - 1]) + s[|s| - 1]
  }

  /** Appending one element adds it to the total. */
  lemma {:induction false} SumAppend(s: seq<real>, x: real)
    ensures Sum(s + [x]) == Sum(s) + x
  {
    assert (s + [x])[..|s|] == s;
  }

  /** One more loop iteration adds the next element to the running total. */
  lemma {:induction false} SumStep(s: seq<real>, i: int)
    requires 0 <= i < |s|
    ensures Sum(s[..i + 1]) == Sum(s[..i]) + s[i]
  {
    assert s[..i + 1][..i] == s[..i];
  }

  lemma {:induction false} SumConcat(a: seq<real>, b: seq<real>)
    ensures Sum(a + b) == Sum(a) + Sum(b)
    decreases |b|
  {
    if b == [] {
      assert a + b == a;
    } else {
      assert (a + b)[..|a + b| - 1] == a + b[..|b| - 1];
      SumConcat(a, b[..|b| - 1]);
    }
  }

  /** Every element multiplied by the same factor. */
  function Scale(s: seq<real>, c: real): (r: seq<real>)
    ensures |r| == |s|
    ensures forall i :: 0 <= i < |s| ==> r[i] == s[i] * c
  {
    seq(|s|, i requires 0 <= i < |s| => s[i] * c)
  }

  lemma {:induction false} SumScale(s: seq<real>, c: real)
    ensures Sum(Scale(s, c)) == Sum(s) * c
    decreases |s|
  {
    if s != [] {
      var front := s[..|s| - 1];
      assert forall i :: 0 <= i < |front| ==> Scale(s, c)[..|s| - 1][i] == Scale(front, c)[i];
      assert Scale(s, c)[..|s| - 1] == Scale(front, c);
      SumScale(s[..|s| - 1], c);
    }
  }

  predicate NonNegative(s: seq<real>)
  {
    forall i :: 0 <= i < |s| ==> s[i] >= 0.0
  }

  lemma {:induction false} SumNonNegative(s: seq<real>)
    requires NonNegative(s)
    ensures Sum(s) >= 0.0
  {
    if s != [] {
      SumNonNegative(s[..|s| - 1]);
    }
  }

  /** Over non-negative values a longer prefix never has a smaller sum. */
  lemma {:induction false} PrefixSumMonotone(s: seq<real>, i: int, j: int)
    requires NonNegative(s)
    requires 0 <= i <= j <= |s|
    ensures Sum(s[..i]) <= Sum(s[..j])
  {
    assert s[..j] == s[..i] + s[i..j];
    SumConcat(s[..i], s[i..j]);
    SumNonNegative(s[i..j]);
  }

  /** n copies of c sum to n * c. */
  lemma {:induction false} SumConstant(s: seq<real>, c: real)
    requires forall i :: 0 <= i < |s| ==> s[i] == c
    ensures Sum(s) == |s| as real * c
    decreases |s|
  {
    if s != [] {
      SumConstant(s[..|s| - 1], c);
    }
  }

  /** top copies of v followed by zeros sum to top * v. */
  lemma {:induction false} SumLeadingBlock(s: seq<real>, top: nat, v: real)
    requires top <= |s|
    requires forall i :: 0 <= i < |s| ==> s[i] == if i < top then v else 0.0
    ensures Sum(s) == top as real * v
    decreases |s|
  {
    if top < |s| {
      SumLeadingBlock(s[..|s| - 1], top, v);
    } else if top > 0 {
      SumLeadingBlock(s[..|s| - 1], top - 1, v);
      OneMore(top - 1, v);
    }
  }

  /** k times v plus v is (k + 1) times v. */
  lemma {:induction false} OneMore(k: nat, v: real)
    ensures k as real * v + v == (k + 1) as real * v
  {
  }

  /** A sequence that is zero except at one index sums to the value there. */
  lemma {:induction false} SumSingle(s: seq<real>, k: int)
    requires 0 <= k < |s|
    requires forall i :: 0 <= i < |s| && i != k ==> s[i] == 0.0
    ensures Sum(s) == s[k]
    decreases |s|
  {
    if k == |s| - 1 {
      SumConstant(s[..|s| - 1], 0.0);
    } else {
      SumSingle(s[..|s| - 1], k);
    }
  }

  /** Multiplying by a non-negative factor keeps the order. */
  lemma {:induction false} MulMonotone(a: real, b: real, c: real)
    requires a <= b && c >= 0.0
    ensures a * c <= b * c
  {
    assert b * c - a * c == (b - a) * c;
  }

  /** A quotient of a non-negative value by a positive one is non-negative. */
  lemma {:induction false} DivNonNegative(a: real, b: real)
    requires a >= 0.0 && b > 0.0
    ensures a / b >= 0.0
  {
    assert (a / b) * b == a;
  }

  /** Scaling by target / Sum(s) makes the elements sum to target. */
  lemma {:induction false} SumScaleToTarget(s: seq<real>, target: real)
    requires Sum(s) != 0.0
    ensures Sum(Scale(s, target / Sum(s))) == target
  {
    SumScale(s, target / Sum(s));
  }

  lemma {:induction false} MulStrictMonotone(a: real, b: real, c: real)
    requires a < b && c > 0.0
    ensures a * c < b * c
  {
    assert b * c - a * c == (b - a) * c;
  }

  lemma {:induction false} DivPositive(a: real, b: real)
    requires a > 0.0 && b > 0.0
    ensures a / b > 0.0
  {
    assert (a / b) * b == a;
  }

  /** Between positive values, the larger has the smaller reciprocal. */
  lemma {:induction false} ReciprocalDecreasing(x: real, y: real)
    requires 0.0 < x < y
    ensures 0.0 < 1.0 / y < 1.0 / x
  {
    var a, b := 1.0 / x, 1.0 / y;
    DivPositive(1.0, x);
    DivPositive(1.0, y);
    assert x * a == 1.0 && y * b == 1.0;
    MulStrictMonotone(x, y, a);
    if a <= b {
      MulMonotone(a, b, y);
      assert false;
    }
  }

  /** For positive n / total, n / total times the reciprocal is smaller for the larger value. */
  lemma ScaledReciprocalDecreasing(x: real, y: real, n: real, total: real, a: real, b: real)
    requires 0.0 < x < y && n > 0.0 && total > 0.0
    requires a == (1.0 / x) * (n / total) && b == (1.0 / y) * (n / total)
    ensures b < a
  {
    DivPositive(n, total);
    ReciprocalDecreasing(x, y);
    MulStrictMonotone(1.0 / y, 1.0 / x, n / total);
  }

  /** Multiplying a quotient by its divisor gives back the dividend. */
  lemma {:induction false} MulDivCancel(a: real, b: real)
    requires b != 0.0
    ensures b * (a / b) == a
  {
  }
}

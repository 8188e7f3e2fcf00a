/** Sums of real-valued sequences, the one accumulation every aggregate of the
    tracker is built on. Amounts are exact reals here, so the order in which a
    fold visits its terms does not change the sum. */
module Sums {

  /** Sum of `xs`, accumulated left to right like `reduce((sum, x) => sum + x, 0)`. */
  function Sum(xs: seq<real>): real
  {
    if |xs| == 0 then 0.0 else Sum(xs[..|xs| - 1]) + xs[|xs| - 1]
  }

  /** Summing is additive over concatenation. */
  lemma {:induction false} SumConcat(a: seq<real>, b: seq<real>)
    ensures Sum(a + b) == Sum(a) + Sum(b)
  {
    if |b| == 0 {
      assert a + b == a;
    } else {
      var n := |b| - 1;
      assert (a + b)[..|a + b| - 1] == a + b[..n];
      SumConcat(a, b[..n]);
    }
  }

  /** If `b` is `a` with position `m` raised by `d` (and nothing else changed),
      the sum rises by `d`; a position outside the range changes nothing. */
  lemma {:induction false} SumShift(a: seq<real>, b: seq<real>, m: int, d: real)
    requires |a| == |b|
    requires forall i :: 0 <= i < |a| ==> b[i] == a[i] + (if i == m then d else 0.0)
    ensures Sum(b) == Sum(a) + (if 0 <= m < |a| then d else 0.0)
  {
    if |a| > 0 {
      var n := |a| - 1;
      SumShift(a[..n], b[..n], m, d);
    }
  }

  /** Scaling every term scales the sum. */
  lemma {:induction false} SumScale(xs: seq<real>, ys: seq<real>, c: real)
    requires |xs| == |ys|
    requires forall i :: 0 <= i < |xs| ==> ys[i] == xs[i] * c
    ensures Sum(ys) == Sum(xs) * c
  {
    if |xs| > 0 {
      var n := |xs| - 1;
      SumScale(xs[..n], ys[..n], c);
    }
  }

  /** A non-empty sum of positive terms is positive. */
  lemma {:induction false} SumPositive(xs: seq<real>)
    requires |xs| > 0
    requires forall i :: 0 <= i < |xs| ==> xs[i] > 0.0
    ensures Sum(xs) > 0.0
  {
    if |xs| > 1 {
      SumPositive(xs[..|xs| - 1]);
    }
  }
}

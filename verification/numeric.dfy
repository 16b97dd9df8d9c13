/**
 * Exact arithmetic standing in for the Python float operations the analytics
 * use: `sum`, `min`, `max`, `statistics.mean`, `int(x)` and `round(x, 2)`.
 * Reals are exact here; see the README for what that leaves out.
 */
module Numeric {

  function Sum(xs: seq<real>): real {
    if xs == [] then 0.0 else Sum(xs[..|xs| - 1]) + xs[|xs| - 1]
  }

  function Mean(xs: seq<real>): real
    requires |xs| > 0
  {
    Sum(xs) / |xs| as real
  }

  /** A sequence holding one value `c` throughout sums to `|xs| * c`. */
  lemma {:induction false} SumConstant(xs: seq<real>, c: real)
    requires forall i :: 0 <= i < |xs| ==> xs[i] == c
    ensures Sum(xs) == |xs| as real * c
  {
    if xs != [] {
      SumConstant(xs[..|xs| - 1], c);
    }
  }

  /** The mean of a constant sequence is that constant. */
  lemma MeanConstant(xs: seq<real>, c: real)
    requires |xs| > 0
    requires forall i :: 0 <= i < |xs| ==> xs[i] == c
    ensures Mean(xs) == c
  {
    SumConstant(xs, c);
  }

  /** Summing commutes with an affine map: `sum(a * x + b) == a * sum(x) + n * b`. */
  lemma {:induction false} SumAffine(xs: seq<real>, ys: seq<real>, a: real, b: real)
    requires |xs| == |ys|
    requires forall i :: 0 <= i < |xs| ==> ys[i] == a * xs[i] + b
    ensures Sum(ys) == a * Sum(xs) + |xs| as real * b
  {
    if xs != [] {
      var n := |xs| - 1;
      SumAffine(xs[..n], ys[..n], a, b);
      assert Sum(ys) == a * Sum(xs[..n]) + n as real * b + (a * xs[n] + b);
    }
  }

  /** So does the mean: the mean of `a * x + b` is `a * mean(x) + b`. */
  lemma MeanAffine(xs: seq<real>, ys: seq<real>, a: real, b: real)
    requires |xs| == |ys| > 0
    requires forall i :: 0 <= i < |xs| ==> ys[i] == a * xs[i] + b
    ensures Mean(ys) == a * Mean(xs) + b
  {
    SumAffine(xs, ys, a, b);
    var n := |xs| as real;
    var m := Mean(xs);
    assert Sum(xs) == m * n;
    assert Sum(ys) == (a * m + b) * n;
  }

  /** A quotient is determined by its product with the divisor. */
  lemma QuotientOf(n: real, d: real, q: real)
    requires d != 0.0 && n == q * d
    ensures n / d == q
  {
  }

  /** The smallest element (Python's `min`). */
  function MinOf(xs: seq<real>): (m: real)
    requires |xs| > 0
    ensures m in xs
    ensures forall i :: 0 <= i < |xs| ==> m <= xs[i]
  {
    if |xs| == 1 then xs[0]
    else
      var rest := MinOf(xs[..|xs| - 1]);
      if xs[|xs| - 1] < rest then xs[|xs| - 1] else rest
  }

  /** The largest element (Python's `max`). */
  function MaxOf(xs: seq<real>): (m: real)
    requires |xs| > 0
    ensures m in xs
    ensures forall i :: 0 <= i < |xs| ==> xs[i] <= m
  {
    if |xs| == 1 then xs[0]
    else
      var rest := MaxOf(xs[..|xs| - 1]);
      if xs[|xs| - 1] > rest then xs[|xs| - 1] else rest
  }

  /** Python's `int(x)` on a number: truncation toward zero. */
  function Trunc(x: real): (r: int)
    ensures x >= 0.0 ==> r == x.Floor
    ensures 0.0 <= r as real <= x || x <= r as real <= 0.0
    ensures x - 1.0 < r as real < x + 1.0
  {
    if x >= 0.0 then x.Floor else -((-x).Floor)
  }

  /** Truncation never decreases when its argument grows. */
  lemma TruncMonotone(x: real, y: real)
    requires x <= y
    ensures Trunc(x) <= Trunc(y)
  {
    if x < 0.0 && y < 0.0 {
      assert (-y).Floor <= (-x).Floor;
    }
  }

  /** `x * 100` rounded to an integer, halves going to the even neighbour. */
  function RoundCents(x: real): (n: int)
    ensures -0.5 <= n as real - x * 100.0 <= 0.5
  {
    var y := x * 100.0;
    var f := y.Floor;
    var d := y - f as real;
    if d < 0.5 then f
    else if d > 0.5 then f + 1
    else if f % 2 == 0 then f
    else f + 1
  }

  /**
   * Python's `round(x, 2)` on the exact value: the nearest multiple of 0.01,
   * ties to the even multiple.
   */
  function Round2(x: real): (r: real)
    ensures r == RoundCents(x) as real / 100.0
    ensures x - 0.005 <= r <= x + 0.005
  {
    RoundCents(x) as real / 100.0
  }

  /** Rounding to cents never reverses the order of two amounts. */
  lemma RoundCentsMonotone(x: real, y: real)
    requires x <= y
    ensures RoundCents(x) <= RoundCents(y)
  {
    var fx, fy := (x * 100.0).Floor, (y * 100.0).Floor;
    assert fx <= fy;
    if fx < fy {
      assert RoundCents(x) <= fx + 1 <= fy <= RoundCents(y);
    }
  }

  lemma Round2Monotone(x: real, y: real)
    requires x <= y
    ensures Round2(x) <= Round2(y)
  {
    RoundCentsMonotone(x, y);
  }

  /** An amount already in whole cents is left as it is. */
  lemma Round2Exact(k: int)
    ensures Round2(k as real / 100.0) == k as real / 100.0
  {
    var x := k as real / 100.0;
    assert x * 100.0 == k as real;
    assert (x * 100.0).Floor == k;
  }

  /** Rounding keeps a value inside [lo, hi] whenever both ends are whole cents. */
  lemma Round2Within(x: real, lo: int, hi: int)
    requires lo as real / 100.0 <= x <= hi as real / 100.0
    ensures lo as real / 100.0 <= Round2(x) <= hi as real / 100.0
  {
    Round2Monotone(lo as real / 100.0, x);
    Round2Monotone(x, hi as real / 100.0);
    Round2Exact(lo);
    Round2Exact(hi);
  }

  /** `xs[i] - m` for every element. */
  function Deviations(xs: seq<real>, m: real): (r: seq<real>)
    ensures |r| == |xs|
    ensures forall i :: 0 <= i < |xs| ==> r[i] == xs[i] - m
  {
    seq(|xs|, i requires 0 <= i < |xs| => xs[i] - m)
  }

  /** `sum(u[i] * v[i])`. */
  function Dot(u: seq<real>, v: seq<real>): real
    requires |u| == |v|
  {
    if u == [] then 0.0
    else Dot(u[..|u| - 1], v[..|v| - 1]) + u[|u| - 1] * v[|v| - 1]
  }

  lemma {:induction false} DotSelfNonNegative(u: seq<real>)
    ensures Dot(u, u) >= 0.0
  {
    if u != [] {
      DotSelfNonNegative(u[..|u| - 1]);
      SquareNonNegative(u[|u| - 1]);
    }
  }

  /** A vector whose products with itself add up to zero is all zeros. */
  lemma {:induction false} DotSelfZero(u: seq<real>)
    requires Dot(u, u) == 0.0
    ensures forall i :: 0 <= i < |u| ==> u[i] == 0.0
  {
    if u != [] {
      var init, d := u[..|u| - 1], u[|u| - 1];
      DotSelfNonNegative(init);
      SquareNonNegative(d);
      assert Dot(init, init) == 0.0 && d * d == 0.0;
      SquareZero(d);
      DotSelfZero(init);
      assert forall i :: 0 <= i < |init| ==> u[i] == init[i];
    }
  }

  lemma {:induction false} DotZeroRight(u: seq<real>, v: seq<real>)
    requires |u| == |v|
    requires forall i :: 0 <= i < |v| ==> v[i] == 0.0
    ensures Dot(u, v) == 0.0
  {
    if u != [] {
      DotZeroRight(u[..|u| - 1], v[..|v| - 1]);
    }
  }

  /** A second vector that is `a` times the first gives `a` times the first's own sum of squares. */
  lemma {:induction false} DotScaled(u: seq<real>, v: seq<real>, a: real)
    requires |u| == |v|
    requires forall i :: 0 <= i < |u| ==> v[i] == a * u[i]
    ensures Dot(u, v) == a * Dot(u, u)
  {
    if u != [] {
      var u', v', d := u[..|u| - 1], v[..|v| - 1], u[|u| - 1];
      DotScaled(u', v', a);
      calc {
        Dot(u, v);
        Dot(u', v') + d * v[|v| - 1];
        a * Dot(u', u') + d * (a * d);
        a * (Dot(u', u') + d * d);
        a * Dot(u, u);
      }
    }
  }

  /** Sum of squared deviations of `xs` from `m`. */
  function SquaredDeviations(xs: seq<real>, m: real): (r: real)
    ensures r >= 0.0
  {
    DotSelfNonNegative(Deviations(xs, m));
    Dot(Deviations(xs, m), Deviations(xs, m))
  }

  lemma SquareNonNegative(d: real)
    ensures d * d >= 0.0
  {
    if d < 0.0 {
      assert d * d == (-d) * (-d);
    }
  }

  lemma SquaredDeviationsConstant(xs: seq<real>, c: real)
    requires forall i :: 0 <= i < |xs| ==> xs[i] == c
    ensures SquaredDeviations(xs, c) == 0.0
  {
    DotZeroRight(Deviations(xs, c), Deviations(xs, c));
  }

  /** Squared deviations add up to zero only when every element equals `m`. */
  lemma SquaredDeviationsZero(xs: seq<real>, m: real)
    requires SquaredDeviations(xs, m) == 0.0
    ensures forall i :: 0 <= i < |xs| ==> xs[i] == m
  {
    DotSelfZero(Deviations(xs, m));
  }

  lemma SquareZero(d: real)
    requires d * d == 0.0
    ensures d == 0.0
  {
    if d > 0.0 {
      calc {
        0.0;
        == d * d;
        > 0.0 * d;
      }
    } else if d < 0.0 {
      calc {
        0.0;
        == (-d) * (-d);
        > 0.0 * (-d);
      }
    }
  }
}

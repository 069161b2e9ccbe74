/**
 * Python's `round(x, n)` on exact reals (ties go to the even neighbour) and
 * the sums and means that several modules share.
 */
module Numeric {
  import Text

  /** The integer nearest to `y`, the even one when `y` lies halfway between two. */
  function RoundHalfEven(y: real): (n: int)
    ensures -0.5 <= y - n as real <= 0.5
    ensures (y - n as real == 0.5 || y - n as real == -0.5) ==> n % 2 == 0
  {
    var f := y.Floor;
    var frac := y - f as real;
    if frac < 0.5 then f
    else if frac > 0.5 then f + 1
    else if f % 2 == 0 then f
    else f + 1
  }

  /** An integer rounds to itself. */
  lemma RoundInteger(n: int)
    ensures RoundHalfEven(n as real) == n
  {
    assert (n as real).Floor == n;
  }

  /** Rounding to the nearest multiple of `1 / p`. */
  function RoundAt(x: real, p: real): (r: real)
    requires p >= 1.0
    ensures -0.5 <= x * p - r * p <= 0.5
  {
    RoundHalfEven(x * p) as real / p
  }

  /** `round(x, digits)`. */
  function RoundTo(x: real, digits: nat): (r: real)
    ensures -0.5 <= x * Text.Pow10(digits) as real - r * Text.Pow10(digits) as real <= 0.5
  {
    RoundAt(x, Text.Pow10(digits) as real)
  }

  lemma RoundAtNonNegative(x: real, p: real)
    requires p >= 1.0 && x >= 0.0
    ensures RoundAt(x, p) >= 0.0
  {
    assert x * p >= 0.0;
  }

  /** Rounding never makes a non-negative value negative. */
  lemma RoundNonNegative(x: real, digits: nat)
    requires x >= 0.0
    ensures RoundTo(x, digits) >= 0.0
  {
    RoundAtNonNegative(x, Text.Pow10(digits) as real);
  }

  /** Rounding a multiple of `1 / p` returns it. */
  lemma RoundAtMultiple(n: int, p: real)
    requires p >= 1.0
    ensures RoundAt(n as real / p, p) == n as real / p
  {
    var r := n as real / p;
    assert r * p == n as real;
    RoundInteger(n);
    assert RoundHalfEven(r * p) == n;
    RoundAtUnfold(r, p);
  }

  lemma RoundAtUnfold(r: real, p: real)
    requires p >= 1.0
    ensures RoundAt(r, p) == RoundHalfEven(r * p) as real / p
  {
  }

  lemma RoundAtIdempotent(x: real, p: real)
    requires p >= 1.0
    ensures RoundAt(RoundAt(x, p), p) == RoundAt(x, p)
  {
    var n := RoundHalfEven(x * p);
    assert RoundAt(x, p) == n as real / p;
    RoundAtMultiple(n, p);
  }

  /** Rounding twice to the same number of digits is rounding once. */
  lemma RoundIdempotent(x: real, digits: nat)
    ensures RoundTo(RoundTo(x, digits), digits) == RoundTo(x, digits)
  {
    RoundAtIdempotent(x, Text.Pow10(digits) as real);
  }

  function Sum(xs: seq<real>): real {
    if xs == [] then 0.0 else Sum(xs[..|xs| - 1]) + xs[|xs| - 1]
  }

  function Mean(xs: seq<real>): real
    requires |xs| > 0
  {
    Sum(xs) / |xs| as real
  }

  /** A sum of values within [lo, hi] lies within [n·lo, n·hi]. */
  lemma {:induction false} SumBetween(xs: seq<real>, lo: real, hi: real)
    requires forall i :: 0 <= i < |xs| ==> lo <= xs[i] <= hi
    ensures |xs| as real * lo <= Sum(xs) <= |xs| as real * hi
  {
    if xs != [] {
      var front := xs[..|xs| - 1];
      assert forall i :: 0 <= i < |front| ==> front[i] == xs[i];
      SumBetween(front, lo, hi);
      assert |xs| as real * lo == |front| as real * lo + lo;
      assert |xs| as real * hi == |front| as real * hi + hi;
    }
  }

  /** A mean lies between the smallest and the largest value. */
  lemma MeanBetween(xs: seq<real>, lo: real, hi: real)
    requires |xs| > 0
    requires forall i :: 0 <= i < |xs| ==> lo <= xs[i] <= hi
    ensures lo <= Mean(xs) <= hi
  {
    SumBetween(xs, lo, hi);
    var n := |xs| as real;
    assert Sum(xs) / n >= lo by { assert Sum(xs) >= n * lo; }
    assert Sum(xs) / n <= hi by { assert Sum(xs) <= n * hi; }
  }

  /** The sum of a sequence of non-negative values is non-negative, and 0 only if every value is. */
  lemma {:induction false} SumNonNegative(xs: seq<real>)
    requires forall i :: 0 <= i < |xs| ==> xs[i] >= 0.0
    ensures Sum(xs) >= 0.0
    ensures Sum(xs) == 0.0 <==> forall i :: 0 <= i < |xs| ==> xs[i] == 0.0
  {
    if xs != [] {
      var front := xs[..|xs| - 1];
      assert forall i :: 0 <= i < |front| ==> front[i] == xs[i];
      SumNonNegative(front);
    }
  }

  /** Summing is additive over concatenation. */
  lemma {:induction false} SumConcat(a: seq<real>, b: seq<real>)
    ensures Sum(a + b) == Sum(a) + Sum(b)
    decreases |b|
  {
    if b != [] {
      var bf := b[..|b| - 1];
      assert (a + b)[..|a + b| - 1] == a + bf;
      SumConcat(a, bf);
    } else {
      assert a + b == a;
    }
  }

  /** Scaling every term scales the sum. */
  lemma {:induction false} SumScale(xs: seq<real>, ys: seq<real>, c: real)
    requires |xs| == |ys|
    requires forall i :: 0 <= i < |xs| ==> ys[i] == xs[i] * c
    ensures Sum(ys) == Sum(xs) * c
  {
    if xs != [] {
      var xf, yf := xs[..|xs| - 1], ys[..|ys| - 1];
      assert forall i :: 0 <= i < |xf| ==> xf[i] == xs[i] && yf[i] == ys[i];
      SumScale(xf, yf, c);
    }
  }

  /** Termwise smaller values have a smaller sum. */
  lemma {:induction false} SumMonotone(xs: seq<real>, ys: seq<real>)
    requires |xs| == |ys|
    requires forall i :: 0 <= i < |xs| ==> xs[i] <= ys[i]
    ensures Sum(xs) <= Sum(ys)
  {
    if xs != [] {
      var xf, yf := xs[..|xs| - 1], ys[..|ys| - 1];
      assert forall i :: 0 <= i < |xf| ==> xf[i] == xs[i] && yf[i] == ys[i];
      SumMonotone(xf, yf);
    }
  }

  function Reverse(xs: seq<real>): (r: seq<real>)
    ensures |r| == |xs|
  {
    seq(|xs|, i requires 0 <= i < |xs| => xs[|xs| - 1 - i])
  }

  /** Reversing does not change a sum. */
  lemma {:induction false} SumReverse(xs: seq<real>)
    ensures Sum(Reverse(xs)) == Sum(xs)
  {
    if xs != [] {
      var front := xs[..|xs| - 1];
      assert Reverse(xs) == [xs[|xs| - 1]] + Reverse(front);
      SumConcat([xs[|xs| - 1]], Reverse(front));
      assert Sum([xs[|xs| - 1]]) == xs[|xs| - 1] by {
        assert [xs[|xs| - 1]][..0] == [];
      }
      SumReverse(front);
    }
  }

  /** `np.sum(values * weights)`. */
  function WeightedSum(v: seq<real>, w: seq<real>): real
    requires |v| == |w|
  {
    if v == [] then 0.0 else WeightedSum(v[..|v| - 1], w[..|w| - 1]) + v[|v| - 1] * w[|w| - 1]
  }

  lemma LowStep(sw: real, wn: real, ws: real, vn: real, lo: real)
    requires sw * lo <= ws && wn >= 0.0 && lo <= vn
    ensures (sw + wn) * lo <= ws + vn * wn
  {
    assert (vn - lo) * wn >= 0.0;
  }

  lemma HighStep(sw: real, wn: real, ws: real, vn: real, hi: real)
    requires ws <= sw * hi && wn >= 0.0 && vn <= hi
    ensures ws + vn * wn <= (sw + wn) * hi
  {
    assert (hi - vn) * wn >= 0.0;
  }

  /** `LowStep` for the totals of one sequence and its prefix. */
  lemma LowStepAt(sw: real, wn: real, ws: real, vn: real, lo: real, total: real, sum: real)
    requires sw * lo <= ws && wn >= 0.0 && lo <= vn
    requires total == sw + wn && sum == ws + vn * wn
    ensures total * lo <= sum
  {
    LowStep(sw, wn, ws, vn, lo);
  }

  /** `HighStep` for the totals of one sequence and its prefix. */
  lemma HighStepAt(sw: real, wn: real, ws: real, vn: real, hi: real, total: real, sum: real)
    requires ws <= sw * hi && wn >= 0.0 && vn <= hi
    requires total == sw + wn && sum == ws + vn * wn
    ensures sum <= total * hi
  {
    HighStep(sw, wn, ws, vn, hi);
  }

  /** With non-negative weights, a weighted sum is at least the weights' sum times a lower bound. */
  lemma {:induction false} WeightedSumAbove(v: seq<real>, w: seq<real>, lo: real)
    requires |v| == |w|
    requires forall i :: 0 <= i < |v| ==> w[i] >= 0.0 && lo <= v[i]
    ensures Sum(w) * lo <= WeightedSum(v, w)
  {
    if v != [] {
      var n := |v| - 1;
      var vf, wf := v[..n], w[..n];
      var sw, ws, vn, wn := Sum(wf), WeightedSum(vf, wf), v[n], w[n];
      assert Sum(w) == sw + wn;
      assert WeightedSum(v, w) == ws + vn * wn;
      assert forall i :: 0 <= i < n ==> vf[i] == v[i] && wf[i] == w[i];
      WeightedSumAbove(vf, wf, lo);
      LowStepAt(sw, wn, ws, vn, lo, Sum(w), WeightedSum(v, w));
    }
  }

  /** With non-negative weights, a weighted sum is at most the weights' sum times an upper bound. */
  lemma {:induction false} WeightedSumBelow(v: seq<real>, w: seq<real>, hi: real)
    requires |v| == |w|
    requires forall i :: 0 <= i < |v| ==> w[i] >= 0.0 && v[i] <= hi
    ensures WeightedSum(v, w) <= Sum(w) * hi
  {
    if v != [] {
      var n := |v| - 1;
      var vf, wf := v[..n], w[..n];
      var sw, ws, vn, wn := Sum(wf), WeightedSum(vf, wf), v[n], w[n];
      assert Sum(w) == sw + wn;
      assert WeightedSum(v, w) == ws + vn * wn;
      assert forall i :: 0 <= i < n ==> vf[i] == v[i] && wf[i] == w[i];
      WeightedSumBelow(vf, wf, hi);
      HighStepAt(sw, wn, ws, vn, hi, Sum(w), WeightedSum(v, w));
    }
  }

  /** Non-negative weights summing to 1 form a convex combination: it stays within the values' bounds. */
  lemma ConvexCombination(v: seq<real>, w: seq<real>, lo: real, hi: real)
    requires |v| == |w| && Sum(w) == 1.0
    requires forall i :: 0 <= i < |v| ==> w[i] >= 0.0 && lo <= v[i] <= hi
    ensures lo <= WeightedSum(v, w) <= hi
  {
    WeightedSumAbove(v, w, lo);
    WeightedSumBelow(v, w, hi);
  }

  /** Every value multiplied by `c`. */
  function Scale(xs: seq<real>, c: real): (r: seq<real>)
    ensures |r| == |xs|
  {
    seq(|xs|, i requires 0 <= i < |xs| => xs[i] * c)
  }

  /** Values in reverse order, divided by their total, add up to 1. */
  lemma NormalisedSum(xs: seq<real>)
    requires Sum(xs) != 0.0
    ensures Sum(Scale(Reverse(xs), 1.0 / Sum(xs))) == 1.0
  {
    var total := Sum(xs);
    var c := 1.0 / total;
    var rev := Reverse(xs);
    SumScale(rev, Scale(rev, c), c);
    SumReverse(xs);
    InverseProduct(total);
    calc {
      Sum(Scale(rev, c));
      Sum(rev) * c;
      { assert Sum(rev) == total; }
      total * c;
      1.0;
    }
  }

  lemma ScaleMonotone(a: real, b: real, c: real)
    requires a < b && c > 0.0
    ensures a * c < b * c
  {
  }

  lemma InverseProduct(t: real)
    requires t != 0.0
    ensures t * (1.0 / t) == 1.0
  {
  }

  /** Positive decreasing values, reversed and scaled by a positive factor, are positive and increasing. */
  lemma ScaledReverseIncreasing(xs: seq<real>, c: real)
    requires c > 0.0
    requires forall k :: 0 <= k < |xs| ==> xs[k] > 0.0
    requires forall a, b :: 0 <= a < b < |xs| ==> xs[b] < xs[a]
    ensures forall i :: 0 <= i < |xs| ==> Scale(Reverse(xs), c)[i] > 0.0
    ensures forall i, j :: 0 <= i < j < |xs| ==> Scale(Reverse(xs), c)[i] < Scale(Reverse(xs), c)[j]
  {
    var w := Scale(Reverse(xs), c);
    var n := |xs|;
    forall i | 0 <= i < n
      ensures w[i] > 0.0
    {
      assert w[i] == xs[n - 1 - i] * c;
      ScaleMonotone(0.0, xs[n - 1 - i], c);
    }
    forall i, j | 0 <= i < j < n
      ensures w[i] < w[j]
    {
      var a, b := xs[n - 1 - i], xs[n - 1 - j];
      assert a < b;
      assert w[i] == a * c && w[j] == b * c;
      ScaleMonotone(a, b, c);
      assert a * c < b * c;
      assert w[i] < w[j];
    }
  }
}

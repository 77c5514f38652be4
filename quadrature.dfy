/** Boundary-corrected trapezoid quadrature over [0, 1], in exact arithmetic.

    The samples `f` sit at the nodes `x`, which lie strictly inside the domain
    (cell centres), so the composite trapezoid rule over adjacent node pairs
    is completed by two end pieces: the first sample held constant on
    [0, x[0]] and the last held constant on [x[|x|-1], 1]. */
module Quadrature {

  /** Area of the trapezoid panel between two adjacent nodes. */
  function Panel(x0: real, x1: real, f0: real, f1: real): real {
    0.5 * (x1 - x0) * (f0 + f1)
  }

  /** Sum of the panels over all adjacent node pairs, first pair first. */
  function InteriorSum(x: seq<real>, f: seq<real>): real
    requires |x| == |f|
    decreases |x|
  {
    if |x| < 2 then 0.0
    else Panel(x[0], x[1], f[0], f[1]) + InteriorSum(x[1..], f[1..])
  }

  /** The first sample held constant on [0, x[0]]. */
  function LeftEnd(x: seq<real>, f: seq<real>): real
    requires |x| == |f| > 0
  {
    x[0] * f[0]
  }

  /** The last sample held constant on [x[|x|-1], 1]. */
  function RightEnd(x: seq<real>, f: seq<real>): real
    requires |x| == |f| > 0
  {
    (1.0 - x[|x| - 1]) * f[|f| - 1]
  }

  /** The quadrature: interior panels plus the two end pieces. */
  function Trapezoid(x: seq<real>, f: seq<real>): real
    requires |x| == |f| > 0
  {
    InteriorSum(x, f) + LeftEnd(x, f) + RightEnd(x, f)
  }

  /** The quadrature in its vectorised form: the sum of the array of panel
      areas over adjacent node pairs, plus `x[0] * f[0]` and
      `(1 - x[-1]) * f[-1]`. */
  lemma TrapezoidVectorised(x: seq<real>, f: seq<real>)
    requires |x| == |f| > 0
    ensures Trapezoid(x, f) == Sum(Panels(x, f)) + x[0] * f[0] + (1.0 - x[|x| - 1]) * f[|f| - 1]
  {
    InteriorSumIsSumOfPanels(x, f);
  }

  /** The array of panel areas, one per adjacent node pair, in node order. */
  function Panels(x: seq<real>, f: seq<real>): seq<real>
    requires |x| == |f|
  {
    if |x| < 2 then []
    else seq(|x| - 1, k requires 0 <= k < |x| - 1 => Panel(x[k], x[k + 1], f[k], f[k + 1]))
  }

  /** Sum of a sequence, first entry first. */
  function Sum(s: seq<real>): real {
    if s == [] then 0.0 else s[0] + Sum(s[1..])
  }

  /** Summing panel by panel along the nodes is summing the array of panels. */
  lemma {:induction false} InteriorSumIsSumOfPanels(x: seq<real>, f: seq<real>)
    requires |x| == |f|
    ensures InteriorSum(x, f) == Sum(Panels(x, f))
  {
    if |x| >= 2 {
      PanelsTail(x, f);
      InteriorSumIsSumOfPanels(x[1..], f[1..]);
    }
  }

  /** Dropping the first node drops the first panel. */
  lemma PanelsTail(x: seq<real>, f: seq<real>)
    requires |x| == |f| >= 2
    ensures Panels(x, f)[0] == Panel(x[0], x[1], f[0], f[1])
    ensures Panels(x[1..], f[1..]) == Panels(x, f)[1..]
  {
    var p, q := Panels(x, f), Panels(x[1..], f[1..]);
    forall k | 0 <= k < |q|
      ensures q[k] == p[1..][k]
    {
      assert x[1..][k] == x[k + 1] && x[1..][k + 1] == x[k + 2];
      assert f[1..][k] == f[k + 1] && f[1..][k + 1] == f[k + 2];
    }
  }

  /** `n` copies of `c`. */
  function Constant(n: nat, c: real): seq<real> {
    seq(n, _ => c)
  }

  /** The samples `a * f + g`, elementwise. */
  function Combine(a: real, f: seq<real>, g: seq<real>): seq<real>
    requires |f| == |g|
  {
    seq(|f|, i requires 0 <= i < |f| => a * f[i] + g[i])
  }

  predicate Nondecreasing(x: seq<real>) {
    forall i, j :: 0 <= i < j < |x| ==> x[i] <= x[j]
  }

  predicate StrictlyIncreasing(x: seq<real>) {
    forall i, j :: 0 <= i < j < |x| ==> x[i] < x[j]
  }

  /** Every node lies in the closed domain [0, 1]. */
  predicate WithinDomain(x: seq<real>) {
    forall i :: 0 <= i < |x| ==> 0.0 <= x[i] <= 1.0
  }

  /** Every node lies strictly inside the domain (0, 1). */
  predicate InsideDomain(x: seq<real>) {
    forall i :: 0 <= i < |x| ==> 0.0 < x[i] < 1.0
  }

  predicate NonNegative(f: seq<real>) {
    forall i :: 0 <= i < |f| ==> 0.0 <= f[i]
  }

  /** For constant samples the interior panels telescope to `c` times the
      distance from the first node to the last. */
  lemma {:induction false} InteriorSumOfConstant(x: seq<real>, c: real)
    requires |x| > 0
    ensures InteriorSum(x, Constant(|x|, c)) == c * (x[|x| - 1] - x[0])
  {
    if |x| >= 2 {
      var f := Constant(|x|, c);
      assert f[1..] == Constant(|x| - 1, c);
      InteriorSumOfConstant(x[1..], c);
      assert Panel(x[0], x[1], c, c) == c * (x[1] - x[0]);
    }
  }

  /** The end pieces complete the telescoped interior: a constant `c` over
      any non-empty node sequence integrates to exactly `c`. */
  lemma TrapezoidOfConstant(x: seq<real>, c: real)
    requires |x| > 0
    ensures Trapezoid(x, Constant(|x|, c)) == c
  {
    InteriorSumOfConstant(x, c);
    assert x[0] * c + (1.0 - x[|x| - 1]) * c + c * (x[|x| - 1] - x[0]) == c;
  }

  /** The samples `h` are `a * f + g`, elementwise: `Combine` as a relation,
      so that the induction below can pass the tails of all four sequences
      without rebuilding the comprehension. */
  predicate IsCombination(a: real, f: seq<real>, g: seq<real>, h: seq<real>) {
    |f| == |g| == |h| && forall i :: 0 <= i < |h| ==> h[i] == a * f[i] + g[i]
  }

  /** The interior sum is linear in the samples: panel by panel, then over
      the rest of the nodes. */
  lemma {:induction false} InteriorSumLinear(x: seq<real>, a: real, f: seq<real>, g: seq<real>, h: seq<real>)
    requires |x| == |h| && IsCombination(a, f, g, h)
    ensures InteriorSum(x, h) == a * InteriorSum(x, f) + InteriorSum(x, g)
  {
    if |x| >= 2 {
      CombinationTail(a, f, g, h);
      InteriorSumLinear(x[1..], a, f[1..], g[1..], h[1..]);
      PanelLinear(x[0], x[1], a, f[0], f[1], g[0], g[1], h[0], h[1]);
      SumLinear(a, Panel(x[0], x[1], h[0], h[1]), InteriorSum(x[1..], h[1..]),
                   Panel(x[0], x[1], f[0], f[1]), InteriorSum(x[1..], f[1..]),
                   Panel(x[0], x[1], g[0], g[1]), InteriorSum(x[1..], g[1..]));
    }
  }

  lemma CombinationTail(a: real, f: seq<real>, g: seq<real>, h: seq<real>)
    requires IsCombination(a, f, g, h) && |h| > 0
    ensures IsCombination(a, f[1..], g[1..], h[1..])
  {
    forall i | 0 <= i < |h| - 1
      ensures h[1..][i] == a * f[1..][i] + g[1..][i]
    {
      assert h[1..][i] == h[i + 1];
    }
  }

  lemma PanelLinear(x0: real, x1: real, a: real, f0: real, f1: real, g0: real, g1: real, h0: real, h1: real)
    requires h0 == a * f0 + g0 && h1 == a * f1 + g1
    ensures Panel(x0, x1, h0, h1) == a * Panel(x0, x1, f0, f1) + Panel(x0, x1, g0, g1)
  {
    var w := 0.5 * (x1 - x0);
    calc {
      Panel(x0, x1, h0, h1);
      w * (a * (f0 + f1) + (g0 + g1));
      { ScaleDistributes(w, a, f0 + f1, g0 + g1); }
      a * (w * (f0 + f1)) + w * (g0 + g1);
    }
  }

  lemma SumLinear(a: real, ph: real, sh: real, pf: real, sf: real, pg: real, sg: real)
    requires ph == a * pf + pg && sh == a * sf + sg
    ensures ph + sh == a * (pf + sf) + (pg + sg)
  {
  }

  lemma LeftEndLinear(x: seq<real>, a: real, f: seq<real>, g: seq<real>)
    requires |x| == |f| == |g| > 0
    ensures LeftEnd(x, Combine(a, f, g)) == a * LeftEnd(x, f) + LeftEnd(x, g)
  {
    ScaleDistributes(x[0], a, f[0], g[0]);
  }

  lemma RightEndLinear(x: seq<real>, a: real, f: seq<real>, g: seq<real>)
    requires |x| == |f| == |g| > 0
    ensures RightEnd(x, Combine(a, f, g)) == a * RightEnd(x, f) + RightEnd(x, g)
  {
    var n := |x| - 1;
    ScaleDistributes(1.0 - x[n], a, f[n], g[n]);
  }

  lemma ScaleDistributes(w: real, a: real, p: real, q: real)
    ensures w * (a * p + q) == a * (w * p) + w * q
  {
  }

  lemma Regroup(a: real, s1: real, l1: real, r1: real, s2: real, l2: real, r2: real)
    ensures (a * s1 + s2) + (a * l1 + l2) + (a * r1 + r2) == a * (s1 + l1 + r1) + (s2 + l2 + r2)
  {
  }

  /** The quadrature is linear in the samples. */
  lemma TrapezoidLinear(x: seq<real>, a: real, f: seq<real>, g: seq<real>)
    requires |x| == |f| == |g| > 0
    ensures Trapezoid(x, Combine(a, f, g)) == a * Trapezoid(x, f) + Trapezoid(x, g)
  {
    InteriorSumLinear(x, a, f, g, Combine(a, f, g));
    LeftEndLinear(x, a, f, g);
    RightEndLinear(x, a, f, g);
    Regroup(a, InteriorSum(x, f), LeftEnd(x, f), RightEnd(x, f),
               InteriorSum(x, g), LeftEnd(x, g), RightEnd(x, g));
  }

  /** On nondecreasing nodes every panel of non-negative samples is
      non-negative, and so is their sum. */
  lemma {:induction false} InteriorSumNonNegative(x: seq<real>, f: seq<real>)
    requires |x| == |f|
    requires Nondecreasing(x) && NonNegative(f)
    ensures 0.0 <= InteriorSum(x, f)
  {
    if |x| >= 2 {
      ProductNonNegative(0.5 * (x[1] - x[0]), f[0] + f[1]);
      InteriorSumNonNegative(x[1..], f[1..]);
    }
  }

  /** On nondecreasing nodes with non-negative samples the interior sum
      bounds every single panel from above. */
  lemma {:induction false} InteriorSumCoversPanel(x: seq<real>, f: seq<real>, k: nat)
    requires |x| == |f| && k + 1 < |x|
    requires Nondecreasing(x) && NonNegative(f)
    ensures Panel(x[k], x[k + 1], f[k], f[k + 1]) <= InteriorSum(x, f)
  {
    InteriorSumNonNegative(x[1..], f[1..]);
    if k > 0 {
      ProductNonNegative(0.5 * (x[1] - x[0]), f[0] + f[1]);
      InteriorSumCoversPanel(x[1..], f[1..], k - 1);
    }
  }

  /** With nodes in [0, 1] and non-negative samples, both end pieces are
      non-negative. */
  lemma EndPiecesNonNegative(x: seq<real>, f: seq<real>)
    requires |x| == |f| > 0
    requires WithinDomain(x) && NonNegative(f)
    ensures 0.0 <= LeftEnd(x, f) && 0.0 <= RightEnd(x, f)
  {
    var n := |x| - 1;
    calc {
      LeftEnd(x, f);
      x[0] * f[0];
    >=  { ProductNonNegative(x[0], f[0]); }
      0.0;
    }
    calc {
      RightEnd(x, f);
      (1.0 - x[n]) * f[n];
    >=  { ProductNonNegative(1.0 - x[n], f[n]); }
      0.0;
    }
  }

  /** Non-negative samples on nondecreasing nodes in [0, 1] integrate to a
      non-negative value. */
  lemma TrapezoidNonNegative(x: seq<real>, f: seq<real>)
    requires |x| == |f| > 0
    requires Nondecreasing(x) && WithinDomain(x) && NonNegative(f)
    ensures 0.0 <= Trapezoid(x, f)
  {
    InteriorSumNonNegative(x, f);
    EndPiecesNonNegative(x, f);
  }

  /** A positive sample followed by a strictly higher node makes the
      interior sum positive. */
  lemma InteriorSumPositive(x: seq<real>, f: seq<real>, k: nat)
    requires |x| == |f| && k + 1 < |x|
    requires Nondecreasing(x) && NonNegative(f)
    requires x[k] < x[k + 1] && 0.0 < f[k]
    ensures 0.0 < InteriorSum(x, f)
  {
    InteriorSumCoversPanel(x, f, k);
    PanelPositive(x[k], x[k + 1], f[k], f[k + 1]);
  }

  /** A positive last sample on a last node left of 1 makes the right end
      piece positive. */
  lemma RightEndPositive(x: seq<real>, f: seq<real>)
    requires |x| == |f| > 0
    requires x[|x| - 1] < 1.0 && 0.0 < f[|f| - 1]
    ensures 0.0 < RightEnd(x, f)
  {
    var n := |x| - 1;
    calc {
      RightEnd(x, f);
      (1.0 - x[n]) * f[n];
    >  { ProductPositive(1.0 - x[n], f[n]); }
      0.0;
    }
  }

  /** A positive sample on strictly increasing nodes strictly inside (0, 1)
      makes the integral of non-negative samples positive. */
  lemma PositiveSampleGivesPositiveIntegral(x: seq<real>, f: seq<real>, k: nat)
    requires |x| == |f| > k
    requires StrictlyIncreasing(x) && InsideDomain(x) && NonNegative(f)
    requires 0.0 < f[k]
    ensures 0.0 < Trapezoid(x, f)
  {
    var n := |x| - 1;
    InteriorSumNonNegative(x, f);
    EndPiecesNonNegative(x, f);
    if k < n {
      InteriorSumPositive(x, f, k);
    } else {
      assert k == n;
      RightEndPositive(x, f);
    }
  }

  /** On strictly increasing nodes strictly inside (0, 1), non-negative
      samples integrate to zero exactly when every sample is zero. */
  lemma TrapezoidZeroIff(x: seq<real>, f: seq<real>)
    requires |x| == |f| > 0
    requires StrictlyIncreasing(x) && InsideDomain(x) && NonNegative(f)
    ensures Trapezoid(x, f) == 0.0 <==> forall i :: 0 <= i < |f| ==> f[i] == 0.0
  {
    if forall i :: 0 <= i < |f| ==> f[i] == 0.0 {
      assert f == Constant(|x|, 0.0);
      TrapezoidOfConstant(x, 0.0);
    } else {
      var k :| 0 <= k < |f| && f[k] != 0.0;
      PositiveSampleGivesPositiveIntegral(x, f, k);
    }
  }

  lemma ProductNonNegative(a: real, b: real)
    requires 0.0 <= a && 0.0 <= b
    ensures 0.0 <= a * b
  {}

  lemma ProductPositive(a: real, b: real)
    requires 0.0 < a && 0.0 < b
    ensures 0.0 < a * b
  {}

  lemma PanelPositive(x0: real, x1: real, f0: real, f1: real)
    requires x0 < x1 && 0.0 < f0 && 0.0 <= f1
    ensures 0.0 < Panel(x0, x1, f0, f1)
  {
    ProductPositive(0.5 * (x1 - x0), f0 + f1);
  }

  /** A single sample is held constant over the whole domain. */
  lemma TrapezoidOfOneSample(x: seq<real>, f: seq<real>)
    requires |x| == |f| == 1
    ensures Trapezoid(x, f) == f[0]
  {
    assert x[0] * f[0] + (1.0 - x[0]) * f[0] == f[0];
  }
}

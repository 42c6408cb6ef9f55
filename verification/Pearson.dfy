/** Holdout correlation in exact arithmetic, squared so that no root is needed. */
module Pearson {
  import opened Word

  function Sum(x: seq<U64>): real {
    if x == [] then 0.0 else Sum(x[..|x| - 1]) + x[|x| - 1] as real
  }

  function Mean(x: seq<U64>): real
    requires x != []
  {
    Sum(x) / |x| as real
  }

  function Centered(x: seq<U64>, mean: real): (d: seq<real>)
    ensures |d| == |x| && forall i :: 0 <= i < |x| ==> d[i] == x[i] as real - mean
  {
    seq(|x|, i requires 0 <= i < |x| => x[i] as real - mean)
  }

  function Times(a: real, b: real): real { a * b }

  function Dot(a: seq<real>, b: seq<real>): real
    requires |a| == |b|
  {
    if a == [] then 0.0 else Dot(a[..|a| - 1], b[..|b| - 1]) + Times(a[|a| - 1], b[|b| - 1])
  }

  /** Sum of products of the deviations from the two means. */
  function Comoment(x: seq<U64>, y: seq<U64>): real
    requires |x| == |y| && x != []
  {
    Dot(Centered(x, Mean(x)), Centered(y, Mean(y)))
  }

  /** r is the correlation: 0 where undefined, else cov / sqrt(varX * varY), squared, with its sign. */
  ghost predicate IsPearson(x: seq<U64>, y: seq<U64>, r: real) {
    |x| == |y| &&
    if x == [] || Comoment(x, x) == 0.0 || Comoment(y, y) == 0.0 then r == 0.0
    else
      && Times(Times(r, r), Times(Comoment(x, x), Comoment(y, y))) == Times(Comoment(x, y), Comoment(x, y))
      && (r > 0.0 ==> Comoment(x, y) > 0.0) && (r < 0.0 ==> Comoment(x, y) < 0.0)
  }

  lemma DotPrefix(a: seq<real>, b: seq<real>, i: nat)
    requires |a| == |b| && i < |a|
    ensures Dot(a[..i + 1], b[..i + 1]) == Dot(a[..i], b[..i]) + Times(a[i], b[i])
  {
    assert a[..i + 1][..i] == a[..i] && b[..i + 1][..i] == b[..i];
  }

  lemma DotEmpty(a: seq<real>, b: seq<real>)
    requires |a| == |b| == 0
    ensures Dot(a, b) == 0.0
  {
  }

  method MeanOf(x: seq<U64>) returns (mean: real)
    requires x != []
    ensures mean == Mean(x)
  {
    var sum := 0.0;
    for i := 0 to |x|
      invariant sum == Sum(x[..i])
    {
      assert x[..i + 1][..i] == x[..i];
      sum := sum + x[i] as real;
    }
    assert x[..|x|] == x;
    mean := sum / |x| as real;
  }

  /** The three moments, accumulated in one pass after the means. */
  method Moments(x: seq<U64>, y: seq<U64>) returns (cov: real, varX: real, varY: real)
    requires |x| == |y| && x != []
    ensures cov == Comoment(x, y) && varX == Comoment(x, x) && varY == Comoment(y, y)
  {
    hide Times, Dot, Mean;
    var meanX := MeanOf(x);
    var meanY := MeanOf(y);
    ghost var dxs, dys := Centered(x, meanX), Centered(y, meanY);
    cov, varX, varY := 0.0, 0.0, 0.0;
    DotEmpty(dxs[..0], dys[..0]);
    DotEmpty(dxs[..0], dxs[..0]);
    DotEmpty(dys[..0], dys[..0]);
    for i := 0 to |x|
      invariant cov == Dot(dxs[..i], dys[..i])
      invariant varX == Dot(dxs[..i], dxs[..i])
      invariant varY == Dot(dys[..i], dys[..i])
    {
      var dx, dy := x[i] as real - meanX, y[i] as real - meanY;
      DotPrefix(dxs, dys, i);
      DotPrefix(dxs, dxs, i);
      DotPrefix(dys, dys, i);
      cov, varX, varY := cov + Times(dx, dy), varX + Times(dx, dx), varY + Times(dy, dy);
    }
    assert dxs[..|x|] == dxs && dys[..|x|] == dys;
  }

  // ---- Cauchy-Schwarz ----

  /** Dot product of p * b - q * a with itself. */
  function Spread(a: seq<real>, b: seq<real>, p: real, q: real): real
    requires |a| == |b|
  {
    if a == [] then 0.0
    else
      var d := Times(p, b[|b| - 1]) - Times(q, a[|a| - 1]);
      Spread(a[..|a| - 1], b[..|b| - 1], p, q) + Times(d, d)
  }

  lemma ExpandSquare(p: real, q: real, a: real, b: real)
    ensures var d := Times(p, b) - Times(q, a);
            && Times(d, d) == p * p * Times(b, b) - 2.0 * p * q * Times(a, b) + q * q * Times(a, a)
            && Times(d, d) >= 0.0
  {
    var d := p * b - q * a;
    assert d * d == p * b * (p * b) - 2.0 * (p * b) * (q * a) + q * a * (q * a);
  }

  lemma Regroup(p: real, q: real, b: real, db: real, c: real, dc: real, a: real, da: real)
    ensures p * p * b - 2.0 * p * q * c + q * q * a + (p * p * db - 2.0 * p * q * dc + q * q * da)
         == p * p * (b + db) - 2.0 * p * q * (c + dc) + q * q * (a + da)
  {
  }

  lemma {:induction false} SpreadExpands(a: seq<real>, b: seq<real>, p: real, q: real)
    requires |a| == |b|
    ensures Spread(a, b, p, q) == p * p * Dot(b, b) - 2.0 * p * q * Dot(a, b) + q * q * Dot(a, a)
    ensures Spread(a, b, p, q) >= 0.0
  {
    hide Times;
    if a != [] {
      var n := |a| - 1;
      var a', b' := a[..n], b[..n];
      SpreadExpands(a', b', p, q);
      ExpandSquare(p, q, a[n], b[n]);
      Regroup(p, q, Dot(b', b'), Times(b[n], b[n]), Dot(a', b'), Times(a[n], b[n]), Dot(a', a'), Times(a[n], a[n]));
    }
  }

  lemma {:induction false} DotSelf(a: seq<real>)
    ensures Dot(a, a) >= 0.0
  {
    if a != [] {
      DotSelf(a[..|a| - 1]);
    }
  }

  lemma MulSign(a: real, b: real)
    ensures a > 0.0 && b < 0.0 ==> a * b < 0.0
    ensures a > 0.0 && b > 0.0 ==> a * b > 0.0
  {
  }

  lemma SquareAbove(r: real)
    ensures r > 1.0 || r < -1.0 ==> r * r > 1.0
  {
    MulSign(r - 1.0, r + 1.0);
    MulSign(1.0 - r, r + 1.0);
    assert r * r - 1.0 == (r - 1.0) * (r + 1.0) == -((1.0 - r) * (r + 1.0));
  }

  lemma Factor(aa: real, bb: real, ab: real)
    requires aa > 0.0 && aa * aa * bb - 2.0 * aa * ab * ab + ab * ab * aa >= 0.0
    ensures ab * ab <= aa * bb
  {
    assert aa * aa * bb - 2.0 * aa * ab * ab + ab * ab * aa == aa * (aa * bb - ab * ab);
    MulSign(aa, aa * bb - ab * ab);
  }

  lemma CauchySchwarz(a: seq<real>, b: seq<real>)
    requires |a| == |b| && Dot(a, a) != 0.0
    ensures Times(Dot(a, b), Dot(a, b)) <= Times(Dot(a, a), Dot(b, b))
  {
    hide Dot, Spread;
    DotSelf(a);
    SpreadExpands(a, b, Dot(a, a), Dot(a, b));
    Factor(Dot(a, a), Dot(b, b), Dot(a, b));
  }

  lemma SquareAtMostOne(r: real, p: real, c: real)
    requires p > 0.0 && Times(Times(r, r), p) == c && c <= p
    ensures -1.0 <= r <= 1.0
  {
    SquareAbove(r);
    MulSign(p, r * r - 1.0);
    assert p * (r * r - 1.0) == r * r * p - p;
  }

  /** No correlation exceeds 1 in magnitude. */
  lemma PearsonBounded(x: seq<U64>, y: seq<U64>, r: real)
    requires IsPearson(x, y, r)
    ensures -1.0 <= r <= 1.0
  {
    hide Times;
    if x != [] && Comoment(x, x) != 0.0 && Comoment(y, y) != 0.0 {
      var dx, dy := Centered(x, Mean(x)), Centered(y, Mean(y));
      CauchySchwarz(dx, dy);
      DotSelf(dx);
      DotSelf(dy);
      TimesPositive(Dot(dx, dx), Dot(dy, dy));
      SquareAtMostOne(r, Times(Dot(dx, dx), Dot(dy, dy)), Times(Dot(dx, dy), Dot(dx, dy)));
    }
  }

  lemma TimesPositive(a: real, b: real)
    requires a > 0.0 && b > 0.0
    ensures Times(a, b) > 0.0
  {
  }

  // ---- Perfect correlation ----

  /** y is a x + b, sample by sample. */
  predicate Affine(x: seq<U64>, y: seq<U64>, a: real, b: real) {
    |x| == |y| && forall i :: 0 <= i < |x| ==> y[i] as real == a * x[i] as real + b
  }

  predicate Varies(x: seq<U64>) {
    exists i, j :: 0 <= i < |x| && 0 <= j < |x| && x[i] != x[j]
  }

  lemma TimesSign(a: real, b: real)
    ensures (a > 0.0 && b > 0.0) || (a < 0.0 && b < 0.0) ==> Times(a, b) > 0.0
    ensures a == 0.0 ==> Times(a, b) == 0.0
  {
  }

  lemma TimesZero(a: real)
    ensures Times(a, 0.0) == 0.0
  {
  }

  lemma SquareZero(d: real)
    ensures Times(d, d) >= 0.0 && (Times(d, d) == 0.0 <==> d == 0.0)
  {
    hide Times;
    TimesSign(d, d);
  }

  /** A vanishing spread leaves the two vectors parallel. */
  lemma {:induction false} SpreadZero(a: seq<real>, b: seq<real>, p: real, q: real)
    requires |a| == |b|
    ensures Spread(a, b, p, q) >= 0.0
    ensures Spread(a, b, p, q) == 0.0 ==> forall i :: 0 <= i < |a| ==> Times(p, b[i]) == Times(q, a[i])
  {
    hide Times;
    if a != [] {
      var n := |a| - 1;
      SpreadZero(a[..n], b[..n], p, q);
      SquareZero(Times(p, b[n]) - Times(q, a[n]));
      if Spread(a, b, p, q) == 0.0 {
        forall i | 0 <= i < |a|
          ensures Times(p, b[i]) == Times(q, a[i])
        {
          assert i < n ==> a[..n][i] == a[i] && b[..n][i] == b[i];
        }
      }
    }
  }

  lemma {:induction false} DotZero(a: seq<real>)
    ensures Dot(a, a) >= 0.0
    ensures Dot(a, a) == 0.0 <==> forall i :: 0 <= i < |a| ==> a[i] == 0.0
  {
    hide Times;
    if a != [] {
      var n := |a| - 1;
      DotZero(a[..n]);
      SquareZero(a[n]);
      assert (forall i :: 0 <= i < |a| ==> a[i] == 0.0) <==>
             (forall i :: 0 <= i < n ==> a[..n][i] == 0.0) && a[n] == 0.0;
    }
  }

  lemma TimesBy(a: real, b: real)
    ensures Times(a, b) == a * b
  {
  }

  lemma {:induction false} SumAffine(x: seq<U64>, y: seq<U64>, a: real, b: real)
    requires Affine(x, y, a, b)
    ensures Sum(y) == Times(a, Sum(x)) + Times(|x| as real, b)
  {
    hide Times;
    if x == [] {
      TimesZero(a);
      TimesSign(0.0, b);
    } else {
      var n := |x| - 1;
      TimesBy(a, x[n] as real);
      SumAffine(x[..n], y[..n], a, b);
      assert |x[..n]| == n && |x| as real == n as real + 1.0 && Sum(x) == Sum(x[..n]) + x[n] as real;
      assert y[n] as real == Times(a, x[n] as real) + b;
      Collect(a, b, Sum(x[..n]), x[n] as real, n as real);
    }
  }

  lemma Collect(a: real, b: real, s: real, v: real, n: real)
    ensures Times(a, s) + Times(n, b) + (Times(a, v) + b) == Times(a, s + v) + Times(n + 1.0, b)
  {
  }

  lemma Share(s: real, t: real, a: real, b: real, n: real)
    requires n > 0.0 && t == Times(a, s) + Times(n, b)
    ensures t / n == a * (s / n) + b
  {
    assert s == s / n * n;
    assert a * s == a * (s / n) * n;
    assert t == (a * (s / n) + b) * n;
  }

  lemma MeanAffine(x: seq<U64>, y: seq<U64>, a: real, b: real)
    requires Affine(x, y, a, b) && x != []
    ensures Mean(y) == a * Mean(x) + b
  {
    hide Sum;
    SumAffine(x, y, a, b);
    Share(Sum(x), Sum(y), a, b, |x| as real);
  }

  /** An affine image deviates from its mean a times as far. */
  lemma AffineCentered(x: seq<U64>, y: seq<U64>, a: real, b: real)
    requires Affine(x, y, a, b) && x != []
    ensures forall i :: 0 <= i < |x| ==> Centered(y, Mean(y))[i] == a * Centered(x, Mean(x))[i]
  {
    hide Mean;
    MeanAffine(x, y, a, b);
    forall i | 0 <= i < |x|
      ensures Centered(y, Mean(y))[i] == a * Centered(x, Mean(x))[i]
    {
      Minus(a, b, x[i] as real, Mean(x));
    }
  }

  lemma Minus(a: real, b: real, v: real, m: real)
    ensures a * v + b - (a * m + b) == a * (v - m)
  {
  }

  /** No variance exactly when all values are equal. */
  lemma NoVariance(x: seq<U64>)
    requires x != []
    ensures Comoment(x, x) == 0.0 <==> !Varies(x)
  {
    hide Dot, Mean;
    var d := Centered(x, Mean(x));
    DotZero(d);
    if !Varies(x) {
      assert Affine(x, x, 0.0, x[0] as real);
      AffineCentered(x, x, 0.0, x[0] as real);
    }
  }

  lemma {:induction false} DotScaled(d: seq<real>, e: seq<real>, a: real)
    requires |d| == |e| && forall i :: 0 <= i < |d| ==> e[i] == a * d[i]
    ensures Dot(d, e) == a * Dot(d, d) && Dot(e, e) == a * a * Dot(d, d)
  {
    hide Times;
    if d != [] {
      var n := |d| - 1;
      DotScaled(d[..n], e[..n], a);
      ScaledStep(a, Dot(d[..n], d[..n]), d[n], e[n]);
    }
  }

  lemma ScaledStep(a: real, s: real, v: real, w: real)
    requires w == a * v
    ensures a * s + Times(v, w) == a * (s + Times(v, v))
    ensures a * a * s + Times(w, w) == a * a * (s + Times(v, v))
  {
    var t := v * v;
    assert v * (a * v) == a * t && a * v * (a * v) == a * a * t;
  }

  /** Parallel deviations make y an affine image of x. */
  lemma ParallelIsAffine(x: seq<U64>, y: seq<U64>, p: real, q: real)
    requires |x| == |y| && x != [] && p > 0.0
    requires forall i :: 0 <= i < |x| ==> Times(p, Centered(y, Mean(y))[i]) == Times(q, Centered(x, Mean(x))[i])
    ensures Affine(x, y, q / p, Mean(y) - q / p * Mean(x))
  {
    hide Mean;
    forall i | 0 <= i < |x|
      ensures y[i] as real == q / p * x[i] as real + (Mean(y) - q / p * Mean(x))
    {
      var dx, dy := x[i] as real - Mean(x), y[i] as real - Mean(y);
      assert Times(p, Centered(y, Mean(y))[i]) == p * dy && Times(q, Centered(x, Mean(x))[i]) == q * dx;
      Slope(p, q, dx, dy);
      Minus(q / p, 0.0, x[i] as real, Mean(x));
    }
  }

  lemma Slope(p: real, q: real, dx: real, dy: real)
    requires p > 0.0 && p * dy == q * dx
    ensures dy == q / p * dx
  {
    assert q / p * p == q;
    assert (dy - q / p * dx) * p == p * dy - q / p * p * dx == 0.0;
    MulSign(dy - q / p * dx, p);
    MulSign(q / p * dx - dy, p);
  }

  lemma ProductsOf(s: real, a: real, yy: real)
    requires yy == a * a * s
    ensures Times(s, yy) == Times(a * s, a * s)
  {
    var k := a * s;
    assert s * (a * a * s) == k * k;
  }

  lemma OneBySign(r: real, sign: real, k: real)
    requires sign == 1.0 || sign == -1.0
    requires (if sign == 1.0 then k > 0.0 else k < 0.0) && Times(Times(r, r), Times(k, k)) == Times(k, k)
    requires (r > 0.0 ==> k > 0.0) && (r < 0.0 ==> k < 0.0)
    ensures r == sign
  {
    hide Times;
    UnitRoot(r, k);
  }

  lemma UnitRoot(r: real, k: real)
    requires k != 0.0 && Times(Times(r, r), Times(k, k)) == Times(k, k)
    ensures r == 1.0 || r == -1.0
  {
    hide Times;
    SquareZero(k);
    Divided(Times(r, r), Times(k, k));
    SquareIsOne(r);
  }

  lemma Divided(t: real, q: real)
    requires q > 0.0 && Times(t, q) == q
    ensures t == 1.0
  {
    assert t == q / q;
  }

  lemma SquareIsOne(r: real)
    requires Times(r, r) == 1.0
    ensures r == 1.0 || r == -1.0
  {
    hide Times;
    DifferenceOfSquares(r);
    TimesSign(r - 1.0, r + 1.0);
    TimesSign(1.0 - r, r + 1.0);
  }

  lemma DifferenceOfSquares(r: real)
    ensures Times(r - 1.0, r + 1.0) == Times(r, r) - 1.0
    ensures Times(1.0 - r, r + 1.0) == 1.0 - Times(r, r)
  {
  }

  lemma PerfectIsParallel(xx: real, yy: real, xy: real)
    requires Times(1.0, Times(xx, yy)) == Times(xy, xy)
    ensures xx * xx * yy - 2.0 * xx * xy * xy + xy * xy * xx == 0.0
  {
    var t := xy * xy;
    assert xx * yy == t;
    assert xx * xx * yy == xx * t && 2.0 * xx * xy * xy == 2.0 * (xx * t) && t * xx == xx * t;
  }

  /**
   * A correlation of 1 (-1) means that one series is a rising (falling) affine image of the other, which
   * is not constant, and nothing else does.
   */
  lemma PerfectIffAffine(x: seq<U64>, y: seq<U64>, r: real, sign: real)
    requires IsPearson(x, y, r) && (sign == 1.0 || sign == -1.0)
    ensures r == sign <==> Varies(x) && exists a, b :: sign * a > 0.0 && Affine(x, y, a, b)
  {
    hide Dot, Mean, Times, Spread, Varies, Affine;
    if x != [] {
      NoVariance(x);
      NoVariance(y);
      if r == sign {
        AffineOfPerfect(x, y, r, sign);
      }
      if a, b :| Varies(x) && sign * a > 0.0 && Affine(x, y, a, b) {
        PerfectOfAffine(x, y, r, sign, a, b);
      }
    } else {
      NothingVaries(x);
    }
  }

  lemma NothingVaries(x: seq<U64>)
    requires x == []
    ensures !Varies(x)
  {
  }

  lemma AffineOfPerfect(x: seq<U64>, y: seq<U64>, r: real, sign: real)
    requires IsPearson(x, y, r) && x != [] && r == sign && (sign == 1.0 || sign == -1.0)
    ensures Comoment(x, x) != 0.0
    ensures exists a, b :: sign * a > 0.0 && Affine(x, y, a, b)
  {
    hide Dot, Mean, Times, Spread, Affine;
    var dx, dy := Centered(x, Mean(x)), Centered(y, Mean(y));
    var xx, yy, xy := Dot(dx, dx), Dot(dy, dy), Dot(dx, dy);
    assert Times(r, r) == 1.0 by { TimesBy(r, r); }
    DotSelf(dx);
    PerfectIsParallel(xx, yy, xy);
    SpreadExpands(dx, dy, xx, xy);
    SpreadZero(dx, dy, xx, xy);
    ParallelIsAffine(x, y, xx, xy);
    SlopeSign(sign, xy, xx);
  }

  lemma SignOf(sign: real, a: real, s: real)
    requires (sign == 1.0 || sign == -1.0) && sign * a > 0.0 && s > 0.0
    ensures if sign == 1.0 then a * s > 0.0 else a * s < 0.0
  {
    MulSign(a, s);
    MulSign(s, a);
  }

  lemma SlopeSign(sign: real, xy: real, xx: real)
    requires xx > 0.0 && ((sign == 1.0 && xy > 0.0) || (sign == -1.0 && xy < 0.0))
    ensures sign * (xy / xx) > 0.0
  {
  }

  lemma PerfectOfAffine(x: seq<U64>, y: seq<U64>, r: real, sign: real, a: real, b: real)
    requires IsPearson(x, y, r) && x != [] && (sign == 1.0 || sign == -1.0)
    requires Comoment(x, x) != 0.0 && sign * a > 0.0 && Affine(x, y, a, b)
    ensures r == sign
  {
    hide Dot, Mean, Times, Affine;
    var dx, dy := Centered(x, Mean(x)), Centered(y, Mean(y));
    AffineCentered(x, y, a, b);
    DotScaled(dx, dy, a);
    DotSelf(dx);
    var s := Dot(dx, dx);
    ProductsOf(s, a, Dot(dy, dy));
    TimesSign(s, Dot(dy, dy));
    assert Dot(dy, dy) != 0.0 by {
      SquareZero(a * s);
      SignOf(sign, a, s);
      TimesZero(s);
    }
    SignOf(sign, a, s);
    assert Dot(dx, dy) == a * s;
    assert Times(Times(r, r), Times(s, Dot(dy, dy))) == Times(Dot(dx, dy), Dot(dx, dy));
    OneBySign(r, sign, a * s);
  }

  // ---- The coefficient itself, with the square root as a parameter ----

  ghost predicate IsRoot(root: real -> real) {
    forall t: real :: t >= 0.0 ==> root(t) >= 0.0 && Times(root(t), root(t)) == t
  }

  lemma RootedQuotient(cov: real, p: real, s: real)
    requires p > 0.0 && s >= 0.0 && Times(s, s) == p
    ensures s > 0.0
    ensures var r := cov / s;
            && Times(Times(r, r), p) == Times(cov, cov)
            && (r > 0.0 ==> cov > 0.0) && (r < 0.0 ==> cov < 0.0)
  {
    var r := cov / s;
    assert r * s == cov;
    assert r * r * (s * s) == r * s * (r * s);
    MulSign(s, r);
    MulSign(s, -r);
    assert s * -r == -(s * r);
  }

  method Correlation(x: seq<U64>, y: seq<U64>, root: real -> real) returns (r: real)
    requires |x| == |y| && IsRoot(root)
    ensures IsPearson(x, y, r)
  {
    hide Comoment, Times;
    if x == [] {
      return 0.0;
    }
    var cov, varX, varY := Moments(x, y);
    if varX == 0.0 || varY == 0.0 {
      return 0.0;
    }
    ComomentSelf(x);
    ComomentSelf(y);
    TimesPositive(varX, varY);
    RootedQuotient(cov, Times(varX, varY), root(Times(varX, varY)));
    r := cov / root(Times(varX, varY));
  }

  lemma ComomentSelf(x: seq<U64>)
    requires x != []
    ensures Comoment(x, x) >= 0.0
  {
    DotSelf(Centered(x, Mean(x)));
  }
}

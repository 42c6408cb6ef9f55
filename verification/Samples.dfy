/** Training samples, their recency weights and the weighted squared error of a group. */
module Samples {
  import opened Word

  /** Ids 0..8 are the split features; `sleepVarRatio` is carried along at id 9. */
  const NR_FEATURES := 9

  datatype Feats = Feats(
    prevBurst: U64, sleep: U64, ema: U64, ioWait: U32, wakeCnt: U32,
    wakeLatUs: U32, queueWaitUs: U32, sqEma: U64, sleepVarRatio: U32, gpuSubmit: U32)

  datatype Sample = Sample(pid: U32, feats: Feats, labelNs: U64)

  function FeatValue(f: Feats, id: nat): U64 {
    match id
    case 0 => f.prevBurst
    case 1 => f.sleep
    case 2 => f.ema
    case 3 => f.ioWait
    case 4 => f.wakeCnt
    case 5 => f.wakeLatUs
    case 6 => f.queueWaitUs
    case 7 => f.sqEma
    case 8 => f.gpuSubmit
    case 9 => f.sleepVarRatio
    case _ => 0
  }

  /** A sample with its recency weight. The weights are arbitrary positive reals here. */
  type Weight = w: real | w > 0.0 witness 1.0
  datatype Weighted = Weighted(sample: Sample, w: Weight)

  function Value(x: Weighted, id: nat): U64 { FeatValue(x.sample.feats, id) }

  function Label(x: Weighted): real { x.sample.labelNs as real }

  /** Count, weight, weighted label sum and weighted sum of squared labels of a group. */
  datatype Totals = Totals(n: nat, sw: real, swy: real, swy2: real)

  const NOTHING := Totals(0, 0.0, 0.0, 0.0)

  function Plus(t: Totals, x: Weighted): Totals {
    Totals(t.n + 1, t.sw + x.w, t.swy + x.w * Label(x), t.swy2 + x.w * Label(x) * Label(x))
  }

  function Minus(t: Totals, l: Totals): Totals
    requires l.n <= t.n
  {
    Totals(t.n - l.n, t.sw - l.sw, t.swy - l.swy, t.swy2 - l.swy2)
  }

  function LabelTotals(s: seq<Weighted>): (t: Totals)
    ensures t.n == |s|
    ensures t.sw >= 0.0 && (s != [] ==> t.sw > 0.0)
  {
    if s == [] then NOTHING else Plus(LabelTotals(s[..|s| - 1]), s[|s| - 1])
  }

  /** Running-sum squared error of a non-empty group. */
  function Sse(t: Totals): real
    requires t.sw > 0.0
  {
    t.swy2 - t.swy * t.swy / t.sw
  }

  function Mean(s: seq<Weighted>): real
    requires s != []
  {
    LabelTotals(s).swy / LabelTotals(s).sw
  }

  function SquaredDeviation(x: Weighted, m: real): real {
    x.w * (Label(x) - m) * (Label(x) - m)
  }

  /** Weighted sum of squared deviations from m. */
  function Deviation(s: seq<Weighted>, m: real): real {
    if s == [] then 0.0 else Deviation(s[..|s| - 1], m) + SquaredDeviation(s[|s| - 1], m)
  }

  /** The same sum, multiplied out. */
  function Expanded(t: Totals, m: real): real {
    t.swy2 - 2.0 * m * t.swy + m * m * t.sw
  }

  lemma ExpandedPlus(t: Totals, x: Weighted, m: real)
    ensures Expanded(Plus(t, x), m) == Expanded(t, m) + SquaredDeviation(x, m)
  {
    var y, wy, wm := Label(x), x.w * Label(x), x.w * m;
    assert x.w * (y - m) == wy - wm;
    assert (wy - wm) * (y - m) == wy * y - wy * m - wm * y + wm * m;
    assert wm * y == m * wy;
  }

  lemma {:induction false} DeviationExpands(s: seq<Weighted>, m: real)
    ensures Deviation(s, m) == Expanded(LabelTotals(s), m)
  {
    if s != [] {
      DeviationExpands(s[..|s| - 1], m);
      ExpandedPlus(LabelTotals(s[..|s| - 1]), s[|s| - 1], m);
    }
  }

  /** The running-sum error is the direct weighted error around the weighted mean. */
  lemma RunningSse(s: seq<Weighted>)
    requires s != []
    ensures Sse(LabelTotals(s)) == Deviation(s, Mean(s))
  {
    DeviationExpands(s, Mean(s));
    CompleteSquare(LabelTotals(s));
  }

  lemma CompleteSquare(t: Totals)
    requires t.sw > 0.0
    ensures Sse(t) == Expanded(t, t.swy / t.sw)
  {
    var m := t.swy / t.sw;
    assert m * t.sw == t.swy;
    assert m * m * t.sw == m * t.swy;
    assert t.swy * t.swy / t.sw == m * t.swy;
  }

  /** Weighted sum of signed deviations from m. */
  function SignedDeviation(s: seq<Weighted>, m: real): real {
    if s == [] then 0.0 else SignedDeviation(s[..|s| - 1], m) + s[|s| - 1].w * (Label(s[|s| - 1]) - m)
  }

  lemma Times(w: real, y: real, m: real)
    ensures w * (y - m) == w * y - m * w
  {
  }

  lemma {:induction false} SignedExpands(s: seq<Weighted>, m: real)
    ensures SignedDeviation(s, m) == LabelTotals(s).swy - m * LabelTotals(s).sw
  {
    if s != [] {
      SignedExpands(s[..|s| - 1], m);
      Times(s[|s| - 1].w, Label(s[|s| - 1]), m);
      Distributed(m, LabelTotals(s[..|s| - 1]).sw, s[|s| - 1].w);
    }
  }

  lemma Distributed(m: real, a: real, b: real)
    ensures m * (a + b) == m * a + m * b
  {
  }

  /** The mean is the one point around which the weighted deviations cancel. */
  lemma MeanBalances(s: seq<Weighted>, m: real)
    requires s != []
    ensures SignedDeviation(s, m) == 0.0 <==> m == Mean(s)
  {
    hide LabelTotals, SignedDeviation;
    SignedExpands(s, m);
    IsQuotient(LabelTotals(s).swy, LabelTotals(s).sw, m);
  }

  lemma IsQuotient(a: real, w: real, m: real)
    requires w > 0.0
    ensures a - m * w == 0.0 <==> m == a / w
  {
    var q := a / w;
    assert q * w == a;
    if m > q {
      assert (m - q) * w > 0.0;
      assert (m - q) * w == m * w - q * w;
    } else if m < q {
      assert (q - m) * w > 0.0;
      assert (q - m) * w == q * w - m * w;
    }
  }

  /** Away from that point the squared error grows by the whole weight times the squared distance. */
  lemma BalanceIsLeast(s: seq<Weighted>, m: real, c: real)
    requires SignedDeviation(s, m) == 0.0
    ensures Deviation(s, c) == Deviation(s, m) + (c - m) * (c - m) * LabelTotals(s).sw
    ensures Deviation(s, m) <= Deviation(s, c)
  {
    hide LabelTotals, Deviation, SignedDeviation;
    var t := LabelTotals(s);
    SignedExpands(s, m);
    DeviationExpands(s, m);
    DeviationExpands(s, c);
    SquareAround(c, m, t.sw, t.swy);
  }

  lemma SquareAround(c: real, m: real, sw: real, swy: real)
    requires swy == m * sw && sw >= 0.0
    ensures c * c * sw - 2.0 * c * swy == m * m * sw - 2.0 * m * swy + (c - m) * (c - m) * sw
    ensures (c - m) * (c - m) * sw >= 0.0
  {
    assert c * swy == c * m * sw && m * swy == m * m * sw;
    var d := c - m;
    assert d * d == c * c - 2.0 * (c * m) + m * m;
    assert d * d * sw == c * c * sw - 2.0 * (c * m) * sw + m * m * sw;
    assert d * d >= 0.0;
  }

  lemma ProductSign(w: Weight, d: real)
    ensures (d > 0.0 ==> w * d > 0.0) && (d < 0.0 ==> w * d < 0.0)
  {
  }

  /** With all labels on one side of a point the deviations from it have one sign. */
  lemma {:induction false} SignedSign(s: seq<Weighted>, m: real, above: bool)
    requires s != [] && forall x :: x in s ==> if above then Label(x) > m else Label(x) < m
    ensures if above then SignedDeviation(s, m) > 0.0 else SignedDeviation(s, m) < 0.0
  {
    hide Label;
    var front, x := s[..|s| - 1], s[|s| - 1];
    assert x in s;
    assert SignedDeviation(s, m) == SignedDeviation(front, m) + x.w * (Label(x) - m);
    ProductSign(x.w, Label(x) - m);
    if front != [] {
      assert forall y :: y in front ==> y in s;
      SignedSign(front, m, above);
    }
  }

  /** pred is the weighted mean label, truncated and capped at the largest prediction. */
  ghost predicate IsCappedMean(s: seq<Weighted>, pred: int) {
    exists m: real :: SignedDeviation(s, m) == 0.0 && pred == Min(m.Floor, U32_MAX)
  }

  /** So it lies between the smallest and the largest label, each capped. */
  lemma CappedMeanBetween(s: seq<Weighted>, pred: int, least: U64, most: U64)
    requires s != [] && IsCappedMean(s, pred)
    requires forall x :: x in s ==> least <= x.sample.labelNs <= most
    ensures Min(least, U32_MAX) <= pred <= Min(most, U32_MAX)
  {
    hide SignedDeviation;
    var m :| SignedDeviation(s, m) == 0.0 && pred == Min(m.Floor, U32_MAX);
    if m < least as real {
      SignedSign(s, m, true);
    } else if m > most as real {
      SignedSign(s, m, false);
    }
  }

  /** And there is one such prediction. */
  lemma CappedMeanUnique(s: seq<Weighted>, p: int, q: int)
    requires s != [] && IsCappedMean(s, p) && IsCappedMean(s, q)
    ensures p == q
  {
    hide SignedDeviation;
    var m :| SignedDeviation(s, m) == 0.0 && p == Min(m.Floor, U32_MAX);
    var n :| SignedDeviation(s, n) == 0.0 && q == Min(n.Floor, U32_MAX);
    MeanBalances(s, m);
    MeanBalances(s, n);
  }

  /** The samples a predicate keeps, in order. */
  function Keep(s: seq<Weighted>, p: Weighted -> bool): (r: seq<Weighted>)
    ensures forall x :: x in r ==> x in s && p(x)
    ensures |r| <= |s|
  {
    if s == [] then []
    else Keep(s[..|s| - 1], p) + if p(s[|s| - 1]) then [s[|s| - 1]] else []
  }

  /** The two sides of a split. */
  function AtOrBelow(id: nat, threshold: U64): Weighted -> bool {
    x => Value(x, id) <= threshold
  }

  function Above(id: nat, threshold: U64): Weighted -> bool {
    x => Value(x, id) > threshold
  }

  function LeftOf(s: seq<Weighted>, id: nat, threshold: U64): seq<Weighted> {
    Keep(s, AtOrBelow(id, threshold))
  }

  function RightOf(s: seq<Weighted>, id: nat, threshold: U64): seq<Weighted> {
    Keep(s, Above(id, threshold))
  }

  lemma {:induction false} KeepTwice(s: seq<Weighted>, p: Weighted -> bool, q: Weighted -> bool, both: Weighted -> bool)
    requires forall x :: both(x) <==> p(x) && q(x)
    ensures Keep(Keep(s, p), q) == Keep(s, both)
  {
    if s != [] {
      KeepTwice(s[..|s| - 1], p, q, both);
      var k, x := Keep(s[..|s| - 1], p), s[|s| - 1];
      if p(x) {
        assert (k + [x])[..|k + [x]| - 1] == k;
      } else {
        assert k + [] == k;
      }
    }
  }

  lemma {:induction false} KeepAll(s: seq<Weighted>, p: Weighted -> bool)
    requires forall x :: x in s ==> p(x)
    ensures Keep(s, p) == s
  {
    if s != [] {
      var front, x := s[..|s| - 1], s[|s| - 1];
      assert s == front + [x];
      assert forall y :: y in front ==> y in s;
      KeepAll(front, p);
      assert x in s;
    }
  }

  lemma {:induction false} KeepSame(s: seq<Weighted>, p: Weighted -> bool, q: Weighted -> bool)
    requires forall x :: x in s ==> (p(x) <==> q(x))
    ensures Keep(s, p) == Keep(s, q)
  {
    if s != [] {
      KeepSame(s[..|s| - 1], p, q);
    }
  }
}

/** Fixed-point exponential gauges: climb over a run, decay over a sleep, and the two system folds. */
module Ema {
  import opened Arithmetic
  import opened Word

  const SYS_HALF_LIFE: nat := 1_000_000_000
  const SYS_LAT_MAX: nat := 16_000_000
  const SYS_RATE_MAX: nat := 1_000_000
  const RATE_WINDOW_MIN: nat := 1_000_000_000
  const RATE_WINDOW_MAX: nat := 60_000_000_000
  const FITS: nat := 0x100_0000_0000_0000

  // ---- Climb ----

  /** Unsigned division of the target machine: by zero it yields zero. */
  function Div64(a: U64, b: U64): U64 {
    if b == 0 then 0 else Quotient(a, b)
  }

  function Quotient(a: nat, b: nat): (q: nat)
    requires b > 0
    ensures q <= a
  {
    QuotientBound(a, b);
    a / b
  }

  lemma QuotientBound(a: nat, b: nat)
    requires b > 0
    ensures a / b <= a
  {
    assert a == a / b * b + a % b;
    MulMono(1, b, a / b);
  }

  /** One run segment: the gauge closes part of its gap to the ceiling. */
  function EmaClimb(ema: U64, delta: U64, budgetMax: U64, alpha: U64): (r: U64)
    requires ema <= budgetMax
    ensures ema <= r <= budgetMax
  {
    var d := if delta > budgetMax then budgetMax else delta;
    var gap := budgetMax - ema;
    if gap == 0 then ema
    else
      var step := Div64(Mul64(Mul64(gap, d), alpha), Mul64(budgetMax, 256));
      ema + if step > gap then gap else step
  }

  lemma LargestProduct(gap: nat, delta: nat, budgetMax: nat, alpha: nat)
    requires gap <= budgetMax && delta <= budgetMax && alpha >= 1
    ensures 0 <= gap * delta <= budgetMax * budgetMax * alpha
    ensures 0 <= gap * delta * alpha <= budgetMax * budgetMax * alpha
  {
    var p, q := gap * delta, budgetMax * budgetMax;
    MulMono(gap, budgetMax, delta);
    MulMono(delta, budgetMax, budgetMax);
    MulMono(p, q, alpha);
    MulMono(1, alpha, q);
  }

  lemma Mul64Exact(a: U64, b: U64)
    requires 0 <= a * b < U64_SIZE
    ensures Mul64(a, b) == a * b
  {
  }

  /** Whenever the largest product of the formula fits a word, no intermediate product wraps. */
  lemma ClimbFits(ema: U64, delta: U64, budgetMax: U64, alpha: U64)
    requires ema <= budgetMax && delta <= budgetMax
    requires alpha >= 1 && budgetMax * budgetMax * alpha < U64_SIZE && budgetMax * 256 < U64_SIZE
    ensures var gap := budgetMax - ema;
            Mul64(Mul64(gap, delta), alpha) == gap * delta * alpha && Mul64(budgetMax, 256) == budgetMax * 256
  {
    hide Mul64;
    var gap: U64 := budgetMax - ema;
    LargestProduct(gap, delta, budgetMax, alpha);
    Mul64Exact(gap, delta);
    Mul64Exact(gap * delta, alpha);
    Mul64Exact(budgetMax, 256);
  }

  /** Over all gauges and runs of a ceiling no product wraps exactly if the two largest fit a word. */
  lemma ClimbFitsIff(budgetMax: U64, alpha: U64)
    requires alpha >= 1
    ensures (forall ema: U64, delta: U64 :: ema <= budgetMax && delta <= budgetMax ==>
               ClimbProductsFit(ema, delta, budgetMax, alpha))
            <==> budgetMax * budgetMax * alpha < U64_SIZE && budgetMax * 256 < U64_SIZE
  {
    hide Mul64;
    if budgetMax * budgetMax * alpha < U64_SIZE && budgetMax * 256 < U64_SIZE {
      forall ema: U64, delta: U64 | ema <= budgetMax && delta <= budgetMax
        ensures ClimbProductsFit(ema, delta, budgetMax, alpha)
      {
        ClimbFits(ema, delta, budgetMax, alpha);
      }
    } else if ClimbProductsFit(0, budgetMax, budgetMax, alpha) {
      FittingProducts(budgetMax, alpha);
    }
  }

  /** The climb's products are exact. */
  predicate ClimbProductsFit(ema: U64, delta: U64, budgetMax: U64, alpha: U64)
    requires ema <= budgetMax
  {
    var gap := budgetMax - ema;
    Mul64(Mul64(gap, delta), alpha) == gap * delta * alpha && Mul64(budgetMax, 256) == budgetMax * 256
  }

  lemma FittingProducts(budgetMax: U64, alpha: U64)
    requires ClimbProductsFit(0, budgetMax, budgetMax, alpha)
    ensures budgetMax * budgetMax * alpha < U64_SIZE && budgetMax * 256 < U64_SIZE
  {
    hide Mul64;
  }

  lemma QuotientIs(a: nat, b: nat)
    requires b > 0
    ensures Quotient(a, b) == a / b
  {
  }

  lemma ClimbIs(ema: U64, delta: U64, budgetMax: U64, alpha: U64)
    requires ema <= budgetMax && budgetMax > 0
    requires alpha >= 1 && budgetMax * budgetMax * alpha < U64_SIZE && budgetMax * 256 < U64_SIZE
    ensures EmaClimb(ema, delta, budgetMax, alpha) ==
            ema + Min(budgetMax - ema, (budgetMax - ema) * Min(delta, budgetMax) * alpha / (budgetMax * 256))
  {
    hide Mul64, Quotient;
    var gap, d, unit: nat := budgetMax - ema, Min(delta, budgetMax), budgetMax * 256;
    ClimbFits(ema, d, budgetMax, alpha);
    ProductNonNegative(gap, d, alpha);
    QuotientIs(gap * d * alpha, unit);
    if gap == 0 {
      DivMod(0, unit, 0);
    }
  }

  /** A longer run never climbs less; no run, no climb; with alpha of one or more a full budget saturates. */
  lemma ClimbFollowsTheRun(ema: U64, delta1: U64, delta2: U64, budgetMax: U64, alpha: U64)
    requires ema <= budgetMax && budgetMax > 0 && delta1 <= delta2
    requires alpha >= 1 && budgetMax * budgetMax * alpha < U64_SIZE && budgetMax * 256 < U64_SIZE
    ensures EmaClimb(ema, delta1, budgetMax, alpha) <= EmaClimb(ema, delta2, budgetMax, alpha)
    ensures delta1 == 0 ==> EmaClimb(ema, delta1, budgetMax, alpha) == ema
    ensures delta2 >= budgetMax && alpha >= 256 ==> EmaClimb(ema, delta2, budgetMax, alpha) == budgetMax
  {
    hide EmaClimb, Mul64;
    ClimbIs(ema, delta1, budgetMax, alpha);
    ClimbIs(ema, delta2, budgetMax, alpha);
    var gap, d1, d2, unit: nat := budgetMax - ema, Min(delta1, budgetMax), Min(delta2, budgetMax), budgetMax * 256;
    MulMono(d1, d2, gap);
    MulMono(gap * d1, gap * d2, alpha);
    ProductNonNegative(gap, d1, alpha);
    DivMono(gap * d1 * alpha, gap * d2 * alpha, unit);
    if delta1 == 0 {
      assert gap * d1 * alpha == 0;
      DivMod(0, unit, 0);
    }
    if delta2 >= budgetMax && alpha >= 256 {
      FullGap(gap, budgetMax, alpha);
    }
  }

  // ---- When the climb follows the run ----

  /** A longer run never climbs less, from any gauge under the ceiling. */
  ghost predicate ClimbsInOrder(budgetMax: U64, alpha: U64) {
    forall ema: U64, d1: U64, d2: U64 :: ema <= budgetMax && d1 <= d2 ==>
      EmaClimb(ema, d1, budgetMax, alpha) <= EmaClimb(ema, d2, budgetMax, alpha)
  }

  /** The climb from zero in terms of its reduced product. */
  lemma ClimbFromZero(d: U64, budgetMax: U64, alpha: U64, reduced: U64)
    requires 0 < budgetMax && d <= budgetMax && budgetMax * 256 < U64_SIZE
    requires Mul64(Mul64(budgetMax, d), alpha) == reduced
    ensures EmaClimb(0, d, budgetMax, alpha) == Min(budgetMax, reduced / (budgetMax * 256))
  {
    hide Mul64, Quotient;
    Mul64Exact(budgetMax, 256);
    QuotientIs(reduced, budgetMax * 256);
  }

  /** Reducing the first product does not change the reduced second. */
  lemma ReducedTwice(a: U64, b: U64, c: U64)
    requires 0 <= a * b * c < 2 * U64_SIZE
    ensures Mul64(Mul64(a, b), c) == if a * b * c < U64_SIZE then a * b * c else a * b * c - U64_SIZE
  {
    hide Mul64, Wrap;
    Mul64Wraps(a, b);
    Mul64Wraps(Mul64(a, b), c);
    WrapTimes(a * b, c);
    WrapOnce(a * b * c);
  }

  lemma Mul64Wraps(a: U64, b: U64)
    ensures Mul64(a, b) == Wrap(a * b)
  {
  }

  lemma WrapTimes(z: int, c: nat)
    ensures Wrap(Wrap(z) * c) == Wrap(z * c)
  {
    var q := z / U64_SIZE;
    assert z == q * U64_SIZE + Wrap(z);
    Distributed(q, U64_SIZE, Wrap(z), c);
    WrapPeriod(Wrap(z) * c, q * c);
  }

  lemma Distributed(q: int, m: int, w: int, c: int)
    ensures (q * m + w) * c == w * c + q * c * m
  {
  }

  lemma WrapOnce(z: nat)
    requires z < 2 * U64_SIZE
    ensures Wrap(z) == if z < U64_SIZE then z else z - U64_SIZE
  {
  }

  /** The last run whose product still fits, for ceiling times alpha equal to k. */
  lemma LastFitting(budgetMax: nat, alpha: nat, k: nat) returns (d: nat)
    requires k == budgetMax * alpha && 0 < k < U64_SIZE && budgetMax * k >= U64_SIZE
    ensures d < budgetMax && k * d < U64_SIZE <= k * (d + 1)
  {
    d := (U64_SIZE - 1) / k;
    assert U64_SIZE - 1 == d * k + (U64_SIZE - 1) % k;
    assert (d + 1) * k == d * k + k;
    MulMono(budgetMax, d, k);
  }

  lemma Rearranged(budgetMax: nat, d: nat, alpha: nat)
    ensures budgetMax * d * alpha == budgetMax * alpha * d
    ensures budgetMax * budgetMax * alpha == budgetMax * (budgetMax * alpha)
  {
  }

  /** Two numerators a unit or more apart have different quotients. */
  lemma UnitApart(p: nat, q: nat, unit: nat)
    requires unit > 0 && p >= q + unit
    ensures p / unit >= q / unit + 1
  {
    DivMono(q + unit, p, unit);
    var k := q / unit;
    assert q == k * unit + q % unit;
    assert q + unit == (k + 1) * unit + q % unit by {
      assert (k + 1) * unit == k * unit + unit;
    }
    DivMod(k + 1, unit, q % unit);
  }

  lemma BelowMultiple(q: nat, b: nat, unit: nat)
    requires unit > 0 && q < b * unit
    ensures q / unit < b
  {
    var k := q / unit;
    assert q == k * unit + q % unit;
    MulMono(b, k, unit);
  }

  /** Past the word the product of one more nanosecond wraps, and the climb falls. */
  lemma ClimbFalls(budgetMax: U64, alpha: U64) returns (d: U64)
    requires 0 < budgetMax && 1 <= alpha <= 256 * budgetMax && budgetMax * (alpha + 256) <= U64_SIZE
    requires budgetMax * budgetMax * alpha >= U64_SIZE
    ensures d + 1 <= budgetMax
    ensures EmaClimb(0, d + 1, budgetMax, alpha) < EmaClimb(0, d, budgetMax, alpha)
  {
    hide Mul64, EmaClimb;
    var k, unit: nat := budgetMax * alpha, budgetMax * 256;
    assert k + unit <= U64_SIZE && k > 0 by {
      assert budgetMax * (alpha + 256) == k + unit;
      MulMono(1, alpha, budgetMax);
    }
    Rearranged(budgetMax, 0, alpha);
    var n := LastFitting(budgetMax, alpha, k);
    d := n;
    NextProduct(k, n);
    Remainder(n, budgetMax, alpha, k);
    Remainder(n + 1, budgetMax, alpha, k);
    var p: U64, q: U64 := k * n, k * n + k - U64_SIZE;
    ClimbFromZero(n, budgetMax, alpha, p);
    ClimbFromZero(n + 1, budgetMax, alpha, q);
    UnitApart(p, q, unit);
    CeilingTimesUnit(budgetMax, alpha);
    BelowMultiple(q, budgetMax, unit);
  }

  /** k = B * alpha is at most B units of 256 * B. */
  lemma CeilingTimesUnit(budgetMax: nat, alpha: nat)
    requires alpha <= 256 * budgetMax
    ensures budgetMax * alpha <= budgetMax * (budgetMax * 256)
  {
    MulMono(alpha, 256 * budgetMax, budgetMax);
  }

  lemma Remainder(n: U64, budgetMax: U64, alpha: U64, k: nat)
    requires k == budgetMax * alpha && 0 <= k * n < 2 * U64_SIZE
    ensures Mul64(Mul64(budgetMax, n), alpha) == if k * n < U64_SIZE then k * n else k * n - U64_SIZE
  {
    hide Mul64;
    Rearranged(budgetMax, n, alpha);
    ReducedTwice(budgetMax, n, alpha);
  }

  lemma NextProduct(k: nat, n: nat)
    ensures k * (n + 1) == k * n + k && k * n >= 0
  {
  }

  /**
   * Exactly: while ceiling times alpha leaves room for one more unit in a word, a longer run never climbs
   * less if and only if the largest product of the formula fits a word.
   */
  lemma ClimbsInOrderIff(budgetMax: U64, alpha: U64)
    requires 0 < budgetMax && 1 <= alpha <= 256 * budgetMax && budgetMax * (alpha + 256) <= U64_SIZE
    ensures ClimbsInOrder(budgetMax, alpha) <==> budgetMax * budgetMax * alpha < U64_SIZE
  {
    hide EmaClimb, Mul64;
    if budgetMax * budgetMax * alpha < U64_SIZE {
      assert budgetMax * 256 < U64_SIZE by {
        assert budgetMax * (alpha + 256) == budgetMax * alpha + budgetMax * 256;
        MulMono(1, alpha, budgetMax);
      }
      forall ema: U64, d1: U64, d2: U64 | ema <= budgetMax && d1 <= d2
        ensures EmaClimb(ema, d1, budgetMax, alpha) <= EmaClimb(ema, d2, budgetMax, alpha)
      {
        ClimbFollowsTheRun(ema, d1, d2, budgetMax, alpha);
      }
    } else {
      var d := ClimbFalls(budgetMax, alpha);
      var e: U64, d1: U64, d2: U64 := 0, d, d + 1;
      assert EmaClimb(e, d1, budgetMax, alpha) > EmaClimb(e, d2, budgetMax, alpha);
    }
  }

  /** A ceiling of 100 ms at the default alpha is past it. */
  lemma HundredMillisecondsFalls()
    ensures !ClimbsInOrder(100_000_000, 3072)
  {
    hide ClimbsInOrder;
    ClimbsInOrderIff(100_000_000, 3072);
  }

  /** Far beyond, order can return: where the divisor itself wraps to zero, nothing climbs. */
  lemma NoClimbPastTheDivisor(budgetMax: U64, alpha: U64)
    requires Mul64(budgetMax, 256) == 0
    ensures ClimbsInOrder(budgetMax, alpha)
    ensures forall ema: U64, delta: U64 :: ema <= budgetMax ==> EmaClimb(ema, delta, budgetMax, alpha) == ema
  {
    hide Mul64;
  }

  lemma ProductNonNegative(a: nat, b: nat, c: nat)
    ensures a * b * c >= 0
  {
  }

  lemma FullGap(gap: nat, budgetMax: nat, alpha: nat)
    requires budgetMax > 0 && alpha >= 256
    ensures gap * budgetMax * alpha / (budgetMax * 256) >= gap
  {
    MulMono(256, alpha, gap * budgetMax);
    assert gap * budgetMax * 256 == gap * (budgetMax * 256);
    DivMod(gap, budgetMax * 256, 0);
    DivMono(gap * (budgetMax * 256), gap * budgetMax * alpha, budgetMax * 256);
  }

  // ---- Decay ----

  /** n >> p. */
  function Shr(n: nat, p: nat): nat {
    if p == 0 then n else Shr(n, p - 1) / 2
  }

  function AngleFp(sub: nat, halfLife: nat): nat
    requires sub < halfLife
  {
    sub * 256 / halfLife
  }

  /** 2^-x for the fraction x of a half-life, second order, in 1/256. */
  function FactorOf(x: nat): int {
    var a := x * 177 / 256;
    256 - a + a * a / 512
  }

  function Scale(n: nat, factor: nat): nat {
    n * factor / 256
  }

  function Factor(sub: nat, halfLife: nat): (f: nat)
    requires sub < halfLife
    ensures 140 <= f <= 256
  {
    AngleBound(sub, halfLife);
    FactorRange(AngleFp(sub, halfLife));
    FactorOf(AngleFp(sub, halfLife))
  }

  /** One sleep: whole half-lives shift, the rest scales. */
  function EmaDecay(ema: nat, sleepNs: nat, halfLife: nat): nat
    requires halfLife > 0
  {
    if sleepNs >= halfLife * 64 then 0
    else
      var sub, decayed := sleepNs % halfLife, Shr(ema, sleepNs / halfLife);
      if sub == 0 || decayed == 0 then decayed else Scale(decayed, Factor(sub, halfLife))
  }

  /** The same on words, every product reduced. */
  function EmaDecayWord(ema: U64, sleepNs: U64, halfLife: U64): (r: U64)
    requires halfLife > 0
  {
    if sleepNs >= Mul64(halfLife, 64) then 0
    else
      var sub, decayed := sleepNs % halfLife, ShrWord(ema, sleepNs / halfLife);
      if sub == 0 || decayed == 0 then decayed else Mul64(decayed, FactorWord(sub, halfLife)) / 256
  }

  function ShrWord(n: U64, p: nat): (r: U64)
    ensures r == Shr(n, p) <= n
  {
    ShrAnti(n, 0, p);
    Shr(n, p)
  }

  function AngleWord(sub: U64, halfLife: U64): (x: nat)
    requires sub < halfLife
    ensures x < 256
  {
    WordAngleBound(sub, halfLife);
    Quotient(Mul64(sub, 256), halfLife)
  }

  function FactorWord(sub: U64, halfLife: U64): (f: U64)
    requires sub < halfLife
    ensures 140 <= f <= 256
  {
    FactorRange(AngleWord(sub, halfLife));
    FactorOf(AngleWord(sub, halfLife))
  }

  lemma WordAngleBound(sub: U64, halfLife: U64)
    requires sub < halfLife
    ensures Quotient(Mul64(sub, 256), halfLife) < 256
  {
    hide Mul64, Quotient;
    AngleBound(sub, halfLife);
    Mul64Below(sub, 256);
    QuotientIs(Mul64(sub, 256), halfLife);
    DivMono(Mul64(sub, 256), sub * 256, halfLife);
  }

  lemma WrapBelow(z: nat)
    ensures Wrap(z) <= z
  {
  }

  lemma AngleBound(sub: nat, halfLife: nat)
    requires sub < halfLife
    ensures AngleFp(sub, halfLife) < 256
  {
    var x := AngleFp(sub, halfLife);
    assert x * halfLife <= sub * 256;
    if x >= 256 {
      MulMono(256, x, halfLife);
    }
  }

  lemma FactorStep(a: nat)
    requires a < 176
    ensures a * a / 512 <= (a + 1) * (a + 1) / 512 <= a * a / 512 + 1
  {
    assert (a + 1) * (a + 1) == a * a + 2 * a + 1;
  }

  lemma {:induction false} FactorAnti(a: nat, b: nat)
    requires a <= b <= 176
    ensures 256 - a + a * a / 512 >= 256 - b + b * b / 512
    decreases b
  {
    if a < b {
      FactorAnti(a, b - 1);
      FactorStep(b - 1);
    }
  }

  lemma FactorRange(x: nat)
    requires x < 256
    ensures 140 <= FactorOf(x) <= 256
  {
    FactorAnti(x * 177 / 256, 176);
    FactorAnti(0, x * 177 / 256);
  }

  /** A longer fraction scales by less. */
  lemma FactorAntitone(s1: nat, s2: nat, halfLife: nat)
    requires s1 <= s2 < halfLife
    ensures Factor(s1, halfLife) >= Factor(s2, halfLife)
  {
    AngleBound(s1, halfLife);
    AngleBound(s2, halfLife);
    DivMono(s1 * 256, s2 * 256, halfLife);
    var x1, x2 := AngleFp(s1, halfLife), AngleFp(s2, halfLife);
    DivMono(x1 * 177, x2 * 177, 256);
    FactorAnti(x1 * 177 / 256, x2 * 177 / 256);
  }

  lemma ScaleMono(n1: nat, f1: nat, n2: nat, f2: nat)
    requires n1 <= n2 && f1 <= f2
    ensures Scale(n1, f1) <= Scale(n2, f2)
  {
    MulMono(n1, n2, f1);
    MulMono(f1, f2, n2);
    DivMono(n1 * f1, n2 * f2, 256);
  }

  lemma ScaleBetween(n: nat, f: nat)
    requires 128 <= f <= 256
    ensures n / 2 <= Scale(n, f) <= n
  {
    ScaleMono(n, 128, n, f);
    ScaleMono(n, f, n, 256);
  }

  lemma {:induction false} ShrMono(a: nat, b: nat, p: nat)
    requires a <= b
    ensures Shr(a, p) <= Shr(b, p)
  {
    if p > 0 {
      ShrMono(a, b, p - 1);
    }
  }

  lemma {:induction false} ShrAnti(a: nat, p: nat, q: nat)
    requires p <= q
    ensures Shr(a, p) >= Shr(a, q)
    decreases q
  {
    if p < q {
      ShrAnti(a, p, q - 1);
    }
  }

  /** After p whole half-lives the gauge lies between its p-fold and its (p+1)-fold halving. */
  lemma DecayBetween(ema: nat, sleepNs: nat, halfLife: nat)
    requires halfLife > 0 && sleepNs < halfLife * 64
    ensures var p := sleepNs / halfLife;
            && Shr(ema, p + 1) <= EmaDecay(ema, sleepNs, halfLife) <= Shr(ema, p) <= ema
            && (sleepNs % halfLife == 0 ==> EmaDecay(ema, sleepNs, halfLife) == Shr(ema, p))
  {
    hide Factor, Scale;
    var p, sub := sleepNs / halfLife, sleepNs % halfLife;
    ShrAnti(ema, 0, p);
    FactorIs(sub, halfLife);
    ScaleBetween(Shr(ema, p), Factor(sub, halfLife));
  }

  lemma FactorIs(sub: nat, halfLife: nat)
    requires sub < halfLife
    ensures 140 <= Factor(sub, halfLife) <= 256
  {
  }

  lemma SamePeriod(s1: nat, s2: nat, halfLife: nat)
    requires halfLife > 0 && s1 <= s2 && s1 / halfLife == s2 / halfLife
    ensures s1 % halfLife <= s2 % halfLife
  {
  }

  /** Sleeping longer never leaves more, across all half-life boundaries. */
  lemma DecayAntitone(ema: nat, s1: nat, s2: nat, halfLife: nat)
    requires halfLife > 0 && s1 <= s2
    ensures EmaDecay(ema, s1, halfLife) >= EmaDecay(ema, s2, halfLife)
  {
    hide Factor, Scale, Shr;
    if s2 < halfLife * 64 {
      DivMono(s1, s2, halfLife);
      DecayBetween(ema, s1, halfLife);
      DecayBetween(ema, s2, halfLife);
      var p1, p2 := s1 / halfLife, s2 / halfLife;
      if p1 < p2 {
        ShrAnti(ema, p1 + 1, p2);
      } else {
        SamePeriod(s1, s2, halfLife);
        FactorAntitone(s1 % halfLife, s2 % halfLife, halfLife);
        ScaleMono(Shr(ema, p1), Factor(s2 % halfLife, halfLife), Shr(ema, p1), Factor(s1 % halfLife, halfLife));
      }
    }
  }

  /** A larger gauge stays the larger one. */
  lemma DecayMonotone(e1: nat, e2: nat, sleepNs: nat, halfLife: nat)
    requires halfLife > 0 && e1 <= e2
    ensures EmaDecay(e1, sleepNs, halfLife) <= EmaDecay(e2, sleepNs, halfLife)
  {
    hide Factor, Scale, Shr;
    if sleepNs < halfLife * 64 {
      var p, sub := sleepNs / halfLife, sleepNs % halfLife;
      ShrMono(e1, e2, p);
      ScaleMono(Shr(e1, p), Factor(sub, halfLife), Shr(e2, p), Factor(sub, halfLife));
    }
  }

  lemma DecayBelow(ema: nat, sleepNs: nat, halfLife: nat)
    requires halfLife > 0
    ensures EmaDecay(ema, sleepNs, halfLife) <= ema
  {
    hide Factor, Scale, Shr;
    if sleepNs < halfLife * 64 {
      DecayBetween(ema, sleepNs, halfLife);
    }
  }

  /** With gauge below and half-life up to 2^56 no product of the decay leaves a word. */
  lemma DecayFits(ema: nat, sleepNs: nat, halfLife: nat)
    requires 0 < halfLife <= FITS && ema < FITS
    ensures halfLife * 64 < U64_SIZE && sleepNs % halfLife * 256 < U64_SIZE
    ensures sleepNs < halfLife * 64 ==>
              Shr(ema, sleepNs / halfLife) * Factor(sleepNs % halfLife, halfLife) < U64_SIZE
  {
    hide Factor, Shr, EmaDecay;
    if sleepNs < halfLife * 64 {
      DecayBetween(ema, sleepNs, halfLife);
      FactorIs(sleepNs % halfLife, halfLife);
      SmallProduct(Shr(ema, sleepNs / halfLife), Factor(sleepNs % halfLife, halfLife));
    }
  }

  lemma SmallProduct(d: nat, f: nat)
    requires d < FITS && f <= 256
    ensures 0 <= d * f < U64_SIZE
  {
    MulMono(f, 256, d);
  }

  lemma FactorExact(sub: U64, halfLife: U64)
    requires sub < halfLife <= FITS
    ensures FactorWord(sub, halfLife) == Factor(sub, halfLife)
  {
    hide FactorOf, Mul64, Quotient;
    MulFits(sub, 256);
    QuotientIs(sub * 256, halfLife);
  }

  lemma ScaleExact(n: U64, f: U64)
    requires n < FITS && f <= 256
    ensures Mul64(n, f) / 256 == Scale(n, f)
  {
    hide Mul64;
    SmallProduct(n, f);
    MulFits(n, f);
  }

  /** So there the word-sized decay is the exact one. */
  lemma DecayIsExact(ema: U64, sleepNs: U64, halfLife: U64)
    requires 0 < halfLife <= FITS && ema < FITS
    ensures EmaDecayWord(ema, sleepNs, halfLife) == EmaDecay(ema, sleepNs, halfLife)
  {
    hide Shr, Mul64, Factor, FactorWord, Scale;
    MulFits(halfLife, 64);
    if sleepNs < halfLife * 64 {
      var sub, n := sleepNs % halfLife, ShrWord(ema, sleepNs / halfLife);
      FactorExact(sub, halfLife);
      FactorIs(sub, halfLife);
      ScaleExact(n, Factor(sub, halfLife));
    }
  }

  /** The bounds by halving hold of the code for every half-life, wrapping included. */
  lemma DecayWordBetween(ema: U64, sleepNs: U64, halfLife: U64)
    requires halfLife > 0 && ema < FITS && sleepNs < Mul64(halfLife, 64)
    ensures var p := sleepNs / halfLife;
            Shr(ema, p + 1) <= EmaDecayWord(ema, sleepNs, halfLife) <= Shr(ema, p)
  {
    hide Mul64, FactorWord, Scale;
    var sub, n := sleepNs % halfLife, ShrWord(ema, sleepNs / halfLife);
    FactorWordIs(sub, halfLife);
    ScaleExact(n, FactorWord(sub, halfLife));
    ScaleBetween(n, FactorWord(sub, halfLife));
  }

  /** And a larger gauge stays the larger one. */
  lemma DecayWordMonotone(e1: U64, e2: U64, sleepNs: U64, halfLife: U64)
    requires halfLife > 0 && e1 <= e2 < FITS
    ensures EmaDecayWord(e1, sleepNs, halfLife) <= EmaDecayWord(e2, sleepNs, halfLife)
  {
    hide Mul64, FactorWord, Scale, Shr;
    if sleepNs < Mul64(halfLife, 64) {
      var sub, p := sleepNs % halfLife, sleepNs / halfLife;
      FactorWordIs(sub, halfLife);
      var f := FactorWord(sub, halfLife);
      ShrMono(e1, e2, p);
      ScaleExact(ShrWord(e1, p), f);
      ScaleExact(ShrWord(e2, p), f);
      ScaleMono(Shr(e1, p), f, Shr(e2, p), f);
    }
  }

  lemma MulFits(a: U64, b: U64)
    requires 0 <= a * b
    ensures a * b < U64_SIZE ==> Mul64(a, b) == a * b
  {
  }

  /** For all words, wrapping included, a decay never leaves more than there was. */
  lemma DecayWordBelow(ema: U64, sleepNs: U64, halfLife: U64)
    requires halfLife > 0
    ensures EmaDecayWord(ema, sleepNs, halfLife) <= ema
  {
    hide Shr, FactorWord;
    if sleepNs < Mul64(halfLife, 64) {
      var sub, decayed := sleepNs % halfLife, ShrWord(ema, sleepNs / halfLife);
      if sub != 0 && decayed != 0 {
        FactorWordIs(sub, halfLife);
        ScaledWordBelow(decayed, FactorWord(sub, halfLife));
      }
    }
  }

  lemma FactorWordIs(sub: U64, halfLife: U64)
    requires sub < halfLife
    ensures 140 <= FactorWord(sub, halfLife) <= 256
  {
  }

  lemma ScaledWordBelow(n: U64, f: U64)
    requires f <= 256
    ensures Mul64(n, f) / 256 <= n
  {
    hide Mul64;
    MulMono(f, 256, n);
    Mul64Below(n, f);
    DivMono(Mul64(n, f), n * 256, 256);
    DivMod(n, 256, 0);
  }

  lemma Mul64Below(a: U64, b: U64)
    ensures Mul64(a, b) <= a * b
  {
    MulMono(0, a, b);
    WrapBelow(a * b);
  }

  /** The order in the sleep: a longer one leaves no more, for gauges below 2^56. */
  ghost predicate DecaysInOrder(halfLife: U64)
    requires halfLife > 0
  {
    forall e: U64, s1: U64, s2: U64 :: e < FITS && s1 <= s2 ==>
      EmaDecayWord(e, s2, halfLife) <= EmaDecayWord(e, s1, halfLife)
  }

  lemma ScaledWhole(f: U64)
    requires f <= 256
    ensures Mul64(256, f) / 256 == f
  {
  }

  /** The two angles on either side of the wrap: zero at 2^56, two or more just before. */
  lemma AnglesAtTheWrap(halfLife: U64)
    requires FITS < halfLife <= 0x8000_0000_0000_0000 - 128
    ensures AngleWord(FITS, halfLife) == 0 && 2 <= AngleWord(FITS - 1, halfLife) < 256
  {
    hide Quotient;
    assert Mul64(FITS, 256) == 0 && Mul64(FITS - 1, 256) == (FITS - 1) * 256;
    WordAngleBound(FITS - 1, halfLife);
    QuotientIs(0, halfLife);
    QuotientIs((FITS - 1) * 256, halfLife);
    DivMod(0, halfLife, 0);
    DivMod(2, halfLife, 0);
    DivMono(2 * halfLife, (FITS - 1) * 256, halfLife);
  }

  lemma FactorOfZero()
    ensures FactorOf(0) == FactorOf(1) == 256
  {
  }

  lemma FactorBelow(x: nat)
    requires 2 <= x < 256
    ensures FactorOf(x) < 256
  {
    FactorAnti(1, x * 177 / 256);
    FactorRange(x);
  }

  /** Past 2^56 the fraction wraps: where both sleeps are short of the cut-off, one longer leaves more. */
  lemma FractionWraps(halfLife: U64)
    requires FITS < halfLife <= 0x8000_0000_0000_0000 - 128 && FITS < Mul64(halfLife, 64)
    ensures EmaDecayWord(256, FITS, halfLife) == 256 > EmaDecayWord(256, FITS - 1, halfLife)
  {
    hide FactorOf, AngleWord, Mul64;
    DivMod(0, halfLife, FITS);
    DivMod(0, halfLife, FITS - 1);
    assert ShrWord(256, 0) == 256;
    AnglesAtTheWrap(halfLife);
    FactorOfZero();
    FactorBelow(AngleWord(FITS - 1, halfLife));
    ScaledWhole(256);
    ScaledWhole(FactorWord(FITS - 1, halfLife));
  }

  /** With a cut-off of at most 2^56 the sleeps before it are fractions of one half-life, none wraps. */
  lemma ShortCutOff(e: U64, s: U64, halfLife: U64)
    requires FITS < halfLife && Mul64(halfLife, 64) <= FITS && e < FITS && s < Mul64(halfLife, 64)
    ensures EmaDecayWord(e, s, halfLife) == if s == 0 || e == 0 then e else Scale(e, Factor(s, halfLife))
  {
    hide Mul64, Factor, FactorWord, Scale;
    DivMod(0, halfLife, s);
    assert ShrWord(e, 0) == e;
    if s != 0 {
      ShortFactor(s, halfLife);
      FactorIs(s, halfLife);
      ScaleExact(e, Factor(s, halfLife));
    }
  }

  lemma ShortFactor(sub: U64, halfLife: U64)
    requires sub < halfLife && sub < FITS
    ensures FactorWord(sub, halfLife) == Factor(sub, halfLife)
  {
    hide FactorOf, Mul64, Quotient;
    MulFits(sub, 256);
    QuotientIs(sub * 256, halfLife);
  }

  lemma ShortCutOffInOrder(e: U64, s1: U64, s2: U64, halfLife: U64)
    requires FITS < halfLife && Mul64(halfLife, 64) <= FITS && e < FITS && s1 <= s2
    ensures EmaDecayWord(e, s2, halfLife) <= EmaDecayWord(e, s1, halfLife)
  {
    hide Mul64, Factor, Scale;
    if s2 < Mul64(halfLife, 64) {
      hide EmaDecayWord;
      ShortCutOff(e, s1, halfLife);
      ShortCutOff(e, s2, halfLife);
      FactorIs(s1, halfLife);
      FactorIs(s2, halfLife);
      FactorAntitone(s1, s2, halfLife);
      ScaleMono(e, Factor(s2, halfLife), e, Factor(s1, halfLife));
      ScaleBetween(e, Factor(s2, halfLife));
    } else {
      DecayCutOff(e, s2, halfLife);
    }
  }

  lemma DecayCutOff(e: U64, s: U64, halfLife: U64)
    requires halfLife > 0 && s >= Mul64(halfLife, 64)
    ensures EmaDecayWord(e, s, halfLife) == 0
  {
  }

  /** Multiples of 256 are all a wrapped fraction can be, so for the longest half-lives its angle is 0 or 1. */
  lemma LongAngle(sub: U64, halfLife: U64)
    requires sub < halfLife && halfLife > 0x8000_0000_0000_0000 - 128
    ensures AngleWord(sub, halfLife) <= 1
  {
    hide Quotient;
    Times256(sub);
    QuotientIs(Mul64(sub, 256), halfLife);
    BelowMultiple(Mul64(sub, 256), 2, halfLife);
  }

  lemma Times256(x: U64)
    ensures Mul64(x, 256) <= U64_SIZE - 256
  {
    var z := x * 256;
    var k := z / U64_SIZE;
    assert z == k * U64_SIZE + Wrap(z);
    assert Wrap(z) == 256 * (x - k * 0x100_0000_0000_0000);
  }

  /** There a fraction scales by nothing, and only whole half-lives and the cut-off decay. */
  lemma LongHalfLife(e: U64, s: U64, halfLife: U64)
    requires halfLife > 0x8000_0000_0000_0000 - 128 && e < FITS && s < Mul64(halfLife, 64)
    ensures EmaDecayWord(e, s, halfLife) == Shr(e, s / halfLife)
  {
    hide FactorOf, AngleWord, Mul64, Shr;
    var sub, n := s % halfLife, ShrWord(e, s / halfLife);
    LongAngle(sub, halfLife);
    FactorOfZero();
    ScaleExact(n, 256);
  }

  lemma LongHalfLifeInOrder(e: U64, s1: U64, s2: U64, halfLife: U64)
    requires halfLife > 0x8000_0000_0000_0000 - 128 && e < FITS && s1 <= s2
    ensures EmaDecayWord(e, s2, halfLife) <= EmaDecayWord(e, s1, halfLife)
  {
    hide Mul64, Shr, EmaDecayWord;
    if s2 < Mul64(halfLife, 64) {
      LongHalfLife(e, s1, halfLife);
      LongHalfLife(e, s2, halfLife);
      DivMono(s1, s2, halfLife);
      ShrAnti(e, s1 / halfLife, s2 / halfLife);
    } else {
      DecayCutOff(e, s2, halfLife);
    }
  }

  /**
   * Exactly, over all half-lives a configuration may hold: a longer sleep never leaves more of a gauge
   * below 2^56 if and only if the half-life is at most 2^56, or its wrapped 64-fold is, or it is too
   * long for a fraction to count.
   */
  lemma DecaysInOrderIff(halfLife: U64)
    requires halfLife > 0
    ensures DecaysInOrder(halfLife) <==>
            halfLife <= FITS || Mul64(halfLife, 64) <= FITS || halfLife > 0x8000_0000_0000_0000 - 128
  {
    hide EmaDecayWord, Mul64;
    if halfLife <= FITS || Mul64(halfLife, 64) <= FITS || halfLife > 0x8000_0000_0000_0000 - 128 {
      forall e: U64, s1: U64, s2: U64 | e < FITS && s1 <= s2
        ensures EmaDecayWord(e, s2, halfLife) <= EmaDecayWord(e, s1, halfLife)
      {
        if halfLife <= FITS {
          DecayIsExact(e, s1, halfLife);
          DecayIsExact(e, s2, halfLife);
          DecayAntitone(e, s1, s2, halfLife);
        } else if Mul64(halfLife, 64) <= FITS {
          ShortCutOffInOrder(e, s1, s2, halfLife);
        } else {
          LongHalfLifeInOrder(e, s1, s2, halfLife);
        }
      }
    } else {
      FractionWraps(halfLife);
      var e: U64, s1: U64, s2: U64 := 256, FITS - 1, FITS;
      assert EmaDecayWord(e, s2, halfLife) > EmaDecayWord(e, s1, halfLife);
    }
  }

  /** The bound on the gauge is needed too: from 2^56 on the scaled product wraps. */
  lemma LargeGaugeWraps(halfLife: U64)
    requires 257 <= halfLife <= FITS
    ensures EmaDecayWord(FITS, 1, halfLife) == 0 < EmaDecayWord(FITS, halfLife - 1, halfLife)
  {
    hide FactorOf, Quotient;
    DivMod(0, halfLife, 1);
    DivMod(0, halfLife, halfLife - 1);
    QuotientIs(256, halfLife);
    DivMod(0, halfLife, 256);
    FactorOfZero();
    assert ShrWord(FITS, 0) == FITS;
    FactorWordIs(halfLife - 1, halfLife);
    LastAngle(halfLife);
    FactorBelow(AngleWord(halfLife - 1, halfLife));
  }

  lemma LastAngle(halfLife: U64)
    requires 257 <= halfLife <= FITS
    ensures 2 <= AngleWord(halfLife - 1, halfLife) < 256
  {
    hide Quotient, Mul64;
    WordAngleBound(halfLife - 1, halfLife);
    MulFits(halfLife - 1, 256);
    QuotientIs((halfLife - 1) * 256, halfLife);
    DivMod(2, halfLife, 0);
    DivMono(2 * halfLife, (halfLife - 1) * 256, halfLife);
  }

  // ---- The latency fold ----

  function LatAverage(waitTotal: nat, waitCount: nat): (avg: nat)
    requires waitCount > 0
    ensures avg <= SYS_LAT_MAX
  {
    Min(waitTotal / waitCount, SYS_LAT_MAX)
  }

  /** What is left of 256 parts. */
  function Left(elapsed: nat): (f: nat)
    ensures f <= 256
  {
    DecayBelow(256, elapsed, SYS_HALF_LIFE);
    EmaDecay(256, elapsed, SYS_HALF_LIFE)
  }

  /** Decayed gauge plus the share of the window's average that replaces it. */
  function LatBlend(latEma: nat, avg: nat, elapsed: nat): nat {
    EmaDecay(latEma, elapsed, SYS_HALF_LIFE) + Scale(avg, 256 - Left(elapsed))
  }

  function LatFold(latEma: nat, waitTotal: nat, waitCount: nat, elapsed: nat): nat {
    if waitCount == 0 then latEma
    else Min(LatBlend(latEma, LatAverage(waitTotal, waitCount), elapsed), SYS_LAT_MAX)
  }

  function Pow2(p: nat): (r: nat)
    ensures r > 0
  {
    if p == 0 then 1 else 2 * Pow2(p - 1)
  }

  /** Shifting right by p divides by its power of two. */
  lemma {:induction false} ShrIsQuotient(n: nat, p: nat)
    ensures Shr(n, p) == n / Pow2(p)
  {
    if p > 0 {
      ShrIsQuotient(n, p - 1);
      DivTwice(n, Pow2(p - 1));
    }
  }

  lemma DivTwice(n: nat, w: nat)
    requires w > 0
    ensures n / w / 2 == n / (2 * w)
  {
    var q := n / w;
    assert n == q * w + n % w;
    HalvesOf(q / 2, q % 2, w, n % w);
    DivMod(q / 2, 2 * w, q % 2 * w + n % w);
  }

  lemma HalvesOf(h: nat, odd: nat, w: nat, r: nat)
    requires odd < 2 && r < w
    ensures (2 * h + odd) * w + r == h * (2 * w) + (odd * w + r)
    ensures 0 <= odd * w + r < 2 * w
  {
  }

  /**
   * One sleep in numbers: whole half-lives divide by powers of two, and the fraction x of a half-life, in
   * 1/256, scales by 1 - a + a^2/2 for a = x ln 2 with ln 2 taken as 177/256.
   */
  lemma DecayInNumbers(ema: nat, sleepNs: nat, halfLife: nat, x: nat, a: nat)
    requires halfLife > 0 && x == sleepNs % halfLife * 256 / halfLife && a == x * 177 / 256
    ensures sleepNs >= 64 * halfLife ==> EmaDecay(ema, sleepNs, halfLife) == 0
    ensures sleepNs < 64 * halfLife ==>
              EmaDecay(ema, sleepNs, halfLife) == ema / Pow2(sleepNs / halfLife) * (256 - a + a * a / 512) / 256
  {
    hide Shr, Factor, FactorOf;
    var sub, n := sleepNs % halfLife, ema / Pow2(sleepNs / halfLife);
    ShrIsQuotient(ema, sleepNs / halfLife);
    if sub == 0 {
      DivMod(0, halfLife, 0);
    } else {
      FactorInNumbers(sub, halfLife, x, a);
    }
  }

  lemma FactorInNumbers(sub: nat, halfLife: nat, x: nat, a: nat)
    requires sub < halfLife && x == sub * 256 / halfLife && a == x * 177 / 256
    ensures Factor(sub, halfLife) == 256 - a + a * a / 512
  {
  }

  lemma {:induction false} ShrPow(n: nat, p: nat)
    ensures Shr(n, p) * Pow2(p) <= n
  {
    if p > 0 {
      ShrPow(n, p - 1);
      Halve(Shr(n, p - 1), Pow2(p - 1));
    }
  }

  lemma Halve(s: nat, w: nat)
    ensures s / 2 * (2 * w) <= s * w
  {
    assert s / 2 * (2 * w) == s / 2 * 2 * w;
    MulMono(s / 2 * 2, s, w);
  }

  /** 256 halves exactly eight times. */
  lemma Shr256(p: nat)
    requires p <= 8
    ensures Shr(256, p) * Pow2(p) == 256
  {
    assert Shr(256, 1) == 128 && Shr(256, 2) == 64 && Shr(256, 3) == 32 && Shr(256, 4) == 16;
    assert Shr(256, 5) == 8 && Shr(256, 6) == 4 && Shr(256, 7) == 2 && Shr(256, 8) == 1;
    assert Pow2(1) == 2 && Pow2(2) == 4 && Pow2(3) == 8 && Pow2(4) == 16;
    assert Pow2(5) == 32 && Pow2(6) == 64 && Pow2(7) == 128 && Pow2(8) == 256;
  }

  lemma {:induction false} Gone(p: nat)
    requires p > 8
    ensures Shr(256, p) == 0 && Pow2(p) >= 512
  {
    if p == 9 {
      Shr256(8);
      assert Shr(256, 4) == 16 && Shr(256, 8) == 1 && Pow2(4) == 16 && Pow2(8) == 256;
    } else {
      Gone(p - 1);
    }
  }

  lemma MulBoth(a: nat, b: nat, c: nat, d: nat)
    requires a <= b && c <= d
    ensures a * c <= b * d
  {
    MulMono(a, b, c);
    MulMono(c, d, b);
  }

  /** 65536 parts of the decayed gauge against what is left of 256 parts, rounding included. */
  lemma DecayAgainstLeft(lat: nat, m: nat, elapsed: nat)
    requires lat <= m
    ensures 65536 * EmaDecay(lat, elapsed, SYS_HALF_LIFE) <= m * (256 * Left(elapsed) + 255)
  {
    hide Shr, Pow2, Factor;
    if elapsed < SYS_HALF_LIFE * 64 {
      var p, sub := elapsed / SYS_HALF_LIFE, elapsed % SYS_HALF_LIFE;
      ShrPow(lat, p);
      if p > 8 {
        Gone(p);
        DecayBetween(lat, elapsed, SYS_HALF_LIFE);
        MulBoth(EmaDecay(lat, elapsed, SYS_HALF_LIFE), Shr(lat, p), 512, Pow2(p));
        MulBoth(128, 256 * Left(elapsed) + 255, m, m);
      } else {
        Shr256(p);
        var f := if sub == 0 then 256 else Factor(sub, SYS_HALF_LIFE);
        var d := EmaDecay(lat, elapsed, SYS_HALF_LIFE);
        ScaledAgainstLeft(Shr(lat, p), Shr(256, p), Pow2(p), m, f, d, Left(elapsed));
      }
    }
  }

  lemma ScaledAgainstLeft(s: nat, h: nat, w: nat, m: nat, f: nat, d: nat, left: nat)
    requires h * w == 256 && s * w <= m && 256 * d <= s * f && h * f <= 256 * left + 255
    ensures 65536 * d <= m * (256 * left + 255)
  {
    MulBoth(s * w, m, h * f, 256 * left + 255);
    Regroup(s, w, h, f);
  }

  lemma Regroup(s: nat, w: nat, h: nat, f: nat)
    requires h * w == 256
    ensures s * w * (h * f) == 256 * (s * f)
  {
    assert s * w * (h * f) == h * w * (s * f);
  }

  lemma Blended(d: nat, rise: nat, avg: nat, m: nat, left: nat)
    requires left <= 256 && avg <= m && rise == Scale(avg, 256 - left)
    requires 65536 * d <= m * (256 * left + 255)
    ensures 65536 * (d + rise) <= 65791 * m
  {
    MulMono(avg, m, 256 - left);
    assert 256 * rise <= avg * (256 - left);
    assert m * (256 * left + 255) + 256 * (m * (256 - left)) == 65791 * m;
  }

  /** The latency fold exceeds the larger of its inputs by less than 1/256, before its cap. */
  lemma LatOvershoot(lat: nat, avg: nat, elapsed: nat)
    ensures var m := Max(lat, avg);
            && 256 * LatBlend(lat, avg, elapsed) <= 257 * m
            && (m > 0 ==> 256 * LatBlend(lat, avg, elapsed) < 257 * m)
  {
    hide EmaDecay, Left, Scale;
    var m := Max(lat, avg);
    DecayAgainstLeft(lat, m, elapsed);
    LeftAtMost(elapsed);
    Blended(EmaDecay(lat, elapsed, SYS_HALF_LIFE), Scale(avg, 256 - Left(elapsed)), avg, m, Left(elapsed));
  }

  lemma {:induction false} ShrPowBelow(n: nat, p: nat)
    ensures n < (Shr(n, p) + 1) * Pow2(p)
  {
    if p > 0 {
      ShrPowBelow(n, p - 1);
      HalfUp(Shr(n, p - 1), Pow2(p - 1));
    }
  }

  lemma HalfUp(s: nat, w: nat)
    ensures (s + 1) * w <= (s / 2 + 1) * (2 * w)
  {
    assert (s / 2 + 1) * (2 * w) == (s / 2 + 1) * 2 * w;
    MulMono(s + 1, (s / 2 + 1) * 2, w);
  }

  /** The decayed gauge from below, rounding included, for less than nine whole half-lives. */
  lemma DecayAtLeast(lat: nat, elapsed: nat)
    ensures 65536 * EmaDecay(lat, elapsed, SYS_HALF_LIFE) + 130816 >= lat * (256 * Left(elapsed))
  {
    hide Shr, Pow2, Factor;
    if elapsed < SYS_HALF_LIFE * 64 {
      var p, sub := elapsed / SYS_HALF_LIFE, elapsed % SYS_HALF_LIFE;
      ShrPowBelow(lat, p);
      if p > 8 {
        Gone(p);
      } else {
        Shr256(p);
        var f := if sub == 0 then 256 else Factor(sub, SYS_HALF_LIFE);
        var d := EmaDecay(lat, elapsed, SYS_HALF_LIFE);
        ScaledAtLeast(Shr(lat, p), Shr(256, p), Pow2(p), lat, f, d, Left(elapsed));
      }
    }
  }

  lemma ScaledAtLeast(s: nat, h: nat, w: nat, lat: nat, f: nat, d: nat, left: nat)
    requires h * w == 256 && lat < (s + 1) * w && f <= 256 && 256 * d + 255 >= s * f && 256 * left <= h * f
    ensures 65536 * d + 130816 >= lat * (256 * left)
  {
    MulBoth(lat, (s + 1) * w, 256 * left, h * f);
    Regroup(s + 1, w, h, f);
    assert (s + 1) * f == s * f + f;
  }

  lemma BlendedAtLeast(d: nat, rise: nat, lat: nat, avg: nat, left: nat)
    requires left <= 256 && rise == Scale(avg, 256 - left)
    requires 65536 * d + 130816 >= lat * (256 * left)
    ensures d + rise + 2 >= Min(lat, avg)
  {
    var m := Min(lat, avg);
    MulMono(m, avg, 256 - left);
    MulMono(m, lat, 256 * left);
    assert 256 * rise + 255 >= avg * (256 - left);
    assert m * (256 * left) + 256 * (m * (256 - left)) == 65536 * m;
  }

  /** Nor does it fall more than two below the smaller of them: equal inputs are a fixed point but for rounding. */
  lemma LatUndershoot(lat: nat, avg: nat, elapsed: nat)
    ensures LatBlend(lat, avg, elapsed) + 2 >= Min(lat, avg)
  {
    hide EmaDecay, Left, Scale;
    DecayAtLeast(lat, elapsed);
    LeftAtMost(elapsed);
    BlendedAtLeast(EmaDecay(lat, elapsed, SYS_HALF_LIFE), Scale(avg, 256 - Left(elapsed)), lat, avg, Left(elapsed));
  }

  /** The two weights of a fold: all on the gauge at once, half after a half-life, none after 64. */
  lemma LeftEnds(elapsed: nat)
    ensures Left(0) == 256 && Left(1_000_000_000) == 128 && Left(2_000_000_000) == 64
    ensures elapsed >= 64_000_000_000 ==> Left(elapsed) == 0
  {
    assert Shr(256, 1) == 128 && Shr(256, 2) == 64;
  }

  /** And the weight of the gauge never grows with the time between two folds. */
  lemma LeftAntitone(e1: nat, e2: nat)
    requires e1 <= e2
    ensures Left(e1) >= Left(e2)
  {
    DecayAntitone(256, e1, e2, SYS_HALF_LIFE);
  }

  /**
   * The latency fold is the mean of gauge and window average in those weights, up to 1/256 of the gauge
   * upward and three downward.
   */
  lemma LatWeighted(lat: nat, avg: nat, elapsed: nat)
    ensures var v, left := LatBlend(lat, avg, elapsed), Left(elapsed);
            && 256 * v <= lat * left + avg * (256 - left) + lat
            && lat * left + avg * (256 - left) <= 256 * v + 766
  {
    hide EmaDecay, Left;
    DecayAgainstLeft(lat, lat, elapsed);
    DecayAtLeast(lat, elapsed);
    var d, left := EmaDecay(lat, elapsed, SYS_HALF_LIFE), Left(elapsed);
    Spread(lat, left);
  }

  lemma Spread(lat: nat, left: nat)
    ensures lat * (256 * left + 255) == 256 * (lat * left) + 255 * lat
    ensures lat * (256 * left) == 256 * (lat * left)
  {
  }

  /** The fold in numbers: nothing without an episode, else that mean with the average, both capped at 16 ms. */
  lemma LatFoldCapped(lat: nat, waitTotal: nat, waitCount: nat, elapsed: nat)
    ensures waitCount == 0 ==> LatFold(lat, waitTotal, waitCount, elapsed) == lat
    ensures waitCount > 0 ==>
              LatFold(lat, waitTotal, waitCount, elapsed)
              == Min(16_000_000, LatBlend(lat, Min(16_000_000, waitTotal / waitCount), elapsed))
  {
  }

  lemma LeftAtMost(elapsed: nat)
    ensures Left(elapsed) <= 256
  {
  }

  // ---- The rate fold ----

  function RateNow(wakeups: U32, elapsed: nat): (r: nat)
    ensures r <= SYS_RATE_MAX * 256
  {
    var window := Max(RATE_WINDOW_MIN, Min(elapsed, RATE_WINDOW_MAX));
    Min(wakeups * 1_000_000_000 / window, SYS_RATE_MAX) * 256
  }

  function RateStep(rateEma: nat, wakeups: U32, elapsed: nat): nat {
    var window := Max(RATE_WINDOW_MIN, Min(elapsed, RATE_WINDOW_MAX));
    Scale(rateEma, Left(window)) + Scale(RateNow(wakeups, elapsed), 256 - Left(window))
  }

  lemma Convex(a: nat, b: nat, left: nat)
    requires left <= 256
    ensures Scale(a, left) + Scale(b, 256 - left) <= Max(a, b)
    ensures Scale(a, left) + Scale(b, 256 - left) + 1 >= Min(a, b)
  {
    var m, k := Max(a, b), Min(a, b);
    MulMono(a, m, left);
    MulMono(b, m, 256 - left);
    assert m * left + m * (256 - left) == 256 * m;
    MulMono(k, a, left);
    MulMono(k, b, 256 - left);
    assert k * left + k * (256 - left) == 256 * k;
  }

  /** The rate fold lies between the gauge and the measured rate, but for one unit of rounding down. */
  lemma RateBetween(rateEma: nat, wakeups: U32, elapsed: nat)
    ensures Min(rateEma, RateNow(wakeups, elapsed)) - 1 <= RateStep(rateEma, wakeups, elapsed)
    ensures RateStep(rateEma, wakeups, elapsed) <= Max(rateEma, RateNow(wakeups, elapsed))
  {
    hide Left, Scale, RateNow;
    var window := Max(RATE_WINDOW_MIN, Min(elapsed, RATE_WINDOW_MAX));
    LeftAtMost(window);
    Convex(rateEma, RateNow(wakeups, elapsed), Left(window));
  }

  /**
   * It is their mean in the weights of the window, which is the time since the last fold moved into one
   * to 60 seconds: the measured rate is the wakeups per second, at most a million, in 1/256.
   */
  lemma RateWeighted(rateEma: nat, wakeups: U32, elapsed: nat)
    ensures var window := Max(1_000_000_000, Min(elapsed, 60_000_000_000));
            var left, now := Left(window), Min(1_000_000, wakeups * 1_000_000_000 / window) * 256;
            var v := RateStep(rateEma, wakeups, elapsed);
            && left <= 128
            && 256 * v <= rateEma * left + now * (256 - left) <= 256 * v + 510
  {
    hide Left;
    var window := Max(1_000_000_000, Min(elapsed, 60_000_000_000));
    LeftEnds(window);
    LeftAntitone(1_000_000_000, window);
  }

  // ---- Whole runs ----

  datatype Gauges = Gauges(ema: U64, lat: nat, rate: nat)

  datatype Event =
    | Ran(delta: U64)
    | Slept(ns: U64)
    | LatFolded(waitTotal: U64, waitCount: U64, elapsed: U64)
    | RateFolded(wakeups: U32, elapsed: U64)

  predicate Bounded(g: Gauges, budgetMax: U64) {
    g.ema <= budgetMax && g.lat <= SYS_LAT_MAX && g.rate <= SYS_RATE_MAX * 256
  }

  function After(g: Gauges, e: Event, budgetMax: U64, alpha: U64, halfLife: U64): (g': Gauges)
    requires Bounded(g, budgetMax) && halfLife > 0
    ensures Bounded(g', budgetMax)
  {
    DecayWordBelow(g.ema, if e.Slept? then e.ns else 0, halfLife);
    RateBetween(g.rate, if e.RateFolded? then e.wakeups else 0, if e.RateFolded? then e.elapsed else 0);
    match e
    case Ran(delta) => g.(ema := EmaClimb(g.ema, delta, budgetMax, alpha))
    case Slept(ns) => g.(ema := EmaDecayWord(g.ema, ns, halfLife))
    case LatFolded(waitTotal, waitCount, elapsed) => g.(lat := LatFold(g.lat, waitTotal, waitCount, elapsed))
    case RateFolded(wakeups, elapsed) => g.(rate := RateStep(g.rate, wakeups, elapsed))
  }

  function AfterAll(g: Gauges, es: seq<Event>, budgetMax: U64, alpha: U64, halfLife: U64): (g': Gauges)
    requires Bounded(g, budgetMax) && halfLife > 0
    ensures Bounded(g', budgetMax)
  {
    if es == [] then g
    else After(AfterAll(g, es[..|es| - 1], budgetMax, alpha, halfLife), es[|es| - 1], budgetMax, alpha, halfLife)
  }

  /** No product of either fold leaves a word while the gauges are within their ceilings. */
  lemma FoldsFit(g: Gauges, avg: nat, wakeups: U32, left: nat)
    requires Bounded(g, U64_SIZE - 1) && avg <= SYS_LAT_MAX && left <= 256
    ensures g.lat * 256 < U64_SIZE && avg * (256 - left) < U64_SIZE
    ensures g.rate * left < U64_SIZE && SYS_RATE_MAX * 256 * (256 - left) < U64_SIZE
    ensures wakeups * 1_000_000_000 < U64_SIZE
  {
    MulBoth(avg, SYS_LAT_MAX, 256 - left, 256);
    MulBoth(g.rate, SYS_RATE_MAX * 256, left, 256);
  }
}

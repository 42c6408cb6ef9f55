/** The threshold controller: a slew-limited shift and four band edges clamped to disjoint ranges. */
module Adapt {
  import opened Word
  import Ema

  const TARGET_LAT: U64 := 1_000_000
  const K: U64 := 128
  const MAX_SHIFT := 128
  const MAX_STEP := 25
  const RATE_GATE_HIGH: U64 := 51_200_000
  const RATE_GATE_SHIFT := 64

  /** A band's hard floor and ceiling. */
  datatype Range = Range(floor: U64, ceil: U64)

  const T_L := Range(150_000, 500_000)
  const T_H := Range(1_200_000, 3_200_000)
  const T_INT := Range(600_000, 1_600_000)
  const T_BND := Range(1_800_000, 4_800_000)

  /** The configured band edges. */
  datatype Bases = Bases(tL: U64, tH: U64, tInt: U64, tBnd: U64)

  /** The shift in 1/256 and the effective band edges. */
  datatype Bands = Bands(shift: int, tL: U64, tH: U64, tInt: U64, tBnd: U64)

  predicate ValidBases(b: Bases) {
    0 < b.tL < b.tH && 0 < b.tInt < b.tBnd
  }

  // ---- The control law ----

  /** Proportional widening above the target latency, capped, and capped lower in a wakeup storm. */
  function ShiftTarget(latEma: U64, rateEma: U64): (t: int)
    ensures 0 <= t <= MAX_SHIFT
    ensures rateEma > RATE_GATE_HIGH ==> t <= RATE_GATE_SHIFT
  {
    var err := Signed(Sub64(latEma, TARGET_LAT));
    var mag: U64 := if err < 0 then 0 else err;
    var scaled := Mul64(mag, K) / TARGET_LAT;
    var capped := Min(scaled, MAX_SHIFT);
    if rateEma > RATE_GATE_HIGH && capped > RATE_GATE_SHIFT then RATE_GATE_SHIFT else capped
  }

  /** A higher latency never asks for narrower bands; at or below the target none are widened. */
  lemma TargetFollowsLatency(lat1: U64, lat2: U64, rateEma: U64)
    requires lat1 <= lat2 <= 16_000_000
    ensures ShiftTarget(lat1, rateEma) <= ShiftTarget(lat2, rateEma)
    ensures lat1 <= TARGET_LAT ==> ShiftTarget(lat1, rateEma) == 0
    ensures lat1 >= 2 * TARGET_LAT && rateEma <= RATE_GATE_HIGH ==> ShiftTarget(lat1, rateEma) == MAX_SHIFT
  {
  }

  /** In numbers, for every latency the gauge can hold. */
  lemma TargetInNumbers(lat: U64, rateEma: U64)
    requires lat <= 16_000_000
    ensures ShiftTarget(lat, rateEma) ==
            Min(if rateEma > 51_200_000 then 64 else 128, Max(0, lat - 1_000_000) * 128 / 1_000_000)
  {
  }

  function Slew(prev: int, target: int): int {
    prev + Max(-MAX_STEP, Min(MAX_STEP, target - prev))
  }

  function SlewTimes(prev: int, target: int, n: nat): int {
    if n == 0 then prev else Slew(SlewTimes(prev, target, n - 1), target)
  }

  function Distance(a: int, b: int): nat {
    if a <= b then b - a else a - b
  }

  /** Each step closes exactly 25 of the distance to a constant target, until it is reached. */
  lemma {:induction false} SlewCloses(prev: int, target: int, n: nat)
    ensures Distance(SlewTimes(prev, target, n), target) == Max(0, Distance(prev, target) - MAX_STEP * n)
  {
    if n > 0 {
      SlewCloses(prev, target, n - 1);
    }
  }

  /** Six steps always suffice within the shift range, and five do not. */
  lemma SixStepsSettle(prev: int, target: int)
    requires 0 <= prev <= MAX_SHIFT && 0 <= target <= MAX_SHIFT
    ensures SlewTimes(prev, target, 6) == target
    ensures SlewTimes(0, MAX_SHIFT, 5) != MAX_SHIFT
  {
    SlewCloses(prev, target, 6);
    SlewCloses(0, MAX_SHIFT, 5);
  }

  /** The shifted base, clamped; the word arithmetic may wrap, the clamp is on its signed reading. */
  function Band(base: U64, shift: int, range: Range): (e: U64)
    requires -MAX_SHIFT <= shift <= MAX_SHIFT && range.floor <= range.ceil < U63_SIZE
    ensures range.floor <= e <= range.ceil
  {
    var mag: U64 := if shift < 0 then -shift else shift;
    var scaled := Mul64(base, mag) / 256;
    var v := Signed(if shift < 0 then Sub64(base, scaled) else Add64(base, scaled));
    if v < range.floor then range.floor else if v > range.ceil then range.ceil else v
  }

  /** For bases whose products fit a word: the base scaled by 1 + shift/256, moved into its range. */
  lemma BandIsClampedScale(base: U64, shift: int, range: Range)
    requires 0 <= shift <= MAX_SHIFT && range.floor <= range.ceil < U63_SIZE && base < 0x80_0000_0000_0000
    ensures Band(base, shift, range) == Max(range.floor, Min(range.ceil, base + base * shift / 256))
    ensures shift == 0 && range.floor <= base <= range.ceil ==> Band(base, shift, range) == base
  {
    Product(base, shift);
  }

  lemma Product(base: nat, shift: nat)
    requires base < 0x80_0000_0000_0000 && shift <= 128
    ensures 0 <= base * shift <= base * 128
  {
  }

  /** A wider shift never lowers a band edge. */
  lemma BandMonotone(base: U64, s1: int, s2: int, range: Range)
    requires 0 <= s1 <= s2 <= MAX_SHIFT && range.floor <= range.ceil < U63_SIZE && base < 0x80_0000_0000_0000
    ensures Band(base, s1, range) <= Band(base, s2, range)
  {
    hide Band;
    BandIsClampedScale(base, s1, range);
    BandIsClampedScale(base, s2, range);
    Ordered(base, s1, s2);
  }

  lemma Ordered(base: nat, s1: nat, s2: nat)
    requires s1 <= s2
    ensures base * s1 / 256 <= base * s2 / 256
  {
    assert base * s1 <= base * s2;
  }

  // ---- One step ----

  function Initial(b: Bases): Bands {
    Bands(0, b.tL, b.tH, b.tInt, b.tBnd)
  }

  function Stepped(s: Bands, b: Bases, latEma: U64, rateEma: U64): Bands
    requires 0 <= s.shift <= MAX_SHIFT
  {
    var shift := Slew(s.shift, ShiftTarget(latEma, rateEma));
    Bands(shift, Band(b.tL, shift, T_L), Band(b.tH, shift, T_H), Band(b.tInt, shift, T_INT), Band(b.tBnd, shift, T_BND))
  }

  class AdaptState {
    var shiftFp: int
    var tLEff: U64
    var tHEff: U64
    var tIntEff: U64
    var tBndEff: U64
    var rateEma: nat
    var adaptSteps: U64

    ghost function Contents(): Bands
      reads this
    {
      Bands(shiftFp, tLEff, tHEff, tIntEff, tBndEff)
    }

    constructor (b: Bases)
      ensures Contents() == Initial(b) == Bands(0, b.tL, b.tH, b.tInt, b.tBnd) && rateEma == adaptSteps == 0
    {
      rateEma, adaptSteps := 0, 0;
      shiftFp, tLEff, tHEff, tIntEff, tBndEff := 0, b.tL, b.tH, b.tInt, b.tBnd;
    }

    /** Fold the wakeups of the window into the rate gauge, then slew and recompute the bands. */
    method AdaptStep(b: Bases, latEma: U64, folded: U64, elapsed: U64)
      requires 0 <= shiftFp <= MAX_SHIFT && rateEma <= Ema.SYS_RATE_MAX * 256
      modifies this
      ensures rateEma == Ema.RateStep(old(rateEma), folded % 0x1_0000_0000, elapsed) <= Ema.SYS_RATE_MAX * 256
      ensures adaptSteps == Add64(old(adaptSteps), 1)
      ensures Contents() == Stepped(old(Contents()), b, latEma, rateEma)
    {
      hide ShiftTarget, Band, Ema.RateStep;
      var wakeups: U32 := folded % 0x1_0000_0000;
      RateFits(rateEma, wakeups, elapsed);
      rateEma := Ema.RateStep(rateEma, wakeups, elapsed);
      adaptSteps := Add64(adaptSteps, 1);
      TargetInRange(latEma, rateEma);
      var target := ShiftTarget(latEma, rateEma);
      var step := target - shiftFp;
      if step > MAX_STEP {
        step := MAX_STEP;
      }
      if step < -MAX_STEP {
        step := -MAX_STEP;
      }
      shiftFp := shiftFp + step;
      tLEff := Band(b.tL, shiftFp, T_L);
      tHEff := Band(b.tH, shiftFp, T_H);
      tIntEff := Band(b.tInt, shiftFp, T_INT);
      tBndEff := Band(b.tBnd, shiftFp, T_BND);
    }
  }

  lemma RateFits(rateEma: nat, wakeups: U32, elapsed: nat)
    requires rateEma <= Ema.SYS_RATE_MAX * 256
    ensures Ema.RateStep(rateEma, wakeups, elapsed) <= Ema.SYS_RATE_MAX * 256
  {
    hide Ema.RateStep;
    Ema.RateBetween(rateEma, wakeups, elapsed);
  }

  // ---- Whole runs ----

  /** The gauges one step reads. */
  datatype Reading = Reading(latEma: U64, rateEma: U64)

  predicate Within(e: U64, range: Range) {
    range.floor <= e <= range.ceil
  }

  /** Band edges in order and, once stepped, each inside its hard range. */
  predicate Sound(s: Bands, stepped: bool) {
    && 0 <= s.shift <= MAX_SHIFT && s.tL < s.tH && s.tInt < s.tBnd
    && (stepped ==> Within(s.tL, T_L) && Within(s.tH, T_H) && Within(s.tInt, T_INT) && Within(s.tBnd, T_BND))
  }

  lemma StepIsSound(s: Bands, b: Bases, latEma: U64, rateEma: U64)
    requires 0 <= s.shift <= MAX_SHIFT
    ensures Sound(Stepped(s, b, latEma, rateEma), true)
    ensures Distance(s.shift, Stepped(s, b, latEma, rateEma).shift) <= MAX_STEP
  {
    hide ShiftTarget, Band;
    var t := ShiftTarget(latEma, rateEma);
    TargetInRange(latEma, rateEma);
    var shift := Slew(s.shift, t);
    BandInRange(b.tL, shift, T_L);
    BandInRange(b.tH, shift, T_H);
    BandInRange(b.tInt, shift, T_INT);
    BandInRange(b.tBnd, shift, T_BND);
  }

  lemma TargetInRange(latEma: U64, rateEma: U64)
    ensures 0 <= ShiftTarget(latEma, rateEma) <= MAX_SHIFT
  {
  }

  lemma BandInRange(base: U64, shift: int, range: Range)
    requires -MAX_SHIFT <= shift <= MAX_SHIFT && range.floor <= range.ceil < U63_SIZE
    ensures Within(Band(base, shift, range), range)
  {
  }

  ghost function After(b: Bases, readings: seq<Reading>): (s: Bands)
    requires ValidBases(b)
    ensures Sound(s, readings != [])
  {
    if readings == [] then Initial(b)
    else
      var before, r := After(b, readings[..|readings| - 1]), readings[|readings| - 1];
      StepIsSound(before, b, r.latEma, r.rateEma);
      Stepped(before, b, r.latEma, r.rateEma)
  }

  /** n equal readings. */
  function Repeat(r: Reading, n: nat): (s: seq<Reading>)
    ensures |s| == n
  {
    if n == 0 then [] else Repeat(r, n - 1) + [r]
  }

  lemma {:induction false} SteadyShift(b: Bases, readings: seq<Reading>, r: Reading, n: nat)
    requires ValidBases(b)
    ensures After(b, readings + Repeat(r, n)).shift ==
            SlewTimes(After(b, readings).shift, ShiftTarget(r.latEma, r.rateEma), n)
  {
    hide ShiftTarget, Band;
    if n == 0 {
      assert readings + Repeat(r, 0) == readings;
    } else {
      SteadyShift(b, readings, r, n - 1);
      var all := readings + Repeat(r, n);
      assert all[..|all| - 1] == readings + Repeat(r, n - 1);
    }
  }

  /** From any reachable state six equal readings settle the controller on their target. */
  lemma SettlesInSixSteps(b: Bases, readings: seq<Reading>, r: Reading)
    requires ValidBases(b)
    ensures After(b, readings + Repeat(r, 6)).shift == ShiftTarget(r.latEma, r.rateEma)
  {
    hide ShiftTarget, SlewTimes, Band;
    TargetInRange(r.latEma, r.rateEma);
    SteadyShift(b, readings, r, 6);
    SixStepsSettle(After(b, readings).shift, ShiftTarget(r.latEma, r.rateEma));
  }

  // ---- The edges follow the shift ----

  /** Bases below 2^55 (1.1 years): no product of a band leaves a word. */
  predicate SmallBases(b: Bases) {
    b.tH < 0x80_0000_0000_0000 && b.tBnd < 0x80_0000_0000_0000
  }

  /** Each edge is its own base, widened by shift/256 and moved into its own range. */
  predicate EdgesAt(s: Bands, b: Bases, shift: nat) {
    && s.tL == Max(150_000, Min(500_000, b.tL + b.tL * shift / 256))
    && s.tH == Max(1_200_000, Min(3_200_000, b.tH + b.tH * shift / 256))
    && s.tInt == Max(600_000, Min(1_600_000, b.tInt + b.tInt * shift / 256))
    && s.tBnd == Max(1_800_000, Min(4_800_000, b.tBnd + b.tBnd * shift / 256))
  }

  /** After every non-empty series of steps the edges are those of the shift reached. */
  lemma EdgesFollowShift(b: Bases, readings: seq<Reading>)
    requires ValidBases(b) && SmallBases(b) && readings != []
    ensures EdgesAt(After(b, readings), b, After(b, readings).shift)
  {
    hide ShiftTarget, Band;
    var shift := After(b, readings).shift;
    BandIsClampedScale(b.tL, shift, T_L);
    BandIsClampedScale(b.tH, shift, T_H);
    BandIsClampedScale(b.tInt, shift, T_INT);
    BandIsClampedScale(b.tBnd, shift, T_BND);
  }

  /** After six equal readings of a latency up to 16 ms they are those of the target, whatever came before. */
  lemma SettledEdges(b: Bases, readings: seq<Reading>, r: Reading)
    requires ValidBases(b) && SmallBases(b) && r.latEma <= 16_000_000
    ensures var cap, over := if r.rateEma > 51_200_000 then 64 else 128, Max(0, r.latEma - 1_000_000);
            EdgesAt(After(b, readings + Repeat(r, 6)), b, Min(cap, over * 128 / 1_000_000))
  {
    hide ShiftTarget, Band, EdgesAt;
    TargetInNumbers(r.latEma, r.rateEma);
    SettlesInSixSteps(b, readings, r);
    EdgesFollowShift(b, readings + Repeat(r, 6));
  }

  /** So a higher steady latency at the same wakeup rate never leaves a lower edge. */
  lemma HigherLatencyWidens(b: Bases, before1: seq<Reading>, before2: seq<Reading>, r1: Reading, r2: Reading)
    requires ValidBases(b) && SmallBases(b)
    requires r1.latEma <= r2.latEma <= 16_000_000 && r1.rateEma == r2.rateEma
    ensures var s1, s2 := After(b, before1 + Repeat(r1, 6)), After(b, before2 + Repeat(r2, 6));
            s1.tL <= s2.tL && s1.tH <= s2.tH && s1.tInt <= s2.tInt && s1.tBnd <= s2.tBnd
  {
    hide ShiftTarget, Band, After;
    TargetInRange(r1.latEma, r1.rateEma);
    var t1, t2 := ShiftTarget(r1.latEma, r1.rateEma), ShiftTarget(r2.latEma, r2.rateEma);
    TargetFollowsLatency(r1.latEma, r2.latEma, r1.rateEma);
    SettlesInSixSteps(b, before1, r1);
    SettlesInSixSteps(b, before2, r2);
    EdgesFollowShift(b, before1 + Repeat(r1, 6));
    EdgesFollowShift(b, before2 + Repeat(r2, 6));
    Ordered(b.tL, t1, t2);
    Ordered(b.tH, t1, t2);
    Ordered(b.tInt, t1, t2);
    Ordered(b.tBnd, t1, t2);
  }
}

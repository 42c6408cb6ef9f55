/** The one-pass split search: sorted sweep per feature with running label sums. */
module BestSplit {
  import opened Word
  import opened Wrappers
  import opened Samples

  datatype Split = Split(feature: nat, threshold: U64)

  // ---- What a split is worth, stated on the two groups themselves ----

  /** Error a split removes, or None when a side is empty or below the leaf minimum. */
  function Gain(s: seq<Weighted>, id: nat, threshold: U64, minLeaf: nat, sse: real): Option<real> {
    var l, r := LeftOf(s, id, threshold), RightOf(s, id, threshold);
    if l == [] || r == [] || |l| < minLeaf || |r| < minLeaf then None
    else Some(sse - Deviation(l, Mean(l)) - Deviation(r, Mean(r)))
  }

  predicate AtMost(gain: Option<real>, bound: real) {
    gain.Some? ==> gain.value <= bound
  }

  predicate Below(gain: Option<real>, bound: real) {
    gain.Some? ==> gain.value < bound
  }

  /** Order of the sweep: features first, then the size of the left group. */
  predicate Earlier(s: seq<Weighted>, id: nat, t: U64, best: Split) {
    || id < best.feature
    || (id == best.feature && |LeftOf(s, id, t)| < |LeftOf(s, id, best.threshold)|)
  }

  /** The threshold is the midpoint of the gap between the two groups. */
  ghost predicate MidGap(s: seq<Weighted>, sp: Split) {
    exists a, b ::
      && a in LeftOf(s, sp.feature, sp.threshold) && b in RightOf(s, sp.feature, sp.threshold)
      && (forall x :: x in LeftOf(s, sp.feature, sp.threshold) ==> Value(x, sp.feature) <= Value(a, sp.feature))
      && (forall x :: x in RightOf(s, sp.feature, sp.threshold) ==> Value(b, sp.feature) <= Value(x, sp.feature))
      && sp.threshold == Midpoint(Value(a, sp.feature), Value(b, sp.feature))
  }

  /**
   * The optimality of the search, over all features below `nr` and all 64-bit thresholds: the
   * best gain above the required one, first in sweep order among equals; or nothing above it.
   */
  ghost predicate IsBest(s: seq<Weighted>, minLeaf: nat, sse: real, minRelReduction: real, nr: nat,
                         best: Option<Split>) {
    IsBestAbove(s, minLeaf, sse, sse * minRelReduction, nr, best)
  }

  ghost predicate IsBestAbove(s: seq<Weighted>, minLeaf: nat, sse: real, required: real, nr: nat,
                              best: Option<Split>) {
    match best
    case None => forall id: nat, t: U64 :: id < nr ==> AtMost(Gain(s, id, t, minLeaf, sse), required)
    case Some(sp) =>
      && sp.feature < nr
      && var g := Gain(s, sp.feature, sp.threshold, minLeaf, sse);
         && g.Some? && g.value > required && MidGap(s, sp)
         && (forall id: nat, t: U64 :: id < nr ==> AtMost(Gain(s, id, t, minLeaf, sse), g.value))
         && (forall id: nat, t: U64 :: Earlier(s, id, t, sp) ==> Below(Gain(s, id, t, minLeaf, sse), g.value))
  }

  // ---- The same on running sums ----

  /** Overflow-safe midpoint of two distinct values. */
  function Midpoint(v: U64, w: U64): (m: U64)
    requires v < w
    ensures v <= m < w && 2 * m <= v + w <= 2 * m + 1
  {
    v + (w - v) / 2
  }

  function LeftTotals(s: seq<Weighted>, id: nat, t: U64): Totals {
    LabelTotals(LeftOf(s, id, t))
  }

  /** The gain read off the totals of the node and of its left group. */
  function RunningGain(all: Totals, l: Totals, minLeaf: nat, sse: real): Option<real>
    requires l.n <= all.n
  {
    var r := Minus(all, l);
    if l.n < minLeaf || r.n < minLeaf || l.n == 0 || r.n == 0 || l.sw <= 0.0 || r.sw <= 0.0 then None
    else Some(sse - Sse(l) - Sse(r))
  }

  lemma NoSides(id: nat, t: U64)
    ensures LeftTotals([], id, t) == NOTHING == LabelTotals(RightOf([], id, t)) == Minus(LabelTotals([]), NOTHING)
  {
  }

  lemma PlusMinus(t: Totals, l: Totals, x: Weighted)
    requires l.n <= t.n
    ensures Minus(Plus(t, x), Plus(l, x)) == Minus(t, l)
    ensures Minus(Plus(t, x), l) == Plus(Minus(t, l), x)
  {
  }

  lemma TotalsSnoc(s: seq<Weighted>, x: Weighted)
    ensures LabelTotals(s + [x]) == Plus(LabelTotals(s), x)
  {
    assert (s + [x])[..|s|] == s;
  }

  lemma NoTotals()
    ensures LabelTotals([]) == NOTHING
  {
  }

  lemma {:induction false} SidesAddUp(s: seq<Weighted>, id: nat, t: U64)
    ensures LeftTotals(s, id, t).n <= |s|
    ensures LabelTotals(RightOf(s, id, t)) == Minus(LabelTotals(s), LeftTotals(s, id, t))
  {
    hide LabelTotals, Keep, Plus, Minus;
    if s == [] {
      NoSides(id, t);
    } else {
      var front, x := s[..|s| - 1], s[|s| - 1];
      SidesAddUp(front, id, t);
      assert s == front + [x];
      TotalsSnoc(front, x);
      KeepSnoc(front, x, AtOrBelow(id, t));
      KeepSnoc(front, x, Above(id, t));
      PlusMinus(LabelTotals(front), LeftTotals(front, id, t), x);
    }
  }

  lemma GroupTotals(s: seq<Weighted>)
    ensures LabelTotals(s).n == |s|
    ensures s != [] ==> LabelTotals(s).sw > 0.0 && Sse(LabelTotals(s)) == Deviation(s, Mean(s))
  {
    hide LabelTotals, Sse, Deviation, Mean;
    if s != [] {
      RunningSse(s);
    }
  }

  lemma GainRuns(s: seq<Weighted>, id: nat, t: U64, minLeaf: nat, sse: real)
    ensures LeftTotals(s, id, t).n <= |s|
    ensures Gain(s, id, t, minLeaf, sse) == RunningGain(LabelTotals(s), LeftTotals(s, id, t), minLeaf, sse)
  {
    hide LabelTotals, LeftOf, RightOf, Deviation, Sse, Mean, Minus;
    SidesAddUp(s, id, t);
    GroupTotals(s);
    GroupTotals(LeftOf(s, id, t));
    GroupTotals(RightOf(s, id, t));
  }

  // ---- Stable sort by one feature ----

  predicate Sorted(s: seq<Weighted>, id: nat) {
    forall i, j :: 0 <= i < j < |s| ==> Value(s[i], id) <= Value(s[j], id)
  }

  function Insert(x: Weighted, s: seq<Weighted>, id: nat): (r: seq<Weighted>)
    requires Sorted(s, id)
    ensures |r| == |s| + 1 && Sorted(r, id)
    ensures forall y :: y in r <==> y == x || y in s
  {
    if s == [] || Value(s[|s| - 1], id) <= Value(x, id) then s + [x]
    else
      var r := Insert(x, s[..|s| - 1], id);
      assert s == s[..|s| - 1] + [s[|s| - 1]];
      assert forall y :: y in r ==> Value(y, id) <= Value(s[|s| - 1], id);
      r + [s[|s| - 1]]
  }

  function SortBy(s: seq<Weighted>, id: nat): (r: seq<Weighted>)
    ensures |r| == |s| && Sorted(r, id)
    ensures forall y :: y in r <==> y in s
  {
    if s == [] then []
    else
      assert s == s[..|s| - 1] + [s[|s| - 1]];
      Insert(s[|s| - 1], SortBy(s[..|s| - 1], id), id)
  }

  lemma {:induction false} InsertTotals(x: Weighted, s: seq<Weighted>, id: nat, p: Weighted -> bool)
    requires Sorted(s, id)
    ensures LabelTotals(Keep(Insert(x, s, id), p)) ==
            if p(x) then Plus(LabelTotals(Keep(s, p)), x) else LabelTotals(Keep(s, p))
  {
    hide LabelTotals, Keep;
    var r := Insert(x, s, id);
    if s == [] || Value(s[|s| - 1], id) <= Value(x, id) {
      assert r[..|r| - 1] == s;
      KeepSnoc(s, x, p);
    } else {
      var front, y := s[..|s| - 1], s[|s| - 1];
      InsertTotals(x, front, id, p);
      assert s == front + [y] && r == Insert(x, front, id) + [y];
      KeepSnoc(front, y, p);
      KeepSnoc(Insert(x, front, id), y, p);
    }
  }

  lemma KeepSnoc(s: seq<Weighted>, x: Weighted, p: Weighted -> bool)
    ensures LabelTotals(Keep(s + [x], p)) ==
            if p(x) then Plus(LabelTotals(Keep(s, p)), x) else LabelTotals(Keep(s, p))
  {
    assert (s + [x])[..|s|] == s;
    var k := Keep(s, p);
    assert (k + [x])[..|k|] == k && k + [] == k;
  }

  /** Sorting keeps the totals of every group. */
  lemma {:induction false} SortTotals(s: seq<Weighted>, id: nat, p: Weighted -> bool)
    ensures LabelTotals(Keep(SortBy(s, id), p)) == LabelTotals(Keep(s, p))
  {
    if s != [] {
      var front, x := s[..|s| - 1], s[|s| - 1];
      SortTotals(front, id, p);
      InsertTotals(x, SortBy(front, id), id, p);
      assert s == front + [x];
      KeepSnoc(front, x, p);
    }
  }

  lemma {:induction false} KeepPrefix(s: seq<Weighted>, j: nat, p: Weighted -> bool)
    requires j <= |s|
    requires forall i :: 0 <= i < |s| ==> (p(s[i]) <==> i < j)
    ensures Keep(s, p) == s[..j]
  {
    if s != [] {
      var front := s[..|s| - 1];
      if j == |s| {
        KeepPrefix(front, j - 1, p);
        assert s[..j] == front[..j - 1] + [s[j - 1]];
      } else {
        KeepPrefix(front, j, p);
        assert s[..j] == front[..j] + [];
      }
    }
  }

  /** A threshold between positions j - 1 and j of the sorted samples splits off the first j. */
  lemma SweepPoint(s: seq<Weighted>, id: nat, j: nat, t: U64)
    requires j <= |s|
    requires j > 0 ==> Value(SortBy(s, id)[j - 1], id) <= t
    requires j < |s| ==> t < Value(SortBy(s, id)[j], id)
    ensures LeftTotals(s, id, t) == LabelTotals(SortBy(s, id)[..j])
  {
    hide LabelTotals, Keep, SortBy;
    var sorted := SortBy(s, id);
    SortTotals(s, id, AtOrBelow(id, t));
    KeepPrefix(sorted, j, AtOrBelow(id, t));
  }

  datatype Best = Best(split: Split, reduction: real)

  function SplitOf(b: Option<Best>): Option<Split> {
    if b.Some? then Some(b.value.split) else None
  }

  function Bound(b: Option<Best>, required: real): real {
    if b.Some? then b.value.reduction else required
  }

  /** All thresholds of feature id below `upto` (None: all) gain at most the bound. */
  ghost predicate Swept(s: seq<Weighted>, id: nat, upto: Option<U64>, minLeaf: nat, sse: real, bound: real) {
    forall t: U64 :: (upto.Some? ==> t < upto.value) ==> AtMost(Gain(s, id, t, minLeaf, sse), bound)
  }

  /** State of the sweep between two groups of equal values: IsBest over what was swept. */
  ghost predicate BestSoFar(s: seq<Weighted>, minLeaf: nat, sse: real, required: real,
                            id: nat, upto: Option<U64>, best: Option<Best>) {
    && Swept(s, id, upto, minLeaf, sse, Bound(best, required))
    && (forall f: nat, t: U64 :: f < id ==> AtMost(Gain(s, f, t, minLeaf, sse), Bound(best, required)))
    && (best.Some? ==>
          var sp := best.value.split;
          && sp.feature <= id
          && Gain(s, sp.feature, sp.threshold, minLeaf, sse) == Some(best.value.reduction)
          && best.value.reduction > required && MidGap(s, sp)
          && forall f: nat, t: U64 :: Earlier(s, f, t, sp) ==>
               Below(Gain(s, f, t, minLeaf, sse), best.value.reduction))
  }

  function Upto(sorted: seq<Weighted>, id: nat, i: nat): Option<U64> {
    if i < |sorted| then Some(Value(sorted[i], id)) else None
  }

  /** A group boundary at j extends the swept range to the next value. */
  lemma SweepGroup(s: seq<Weighted>, id: nat, i: nat, j: nat, minLeaf: nat, sse: real, bound: real)
    requires i < j <= |s| && (j < |s| ==> Value(SortBy(s, id)[i], id) < Value(SortBy(s, id)[j], id))
    requires forall k :: i <= k < j ==> Value(SortBy(s, id)[k], id) == Value(SortBy(s, id)[i], id)
    requires Swept(s, id, Some(Value(SortBy(s, id)[i], id)), minLeaf, sse, bound)
    requires AtMost(RunningGain(LabelTotals(s), LabelTotals(SortBy(s, id)[..j]), minLeaf, sse), bound)
    ensures Swept(s, id, Upto(SortBy(s, id), id, j), minLeaf, sse, bound)
  {
    var sorted := SortBy(s, id);
    forall t: U64 | j < |s| ==> t < Value(sorted[j], id)
      ensures AtMost(Gain(s, id, t, minLeaf, sse), bound)
    {
      if t >= Value(sorted[i], id) {
        SweepPoint(s, id, j, t);
        GainRuns(s, id, t, minLeaf, sse);
      }
    }
  }

  lemma MidGapHolds(s: seq<Weighted>, id: nat, j: nat)
    requires 0 < j < |s| && Value(SortBy(s, id)[j - 1], id) < Value(SortBy(s, id)[j], id)
    ensures var t := Midpoint(Value(SortBy(s, id)[j - 1], id), Value(SortBy(s, id)[j], id));
            && LeftTotals(s, id, t) == LabelTotals(SortBy(s, id)[..j])
            && MidGap(s, Split(id, t))
  {
    hide LabelTotals, Keep, SortBy;
    var sorted := SortBy(s, id);
    var t := Midpoint(Value(sorted[j - 1], id), Value(sorted[j], id));
    SweepPoint(s, id, j, t);
    InKeep(s, sorted[j - 1], AtOrBelow(id, t));
    InKeep(s, sorted[j], Above(id, t));
    forall x | x in s
      ensures Value(x, id) <= t ==> Value(x, id) <= Value(sorted[j - 1], id)
      ensures Value(x, id) > t ==> Value(sorted[j], id) <= Value(x, id)
    {
      assert x in sorted;
      var k :| 0 <= k < |sorted| && sorted[k] == x;
    }
  }

  lemma {:induction false} InKeep(s: seq<Weighted>, x: Weighted, p: Weighted -> bool)
    requires x in s && p(x)
    ensures x in Keep(s, p)
  {
    if x != s[|s| - 1] {
      assert x in s[..|s| - 1];
      InKeep(s[..|s| - 1], x, p);
    }
  }

  /** Below the smallest value there is no split. */
  lemma StartSweep(s: seq<Weighted>, minLeaf: nat, sse: real, required: real, id: nat, best: Option<Best>)
    requires BestSoFar(s, minLeaf, sse, required, id, Some(0), best)
    ensures BestSoFar(s, minLeaf, sse, required, id, Upto(SortBy(s, id), id, 0), best)
  {
    hide Gain, LabelTotals, Keep, Earlier;
    forall t: U64 | s != [] ==> t < Value(SortBy(s, id)[0], id)
      ensures AtMost(Gain(s, id, t, minLeaf, sse), Bound(best, required))
    {
      SweepPoint(s, id, 0, t);
      assert LabelTotals([]).n == 0;
      GainRuns(s, id, t, minLeaf, sse);
    }
  }

  lemma NothingSwept(s: seq<Weighted>, minLeaf: nat, sse: real, required: real)
    ensures BestSoFar(s, minLeaf, sse, required, 0, Some(0), None)
  {
  }

  lemma NextFeature(s: seq<Weighted>, minLeaf: nat, sse: real, required: real, id: nat, best: Option<Best>)
    requires BestSoFar(s, minLeaf, sse, required, id, None, best)
    ensures BestSoFar(s, minLeaf, sse, required, id + 1, Some(0), best)
  {
    hide Gain, Earlier, MidGap;
  }

  lemma SearchDone(s: seq<Weighted>, minLeaf: nat, sse: real, required: real, best: Option<Best>)
    requires BestSoFar(s, minLeaf, sse, required, NR_FEATURES, Some(0), best)
    requires best.Some? ==> best.value.split.feature < NR_FEATURES
    ensures IsBestAbove(s, minLeaf, sse, required, NR_FEATURES, SplitOf(best))
  {
    hide Gain, Earlier, MidGap;
  }

  /** At a boundary both sides weigh something, so the running gain is the reduction. */
  lemma SidesWeigh(s: seq<Weighted>, id: nat, j: nat)
    requires 0 < j < |s| && Value(SortBy(s, id)[j - 1], id) < Value(SortBy(s, id)[j], id)
    ensures var l := LabelTotals(SortBy(s, id)[..j]);
            l.n == j && l.sw > 0.0 && Minus(LabelTotals(s), l).sw > 0.0
  {
    hide LabelTotals, Keep, Minus;
    var t := Midpoint(Value(SortBy(s, id)[j - 1], id), Value(SortBy(s, id)[j], id));
    MidGapHolds(s, id, j);
    SidesAddUp(s, id, t);
  }

  lemma {:induction false} LeftGrows(s: seq<Weighted>, id: nat, t: U64, t': U64)
    requires t <= t'
    ensures |LeftOf(s, id, t)| <= |LeftOf(s, id, t')|
  {
    if s != [] {
      LeftGrows(s[..|s| - 1], id, t, t');
    }
  }

  /** Positions i..j hold one value and the running sums cover the first j samples. */
  ghost predicate AtGroup(s: seq<Weighted>, id: nat, i: nat, j: nat) {
    && i < j <= |s| && (j < |s| ==> Value(SortBy(s, id)[i], id) < Value(SortBy(s, id)[j], id))
    && forall k :: i <= k < j ==> Value(SortBy(s, id)[k], id) == Value(SortBy(s, id)[i], id)
  }

  /** What the sweep computes at a group boundary. */
  lemma GroupGain(s: seq<Weighted>, id: nat, i: nat, j: nat, minLeaf: nat, sse: real)
    requires AtGroup(s, id, i, j)
    ensures var all, l := LabelTotals(s), LabelTotals(SortBy(s, id)[..j]);
            && l.n == j && Minus(all, l).n == |s| - j
            && (j < |s| ==> l.sw > 0.0 && Minus(all, l).sw > 0.0)
            && RunningGain(all, l, minLeaf, sse) ==
                 if j < minLeaf || |s| - j < minLeaf || j == |s| then None
                 else Some(sse - Sse(l) - Sse(Minus(all, l)))
  {
    hide LabelTotals, Keep, Sse;
    if j < |s| {
      SidesWeigh(s, id, j);
    }
  }

  lemma PassSplit(s: seq<Weighted>, minLeaf: nat, sse: real, required: real, id: nat, i: nat, j: nat,
                  best: Option<Best>)
    requires AtGroup(s, id, i, j)
    requires BestSoFar(s, minLeaf, sse, required, id, Upto(SortBy(s, id), id, i), best)
    requires AtMost(RunningGain(LabelTotals(s), LabelTotals(SortBy(s, id)[..j]), minLeaf, sse), Bound(best, required))
    ensures BestSoFar(s, minLeaf, sse, required, id, Upto(SortBy(s, id), id, j), best)
  {
    hide Gain, RunningGain, LabelTotals, SortBy, Earlier;
    SweepGroup(s, id, i, j, minLeaf, sse, Bound(best, required));
  }

  lemma TakeSplit(s: seq<Weighted>, minLeaf: nat, sse: real, required: real, id: nat, i: nat, j: nat,
                  old_: Option<Best>, best: Best)
    requires AtGroup(s, id, i, j) && j < |s|
    requires BestSoFar(s, minLeaf, sse, required, id, Upto(SortBy(s, id), id, i), old_)
    requires best.split == Split(id, Midpoint(Value(SortBy(s, id)[i], id), Value(SortBy(s, id)[j], id)))
    requires RunningGain(LabelTotals(s), LabelTotals(SortBy(s, id)[..j]), minLeaf, sse) == Some(best.reduction)
    requires best.reduction > Bound(old_, required) && best.reduction > required
    ensures BestSoFar(s, minLeaf, sse, required, id, Upto(SortBy(s, id), id, j), Some(best))
  {
    hide Gain, RunningGain, LabelTotals, SortBy, Keep;
    var v, mid := Value(SortBy(s, id)[i], id), best.split.threshold;
    SweepGroup(s, id, i, j, minLeaf, sse, best.reduction);
    MidGapHolds(s, id, j);
    GainRuns(s, id, mid, minLeaf, sse);
    forall f: nat, t: U64 | Earlier(s, f, t, best.split)
      ensures Below(Gain(s, f, t, minLeaf, sse), best.reduction)
    {
      if f == id && t >= v {
        if t < mid {
          SweepPoint(s, id, j, t);
          assert false;
        } else {
          LeftGrows(s, id, mid, t);
          assert false;
        }
      }
    }
  }

  /** Keep a candidate that beats the requirement and everything before it. */
  function Consider(best: Option<Best>, candidate: Best, required: real): Option<Best> {
    if candidate.reduction > required && (best.None? || candidate.reduction > best.value.reduction)
    then Some(candidate) else best
  }

  /** The candidate between two values, with the reduction read off both groups' totals. */
  function CandidateAt(id: nat, v: U64, next: U64, l: Totals, r: Totals, sse: real): Best
    requires v < next && l.sw > 0.0 && r.sw > 0.0
  {
    Best(Split(id, Midpoint(v, next)), sse - Sse(l) - Sse(r))
  }

  lemma VisitGroup(s: seq<Weighted>, minLeaf: nat, sse: real, required: real, id: nat, i: nat, j: nat,
                   best: Option<Best>)
    requires AtGroup(s, id, i, j) && j < |s| && minLeaf <= j && minLeaf <= |s| - j
    requires BestSoFar(s, minLeaf, sse, required, id, Upto(SortBy(s, id), id, i), best)
    ensures var l := LabelTotals(SortBy(s, id)[..j]);
            && l.n <= |s| && l.sw > 0.0 && Minus(LabelTotals(s), l).sw > 0.0
            && var candidate := CandidateAt(id, Value(SortBy(s, id)[i], id), Value(SortBy(s, id)[j], id),
                                            l, Minus(LabelTotals(s), l), sse);
               BestSoFar(s, minLeaf, sse, required, id, Upto(SortBy(s, id), id, j), Consider(best, candidate, required))
  {
    hide Gain, RunningGain, BestSoFar, LabelTotals, SortBy, Sse, Minus, Plus, Value, Keep;
    GroupGain(s, id, i, j, minLeaf, sse);
    var l := LabelTotals(SortBy(s, id)[..j]);
    var candidate := CandidateAt(id, Value(SortBy(s, id)[i], id), Value(SortBy(s, id)[j], id),
                                 l, Minus(LabelTotals(s), l), sse);
    BestBeatsRequired(s, minLeaf, sse, required, id, Upto(SortBy(s, id), id, i), best);
    if Consider(best, candidate, required) == best {
      PassSplit(s, minLeaf, sse, required, id, i, j, best);
    } else {
      TakeSplit(s, minLeaf, sse, required, id, i, j, best, candidate);
    }
  }

  lemma BestBeatsRequired(s: seq<Weighted>, minLeaf: nat, sse: real, required: real,
                          id: nat, upto: Option<U64>, best: Option<Best>)
    requires BestSoFar(s, minLeaf, sse, required, id, upto, best)
    ensures best.Some? ==> best.value.reduction > required
  {
  }

  // ---- The search ----

  /** Add the samples that share the value at position i to the running sums. */
  method AddGroup(sorted: seq<Weighted>, id: nat, i: nat, l0: Totals) returns (j: nat, l: Totals)
    requires i < |sorted| && Sorted(sorted, id) && l0 == LabelTotals(sorted[..i])
    ensures i < j <= |sorted| && l == LabelTotals(sorted[..j])
    ensures forall k :: i <= k < j ==> Value(sorted[k], id) == Value(sorted[i], id)
    ensures j < |sorted| ==> Value(sorted[i], id) < Value(sorted[j], id)
  {
    hide LabelTotals, Plus;
    j, l := i, l0;
    while j < |sorted| && Value(sorted[j], id) == Value(sorted[i], id)
      invariant i <= j <= |sorted|
      invariant l == LabelTotals(sorted[..j])
      invariant forall k :: i <= k < j ==> Value(sorted[k], id) == Value(sorted[i], id)
    {
      l := Plus(l, sorted[j]);
      TotalsSnoc(sorted[..j], sorted[j]);
      assert sorted[..j + 1] == sorted[..j] + [sorted[j]];
      j := j + 1;
    }
  }

  /** Sweep one feature: the inner loops of the search. */
  method SweepFeature(s: seq<Weighted>, minLeaf: nat, sse: real, required: real, id: nat, best0: Option<Best>)
    returns (best: Option<Best>)
    requires BestSoFar(s, minLeaf, sse, required, id, Some(0), best0)
    ensures BestSoFar(s, minLeaf, sse, required, id, None, best)
    ensures best == best0 || (best.Some? && best.value.split.feature == id)
  {
    hide Gain, RunningGain, BestSoFar, LabelTotals, Keep, SortBy, Plus, Minus, Sse, Value;
    best := best0;
    var n, total := |s|, LabelTotals(s);
    var sorted := SortBy(s, id);
    var l := NOTHING;
    var i := 0;
    NoTotals();
    assert sorted[..0] == [];
    StartSweep(s, minLeaf, sse, required, id, best);
    while i < n
      invariant 0 <= i <= n
      invariant l == LabelTotals(sorted[..i])
      invariant i > 0 && i < n ==> Value(sorted[i - 1], id) < Value(sorted[i], id)
      invariant BestSoFar(s, minLeaf, sse, required, id, Upto(sorted, id, i), best)
      invariant best == best0 || (best.Some? && best.value.split.feature == id)
    {
      var v := Value(sorted[i], id);
      var j;
      j, l := AddGroup(sorted, id, i, l);
      GroupGain(s, id, i, j, minLeaf, sse);
      var r := Minus(total, l);
      if l.n >= minLeaf && r.n >= minLeaf && j < n {
        VisitGroup(s, minLeaf, sse, required, id, i, j, best);
        best := Consider(best, CandidateAt(id, v, Value(sorted[j], id), l, r, sse), required);
      } else {
        PassSplit(s, minLeaf, sse, required, id, i, j, best);
      }
      i := j;
    }
  }

  /** The best split of a node, or None. */
  method FindBestSplit(s: seq<Weighted>, minLeaf: nat, sse: real, minRelReduction: real)
    returns (best: Option<Split>)
    ensures IsBest(s, minLeaf, sse, minRelReduction, NR_FEATURES, best)
  {
    hide Gain, BestSoFar, IsBestAbove;
    var required := sse * minRelReduction;
    var found: Option<Best> := None;
    NothingSwept(s, minLeaf, sse, required);
    for id := 0 to NR_FEATURES
      invariant BestSoFar(s, minLeaf, sse, required, id, Some(0), found)
      invariant found.Some? ==> found.value.split.feature < id
    {
      found := SweepFeature(s, minLeaf, sse, required, id, found);
      NextFeature(s, minLeaf, sse, required, id, found);
    }
    SearchDone(s, minLeaf, sse, required, found);
    best := SplitOf(found);
  }
}

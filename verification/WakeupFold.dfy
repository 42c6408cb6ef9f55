/** The once-per-second step: a compare-and-swap gate and the fold of the per-CPU wakeup windows. */
module WakeupFold {
  import opened Arithmetic
  import opened Word

  const INTERVAL: U64 := 1_000_000_000

  // ---- The fold alone ----

  class WakeupStats {
    var window: seq<nat>

    /** Sum every CPU's window and leave each at zero. */
    method WindowFold() returns (total: nat)
      modifies this
      ensures total == Sum(old(window))
      ensures |window| == |old(window)| && Sum(window) == 0
    {
      total := 0;
      var n := |window|;
      for cpu := 0 to n
        invariant |window| == n && window[cpu..] == old(window)[cpu..]
        invariant total == Sum(old(window)[..cpu])
        invariant forall c :: 0 <= c < cpu ==> window[c] == 0
      {
        assert old(window)[..cpu + 1][..cpu] == old(window)[..cpu];
        assert window[cpu] == window[cpu..][0] == old(window)[cpu];
        total := total + window[cpu];
        window := window[cpu := 0];
      }
      assert old(window)[..n] == old(window);
      SumZeros(window);
    }
  }

  // ---- All CPUs, one atomic operation at a time ----

  /** A caller of the step: outside, past the time check, or folding with `cpu` as the next slot. */
  datatype Caller = Outside | Passed(now: U64, last: U64) | Folding(cpu: nat)

  /**
   * Per CPU the lifetime total, the window and the enqueuers between those two increments; per
   * caller its position and what its running fold has collected; the gate's stamp, all stamps that
   * won it (the initial one first) and the results of finished folds.
   */
  datatype State = State(
    total: seq<nat>, window: seq<nat>, between: seq<nat>, callers: seq<Caller>, partial: seq<nat>,
    stepAt: U64, stamps: seq<U64>, folds: seq<nat>, enabled: bool)

  datatype Action =
    | CountTotal(cpu: nat)
    | CountWindow(cpu: nat)
    | Check(f: nat, at: U64)
    | Swap(f: nat)
    | Exchange(f: nat)

  predicate Shaped(s: State) {
    |s.total| == |s.window| == |s.between| && |s.callers| == |s.partial| && s.total != [] && s.stamps != []
  }

  predicate Enabled(s: State, a: Action) {
    && Shaped(s)
    && match a
       case CountTotal(c) => c < |s.total|
       case CountWindow(c) => c < |s.total| && s.between[c] > 0
       case Check(f, _) => f < |s.callers| && s.callers[f].Outside?
       case Swap(f) => f < |s.callers| && s.callers[f].Passed?
       case Exchange(f) => f < |s.callers| && s.callers[f].Folding? && s.callers[f].cpu < |s.total|
  }

  function Apply(s: State, a: Action): State
    requires Enabled(s, a)
  {
    match a
    case CountTotal(c) => s.(total := s.total[c := s.total[c] + 1], between := s.between[c := s.between[c] + 1])
    case CountWindow(c) => s.(between := s.between[c := s.between[c] - 1], window := s.window[c := s.window[c] + 1])
    case Check(f, now) =>
      if TimeBefore(now, Add64(s.stepAt, INTERVAL)) then s
      else s.(callers := s.callers[f := Passed(now, s.stepAt)])
    case Swap(f) =>
      var caller := s.callers[f];
      if s.stepAt != caller.last then s.(callers := s.callers[f := Outside])
      else
        s.(stepAt := caller.now, stamps := s.stamps + [caller.now],
           callers := s.callers[f := if s.enabled then Folding(0) else Outside])
    case Exchange(f) =>
      var c := s.callers[f].cpu;
      var sum := s.partial[f] + s.window[c];
      if c + 1 < |s.window| then
        s.(window := s.window[c := 0], partial := s.partial[f := sum], callers := s.callers[f := Folding(c + 1)])
      else
        s.(window := s.window[c := 0], partial := s.partial[f := 0], callers := s.callers[f := Outside],
           folds := s.folds + [sum])
  }

  ghost predicate Init(s: State) {
    && Shaped(s) && s.stamps == [s.stepAt] && s.folds == []
    && (forall c :: 0 <= c < |s.total| ==> s.total[c] == s.window[c] == s.between[c] == 0)
    && forall f :: 0 <= f < |s.callers| ==> s.callers[f] == Outside && s.partial[f] == 0
  }

  // ---- Invariants ----

  /** Each arrival is in exactly one place: a finished fold, a running one, a window, or on its way. */
  predicate Conserved(s: State) {
    Sum(s.total) == Sum(s.folds) + Sum(s.partial) + Sum(s.window) + Sum(s.between)
  }

  /** Consecutive stamps are an interval apart in the wrapping order. */
  ghost predicate Spaced(stamps: seq<U64>) {
    forall k: nat :: k + 1 < |stamps| ==> !TimeBefore(stamps[k + 1], Add64(stamps[k], INTERVAL))
  }

  ghost predicate Inv(s: State) {
    && Shaped(s) && Conserved(s) && Spaced(s.stamps) && s.stepAt == s.stamps[|s.stamps| - 1]
    && forall f :: 0 <= f < |s.callers| ==>
         match s.callers[f]
         case Outside => s.partial[f] == 0
         case Passed(now, last) => s.partial[f] == 0 && !TimeBefore(now, Add64(last, INTERVAL))
         case Folding(cpu) => cpu < |s.window|
  }

  lemma InitHolds(s: State)
    requires Init(s)
    ensures Inv(s)
  {
    SumZeros(s.total);
    SumZeros(s.window);
    SumZeros(s.between);
    SumZeros(s.partial);
  }

  lemma ExchangeKeeps(s: State, f: nat)
    requires Inv(s) && Enabled(s, Exchange(f))
    ensures Conserved(Apply(s, Exchange(f)))
  {
    hide Sum, Spaced;
    var c := s.callers[f].cpu;
    var sum := s.partial[f] + s.window[c];
    SumUpdate(s.window, c, 0);
    SumUpdate(s.partial, f, sum);
    SumUpdate(s.partial, f, 0);
    SumPush(s.folds, sum);
  }

  lemma StepKeeps(s: State, a: Action)
    requires Inv(s) && Enabled(s, a)
    ensures Inv(Apply(s, a))
  {
    hide Sum, TimeBefore, Add64;
    match a
    case CountTotal(c) =>
      SumUpdate(s.total, c, s.total[c] + 1);
      SumUpdate(s.between, c, s.between[c] + 1);
    case CountWindow(c) =>
      SumUpdate(s.between, c, s.between[c] - 1);
      SumUpdate(s.window, c, s.window[c] + 1);
    case Check(f, now) =>
    case Swap(f) =>
    case Exchange(f) =>
      ExchangeKeeps(s, f);
  }

  ghost predicate Run(s: State, acts: seq<Action>, s': State)
    decreases |acts|
  {
    if acts == [] then s == s' else Enabled(s, acts[0]) && Run(Apply(s, acts[0]), acts[1..], s')
  }

  lemma {:induction false} RunKeeps(s: State, acts: seq<Action>, s': State)
    requires Inv(s) && Run(s, acts, s')
    ensures Inv(s')
    decreases |acts|
  {
    hide Inv, Apply, Enabled;
    if acts != [] {
      StepKeeps(s, acts[0]);
      RunKeeps(Apply(s, acts[0]), acts[1..], s');
    }
  }

  /** In every interleaving no arrival is lost or folded twice, and winning stamps keep their distance. */
  lemma FoldedExactlyOnce(s: State, acts: seq<Action>, s': State)
    requires Init(s) && Run(s, acts, s')
    ensures Sum(s'.folds) + Sum(s'.partial) + Sum(s'.window) + Sum(s'.between) == Sum(s'.total)
    ensures Spaced(s'.stamps)
  {
    hide Spaced, Sum, Run;
    InitHolds(s);
    RunKeeps(s, acts, s');
  }

  // ---- The step does run ----

  lemma {:induction false} RunAppend(s: State, a: seq<Action>, mid: State, b: seq<Action>, s': State)
    requires Run(s, a, mid) && Run(mid, b, s')
    ensures Run(s, a + b, s')
    decreases |a|
  {
    hide Apply, Enabled;
    if a == [] {
      assert a + b == b;
    } else {
      RunAppend(Apply(s, a[0]), a[1..], mid, b, s');
      assert (a + b)[1..] == a[1..] + b;
    }
  }

  lemma RunOne(s: State, a: Action)
    requires Enabled(s, a)
    ensures Run(s, [a], Apply(s, a))
  {
    assert [a][1..] == [];
    assert Run(Apply(s, a), [], Apply(s, a));
  }

  /** Undisturbed exchanges from slot `cpu` on collect every window behind it and leave them at zero. */
  lemma {:induction false} FoldAlone(s: State, f: nat, cpu: nat) returns (acts: seq<Action>, s': State)
    requires Shaped(s) && f < |s.callers| && s.callers[f] == Folding(cpu) && cpu < |s.window|
    ensures Run(s, acts, s')
    ensures s' == s.(window := s.window[..cpu] + seq(|s.window| - cpu, _ => 0), partial := s.partial[f := 0],
                     callers := s.callers[f := Outside],
                     folds := s.folds + [s.partial[f] + Sum(s.window[cpu..])])
    decreases |s.window| - cpu
  {
    hide Run, Sum;
    var s1 := Apply(s, Exchange(f));
    RunOne(s, Exchange(f));
    SumFront(s.window[cpu..]);
    assert s.window[cpu..][1..] == s.window[cpu + 1..];
    if cpu + 1 < |s.window| {
      assert s1.window[..cpu + 1] == s.window[..cpu] + [0] && s1.window[cpu + 1..] == s.window[cpu + 1..];
      var rest: seq<Action>;
      rest, s' := FoldAlone(s1, f, cpu + 1);
      RunAppend(s, [Exchange(f)], s1, rest, s');
      acts := [Exchange(f)] + rest;
    } else {
      acts, s' := [Exchange(f)], s1;
      SumOfNone(s.window);
      assert s.window[cpu + 1..] == s.window[..0];
    }
  }

  /**
   * A caller an interval or more past the stamp that is not disturbed wins the gate, and with the
   * adaptation enabled folds all windows: their sum is the result, and each is left at zero.
   */
  lemma UndisturbedStep(s: State, f: nat, now: U64) returns (acts: seq<Action>, s': State)
    requires Inv(s) && f < |s.callers| && s.callers[f] == Outside && s.enabled
    requires !TimeBefore(now, Add64(s.stepAt, INTERVAL))
    ensures Run(s, acts, s')
    ensures s' == s.(stepAt := now, stamps := s.stamps + [now], folds := s.folds + [Sum(s.window)],
                     window := seq(|s.window|, _ => 0))
  {
    hide Run, Sum, TimeBefore, Add64, Conserved, Spaced;
    RunOne(s, Check(f, now));
    var s1 := Apply(s, Check(f, now));
    RunOne(s1, Swap(f));
    var s2 := Apply(s1, Swap(f));
    RunAppend(s, [Check(f, now)], s1, [Swap(f)], s2);
    var rest: seq<Action>;
    rest, s' := FoldAlone(s2, f, 0);
    RunAppend(s, [Check(f, now)] + [Swap(f)], s2, rest, s');
    acts := [Check(f, now)] + [Swap(f)] + rest;
    assert s.window[0..] == s.window;
  }

  lemma {:induction false} SumFront(x: seq<nat>)
    requires x != []
    ensures Sum(x) == x[0] + Sum(x[1..])
  {
    var n := |x| - 1;
    if n > 0 {
      SumFront(x[..n]);
      assert x[..n][1..] == x[1..][..n - 1];
    }
  }

  lemma SumOfNone(x: seq<nat>)
    ensures Sum(x[..0]) == 0
  {
  }

  // ---- Spacing in real time ----

  /** The instants behind the stamps, close enough together for the wrapping order to see them. */
  ghost predicate Behind(instants: seq<int>, stamps: seq<U64>) {
    && |instants| == |stamps|
    && (forall k :: 0 <= k < |stamps| ==> stamps[k] == Wrap(instants[k]))
    && forall k: nat :: k + 1 < |stamps| ==> -U63_SIZE < instants[k + 1] - (instants[k] + INTERVAL) < U63_SIZE
  }

  lemma OneApart(a: int, b: int)
    requires -U63_SIZE < b - (a + INTERVAL) < U63_SIZE
    requires !TimeBefore(Wrap(b), Add64(Wrap(a), INTERVAL))
    ensures b - a >= INTERVAL
  {
    WrapAddWord(a, INTERVAL);
    TimeBeforeIsLess(b, a + INTERVAL);
  }

  /** So n winners after the first take at least n whole seconds: the step runs at most at 1 Hz. */
  lemma {:induction false} AtMostOnePerSecond(instants: seq<int>, stamps: seq<U64>, i: nat, j: nat)
    requires Spaced(stamps) && Behind(instants, stamps) && i <= j < |stamps|
    ensures instants[j] - instants[i] >= (j - i) * INTERVAL
    decreases j
  {
    hide TimeBefore, Wrap, Add64;
    if i < j {
      AtMostOnePerSecond(instants, stamps, i, j - 1);
      var k: nat := j - 1;
      assert k + 1 < |stamps|;
      OneApart(instants[k], instants[k + 1]);
    }
  }
}

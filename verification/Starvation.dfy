/**
 * The tasks of one queue DSQ sharing the queue's virtual clock with every other CPU, on the
 * unbounded timeline. Steps make at most one access to the clock: serving the earliest deadline,
 * charging a run segment, reading the clock, one compare-and-swap, and the two clock reads of a
 * placement, the first for the vruntime, the second for the deadline.
 */
module Starvation {
  import opened Word
  import opened Placement

  /** Shortest run segment that charges at least one unit at the largest weight. */
  const MIN_RUN_NS := 100
  const MAX_WEIGHT := 10000

  datatype Phase =
    | Queued(deadline: int)
    | Running
    | Charged
    | Swapping(seen: int)
    | Stopped
    | Placing(anchor: int)

  /** `placed` remembers the vruntime of the last placement. */
  datatype Task = Task(vruntime: int, weight: int, placed: int, phase: Phase)

  datatype State = State(clock: int, slice: int, tasks: seq<Task>)

  datatype Step =
    | Anchor(u: nat)
    | Place(u: nat, firstRun: bool)
    | Serve(u: nat)
    | Charge(u: nat, delta: int)
    | ReadClock(u: nat)
    | CompareAndSwap(u: nat)
    | OtherAdvance(to: int)

  ghost predicate TaskOk(s: State, t: Task) {
    && 1 <= t.weight <= MAX_WEIGHT
    && match t.phase
       case Queued(d) => t.vruntime == t.placed <= s.clock && t.placed <= d
       case Running => t.vruntime == t.placed <= s.clock
       case Charged => t.placed <= s.clock && t.placed < t.vruntime
       case Swapping(seen) => t.placed <= seen <= s.clock && seen < t.vruntime
       case Stopped => true
       case Placing(a) => a <= s.clock
  }

  /** Queued tasks are eligible, with one request or less after their vruntime as deadline. */
  ghost predicate Valid(s: State) {
    && 0 <= s.slice
    && forall u :: 0 <= u < |s.tasks| ==> TaskOk(s, s.tasks[u])
  }

  ghost predicate Enabled(s: State, step: Step) {
    match step
    case OtherAdvance(to) => s.clock < to
    case Anchor(u) => u < |s.tasks| && s.tasks[u].phase.Stopped?
    case Place(u, _) => u < |s.tasks| && s.tasks[u].phase.Placing?
    case Serve(u) =>
      && u < |s.tasks| && s.tasks[u].phase.Queued?
      && forall x :: 0 <= x < |s.tasks| && s.tasks[x].phase.Queued? ==>
           s.tasks[u].phase.deadline <= s.tasks[x].phase.deadline
    case Charge(u, delta) => u < |s.tasks| && s.tasks[u].phase.Running? && delta >= MIN_RUN_NS
    case ReadClock(u) => u < |s.tasks| && s.tasks[u].phase.Charged?
    case CompareAndSwap(u) => u < |s.tasks| && s.tasks[u].phase.Swapping?
  }

  ghost function Placed(s: State, t: Task, firstRun: bool): Task
    requires t.weight >= 1 && t.phase.Placing?
  {
    var v := PlacedVruntime(t.phase.anchor, t.vruntime, Limit(s.slice, t.weight));
    Task(v, t.weight, v, Queued(PlacedDeadline(s.clock, t.vruntime, s.slice, t.weight, firstRun)))
  }

  ghost function Apply(s: State, step: Step): State
    requires Valid(s) && Enabled(s, step)
  {
    match step
    case OtherAdvance(to) => s.(clock := to)
    case Anchor(u) => s.(tasks := s.tasks[u := s.tasks[u].(phase := Placing(s.clock))])
    case Place(u, firstRun) => s.(tasks := s.tasks[u := Placed(s, s.tasks[u], firstRun)])
    case Serve(u) => s.(tasks := s.tasks[u := s.tasks[u].(phase := Running)])
    case Charge(u, delta) =>
      var t := s.tasks[u];
      s.(tasks := s.tasks[u := t.(vruntime := t.vruntime + delta * 100 / t.weight, phase := Charged)])
    case ReadClock(u) =>
      var t := s.tasks[u];
      s.(tasks := s.tasks[u := t.(phase := if s.clock < t.vruntime then Swapping(s.clock) else Stopped)])
    case CompareAndSwap(u) =>
      var t := s.tasks[u];
      State(if s.clock == t.phase.seen then t.vruntime else s.clock, s.slice,
            s.tasks[u := t.(phase := Stopped)])
  }

  lemma ChargeProgress(delta: int, weight: int)
    requires delta >= MIN_RUN_NS && 1 <= weight <= MAX_WEIGHT
    ensures delta * 100 / weight >= 1
  {
    assert delta * 100 >= weight;
  }

  lemma PlaceBounds(s: State, t: Task, firstRun: bool)
    requires 0 <= s.slice && 1 <= t.weight && t.phase.Placing? && t.phase.anchor <= s.clock
    ensures var p, a := Placed(s, t, firstRun), t.phase.anchor;
            && Min(t.vruntime, a) <= p.vruntime <= a
            && a - p.vruntime <= Limit(s.slice, t.weight)
            && p.vruntime <= p.phase.deadline
            && p.phase.deadline <= p.vruntime + (s.clock - a) + Request(s.slice, t.weight, firstRun) + 1
  {
    DivLeq((s.slice + TICK_NS) * 100, t.weight);
    DivLeq(s.slice * 100, t.weight);
  }

  /** Every step keeps the queued tasks eligible and the clock monotone. */
  lemma StepKeepsValid(s: State, step: Step)
    requires Valid(s) && Enabled(s, step)
    ensures Valid(Apply(s, step))
    ensures s.clock <= Apply(s, step).clock
  {
    if step.Place? {
      PlaceBounds(s, s.tasks[step.u], step.firstRun);
    }
    if step.Charge? {
      ChargeProgress(step.delta, s.tasks[step.u].weight);
    }
  }

  /** The vruntime a task is sure to have at its next service, whatever the clock does. */
  ghost function Floor(s: State, t: Task): int {
    match t.phase
    case Queued(_) => t.vruntime
    case Stopped => Min(t.vruntime, s.clock)
    case Placing(a) => Min(t.vruntime, a)
    case _ => t.placed + 1
  }

  /** How often a task can still be served before a deadline. */
  ghost function Turns(s: State, t: Task, deadline: int): nat {
    Max(0, deadline - Floor(s, t) + 1)
  }

  /** The turns left to all tasks but one. */
  ghost function TurnsBefore(s: State, me: nat, deadline: int, n: nat): nat
    requires n <= |s.tasks|
  {
    if n == 0 then 0
    else TurnsBefore(s, me, deadline, n - 1) + if n - 1 == me then 0 else Turns(s, s.tasks[n - 1], deadline)
  }

  lemma {:induction false} TurnsShrink(s: State, s': State, me: nat, deadline: int, n: nat, u: nat, drop: nat)
    requires n <= |s.tasks| == |s'.tasks|
    requires forall x :: 0 <= x < n && x != me ==>
               Turns(s', s'.tasks[x], deadline) + (if x == u then drop else 0) <= Turns(s, s.tasks[x], deadline)
    ensures TurnsBefore(s', me, deadline, n) + (if u < n && u != me then drop else 0) <= TurnsBefore(s, me, deadline, n)
  {
    if n > 0 {
      TurnsShrink(s, s', me, deadline, n - 1, u, drop);
    }
  }

  /** No step lowers the floor of a task, and being served raises it. */
  lemma StepRaisesFloor(s: State, step: Step, x: nat)
    requires Valid(s) && Enabled(s, step) && x < |s.tasks|
    ensures var s' := Apply(s, step);
            Floor(s, s.tasks[x]) + (if step == Serve(x) then 1 else 0) <= Floor(s', s'.tasks[x])
  {
    if step.Place? {
      PlaceBounds(s, s.tasks[step.u], step.firstRun);
    }
    if step.Charge? {
      ChargeProgress(step.delta, s.tasks[step.u].weight);
    }
  }

  /** While `me` waits with its deadline, one service of another task costs one of the turns. */
  lemma ServiceCostsTurn(s: State, step: Step, me: nat)
    requires Valid(s) && Enabled(s, step)
    requires me < |s.tasks| && s.tasks[me].phase.Queued? && step != Serve(me)
    ensures var s' := Apply(s, step);
            && s'.tasks[me] == s.tasks[me]
            && var d := s.tasks[me].phase.deadline;
               TurnsBefore(s', me, d, |s.tasks|) + (if step.Serve? then 1 else 0) <= TurnsBefore(s, me, d, |s.tasks|)
  {
    var s', d := Apply(s, step), s.tasks[me].phase.deadline;
    var u, drop := if step.Serve? then step.u else 0, if step.Serve? then 1 else 0;
    forall x | 0 <= x < |s.tasks| && x != me
      ensures Turns(s', s'.tasks[x], d) + (if x == u then drop else 0) <= Turns(s, s.tasks[x], d)
    {
      StepRaisesFloor(s, step, x);
    }
    TurnsShrink(s, s', me, d, |s.tasks|, u, drop);
  }

  ghost predicate EnabledRun(s: State, steps: seq<Step>)
    requires Valid(s)
    decreases |steps|
  {
    steps == [] ||
    (Enabled(s, steps[0]) && (StepKeepsValid(s, steps[0]); EnabledRun(Apply(s, steps[0]), steps[1..])))
  }

  ghost function Final(s: State, steps: seq<Step>): (s': State)
    requires Valid(s) && EnabledRun(s, steps)
    ensures Valid(s') && s.clock <= s'.clock
    ensures forall u :: 0 <= u < |s'.tasks| && s'.tasks[u].phase.Queued? ==> s'.tasks[u].vruntime <= s'.clock
    decreases |steps|
  {
    if steps == [] then s else (StepKeepsValid(s, steps[0]); Final(Apply(s, steps[0]), steps[1..]))
  }

  ghost function Services(steps: seq<Step>): nat {
    if steps == [] then 0 else (if steps[0].Serve? then 1 else 0) + Services(steps[1..])
  }

  /**
   * Starvation bound. In every run that does not serve the queued task `me`, the others are
   * served at most sum over u of max(0, D - floor(u) + 1) times, where D is me's deadline.
   */
  lemma {:induction false} PassedOverBound(s: State, steps: seq<Step>, me: nat)
    requires Valid(s) && EnabledRun(s, steps)
    requires me < |s.tasks| && s.tasks[me].phase.Queued?
    requires Serve(me) !in steps
    ensures |Final(s, steps).tasks| == |s.tasks|
    ensures Final(s, steps).tasks[me] == s.tasks[me]
    ensures Services(steps) <= TurnsBefore(s, me, s.tasks[me].phase.deadline, |s.tasks|)
    decreases |steps|
  {
    if steps != [] {
      StepKeepsValid(s, steps[0]);
      ServiceCostsTurn(s, steps[0], me);
      PassedOverBound(Apply(s, steps[0]), steps[1..], me);
    }
  }

  /** Turned around: a run with more services than the bound serves the waiting task. */
  lemma ServedWithinBound(s: State, steps: seq<Step>, me: nat)
    requires Valid(s) && EnabledRun(s, steps)
    requires me < |s.tasks| && s.tasks[me].phase.Queued?
    requires Services(steps) > TurnsBefore(s, me, s.tasks[me].phase.deadline, |s.tasks|)
    ensures Serve(me) in steps
  {
    if Serve(me) !in steps {
      PassedOverBound(s, steps, me);
    }
  }

  // ---- The bound in vruntimes ----

  /** The task has not been charged past the clock: what it can be served is bounded by its vruntime. */
  ghost predicate NotAhead(s: State, t: Task) {
    match t.phase
    case Queued(_) => true
    case Running => true
    case Stopped => t.vruntime <= s.clock
    case Placing(a) => t.vruntime <= a
    case _ => false
  }

  /** Sum over the first n tasks but `me` of max(0, deadline - vruntime + 1). */
  ghost function VruntimeTurns(s: State, me: nat, deadline: int, n: nat): nat
    requires n <= |s.tasks|
  {
    if n == 0 then 0
    else VruntimeTurns(s, me, deadline, n - 1)
         + if n - 1 == me then 0 else Max(0, deadline - s.tasks[n - 1].vruntime + 1)
  }

  lemma {:induction false} FloorsAreVruntimes(s: State, me: nat, deadline: int, n: nat)
    requires Valid(s) && n <= |s.tasks|
    requires forall u :: 0 <= u < |s.tasks| && u != me ==> NotAhead(s, s.tasks[u])
    ensures TurnsBefore(s, me, deadline, n) <= VruntimeTurns(s, me, deadline, n)
  {
    if n > 0 {
      FloorsAreVruntimes(s, me, deadline, n - 1);
      assert TaskOk(s, s.tasks[n - 1]);
    }
  }

  /**
   * While no other task is ahead of the clock, the bound is the sum over the other tasks of
   * max(0, D - vruntime + 1).
   */
  lemma PassedOverVruntimeBound(s: State, steps: seq<Step>, me: nat)
    requires Valid(s) && EnabledRun(s, steps)
    requires me < |s.tasks| && s.tasks[me].phase.Queued?
    requires Serve(me) !in steps
    requires forall u :: 0 <= u < |s.tasks| && u != me ==> NotAhead(s, s.tasks[u])
    ensures Services(steps) <= VruntimeTurns(s, me, s.tasks[me].phase.deadline, |s.tasks|)
  {
    PassedOverBound(s, steps, me);
    FloorsAreVruntimes(s, me, s.tasks[me].phase.deadline, |s.tasks|);
  }

  lemma RunStep(s: State, step: Step, rest: seq<Step>)
    requires Valid(s) && Enabled(s, step) && Valid(Apply(s, step)) && EnabledRun(Apply(s, step), rest)
    ensures EnabledRun(s, [step] + rest)
    ensures Services([step] + rest) == (if step.Serve? then 1 else 0) + Services(rest)
  {
    hide Valid, Enabled, Apply;
    assert ([step] + rest)[1..] == rest;
  }

  /**
   * The condition is needed. A task charged far past the clock that loses its swap is stopped ahead
   * of it, is placed back at the clock, and then overtakes although its vruntime is beyond D.
   */
  lemma LostSwapOvertakes() returns (s: State, steps: seq<Step>)
    ensures Valid(s) && EnabledRun(s, steps)
    ensures |s.tasks| == 2 && s.tasks[0].phase == Queued(9_000_000) && s.tasks[1].phase == Charged
    ensures Serve(0) !in steps && Services(steps) == 1
    ensures VruntimeTurns(s, 0, 9_000_000, 2) == 0
  {
    var me := Task(6_000_000, 100, 6_000_000, Queued(9_000_000));
    s := State(6_000_000, 1_000_000, [me, Task(60_000_000, 100, 5_000_000, Charged)]);
    var s1 := Apply(s, ReadClock(1));
    assert s1.tasks == [me, Task(60_000_000, 100, 5_000_000, Swapping(6_000_000))];
    var s2 := Apply(s1, OtherAdvance(6_000_001));
    var s3 := Apply(s2, CompareAndSwap(1));
    assert s3 == State(6_000_001, 1_000_000, [me, Task(60_000_000, 100, 5_000_000, Stopped)]);
    var s4, s5 := Overtake(s3, me);
    assert EnabledRun(Apply(s5, Serve(1)), []);
    RunStep(s5, Serve(1), []);
    RunStep(s4, Place(1, false), [Serve(1)] + []);
    RunStep(s3, Anchor(1), [Place(1, false)] + ([Serve(1)] + []));
    steps := [Anchor(1)] + ([Place(1, false)] + ([Serve(1)] + []));
    RunStep(s2, CompareAndSwap(1), steps);
    steps := [CompareAndSwap(1)] + steps;
    RunStep(s1, OtherAdvance(6_000_001), steps);
    steps := [OtherAdvance(6_000_001)] + steps;
    RunStep(s, ReadClock(1), steps);
    steps := [ReadClock(1)] + steps;
    TwoTurns(s, 9_000_000);
  }

  lemma TwoTurns(s: State, deadline: int)
    requires |s.tasks| == 2 && s.tasks[1].vruntime > deadline
    ensures VruntimeTurns(s, 0, deadline, 2) == 0
  {
    assert VruntimeTurns(s, 0, deadline, 1) == 0;
  }

  lemma Overtake(s: State, me: Task) returns (s1: State, s2: State)
    requires s == State(6_000_001, 1_000_000, [me, Task(60_000_000, 100, 5_000_000, Stopped)])
    requires me == Task(6_000_000, 100, 6_000_000, Queued(9_000_000))
    ensures Valid(s) && Enabled(s, Anchor(1)) && s1 == Apply(s, Anchor(1)) && Valid(s1)
    ensures Enabled(s1, Place(1, false)) && s2 == Apply(s1, Place(1, false)) && Valid(s2)
    ensures Enabled(s2, Serve(1)) && Valid(Apply(s2, Serve(1)))
  {
    s1 := Apply(s, Anchor(1));
    assert s1.tasks == [me, Task(60_000_000, 100, 5_000_000, Placing(6_000_001))];
    s2 := Apply(s1, Place(1, false));
    assert s2.tasks[1].phase == Queued(7_000_001) by {
      assert Wrap(7_000_001) == 7_000_001;
    }
    StepKeepsValid(s1, Place(1, false));
    StepKeepsValid(s2, Serve(1));
  }

  /**
   * Over every run, a placement leaves the task eligible and within its lag limit of the clock it
   * was anchored to, and due one request later plus what the clock moved between the two reads.
   */
  lemma PlacedEligible(s: State, steps: seq<Step>, u: nat, firstRun: bool)
    requires Valid(s) && EnabledRun(s, steps)
    requires Enabled(Final(s, steps), Place(u, firstRun))
    ensures var before := Final(s, steps);
            var t, a := Apply(before, Place(u, firstRun)).tasks[u], before.tasks[u].phase.anchor;
            && t.phase.Queued? && t.vruntime <= a <= before.clock
            && a - t.vruntime <= Limit(s.slice, t.weight)
            && t.vruntime <= t.phase.deadline
            && t.phase.deadline <= t.vruntime + (before.clock - a) + Request(s.slice, t.weight, firstRun) + 1
  {
    var before := Final(s, steps);
    FinalSlice(s, steps);
    PlaceBounds(before, before.tasks[u], firstRun);
  }

  lemma {:induction false} FinalSlice(s: State, steps: seq<Step>)
    requires Valid(s) && EnabledRun(s, steps)
    ensures Final(s, steps).slice == s.slice
    decreases |steps|
  {
    if steps != [] {
      StepKeepsValid(s, steps[0]);
      FinalSlice(Apply(s, steps[0]), steps[1..]);
    }
  }
}

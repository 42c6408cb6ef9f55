/**
 * The steps of the starvation model as the code makes them, on 64-bit words, and the simulation that
 * carries the bounds of the unbounded timeline to whole runs on words.
 */
module WordRuns {
  import opened Word
  import opened Placement
  import opened Starvation

  datatype WordPhase =
    | WQueued(deadline: U64)
    | WRunning
    | WCharged
    | WSwapping(seen: U64)
    | WStopped
    | WPlacing(anchor: U64)

  datatype WordTask = WordTask(vruntime: U64, weight: U32, phase: WordPhase)

  datatype WordState = WordState(clock: U64, slice: U64, tasks: seq<WordTask>)

  datatype WordStep =
    | WAnchor(u: nat)
    | WPlace(u: nat, firstRun: bool)
    | WServe(u: nat)
    | WCharge(u: nat, delta: U64)
    | WReadClock(u: nat)
    | WSwap(u: nat)
    | WOther(to: U64)

  predicate WeightsOk(s: WordState) {
    forall u :: 0 <= u < |s.tasks| ==> 1 <= s.tasks[u].weight <= MAX_WEIGHT
  }

  /** Run segments are long enough to charge and short enough for their scaling to fit a word. */
  predicate WordEnabled(s: WordState, step: WordStep) {
    match step
    case WOther(to) => TimeBefore(s.clock, to)
    case WAnchor(u) => u < |s.tasks| && s.tasks[u].phase.WStopped?
    case WPlace(u, _) => u < |s.tasks| && s.tasks[u].phase.WPlacing?
    case WServe(u) =>
      && u < |s.tasks| && s.tasks[u].phase.WQueued?
      && forall x :: 0 <= x < |s.tasks| && s.tasks[x].phase.WQueued? ==>
           !TimeBefore(s.tasks[x].phase.deadline, s.tasks[u].phase.deadline)
    case WCharge(u, delta) =>
      u < |s.tasks| && s.tasks[u].phase.WRunning? && delta >= MIN_RUN_NS && delta * 100 < U64_SIZE
    case WReadClock(u) => u < |s.tasks| && s.tasks[u].phase.WCharged?
    case WSwap(u) => u < |s.tasks| && s.tasks[u].phase.WSwapping?
  }

  /** The two halves of a placement: the vruntime from the first clock read, the deadline from the second. */
  function WordPlaced(clock: U64, slice: U64, t: WordTask, firstRun: bool): WordTask
    requires t.weight >= 1 && t.phase.WPlacing?
  {
    var limit := LagLimit(slice, t.weight);
    var v := Sub64(t.phase.anchor, PlacedLag(t.phase.anchor, t.vruntime, limit));
    var d := Add64(Sub64(clock, PlacedLag(clock, t.vruntime, limit)), VSlice(slice, t.weight, firstRun));
    WordTask(v, t.weight, WQueued(if d == 0 then 1 else d))
  }

  function WordApply(s: WordState, step: WordStep): WordState
    requires WeightsOk(s) && WordEnabled(s, step)
  {
    match step
    case WOther(to) => s.(clock := to)
    case WAnchor(u) => s.(tasks := s.tasks[u := s.tasks[u].(phase := WPlacing(s.clock))])
    case WPlace(u, firstRun) => s.(tasks := s.tasks[u := WordPlaced(s.clock, s.slice, s.tasks[u], firstRun)])
    case WServe(u) => s.(tasks := s.tasks[u := s.tasks[u].(phase := WRunning)])
    case WCharge(u, delta) =>
      var t := s.tasks[u];
      s.(tasks := s.tasks[u := WordTask(Add64(t.vruntime, CalcDeltaFair(delta, t.weight)), t.weight, WCharged)])
    case WReadClock(u) =>
      var t := s.tasks[u];
      s.(tasks := s.tasks[u := t.(phase := if TimeBefore(s.clock, t.vruntime) then WSwapping(s.clock) else WStopped)])
    case WSwap(u) =>
      var t := s.tasks[u];
      WordState(if s.clock == t.phase.seen then t.vruntime else s.clock, s.slice,
                s.tasks[u := t.(phase := WStopped)])
  }

  // ---- Words and instants ----

  function WrapPhase(p: Phase): WordPhase {
    match p
    case Queued(d) => WQueued(Wrap(d))
    case Running => WRunning
    case Charged => WCharged
    case Swapping(seen) => WSwapping(Wrap(seen))
    case Stopped => WStopped
    case Placing(a) => WPlacing(Wrap(a))
  }

  function WrapTask(t: Task): WordTask
    requires 1 <= t.weight <= MAX_WEIGHT
  {
    WordTask(Wrap(t.vruntime), t.weight, WrapPhase(t.phase))
  }

  ghost predicate Wraps(w: WordState, s: State) {
    && w.clock == Wrap(s.clock) && w.slice == s.slice && SliceFits(w.slice) && |w.tasks| == |s.tasks|
    && forall u :: 0 <= u < |s.tasks| ==>
         1 <= s.tasks[u].weight <= MAX_WEIGHT && w.tasks[u] == WrapTask(s.tasks[u])
  }

  const QUARTER := 0x4000_0000_0000_0000

  ghost predicate NearTask(clock: int, t: Task) {
    && -QUARTER < t.vruntime - clock < QUARTER
    && match t.phase
       case Queued(d) => -QUARTER < d - clock < QUARTER
       case Swapping(seen) => -QUARTER < seen - clock < QUARTER
       case Placing(a) => -QUARTER < a - clock < QUARTER
       case _ => true
  }

  /** All instants lie less than 2^62 from the clock. */
  ghost predicate Near(s: State) {
    forall u :: 0 <= u < |s.tasks| ==> NearTask(s.clock, s.tasks[u])
  }

  /** The step on the timeline a step on words stands for. */
  function Lift(s: State, step: WordStep): Step {
    match step
    case WOther(to) => OtherAdvance(s.clock + Signed(Sub64(to, Wrap(s.clock))))
    case WAnchor(u) => Anchor(u)
    case WPlace(u, firstRun) => Place(u, firstRun)
    case WServe(u) => Serve(u)
    case WCharge(u, delta) => Charge(u, delta)
    case WReadClock(u) => ReadClock(u)
    case WSwap(u) => CompareAndSwap(u)
  }

  // ---- One step ----

  lemma LandsOn(clock: int, to: U64)
    ensures Wrap(clock + Signed(Sub64(to, Wrap(clock)))) == to
  {
    var z := Signed(Sub64(to, Wrap(clock)));
    var k := clock / U64_SIZE;
    assert clock == Wrap(clock) + k * U64_SIZE;
    var x := Wrap(clock) + z;
    WrapPeriod(x, k);
    assert x == to || x == to + U64_SIZE || x == to - U64_SIZE;
    WrapWord(to);
    WrapPeriod(to, 1);
    WrapPeriod(to, -1);
  }

  lemma SameWord(a: int, b: int)
    requires -U63_SIZE < a - b < U63_SIZE
    ensures Wrap(a) == Wrap(b) <==> a == b
  {
  }

  lemma PlaceSimulates(clock: int, slice: U64, t: Task, firstRun: bool)
    requires 1 <= t.weight <= MAX_WEIGHT && t.phase.Placing? && SliceFits(slice) && NearTask(clock, t)
    ensures WordPlaced(Wrap(clock), slice, WrapTask(t), firstRun)
         == WrapTask(Placed(State(clock, slice, [t]), t, firstRun))
  {
    hide Wrap, Add64, Sub64, TimeBefore;
    var s := State(clock, slice, [t]);
    PlaceWraps(t.phase.anchor, t.vruntime, slice, t.weight, firstRun);
    PlaceWraps(clock, t.vruntime, slice, t.weight, firstRun);
  }

  lemma ServeSimulates(w: WordState, s: State, u: nat)
    requires Wraps(w, s) && Near(s) && WordEnabled(w, WServe(u))
    ensures Enabled(s, Serve(u))
  {
    hide Wrap, TimeBefore;
    forall x | 0 <= x < |s.tasks| && s.tasks[x].phase.Queued?
      ensures s.tasks[u].phase.deadline <= s.tasks[x].phase.deadline
    {
      assert NearTask(s.clock, s.tasks[x]) && NearTask(s.clock, s.tasks[u]);
      assert w.tasks[x].phase.WQueued?;
      TimeBeforeIsLess(s.tasks[x].phase.deadline, s.tasks[u].phase.deadline);
    }
  }

  lemma ChargeWraps(v: int, delta: U64, weight: U32)
    requires weight >= 1 && delta * 100 < U64_SIZE
    ensures Add64(Wrap(v), CalcDeltaFair(delta, weight)) == Wrap(v + delta * 100 / weight)
  {
    hide Wrap, Add64, CalcDeltaFair;
    CalcExact(delta, weight);
    WrapAddWord(v, CalcDeltaFair(delta, weight));
  }

  lemma OtherSimulates(s: State, to: U64)
    requires TimeBefore(Wrap(s.clock), to)
    ensures Enabled(s, Lift(s, WOther(to)))
    ensures Wrap(Lift(s, WOther(to)).to) == to
  {
    LandsOn(s.clock, to);
  }

  lemma PlaceStep(w: WordState, s: State, u: nat, firstRun: bool)
    requires Wraps(w, s) && Near(s) && Valid(s) && WeightsOk(w) && WordEnabled(w, WPlace(u, firstRun))
    ensures Enabled(s, Place(u, firstRun))
    ensures Wraps(WordApply(w, WPlace(u, firstRun)), Apply(s, Place(u, firstRun)))
  {
    hide Wrap, Add64, Sub64, TimeBefore, SliceFits, Valid, WordPlaced, Placed;
    assert NearTask(s.clock, s.tasks[u]);
    PlaceSimulates(s.clock, w.slice, s.tasks[u], firstRun);
    PlacedAlone(s, s.tasks[u], firstRun);
  }

  /** The two halves of a clock advance. */
  lemma ClockStep(w: WordState, s: State, step: WordStep)
    requires step.WReadClock? || step.WSwap?
    requires Wraps(w, s) && Near(s) && Valid(s) && WeightsOk(w) && WordEnabled(w, step)
    ensures Enabled(s, Lift(s, step)) && Wraps(WordApply(w, step), Apply(s, Lift(s, step)))
  {
    hide Wrap, TimeBefore, SliceFits, Valid;
    var u := step.u;
    assert NearTask(s.clock, s.tasks[u]);
    if step.WReadClock? {
      TimeBeforeIsLess(s.clock, s.tasks[u].vruntime);
    } else {
      SameWord(s.clock, s.tasks[u].phase.seen);
    }
  }

  lemma WrapsWeights(w: WordState, s: State)
    requires Wraps(w, s)
    ensures WeightsOk(w)
  {
  }

  /** A step on words is the wrapped step on the timeline, as long as its instants are near. */
  lemma StepSimulates(w: WordState, s: State, step: WordStep)
    requires Wraps(w, s) && Near(s) && Valid(s) && WeightsOk(w) && WordEnabled(w, step)
    ensures Enabled(s, Lift(s, step))
    ensures Wraps(WordApply(w, step), Apply(s, Lift(s, step))) && WeightsOk(WordApply(w, step))
  {
    hide Wrap, Add64, Sub64, TimeBefore, CalcDeltaFair, SliceFits, Valid, WordPlaced, Placed, Signed, WeightsOk;
    match step {
      case WOther(to) => OtherSimulates(s, to);
      case WAnchor(u) =>
      case WPlace(u, firstRun) => PlaceStep(w, s, u, firstRun);
      case WServe(u) => ServeSimulates(w, s, u);
      case WCharge(u, delta) => ChargeWraps(s.tasks[u].vruntime, delta, s.tasks[u].weight);
      case _ => ClockStep(w, s, step);
    }
    WrapsWeights(WordApply(w, step), Apply(s, Lift(s, step)));
  }

  lemma PlacedAlone(s: State, t: Task, firstRun: bool)
    requires t.weight >= 1 && t.phase.Placing?
    ensures Placed(s, t, firstRun) == Placed(State(s.clock, s.slice, [t]), t, firstRun)
    ensures Placed(s, t, firstRun).weight == t.weight
  {
  }

  // ---- Whole runs ----

  ghost predicate WordRun(w: WordState, steps: seq<WordStep>, w': WordState)
    decreases |steps|
  {
    if steps == [] then w == w'
    else WeightsOk(w) && WordEnabled(w, steps[0]) && WordRun(WordApply(w, steps[0]), steps[1..], w')
  }

  /** The timeline run the word steps stand for, from s. */
  ghost function Lifted(s: State, steps: seq<WordStep>): seq<Step>
    requires Valid(s)
    decreases |steps|
  {
    if steps == [] || !Enabled(s, Lift(s, steps[0])) then []
    else
      var step := Lift(s, steps[0]);
      StepKeepsValid(s, step);
      [step] + Lifted(Apply(s, step), steps[1..])
  }

  /** All instants of that run stay less than 2^62 from its clock. */
  ghost predicate StaysNear(s: State, steps: seq<WordStep>)
    requires Valid(s)
    decreases |steps|
  {
    Near(s) &&
    (steps != [] && Enabled(s, Lift(s, steps[0])) ==>
       (StepKeepsValid(s, Lift(s, steps[0])); StaysNear(Apply(s, Lift(s, steps[0])), steps[1..])))
  }

  function WordServices(steps: seq<WordStep>): nat {
    if steps == [] then 0 else (if steps[0].WServe? then 1 else 0) + WordServices(steps[1..])
  }

  /** A whole run of the code is the wrapped run of the timeline, step by step. */
  lemma {:induction false} RunSimulates(w: WordState, s: State, steps: seq<WordStep>, w': WordState)
    requires Valid(s) && Wraps(w, s) && StaysNear(s, steps) && WordRun(w, steps, w')
    ensures EnabledRun(s, Lifted(s, steps)) && Wraps(w', Final(s, Lifted(s, steps))) && Near(Final(s, Lifted(s, steps)))
    ensures Services(Lifted(s, steps)) == WordServices(steps)
    ensures forall u :: Serve(u) in Lifted(s, steps) ==> WServe(u) in steps
    decreases |steps|
  {
    hide Valid, Near, Wraps, WordApply, WordEnabled, WeightsOk, Enabled, Apply;
    if steps != [] {
      var step := Lift(s, steps[0]);
      StepSimulates(w, s, steps[0]);
      StepKeepsValid(s, step);
      var rest := Lifted(Apply(s, step), steps[1..]);
      RunSimulates(WordApply(w, steps[0]), Apply(s, step), steps[1..], w');
      assert Lifted(s, steps) == [step] + rest && ([step] + rest)[1..] == rest;
    }
  }

  /**
   * Starvation bound of the code: in a run on words that never serves `me`, the others are served at
   * most as often as the timeline bound says.
   */
  lemma WordPassedOverBound(w: WordState, s: State, steps: seq<WordStep>, w': WordState, me: nat)
    requires Valid(s) && Wraps(w, s) && StaysNear(s, steps) && WordRun(w, steps, w')
    requires me < |w.tasks| && w.tasks[me].phase.WQueued? && WServe(me) !in steps
    ensures me < |s.tasks| && s.tasks[me].phase.Queued?
    ensures WordServices(steps) <= TurnsBefore(s, me, s.tasks[me].phase.deadline, |s.tasks|)
    ensures |w'.tasks| == |w.tasks| && w'.tasks[me] == w.tasks[me]
  {
    RunSimulates(w, s, steps, w');
    PassedOverBound(s, Lifted(s, steps), me);
  }

  /** Eligibility of the code: after every run on words no queued task is ahead of the clock. */
  lemma WordQueuedEligible(w: WordState, s: State, steps: seq<WordStep>, w': WordState, u: nat)
    requires Valid(s) && Wraps(w, s) && StaysNear(s, steps) && WordRun(w, steps, w')
    requires u < |w'.tasks| && w'.tasks[u].phase.WQueued?
    ensures !TimeBefore(w'.clock, w'.tasks[u].vruntime)
    ensures !TimeBefore(w'.tasks[u].phase.deadline, w'.tasks[u].vruntime)
  {
    hide TimeBefore, Wrap;
    RunSimulates(w, s, steps, w');
    var s' := Final(s, Lifted(s, steps));
    assert TaskOk(s', s'.tasks[u]) && NearTask(s'.clock, s'.tasks[u]);
    TimeBeforeIsLess(s'.clock, s'.tasks[u].vruntime);
    TimeBeforeIsLess(s'.tasks[u].phase.deadline, s'.tasks[u].vruntime);
  }

  lemma WordDistance(a: int, b: int)
    requires 0 <= b - a < U64_SIZE
    ensures Sub64(Wrap(b), Wrap(a)) == b - a
  {
    WrapSub(b, a);
    WrapWord(b - a);
  }

  /**
   * And a placement there leaves the task eligible, within its lag limit of the clock of its first
   * read, and due one request later plus what the clock moved between the two reads.
   */
  lemma WordPlacedEligible(w: WordState, s: State, steps: seq<WordStep>, w': WordState, u: nat, firstRun: bool)
    requires Valid(s) && Wraps(w, s) && StaysNear(s, steps) && WordRun(w, steps, w')
    requires WeightsOk(w') && WordEnabled(w', WPlace(u, firstRun))
    ensures var t, a := WordApply(w', WPlace(u, firstRun)).tasks[u], w'.tasks[u].phase.anchor;
            && t.phase.WQueued? && t.phase.deadline != 0
            && Sub64(a, t.vruntime) <= LagLimit(w'.slice, t.weight) && !TimeBefore(w'.clock, t.vruntime)
            && Sub64(t.phase.deadline, t.vruntime)
               <= Sub64(w'.clock, a) + VSlice(w'.slice, t.weight, firstRun) + 1
  {
    hide TimeBefore, Wrap, Add64, Sub64, VSlice, LagLimit, SliceFits, Placed, Limit, Request, Valid;
    RunSimulates(w, s, steps, w');
    var s' := Final(s, Lifted(s, steps));
    var t := s'.tasks[u];
    assert NearTask(s'.clock, t) && w'.tasks[u] == WrapTask(t);
    PlacedEligible(s, Lifted(s, steps), u, firstRun);
    FinalSlice(s, Lifted(s, steps));
    PlaceSimulates(s'.clock, w'.slice, t, firstRun);
    PlacedAlone(s', t, firstRun);
    PlacedNear(s', t, firstRun);
    var p, a := Placed(s', t, firstRun), t.phase.anchor;
    BoundsFit(w'.slice, t.weight, firstRun);
    WordDistance(p.vruntime, a);
    WordDistance(a, s'.clock);
    WordDistance(p.vruntime, p.phase.deadline);
    TimeBeforeIsLess(s'.clock, p.vruntime);
  }

  /** A placement does not move a task further back than its own vruntime or its anchor. */
  lemma PlacedNear(s: State, t: Task, firstRun: bool)
    requires t.weight >= 1 && t.phase.Placing? && s.slice >= 0
    ensures Placed(s, t, firstRun).vruntime >= Min(t.vruntime, t.phase.anchor)
  {
    DivLeq((s.slice + TICK_NS) * 100, t.weight);
  }
}

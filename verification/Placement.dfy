/** EEVDF placement, vruntime charging and the queue clock, on 64-bit words. */
module Placement {
  import opened Word

  const TICK_NS: U64 := 1_000_000

  /** The per-queue state a placement reads. */
  class QueueCtx {
    var clock: U64
    const maxSliceNs: U64

    constructor (slice: U64)
      ensures clock == 0 && maxSliceNs == slice
    {
      clock := 0;
      maxSliceNs := slice;
    }
  }

  /** The virtual-time block of the per-task state. */
  class TaskCtx {
    var vruntime: U64
    var vlag: int
    var deadline: U64
    var weight: U32
    var firstRun: bool

    constructor (w: U32)
      ensures vruntime == 0 && vlag == 0 && deadline == 0 && weight == Max(w, 1) && firstRun
    {
      vruntime, vlag, deadline, firstRun := 0, 0, 0, true;
      weight := if w == 0 then 1 else w;
    }
  }

  /** Virtual time of a physical delta; the weight scale has nice 0 at 100. */
  function CalcDeltaFair(delta: U64, weight: U32): U64
    requires weight >= 1
  {
    Mul64(delta, 100) / weight
  }

  function LagLimit(slice: U64, weight: U32): U64
    requires weight >= 1
  {
    CalcDeltaFair(Add64(slice, TICK_NS), weight)
  }

  function VSlice(slice: U64, weight: U32, firstRun: bool): U64
    requires weight >= 1
  {
    var v := CalcDeltaFair(slice, weight);
    if firstRun then v / 2 else v
  }

  /** The lag a placement keeps: none for a task ahead of the clock, at most the limit behind it. */
  function PlacedLag(clock: U64, vruntime: U64, limit: U64): U64 {
    var lag := if TimeBefore(clock, vruntime) then 0 else Sub64(clock, vruntime);
    if lag > limit then limit else lag
  }

  /** The read-only form: the deadline a placement would commit. */
  function PlaceEntityDeadline(q: QueueCtx, t: TaskCtx): U64
    requires t.weight >= 1
    reads q, t
  {
    var lag := PlacedLag(q.clock, t.vruntime, LagLimit(q.maxSliceNs, t.weight));
    var d := Add64(Sub64(q.clock, lag), VSlice(q.maxSliceNs, t.weight, t.firstRun));
    if d == 0 then 1 else d
  }

  /** Slices for which neither scaling product reaches 2^63: everything below 2.9 years. */
  predicate SliceFits(slice: U64) {
    (slice + TICK_NS) * 100 < 0x8000_0000_0000_0000
  }

  // ---- The same placement on the unbounded virtual timeline ----

  function Limit(slice: int, weight: int): int
    requires weight >= 1
  {
    (slice + TICK_NS) * 100 / weight
  }

  function Request(slice: int, weight: int, firstRun: bool): int
    requires weight >= 1
  {
    if firstRun then slice * 100 / weight / 2 else slice * 100 / weight
  }

  /** Placed vruntime: the task's own, clamped to [clock - limit, clock]. */
  function PlacedVruntime(clock: int, vruntime: int, limit: int): int {
    Max(Min(vruntime, clock), clock - limit)
  }

  /** Placed deadline, moved off the wrap point where its word would be the zero sentinel. */
  function PlacedDeadline(clock: int, vruntime: int, slice: int, weight: int, firstRun: bool): int
    requires weight >= 1
  {
    var d := PlacedVruntime(clock, vruntime, Limit(slice, weight)) + Request(slice, weight, firstRun);
    if Wrap(d) == 0 then d + 1 else d
  }

  /**
   * The limit and the request in numbers. Against the weight the limit is worth one slice and a tick of
   * service at the nice-0 weight of 100, the request one slice, and the first request half of it.
   */
  lemma BoundsInNumbers(slice: nat, weight: nat)
    requires weight >= 1
    ensures weight * Limit(slice, weight) <= (slice + 1_000_000) * 100 < weight * (Limit(slice, weight) + 1)
    ensures weight * Request(slice, weight, false) <= slice * 100 < weight * (Request(slice, weight, false) + 1)
    ensures 2 * Request(slice, weight, true) <= Request(slice, weight, false) <= 2 * Request(slice, weight, true) + 1
  {
    Parts((slice + 1_000_000) * 100, weight);
    Parts(slice * 100, weight);
  }

  lemma Parts(a: nat, w: nat)
    requires w >= 1
    ensures w * (a / w) <= a < w * (a / w + 1)
  {
    assert a == a / w * w + a % w;
    assert w * (a / w + 1) == w * (a / w) + w;
  }

  lemma DivLeq(a: int, w: int)
    requires a >= 0 && w >= 1
    ensures 0 <= a / w <= a
  {
  }

  /** Where the product fits a word the scaling is exact. */
  lemma CalcExact(delta: U64, weight: U32)
    requires weight >= 1 && delta * 100 < U64_SIZE
    ensures CalcDeltaFair(delta, weight) == delta * 100 / weight
    ensures 0 <= delta * 100 / weight <= delta * 100
  {
    DivLeq(delta * 100, weight);
  }

  /** With a fitting slice the word-sized bounds are the unbounded ones and stay below 2^63. */
  lemma BoundsFit(slice: U64, weight: U32, firstRun: bool)
    requires weight >= 1 && SliceFits(slice)
    ensures LagLimit(slice, weight) == Limit(slice, weight)
    ensures VSlice(slice, weight, firstRun) == Request(slice, weight, firstRun)
    ensures 0 <= Limit(slice, weight) < 0x8000_0000_0000_0000
    ensures 0 <= Request(slice, weight, firstRun) < 0x8000_0000_0000_0000
  {
    assert Add64(slice, TICK_NS) == slice + TICK_NS;
    CalcExact(slice + TICK_NS, weight);
    CalcExact(slice, weight);
  }

  /**
   * Place a task. For every pair of unbounded instants the two words stand for, less than 2^63
   * apart, the task ends clamped to [clock - limit, clock] with its distance to the clock as lag
   * and one request after it as deadline.
   */
  method PlaceEntity(q: QueueCtx, t: TaskCtx) returns (deadline: U64)
    requires t.weight >= 1
    modifies t`vruntime, t`vlag, t`deadline
    ensures deadline == t.deadline == old(PlaceEntityDeadline(q, t))
    ensures deadline != 0
    ensures t.deadline == (var d := Add64(t.vruntime, VSlice(q.maxSliceNs, t.weight, t.firstRun));
                           if d == 0 then 1 else d)
    ensures SliceFits(q.maxSliceNs) ==>
              t.vlag == Sub64(q.clock, t.vruntime) && 0 <= t.vlag <= Limit(q.maxSliceNs, t.weight)
    ensures SliceFits(q.maxSliceNs) ==> !TimeBefore(q.clock, t.vruntime)
    ensures SliceFits(q.maxSliceNs) ==>
              forall c: int, v: int ::
                Wrap(c) == q.clock && Wrap(v) == old(t.vruntime) && -U63_SIZE < c - v < U63_SIZE ==>
                  && t.vruntime == Wrap(PlacedVruntime(c, v, Limit(q.maxSliceNs, t.weight)))
                  && t.deadline == Wrap(PlacedDeadline(c, v, q.maxSliceNs, t.weight, t.firstRun))
                  && t.vlag == c - PlacedVruntime(c, v, Limit(q.maxSliceNs, t.weight))
  {
    ghost var v0 := t.vruntime;
    deadline := PlaceEntityDeadline(q, t);
    var limit := LagLimit(q.maxSliceNs, t.weight);
    var lag := if TimeBefore(q.clock, t.vruntime) then 0 else Sub64(q.clock, t.vruntime);
    if lag > limit {
      lag := limit;
    }
    t.vruntime := Sub64(q.clock, lag);
    t.vlag := Signed(lag);
    t.deadline := deadline;

    if SliceFits(q.maxSliceNs) {
      BoundsFit(q.maxSliceNs, t.weight, t.firstRun);
      LagBack(q.clock, lag);
      forall c: int, v: int
        | Wrap(c) == q.clock && Wrap(v) == v0 && -U63_SIZE < c - v < U63_SIZE
        ensures t.vruntime == Wrap(PlacedVruntime(c, v, limit))
        ensures t.vlag == c - PlacedVruntime(c, v, limit)
        ensures t.deadline == Wrap(PlacedDeadline(c, v, q.maxSliceNs, t.weight, t.firstRun))
      {
        PlaceWraps(c, v, q.maxSliceNs, t.weight, t.firstRun);
      }
    }
  }

  lemma LagBack(clock: U64, lag: U64)
    requires lag < 0x8000_0000_0000_0000
    ensures Sub64(clock, Sub64(clock, lag)) == lag
    ensures !TimeBefore(clock, Sub64(clock, lag))
  {
  }

  /** The word-sized placement is the unbounded one, wrapped. */
  lemma PlaceWraps(c: int, v: int, slice: U64, weight: U32, firstRun: bool)
    requires weight >= 1 && SliceFits(slice)
    requires -0x8000_0000_0000_0000 < c - v < 0x8000_0000_0000_0000
    ensures var lag := PlacedLag(Wrap(c), Wrap(v), LagLimit(slice, weight));
            var d := Add64(Sub64(Wrap(c), lag), VSlice(slice, weight, firstRun));
            && lag == c - PlacedVruntime(c, v, Limit(slice, weight))
            && Sub64(Wrap(c), lag) == Wrap(PlacedVruntime(c, v, Limit(slice, weight)))
            && (if d == 0 then 1 else d) == Wrap(PlacedDeadline(c, v, slice, weight, firstRun))
  {
    BoundsFit(slice, weight, firstRun);
    LagWraps(c, v, Limit(slice, weight));
    DeadlineWraps(c - PlacedVruntime(c, v, Limit(slice, weight)), c, Request(slice, weight, firstRun));
  }

  lemma LagWraps(c: int, v: int, limit: U64)
    requires -0x8000_0000_0000_0000 < c - v < 0x8000_0000_0000_0000
    ensures PlacedLag(Wrap(c), Wrap(v), limit) == c - PlacedVruntime(c, v, limit)
  {
    TimeBeforeIsLess(c, v);
    WrapSub(c, v);
  }

  lemma DeadlineWraps(lag: U64, c: int, r: U64)
    ensures Sub64(Wrap(c), lag) == Wrap(c - lag)
    ensures var d := Add64(Sub64(Wrap(c), lag), r);
            (if d == 0 then 1 else d) == Wrap(if Wrap(c - lag + r) == 0 then c - lag + r + 1 else c - lag + r)
  {
    WrapWord(lag);
    WrapSub(c, lag);
    WrapAddWord(c - lag, r);
    WrapAddWord(c - lag + r, 1);
    assert Add64(0, 1) == 1;
  }

  /** Charge one run segment. */
  method UpdateVruntime(t: TaskCtx, delta: U64)
    requires t.weight >= 1
    modifies t`vruntime
    ensures t.vruntime == Add64(old(t.vruntime), CalcDeltaFair(delta, t.weight))
    ensures delta * 100 < U64_SIZE ==>
              forall v: int :: Wrap(v) == old(t.vruntime) ==> t.vruntime == Wrap(v + delta * 100 / t.weight)
  {
    ghost var v0 := t.vruntime;
    var charge := CalcDeltaFair(delta, t.weight);
    t.vruntime := Add64(t.vruntime, charge);
    forall v: int | Wrap(v) == v0
      ensures t.vruntime == Wrap(v + charge)
    {
      WrapAddWord(v, charge);
    }
    if delta * 100 < U64_SIZE {
      CalcExact(delta, t.weight);
    }
  }

  /** The clock advance when no other CPU interferes: a monotone maximum. */
  method AdvanceClock(q: QueueCtx, vruntime: U64)
    modifies q`clock
    ensures forall c: int, v: int ::
              Wrap(c) == old(q.clock) && Wrap(v) == vruntime && -U63_SIZE < v - c < U63_SIZE ==>
                q.clock == Wrap(Max(c, v))
  {
    ghost var c0 := q.clock;
    var cur := q.clock;
    if TimeBefore(cur, vruntime) {
      q.clock := vruntime;
    }
    forall c: int, v: int | Wrap(c) == c0 && Wrap(v) == vruntime && -U63_SIZE < v - c < U63_SIZE
      ensures q.clock == Wrap(Max(c, v))
    {
      TimeBeforeIsLess(c, v);
    }
  }
}

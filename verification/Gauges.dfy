/** Runnable-ownership gauges, updated by all CPUs in single atomic operations. */
module Gauges {
  import opened Arithmetic
  import opened Word
  import Topology

  const NR_QUEUES := 3
  const UNOWNED: U8 := 0xFF

  /** One atomic operation on a gauge, or a write to the task's own ownership record. */
  datatype Op =
    | LlcAdd(llc: nat, up: bool)
    | QueueAdd(qid: nat, up: bool)
    | SetLlc(toLlc: U8)
    | SetQid(toQid: U8)

  datatype Call = Enter(qid: U8, llc: U32) | Exit

  /** The ownership record of a task. */
  datatype Record = Record(lastLlc: U8, lastQid: U8)

  /** The shared gauges; index 0 of the queue gauges is unused. */
  datatype Shared = Shared(llc: seq<U32>, queue: seq<U32>)

  function Bump(x: U32, up: bool): U32 {
    if up then (if x == U32_MAX then 0 else x + 1) else (if x == 0 then U32_MAX else x - 1)
  }

  /** The gauges after one operation; an index out of range is ignored. */
  function OnShared(s: Shared, op: Op): Shared {
    match op
    case LlcAdd(l, up) =>
      if l < Topology.MAX_LLCS && l < |s.llc| then s.(llc := s.llc[l := Bump(s.llc[l], up)]) else s
    case QueueAdd(q, up) =>
      if 1 <= q <= NR_QUEUES && q < |s.queue| then s.(queue := s.queue[q := Bump(s.queue[q], up)]) else s
    case _ => s
  }

  function OnRecord(r: Record, op: Op): Record {
    match op
    case SetLlc(l) => r.(lastLlc := l)
    case SetQid(q) => r.(lastQid := q)
    case _ => r
  }

  /** The operations of a call, in order. */
  function Program(r: Record, call: Call): seq<Op> {
    match call
    case Enter(qid, llc) =>
      if llc >= Topology.MAX_LLCS then []
      else if r.lastLlc == UNOWNED then [LlcAdd(llc, true), QueueAdd(qid, true), SetLlc(llc), SetQid(qid)]
      else
        (if r.lastLlc != llc then [LlcAdd(r.lastLlc, false), LlcAdd(llc, true), SetLlc(llc)] else [])
        + if r.lastQid != qid then [QueueAdd(r.lastQid, false), QueueAdd(qid, true), SetQid(qid)] else []
    case Exit =>
      if r.lastLlc == UNOWNED then []
      else [LlcAdd(r.lastLlc, false), QueueAdd(r.lastQid, false), SetLlc(UNOWNED), SetQid(0)]
  }

  // ---- The calls as code, each running its operations to the end ----

  function AllShared(s: Shared, ops: seq<Op>): Shared
    decreases |ops|
  {
    if ops == [] then s else AllShared(OnShared(s, ops[0]), ops[1..])
  }

  function AllRecord(r: Record, ops: seq<Op>): Record
    decreases |ops|
  {
    if ops == [] then r else AllRecord(OnRecord(r, ops[0]), ops[1..])
  }

  class GaugeTable {
    var llcRunnable: seq<U32>
    var queueRunnable: seq<U32>

    function Contents(): Shared
      reads this
    {
      Shared(llcRunnable, queueRunnable)
    }

    method AddLlc(llc: U32, up: bool)
      requires |llcRunnable| == Topology.MAX_LLCS
      modifies this
      ensures Contents() == OnShared(old(Contents()), LlcAdd(llc, up))
    {
      if llc < Topology.MAX_LLCS {
        llcRunnable := llcRunnable[llc := Bump(llcRunnable[llc], up)];
      }
    }

    method AddQueue(qid: U32, up: bool)
      requires |queueRunnable| == NR_QUEUES + 1
      modifies this
      ensures Contents() == OnShared(old(Contents()), QueueAdd(qid, up))
    {
      if 1 <= qid <= NR_QUEUES {
        queueRunnable := queueRunnable[qid := Bump(queueRunnable[qid], up)];
      }
    }
  }

  class TaskCtx {
    var lastLlc: U8
    var lastQid: U8

    function Contents(): Record
      reads this
    {
      Record(lastLlc, lastQid)
    }

    method RunnableEnter(g: GaugeTable, qid: U8, llc: U32)
      requires |g.llcRunnable| == Topology.MAX_LLCS && |g.queueRunnable| == NR_QUEUES + 1
      modifies this, g
      ensures g.Contents() == AllShared(old(g.Contents()), Program(old(Contents()), Enter(qid, llc)))
      ensures Contents() == AllRecord(old(Contents()), Program(old(Contents()), Enter(qid, llc)))
      ensures Contents() == if llc < Topology.MAX_LLCS then Record(llc, qid) else old(Contents())
    {
      if llc >= Topology.MAX_LLCS {
        return;
      }
      ghost var s0, r0 := g.Contents(), Contents();
      if lastLlc == UNOWNED {
        g.AddLlc(llc, true);
        g.AddQueue(qid, true);
        lastLlc, lastQid := llc, qid;
        Four(s0, r0, LlcAdd(llc, true), QueueAdd(qid, true), SetLlc(llc), SetQid(qid));
        return;
      }
      ghost var moveLlc :=
        if r0.lastLlc != llc then [LlcAdd(r0.lastLlc, false), LlcAdd(llc, true), SetLlc(llc)] else [];
      ghost var moveQid :=
        if r0.lastQid != qid then [QueueAdd(r0.lastQid, false), QueueAdd(qid, true), SetQid(qid)] else [];
      InOrder(s0, r0, moveLlc, moveQid);
      if lastLlc != llc {
        g.AddLlc(lastLlc, false);
        g.AddLlc(llc, true);
        lastLlc := llc;
        Three(s0, r0, moveLlc[0], moveLlc[1], moveLlc[2]);
      }
      ghost var s1, r1 := g.Contents(), Contents();
      if lastQid != qid {
        g.AddQueue(lastQid, false);
        g.AddQueue(qid, true);
        lastQid := qid;
        Three(s1, r1, moveQid[0], moveQid[1], moveQid[2]);
      }
    }

    method RunnableExit(g: GaugeTable)
      requires |g.llcRunnable| == Topology.MAX_LLCS && |g.queueRunnable| == NR_QUEUES + 1
      modifies this, g
      ensures g.Contents() == AllShared(old(g.Contents()), Program(old(Contents()), Exit))
      ensures Contents() == AllRecord(old(Contents()), Program(old(Contents()), Exit))
      ensures Contents() == if old(lastLlc) == UNOWNED then old(Contents()) else Record(UNOWNED, 0)
    {
      if lastLlc == UNOWNED {
        return;
      }
      ghost var s0, r0 := g.Contents(), Contents();
      g.AddLlc(lastLlc, false);
      g.AddQueue(lastQid, false);
      lastLlc, lastQid := UNOWNED, 0;
      Four(s0, r0, LlcAdd(r0.lastLlc, false), QueueAdd(r0.lastQid, false), SetLlc(UNOWNED), SetQid(0));
    }
  }

  lemma Three(s: Shared, r: Record, a: Op, b: Op, c: Op)
    ensures AllShared(s, [a, b, c]) == OnShared(OnShared(OnShared(s, a), b), c)
    ensures AllRecord(r, [a, b, c]) == OnRecord(OnRecord(OnRecord(r, a), b), c)
  {
    hide OnShared, OnRecord;
    assert [a, b, c][1..] == [b, c] && [b, c][1..] == [c] && [c][1..] == [];
    var s1, r1 := OnShared(s, a), OnRecord(r, a);
    assert AllShared(s1, [b, c]) == AllShared(OnShared(s1, b), [c]);
    assert AllRecord(r1, [b, c]) == AllRecord(OnRecord(r1, b), [c]);
  }

  lemma Four(s: Shared, r: Record, a: Op, b: Op, c: Op, d: Op)
    ensures AllShared(s, [a, b, c, d]) == OnShared(OnShared(OnShared(OnShared(s, a), b), c), d)
    ensures AllRecord(r, [a, b, c, d]) == OnRecord(OnRecord(OnRecord(OnRecord(r, a), b), c), d)
  {
    hide OnShared, OnRecord;
    assert [a, b, c, d][1..] == [b, c, d];
    Three(OnShared(s, a), OnRecord(r, a), b, c, d);
  }

  lemma {:induction false} InOrder(s: Shared, r: Record, a: seq<Op>, b: seq<Op>)
    ensures AllShared(s, a + b) == AllShared(AllShared(s, a), b)
    ensures AllRecord(r, a + b) == AllRecord(AllRecord(r, a), b)
    decreases |a|
  {
    hide OnShared, OnRecord;
    if a == [] {
      assert a + b == b;
    } else {
      InOrder(OnShared(s, a[0]), OnRecord(r, a[0]), a[1..], b);
      assert (a + b)[1..] == a[1..] + b;
    }
  }

  // ---- Interleaved calls ----

  /**
   * A task: its ownership record, the operations of its current call still to run, and the gauges
   * its increments are in right now (`held`: no domain is UNOWNED, no queue is 0).
   */
  datatype Task = Task(record: Record, pending: seq<Op>, held: Record)

  datatype State = State(shared: Shared, tasks: seq<Task>)

  datatype Action = Begin(t: nat, call: Call) | Step(t: nat)

  function OnHeld(h: Record, op: Op): Record {
    match op
    case LlcAdd(l, up) => h.(lastLlc := if up && l < Topology.MAX_LLCS then l else UNOWNED)
    case QueueAdd(q, up) => h.(lastQid := if up && q <= NR_QUEUES then q else 0)
    case _ => h
  }

  /** Calls of one task are serialized; the queue of an insert is a real one. */
  predicate Enabled(s: State, a: Action) {
    match a
    case Begin(t, call) =>
      t < |s.tasks| && s.tasks[t].pending == [] && (call.Enter? ==> 1 <= call.qid <= NR_QUEUES)
    case Step(t) => t < |s.tasks| && s.tasks[t].pending != []
  }

  function Apply(s: State, a: Action): State
    requires Enabled(s, a)
  {
    match a
    case Begin(t, call) =>
      s.(tasks := s.tasks[t := s.tasks[t].(pending := Program(s.tasks[t].record, call))])
    case Step(t) =>
      var task := s.tasks[t];
      var op := task.pending[0];
      State(OnShared(s.shared, op),
            s.tasks[t := Task(OnRecord(task.record, op), task.pending[1..], OnHeld(task.held, op))])
  }

  /** Nobody counted, nothing running. */
  ghost predicate Init(s: State) {
    && s.shared == Shared(seq(Topology.MAX_LLCS, _ => 0), seq(NR_QUEUES + 1, _ => 0)) && |s.tasks| < U32_MAX
    && forall t :: 0 <= t < |s.tasks| ==> s.tasks[t] == Task(Record(UNOWNED, 0), [], Record(UNOWNED, 0))
  }

  // ---- Counting holders ----

  /** A gauge: one LLC domain or one queue. */
  datatype Gauge = OfLlc(l: nat) | OfQueue(q: nat)

  predicate IsGauge(g: Gauge) {
    match g
    case OfLlc(l) => l < Topology.MAX_LLCS
    case OfQueue(q) => 1 <= q <= NR_QUEUES
  }

  function Value(s: Shared, g: Gauge): int
    requires |s.llc| == Topology.MAX_LLCS && |s.queue| == NR_QUEUES + 1 && IsGauge(g)
  {
    match g
    case OfLlc(l) => s.llc[l]
    case OfQueue(q) => s.queue[q]
  }

  /** 1 if the record names the gauge. */
  function Names(r: Record, g: Gauge): nat {
    match g
    case OfLlc(l) => if r.lastLlc == l then 1 else 0
    case OfQueue(q) => if r.lastQid == q then 1 else 0
  }

  function Holders(tasks: seq<Task>, g: Gauge): nat {
    if tasks == [] then 0 else Holders(tasks[..|tasks| - 1], g) + Names(tasks[|tasks| - 1].held, g)
  }

  function Owners(tasks: seq<Task>, g: Gauge): nat {
    if tasks == [] then 0 else Owners(tasks[..|tasks| - 1], g) + Names(tasks[|tasks| - 1].record, g)
  }

  function InFlight(tasks: seq<Task>): nat {
    if tasks == [] then 0
    else InFlight(tasks[..|tasks| - 1]) + if tasks[|tasks| - 1].pending != [] then 1 else 0
  }

  // ---- Invariant ----

  predicate GoodRecord(r: Record) {
    && (r.lastLlc < Topology.MAX_LLCS || r.lastLlc == UNOWNED) && r.lastQid <= NR_QUEUES
    && (r.lastLlc == UNOWNED <==> r.lastQid == 0)
  }

  /** An increment is into a gauge the task is not in, a decrement out of the one it is in. */
  predicate Legal(h: Record, op: Op) {
    match op
    case LlcAdd(l, up) => l < Topology.MAX_LLCS && h.lastLlc == if up then UNOWNED else l
    case QueueAdd(q, up) => 1 <= q <= NR_QUEUES && h.lastQid == if up then 0 else q
    case _ => true
  }

  /** Every remaining operation is legal, and at the end of the call the task is in what it names. */
  predicate Ok(r: Record, h: Record, ops: seq<Op>)
    decreases |ops|
  {
    if ops == [] then h == r && GoodRecord(r)
    else Legal(h, ops[0]) && Ok(OnRecord(r, ops[0]), OnHeld(h, ops[0]), ops[1..])
  }

  ghost predicate Inv(s: State) {
    && |s.shared.llc| == Topology.MAX_LLCS && |s.shared.queue| == NR_QUEUES + 1 && |s.tasks| < U32_MAX
    && (forall t :: 0 <= t < |s.tasks| ==> Ok(s.tasks[t].record, s.tasks[t].held, s.tasks[t].pending))
    && forall g | IsGauge(g) :: Value(s.shared, g) == Holders(s.tasks, g)
  }

  lemma {:induction false} NoHolders(tasks: seq<Task>, g: Gauge)
    requires IsGauge(g) && forall t :: 0 <= t < |tasks| ==> tasks[t].held == Record(UNOWNED, 0)
    ensures Holders(tasks, g) == 0
  {
    if tasks != [] {
      NoHolders(tasks[..|tasks| - 1], g);
    }
  }

  lemma InitHolds(s: State)
    requires Init(s)
    ensures Inv(s)
  {
    forall g | IsGauge(g)
      ensures Value(s.shared, g) == Holders(s.tasks, g)
    {
      NoHolders(s.tasks, g);
    }
  }

  // ---- Every call is legal from a good record ----

  lemma OkCons(r: Record, h: Record, op: Op, rest: seq<Op>)
    requires Legal(h, op) && Ok(OnRecord(r, op), OnHeld(h, op), rest)
    ensures Ok(r, h, [op] + rest)
  {
    assert ([op] + rest)[1..] == rest;
  }

  lemma OkThree(r: Record, h: Record, a: Op, b: Op, c: Op, rest: seq<Op>)
    requires var h1, h2 := OnHeld(h, a), OnHeld(OnHeld(h, a), b);
             && Legal(h, a) && Legal(h1, b) && Legal(h2, c)
             && Ok(OnRecord(OnRecord(OnRecord(r, a), b), c), OnHeld(h2, c), rest)
    ensures Ok(r, h, [a, b, c] + rest)
  {
    hide Ok, OnRecord, OnHeld, Legal;
    OkCons(OnRecord(OnRecord(r, a), b), OnHeld(OnHeld(h, a), b), c, rest);
    OkCons(OnRecord(r, a), OnHeld(h, a), b, [c] + rest);
    OkCons(r, h, a, [b] + ([c] + rest));
    assert [a] + ([b] + ([c] + rest)) == [a, b, c] + rest;
  }

  lemma ProgramIsOk(r: Record, call: Call)
    requires GoodRecord(r) && (call.Enter? ==> 1 <= call.qid <= NR_QUEUES)
    ensures Ok(r, r, Program(r, call))
  {
    match call
    case Enter(qid, llc) =>
      if llc < Topology.MAX_LLCS && r.lastLlc == UNOWNED {
        OkThree(r, r, LlcAdd(llc, true), QueueAdd(qid, true), SetLlc(llc), [SetQid(qid)]);
        assert [LlcAdd(llc, true), QueueAdd(qid, true), SetLlc(llc)] + [SetQid(qid)] == Program(r, call);
      } else if llc < Topology.MAX_LLCS {
        ContinuationIsOk(r, qid, llc);
      }
    case Exit =>
      if r.lastLlc != UNOWNED {
        OkThree(r, r, LlcAdd(r.lastLlc, false), QueueAdd(r.lastQid, false), SetLlc(UNOWNED), [SetQid(0)]);
        assert [LlcAdd(r.lastLlc, false), QueueAdd(r.lastQid, false), SetLlc(UNOWNED)] + [SetQid(0)]
            == Program(r, call);
      }
  }

  lemma ContinuationIsOk(r: Record, qid: U8, llc: U32)
    requires GoodRecord(r) && 1 <= qid <= NR_QUEUES && llc < Topology.MAX_LLCS && r.lastLlc != UNOWNED
    ensures Ok(r, r, Program(r, Enter(qid, llc)))
  {
    var moved := Record(llc, r.lastQid);
    var b := if r.lastQid != qid then [QueueAdd(r.lastQid, false), QueueAdd(qid, true), SetQid(qid)] else [];
    if r.lastQid != qid {
      OkThree(moved, moved, b[0], b[1], b[2], []);
      assert [b[0], b[1], b[2]] + [] == b;
    }
    assert Ok(moved, moved, b);
    if r.lastLlc != llc {
      OkThree(r, r, LlcAdd(r.lastLlc, false), LlcAdd(llc, true), SetLlc(llc), b);
    } else {
      assert [] + b == b;
    }
  }

  /** What a call asks for: the domain and queue of an insert, nothing after a release. */
  function Asked(r: Record, call: Call): Record {
    match call
    case Enter(qid, llc) => if llc < Topology.MAX_LLCS then Record(llc, qid) else r
    case Exit => Record(UNOWNED, 0)
  }

  lemma {:induction false} OpsOnGauge(s: Shared, r: Record, h: Record, ops: seq<Op>, g: Gauge)
    requires |s.llc| == Topology.MAX_LLCS && |s.queue| == NR_QUEUES + 1 && IsGauge(g) && Ok(r, h, ops)
    requires Names(h, g) <= Value(s, g) && Value(s, g) - Names(h, g) < U32_MAX
    ensures |AllShared(s, ops).llc| == Topology.MAX_LLCS && |AllShared(s, ops).queue| == NR_QUEUES + 1
    ensures Value(AllShared(s, ops), g) == Value(s, g) - Names(h, g) + Names(AllRecord(r, ops), g)
    decreases |ops|
  {
    hide OnShared, OnRecord, OnHeld, Names, Value, Legal;
    if ops != [] {
      OpOnGauge(s, h, ops[0], g);
      NamesAtMostOne(h, g);
      OpsOnGauge(OnShared(s, ops[0]), OnRecord(r, ops[0]), OnHeld(h, ops[0]), ops[1..], g);
    }
  }

  /**
   * A call run to its end leaves the task's record at what it asked for and moves every gauge by what
   * that changes: down by one where the record was, up by one where it now is, all others untouched.
   */
  lemma CallMovesTask(s: Shared, r: Record, call: Call, g: Gauge)
    requires |s.llc| == Topology.MAX_LLCS && |s.queue| == NR_QUEUES + 1 && IsGauge(g)
    requires GoodRecord(r) && (call.Enter? ==> 1 <= call.qid <= NR_QUEUES)
    requires Names(r, g) <= Value(s, g) && Value(s, g) - Names(r, g) < U32_MAX
    ensures AllRecord(r, Program(r, call)) == Asked(r, call)
    ensures |AllShared(s, Program(r, call)).llc| == Topology.MAX_LLCS
    ensures |AllShared(s, Program(r, call)).queue| == NR_QUEUES + 1
    ensures Value(AllShared(s, Program(r, call)), g) == Value(s, g) - Names(r, g) + Names(Asked(r, call), g)
  {
    hide Names, Value, Program;
    ProgramIsOk(r, call);
    OpsOnGauge(s, r, r, Program(r, call), g);
    EndsAsAsked(s, r, call);
  }

  lemma EndsAsAsked(s: Shared, r: Record, call: Call)
    requires GoodRecord(r)
    ensures AllRecord(r, Program(r, call)) == Asked(r, call)
  {
    match call
    case Enter(qid, llc) =>
      if llc < Topology.MAX_LLCS && r.lastLlc == UNOWNED {
        Four(s, r, LlcAdd(llc, true), QueueAdd(qid, true), SetLlc(llc), SetQid(qid));
      } else if llc < Topology.MAX_LLCS {
        var a := if r.lastLlc != llc then [LlcAdd(r.lastLlc, false), LlcAdd(llc, true), SetLlc(llc)] else [];
        var b := if r.lastQid != qid then [QueueAdd(r.lastQid, false), QueueAdd(qid, true), SetQid(qid)] else [];
        InOrder(s, r, a, b);
        if a != [] {
          Three(s, r, a[0], a[1], a[2]);
        }
        if b != [] {
          Three(s, AllRecord(r, a), b[0], b[1], b[2]);
        }
      }
    case Exit =>
      if r.lastLlc != UNOWNED {
        Four(s, r, LlcAdd(r.lastLlc, false), QueueAdd(r.lastQid, false), SetLlc(UNOWNED), SetQid(0));
      }
  }

  // ---- Steps ----

  lemma {:induction false} HoldersUpdate(tasks: seq<Task>, t: nat, task: Task, g: Gauge)
    requires t < |tasks|
    ensures Holders(tasks[t := task], g) == Holders(tasks, g) - Names(tasks[t].held, g) + Names(task.held, g)
    ensures Names(tasks[t].held, g) <= Holders(tasks, g) <= |tasks|
    ensures Holders(tasks, g) - Names(tasks[t].held, g) <= |tasks| - 1
    decreases |tasks|
  {
    hide Names;
    var n := |tasks| - 1;
    NamesAtMostOne(tasks[n].held, g);
    if t < n {
      HoldersUpdate(tasks[..n], t, task, g);
      assert tasks[t := task][..n] == tasks[..n][t := task];
    } else {
      assert tasks[t := task][..n] == tasks[..n];
      if n > 0 {
        HoldersUpdate(tasks[..n], 0, task, g);
      }
    }
  }

  lemma NamesAtMostOne(r: Record, g: Gauge)
    ensures Names(r, g) <= 1
  {
  }

  function Touches(op: Op, g: Gauge): bool {
    (op.LlcAdd? && g == OfLlc(op.llc)) || (op.QueueAdd? && g == OfQueue(op.qid))
  }

  /** One legal operation moves a gauge by what it moves the task, with no wrap at either end. */
  lemma OpOnGauge(s: Shared, h: Record, op: Op, g: Gauge)
    requires |s.llc| == Topology.MAX_LLCS && |s.queue| == NR_QUEUES + 1 && IsGauge(g) && Legal(h, op)
    requires Names(h, g) <= Value(s, g)
    requires Value(s, g) - Names(h, g) < U32_MAX
    ensures |OnShared(s, op).llc| == Topology.MAX_LLCS && |OnShared(s, op).queue| == NR_QUEUES + 1
    ensures Value(OnShared(s, op), g) == Value(s, g) - Names(h, g) + Names(OnHeld(h, op), g)
  {
  }

  lemma StepKeeps(s: State, t: nat)
    requires Inv(s) && Enabled(s, Step(t))
    ensures Inv(Apply(s, Step(t)))
  {
    hide OnShared, OnRecord, OnHeld, Names, Value, Holders;
    var s' := Apply(s, Step(t));
    var task := s.tasks[t];
    var op := task.pending[0];
    assert Ok(task.record, task.held, task.pending);
    forall g | IsGauge(g)
      ensures |s'.shared.llc| == Topology.MAX_LLCS && |s'.shared.queue| == NR_QUEUES + 1
      ensures Value(s'.shared, g) == Holders(s'.tasks, g)
    {
      HoldersUpdate(s.tasks, t, s'.tasks[t], g);
      OpOnGauge(s.shared, task.held, op, g);
    }
    assert IsGauge(OfLlc(0));
  }

  lemma BeginKeeps(s: State, t: nat, call: Call)
    requires Inv(s) && Enabled(s, Begin(t, call))
    ensures Inv(Apply(s, Begin(t, call)))
  {
    hide Names, Value, Holders, Program, OnRecord, OnHeld, Legal;
    var s' := Apply(s, Begin(t, call));
    var task := s.tasks[t];
    assert Ok(task.record, task.held, task.pending);
    ProgramIsOk(task.record, call);
    forall g | IsGauge(g)
      ensures Value(s'.shared, g) == Holders(s'.tasks, g)
    {
      HoldersUpdate(s.tasks, t, s'.tasks[t], g);
    }
  }

  // ---- Runs ----

  ghost predicate Run(s: State, acts: seq<Action>, s': State)
    decreases |acts|
  {
    if acts == [] then s == s' else Enabled(s, acts[0]) && Run(Apply(s, acts[0]), acts[1..], s')
  }

  lemma {:induction false} RunKeeps(s: State, acts: seq<Action>, s': State)
    requires Inv(s) && Run(s, acts, s')
    ensures Inv(s')
    decreases |acts|
  {
    hide Inv, Apply, Enabled;
    if acts != [] {
      match acts[0] {
        case Begin(t, call) => BeginKeeps(s, t, call);
        case Step(t) => StepKeeps(s, t);
      }
      RunKeeps(Apply(s, acts[0]), acts[1..], s');
    }
  }

  /** Before every decrement the gauge is above zero: no gauge underflows in any interleaving. */
  lemma NoUnderflow(s: State, acts: seq<Action>, s': State, t: nat, g: Gauge)
    requires Init(s) && Run(s, acts, s') && t < |s'.tasks| && s'.tasks[t].pending != [] && IsGauge(g)
    requires Touches(s'.tasks[t].pending[0], g) && !s'.tasks[t].pending[0].up
    ensures |s'.shared.llc| == Topology.MAX_LLCS && |s'.shared.queue| == NR_QUEUES + 1
    ensures Value(s'.shared, g) > 0
  {
    hide Holders, Value, OnRecord, OnHeld;
    InitHolds(s);
    RunKeeps(s, acts, s');
    var task := s'.tasks[t];
    assert Ok(task.record, task.held, task.pending);
    HoldersUpdate(s'.tasks, t, task, g);
  }

  lemma {:induction false} HoldersNearOwners(tasks: seq<Task>, g: Gauge)
    requires forall t :: 0 <= t < |tasks| ==> Ok(tasks[t].record, tasks[t].held, tasks[t].pending)
    ensures Owners(tasks, g) - InFlight(tasks) <= Holders(tasks, g) <= Owners(tasks, g) + InFlight(tasks)
  {
    hide Names, GoodRecord, Legal, OnRecord, OnHeld;
    if tasks != [] {
      var last := tasks[|tasks| - 1];
      HoldersNearOwners(tasks[..|tasks| - 1], g);
      NamesAtMostOne(last.held, g);
      NamesAtMostOne(last.record, g);
    }
  }

  /** Each gauge is the number of records naming it, off by at most one per call in flight. */
  lemma GaugeCountsOwners(s: State, acts: seq<Action>, s': State, g: Gauge)
    requires Init(s) && Run(s, acts, s') && IsGauge(g)
    ensures |s'.shared.llc| == Topology.MAX_LLCS && |s'.shared.queue| == NR_QUEUES + 1
    ensures Owners(s'.tasks, g) - InFlight(s'.tasks) <= Value(s'.shared, g) <= Owners(s'.tasks, g) + InFlight(s'.tasks)
  {
    hide Holders, Owners, InFlight, Value, Ok;
    InitHolds(s);
    RunKeeps(s, acts, s');
    HoldersNearOwners(s'.tasks, g);
  }

  // ---- The two sums ----

  function Owned(tasks: seq<Task>): nat {
    if tasks == [] then 0
    else Owned(tasks[..|tasks| - 1]) + if tasks[|tasks| - 1].record.lastLlc != UNOWNED then 1 else 0
  }

  function LlcSum(tasks: seq<Task>, l: nat): nat {
    if l == 0 then 0 else LlcSum(tasks, l - 1) + Owners(tasks, OfLlc(l - 1))
  }

  lemma {:induction false} LlcSumLast(tasks: seq<Task>, l: nat)
    requires tasks != []
    ensures LlcSum(tasks, l) ==
            LlcSum(tasks[..|tasks| - 1], l) + if tasks[|tasks| - 1].record.lastLlc < l then 1 else 0
  {
    if l > 0 {
      LlcSumLast(tasks, l - 1);
    }
  }

  lemma {:induction false} LlcSumEmpty(l: nat)
    ensures LlcSum([], l) == 0
  {
    if l > 0 {
      LlcSumEmpty(l - 1);
    }
  }

  lemma {:induction false} OwnedSums(tasks: seq<Task>)
    requires forall t :: 0 <= t < |tasks| ==> GoodRecord(tasks[t].record)
    ensures LlcSum(tasks, Topology.MAX_LLCS) == Owned(tasks)
    ensures Owners(tasks, OfQueue(1)) + Owners(tasks, OfQueue(2)) + Owners(tasks, OfQueue(3)) == Owned(tasks)
  {
    if tasks == [] {
      LlcSumEmpty(Topology.MAX_LLCS);
    } else {
      OwnedSums(tasks[..|tasks| - 1]);
      LlcSumLast(tasks, Topology.MAX_LLCS);
      assert GoodRecord(tasks[|tasks| - 1].record);
    }
  }

  lemma {:induction false} SumIsLlcSum(gauge: seq<U32>, tasks: seq<Task>, l: nat)
    requires l <= |gauge| == Topology.MAX_LLCS
    requires forall k :: 0 <= k < Topology.MAX_LLCS ==> gauge[k] == Owners(tasks, OfLlc(k))
    ensures Sum(gauge[..l]) == LlcSum(tasks, l)
  {
    if l > 0 {
      SumIsLlcSum(gauge, tasks, l - 1);
      assert gauge[..l][..l - 1] == gauge[..l - 1];
    }
  }

  lemma {:induction false} NoneInFlight(tasks: seq<Task>)
    requires forall t :: 0 <= t < |tasks| ==> tasks[t].pending == []
    ensures InFlight(tasks) == 0
  {
    if tasks != [] {
      NoneInFlight(tasks[..|tasks| - 1]);
    }
  }

  lemma QuietRecords(s: State)
    requires Inv(s) && forall t :: 0 <= t < |s.tasks| ==> s.tasks[t].pending == []
    ensures forall t :: 0 <= t < |s.tasks| ==> GoodRecord(s.tasks[t].record)
  {
    hide Holders, Value, GoodRecord;
    forall t | 0 <= t < |s.tasks|
      ensures GoodRecord(s.tasks[t].record)
    {
      assert Ok(s.tasks[t].record, s.tasks[t].held, s.tasks[t].pending);
    }
  }

  /** Whenever no call is in flight, both gauge families add up to the number of owned tasks. */
  lemma SumsAgreeWhenQuiet(s: State, acts: seq<Action>, s': State)
    requires Init(s) && Run(s, acts, s')
    requires forall t :: 0 <= t < |s'.tasks| ==> s'.tasks[t].pending == []
    ensures |s'.shared.llc| == Topology.MAX_LLCS && |s'.shared.queue| == NR_QUEUES + 1
    ensures Sum(s'.shared.llc) == Owned(s'.tasks)
    ensures Sum(s'.shared.queue[1..]) == Owned(s'.tasks)
  {
    hide Holders, Owners, InFlight, Ok, Init, Run, Inv, Owned, Sum;
    InitHolds(s);
    RunKeeps(s, acts, s');
    QuietRecords(s');
    NoneInFlight(s'.tasks);
    OwnedSums(s'.tasks);
    GaugeCountsOwners(s, acts, s', OfQueue(1));
    GaugeCountsOwners(s, acts, s', OfQueue(2));
    GaugeCountsOwners(s, acts, s', OfQueue(3));
    var gauge := s'.shared.llc;
    forall k | 0 <= k < Topology.MAX_LLCS
      ensures gauge[k] == Owners(s'.tasks, OfLlc(k))
    {
      GaugeCountsOwners(s, acts, s', OfLlc(k));
    }
    SumIsLlcSum(gauge, s'.tasks, Topology.MAX_LLCS);
    assert gauge[..Topology.MAX_LLCS] == gauge;
    SumOfThree(s'.shared.queue[1..]);
  }

  lemma SumOfThree(x: seq<U32>)
    requires |x| == 3
    ensures Sum(x) == x[0] as int + x[1] as int + x[2] as int
  {
    assert Sum(x) == Sum(x[..2]) + x[2];
    assert x[..2][..1] == x[..1];
    assert Sum(x[..2]) == Sum(x[..1]) + x[1];
    assert x[..1][..0] == [];
  }
}

/**
 * Dispatch calls of all CPUs racing on the same DSQs, one locked move or insert at a time. A steal
 * names a DSQ it peeked earlier; by the time of its move the head may be another or gone.
 */
module DispatchRace {
  import opened StealScan
  import opened Dispatch

  /** The slot loop of one CPU: `left` slots to go, `moved` tasks moved since the call began. */
  datatype Loop =
    | Idle
    | AtSlot(left: nat, moved: nat)
    | Scanning(left: nat, moved: nat)
    | Stealing(d: nat, left: nat, moved: nat)

  /** Shared DSQs, the local DSQ and loop of each CPU, and where its local DSQ stood at the begin of its call. */
  datatype State = State(
    dsqs: seq<seq<Entry>>, locals: seq<seq<Entry>>, loops: seq<Loop>, quotas: seq<nat>, starts: seq<nat>)

  datatype Action =
    | Begin(c: nat, quota: nat)
    | OwnMove(c: nat, own: nat)
    | Choose(c: nat, from: nat)
    | GiveUp(c: nat)
    | StealMove(c: nat)
    | Insert(to: nat, at: nat, e: Entry)

  predicate Shaped(s: State) {
    |s.locals| == |s.loops| == |s.quotas| == |s.starts|
  }

  predicate Enabled(s: State, a: Action) {
    && Shaped(s)
    && match a
       case Begin(c, _) => c < |s.loops| && s.loops[c].Idle?
       case OwnMove(c, own) => c < |s.loops| && own < |s.dsqs| && s.loops[c].AtSlot? && s.loops[c].left > 0
       case Choose(c, from) => c < |s.loops| && from < |s.dsqs| && s.loops[c].Scanning?
       case GiveUp(c) =>
         c < |s.loops| && (s.loops[c].Scanning? || (s.loops[c].AtSlot? && s.loops[c].left == 0))
       case StealMove(c) => c < |s.loops| && s.loops[c].Stealing? && s.loops[c].d < |s.dsqs| && s.loops[c].left > 0
       case Insert(to, at, _) => to < |s.dsqs| && at <= |s.dsqs[to]|
  }

  /** A locked move of CPU c from DSQ d, and the loop state it leads to. */
  function AfterMove(s: State, c: nat, d: nat, yes: Loop, no: Loop): State
    requires Shaped(s) && c < |s.loops| && d < |s.dsqs|
  {
    var r := Moved(Queues(s.dsqs, s.locals[c]), d, c);
    s.(dsqs := r.dsqs, locals := s.locals[c := r.local],
       loops := s.loops[c := if Yields(s.dsqs[d], c) then yes else no])
  }

  function Apply(s: State, a: Action): State
    requires Enabled(s, a)
  {
    match a
    case Begin(c, quota) =>
      s.(loops := s.loops[c := AtSlot(quota, 0)], quotas := s.quotas[c := quota],
         starts := s.starts[c := |s.locals[c]|])
    case OwnMove(c, own) =>
      var l := s.loops[c];
      AfterMove(s, c, own, AtSlot(l.left - 1, l.moved + 1), Scanning(l.left, l.moved))
    case Choose(c, from) => s.(loops := s.loops[c := Stealing(from, s.loops[c].left, s.loops[c].moved)])
    case GiveUp(c) => s.(loops := s.loops[c := Idle])
    case StealMove(c) =>
      var l := s.loops[c];
      AfterMove(s, c, l.d, AtSlot(l.left - 1, l.moved + 1), AtSlot(l.left - 1, l.moved))
    case Insert(to, at, e) =>
      s.(dsqs := s.dsqs[to := s.dsqs[to][..at] + [e] + s.dsqs[to][at..]])
  }

  // ---- What every step keeps ----

  /** All tasks, wherever they wait. */
  function Everything(s: State): multiset<Entry> {
    Flat(s.dsqs) + Flat(s.locals)
  }

  /** A call has moved as many tasks as its local DSQ grew, at most one per slot it used. */
  ghost predicate LoopInv(s: State, c: nat)
    requires Shaped(s) && c < |s.loops|
  {
    match s.loops[c]
    case Idle => true
    case AtSlot(left, moved) => moved + left <= s.quotas[c] && |s.locals[c]| == s.starts[c] + moved
    case Scanning(left, moved) => left > 0 && moved + left <= s.quotas[c] && |s.locals[c]| == s.starts[c] + moved
    case Stealing(d, left, moved) =>
      d < |s.dsqs| && left > 0 && moved + left <= s.quotas[c] && |s.locals[c]| == s.starts[c] + moved
  }

  ghost predicate Inv(s: State) {
    && Shaped(s)
    && (forall c: nat :: c < |s.loops| ==> LoopInv(s, c))
    && forall c: nat, e :: c < |s.locals| && e in s.locals[c] ==> c in e.allowed
  }

  function Inserted(a: Action): multiset<Entry> {
    if a.Insert? then multiset{a.e} else multiset{}
  }

  lemma MoveKeepsAll(s: State, c: nat, d: nat, yes: Loop, no: Loop)
    requires Shaped(s) && c < |s.loops| && d < |s.dsqs|
    ensures Everything(AfterMove(s, c, d, yes, no)) == Everything(s)
  {
    hide Flat, Moved;
    var qs := Queues(s.dsqs, s.locals[c]);
    var r := Moved(qs, d, c);
    MoveConserves(qs, d, c);
    FlatUpdate(s.locals, c, r.local);
    Balance(Flat(r.dsqs), multiset(r.local), Flat(s.dsqs), multiset(s.locals[c]),
            Flat(s.locals[c := r.local]), Flat(s.locals));
  }

  lemma Balance(a: multiset<Entry>, x: multiset<Entry>, b: multiset<Entry>, y: multiset<Entry>,
                f: multiset<Entry>, g: multiset<Entry>)
    requires a + x == b + y && f + y == g + x
    ensures a + f == b + g
  {
    forall e: Entry
      ensures (a + f)[e] == (b + g)[e]
    {
      assert (a + x)[e] == (b + y)[e] && (f + y)[e] == (g + x)[e];
    }
  }

  lemma InsertAdds(s: State, to: nat, at: nat, e: Entry)
    requires Enabled(s, Insert(to, at, e))
    ensures Everything(Apply(s, Insert(to, at, e))) == Everything(s) + multiset{e}
  {
    hide Flat;
    var q := s.dsqs[to];
    var q' := q[..at] + [e] + q[at..];
    assert q == q[..at] + q[at..];
    assert multiset(q') == multiset(q) + multiset{e};
    FlatUpdate(s.dsqs, to, q');
    InsertBalance(Flat(s.dsqs[to := q']), multiset(q), Flat(s.dsqs), multiset{e}, Flat(s.locals));
  }

  lemma InsertBalance(f: multiset<Entry>, q: multiset<Entry>, g: multiset<Entry>, e: multiset<Entry>,
                      l: multiset<Entry>)
    requires f + q == g + (q + e)
    ensures f + l == g + l + e
  {
    forall x: Entry
      ensures (f + l)[x] == (g + l + e)[x]
    {
      assert (f + q)[x] == (g + (q + e))[x];
    }
  }

  /** Every step conserves the tasks up to the one an insert brings. */
  lemma StepConserves(s: State, a: Action)
    requires Enabled(s, a)
    ensures Everything(Apply(s, a)) == Everything(s) + Inserted(a)
  {
    hide Everything, Moved;
    match a
    case OwnMove(c, own) =>
      var l := s.loops[c];
      MoveKeepsAll(s, c, own, AtSlot(l.left - 1, l.moved + 1), Scanning(l.left, l.moved));
    case StealMove(c) =>
      var l := s.loops[c];
      MoveKeepsAll(s, c, l.d, AtSlot(l.left - 1, l.moved + 1), AtSlot(l.left - 1, l.moved));
    case Insert(to, at, e) => InsertAdds(s, to, at, e);
    case _ => SameQueues(s, Apply(s, a));
  }

  lemma SameQueues(s: State, s': State)
    requires s'.dsqs == s.dsqs && s'.locals == s.locals
    ensures Everything(s') == Everything(s)
  {
  }

  lemma MovedIsAllowed(qs: Queues, d: nat, cpu: nat)
    requires d < |qs.dsqs|
    ensures forall e :: e in Moved(qs, d, cpu).local ==> e in qs.local || cpu in e.allowed
  {
  }

  lemma StepKeeps(s: State, a: Action)
    requires Inv(s) && Enabled(s, a)
    ensures Inv(Apply(s, a))
  {
    hide Moved, Yields;
    if a.OwnMove? || a.StealMove? {
      var d := if a.OwnMove? then a.own else s.loops[a.c].d;
      assert LoopInv(s, a.c);
      MovedGrows(Queues(s.dsqs, s.locals[a.c]), d, a.c);
      MovedIsAllowed(Queues(s.dsqs, s.locals[a.c]), d, a.c);
    }
    var s' := Apply(s, a);
    forall c: nat | c < |s'.loops|
      ensures LoopInv(s', c)
    {
      assert LoopInv(s, c);
    }
  }

  // ---- Runs ----

  ghost predicate Run(s: State, acts: seq<Action>, s': State)
    decreases |acts|
  {
    if acts == [] then s == s' else Enabled(s, acts[0]) && Run(Apply(s, acts[0]), acts[1..], s')
  }

  function AllInserted(acts: seq<Action>): multiset<Entry>
    decreases |acts|
  {
    if acts == [] then multiset{} else Inserted(acts[0]) + AllInserted(acts[1..])
  }

  /**
   * However the calls race: no task is lost, duplicated or invented; each local DSQ holds only tasks
   * that may run there; and a call moves at most its quota.
   */
  lemma {:induction false} RacingCallsConserve(s: State, acts: seq<Action>, s': State)
    requires Inv(s) && Run(s, acts, s')
    ensures Everything(s') == Everything(s) + AllInserted(acts)
    ensures Inv(s')
    decreases |acts|
  {
    hide Inv, Apply, Enabled, Everything;
    if acts != [] {
      StepConserves(s, acts[0]);
      StepKeeps(s, acts[0]);
      RacingCallsConserve(Apply(s, acts[0]), acts[1..], s');
    }
  }

  /** In particular a running call has moved no more than its quota. */
  lemma CallWithinQuota(s: State, acts: seq<Action>, s': State, c: nat)
    requires Inv(s) && Run(s, acts, s') && c < |s'.loops| && !s'.loops[c].Idle?
    ensures |s'.locals| == |s'.starts| == |s'.quotas| == |s'.loops|
    ensures s'.starts[c] <= |s'.locals[c]| <= s'.starts[c] + s'.quotas[c]
  {
    hide Everything;
    RacingCallsConserve(s, acts, s');
    assert LoopInv(s', c);
  }

  // ---- A call on its own ----

  lemma {:induction false} RunAppend(s: State, a: seq<Action>, mid: State, b: seq<Action>, s': State)
    requires Run(s, a, mid) && Run(mid, b, s')
    ensures Run(s, a + b, s')
    decreases |a|
  {
    hide Apply, Enabled;
    if a == [] {
      assert a + b == b;
    } else {
      RunAppend(Apply(s, a[0]), a[1..], mid, b, s');
      assert (a + b)[1..] == a[1..] + b;
    }
  }

  lemma RunOne(s: State, a: Action)
    requires Enabled(s, a)
    ensures Run(s, [a], Apply(s, a))
  {
    assert [a][1..] == [];
    assert Run(Apply(s, a), [], Apply(s, a));
  }

  function QueuesOf(s: State, c: nat): Queues
    requires c < |s.locals|
  {
    Queues(s.dsqs, s.locals[c])
  }

  /** The state after CPU c has filled its queues as r and left its call. */
  predicate LeftWith(s: State, c: nat, r: Queues, s': State) {
    && Shaped(s) && c < |s.loops|
    && s' == s.(dsqs := r.dsqs, locals := s.locals[c := r.local], loops := s.loops[c := Idle])
  }

  /** One slot of an undisturbed call: the source of the slot, moved. */
  lemma OneSlot(s: State, v: View, qid: nat) returns (acts: seq<Action>, s': State)
    requires Shaped(s) && v.cpu < |s.loops| && Sized(QueuesOf(s, v.cpu), v) && 1 <= qid <= 3
    requires s.loops[v.cpu].AtSlot? && s.loops[v.cpu].left > 0 && Source(QueuesOf(s, v.cpu), v, qid).Some?
    ensures Run(s, acts, s')
    ensures var c, qs := v.cpu, QueuesOf(s, v.cpu);
            var r := Moved(qs, DsqIndex(qid, Source(qs, v, qid).value), c);
            s' == s.(dsqs := r.dsqs, locals := s.locals[c := r.local],
                     loops := s.loops[c := AtSlot(s.loops[c].left - 1, s.loops[c].moved + 1)])
  {
    hide Run, TierA, TierB, Moved;
    var c, qs := v.cpu, QueuesOf(s, v.cpu);
    var own := DsqIndex(qid, c);
    RunOne(s, OwnMove(c, own));
    var s1 := Apply(s, OwnMove(c, own));
    if Yields(s.dsqs[own], c) {
      acts, s' := [OwnMove(c, own)], s1;
    } else {
      var from := DsqIndex(qid, Source(qs, v, qid).value);
      SourceYields(qs, v, qid);
      MovedGrows(qs, own, c);
      RunOne(s1, Choose(c, from));
      var s2 := Apply(s1, Choose(c, from));
      RunOne(s2, StealMove(c));
      s' := Apply(s2, StealMove(c));
      RunAppend(s, [OwnMove(c, own)], s1, [Choose(c, from)], s2);
      RunAppend(s, [OwnMove(c, own)] + [Choose(c, from)], s2, [StealMove(c)], s');
      acts := [OwnMove(c, own)] + [Choose(c, from)] + [StealMove(c)];
    }
  }

  /** The last slot of a call that finds nothing more to move, or has none left. */
  lemma LastSlot(s: State, v: View, qid: nat) returns (acts: seq<Action>, s': State)
    requires Shaped(s) && v.cpu < |s.loops| && Sized(QueuesOf(s, v.cpu), v) && 1 <= qid <= 3
    requires s.loops[v.cpu].AtSlot? && (s.loops[v.cpu].left == 0 || Source(QueuesOf(s, v.cpu), v, qid).None?)
    ensures Run(s, acts, s') && LeftWith(s, v.cpu, QueuesOf(s, v.cpu), s')
  {
    hide Run, TierA, TierB, Moved;
    var c := v.cpu;
    if s.loops[c].left == 0 {
      RunOne(s, GiveUp(c));
      acts, s' := [GiveUp(c)], Apply(s, GiveUp(c));
    } else {
      var own := DsqIndex(qid, c);
      MovedGrows(QueuesOf(s, c), own, c);
      RunOne(s, OwnMove(c, own));
      var s1 := Apply(s, OwnMove(c, own));
      RunOne(s1, GiveUp(c));
      s' := Apply(s1, GiveUp(c));
      RunAppend(s, [OwnMove(c, own)], s1, [GiveUp(c)], s');
      acts := [OwnMove(c, own)] + [GiveUp(c)];
    }
  }

  /** A racing call that nobody disturbs can serve exactly as the dispatcher does. */
  lemma {:induction false} SoloCall(s: State, v: View, qid: nat) returns (acts: seq<Action>, s': State)
    requires Shaped(s) && v.cpu < |s.loops| && Sized(QueuesOf(s, v.cpu), v) && 1 <= qid <= 3
    requires s.loops[v.cpu].AtSlot?
    ensures Run(s, acts, s') && LeftWith(s, v.cpu, Served(QueuesOf(s, v.cpu), v, qid, s.loops[v.cpu].left), s')
    decreases if s.loops[v.cpu].AtSlot? then s.loops[v.cpu].left else 0
  {
    hide Run, Source, Moved;
    var c, qs := v.cpu, QueuesOf(s, v.cpu);
    if s.loops[c].left == 0 || Source(qs, v, qid).None? {
      acts, s' := LastSlot(s, v, qid);
    } else {
      var first, s1 := OneSlot(s, v, qid);
      MovedGrows(qs, DsqIndex(qid, Source(qs, v, qid).value), c);
      var rest: seq<Action>;
      rest, s' := SoloCall(s1, v, qid);
      RunAppend(s, first, s1, rest, s');
      acts := first + rest;
    }
  }
}

/** Serving a CPU's three queues under their quotas: own head first, then the two steal tiers. */
module Dispatch {
  import opened Word
  import opened Wrappers
  import opened Topology
  import opened StealScan

  /** A queued task: its deadline and the CPUs it may run on. */
  datatype Entry = Entry(task: nat, deadline: U64, allowed: set<nat>)

  /** All queue DSQs, each in deadline order, and the local DSQ being filled. */
  datatype Queues = Queues(dsqs: seq<seq<Entry>>, local: seq<Entry>)

  function DsqIndex(qid: nat, cpu: nat): nat
    requires 1 <= qid <= 3
  {
    cpu * 3 + (qid - 1)
  }

  predicate Sized(qs: Queues, v: View) {
    WellFormed(v) && |qs.dsqs| == v.nr * 3
  }

  // ---- One move ----

  /** Place of the first entry that may run on cpu; the length if there is none. */
  function FirstAllowed(q: seq<Entry>, cpu: nat): (k: nat)
    ensures k <= |q| && (k < |q| ==> cpu in q[k].allowed)
    ensures forall i :: 0 <= i < k ==> cpu !in q[i].allowed
  {
    if q == [] || cpu in q[0].allowed then 0 else 1 + FirstAllowed(q[1..], cpu)
  }

  predicate Yields(q: seq<Entry>, cpu: nat) {
    FirstAllowed(q, cpu) < |q|
  }

  function Without(q: seq<Entry>, k: nat): seq<Entry>
    requires k < |q|
  {
    q[..k] + q[k + 1..]
  }

  /** The first entry of DSQ d that may run on cpu goes to the end of the local DSQ. */
  function Moved(qs: Queues, d: nat, cpu: nat): Queues
    requires d < |qs.dsqs|
  {
    var q := qs.dsqs[d];
    if !Yields(q, cpu) then qs
    else
      var k := FirstAllowed(q, cpu);
      Queues(qs.dsqs[d := Without(q, k)], qs.local + [q[k]])
  }

  // ---- The source of one slot ----

  /** CPU c holds a queue head that may run on the dispatching CPU. */
  predicate HeadHere(qs: Queues, v: View, qid: nat, c: nat)
    requires Sized(qs, v) && 1 <= qid <= 3
  {
    c < v.nr && var q := qs.dsqs[DsqIndex(qid, c)]; q != [] && v.cpu in q[0].allowed
  }

  function HeadDeadline(qs: Queues, v: View, qid: nat, c: nat): U64
    requires Sized(qs, v) && 1 <= qid <= 3 && HeadHere(qs, v, qid, c)
  {
    qs.dsqs[DsqIndex(qid, c)][0].deadline
  }

  /** The candidate a scan ends with: a later one replaces it only with a strictly earlier head. */
  function Best(qs: Queues, v: View, qid: nat, cands: seq<nat>): (r: Option<nat>)
    requires Sized(qs, v) && 1 <= qid <= 3
    ensures r.Some? ==> r.value in cands && HeadHere(qs, v, qid, r.value)
    ensures r.None? ==> forall c :: c in cands ==> !HeadHere(qs, v, qid, c)
  {
    if cands == [] then None
    else
      var before, c := Best(qs, v, qid, cands[..|cands| - 1]), cands[|cands| - 1];
      Better(qs, v, qid, before, c)
  }

  function Better(qs: Queues, v: View, qid: nat, best: Option<nat>, c: nat): Option<nat>
    requires Sized(qs, v) && 1 <= qid <= 3
    requires best.Some? ==> HeadHere(qs, v, qid, best.value)
  {
    if HeadHere(qs, v, qid, c)
       && (best.None? || TimeBefore(HeadDeadline(qs, v, qid, c), HeadDeadline(qs, v, qid, best.value)))
    then Some(c)
    else best
  }

  /** The CPU whose DSQ fills the next slot. */
  function Source(qs: Queues, v: View, qid: nat): (r: Option<nat>)
    requires Sized(qs, v) && 1 <= qid <= 3
    ensures r.Some? ==> r.value < v.nr
  {
    if Yields(qs.dsqs[DsqIndex(qid, v.cpu)], v.cpu) then Some(v.cpu)
    else
      var a := Best(qs, v, qid, TierA(v, LLC_SCAN_MAX));
      if a.Some? || !RunsTierB(v) then a else Best(qs, v, qid, TierB(v, ScanWidth(v)))
  }

  /** The queues after up to `quota` slots of queue qid; a slot without a source ends the service. */
  function Served(qs: Queues, v: View, qid: nat, quota: nat): (r: Queues)
    requires Sized(qs, v) && 1 <= qid <= 3
    ensures Sized(r, v)
    decreases quota
  {
    var src := Source(qs, v, qid);
    if quota == 0 || src.None? then qs
    else Served(Moved(qs, DsqIndex(qid, src.value), v.cpu), v, qid, quota - 1)
  }

  lemma MovedGrows(qs: Queues, d: nat, cpu: nat)
    requires d < |qs.dsqs|
    ensures var r := Moved(qs, d, cpu);
            |r.dsqs| == |qs.dsqs| && |r.local| == |qs.local| + if Yields(qs.dsqs[d], cpu) then 1 else 0
    ensures !Yields(qs.dsqs[d], cpu) ==> Moved(qs, d, cpu) == qs
  {
  }

  /** A source always yields: its own queue by the first test, a remote one through its head. */
  lemma SourceYields(qs: Queues, v: View, qid: nat)
    requires Sized(qs, v) && 1 <= qid <= 3 && Source(qs, v, qid).Some?
    ensures Yields(qs.dsqs[DsqIndex(qid, Source(qs, v, qid).value)], v.cpu)
  {
    hide TierA, TierB;
  }

  lemma BestPush(qs: Queues, v: View, qid: nat, cands: seq<nat>, c: nat)
    requires Sized(qs, v) && 1 <= qid <= 3
    ensures Best(qs, v, qid, cands + [c]) == Better(qs, v, qid, Best(qs, v, qid, cands), c)
  {
    hide Better, HeadHere;
    assert (cands + [c])[..|cands|] == cands;
  }

  lemma TierAStep(qs: Queues, v: View, qid: nat, i: nat)
    requires Sized(qs, v) && 1 <= qid <= 3 && TierASize(v) > 0
    ensures var idx, list := (v.off + i) % LLC_SCAN_MAX, v.lists[OwnLlc(v)];
            Best(qs, v, qid, TierA(v, i + 1)) ==
            if idx >= list.nr || list.cpus[idx] == v.cpu then Best(qs, v, qid, TierA(v, i))
            else Better(qs, v, qid, Best(qs, v, qid, TierA(v, i)), list.cpus[idx])
  {
    hide Best, Better;
    var idx, list := (v.off + i) % LLC_SCAN_MAX, v.lists[OwnLlc(v)];
    if idx < list.nr {
      BestPush(qs, v, qid, TierA(v, i), list.cpus[idx]);
    }
  }

  lemma TierBStep(qs: Queues, v: View, qid: nat, i: nat)
    requires Sized(qs, v) && 1 <= qid <= 3
    ensures var c := (v.off + i) % v.nr;
            Best(qs, v, qid, TierB(v, i + 1)) ==
            if Skipped(v, c) then Best(qs, v, qid, TierB(v, i))
            else Better(qs, v, qid, Best(qs, v, qid, TierB(v, i)), c)
  {
    hide Best, Better, Skipped;
    BestPush(qs, v, qid, TierB(v, i), (v.off + i) % v.nr);
  }

  lemma NoneOfNone(qs: Queues, v: View, qid: nat)
    requires Sized(qs, v) && 1 <= qid <= 3
    ensures Best(qs, v, qid, []) == None && TierB(v, 0) == [] && TierA(v, 0) == []
    ensures TierASize(v) == 0 ==> TierA(v, LLC_SCAN_MAX) == []
  {
  }

  // ---- The imperative form ----

  datatype Quotas = Quotas(q1: nat, q2: nat, maxBatch: nat)

  /** Validated configurations leave room for the third queue. */
  predicate ValidQuotas(q: Quotas) {
    q.q1 > 0 && q.q2 > 0 && q.q1 + q.q2 < q.maxBatch
  }

  /** The task that was running: still queued, tracked, and on which queue. */
  datatype Prev = NoPrev | Prev(queued: bool, tracked: bool, queue: U8)

  function ProbeCpu(v: View): nat
    requires WellFormed(v)
  {
    if v.off == v.cpu then (v.off + 1) % v.nr else v.off
  }

  predicate RemoteWork(qs: Queues, v: View, c: nat)
    requires Sized(qs, v)
  {
    HeadHere(qs, v, 1, c) || HeadHere(qs, v, 2, c) || HeadHere(qs, v, 3, c)
  }

  /** The outgoing task is kept if it is the only runnable work in sight. */
  predicate Keeps(qs: Queues, v: View, prev: Prev)
    requires Sized(qs, v)
  {
    && prev.Prev? && prev.queued && prev.tracked && 1 <= prev.queue <= 3
    && qs.dsqs[DsqIndex(1, v.cpu)] == qs.dsqs[DsqIndex(2, v.cpu)] == qs.dsqs[DsqIndex(3, v.cpu)] == []
    && (v.nr > 1 ==> !RemoteWork(qs, v, ProbeCpu(v)))
  }

  function AllServed(qs: Queues, v: View, quotas: Quotas): Queues
    requires Sized(qs, v) && ValidQuotas(quotas)
  {
    var r1 := Served(qs, v, 1, quotas.q1);
    var r2 := Served(r1, v, 2, quotas.q2);
    Served(r2, v, 3, Max(0, quotas.maxBatch - (|r2.local| - |qs.local|)))
  }

  /**
   * One share of a call: the entries p leave DSQs of queue qid only and may all run here; the own ones
   * come first, in queue order; a share below its budget means that no source was left.
   */
  ghost predicate Share(qs: Queues, v: View, qid: nat, budget: nat, r: Queues, p: seq<Entry>) {
    && Sized(qs, v) && Sized(r, v) && 1 <= qid <= 3
    && r.local == qs.local + p && |p| <= budget
    && (forall e :: e in p ==> v.cpu in e.allowed)
    && (forall d :: 0 <= d < v.nr * 3 && d % 3 != qid - 1 ==> r.dsqs[d] == qs.dsqs[d])
    && Flat(qs.dsqs) == Flat(r.dsqs) + multiset(p)
    && (var own := Allowed(qs.dsqs[v.cpu * 3 + (qid - 1)], v.cpu); own[..Min(|own|, budget)] <= p)
    && (|p| < budget ==> Source(r, v, qid).None?)
  }

  /** Q1 first within q1, then Q2 within q2, then Q3 within what both leave of the batch. */
  ghost predicate InThreeShares(qs: Queues, v: View, quotas: Quotas, r: Queues) {
    exists r1, r2, p1, p2, p3, rest: nat ::
      && Share(qs, v, 1, quotas.q1, r1, p1) && Share(r1, v, 2, quotas.q2, r2, p2) && Share(r2, v, 3, rest, r, p3)
      && |p1| + |p2| + rest == quotas.maxBatch
  }

  class Dispatcher {
    var dsqs: seq<seq<Entry>>
    var local: seq<Entry>
    var scanOff: U32

    function Contents(): Queues
      reads this
    {
      Queues(dsqs, local)
    }

    method MoveToLocal(d: nat, cpu: nat) returns (ok: bool)
      requires d < |dsqs|
      modifies this`dsqs, this`local
      ensures Contents() == Moved(old(Contents()), d, cpu)
      ensures ok <==> Yields(old(dsqs)[d], cpu)
    {
      var q := dsqs[d];
      var k := FirstAllowed(q, cpu);
      if k == |q| {
        return false;
      }
      dsqs, local := dsqs[d := Without(q, k)], local + [q[k]];
      return true;
    }

    /** The own-LLC window. */
    method ScanTierA(v: View, qid: nat) returns (best: Option<nat>)
      requires Sized(Contents(), v) && 1 <= qid <= 3
      ensures best == Best(Contents(), v, qid, TierA(v, LLC_SCAN_MAX))
    {
      hide Best, TierA, Better;
      best := None;
      NoneOfNone(Contents(), v, qid);
      if TierASize(v) > 0 {
        var list := v.lists[OwnLlc(v)];
        for i := 0 to LLC_SCAN_MAX
          invariant best == Best(Contents(), v, qid, TierA(v, i))
        {
          TierAStep(Contents(), v, qid, i);
          var idx := (v.off + i) % LLC_SCAN_MAX;
          if idx >= list.nr {
            continue;
          }
          var cand: nat := list.cpus[idx];
          if cand == v.cpu {
            continue;
          }
          best := Better(Contents(), v, qid, best, cand);
        }
      }
    }

    /** The rotating window. */
    method ScanTierB(v: View, qid: nat) returns (best: Option<nat>)
      requires Sized(Contents(), v) && 1 <= qid <= 3
      ensures best == Best(Contents(), v, qid, TierB(v, ScanWidth(v)))
    {
      hide Best, TierB, Better;
      best := None;
      NoneOfNone(Contents(), v, qid);
      for i := 0 to ScanWidth(v)
        invariant best == Best(Contents(), v, qid, TierB(v, i))
      {
        TierBStep(Contents(), v, qid, i);
        var cand := (v.off + i) % v.nr;
        if cand == v.cpu {
          continue;
        }
        if TierASize(v) > 0 && v.cpuLlc[cand] == OwnLlc(v) {
          continue;
        }
        best := Better(Contents(), v, qid, best, cand);
      }
    }

    method DispatchQueue(v: View, qid: nat, quota: nat) returns (moved: nat)
      requires Sized(Contents(), v) && 1 <= qid <= 3
      modifies this`dsqs, this`local
      ensures Contents() == Served(old(Contents()), v, qid, quota)
      ensures moved == |local| - |old(local)|
    {
      hide Best, TierA, TierB, Moved;
      moved := 0;
      for slot := 0 to quota
        invariant Sized(Contents(), v) && moved == |local| - |old(local)|
        invariant Served(Contents(), v, qid, quota - slot) == Served(old(Contents()), v, qid, quota)
      {
        ghost var before := Contents();
        MovedGrows(before, DsqIndex(qid, v.cpu), v.cpu);
        var own := MoveToLocal(DsqIndex(qid, v.cpu), v.cpu);
        if own {
          moved := moved + 1;
          continue;
        }
        var best := ScanTierA(v, qid);
        if best.None? && RunsTierB(v) {
          best := ScanTierB(v, qid);
        }
        if best.None? {
          break;
        }
        assert best == Source(before, v, qid);
        SourceYields(before, v, qid);
        MovedGrows(before, DsqIndex(qid, best.value), v.cpu);
        var ok := MoveToLocal(DsqIndex(qid, best.value), v.cpu);
        if ok {
          moved := moved + 1;
        }
      }
    }

    /** Whether the outgoing task is the only runnable work: no own queue, nothing at the probed CPU. */
    method DecideKeep(v: View, prev: Prev) returns (kept: bool)
      requires Sized(Contents(), v)
      ensures kept <==> Keeps(Contents(), v, prev)
    {
      hide HeadHere;
      if prev.NoPrev? || !prev.queued || dsqs[DsqIndex(1, v.cpu)] != [] || dsqs[DsqIndex(2, v.cpu)] != []
         || dsqs[DsqIndex(3, v.cpu)] != [] {
        return false;
      }
      if !prev.tracked || prev.queue < 1 || prev.queue > 3 {
        return false;
      }
      var remoteWork := false;
      if v.nr > 1 {
        var cand := v.off;
        if cand == v.cpu {
          cand := (cand + 1) % v.nr;
        }
        remoteWork := RemoteWork(Contents(), v, cand);
      }
      return !remoteWork;
    }

    /** Q1, then Q2, each within its quota, then Q3 with what is left of the batch. */
    method ServeQueues(v: View, quotas: Quotas)
      requires Sized(Contents(), v) && ValidQuotas(quotas)
      modifies this`dsqs, this`local
      ensures Contents() == AllServed(old(Contents()), v, quotas)
    {
      hide Served;
      ServedBudget(Contents(), v, 1, quotas.q1);
      var remaining: nat := quotas.maxBatch;
      var moved := DispatchQueue(v, 1, quotas.q1);
      remaining := remaining - moved;
      ServedBudget(Contents(), v, 2, quotas.q2);
      moved := DispatchQueue(v, 2, quotas.q2);
      remaining := remaining - moved;
      moved := DispatchQueue(v, 3, remaining);
    }

    /** One dispatch call: rotate the scan, then keep the outgoing task or serve the queues. */
    method Dispatch(machine: View, quotas: Quotas, prev: Prev) returns (kept: bool)
      requires Sized(Contents(), machine) && ValidQuotas(quotas)
      modifies this
      ensures scanOff == if old(scanOff) == U32_MAX then 0 else old(scanOff) + 1
      ensures var v := Rotated(machine, scanOff);
              && Sized(old(Contents()), v)
              && (kept <==> Keeps(old(Contents()), v, prev))
              && (kept ==> Contents() == old(Contents()))
              && (!kept ==> Contents() == AllServed(old(Contents()), v, quotas))
              && (!kept ==> InThreeShares(old(Contents()), v, quotas, Contents()))
    {
      hide AllServed, Keeps, InThreeShares;
      scanOff := if scanOff == U32_MAX then 0 else scanOff + 1;
      var v := Rotated(machine, scanOff);
      kept := DecideKeep(v, prev);
      if !kept {
        ServedInThreeShares(Contents(), v, quotas);
        ServeQueues(v, quotas);
      }
    }
  }

  // ---- What a service does ----

  lemma {:induction false} ServedBudget(qs: Queues, v: View, qid: nat, quota: nat)
    requires Sized(qs, v) && 1 <= qid <= 3
    ensures var r := Served(qs, v, qid, quota);
            |qs.local| <= |r.local| <= |qs.local| + quota && qs.local <= r.local
    decreases quota
  {
    hide Source;
    var src := Source(qs, v, qid);
    if quota > 0 && src.Some? {
      ServedBudget(Moved(qs, DsqIndex(qid, src.value), v.cpu), v, qid, quota - 1);
    }
  }

  /** A service that ends below its quota left no work it could take. */
  lemma {:induction false} ServedDrains(qs: Queues, v: View, qid: nat, quota: nat)
    requires Sized(qs, v) && 1 <= qid <= 3
    requires |Served(qs, v, qid, quota).local| < |qs.local| + quota
    ensures Source(Served(qs, v, qid, quota), v, qid).None?
    decreases quota
  {
    hide Source, Yields;
    var src := Source(qs, v, qid);
    if src.Some? {
      SourceYields(qs, v, qid);
      MovedGrows(qs, DsqIndex(qid, src.value), v.cpu);
      ServedDrains(Moved(qs, DsqIndex(qid, src.value), v.cpu), v, qid, quota - 1);
    }
  }

  /** Budget of a whole call: at most one batch moves, and the third queue always gets its share. */
  lemma BatchBudget(qs: Queues, v: View, quotas: Quotas)
    requires Sized(qs, v) && ValidQuotas(quotas)
    ensures |AllServed(qs, v, quotas).local| <= |qs.local| + quotas.maxBatch
    ensures var r2 := Served(Served(qs, v, 1, quotas.q1), v, 2, quotas.q2);
            quotas.maxBatch - (|r2.local| - |qs.local|) >= quotas.maxBatch - quotas.q1 - quotas.q2 > 0
  {
    hide Served;
    var r1 := Served(qs, v, 1, quotas.q1);
    var r2 := Served(r1, v, 2, quotas.q2);
    ServedBudget(qs, v, 1, quotas.q1);
    ServedBudget(r1, v, 2, quotas.q2);
    ServedBudget(r2, v, 3, Max(0, quotas.maxBatch - (|r2.local| - |qs.local|)));
  }

  // ---- Conservation ----

  function Flat(dsqs: seq<seq<Entry>>): multiset<Entry> {
    if dsqs == [] then multiset{} else Flat(dsqs[..|dsqs| - 1]) + multiset(dsqs[|dsqs| - 1])
  }

  function Tasks(qs: Queues): multiset<Entry> {
    Flat(qs.dsqs) + multiset(qs.local)
  }

  lemma AddToBoth(a: multiset<Entry>, b: multiset<Entry>, c: multiset<Entry>, d: multiset<Entry>, x: multiset<Entry>)
    requires a + b == c + d
    ensures a + x + b == c + x + d
  {
    assert a + x + b == a + b + x && c + x + d == c + d + x;
  }

  lemma Cancel(a: multiset<Entry>, q: multiset<Entry>, b: multiset<Entry>, w: multiset<Entry>, x: multiset<Entry>)
    requires a + q == b + w && w + x == q
    ensures a + x == b
  {
    forall e: Entry
      ensures (a + x)[e] == b[e]
    {
      assert (a + q)[e] == (b + w)[e] && (w + x)[e] == q[e];
    }
  }

  lemma {:induction false} FlatUpdate(dsqs: seq<seq<Entry>>, d: nat, q: seq<Entry>)
    requires d < |dsqs|
    ensures Flat(dsqs[d := q]) + multiset(dsqs[d]) == Flat(dsqs) + multiset(q)
  {
    var n := |dsqs| - 1;
    if d < n {
      FlatUpdate(dsqs[..n], d, q);
      assert dsqs[d := q][..n] == dsqs[..n][d := q];
      AddToBoth(Flat(dsqs[..n][d := q]), multiset(dsqs[d]), Flat(dsqs[..n]), multiset(q), multiset(dsqs[n]));
    } else {
      assert dsqs[d := q][..n] == dsqs[..n];
    }
  }

  lemma WithoutOne(q: seq<Entry>, k: nat)
    requires k < |q|
    ensures multiset(Without(q, k)) + multiset{q[k]} == multiset(q)
  {
    assert q == q[..k] + [q[k]] + q[k + 1..];
  }

  lemma MoveConserves(qs: Queues, d: nat, cpu: nat)
    requires d < |qs.dsqs|
    ensures Tasks(Moved(qs, d, cpu)) == Tasks(qs)
  {
    hide Flat;
    var q := qs.dsqs[d];
    if Yields(q, cpu) {
      var k := FirstAllowed(q, cpu);
      FlatUpdate(qs.dsqs, d, Without(q, k));
      WithoutOne(q, k);
      assert multiset(qs.local + [q[k]]) == multiset(qs.local) + multiset{q[k]};
      var moved := Flat(qs.dsqs[d := Without(q, k)]);
      Cancel(moved, multiset(q), Flat(qs.dsqs), multiset(Without(q, k)), multiset{q[k]});
      assert moved + (multiset(qs.local) + multiset{q[k]}) == moved + multiset{q[k]} + multiset(qs.local);
    }
  }

  lemma {:induction false} ServedConserves(qs: Queues, v: View, qid: nat, quota: nat)
    requires Sized(qs, v) && 1 <= qid <= 3
    ensures Tasks(Served(qs, v, qid, quota)) == Tasks(qs)
    decreases quota
  {
    hide Source, Moved, Tasks;
    var src := Source(qs, v, qid);
    if quota > 0 && src.Some? {
      MovedGrows(qs, DsqIndex(qid, src.value), v.cpu);
      MoveConserves(qs, DsqIndex(qid, src.value), v.cpu);
      ServedConserves(Moved(qs, DsqIndex(qid, src.value), v.cpu), v, qid, quota - 1);
    }
  }

  /** No dispatch call loses, invents or duplicates a task. */
  lemma BatchConserves(qs: Queues, v: View, quotas: Quotas)
    requires Sized(qs, v) && ValidQuotas(quotas)
    ensures Tasks(AllServed(qs, v, quotas)) == Tasks(qs)
  {
    hide Served, Tasks;
    var r1 := Served(qs, v, 1, quotas.q1);
    var r2 := Served(r1, v, 2, quotas.q2);
    ServedConserves(qs, v, 1, quotas.q1);
    ServedConserves(r1, v, 2, quotas.q2);
    ServedConserves(r2, v, 3, Max(0, quotas.maxBatch - (|r2.local| - |qs.local|)));
  }

  // ---- The three shares of a call ----

  /** A service takes its share: what it adds to the local DSQ, and where that came from. */
  lemma {:induction false} ServedSources(qs: Queues, v: View, qid: nat, quota: nat)
    requires Sized(qs, v) && 1 <= qid <= 3
    ensures var r := Served(qs, v, qid, quota);
            && (forall d :: 0 <= d < v.nr * 3 && d % 3 != qid - 1 ==> r.dsqs[d] == qs.dsqs[d])
            && qs.local <= r.local
            && (forall e :: e in r.local[|qs.local|..] ==> v.cpu in e.allowed)
    decreases quota
  {
    hide Source;
    var src := Source(qs, v, qid);
    if quota > 0 && src.Some? {
      var d := DsqIndex(qid, src.value);
      var next := Moved(qs, d, v.cpu);
      assert d % 3 == qid - 1;
      ServedSources(next, v, qid, quota - 1);
      var r := Served(next, v, qid, quota - 1);
      SourceYields(qs, v, qid);
      assert r.local[|qs.local|..] == [next.local[|qs.local|]] + r.local[|next.local|..];
    }
  }

  lemma TakenFromDsqs(qs: Queues, r: Queues, p: seq<Entry>)
    requires Tasks(r) == Tasks(qs) && r.local == qs.local + p
    ensures Flat(qs.dsqs) == Flat(r.dsqs) + multiset(p)
  {
    hide Flat;
    assert multiset(r.local) == multiset(qs.local) + multiset(p);
    forall e: Entry
      ensures Flat(qs.dsqs)[e] == (Flat(r.dsqs) + multiset(p))[e]
    {
      assert Tasks(r)[e] == Tasks(qs)[e];
    }
  }

  lemma ServedShare(qs: Queues, v: View, qid: nat, quota: nat) returns (p: seq<Entry>)
    requires Sized(qs, v) && 1 <= qid <= 3
    ensures Share(qs, v, qid, quota, Served(qs, v, qid, quota), p)
    ensures |p| == |Served(qs, v, qid, quota).local| - |qs.local|
  {
    hide Served, Flat, Allowed, Source, Tasks;
    var r := Served(qs, v, qid, quota);
    ServedBudget(qs, v, qid, quota);
    p := r.local[|qs.local|..];
    ServedSources(qs, v, qid, quota);
    ServedConserves(qs, v, qid, quota);
    TakenFromDsqs(qs, r, p);
    OwnFirst(qs, v, qid, quota);
    var own := Allowed(qs.dsqs[DsqIndex(qid, v.cpu)], v.cpu);
    PrefixOf(qs.local, own[..Min(|own|, quota)], p);
    if |p| < quota {
      ServedDrains(qs, v, qid, quota);
    }
  }

  lemma PrefixOf(a: seq<Entry>, b: seq<Entry>, p: seq<Entry>)
    requires a + b <= a + p
    ensures b <= p
  {
    forall i | 0 <= i < |b|
      ensures b[i] == p[i]
    {
      assert (a + b)[|a| + i] == (a + p)[|a| + i];
    }
  }

  /** Every call that serves takes from Q1, then Q2, then Q3, each within its budget. */
  lemma ServedInThreeShares(qs: Queues, v: View, quotas: Quotas)
    requires Sized(qs, v) && ValidQuotas(quotas)
    ensures InThreeShares(qs, v, quotas, AllServed(qs, v, quotas))
  {
    hide Served, Share;
    var p1 := ServedShare(qs, v, 1, quotas.q1);
    var r1 := Served(qs, v, 1, quotas.q1);
    var p2 := ServedShare(r1, v, 2, quotas.q2);
    var r2 := Served(r1, v, 2, quotas.q2);
    ShareBudget(qs, v, 1, quotas.q1, r1, p1);
    ShareBudget(r1, v, 2, quotas.q2, r2, p2);
    var rest := quotas.maxBatch - |p1| - |p2|;
    var p3 := ServedShare(r2, v, 3, rest);
  }

  lemma ShareBudget(qs: Queues, v: View, qid: nat, budget: nat, r: Queues, p: seq<Entry>)
    requires Share(qs, v, qid, budget, r, p)
    ensures |p| <= budget && |r.local| == |qs.local| + |p|
  {
    hide Flat, Allowed, Source;
  }

  // ---- Own work first ----

  /** The entries that may run on cpu, in queue order. */
  function Allowed(q: seq<Entry>, cpu: nat): seq<Entry> {
    if q == [] then []
    else if cpu in q[0].allowed then [q[0]] + Allowed(q[1..], cpu)
    else Allowed(q[1..], cpu)
  }

  lemma {:induction false} AllowedHead(q: seq<Entry>, cpu: nat)
    ensures Yields(q, cpu) <==> Allowed(q, cpu) != []
    ensures Yields(q, cpu) ==>
              var k := FirstAllowed(q, cpu);
              q[k] == Allowed(q, cpu)[0] && Allowed(Without(q, k), cpu) == Allowed(q, cpu)[1..]
  {
    if q != [] {
      if cpu in q[0].allowed {
        assert Without(q, 0) == q[1..];
      } else {
        AllowedHead(q[1..], cpu);
        if Yields(q, cpu) {
          var k := FirstAllowed(q, cpu);
          assert Without(q, k)[0] == q[0];
          assert Without(q, k)[1..] == Without(q[1..], k - 1);
        }
      }
    }
  }

  /** Within the quota every own task that can run here is moved, in queue order, before any other. */
  lemma {:induction false} OwnFirst(qs: Queues, v: View, qid: nat, quota: nat)
    requires Sized(qs, v) && 1 <= qid <= 3
    ensures var own := Allowed(qs.dsqs[DsqIndex(qid, v.cpu)], v.cpu);
            qs.local + own[..Min(|own|, quota)] <= Served(qs, v, qid, quota).local
    decreases quota
  {
    hide Best, Yields, FirstAllowed, Without;
    var d := DsqIndex(qid, v.cpu);
    var own := Allowed(qs.dsqs[d], v.cpu);
    AllowedHead(qs.dsqs[d], v.cpu);
    if quota > 0 && own != [] {
      var next := Moved(qs, d, v.cpu);
      MovedGrows(qs, d, v.cpu);
      OwnFirst(next, v, qid, quota - 1);
      var n := Min(|own|, quota);
      assert own[..n] == [own[0]] + own[1..][..n - 1];
      assert next.local + own[1..][..n - 1] == qs.local + own[..n];
    } else {
      ServedBudget(qs, v, qid, quota);
      assert qs.local + own[..Min(|own|, quota)] == qs.local;
    }
  }

  // ---- Deadline order ----

  /** No entry's deadline is before that of an entry ahead of it. */
  predicate InOrder(q: seq<Entry>) {
    forall i, j :: 0 <= i < j < |q| ==> !TimeBefore(q[j].deadline, q[i].deadline)
  }

  ghost predicate AllInOrder(qs: Queues) {
    forall d :: 0 <= d < |qs.dsqs| ==> InOrder(qs.dsqs[d])
  }

  /** The entry a move takes is due no later than any other that may run here. */
  lemma FirstIsEarliest(q: seq<Entry>, cpu: nat)
    requires InOrder(q) && Yields(q, cpu)
    ensures forall e :: e in q && cpu in e.allowed && e != q[FirstAllowed(q, cpu)] ==>
              !TimeBefore(e.deadline, q[FirstAllowed(q, cpu)].deadline)
    ensures InOrder(Without(q, FirstAllowed(q, cpu)))
  {
    hide TimeBefore;
    var k := FirstAllowed(q, cpu);
    forall e | e in q && cpu in e.allowed && e != q[k]
      ensures !TimeBefore(e.deadline, q[k].deadline)
    {
      var i :| 0 <= i < |q| && q[i] == e;
      assert i > k;
    }
    var r := Without(q, k);
    assert forall i :: 0 <= i < |r| ==> r[i] == q[if i < k then i else i + 1];
  }

  lemma {:induction false} ServedKeepsOrder(qs: Queues, v: View, qid: nat, quota: nat)
    requires Sized(qs, v) && 1 <= qid <= 3 && AllInOrder(qs)
    ensures AllInOrder(Served(qs, v, qid, quota))
    decreases quota
  {
    hide Source, Yields, FirstAllowed, Without, InOrder;
    var src := Source(qs, v, qid);
    if quota > 0 && src.Some? {
      var d := DsqIndex(qid, src.value);
      MovedGrows(qs, d, v.cpu);
      if Yields(qs.dsqs[d], v.cpu) {
        FirstIsEarliest(qs.dsqs[d], v.cpu);
      }
      ServedKeepsOrder(Moved(qs, d, v.cpu), v, qid, quota - 1);
    }
  }

  lemma {:induction false} AllowedInOrder(q: seq<Entry>, cpu: nat)
    requires InOrder(q)
    ensures InOrder(Allowed(q, cpu))
    ensures forall e :: e in Allowed(q, cpu) ==> e in q
  {
    hide TimeBefore;
    if q != [] {
      AllowedInOrder(q[1..], cpu);
      var rest := Allowed(q[1..], cpu);
      forall e | e in rest
        ensures !TimeBefore(e.deadline, q[0].deadline)
      {
        var i :| 0 <= i < |q[1..]| && q[1..][i] == e;
        assert q[i + 1] == e;
      }
    }
  }

  /** The own tasks a service moves leave in deadline order, before anything stolen. */
  lemma OwnInDeadlineOrder(qs: Queues, v: View, qid: nat, quota: nat)
    requires Sized(qs, v) && 1 <= qid <= 3 && AllInOrder(qs)
    ensures var own := Allowed(qs.dsqs[DsqIndex(qid, v.cpu)], v.cpu);
            && qs.local + own[..Min(|own|, quota)] <= Served(qs, v, qid, quota).local
            && InOrder(own[..Min(|own|, quota)])
  {
    hide Served, Allowed, TimeBefore;
    OwnFirst(qs, v, qid, quota);
    AllowedInOrder(qs.dsqs[DsqIndex(qid, v.cpu)], v.cpu);
  }

  // ---- The earliest deadline wins ----

  /** All heads that may run here lie on one half circle of the wrapping deadline order. */
  ghost predicate HeadsInArc(qs: Queues, v: View, qid: nat, base: U64)
    requires Sized(qs, v) && 1 <= qid <= 3
  {
    forall c :: HeadHere(qs, v, qid, c) ==> InArc(base, HeadDeadline(qs, v, qid, c))
  }

  /** A scan ends with a head no probed head is before. */
  lemma {:induction false} BestIsEarliest(qs: Queues, v: View, qid: nat, cands: seq<nat>, base: U64)
    requires Sized(qs, v) && 1 <= qid <= 3 && HeadsInArc(qs, v, qid, base)
    ensures var r := Best(qs, v, qid, cands);
            r.Some? ==> forall c :: c in cands && HeadHere(qs, v, qid, c) ==>
              !TimeBefore(HeadDeadline(qs, v, qid, c), HeadDeadline(qs, v, qid, r.value))
  {
    hide Sized, HeadHere, HeadDeadline, InArc, TimeBefore;
    if cands != [] {
      var before, c := cands[..|cands| - 1], cands[|cands| - 1];
      BestIsEarliest(qs, v, qid, before, base);
      var r := Best(qs, v, qid, cands);
      if r.Some? {
        forall x | x in cands && HeadHere(qs, v, qid, x)
          ensures !TimeBefore(HeadDeadline(qs, v, qid, x), HeadDeadline(qs, v, qid, r.value))
        {
          assert x in before || x == c;
          ArcOrder(qs, v, qid, base, x, r.value);
          ArcOrder(qs, v, qid, base, c, r.value);
          var b := Best(qs, v, qid, before);
          if b.Some? {
            ArcOrder(qs, v, qid, base, x, b.value);
            ArcOrder(qs, v, qid, base, c, b.value);
          }
        }
      }
    }
  }

  lemma ArcOrder(qs: Queues, v: View, qid: nat, base: U64, x: nat, y: nat)
    requires Sized(qs, v) && 1 <= qid <= 3 && HeadsInArc(qs, v, qid, base)
    ensures HeadHere(qs, v, qid, x) && HeadHere(qs, v, qid, y) ==>
              (TimeBefore(HeadDeadline(qs, v, qid, x), HeadDeadline(qs, v, qid, y)) <==>
               Sub64(HeadDeadline(qs, v, qid, x), base) < Sub64(HeadDeadline(qs, v, qid, y), base))
  {
    hide Sized, HeadHere, HeadDeadline, InArc, TimeBefore;
    if HeadHere(qs, v, qid, x) && HeadHere(qs, v, qid, y) {
      TimeBeforeInArc(base, HeadDeadline(qs, v, qid, x), HeadDeadline(qs, v, qid, y));
    }
  }

  /** A steal comes from the own domain if any head there may run here, and is the earliest of its tier. */
  lemma StealIsEarliest(qs: Queues, v: View, qid: nat, base: U64)
    requires Sized(qs, v) && 1 <= qid <= 3 && HeadsInArc(qs, v, qid, base)
    requires !Yields(qs.dsqs[DsqIndex(qid, v.cpu)], v.cpu) && Source(qs, v, qid).Some?
    ensures var r := Source(qs, v, qid).value;
            var near := exists c :: c in TierA(v, LLC_SCAN_MAX) && HeadHere(qs, v, qid, c);
            var tier := if near then TierA(v, LLC_SCAN_MAX) else TierB(v, ScanWidth(v));
            && r in tier && HeadHere(qs, v, qid, r)
            && forall c :: c in tier && HeadHere(qs, v, qid, c) ==>
                 !TimeBefore(HeadDeadline(qs, v, qid, c), HeadDeadline(qs, v, qid, r))
  {
    hide HeadHere, HeadDeadline, InArc, TimeBefore, TierA, TierB, Yields;
    BestIsEarliest(qs, v, qid, TierA(v, LLC_SCAN_MAX), base);
    BestIsEarliest(qs, v, qid, TierB(v, ScanWidth(v)), base);
  }

  // ---- Completeness ----

  /**
   * On a planned machine of any size whose scan is covered, a slot finds no work exactly when its own
   * DSQ yields nothing and no remote head may run here.
   */
  lemma SlotFindsWork(qs: Queues, v: View, qid: nat, plan: LlcPlan, m: seq<Place>, primary: seq<U32>)
    requires Sized(qs, v) && 1 <= qid <= 3 && Planned(v, plan, m, primary) && Covered(v)
    ensures Source(qs, v, qid).None? <==>
            && !Yields(qs.dsqs[DsqIndex(qid, v.cpu)], v.cpu)
            && forall c: nat :: c < v.nr && c != v.cpu ==> !HeadHere(qs, v, qid, c)
  {
    hide Planned, Covered, TierA, TierB, Yields, HeadHere, Occurs;
    EachRemoteProbedOnce(v, plan, m, primary);
    var a, b := TierA(v, LLC_SCAN_MAX), TierB(v, ScanWidth(v));
    forall c: nat | c < v.nr && c != v.cpu
      ensures c in a || (RunsTierB(v) && c in b)
    {
      OccursIn(Candidates(v), c);
    }
    forall c: nat | c >= v.nr || c == v.cpu
      ensures c !in a && !(RunsTierB(v) && c in b)
    {
      OnlyRemotesProbed(v, plan, m, primary, c);
      OccursIn(Candidates(v), c);
    }
  }

  /** One task in the DSQ of CPU c. */
  function Lone(v: View, qid: nat, c: nat): (qs: Queues)
    requires WellFormed(v) && 1 <= qid <= 3 && c < v.nr
    ensures Sized(qs, v) && qs.dsqs[DsqIndex(qid, c)] == [Entry(0, 0, {v.cpu})]
    ensures forall d :: 0 <= d < v.nr * 3 && d != DsqIndex(qid, c) ==> qs.dsqs[d] == []
  {
    Queues(seq(v.nr * 3, d => if d == DsqIndex(qid, c) then [Entry(0, 0, {v.cpu})] else []), [])
  }

  /** Where the scan is not covered, some queue contents make a slot report no work despite a remote head. */
  lemma UncoveredMissesWork(v: View, qid: nat, plan: LlcPlan, m: seq<Place>, primary: seq<U32>)
    returns (qs: Queues, c: nat)
    requires 1 <= qid <= 3 && Planned(v, plan, m, primary) && WellFormed(v) && !Covered(v)
    ensures Sized(qs, v) && c < v.nr && c != v.cpu && HeadHere(qs, v, qid, c)
    ensures Source(qs, v, qid).None?
  {
    hide Planned, Covered, Probed, TierA, TierB, Occurs;
    c := UncoveredIsNotProbed(v);
    qs := Lone(v, qid, c);
    ProbesOf(v, plan, m, primary, c);
    OccursIn(Candidates(v), c);
    forall x | x in Candidates(v)
      ensures !HeadHere(qs, v, qid, x)
    {
      assert x != c;
    }
    assert forall x :: x in TierA(v, LLC_SCAN_MAX) ==> x in Candidates(v);
    assert RunsTierB(v) ==> forall x :: x in TierB(v, ScanWidth(v)) ==> x in Candidates(v);
  }

  /** A kept task: no own work, and nothing to steal at the probed CPU, which is another one. */
  lemma KeptSeesNoWork(qs: Queues, v: View, prev: Prev, qid: nat)
    requires Sized(qs, v) && 1 <= qid <= 3 && Keeps(qs, v, prev)
    ensures !Yields(qs.dsqs[DsqIndex(qid, v.cpu)], v.cpu)
    ensures v.nr > 1 ==> ProbeCpu(v) != v.cpu && ProbeCpu(v) < v.nr && !HeadHere(qs, v, qid, ProbeCpu(v))
  {
    hide HeadHere;
    assert qid == 1 || qid == 2 || qid == 3;
    if v.off == v.cpu && v.nr > 1 {
      Small(v.off + 1, v.nr);
    }
  }

  /**
   * Where the scan is covered, what the keep overlooks is exactly the work of the remote CPUs it did
   * not probe. On one or two CPUs there is none.
   */
  lemma KeepOverlooks(qs: Queues, v: View, prev: Prev, qid: nat, plan: LlcPlan, m: seq<Place>, primary: seq<U32>)
    requires Sized(qs, v) && 1 <= qid <= 3 && Keeps(qs, v, prev)
    requires Planned(v, plan, m, primary) && Covered(v)
    ensures Source(qs, v, qid).None? <==>
            forall c: nat :: c < v.nr && c != v.cpu && c != ProbeCpu(v) ==> !HeadHere(qs, v, qid, c)
    ensures v.nr <= 2 ==> Source(qs, v, qid).None?
  {
    hide Planned, Covered, Source, TierA, TierB, Yields, HeadHere, Keeps, ProbeCpu;
    KeptSeesNoWork(qs, v, prev, qid);
    SlotFindsWork(qs, v, qid, plan, m, primary);
  }

  /** From three CPUs on a task is kept although a slot would have found work: any unprobed CPU may hold it. */
  lemma KeptAlthoughWorkRemains(v: View, qid: nat, plan: LlcPlan, m: seq<Place>, primary: seq<U32>)
    returns (qs: Queues, c: nat)
    requires 1 <= qid <= 3 && Planned(v, plan, m, primary) && WellFormed(v) && Covered(v) && v.nr >= 3
    ensures Sized(qs, v) && Keeps(qs, v, Prev(true, true, qid))
    ensures c < v.nr && c != v.cpu && c != ProbeCpu(v) && HeadHere(qs, v, qid, c)
    ensures Source(qs, v, qid).Some?
  {
    hide Planned, Covered, Source, TierA, TierB, ProbeCpu, Lone, HeadHere, Keeps, DsqIndex;
    c := if v.cpu != 0 && ProbeCpu(v) != 0 then 0 else if v.cpu != 1 && ProbeCpu(v) != 1 then 1 else 2;
    qs := Lone(v, qid, c);
    LoneHeads(v, qid, c);
    LoneIsKept(v, qid, c);
    SlotFindsWork(qs, v, qid, plan, m, primary);
  }

  lemma LoneHeads(v: View, qid: nat, c: nat)
    requires WellFormed(v) && 1 <= qid <= 3 && c < v.nr
    ensures Sized(Lone(v, qid, c), v) && HeadHere(Lone(v, qid, c), v, qid, c)
    ensures forall q: nat, x: nat :: 1 <= q <= 3 && x != c ==> !HeadHere(Lone(v, qid, c), v, q, x)
  {
    forall q: nat, x: nat | 1 <= q <= 3 && x < v.nr && x != c
      ensures Lone(v, qid, c).dsqs[DsqIndex(q, x)] == []
    {
      assert DsqIndex(q, x) != DsqIndex(qid, c);
    }
  }

  lemma LoneIsKept(v: View, qid: nat, c: nat)
    requires WellFormed(v) && 1 <= qid <= 3 && c < v.nr && c != v.cpu && c != ProbeCpu(v)
    ensures Sized(Lone(v, qid, c), v) && Keeps(Lone(v, qid, c), v, Prev(true, true, qid))
  {
    hide ProbeCpu, HeadHere, Lone;
    LoneHeads(v, qid, c);
    LoneOwn(v, qid, c, 1);
    LoneOwn(v, qid, c, 2);
    LoneOwn(v, qid, c, 3);
  }

  lemma LoneOwn(v: View, qid: nat, c: nat, q: nat)
    requires WellFormed(v) && 1 <= qid <= 3 && c < v.nr && c != v.cpu && 1 <= q <= 3
    ensures Sized(Lone(v, qid, c), v) && Lone(v, qid, c).dsqs[DsqIndex(q, v.cpu)] == []
  {
    assert DsqIndex(q, v.cpu) != DsqIndex(qid, c);
  }

  /** On machines of one or two CPUs the single probe is complete, covered or not. */
  lemma KeepMissesNothingOnTwo(qs: Queues, v: View, prev: Prev, qid: nat, plan: LlcPlan, m: seq<Place>,
                               primary: seq<U32>)
    requires Sized(qs, v) && 1 <= qid <= 3 && Keeps(qs, v, prev) && v.nr <= 2
    requires Planned(v, plan, m, primary)
    ensures Source(qs, v, qid).None?
  {
    hide Planned, TierA, TierB, Yields, HeadHere, Keeps, ProbeCpu;
    KeptSeesNoWork(qs, v, prev, qid);
    var src := Source(qs, v, qid);
    if src.Some? {
      SourceIsRemote(qs, v, qid, plan, m, primary);
    }
  }

  /** Every stolen task comes from another CPU's queue. */
  lemma SourceIsRemote(qs: Queues, v: View, qid: nat, plan: LlcPlan, m: seq<Place>, primary: seq<U32>)
    requires Sized(qs, v) && 1 <= qid <= 3 && Planned(v, plan, m, primary)
    requires !Yields(qs.dsqs[DsqIndex(qid, v.cpu)], v.cpu) && Source(qs, v, qid).Some?
    ensures Source(qs, v, qid).value != v.cpu && HeadHere(qs, v, qid, Source(qs, v, qid).value)
  {
    hide Planned, Yields, HeadHere, TierA, TierB;
    TierARemote(v, plan, m, primary, LLC_SCAN_MAX);
    TierBRemote(v, ScanWidth(v));
  }

  // ---- When a whole call moves nothing ----

  lemma {:induction false} NothingServed(qs: Queues, v: View, qid: nat, quota: nat)
    requires Sized(qs, v) && 1 <= qid <= 3 && quota > 0
    ensures |Served(qs, v, qid, quota).local| == |qs.local| <==> Source(qs, v, qid).None?
    ensures Source(qs, v, qid).None? ==> Served(qs, v, qid, quota) == qs
  {
    hide Source;
    var src := Source(qs, v, qid);
    if src.Some? {
      var d := DsqIndex(qid, src.value);
      SourceYields(qs, v, qid);
      MovedGrows(qs, d, v.cpu);
      ServedBudget(Moved(qs, d, v.cpu), v, qid, quota - 1);
    }
  }

  /** A call that serves moves nothing exactly when no queue has a source. */
  lemma NothingMovedIff(qs: Queues, v: View, quotas: Quotas)
    requires Sized(qs, v) && ValidQuotas(quotas)
    ensures AllServed(qs, v, quotas).local == qs.local <==>
            Source(qs, v, 1).None? && Source(qs, v, 2).None? && Source(qs, v, 3).None?
  {
    hide Source, Served;
    var r1 := Served(qs, v, 1, quotas.q1);
    var r2 := Served(r1, v, 2, quotas.q2);
    var rest := Max(0, quotas.maxBatch - (|r2.local| - |qs.local|));
    ServedBudget(qs, v, 1, quotas.q1);
    ServedBudget(r1, v, 2, quotas.q2);
    ServedBudget(r2, v, 3, rest);
    NothingServed(qs, v, 1, quotas.q1);
    NothingServed(r1, v, 2, quotas.q2);
    NothingServed(r2, v, 3, rest);
  }

  /** Nothing queued here may run here, and no remote head may. */
  ghost predicate NoWork(qs: Queues, v: View, qid: nat)
    requires Sized(qs, v) && 1 <= qid <= 3
  {
    && (forall e :: e in qs.dsqs[DsqIndex(qid, v.cpu)] ==> v.cpu !in e.allowed)
    && forall c: nat :: c < v.nr && c != v.cpu ==> !HeadHere(qs, v, qid, c)
  }

  /**
   * On a covered machine that is exactly when there is no work at all for this CPU: none of its three
   * DSQs holds a task that may run here, and no remote CPU has one at the head of any of its three.
   */
  lemma CallFindsWork(qs: Queues, v: View, quotas: Quotas, plan: LlcPlan, m: seq<Place>, primary: seq<U32>)
    requires Sized(qs, v) && ValidQuotas(quotas) && Planned(v, plan, m, primary) && Covered(v)
    ensures AllServed(qs, v, quotas).local == qs.local <==> NoWork(qs, v, 1) && NoWork(qs, v, 2) && NoWork(qs, v, 3)
  {
    hide Source, AllServed, Planned, Covered, Yields, HeadHere;
    NothingMovedIff(qs, v, quotas);
    forall qid: nat | 1 <= qid <= 3
      ensures Source(qs, v, qid).None? <==> NoWork(qs, v, qid)
    {
      SlotFindsWork(qs, v, qid, plan, m, primary);
      YieldsIff(qs.dsqs[DsqIndex(qid, v.cpu)], v.cpu);
    }
  }

  lemma YieldsIff(q: seq<Entry>, cpu: nat)
    ensures Yields(q, cpu) <==> exists e :: e in q && cpu in e.allowed
  {
    var k := FirstAllowed(q, cpu);
    if k < |q| {
      assert q[k] in q;
    }
  }

  /**
   * The outgoing task is kept exactly when it is queued on one of the three queues, nothing at all waits
   * on this CPU, and no head of the one remote CPU probed may run here.
   */
  lemma KeepIff(qs: Queues, v: View, prev: Prev)
    requires Sized(qs, v)
    ensures var c := if v.off == v.cpu then (v.cpu + 1) % v.nr else v.off;
            && (v.nr > 1 ==> c != v.cpu)
            && (Keeps(qs, v, prev) <==>
                  && prev.Prev? && prev.queued && prev.tracked && prev.queue in {1, 2, 3}
                  && qs.dsqs[v.cpu * 3] == qs.dsqs[v.cpu * 3 + 1] == qs.dsqs[v.cpu * 3 + 2] == []
                  && (v.nr > 1 ==> !HeadHere(qs, v, 1, c) && !HeadHere(qs, v, 2, c) && !HeadHere(qs, v, 3, c)))
  {
    hide HeadHere;
    if v.off == v.cpu && v.nr > 1 {
      Small(v.off + 1, v.nr);
    }
  }
}

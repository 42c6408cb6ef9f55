/** Which remote CPUs a dispatch slot probes: the own-LLC window, then the rotating window. */
module StealScan {
  import opened Arithmetic
  import opened Word
  import opened Topology

  const STEAL_SCAN_MAX := 64
  const LLC_SCAN_MAX := 32

  /** What one dispatch call sees: its CPU, the machine, the rotation offset and the topology tables. */
  datatype View = View(cpu: nat, nr: nat, off: nat, nrLlcs: nat, cpuLlc: seq<nat>, lists: seq<CpuList>)

  predicate WellFormed(v: View) {
    && v.cpu < v.nr <= MAX_CPUS && v.off < v.nr && v.nrLlcs <= MAX_LLCS
    && |v.cpuLlc| == MAX_CPUS && |v.lists| == MAX_LLCS
    && forall l :: 0 <= l < MAX_LLCS ==> |v.lists[l].cpus| == MAX_LLC_CPUS && v.lists[l].nr <= MAX_LLC_CPUS
  }

  function OwnLlc(v: View): nat
    requires WellFormed(v)
  {
    v.cpuLlc[v.cpu]
  }

  /** Entries of the own-LLC window; none if LLC data is disabled, unmapped or left empty. */
  function TierASize(v: View): nat
    requires WellFormed(v)
  {
    if OwnLlc(v) < v.nrLlcs then v.lists[OwnLlc(v)].nr else 0
  }

  predicate RunsTierB(v: View)
    requires WellFormed(v)
  {
    TierASize(v) == 0 || v.nrLlcs != 1
  }

  function ScanWidth(v: View): nat {
    Min(v.nr, STEAL_SCAN_MAX)
  }

  /** Candidates of the first i positions of the own-LLC window. */
  function TierA(v: View, i: nat): seq<nat>
    requires WellFormed(v)
  {
    if i == 0 || TierASize(v) == 0 then []
    else
      var before, idx := TierA(v, i - 1), (v.off + (i - 1)) % LLC_SCAN_MAX;
      if idx >= TierASize(v) || v.lists[OwnLlc(v)].cpus[idx] == v.cpu then before
      else before + [v.lists[OwnLlc(v)].cpus[idx]]
  }

  /** The rotating window skips this CPU and, once the own domain was probed, that domain. */
  predicate Skipped(v: View, c: nat)
    requires WellFormed(v) && c < v.nr
  {
    c == v.cpu || (TierASize(v) > 0 && v.cpuLlc[c] == OwnLlc(v))
  }

  /** Candidates of the first i positions of the rotating window. */
  function TierB(v: View, i: nat): seq<nat>
    requires WellFormed(v)
  {
    if i == 0 then []
    else
      var before, c := TierB(v, i - 1), (v.off + (i - 1)) % v.nr;
      if Skipped(v, c) then before else before + [c]
  }

  /** Everything a slot probes when neither the own queue nor an earlier tier has work. */
  function Candidates(v: View): seq<nat>
    requires WellFormed(v)
  {
    TierA(v, LLC_SCAN_MAX) + if RunsTierB(v) then TierB(v, ScanWidth(v)) else []
  }

  function Occurs(s: seq<nat>, c: nat): nat {
    if s == [] then 0 else Occurs(s[..|s| - 1], c) + if s[|s| - 1] == c then 1 else 0
  }

  lemma OccursPush(s: seq<nat>, x: nat, c: nat)
    ensures Occurs(s + [x], c) == Occurs(s, c) + if x == c then 1 else 0
  {
    assert (s + [x])[..|s|] == s;
  }

  lemma {:induction false} OccursConcat(a: seq<nat>, b: seq<nat>, c: nat)
    ensures Occurs(a + b, c) == Occurs(a, c) + Occurs(b, c)
  {
    if b == [] {
      assert a + b == a;
    } else {
      OccursConcat(a, b[..|b| - 1], c);
      assert (a + b)[..|a + b| - 1] == a + b[..|b| - 1];
    }
  }

  lemma {:induction false} OccursIn(s: seq<nat>, c: nat)
    ensures Occurs(s, c) > 0 <==> c in s
  {
    if s != [] {
      OccursIn(s[..|s| - 1], c);
      assert s == s[..|s| - 1] + [s[|s| - 1]];
    }
  }

  // ---- Rotation ----

  /** The position at which a window of n that starts at off reaches x. */
  function Position(off: nat, n: nat, x: nat): (p: nat)
    requires x < n
    ensures p < n
  {
    (x + n - off % n) % n
  }

  /** A full turn reaches every place at exactly one position. */
  lemma ReachedOnce(off: nat, n: nat, i: nat, x: nat)
    requires i < n && x < n
    ensures (off + i) % n == x <==> i == Position(off, n, x)
  {
    var o := off % n;
    Residue(off, n, i);
    assert (off + i) % n == if o + i < n then o + i else o + i - n;
    assert Position(off, n, x) == if x >= o then x - o else x + n - o by {
      Small(x + n - o, n);
    }
  }

  lemma Small(z: nat, n: nat)
    requires 0 < n && z < 2 * n
    ensures z % n == if z < n then z else z - n
  {
    if z >= n {
      assert z == 1 * n + (z - n);
      DivMod(1, n, z - n);
    }
  }

  lemma Residue(off: nat, n: nat, i: nat)
    requires i < n
    ensures (off + i) % n == if off % n + i < n then off % n + i else off % n + i - n
  {
    var q, o := off / n, off % n;
    assert off == q * n + o;
    if o + i < n {
      DivMod(q, n, o + i);
      assert off + i == q * n + (o + i);
    } else {
      DivMod(q + 1, n, o + i - n);
      assert (q + 1) * n == q * n + n;
      assert off + i == (q + 1) * n + (o + i - n);
    }
  }

  // ---- Coverage ----

  ghost predicate NoRepeats(l: CpuList)
    requires l.nr <= |l.cpus|
  {
    forall j, k :: 0 <= j < k < l.nr ==> l.cpus[j] != l.cpus[k]
  }

  /** The own-LLC window holds a listed remote CPU once its position is passed. */
  lemma {:induction false} TierAHolds(v: View, i: nat, k: nat)
    requires WellFormed(v) && i <= LLC_SCAN_MAX && k < TierASize(v) && NoRepeats(v.lists[OwnLlc(v)])
    requires v.lists[OwnLlc(v)].cpus[k] != v.cpu
    ensures Occurs(TierA(v, i), v.lists[OwnLlc(v)].cpus[k]) ==
            if Position(v.off, LLC_SCAN_MAX, k) < i then 1 else 0
  {
    hide Position, Occurs, OwnLlc;
    if i == 0 {
      NeverInEmpty(v.lists[OwnLlc(v)].cpus[k]);
    } else {
      TierAHolds(v, i - 1, k);
      var l := v.lists[OwnLlc(v)];
      var idx := (v.off + (i - 1)) % LLC_SCAN_MAX;
      OccursPush(TierA(v, i - 1), l.cpus[idx], l.cpus[k]);
      ReachedOnce(v.off, LLC_SCAN_MAX, i - 1, k);
    }
  }

  /** It holds no other CPU. */
  lemma {:induction false} TierALacks(v: View, i: nat, c: nat)
    requires WellFormed(v) && TierASize(v) > 0
    requires c !in v.lists[OwnLlc(v)].cpus[..TierASize(v)]
    ensures Occurs(TierA(v, i), c) == 0
  {
    if i > 0 {
      TierALacks(v, i - 1, c);
      var l := v.lists[OwnLlc(v)];
      var idx := (v.off + (i - 1)) % LLC_SCAN_MAX;
      OccursPush(TierA(v, i - 1), l.cpus[idx], c);
      assert idx < l.nr ==> l.cpus[idx] == l.cpus[..l.nr][idx];
    }
  }

  /** The rotating window holds each CPU it does not skip once its position is passed. */
  lemma {:induction false} TierBHolds(v: View, i: nat, c: nat)
    requires WellFormed(v) && i <= v.nr && c < v.nr
    ensures Occurs(TierB(v, i), c) ==
            if !Skipped(v, c) && Position(v.off, v.nr, c) < i then 1 else 0
  {
    hide Position, Occurs, Skipped;
    if i == 0 {
      NeverInEmpty(c);
    } else {
      TierBHolds(v, i - 1, c);
      var x := (v.off + (i - 1)) % v.nr;
      OccursPush(TierB(v, i - 1), x, c);
      ReachedOnce(v.off, v.nr, i - 1, c);
    }
  }

  /** The tables are those the planner built and published from the map m. */
  ghost predicate Planned(v: View, plan: LlcPlan, m: seq<Place>, primary: seq<U32>) {
    && WellFormed(v) && IsPlan(plan, m, primary, MAX_LLCS) && DistinctCpus(m)
    && (forall p :: p in m ==> p.cpu < v.nr)
    && v.nrLlcs == plan.nrLlcs && v.cpuLlc == plan.cpuLlc
    && forall l: nat :: l < v.nrLlcs ==>
         v.lists[l].cpus[..v.lists[l].nr] == if |plan.llcCpus[l]| > MAX_LLC_CPUS then [] else InRange(plan.llcCpus[l])
  }

  /** A live own-LLC window lists exactly the CPUs mapped to that domain, each once. */
  lemma OwnListIsDomain(v: View, plan: LlcPlan, m: seq<Place>, primary: seq<U32>)
    requires Planned(v, plan, m, primary) && TierASize(v) > 0
    ensures var l := v.lists[OwnLlc(v)];
            && NoRepeats(l)
            && forall c: nat :: c < MAX_CPUS ==> (c in l.cpus[..l.nr] <==> v.cpuLlc[c] == OwnLlc(v))
  {
    hide LlcOf, Members, InRange;
    var own := OwnLlc(v);
    var l := v.lists[own];
    PlannedIsPlannable(v, plan, m, primary);
    MembersInRange(m, own);
    MembersDistinct(m, own);
    assert l.cpus[..l.nr] == Members(m, own);
    assert forall j :: 0 <= j < l.nr ==> l.cpus[j] == l.cpus[..l.nr][j];
    forall c: nat | c < MAX_CPUS
      ensures c in l.cpus[..l.nr] <==> v.cpuLlc[c] == own
    {
      MappedIffMember(m, own, c);
    }
  }

  lemma PlannedIsPlannable(v: View, plan: LlcPlan, m: seq<Place>, primary: seq<U32>)
    requires Planned(v, plan, m, primary) && v.nrLlcs > 0
    ensures |plan.llcCpus| == v.nrLlcs
    ensures forall l: nat :: l < v.nrLlcs ==> plan.llcCpus[l] == Members(m, l)
    ensures forall c: nat :: c < MAX_CPUS ==> v.cpuLlc[c] == LlcOf(m, c)
  {
    hide LlcOf, Members;
  }

  /** The CPU the rotating window holds at position p. */
  function RotatedTo(v: View, p: nat): nat
    requires v.nr > 0
  {
    (v.off + p) % v.nr
  }

  /** A remote CPU is probed: by the own-LLC window, or within the width of the rotating one. */
  predicate Probed(v: View, c: nat)
    requires WellFormed(v) && c < v.nr
  {
    || (TierASize(v) > 0 && v.cpuLlc[c] == OwnLlc(v))
    || (RunsTierB(v) && Position(v.off, v.nr, c) < ScanWidth(v))
  }

  /** How often one remote CPU is probed, on a machine of any size. */
  lemma ProbesOf(v: View, plan: LlcPlan, m: seq<Place>, primary: seq<U32>, c: nat)
    requires Planned(v, plan, m, primary) && c < v.nr && c != v.cpu
    ensures Occurs(Candidates(v), c) == if Probed(v, c) then 1 else 0
  {
    hide Planned, Position, Occurs;
    PlannedIsWellFormed(v, plan, m, primary);
    var a, b := TierA(v, LLC_SCAN_MAX), TierB(v, ScanWidth(v));
    OccursConcat(a, if RunsTierB(v) then b else [], c);
    NeverInEmpty(c);
    TierBHolds(v, ScanWidth(v), c);
    if TierASize(v) > 0 {
      OwnListIsDomain(v, plan, m, primary);
      var l := v.lists[OwnLlc(v)];
      if c in l.cpus[..l.nr] {
        var k :| 0 <= k < l.nr && l.cpus[..l.nr][k] == c;
        assert l.cpus[k] == c;
        TierAHolds(v, LLC_SCAN_MAX, k);
      } else {
        TierALacks(v, LLC_SCAN_MAX, c);
      }
    }
  }

  /** The planner gave this CPU a domain, small enough to be listed. */
  predicate HasWindow(v: View, m: seq<Place>) {
    LlcOf(m, v.cpu) < v.nrLlcs && |Members(m, LlcOf(m, v.cpu))| <= 32
  }

  lemma WindowIffPlanned(v: View, plan: LlcPlan, m: seq<Place>, primary: seq<U32>)
    requires Planned(v, plan, m, primary)
    ensures TierASize(v) > 0 <==> v.nrLlcs > 0 && HasWindow(v, m)
    ensures v.nrLlcs > 0 ==> OwnLlc(v) == LlcOf(m, v.cpu)
  {
    hide LlcOf, Members, InRange;
    if v.nrLlcs > 0 {
      PlannedIsPlannable(v, plan, m, primary);
      var own := OwnLlc(v);
      if own < v.nrLlcs {
        MembersInRange(m, own);
        MappedIffMember(m, own, v.cpu);
        assert |v.lists[own].cpus[..v.lists[own].nr]| == v.lists[own].nr;
      }
    }
  }

  /**
   * The two windows in terms of the map: the first holds exactly the other CPUs of the own domain, the
   * second, once each, the CPUs at the first 64 places of the rotation outside what the first covers; and
   * it runs unless the own domain is listed and the only one.
   */
  lemma WindowsOfMap(v: View, plan: LlcPlan, m: seq<Place>, primary: seq<U32>, c: nat)
    requires Planned(v, plan, m, primary) && c < v.nr && c != v.cpu
    ensures var near := v.nrLlcs > 0 && HasWindow(v, m) && LlcOf(m, c) == LlcOf(m, v.cpu);
            && Occurs(TierA(v, LLC_SCAN_MAX), c) == (if near then 1 else 0)
            && Occurs(TierB(v, ScanWidth(v)), c)
               == (if !near && exists p: nat :: p < 64 && p < v.nr && RotatedTo(v, p) == c then 1 else 0)
    ensures RunsTierB(v) <==> !(v.nrLlcs == 1 && HasWindow(v, m))
  {
    hide Planned, Position, Occurs, LlcOf, Members, HasWindow, RotatedTo;
    PlannedIsWellFormed(v, plan, m, primary);
    WindowIffPlanned(v, plan, m, primary);
    TierBHolds(v, ScanWidth(v), c);
    PositionRotatesTo(v, c);
    forall p: nat | p < v.nr && RotatedTo(v, p) == c
      ensures p == Position(v.off, v.nr, c)
    {
      RotatedToPosition(v, p);
    }
    if v.nrLlcs > 0 {
      PlannedIsPlannable(v, plan, m, primary);
    }
    if TierASize(v) > 0 {
      OwnListIsDomain(v, plan, m, primary);
      var l := v.lists[OwnLlc(v)];
      if c in l.cpus[..l.nr] {
        var k :| 0 <= k < l.nr && l.cpus[..l.nr][k] == c;
        assert l.cpus[k] == c;
        TierAHolds(v, LLC_SCAN_MAX, k);
        PositionBound(v.off, LLC_SCAN_MAX, k);
      } else {
        TierALacks(v, LLC_SCAN_MAX, c);
      }
    } else {
      NeverInEmpty(c);
    }
  }

  lemma PlannedIsWellFormed(v: View, plan: LlcPlan, m: seq<Place>, primary: seq<U32>)
    requires Planned(v, plan, m, primary)
    ensures WellFormed(v)
  {
  }

  lemma NeverInEmpty(c: nat)
    ensures Occurs([], c) == 0
  {
  }

  /**
   * What the offset and the tables must be for a scan to leave nobody out: whatever the rotation
   * puts beyond the 64 scanned positions is skipped anyway, and if only the own domain is scanned,
   * every CPU is mapped to it.
   */
  predicate Covered(v: View)
    requires WellFormed(v)
  {
    if RunsTierB(v) then forall p: nat :: STEAL_SCAN_MAX <= p < v.nr ==> Skipped(v, RotatedTo(v, p))
    else forall c: nat :: c < v.nr ==> v.cpuLlc[c] == OwnLlc(v)
  }

  lemma RotatedToPosition(v: View, p: nat)
    requires v.off < v.nr && p < v.nr
    ensures RotatedTo(v, p) < v.nr && Position(v.off, v.nr, RotatedTo(v, p)) == p
  {
    hide Position;
    ReachedOnce(v.off, v.nr, p, RotatedTo(v, p));
  }

  lemma PositionRotatesTo(v: View, c: nat)
    requires v.off < v.nr && c < v.nr
    ensures RotatedTo(v, Position(v.off, v.nr, c)) == c
  {
    hide Position;
    ReachedOnce(v.off, v.nr, Position(v.off, v.nr, c), c);
  }

  lemma CoveredIsProbed(v: View, c: nat)
    requires WellFormed(v) && Covered(v) && c < v.nr && c != v.cpu
    ensures Probed(v, c)
  {
    hide Position, RotatedTo;
    var p := Position(v.off, v.nr, c);
    PositionBound(v.off, v.nr, c);
    PositionRotatesTo(v, c);
    if RunsTierB(v) && p >= STEAL_SCAN_MAX {
      assert Skipped(v, RotatedTo(v, p));
    }
  }

  lemma PositionBound(off: nat, n: nat, x: nat)
    requires x < n
    ensures Position(off, n, x) < n
  {
  }

  lemma UncoveredIsNotProbed(v: View) returns (c: nat)
    requires WellFormed(v) && !Covered(v)
    ensures c < v.nr && c != v.cpu && !Probed(v, c)
  {
    hide Position;
    if RunsTierB(v) {
      var p: nat :| STEAL_SCAN_MAX <= p < v.nr && !Skipped(v, RotatedTo(v, p));
      RotatedToPosition(v, p);
      c := RotatedTo(v, p);
    } else {
      c :| c < v.nr && v.cpuLlc[c] != OwnLlc(v);
    }
  }

  /**
   * With planned topology tables, on a machine of any size and at any offset, the two tiers probe
   * every remote CPU exactly once, oversized and disabled domains included, if and only if the scan
   * is covered.
   */
  lemma EachRemoteProbedOnce(v: View, plan: LlcPlan, m: seq<Place>, primary: seq<U32>)
    requires Planned(v, plan, m, primary)
    ensures (forall c: nat :: c < v.nr && c != v.cpu ==> Occurs(Candidates(v), c) == 1) <==> Covered(v)
  {
    hide Planned, Occurs, Candidates, TierA, TierB, Probed, Covered;
    PlannedIsWellFormed(v, plan, m, primary);
    if Covered(v) {
      forall c: nat | c < v.nr && c != v.cpu
        ensures Occurs(Candidates(v), c) == 1
      {
        ProbesOf(v, plan, m, primary, c);
        CoveredIsProbed(v, c);
      }
    } else {
      var c := UncoveredIsNotProbed(v);
      ProbesOf(v, plan, m, primary, c);
    }
  }

  /** Up to 64 CPUs only a lone scanned domain can leave somebody out: a CPU not mapped to it. */
  lemma CoveredUpTo64(v: View)
    requires WellFormed(v) && v.nr <= STEAL_SCAN_MAX
    ensures Covered(v) <==>
            (TierASize(v) > 0 && v.nrLlcs == 1 ==> forall c: nat :: c < v.nr ==> v.cpuLlc[c] == 0)
  {
  }

  /** Without an own-LLC window a scan is covered up to 64 CPUs, and on 65 if the last one is its own. */
  lemma CoveredWithoutOwnWindow(v: View)
    requires WellFormed(v) && TierASize(v) == 0
    ensures Covered(v) <==> v.nr <= 64 || (v.nr == 65 && RotatedTo(v, 64) == v.cpu)
  {
    if v.nr > 64 {
      RotatedToPosition(v, 64);
    }
    if v.nr > 65 {
      RotatedToPosition(v, 65);
      var p: nat := if RotatedTo(v, 64) != v.cpu then 64 else 65;
      assert !Skipped(v, RotatedTo(v, p));
    } else if v.nr == 65 {
      assert Covered(v) <==> Skipped(v, RotatedTo(v, 64));
    }
  }

  /** Nothing else is probed. */
  lemma OnlyRemotesProbed(v: View, plan: LlcPlan, m: seq<Place>, primary: seq<U32>, c: nat)
    requires Planned(v, plan, m, primary) && (c >= v.nr || c == v.cpu)
    ensures Occurs(Candidates(v), c) == 0
  {
    hide Planned, Occurs, LlcOf, Members;
    PlannedIsWellFormed(v, plan, m, primary);
    var a, b := TierA(v, LLC_SCAN_MAX), TierB(v, ScanWidth(v));
    OccursConcat(a, if RunsTierB(v) then b else [], c);
    NeverInEmpty(c);
    OccursIn(a, c);
    OccursIn(b, c);
    TierBRemote(v, ScanWidth(v));
    TierARemote(v, plan, m, primary, LLC_SCAN_MAX);
  }

  lemma {:induction false} TierBRemote(v: View, i: nat)
    requires WellFormed(v)
    ensures forall c :: c in TierB(v, i) ==> c < v.nr && c != v.cpu
  {
    if i > 0 {
      TierBRemote(v, i - 1);
    }
  }

  lemma {:induction false} TierARemote(v: View, plan: LlcPlan, m: seq<Place>, primary: seq<U32>, i: nat)
    requires Planned(v, plan, m, primary) && WellFormed(v)
    ensures forall c :: c in TierA(v, i) ==> c < v.nr && c != v.cpu
  {
    hide Planned, Members, LlcOf;
    if i > 0 && TierASize(v) > 0 {
      TierARemote(v, plan, m, primary, i - 1);
      var idx := (v.off + (i - 1)) % LLC_SCAN_MAX;
      if idx < TierASize(v) {
        ListedIsOnline(v, plan, m, primary, idx);
      }
    }
  }

  lemma ListedIsOnline(v: View, plan: LlcPlan, m: seq<Place>, primary: seq<U32>, idx: nat)
    requires Planned(v, plan, m, primary) && idx < TierASize(v)
    ensures v.lists[OwnLlc(v)].cpus[idx] < v.nr
  {
    hide LlcOf, Members, InRange;
    var own := OwnLlc(v);
    var l := v.lists[own];
    PlannedIsPlannable(v, plan, m, primary);
    MembersInRange(m, own);
    assert l.cpus[..l.nr] == Members(m, own);
    assert l.cpus[idx] == l.cpus[..l.nr][idx];
    MemberIsPlaced(m, own, l.cpus[idx]);
  }

  lemma {:induction false} MemberIsPlaced(m: seq<Place>, llc: nat, cpu: U32)
    requires cpu in Members(m, llc)
    ensures exists p :: p in m && p.cpu == cpu
  {
    var p := m[|m| - 1];
    if p.cpu == cpu {
      assert p in m;
    } else {
      MemberIsPlaced(m[..|m| - 1], llc, cpu);
      var q :| q in m[..|m| - 1] && q.cpu == cpu;
      assert q in m;
    }
  }

  // ---- The drift of the offset ----

  /** The scan counter after k more calls. */
  function Later(scanOff: U32, k: nat): U32 {
    (scanOff + k) % 0x1_0000_0000
  }

  lemma LaterWraps(scanOff: U32, k: nat)
    requires k < 0x1_0000_0000
    ensures Later(scanOff, k) == if scanOff + k < 0x1_0000_0000 then scanOff + k else scanOff + k - 0x1_0000_0000
  {
  }

  /** Successive calls reach every offset: within n calls, or within 2n across the counter's wrap. */
  lemma OffsetsRecur(scanOff: U32, n: nat, c: nat) returns (k: nat)
    requires c < n <= MAX_CPUS
    ensures k < 2 * n && Later(scanOff, k) % n == c
    ensures scanOff + n <= 0x1_0000_0000 ==> k < n
  {
    hide Position, Later;
    k := Position(scanOff, n, c);
    PositionBound(scanOff, n, c);
    ReachedOnce(scanOff, n, k, c);
    LaterWraps(scanOff, k);
    if scanOff + k >= 0x1_0000_0000 {
      k := 0x1_0000_0000 - scanOff + c;
      LaterWraps(scanOff, k);
      Small(c, n);
    }
  }

  /** The view of a call: the machine with this CPU's drifting scan start. */
  function Rotated(machine: View, scanOff: U32): View
    requires machine.nr > 0
  {
    machine.(off := scanOff % machine.nr)
  }

  /**
   * No CPU is excluded for good: from any counter value, one of the next 2n calls probes a given
   * remote CPU, whatever the size of the machine, unless the rotating window does not run or skips it.
   */
  lemma EveryRemoteIsProbedAgain(machine: View, scanOff: U32, c: nat) returns (k: nat)
    requires WellFormed(machine) && RunsTierB(machine) && c < machine.nr && !Skipped(machine, c)
    ensures k < 2 * machine.nr && (scanOff + machine.nr <= 0x1_0000_0000 ==> k < machine.nr)
    ensures var v := Rotated(machine, Later(scanOff, k));
            WellFormed(v) && Occurs(TierB(v, ScanWidth(v)), c) == 1
  {
    hide Position, Occurs, TierB, Later;
    k := OffsetsRecur(scanOff, machine.nr, c);
    var v := Rotated(machine, Later(scanOff, k));
    TierBHolds(v, ScanWidth(v), c);
    Small(v.off, v.nr);
    ReachedOnce(v.off, v.nr, 0, c);
  }
}

/** Planning of the cache domains: which CPUs share an LLC, and the scan list each domain publishes. */
module Topology {
  import opened Word

  const MAX_CPUS := 1024
  const MAX_LLCS := 32
  const MAX_LLC_CPUS := 32

  /** One CPU and the LLC domain it belongs to. */
  datatype Place = Place(cpu: U32, llc: U32)

  datatype LlcPlan = LlcPlan(nrLlcs: nat, hasPrimary: seq<bool>, llcCpus: seq<seq<U32>>, cpuLlc: seq<nat>)

  /** A domain's published list: `nr` live CPUs at the front of a zeroed array. */
  datatype CpuList = CpuList(nr: nat, cpus: seq<U32>)

  // ---- What a plan is, without the loops ----

  /** The domain a CPU was last placed in, or the sentinel. */
  function LlcOf(m: seq<Place>, cpu: nat): nat {
    if m == [] then MAX_LLCS
    else if m[|m| - 1].cpu == cpu then m[|m| - 1].llc
    else LlcOf(m[..|m| - 1], cpu)
  }

  /** The in-range CPUs placed in a domain, in the order of the map. */
  function Members(m: seq<Place>, llc: nat): seq<U32> {
    if m == [] then []
    else
      var before, p := Members(m[..|m| - 1], llc), m[|m| - 1];
      if p.llc == llc && p.cpu < MAX_CPUS then before + [p.cpu] else before
  }

  /** Domains are planned only if there is a map and every domain id is in range. */
  predicate Plannable(m: seq<Place>, maxLlcs: nat) {
    m != [] && forall p :: p in m ==> p.llc < maxLlcs
  }

  ghost predicate IsPlan(plan: LlcPlan, m: seq<Place>, primary: seq<U32>, maxLlcs: nat) {
    && |plan.hasPrimary| == MAX_LLCS && |plan.cpuLlc| == MAX_CPUS
    && if !Plannable(m, maxLlcs) then
         && plan.nrLlcs == 0 && plan.llcCpus == []
         && (forall l :: 0 <= l < MAX_LLCS ==> !plan.hasPrimary[l])
         && forall c :: 0 <= c < MAX_CPUS ==> plan.cpuLlc[c] == MAX_LLCS
       else
         && 0 < plan.nrLlcs <= maxLlcs && |plan.llcCpus| == plan.nrLlcs
         && (forall p :: p in m ==> p.llc < plan.nrLlcs)
         && (exists p :: p in m && p.llc == plan.nrLlcs - 1)
         && (forall l: nat :: l < plan.nrLlcs ==> plan.llcCpus[l] == Members(m, l))
         && (forall c: nat :: c < MAX_CPUS ==> plan.cpuLlc[c] == LlcOf(m, c))
         && forall l: nat :: l < MAX_LLCS ==>
              (plan.hasPrimary[l] <==> l < plan.nrLlcs && exists c :: c in Members(m, l) && c in primary)
  }

  method MaxLlc(m: seq<Place>) returns (r: U32)
    requires m != []
    ensures (exists p :: p in m && p.llc == r) && forall p :: p in m ==> p.llc <= r
  {
    r := m[0].llc;
    for i := 1 to |m|
      invariant exists p :: p in m && p.llc == r
      invariant forall k :: 0 <= k < i ==> m[k].llc <= r
    {
      if m[i].llc > r {
        r := m[i].llc;
      }
    }
  }

  method AnyIn(cpus: seq<U32>, primary: seq<U32>) returns (r: bool)
    ensures r <==> exists c :: c in cpus && c in primary
  {
    for i := 0 to |cpus|
      invariant forall k :: 0 <= k < i ==> cpus[k] !in primary
    {
      if cpus[i] in primary {
        return true;
      }
    }
    return false;
  }

  method PlanLlcs(m: seq<Place>, primary: seq<U32>, maxLlcs: nat) returns (plan: LlcPlan)
    requires maxLlcs <= MAX_LLCS
    ensures IsPlan(plan, m, primary, maxLlcs)
  {
    hide LlcOf, Members;
    plan := LlcPlan(0, seq(MAX_LLCS, _ => false), [], seq(MAX_CPUS, _ => MAX_LLCS));
    if m == [] {
      return;
    }
    var maxLlc := MaxLlc(m);
    if maxLlc == U32_MAX {
      return;
    }
    var nr := maxLlc + 1;
    if nr > maxLlcs {
      return;
    }
    var llcCpus: seq<seq<U32>>, cpuLlc: seq<nat> := seq(nr, _ => []), plan.cpuLlc;
    NothingPlaced(llcCpus, cpuLlc);
    for i := 0 to |m|
      invariant |llcCpus| == nr && |cpuLlc| == MAX_CPUS
      invariant forall l: nat :: l < nr ==> llcCpus[l] == Members(m[..i], l)
      invariant forall c: nat :: c < MAX_CPUS ==> cpuLlc[c] == LlcOf(m[..i], c)
    {
      OnePlaced(m, i);
      var p := m[i];
      assert p in m;
      if p.cpu >= MAX_CPUS {
        continue;
      }
      cpuLlc := cpuLlc[p.cpu := p.llc];
      llcCpus := llcCpus[p.llc := llcCpus[p.llc] + [p.cpu]];
    }
    assert m[..|m|] == m;
    var hasPrimary: seq<bool> := plan.hasPrimary;
    for llc := 0 to nr
      invariant |hasPrimary| == MAX_LLCS
      invariant forall l: nat :: l < llc ==> (hasPrimary[l] <==> exists c :: c in llcCpus[l] && c in primary)
      invariant forall l: nat :: llc <= l < MAX_LLCS ==> !hasPrimary[l]
    {
      var any := AnyIn(llcCpus[llc], primary);
      if any {
        hasPrimary := hasPrimary[llc := true];
      }
    }
    plan := LlcPlan(nr, hasPrimary, llcCpus, cpuLlc);
  }

  lemma NothingPlaced(llcCpus: seq<seq<U32>>, cpuLlc: seq<nat>)
    requires forall l: nat :: l < |llcCpus| ==> llcCpus[l] == []
    requires forall c: nat :: c < |cpuLlc| ==> cpuLlc[c] == MAX_LLCS
    ensures forall l: nat :: l < |llcCpus| ==> llcCpus[l] == Members([], l)
    ensures forall c: nat :: c < |cpuLlc| ==> cpuLlc[c] == LlcOf([], c)
  {
  }

  lemma MembersStep(m: seq<Place>, i: nat, l: nat)
    requires i < |m|
    ensures Members(m[..i + 1], l) ==
            if m[i].llc == l && m[i].cpu < MAX_CPUS then Members(m[..i], l) + [m[i].cpu] else Members(m[..i], l)
  {
    assert m[..i + 1][..i] == m[..i];
  }

  lemma LlcStep(m: seq<Place>, i: nat, c: nat)
    requires i < |m|
    ensures LlcOf(m[..i + 1], c) == if m[i].cpu == c then m[i].llc else LlcOf(m[..i], c)
  {
    assert m[..i + 1][..i] == m[..i];
  }

  lemma OnePlaced(m: seq<Place>, i: nat)
    requires i < |m|
    ensures forall l: nat :: Members(m[..i + 1], l) ==
              if m[i].llc == l && m[i].cpu < MAX_CPUS then Members(m[..i], l) + [m[i].cpu] else Members(m[..i], l)
    ensures LlcOf(m[..i + 1], m[i].cpu) == m[i].llc
    ensures forall c: nat :: c != m[i].cpu ==> LlcOf(m[..i + 1], c) == LlcOf(m[..i], c)
  {
    hide LlcOf, Members;
    forall l: nat
      ensures Members(m[..i + 1], l) ==
              if m[i].llc == l && m[i].cpu < MAX_CPUS then Members(m[..i], l) + [m[i].cpu] else Members(m[..i], l)
    {
      MembersStep(m, i, l);
    }
    LlcStep(m, i, m[i].cpu);
    forall c: nat | c != m[i].cpu
      ensures LlcOf(m[..i + 1], c) == LlcOf(m[..i], c)
    {
      LlcStep(m, i, c);
    }
  }

  // ---- The published list ----

  function InRange(cpus: seq<U32>): (r: seq<U32>)
    ensures |r| <= |cpus|
  {
    if cpus == [] then []
    else
      var before, cpu := InRange(cpus[..|cpus| - 1]), cpus[|cpus| - 1];
      if cpu < MAX_CPUS then before + [cpu] else before
  }

  /** An oversized domain publishes an empty list, never a truncated one. */
  method BuildLlcCpuList(cpus: seq<U32>) returns (list: CpuList)
    ensures |list.cpus| == MAX_LLC_CPUS && list.nr <= MAX_LLC_CPUS
    ensures list.cpus[..list.nr] == if |cpus| > MAX_LLC_CPUS then [] else InRange(cpus)
    ensures forall k :: list.nr <= k < MAX_LLC_CPUS ==> list.cpus[k] == 0
  {
    list := CpuList(0, seq(MAX_LLC_CPUS, _ => 0));
    if |cpus| > MAX_LLC_CPUS {
      return;
    }
    for i := 0 to |cpus|
      invariant |list.cpus| == MAX_LLC_CPUS && list.nr <= i
      invariant list.cpus[..list.nr] == InRange(cpus[..i])
      invariant forall k :: list.nr <= k < MAX_LLC_CPUS ==> list.cpus[k] == 0
    {
      assert cpus[..i + 1][..i] == cpus[..i];
      if cpus[i] >= MAX_CPUS {
        continue;
      }
      list := CpuList(list.nr + 1, list.cpus[list.nr := cpus[i]]);
    }
    assert cpus[..|cpus|] == cpus;
  }

  lemma {:induction false} MembersInRange(m: seq<Place>, llc: nat)
    ensures InRange(Members(m, llc)) == Members(m, llc)
  {
    if m != [] {
      var before := Members(m[..|m| - 1], llc);
      MembersInRange(m[..|m| - 1], llc);
      var p := m[|m| - 1];
      if p.llc == llc && p.cpu < MAX_CPUS {
        assert (before + [p.cpu])[..|before|] == before;
      }
    }
  }

  // ---- Domains of distinct CPUs ----

  ghost predicate DistinctCpus(m: seq<Place>) {
    forall i, j :: 0 <= i < j < |m| ==> m[i].cpu != m[j].cpu
  }

  /** A CPU is mapped to a domain exactly when the domain lists it. */
  lemma {:induction false} MappedIffMember(m: seq<Place>, llc: nat, cpu: nat)
    requires DistinctCpus(m) && llc < MAX_LLCS && cpu < MAX_CPUS
    ensures LlcOf(m, cpu) == llc <==> cpu in Members(m, llc)
  {
    if m != [] {
      var before, p := m[..|m| - 1], m[|m| - 1];
      MappedIffMember(before, llc, cpu);
      if p.cpu == cpu {
        NotPlaced(before, llc, cpu);
      }
    }
  }

  lemma {:induction false} NotPlaced(m: seq<Place>, llc: nat, cpu: nat)
    requires forall p :: p in m ==> p.cpu != cpu
    ensures cpu !in Members(m, llc)
  {
    if m != [] {
      NotPlaced(m[..|m| - 1], llc, cpu);
    }
  }

  /** A domain lists no CPU twice. */
  lemma {:induction false} MembersDistinct(m: seq<Place>, llc: nat)
    requires DistinctCpus(m)
    ensures forall i, j :: 0 <= i < j < |Members(m, llc)| ==> Members(m, llc)[i] != Members(m, llc)[j]
  {
    if m != [] {
      MembersDistinct(m[..|m| - 1], llc);
      NotPlaced(m[..|m| - 1], llc, m[|m| - 1].cpu);
    }
  }
}

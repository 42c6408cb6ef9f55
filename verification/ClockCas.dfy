/**
 * A batch of single-shot compare-and-swap advances of one queue clock, interleaved at the
 * granularity of the two shared-memory accesses of each advance.
 */
module ClockCas {
  import opened Word

  /** Progress of one advance: the load, the swap, done. */
  datatype Advance = Loading | Swapping(seen: U64) | Done

  /** `charged` are the vruntimes of the batch, `begin` the clock before it. */
  datatype State = State(begin: U64, charged: seq<U64>, clock: U64, cpus: seq<Advance>)

  ghost function Start(begin: U64, charged: seq<U64>): State {
    State(begin, charged, begin, seq(|charged|, _ => Loading))
  }

  /** One shared-memory access of CPU i. */
  ghost function StepCpu(s: State, i: nat): (s': State)
    requires |s.cpus| == |s.charged| && i < |s.cpus|
    ensures s'.begin == s.begin && s'.charged == s.charged && |s'.cpus| == |s.cpus|
  {
    match s.cpus[i]
    case Loading =>
      s.(cpus := s.cpus[i := if TimeBefore(s.clock, s.charged[i]) then Swapping(s.clock) else Done])
    case Swapping(seen) =>
      s.(clock := if s.clock == seen then s.charged[i] else s.clock, cpus := s.cpus[i := Done])
    case Done => s
  }

  /** Any schedule: which CPU makes the next access. */
  ghost function RunSchedule(s: State, schedule: seq<nat>): (s': State)
    requires |s.cpus| == |s.charged| && forall k :: 0 <= k < |schedule| ==> schedule[k] < |s.cpus|
    ensures s'.begin == s.begin && s'.charged == s.charged && |s'.cpus| == |s.cpus|
    decreases |schedule|
  {
    if schedule == [] then s else RunSchedule(StepCpu(s, schedule[0]), schedule[1..])
  }

  /** All instants of the batch lie within a quarter turn of the clock it starts from. */
  ghost predicate NearBegin(s: State) {
    forall i :: 0 <= i < |s.charged| ==> -0x4000_0000_0000_0000 < Offset(s, s.charged[i]) < 0x4000_0000_0000_0000
  }

  /** Signed distance from the clock the batch starts from. */
  ghost function Offset(s: State, x: U64): int {
    Signed(Sub64(x, s.begin))
  }

  lemma OffsetOrder(s: State, a: U64, b: U64)
    requires -0x4000_0000_0000_0000 < Offset(s, a) < 0x4000_0000_0000_0000
    requires -0x4000_0000_0000_0000 < Offset(s, b) < 0x4000_0000_0000_0000
    ensures TimeBefore(a, b) <==> Offset(s, a) < Offset(s, b)
    ensures a == b <==> Offset(s, a) == Offset(s, b)
  {
    OffsetLands(s.begin, a);
    OffsetLands(s.begin, b);
    TimeBeforeIsLess(s.begin + Offset(s, a), s.begin + Offset(s, b));
  }

  lemma OffsetLands(begin: U64, x: U64)
    ensures x == Wrap(begin + Signed(Sub64(x, begin)))
  {
  }

  /** The clock is still the old one or one of the charged vruntimes ahead of it. */
  ghost predicate Valid(s: State) {
    && |s.cpus| == |s.charged| && NearBegin(s)
    && (s.clock == s.begin || exists j :: 0 <= j < |s.charged| && s.charged[j] == s.clock && Offset(s, s.clock) > 0)
    && (forall i :: 0 <= i < |s.cpus| && s.cpus[i].Done? && Offset(s, s.charged[i]) > 0 ==> s.clock != s.begin)
    && (forall i :: 0 <= i < |s.cpus| && s.cpus[i].Swapping? ==>
          && 0 <= Offset(s, s.cpus[i].seen) <= Offset(s, s.clock)
          && Offset(s, s.cpus[i].seen) < Offset(s, s.charged[i]))
  }

  lemma StepKeepsValid(s: State, i: nat)
    requires Valid(s) && i < |s.cpus|
    ensures Valid(StepCpu(s, i))
    ensures Offset(s, s.clock) <= Offset(s, StepCpu(s, i).clock)
  {
    var s' := StepCpu(s, i);
    assert Offset(s, s.begin) == 0;
    OffsetOrder(s, s.clock, s.charged[i]);
    if s.cpus[i].Swapping? && s.clock == s.cpus[i].seen {
      assert s'.charged[i] == s'.clock && Offset(s', s'.clock) > 0;
    }
  }

  /** The clock never moves backward, under any interleaving. */
  lemma {:induction false} RunKeepsValid(s: State, schedule: seq<nat>)
    requires Valid(s) && forall k :: 0 <= k < |schedule| ==> schedule[k] < |s.cpus|
    ensures Valid(RunSchedule(s, schedule))
    ensures Offset(s, s.clock) <= Offset(s, RunSchedule(s, schedule).clock)
    decreases |schedule|
  {
    if schedule != [] {
      StepKeepsValid(s, schedule[0]);
      RunKeepsValid(StepCpu(s, schedule[0]), schedule[1..]);
    }
  }

  /**
   * A finished batch leaves the clock on one of the charged vruntimes ahead of where it began,
   * if there is any, and unmoved otherwise. So it ends at or above the smallest vruntime ahead,
   * at or below the largest, and lost swaps cost at most the spread between the two.
   */
  lemma BatchLandsOnCharged(begin: U64, charged: seq<U64>, schedule: seq<nat>)
    requires NearBegin(Start(begin, charged))
    requires forall k :: 0 <= k < |schedule| ==> schedule[k] < |charged|
    requires forall i :: 0 <= i < |charged| ==> RunSchedule(Start(begin, charged), schedule).cpus[i].Done?
    ensures var s := RunSchedule(Start(begin, charged), schedule);
            if forall i :: 0 <= i < |charged| ==> Offset(s, charged[i]) <= 0 then s.clock == begin
            else exists j :: 0 <= j < |charged| && s.clock == charged[j] && Offset(s, charged[j]) > 0
  {
    RunKeepsValid(Start(begin, charged), schedule);
  }

  /** The corollary in distances: smallest ahead <= clock <= largest ahead. */
  lemma ClockTrailsBySpread(begin: U64, charged: seq<U64>, schedule: seq<nat>, lo: nat, hi: nat)
    requires NearBegin(Start(begin, charged))
    requires forall k :: 0 <= k < |schedule| ==> schedule[k] < |charged|
    requires forall i :: 0 <= i < |charged| ==> RunSchedule(Start(begin, charged), schedule).cpus[i].Done?
    requires var s := Start(begin, charged);
             && lo < |charged| && hi < |charged| && Offset(s, charged[lo]) > 0
             && (forall i :: 0 <= i < |charged| ==> Offset(s, charged[i]) <= Offset(s, charged[hi]))
             && (forall i :: 0 <= i < |charged| && Offset(s, charged[i]) > 0 ==>
                   Offset(s, charged[lo]) <= Offset(s, charged[i]))
    ensures var s := RunSchedule(Start(begin, charged), schedule);
            && Offset(s, charged[lo]) <= Offset(s, s.clock) <= Offset(s, charged[hi])
            && Offset(s, charged[hi]) - Offset(s, s.clock) <= Offset(s, charged[hi]) - Offset(s, charged[lo])
  {
    BatchLandsOnCharged(begin, charged, schedule);
  }

  /** The spread is reached: an interleaving of two advances that loses the larger one. */
  lemma LostSwapWitness()
    ensures var s := RunSchedule(Start(100, [110, 200]), [0, 1, 0, 1]);
            s.cpus == [Done, Done] && s.clock == 110
  {
    var s0 := Start(100, [110, 200]);
    assert s0.cpus == [Loading, Loading];
    var s1 := StepCpu(s0, 0);
    var s2 := StepCpu(s1, 1);
    var s3 := StepCpu(s2, 0);
    var s4 := StepCpu(s3, 1);
    assert s2.cpus == [Swapping(100), Swapping(100)];
    assert s4 == RunSchedule(s4, []) == RunSchedule(s3, [1]);
    assert [0, 1][1..] == [1] && [1, 0, 1][1..] == [0, 1] && [0, 1, 0, 1][1..] == [1, 0, 1];
    assert RunSchedule(s2, [0, 1]) == RunSchedule(s3, [1]);
    assert RunSchedule(s1, [1, 0, 1]) == RunSchedule(s2, [0, 1]);
  }
}

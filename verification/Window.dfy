/** The daemon's sliding training window with its per-pid share cap, and the fit slice cut from it. */
module Window {
  import opened Word
  import opened Samples

  const WINDOW_MAX := 16384
  const PER_PID_CAP := 819
  const MIN_PIDS := 8

  // ---- Multiplicities ----

  function Count(w: seq<Sample>, pid: U32): nat {
    if w == [] then 0
    else Count(w[..|w| - 1], pid) + if w[|w| - 1].pid == pid then 1 else 0
  }

  function Pids(w: seq<Sample>): set<U32> {
    set s | s in w :: s.pid
  }

  lemma {:induction false} CountConcat(a: seq<Sample>, b: seq<Sample>, pid: U32)
    ensures Count(a + b, pid) == Count(a, pid) + Count(b, pid)
  {
    if b == [] {
      assert a + b == a;
    } else {
      CountConcat(a, b[..|b| - 1], pid);
      assert (a + b)[..|a + b| - 1] == a + b[..|b| - 1];
    }
  }

  lemma CountPush(w: seq<Sample>, s: Sample, pid: U32)
    ensures Count(w + [s], pid) == Count(w, pid) + if s.pid == pid then 1 else 0
  {
    assert (w + [s])[..|w|] == w;
  }

  lemma CountPop(w: seq<Sample>, pid: U32)
    requires w != []
    ensures Count(w, pid) == Count(w[1..], pid) + if w[0].pid == pid then 1 else 0
  {
    CountConcat([w[0]], w[1..], pid);
    assert w == [w[0]] + w[1..];
    CountPush([], w[0], pid);
    assert [] + [w[0]] == [w[0]];
  }

  // ---- Ingestion ----

  function Admits(w: seq<Sample>, s: Sample): bool {
    Count(w, s.pid) < PER_PID_CAP
  }

  /** The window after one emitted sample. */
  function Ingested(w: seq<Sample>, s: Sample): seq<Sample> {
    if !Admits(w, s) then w
    else (if |w| == WINDOW_MAX then w[1..] else w) + [s]
  }

  /** The map is the exact multiplicity of the window, without zero entries. */
  ghost predicate Exact(counts: map<U32, nat>, w: seq<Sample>) {
    && (forall pid :: pid in counts <==> Count(w, pid) > 0)
    && forall pid :: pid in counts ==> counts[pid] == Count(w, pid)
  }

  ghost predicate Capped(w: seq<Sample>) {
    |w| <= WINDOW_MAX && forall pid :: Count(w, pid) <= PER_PID_CAP
  }

  class TrainingWindow {
    var window: seq<Sample>
    var pidCounts: map<U32, nat>
    var capDropped: nat

    ghost predicate Valid()
      reads this
    {
      Capped(window) && Exact(pidCounts, window)
    }

    constructor ()
      ensures Valid() && window == [] && capDropped == 0
    {
      window, pidCounts, capDropped := [], map[], 0;
    }

    method TreeAdmitPid(pid: U32) returns (admitted: bool)
      modifies this`pidCounts
      ensures var c := if pid in old(pidCounts) then old(pidCounts)[pid] else 0;
              && (admitted <==> c < PER_PID_CAP)
              && pidCounts == if admitted then old(pidCounts)[pid := c + 1] else old(pidCounts)[pid := c]
    {
      if pid !in pidCounts {
        pidCounts := pidCounts[pid := 0];
      }
      if pidCounts[pid] >= PER_PID_CAP {
        return false;
      }
      pidCounts := pidCounts[pid := pidCounts[pid] + 1];
      return true;
    }

    method TreeEvictPid(pid: U32)
      requires pid in pidCounts ==> pidCounts[pid] > 0
      modifies this`pidCounts
      ensures pidCounts ==
              if pid !in old(pidCounts) then old(pidCounts)
              else if old(pidCounts)[pid] == 1 then old(pidCounts) - {pid}
              else old(pidCounts)[pid := old(pidCounts)[pid] - 1]
    {
      if pid in pidCounts {
        var c := pidCounts[pid] - 1;
        pidCounts := pidCounts[pid := c];
        if c == 0 {
          pidCounts := pidCounts - {pid};
        }
      }
    }

    method IngestSample(s: Sample)
      requires Valid()
      modifies this
      ensures Valid() && window == Ingested(old(window), s)
      ensures capDropped == old(capDropped) + if Admits(old(window), s) then 0 else 1
    {
      hide Count;
      var admitted := TreeAdmitPid(s.pid);
      if !admitted {
        assert pidCounts == old(pidCounts);
        capDropped := capDropped + 1;
        return;
      }
      IngestedCapped(window, s);
      forall pid {
        CountPush(window, s, pid);
      }
      assert Exact(pidCounts, window + [s]);
      if |window| == WINDOW_MAX {
        var evicted := window[0];
        forall pid {
          CountPop(window + [s], pid);
        }
        assert (window + [s])[1..] == window[1..] + [s];
        window := window[1..];
        TreeEvictPid(evicted.pid);
      }
      window := window + [s];
    }
  }

  lemma IngestedCapped(w: seq<Sample>, s: Sample)
    requires Capped(w)
    ensures Capped(Ingested(w, s))
  {
    hide Count;
    if Admits(w, s) {
      forall pid
        ensures Count(Ingested(w, s), pid) <= PER_PID_CAP
      {
        CountPush(w, s, pid);
        CountPop(w + [s], pid);
        assert |w| == WINDOW_MAX ==> (w + [s])[1..] == w[1..] + [s];
      }
    }
  }

  // ---- Whole runs ----

  function AfterAll(samples: seq<Sample>): seq<Sample> {
    if samples == [] then []
    else Ingested(AfterAll(samples[..|samples| - 1]), samples[|samples| - 1])
  }

  /** The samples that were let in. */
  function Admitted(samples: seq<Sample>): seq<Sample> {
    if samples == [] then []
    else
      var before := samples[..|samples| - 1];
      Admitted(before) + if Admits(AfterAll(before), samples[|samples| - 1]) then [samples[|samples| - 1]] else []
  }

  function Dropped(samples: seq<Sample>): nat {
    if samples == [] then 0
    else
      var before := samples[..|samples| - 1];
      Dropped(before) + if Admits(AfterAll(before), samples[|samples| - 1]) then 0 else 1
  }

  function Newest(w: seq<Sample>): seq<Sample> {
    if |w| <= WINDOW_MAX then w else w[|w| - WINDOW_MAX..]
  }

  /**
   * Every sample is let in or counted as dropped; the window is the newest 16384 let in; no pid
   * ever holds more than its share.
   */
  lemma {:induction false} WindowRun(samples: seq<Sample>)
    ensures |Admitted(samples)| + Dropped(samples) == |samples|
    ensures AfterAll(samples) == Newest(Admitted(samples))
    ensures Capped(AfterAll(samples))
  {
    hide Count, Admits;
    if samples == [] {
      NothingHeld();
    } else {
      var before := samples[..|samples| - 1];
      WindowRun(before);
      IngestedCapped(AfterAll(before), samples[|samples| - 1]);
    }
  }

  lemma NothingHeld()
    ensures Capped([])
  {
  }

  // ---- The fit slice ----

  datatype Holdout = Refused(held: nat) | Cut(fit: seq<Sample>, holdout: seq<Sample>)

  function SplitHoldout(samples: seq<Sample>): (h: Holdout)
    ensures h.Cut? <==> |samples| >= 20
    ensures h.Cut? ==> h.fit + h.holdout == samples && 10 * |h.holdout| <= |samples| < 10 * |h.holdout| + 10
  {
    if |samples| >= 20 then
      var cut := |samples| - |samples| / 10;
      Cut(samples[..cut], samples[cut..])
    else Refused(|samples|)
  }

  method TreeDistinctPids(samples: seq<Sample>) returns (n: nat)
    ensures n == |Pids(samples)|
  {
    var seen: set<U32> := {};
    for i := 0 to |samples|
      invariant seen == Pids(samples[..i])
    {
      assert samples[..i + 1] == samples[..i] + [samples[i]];
      seen := seen + {samples[i].pid};
    }
    assert samples[..|samples|] == samples;
    n := |seen|;
  }

  function Without(w: seq<Sample>, pid: U32): seq<Sample> {
    if w == [] then []
    else Without(w[..|w| - 1], pid) + if w[|w| - 1].pid == pid then [] else [w[|w| - 1]]
  }

  lemma {:induction false} WithoutCounts(w: seq<Sample>, pid: U32, other: U32)
    ensures |w| == |Without(w, pid)| + Count(w, pid)
    ensures Count(Without(w, pid), other) == if other == pid then 0 else Count(w, other)
  {
    if w != [] {
      WithoutCounts(w[..|w| - 1], pid, other);
      CountPush(Without(w[..|w| - 1], pid), w[|w| - 1], other);
      assert Without(w[..|w| - 1], pid) + [] == Without(w[..|w| - 1], pid);
    }
  }

  lemma {:induction false} CountZero(w: seq<Sample>, pid: U32)
    ensures Count(w, pid) > 0 <==> pid in Pids(w)
  {
    if w != [] {
      CountZero(w[..|w| - 1], pid);
      assert w == w[..|w| - 1] + [w[|w| - 1]];
    }
  }

  lemma NoneHeld(w: seq<Sample>)
    requires forall pid :: Count(w, pid) <= 0
    ensures w == []
  {
    hide Count;
    if w != [] {
      NewestHeld(w);
    }
  }

  lemma NewestHeld(w: seq<Sample>)
    requires w != []
    ensures Count(w, w[|w| - 1].pid) > 0
  {
  }

  lemma OneMore(cap: nat, n: nat, m: nat)
    requires m == n + 1
    ensures cap * m == cap * n + cap
  {
  }

  /** Pigeonhole: with at most `cap` samples of each pid in d and none of others, |w| <= cap * |d|. */
  lemma {:induction false} Pigeonhole(w: seq<Sample>, d: set<U32>, cap: nat)
    requires forall pid :: Count(w, pid) <= if pid in d then cap else 0
    ensures |w| <= cap * |d|
    decreases |d|
  {
    hide Count, Pids;
    if d == {} {
      NoneHeld(w);
    } else {
      var p :| p in d;
      var w', d' := Without(w, p), d - {p};
      forall pid
        ensures Count(w', pid) <= if pid in d' then cap else 0
      {
        WithoutCounts(w, p, pid);
      }
      WithoutCounts(w, p, p);
      Pigeonhole(w', d', cap);
      OneMore(cap, |d'|, |d|);
    }
  }

  lemma PrefixCount(w: seq<Sample>, n: nat, pid: U32)
    requires n <= |w|
    ensures Count(w[..n], pid) <= Count(w, pid)
  {
    CountConcat(w[..n], w[n..], pid);
    assert w == w[..n] + w[n..];
  }

  /** From 6371 samples on, the fit slice always holds the 8 distinct pids a publish asks for. */
  lemma PidGatePasses(samples: seq<Sample>)
    requires |AfterAll(samples)| >= 6371
    ensures SplitHoldout(AfterAll(samples)).Cut?
    ensures |Pids(SplitHoldout(AfterAll(samples)).fit)| >= MIN_PIDS
  {
    hide Count;
    var w := AfterAll(samples);
    WindowRun(samples);
    var fit := SplitHoldout(w).fit;
    forall pid
      ensures Count(fit, pid) <= if pid in Pids(fit) then PER_PID_CAP else 0
    {
      PrefixCount(w, |fit|, pid);
      CountZero(fit, pid);
    }
    Pigeonhole(fit, Pids(fit), PER_PID_CAP);
  }

  /** n samples in blocks of 819 per pid. */
  function Blocks(n: nat): (w: seq<Sample>)
    requires n <= 6370
    ensures |w| == n
    ensures forall i :: 0 <= i < n ==> w[i] == BlockSample(i)
  {
    seq(n, i requires 0 <= i < n => BlockSample(i))
  }

  function BlockSample(i: nat): Sample
    requires i < 6370
  {
    Sample(i / PER_PID_CAP, Feats(0, 0, 0, 0, 0, 0, 0, 0, 0, 0), 0)
  }

  lemma {:induction false} BlockCount(n: nat, pid: U32)
    requires n <= 6370
    ensures Count(Blocks(n), pid) == Min(PER_PID_CAP, Max(0, n - pid * PER_PID_CAP))
  {
    if n > 0 {
      BlockCount(n - 1, pid);
      assert Blocks(n)[..n - 1] == Blocks(n - 1);
    }
  }

  /** The next sample's pid still has room. */
  lemma BlockHasRoom(i: nat)
    requires i < 6370
    ensures Count(Blocks(i), BlockSample(i).pid) < PER_PID_CAP
  {
    hide Count;
    BlockCount(i, i / PER_PID_CAP);
    assert i == i / PER_PID_CAP * PER_PID_CAP + i % PER_PID_CAP;
  }

  lemma {:induction false} BlocksAdmitted(n: nat)
    requires n <= 6370
    ensures AfterAll(Blocks(n)) == Blocks(n)
  {
    hide Count, BlockSample;
    if n > 0 {
      BlocksAdmitted(n - 1);
      assert Blocks(n)[..n - 1] == Blocks(n - 1);
      BlockHasRoom(n - 1);
    }
  }

  lemma BlocksFit()
    ensures SplitHoldout(Blocks(6370)).Cut?
    ensures SplitHoldout(Blocks(6370)).fit == Blocks(6370)[..5733]
  {
    hide Blocks;
  }

  lemma SmallBlock(i: nat)
    requires i < 5733
    ensures BlockSample(i).pid in {0, 1, 2, 3, 4, 5, 6}
  {
  }

  /** The bound is exact: a reachable window of 6370 samples has a fit slice of 7 pids. */
  lemma PidGateBoundIsTight()
    ensures AfterAll(Blocks(6370)) == Blocks(6370)
    ensures SplitHoldout(Blocks(6370)).Cut?
    ensures |Pids(SplitHoldout(Blocks(6370)).fit)| < MIN_PIDS
  {
    hide BlockSample, SplitHoldout;
    BlocksAdmitted(6370);
    var fit := SplitHoldout(Blocks(6370)).fit;
    BlocksFit();
    var seven: set<U32> := {0, 1, 2, 3, 4, 5, 6};
    forall s | s in fit
      ensures s.pid in seven
    {
      var i :| 0 <= i < |fit| && fit[i] == s;
      SmallBlock(i);
    }
    Contained(Pids(fit), seven);
  }

  lemma {:induction false} Contained(a: set<U32>, b: set<U32>)
    requires a <= b
    ensures |a| <= |b|
    decreases |b|
  {
    if a != {} {
      var x :| x in a;
      Contained(a - {x}, b - {x});
    }
  }
}

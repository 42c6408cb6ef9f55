/** The daemon's publish gate: every committed model beats the last, so commits are bounded. */
module Ratchet {
  import opened Word
  import opened Wrappers
  import opened Samples
  import opened TreeFit
  import opened TreeLayout
  import opened TreeWalk
  import opened Publish
  import opened Training
  import Pearson
  import Window

  const CORR_FLOOR := 0.3
  const CORR_STEP := 0.000000001
  const MAX_COMMITS := 700_000_000

  /** The committed model and where it lives. */
  datatype Model = Model(generation: U64, corr: real, meta: U64, store: seq<seq<Node>>)

  // ---- The gate ----

  predicate ShouldPublish(maeTree: real, maeEma: real, corr: real, published: real, hasModel: bool) {
    maeTree <= maeEma && corr >= CORR_FLOOR && (hasModel ==> corr > published + CORR_STEP)
  }

  /** The meta accepts only a generation above the one it holds. */
  predicate Monotonic(generation: U64, meta: U64) {
    MetaGeneration(meta) == 0 || generation > MetaGeneration(meta)
  }

  /** A fit that may replace model m. */
  ghost predicate Eligible(m: Model, res: TrainResult) {
    && Valid(res.tree) && res.nrPids >= Window.MIN_PIDS
    && ShouldPublish(res.maeTree, res.maeEma, res.corr, m.corr, m.generation != 0)
  }

  predicate WellFormed(m: Model) {
    |m.store| == 2 && |m.store[0]| == |m.store[1]| == MAX_NODES && m.generation < U64_SIZE - 1
  }

  /** Model m after a fit: the inactive entry, the meta and the scores change together or not at all. */
  ghost function Applied(m: Model, res: TrainResult): (m': Model)
    requires WellFormed(m)
    ensures |m'.store| == 2 && |m'.store[0]| == |m'.store[1]| == MAX_NODES
  {
    var generation := m.generation + 1;
    if Eligible(m, res) && Monotonic(generation, m.meta) then
      var e := 1 - MetaActive(m.meta);
      Model(generation, res.corr, TreeMeta(generation, |res.tree|, e), m.store[e := Padded(res.tree)])
    else m
  }

  class Daemon {
    var generation: U64
    var corr: real
    var meta: U64
    var store: seq<seq<Node>>

    ghost function Contents(): Model
      reads this
    {
      Model(generation, corr, meta, store)
    }

    /** Nothing trained: zeroed store and meta. */
    constructor ()
      ensures Contents() == Untrained()
    {
      generation, corr, meta := 0, 0.0, 0;
      store := [Padded([]), Padded([])];
    }

    /** Write the inactive entry in full, then commit the meta; refuse a stale generation. */
    method PublishTree(tree: seq<Node>, gen: U64) returns (ok: bool)
      requires WellFormed(Contents()) && |tree| <= MAX_NODES
      modifies this`meta, this`store
      ensures ok == Monotonic(gen, old(meta))
      ensures !ok ==> meta == old(meta) && store == old(store)
      ensures ok ==> var e := 1 - MetaActive(old(meta));
                     meta == TreeMeta(gen, |tree|, e) && store == old(store)[e := Padded(tree)]
    {
      var oldGen := MetaGeneration(meta);
      if gen <= oldGen && oldGen != 0 {
        return false;
      }
      var newActive := 1 - MetaActive(meta);
      store := store[newActive := Padded(tree)];
      meta := TreeMeta(gen, |tree|, newActive);
      ok := true;
    }

    method ApplyTrainResult(res: TrainResult)
      requires WellFormed(Contents())
      modifies this
      ensures Contents() == Applied(old(Contents()), res)
    {
      var verdict := SerializeValidate(res.tree);
      if !verdict.Accepted? {
        return;
      }
      var gen := generation + 1;
      if res.nrPids < Window.MIN_PIDS {
        return;
      }
      if !ShouldPublish(res.maeTree, res.maeEma, res.corr, corr, generation != 0) {
        return;
      }
      var ok := PublishTree(res.tree, gen);
      if ok {
        generation, corr := gen, res.corr;
      }
    }
  }

  // ---- Whole runs ----

  ghost function Untrained(): Model {
    Model(0, 0.0, 0, [Padded([]), Padded([])])
  }

  /** A fit that came out of a training run. */
  ghost predicate Scored(res: TrainResult) {
    exists e: Evidence :: IsRunOf(e, res)
  }

  /** What holds of a model after the fits in `commits` were committed, in order. */
  ghost predicate Inv(m: Model, commits: seq<TrainResult>) {
    && Increasing(commits) && m.generation == |commits| <= MAX_COMMITS
    && |m.store| == 2 && |m.store[0]| == |m.store[1]| == MAX_NODES
    && MetaGeneration(m.meta) == m.generation
    && (MetaTrained(m.meta) <==> commits != [])
    && MetaActive(m.meta) == |commits| % 2
    && (commits != [] ==>
          && m.corr == commits[|commits| - 1].corr
          && m.store[MetaActive(m.meta)] == Padded(commits[|commits| - 1].tree)
          && MetaNodes(m.meta) == |commits[|commits| - 1].tree|)
  }

  /** Committed fits are valid, beat the gauge baseline and all fits before, from the floor to at most 1. */
  ghost predicate Increasing(commits: seq<TrainResult>) {
    && (forall i :: 0 <= i < |commits| ==> Valid(commits[i].tree) && commits[i].nrPids >= Window.MIN_PIDS)
    && (forall i :: 0 <= i < |commits| ==> commits[i].maeTree <= commits[i].maeEma)
    && (forall i :: 0 <= i < |commits| ==> CORR_FLOOR + i as real * CORR_STEP <= commits[i].corr <= 1.0)
    && forall i, j :: 0 <= i < j < |commits| ==> commits[i].corr + CORR_STEP < commits[j].corr
  }

  lemma UntrainedHolds()
    ensures Inv(Untrained(), [])
  {
  }

  lemma ScoredAtMostOne(res: TrainResult)
    requires Scored(res)
    ensures res.corr <= 1.0
  {
    hide IsRunOf;
    var e: Evidence :| IsRunOf(e, res);
    RunCorrelation(e, res);
  }

  lemma RunCorrelation(e: Evidence, res: TrainResult)
    requires IsRunOf(e, res)
    ensures res.corr <= 1.0
  {
    hide Valid, OneParent, Ordered, Grown, Mae, Pearson.IsPearson;
    var fit: seq<Sample>, holdout: seq<Sample> :|
      && SlicesOf(e, fit, holdout) && |fit| + |holdout| == |e.samples|
      && Grown(res.tree, e.growth, DAEMON_PARAMS, WithWeights(fit, e.fitWeights))
      && Valid(res.tree) && OneParent(res.tree) && Ordered(res.tree) && res.tree != []
      && res.nrPids == |Window.Pids(fit)|
      && ScoredOn(res, holdout, e.weights[|fit|..]);
    Pearson.PearsonBounded(Leaves(res.tree, holdout), Labels(holdout), res.corr);
  }

  lemma IncreasingSnoc(m: Model, commits: seq<TrainResult>, res: TrainResult)
    requires Increasing(commits) && m.generation == |commits|
    requires commits != [] ==> m.corr == commits[|commits| - 1].corr
    requires Eligible(m, res) && res.corr <= 1.0
    ensures Increasing(commits + [res]) && |commits| + 1 <= MAX_COMMITS
  {
    hide Valid;
    var n := |commits|;
    if n > 0 {
      assert commits[n - 1].corr >= CORR_FLOOR + (n - 1) as real * CORR_STEP;
      assert n as real * CORR_STEP == (n - 1) as real * CORR_STEP + CORR_STEP;
      assert CORR_FLOOR + n as real * CORR_STEP < 1.0;
    }
    forall i | 0 <= i < n
      ensures commits[i].corr + CORR_STEP < res.corr
    {
      assert i < n - 1 ==> commits[i].corr + CORR_STEP < commits[n - 1].corr;
    }
  }

  lemma Commits(m: Model, commits: seq<TrainResult>, res: TrainResult)
    requires Inv(m, commits) && Eligible(m, res) && Scored(res)
    ensures Monotonic(m.generation + 1, m.meta)
    ensures Inv(Applied(m, res), commits + [res])
  {
    hide Valid, Scored, Increasing, TreeMeta, MetaTrained, MetaActive, MetaNodes, MetaGeneration, ShouldPublish;
    ScoredAtMostOne(res);
    IncreasingSnoc(m, commits, res);
    EligibleSize(m, res);
    MetaRoundTrip(m.generation + 1, |res.tree|, 1 - MetaActive(m.meta));
    assert (m.generation + 1) % 0x1_0000_0000 == m.generation + 1;
    assert (|commits| + 1) % 2 == 1 - |commits| % 2;
  }

  lemma EligibleSize(m: Model, res: TrainResult)
    requires Eligible(m, res)
    ensures |res.tree| <= MAX_NODES
  {
  }

  /** The model after a series of fits. */
  ghost function After(m: Model, results: seq<TrainResult>): Option<Model>
    decreases |results|
  {
    if results == [] then Some(m)
    else if !WellFormed(m) then None
    else After(Applied(m, results[0]), results[1..])
  }

  /** The fits among them that were committed. */
  ghost function CommittedFits(m: Model, results: seq<TrainResult>): seq<TrainResult>
    decreases |results|
  {
    if results == [] || !WellFormed(m) then []
    else (if Eligible(m, results[0]) then [results[0]] else []) + CommittedFits(Applied(m, results[0]), results[1..])
  }

  lemma {:induction false} RunKeeps(m: Model, before: seq<TrainResult>, results: seq<TrainResult>)
    requires Inv(m, before)
    requires forall res | res in results :: Scored(res)
    ensures After(m, results).Some?
    ensures Inv(After(m, results).value, before + CommittedFits(m, results))
    decreases |results|
  {
    hide Inv, Applied, Eligible, Scored;
    if results == [] {
      assert before + [] == before;
    } else {
      InvWellFormed(m, before);
      var res := results[0];
      if Eligible(m, res) {
        Commits(m, before, res);
        RunKeeps(Applied(m, res), before + [res], results[1..]);
        assert before + [res] + CommittedFits(Applied(m, res), results[1..])
            == before + ([res] + CommittedFits(Applied(m, res), results[1..]));
      } else {
        Rejected(m, res);
        RunKeeps(m, before, results[1..]);
        assert [] + CommittedFits(m, results[1..]) == CommittedFits(m, results[1..]);
      }
    }
  }

  lemma Rejected(m: Model, res: TrainResult)
    requires WellFormed(m) && !Eligible(m, res)
    ensures Applied(m, res) == m
  {
  }

  lemma InvWellFormed(m: Model, commits: seq<TrainResult>)
    requires Inv(m, commits)
    ensures WellFormed(m)
  {
  }

  ghost predicate Ratcheted(m: Model, commits: seq<TrainResult>) {
    && |commits| <= MAX_COMMITS && Increasing(commits)
    && m.generation == MetaGeneration(m.meta) == |commits|
    && MetaActive(m.meta) == |commits| % 2
    && |m.store| == 2
    && (commits != [] ==> m.store[MetaActive(m.meta)] == Padded(commits[|commits| - 1].tree))
  }

  lemma InvSays(m: Model, commits: seq<TrainResult>)
    requires Inv(m, commits)
    ensures Ratcheted(m, commits)
  {
    hide Valid, TreeMeta, MetaTrained, MetaGeneration;
  }

  /**
   * Over any series of fits scored by correlation, from the untrained daemon on: at most 700
   * million are committed, each beating all earlier ones; the generation counts them exactly, so
   * its 32-bit field never wraps; the active bit alternates, and the active entry holds the last.
   */
  lemma RatchetRun(results: seq<TrainResult>)
    requires forall res | res in results :: Scored(res)
    ensures After(Untrained(), results).Some?
    ensures Ratcheted(After(Untrained(), results).value, CommittedFits(Untrained(), results))
  {
    hide Inv, Applied, Eligible, After, CommittedFits;
    UntrainedHolds();
    RunKeeps(Untrained(), [], results);
    assert [] + CommittedFits(Untrained(), results) == CommittedFits(Untrained(), results);
    InvSays(After(Untrained(), results).value, CommittedFits(Untrained(), results));
  }

  // ---- What is committed ----

  /** The fit is worth committing, in numbers, given the correlation of the last commit if there is one. */
  ghost predicate Improves(res: TrainResult, last: Option<real>) {
    && Valid(res.tree) && res.nrPids >= 8 && res.maeTree <= res.maeEma && res.corr >= 0.3
    && (last.Some? ==> res.corr > last.value + 0.000000001)
  }

  function LastCorr(commits: seq<TrainResult>): Option<real> {
    if commits == [] then None else Some(commits[|commits| - 1].corr)
  }

  /** What a commit of the fit does: next generation, its score, its tree in the other, now active entry. */
  ghost predicate Replaces(m: Model, res: TrainResult, m': Model) {
    && m'.generation == m.generation + 1 && m'.corr == res.corr
    && |m.store| == |m'.store| == 2 && |res.tree| <= MAX_NODES
    && MetaTrained(m'.meta) && MetaActive(m'.meta) == 1 - MetaActive(m.meta)
    && MetaNodes(m'.meta) == |res.tree| && MetaGeneration(m'.meta) == m'.generation
    && m'.store[MetaActive(m'.meta)] == Padded(res.tree)
    && m'.store[MetaActive(m.meta)] == m.store[MetaActive(m.meta)]
  }

  lemma ImprovesIsEligible(m: Model, commits: seq<TrainResult>, res: TrainResult)
    requires Inv(m, commits)
    ensures Improves(res, LastCorr(commits)) <==> Eligible(m, res)
  {
    hide Valid, Increasing, MetaTrained, MetaActive, MetaNodes, MetaGeneration;
  }

  lemma EligibleReplaces(m: Model, commits: seq<TrainResult>, res: TrainResult)
    requires Inv(m, commits) && Eligible(m, res) && Scored(res)
    ensures WellFormed(m) && Replaces(m, res, Applied(m, res))
  {
    hide Valid, Scored, Increasing, TreeMeta, MetaTrained, MetaActive, MetaNodes, MetaGeneration, ShouldPublish;
    InvWellFormed(m, commits);
    Commits(m, commits, res);
    EligibleSize(m, res);
    MetaRoundTrip(m.generation + 1, |res.tree|, 1 - MetaActive(m.meta));
  }

  /**
   * In every reachable state a fit replaces the model if and only if its tree is valid, its slice held
   * at least 8 pids, it is no worse than the baseline, its correlation is at least 0.3 and, once there is
   * a model, beats that model's by more than 1e-9. Otherwise nothing changes.
   */
  lemma CommittedIff(results: seq<TrainResult>, res: TrainResult)
    requires Scored(res) && forall x | x in results :: Scored(x)
    ensures After(Untrained(), results).Some? && WellFormed(After(Untrained(), results).value)
    ensures var m, commits := After(Untrained(), results).value, CommittedFits(Untrained(), results);
            && (Improves(res, LastCorr(commits)) ==> Replaces(m, res, Applied(m, res)))
            && (!Improves(res, LastCorr(commits)) ==> Applied(m, res) == m)
            && (commits != [] <==> MetaTrained(m.meta)) && (commits != [] ==> LastCorr(commits) == Some(m.corr))
  {
    hide Applied, Eligible, After, CommittedFits, Scored, Improves, Replaces, MetaTrained, MetaActive, MetaNodes,
      MetaGeneration, Increasing;
    UntrainedHolds();
    RunKeeps(Untrained(), [], results);
    var m, commits := After(Untrained(), results).value, CommittedFits(Untrained(), results);
    assert [] + commits == commits;
    InvWellFormed(m, commits);
    ImprovesIsEligible(m, commits, res);
    if Eligible(m, res) {
      EligibleReplaces(m, commits, res);
    } else {
      Rejected(m, res);
    }
  }

  /** Every fit in the series improves on the one before it, the first on `last`. */
  ghost predicate Rising(last: Option<real>, results: seq<TrainResult>)
    decreases |results|
  {
    results != [] ==> Improves(results[0], last) && Rising(Some(results[0].corr), results[1..])
  }

  lemma {:induction false} RisingFrom(m: Model, before: seq<TrainResult>, results: seq<TrainResult>)
    requires Inv(m, before) && Rising(LastCorr(before), results)
    requires forall res | res in results :: Scored(res)
    ensures CommittedFits(m, results) == results
    decreases |results|
  {
    hide Inv, Applied, Eligible, Scored, Improves;
    if results != [] {
      var res := results[0];
      InvWellFormed(m, before);
      ImprovesIsEligible(m, before, res);
      Commits(m, before, res);
      assert LastCorr(before + [res]) == Some(res.corr);
      RisingFrom(Applied(m, res), before + [res], results[1..]);
      assert results == [res] + results[1..];
    }
  }

  /** A series of training runs each of which improves on the run before is committed whole. */
  lemma RisingSeriesCommitted(results: seq<TrainResult>)
    requires Rising(None, results) && forall res | res in results :: Scored(res)
    ensures CommittedFits(Untrained(), results) == results
  {
    UntrainedHolds();
    RisingFrom(Untrained(), [], results);
  }
}

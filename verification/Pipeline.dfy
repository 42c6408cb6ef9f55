/** From a window of samples to a concurrent reader: fits, gate, publish and walk in one statement. */
module Pipeline {
  import opened Word
  import opened Samples
  import opened TreeLayout
  import opened TreeFit
  import opened Training
  import Publish
  import Ratchet
  import Serving
  import Window

  predicate HasFitSlice(e: Evidence) {
    && Window.SplitHoldout(e.samples).Cut?
    && |Window.SplitHoldout(e.samples).fit| == |e.fitWeights|
  }

  /** The weighted samples a run grew its tree on. */
  function FitSlice(e: Evidence): seq<Weighted>
    requires HasFitSlice(e)
  {
    WithWeights(Window.SplitHoldout(e.samples).fit, e.fitWeights)
  }

  /**
   * A reader's result explained by a fit: the leaf of the descent for its features, which is the weighted
   * mean label, truncated and capped, of the fit slice's samples that end on the same leaf.
   */
  ghost predicate Explains(e: Evidence, res: TrainResult, feats: Feats, result: U32) {
    && IsRunOf(e, res) && Ordered(res.tree) && res.tree != [] && HasFitSlice(e)
    && result == res.tree[Descend(res.tree, 0, feats)].left
    && PredictsMean(res.tree, FitSlice(e), feats)
  }

  lemma RunExplains(e: Evidence, res: TrainResult, feats: Feats)
    requires IsRunOf(e, res)
    ensures Ordered(res.tree) && res.tree != []
    ensures Explains(e, res, feats, res.tree[Descend(res.tree, 0, feats)].left)
  {
    hide IsRunOf, Ordered, PredictsMean, WithWeights, Descend;
    var fit := RunPredicts(e, res);
  }

  lemma ScoredIsProper(fit: TrainResult)
    requires Ratchet.Scored(fit)
    ensures Valid(fit.tree) && OneParent(fit.tree)
  {
    hide IsRunOf, Valid, OneParent;
    var e: Evidence :| IsRunOf(e, fit);
    var slice := RunPredicts(e, fit);
  }

  lemma CommitIsProper(m: Ratchet.Model, commits: seq<TrainResult>, k: nat)
    requires Ratchet.Ratcheted(m, commits) && k < |commits|
    ensures commits[k].nrPids >= Window.MIN_PIDS && commits[k].maeTree <= commits[k].maeEma
    ensures Ratchet.CORR_FLOOR <= commits[k].corr <= 1.0
  {
    hide Valid;
    assert Ratchet.CORR_FLOOR + k as real * Ratchet.CORR_STEP <= commits[k].corr <= 1.0;
  }

  /**
   * End to end. The daemon takes up training runs one after the other, publishes those its gate lets
   * pass node by node, and readers walk in between. An untorn prediction is that of one committed fit:
   * the daemon took it up, its holdout scores beat the gauge baseline's, its fit slice held at least 8
   * pids, and the prediction is explained by that fit.
   */
  lemma WindowToReader(s: Serving.State, acts: seq<Serving.Action>, s': Serving.State, r: nat)
    returns (fit: TrainResult, e: Evidence)
    requires Serving.Init(s) && Serving.Run(s, acts, s') && r < |s'.pub.readers|
    requires s'.pub.readers[r].Done? && s'.pub.readers[r].trained && !s'.pub.readers[r].torn
    ensures fit in Serving.Considered(acts) && fit.maeTree <= fit.maeEma && fit.nrPids >= Window.MIN_PIDS
    ensures Ratchet.CORR_FLOOR <= fit.corr <= 1.0 && ScoresHold(e, fit)
    ensures s'.pub.readers[r].names < |s'.pub.committed| && s'.pub.committed[s'.pub.readers[r].names] == fit.tree
    ensures Explains(e, fit, s'.pub.readers[r].feats, s'.pub.readers[r].result)
  {
    hide Ratchet.CommittedFits, Ratchet.After, Ratchet.Scored, Ratchet.Ratcheted, Serving.Run, Serving.Init,
      Publish.Inv, Valid, OneParent, Ordered, Explains, IsRunOf, Descend;
    var m, fits, commits := Serving.RunRefinesDaemon(s, acts, s');
    forall k | 0 <= k < |s'.pub.committed|
      ensures Valid(s'.pub.committed[k]) && OneParent(s'.pub.committed[k])
    {
      assert commits[k] in commits;
      ScoredIsProper(commits[k]);
    }
    Publish.InvReachesTheLeaf(s'.pub, r);
    var k := s'.pub.readers[r].names;
    fit := commits[k];
    CommitIsProper(m, commits, k);
    assert fit in commits;
    Serving.CommitsAmong(Ratchet.Untrained(), fits);
    e := RunOf(fit);
    RunExplains(e, fit, s'.pub.readers[r].feats);
    RunScored(e, fit);
  }

  lemma RunOf(fit: TrainResult) returns (e: Evidence)
    requires Ratchet.Scored(fit)
    ensures IsRunOf(e, fit)
  {
    hide IsRunOf;
    e :| IsRunOf(e, fit);
  }
}

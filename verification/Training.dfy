/** One training run: holdout split, fit, validation, and the holdout scores the publish gate reads. */
module Training {
  import opened Word
  import opened Samples
  import opened TreeLayout
  import opened TreeWalk
  import opened TreeFit
  import opened Pearson
  import TreeMeaning
  import Window

  const MIN_LEAF := 32
  const MIN_REL_REDUCTION := 0.001

  const DAEMON_PARAMS := Params(MAX_DEPTH, MIN_LEAF, MAX_NODES, MIN_REL_REDUCTION)

  // ---- Holdout error ----

  function Error(pred: U64, actual: U64): nat {
    if pred >= actual then pred - actual else actual - pred
  }

  function WeightSum(w: seq<Weight>): (s: real)
    ensures s >= 0.0 && (w != [] ==> s > 0.0)
  {
    if w == [] then 0.0 else WeightSum(w[..|w| - 1]) + w[|w| - 1]
  }

  function Weighed(w: Weight, error: nat): real {
    w * error as real
  }

  function ErrorSum(preds: seq<U64>, actuals: seq<U64>, w: seq<Weight>): real
    requires |preds| == |actuals| == |w|
  {
    if w == [] then 0.0
    else
      var n := |w| - 1;
      ErrorSum(preds[..n], actuals[..n], w[..n]) + Weighed(w[n], Error(preds[n], actuals[n]))
  }

  /** Recency-weighted mean absolute error; 0 for an empty slice. */
  function Mae(preds: seq<U64>, actuals: seq<U64>, w: seq<Weight>): real
    requires |preds| == |actuals| == |w|
  {
    if w == [] then 0.0 else ErrorSum(preds, actuals, w) / WeightSum(w)
  }

  method WeightedHoldoutMae(preds: seq<U64>, actuals: seq<U64>, w: seq<Weight>) returns (mae: real)
    requires |preds| == |actuals| == |w|
    ensures mae == Mae(preds, actuals, w)
  {
    hide Error, Weighed;
    if preds == [] {
      return 0.0;
    }
    var sw: real, swErr: real := 0.0, 0.0;
    for i := 0 to |w|
      invariant sw == WeightSum(w[..i]) && swErr == ErrorSum(preds[..i], actuals[..i], w[..i])
    {
      assert w[..i + 1][..i] == w[..i] && preds[..i + 1][..i] == preds[..i] && actuals[..i + 1][..i] == actuals[..i];
      sw, swErr := sw + w[i], swErr + Weighed(w[i], Error(preds[i], actuals[i]));
    }
    assert w[..|w|] == w && preds[..|w|] == preds && actuals[..|w|] == actuals;
    mae := if sw == 0.0 then 0.0 else swErr / sw;
  }

  lemma WeighedSign(w: Weight, error: nat)
    ensures Weighed(w, error) >= 0.0
    ensures Weighed(w, error) == 0.0 <==> error == 0
  {
  }

  lemma WeighedMono(w: Weight, error: nat, most: nat)
    requires error <= most
    ensures Weighed(w, error) <= most as real * w
  {
    var e, m := error as real, most as real;
    assert (m - e) * w >= 0.0;
    assert (m - e) * w == m * w - w * e;
  }

  lemma ErrorFree(pred: U64, actual: U64)
    ensures Error(pred, actual) == 0 <==> pred == actual
  {
  }

  /** The weighted errors vanish together exactly when every prediction is exact. */
  lemma {:induction false} ErrorFreeIffExact(preds: seq<U64>, actuals: seq<U64>, w: seq<Weight>)
    requires |preds| == |actuals| == |w|
    ensures ErrorSum(preds, actuals, w) >= 0.0
    ensures ErrorSum(preds, actuals, w) == 0.0 <==> preds == actuals
  {
    hide Weighed, Error;
    if w != [] {
      var n := |w| - 1;
      ErrorFreeIffExact(preds[..n], actuals[..n], w[..n]);
      ErrorFree(preds[n], actuals[n]);
      WeighedSign(w[n], Error(preds[n], actuals[n]));
      assert preds == preds[..n] + [preds[n]] && actuals == actuals[..n] + [actuals[n]];
    }
  }

  /** The weighted error is at most the largest single error, in the same weights. */
  lemma {:induction false} ErrorBelowMax(preds: seq<U64>, actuals: seq<U64>, w: seq<Weight>, most: nat)
    requires |preds| == |actuals| == |w|
    requires forall i :: 0 <= i < |w| ==> Error(preds[i], actuals[i]) <= most
    ensures ErrorSum(preds, actuals, w) <= most as real * WeightSum(w)
  {
    hide Error, Weighed;
    if w != [] {
      var n := |w| - 1;
      ErrorBelowMax(preds[..n], actuals[..n], w[..n], most);
      WeighedMono(w[n], Error(preds[n], actuals[n]), most);
      Distributes(most as real, WeightSum(w[..n]), w[n]);
    }
  }

  /** How far, in its weight, the absolute difference of a pair is from m. */
  function Pull(pred: U64, actual: U64, w: Weight, m: real): real {
    var gap := pred as real - actual as real;
    w * ((if gap < 0.0 then -gap else gap) - m)
  }

  function ErrorBalance(preds: seq<U64>, actuals: seq<U64>, w: seq<Weight>, m: real): real
    requires |preds| == |actuals| == |w|
  {
    if w == [] then 0.0
    else
      var n := |w| - 1;
      ErrorBalance(preds[..n], actuals[..n], w[..n], m) + Pull(preds[n], actuals[n], w[n], m)
  }

  lemma PullIsError(pred: U64, actual: U64, w: Weight, m: real)
    ensures Pull(pred, actual, w, m) == Weighed(w, Error(pred, actual)) - m * w
  {
    var gap := pred as real - actual as real;
    var e := if gap < 0.0 then -gap else gap;
    assert e == Error(pred, actual) as real;
    assert w * (e - m) == w * e - m * w;
  }

  lemma {:induction false} BalanceExpands(preds: seq<U64>, actuals: seq<U64>, w: seq<Weight>, m: real)
    requires |preds| == |actuals| == |w|
    ensures ErrorBalance(preds, actuals, w, m) == ErrorSum(preds, actuals, w) - m * WeightSum(w)
  {
    hide Error, Weighed, Pull;
    if w != [] {
      var n := |w| - 1;
      var before, last := ErrorBalance(preds[..n], actuals[..n], w[..n], m), Pull(preds[n], actuals[n], w[n], m);
      assert ErrorBalance(preds, actuals, w, m) == before + last;
      BalanceExpands(preds[..n], actuals[..n], w[..n], m);
      PullIsError(preds[n], actuals[n], w[n], m);
      Distributes(m, WeightSum(w[..n]), w[n]);
    }
  }

  /** The error of a non-empty slice is the one point around which its absolute differences balance. */
  lemma MaeBalances(preds: seq<U64>, actuals: seq<U64>, w: seq<Weight>, m: real)
    requires |preds| == |actuals| == |w| && w != []
    ensures ErrorBalance(preds, actuals, w, m) == 0.0 <==> m == Mae(preds, actuals, w)
  {
    hide ErrorSum, ErrorBalance, WeightSum;
    BalanceExpands(preds, actuals, w, m);
    IsQuotient(ErrorSum(preds, actuals, w), WeightSum(w), m);
  }

  lemma Distributes(a: real, b: real, c: real)
    ensures a * (b + c) == a * b + a * c
  {
  }

  // ---- The run ----

  /** A fit with its holdout scores. */
  datatype TrainResult = TrainResult(tree: seq<Node>, nrPids: nat, maeTree: real, maeEma: real, corr: real)

  datatype Run = Skipped(held: nat) | Trained(res: TrainResult)

  /** What a run was made from: the window, the recency weights of fit slice and window, the growth. */
  datatype Evidence = Evidence(samples: seq<Sample>, fitWeights: seq<Weight>, weights: seq<Weight>, growth: Growth)

  function Labels(s: seq<Sample>): (r: seq<U64>)
    ensures |r| == |s| && forall i :: 0 <= i < |s| ==> r[i] == s[i].labelNs
  {
    seq(|s|, i requires 0 <= i < |s| => s[i].labelNs)
  }

  function Emas(s: seq<Sample>): (r: seq<U64>)
    ensures |r| == |s| && forall i :: 0 <= i < |s| ==> r[i] == s[i].feats.ema
  {
    seq(|s|, i requires 0 <= i < |s| => s[i].feats.ema)
  }

  /** The leaf predictions of plain descent. */
  function Leaves(tree: seq<Node>, s: seq<Sample>): (r: seq<U64>)
    requires Ordered(tree) && tree != []
    ensures |r| == |s| && forall i :: 0 <= i < |s| ==> r[i] == tree[Descend(tree, 0, s[i].feats)].left
  {
    seq(|s|, i requires 0 <= i < |s| => tree[Descend(tree, 0, s[i].feats)].left)
  }

  ghost predicate SlicesOf(e: Evidence, fit: seq<Sample>, holdout: seq<Sample>) {
    && Window.SplitHoldout(e.samples) == Window.Cut(fit, holdout)
    && |e.fitWeights| == |fit| && |e.weights| == |e.samples|
  }

  /** The scores are those of the tree on the slice it was not fit on. */
  ghost predicate ScoredOn(res: TrainResult, holdout: seq<Sample>, w: seq<Weight>)
    requires Ordered(res.tree) && res.tree != [] && |w| == |holdout|
  {
    && res.maeTree == Mae(Leaves(res.tree, holdout), Labels(holdout), w)
    && res.maeEma == Mae(Emas(holdout), Labels(holdout), w)
    && IsPearson(Leaves(res.tree, holdout), Labels(holdout), res.corr)
  }

  /** res came out of a run on the evidence: grown on the fit slice, scored on the holdout. */
  ghost predicate IsRunOf(e: Evidence, res: TrainResult) {
    exists fit: seq<Sample>, holdout: seq<Sample> ::
      && SlicesOf(e, fit, holdout) && |fit| + |holdout| == |e.samples|
      && Grown(res.tree, e.growth, DAEMON_PARAMS, WithWeights(fit, e.fitWeights))
      && Valid(res.tree) && OneParent(res.tree) && Ordered(res.tree) && res.tree != []
      && res.nrPids == |Window.Pids(fit)|
      && ScoredOn(res, holdout, e.weights[|fit|..])
  }

  lemma FittedIsValid(nodes: seq<Node>, g: Growth, root: seq<Weighted>)
    requires Grown(nodes, g, DAEMON_PARAMS, root)
    ensures Valid(nodes) && OneParent(nodes) && Ordered(nodes) && nodes != [] && |nodes| <= MAX_NODES
  {
    hide Valid, OneParent, Ordered;
    TreeMeaning.GrownIsValid(nodes, g, DAEMON_PARAMS, root);
  }

  /** Predictions of the holdout by the daemon's walk: on a fitted tree, those of plain descent. */
  method PredictAll(tree: seq<Node>, s: seq<Sample>) returns (preds: seq<U64>)
    requires Valid(tree) && OneParent(tree) && Ordered(tree) && tree != []
    ensures preds == Leaves(tree, s)
  {
    hide Valid, OneParent, Ordered, Descend, RustWalk, StoreWalk;
    preds := [];
    for i := 0 to |s|
      invariant |preds| == i
      invariant forall k :: 0 <= k < i ==> preds[k] == tree[Descend(tree, 0, s[k].feats)].left
    {
      var pred := Predict(tree, s[i].feats);
      ValidatedWalkReachesLeaf(tree, s[i].feats);
      preds := preds + [pred];
    }
  }

  method Score(tree: seq<Node>, nrPids: nat, holdout: seq<Sample>, w: seq<Weight>, root: real -> real)
    returns (res: TrainResult)
    requires Valid(tree) && OneParent(tree) && Ordered(tree) && tree != []
    requires |w| == |holdout| && IsRoot(root)
    ensures res.tree == tree && res.nrPids == nrPids && ScoredOn(res, holdout, w)
  {
    hide Valid, OneParent, Ordered, IsRoot, IsPearson, Mae;
    var preds := PredictAll(tree, holdout);
    var actuals, emas := Labels(holdout), Emas(holdout);
    var maeTree := WeightedHoldoutMae(preds, actuals, w);
    var maeEma := WeightedHoldoutMae(emas, actuals, w);
    var corr := Correlation(preds, actuals, root);
    res := TrainResult(tree, nrPids, maeTree, maeEma, corr);
  }

  /**
   * A run on any window of 20 samples or more succeeds: the fitted tree always passes validation,
   * and its scores are those of plain descent on the holdout.
   */
  method TrainModel(samples: seq<Sample>, fitWeights: seq<Weight>, weights: seq<Weight>, root: real -> real)
    returns (r: Run, ghost e: Evidence)
    requires |fitWeights| == |samples| - |samples| / 10 && |weights| == |samples| && IsRoot(root)
    ensures r.Skipped? <==> |samples| < 20
    ensures r.Trained? ==> e.samples == samples && IsRunOf(e, r.res)
  {
    hide Grown, Valid, OneParent, Ordered, IsRoot, ScoredOn;
    e := Evidence(samples, fitWeights, weights, Growth([], [], []));
    var cut := Window.SplitHoldout(samples);
    if cut.Refused? {
      return Skipped(cut.held), e;
    }
    var fit, holdout := cut.fit, cut.holdout;
    var tree, g := Fit(fit, fitWeights, DAEMON_PARAMS);
    FittedIsValid(tree, g, WithWeights(fit, fitWeights));
    var verdict := SerializeValidate(tree);
    if !verdict.Accepted? {
      assert false;
    }
    e := e.(growth := g);
    var nrPids := Window.TreeDistinctPids(fit);
    var res := Score(tree, nrPids, holdout, weights[|fit|..], root);
    assert SlicesOf(e, fit, holdout);
    r := Trained(res);
  }

  /**
   * What the scores are, in the data of a run: on the last tenth of the window the tree's error balances
   * the absolute differences of its leaves from the labels, the baseline's those of the gauge, in the
   * weights of the same samples; and the correlation is that of leaves and labels.
   */
  ghost predicate ScoresHold(e: Evidence, res: TrainResult) {
    && Ordered(res.tree) && res.tree != [] && |e.weights| == |e.samples| >= 20
    && var n := |e.samples| - |e.samples| / 10;
       var held, w := e.samples[n..], e.weights[n..];
       && ErrorBalance(Leaves(res.tree, held), Labels(held), w, res.maeTree) == 0.0
       && ErrorBalance(Emas(held), Labels(held), w, res.maeEma) == 0.0
       && IsPearson(Leaves(res.tree, held), Labels(held), res.corr)
  }

  lemma HeldIsTail(e: Evidence, fit: seq<Sample>, held: seq<Sample>)
    requires SlicesOf(e, fit, held)
    ensures |e.samples| >= 20 && |e.weights| == |e.samples| && |fit| == |e.samples| - |e.samples| / 10
    ensures held == e.samples[|fit|..]
  {
    assert fit + held == e.samples;
  }

  lemma RunScored(e: Evidence, res: TrainResult)
    requires IsRunOf(e, res)
    ensures ScoresHold(e, res)
  {
    hide Grown, Valid, OneParent, Ordered, Mae, ErrorBalance, IsPearson, Leaves, Labels, Emas, ScoredOn,
      WithWeights;
    var fit: seq<Sample>, held: seq<Sample> :|
      && SlicesOf(e, fit, held) && |fit| + |held| == |e.samples|
      && Grown(res.tree, e.growth, DAEMON_PARAMS, WithWeights(fit, e.fitWeights))
      && Valid(res.tree) && OneParent(res.tree) && Ordered(res.tree) && res.tree != []
      && res.nrPids == |Window.Pids(fit)|
      && ScoredOn(res, held, e.weights[|fit|..]);
    var w := e.weights[|fit|..];
    HeldIsTail(e, fit, held);
    ScoresBalance(res, held, w);
  }

  lemma ScoresBalance(res: TrainResult, held: seq<Sample>, w: seq<Weight>)
    requires Ordered(res.tree) && res.tree != [] && |w| == |held| > 0 && ScoredOn(res, held, w)
    ensures ErrorBalance(Leaves(res.tree, held), Labels(held), w, res.maeTree) == 0.0
    ensures ErrorBalance(Emas(held), Labels(held), w, res.maeEma) == 0.0
    ensures IsPearson(Leaves(res.tree, held), Labels(held), res.corr)
  {
    hide Mae, ErrorBalance, IsPearson, Ordered;
    MaeBalances(Leaves(res.tree, held), Labels(held), w, res.maeTree);
    MaeBalances(Emas(held), Labels(held), w, res.maeEma);
  }

  /** What the tree of a run predicts, in terms of the slice it was fit on. */
  lemma RunPredicts(e: Evidence, res: TrainResult) returns (fit: seq<Sample>)
    requires IsRunOf(e, res)
    ensures Window.SplitHoldout(e.samples).Cut? && Window.SplitHoldout(e.samples).fit == fit
    ensures |e.fitWeights| == |fit| && Valid(res.tree) && OneParent(res.tree) && Ordered(res.tree) && res.tree != []
    ensures forall f :: PredictsMean(res.tree, WithWeights(fit, e.fitWeights), f)
  {
    hide Grown, Valid, OneParent, Ordered, ScoredOn, WithWeights, PredictsMean;
    var holdout: seq<Sample>;
    fit, holdout :| && SlicesOf(e, fit, holdout) && |fit| + |holdout| == |e.samples|
                    && Grown(res.tree, e.growth, DAEMON_PARAMS, WithWeights(fit, e.fitWeights))
                    && Valid(res.tree) && OneParent(res.tree) && Ordered(res.tree) && res.tree != []
                    && res.nrPids == |Window.Pids(fit)|
                    && ScoredOn(res, holdout, e.weights[|fit|..]);
    var root := WithWeights(fit, e.fitWeights);
    forall f
      ensures PredictsMean(res.tree, root, f)
    {
      LeafMean(res.tree, e.growth, root, f);
    }
  }

  /**
   * The descent for f ends on the point around which the weighted labels of the samples on the same leaf
   * balance, truncated and capped; there are such samples.
   */
  ghost predicate PredictsMean(tree: seq<Node>, root: seq<Weighted>, f: Feats)
    requires Ordered(tree) && tree != []
  {
    var leaf := Descend(tree, 0, f);
    var same := Keep(root, TreeMeaning.EndingAt(tree, leaf));
    && same != [] && IsCappedMean(same, tree[leaf].left)
    && forall x :: x in root && x.sample.feats == f ==> x in same
  }

  lemma LeafMean(tree: seq<Node>, g: Growth, root: seq<Weighted>, f: Feats)
    requires Grown(tree, g, DAEMON_PARAMS, root)
    requires Valid(tree) && OneParent(tree) && Ordered(tree) && tree != []
    ensures PredictsMean(tree, root, f)
  {
    hide Grown, Valid, OneParent, Ordered, IsCappedMean, Keep, RustWalk, StoreWalk, Padded;
    TreeMeaning.TrainedPrediction(tree, g, DAEMON_PARAMS, root, f);
    ValidatedWalkReachesLeaf(tree, f);
  }
}

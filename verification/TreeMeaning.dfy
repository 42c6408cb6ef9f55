/** What a grown tree means: valid, one parent per node, predicting its own leaf groups. */
module TreeMeaning {
  import opened Word
  import opened Wrappers
  import opened Samples
  import opened BestSplit
  import opened TreeLayout
  import opened TreeWalk
  import opened TreeFit

  /** Within the store bounds, growth yields a layout the validator accepts, a proper tree. */
  lemma GrownIsValid(nodes: seq<Node>, g: Growth, p: Params, root: seq<Weighted>)
    requires Grown(nodes, g, p, root) && p.maxDepth <= MAX_DEPTH && p.maxNodes <= MAX_NODES
    ensures Valid(nodes) && OneParent(nodes) && Ordered(nodes)
  {
    hide IsBestFor, LeafPrediction, LeftOf, RightOf, LabelTotals, Sse, ShortestDepths;
    forall i: nat | i < |nodes|
      ensures GoodNode(nodes, i)
      ensures Internal(nodes, i) ==> g.depth[i] < MAX_DEPTH && nodes[i].left != nodes[i].right
    {
      InnerNode(nodes, g, p, root, i);
    }
    forall i: nat, j: nat, c: nat | Edge(nodes, i, c) && Edge(nodes, j, c)
      ensures i == j
    {
      EdgeIsParent(nodes, g, p, root, i, c);
      EdgeIsParent(nodes, g, p, root, j, c);
    }
    GrownDepths(nodes, g, p, root);
    assert ShortestDepths(nodes, g.depth) && ShallowInner(nodes, g.depth);
    ValidIsOrdered(nodes);
  }

  lemma InnerNode(nodes: seq<Node>, g: Growth, p: Params, root: seq<Weighted>, i: nat)
    requires Grown(nodes, g, p, root) && i < |nodes|
    ensures Internal(nodes, i) ==>
              && nodes[i].feature < NR_FEATURES && g.depth[i] < p.maxDepth
              && i < nodes[i].left < |nodes| && nodes[i].right == nodes[i].left + 1 < |nodes|
  {
    hide IsBestFor, LeafPrediction, LeftOf, RightOf, LabelTotals, Sse, ChildRule;
    assert NodeRule(nodes, g, p, i);
    if Internal(nodes, i) {
      BestSides(g.groups[i], p, Split(nodes[i].feature, nodes[i].threshold));
    }
  }

  lemma EdgeIsParent(nodes: seq<Node>, g: Growth, p: Params, root: seq<Weighted>, i: nat, c: nat)
    requires Grown(nodes, g, p, root) && Edge(nodes, i, c)
    ensures c < |nodes| && g.parent[c] == i && g.depth[c] == g.depth[i] + 1
  {
    hide IsBestFor, LeafPrediction, LeftOf, RightOf, Splittable;
    InnerNode(nodes, g, p, root, i);
    assert NodeRule(nodes, g, p, i) && ChildRule(nodes, g, p, c);
  }

  lemma GrownDepths(nodes: seq<Node>, g: Growth, p: Params, root: seq<Weighted>)
    requires Grown(nodes, g, p, root)
    ensures ShortestDepths(nodes, g.depth)
  {
    hide IsBestFor, LeafPrediction, LeftOf, RightOf, Splittable, NodeRule;
    forall i: nat, c: nat | Edge(nodes, i, c) && c < |nodes|
      ensures g.depth[c] <= g.depth[i] + 1
    {
      EdgeIsParent(nodes, g, p, root, i, c);
    }
    forall c: nat | 0 < c < |nodes|
      ensures OneDeeper(nodes, g.depth, c)
    {
      assert ChildRule(nodes, g, p, c);
      EdgeIsParent(nodes, g, p, root, g.parent[c], c);
    }
  }

  /** The descent for f passes node i. */
  ghost predicate Passes(nodes: seq<Node>, parent: seq<nat>, i: nat, f: Feats)
    requires |parent| == |nodes| && i < |nodes|
    requires forall c :: 0 < c < |nodes| ==> parent[c] < c
    decreases i
  {
    i == 0 || (Passes(nodes, parent, parent[i], f) && Next(nodes[parent[i]], f) == i)
  }

  ghost predicate Rooted(nodes: seq<Node>, parent: seq<nat>) {
    && Ordered(nodes) && nodes != [] && |parent| == |nodes|
    && (forall c :: 0 < c < |nodes| ==> parent[c] < c)
    && (forall c: nat :: 0 < c < |nodes| ==> Edge(nodes, parent[c], c))
    && forall i: nat, c: nat :: Edge(nodes, i, c) ==> parent[c] == i
  }

  lemma {:induction false} EndIsPassed(nodes: seq<Node>, parent: seq<nat>, i: nat, f: Feats)
    requires Rooted(nodes, parent) && i < |nodes| && Passes(nodes, parent, i, f)
    ensures Passes(nodes, parent, Descend(nodes, i, f), f)
    decreases |nodes| - i
  {
    if nodes[i].right != 0 {
      var c := Next(nodes[i], f);
      assert Edge(nodes, i, c);
      EndIsPassed(nodes, parent, c, f);
    }
  }

  lemma {:induction false} PassedLeadsOn(nodes: seq<Node>, parent: seq<nat>, i: nat, f: Feats)
    requires Rooted(nodes, parent) && i < |nodes| && Passes(nodes, parent, i, f)
    ensures Descend(nodes, 0, f) == Descend(nodes, i, f)
    decreases i
  {
    if i > 0 {
      assert Edge(nodes, parent[i], i);
      PassedLeadsOn(nodes, parent, parent[i], f);
    }
  }

  /** A descent ends on a leaf exactly when it passes it. */
  lemma PassesLeafIffEnds(nodes: seq<Node>, parent: seq<nat>, leaf: nat, f: Feats)
    requires Rooted(nodes, parent) && leaf < |nodes| && nodes[leaf].right == 0
    ensures Passes(nodes, parent, leaf, f) <==> Descend(nodes, 0, f) == leaf
  {
    EndIsPassed(nodes, parent, 0, f);
    if Passes(nodes, parent, leaf, f) {
      PassedLeadsOn(nodes, parent, leaf, f);
    }
  }

  ghost function Passing(nodes: seq<Node>, parent: seq<nat>, i: nat): Weighted -> bool
    requires |parent| == |nodes| && i < |nodes|
    requires forall c :: 0 < c < |nodes| ==> parent[c] < c
  {
    (x: Weighted) => Passes(nodes, parent, i, x.sample.feats)
  }

  function EndingAt(nodes: seq<Node>, leaf: nat): Weighted -> bool
    requires Ordered(nodes) && nodes != []
  {
    (x: Weighted) => Descend(nodes, 0, x.sample.feats) == leaf
  }

  lemma GrownIsRooted(nodes: seq<Node>, g: Growth, p: Params, root: seq<Weighted>)
    requires Grown(nodes, g, p, root) && p.maxDepth <= MAX_DEPTH && p.maxNodes <= MAX_NODES
    ensures Rooted(nodes, g.parent)
  {
    hide IsBestFor, LeafPrediction, LeftOf, RightOf, Splittable, NodeRule;
    GrownIsValid(nodes, g, p, root);
    forall c: nat | 0 < c < |nodes|
      ensures Edge(nodes, g.parent[c], c) && g.parent[c] < c
    {
      assert ChildRule(nodes, g, p, c);
    }
    forall i: nat, c: nat | Edge(nodes, i, c)
      ensures g.parent[c] == i
    {
      EdgeIsParent(nodes, g, p, root, i, c);
    }
  }

  /** The samples growth put into a node are those whose descent passes it. */
  lemma {:induction false} GroupIsPassing(nodes: seq<Node>, g: Growth, p: Params, root: seq<Weighted>, i: nat)
    requires Grown(nodes, g, p, root) && Rooted(nodes, g.parent) && i < |nodes|
    ensures g.groups[i] == Keep(root, Passing(nodes, g.parent, i))
    decreases i
  {
    hide IsBestFor, LeafPrediction, Splittable, Keep;
    var here := Passing(nodes, g.parent, i);
    if i == 0 {
      KeepAll(root, here);
    } else {
      var q := g.parent[i];
      GroupIsPassing(nodes, g, p, root, q);
      InnerNode(nodes, g, p, root, q);
      assert Edge(nodes, q, i) && NodeRule(nodes, g, p, q);
      var n := nodes[q];
      var side := if i == n.left then AtOrBelow(n.feature, n.threshold) else Above(n.feature, n.threshold);
      assert g.groups[i] == Keep(g.groups[q], side);
      forall x: Weighted
        ensures here(x) <==> Passing(nodes, g.parent, q)(x) && side(x)
      {
      }
      KeepTwice(root, Passing(nodes, g.parent, q), side, here);
    }
  }

  /**
   * What a grown tree predicts, in both walks and for every feature vector: the point around which the
   * weighted labels of exactly the training samples on the same leaf balance, truncated and capped. No
   * leaf is without such samples, and every leaf but a lone root holds at least the leaf minimum.
   */
  lemma TrainedPrediction(nodes: seq<Node>, g: Growth, p: Params, root: seq<Weighted>, f: Feats)
    requires Grown(nodes, g, p, root) && p.maxDepth <= MAX_DEPTH && p.maxNodes <= MAX_NODES
    ensures Ordered(nodes) && 1 <= |nodes| <= MAX_NODES
    ensures var leaf := Descend(nodes, 0, f);
            var same := Keep(root, EndingAt(nodes, leaf));
            && same != [] && (leaf > 0 ==> |same| >= p.minLeaf)
            && (forall x :: x in root && x.sample.feats == f ==> x in same)
            && IsCappedMean(same, RustWalk(nodes, 0, f, MAX_DEPTH))
            && IsCappedMean(same, StoreWalk(Padded(nodes), 0, f, MAX_DEPTH))
  {
    hide IsBestFor, LeafPrediction, Splittable, Keep, RustWalk, StoreWalk, Padded, Valid, IsCappedMean;
    GrownIsValid(nodes, g, p, root);
    GrownIsRooted(nodes, g, p, root);
    var leaf := Descend(nodes, 0, f);
    ValidatedWalkReachesLeaf(nodes, f);
    GroupIsPassing(nodes, g, p, root, leaf);
    forall y | y in root
      ensures Passing(nodes, g.parent, leaf)(y) <==> EndingAt(nodes, leaf)(y)
      ensures y.sample.feats == f ==> y in Keep(root, EndingAt(nodes, leaf))
    {
      PassesLeafIffEnds(nodes, g.parent, leaf, y.sample.feats);
      if y.sample.feats == f {
        InKeep(root, y, EndingAt(nodes, leaf));
      }
    }
    KeepSame(root, Passing(nodes, g.parent, leaf), EndingAt(nodes, leaf));
    assert NodeRule(nodes, g, p, leaf);
    if leaf > 0 {
      assert ChildRule(nodes, g, p, leaf);
    }
  }

  /** So the prediction lies between the smallest and the largest label on the leaf, each capped. */
  lemma PredictionBetweenLabels(nodes: seq<Node>, g: Growth, p: Params, root: seq<Weighted>, f: Feats,
                                least: U64, most: U64)
    requires Grown(nodes, g, p, root) && p.maxDepth <= MAX_DEPTH && p.maxNodes <= MAX_NODES
    requires Ordered(nodes)
    requires var leaf := Descend(nodes, 0, f);
             forall y :: y in root && Descend(nodes, 0, y.sample.feats) == leaf ==>
               least <= y.sample.labelNs <= most
    ensures |nodes| <= MAX_NODES
    ensures Min(least, U32_MAX) <= RustWalk(nodes, 0, f, MAX_DEPTH) <= Min(most, U32_MAX)
    ensures Min(least, U32_MAX) <= StoreWalk(Padded(nodes), 0, f, MAX_DEPTH) <= Min(most, U32_MAX)
  {
    hide Grown, Keep, RustWalk, StoreWalk, Padded, IsCappedMean, Descend, Ordered;
    TrainedPrediction(nodes, g, p, root, f);
    var same := Keep(root, EndingAt(nodes, Descend(nodes, 0, f)));
    CappedMeanBetween(same, RustWalk(nodes, 0, f, MAX_DEPTH), least, most);
    CappedMeanBetween(same, StoreWalk(Padded(nodes), 0, f, MAX_DEPTH), least, most);
  }

  // ---- When and where a node splits ----

  /** Both sides of a split are populated, to the leaf minimum. */
  predicate Admissible(s: seq<Weighted>, id: nat, t: U64, minLeaf: nat) {
    var l, r := LeftOf(s, id, t), RightOf(s, id, t);
    l != [] && r != [] && |l| >= minLeaf && |r| >= minLeaf
  }

  /** Squared error of predicting a on the left and b on the right of a split. */
  function TwoValueError(s: seq<Weighted>, id: nat, t: U64, a: real, b: real): real {
    Deviation(LeftOf(s, id, t), a) + Deviation(RightOf(s, id, t), b)
  }

  /** The gain of a split is what the best two values on its sides save against the best one. */
  lemma GainIsLeast(s: seq<Weighted>, id: nat, t: U64, minLeaf: nat, sse: real)
    ensures Gain(s, id, t, minLeaf, sse).Some? <==> Admissible(s, id, t, minLeaf)
    ensures Admissible(s, id, t, minLeaf) ==>
              && Gain(s, id, t, minLeaf, sse).value
                 == sse - TwoValueError(s, id, t, Mean(LeftOf(s, id, t)), Mean(RightOf(s, id, t)))
              && forall a, b :: TwoValueError(s, id, t, a, b) >= sse - Gain(s, id, t, minLeaf, sse).value
  {
    hide LeftOf, RightOf, Mean, Deviation;
    if Admissible(s, id, t, minLeaf) {
      var l, r := LeftOf(s, id, t), RightOf(s, id, t);
      MeanBalances(l, Mean(l));
      MeanBalances(r, Mean(r));
      forall a, b
        ensures TwoValueError(s, id, t, a, b) >= TwoValueError(s, id, t, Mean(l), Mean(r))
      {
        BalanceIsLeast(l, Mean(l), a);
        BalanceIsLeast(r, Mean(r), b);
      }
    }
  }

  /** What is left of an error after a share of it is removed. */
  function Remaining(error: real, share: real): real {
    error - error * share
  }

  /** Some split and two values for its sides leave less than the bound. */
  ghost predicate CanReach(s: seq<Weighted>, minLeaf: nat, bound: real) {
    exists id: nat, t: U64, a: real, b: real ::
      id < NR_FEATURES && Admissible(s, id, t, minLeaf) && TwoValueError(s, id, t, a, b) < bound
  }

  lemma NoBestIff(s: seq<Weighted>, p: Params, best: Option<Split>, m: real)
    requires s != [] && IsBestFor(s, p, best) && SignedDeviation(s, m) == 0.0
    ensures best.Some? <==> CanReach(s, p.minLeaf, Remaining(Deviation(s, m), p.minRelReduction))
  {
    hide LeftOf, RightOf, Mean, Sse, MidGap, Earlier, Gain, Admissible, TwoValueError;
    MeanBalances(s, m);
    RunningSse(s);
    var sse := Sse(LabelTotals(s));
    var bound := Remaining(Deviation(s, m), p.minRelReduction);
    match best
    case Some(sp) =>
      GainIsLeast(s, sp.feature, sp.threshold, p.minLeaf, sse);
    case None =>
      forall id: nat, t: U64, a: real, b: real | id < NR_FEATURES && Admissible(s, id, t, p.minLeaf)
        ensures TwoValueError(s, id, t, a, b) >= bound
      {
        GainIsLeast(s, id, t, p.minLeaf, sse);
      }
  }

  /**
   * Exactly when a node of a grown tree splits: the limits on depth, samples and nodes allow it, its
   * squared error around the balance point m is above rounding noise, and some split on one of the nine
   * features, with the best value for each side, removes more than the required share of that error.
   */
  lemma NodeSplitsIff(nodes: seq<Node>, g: Growth, p: Params, root: seq<Weighted>, i: nat, m: real)
    requires Grown(nodes, g, p, root) && i < |nodes| && SignedDeviation(g.groups[i], m) == 0.0
    ensures var s := g.groups[i];
            nodes[i].right != 0 <==>
              && g.depth[i] < p.maxDepth && |s| >= 2 * p.minLeaf && NodesWhen(nodes, i) + 2 <= p.maxNodes
              && Deviation(s, m) > 0.000000000001 * Deviation(s, 0.0)
              && CanReach(s, p.minLeaf, Remaining(Deviation(s, m), p.minRelReduction))
  {
    hide LeftOf, RightOf, Mean, Sse, LabelTotals, IsBestFor, CanReach, SignedDeviation, LeafPrediction;
    var s := g.groups[i];
    assert NodeRule(nodes, g, p, i);
    MeanBalances(s, m);
    RunningSse(s);
    DeviationExpands(s, 0.0);
    NoisePart(LabelTotals(s));
    if nodes[i].right != 0 {
      NoBestIff(s, p, Some(Split(nodes[i].feature, nodes[i].threshold)), m);
    } else if Splittable(s, g.depth[i], NodesWhen(nodes, i), p) {
      NoBestIff(s, p, None, m);
    }
  }

  lemma NoisePart(t: Totals)
    ensures Expanded(t, 0.0) == t.swy2
  {
  }

  /**
   * And where: no split on any feature at any threshold, whatever is predicted on its sides, leaves less
   * squared error than the children do around their own balance points.
   */
  lemma SplitIsLeastSquares(nodes: seq<Node>, g: Growth, p: Params, root: seq<Weighted>, i: nat, l: real, r: real,
                            id: nat, t: U64, a: real, b: real)
    requires Grown(nodes, g, p, root) && Internal(nodes, i) && nodes[i].left < |nodes| && nodes[i].right < |nodes|
    requires SignedDeviation(g.groups[nodes[i].left], l) == 0.0 && SignedDeviation(g.groups[nodes[i].right], r) == 0.0
    requires id < NR_FEATURES && Admissible(g.groups[i], id, t, p.minLeaf)
    ensures Deviation(g.groups[nodes[i].left], l) + Deviation(g.groups[nodes[i].right], r)
         <= TwoValueError(g.groups[i], id, t, a, b)
  {
    hide LeftOf, RightOf, Mean, Deviation, Sse, LabelTotals, SignedDeviation, LeafPrediction, MidGap, Earlier, Gain,
      Admissible;
    var s, n := g.groups[i], nodes[i];
    assert NodeRule(nodes, g, p, i);
    var sse := Sse(LabelTotals(s));
    GainIsLeast(s, n.feature, n.threshold, p.minLeaf, sse);
    GainIsLeast(s, id, t, p.minLeaf, sse);
    assert AtMost(Gain(s, id, t, p.minLeaf, sse), Gain(s, n.feature, n.threshold, p.minLeaf, sse).value);
    BestSides(s, p, Split(n.feature, n.threshold));
    MeanBalances(g.groups[n.left], l);
    MeanBalances(g.groups[n.right], r);
  }
}

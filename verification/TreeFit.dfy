/** Breadth-first CART growth: from weighted samples to the flat layout. */
module TreeFit {
  import opened Word
  import opened Wrappers
  import opened Samples
  import opened BestSplit
  import opened TreeLayout

  datatype Params = Params(maxDepth: nat, minLeaf: nat, maxNodes: nat, minRelReduction: real)

  /** One pending node: its index, the samples that reached it, its depth. */
  datatype Spec = Spec(idx: nat, samples: seq<Weighted>, depth: nat)

  /** Weighted mean label, truncated and saturated into the prediction field. */
  function LeafPrediction(s: seq<Weighted>): (pred: U32)
    requires s != []
    ensures IsCappedMean(s, pred)
  {
    MeanIsCapped(s);
    Max(0, Min(Mean(s).Floor, U32_MAX))
  }

  lemma MeanIsCapped(s: seq<Weighted>)
    requires s != []
    ensures IsCappedMean(s, Max(0, Min(Mean(s).Floor, U32_MAX)))
  {
    hide Mean;
    MeanBalances(s, Mean(s));
    if Mean(s) < 0.0 {
      SignedSign(s, Mean(s), true);
    }
  }

  /** Growth limits of a node reached while the tree holds `nrNodes` nodes. */
  predicate Splittable(s: seq<Weighted>, depth: nat, nrNodes: nat, p: Params)
    requires s != []
  {
    && depth < p.maxDepth
    && |s| >= 2 * p.minLeaf
    && nrNodes + 2 <= p.maxNodes
    && Sse(LabelTotals(s)) > 0.000000000001 * LabelTotals(s).swy2
  }

  ghost predicate IsBestFor(s: seq<Weighted>, p: Params, best: Option<Split>)
    requires s != []
  {
    IsBest(s, p.minLeaf, Sse(LabelTotals(s)), p.minRelReduction, NR_FEATURES, best)
  }

  // ---- What a grown tree is ----

  /** Evidence of growth: per node its samples, its parent and its depth. */
  datatype Growth = Growth(groups: seq<seq<Weighted>>, parent: seq<nat>, depth: seq<nat>)

  /** Nodes the tree holds when node i is filled: two more per split before it. */
  function NodesWhen(nodes: seq<Node>, i: nat): nat
    requires i <= |nodes|
  {
    if i == 0 then 1 else NodesWhen(nodes, i - 1) + if nodes[i - 1].right != 0 then 2 else 0
  }

  ghost predicate Sized(nodes: seq<Node>, g: Growth) {
    |g.groups| == |g.parent| == |g.depth| == |nodes|
  }

  /** A node splits exactly when it may and a split is worth it; the split is the best one. */
  ghost predicate NodeRule(nodes: seq<Node>, g: Growth, p: Params, i: nat)
    requires Sized(nodes, g) && i < |nodes|
  {
    var s, n := g.groups[i], nodes[i];
    && s != []
    && var may := Splittable(s, g.depth[i], NodesWhen(nodes, i), p);
       if n.right == 0 then
         n == Node(0, LeafPrediction(s), 0, 0) && (may ==> IsBestFor(s, p, None))
       else
         && may && n.left == NodesWhen(nodes, i) && n.right == n.left + 1
         && i < n.left && n.right < |nodes|
         && IsBestFor(s, p, Some(Split(n.feature, n.threshold)))
         && g.groups[n.left] == LeftOf(s, n.feature, n.threshold)
         && g.groups[n.right] == RightOf(s, n.feature, n.threshold)
         && g.depth[n.left] == g.depth[n.right] == g.depth[i] + 1
         && g.parent[n.left] == g.parent[n.right] == i
  }

  /** Every other node hangs below an earlier one and holds at least the leaf minimum. */
  ghost predicate ChildRule(nodes: seq<Node>, g: Growth, p: Params, c: nat)
    requires Sized(nodes, g) && c < |nodes|
  {
    g.parent[c] < c && Edge(nodes, g.parent[c], c) && g.groups[c] != [] && |g.groups[c]| >= p.minLeaf
  }

  ghost predicate Grown(nodes: seq<Node>, g: Growth, p: Params, root: seq<Weighted>) {
    && Sized(nodes, g) && 1 <= |nodes| <= p.maxNodes
    && g.groups[0] == root && g.depth[0] == 0
    && (forall i: nat :: i < |nodes| ==> NodeRule(nodes, g, p, i))
    && forall c: nat :: 0 < c < |nodes| ==> ChildRule(nodes, g, p, c)
  }

  /** The same while the last |queue| nodes are still placeholders. */
  ghost predicate Growing(nodes: seq<Node>, g: Growth, p: Params, root: seq<Weighted>, queue: seq<Spec>) {
    && Sized(nodes, g) && 1 <= |nodes| <= p.maxNodes && |queue| <= |nodes|
    && g.groups[0] == root && root != [] && g.depth[0] == 0
    && var done := |nodes| - |queue|;
       && |nodes| == NodesWhen(nodes, done)
       && (forall i :: done <= i < |nodes| ==> nodes[i] == PLACEHOLDER)
       && (forall k :: 0 <= k < |queue| ==>
             queue[k] == Spec(done + k, g.groups[done + k], g.depth[done + k]))
       && (forall i: nat :: i < done ==> NodeRule(nodes, g, p, i))
       && forall c: nat :: 0 < c < |nodes| ==> ChildRule(nodes, g, p, c)
  }

  lemma {:induction false} NodesWhenPrefix(nodes: seq<Node>, nodes': seq<Node>, i: nat)
    requires i <= |nodes| && i <= |nodes'| && nodes[..i] == nodes'[..i]
    ensures NodesWhen(nodes, i) == NodesWhen(nodes', i)
  {
    if i > 0 {
      assert nodes[..i - 1] == nodes[..i][..i - 1] == nodes'[..i - 1];
      assert nodes[i - 1] == nodes[..i][i - 1] == nodes'[i - 1];
      NodesWhenPrefix(nodes, nodes', i - 1);
    }
  }

  /** Extending the tree behind a filled node does not touch it. */
  lemma NodeRuleFrame(nodes: seq<Node>, g: Growth, nodes': seq<Node>, g': Growth, p: Params, i: nat)
    requires Sized(nodes, g) && Sized(nodes', g') && i < |nodes| <= |nodes'|
    requires nodes[..i + 1] == nodes'[..i + 1]
    requires g.groups <= g'.groups && g.parent <= g'.parent && g.depth <= g'.depth
    requires NodeRule(nodes, g, p, i)
    ensures NodeRule(nodes', g', p, i)
  {
    hide LeafPrediction, Splittable, IsBestFor, LeftOf, RightOf;
    assert nodes[..i] == nodes[..i + 1][..i] == nodes'[..i];
    assert nodes[i] == nodes[..i + 1][i] == nodes'[i];
    NodesWhenPrefix(nodes, nodes', i);
  }

  lemma LeafStep(nodes: seq<Node>, g: Growth, p: Params, root: seq<Weighted>, queue: seq<Spec>)
    requires Growing(nodes, g, p, root, queue) && queue != []
    requires queue[0].samples != []
    requires Splittable(queue[0].samples, queue[0].depth, |nodes|, p) ==> IsBestFor(queue[0].samples, p, None)
    ensures Growing(nodes[queue[0].idx := Node(0, LeafPrediction(queue[0].samples), 0, 0)], g, p, root, queue[1..])
  {
    hide LeafPrediction, Splittable, IsBestFor, LeftOf, RightOf;
    var i := queue[0].idx;
    var nodes' := nodes[i := Node(0, LeafPrediction(queue[0].samples), 0, 0)];
    assert nodes[..i] == nodes'[..i];
    NodesWhenPrefix(nodes, nodes', i);
    forall k: nat | k < i
      ensures NodeRule(nodes', g, p, k)
    {
      assert nodes[..k + 1] == nodes'[..k + 1];
      NodeRuleFrame(nodes, g, nodes', g, p, k);
    }
    forall c: nat | 0 < c < |nodes'|
      ensures ChildRule(nodes', g, p, c)
    {
      assert ChildRule(nodes, g, p, c);
      ParentDone(nodes, g, p, root, queue, c);
    }
  }

  /** Parents are filled nodes. */
  lemma ParentDone(nodes: seq<Node>, g: Growth, p: Params, root: seq<Weighted>, queue: seq<Spec>, c: nat)
    requires Growing(nodes, g, p, root, queue) && 0 < c < |nodes|
    ensures g.parent[c] < |nodes| - |queue|
  {
    assert ChildRule(nodes, g, p, c);
  }

  /** Both sides of a best split are populated. */
  lemma BestSides(s: seq<Weighted>, p: Params, sp: Split)
    requires s != [] && IsBestFor(s, p, Some(sp))
    ensures sp.feature < NR_FEATURES
    ensures var l, r := LeftOf(s, sp.feature, sp.threshold), RightOf(s, sp.feature, sp.threshold);
            l != [] && r != [] && |l| >= p.minLeaf && |r| >= p.minLeaf
  {
    hide MidGap, LeftOf, RightOf, Earlier, Deviation, Mean, Sse, LabelTotals;
  }

  function SplitNode(nodes: seq<Node>, i: nat, sp: Split): seq<Node>
    requires i < |nodes| && |nodes| + 1 <= U32_MAX && sp.feature < NR_FEATURES
  {
    nodes[i := Node(sp.threshold, |nodes|, |nodes| + 1, sp.feature)] + [PLACEHOLDER, PLACEHOLDER]
  }

  ghost function SplitGrowth(g: Growth, i: nat, l: seq<Weighted>, r: seq<Weighted>): Growth
    requires i < |g.depth|
  {
    Growth(g.groups + [l, r], g.parent + [i, i], g.depth + [g.depth[i] + 1, g.depth[i] + 1])
  }

  /** The filled head keeps the rule of a split node. */
  lemma SplitHeadRule(nodes: seq<Node>, g: Growth, p: Params, root: seq<Weighted>, queue: seq<Spec>, sp: Split)
    requires Growing(nodes, g, p, root, queue) && queue != [] && p.maxNodes <= U32_MAX
    requires var s := queue[0];
             && s.samples != [] && Splittable(s.samples, s.depth, |nodes|, p)
             && IsBestFor(s.samples, p, Some(sp)) && sp.feature < NR_FEATURES
    ensures var s := queue[0];
            var l, r := LeftOf(s.samples, sp.feature, sp.threshold), RightOf(s.samples, sp.feature, sp.threshold);
            && s.idx < |nodes|
            && Sized(SplitNode(nodes, s.idx, sp), SplitGrowth(g, s.idx, l, r))
            && NodeRule(SplitNode(nodes, s.idx, sp), SplitGrowth(g, s.idx, l, r), p, s.idx)
  {
    hide LeafPrediction, IsBestFor, LeftOf, RightOf, Sse, LabelTotals, ChildRule;
    var nodes' := SplitNode(nodes, queue[0].idx, sp);
    assert nodes[..queue[0].idx] == nodes'[..queue[0].idx];
    NodesWhenPrefix(nodes, nodes', queue[0].idx);
  }

  /** Old children keep their rule, the two new ones hold the sides of the split. */
  lemma SplitChildRule(nodes: seq<Node>, g: Growth, p: Params, root: seq<Weighted>, queue: seq<Spec>, sp: Split, c: nat)
    requires Growing(nodes, g, p, root, queue) && queue != [] && p.maxNodes <= U32_MAX
    requires queue[0].samples != [] && IsBestFor(queue[0].samples, p, Some(sp)) && sp.feature < NR_FEATURES
    requires |nodes| + 2 <= p.maxNodes && 0 < c < |nodes| + 2
    ensures var s := queue[0];
            var l, r := LeftOf(s.samples, sp.feature, sp.threshold), RightOf(s.samples, sp.feature, sp.threshold);
            && s.idx < |nodes|
            && Sized(SplitNode(nodes, s.idx, sp), SplitGrowth(g, s.idx, l, r))
            && ChildRule(SplitNode(nodes, s.idx, sp), SplitGrowth(g, s.idx, l, r), p, c)
  {
    hide LeafPrediction, IsBestFor, LeftOf, RightOf, Sse, LabelTotals, NodeRule, NodesWhen, Splittable;
    BestSides(queue[0].samples, p, sp);
    if c < |nodes| {
      assert ChildRule(nodes, g, p, c);
      ParentDone(nodes, g, p, root, queue, c);
    }
  }

  lemma SplitStep(nodes: seq<Node>, g: Growth, p: Params, root: seq<Weighted>, queue: seq<Spec>, sp: Split)
    requires Growing(nodes, g, p, root, queue) && queue != [] && p.maxNodes <= U32_MAX
    requires var s := queue[0];
             && s.samples != [] && Splittable(s.samples, s.depth, |nodes|, p)
             && IsBestFor(s.samples, p, Some(sp)) && sp.feature < NR_FEATURES
    ensures var s := queue[0];
            var l, r := LeftOf(s.samples, sp.feature, sp.threshold), RightOf(s.samples, sp.feature, sp.threshold);
            && s.idx < |nodes| && |nodes| + 2 <= p.maxNodes
            && Growing(SplitNode(nodes, s.idx, sp), SplitGrowth(g, s.idx, l, r), p, root,
                       queue[1..] + [Spec(|nodes|, l, s.depth + 1), Spec(|nodes| + 1, r, s.depth + 1)])
  {
    hide LeafPrediction, IsBestFor, LeftOf, RightOf, Sse, LabelTotals, NodeRule, ChildRule;
    var s, n := queue[0], |nodes|;
    var i := s.idx;
    var l, r := LeftOf(s.samples, sp.feature, sp.threshold), RightOf(s.samples, sp.feature, sp.threshold);
    BestSides(s.samples, p, sp);
    SplitHeadRule(nodes, g, p, root, queue, sp);
    var nodes', g' := SplitNode(nodes, i, sp), SplitGrowth(g, i, l, r);
    assert nodes[..i] == nodes'[..i];
    NodesWhenPrefix(nodes, nodes', i);
    forall k: nat | k < i
      ensures NodeRule(nodes', g', p, k)
    {
      assert nodes[..k + 1] == nodes'[..k + 1];
      NodeRuleFrame(nodes, g, nodes', g', p, k);
    }
    forall c: nat | 0 < c < |nodes'|
      ensures ChildRule(nodes', g', p, c)
    {
      SplitChildRule(nodes, g, p, root, queue, sp, c);
    }
  }

  // ---- The fitter ----

  /** Route the samples of a node to its two children. */
  method Partition(s: seq<Weighted>, feature: nat, threshold: U64) returns (l: seq<Weighted>, r: seq<Weighted>)
    ensures l == LeftOf(s, feature, threshold) && r == RightOf(s, feature, threshold)
  {
    l, r := [], [];
    for k := 0 to |s|
      invariant l == LeftOf(s[..k], feature, threshold) && r == RightOf(s[..k], feature, threshold)
    {
      assert s[..k + 1][..k] == s[..k];
      if Value(s[k], feature) <= threshold {
        l := l + [s[k]];
      } else {
        r := r + [s[k]];
      }
    }
    assert s[..|s|] == s;
  }

  method BestOfNode(s: seq<Weighted>, p: Params) returns (best: Option<Split>)
    requires s != []
    ensures IsBestFor(s, p, best)
  {
    hide IsBest, Sse;
    best := FindBestSplit(s, p.minLeaf, Sse(LabelTotals(s)), p.minRelReduction);
  }

  lemma HeadPending(nodes: seq<Node>, g: Growth, p: Params, root: seq<Weighted>, queue: seq<Spec>)
    requires Growing(nodes, g, p, root, queue) && queue != []
    ensures queue[0].samples != [] && queue[0].idx < |nodes| == |g.depth|
    ensures queue[0].depth == g.depth[queue[0].idx]
  {
    var done := |nodes| - |queue|;
    assert queue[0] == Spec(done, g.groups[done], g.depth[done]);
    if done > 0 {
      assert ChildRule(nodes, g, p, done);
    }
  }

  function WithWeights(samples: seq<Sample>, weights: seq<Weight>): seq<Weighted>
    requires |samples| == |weights|
  {
    seq(|samples|, i requires 0 <= i < |samples| => Weighted(samples[i], weights[i]))
  }

  /** Fit a tree; node indices are 32-bit, so the budget is too. */
  method Fit(samples: seq<Sample>, weights: seq<Weight>, p: Params) returns (nodes: seq<Node>, ghost g: Growth)
    requires |samples| == |weights| && p.maxNodes <= U32_MAX
    ensures nodes == [] <==> samples == [] || p.maxNodes == 0
    ensures nodes != [] ==> Grown(nodes, g, p, WithWeights(samples, weights))
  {
    hide LeafPrediction, Splittable, IsBestFor, LeftOf, RightOf, NodeRule, ChildRule, Sse, LabelTotals, SplitNode;
    g := Growth([], [], []);
    if samples == [] || p.maxNodes == 0 {
      return [], g;
    }
    var root := WithWeights(samples, weights);
    nodes := [PLACEHOLDER];
    var queue := [Spec(0, root, 0)];
    g := Growth([root], [0], [0]);
    assert NodesWhen(nodes, 0) == 1;
    while queue != []
      invariant Growing(nodes, g, p, root, queue)
      decreases p.maxNodes - |nodes| + |queue|
    {
      var spec := queue[0];
      HeadPending(nodes, g, p, root, queue);
      var best: Option<Split> := None;
      if Splittable(spec.samples, spec.depth, |nodes|, p) {
        best := BestOfNode(spec.samples, p);
      }
      match best {
        case Some(sp) =>
          BestSides(spec.samples, p, sp);
          SplitStep(nodes, g, p, root, queue, sp);
          var l, r := Partition(spec.samples, sp.feature, sp.threshold);
          queue := queue[1..] + [Spec(|nodes|, l, spec.depth + 1), Spec(|nodes| + 1, r, spec.depth + 1)];
          nodes, g := SplitNode(nodes, spec.idx, sp), SplitGrowth(g, spec.idx, l, r);
        case None =>
          LeafStep(nodes, g, p, root, queue);
          nodes := nodes[spec.idx := Node(0, LeafPrediction(spec.samples), 0, 0)];
          queue := queue[1..];
      }
    }
  }
}

/** The masked, depth-capped walk, as the daemon runs it and as the scheduler runs it. */
module TreeWalk {
  import opened Word
  import opened Samples
  import opened TreeLayout

  // ---- The two walks as functions of the edges left ----

  /** The daemon's walk over the live nodes; an index past them reads like a zeroed leaf. */
  function RustWalk(nodes: seq<Node>, idx: nat, f: Feats, left: nat): U32
    decreases left
  {
    if idx >= |nodes| then 0
    else if nodes[idx].right == 0 then nodes[idx].left
    else if left == 0 then 0
    else RustWalk(nodes, Next(nodes[idx], f) % MAX_NODES, f, left - 1)
  }

  /** The scheduler's walk over a full store entry; it also stops on an unpopulated feature. */
  function StoreWalk(store: seq<Node>, idx: nat, f: Feats, left: nat): U32
    requires |store| == MAX_NODES
    decreases left
  {
    var n := store[idx % MAX_NODES];
    if n.right == 0 then n.left
    else if left == 0 || Slot(n) >= NR_FEATURES then 0
    else StoreWalk(store, Next(n, f), f, left - 1)
  }

  /** A store entry: the live nodes at the front, a zeroed tail. */
  function Padded(nodes: seq<Node>): (store: seq<Node>)
    requires |nodes| <= MAX_NODES
    ensures |store| == MAX_NODES
    ensures forall i :: 0 <= i < MAX_NODES ==> store[i] == if i < |nodes| then nodes[i] else PLACEHOLDER
  {
    nodes + seq(MAX_NODES - |nodes|, _ => PLACEHOLDER)
  }

  /** The feature arrays of both walks hold the features in the order of the ids the fit splits on. */
  lemma ArrayIsFeatValue(f: Feats, feat: seq<U64>)
    requires |feat| == 16
    requires feat[0] == f.prevBurst && feat[1] == f.sleep && feat[2] == f.ema && feat[3] == f.ioWait
    requires feat[4] == f.wakeCnt && feat[5] == f.wakeLatUs && feat[6] == f.queueWaitUs && feat[7] == f.sqEma
    requires feat[8] == f.gpuSubmit && feat[9] == f.sleepVarRatio && forall id :: 10 <= id < 16 ==> feat[id] == 0
    ensures forall id: nat :: id < 16 ==> feat[id] == FeatValue(f, id)
  {
  }

  /** The daemon's prediction, from its 16-entry feature array. */
  method Predict(nodes: seq<Node>, f: Feats) returns (pred: U32)
    ensures pred == RustWalk(nodes, 0, f, MAX_DEPTH)
  {
    if nodes == [] {
      return 0;
    }
    var feat: seq<U64> := [
      f.prevBurst, f.sleep, f.ema, f.ioWait, f.wakeCnt, f.wakeLatUs, f.queueWaitUs, f.sqEma, f.gpuSubmit,
      f.sleepVarRatio, 0, 0, 0, 0, 0, 0];
    ArrayIsFeatValue(f, feat);
    var idx: nat := 0;
    for step := 0 to MAX_DEPTH
      invariant RustWalk(nodes, idx, f, MAX_DEPTH - step) == RustWalk(nodes, 0, f, MAX_DEPTH)
    {
      if idx >= |nodes| {
        return 0;
      }
      var node := nodes[idx];
      if node.right == 0 {
        return node.left;
      }
      idx := (if feat[node.feature % 16] <= node.threshold then node.left else node.right) % MAX_NODES;
    }
    if idx >= |nodes| {
      return 0;
    }
    return if nodes[idx].right == 0 then nodes[idx].left else 0;
  }

  /** The scheduler's prediction from one store entry, and the node reads it took. */
  method WalkStore(store: seq<Node>, f: Feats) returns (pred: U32, reads_: nat)
    requires |store| == MAX_NODES
    ensures pred == StoreWalk(store, 0, f, MAX_DEPTH)
    ensures 1 <= reads_ <= MAX_DEPTH + 1
  {
    var feat: seq<U64> := [
      f.prevBurst, f.sleep, f.ema, f.ioWait, f.wakeCnt, f.wakeLatUs, f.queueWaitUs, f.sqEma, f.gpuSubmit,
      f.sleepVarRatio, 0, 0, 0, 0, 0, 0];
    ArrayIsFeatValue(f, feat);
    var idx: nat := 0;
    reads_ := 0;
    for step := 0 to MAX_DEPTH
      invariant StoreWalk(store, idx, f, MAX_DEPTH - step) == StoreWalk(store, 0, f, MAX_DEPTH)
      invariant reads_ == step
    {
      var n := store[idx % MAX_NODES];
      reads_ := reads_ + 1;
      if n.right == 0 {
        return n.left, reads_;
      }
      var feature := n.feature % 16;
      if feature >= NR_FEATURES {
        return 0, reads_;
      }
      idx := if feat[feature] <= n.threshold then n.left else n.right;
    }
    var n := store[idx % MAX_NODES];
    reads_ := reads_ + 1;
    pred := if n.right == 0 then n.left else 0;
  }

  // ---- The two walks agree ----

  lemma {:induction false} WalksAgreeFrom(nodes: seq<Node>, idx: nat, f: Feats, left: nat)
    requires |nodes| <= MAX_NODES
    requires forall i :: 0 <= i < |nodes| ==> nodes[i].right == 0 || Slot(nodes[i]) < NR_FEATURES
    ensures StoreWalk(Padded(nodes), idx, f, left) == RustWalk(nodes, idx % MAX_NODES, f, left)
    decreases left
  {
    var i := idx % MAX_NODES;
    if i < |nodes| && nodes[i].right != 0 && left > 0 {
      WalksAgreeFrom(nodes, Next(nodes[i], f), f, left - 1);
    }
  }

  /** Valid or not, a node list with populated feature ids predicts the same in both walks. */
  lemma WalksAgree(nodes: seq<Node>, f: Feats)
    requires |nodes| <= MAX_NODES
    requires forall i :: 0 <= i < |nodes| ==> nodes[i].right == 0 || Slot(nodes[i]) < NR_FEATURES
    ensures StoreWalk(Padded(nodes), 0, f, MAX_DEPTH) == RustWalk(nodes, 0, f, MAX_DEPTH)
  {
    WalksAgreeFrom(nodes, 0, f, MAX_DEPTH);
  }

  /** The feature condition is needed: an inner node on the carried-along id 9 tells them apart. */
  lemma WalksDisagreeOnFeatureNine(f: Feats)
    ensures var nodes := [Node(0xFFFF_FFFF, 1, 2, 9), Node(0, 7, 0, 0), Node(0, 8, 0, 0)];
            RustWalk(nodes, 0, f, MAX_DEPTH) == 7 && StoreWalk(Padded(nodes), 0, f, MAX_DEPTH) == 0
  {
    var nodes := [Node(0xFFFF_FFFF, 1, 2, 9), Node(0, 7, 0, 0), Node(0, 8, 0, 0)];
    assert Next(nodes[0], f) == 1;
    assert RustWalk(nodes, 1, f, 11) == 7;
    assert Padded(nodes)[0] == nodes[0];
  }

  // ---- The walk is the plain descent ----

  lemma {:induction false} WalkIsDescentFrom(nodes: seq<Node>, i: nat, f: Feats, left: nat)
    requires Ordered(nodes) && i < |nodes| <= MAX_NODES
    ensures RustWalk(nodes, i, f, left) ==
            if Steps(nodes, i, f) <= left then nodes[Descend(nodes, i, f)].left else 0
    decreases left
  {
    if nodes[i].right != 0 {
      assert Edge(nodes, i, Next(nodes[i], f));
      if left > 0 {
        WalkIsDescentFrom(nodes, Next(nodes[i], f), f, left - 1);
      }
    }
  }

  /** Exactly: a walk returns the leaf of the descent if that takes at most 12 edges, else 0. */
  lemma WalkIsCappedDescent(nodes: seq<Node>, f: Feats)
    requires Ordered(nodes) && 1 <= |nodes| <= MAX_NODES
    ensures RustWalk(nodes, 0, f, MAX_DEPTH) ==
            if Steps(nodes, 0, f) <= MAX_DEPTH then nodes[Descend(nodes, 0, f)].left else 0
  {
    WalkIsDescentFrom(nodes, 0, f, MAX_DEPTH);
  }

  /** On a validated layout with one parent per node both walks end on the leaf of the descent. */
  lemma ValidatedWalkReachesLeaf(nodes: seq<Node>, f: Feats)
    requires Valid(nodes) && OneParent(nodes)
    ensures Ordered(nodes) && Steps(nodes, 0, f) <= MAX_DEPTH
    ensures RustWalk(nodes, 0, f, MAX_DEPTH) == nodes[Descend(nodes, 0, f)].left
    ensures StoreWalk(Padded(nodes), 0, f, MAX_DEPTH) == nodes[Descend(nodes, 0, f)].left
  {
    hide RustWalk, StoreWalk, Padded, Steps, Descend, Ordered, OneParent;
    ValidIsOrdered(nodes);
    var d: seq<nat> :| ShortestDepths(nodes, d) && ShallowInner(nodes, d);
    assert d[0] == 0;
    OneParentStaysShallow(nodes, d, 0, f);
    WalkIsCappedDescent(nodes, f);
    forall i | 0 <= i < |nodes|
      ensures nodes[i].right == 0 || Slot(nodes[i]) < NR_FEATURES
    {
      assert GoodNode(nodes, i);
    }
    WalksAgree(nodes, f);
  }

  /** Level numbers of at most 12 that grow along every edge: no path of the layout is longer than that. */
  ghost predicate Levels(nodes: seq<Node>, h: seq<nat>) {
    && |h| == |nodes| && (forall i :: 0 <= i < |h| ==> h[i] <= MAX_DEPTH)
    && forall i: nat, c: nat :: Edge(nodes, i, c) && c < |nodes| ==> h[i] + 1 <= h[c]
  }

  lemma {:induction false} LevelsBoundSteps(nodes: seq<Node>, h: seq<nat>, i: nat, f: Feats)
    requires Ordered(nodes) && Levels(nodes, h) && i < |nodes|
    ensures h[i] + Steps(nodes, i, f) <= MAX_DEPTH
    decreases |nodes| - i
  {
    if nodes[i].right != 0 {
      var c := Next(nodes[i], f);
      assert Edge(nodes, i, c);
      LevelsBoundSteps(nodes, h, c, f);
    }
  }

  /** Shared children or not, on a forward layout without longer paths both walks end on the leaf. */
  lemma ShortPathsReachLeaf(nodes: seq<Node>, h: seq<nat>, f: Feats)
    requires Ordered(nodes) && Levels(nodes, h) && 1 <= |nodes| <= MAX_NODES
    ensures RustWalk(nodes, 0, f, MAX_DEPTH) == nodes[Descend(nodes, 0, f)].left
    ensures (forall i :: 0 <= i < |nodes| ==> nodes[i].right == 0 || Slot(nodes[i]) < NR_FEATURES) ==>
              StoreWalk(Padded(nodes), 0, f, MAX_DEPTH) == nodes[Descend(nodes, 0, f)].left
  {
    hide RustWalk, StoreWalk, Padded, Steps, Descend;
    LevelsBoundSteps(nodes, h, 0, f);
    WalkIsCappedDescent(nodes, f);
    if forall i :: 0 <= i < |nodes| ==> nodes[i].right == 0 || Slot(nodes[i]) < NR_FEATURES {
      WalksAgree(nodes, f);
    }
  }

  /** One parent per node is the special case in which the shortest depths are such levels. */
  lemma OneParentHasLevels(nodes: seq<Node>, d: seq<nat>)
    requires Ordered(nodes) && OneParent(nodes) && ShortestDepths(nodes, d) && ShallowInner(nodes, d)
    ensures Levels(nodes, d)
  {
    forall i: nat, c: nat | Edge(nodes, i, c) && c < |nodes|
      ensures d[i] + 1 <= d[c]
    {
      assert OneDeeper(nodes, d, c);
    }
    forall c: nat | c < |nodes|
      ensures d[c] <= MAX_DEPTH
    {
      if c > 0 {
        assert OneDeeper(nodes, d, c);
      }
    }
  }

  // ---- Shared children: accepted by the validator, walked too deep ----

  /** Thirteen inner nodes i with children i + 1 and i + 2, then two leaves predicting 5. */
  function Ladder(): (nodes: seq<Node>)
    ensures |nodes| == 15
    ensures forall i :: 0 <= i < 15 ==> nodes[i] == if i < 13 then Node(0, i + 1, i + 2, 0) else Node(0, 5, 0, 0)
  {
    seq(15, i requires 0 <= i < 15 => if i < 13 then Node(0, i + 1, i + 2, 0) else Node(0, 5, 0, 0))
  }

  lemma LadderIsValid()
    ensures Valid(Ladder()) && !OneParent(Ladder())
  {
    var nodes := Ladder();
    var d: seq<nat> := seq(15, i requires 0 <= i < 15 => (i + 1) / 2);
    forall c: nat | 0 < c < 15
      ensures OneDeeper(nodes, d, c)
    {
      var p: nat := if c == 1 then 0 else c - 2;
      assert Edge(nodes, p, c) && d[c] == d[p] + 1;
    }
    assert ShortestDepths(nodes, d) && ShallowInner(nodes, d);
    assert Edge(nodes, 0, 2) && Edge(nodes, 1, 2);
  }

  lemma {:induction false} LadderDescent(i: nat, f: Feats)
    requires i <= 13 && f.prevBurst == 0
    ensures Ordered(Ladder())
    ensures Steps(Ladder(), i, f) == 13 - i && Descend(Ladder(), i, f) == 13
    decreases 13 - i
  {
    if i < 13 {
      LadderDescent(i + 1, f);
      assert Next(Ladder()[i], f) == i + 1;
    }
  }

  /** Validation alone does not make the walk total: this layout passes and still predicts 0. */
  lemma SharedChildrenCutTheWalk(f: Feats)
    requires f.prevBurst == 0
    ensures Valid(Ladder()) && Ordered(Ladder())
    ensures Ladder()[Descend(Ladder(), 0, f)].left == 5
    ensures RustWalk(Ladder(), 0, f, MAX_DEPTH) == 0
  {
    LadderIsValid();
    LadderDescent(0, f);
    WalkIsCappedDescent(Ladder(), f);
  }
}

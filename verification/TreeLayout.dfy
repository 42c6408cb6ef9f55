/** The flat tree layout shared by trainer and scheduler, its validator and the plain descent. */
module TreeLayout {
  import opened Word
  import opened Samples

  const MAX_NODES := 2048
  const MAX_DEPTH := 12

  /** An internal node, or a leaf (right == 0) whose left field is the prediction. */
  datatype Node = Node(threshold: U64, left: U32, right: U32, feature: U8)

  const PLACEHOLDER := Node(0, 0, 0, 0)

  predicate Internal(nodes: seq<Node>, i: nat) {
    i < |nodes| && nodes[i].right != 0
  }

  predicate Edge(nodes: seq<Node>, i: nat, c: nat) {
    Internal(nodes, i) && (c == nodes[i].left || c == nodes[i].right)
  }

  /** Children are in range and after their parent, so there are no cycles. */
  ghost predicate Ordered(nodes: seq<Node>) {
    forall i: nat, c: nat :: Edge(nodes, i, c) ==> i < c < |nodes|
  }

  /** No node is the child of two nodes, or both children of one. */
  ghost predicate OneParent(nodes: seq<Node>) {
    && (forall i: nat, j: nat, c: nat :: Edge(nodes, i, c) && Edge(nodes, j, c) ==> i == j)
    && forall i: nat :: Internal(nodes, i) ==> nodes[i].left != nodes[i].right
  }

  /** Slot of the 16-entry feature array a node reads. */
  function Slot(n: Node): nat { n.feature % 16 }

  function Next(n: Node, f: Feats): nat {
    if FeatValue(f, Slot(n)) <= n.threshold then n.left else n.right
  }

  /** The leaf plain recursive descent ends on. */
  function Descend(nodes: seq<Node>, i: nat, f: Feats): (leaf: nat)
    requires Ordered(nodes) && i < |nodes|
    ensures leaf < |nodes| && nodes[leaf].right == 0
    decreases |nodes| - i
  {
    if nodes[i].right == 0 then i
    else
      assert Edge(nodes, i, Next(nodes[i], f));
      Descend(nodes, Next(nodes[i], f), f)
  }

  /** Edges of that descent. */
  function Steps(nodes: seq<Node>, i: nat, f: Feats): nat
    requires Ordered(nodes) && i < |nodes|
    decreases |nodes| - i
  {
    if nodes[i].right == 0 then 0
    else
      assert Edge(nodes, i, Next(nodes[i], f));
      1 + Steps(nodes, Next(nodes[i], f), f)
  }

  // ---- Validity, stated without a search ----

  /** d is the length of the shortest path from the root to every node. */
  ghost predicate ShortestDepths(nodes: seq<Node>, d: seq<nat>) {
    && |d| == |nodes| && (nodes != [] ==> d[0] == 0)
    && (forall i: nat, c: nat :: Edge(nodes, i, c) && c < |nodes| ==> d[c] <= d[i] + 1)
    && forall c: nat :: 0 < c < |nodes| ==> OneDeeper(nodes, d, c)
  }

  ghost predicate OneDeeper(nodes: seq<Node>, d: seq<nat>, c: nat)
    requires |d| == |nodes| && c < |nodes|
  {
    exists p: nat :: Edge(nodes, p, c) && d[c] == d[p] + 1
  }

  predicate GoodNode(nodes: seq<Node>, i: nat) {
    Internal(nodes, i) ==>
      && nodes[i].feature < NR_FEATURES
      && i < nodes[i].left < |nodes| && i < nodes[i].right < |nodes|
  }

  /** What the store demands: all nodes reachable, split ids populated, inner nodes shallower than 12. */
  ghost predicate Valid(nodes: seq<Node>) {
    && 1 <= |nodes| <= MAX_NODES
    && (forall i: nat :: i < |nodes| ==> GoodNode(nodes, i))
    && exists d: seq<nat> :: ShortestDepths(nodes, d) && ShallowInner(nodes, d)
  }

  ghost predicate ShallowInner(nodes: seq<Node>, d: seq<nat>)
    requires |d| == |nodes|
  {
    forall i: nat :: Internal(nodes, i) ==> d[i] < MAX_DEPTH
  }

  lemma ValidIsOrdered(nodes: seq<Node>)
    requires Valid(nodes)
    ensures Ordered(nodes)
  {
    hide ShortestDepths, ShallowInner;
    forall i: nat, c: nat | Edge(nodes, i, c)
      ensures i < c < |nodes|
    {
      assert GoodNode(nodes, i);
    }
  }

  // ---- The validator ----

  const UNSEEN: nat := 0xFFFF_FFFF_FFFF_FFFF

  datatype Verdict =
    | Accepted
    | Empty
    | TooManyNodes
    | BadFeature(node: nat)
    | TooDeep(node: nat)
    | ChildOutOfRange(node: nat, child: nat)
    | ChildBeforeParent(node: nat, child: nat)
    | Unreachable(node: nat)

  /** The seen nodes are the finished ones and the open ones, and no node is both. */
  ghost predicate SeenSplit(depth: seq<nat>, queue: seq<nat>, done: set<nat>) {
    && (forall k :: 0 <= k < |queue| ==> queue[k] < |depth| && queue[k] !in done)
    && (forall x :: x in done ==> x < |depth|)
    && (forall x :: 0 <= x < |depth| ==> (depth[x] != UNSEEN <==> x in done || x in queue))
    && (forall a, b :: 0 <= a < b < |queue| ==> queue[a] != queue[b])
  }

  /** Open nodes are in order of depth, at most one level apart, and none above a finished one. */
  ghost predicate LevelOrder(depth: seq<nat>, queue: seq<nat>, done: set<nat>)
    requires forall k :: 0 <= k < |queue| ==> queue[k] < |depth|
    requires forall x :: x in done ==> x < |depth|
  {
    && (forall a, b :: 0 <= a <= b < |queue| ==> depth[queue[a]] <= depth[queue[b]])
    && (forall b :: 0 <= b < |queue| ==> depth[queue[b]] <= depth[queue[0]] + 1)
    && (forall x, b :: x in done && 0 <= b < |queue| ==> depth[x] <= depth[queue[b]])
  }

  ghost predicate Frontier(depth: seq<nat>, queue: seq<nat>, done: set<nat>) {
    SeenSplit(depth, queue, done) && LevelOrder(depth, queue, done)
  }

  /** Depths are lengths of paths, and the finished nodes passed all checks. */
  ghost predicate Sound(nodes: seq<Node>, depth: seq<nat>, done: set<nat>) {
    && |depth| == |nodes| && nodes != [] && depth[0] == 0
    && (forall x :: x in done ==> x < |nodes|)
    && (forall x :: 0 <= x < |nodes| && depth[x] != UNSEEN ==> depth[x] <= MAX_DEPTH)
    && (forall i :: i in done ==> Closed(nodes, depth, i))
    && forall c :: 0 < c < |nodes| && depth[c] != UNSEEN ==> HasParent(nodes, depth, c)
  }

  /** Breadth-first exploration: `depth` of the seen nodes, `queue` the open ones, `done` the rest. */
  ghost predicate Explored(nodes: seq<Node>, depth: seq<nat>, queue: seq<nat>, done: set<nat>) {
    Frontier(depth, queue, done) && Sound(nodes, depth, done)
  }

  function Indices(n: nat): (r: set<nat>)
    ensures forall x: nat :: x in r <==> x < n
  {
    if n == 0 then {} else Indices(n - 1) + {n - 1}
  }

  /** A node that passed all checks and whose children are seen. */
  ghost predicate Closed(nodes: seq<Node>, depth: seq<nat>, i: nat)
    requires |depth| == |nodes|
  {
    && i < |nodes| && GoodNode(nodes, i)
    && (Internal(nodes, i) ==>
          depth[i] < MAX_DEPTH && Reaches(depth, i, nodes[i].left) && Reaches(depth, i, nodes[i].right))
  }

  ghost predicate Reaches(depth: seq<nat>, i: nat, c: nat)
    requires i < |depth|
  {
    c < |depth| && depth[c] != UNSEEN && depth[c] <= depth[i] + 1
  }

  ghost predicate HasParent(nodes: seq<Node>, depth: seq<nat>, c: nat)
    requires |depth| == |nodes| && c < |nodes|
  {
    exists p: nat :: Edge(nodes, p, c) && depth[p] != UNSEEN && depth[c] == depth[p] + 1
  }

  /** Give an unseen child its depth and queue it. */
  method Visit(nodes: seq<Node>, depth0: seq<nat>, queue0: seq<nat>, i: nat, c: nat, ghost done: set<nat>)
    returns (depth: seq<nat>, queue: seq<nat>)
    requires Explored(nodes, depth0, [i] + queue0, done)
    requires Edge(nodes, i, c) && c < |nodes| && i < |depth0| && depth0[i] < MAX_DEPTH
    ensures Explored(nodes, depth, [i] + queue, done)
    ensures i < |depth| == |nodes| && Reaches(depth, i, c) && depth[i] == depth0[i]
    ensures forall x: nat :: i < |depth0| && Reaches(depth0, i, x) ==> Reaches(depth, i, x)
  {
    hide Frontier, Sound;
    depth, queue := depth0, queue0;
    HeadIsOpen(nodes, depth, queue, i, done);
    assert i == ([i] + queue0)[0];
    if depth[c] == UNSEEN {
      depth := depth[c := depth[i] + 1];
      queue := queue + [c];
      assert [i] + queue == ([i] + queue0) + [c];
      FrontierPush(depth0, [i] + queue0, c, done);
      SoundPush(nodes, depth0, i, c, done);
    } else {
      SeenIsClose(depth, [i] + queue, done, c);
    }
  }

  lemma SeenIsClose(depth: seq<nat>, queue: seq<nat>, done: set<nat>, c: nat)
    requires Frontier(depth, queue, done) && queue != []
    requires c < |depth| && depth[c] != UNSEEN
    ensures depth[c] <= depth[queue[0]] + 1
  {
  }

  lemma FrontierPush(depth: seq<nat>, queue: seq<nat>, c: nat, done: set<nat>)
    requires Frontier(depth, queue, done) && queue != []
    requires c < |depth| && depth[c] == UNSEEN && depth[queue[0]] < MAX_DEPTH
    ensures Frontier(depth[c := depth[queue[0]] + 1], queue + [c], done)
  {
    SplitPush(depth, queue, c, done);
    OrderPush(depth, queue, c, done);
  }

  lemma SplitPush(depth: seq<nat>, queue: seq<nat>, c: nat, done: set<nat>)
    requires SeenSplit(depth, queue, done) && queue != []
    requires c < |depth| && depth[c] == UNSEEN && depth[queue[0]] < MAX_DEPTH
    ensures SeenSplit(depth[c := depth[queue[0]] + 1], queue + [c], done)
  {
    assert c !in queue && c !in done;
    assert forall k :: 0 <= k < |queue| ==> queue[k] in queue;
  }

  lemma OrderPush(depth: seq<nat>, queue: seq<nat>, c: nat, done: set<nat>)
    requires SeenSplit(depth, queue, done) && LevelOrder(depth, queue, done) && queue != []
    requires c < |depth| && depth[c] == UNSEEN
    ensures LevelOrder(depth[c := depth[queue[0]] + 1], queue + [c], done)
  {
    assert forall k :: 0 <= k < |queue| ==> queue[k] in queue;
  }

  lemma SoundPush(nodes: seq<Node>, depth: seq<nat>, i: nat, c: nat, done: set<nat>)
    requires Sound(nodes, depth, done)
    requires Edge(nodes, i, c) && c < |nodes| && depth[c] == UNSEEN && depth[i] < MAX_DEPTH
    requires c !in done
    ensures Sound(nodes, depth[c := depth[i] + 1], done)
  {
    var depth' := depth[c := depth[i] + 1];
    assert HasParent(nodes, depth', c) by {
      assert Edge(nodes, i, c) && depth'[c] == depth'[i] + 1;
    }
    forall x | 0 < x < |nodes| && depth'[x] != UNSEEN
      ensures HasParent(nodes, depth', x)
    {
      if x != c {
        assert HasParent(nodes, depth, x);
        var p: nat :| Edge(nodes, p, x) && depth[p] != UNSEEN && depth[x] == depth[p] + 1;
        assert Edge(nodes, p, x) && depth'[x] == depth'[p] + 1;
      }
    }
    assert c != 0;
    forall k | k in done
      ensures Closed(nodes, depth', k)
    {
      assert Closed(nodes, depth, k);
    }
  }

  /** The closed head leaves the queue. */
  lemma HeadDone(nodes: seq<Node>, depth: seq<nat>, queue: seq<nat>, i: nat, done: set<nat>)
    requires Explored(nodes, depth, [i] + queue, done) && Closed(nodes, depth, i)
    ensures Explored(nodes, depth, queue, done + {i})
  {
    FrontierPop(depth, [i] + queue, done);
    assert ([i] + queue)[1..] == queue;
  }

  lemma FrontierPop(depth: seq<nat>, queue: seq<nat>, done: set<nat>)
    requires Frontier(depth, queue, done) && queue != []
    ensures Frontier(depth, queue[1..], done + {queue[0]})
  {
    hide LevelOrder;
    SplitPop(depth, queue, done);
    OrderPop(depth, queue, done);
  }

  lemma SplitPop(depth: seq<nat>, queue: seq<nat>, done: set<nat>)
    requires SeenSplit(depth, queue, done) && queue != []
    ensures SeenSplit(depth, queue[1..], done + {queue[0]})
  {
    var rest := queue[1..];
    assert forall a {:trigger rest[a]} :: 0 <= a < |rest| ==> rest[a] == queue[a + 1];
    assert forall x :: x in queue <==> x == queue[0] || x in rest by {
      assert queue == [queue[0]] + rest;
    }
  }

  lemma OrderPop(depth: seq<nat>, queue: seq<nat>, done: set<nat>)
    requires SeenSplit(depth, queue, done) && queue != []
    requires LevelOrder(depth, queue, done)
    requires forall k :: 0 <= k < |queue[1..]| ==> queue[1..][k] < |depth|
    ensures LevelOrder(depth, queue[1..], done + {queue[0]})
  {
    hide SeenSplit;
    var rest := queue[1..];
    assert forall a {:trigger rest[a]} :: 0 <= a < |rest| ==> rest[a] == queue[a + 1];
  }

  /** Breadth-first depths are shortest: up to the depth of the open nodes everything is seen. */
  lemma {:induction false} NoShorterPath(nodes: seq<Node>, depth: seq<nat>, queue: seq<nat>, done: set<nat>,
                                         d: seq<nat>, x: nat)
    requires Explored(nodes, depth, queue, done)
    requires ShortestDepths(nodes, d)
    requires x < |nodes| && (queue != [] ==> d[x] <= depth[queue[0]])
    ensures depth[x] != UNSEEN && depth[x] <= d[x]
    decreases d[x]
  {
    if x > 0 {
      assert OneDeeper(nodes, d, x);
      var p: nat :| Edge(nodes, p, x) && d[x] == d[p] + 1;
      NoShorterPath(nodes, depth, queue, done, d, p);
      OpenIsDeep(depth, queue, done, p);
      assert Closed(nodes, depth, p);
    }
  }

  /** The shortest path to node i has 12 edges or more. */
  ghost predicate AlwaysDeep(nodes: seq<Node>, i: nat)
    requires i < |nodes|
  {
    forall d :: ShortestDepths(nodes, d) ==> d[i] >= MAX_DEPTH
  }

  lemma OpenIsDeep(depth: seq<nat>, queue: seq<nat>, done: set<nat>, p: nat)
    requires Frontier(depth, queue, done)
    ensures p in queue ==> queue != [] && depth[queue[0]] <= depth[p]
  {
  }

  /** The validator: accepts exactly the valid layouts, and names a culprit otherwise. */
  method SerializeValidate(nodes: seq<Node>) returns (v: Verdict)
    ensures v.Accepted? <==> Valid(nodes)
    ensures v.Empty? <==> nodes == []
    ensures v.TooManyNodes? <==> |nodes| > MAX_NODES
    ensures v.BadFeature? ==> Internal(nodes, v.node) && nodes[v.node].feature >= NR_FEATURES
    ensures v.TooDeep? ==> Internal(nodes, v.node) && AlwaysDeep(nodes, v.node)
    ensures v.ChildOutOfRange? ==> Edge(nodes, v.node, v.child) && v.child >= |nodes|
    ensures v.ChildBeforeParent? ==> Edge(nodes, v.node, v.child) && v.child <= v.node
    ensures v.Unreachable? ==> v.node < |nodes| && !exists d :: ShortestDepths(nodes, d)
  {
    hide Frontier, Sound, ShortestDepths, ShallowInner;
    var nr := |nodes|;
    if nr < 1 {
      return Empty;
    }
    if nr > MAX_NODES {
      return TooManyNodes;
    }
    var depth: seq<nat> := seq(nr, _ => UNSEEN)[0 := 0];
    var queue := [0];
    RootExplored(nodes, depth);
    ghost var done: set<nat> := {};
    while queue != []
      invariant Explored(nodes, depth, queue, done)
      decreases Indices(nr) - done
    {
      var i := queue[0];
      assert queue == [i] + queue[1..];
      queue := queue[1..];
      HeadIsOpen(nodes, depth, queue, i, done);
      var node := nodes[i];
      if node.right != 0 {
        if node.feature >= NR_FEATURES {
          assert !GoodNode(nodes, i);
          return BadFeature(i);
        }
        if depth[i] >= MAX_DEPTH {
          DeepIsInvalid(nodes, depth, queue, i, done);
          return TooDeep(i);
        }
        var c := node.left;
        assert Edge(nodes, i, c);
        if c >= nr { assert !GoodNode(nodes, i); return ChildOutOfRange(i, c); }
        if c <= i { assert !GoodNode(nodes, i); return ChildBeforeParent(i, c); }
        depth, queue := Visit(nodes, depth, queue, i, c, done);
        c := node.right;
        assert Edge(nodes, i, c);
        if c >= nr { assert !GoodNode(nodes, i); return ChildOutOfRange(i, c); }
        if c <= i { assert !GoodNode(nodes, i); return ChildBeforeParent(i, c); }
        depth, queue := Visit(nodes, depth, queue, i, c, done);
      }
      assert Closed(nodes, depth, i);
      HeadDone(nodes, depth, queue, i, done);
      done := done + {i};
    }
    DepthsSized(nodes, depth, done);
    var k := 0;
    while k < nr
      invariant 0 <= k <= nr
      invariant forall x :: 0 <= x < k ==> depth[x] <= MAX_DEPTH
    {
      if depth[k] > MAX_DEPTH {
        UnseenIsInvalid(nodes, depth, done, k);
        return Unreachable(k);
      }
      k := k + 1;
    }
    AllSeenIsValid(nodes, depth, done);
    return Accepted;
  }

  lemma RootExplored(nodes: seq<Node>, depth: seq<nat>)
    requires nodes != [] && depth == seq(|nodes|, _ => UNSEEN)[0 := 0]
    ensures Explored(nodes, depth, [0], {})
  {
  }

  lemma HeadIsOpen(nodes: seq<Node>, depth: seq<nat>, queue: seq<nat>, i: nat, done: set<nat>)
    requires Explored(nodes, depth, [i] + queue, done)
    ensures i < |nodes| == |depth| && i !in done
    ensures forall x :: 0 <= x < |depth| && depth[x] == UNSEEN ==> x !in done
  {
    assert ([i] + queue)[0] == i;
  }

  lemma DepthsSized(nodes: seq<Node>, depth: seq<nat>, done: set<nat>)
    requires Explored(nodes, depth, [], done)
    ensures |depth| == |nodes|
    ensures forall k :: 0 <= k < |nodes| && depth[k] > MAX_DEPTH ==> depth[k] == UNSEEN
  {
  }

  lemma DeepIsInvalid(nodes: seq<Node>, depth: seq<nat>, queue: seq<nat>, i: nat, done: set<nat>)
    requires Explored(nodes, depth, [i] + queue, done)
    requires Internal(nodes, i) && depth[i] >= MAX_DEPTH
    ensures AlwaysDeep(nodes, i) && !Valid(nodes)
  {
    assert ([i] + queue)[0] == i;
    forall d | ShortestDepths(nodes, d)
      ensures d[i] >= MAX_DEPTH
    {
      if d[i] < MAX_DEPTH {
        NoShorterPath(nodes, depth, [i] + queue, done, d, i);
        assert false;
      }
    }
  }

  lemma UnseenIsInvalid(nodes: seq<Node>, depth: seq<nat>, done: set<nat>, k: nat)
    requires Explored(nodes, depth, [], done)
    requires k < |nodes| && depth[k] == UNSEEN
    ensures !exists d :: ShortestDepths(nodes, d)
  {
    if d :| ShortestDepths(nodes, d) {
      NoShorterPath(nodes, depth, [], done, d, k);
      assert false;
    }
  }

  lemma AllSeenIsValid(nodes: seq<Node>, depth: seq<nat>, done: set<nat>)
    requires Explored(nodes, depth, [], done) && |nodes| <= MAX_NODES
    requires forall x :: 0 <= x < |nodes| ==> depth[x] <= MAX_DEPTH
    ensures Valid(nodes)
  {
    hide ShortestDepths, HasParent, GoodNode, Reaches;
    forall x: nat | x < |nodes|
      ensures Closed(nodes, depth, x) && GoodNode(nodes, x)
    {
      assert x in done;
    }
    AllSeenIsShortest(nodes, depth);
    assert ShortestDepths(nodes, depth) && ShallowInner(nodes, depth);
  }

  lemma AllSeenIsShortest(nodes: seq<Node>, depth: seq<nat>)
    requires |depth| == |nodes| && nodes != [] && depth[0] == 0
    requires forall x: nat :: x < |nodes| ==> Closed(nodes, depth, x)
    requires forall c :: 0 < c < |nodes| ==> HasParent(nodes, depth, c)
    ensures ShortestDepths(nodes, depth)
  {
    forall i: nat, c: nat | Edge(nodes, i, c) && c < |nodes|
      ensures depth[c] <= depth[i] + 1
    {
      assert Closed(nodes, depth, i);
    }
    forall c: nat | 0 < c < |nodes|
      ensures OneDeeper(nodes, depth, c)
    {
      assert HasParent(nodes, depth, c);
    }
  }

  // ---- Descent on validated layouts ----

  /** With one parent per node every descent stays within the depth of the layout. */
  lemma {:induction false} OneParentStaysShallow(nodes: seq<Node>, d: seq<nat>, i: nat, f: Feats)
    requires Ordered(nodes) && OneParent(nodes) && i < |nodes|
    requires ShortestDepths(nodes, d) && ShallowInner(nodes, d)
    requires d[i] <= MAX_DEPTH
    ensures d[i] + Steps(nodes, i, f) <= MAX_DEPTH
    decreases |nodes| - i
  {
    if nodes[i].right != 0 {
      var c := Next(nodes[i], f);
      assert Edge(nodes, i, c);
      assert OneDeeper(nodes, d, c);
      var p: nat :| Edge(nodes, p, c) && d[c] == d[p] + 1;
      assert p == i;
      OneParentStaysShallow(nodes, d, c, f);
    }
  }
}

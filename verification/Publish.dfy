/** The double-buffered publish, interleaved node by node with any number of readers. */
module Publish {
  import opened Arithmetic
  import opened Word
  import opened Samples
  import opened TreeLayout
  import opened TreeWalk

  // ---- The committed-tree meta word ----

  function Pack(generation: nat, nrNodes: nat, active: nat): nat {
    generation * 0x1_0000_0000 + nrNodes * 256 + active * 2 + 1
  }

  /** Trained bit 0, active buffer bit 1, node count from bit 8, generation from bit 32. */
  function TreeMeta(generation: U64, nrNodes: nat, active: nat): U64
    requires nrNodes <= MAX_NODES && active < 2
  {
    assert generation % 0x1_0000_0000 <= 0xFFFF_FFFF;
    Pack(generation % 0x1_0000_0000, nrNodes, active)
  }

  predicate MetaTrained(meta: U64) { meta % 2 == 1 }

  function MetaActive(meta: U64): (r: nat) ensures r < 2 { meta / 2 % 2 }

  function MetaNodes(meta: U64): nat { meta / 256 % 0x100_0000 }

  function MetaGeneration(meta: U64): nat { meta / 0x1_0000_0000 }

  lemma PackTrained(g: nat, nrNodes: nat, active: nat)
    ensures Pack(g, nrNodes, active) / 2 == g * 0x8000_0000 + nrNodes * 128 + active
    ensures Pack(g, nrNodes, active) % 2 == 1
  {
    DivMod(g * 0x8000_0000 + nrNodes * 128 + active, 2, 1);
  }

  lemma PackActive(g: nat, nrNodes: nat, active: nat)
    requires active < 2
    ensures Pack(g, nrNodes, active) / 2 % 2 == active
  {
    PackTrained(g, nrNodes, active);
    DivMod(g * 0x4000_0000 + nrNodes * 64, 2, active);
  }

  lemma PackNodes(g: nat, nrNodes: nat, active: nat)
    requires active < 2 && nrNodes <= MAX_NODES
    ensures Pack(g, nrNodes, active) / 256 % 0x100_0000 == nrNodes
  {
    DivMod(g * 0x100_0000 + nrNodes, 256, active * 2 + 1);
    DivMod(g, 0x100_0000, nrNodes);
  }

  lemma PackGeneration(g: nat, nrNodes: nat, active: nat)
    requires active < 2 && nrNodes <= MAX_NODES
    ensures Pack(g, nrNodes, active) / 0x1_0000_0000 == g
  {
    DivMod(g, 0x1_0000_0000, nrNodes * 256 + active * 2 + 1);
  }

  /** Every field of a committed meta reads back as written, the generation in its 32 bits. */
  lemma MetaRoundTrip(generation: U64, nrNodes: nat, active: nat)
    requires nrNodes <= MAX_NODES && active < 2
    ensures var m := TreeMeta(generation, nrNodes, active);
            && MetaTrained(m) && MetaActive(m) == active && MetaNodes(m) == nrNodes
            && MetaGeneration(m) == generation % 0x1_0000_0000
  {
    hide Pack;
    var g := generation % 0x1_0000_0000;
    PackTrained(g, nrNodes, active);
    PackActive(g, nrNodes, active);
    PackNodes(g, nrNodes, active);
    PackGeneration(g, nrNodes, active);
  }

  // ---- State ----

  /** What the publisher is doing: nothing, or filling the inactive entry with `todo` still to write. */
  datatype Publisher =
    | Idle
    | Writing(tree: seq<Node>, generation: U64, todo: set<nat>)

  /**
   * One prediction in flight. `names` is the commit its single meta load saw; `since` records that
   * a commit followed the load, `torn` that a publish then started writing.
   */
  datatype Reader =
    | Loading(feats: Feats)
    | Walking(feats: Feats, entry: nat, names: nat, idx: nat, left: nat, nodeReads: nat, since: bool, torn: bool)
    | Done(feats: Feats, result: U32, trained: bool, names: nat, nodeReads: nat, torn: bool)

  /** Both store entries, the meta word, and the trees committed so far in order. */
  datatype State = State(
    entries: seq<seq<Node>>, meta: U64, publisher: Publisher, readers: seq<Reader>, committed: seq<seq<Node>>)

  datatype Action =
    | Start(tree: seq<Node>, generation: U64)
    | Write(ks: set<nat>)
    | Commit
    | Load(r: nat)
    | Read(r: nat)

  ghost predicate Init(s: State) {
    && s.entries == [Padded([]), Padded([])] && s.meta == 0 && s.publisher == Idle && s.committed == []
    && forall r :: 0 <= r < |s.readers| ==> s.readers[r].Loading?
  }

  predicate Shaped(s: State) {
    |s.entries| == 2 && |s.entries[0]| == |s.entries[1]| == MAX_NODES
  }

  predicate Enabled(s: State, a: Action)
    requires Shaped(s)
  {
    match a
    case Start(tree, generation) =>
      && s.publisher.Idle? && |tree| <= MAX_NODES
      && (generation > MetaGeneration(s.meta) || MetaGeneration(s.meta) == 0)
    case Write(ks) => s.publisher.Writing? && ks <= s.publisher.todo
    case Commit => s.publisher.Writing? && s.publisher.todo == {} && |s.publisher.tree| <= MAX_NODES
    case Load(r) => r < |s.readers| && s.readers[r].Loading?
    case Read(r) => r < |s.readers| && s.readers[r].Walking?
  }

  function OnStart(rd: Reader): Reader {
    match rd
    case Walking(f, entry, names, idx, left, nodeReads, since, torn) =>
      Walking(f, entry, names, idx, left, nodeReads, since, torn || since)
    case _ => rd
  }

  function OnCommit(rd: Reader): Reader {
    match rd
    case Walking(f, entry, names, idx, left, nodeReads, _, torn) =>
      Walking(f, entry, names, idx, left, nodeReads, true, torn)
    case _ => rd
  }

  /** The one meta load: the trained bit gates, the active bit selects the entry. */
  function OnLoad(s: State, rd: Reader): Reader
    requires rd.Loading?
  {
    var newest := if s.committed == [] then 0 else |s.committed| - 1;
    if MetaTrained(s.meta) then Walking(rd.feats, MetaActive(s.meta), newest, 0, MAX_DEPTH, 0, false, false)
    else Done(rd.feats, 0, false, newest, 0, false)
  }

  /** One node read and what the walk does with it. */
  function OnRead(s: State, rd: Reader): Reader
    requires Shaped(s) && rd.Walking?
  {
    if rd.entry >= 2 then rd
    else
      var n := s.entries[rd.entry][rd.idx % MAX_NODES];
      if n.right == 0 then Done(rd.feats, n.left, true, rd.names, rd.nodeReads + 1, rd.torn)
      else if rd.left == 0 || Slot(n) >= NR_FEATURES then
        Done(rd.feats, 0, true, rd.names, rd.nodeReads + 1, rd.torn)
      else
        Walking(rd.feats, rd.entry, rd.names, Next(n, rd.feats), rd.left - 1, rd.nodeReads + 1, rd.since, rd.torn)
  }

  function Stored(entry: seq<Node>, tree: seq<Node>, ks: set<nat>): (e: seq<Node>)
    requires |entry| == MAX_NODES && |tree| <= MAX_NODES
    ensures |e| == MAX_NODES
    ensures forall k: nat :: k < MAX_NODES ==> e[k] == if k in ks then Padded(tree)[k] else entry[k]
  {
    seq(MAX_NODES, k requires 0 <= k < MAX_NODES => if k in ks then Padded(tree)[k] else entry[k])
  }

  function Map(readers: seq<Reader>, f: Reader -> Reader): (rs: seq<Reader>)
    ensures |rs| == |readers| && forall r :: 0 <= r < |rs| ==> rs[r] == f(readers[r])
  {
    seq(|readers|, r requires 0 <= r < |readers| => f(readers[r]))
  }

  function Apply(s: State, a: Action): (s': State)
    requires Shaped(s) && Enabled(s, a)
    requires s.publisher.Writing? ==> |s.publisher.tree| <= MAX_NODES
    ensures Shaped(s')
  {
    var inactive := 1 - MetaActive(s.meta);
    match a
    case Start(tree, generation) =>
      s.(publisher := Writing(tree, generation, Indices(MAX_NODES)), readers := Map(s.readers, OnStart))
    case Write(ks) =>
      s.(entries := s.entries[inactive := Stored(s.entries[inactive], s.publisher.tree, ks)],
         publisher := s.publisher.(todo := s.publisher.todo - ks))
    case Commit =>
      s.(meta := TreeMeta(s.publisher.generation, |s.publisher.tree|, inactive), publisher := Idle,
         readers := Map(s.readers, OnCommit), committed := s.committed + [s.publisher.tree])
    case Load(r) => s.(readers := s.readers[r := OnLoad(s, s.readers[r])])
    case Read(r) => s.(readers := s.readers[r := OnRead(s, s.readers[r])])
  }

  // ---- Invariant ----

  ghost predicate Committed(s: State) {
    && Shaped(s) && (MetaTrained(s.meta) <==> s.committed != [])
    && (forall k :: 0 <= k < |s.committed| ==> |s.committed[k]| <= MAX_NODES)
    && (s.committed != [] ==> s.entries[MetaActive(s.meta)] == Padded(s.committed[|s.committed| - 1]))
  }

  ghost predicate WriterInv(s: State)
    requires Shaped(s)
  {
    s.publisher.Writing? ==>
      && |s.publisher.tree| <= MAX_NODES
      && forall k: nat :: k < MAX_NODES && k !in s.publisher.todo ==>
           s.entries[1 - MetaActive(s.meta)][k] == Padded(s.publisher.tree)[k]
  }

  /** The prediction of the k-th committed tree. */
  ghost function Prediction(s: State, k: nat, f: Feats): U32
    requires k < |s.committed| && |s.committed[k]| <= MAX_NODES
  {
    StoreWalk(Padded(s.committed[k]), 0, f, MAX_DEPTH)
  }

  ghost predicate ReaderInv(s: State, rd: Reader)
    requires Committed(s)
  {
    match rd
    case Loading(_) => true
    case Walking(f, entry, names, idx, left, nodeReads, since, torn) =>
      && entry < 2 && names < |s.committed| && left <= MAX_DEPTH && nodeReads == MAX_DEPTH - left
      && (!since ==> !torn && entry == MetaActive(s.meta))
      && (since && !torn ==> s.publisher.Idle?)
      && (!torn ==>
            && s.entries[entry] == Padded(s.committed[names])
            && StoreWalk(s.entries[entry], idx, f, left) == Prediction(s, names, f))
    case Done(f, result, trained, names, nodeReads, torn) =>
      && nodeReads <= MAX_DEPTH + 1
      && (!trained ==> result == 0 && !torn)
      && (trained ==> names < |s.committed| && (!torn ==> result == Prediction(s, names, f)))
  }

  ghost predicate Inv(s: State) {
    && Committed(s) && WriterInv(s)
    && forall r: nat :: r < |s.readers| ==> ReaderInv(s, s.readers[r])
  }

  lemma InitHolds(s: State)
    requires Init(s)
    ensures Inv(s)
  {
  }

  lemma StartKeeps(s: State, tree: seq<Node>, generation: U64)
    requires Inv(s) && Enabled(s, Start(tree, generation))
    ensures Inv(Apply(s, Start(tree, generation)))
  {
    hide StoreWalk, Padded;
    var s' := Apply(s, Start(tree, generation));
    forall r: nat | r < |s'.readers|
      ensures ReaderInv(s', s'.readers[r])
    {
      assert ReaderInv(s, s.readers[r]);
    }
  }

  lemma WriteKeeps(s: State, ks: set<nat>)
    requires Inv(s) && Enabled(s, Write(ks))
    ensures Inv(Apply(s, Write(ks)))
  {
    hide StoreWalk, Padded;
    var s' := Apply(s, Write(ks));
    forall r: nat | r < |s'.readers|
      ensures ReaderInv(s', s'.readers[r])
    {
      assert ReaderInv(s, s.readers[r]);
    }
  }

  lemma CommitKeeps(s: State)
    requires Inv(s) && Enabled(s, Commit)
    ensures Inv(Apply(s, Commit))
  {
    hide StoreWalk, Padded, TreeMeta, MetaTrained, MetaActive;
    var s' := Apply(s, Commit);
    var inactive := 1 - MetaActive(s.meta);
    MetaRoundTrip(s.publisher.generation, |s.publisher.tree|, inactive);
    assert s.entries[inactive] == Padded(s.publisher.tree);
    forall r: nat | r < |s'.readers|
      ensures ReaderInv(s', s'.readers[r])
    {
      assert ReaderInv(s, s.readers[r]);
    }
  }

  lemma LoadKeeps(s: State, r: nat)
    requires Inv(s) && Enabled(s, Load(r))
    ensures Inv(Apply(s, Load(r)))
  {
    hide StoreWalk, Padded;
    var s' := Apply(s, Load(r));
    forall q: nat | q < |s'.readers|
      ensures ReaderInv(s', s'.readers[q])
    {
      assert ReaderInv(s, s.readers[q]);
    }
  }

  lemma ReadKeeps(s: State, r: nat)
    requires Inv(s) && Enabled(s, Read(r))
    ensures Inv(Apply(s, Read(r)))
  {
    hide Padded;
    var s' := Apply(s, Read(r));
    forall q: nat | q < |s'.readers|
      ensures ReaderInv(s', s'.readers[q])
    {
      assert ReaderInv(s, s.readers[q]);
    }
  }

  /** Every step of the publisher or of any reader keeps the invariant. */
  lemma StepKeeps(s: State, a: Action)
    requires Inv(s) && Enabled(s, a)
    ensures Inv(Apply(s, a))
  {
    hide Inv, Apply, Enabled;
    match a
    case Start(tree, generation) => StartKeeps(s, tree, generation);
    case Write(ks) => WriteKeeps(s, ks);
    case Commit => CommitKeeps(s);
    case Load(r) => LoadKeeps(s, r);
    case Read(r) => ReadKeeps(s, r);
  }

  // ---- Runs ----

  /** s' follows from s by the actions. */
  ghost predicate Run(s: State, acts: seq<Action>, s': State)
    decreases |acts|
  {
    if acts == [] then s == s'
    else
      && Shaped(s) && Enabled(s, acts[0])
      && (s.publisher.Writing? ==> |s.publisher.tree| <= MAX_NODES)
      && Run(Apply(s, acts[0]), acts[1..], s')
  }

  lemma {:induction false} RunKeeps(s: State, acts: seq<Action>, s': State)
    requires Inv(s) && Run(s, acts, s')
    ensures Inv(s')
    decreases |acts|
  {
    hide Inv, Apply, Enabled;
    if acts != [] {
      StepKeeps(s, acts[0]);
      RunKeeps(Apply(s, acts[0]), acts[1..], s');
    }
  }

  /** What a finished reader has, wherever the invariant holds. */
  lemma InvSeesOneTree(s: State, r: nat)
    requires Inv(s) && r < |s.readers| && s.readers[r].Done?
    ensures var rd := s.readers[r];
            && rd.nodeReads <= MAX_DEPTH + 1
            && (!rd.trained ==> rd.result == 0)
            && (rd.trained && !rd.torn ==>
                  && rd.names < |s.committed| && |s.committed[rd.names]| <= MAX_NODES
                  && rd.result == Prediction(s, rd.names, rd.feats))
  {
    assert ReaderInv(s, s.readers[r]);
  }

  lemma InvReachesTheLeaf(s: State, r: nat)
    requires Inv(s) && r < |s.readers| && s.readers[r].Done? && s.readers[r].trained && !s.readers[r].torn
    requires forall k :: 0 <= k < |s.committed| ==> Valid(s.committed[k]) && OneParent(s.committed[k])
    ensures var rd := s.readers[r];
            && rd.names < |s.committed|
            && var tree := s.committed[rd.names];
               && Ordered(tree) && tree != []
               && rd.result == tree[Descend(tree, 0, rd.feats)].left
  {
    InvSeesOneTree(s, r);
    var rd := s.readers[r];
    ValidatedWalkReachesLeaf(s.committed[rd.names], rd.feats);
  }

  /**
   * In every interleaving a finished prediction took at most 13 node reads; it is 0 if it loaded
   * an untrained meta; and unless a publish started writing after a commit that followed its load,
   * it is the prediction of the one committed tree its load named.
   */
  lemma ReadersSeeOneTree(s: State, acts: seq<Action>, s': State, r: nat)
    requires Init(s) && Run(s, acts, s')
    requires r < |s'.readers| && s'.readers[r].Done?
    ensures var rd := s'.readers[r];
            && rd.nodeReads <= MAX_DEPTH + 1
            && (!rd.trained ==> rd.result == 0)
            && (rd.trained && !rd.torn ==>
                  && rd.names < |s'.committed| && |s'.committed[rd.names]| <= MAX_NODES
                  && rd.result == Prediction(s', rd.names, rd.feats))
  {
    InitHolds(s);
    RunKeeps(s, acts, s');
    InvSeesOneTree(s', r);
  }

  /** For a validated tree with one parent per node, that is the leaf of the plain descent. */
  lemma ReadersReachTheLeaf(s: State, acts: seq<Action>, s': State, r: nat)
    requires Init(s) && Run(s, acts, s')
    requires r < |s'.readers| && s'.readers[r].Done? && s'.readers[r].trained && !s'.readers[r].torn
    requires forall k :: 0 <= k < |s'.committed| ==> Valid(s'.committed[k]) && OneParent(s'.committed[k])
    ensures var rd := s'.readers[r];
            && rd.names < |s'.committed|
            && var tree := s'.committed[rd.names];
               && Ordered(tree) && tree != []
               && rd.result == tree[Descend(tree, 0, rd.feats)].left
  {
    InitHolds(s);
    RunKeeps(s, acts, s');
    InvReachesTheLeaf(s', r);
  }

  // ---- The same without history fields ----

  /** A publish starts after a commit. */
  ghost predicate CommitThenStart(acts: seq<Action>) {
    exists i, j :: 0 <= i < j < |acts| && acts[i].Commit? && acts[j].Start?
  }

  ghost predicate StartsOne(acts: seq<Action>) {
    exists i :: 0 <= i < |acts| && acts[i].Start?
  }

  /** A trained read of the names-th tree, under way or finished, that no publish has torn. */
  predicate Untorn(rd: Reader, names: nat, f: Feats) {
    match rd
    case Loading(_) => false
    case Walking(feats, _, k, _, _, _, _, torn) => feats == f && k == names && !torn
    case Done(feats, _, trained, k, _, torn) => feats == f && k == names && trained && !torn
  }

  lemma TailStarts(acts: seq<Action>)
    requires acts != []
    ensures CommitThenStart(acts[1..]) ==> CommitThenStart(acts)
    ensures StartsOne(acts[1..]) ==> StartsOne(acts) && (acts[0].Commit? ==> CommitThenStart(acts))
  {
    if i, j :| 0 <= i < j < |acts[1..]| && acts[1..][i].Commit? && acts[1..][j].Start? {
      assert acts[i + 1].Commit? && acts[j + 1].Start?;
    }
    if i :| 0 <= i < |acts[1..]| && acts[1..][i].Start? {
      assert acts[i + 1].Start?;
    }
  }

  lemma {:induction false} StaysUntorn(s: State, acts: seq<Action>, s': State, r: nat, names: nat, f: Feats)
    requires Run(s, acts, s') && r < |s.readers| && Untorn(s.readers[r], names, f)
    requires !CommitThenStart(acts)
    requires s.readers[r].Walking? && s.readers[r].since ==> !StartsOne(acts)
    ensures r < |s'.readers| && Untorn(s'.readers[r], names, f)
    ensures s.committed <= s'.committed
    decreases |acts|
  {
    hide StoreWalk, CommitThenStart, StartsOne;
    if acts != [] {
      TailStarts(acts);
      assert acts[0].Start? ==> StartsOne(acts) by { FirstStarts(acts); }
      StaysUntorn(Apply(s, acts[0]), acts[1..], s', r, names, f);
    }
  }

  lemma FirstStarts(acts: seq<Action>)
    requires acts != []
    ensures acts[0].Start? ==> StartsOne(acts)
  {
  }

  lemma LoadNames(s: State, r: nat)
    requires Inv(s) && Enabled(s, Load(r)) && MetaTrained(s.meta)
    ensures s.committed != [] && |s.committed[|s.committed| - 1]| <= MAX_NODES
    ensures var s' := Apply(s, Load(r));
            && s'.committed == s.committed && r < |s'.readers|
            && Untorn(s'.readers[r], |s.committed| - 1, s.readers[r].feats)
            && s'.readers[r].Walking? && !s'.readers[r].since
  {
    hide StoreWalk, Padded, MetaTrained, MetaActive;
  }

  /**
   * Stated on the actions alone: a reader that loads a trained meta, and during whose walk no publish
   * starts after a commit, returns the prediction of the tree that was committed last when it loaded.
   */
  lemma UntornRead(s0: State, before: seq<Action>, s: State, r: nat, after: seq<Action>, s': State)
    requires Init(s0) && Run(s0, before, s) && r < |s.readers| && s.readers[r].Loading? && MetaTrained(s.meta)
    requires Run(s, [Load(r)] + after, s') && !CommitThenStart(after)
    requires r < |s'.readers| && s'.readers[r].Done?
    ensures s.committed != [] && |s.committed[|s.committed| - 1]| <= MAX_NODES
    ensures s'.readers[r].feats == s.readers[r].feats && s'.readers[r].nodeReads <= MAX_DEPTH + 1
    ensures s'.readers[r].result
         == StoreWalk(Padded(s.committed[|s.committed| - 1]), 0, s.readers[r].feats, MAX_DEPTH)
  {
    hide StoreWalk, Padded, CommitThenStart, StartsOne, MetaTrained, MetaActive, Inv, Apply, Enabled, Init;
    InitHolds(s0);
    RunKeeps(s0, before, s);
    assert ([Load(r)] + after)[1..] == after;
    var s1 := Apply(s, Load(r));
    StepKeeps(s, Load(r));
    LoadNames(s, r);
    var names := |s.committed| - 1;
    StaysUntorn(s1, after, s', r, names, s.readers[r].feats);
    RunKeeps(s1, after, s');
    InvSeesOneTree(s', r);
  }

  // ---- The torn walk ----

  lemma {:induction false} RunAppend(s: State, a: seq<Action>, mid: State, b: seq<Action>, s': State)
    requires Run(s, a, mid) && Run(mid, b, s')
    ensures Run(s, a + b, s')
    decreases |a|
  {
    hide Apply, Enabled;
    if a == [] {
      assert a + b == b;
    } else {
      RunAppend(Apply(s, a[0]), a[1..], mid, b, s');
      assert (a + b)[1..] == a[1..] + b;
    }
  }

  lemma RunOne(s: State, a: Action)
    requires Inv(s) && Enabled(s, a)
    ensures Run(s, [a], Apply(s, a)) && Inv(Apply(s, a))
  {
    StepKeeps(s, a);
    assert [a][1..] == [];
    assert Run(Apply(s, a), [], Apply(s, a));
  }

  lemma WrittenInFull(s: State)
    requires Inv(s) && s.publisher.Writing? && s.publisher.todo == {}
    ensures Shaped(s) && s.entries[1 - MetaActive(s.meta)] == Padded(s.publisher.tree)
  {
  }

  lemma RunNone(s: State)
    ensures Run(s, [], s)
  {
  }

  /** An uninterrupted publish. */
  lemma PublishRun(s: State, tree: seq<Node>, generation: U64) returns (acts: seq<Action>, s': State)
    requires Inv(s) && Enabled(s, Start(tree, generation))
    ensures Inv(s') && Run(s, acts, s')
    ensures s'.publisher == Idle && s'.committed == s.committed + [tree]
    ensures var e := 1 - MetaActive(s.meta);
            s'.meta == TreeMeta(generation, |tree|, e) && s'.entries == s.entries[e := Padded(tree)]
    ensures s'.readers == Map(Map(s.readers, OnStart), OnCommit)
  {
    hide Run, Inv, Padded, TreeMeta, MetaTrained, MetaActive, MetaGeneration;
    InvIsShaped(s);
    RunOne(s, Start(tree, generation));
    var s1 := Apply(s, Start(tree, generation));
    RunOne(s1, Write(Indices(MAX_NODES)));
    var s2 := Apply(s1, Write(Indices(MAX_NODES)));
    assert s2.publisher.todo == {};
    PaddedAt(tree);
    assert s2.entries[1 - MetaActive(s.meta)] == Padded(tree);
    RunOne(s2, Commit);
    s' := Apply(s2, Commit);
    RunAppend(s, [Start(tree, generation)], s1, [Write(Indices(MAX_NODES))], s2);
    RunAppend(s, [Start(tree, generation)] + [Write(Indices(MAX_NODES))], s2, [Commit], s');
    acts := [Start(tree, generation)] + [Write(Indices(MAX_NODES))] + [Commit];
  }

  lemma InvIsShaped(s: State)
    requires Inv(s)
    ensures Shaped(s)
  {
  }

  lemma PaddedAt(tree: seq<Node>)
    requires |tree| <= MAX_NODES
    ensures |Padded(tree)| == MAX_NODES
    ensures forall i :: 0 <= i < |tree| ==> Padded(tree)[i] == tree[i]
  {
  }

  /** A split on feature 0 at threshold 0 over two leaves. */
  function Stump(left: U32, right: U32, first: U32, second: U32): (t: seq<Node>)
    ensures |t| == 3
  {
    [Node(0, left, right, 0), Node(0, first, 0, 0), Node(0, second, 0, 0)]
  }

  lemma StumpIsGood(left: U32, right: U32, first: U32, second: U32, f: Feats)
    requires (left, right) in {(1, 2), (2, 1)} && f.prevBurst == 0
    ensures var t := Stump(left, right, first, second);
            && Valid(t) && OneParent(t)
            && StoreWalk(Padded(t), 0, f, MAX_DEPTH) == if left == 1 then first else second
  {
    var t := Stump(left, right, first, second);
    var d: seq<nat> := [0, 1, 1];
    assert Edge(t, 0, 1) && Edge(t, 0, 2);
    assert OneDeeper(t, d, 1) && OneDeeper(t, d, 2);
    assert ShortestDepths(t, d) && ShallowInner(t, d);
    assert Next(t[0], f) == left;
    assert StoreWalk(Padded(t), left, f, MAX_DEPTH - 1) == t[left].left;
  }

  lemma MetaOfZero()
    ensures !MetaTrained(0) && MetaActive(0) == 0 && MetaGeneration(0) == 0
  {
  }

  lemma LoadAndRead(s: State, a: seq<Node>, f: Feats) returns (s': State)
    requires Inv(s) && s.readers == [Loading(f)] && f.prevBurst == 0
    requires s.committed == [a] && a == Stump(1, 2, 10, 20) && MetaActive(s.meta) == 1
    ensures Inv(s') && Run(s, [Load(0), Read(0)], s')
    ensures s' == s.(readers := [Walking(f, 1, 0, 1, MAX_DEPTH - 1, 1, false, false)])
  {
    hide Run, Padded, StoreWalk;
    RunOne(s, Load(0));
    var s1 := Apply(s, Load(0));
    PaddedAt(a);
    RunOne(s1, Read(0));
    s' := Apply(s1, Read(0));
    RunAppend(s, [Load(0)], s1, [Read(0)], s');
    assert [Load(0)] + [Read(0)] == [Load(0), Read(0)];
  }

  lemma Tear(s: State, c: seq<Node>, f: Feats) returns (acts: seq<Action>, s': State)
    requires Inv(s) && s.readers == [Walking(f, 1, 0, 1, MAX_DEPTH - 1, 1, true, false)]
    requires MetaActive(s.meta) == 0 && MetaGeneration(s.meta) == 2 && s.publisher == Idle
    requires c == Stump(2, 1, 77, 30)
    ensures Inv(s') && Run(s, acts, s') && s'.committed == s.committed
    ensures s'.publisher == Writing(c, 3, Indices(MAX_NODES) - {1})
    ensures s'.readers == [Done(f, 77, true, 0, 2, true)]
  {
    hide Run, Inv, Padded, StoreWalk, MetaActive, MetaGeneration;
    InvIsShaped(s);
    RunOne(s, Start(c, 3));
    var s1 := Apply(s, Start(c, 3));
    RunOne(s1, Write({1}));
    var s2 := Apply(s1, Write({1}));
    PaddedAt(c);
    RunOne(s2, Read(0));
    s' := Apply(s2, Read(0));
    RunAppend(s, [Start(c, 3)], s1, [Write({1})], s2);
    RunAppend(s, [Start(c, 3)] + [Write({1})], s2, [Read(0)], s');
    acts := [Start(c, 3)] + [Write({1})] + [Read(0)];
  }

  /**
   * One commit after the load and one started publish are enough to tear a walk: here the third
   * publish has written a single node and the walk returns a value none of the three trees predicts.
   */
  lemma TornWalkWitness(f: Feats) returns (s: State, acts: seq<Action>, s': State)
    requires f.prevBurst == 0
    ensures Init(s) && Run(s, acts, s') && Inv(s')
    ensures |s'.committed| == 2 && s'.publisher.Writing? && s'.publisher.todo == Indices(MAX_NODES) - {1}
    ensures forall t | t in s'.committed + [s'.publisher.tree] ::
              Valid(t) && OneParent(t) && StoreWalk(Padded(t), 0, f, MAX_DEPTH) in {10, 20, 30}
    ensures |s'.readers| == 1 && s'.readers[0].Done? && s'.readers[0].torn && s'.readers[0].names == 0
    ensures s'.readers[0].result == 77
  {
    hide Run, Inv, Padded, TreeMeta, MetaTrained, MetaActive, MetaGeneration, Valid, OneParent, StoreWalk;
    var a, b, c := Stump(1, 2, 10, 20), Stump(1, 2, 20, 10), Stump(2, 1, 77, 30);
    s := State([Padded([]), Padded([])], 0, Idle, [Loading(f)], []);
    InitHolds(s);
    InvIsShaped(s);
    MetaOfZero();
    var p, s1 := PublishRun(s, a, 1);
    MetaRoundTrip(1, 3, 1);
    var s3 := LoadAndRead(s1, a, f);
    RunAppend(s, p, s1, [Load(0), Read(0)], s3);
    var q, s4 := PublishRun(s3, b, 2);
    MetaRoundTrip(2, 3, 0);
    RunAppend(s, p + [Load(0), Read(0)], s3, q, s4);
    InvIsShaped(s4);
    var w;
    w, s' := Tear(s4, c, f);
    acts := p + [Load(0), Read(0)] + q + w;
    RunAppend(s, p + [Load(0), Read(0)] + q, s4, w, s');
    StumpIsGood(1, 2, 10, 20, f);
    StumpIsGood(1, 2, 20, 10, f);
    StumpIsGood(2, 1, 77, 30, f);
  }
}

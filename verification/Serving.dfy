/** The daemon deciding and publishing while readers walk: the gate and the publisher as one machine. */
module Serving {
  import opened Word
  import opened Wrappers
  import opened TreeLayout
  import opened TreeWalk
  import opened Training
  import Publish
  import Ratchet

  /** `current` is the fit being published: the daemon's thread decides and publishes one fit at a time. */
  datatype State = State(generation: U64, corr: real, pub: Publish.State, current: Option<TrainResult>)

  /** The daemon considers a fit; the publisher writes nodes or commits; a reader loads or reads. */
  datatype Action =
    | Consider(res: TrainResult)
    | Act(step: Publish.Action)

  function ModelOf(s: State): Ratchet.Model {
    Ratchet.Model(s.generation, s.corr, s.pub.meta, s.pub.entries)
  }

  ghost predicate Init(s: State) {
    s.generation == 0 && s.corr == 0.0 && Publish.Init(s.pub) && s.current == None
  }

  ghost predicate Enabled(s: State, a: Action) {
    && Publish.Shaped(s.pub)
    && (s.pub.publisher.Writing? ==> |s.pub.publisher.tree| <= MAX_NODES)
    && match a
       case Consider(res) => s.current == None && s.pub.publisher.Idle? && Ratchet.Scored(res)
       case Act(b) => !b.Start? && Publish.Enabled(s.pub, b) && (b.Commit? ==> s.current.Some?)
  }

  function NextGeneration(s: State): U64 {
    Add64(s.generation, 1)
  }

  /** The fit passes the gate and the publisher takes its generation. */
  ghost predicate Starts(s: State, res: TrainResult) {
    Ratchet.Eligible(ModelOf(s), res) && Ratchet.Monotonic(NextGeneration(s), s.pub.meta)
  }

  ghost function Apply(s: State, a: Action): State
    requires Enabled(s, a)
  {
    match a
    case Consider(res) =>
      if Starts(s, res) then
        Ratchet.EligibleSize(ModelOf(s), res);
        s.(pub := Publish.Apply(s.pub, Publish.Start(res.tree, NextGeneration(s))), current := Some(res))
      else s
    case Act(b) =>
      if b.Commit? then
        State(s.pub.publisher.generation, s.current.value.corr, Publish.Apply(s.pub, b), None)
      else s.(pub := Publish.Apply(s.pub, b))
  }

  // ---- A publish of the daemon is a run of the publisher ----

  /**
   * The generation check of `PublishTree` is exactly the guard of the publisher's start, and what it
   * leaves in the meta and the store is what writing all nodes and committing leaves there.
   */
  lemma PublishTreeIsRun(s: Publish.State, tree: seq<Node>, generation: U64)
    returns (acts: seq<Publish.Action>, s': Publish.State)
    requires Publish.Inv(s) && s.publisher == Publish.Idle && |tree| <= MAX_NODES
    ensures Publish.Shaped(s)
    ensures Publish.Enabled(s, Publish.Start(tree, generation)) <==> Ratchet.Monotonic(generation, s.meta)
    ensures Publish.Run(s, acts, s') && Publish.Inv(s') && s'.publisher == Publish.Idle
    ensures !Ratchet.Monotonic(generation, s.meta) ==> s' == s
    ensures Ratchet.Monotonic(generation, s.meta) ==>
              var e := 1 - Publish.MetaActive(s.meta);
              && s'.meta == Publish.TreeMeta(generation, |tree|, e) && s'.entries == s.entries[e := Padded(tree)]
              && s'.committed == s.committed + [tree]
  {
    hide Publish.Run, Publish.Inv, Padded, Publish.TreeMeta, Publish.MetaActive, Publish.MetaGeneration;
    Publish.InvIsShaped(s);
    if Ratchet.Monotonic(generation, s.meta) {
      acts, s' := Publish.PublishRun(s, tree, generation);
    } else {
      acts, s' := [], s;
      Publish.RunNone(s);
    }
  }

  // ---- The atomic daemon behind it ----

  function Trees(fits: seq<TrainResult>): (r: seq<seq<Node>>)
    ensures |r| == |fits| && forall i :: 0 <= i < |fits| ==> r[i] == fits[i].tree
  {
    seq(|fits|, i requires 0 <= i < |fits| => fits[i].tree)
  }

  /** While a fit is being published only the inactive entry differs from the model m before it. */
  ghost predicate Pending(s: State, m: Ratchet.Model, res: TrainResult) {
    && Ratchet.Eligible(m, res) && Ratchet.Scored(res)
    && s.pub.publisher.Writing? && s.pub.publisher.tree == res.tree && s.generation < U64_SIZE - 1
    && s.pub.publisher.generation == s.generation + 1
    && |m.store| == 2 && |s.pub.entries| == 2
    && s.pub.entries[Publish.MetaActive(m.meta)] == m.store[Publish.MetaActive(m.meta)]
  }

  /** State s stands for the daemon model m after the fits in `commits`. */
  ghost predicate StandsFor(s: State, m: Ratchet.Model, commits: seq<TrainResult>) {
    && s.generation == m.generation && s.corr == m.corr && s.pub.meta == m.meta
    && s.pub.committed == Trees(commits)
    && (forall res :: res in commits ==> Ratchet.Scored(res))
    && match s.current
       case None => s.pub.publisher.Idle? && s.pub.entries == m.store
       case Some(res) => Pending(s, m, res)
  }

  ghost predicate Inv(s: State, m: Ratchet.Model, commits: seq<TrainResult>) {
    Publish.Inv(s.pub) && Ratchet.Inv(m, commits) && StandsFor(s, m, commits)
  }

  /** The fit a step settles: one refused at once, or one whose publish commits. */
  ghost function Settles(s: State, a: Action): seq<TrainResult>
    requires Enabled(s, a)
  {
    match a
    case Consider(res) => if Starts(s, res) then [] else [res]
    case Act(b) => if b.Commit? then [s.current.value] else []
  }

  lemma IdleModel(s: State, m: Ratchet.Model, commits: seq<TrainResult>)
    requires StandsFor(s, m, commits) && s.current == None
    ensures ModelOf(s) == m && s.pub.publisher == Publish.Idle
  {
  }

  /** An eligible fit is never refused for its generation. */
  lemma StartsIffEligible(s: State, m: Ratchet.Model, commits: seq<TrainResult>, res: TrainResult)
    requires Inv(s, m, commits) && s.current == None && Ratchet.Scored(res)
    ensures Ratchet.WellFormed(m) && NextGeneration(s) == m.generation + 1
    ensures Starts(s, res) <==> Ratchet.Eligible(m, res)
  {
    hide Ratchet.Inv, Ratchet.Eligible, Ratchet.Scored, Publish.Inv, Ratchet.Applied;
    IdleModel(s, m, commits);
    Ratchet.InvWellFormed(m, commits);
    if Ratchet.Eligible(m, res) {
      Ratchet.Commits(m, commits, res);
    }
  }

  lemma StartedPending(s: State, m: Ratchet.Model, commits: seq<TrainResult>, res: TrainResult)
    requires Inv(s, m, commits) && Enabled(s, Consider(res)) && Starts(s, res)
    ensures Inv(Apply(s, Consider(res)), m, commits)
  {
    hide Ratchet.Inv, Ratchet.Eligible, Ratchet.Scored, Publish.Inv, Ratchet.Applied, Publish.OnStart, Starts,
      Publish.MetaActive;
    IdleModel(s, m, commits);
    StartsIffEligible(s, m, commits, res);
    Ratchet.EligibleSize(m, res);
    Ratchet.Commits(m, commits, res);
    Publish.StepKeeps(s.pub, Publish.Start(res.tree, NextGeneration(s)));
    WellFormedStore(m);
  }

  lemma WellFormedStore(m: Ratchet.Model)
    requires Ratchet.WellFormed(m)
    ensures |m.store| == 2
  {
  }

  /** A committed fit leaves the atomic daemon's model, entry for entry. */
  lemma CommitApplies(s: State, m: Ratchet.Model, commits: seq<TrainResult>)
    requires Inv(s, m, commits) && Enabled(s, Act(Publish.Commit))
    ensures Ratchet.WellFormed(m) && s.current.Some?
    ensures Ratchet.Eligible(m, s.current.value) && Ratchet.Scored(s.current.value)
    ensures Inv(Apply(s, Act(Publish.Commit)), Ratchet.Applied(m, s.current.value), commits + [s.current.value])
  {
    hide Ratchet.Inv, Ratchet.Eligible, Ratchet.Scored, Publish.Inv, Publish.MetaActive, Publish.TreeMeta, Padded;
    var res := s.current.value;
    Ratchet.InvWellFormed(m, commits);
    Ratchet.Commits(m, commits, res);
    Publish.StepKeeps(s.pub, Publish.Commit);
    Publish.WrittenInFull(s.pub);
    var e := 1 - Publish.MetaActive(m.meta);
    assert s.pub.entries == m.store[e := Padded(res.tree)];
    assert Trees(commits + [res]) == Trees(commits) + [res.tree];
  }

  /** Writes go to the inactive entry; readers change nothing the daemon knows of. */
  lemma ActKeeps(s: State, m: Ratchet.Model, commits: seq<TrainResult>, b: Publish.Action)
    requires Inv(s, m, commits) && Enabled(s, Act(b)) && !b.Commit?
    ensures Inv(Apply(s, Act(b)), m, commits)
  {
    hide Ratchet.Inv, Ratchet.Eligible, Ratchet.Scored, Publish.Inv, Publish.MetaActive, Publish.Stored,
      Publish.OnLoad, Publish.OnRead;
    Publish.StepKeeps(s.pub, b);
  }

  lemma OneFit(m: Ratchet.Model, res: TrainResult)
    requires Ratchet.WellFormed(m)
    ensures Ratchet.CommittedFits(m, [res]) == if Ratchet.Eligible(m, res) then [res] else []
    ensures Ratchet.After(m, [res]) == Some(Ratchet.Applied(m, res))
  {
    assert Ratchet.CommittedFits(Ratchet.Applied(m, res), []) == [];
    assert [res][1..] == [];
  }

  /** The fit whose publish is under way. */
  function Waiting(s: State): seq<TrainResult> {
    if s.current.Some? then [s.current.value] else []
  }

  /** The fits the daemon took up, in order. */
  function Considered(acts: seq<Action>): seq<TrainResult> {
    if acts == [] then []
    else (if acts[0].Consider? then [acts[0].res] else []) + Considered(acts[1..])
  }

  /**
   * Every step keeps the atomic daemon behind the machine: settling a fit is the daemon's step on that
   * fit, and all other steps leave its model and its commits as they are.
   */
  lemma StepKeeps(s: State, m: Ratchet.Model, commits: seq<TrainResult>, a: Action)
    requires Inv(s, m, commits) && Enabled(s, a)
    ensures Ratchet.After(m, Settles(s, a)).Some?
    ensures Inv(Apply(s, a), Ratchet.After(m, Settles(s, a)).value, commits + Ratchet.CommittedFits(m, Settles(s, a)))
    ensures Waiting(s) + Considered([a]) == Settles(s, a) + Waiting(Apply(s, a))
  {
    hide Ratchet.Inv, Ratchet.Eligible, Ratchet.Scored, Ratchet.Applied, Ratchet.After, Ratchet.CommittedFits, Starts,
      Publish.Inv, Publish.Apply, Publish.Enabled, Pending;
    Nothing(m);
    assert [a][1..] == [];
    assert commits + [] == commits;
    match a
    case Consider(res) =>
      StartsIffEligible(s, m, commits, res);
      OneFit(m, res);
      if Starts(s, res) {
        StartedPending(s, m, commits, res);
      } else {
        Ratchet.Rejected(m, res);
      }
    case Act(b) =>
      if b.Commit? {
        CommitApplies(s, m, commits);
        OneFit(m, s.current.value);
      } else {
        ActKeeps(s, m, commits, b);
      }
  }

  lemma Nothing(m: Ratchet.Model)
    ensures Ratchet.After(m, []) == Some(m) && Ratchet.CommittedFits(m, []) == []
  {
  }

  // ---- Runs ----

  ghost predicate Run(s: State, acts: seq<Action>, s': State)
    decreases |acts|
  {
    if acts == [] then s == s'
    else Enabled(s, acts[0]) && Run(Apply(s, acts[0]), acts[1..], s')
  }

  /** The fits settled along the run, in order. */
  ghost function Settled(s: State, acts: seq<Action>): seq<TrainResult>
    decreases |acts|
  {
    if acts == [] || !Enabled(s, acts[0]) then []
    else Settles(s, acts[0]) + Settled(Apply(s, acts[0]), acts[1..])
  }

  lemma {:induction false} CommitsAmong(m: Ratchet.Model, fits: seq<TrainResult>)
    ensures forall res :: res in Ratchet.CommittedFits(m, fits) ==> res in fits
    decreases |fits|
  {
    hide Ratchet.Applied, Ratchet.Eligible;
    if fits != [] && Ratchet.WellFormed(m) {
      CommitsAmong(Ratchet.Applied(m, fits[0]), fits[1..]);
      assert fits == [fits[0]] + fits[1..];
    }
  }

  lemma Unfold(m: Ratchet.Model, fits: seq<TrainResult>)
    requires fits != [] && Ratchet.After(m, fits).Some?
    ensures Ratchet.WellFormed(m)
    ensures Ratchet.After(m, fits) == Ratchet.After(Ratchet.Applied(m, fits[0]), fits[1..])
    ensures Ratchet.CommittedFits(m, fits)
         == (if Ratchet.Eligible(m, fits[0]) then [fits[0]] else [])
            + Ratchet.CommittedFits(Ratchet.Applied(m, fits[0]), fits[1..])
  {
    hide Ratchet.Applied, Ratchet.Eligible, Ratchet.WellFormed;
  }

  lemma {:induction false} AfterAppend(m: Ratchet.Model, first: seq<TrainResult>, rest: seq<TrainResult>)
    requires Ratchet.After(m, first).Some? && Ratchet.After(Ratchet.After(m, first).value, rest).Some?
    ensures Ratchet.After(m, first + rest) == Ratchet.After(Ratchet.After(m, first).value, rest)
    ensures Ratchet.CommittedFits(m, first + rest)
         == Ratchet.CommittedFits(m, first) + Ratchet.CommittedFits(Ratchet.After(m, first).value, rest)
    decreases |first|
  {
    hide Ratchet.CommittedFits, Ratchet.Applied, Ratchet.Eligible, Ratchet.WellFormed;
    if first == [] {
      Nothing(m);
      assert first + rest == rest;
    } else {
      Unfold(m, first);
      AfterAppend(Ratchet.Applied(m, first[0]), first[1..], rest);
      assert (first + rest)[0] == first[0] && (first + rest)[1..] == first[1..] + rest;
      Unfold(m, first + rest);
    }
  }

  lemma {:induction false} RunKeeps(s: State, m: Ratchet.Model, commits: seq<TrainResult>, acts: seq<Action>,
                                    s': State)
    requires Inv(s, m, commits) && Run(s, acts, s')
    ensures Ratchet.After(m, Settled(s, acts)).Some?
    ensures Inv(s', Ratchet.After(m, Settled(s, acts)).value, commits + Ratchet.CommittedFits(m, Settled(s, acts)))
    ensures Waiting(s) + Considered(acts) == Settled(s, acts) + Waiting(s')
    decreases |acts|
  {
    hide Inv, Enabled, Apply, Settles, Waiting, Ratchet.After, Ratchet.CommittedFits;
    if acts == [] {
      Nothing(m);
      assert commits + [] == commits;
    } else {
      var s1, done := Apply(s, acts[0]), Settles(s, acts[0]);
      StepKeeps(s, m, commits, acts[0]);
      var m1 := Ratchet.After(m, done).value;
      RunKeeps(s1, m1, commits + Ratchet.CommittedFits(m, done), acts[1..], s');
      var rest := Settled(s1, acts[1..]);
      AfterAppend(m, done, rest);
      assert commits + (Ratchet.CommittedFits(m, done) + Ratchet.CommittedFits(m1, rest))
          == commits + Ratchet.CommittedFits(m, done) + Ratchet.CommittedFits(m1, rest);
      ConsideredSplits(acts);
      Regroup(Waiting(s), Considered([acts[0]]), Considered(acts[1..]), done, Waiting(s1), rest, Waiting(s'));
    }
  }

  lemma Regroup<T>(a: seq<T>, b: seq<T>, c: seq<T>, d: seq<T>, e: seq<T>, f: seq<T>, g: seq<T>)
    requires a + b == d + e && e + c == f + g
    ensures a + (b + c) == d + f + g
  {
    assert a + (b + c) == a + b + c;
    assert d + e + c == d + (e + c);
    assert d + (f + g) == d + f + g;
  }

  lemma ConsideredSplits(acts: seq<Action>)
    requires acts != []
    ensures Considered(acts) == Considered([acts[0]]) + Considered(acts[1..])
  {
    assert [acts[0]][1..] == [];
  }

  lemma InitHolds(s: State)
    requires Init(s)
    ensures Inv(s, Ratchet.Untrained(), [])
  {
    Publish.InitHolds(s.pub);
    Ratchet.UntrainedHolds();
  }

  /**
   * Publishing node by node under any number of readers refines the daemon that publishes at once: the
   * fits it took up, but for the one under way, were applied in order; the publisher's trees are the
   * trees of its commits; and with no fit under way the whole store is the daemon's.
   */
  lemma RunRefinesDaemon(s: State, acts: seq<Action>, s': State)
    returns (m: Ratchet.Model, fits: seq<TrainResult>, commits: seq<TrainResult>)
    requires Init(s) && Run(s, acts, s')
    ensures Considered(acts) == fits + Waiting(s')
    ensures Ratchet.After(Ratchet.Untrained(), fits) == Some(m) && Ratchet.Ratcheted(m, commits)
    ensures commits == Ratchet.CommittedFits(Ratchet.Untrained(), fits)
    ensures s'.pub.committed == Trees(commits) && (forall res :: res in commits ==> Ratchet.Scored(res))
    ensures s'.generation == m.generation && s'.corr == m.corr && s'.pub.meta == m.meta
    ensures Publish.Inv(s'.pub)
    ensures s'.current == None ==> s'.pub.publisher == Publish.Idle && s'.pub.entries == m.store
    ensures s'.current.Some? ==>
              var e := Publish.MetaActive(m.meta);
              |m.store| == |s'.pub.entries| == 2 && s'.pub.entries[e] == m.store[e]
  {
    hide Init, Ratchet.After, Ratchet.CommittedFits, Ratchet.Scored, Ratchet.Ratcheted, Ratchet.Inv, Publish.Inv,
      Ratchet.Eligible, Publish.MetaActive;
    InitHolds(s);
    assert s.current == None by { NoFitAtFirst(s); }
    RunKeeps(s, Ratchet.Untrained(), [], acts, s');
    fits := Settled(s, acts);
    m := Ratchet.After(Ratchet.Untrained(), fits).value;
    commits := Ratchet.CommittedFits(Ratchet.Untrained(), fits);
    assert [] + commits == commits;
    Ratchet.InvSays(m, commits);
  }

  lemma NoFitAtFirst(s: State)
    requires Init(s)
    ensures s.current == None
  {
  }
}

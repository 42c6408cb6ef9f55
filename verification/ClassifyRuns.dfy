/** Classification over whole traces of enqueues: when a queue number rises, boosts and aging. */
module ClassifyRuns {
  import opened Word
  import opened Samples
  import opened Classify
  import Ema

  // ---- One enqueue ----

  /** Aging periods the wrapping order can measure; longer ones read as already over. */
  predicate MeasurablePeriod(c: Config) {
    c.agingPeriod < U63_SIZE
  }

  lemma Rearmed(now: U64, period: U64)
    requires period > 0
    ensures TimeBefore(now, Add64(now, period)) <==> period < U63_SIZE
  {
  }

  /** Exactly when an enqueue that re-arms the stay ages the task at once. */
  lemma RearmedAges(t: Task, oldQueue: U8, env: Env, c: Config)
    requires ValidConfig(c) && (env.kind != Neutral || t.queue != oldQueue)
    ensures Ages(Stayed(t, oldQueue, env), env, c) <==>
            t.queue >= 2 && !env.schedIdle && env.now != 0 && !MeasurablePeriod(c)
  {
    hide TimeBefore, Add64;
    Rearmed(env.now, c.agingPeriod);
  }

  /** So with a measurable period only an enqueue that keeps the stay ages. */
  lemma AgesOnlyNeutral(t: Task, oldQueue: U8, env: Env, c: Config)
    requires ValidConfig(c) && MeasurablePeriod(c) && Ages(Stayed(t, oldQueue, env), env, c)
    ensures env.kind == Neutral && t.queue == oldQueue
  {
    hide TimeBefore, Add64;
    if env.kind != Neutral || t.queue != oldQueue {
      RearmedAges(t, oldQueue, env, c);
    }
  }

  /** The boost is granted at this enqueue. */
  predicate Granted(t: Task, env: Env, c: Config) {
    env.kind == Wakeup && Grants(t, SleepNs(t, env.now), env, c)
  }

  /** What a wakeup leaves untouched, and what decides its boost and seed. */
  lemma WakeupParts(t: Task, env: Env, c: Config)
    requires ValidConfig(c) && !env.schedIdle && 1 <= t.queue <= 3
    ensures var t', s := WakeupClassified(t, env, c), SleepNs(t, env.now);
            && 1 <= t'.queue <= 3 && t'.queuedAt == t.queuedAt && t'.reenqCnt == 0
            && t'.lastBoostAt == (if Grants(t, s, env, c) then env.now else t.lastBoostAt)
            && (Grants(t, s, env, c) ==> t'.queue == 1)
            && (WakeupSeed(t, s, env, c) ==> t'.queue == 3)
            && (t'.queue > t.queue ==> WakeupSeed(t, s, env, c))
  {
    hide Capture, TimeBefore, Add64, Sub64, ClampPrediction, Decayed, SleepNs;
    var s := SleepNs(t, env.now);
    var t1 := Awake(t, env, c);
    var t2 := Captured(t1, s, env.ioWait, env.schedIdle);
    var pred := WakeupPrediction(t1, s, env, c);
    assert Grants(t2, s, env, c) == Grants(t, s, env, c);
  }

  /** A granted I/O or short-sleep boost always ends in Q1, whatever the tree or the gauges say. */
  lemma GrantEndsInQ1(t: Task, env: Env, c: Config)
    requires ValidConfig(c) && 1 <= t.queue <= 3 && Granted(t, env, c)
    ensures Enqueued(t, env, c).queue == 1 && Enqueued(t, env, c).lastBoostAt == env.now
  {
    hide WakeupClassified, BoostPending, SleepNs, TimeBefore, Add64;
    WakeupParts(t, env, c);
  }

  /** What the tree is asked about a task, and what its training sample will hold. */
  function Vector(o: Observed, ema: U64, sleepNs: U64, ioWait: bool, wakeCnt: U8): Feats {
    Feats(o.prevBurst, sleepNs, ema, if ioWait then 1 else 0, wakeCnt, o.wakeLatNs / 1000, o.queueWaitNs / 1000,
          o.sqEma, o.sleepVarRatio, o.gpuSubmit)
  }

  lemma VectorIsCapture(t: Task, sleepNs: U64, ioWait: bool)
    ensures Capture(t, sleepNs, ioWait) == Vector(t.seen, t.seen.ema, sleepNs, ioWait, t.wakeCnt)
  {
  }

  /** The task burns CPU: by the committed tree's prediction, or by its gauge where there is none. */
  predicate Hog(t: Task, env: Env) {
    var pred := env.predict(Vector(t.seen, t.seen.ema, 0, false, t.wakeCnt));
    (pred > 0 && pred >= env.bands.tBnd) || (pred == 0 && t.seen.ema > env.bands.tH)
  }

  lemma HogIsCpuBound(t: Task, env: Env)
    requires !env.schedIdle
    ensures CpuBound(t, env) <==> Hog(t, env)
  {
    VectorIsCapture(t, 0, false);
  }

  /** The queue of a run-out before aging: the seed, or one band down, or the old one. */
  function RunoutBand(t: Task, env: Env): U8
    requires t.queue <= 3
  {
    if t.seen.gpuSubmit == 0 && t.seen.prevBurst > env.bands.tH then 3
    else if t.queue < 3 && !env.demotionBlocked && Hog(t, env) && 7 <= t.reenqCnt < 255 then t.queue + 1
    else t.queue
  }

  /** A stay that begins now is over at once. */
  predicate OverAtOnce(queue: U8, env: Env, c: Config) {
    queue >= 2 && env.now != 0 && !MeasurablePeriod(c)
  }

  /** Exactly what a run-out does to queue and counter. */
  lemma RunoutQueue(t: Task, env: Env, c: Config)
    requires ValidConfig(c) && !env.schedIdle && 1 <= t.queue <= 3 && env.kind == Runout
    ensures var q, t' := RunoutBand(t, env), Enqueued(t, env, c);
            && t'.queue == (if OverAtOnce(q, env, c) then 1 else q)
            && t'.reenqCnt == (if q != t.queue || OverAtOnce(q, env, c) then 0
                               else if env.demotionBlocked then t.reenqCnt else Inc8(t.reenqCnt))
            && t'.lastBoostAt == t.lastBoostAt && t'.seen == t.seen && t'.wakeCnt == 0
            && t'.pending == Pending(true, Vector(t.seen, t.seen.ema, 0, false, t.wakeCnt), t.queue)
  {
    hide CpuBound, Capture, TimeBefore, Add64, Hog, Vector;
    HogIsCpuBound(t, env);
    VectorIsCapture(t, 0, false);
    var t1 := RunoutClassified(t, env);
    SeedFrame(t, env);
    RearmedAges(t1, t.queue, env, c);
  }

  /**
   * The demotion test: at an unblocked run-out that is no seed, with the count at eight, a Q1 or Q2 task
   * goes down one band if and only if the tree predicts a burst of at least the Q3 edge for it, or
   * predicts nothing and its gauge is above the upper edge.
   */
  lemma DemotedIff(t: Task, env: Env, c: Config)
    requires ValidConfig(c) && MeasurablePeriod(c) && env.kind == Runout && !env.schedIdle && !env.demotionBlocked
    requires 1 <= t.queue <= 2 && 7 <= t.reenqCnt < 255
    requires !(t.seen.gpuSubmit == 0 && t.seen.prevBurst > env.bands.tH)
    ensures var o := t.seen;
            var pred := env.predict(Feats(o.prevBurst, 0, o.ema, 0, t.wakeCnt, o.wakeLatNs / 1000,
                                          o.queueWaitNs / 1000, o.sqEma, o.sleepVarRatio, o.gpuSubmit));
            && (Enqueued(t, env, c).queue == t.queue + 1 <==>
                  (pred > 0 && pred >= env.bands.tBnd) || (pred == 0 && o.ema > env.bands.tH))
            && (Enqueued(t, env, c).queue != t.queue + 1 ==> Enqueued(t, env, c).queue == t.queue)
  {
    hide Enqueued;
    RunoutQueue(t, env, c);
  }

  /** With a period the order cannot measure, every wakeup and run-out ends in Q1. */
  lemma UnmeasurablePeriodPinsToQ1(t: Task, env: Env, c: Config)
    requires ValidConfig(c) && !MeasurablePeriod(c) && !env.schedIdle && 1 <= t.queue <= 3
    requires env.kind != Neutral && env.now != 0
    ensures Enqueued(t, env, c).queue == 1
  {
    hide TimeBefore, Add64, WakeupClassified, RunoutClassified, SleepNs;
    var t1 := Classified(t, env, c);
    if env.kind == Wakeup {
      WakeupParts(t, env, c);
    } else {
      RunoutRange(t, env);
    }
    RearmedAges(t1, t.queue, env, c);
  }

  lemma RunoutRange(t: Task, env: Env)
    requires 1 <= t.queue <= 3
    ensures 1 <= RunoutClassified(t, env).queue <= 3
  {
    hide CpuBound, Capture, RunoutSeed;
  }

  lemma SeedFrame(t: Task, env: Env)
    ensures RunoutSeed(Captured(t, 0, false, env.schedIdle).(wakeCnt := 0), env) == RunoutSeed(t, env)
  {
  }

  /**
   * A queue number rises only through a Q3 seed or by exactly one at a CPU-bound run-out whose
   * consecutive-exhaustion count reaches eight.
   */
  lemma RiseCauses(t: Task, env: Env, c: Config)
    requires ValidConfig(c) && !env.schedIdle && 1 <= t.queue <= 3
    requires Enqueued(t, env, c).queue > t.queue
    ensures
      || (env.kind == Wakeup && WakeupSeed(t, SleepNs(t, env.now), env, c) && Enqueued(t, env, c).queue == 3)
      || (env.kind == Runout && RunoutSeed(t, env) && Enqueued(t, env, c).queue == 3)
      || (env.kind == Runout && Enqueued(t, env, c).queue == t.queue + 1 && t.reenqCnt + 1 >= 8 && Hog(t, env)
          && !env.demotionBlocked)
  {
    hide Hog, Vector, TimeBefore, Add64, WakeupSeed, WakeupClassified, RunoutClassified, SleepNs;
    match env.kind
    case Wakeup => WakeupParts(t, env, c);
    case Runout => RunoutQueue(t, env, c);
    case Neutral =>
  }

  /** The wakeup path is not promotion-only: with the seed's condition met a Q1 task wakes into Q3. */
  lemma WakeupSeedRaises(t: Task, env: Env, c: Config)
    requires ValidConfig(c) && !env.schedIdle && 1 <= t.queue <= 3 && env.kind == Wakeup
    ensures WakeupSeed(t, SleepNs(t, env.now), env, c) ==>
              Enqueued(t, env, c).queue == if OverAtOnce(3, env, c) then 1 else 3
    ensures !WakeupSeed(t, SleepNs(t, env.now), env, c) ==> Enqueued(t, env, c).queue <= t.queue
  {
    hide Capture, TimeBefore, Add64, WakeupSeed, WakeupClassified, SleepNs;
    WakeupParts(t, env, c);
    RearmedAges(WakeupClassified(t, env, c), t.queue, env, c);
  }

  /** What a wakeup goes by: the sleep, the gauge after it, and the prediction it is mapped by. */
  datatype Basis = Basis(sleep: U64, ema: U64, pred: U64)

  /** A prediction of the Q3 band that only recent GPU work explains counts as just below the band. */
  ghost predicate IsBasis(t: Task, env: Env, c: Config, w: Basis)
    requires ValidConfig(c)
  {
    && w.sleep == (if t.seen.lastSleepAt != 0 && TimeBefore(t.seen.lastSleepAt, env.now)
                   then Sub64(env.now, t.seen.lastSleepAt) else 0)
    && w.ema == (if w.sleep == 0 then t.seen.ema else Ema.EmaDecayWord(t.seen.ema, w.sleep, c.halfLife))
    && var raw := env.predict(Vector(t.seen, w.ema, w.sleep, env.ioWait, t.wakeCnt));
       w.pred == if raw >= env.bands.tBnd && t.seen.gpuSubmit > 0 && w.sleep <= c.shortSleep
                    && t.seen.prevBurst <= env.bands.tH
                 then Sub64(env.bands.tBnd, 1) else raw
  }

  predicate Boosts(t: Task, env: Env, c: Config, w: Basis) {
    && (env.ioWait || 0 < w.sleep <= c.shortSleep)
    && (t.lastBoostAt == 0 || TimeBefore(Add64(t.lastBoostAt, c.rateLimit), env.now))
  }

  /** The queue by boost and prediction. */
  function Mapped(t: Task, env: Env, c: Config, w: Basis): int {
    if Boosts(t, env, c, w) || 0 < w.pred < env.bands.tInt then 1
    else if 0 < w.pred < env.bands.tBnd then Min(2, t.queue)
    else t.queue
  }

  /** Another short sleep in a row on a gauge below half the edge. */
  predicate Lifts(t: Task, env: Env, c: Config, w: Basis) {
    && w.sleep <= c.hysteresisSleep && 1 <= t.wakeCnt < 255
    && ((Mapped(t, env, c, w) == 2 && w.ema < env.bands.tL / 2)
        || (Mapped(t, env, c, w) == 3 && w.ema < env.bands.tH / 2))
  }

  function WakeupBand(t: Task, env: Env, c: Config, w: Basis): int {
    var b := env.bands;
    var lifted := Mapped(t, env, c, w) - if Lifts(t, env, c, w) then 1 else 0;
    if !env.ioWait && t.seen.gpuSubmit == 0 && t.seen.prevBurst > b.tH && w.sleep > c.shortSleep then 3
    else if w.pred == 0 && w.sleep > c.longSleep then
      Min(lifted, if w.ema <= b.tL then 1 else if w.ema >= b.tH then 3 else 2)
    else lifted
  }

  lemma WakeupClassifiedIs(t: Task, env: Env, c: Config, w: Basis)
    requires ValidConfig(c) && !env.schedIdle && 1 <= t.queue <= 3 && IsBasis(t, env, c, w)
    ensures 1 <= WakeupBand(t, env, c, w) <= 3
    ensures var t', o := WakeupClassified(t, env, c), t.seen;
            && t'.queue == WakeupBand(t, env, c, w) && t'.queuedAt == t.queuedAt
            && t'.lastBoostAt == (if Boosts(t, env, c, w) then env.now else t.lastBoostAt)
            && t'.wakeCnt == (if Lifts(t, env, c, w) || w.sleep > c.hysteresisSleep then 0 else Inc8(t.wakeCnt))
            && t'.reenqCnt == 0 && t'.seen == o.(ema := w.ema, lastSleepAt := 0)
            && t'.pending == Pending(true, Vector(o, w.ema, w.sleep, env.ioWait, t.wakeCnt), t.queue)
  {
    hide TimeBefore, Add64, Sub64, Ema.EmaDecayWord, Capture;
    var t1 := Awake(t, env, c);
    VectorIsCapture(t1, w.sleep, env.ioWait);
    assert SleepNs(t, env.now) == w.sleep && t1.seen.ema == w.ema;
  }

  /**
   * Exactly what a wakeup does: the seed comes last and wins, else a boost that is due gives Q1, else the
   * queue never rises: the prediction maps it, two short sleeps on a low gauge lift it by one, and
   * without a tree a long sleep falls back to the band of the gauge.
   */
  lemma WakeupQueue(t: Task, env: Env, c: Config, w: Basis)
    requires ValidConfig(c) && !env.schedIdle && 1 <= t.queue <= 3 && env.kind == Wakeup && IsBasis(t, env, c, w)
    ensures 1 <= WakeupBand(t, env, c, w) <= 3
    ensures var q, o, t' := WakeupBand(t, env, c, w), t.seen, Enqueued(t, env, c);
            && t'.queue == (if OverAtOnce(q, env, c) then 1 else q)
            && t'.lastBoostAt == (if Boosts(t, env, c, w) then env.now else t.lastBoostAt)
            && t'.wakeCnt == (if Lifts(t, env, c, w) || w.sleep > c.hysteresisSleep then 0 else Inc8(t.wakeCnt))
            && t'.reenqCnt == 0 && t'.seen == o.(ema := w.ema, lastSleepAt := 0)
            && t'.pending == Pending(true, Vector(o, w.ema, w.sleep, env.ioWait, t.wakeCnt), t.queue)
  {
    hide TimeBefore, Add64, WakeupClassified, IsBasis, Boosts, Lifts, WakeupBand, Vector;
    WakeupClassifiedIs(t, env, c, w);
    RearmedAges(WakeupClassified(t, env, c), t.queue, env, c);
  }

  /** The hysteresis condition after this wakeup: at least two short sleeps in a row. */
  predicate TwoShortSleeps(t: Task, sleepNs: U64, c: Config) {
    sleepNs <= c.hysteresisSleep && Inc8(t.wakeCnt) >= 2
  }

  /**
   * Without a seed a wakeup lowers the queue number for a granted boost, a trained prediction below
   * the Q3 band, two short sleeps on a low gauge, or an untrained long sleep, and for nothing else.
   */
  lemma WakeupPromotes(t: Task, env: Env, c: Config)
    requires ValidConfig(c) && !env.schedIdle && 1 <= t.queue <= 3
    requires !WakeupSeed(t, SleepNs(t, env.now), env, c)
    ensures var s, b := SleepNs(t, env.now), env.bands;
            var ema, q := Decayed(t.seen.ema, s, c), WakeupClassified(t, env, c).queue;
            var pred := WakeupPrediction(Awake(t, env, c), s, env, c);
            && (0 < pred < b.tInt ==> q == 1) && (0 < pred < b.tBnd ==> q <= 2)
            && (t.queue == 2 && ema < b.tL / 2 && TwoShortSleeps(t, s, c) ==> q == 1)
            && (t.queue == 3 && ema < b.tH / 2 && TwoShortSleeps(t, s, c) ==> q <= 2)
            && (pred == 0 && s > c.longSleep ==> q <= BaseQueue(ema, b.tL, b.tH))
            && (q < t.queue ==>
                  || Grants(t, s, env, c) || 0 < pred < b.tInt || 0 < pred < b.tBnd
                  || (ema < (if t.queue == 2 then b.tL else b.tH) / 2 && TwoShortSleeps(t, s, c))
                  || (pred == 0 && s > c.longSleep && BaseQueue(ema, b.tL, b.tH) < t.queue))
  {
    hide Capture, TimeBefore, Add64, Sub64, ClampPrediction, Decayed, SleepNs, BoostPending;
    var s := SleepNs(t, env.now);
    var t1 := Awake(t, env, c);
    var t2 := Captured(t1, s, env.ioWait, env.schedIdle);
    BoostFrame(t, t2.(queue := MapQueue(WakeupPrediction(t1, s, env, c), t2.queue, env.bands.tInt, env.bands.tBnd)),
               s, env, c);
  }

  lemma BoostFrame(t: Task, t': Task, sleepNs: U64, env: Env, c: Config)
    requires t'.lastBoostAt == t.lastBoostAt
    ensures Grants(t', sleepNs, env, c) == Grants(t, sleepNs, env, c)
  {
  }

  /** A SCHED_IDLE task ends every enqueue in Q3, without a boost, an aging or a training sample. */
  lemma IdleIsPinned(t: Task, env: Env, c: Config)
    requires ValidConfig(c) && env.schedIdle
    ensures var t' := Enqueued(t, env, c);
            && t'.queue == 3 && t'.lastBoostAt == t.lastBoostAt
            && (if env.kind == Neutral then t'.pending == t.pending else !t'.pending.valid)
  {
    hide TimeBefore, Add64, Sub64, Capture, Decayed;
  }

  // ---- Sustained run-outs ----

  /** An enqueue with what was measured since the last one. */
  datatype Visit = Visit(seen: Observed, env: Env)

  function Before(t: Task, v: Visit): Task {
    t.(seen := v.seen)
  }

  function Next(t: Task, v: Visit, c: Config): Task
    requires ValidConfig(c)
  {
    Enqueued(Before(t, v), v.env, c)
  }

  /** Every visit is an unblocked run-out that finds the task burning CPU. */
  ghost predicate AllHogging(t: Task, vs: seq<Visit>, c: Config)
    requires ValidConfig(c)
    decreases |vs|
  {
    vs != [] ==>
      && vs[0].env.kind == Runout && !vs[0].env.schedIdle && !vs[0].env.demotionBlocked
      && Hog(Before(t, vs[0]), vs[0].env)
      && AllHogging(Next(t, vs[0], c), vs[1..], c)
  }

  function AfterVisits(t: Task, vs: seq<Visit>, c: Config): Task
    requires ValidConfig(c)
    decreases |vs|
  {
    if vs == [] then t else AfterVisits(Next(t, vs[0], c), vs[1..], c)
  }

  /** Run-outs until the count reaches eight; a count of 255 first wraps to zero. */
  function Missing(count: U8): nat {
    if count == 255 then 9 else if count >= 7 then 1 else 8 - count
  }

  lemma {:induction false} MissingRunoutsDemote(t: Task, vs: seq<Visit>, c: Config)
    requires ValidConfig(c) && MeasurablePeriod(c) && 1 <= t.queue <= 2 && AllHogging(t, vs, c)
    requires |vs| >= Missing(t.reenqCnt)
    ensures exists n :: 1 <= n <= Missing(t.reenqCnt) && AfterVisits(t, vs[..n], c).queue > t.queue
    decreases |vs|
  {
    hide Enqueued, Hog;
    var t1 := Next(t, vs[0], c);
    RunoutQueue(Before(t, vs[0]), vs[0].env, c);
    FirstVisits(t, vs, 1, c);
    if t1.queue == t.queue {
      MissingRunoutsDemote(t1, vs[1..], c);
      var n :| 1 <= n <= Missing(t1.reenqCnt) && AfterVisits(t1, vs[1..][..n], c).queue > t1.queue;
      FirstVisits(t, vs, n + 1, c);
      assert AfterVisits(t, vs[..n + 1], c).queue > t.queue;
    } else {
      assert AfterVisits(t, vs[..1], c).queue > t.queue;
    }
  }

  lemma FirstVisits(t: Task, vs: seq<Visit>, n: nat, c: Config)
    requires ValidConfig(c) && 1 <= n <= |vs|
    ensures AfterVisits(t, vs[..n], c) == AfterVisits(Next(t, vs[0], c), vs[1..][..n - 1], c)
  {
    hide Enqueued;
    assert vs[..n][0] == vs[0] && vs[..n][1..] == vs[1..][..n - 1];
  }

  /** Nine consecutive run-outs of a CPU hog always move a Q1 or Q2 task down, from any counter value. */
  lemma NineRunoutsDemote(t: Task, vs: seq<Visit>, c: Config)
    requires ValidConfig(c) && MeasurablePeriod(c) && 1 <= t.queue <= 2 && |vs| == 9 && AllHogging(t, vs, c)
    ensures exists n :: 1 <= n <= 9 && AfterVisits(t, vs[..n], c).queue > t.queue
  {
    hide Enqueued, AllHogging, AfterVisits;
    MissingRunoutsDemote(t, vs, c);
  }

  // ---- Whole traces ----

  /**
   * History of a trace: consecutive run-outs in the current queue, the time of the last wakeup,
   * run-out or queue change, and the times of the granted boosts.
   */
  datatype History = History(streak: nat, marked: bool, mark: U64, grants: seq<U64>)

  function Noted(h: History, t: Task, v: Visit, c: Config): History
    requires ValidConfig(c)
  {
    var changed := Next(t, v, c).queue != t.queue;
    History(if v.env.kind == Runout && !changed then h.streak + 1 else 0,
            h.marked || changed || v.env.kind != Neutral,
            if changed || v.env.kind != Neutral then v.env.now else h.mark,
            if Granted(Before(t, v), v.env, c) then h.grants + [v.env.now] else h.grants)
  }

  /** Consecutive grants are more than the rate limit apart; a stamp of 0 reads as "never boosted". */
  ghost predicate SpacedGrants(grants: seq<U64>, c: Config) {
    forall k: nat :: k + 1 < |grants| && grants[k] != 0 ==> TimeBefore(Add64(grants[k], c.rateLimit), grants[k + 1])
  }

  ghost predicate Inv(t: Task, h: History, c: Config) {
    && 1 <= t.queue <= 3 && t.reenqCnt <= h.streak
    && (t.queue >= 2 ==> t.queuedAt == if h.marked then h.mark else 0)
    && SpacedGrants(h.grants, c)
    && t.lastBoostAt == if h.grants == [] then 0 else h.grants[|h.grants| - 1]
  }

  /** A forked task. */
  predicate Fresh(t: Task) {
    t.queue == 2 && t.wakeCnt == 0 && t.reenqCnt == 0 && t.queuedAt == 0 && t.lastBoostAt == 0
  }

  lemma StayKeeps(t: Task, h: History, v: Visit, c: Config)
    requires ValidConfig(c) && Inv(t, h, c) && !v.env.schedIdle
    ensures var t', h' := Next(t, v, c), Noted(h, t, v, c);
            && 1 <= t'.queue <= 3 && t'.reenqCnt <= h'.streak
            && (t'.queue >= 2 ==> t'.queuedAt == if h'.marked then h'.mark else 0)
  {
    hide CpuBound, Capture, TimeBefore, Add64, RunoutSeed, WakeupSeed, WakeupClassified, RunoutClassified, SleepNs,
      SpacedGrants, Granted;
    var b := Before(t, v);
    match v.env.kind
    case Wakeup => WakeupParts(b, v.env, c);
    case Runout =>
      RunoutQueue(b, v.env, c);
      RunoutFrame(b, v.env);
    case Neutral =>
  }

  lemma RunoutFrame(t: Task, env: Env)
    ensures RunoutClassified(t, env).queuedAt == t.queuedAt && RunoutClassified(t, env).lastBoostAt == t.lastBoostAt
  {
    hide CpuBound, Capture, RunoutSeed;
  }

  lemma BoostKeeps(t: Task, v: Visit, c: Config)
    requires ValidConfig(c) && 1 <= t.queue <= 3 && !v.env.schedIdle
    ensures Next(t, v, c).lastBoostAt == if Granted(Before(t, v), v.env, c) then v.env.now else t.lastBoostAt
  {
    hide CpuBound, Capture, TimeBefore, Add64, WakeupSeed, WakeupClassified, RunoutClassified, SleepNs, Grants;
    var b := Before(t, v);
    match v.env.kind
    case Wakeup => WakeupParts(b, v.env, c);
    case Runout => RunoutFrame(b, v.env);
    case Neutral =>
  }

  lemma GrantIsLate(t: Task, env: Env, c: Config)
    requires Granted(t, env, c) && t.lastBoostAt != 0
    ensures TimeBefore(Add64(t.lastBoostAt, c.rateLimit), env.now)
  {
    hide TimeBefore, Add64;
  }

  lemma StepKeeps(t: Task, h: History, v: Visit, c: Config)
    requires ValidConfig(c) && Inv(t, h, c) && !v.env.schedIdle
    ensures Inv(Next(t, v, c), Noted(h, t, v, c), c)
  {
    hide Next, Granted, TimeBefore, Add64;
    StayKeeps(t, h, v, c);
    BoostKeeps(t, v, c);
    if Granted(Before(t, v), v.env, c) && t.lastBoostAt != 0 {
      GrantIsLate(Before(t, v), v.env, c);
    }
  }

  function HistoryOf(t: Task, vs: seq<Visit>, h: History, c: Config): History
    requires ValidConfig(c)
    decreases |vs|
  {
    if vs == [] then h else HistoryOf(Next(t, vs[0], c), vs[1..], Noted(h, t, vs[0], c), c)
  }

  lemma {:induction false} TraceKeeps(t: Task, vs: seq<Visit>, h: History, c: Config)
    requires ValidConfig(c) && Inv(t, h, c) && forall v :: v in vs ==> !v.env.schedIdle
    ensures Inv(AfterVisits(t, vs, c), HistoryOf(t, vs, h, c), c)
    decreases |vs|
  {
    hide Inv, Next, Noted;
    if vs != [] {
      StepKeeps(t, h, vs[0], c);
      TraceKeeps(Next(t, vs[0], c), vs[1..], Noted(h, t, vs[0], c), c);
    }
  }

  const NO_HISTORY := History(0, false, 0, [])

  /** On every trace of a forked non-SCHED_IDLE task, granted boosts keep the rate limit's distance. */
  lemma GrantsKeepTheirDistance(t: Task, vs: seq<Visit>, c: Config)
    requires ValidConfig(c) && Fresh(t) && forall v :: v in vs ==> !v.env.schedIdle
    ensures SpacedGrants(HistoryOf(t, vs, NO_HISTORY, c).grants, c)
  {
    hide Next, Noted, SpacedGrants, HistoryOf, AfterVisits;
    NothingSpaced(c);
    TraceKeeps(t, vs, NO_HISTORY, c);
  }

  /** The stamp of 0 does matter: a grant at instant 0 is forgotten, and the next wakeup may be granted at once. */
  lemma ZeroStampIsForgotten(t: Task, v1: Visit, v2: Visit, c: Config)
    requires ValidConfig(c) && Fresh(t)
    requires v1.env.kind == v2.env.kind == Wakeup && v1.env.ioWait && v2.env.ioWait
    requires !v1.env.schedIdle && !v2.env.schedIdle && v1.env.now == 0 && v2.env.now == 1
    ensures Granted(Before(t, v1), v1.env, c) && Granted(Before(Next(t, v1, c), v2), v2.env, c)
  {
    hide Enqueued, SleepNs, TimeBefore, Add64;
    GrantEndsInQ1(Before(t, v1), v1.env, c);
  }

  lemma NothingSpaced(c: Config)
    ensures SpacedGrants([], c)
  {
  }

  /** And the queue rises by demotion only at the eighth or a later run-out in a row in that queue. */
  lemma DemotionNeedsEightInARow(t: Task, vs: seq<Visit>, v: Visit, c: Config)
    requires ValidConfig(c) && Fresh(t) && forall x :: x in vs + [v] ==> !x.env.schedIdle
    requires Next(AfterVisits(t, vs, c), v, c).queue > AfterVisits(t, vs, c).queue
    ensures var t', b := AfterVisits(t, vs, c), Before(AfterVisits(t, vs, c), v);
            || (v.env.kind == Wakeup && WakeupSeed(b, SleepNs(b, v.env.now), v.env, c) && Next(t', v, c).queue == 3)
            || (v.env.kind == Runout && RunoutSeed(b, v.env) && Next(t', v, c).queue == 3)
            || (v.env.kind == Runout && Next(t', v, c).queue == t'.queue + 1
                && HistoryOf(t, vs, NO_HISTORY, c).streak + 1 >= 8)
  {
    hide Enqueued, Noted, SpacedGrants, HistoryOf, AfterVisits, WakeupSeed, RunoutSeed, CpuBound, SleepNs;
    NothingSpaced(c);
    assert forall x :: x in vs ==> x in vs + [v];
    assert v in vs + [v];
    TraceKeeps(t, vs, NO_HISTORY, c);
    RiseCauses(Before(AfterVisits(t, vs, c), v), v.env, c);
  }

  /** The task is aged at this visit. */
  predicate AgedAt(t: Task, v: Visit, c: Config)
    requires ValidConfig(c)
  {
    Ages(Stayed(Classified(Before(t, v), v.env, c), t.queue, v.env), v.env, c)
  }

  /**
   * Exactly when a task is aged: at a neutral enqueue in Q2 or Q3 with no wakeup, run-out or queue
   * change for a whole aging period (one stamped 0 reads as "no stay"); at any other enqueue only if
   * the period is too long to measure. It then lands in Q1.
   */
  lemma AgedAfterALongWait(t: Task, vs: seq<Visit>, v: Visit, c: Config)
    requires ValidConfig(c) && Fresh(t) && forall x :: x in vs + [v] ==> !x.env.schedIdle
    ensures var t', h := AfterVisits(t, vs, c), HistoryOf(t, vs, NO_HISTORY, c);
            && (AgedAt(t', v, c) <==>
                  if v.env.kind == Neutral then
                    t'.queue >= 2 && h.marked && h.mark != 0 && !TimeBefore(v.env.now, Add64(h.mark, c.agingPeriod))
                  else OverAtOnce(Classified(Before(t', v), v.env, c).queue, v.env, c))
            && (AgedAt(t', v, c) ==> Next(t', v, c).queue == 1)
  {
    hide Noted, SpacedGrants, HistoryOf, AfterVisits, TimeBefore, Add64, WakeupClassified, RunoutClassified;
    NothingSpaced(c);
    assert forall x :: x in vs ==> x in vs + [v];
    assert v in vs + [v];
    TraceKeeps(t, vs, NO_HISTORY, c);
    var b := Before(AfterVisits(t, vs, c), v);
    if v.env.kind != Neutral {
      RearmedAges(Classified(b, v.env, c), b.queue, v.env, c);
    }
  }
}

/** Queue classification of a task at its enqueues: wakeup, run-out, stay bookkeeping and aging. */
module Classify {
  import opened Word
  import opened Samples
  import Ema
  import Adapt

  const NSEC_PER_USEC := 1000

  datatype Config = Config(
    halfLife: U64, shortSleep: U64, rateLimit: U64, hysteresisSleep: U64, longSleep: U64, agingPeriod: U64)

  predicate ValidConfig(c: Config) {
    c.halfLife > 0 && c.rateLimit > 0 && c.agingPeriod > 0
  }

  /** What the rest of the scheduler measured about the task. */
  datatype Observed = Observed(
    ema: U64, lastSleepAt: U64, prevBurst: U64, gpuSubmit: U32, wakeLatNs: U32, queueWaitNs: U32, sqEma: U64,
    sleepVarRatio: U32)

  /** The pending training sample: features and queue at its capture. */
  datatype Pending = Pending(valid: bool, feats: Feats, queue: U8)

  /** The classification state of a task. */
  datatype Task = Task(
    queue: U8, wakeCnt: U8, reenqCnt: U8, queuedAt: U64, lastBoostAt: U64, seen: Observed, pending: Pending)

  datatype Kind = Wakeup | Runout | Neutral

  /** One enqueue: its kind and time, the task's policy bits, the band edges and the committed tree. */
  datatype Env = Env(
    kind: Kind, now: U64, schedIdle: bool, ioWait: bool, demotionBlocked: bool, bands: Adapt.Bands,
    predict: Feats -> U32)

  // ---- The pieces ----

  function SleepNs(t: Task, now: U64): U64 {
    if t.seen.lastSleepAt != 0 && TimeBefore(t.seen.lastSleepAt, now) then Sub64(now, t.seen.lastSleepAt) else 0
  }

  function Decayed(ema: U64, sleepNs: U64, c: Config): (r: U64)
    requires ValidConfig(c)
    ensures r <= ema
  {
    Ema.DecayWordBelow(ema, sleepNs, c.halfLife);
    if sleepNs == 0 then ema else Ema.EmaDecayWord(ema, sleepNs, c.halfLife)
  }

  function Capture(t: Task, sleepNs: U64, ioWait: bool): Feats {
    Feats(t.seen.prevBurst, sleepNs, t.seen.ema, if ioWait then 1 else 0, t.wakeCnt, t.seen.wakeLatNs / NSEC_PER_USEC,
          t.seen.queueWaitNs / NSEC_PER_USEC, t.seen.sqEma, t.seen.sleepVarRatio, t.seen.gpuSubmit)
  }

  /** Promotion-only mapping of a prediction; 0 is the untrained sentinel. */
  function MapQueue(pred: U64, cur: U8, tInt: U64, tBound: U64): (q: U8)
    ensures q <= cur || q == 1
  {
    if pred > 0 && pred < tInt then 1 else if pred > 0 && pred < tBound && cur > 2 then 2 else cur
  }

  function BaseQueue(ema: U64, tL: U64, tH: U64): U8 {
    if ema <= tL then 1 else if ema >= tH then 3 else 2
  }

  predicate BoostPending(t: Task, sleepNs: U64, ioWait: bool, now: U64, c: Config) {
    && (ioWait || 0 < sleepNs <= c.shortSleep)
    && (t.lastBoostAt == 0 || TimeBefore(Add64(t.lastBoostAt, c.rateLimit), now))
  }

  /** A Q3 prediction is no reason for Q3 when only the recent GPU work explains it. */
  function ClampPrediction(pred: U64, t: Task, sleepNs: U64, c: Config, b: Adapt.Bands): U64 {
    if pred >= b.tBnd && t.seen.gpuSubmit > 0 && !(sleepNs > c.shortSleep || t.seen.prevBurst > b.tH)
    then Sub64(b.tBnd, 1) else pred
  }

  function Inc8(x: U8): U8 { if x == 255 then 0 else x + 1 }

  /** Band hysteresis after at least two consecutive short sleeps. */
  function Promoted(t: Task, sleepNs: U64, c: Config, b: Adapt.Bands): Task {
    var t1 := t.(wakeCnt := if sleepNs <= c.hysteresisSleep then Inc8(t.wakeCnt) else 0);
    if t1.queue == 2 && t1.seen.ema < b.tL / 2 && t1.wakeCnt >= 2 then t1.(queue := 1, wakeCnt := 0)
    else if t1.queue == 3 && t1.seen.ema < b.tH / 2 && t1.wakeCnt >= 2 then t1.(queue := 2, wakeCnt := 0)
    else t1
  }

  predicate WakeupSeed(t: Task, sleepNs: U64, env: Env, c: Config) {
    !env.ioWait && t.seen.gpuSubmit == 0 && t.seen.prevBurst > env.bands.tH && sleepNs > c.shortSleep
  }

  predicate RunoutSeed(t: Task, env: Env) {
    t.seen.gpuSubmit == 0 && t.seen.prevBurst > env.bands.tH
  }

  /** The demotion test: the prediction once trained, the gauge before. */
  predicate CpuBound(t: Task, env: Env) {
    var pred := if env.schedIdle then 0 else env.predict(Capture(t, 0, false));
    if pred > 0 then pred >= env.bands.tBnd else t.seen.ema > env.bands.tH
  }

  // ---- The classifiers as functions ----

  /** After the decay: the sleep is accounted and the slice-exhaustion count cleared. */
  function Awake(t: Task, env: Env, c: Config): Task
    requires ValidConfig(c)
  {
    t.(seen := t.seen.(ema := Decayed(t.seen.ema, SleepNs(t, env.now), c), lastSleepAt := 0), reenqCnt := 0)
  }

  function Captured(t: Task, sleepNs: U64, ioWait: bool, schedIdle: bool): Task {
    if schedIdle then t.(pending := t.pending.(valid := false))
    else t.(pending := Pending(true, Capture(t, sleepNs, ioWait), t.queue))
  }

  function WakeupPrediction(t: Task, sleepNs: U64, env: Env, c: Config): U64 {
    ClampPrediction(if env.schedIdle then 0 else env.predict(Capture(t, sleepNs, env.ioWait)), t, sleepNs, c, env.bands)
  }

  predicate Grants(t: Task, sleepNs: U64, env: Env, c: Config) {
    !env.schedIdle && BoostPending(t, sleepNs, env.ioWait, env.now, c)
  }

  function Boosted(t: Task, sleepNs: U64, env: Env, c: Config): Task {
    if Grants(t, sleepNs, env, c) then t.(queue := 1, lastBoostAt := env.now) else t
  }

  function WakeupClassified(t: Task, env: Env, c: Config): Task
    requires ValidConfig(c)
  {
    var sleepNs, t1 := SleepNs(t, env.now), Awake(t, env, c);
    var pred := WakeupPrediction(t1, sleepNs, env, c);
    var t2 := Captured(t1, sleepNs, env.ioWait, env.schedIdle);
    var t3 := t2.(queue := MapQueue(pred, t2.queue, env.bands.tInt, env.bands.tBnd));
    var t4 := Promoted(Boosted(t3, sleepNs, env, c), sleepNs, c, env.bands);
    var base := BaseQueue(t4.seen.ema, env.bands.tL, env.bands.tH);
    var t5 := if pred == 0 && sleepNs > c.longSleep && base < t4.queue then t4.(queue := base) else t4;
    if WakeupSeed(t5, sleepNs, env, c) then t5.(queue := 3) else t5
  }

  lemma CapturedFrame(t: Task, sleepNs: U64, ioWait: bool, schedIdle: bool)
    ensures Captured(t, sleepNs, ioWait, schedIdle) == t.(pending := Captured(t, sleepNs, ioWait, schedIdle).pending)
  {
  }

  lemma DecayedNot(ema: U64, c: Config)
    requires ValidConfig(c)
    ensures Decayed(ema, 0, c) == ema
  {
  }

  function Demoted(t: Task, cpuBound: bool): Task {
    var t1 := t.(reenqCnt := Inc8(t.reenqCnt));
    if (t1.queue == 1 || t1.queue == 2) && cpuBound && t1.reenqCnt >= 8
    then t1.(queue := t1.queue + 1, reenqCnt := 0) else t1
  }

  function RunoutClassified(t: Task, env: Env): Task {
    var cpuBound := CpuBound(t, env);
    var t1 := Captured(t, 0, false, env.schedIdle).(wakeCnt := 0);
    var t2 := if RunoutSeed(t1, env) then t1.(queue := 3) else t1;
    if env.demotionBlocked then t2 else Demoted(t2, cpuBound)
  }

  function Classified(t: Task, env: Env, c: Config): Task
    requires ValidConfig(c)
  {
    var t1 := match env.kind
              case Wakeup => WakeupClassified(t, env, c)
              case Runout => RunoutClassified(t, env)
              case Neutral => t.(wakeCnt := 0, reenqCnt := 0);
    if env.schedIdle then t1.(queue := 3) else t1
  }

  /** A queue change starts a fresh stay, a wakeup or run-out re-arms the running one. */
  function Stayed(t: Task, oldQueue: U8, env: Env): Task {
    var stamp := if t.queue >= 2 then env.now else 0;
    if t.queue != oldQueue then t.(queuedAt := stamp, reenqCnt := 0)
    else if env.kind != Neutral then t.(queuedAt := stamp)
    else t
  }

  predicate Ages(t: Task, env: Env, c: Config) {
    t.queue >= 2 && !env.schedIdle && t.queuedAt != 0 && !TimeBefore(env.now, Add64(t.queuedAt, c.agingPeriod))
  }

  function Aged(t: Task, env: Env, c: Config): Task {
    if Ages(t, env, c) then t.(queue := 1, reenqCnt := 0) else t
  }

  function Enqueued(t: Task, env: Env, c: Config): Task
    requires ValidConfig(c)
  {
    Aged(Stayed(Classified(t, env, c), t.queue, env), env, c)
  }

  // ---- The code ----

  class TaskCtx {
    var queue: U8
    var wakeCnt: U8
    var reenqCnt: U8
    var queuedAt: U64
    var lastSsBoostAt: U64
    var seen: Observed
    var pending: Pending

    ghost function Contents(): Task
      reads this
    {
      Task(queue, wakeCnt, reenqCnt, queuedAt, lastSsBoostAt, seen, pending)
    }

    method PromoteOnWakeup(sleepNs: U64, c: Config, b: Adapt.Bands)
      modifies this`queue, this`wakeCnt
      ensures Contents() == Promoted(old(Contents()), sleepNs, c, b)
    {
      var promoted := false;
      wakeCnt := if sleepNs <= c.hysteresisSleep then Inc8(wakeCnt) else 0;
      if queue == 2 && seen.ema < b.tL / 2 && wakeCnt >= 2 {
        queue, promoted := 1, true;
      } else if queue == 3 && seen.ema < b.tH / 2 && wakeCnt >= 2 {
        queue, promoted := 2, true;
      }
      if promoted {
        wakeCnt := 0;
      }
    }

    method DemoteOnReenq(cpuBound: bool)
      modifies this`queue, this`reenqCnt
      ensures Contents() == Demoted(old(Contents()), cpuBound)
    {
      reenqCnt := Inc8(reenqCnt);
      if (queue == 1 || queue == 2) && cpuBound && reenqCnt >= 8 {
        queue, reenqCnt := queue + 1, 0;
      }
    }

    method CaptureSample(sleepNs: U64, ioWait: bool, schedIdle: bool, predict: Feats -> U32) returns (pred: U64)
      modifies this`pending
      ensures Contents() == Captured(old(Contents()), sleepNs, ioWait, schedIdle)
      ensures pred == if schedIdle then 0 else predict(Capture(old(Contents()), sleepNs, ioWait))
    {
      if schedIdle {
        pending := pending.(valid := false);
        return 0;
      }
      pending := Pending(
        true,
        Feats(seen.prevBurst, sleepNs, seen.ema, if ioWait then 1 else 0, wakeCnt, seen.wakeLatNs / NSEC_PER_USEC,
              seen.queueWaitNs / NSEC_PER_USEC, seen.sqEma, seen.sleepVarRatio, seen.gpuSubmit),
        queue);
      pred := predict(pending.feats);
    }

    /** Decay over the sleep that just ended. */
    method AccountSleep(env: Env, c: Config) returns (sleepNs: U64)
      requires ValidConfig(c)
      modifies this`seen, this`reenqCnt
      ensures Contents() == Awake(old(Contents()), env, c) && sleepNs == SleepNs(old(Contents()), env.now)
    {
      hide TimeBefore, Sub64, Decayed;
      sleepNs := 0;
      DecayedNot(seen.ema, c);
      if seen.lastSleepAt != 0 && TimeBefore(seen.lastSleepAt, env.now) {
        sleepNs := Sub64(env.now, seen.lastSleepAt);
        seen := seen.(ema := Decayed(seen.ema, sleepNs, c));
      }
      seen := seen.(lastSleepAt := 0);
      reenqCnt := 0;
    }

    /** The rate-limited boost of an I/O or short-sleep wakeup. */
    method BoostIfPending(sleepNs: U64, env: Env, c: Config)
      modifies this`queue, this`lastSsBoostAt
      ensures Contents() == Boosted(old(Contents()), sleepNs, env, c)
    {
      hide TimeBefore, Add64;
      if !env.schedIdle && (env.ioWait || (sleepNs > 0 && sleepNs <= c.shortSleep))
         && (lastSsBoostAt == 0 || TimeBefore(Add64(lastSsBoostAt, c.rateLimit), env.now)) {
        queue, lastSsBoostAt := 1, env.now;
      }
    }

    method WakeupClassify(env: Env, c: Config)
      requires ValidConfig(c)
      modifies this
      ensures Contents() == WakeupClassified(old(Contents()), env, c)
    {
      hide Awake, SleepNs, Captured, Capture, Promoted, Boosted;
      var sleepNs := AccountSleep(env, c);
      ghost var t1 := Contents();
      var pred := CaptureSample(sleepNs, env.ioWait, env.schedIdle, env.predict);
      CapturedFrame(t1, sleepNs, env.ioWait, env.schedIdle);
      if pred >= env.bands.tBnd && seen.gpuSubmit > 0
         && !(sleepNs > c.shortSleep || seen.prevBurst > env.bands.tH) {
        pred := Sub64(env.bands.tBnd, 1);
      }
      if pred > 0 {
        queue := MapQueue(pred, queue, env.bands.tInt, env.bands.tBnd);
      }
      BoostIfPending(sleepNs, env, c);
      PromoteOnWakeup(sleepNs, c, env.bands);
      if pred == 0 && sleepNs > c.longSleep {
        var base := BaseQueue(seen.ema, env.bands.tL, env.bands.tH);
        if base < queue {
          queue := base;
        }
      }
      if !env.ioWait && seen.gpuSubmit == 0 && seen.prevBurst > env.bands.tH && sleepNs > c.shortSleep && queue != 3 {
        queue := 3;
      }
    }

    method RunoutClassify(env: Env)
      modifies this
      ensures Contents() == RunoutClassified(old(Contents()), env)
    {
      hide Capture;
      var pred := CaptureSample(0, false, env.schedIdle, env.predict);
      wakeCnt := 0;
      var cpuBound := if pred > 0 then pred >= env.bands.tBnd else seen.ema > env.bands.tH;
      if seen.gpuSubmit == 0 && seen.prevBurst > env.bands.tH && queue != 3 {
        queue := 3;
      }
      if env.demotionBlocked {
        return;
      }
      DemoteOnReenq(cpuBound);
    }

    /** The classification part of an enqueue, up to the queue the task is placed in. */
    method Enqueue(env: Env, c: Config)
      requires ValidConfig(c)
      modifies this
      ensures Contents() == Enqueued(old(Contents()), env, c)
    {
      hide WakeupClassified, RunoutClassified, TimeBefore;
      var oldQueue := queue;
      if env.kind == Wakeup {
        WakeupClassify(env, c);
      } else if env.kind == Runout {
        RunoutClassify(env);
      } else {
        wakeCnt, reenqCnt := 0, 0;
      }
      if env.schedIdle {
        queue := 3;
      }
      if queue != oldQueue {
        queuedAt := if queue >= 2 then env.now else 0;
        reenqCnt := 0;
      } else if env.kind == Wakeup || env.kind == Runout {
        queuedAt := if queue >= 2 then env.now else 0;
      }
      if queue >= 2 && !env.schedIdle && queuedAt != 0
         && !TimeBefore(env.now, Add64(queuedAt, c.agingPeriod)) {
        queue, reenqCnt := 1, 0;
      }
    }
  }
}

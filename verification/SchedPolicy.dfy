// Scheduling policies and the run-queue levels they give (compute_prio and
// sched_setscheduler in kernel/sched.c).
module SchedPolicy {
  import opened Common
  import opened CArith
  import opened RunQueue
  import opened Sched

  const SCHED_OTHER := 0
  const SCHED_FIFO := 1
  const SCHED_RR := 2
  const SCHED_BATCH := 3
  const SCHED_IDLE := 5

  const PRIO_RT_LOWEST := 23
  const PRIO_NORMAL := 27
  const PRIO_IDLE := 31

  predicate RealTime(policy: int) {
    policy == SCHED_FIFO || policy == SCHED_RR
  }

  predicate Normal(policy: int) {
    policy == SCHED_OTHER || policy == SCHED_BATCH
  }

  // The range sched_set_nice clamps to.
  predicate NiceOk(nice: int) {
    -20 <= nice <= 19
  }

  function ComputePrio(policy: int, rtPrio: int, nice: int): int {
    if RealTime(policy) then PRIO_RT_LOWEST - CDiv((rtPrio - 1) * PRIO_RT_LOWEST, 98)
    else if policy == SCHED_IDLE then PRIO_IDLE
    else Min(Max(PRIO_NORMAL + CDiv(nice, 7), PRIO_RT_LOWEST + 1), PRIO_IDLE - 1)
  }

  // The argument check of sched_setscheduler and the level it sets.
  function SetScheduler(policy: int, prio: int, nice: int): Result<int> {
    if RealTime(policy) then
      if prio < 1 || prio > 99 then Err(EINVAL) else Ok(ComputePrio(policy, prio, nice))
    else if Normal(policy) || policy == SCHED_IDLE then
      if prio != 0 then Err(EINVAL) else Ok(ComputePrio(policy, prio, nice))
    else Err(EINVAL)
  }

  // Some accepted request gives this level.
  ghost predicate Given(level: int) {
    exists policy, prio, nice :: NiceOk(nice) && SetScheduler(policy, prio, nice) == Ok(level)
  }

  lemma RealTimeRange(rt: int)
    requires 1 <= rt <= 99
    ensures 0 <= CDiv((rt - 1) * PRIO_RT_LOWEST, 98) <= PRIO_RT_LOWEST
  {
  }

  lemma AcceptedRange(policy: int, prio: int, nice: int)
    requires NiceOk(nice) && SetScheduler(policy, prio, nice).Ok?
    ensures var l := SetScheduler(policy, prio, nice).value;
            && (RealTime(policy) ==> 0 <= l <= 23)
            && (Normal(policy) ==> 25 <= l <= 29)
            && (!RealTime(policy) && !Normal(policy) ==> l == 31)
  {
    if RealTime(policy) {
      RealTimeRange(prio);
    }
  }

  // Exactly which requests are accepted: SCHED_FIFO and SCHED_RR with a priority
  // of 1 to 99, SCHED_OTHER, SCHED_BATCH and SCHED_IDLE with none.
  lemma AcceptedExactly(policy: int, prio: int, nice: int)
    ensures SetScheduler(policy, prio, nice).Ok? <==>
            || ((policy == 1 || policy == 2) && 1 <= prio <= 99)
            || ((policy == 0 || policy == 3 || policy == 5) && prio == 0)
    ensures SetScheduler(policy, prio, nice).Ok? || SetScheduler(policy, prio, nice) == Err(EINVAL)
  {
  }

  // The level of every accepted request, without its formula.
  lemma LevelOf(policy: int, prio: int, nice: int)
    requires NiceOk(nice) && SetScheduler(policy, prio, nice).Ok?
    ensures var l := SetScheduler(policy, prio, nice).value;
            && (policy == 1 || policy == 2 ==> 98 * (23 - l) <= 23 * (prio - 1) < 98 * (24 - l))
            && (policy == 5 ==> l == 31)
            && (policy == 0 || policy == 3 ==>
                  l == if nice <= -14 then 25 else if nice <= -7 then 26 else if nice < 7 then 27
                       else if nice < 14 then 28 else 29)
  {
  }

  // The real-time priority that gives level l.
  lemma RealTimeReached(l: int)
    requires 0 <= l <= PRIO_RT_LOWEST
    ensures SetScheduler(SCHED_FIFO, 1 + ((PRIO_RT_LOWEST - l) * 98 + 22) / 23, 0) == Ok(l)
  {
    var k := PRIO_RT_LOWEST - l;
    var q := (k * 98 + 22) / 23;
    assert 23 * q == k * 98 + 22 - (k * 98 + 22) % 23;
    DivMod(q * PRIO_RT_LOWEST, 98, k, q * PRIO_RT_LOWEST - 98 * k);
  }

  // Exactly these levels are ever given. The comments in the source promise
  // 24 to 29 and 24 to 30 for nice values; 24 and 30 are not reached.
  lemma LevelsGiven(level: int)
    ensures Given(level) <==> 0 <= level <= 23 || 25 <= level <= 29 || level == 31
  {
    if Given(level) {
      var policy, prio, nice :| NiceOk(nice) && SetScheduler(policy, prio, nice) == Ok(level);
      AcceptedRange(policy, prio, nice);
    }
    if 0 <= level <= 23 {
      RealTimeReached(level);
      assert NiceOk(0);
    } else if 25 <= level <= 29 {
      var nice := 7 * (level - PRIO_NORMAL);
      assert NiceOk(nice) && SetScheduler(SCHED_OTHER, 0, nice) == Ok(level);
    } else if level == 31 {
      assert NiceOk(0) && SetScheduler(SCHED_IDLE, 0, 0) == Ok(level);
    }
  }

  // A higher real-time priority never runs later, a higher nice value never
  // earlier, real-time goes before normal, and normal before idle.
  lemma PolicyOrder(p: int, prio: int, nice: int, q: int, prio': int, nice': int)
    requires NiceOk(nice) && NiceOk(nice')
    requires SetScheduler(p, prio, nice).Ok? && SetScheduler(q, prio', nice').Ok?
    ensures var a, b := SetScheduler(p, prio, nice).value, SetScheduler(q, prio', nice').value;
            && (RealTime(p) && RealTime(q) && prio >= prio' ==> a <= b)
            && (Normal(p) && Normal(q) && nice <= nice' ==> a <= b)
            && (RealTime(p) && !RealTime(q) ==> a < b)
            && (Normal(p) && q == SCHED_IDLE ==> a < b)
  {
    AcceptedRange(p, prio, nice);
    AcceptedRange(q, prio', nice');
  }

  // An accepted request for a thread that is not in transit is carried out: the
  // thread has the new level, is on the list of that level if it was queued,
  // and the scheduler's invariant is kept.
  lemma RequestTakesEffect(s: Sys, t: Tid, policy: int, prio: int, nice: int)
    requires Inv(s) && Settled(s, t) && Unlocked(s, s.threads[t].cpu)
    requires NiceOk(nice) && SetScheduler(policy, prio, nice).Ok?
    ensures SetScheduler(policy, prio, nice).value >= 0
    ensures var l := SetScheduler(policy, prio, nice).value; var c := s.threads[t].cpu;
            var begin := PrioBegin(t, l, policy == SCHED_FIFO);
            && Enabled(s, begin) && Defined(s, begin)
            && var s1 := Apply(s, begin);
               && Inv(s1) && Enabled(s1, PrioEnd(c)) && Defined(s1, PrioEnd(c))
               && var s2 := Apply(s1, PrioEnd(c));
                  && Inv(s2) && t in s2.threads && s2.threads[t].prio == l && s2.threads[t].cpu == c
                  && s2.threads[t].fifo == (policy == 1)
                  && (s.threads[t].onRq ==> s2.threads[t].onRq && At(s2, t, Queued(c, l)))
  {
    hide SetScheduler, ThreadOk, CpuOk, HoldOk, OneWaker, QueuesOk, Add, Del;
    AcceptedRange(policy, prio, nice);
    var l, c := SetScheduler(policy, prio, nice).value, s.threads[t].cpu;
    var begin := PrioBegin(t, l, policy == SCHED_FIFO);
    StepKeepsInv(s, begin);
    var s1 := Apply(s, begin);
    StepKeepsInv(s1, PrioEnd(c));
    var s2 := Apply(s1, PrioEnd(c));
    if s.threads[t].onRq {
      QueuedHere(s2, t);
    }
  }

  lemma QueuedHere(s: Sys, t: Tid)
    requires Inv(s) && t in s.threads && s.threads[t].onRq
    ensures At(s, t, Queued(s.threads[t].cpu, s.threads[t].prio))
  {
    assert ThreadOk(s, t) && CpuOk(s, s.threads[t].cpu);
  }
}

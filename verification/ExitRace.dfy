// A thread that exits (kernel/process.c) marks itself dead and calls schedule,
// which must not come back. try_to_wake_up (kernel/sched.c) tests a thread's
// state and then sets it, and a running thread sets its own state in between
// without the lock.
module ExitRace {
  import opened Common
  import opened Lists
  import opened RunQueue
  import opened Sched
  import opened SchedRace

  // A waker has tested t's state and is about to set it.
  predicate BeingSet(s: Sys, t: Tid) {
    && t in s.threads && s.threads[t].cpu < |s.cpus|
    && var lock := s.cpus[s.threads[t].cpu].lock; lock.Some? && lock.value.Setter? && lock.value.tid == t
  }

  // ... and its CPU is there to do it.
  predicate CanSet(s: Sys, t: Tid) {
    BeingSet(s, t) && Free(s, s.cpus[s.threads[t].cpu].lock.value.from)
  }

  ghost predicate Dying(s: Sys, t: Tid) {
    t in s.threads && s.threads[t].state.Dead? && !BeingSet(s, t)
  }

  lemma DeadInSwitch(s: Sys, c: nat, t: Tid)
    requires Placed(s) && Dying(s, t) && Enabled(s, SwitchBegin(c)) && Defined(s, SwitchBegin(c))
    ensures Dying(Switched(s, c), t) && (!IsCurrent(s, t) ==> !IsCurrent(Switched(s, c), t))
  {
    hide CpuOk, ThreadOk, QueuesOk, OneWaker, Switched, Requeued, Defined, CanPick;
    SwitchFacts(s, c);
    assert s.cpus[c].idle in s.threads && s.threads[s.cpus[c].idle].state.Running? by { IdleRuns(s, c); }
    hide Placed;
  }

  lemma IdleRuns(s: Sys, c: nat)
    requires Placed(s) && c < |s.cpus|
    ensures s.cpus[c].idle in s.threads && s.threads[s.cpus[c].idle].state.Running?
  {
    assert CpuOk(s, c);
  }

  lemma DeadInFinish(s: Sys, c: nat, t: Tid)
    requires Dying(s, t) && Enabled(s, SwitchEnd(c)) && Defined(s, SwitchEnd(c))
    ensures Dying(Finished(s, c), t) && (!IsCurrent(s, t) ==> !IsCurrent(Finished(s, c), t))
  {
  }

  lemma DeadInWake(s: Sys, e: Step, t: Tid)
    requires Inv(s) && Dying(s, t) && Enabled(s, e) && Defined(s, e)
    requires e.WakeLock? || e.WakeTest? || e.WakeSet? || e.WakeEnd?
    ensures Dying(Apply(s, e), t) && (!IsCurrent(s, t) ==> !IsCurrent(Apply(s, e), t))
  {
    if e.WakeEnd? {
      assert CpuOk(s, e.cpu);
    } else if e.WakeTest? || e.WakeSet? {
      assert HoldOk(s, e.cpu);
    }
    hide Placed, CpuOk, QueuesOk, Add;
  }

  lemma DeadElsewhere(s: Sys, e: Step, t: Tid)
    requires Inv(s) && Dying(s, t) && Enabled(s, e) && Defined(s, e)
    requires e.SetState? || e.PrioBegin? || e.PrioEnd? || e.AddNew?
    ensures Dying(Apply(s, e), t) && (!IsCurrent(s, t) ==> !IsCurrent(Apply(s, e), t))
  {
    if e.PrioEnd? {
      assert HoldOk(s, e.cpu);
    }
    hide Placed, Add, Del;
  }

  // Every step leaves a dead thread dead, and off its CPU once it is off.
  lemma DeadStep(s: Sys, e: Step, t: Tid)
    requires Inv(s) && Dying(s, t) && Enabled(s, e) && Disciplined(s, e)
    ensures Defined(s, e) && Dying(Apply(s, e), t)
    ensures !IsCurrent(s, t) ==> !IsCurrent(Apply(s, e), t)
  {
    hide Inv, Dying, IsCurrent, Enabled, Defined, Disciplined, Switched, Finished;
    StepKeepsInv(s, e);
    if e.SwitchBegin? {
      InvIsPlaced(s);
      DeadInSwitch(s, e.cpu, t);
    } else if e.SwitchEnd? {
      DeadInFinish(s, e.cpu, t);
    } else if e.WakeLock? || e.WakeTest? || e.WakeSet? || e.WakeEnd? {
      DeadInWake(s, e, t);
    } else {
      DeadElsewhere(s, e, t);
    }
  }

  // Over every run.
  lemma {:induction false} DeadStaysDead(s: Sys, es: seq<Step>, t: Tid)
    requires Inv(s) && Dying(s, t) && Possible(s, es) && DisciplinedRun(s, es)
    ensures Dying(After(s, es), t)
    ensures !IsCurrent(s, t) ==> !IsCurrent(After(s, es), t)
    decreases |es|
  {
    hide Inv, Dying, IsCurrent, Apply, Enabled, Defined, Disciplined;
    if es != [] {
      DeadStep(s, es[0], t);
      StepKeepsInv(s, es[0]);
      DeadStaysDead(Apply(s, es[0]), es[1..], t);
    }
  }

  ghost predicate StaysDead(s: Sys, t: Tid) {
    forall es :: Possible(s, es) && DisciplinedRun(s, es) ==>
      t in After(s, es).threads && After(s, es).threads[t].state.Dead?
  }

  // A thread that marks itself dead stays dead, whatever happens next, if and
  // only if no waker has tested its state and not yet set it.
  lemma ExitIsFinalExactly(s: Sys, c: nat)
    requires Inv(s) && Enabled(s, SetState(c, Dead))
    requires BeingSet(s, s.cpus[c].curr) ==> CanSet(s, s.cpus[c].curr)
    ensures StaysDead(Apply(s, SetState(c, Dead)), s.cpus[c].curr) <==> !BeingSet(s, s.cpus[c].curr)
  {
    var t, s1 := s.cpus[c].curr, Apply(s, SetState(c, Dead));
    StepKeepsInv(s, SetState(c, Dead));
    assert CpuOk(s, c);
    hide Inv, CpuOk;
    if BeingSet(s, t) {
      var e := WakeSet(c);
      assert Enabled(s1, e) && Defined(s1, e) && Apply(s1, e).threads[t].state.Running?;
      hide Possible, After, DisciplinedRun;
      PossibleOne(s1, e);
    } else {
      assert Dying(s1, t);
      hide Possible, After, DisciplinedRun;
      forall es | Possible(s1, es) && DisciplinedRun(s1, es)
        ensures t in After(s1, es).threads && After(s1, es).threads[t].state.Dead?
      {
        DeadStaysDead(s1, es, t);
      }
    }
  }

  // ---- a run in which schedule comes back ----

  function Worker(st: TaskState): Thread {
    Thread(st, 25, false, false, true, 1)
  }

  // Thread 1 runs on CPU 1 in state st.
  function Working(q: Rq, st: TaskState, lock: Option<Hold>): Sys {
    Pair(q, None, q, 1, None, lock, Worker(st))
  }

  lemma WorkingOk(q: Rq)
    requires Empty(q)
    ensures Inv(Working(q, Running, None))
  {
    hide QueuesOk, RqOk, Empty;
    var s := Working(q, Running, None);
    EmptyOk(s.threads, q, 0);
    EmptyOk(s.threads, q, 1);
    assert CpuOk(s, 0) && CpuOk(s, 1) && HoldOk(s, 0) && HoldOk(s, 1);
    assert ThreadOk(s, 1) && ThreadOk(s, 10) && ThreadOk(s, 11);
  }

  lemma ExitGoes(q: Rq)
    requires Empty(q)
    ensures var asked, seen := Some(Waker(0, 1, MASK)), Some(Setter(0, 1)); var st := Uninterruptible;
            && Goes(Working(q, Running, None), SetState(1, st), Working(q, st, None))
            && Goes(Working(q, st, None), WakeLock(0, 1, MASK), Working(q, st, asked))
            && Goes(Working(q, st, asked), WakeTest(1), Working(q, st, seen))
            && Goes(Working(q, st, seen), SetState(1, Running), Working(q, Running, seen))
            && Goes(Working(q, Running, seen), SetState(1, Dead), Working(q, Dead, seen))
            && Goes(Working(q, Dead, seen), WakeSet(1), Working(q, Running, None))
  {
  }

  // schedule on CPU 1 finds nobody else and returns to the thread.
  lemma ComesBack(q: Rq)
    requires Empty(q)
    ensures var s := Working(q, Running, None);
            Enabled(s, SwitchBegin(1)) && Defined(s, SwitchBegin(1)) && Switched(s, 1).cpus[1].curr == 1
  {
    var s := Working(q, Running, None);
    OneSet(q.bitmap, 25);
    var q1 := Add(q, 1, 25, false);
    assert Lowest(q1.bitmap, 0) == 25 && q1.queues[25] == [1];
  }

  // CPU 0 sees the thread in a sleeping state; the thread finds its condition
  // true, goes on and exits; CPU 0 sets it running, and schedule returns to it.
  lemma DeadRunsAgain(q: Rq) returns (es: seq<Step>)
    requires Empty(q)
    ensures es == [SetState(1, Uninterruptible), WakeLock(0, 1, MASK), WakeTest(1), SetState(1, Running),
                   SetState(1, Dead), WakeSet(1)]
    ensures var s := Working(q, Running, None);
            && Inv(s) && Possible(s, es) && DisciplinedRun(s, es)
            && var s' := After(s, es);
               Enabled(s', SwitchBegin(1)) && Defined(s', SwitchBegin(1)) && Switched(s', 1).cpus[1].curr == 1
  {
    hide *;
    WorkingOk(q);
    ExitGoes(q);
    ComesBack(q);
    SettledWorker(q);
    var st, asked, seen := Uninterruptible, Some(Waker(0, 1, MASK)), Some(Setter(0, 1));
    var w0, w1, w2 := Working(q, Running, None), Working(q, st, None), Working(q, st, asked);
    var w3, w4, w5 := Working(q, st, seen), Working(q, Running, seen), Working(q, Dead, seen);
    NoSteps(w0);
    es := [];
    Follows(w5, WakeSet(1), w0, es);
    es := [WakeSet(1)] + es;
    Follows(w4, SetState(1, Dead), w5, es);
    es := [SetState(1, Dead)] + es;
    Follows(w3, SetState(1, Running), w4, es);
    es := [SetState(1, Running)] + es;
    Follows(w2, WakeTest(1), w3, es);
    es := [WakeTest(1)] + es;
    Follows(w1, WakeLock(0, 1, MASK), w2, es);
    es := [WakeLock(0, 1, MASK)] + es;
    Follows(w0, SetState(1, st), w1, es);
    es := [SetState(1, st)] + es;
  }

  lemma Follows(s: Sys, e: Step, s': Sys, es: seq<Step>)
    requires Goes(s, e, s') && (e.WakeLock? || e.PrioBegin? ==> Disciplined(s, e))
    requires Possible(s', es) && DisciplinedRun(s', es)
    ensures Possible(s, [e] + es) && DisciplinedRun(s, [e] + es) && After(s, [e] + es) == After(s', es)
  {
    hide Enabled, Defined, Apply, Settled;
    PossibleCons(s, e, es);
  }

  lemma NoSteps(s: Sys)
    ensures Possible(s, []) && DisciplinedRun(s, []) && After(s, []) == s
  {
  }

  lemma SettledWorker(q: Rq)
    ensures var w1 := Working(q, Uninterruptible, None); Disciplined(w1, WakeLock(0, 1, MASK))
  {
  }
}

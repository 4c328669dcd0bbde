// wake_up_one (kernel/wait.c) and the sleeping mutex, for which it is enough.
module WakeOne {
  import opened Common
  import opened Lists
  import opened RunQueue
  import opened Sched
  import opened WaitQueue

  // ---- the mutex ----

  // As a mutex, `done` is 1 when the owner field is NULL. Only the owner
  // unlocks, so nobody has it then and the owner has left its own wait loop;
  // mutex_lock leaves the loop only with the mutex.
  ghost predicate MutexRule(w: World, a: Act) {
    && (a.Raise? ==> w.done == 0 && forall t :: PcOf(w, t) != Satisfied)
    && (a.FinishState? && a.cpu < |w.sys.cpus| ==> PcOf(w, Curr(w, a.cpu)) == Satisfied)
  }

  // A waiter that is on its way to try the mutex.
  predicate Ready(w: World, t: Tid) {
    || PcOf(w, t) == Prepared
    || (PcOf(w, t) == Committed && t in w.sys.threads && w.sys.threads[t].state.Running?)
  }

  ghost predicate SomeReady(w: World) {
    exists t :: Ready(w, t)
  }

  ghost predicate SomeSleeping(w: World) {
    exists t :: Sleeping(w, t)
  }

  // A walk that has not spent itself and still has every sleeper ahead.
  ghost predicate Reaching(w: World) {
    w.walk.Some? && w.walk.value.todo != [] && forall t :: Sleeping(w, t) ==> t in w.walk.value.todo
  }

  ghost predicate LinkedOk(w: World, t: Tid) {
    PcOf(w, t) != Outside ==>
      && t in w.queue && t in w.sys.threads
      && w.sys.threads[t].state in {Running, Interruptible, Uninterruptible}
      && (PcOf(w, t) == Leaving ==> w.sys.threads[t].state.Running?)
      && (PcOf(w, t) == Satisfied ==> w.done == 0)
  }

  // The walk has tested its next waiter and is about to set its state.
  predicate Setting(w: World) {
    && w.walk.Some? && w.walk.value.todo != [] && w.walk.value.lock.Some? && w.walk.value.lock.value < |w.sys.cpus|
    && var lock := w.sys.cpus[w.walk.value.lock.value].lock; lock.Some? && lock.value.Setter?
  }

  // A waiter that has got the mutex in that time is no loss.
  predicate SpentOk(w: World) {
    Setting(w) && PcOf(w, w.walk.value.todo[0]) == Leaving ==> w.done == 0 || w.pending > 0
  }

  ghost predicate MutexInv(w: World) {
    && Inv(w.sys) && NoDup(w.queue) && w.done <= 1
    && (forall t :: t in w.queue ==> PcOf(w, t) != Outside)
    && (forall t :: LinkedOk(w, t))
    && WalkOk(w) && SpentOk(w)
    && (w.done > 0 && SomeSleeping(w) ==> w.pending > 0 || Reaching(w) || SomeReady(w))
  }

  lemma SysStepMutex(w: World, e: Step)
    requires MutexInv(w) && Allowed(w, SysStep(e))
    ensures MutexInv(Do(w, SysStep(e)))
  {
    hide Inv, Enabled, Defined, Disciplined, Apply;
    StepKeepsInv(w.sys, e);
    WalkStays(w, e);
    hide WalkOk;
    var w' := Do(w, SysStep(e));
    forall t
      ensures LinkedOk(w', t) && (Sleeping(w', t) ==> Sleeping(w, t)) && (Ready(w, t) ==> Ready(w', t))
    {
      assert LinkedOk(w, t);
      if PcOf(w, t) != Outside {
        OthersStates(w.sys, e, t);
      }
    }
  }

  lemma WaiterMutex(w: World, a: Act)
    requires MutexInv(w) && Allowed(w, a) && MutexRule(w, a)
    requires a.Prepare? || a.Test? || a.FinishState? || a.Unlink?
    ensures MutexInv(Do(w, a))
  {
    hide Inv;
    var w' := Do(w, a);
    var me := Curr(w, a.cpu);
    match a {
      case Prepare(c, st) => OwnStateKeeps(w, c, st); assert Ready(w', me);
      case FinishState(c) => OwnStateKeeps(w, c, Running);
      case Unlink(c) => WithoutRemoves(w.queue, me);
      case _ =>
    }
    assert LinkedOk(w, me);
    forall t
      ensures LinkedOk(w', t)
      ensures t != me ==> Sleeping(w', t) == Sleeping(w, t) && Ready(w', t) == Ready(w, t)
    {
      assert LinkedOk(w, t);
    }
  }

  lemma WakerMutex(w: World, a: Act)
    requires MutexInv(w) && Allowed(w, a) && MutexRule(w, a)
    requires a.Raise? || a.Take? || a.StartWalk? || a.EndWalk?
    ensures MutexInv(Do(w, a))
  {
    hide Inv;
    var w' := Do(w, a);
    forall t
      ensures LinkedOk(w', t) && Sleeping(w', t) == Sleeping(w, t) && Ready(w', t) == Ready(w, t)
    {
      assert LinkedOk(w, t);
    }
  }

  lemma LockMutex(w: World, a: Act)
    requires MutexInv(w) && Allowed(w, a) && (a.WalkLock? || a.WalkTest?)
    ensures MutexInv(Do(w, a))
  {
    var w', first := Do(w, a), w.walk.value.todo[0];
    if a.WalkLock? { WalkLocks(w); NotSetting(w); } else { WalkTests(w); }
    hide Inv, Apply, WalkOk;
    assert LinkedOk(w, first);
    forall t
      ensures LinkedOk(w', t) && Ready(w', t) == Ready(w, t) && Sleeping(w', t) == Sleeping(w, t)
    {
      assert LinkedOk(w, t);
    }
  }

  lemma NotSetting(w: World)
    requires Allowed(w, WalkLock)
    ensures !Setting(Do(w, WalkLock))
  {
  }

  lemma SetMutex(w: World)
    requires MutexInv(w) && Allowed(w, WalkSet)
    ensures MutexInv(Do(w, WalkSet))
  {
    var w', first := Do(w, WalkSet), w.walk.value.todo[0];
    WalkSets(w);
    assert Setting(w);
    hide Inv, Apply, WalkOk;
    assert LinkedOk(w, first);
    forall t
      ensures LinkedOk(w', t) && (Ready(w, t) ==> Ready(w', t)) && (Sleeping(w', t) ==> Sleeping(w, t) && t != first)
    {
      assert LinkedOk(w, t);
    }
    if PcOf(w, first) in {Prepared, Committed} {
      assert Ready(w', first);
    }
  }

  lemma MutexKeeps(w: World, a: Act)
    requires MutexInv(w) && Allowed(w, a) && MutexRule(w, a)
    ensures MutexInv(Do(w, a))
  {
    hide MutexInv, Do, Allowed, MutexRule;
    match a
    case SysStep(e) => SysStepMutex(w, e);
    case WalkLock => LockMutex(w, a);
    case WalkTest => LockMutex(w, a);
    case WalkSet => SetMutex(w);
    case Prepare(_, _) => WaiterMutex(w, a);
    case Test(_) => WaiterMutex(w, a);
    case FinishState(_) => WaiterMutex(w, a);
    case Unlink(_) => WaiterMutex(w, a);
    case _ => WakerMutex(w, a);
  }

  ghost predicate MutexRun(w: World, acts: seq<Act>)
    requires CanRun(w, acts)
    decreases |acts|
  {
    acts == [] || (MutexRule(w, acts[0]) && MutexRun(Do(w, acts[0]), acts[1..]))
  }

  lemma {:induction false} RunKeepsMutexInv(w: World, acts: seq<Act>)
    requires MutexInv(w) && CanRun(w, acts) && MutexRun(w, acts)
    ensures MutexInv(Ran(w, acts))
    decreases |acts|
  {
    hide MutexInv, Do, Allowed, MutexRule;
    if acts != [] {
      MutexKeeps(w, acts[0]);
      RunKeepsMutexInv(Do(w, acts[0]), acts[1..]);
    }
  }

  // Waking one is enough for the mutex: after any run, if it is free, every
  // unlocker has finished and somebody sleeps on it, then some waiter is awake
  // and will try to take it (and its own unlock wakes the next).
  lemma MutexNoLostWakeup(w: World, acts: seq<Act>, t: Tid) returns (r: Tid)
    requires MutexInv(w) && CanRun(w, acts) && MutexRun(w, acts)
    requires var w' := Ran(w, acts);
             w'.done > 0 && w'.pending == 0 && w'.walk.None? && Sleeping(w', t)
    ensures Ready(Ran(w, acts), r)
  {
    hide CanRun, Ran, Inv, MutexRun;
    RunKeepsMutexInv(w, acts);
    var w' := Ran(w, acts);
    assert SomeSleeping(w');
    assert SomeReady(w');
    r :| Ready(w', r);
  }
}

// Wait queues and completions (kernel/wait.c, include/olux/wait.h) over the
// scheduler. A waiter loops over prepare_to_wait, testing its condition, and
// schedule; a waker makes the condition true and then walks the queue. Every
// interleaving of their steps with the scheduler's own is a run, as long as no
// run-queue lock is taken for a thread in transit.
module WaitQueue {
  import opened Common
  import opened Lists
  import opened RunQueue
  import opened Sched

  // Where a thread is in the wait loop.
  datatype Pc =
    | Outside
    | Prepared    // on the queue, state set, condition not yet tested
    | Committed   // tested false; about to call schedule, or back from it
    | Satisfied   // tested true; finish_wait still to come
    | Leaving     // finish_wait has set the state and not yet unlinked

  // wake_up or wake_up_one holding the queue lock on a CPU, and, inside
  // try_to_wake_up, the run-queue lock of the CPU in `lock`.
  datatype Walk = Walk(cpu: nat, todo: seq<Tid>, one: bool, lock: Option<nat>)

  // `done` is the completion count: the condition is done > 0. `pending` counts
  // the wakers that have raised it and have yet to start their walk.
  datatype World = World(sys: Sys, queue: seq<Tid>, done: nat, pcs: map<Tid, Pc>, pending: nat, walk: Option<Walk>)

  const WAKE_MASK := {Interruptible, Uninterruptible}

  function PcOf(w: World, t: Tid): Pc {
    if t in w.pcs then w.pcs[t] else Outside
  }

  datatype Act =
    | SysStep(e: Step)                      // anything else the kernel does
    | Prepare(cpu: nat, state: TaskState)   // prepare_to_wait
    | Test(cpu: nat)                        // try_consume
    | FinishState(cpu: nat)                 // finish_wait, first half
    | Unlink(cpu: nat)                      // finish_wait, second half
    | Raise                                 // complete, before its wakeup
    | Take                                  // somebody else consumes
    | StartWalk(cpu: nat, one: bool)
    | WalkLock                              // try_to_wake_up of the next waiter: take its lock
    | WalkTest                              // ... test its state
    | WalkSet                               // ... set it
    | EndWalk

  function Curr(w: World, c: nat): Tid
    requires c < |w.sys.cpus|
  {
    w.sys.cpus[c].curr
  }

  // A thread acting on its own behalf on CPU c.
  predicate Acting(w: World, c: nat) {
    && Free(w.sys, c) && Curr(w, c) in w.sys.threads && Curr(w, c) != w.sys.cpus[c].idle
    && !w.sys.threads[Curr(w, c)].state.Dead?
  }

  predicate Walking(w: World) {
    w.walk.Some? && Free(w.sys, w.walk.value.cpu)
  }

  // The walk holds the lock of CPU d's queues.
  predicate WalkHolds(w: World, d: nat) {
    w.walk.Some? && w.walk.value.lock == Some(d)
  }

  function NextLock(k: Walk): Step
    requires k.todo != []
  {
    Step.WakeLock(k.cpu, k.todo[0], WAKE_MASK)
  }

  ghost predicate Allowed(w: World, a: Act) {
    match a
    case SysStep(e) =>
      && Enabled(w.sys, e) && Defined(w.sys, e) && Disciplined(w.sys, e)
      && (e.WakeTest? || e.WakeSet? ==> !WalkHolds(w, e.cpu))
      && (e.SetState? ==> PcOf(w, Curr(w, e.cpu)) == Outside)
      // kernel code is not preempted: a waiter gives up its CPU only in schedule
      && (e.SwitchBegin? ==> PcOf(w, Curr(w, e.cpu)) in {Outside, Committed})
    case Prepare(c, st) =>
      Acting(w, c) && w.walk.None? && st in WAKE_MASK && PcOf(w, Curr(w, c)) in {Outside, Committed}
    case Test(c) => Acting(w, c) && PcOf(w, Curr(w, c)) == Prepared
    case FinishState(c) => Acting(w, c) && PcOf(w, Curr(w, c)) in {Committed, Satisfied}
    case Unlink(c) => Acting(w, c) && w.walk.None? && PcOf(w, Curr(w, c)) == Leaving
    case Raise => true
    case Take => w.done > 0
    case StartWalk(c, one) => Free(w.sys, c) && w.walk.None? && w.pending > 0
    case WalkLock =>
      && w.walk.Some? && w.walk.value.todo != [] && w.walk.value.lock.None?
      && Enabled(w.sys, NextLock(w.walk.value)) && Disciplined(w.sys, NextLock(w.walk.value))
    case WalkTest =>
      && w.walk.Some? && w.walk.value.todo != [] && w.walk.value.lock.Some? && w.walk.value.todo[0] in w.sys.threads
      && var e := WakeTest(w.walk.value.lock.value); Enabled(w.sys, e) && Defined(w.sys, e)
    case WalkSet =>
      && w.walk.Some? && w.walk.value.todo != [] && w.walk.value.lock.Some?
      && var e := WakeSet(w.walk.value.lock.value); Enabled(w.sys, e) && Defined(w.sys, e)
    case EndWalk => Walking(w) && w.walk.value.todo == [] && w.walk.value.lock.None?
  }

  function Do(w: World, a: Act): World
    requires Allowed(w, a)
  {
    match a
    case SysStep(e) => w.(sys := Apply(w.sys, e))
    case Prepare(c, st) =>
      var t := Curr(w, c);
      w.(sys := WithState(w.sys, t, st), pcs := w.pcs[t := Prepared],
         queue := if t in w.queue then w.queue else w.queue + [t])
    case Test(c) =>
      var t := Curr(w, c);
      if w.done > 0 then w.(done := w.done - 1, pcs := w.pcs[t := Satisfied])
      else w.(pcs := w.pcs[t := Committed])
    case FinishState(c) =>
      var t := Curr(w, c);
      w.(sys := WithState(w.sys, t, Running), pcs := w.pcs[t := Leaving])
    case Unlink(c) =>
      var t := Curr(w, c);
      w.(queue := Without(w.queue, t), pcs := w.pcs[t := Outside])
    case Raise => w.(done := w.done + 1, pending := w.pending + 1)
    case Take => w.(done := w.done - 1)
    case StartWalk(c, one) => w.(pending := w.pending - 1, walk := Some(Walk(c, w.queue, one, None)))
    case WalkLock =>
      var k := w.walk.value;
      w.(sys := Apply(w.sys, NextLock(k)), walk := Some(k.(lock := Some(w.sys.threads[k.todo[0]].cpu))))
    case WalkTest =>
      var k := w.walk.value;
      var found := w.sys.threads[k.todo[0]].state in WAKE_MASK;
      w.(sys := Apply(w.sys, WakeTest(k.lock.value)), walk := Some(if found then k else k.(todo := k.todo[1..], lock := None)))
    case WalkSet =>
      var k := w.walk.value;
      w.(sys := Apply(w.sys, WakeSet(k.lock.value)),
         walk := Some(k.(todo := if k.one then [] else k.todo[1..], lock := None)))
    case EndWalk => w.(walk := None)
  }

  // ---- the invariant ----

  // A waiter that is going to sleep, or sleeps.
  predicate Sleeping(w: World, t: Tid) {
    PcOf(w, t) == Committed && t in w.sys.threads && !w.sys.threads[t].state.Running?
  }

  // Some waker is still bound to reach t.
  predicate Coming(w: World, t: Tid) {
    w.pending > 0 || (w.walk.Some? && t in w.walk.value.todo)
  }

  ghost predicate WaiterOk(w: World, t: Tid) {
    PcOf(w, t) != Outside ==>
      && t in w.queue && t in w.sys.threads
      && w.sys.threads[t].state in {Running, Interruptible, Uninterruptible}
      && (Sleeping(w, t) && w.done > 0 ==> Coming(w, t))
  }

  // The walk has waiters ahead, and its lock is for the next of them.
  ghost predicate WalkOk(w: World) {
    w.walk.Some? ==>
      && (forall t :: t in w.walk.value.todo ==> t in w.queue)
      && (w.walk.value.lock.Some? ==>
            && var d := w.walk.value.lock.value;
            && w.walk.value.todo != [] && d < |w.sys.cpus|
            && (|| w.sys.cpus[d].lock == Some(Waker(w.walk.value.cpu, w.walk.value.todo[0], WAKE_MASK))
                || w.sys.cpus[d].lock == Some(Setter(w.walk.value.cpu, w.walk.value.todo[0]))))
  }

  ghost predicate WaitInv(w: World) {
    && Inv(w.sys) && NoDup(w.queue)
    && (forall t :: t in w.queue ==> PcOf(w, t) != Outside)
    && (forall t :: WaiterOk(w, t))
    && WalkOk(w) && (w.walk.Some? ==> !w.walk.value.one)
  }

  // Only a thread itself leaves the Running state.
  lemma OthersStates(s: Sys, e: Step, t: Tid)
    requires Inv(s) && Enabled(s, e) && Defined(s, e) && t in s.threads
    ensures t in Apply(s, e).threads
    ensures var st := s.threads[t].state; var st' := Apply(s, e).threads[t].state;
            st' == st || st' == Running || (e.SetState? && t == s.cpus[e.cpu].curr)
  {
    hide CpuOk, ThreadOk, QueuesOk, OneWaker, RqOk;
    match e
    case SwitchBegin(c) => hide Switched; SwitchFacts(s, c);
    case PrioEnd(c) => hide Del, Add;
    case WakeEnd(c, target) =>
    case _ =>
  }

  // A waker's lock stays until its own next step.
  lemma WakerStays(s: Sys, e: Step, d: nat)
    requires Inv(s) && Enabled(s, e) && Defined(s, e) && d < |s.cpus| && e != WakeTest(d) && e != WakeSet(d)
    requires s.cpus[d].lock.Some? && (s.cpus[d].lock.value.Waker? || s.cpus[d].lock.value.Setter?)
    ensures d < |Apply(s, e).cpus| && Apply(s, e).cpus[d].lock == s.cpus[d].lock
  {
    hide CpuOk, ThreadOk, QueuesOk, OneWaker, RqOk, HoldOk;
    match e
    case SwitchBegin(c) => hide Switched; SwitchFacts(s, c);
    case PrioEnd(c) => hide Del, Add;
    case _ =>
  }

  lemma WalkStays(w: World, e: Step)
    requires Inv(w.sys) && WalkOk(w) && Allowed(w, SysStep(e))
    ensures WalkOk(Do(w, SysStep(e)))
    ensures w.walk.Some? && w.walk.value.lock.Some? ==>
              var d, s' := w.walk.value.lock.value, Do(w, SysStep(e)).sys;
              d < |w.sys.cpus| && d < |s'.cpus| && s'.cpus[d].lock == w.sys.cpus[d].lock
  {
    hide Inv, Enabled, Defined, Disciplined, Apply;
    if w.walk.Some? && w.walk.value.lock.Some? {
      WakerStays(w.sys, e, w.walk.value.lock.value);
    }
  }

  lemma SysStepKeeps(w: World, e: Step)
    requires WaitInv(w) && Allowed(w, SysStep(e))
    ensures WaitInv(Do(w, SysStep(e)))
  {
    hide Inv, Enabled, Defined, Disciplined, Apply;
    StepKeepsInv(w.sys, e);
    WalkStays(w, e);
    hide WalkOk;
    var w' := Do(w, SysStep(e));
    forall t
      ensures WaiterOk(w', t)
    {
      assert WaiterOk(w, t);
      if PcOf(w, t) != Outside {
        OthersStates(w.sys, e, t);
      }
    }
  }

  // The current thread of an acting CPU can set its own state.
  lemma OwnStateKeeps(w: World, c: nat, st: TaskState)
    requires Inv(w.sys) && Acting(w, c) && !st.New?
    ensures Inv(WithState(w.sys, Curr(w, c), st))
  {
    hide Inv, Apply;
    StepKeepsInv(w.sys, SetState(c, st));
    ApplySetState(w.sys, c, st);
  }

  lemma ApplySetState(s: Sys, c: nat, st: TaskState)
    requires Enabled(s, SetState(c, st))
    ensures Apply(s, SetState(c, st)) == WithState(s, s.cpus[c].curr, st)
  {
    hide Inv;
  }

  lemma WaiterKeeps(w: World, a: Act)
    requires WaitInv(w) && Allowed(w, a) && (a.Prepare? || a.Test? || a.FinishState? || a.Unlink?)
    ensures WaitInv(Do(w, a))
  {
    hide Inv;
    var w' := Do(w, a);
    var me := Curr(w, a.cpu);
    match a {
      case Prepare(c, st) => OwnStateKeeps(w, c, st);
      case FinishState(c) => OwnStateKeeps(w, c, Running);
      case Unlink(c) => WithoutRemoves(w.queue, me);
      case _ =>
    }
    assert WaiterOk(w, me);
    forall t
      ensures WaiterOk(w', t)
    {
      assert WaiterOk(w, t);
    }
  }

  lemma WakerKeeps(w: World, a: Act)
    requires WaitInv(w) && Allowed(w, a)
    requires a.Raise? || a.Take? || (a.StartWalk? && !a.one) || a.EndWalk?
    ensures WaitInv(Do(w, a))
  {
    hide Inv;
    var w' := Do(w, a);
    forall t
      ensures WaiterOk(w', t)
    {
      assert WaiterOk(w, t);
    }
  }

  // Taking a waiter's lock moves nobody.
  lemma WalkLocks(w: World)
    requires Inv(w.sys) && WalkOk(w) && Allowed(w, WalkLock)
    ensures var w' := Do(w, WalkLock);
            Inv(w'.sys) && WalkOk(w') && w'.sys.threads == w.sys.threads && |w'.sys.cpus| == |w.sys.cpus|
  {
    StepKeepsInv(w.sys, NextLock(w.walk.value));
    hide Inv;
  }

  // The test is a test of the next waiter, and the walk goes past one that is
  // awake.
  lemma WalkTests(w: World)
    requires Inv(w.sys) && WalkOk(w) && Allowed(w, WalkTest)
    ensures var w' := Do(w, WalkTest);
            && Inv(w'.sys) && WalkOk(w') && w'.sys.threads == w.sys.threads && |w'.sys.cpus| == |w.sys.cpus|
  {
    StepKeepsInv(w.sys, WakeTest(w.walk.value.lock.value));
    hide Inv;
    var k := w.walk.value;
    assert forall t :: t in k.todo[1..] ==> t in k.todo;
  }

  // The next waiter is runnable, whatever it has done since the test.
  lemma WalkSets(w: World)
    requires Inv(w.sys) && WalkOk(w) && Allowed(w, WalkSet)
    ensures var w' := Do(w, WalkSet); var t := w.walk.value.todo[0];
            && Inv(w'.sys) && WalkOk(w') && w'.sys.threads.Keys == w.sys.threads.Keys
            && (forall u :: u in w.sys.threads && u != t ==> w'.sys.threads[u] == w.sys.threads[u])
            && t in w.sys.threads && w'.sys.threads[t].state == Running
  {
    StepKeepsInv(w.sys, WakeSet(w.walk.value.lock.value));
    hide Inv;
    var k := w.walk.value;
    assert forall t :: t in k.todo[1..] ==> t in k.todo;
  }

  lemma WalkKeeps(w: World, a: Act)
    requires WaitInv(w) && Allowed(w, a) && (a.WalkLock? || a.WalkTest? || a.WalkSet?)
    ensures WaitInv(Do(w, a))
  {
    var w', todo := Do(w, a), w.walk.value.todo;
    if a.WalkLock? { WalkLocks(w); } else if a.WalkTest? { WalkTests(w); } else { WalkSets(w); }
    hide Inv, Apply, WalkOk;
    forall t
      ensures WaiterOk(w', t)
    {
      assert WaiterOk(w, t);
      if t != todo[0] && t in todo {
        assert t in todo[1..];
      }
    }
  }

  // Every step of every waiter, waker and bystander.
  lemma ActKeepsInv(w: World, a: Act)
    requires WaitInv(w) && Allowed(w, a) && !(a.StartWalk? && a.one)
    ensures WaitInv(Do(w, a))
  {
    hide WaitInv, Do, Allowed;
    match a
    case SysStep(e) => SysStepKeeps(w, e);
    case WalkLock => WalkKeeps(w, a);
    case WalkTest => WalkKeeps(w, a);
    case WalkSet => WalkKeeps(w, a);
    case Prepare(_, _) => WaiterKeeps(w, a);
    case Test(_) => WaiterKeeps(w, a);
    case FinishState(_) => WaiterKeeps(w, a);
    case Unlink(_) => WaiterKeeps(w, a);
    case _ => WakerKeeps(w, a);
  }

  ghost predicate CanRun(w: World, acts: seq<Act>)
    decreases |acts|
  {
    acts == [] || (Allowed(w, acts[0]) && CanRun(Do(w, acts[0]), acts[1..]))
  }

  ghost function Ran(w: World, acts: seq<Act>): World
    requires CanRun(w, acts)
    decreases |acts|
  {
    if acts == [] then w else Ran(Do(w, acts[0]), acts[1..])
  }

  // All wakeups of the run are wake_up rather than wake_up_one.
  predicate WakesAll(acts: seq<Act>) {
    forall i :: 0 <= i < |acts| ==> !(acts[i].StartWalk? && acts[i].one)
  }

  lemma {:induction false} RunKeepsWaitInv(w: World, acts: seq<Act>)
    requires WaitInv(w) && CanRun(w, acts) && WakesAll(acts)
    ensures WaitInv(Ran(w, acts))
    decreases |acts|
  {
    hide WaitInv, Do, Allowed;
    if acts != [] {
      ActKeepsInv(w, acts[0]);
      RunKeepsWaitInv(Do(w, acts[0]), acts[1..]);
    }
  }

  // No lost wakeup. After any run, once every waker has finished and while the
  // condition holds, no waiter is asleep: each is current, queued, or in the
  // hands of one waking CPU.
  lemma NoLostWakeup(w: World, acts: seq<Act>, t: Tid) returns (pl: Place)
    requires WaitInv(w) && CanRun(w, acts) && WakesAll(acts)
    requires var w' := Ran(w, acts);
             && w'.done > 0 && w'.pending == 0 && w'.walk.None?
             && PcOf(w', t) == Committed && !IsIdle(w'.sys, t)
    ensures var w' := Ran(w, acts);
            && t in w'.sys.threads && w'.sys.threads[t].state.Running?
            && At(w'.sys, t, pl) && !pl.Asleep?
            && forall q :: At(w'.sys, t, q) ==> q == pl
  {
    hide CanRun, Ran, Inv, Placed, At;
    RunKeepsWaitInv(w, acts);
    var w' := Ran(w, acts);
    assert WaiterOk(w', t);
    InvIsPlaced(w'.sys);
    pl := OnePlace(w'.sys, t);
    NotAsleep(w'.sys, t, pl);
  }

  lemma NotAsleep(s: Sys, t: Tid, pl: Place)
    requires t in s.threads && s.threads[t].state.Running? && At(s, t, pl)
    ensures !pl.Asleep?
  {
  }
}

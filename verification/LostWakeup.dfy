// Runs that lose a wakeup of wake_up_one (kernel/wait.c), with two waiters.
module LostWakeup {
  import opened Common
  import opened Lists
  import opened RunQueue
  import opened Sched
  import opened WaitQueue
  import opened WakeOne
  import opened Completion

  ghost predicate IsEmpty(q: Rq) {
    RqOk(q) && forall p :: 0 <= p < NR_PRIO ==> q.queues[p] == []
  }

  // Two CPUs with nothing queued: thread 1 runs on CPU 0, thread 2 on CPU 1
  // unless it is off it; 10 and 11 are the idle threads.
  function TwoThreads(q: Rq, st1: TaskState, st2: TaskState, off2: bool): Sys {
    Sys([Cpu(q, 1, 10, None, None), Cpu(q, if off2 then 11 else 2, 11, None, None)],
        map[1 := Thread(st1, 25, false, false, true, 0), 2 := Thread(st2, 25, false, false, !off2, 1),
            10 := Thread(Running, 31, false, false, false, 0), 11 := Thread(Running, 31, false, false, off2, 1)])
  }

  lemma EmptyQueues(threads: map<Tid, Thread>, q: Rq, c: nat)
    requires IsEmpty(q) && forall t :: t in threads ==> !threads[t].onRq
    ensures QueuesOk(threads, q, c)
  {
    RqShape(q);
    hide RqOk;
  }

  lemma TwoThreadsShape(q: Rq, st1: TaskState, st2: TaskState, off2: bool)
    ensures var s := TwoThreads(q, st1, st2, off2);
            && |s.cpus| == 2 && Free(s, 0) && Free(s, 1) && Unlocked(s, 0) && Unlocked(s, 1)
            && s.cpus[0].curr == 1 && s.cpus[0].idle == 10
            && s.cpus[1].curr == (if off2 then 11 else 2) && s.cpus[1].idle == 11
            && 1 in s.threads && s.threads[1].state == st1 && s.threads[1].onCpu && s.threads[1].cpu == 0
            && 2 in s.threads && s.threads[2].state == st2
  {
  }

  lemma TwoThreadsOk(q: Rq)
    requires IsEmpty(q)
    ensures Inv(TwoThreads(q, Running, Running, false))
  {
    hide QueuesOk, IsEmpty, RqOk;
    var s := TwoThreads(q, Running, Running, false);
    EmptyQueues(s.threads, q, 0);
    EmptyQueues(s.threads, q, 1);
    assert CpuOk(s, 0) && HoldOk(s, 0);
    assert CpuOk(s, 1) && HoldOk(s, 1);
    assert ThreadOk(s, 1);
    assert ThreadOk(s, 2);
    assert ThreadOk(s, 10);
    assert ThreadOk(s, 11);
    hide CpuOk, ThreadOk, HoldOk;
  }

  function Scene(sys: Sys, queue: seq<Tid>, done: nat, pc1: Pc, pc2: Pc, pending: nat, walk: Option<Walk>): World {
    World(sys, queue, done, map[1 := pc1, 2 := pc2], pending, walk)
  }

  // Both threads run and nobody waits.
  function Start(q: Rq): World {
    Scene(TwoThreads(q, Running, Running, false), [], 0, Outside, Outside, 0, None)
  }

  // Thread 2 sleeps on CPU 1's behalf; both are on the queue.
  function TwoWait(q: Rq, st1: TaskState, st2: TaskState, done: nat, pc1: Pc): World {
    Scene(TwoThreads(q, st1, st2, true), [1, 2], done, pc1, Committed, 0, None)
  }

  lemma StartOk(q: Rq)
    requires IsEmpty(q)
    ensures CompletionInv(Start(q)) && SoloInv(Start(q)) && MutexInv(Start(q))
  {
    hide IsEmpty, Inv;
    TwoThreadsOk(q);
  }

  // w goes to w' by one step of the run.
  ghost predicate Goes(w: World, a: Act, w': World) {
    Allowed(w, a) && Do(w, a) == w'
  }

  lemma GoesOn(w: World, a: Act, w': World, acts: seq<Act>)
    requires Goes(w, a, w') && CanRun(w', acts)
    ensures CanRun(w, [a] + acts) && Ran(w, [a] + acts) == Ran(w', acts)
  {
    hide Allowed, Do;
    assert ([a] + acts)[1..] == acts;
  }

  lemma RanNone(w: World)
    ensures CanRun(w, []) && Ran(w, []) == w
  {
  }

  lemma {:induction false} RanAppend(w: World, a: seq<Act>, b: seq<Act>)
    requires CanRun(w, a) && CanRun(Ran(w, a), b)
    ensures CanRun(w, a + b) && Ran(w, a + b) == Ran(Ran(w, a), b)
    decreases |a|
  {
    hide Do, Allowed;
    if a == [] {
      assert a + b == b;
    } else {
      RanAppend(Do(w, a[0]), a[1..], b);
      assert (a + b)[1..] == a[1..] + b;
    }
  }

  lemma StateOf(q: Rq, st1: TaskState, st2: TaskState, off2: bool, st: TaskState)
    ensures var s := TwoThreads(q, st1, st2, off2);
            && 1 in s.threads && WithState(s, 1, st) == TwoThreads(q, st, st2, off2)
            && 2 in s.threads && WithState(s, 2, st) == TwoThreads(q, st1, st, off2)
  {
  }

  lemma Prepare1Goes(q: Rq, off2: bool, queue: seq<Tid>, done: nat, pc1: Pc, pc2: Pc, st: TaskState, st2: TaskState)
    requires st in WAKE_MASK && pc1 in {Outside, Committed}
    ensures Goes(Scene(TwoThreads(q, Running, st2, off2), queue, done, pc1, pc2, 0, None),
                 Prepare(0, st),
                 Scene(TwoThreads(q, st, st2, off2), if 1 in queue then queue else queue + [1], done,
                       Prepared, pc2, 0, None))
  {
    hide TwoThreads, WithState, Enabled, Defined, Disciplined, Apply;
    TwoThreadsShape(q, Running, st2, off2);
    StateOf(q, Running, st2, off2, st);
  }

  lemma Prepare2Goes(q: Rq, st: TaskState)
    requires st in WAKE_MASK
    ensures Goes(Scene(TwoThreads(q, st, Running, false), [1], 0, Committed, Outside, 0, None),
                 Prepare(1, st),
                 Scene(TwoThreads(q, st, st, false), [1, 2], 0, Committed, Prepared, 0, None))
  {
    hide TwoThreads, WithState;
    TwoThreadsShape(q, st, Running, false);
    StateOf(q, st, Running, false, st);
  }

  lemma Test1Goes(q: Rq, off2: bool, queue: seq<Tid>, done: nat, pc2: Pc, st1: TaskState, st2: TaskState)
    requires !st1.Dead?
    ensures var s := TwoThreads(q, st1, st2, off2);
            Goes(Scene(s, queue, done, Prepared, pc2, 0, None), Test(0),
                 if done > 0 then Scene(s, queue, done - 1, Satisfied, pc2, 0, None)
                 else Scene(s, queue, done, Committed, pc2, 0, None))
  {
    hide TwoThreads;
    TwoThreadsShape(q, st1, st2, off2);
  }

  lemma Test2Goes(q: Rq, st: TaskState)
    requires st in WAKE_MASK
    ensures var s := TwoThreads(q, st, st, false);
            Goes(Scene(s, [1, 2], 0, Committed, Prepared, 0, None), Test(1),
                 Scene(s, [1, 2], 0, Committed, Committed, 0, None))
  {
    hide TwoThreads;
    TwoThreadsShape(q, st, st, false);
  }

  // Thread 2 is off CPU 1 and finish_switch still to come.
  function Switching2(q: Rq, st: TaskState): World {
    Scene(Sys([Cpu(q, 1, 10, None, None), Cpu(q, 11, 11, None, Some(Switching(2)))],
              map[1 := Thread(st, 25, false, false, true, 0), 2 := Thread(st, 25, false, false, true, 1),
                  10 := Thread(Running, 31, false, false, false, 0), 11 := Thread(Running, 31, false, false, true, 1)]),
          [1, 2], 0, Committed, Committed, 0, None)
  }

  // Thread 2 sleeps: CPU 1 goes idle.
  lemma SleepGoes(q: Rq, st: TaskState)
    requires IsEmpty(q) && st in WAKE_MASK
    ensures Goes(Scene(TwoThreads(q, st, st, false), [1, 2], 0, Committed, Committed, 0, None),
                 SysStep(SwitchBegin(1)), Switching2(q, st))
    ensures Goes(Switching2(q, st), SysStep(SwitchEnd(1)), TwoWait(q, st, st, 0, Committed))
  {
    var s, s1 := TwoThreads(q, st, st, false), Switching2(q, st).sys;
    assert Lowest(q.bitmap, 0) == NR_PRIO;
    assert Enabled(s, SwitchBegin(1)) && Defined(s, SwitchBegin(1));
    assert Switched(s, 1) == s1;
    assert Finished(s1, 1) == TwoThreads(q, st, st, true);
  }

  // Both threads look and find nothing, and thread 2 goes to sleep.
  function WaitActs(st: TaskState): seq<Act> {
    [Prepare(0, st), Test(0), Prepare(1, st), Test(1), SysStep(SwitchBegin(1)), SysStep(SwitchEnd(1))]
  }

  // complete(), or an unlock, on CPU 1.
  function WakeActs(): seq<Act> {
    [Raise, StartWalk(1, true), WalkLock, WalkTest, WalkSet, EndWalk]
  }

  lemma BothWait(q: Rq, st: TaskState)
    requires IsEmpty(q) && st in WAKE_MASK
    ensures CanRun(Start(q), WaitActs(st)) && Ran(Start(q), WaitActs(st)) == TwoWait(q, st, st, 0, Committed)
  {
    hide Goes, CanRun, Ran, Do, Allowed, IsEmpty, TwoThreads, Switching2;
    var s1, s2 := TwoThreads(q, st, Running, false), TwoThreads(q, st, st, false);
    var w1 := Scene(s1, [1], 0, Prepared, Outside, 0, None);
    var w2 := Scene(s1, [1], 0, Committed, Outside, 0, None);
    var w3 := Scene(s2, [1, 2], 0, Committed, Prepared, 0, None);
    var w4 := Scene(s2, [1, 2], 0, Committed, Committed, 0, None);
    var w5 := Switching2(q, st);
    var w6 := TwoWait(q, st, st, 0, Committed);
    var none: seq<Tid> := [];
    assert none + [1] == [1];
    Prepare1Goes(q, false, none, 0, Outside, Outside, st, Running);
    Test1Goes(q, false, [1], 0, Outside, st, Running);
    Prepare2Goes(q, st);
    Test2Goes(q, st);
    SleepGoes(q, st);
    RanNone(w6);
    var a6 := [SysStep(SwitchEnd(1))] + [];
    GoesOn(w5, SysStep(SwitchEnd(1)), w6, []);
    var a5 := [SysStep(SwitchBegin(1))] + a6;
    GoesOn(w4, SysStep(SwitchBegin(1)), w5, a6);
    GoesOn(w3, Test(1), w4, a5);
    GoesOn(w2, Prepare(1, st), w3, [Test(1)] + a5);
    GoesOn(w1, Test(0), w2, [Prepare(1, st)] + ([Test(1)] + a5));
    var rest := [Test(0)] + ([Prepare(1, st)] + ([Test(1)] + a5));
    GoesOn(Start(q), Prepare(0, st), w1, rest);
    assert [Prepare(0, st)] + rest == WaitActs(st);
  }

  function Asked1(q: Rq, st: TaskState, lock: Hold): Sys {
    WithLock(TwoThreads(q, st, st, true), 0, Some(lock))
  }

  lemma WakeActsGo(q: Rq, st: TaskState)
    requires st in WAKE_MASK
    ensures var s, s' := TwoThreads(q, st, st, true), TwoThreads(q, Running, st, true);
            var e := Step.WakeLock(1, 1, WAKE_MASK);
            var s1, s2 := Asked1(q, st, Waker(1, 1, WAKE_MASK)), Asked1(q, st, Setter(1, 1));
            && Enabled(s, e) && Disciplined(s, e) && Apply(s, e) == s1 && s1.threads == s2.threads == s.threads
            && Enabled(s1, WakeTest(0)) && Defined(s1, WakeTest(0)) && Apply(s1, WakeTest(0)) == s2
            && Enabled(s2, WakeSet(0)) && Defined(s2, WakeSet(0)) && Apply(s2, WakeSet(0)) == s'
  {
    var s := TwoThreads(q, st, st, true);
    assert !Moving(s, 1);
    var s1, s2 := Asked1(q, st, Waker(1, 1, WAKE_MASK)), Asked1(q, st, Setter(1, 1));
    assert Tested(s1, 0) == s2;
    assert WithLock(s2, 0, None) == s;
    assert Woke(s2, 0) == WithState(s, 1, Running) == TwoThreads(q, Running, st, true);
  }

  // The waiting pair during a walk on CPU 1.
  function Walked(s: Sys, done: nat, pc1: Pc, walk: Walk): World {
    Scene(s, [1, 2], done, pc1, Committed, 0, Some(walk))
  }

  lemma WalkGoes(q: Rq, st: TaskState, done: nat, pc1: Pc)
    requires st in WAKE_MASK
    ensures var s, s' := TwoThreads(q, st, st, true), TwoThreads(q, Running, st, true);
            var s1, s2 := Asked1(q, st, Waker(1, 1, WAKE_MASK)), Asked1(q, st, Setter(1, 1));
            && Goes(Walked(s, done, pc1, Walk(1, [1, 2], true, None)), WalkLock,
                    Walked(s1, done, pc1, Walk(1, [1, 2], true, Some(0))))
            && Goes(Walked(s1, done, pc1, Walk(1, [1, 2], true, Some(0))), WalkTest,
                    Walked(s2, done, pc1, Walk(1, [1, 2], true, Some(0))))
            && Goes(Walked(s2, done, pc1, Walk(1, [1, 2], true, Some(0))), WalkSet,
                    Walked(s', done, pc1, Walk(1, [], true, None)))
  {
    WakeActsGo(q, st);
    TwoThreadsShape(q, st, st, true);
    hide TwoThreads, Asked1, Enabled, Defined, Disciplined, Apply;
  }

  lemma EdgesGo(q: Rq, st: TaskState, done: nat, pc1: Pc)
    ensures var s, s' := TwoThreads(q, st, st, true), TwoThreads(q, Running, st, true);
            var w0, w1 := TwoWait(q, st, st, done, pc1), Scene(s, [1, 2], done + 1, pc1, Committed, 1, None);
            && Goes(w0, Raise, w1)
            && Goes(w1, StartWalk(1, true), Walked(s, done + 1, pc1, Walk(1, [1, 2], true, None)))
            && Goes(Walked(s', done + 1, pc1, Walk(1, [], true, None)), EndWalk, TwoWait(q, Running, st, done + 1, pc1))
  {
    TwoThreadsShape(q, st, st, true);
    TwoThreadsShape(q, Running, st, true);
    hide TwoThreads, Enabled, Defined, Disciplined, Apply, WithState;
  }

  // One complete(), or one unlock, while thread 1 is in a sleeping state: it
  // stops at thread 1, whatever that is about to do.
  lemma CompleteGoes(q: Rq, st: TaskState, done: nat, pc1: Pc)
    requires st in WAKE_MASK
    ensures CanRun(TwoWait(q, st, st, done, pc1), WakeActs())
    ensures Ran(TwoWait(q, st, st, done, pc1), WakeActs()) == TwoWait(q, Running, st, done + 1, pc1)
  {
    hide *;
    var s, s' := TwoThreads(q, st, st, true), TwoThreads(q, Running, st, true);
    var s1, s2 := Asked1(q, st, Waker(1, 1, WAKE_MASK)), Asked1(q, st, Setter(1, 1));
    var w0 := TwoWait(q, st, st, done, pc1);
    var w1 := Scene(s, [1, 2], done + 1, pc1, Committed, 1, None);
    var w2 := Walked(s, done + 1, pc1, Walk(1, [1, 2], true, None));
    var w3 := Walked(s1, done + 1, pc1, Walk(1, [1, 2], true, Some(0)));
    var w3' := Walked(s2, done + 1, pc1, Walk(1, [1, 2], true, Some(0)));
    var w4 := Walked(s', done + 1, pc1, Walk(1, [], true, None));
    var w5 := TwoWait(q, Running, st, done + 1, pc1);
    EdgesGo(q, st, done, pc1);
    WalkGoes(q, st, done + 1, pc1);
    RanNone(w5);
    GoesOn(w4, EndWalk, w5, []);
    GoesOn(w3', WalkSet, w4, [EndWalk] + []);
    var end := [WalkSet] + ([EndWalk] + []);
    GoesOn(w3, WalkTest, w3', end);
    GoesOn(w2, WalkLock, w3, [WalkTest] + end);
    GoesOn(w1, StartWalk(1, true), w2, [WalkLock] + ([WalkTest] + end));
    var rest := [StartWalk(1, true)] + ([WalkLock] + ([WalkTest] + end));
    GoesOn(w0, Raise, w1, rest);
    WakeActsAre(rest);
  }

  lemma WakeActsAre(rest: seq<Act>)
    requires rest == [StartWalk(1, true)] + ([WalkLock] + ([WalkTest] + ([WalkSet] + ([EndWalk] + []))))
    ensures [Raise] + rest == WakeActs()
  {
  }

  lemma PrepareAgain(q: Rq, st: TaskState, done: nat)
    requires st in WAKE_MASK
    ensures CanRun(TwoWait(q, Running, st, done, Committed), [Prepare(0, st)])
    ensures Ran(TwoWait(q, Running, st, done, Committed), [Prepare(0, st)]) == TwoWait(q, st, st, done, Prepared)
  {
    hide Goes, CanRun, Ran, Do, Allowed, TwoThreads;
    Prepare1Goes(q, true, [1, 2], done, Committed, Committed, st, st);
    RanNone(TwoWait(q, st, st, done, Prepared));
    GoesOn(TwoWait(q, Running, st, done, Committed), Prepare(0, st), TwoWait(q, st, st, done, Prepared), []);
    assert [Prepare(0, st)] + [] == [Prepare(0, st)];
  }

  lemma Consume(q: Rq, st1: TaskState, st: TaskState, done: nat)
    requires !st1.Dead? && done > 0
    ensures CanRun(TwoWait(q, st1, st, done, Prepared), [Test(0)])
    ensures Ran(TwoWait(q, st1, st, done, Prepared), [Test(0)]) == TwoWait(q, st1, st, done - 1, Satisfied)
  {
    hide Goes, CanRun, Ran, Do, Allowed, TwoThreads;
    Test1Goes(q, true, [1, 2], done, Committed, st1, st);
    RanNone(TwoWait(q, st1, st, done - 1, Satisfied));
    GoesOn(TwoWait(q, st1, st, done, Prepared), Test(0), TwoWait(q, st1, st, done - 1, Satisfied), []);
    assert [Test(0)] + [] == [Test(0)];
  }

  // Thread 1, awake, leaves the wait loop.
  lemma Leave(q: Rq, st: TaskState, done: nat, pc1: Pc)
    requires pc1 in {Committed, Satisfied}
    ensures CanRun(TwoWait(q, Running, st, done, pc1), [FinishState(0), Unlink(0)])
    ensures Ran(TwoWait(q, Running, st, done, pc1), [FinishState(0), Unlink(0)]) ==
            Scene(TwoThreads(q, Running, st, true), [2], done, Outside, Committed, 0, None)
  {
    hide TwoThreads, WithState, CanRun, Ran;
    var s := TwoThreads(q, Running, st, true);
    TwoThreadsShape(q, Running, st, true);
    StateOf(q, Running, st, true, Running);
    var w0 := TwoWait(q, Running, st, done, pc1);
    var w1 := Scene(s, [1, 2], done, Leaving, Committed, 0, None);
    var w2 := Scene(s, [2], done, Outside, Committed, 0, None);
    var two: seq<Tid> := [1, 2];
    assert two[1..] == [2];
    assert Goes(w0, FinishState(0), w1);
    assert Goes(w1, Unlink(0), w2);
    hide Goes, Do, Allowed;
    RanNone(w2);
    GoesOn(w1, Unlink(0), w2, []);
    GoesOn(w0, FinishState(0), w1, [Unlink(0)] + []);
    assert [FinishState(0)] + ([Unlink(0)] + []) == [FinishState(0), Unlink(0)];
  }

  lemma SecondSleeps(q: Rq, st1: TaskState, st: TaskState, off2: bool, queue: seq<Tid>, done: nat, pc1: Pc)
    requires st in WAKE_MASK && done > 0 && pc1 in {Outside, Satisfied}
    ensures Lost(Scene(TwoThreads(q, st1, st, off2), queue, done, pc1, Committed, 0, None))
  {
    var w := Scene(TwoThreads(q, st1, st, off2), queue, done, pc1, Committed, 0, None);
    assert Sleeping(w, 2);
    assert ReadySet(w) == {};
  }

  // Two waiters, two complete() calls. Thread 1 is woken by the first and
  // consumes it; the second comes before thread 1 has left the queue and is
  // spent on thread 1 again. Thread 2 sleeps on with the count at 1 and nobody
  // on the way to look at it.
  lemma LostOnSatisfied(q: Rq) returns (acts: seq<Act>)
    requires IsEmpty(q)
    ensures var st := Uninterruptible;
            acts == WaitActs(st) + WakeActs() + [Prepare(0, st)] + [Test(0)] + WakeActs()
    ensures CompletionInv(Start(q)) && CanRun(Start(q), acts) && Lost(Ran(Start(q), acts))
  {
    hide CanRun, Ran, IsEmpty, CompletionInv, Lost, TwoThreads;
    var w, st := Start(q), Uninterruptible;
    var a, b := WaitActs(st), WakeActs();
    StartOk(q);
    BothWait(q, st);
    CompleteGoes(q, st, 0, Committed);
    PrepareAgain(q, st, 1);
    Consume(q, st, st, 1);
    CompleteGoes(q, st, 0, Satisfied);
    RanAppend(w, a, b);
    RanAppend(w, a + b, [Prepare(0, st)]);
    RanAppend(w, a + b + [Prepare(0, st)], [Test(0)]);
    RanAppend(w, a + b + [Prepare(0, st)] + [Test(0)], b);
    acts := a + b + [Prepare(0, st)] + [Test(0)] + b;
    SecondSleeps(q, Running, st, true, [1, 2], 1, Satisfied);
  }

  // The second complete() comes while thread 1 has prepared again and not yet
  // looked: one waiter on its way, two completions.
  lemma LostOnPrepared(q: Rq) returns (acts: seq<Act>)
    requires IsEmpty(q)
    ensures var st := Uninterruptible;
            acts == WaitActs(st) + WakeActs() + [Prepare(0, st)] + WakeActs() + [Test(0)]
                    + [FinishState(0), Unlink(0)]
    ensures CompletionInv(Start(q)) && CanRun(Start(q), acts) && Lost(Ran(Start(q), acts))
  {
    hide CanRun, Ran, IsEmpty, CompletionInv, Lost, TwoThreads;
    var w, st := Start(q), Uninterruptible;
    var a, b := WaitActs(st), WakeActs();
    StartOk(q);
    BothWait(q, st);
    CompleteGoes(q, st, 0, Committed);
    PrepareAgain(q, st, 1);
    CompleteGoes(q, st, 1, Prepared);
    Consume(q, Running, st, 2);
    Leave(q, st, 1, Satisfied);
    RanAppend(w, a, b);
    RanAppend(w, a + b, [Prepare(0, st)]);
    RanAppend(w, a + b + [Prepare(0, st)], b);
    RanAppend(w, a + b + [Prepare(0, st)] + b, [Test(0)]);
    RanAppend(w, a + b + [Prepare(0, st)] + b + [Test(0)], [FinishState(0), Unlink(0)]);
    acts := a + b + [Prepare(0, st)] + b + [Test(0)] + [FinishState(0), Unlink(0)];
    SecondSleeps(q, Running, st, true, [2], 1, Outside);
  }

  // The mutex result needs its rule that a waiter leaves only with the mutex.
  // mutex_lock_interruptible gives up after a false test when a signal is
  // pending. Thread 1 has tested and is still on its CPU, about to look for a
  // signal; an unlock that comes now wakes it, and it leaves with the wakeup.
  lemma LostWhenGivingUp(q: Rq) returns (acts: seq<Act>)
    requires IsEmpty(q)
    ensures var st := Interruptible;
            acts == WaitActs(st) + WakeActs() + [FinishState(0), Unlink(0)]
    ensures CompletionInv(Start(q)) && CanRun(Start(q), acts) && Lost(Ran(Start(q), acts))
  {
    hide CanRun, Ran, IsEmpty, CompletionInv, Lost, TwoThreads;
    var w, st := Start(q), Interruptible;
    var a, b := WaitActs(st), WakeActs();
    StartOk(q);
    BothWait(q, st);
    CompleteGoes(q, st, 0, Committed);
    Leave(q, st, 1, Committed);
    RanAppend(w, a, b);
    RanAppend(w, a + b, [FinishState(0), Unlink(0)]);
    acts := a + b + [FinishState(0), Unlink(0)];
    SecondSleeps(q, Running, st, true, [2], 1, Outside);
  }
}

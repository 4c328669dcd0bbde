// Completions (kernel/wait.c): complete() raises the count and wakes one
// waiter. When is that enough?
module Completion {
  import opened Common
  import opened Lists
  import opened RunQueue
  import opened Sched
  import opened WaitQueue
  import opened WakeOne

  // The waiters on their way to test the count.
  ghost function ReadySet(w: World): set<Tid> {
    set t | t in w.pcs && Ready(w, t)
  }

  ghost predicate InLoop(w: World, t: Tid) {
    PcOf(w, t) != Outside ==>
      && t in w.queue && t in w.sys.threads
      && w.sys.threads[t].state in {Running, Interruptible, Uninterruptible}
      && (PcOf(w, t) == Leaving ==> w.sys.threads[t].state.Running?)
  }

  ghost predicate Shaped(w: World) {
    && Inv(w.sys) && NoDup(w.queue)
    && (forall t :: t in w.queue ==> PcOf(w, t) != Outside)
    && (forall t :: InLoop(w, t))
    && WalkOk(w)
  }

  // While somebody sleeps, every completion has a waiter on its way to it or a
  // wakeup still to be spent.
  ghost predicate Counted(w: World) {
    SomeSleeping(w) ==> w.done <= |ReadySet(w)| + w.pending + (if Reaching(w) then 1 else 0)
  }

  ghost predicate CompletionInv(w: World) {
    Shaped(w) && Counted(w)
  }

  // All wakeups are spent, somebody sleeps, and not every completion has a
  // waiter on its way to it.
  ghost predicate Lost(w: World) {
    w.pending == 0 && w.walk.None? && SomeSleeping(w) && w.done > |ReadySet(w)|
  }

  // wait_for_completion leaves the loop only with a completion.
  ghost predicate StaysUntilDone(w: World, a: Act) {
    a.FinishState? && a.cpu < |w.sys.cpus| ==> PcOf(w, Curr(w, a.cpu)) == Satisfied
  }

  // The walk of a wake_up_one stops with this step.
  predicate Stops(w: World, a: Act) {
    a.WalkSet? && w.walk.Some? && w.walk.value.one && w.walk.value.todo != []
  }

  predicate StopsAtSleeper(w: World, a: Act) {
    Stops(w, a) ==> Sleeping(w, w.walk.value.todo[0])
  }

  lemma Bigger(a: set<Tid>, b: set<Tid>)
    requires a <= b
    ensures |a| <= |b|
  {
    if a != {} {
      var x :| x in a;
      Bigger(a - {x}, b - {x});
    }
  }

  // ---- the steps ----

  lemma SysStepShaped(w: World, e: Step)
    requires Shaped(w) && Allowed(w, SysStep(e))
    ensures var w' := Do(w, SysStep(e));
            && Shaped(w') && ReadySet(w) <= ReadySet(w') && forall t :: Sleeping(w', t) ==> Sleeping(w, t)
  {
    hide Inv, Enabled, Defined, Disciplined, Apply;
    StepKeepsInv(w.sys, e);
    WalkStays(w, e);
    hide WalkOk;
    var w' := Do(w, SysStep(e));
    forall t
      ensures InLoop(w', t) && (Sleeping(w', t) ==> Sleeping(w, t)) && (Ready(w, t) ==> Ready(w', t))
    {
      assert InLoop(w, t);
      if PcOf(w, t) != Outside {
        OthersStates(w.sys, e, t);
      }
    }
  }

  lemma WaiterShaped(w: World, a: Act)
    requires Shaped(w) && Allowed(w, a) && (a.Prepare? || a.Test? || a.FinishState? || a.Unlink?)
    ensures var w' := Do(w, a); var me := Curr(w, a.cpu);
            && Shaped(w')
            && (forall t :: t != me ==> Sleeping(w', t) == Sleeping(w, t) && Ready(w', t) == Ready(w, t))
            && (a.Prepare? ==> Ready(w', me))
            && (a.Test? ==> Ready(w, me) && (w.done > 0 ==> !Ready(w', me) && !Sleeping(w', me)))
            && (a.FinishState? || a.Unlink? ==> !Ready(w', me) && !Sleeping(w', me))
  {
    hide Inv;
    var w' := Do(w, a);
    var me := Curr(w, a.cpu);
    match a {
      case Prepare(c, st) => OwnStateKeeps(w, c, st);
      case FinishState(c) => OwnStateKeeps(w, c, Running);
      case Unlink(c) => WithoutRemoves(w.queue, me);
      case _ =>
    }
    assert InLoop(w, me);
    forall t
      ensures InLoop(w', t)
      ensures t != me ==> Sleeping(w', t) == Sleeping(w, t) && Ready(w', t) == Ready(w, t)
    {
      assert InLoop(w, t);
    }
  }

  lemma WakerShaped(w: World, a: Act)
    requires Shaped(w) && Allowed(w, a) && (a.Raise? || a.Take? || a.StartWalk? || a.EndWalk?)
    ensures var w' := Do(w, a);
            Shaped(w') && w'.sys == w.sys && w'.pcs == w.pcs
  {
    hide Inv;
    var w' := Do(w, a);
    forall t
      ensures InLoop(w', t)
    {
      assert InLoop(w, t);
    }
  }

  // Taking the lock and testing wake nobody and go past nobody asleep.
  lemma LockShaped(w: World, a: Act)
    requires Shaped(w) && Allowed(w, a) && (a.WalkLock? || a.WalkTest?)
    ensures var w' := Do(w, a);
            && Shaped(w') && w'.sys.threads == w.sys.threads && w' == w.(sys := w'.sys, walk := w'.walk)
            && w.walk.Some? && w.walk.value.todo != [] && w'.walk.Some?
            && var todo := w.walk.value.todo;
               w'.walk.value.todo == todo || (w'.walk.value.todo == todo[1..] && !Sleeping(w, todo[0]))
  {
    if a.WalkLock? { WalkLocks(w); } else { WalkTests(w); }
    hide Inv, Apply, WalkOk;
    var w' := Do(w, a);
    assert InLoop(w, w.walk.value.todo[0]);
    forall t
      ensures InLoop(w', t)
    {
      assert InLoop(w, t);
    }
  }

  lemma SetShaped(w: World)
    requires Shaped(w) && Allowed(w, WalkSet)
    ensures var w' := Do(w, WalkSet); var first := w.walk.value.todo[0];
            && Shaped(w') && first in w.queue && w'.pcs == w.pcs
            && (forall t :: Sleeping(w', t) <==> Sleeping(w, t) && t != first)
            && (forall t :: Ready(w', t) <==> Ready(w, t) || (t == first && Sleeping(w, first)))
  {
    WalkSets(w);
    hide Inv, Apply, WalkOk;
    var first := w.walk.value.todo[0];
    var w' := Do(w, WalkSet);
    assert InLoop(w, first);
    forall t
      ensures InLoop(w', t)
      ensures Sleeping(w', t) <==> Sleeping(w, t) && t != first
      ensures Ready(w', t) <==> Ready(w, t) || (t == first && Sleeping(w, first))
    {
      assert InLoop(w, t);
    }
  }

  // ---- counting ----

  lemma SysStepCounts(w: World, e: Step)
    requires CompletionInv(w) && Allowed(w, SysStep(e))
    ensures CompletionInv(Do(w, SysStep(e)))
  {
    SysStepShaped(w, e);
    hide Shaped, Ready, Sleeping, Allowed;
    var w' := Do(w, SysStep(e));
    Bigger(ReadySet(w), ReadySet(w'));
  }

  lemma WaiterCounts(w: World, a: Act)
    requires CompletionInv(w) && Allowed(w, a) && StaysUntilDone(w, a)
    requires a.Prepare? || a.Test? || a.FinishState? || a.Unlink?
    ensures CompletionInv(Do(w, a))
  {
    WaiterShaped(w, a);
    hide Inv, Shaped;
    var w' := Do(w, a);
    var me := Curr(w, a.cpu);
    var r, r' := ReadySet(w), ReadySet(w');
    assert forall t :: t != me ==> (t in r' <==> t in r);
    if a.Prepare? {
      assert r' == r + {me};
      Bigger(r, r');
    } else if a.Test? && w.done > 0 {
      assert r' == r - {me};
    } else if a.Test? {
      assert w'.done == 0;
    } else {
      assert r' == r;
    }
  }

  lemma WakerCounts(w: World, a: Act)
    requires CompletionInv(w) && Allowed(w, a) && (a.Raise? || a.Take? || a.StartWalk? || a.EndWalk?)
    ensures CompletionInv(Do(w, a))
  {
    WakerShaped(w, a);
    var w' := Do(w, a);
    assert ReadySet(w') == ReadySet(w);
    assert forall t :: Sleeping(w', t) == Sleeping(w, t);
    if a.StartWalk? && SomeSleeping(w) {
      forall t | Sleeping(w, t)
        ensures t in w.queue
      {
        assert InLoop(w, t);
      }
    }
  }

  lemma LockCounts(w: World, a: Act)
    requires CompletionInv(w) && Allowed(w, a) && (a.WalkLock? || a.WalkTest?)
    ensures CompletionInv(Do(w, a))
  {
    LockShaped(w, a);
    hide Shaped, Allowed, Do;
    var w', todo := Do(w, a), w.walk.value.todo;
    assert ReadySet(w') == ReadySet(w);
    assert forall t :: Sleeping(w', t) == Sleeping(w, t);
    assert forall t :: t in todo && t != todo[0] ==> t in todo[1..];
  }

  // A walk that goes on keeps the count; one that stops keeps it exactly when
  // it stops at a waiter that really sleeps, unless nobody else sleeps or the
  // count did not need this wakeup.
  lemma WalkCounts(w: World)
    requires CompletionInv(w) && Allowed(w, WalkSet)
    ensures Shaped(Do(w, WalkSet))
    ensures Counted(Do(w, WalkSet)) <==> (Stops(w, WalkSet) ==> Spendable(w))
  {
    SetShaped(w);
    hide Inv, Shaped, Apply;
    var w' := Do(w, WalkSet);
    var first, todo := w.walk.value.todo[0], w.walk.value.todo;
    var r, r' := ReadySet(w), ReadySet(w');
    if Sleeping(w, first) {
      assert r' == r + {first} && first !in r;
    } else {
      assert r' == r;
    }
    assert forall t :: Sleeping(w', t) <==> Sleeping(w, t) && t != first;
    if Stops(w, WalkSet) {
      assert w'.walk.value.todo == [];
    } else {
      assert w'.walk.value.todo == todo[1..];
      assert forall t :: t in todo && t != first ==> t in todo[1..];
    }
  }

  // A waiter that gives up, on a timeout or a signal, costs nothing exactly when
  // it was not on its way, nobody else sleeps, or somebody can stand in for it.
  lemma GivingUpExactly(w: World, c: nat)
    requires CompletionInv(w) && Allowed(w, FinishState(c)) && PcOf(w, Curr(w, c)) == Committed
    ensures var me := Curr(w, c);
            && Shaped(Do(w, FinishState(c)))
            && (Counted(Do(w, FinishState(c))) <==>
                || !Ready(w, me) || (forall t :: t != me ==> !Sleeping(w, t))
                || w.done < |ReadySet(w)| + w.pending + (if Reaching(w) then 1 else 0))
  {
    WaiterShaped(w, FinishState(c));
    var me, w' := Curr(w, c), Do(w, FinishState(c));
    var r, r' := ReadySet(w), ReadySet(w');
    assert forall t :: t in r' <==> t in r && t != me;
    assert r' == r - {me};
    assert forall t :: Sleeping(w', t) <==> Sleeping(w, t) && t != me;
    if Ready(w, me) {
      assert me in r;
      assert forall t :: Sleeping(w', t) == Sleeping(w, t);
    } else {
      assert r' == r;
    }
  }

  // The wakeup is not wasted.
  ghost predicate Spendable(w: World)
    requires w.walk.Some? && w.walk.value.todo != []
  {
    var first := w.walk.value.todo[0];
    || Sleeping(w, first)
    || (forall t :: t != first ==> !Sleeping(w, t))
    || w.done <= |ReadySet(w)| + w.pending
  }

  // ---- runs ----

  // Waiters stay until they have a completion, and every wake_up_one stops at a
  // waiter that really sleeps.
  ghost predicate Careful(w: World, a: Act) {
    StaysUntilDone(w, a) && StopsAtSleeper(w, a)
  }

  ghost predicate CarefulRun(w: World, acts: seq<Act>)
    requires CanRun(w, acts)
    decreases |acts|
  {
    acts == [] || (Careful(w, acts[0]) && CarefulRun(Do(w, acts[0]), acts[1..]))
  }

  lemma CarefulKeeps(w: World, a: Act)
    requires CompletionInv(w) && Allowed(w, a) && Careful(w, a)
    ensures CompletionInv(Do(w, a))
  {
    hide Shaped, Counted, Do, Allowed, StaysUntilDone;
    match a
    case SysStep(e) => SysStepCounts(w, e);
    case WalkLock => LockCounts(w, a);
    case WalkTest => LockCounts(w, a);
    case WalkSet => WalkAllowed(w); WalkCounts(w);
    case Prepare(_, _) => WaiterCounts(w, a);
    case Test(_) => WaiterCounts(w, a);
    case FinishState(_) => WaiterCounts(w, a);
    case Unlink(_) => WaiterCounts(w, a);
    case _ => WakerCounts(w, a);
  }

  lemma WalkAllowed(w: World)
    requires Allowed(w, WalkSet)
    ensures w.walk.Some? && w.walk.value.todo != [] && w.walk.value.lock.Some?
  {
  }

  lemma {:induction false} CarefulRunKeeps(w: World, acts: seq<Act>)
    requires CompletionInv(w) && CanRun(w, acts) && CarefulRun(w, acts)
    ensures CompletionInv(Ran(w, acts))
    decreases |acts|
  {
    hide CompletionInv, Do, Allowed, Careful;
    if acts != [] {
      CarefulKeeps(w, acts[0]);
      CarefulRunKeeps(Do(w, acts[0]), acts[1..]);
    }
  }

  // No completion is lost over any such run: once all wakeups are spent, there
  // are at least as many waiters on their way as completions, or nobody sleeps.
  lemma NoLostCompletion(w: World, acts: seq<Act>)
    requires CompletionInv(w) && CanRun(w, acts) && CarefulRun(w, acts)
    ensures !Lost(Ran(w, acts))
  {
    hide Shaped, CanRun, Ran, CarefulRun;
    CarefulRunKeeps(w, acts);
  }

  ghost predicate NeverLost(w: World) {
    forall acts :: CanRun(w, acts) && CarefulRun(w, acts) ==> !Lost(Ran(w, acts))
  }

  // The stop of the last pending wake_up_one decides: nothing is lost whatever
  // comes after it, if and only if the wakeup is spendable. In particular a
  // stop at a waiter that has just prepared, or is already satisfied, loses a
  // completion when another waiter sleeps and nobody is on the way to it.
  lemma SafeStopExactly(w: World)
    requires CompletionInv(w) && Allowed(w, WalkSet) && Stops(w, WalkSet) && w.pending == 0
    ensures NeverLost(Do(w, WalkSet)) <==> Spendable(w)
  {
    hide Allowed, Shaped, CanRun, Ran, CarefulRun, Inv;
    WalkAllowed(w);
    WalkCounts(w);
    var w' := Do(w, WalkSet);
    if Spendable(w) {
      forall acts | CanRun(w', acts) && CarefulRun(w', acts)
        ensures !Lost(Ran(w', acts))
      {
        NoLostCompletion(w', acts);
      }
    } else {
      var acts := LoseIt(w);
    }
  }

  lemma LoseIt(w: World) returns (acts: seq<Act>)
    requires CompletionInv(w) && Allowed(w, WalkSet) && Stops(w, WalkSet) && w.pending == 0
    requires !Counted(Do(w, WalkSet))
    ensures var w' := Do(w, WalkSet); CanRun(w', acts) && CarefulRun(w', acts) && Lost(Ran(w', acts))
  {
    hide Inv, Ready, Sleeping, CanRun, Ran, CarefulRun, Reaching;
    SetShaped(w);
    var w' := Do(w, WalkSet);
    StopFacts(w);
    acts := StopWalk(w', w.walk.value.lock.value);
    var w2 := Ran(w', acts);
    assert w'.pending == 0;
    SameViews(w', w2);
    hide Shaped, SomeSleeping;
  }

  // The lock of the waiter's CPU is free again: the waiter can be queued there.
  lemma StopFacts(w: World)
    requires Shaped(w) && Allowed(w, WalkSet) && Stops(w, WalkSet)
    ensures var w' := Do(w, WalkSet);
            && w'.walk.Some? && w'.walk.value.todo == [] && w'.walk.value.lock.None?
            && Unlocked(w'.sys, w.walk.value.lock.value)
            && w'.walk.value.cpu < |w'.sys.cpus| && !InSwitch(w'.sys, w'.walk.value.cpu)
  {
    hide Inv;
  }

  // Only states and program counters matter to who is ready or asleep.
  lemma SameViews(w: World, w': World)
    requires w'.pcs == w.pcs && w'.sys.threads.Keys == w.sys.threads.Keys
    requires forall t :: t in w.sys.threads ==> w'.sys.threads[t].state == w.sys.threads[t].state
    ensures ReadySet(w') == ReadySet(w) && SomeSleeping(w') == SomeSleeping(w)
  {
    forall t
      ensures Ready(w', t) == Ready(w, t) && Sleeping(w', t) == Sleeping(w, t)
    {
    }
    hide Ready, Sleeping;
  }

  // Queue the woken thread if that is still to do, and let go of the lock.
  lemma StopWalk(w: World, target: nat) returns (acts: seq<Act>)
    requires Inv(w.sys) && w.walk.Some? && w.walk.value.todo == [] && Unlocked(w.sys, target)
    requires w.walk.value.lock.None? && w.walk.value.cpu < |w.sys.cpus| && !InSwitch(w.sys, w.walk.value.cpu)
    ensures CanRun(w, acts) && CarefulRun(w, acts)
    ensures var w' := Ran(w, acts);
            && w' == w.(sys := w'.sys, walk := None)
            && w'.sys.threads.Keys == w.sys.threads.Keys
            && forall t :: t in w.sys.threads ==> w'.sys.threads[t].state == w.sys.threads[t].state
  {
    hide Inv, CpuOk, ThreadOk;
    var c := w.walk.value.cpu;
    if Free(w.sys, c) {
      acts := [EndWalk];
      CarefulOne(w, EndWalk);
    } else {
      var e := WakeEnd(c, target);
      StepKeepsInv(w.sys, e);
      var w1 := Do(w, SysStep(e));
      MoveKeepsStates(w.sys, c, target);
      CarefulOne(w1, EndWalk);
      CarefulCons(w, SysStep(e), [EndWalk]);
      acts := [SysStep(e), EndWalk];
      assert acts == [SysStep(e)] + [EndWalk];
    }
  }

  lemma CarefulCons(w: World, a: Act, acts: seq<Act>)
    requires Allowed(w, a) && Careful(w, a) && CanRun(Do(w, a), acts) && CarefulRun(Do(w, a), acts)
    ensures CanRun(w, [a] + acts) && CarefulRun(w, [a] + acts) && Ran(w, [a] + acts) == Ran(Do(w, a), acts)
  {
    hide Allowed, Do, Careful;
    assert ([a] + acts)[1..] == acts;
  }

  lemma CarefulOne(w: World, a: Act)
    requires Allowed(w, a) && Careful(w, a)
    ensures CanRun(w, [a]) && CarefulRun(w, [a]) && Ran(w, [a]) == Do(w, a)
  {
    hide Allowed, Do, Careful;
    CarefulCons(w, a, []);
    assert [a] + [] == [a];
  }

  predicate InSwitch(s: Sys, c: nat) {
    c < |s.cpus| && s.cpus[c].lock.Some? && s.cpus[c].lock.value.Switching?
  }

  lemma MoveKeepsStates(s: Sys, c: nat, target: nat)
    requires Inv(s) && Enabled(s, WakeEnd(c, target)) && Defined(s, WakeEnd(c, target)) && !InSwitch(s, c)
    ensures var s' := FinishMove(s, c, target);
            && s'.threads.Keys == s.threads.Keys && |s'.cpus| == |s.cpus| && Free(s', c)
            && forall t :: t in s.threads ==> s'.threads[t].state == s.threads[t].state
  {
    hide QueuesOk, RqOk, ThreadOk;
    assert CpuOk(s, c);
  }

  // ---- one waiter per completion ----

  // A thread starts to wait only when nobody else does.
  ghost predicate OneAtATime(w: World, a: Act) {
    a.Prepare? && a.cpu < |w.sys.cpus| ==> forall t :: PcOf(w, t) != Outside ==> t == Curr(w, a.cpu)
  }

  ghost predicate SoloInv(w: World) {
    && Shaped(w)
    && (forall t, u :: PcOf(w, t) != Outside && PcOf(w, u) != Outside ==> t == u)
    && (w.done > 0 && SomeSleeping(w) ==> w.pending > 0 || Reaching(w))
  }

  lemma SoloKeeps(w: World, a: Act)
    requires SoloInv(w) && Allowed(w, a) && OneAtATime(w, a)
    ensures SoloInv(Do(w, a))
  {
    var w' := Do(w, a);
    if a.SysStep? {
      SysStepShaped(w, a.e);
      SysSolo(w, a.e);
    } else if a.Prepare? || a.Test? || a.FinishState? || a.Unlink? {
      WaiterShaped(w, a);
      WaiterSolo(w, a);
    } else if a.WalkSet? {
      SetShaped(w);
      WalkSolo(w);
    } else if a.WalkLock? || a.WalkTest? {
      LockSolo(w, a);
    } else {
      WakerShaped(w, a);
      WakerSolo(w, a);
    }
    hide Shaped, Allowed, Do;
  }

  lemma SysSolo(w: World, e: Step)
    requires SoloInv(w) && Allowed(w, SysStep(e)) && Shaped(Do(w, SysStep(e)))
    ensures SoloInv(Do(w, SysStep(e)))
  {
    SysStepShaped(w, e);
    hide Shaped, Sleeping, Apply, Enabled, Defined, Disciplined;
    var w' := Do(w, SysStep(e));
    assert forall t :: PcOf(w', t) == PcOf(w, t);
  }

  lemma WaiterSolo(w: World, a: Act)
    requires SoloInv(w) && Allowed(w, a) && OneAtATime(w, a) && Shaped(Do(w, a))
    requires a.Prepare? || a.Test? || a.FinishState? || a.Unlink?
    ensures SoloInv(Do(w, a))
  {
    WaiterShaped(w, a);
    hide Inv;
    var w' := Do(w, a);
    var me := Curr(w, a.cpu);
    assert forall t :: t != me ==> PcOf(w', t) == PcOf(w, t);
    assert forall t :: t != me ==> PcOf(w', t) == Outside;
    if SomeSleeping(w') {
      var t :| Sleeping(w', t);
      assert t == me;
    }
  }

  lemma WalkSolo(w: World)
    requires SoloInv(w) && Allowed(w, WalkSet) && Shaped(Do(w, WalkSet))
    ensures SoloInv(Do(w, WalkSet))
  {
    SetShaped(w);
    hide Inv;
    var first := w.walk.value.todo[0];
    var w' := Do(w, WalkSet);
    assert forall t :: PcOf(w', t) == PcOf(w, t);
    assert PcOf(w, first) != Outside;
    assert !SomeSleeping(w');
  }

  lemma LockSolo(w: World, a: Act)
    requires SoloInv(w) && Allowed(w, a) && (a.WalkLock? || a.WalkTest?)
    ensures SoloInv(Do(w, a))
  {
    LockShaped(w, a);
    hide Shaped, Allowed, Do;
    var w', todo := Do(w, a), w.walk.value.todo;
    assert forall t :: Sleeping(w', t) == Sleeping(w, t) && PcOf(w', t) == PcOf(w, t);
    assert forall t :: t in todo && t != todo[0] ==> t in todo[1..];
  }

  lemma WakerSolo(w: World, a: Act)
    requires SoloInv(w) && Allowed(w, a) && (a.Raise? || a.Take? || a.StartWalk? || a.EndWalk?)
    requires Shaped(Do(w, a))
    ensures SoloInv(Do(w, a))
  {
    WakerShaped(w, a);
    hide Inv;
    var w' := Do(w, a);
    assert forall t :: Sleeping(w', t) == Sleeping(w, t) && PcOf(w', t) == PcOf(w, t);
    if a.StartWalk? {
      forall t | Sleeping(w, t)
        ensures t in w.queue
      {
        assert InLoop(w, t);
      }
    }
  }

  ghost predicate SoloRun(w: World, acts: seq<Act>)
    requires CanRun(w, acts)
    decreases |acts|
  {
    acts == [] || (OneAtATime(w, acts[0]) && SoloRun(Do(w, acts[0]), acts[1..]))
  }

  lemma {:induction false} SoloRunKeeps(w: World, acts: seq<Act>)
    requires SoloInv(w) && CanRun(w, acts) && SoloRun(w, acts)
    ensures SoloInv(Ran(w, acts))
    decreases |acts|
  {
    hide SoloInv, Do, Allowed, OneAtATime;
    if acts != [] {
      SoloKeeps(w, acts[0]);
      SoloRunKeeps(Do(w, acts[0]), acts[1..]);
    }
  }

  // With one waiter at a time no completion is ever lost, also when waiters may
  // time out: once all wakeups are spent the waiter sleeps only on a count of 0.
  lemma OneWaiterNeverMisses(w: World, acts: seq<Act>, t: Tid)
    requires SoloInv(w) && CanRun(w, acts) && SoloRun(w, acts)
    requires var w' := Ran(w, acts); w'.pending == 0 && w'.walk.None? && Sleeping(w', t)
    ensures Ran(w, acts).done == 0
  {
    hide Shaped, CanRun, Ran, SoloRun, Sleeping;
    SoloRunKeeps(w, acts);
    assert SomeSleeping(Ran(w, acts));
  }
}

// A wakeup that has taken the lock of a thread in transit (kernel/sched.c). By
// the time it uses the lock the thread may have run on another CPU and be in the
// middle of going to sleep there. Then it is lost.
module WakeRace {
  import opened Common
  import opened Lists
  import opened RunQueue
  import opened Sched
  import opened SchedRace

  // ---- a thread that never runs again ----

  // Runnable, but on no CPU, no queue and in nobody's hands.
  ghost predicate Lost(s: Sys, t: Tid) {
    && t in s.threads && s.threads[t].state.Running? && !s.threads[t].onRq && !s.threads[t].onCpu
    && forall c :: 0 <= c < |s.cpus| ==> ForgottenBy(s.cpus[c], t)
  }

  ghost predicate ForgottenBy(u: Cpu, t: Tid) {
    && u.curr != t && u.idle != t && u.waking != Some(t) && NotListed(u.rq, t)
    && match u.lock
       case None => true
       case Some(Switching(p)) => p != t
       case Some(Waker(_, _, mask)) => mask <= WAKEABLE
       case Some(Setter(_, x)) => x != t
       case Some(Changing(x, queued, _, _)) => x != t || !queued
  }

  ghost predicate NotListed(q: Rq, t: Tid) {
    forall p :: 0 <= p < |q.queues| ==> t !in q.queues[p]
  }

  lemma AddOthers(q: Rq, t: Tid, u: Tid, p: nat, head: bool)
    requires NotListed(q, t) && u != t && HasLevel(q, p)
    ensures NotListed(Add(q, u, p, head), t)
  {
  }

  lemma {:induction false} WithoutOthers(l: seq<Tid>, u: Tid, t: Tid)
    ensures t in Without(l, u) ==> t in l
  {
    if l != [] && l[0] != u {
      WithoutOthers(l[1..], u, t);
    }
  }

  lemma DelOthers(q: Rq, t: Tid, u: Tid, p: nat)
    requires NotListed(q, t) && HasLevel(q, p)
    ensures NotListed(Del(q, u, p), t) && HasLevel(Del(q, u, p), p)
    ensures forall r :: HasLevel(q, r) ==> HasLevel(Del(q, u, p), r)
  {
    var l := LinkedAt(q.queues, u);
    if l < |q.queues| {
      WithoutOthers(q.queues[l], u, t);
    }
  }

  // No step of anybody finds it again: every later try_to_wake_up sees a thread
  // that is running already.
  lemma LostStays(s: Sys, e: Step, t: Tid)
    requires Lost(s, t) && Enabled(s, e) && Defined(s, e)
    ensures Lost(Apply(s, e), t)
  {
    hide Add, Del, NotListed;
    match e
    case WakeEnd(c, target) =>
      AddOthers(s.cpus[target].rq, t, s.cpus[c].waking.value, s.threads[s.cpus[c].waking.value].prio, false);
    case SwitchBegin(c) => LostStaysInSwitch(s, c, t);
    case PrioEnd(c) => LostStaysInChange(s, c, t);
    case _ =>
  }

  lemma LostStaysInChange(s: Sys, c: nat, t: Tid)
    requires Lost(s, t) && Enabled(s, PrioEnd(c)) && Defined(s, PrioEnd(c))
    ensures Lost(EndChange(s, c), t)
  {
    hide Add, Del, NotListed;
    var u := s.cpus[c];
    var ch := u.lock.value;
    assert ForgottenBy(u, t);
    if ch.queued {
      DelOthers(u.rq, t, ch.tid, s.threads[ch.tid].prio);
      AddOthers(Del(u.rq, ch.tid, s.threads[ch.tid].prio), t, ch.tid, ch.prio, false);
    }
  }

  lemma LostStaysInSwitch(s: Sys, c: nat, t: Tid)
    requires Lost(s, t) && Enabled(s, SwitchBegin(c)) && Defined(s, SwitchBegin(c))
    ensures Lost(Switched(s, c), t)
  {
    hide Add, Del;
    var u := s.cpus[c];
    assert ForgottenBy(u, t);
    if GoesBack(s, c) {
      AddOthers(u.rq, t, u.curr, s.threads[u.curr].prio, s.threads[u.curr].fifo);
    }
    var q := Requeued(s, c);
    assert NotListed(q, t);
    var p := Lowest(q.bitmap, 0);
    if p < |q.bitmap| {
      var next := q.queues[p][0];
      assert next in q.queues[p];
      DelOthers(q, t, next, s.threads[next].prio);
    }
  }

  // So over every run, disciplined or not, it stays lost.
  lemma {:induction false} NeverRunsAgain(s: Sys, es: seq<Step>, t: Tid)
    requires Lost(s, t) && Possible(s, es)
    ensures Lost(After(s, es), t)
    decreases |es|
  {
    hide Lost, Apply, Enabled, Defined;
    if es != [] {
      LostStays(s, es[0], t);
      NeverRunsAgain(Apply(s, es[0]), es[1..], t);
    }
  }

  // ---- getting a queued thread to run ----

  // The steps belong to CPU c and take nobody's lock.
  ghost predicate OwnRun(s: Sys, es: seq<Step>, c: nat) {
    && Possible(s, es) && DisciplinedRun(s, es)
    && var s' := After(s, es);
       && Placed(s') && |s'.cpus| == |s.cpus| && c < |s.cpus| && Free(s', c) && Unlocked(s', c)
       && forall d :: 0 <= d < |s.cpus| && d != c ==> s'.cpus[d] == s.cpus[d]
  }

  ghost predicate WaitsOn(s: Sys, t: Tid, c: nat) {
    t in s.threads && s.threads[t].onRq && s.threads[t].cpu == c
  }

  ghost predicate RunsOn(s: Sys, t: Tid, c: nat) {
    c < |s.cpus| && s.cpus[c].curr == t && t in s.threads && s.threads[t].state.Running? && s.cpus[c].idle != t
  }

  // The current thread goes to sleep, if it is one that can.
  lemma Quieted(s: Sys, c: nat) returns (s': Sys, es: seq<Step>)
    requires Placed(s) && Free(s, c) && Unlocked(s, c)
    ensures OwnRun(s, es, c) && s' == After(s, es)
    ensures s'.cpus == s.cpus && s.cpus[c].curr in s.threads && s.cpus[c].curr in s'.threads && !GoesBack(s', c)
    ensures forall t :: t in s.threads && t != s.cpus[c].curr ==> t in s'.threads && s'.threads[t] == s.threads[t]
  {
    hide QueuesOk;
    var u := s.cpus[c];
    assert CpuOk(s, c);
    hide CpuOk, Placed;
    if u.curr != u.idle && !s.threads[u.curr].state.Dead? {
      var e := SetState(c, Uninterruptible);
      StepKeepsPlaced(s, e);
      PossibleOne(s, e);
      es, s' := [e], Apply(s, e);
    } else {
      GoesNowhere(s);
      es, s' := [], s;
    }
  }

  // schedule picks from a queue with somebody on it.
  lemma PicksQueued(s: Sys, c: nat, t: Tid)
    requires Placed(s) && Enabled(s, SwitchBegin(c)) && WaitsOn(s, t, c)
    ensures s.cpus[c].curr in s.threads && !s.threads[s.cpus[c].curr].onRq
    ensures Defined(s, SwitchBegin(c))
    ensures !GoesBack(s, c) ==>
              var s' := Switched(s, c);
              && s'.cpus[c].curr != s.cpus[c].curr && s'.cpus[c].curr in s.threads
              && WaitsOn(s, s'.cpus[c].curr, c) && s'.cpus[c].rq.nrRunning == s.cpus[c].rq.nrRunning - 1
  {
    hide Add;
    SwitchFacts(s, c);
    var u := s.cpus[c];
    assert CpuOk(s, c) && ThreadOk(s, t) && ThreadOk(s, u.curr);
    if !GoesBack(s, c) {
      var p := s.threads[t].prio;
      assert t in u.rq.queues[p];
      assert u.rq.bitmap[p];
      var l := Lowest(u.rq.bitmap, 0);
      assert l <= p;
      assert u.rq.queues[l][0] in u.rq.queues[l];
    }
  }

  // One switch away from a sleeping thread: somebody who waits now runs.
  lemma OneSwitch(s: Sys, c: nat, t: Tid) returns (s': Sys, es: seq<Step>)
    requires Placed(s) && Free(s, c) && Unlocked(s, c) && WaitsOn(s, t, c)
    requires s.cpus[c].curr in s.threads && !GoesBack(s, c)
    ensures OwnRun(s, es, c) && s' == After(s, es)
    ensures s'.cpus[c].rq.nrRunning == s.cpus[c].rq.nrRunning - 1
    ensures RunsOn(s', t, c) || WaitsOn(s', t, c)
  {
    hide QueuesOk, RqOk, Requeued, Picked;
    PicksQueued(s, c, t);
    SwitchFacts(s, c);
    var b, f := SwitchBegin(c), SwitchEnd(c);
    assert CpuOk(s, c) && ThreadOk(s, t);
    hide CpuOk, ThreadOk, Placed;
    StepKeepsPlaced(s, b);
    var s1 := Apply(s, b);
    hide Switched;
    StepKeepsPlaced(s1, f);
    s' := Apply(s1, f);
    PossibleOne(s1, f);
    PossibleCons(s, b, [f]);
    es := [b] + [f];
  }

  // A thread on CPU c's queue gets to run there, if those in front of it sleep.
  lemma {:induction false} Drain(s: Sys, c: nat, t: Tid) returns (s': Sys, es: seq<Step>)
    requires Placed(s) && Free(s, c) && Unlocked(s, c) && WaitsOn(s, t, c)
    ensures OwnRun(s, es, c) && s' == After(s, es) && RunsOn(s', t, c)
    decreases QueueLength(s, c)
  {
    hide Placed, GoesBack;
    NotCurrent(s, c, t);
    var s1, es1 := Quieted(s, c);
    LengthIs(s, c);
    var s2, es2 := OneSwitch(s1, c, t);
    LengthIs(s2, c);
    OwnAppend(s, es1, es2, c);
    if RunsOn(s2, t, c) {
      s', es := s2, es1 + es2;
    } else {
      var s3, es3 := Drain(s2, c, t);
      OwnAppend(s, es1 + es2, es3, c);
      s', es := s3, es1 + es2 + es3;
    }
  }

  ghost function QueueLength(s: Sys, c: nat): nat
    requires c < |s.cpus|
  {
    Total(s.cpus[c].rq.queues)
  }

  lemma LengthIs(s: Sys, c: nat)
    requires Placed(s) && c < |s.cpus|
    ensures s.cpus[c].rq.nrRunning == QueueLength(s, c)
  {
    assert CpuOk(s, c);
  }

  lemma NotCurrent(s: Sys, c: nat, t: Tid)
    requires Placed(s) && c < |s.cpus| && WaitsOn(s, t, c)
    ensures s.cpus[c].curr != t
  {
    assert ThreadOk(s, t);
  }

  lemma OwnAppend(s: Sys, a: seq<Step>, b: seq<Step>, c: nat)
    requires OwnRun(s, a, c) && OwnRun(After(s, a), b, c)
    ensures OwnRun(s, a + b, c) && After(s, a + b) == After(After(s, a), b)
  {
    hide Placed;
    RunAppend(s, a, b);
  }

  lemma {:induction false} RunAppend(s: Sys, a: seq<Step>, b: seq<Step>)
    requires Possible(s, a) && Possible(After(s, a), b)
    ensures Possible(s, a + b) && After(s, a + b) == After(After(s, a), b)
    ensures DisciplinedRun(s, a) && DisciplinedRun(After(s, a), b) ==> DisciplinedRun(s, a + b)
    decreases |a|
  {
    hide Enabled, Defined, Apply, Disciplined;
    if a == [] {
      assert a + b == b;
    } else {
      assert (a + b)[1..] == a[1..] + b;
      RunAppend(Apply(s, a[0]), a[1..], b);
    }
  }

  // ---- the race ----

  // Whoever holds a lock has not found t queued.
  ghost predicate LocksFine(s: Sys, t: Tid) {
    forall x :: 0 <= x < |s.cpus| ==> LockFine(s.cpus[x].lock, t)
  }

  predicate LockFine(lock: Option<Hold>, t: Tid) {
    match lock
    case Some(Waker(_, _, mask)) => mask <= WAKEABLE
    case Some(Setter(_, u)) => u != t
    case Some(Changing(u, queued, _, _)) => u != t || !queued
    case _ => true
  }

  // t has been switched away from on CPU c, in state st, and finish_switch is
  // still to come.
  ghost predicate HalfAsleep(s: Sys, t: Tid, c: nat, st: TaskState) {
    && Placed(s) && c < |s.cpus| && s.cpus[c].lock == Some(Switching(t))
    && t in s.threads && s.threads[t].state == st && s.threads[t].cpu == c && !s.threads[t].onRq
    && s.threads[t].onCpu && s.cpus[c].idle != t
  }

  lemma FallsAsleep(s: Sys, c: nat, t: Tid, st: TaskState)
    requires Placed(s) && RunsOn(s, t, c) && Free(s, c) && Unlocked(s, c) && st in WAKEABLE
    ensures var es := [SetState(c, st), SwitchBegin(c)];
            && Possible(s, es) && DisciplinedRun(s, es) && HalfAsleep(After(s, es), t, c, st)
            && var s' := After(s, es);
               |s'.cpus| == |s.cpus| && forall d :: 0 <= d < |s.cpus| && d != c ==> s'.cpus[d] == s.cpus[d]
  {
    hide QueuesOk, RqOk, Requeued, Picked, OneWaker;
    assert CpuOk(s, c) && ThreadOk(s, t);
    var e1, e2 := SetState(c, st), SwitchBegin(c);
    StepKeepsPlaced(s, e1);
    var s1 := Apply(s, e1);
    assert ThreadOk(s1, t);
    hide CpuOk, ThreadOk, Placed;
    SwitchFacts(s1, c);
    StepKeepsPlaced(s1, e2);
    hide Switched;
    PossibleOne(s1, e2);
    PossibleCons(s, e1, [e2]);
    assert [e1] + [e2] == [e1, e2];
  }

  lemma HalfAsleepFacts(s: Sys, t: Tid, c: nat, st: TaskState)
    requires HalfAsleep(s, t, c, st)
    ensures !IsCurrent(s, t) && !IsIdle(s, t)
    ensures forall x :: 0 <= x < |s.cpus| ==>
              && s.cpus[x].curr != t && s.cpus[x].idle != t && s.cpus[x].waking != Some(t) && NotListed(s.cpus[x].rq, t)
              && (x != c ==> s.cpus[x].lock != Some(Switching(t)))
  {
    assert CpuOk(s, c);
    forall x | 0 <= x < |s.cpus|
      ensures s.cpus[x].curr != t && s.cpus[x].idle != t && s.cpus[x].waking != Some(t) && NotListed(s.cpus[x].rq, t)
      ensures x != c ==> s.cpus[x].lock != Some(Switching(t))
    {
      assert CpuOk(s, x);
    }
  }

  // A waker that holds the lock of another CPU for t makes it runnable now, and
  // leaves it to the CPU that is switching away from it.
  lemma StaleTest(s: Sys, c: nat, d: nat, t: Tid, st: TaskState)
    requires HalfAsleep(s, t, c, st) && LocksFine(s, t) && d < |s.cpus| && d != c
    requires s.cpus[d].lock.Some? && s.cpus[d].lock.value.Waker? && s.cpus[d].lock.value.tid == t
    requires st in s.cpus[d].lock.value.mask && Free(s, s.cpus[d].lock.value.from)
    ensures var es := [WakeTest(d), WakeSet(d)]; var f := SwitchEnd(c);
            && Possible(s, es) && DisciplinedRun(s, es)
            && var s' := After(s, es);
               !Placed(s') && Enabled(s', f) && Defined(s', f) && Lost(Apply(s', f), t)
  {
    HalfAsleepFacts(s, t, c, st);
    hide Placed, NotListed;
    var e1, e2 := WakeTest(d), WakeSet(d);
    var s1 := Apply(s, e1);
    assert s1 == WithLock(s, d, Some(Setter(s.cpus[d].lock.value.from, t)));
    var s2 := Apply(s1, e2);
    assert s2 == WithState(WithLock(s, d, None), t, Running);
    hide Possible, After, DisciplinedRun;
    PossibleOne(s1, e2);
    PossibleCons(s, e1, [e2]);
    assert [e1] + [e2] == [e1, e2];
    assert !ThreadOk(s2, t);
    NotPlaced(s2, t);
    hide ThreadOk;
    FinishedLost(s, s2, c, d, t);
  }

  lemma FinishedLost(s: Sys, s': Sys, c: nat, d: nat, t: Tid)
    requires c < |s.cpus| && d < |s.cpus| && d != c && s.cpus[c].lock == Some(Switching(t)) && LocksFine(s, t)
    requires t in s.threads && !s.threads[t].onRq && s' == WithState(WithLock(s, d, None), t, Running)
    requires forall x :: 0 <= x < |s.cpus| ==>
               && s.cpus[x].curr != t && s.cpus[x].idle != t && s.cpus[x].waking != Some(t) && NotListed(s.cpus[x].rq, t)
               && (x != c ==> s.cpus[x].lock != Some(Switching(t)))
    ensures Enabled(s', SwitchEnd(c)) && Defined(s', SwitchEnd(c)) && Lost(Apply(s', SwitchEnd(c)), t)
  {
    hide NotListed;
    var s2 := Apply(s', SwitchEnd(c));
    forall x | 0 <= x < |s2.cpus|
      ensures ForgottenBy(s2.cpus[x], t)
    {
      assert LockFine(s.cpus[x].lock, t);
    }
  }

  lemma NotPlaced(s: Sys, t: Tid)
    requires t in s.threads && !ThreadOk(s, t)
    ensures !Placed(s)
  {
  }

  // A thread in transit is queued on `target`, runs there and goes to sleep.
  lemma RunsAndSleeps(s: Sys, c: nat, target: nat, t: Tid, st: TaskState) returns (s': Sys, es: seq<Step>)
    requires Placed(s) && LocksFine(s, t) && InTransit(s, t, c) && st in WAKEABLE
    requires Unlocked(s, target) && (target == c || Free(s, target))
    ensures Possible(s, es) && DisciplinedRun(s, es) && s' == After(s, es)
    ensures HalfAsleep(s', t, target, st) && LocksFine(s', t) && |s'.cpus| == |s.cpus|
    ensures forall x :: 0 <= x < |s.cpus| && x != target ==> s'.cpus[x].lock == s.cpus[x].lock
    ensures forall x :: 0 <= x < |s.cpus| && x != c && x != target ==> s'.cpus[x] == s.cpus[x]
  {
    hide Placed, LocksFine, Possible, After, DisciplinedRun;
    var s1 := Queues(s, c, target, t);
    var s2, es1 := Drain(s1, target, t);
    FallsAsleep(s2, target, t, st);
    var e0, es2 := WakeEnd(c, target), [SetState(target, st), SwitchBegin(target)];
    s' := After(s2, es2);
    LocksKept(s, s1, t);
    LocksElsewhere(s1, s', t, target);
    hide Enabled, Defined, Apply;
    RunAppend(s1, es1, es2);
    PossibleCons(s, e0, es1 + es2);
    es := [e0] + (es1 + es2);
  }

  // The whole race: with t in transit at CPU c, a waker on CPU f takes the lock
  // of t's old CPU. Then t is queued on another CPU, runs there and goes to
  // sleep, and the waker uses its lock.
  lemma WakeRaceLoses(s: Sys, f: nat, t: Tid, mask: set<TaskState>, c: nat, target: nat) returns (es: seq<Step>)
    requires Inv(s) && InTransit(s, t, c) && Enabled(s, WakeLock(f, t, mask)) && mask != {}
    requires target != s.threads[t].cpu && target != f && Unlocked(s, target) && (target == c || Free(s, target))
    ensures var s1 := Asked(s, f, t, mask);
            && Possible(s1, es) && DisciplinedRun(s1, es) && !Placed(After(s1, es))
            && var g := SwitchEnd(target); var s' := After(s1, es);
               Enabled(s', g) && Defined(s', g) && Lost(Apply(s', g), t)
  {
    var st :| st in mask;
    var d := s.threads[t].cpu;
    var s1 := Asked(s, f, t, mask);
    assert st in WAKEABLE;
    LockedFor(s, f, t, mask, c);
    hide Placed, HoldOk, LocksFine, Possible, After, DisciplinedRun;
    var s2, es1 := RunsAndSleeps(s1, c, target, t, st);
    StaleTest(s2, target, d, t, st);
    hide Enabled, Defined, Apply;
    RunAppend(s1, es1, [WakeTest(d), WakeSet(d)]);
    es := es1 + [WakeTest(d), WakeSet(d)];
  }

  lemma LockedFor(s: Sys, f: nat, t: Tid, mask: set<TaskState>, c: nat)
    requires Inv(s) && InTransit(s, t, c) && Enabled(s, WakeLock(f, t, mask))
    ensures var s1 := Asked(s, f, t, mask);
            Placed(s1) && LocksFine(s1, t) && InTransit(s1, t, c) && c != f && |s1.cpus| == |s.cpus|
  {
    hide Placed;
    var s1 := Asked(s, f, t, mask);
    WithLockKeeps(s, s.threads[t].cpu, Some(Waker(f, t, mask)));
    forall x | 0 <= x < |s1.cpus|
      ensures LockFine(s1.cpus[x].lock, t)
    {
      assert HoldOk(s, x);
    }
  }

  lemma Queues(s: Sys, c: nat, target: nat, t: Tid) returns (s': Sys)
    requires Placed(s) && InTransit(s, t, c) && Unlocked(s, target) && (target == c || Free(s, target))
    ensures var e := WakeEnd(c, target);
            && Enabled(s, e) && Defined(s, e) && s' == Apply(s, e)
    ensures Placed(s') && WaitsOn(s', t, target) && Free(s', target) && Unlocked(s', target) && |s'.cpus| == |s.cpus|
    ensures forall x :: 0 <= x < |s.cpus| ==> s'.cpus[x].lock == s.cpus[x].lock
    ensures forall x :: 0 <= x < |s.cpus| && x != c && x != target ==> s'.cpus[x] == s.cpus[x]
  {
    hide Placed, Add;
    StepKeepsPlaced(s, WakeEnd(c, target));
    s' := Apply(s, WakeEnd(c, target));
  }

  lemma LocksKept(s: Sys, s': Sys, t: Tid)
    requires LocksFine(s, t) && |s'.cpus| == |s.cpus|
    requires forall x :: 0 <= x < |s.cpus| ==> s'.cpus[x].lock == s.cpus[x].lock
    ensures LocksFine(s', t)
  {
  }

  lemma LocksElsewhere(s: Sys, s': Sys, t: Tid, c: nat)
    requires LocksFine(s, t) && |s'.cpus| == |s.cpus| && c < |s.cpus|
    requires s'.cpus[c].lock.Some? && s'.cpus[c].lock.value.Switching?
    requires forall x :: 0 <= x < |s.cpus| && x != c ==> s'.cpus[x] == s.cpus[x]
    ensures LocksFine(s', t)
  {
  }

  // ---- exactly when ----

  lemma NewWakeRaceLoses(s: Sys, f: nat, t: Tid, mask: set<TaskState>, target: nat) returns (es: seq<Step>)
    requires Inv(s) && t in s.threads && s.threads[t].state.New? && Enabled(s, WakeLock(f, t, mask)) && mask != {}
    requires target != s.threads[t].cpu && target != f && Unlocked(s, target) && Free(s, target)
    ensures var s1 := Asked(s, f, t, mask);
            Possible(s1, es) && DisciplinedRun(s1, es) && !Placed(After(s1, es))
  {
    hide Inv, Placed;
    var e := AddNew(target, t);
    StepKeepsInv(s, e);
    var s0 := StartMove(s, target, t);
    assert InTransit(s0, t, target);
    var rest := WakeRaceLoses(s0, f, t, mask, target, target);
    var s1 := Asked(s, f, t, mask);
    SwapAsked(s, f, t, mask, target);
    assert Apply(s1, e) == Asked(s0, f, t, mask);
    hide Asked, StartMove, Possible, After, DisciplinedRun;
    PossibleCons(s1, e, rest);
    es := [e] + rest;
  }

  // Adding the thread and locking its CPU are independent.
  lemma SwapAsked(s: Sys, f: nat, t: Tid, mask: set<TaskState>, c: nat)
    requires Enabled(s, WakeLock(f, t, mask)) && Free(s, c) && c != f
    ensures Enabled(StartMove(s, c, t), WakeLock(f, t, mask))
    ensures StartMove(Asked(s, f, t, mask), c, t) == Asked(StartMove(s, c, t), f, t, mask)
  {
    var a, b := StartMove(Asked(s, f, t, mask), c, t), Asked(StartMove(s, c, t), f, t, mask);
    assert forall k :: 0 <= k < |s.cpus| ==> a.cpus[k] == b.cpus[k];
  }

  // Taking a thread's lock for a wakeup is safe, whatever the others do, if and
  // only if the thread is not in transit and not still to be added. (With
  // another CPU to run it on.)
  lemma SafeWakeExactlyWhenSettled(s: Sys, f: nat, t: Tid, mask: set<TaskState>, target: nat)
    requires Inv(s) && Enabled(s, WakeLock(f, t, mask)) && mask != {}
    requires target != s.threads[t].cpu && target != f && Unlocked(s, target)
    requires InTransit(s, t, target) || Free(s, target)
    ensures StaysPlaced(Asked(s, f, t, mask)) <==> Settled(s, t)
  {
    hide Inv, Placed, Possible, After, DisciplinedRun, Asked;
    var s1 := Asked(s, f, t, mask);
    if Settled(s, t) {
      StepKeepsInv(s, WakeLock(f, t, mask));
      forall es | Possible(s1, es) && DisciplinedRun(s1, es)
        ensures Placed(After(s1, es))
      {
        RunKeepsInv(s1, es);
        InvIsPlaced(After(s1, es));
      }
    } else if Moving(s, t) {
      var c :| InTransit(s, t, c);
      OneTransit(s, t, c, target);
      var es := WakeRaceLoses(s, f, t, mask, c, target);
    } else {
      var es := NewWakeRaceLoses(s, f, t, mask, target);
    }
  }

  lemma OneTransit(s: Sys, t: Tid, c: nat, d: nat)
    requires Inv(s) && InTransit(s, t, c)
    ensures InTransit(s, t, d) ==> d == c
  {
  }

  // A sleeper is lost: CPU 1 wakes it, its timer on CPU 0 takes the lock of CPU 0
  // while it is in transit, and it runs and sleeps again on CPU 1.
  lemma LostSleeper(q: Rq) returns (es: seq<Step>)
    requires Empty(q)
    ensures var s := Pair(q, None, q, 11, None, None, Sleeper());
            Inv(s) && Possible(s, es) && Lost(After(s, es), 1)
  {
    var th := Sleeper();
    var s0 := Pair(q, None, q, 11, None, None, th);
    var s1 := Pair(q, Some(Waker(1, 1, MASK)), q, 11, None, None, th);
    var s1' := Pair(q, Some(Setter(1, 1)), q, 11, None, None, th);
    var s2 := Pair(q, None, q, 11, Some(1), None, th.(state := Running));
    PairOk(q);
    WakeGoes(q);
    var ask := WakeLock(0, 1, MASK);
    AskAgain(q);
    hide Inv, Enabled, Defined, Apply, Goes, Pair, Possible, After, DisciplinedRun, Lost;
    InvAfterWake(s0, s1, s1', s2);
    var rest := WakeRaceLoses(s2, 0, 1, MASK, 1, 1);
    var s3 := Asked(s2, 0, 1, MASK);
    assert Apply(s2, ask) == s3 by { AskedIs(s2, 0, 1, MASK); }
    PossibleOne(After(s3, rest), SwitchEnd(1));
    RunAppend(s3, rest, [SwitchEnd(1)]);
    es := rest + [SwitchEnd(1)];
    PossibleCons(s2, ask, es);
    es := [ask] + es;
    GoesOn(s1', WakeSet(0), s2, es);
    es := [WakeSet(0)] + es;
    GoesOn(s1, WakeTest(0), s1', es);
    es := [WakeTest(0)] + es;
    GoesOn(s0, WakeLock(1, 1, MASK), s1, es);
    es := [WakeLock(1, 1, MASK)] + es;
  }

  lemma AskedIs(s: Sys, f: nat, t: Tid, mask: set<TaskState>)
    requires Enabled(s, WakeLock(f, t, mask))
    ensures Defined(s, WakeLock(f, t, mask)) && Apply(s, WakeLock(f, t, mask)) == Asked(s, f, t, mask)
  {
  }

  lemma AskAgain(q: Rq)
    requires Empty(q)
    ensures var th := Sleeper();
            var s0 := Pair(q, None, q, 11, None, None, th);
            var s2 := Pair(q, None, q, 11, Some(1), None, th.(state := Running));
            && Settled(s0, 1) && 1 in s2.threads && s2.threads[1].cpu == 0
            && Enabled(s2, WakeLock(0, 1, MASK)) && Defined(s2, WakeLock(0, 1, MASK))
            && InTransit(s2, 1, 1) && Unlocked(s2, 1) && MASK != {}
  {
  }

  lemma InvAfterWake(s0: Sys, s1: Sys, s1': Sys, s2: Sys)
    requires Inv(s0) && Settled(s0, 1) && Goes(s0, WakeLock(1, 1, MASK), s1)
    requires Goes(s1, WakeTest(0), s1') && Goes(s1', WakeSet(0), s2)
    ensures Inv(s2)
  {
    hide Inv, Enabled, Defined, Apply;
    StepKeepsInv(s0, WakeLock(1, 1, MASK));
    StepKeepsInv(s1, WakeTest(0));
    StepKeepsInv(s1', WakeSet(0));
  }
}

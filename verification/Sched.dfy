// The scheduler across CPUs (kernel/sched.c) as a state machine. A run-queue
// lock protects the threads whose cpu field names that CPU, but activate changes
// the field under the target's lock, and a running thread sets its own state
// under no lock. So taking a thread's lock, testing its state and setting it are
// separate steps of try_to_wake_up, sched_setscheduler is two steps, and so is
// schedule: deciding, and finish_switch, with the lock held in between.
module Sched {
  import opened Common
  import opened Lists
  import opened RunQueue

  datatype TaskState = Running | Interruptible | Uninterruptible | Stopped | Dead | New

  datatype Thread = Thread(state: TaskState, prio: nat, fifo: bool, onRq: bool, onCpu: bool, cpu: nat)

  // Who holds the lock of a CPU's queues: sched_setscheduler, after it has looked
  // whether the thread is queued; try_to_wake_up on CPU `from`, before it looks at
  // the thread's state or after it has found one to wake; or schedule on that CPU,
  // with finish_switch of `tid` to come.
  datatype Hold =
    | Changing(tid: Tid, queued: bool, prio: nat, fifo: bool)
    | Waker(from: nat, tid: Tid, mask: set<TaskState>)
    | Setter(from: nat, tid: Tid)
    | Switching(tid: Tid)

  // `waking` is the thread this CPU has made runnable and not yet queued.
  datatype Cpu = Cpu(rq: Rq, curr: Tid, idle: Tid, waking: Option<Tid>, lock: Option<Hold>)

  datatype Sys = Sys(cpus: seq<Cpu>, threads: map<Tid, Thread>)

  // The idle thread of the CPU it belongs to.
  predicate IsIdle(s: Sys, t: Tid) {
    t in s.threads && s.threads[t].cpu < |s.cpus| && s.cpus[s.threads[t].cpu].idle == t
  }

  predicate IsCurrent(s: Sys, t: Tid) {
    t in s.threads && s.threads[t].cpu < |s.cpus| && s.cpus[s.threads[t].cpu].curr == t
  }

  predicate InTransit(s: Sys, t: Tid, c: nat) {
    c < |s.cpus| && s.cpus[c].waking == Some(t)
  }

  ghost predicate Moving(s: Sys, t: Tid) {
    exists c :: InTransit(s, t, c)
  }

  predicate QueuedAt(th: Thread, c: nat, p: nat) {
    th.onRq && th.cpu == c && th.prio == p
  }

  ghost predicate ThreadOk(s: Sys, t: Tid)
    requires t in s.threads
  {
    var th := s.threads[t];
    && th.cpu < |s.cpus| && th.prio < NR_PRIO
    && (th.onCpu ==> IsCurrent(s, t) || s.cpus[th.cpu].lock == Some(Switching(t)))
    && (IsCurrent(s, t) ==> !th.onRq)
    && (th.onRq ==> th.state.Running?)
    && (th.state.New? ==> !th.onCpu)
    && (th.state.Running? && !IsIdle(s, t) ==> th.onRq || IsCurrent(s, t) || Moving(s, t))
  }

  ghost predicate QueuesOk(threads: map<Tid, Thread>, q: Rq, c: nat) {
    RqOk(q) && forall t, p :: 0 <= p < NR_PRIO ==> (t in q.queues[p] <==> t in threads && QueuedAt(threads[t], c, p))
  }

  ghost predicate CpuOk(s: Sys, c: nat)
    requires c < |s.cpus|
  {
    var u := s.cpus[c];
    && QueuesOk(s.threads, u.rq, c)
    && (u.curr in s.threads && s.threads[u.curr].onCpu && s.threads[u.curr].cpu == c)
    && (u.idle in s.threads && s.threads[u.idle].cpu == c && !s.threads[u.idle].onRq && s.threads[u.idle].state.Running?)
    && (u.waking.Some? ==>
          && u.waking.value in s.threads && !IsIdle(s, u.waking.value)
          && var th := s.threads[u.waking.value]; !th.onRq && !th.onCpu && th.state.Running?)
    && (u.lock.Some? && u.lock.value.Switching? ==>
          var prev := u.lock.value.tid;
          prev in s.threads && prev != u.curr && s.threads[prev].cpu == c && s.threads[prev].onCpu)
  }

  ghost predicate OneWaker(s: Sys) {
    forall t, c, d :: InTransit(s, t, c) && InTransit(s, t, d) ==> c == d
  }

  // Neither in transit nor about to be: nobody queues it without its lock.
  ghost predicate Settled(s: Sys, t: Tid) {
    t in s.threads && !s.threads[t].state.New? && !Moving(s, t)
  }

  // The lock that is held still protects its thread, and what the holder has
  // seen of it still holds.
  ghost predicate HoldOk(s: Sys, c: nat)
    requires c < |s.cpus|
  {
    match s.cpus[c].lock
    case None => true
    case Some(Switching(_)) => true
    case Some(Waker(_, t, mask)) => Settled(s, t) && s.threads[t].cpu == c && mask <= WAKEABLE
    case Some(Setter(_, t)) =>
      Settled(s, t) && s.threads[t].cpu == c && !s.threads[t].onRq && (IsCurrent(s, t) || s.threads[t].state in WAKEABLE)
    case Some(Changing(t, queued, p, _)) =>
      Settled(s, t) && s.threads[t].cpu == c && p < NR_PRIO && s.threads[t].onRq == queued
  }

  const WAKEABLE := {Interruptible, Uninterruptible, Stopped}

  // Every thread has its place, and every bitmap is exact.
  ghost predicate Placed(s: Sys) {
    && (forall t :: t in s.threads ==> ThreadOk(s, t))
    && (forall c :: 0 <= c < |s.cpus| ==> CpuOk(s, c))
    && OneWaker(s)
  }

  ghost predicate Inv(s: Sys) {
    Placed(s) && forall c :: 0 <= c < |s.cpus| ==> HoldOk(s, c)
  }

  lemma InvIsPlaced(s: Sys)
    requires Inv(s)
    ensures Placed(s)
  {
  }

  // ---- one place per thread ----

  datatype Place = Current(cpu: nat) | Queued(cpu: nat, prio: nat) | Transit(waker: nat) | Asleep

  ghost predicate At(s: Sys, t: Tid, pl: Place)
    requires t in s.threads
  {
    match pl
    case Current(c) => c < |s.cpus| && s.cpus[c].curr == t
    case Queued(c, p) => c < |s.cpus| && p < |s.cpus[c].rq.queues| && t in s.cpus[c].rq.queues[p]
    case Transit(c) => InTransit(s, t, c)
    case Asleep => !s.threads[t].state.Running? && !IsCurrent(s, t)
  }

  // What a place says about the thread's own fields.
  lemma PlaceFields(s: Sys, t: Tid, q: Place)
    requires Placed(s) && t in s.threads && At(s, t, q)
    ensures var th := s.threads[t];
            match q
            case Current(c) => th.onCpu && th.cpu == c && !th.onRq && IsCurrent(s, t)
            case Queued(c, p) => QueuedAt(th, c, p) && th.state.Running? && !IsCurrent(s, t)
            case Transit(c) => th.state.Running? && !th.onRq && !th.onCpu && !IsIdle(s, t)
            case Asleep => !th.state.Running? && !IsCurrent(s, t) && !th.onRq
  {
    assert ThreadOk(s, t);
    if !q.Asleep? {
      var c := if q.Transit? then q.waker else q.cpu;
      assert CpuOk(s, c);
    }
  }

  // Every thread that is not an idle thread is in exactly one place.
  lemma OnePlace(s: Sys, t: Tid) returns (pl: Place)
    requires Placed(s) && t in s.threads && !IsIdle(s, t)
    ensures At(s, t, pl)
    ensures forall q :: At(s, t, q) ==> q == pl
  {
    var th := s.threads[t];
    assert ThreadOk(s, t);
    assert CpuOk(s, th.cpu);
    if IsCurrent(s, t) {
      pl := Current(th.cpu);
    } else if th.onRq {
      pl := Queued(th.cpu, th.prio);
    } else if th.state.Running? {
      var c :| InTransit(s, t, c);
      pl := Transit(c);
    } else {
      pl := Asleep;
    }
    OnlyPlace(s, t, pl);
  }

  lemma OnlyPlace(s: Sys, t: Tid, pl: Place)
    requires Placed(s) && t in s.threads && At(s, t, pl)
    ensures forall q :: At(s, t, q) ==> q == pl
  {
    PlaceFields(s, t, pl);
    forall q | At(s, t, q)
      ensures q == pl
    {
      PlaceFields(s, t, q);
      hide ThreadOk, CpuOk;
    }
  }

  // ---- steps ----

  datatype Step =
    | SetState(cpu: nat, state: TaskState)       // the current thread sets its own state
    | WakeLock(cpu: nat, tid: Tid, mask: set<TaskState>) // try_to_wake_up: take the thread's lock
    | WakeTest(cpu: nat)                         // ... test its state, under CPU cpu's lock
    | WakeSet(cpu: nat)                          // ... set it, look where the thread is, let go of the lock
    | WakeEnd(cpu: nat, target: nat)             // activate
    | SwitchBegin(cpu: nat)                      // schedule, up to the switch
    | SwitchEnd(cpu: nat)                        // finish_switch
    | PrioBegin(tid: Tid, prio: nat, fifo: bool) // sched_setscheduler: take the lock, read on_rq
    | PrioEnd(cpu: nat)                          // ... requeue, set the priority, let go of the lock
    | AddNew(cpu: nat, tid: Tid)                 // sched_add_new

  // The CPU is neither about to queue a thread nor inside a switch.
  predicate Free(s: Sys, c: nat) {
    c < |s.cpus| && s.cpus[c].waking.None? && !(s.cpus[c].lock.Some? && s.cpus[c].lock.value.Switching?)
  }

  // Nobody holds the lock of CPU c's queues.
  predicate Unlocked(s: Sys, c: nat) {
    c < |s.cpus| && s.cpus[c].lock.None?
  }

  predicate Enabled(s: Sys, e: Step) {
    match e
    case SetState(c, st) =>
      && Free(s, c) && s.cpus[c].curr in s.threads && s.cpus[c].curr != s.cpus[c].idle
      && !s.threads[s.cpus[c].curr].state.Dead? && !st.New?
    case WakeLock(c, t, mask) => Free(s, c) && t in s.threads && Unlocked(s, s.threads[t].cpu) && mask <= WAKEABLE
    case WakeTest(d) =>
      d < |s.cpus| && s.cpus[d].lock.Some? && s.cpus[d].lock.value.Waker? && Free(s, s.cpus[d].lock.value.from)
    case WakeSet(d) =>
      d < |s.cpus| && s.cpus[d].lock.Some? && s.cpus[d].lock.value.Setter? && Free(s, s.cpus[d].lock.value.from)
    case WakeEnd(c, target) => c < |s.cpus| && s.cpus[c].waking.Some? && Unlocked(s, target)
    case SwitchBegin(c) => Free(s, c) && Unlocked(s, c)
    case SwitchEnd(c) => c < |s.cpus| && s.cpus[c].lock.Some? && s.cpus[c].lock.value.Switching?
    case PrioBegin(t, p, _) => t in s.threads && p < NR_PRIO && Unlocked(s, s.threads[t].cpu)
    case PrioEnd(c) => c < |s.cpus| && s.cpus[c].lock.Some? && s.cpus[c].lock.value.Changing?
    case AddNew(c, t) => Free(s, c) && t in s.threads && s.threads[t].state.New?
  }

  // The step finds what it follows: known threads, priorities that are levels,
  // and, in pick_next, a thread on the level the bitmap names.
  predicate Defined(s: Sys, e: Step)
    requires Enabled(s, e)
  {
    match e
    case WakeEnd(c, target) =>
      var t := s.cpus[c].waking.value;
      t in s.threads && HasLevel(s.cpus[target].rq, s.threads[t].prio)
    case WakeTest(d) => s.cpus[d].lock.value.tid in s.threads
    case WakeSet(d) => s.cpus[d].lock.value.tid in s.threads
    case SwitchEnd(c) => s.cpus[c].lock.value.tid in s.threads
    case SwitchBegin(c) =>
      var u := s.cpus[c];
      && u.curr in s.threads && u.idle in s.threads && HasLevel(u.rq, s.threads[u.curr].prio)
      && CanPick(s.threads, Requeued(s, c))
    case PrioEnd(c) =>
      var ch := s.cpus[c].lock.value;
      && ch.tid in s.threads && HasLevel(s.cpus[c].rq, s.threads[ch.tid].prio) && HasLevel(s.cpus[c].rq, ch.prio)
    case _ => true
  }

  predicate HasLevel(q: Rq, p: nat) {
    p < |q.queues| && p < |q.bitmap|
  }

  predicate CanPick(threads: map<Tid, Thread>, q: Rq) {
    var p := Lowest(q.bitmap, 0);
    p < |q.bitmap| ==>
      p < |q.queues| && q.queues[p] != [] && q.queues[p][0] in threads && HasLevel(q, threads[q.queues[p][0]].prio)
  }

  function WithThread(s: Sys, t: Tid, th: Thread): Sys {
    s.(threads := s.threads[t := th])
  }

  function WithCpu(s: Sys, c: nat, u: Cpu): Sys
    requires c < |s.cpus|
  {
    s.(cpus := s.cpus[c := u])
  }

  function WithState(s: Sys, t: Tid, st: TaskState): Sys
    requires t in s.threads
  {
    WithThread(s, t, s.threads[t].(state := st))
  }

  // The thread is runnable and CPU c is about to queue it.
  function StartMove(s: Sys, c: nat, t: Tid): Sys
    requires c < |s.cpus| && t in s.threads
  {
    WithCpu(WithState(s, t, Running), c, s.cpus[c].(waking := Some(t)))
  }

  function WithLock(s: Sys, c: nat, lock: Option<Hold>): Sys
    requires c < |s.cpus|
  {
    WithCpu(s, c, s.cpus[c].(lock := lock))
  }

  function Asked(s: Sys, c: nat, t: Tid, mask: set<TaskState>): Sys
    requires Enabled(s, WakeLock(c, t, mask))
  {
    WithLock(s, s.threads[t].cpu, Some(Waker(c, t, mask)))
  }

  function Tested(s: Sys, d: nat): Sys
    requires Enabled(s, WakeTest(d)) && Defined(s, WakeTest(d))
  {
    var h := s.cpus[d].lock.value;
    WithLock(s, d, if s.threads[h.tid].state in h.mask then Some(Setter(h.from, h.tid)) else None)
  }

  function Woke(s: Sys, d: nat): Sys
    requires Enabled(s, WakeSet(d)) && Defined(s, WakeSet(d))
  {
    var h := s.cpus[d].lock.value;
    var s1 := WithLock(s, d, None);
    if s.threads[h.tid].onRq || s.threads[h.tid].onCpu then WithState(s1, h.tid, Running)
    else StartMove(s1, h.from, h.tid)
  }

  // activate, on the target chosen.
  function FinishMove(s: Sys, c: nat, target: nat): Sys
    requires Enabled(s, WakeEnd(c, target)) && Defined(s, WakeEnd(c, target))
  {
    var t := s.cpus[c].waking.value;
    var s1 := WithCpu(s, c, s.cpus[c].(waking := None));
    var th := s.threads[t];
    WithThread(WithCpu(s1, target, s1.cpus[target].(rq := Add(s1.cpus[target].rq, t, th.prio, false))),
               t, th.(onRq := true, cpu := target))
  }

  // One thread's fields change, and the queues of CPU c follow.
  lemma QueuesStep(threads: map<Tid, Thread>, q: Rq, q': Rq, c: nat, t: Tid, th: Thread)
    requires QueuesOk(threads, q, c) && RqOk(q')
    requires forall u, p :: 0 <= p < NR_PRIO ==>
               (u in q'.queues[p] <==> if u == t then QueuedAt(th, c, p) else u in q.queues[p])
    ensures QueuesOk(threads[t := th], q', c)
  {
    hide RqOk;
    RqShape(q');
  }

  lemma RqShape(q: Rq)
    requires RqOk(q)
    ensures |q.queues| == NR_PRIO && |q.bitmap| == NR_PRIO
  {
  }

  lemma SameQueues(threads: map<Tid, Thread>, q: Rq, c: nat, t: Tid, th: Thread)
    requires QueuesOk(threads, q, c) && t in threads
    requires forall p :: QueuedAt(th, c, p) == QueuedAt(threads[t], c, p)
    ensures QueuesOk(threads[t := th], q, c)
  {
    hide RqOk;
    RqShape(q);
  }

  // A thread on a CPU may change state freely; a queued one stays Running.
  lemma WithStateKeeps(s: Sys, t: Tid, st: TaskState)
    requires Placed(s) && t in s.threads && !st.New?
    requires IsCurrent(s, t) || (s.threads[t].onRq && st.Running?)
    requires st.Running? || forall c :: 0 <= c < |s.cpus| ==> s.cpus[c].idle != t
    ensures Placed(WithState(s, t, st))
  {
    hide QueuesOk;
    var s' := WithState(s, t, st);
    assert ThreadOk(s, t) && CpuOk(s, s.threads[t].cpu);
    assert forall u, d :: InTransit(s', u, d) == InTransit(s, u, d);
    forall d | 0 <= d < |s'.cpus|
      ensures CpuOk(s', d)
    {
      assert CpuOk(s, d);
      SameQueues(s.threads, s.cpus[d].rq, d, t, s'.threads[t]);
    }
    forall u | u in s'.threads
      ensures ThreadOk(s', u)
    {
      assert ThreadOk(s, u);
      assert Moving(s, u) == Moving(s', u);
    }
  }

  // A lock that is held stays good through steps that leave its thread alone.
  lemma HoldSame(s: Sys, s': Sys, d: nat)
    requires d < |s.cpus| == |s'.cpus| && HoldOk(s, d) && s'.cpus[d].lock == s.cpus[d].lock
    requires var h := s.cpus[d].lock;
             h.Some? && !h.value.Switching? ==>
               && h.value.tid in s'.threads && !s'.threads[h.value.tid].state.New?
               && s'.threads[h.value.tid].onRq == s.threads[h.value.tid].onRq
               && s'.threads[h.value.tid].cpu == s.threads[h.value.tid].cpu
               && (h.value.Setter? ==> IsCurrent(s', h.value.tid) || s'.threads[h.value.tid].state in WAKEABLE)
               && forall e :: InTransit(s', h.value.tid, e) ==> InTransit(s, h.value.tid, e)
    ensures HoldOk(s', d)
  {
  }

  // Taking or letting go of a lock other than in a switch moves nobody.
  lemma WithLockKeeps(s: Sys, d: nat, lock: Option<Hold>)
    requires Placed(s) && d < |s.cpus|
    requires !(lock.Some? && lock.value.Switching?)
    requires !(s.cpus[d].lock.Some? && s.cpus[d].lock.value.Switching?)
    ensures Placed(WithLock(s, d, lock))
  {
    hide QueuesOk;
    var s' := WithLock(s, d, lock);
    assert forall u, e :: InTransit(s', u, e) == InTransit(s, u, e);
    forall e | 0 <= e < |s'.cpus|
      ensures CpuOk(s', e)
    {
      assert CpuOk(s, e);
    }
    forall u | u in s'.threads
      ensures ThreadOk(s', u)
    {
      assert ThreadOk(s, u);
      assert Moving(s, u) == Moving(s', u);
    }
  }

  lemma StartMoveKeeps(s: Sys, c: nat, t: Tid)
    requires Placed(s) && Free(s, c) && t in s.threads
    requires !s.threads[t].state.Running? && !s.threads[t].onCpu
    ensures Placed(StartMove(s, c, t))
  {
    hide QueuesOk;
    var s' := StartMove(s, c, t);
    NotMoving(s, t);
    assert forall u, d :: InTransit(s', u, d) <==> InTransit(s, u, d) || (u == t && d == c);
    forall d | 0 <= d < |s'.cpus|
      ensures CpuOk(s', d)
    {
      assert CpuOk(s, d);
      SameQueues(s.threads, s.cpus[d].rq, d, t, s'.threads[t]);
    }
    forall u | u in s'.threads
      ensures ThreadOk(s', u)
    {
      assert ThreadOk(s, u);
      assert InTransit(s', t, c);
      assert Moving(s, u) ==> Moving(s', u);
    }
  }

  lemma NotMoving(s: Sys, t: Tid)
    requires Placed(s) && t in s.threads && !s.threads[t].state.Running?
    ensures forall d :: !InTransit(s, t, d)
    ensures forall d :: 0 <= d < |s.cpus| ==> s.cpus[d].idle != t
    ensures ThreadOk(s, t) && !s.threads[t].onRq
  {
    hide RqOk;
    assert ThreadOk(s, t);
    forall d | 0 <= d < |s.cpus|
      ensures s.cpus[d].idle != t && !InTransit(s, t, d)
    {
      assert CpuOk(s, d);
    }
  }

  lemma FinishMoveKeeps(s: Sys, c: nat, target: nat)
    requires Placed(s) && Enabled(s, WakeEnd(c, target))
    ensures Defined(s, WakeEnd(c, target)) && Placed(FinishMove(s, c, target))
  {
    hide QueuesOk;
    WakeEndDefined(s, c, target);
    var s' := FinishMove(s, c, target);
    var t := s.cpus[c].waking.value;
    assert CpuOk(s, c) && CpuOk(s, target) && ThreadOk(s, t);
    assert InTransit(s, t, c);
    assert forall u, d :: InTransit(s', u, d) <==> InTransit(s, u, d) && u != t;
    forall d | 0 <= d < |s'.cpus|
      ensures CpuOk(s', d)
    {
      FinishMoveCpu(s, c, target, d);
    }
    forall u | u in s'.threads
      ensures ThreadOk(s', u)
    {
      assert ThreadOk(s, u);
      assert u != t ==> Moving(s, u) == Moving(s', u);
    }
  }

  lemma WakeEndDefined(s: Sys, c: nat, target: nat)
    requires Placed(s) && Enabled(s, WakeEnd(c, target))
    ensures Defined(s, WakeEnd(c, target))
  {
    assert CpuOk(s, c) && CpuOk(s, target) && ThreadOk(s, s.cpus[c].waking.value);
  }

  lemma FinishMoveCpu(s: Sys, c: nat, target: nat, d: nat)
    requires Placed(s) && Enabled(s, WakeEnd(c, target)) && Defined(s, WakeEnd(c, target)) && d < |s.cpus|
    ensures CpuOk(FinishMove(s, c, target), d)
  {
    hide QueuesOk, Add;
    var s' := FinishMove(s, c, target);
    var t := s.cpus[c].waking.value;
    assert CpuOk(s, c) && ThreadOk(s, t) && CpuOk(s, d);
    assert InTransit(s, t, c);
    var w := s.cpus[d].waking;
    if w.Some? {
      assert InTransit(s, w.value, d);
      assert ThreadOk(s, w.value);
    }
    if d == target {
      QueuedLast(s.threads, s.cpus[d].rq, d, t);
    } else {
      SameQueues(s.threads, s.cpus[d].rq, d, t, s'.threads[t]);
    }
    assert QueuesOk(s'.threads, s'.cpus[d].rq, d);
  }

  lemma QueuedLast(threads: map<Tid, Thread>, q: Rq, c: nat, t: Tid)
    requires QueuesOk(threads, q, c) && t in threads && !threads[t].onRq && threads[t].prio < NR_PRIO
    ensures QueuesOk(threads[t := threads[t].(onRq := true, cpu := c)], Add(q, t, threads[t].prio, false), c)
  {
    AddOk(q, t, threads[t].prio, false);
    QueuesStep(threads, q, Add(q, t, threads[t].prio, false), c, t, threads[t].(onRq := true, cpu := c));
  }

  // ---- schedule ----

  predicate GoesBack(s: Sys, c: nat)
    requires c < |s.cpus| && s.cpus[c].curr in s.threads
  {
    s.threads[s.cpus[c].curr].state.Running? && s.cpus[c].curr != s.cpus[c].idle
  }

  // The queue once a preempted thread is back on it.
  function Requeued(s: Sys, c: nat): Rq
    requires c < |s.cpus| && s.cpus[c].curr in s.threads
    requires HasLevel(s.cpus[c].rq, s.threads[s.cpus[c].curr].prio)
  {
    var prev := s.cpus[c].curr;
    if GoesBack(s, c) then Add(s.cpus[c].rq, prev, s.threads[prev].prio, s.threads[prev].fifo) else s.cpus[c].rq
  }

  function NextThread(threads: map<Tid, Thread>, q: Rq, idle: Tid): (t: Tid)
    requires CanPick(threads, q)
    ensures RqOk(q) ==> if Lowest(q.bitmap, 0) == NR_PRIO then t == idle else IsNext(q, t, Lowest(q.bitmap, 0))
  {
    var p := Lowest(q.bitmap, 0);
    if p == |q.bitmap| then idle else q.queues[p][0]
  }

  // pick_next dequeues at the priority the thread has now.
  function Picked(threads: map<Tid, Thread>, q: Rq): Rq
    requires CanPick(threads, q)
  {
    var p := Lowest(q.bitmap, 0);
    if p == |q.bitmap| then q else var t := q.queues[p][0]; Del(q, t, threads[t].prio)
  }

  function Switch(threads: map<Tid, Thread>, prev: Tid, next: Tid, back: bool, c: nat): map<Tid, Thread>
    requires prev in threads && next in threads
  {
    if prev == next then threads
    else threads[prev := threads[prev].(onRq := back)]
                [next := threads[next].(onRq := false, onCpu := true, cpu := c)]
  }

  lemma RequeuedOk(s: Sys, c: nat)
    requires Placed(s) && c < |s.cpus|
    ensures s.cpus[c].curr in s.threads && HasLevel(s.cpus[c].rq, s.threads[s.cpus[c].curr].prio)
    ensures var q := Requeued(s, c); var prev := s.cpus[c].curr;
            && s.threads[prev].cpu == c && s.threads[prev].onCpu && RqOk(q)
            && QueuesOk(s.threads[prev := s.threads[prev].(onRq := GoesBack(s, c))], q, c)
  {
    var u := s.cpus[c];
    assert CpuOk(s, c) && ThreadOk(s, u.curr);
    var th := s.threads[u.curr].(onRq := GoesBack(s, c));
    if GoesBack(s, c) {
      AddOk(u.rq, u.curr, th.prio, th.fifo);
      QueuesStep(s.threads, u.rq, Requeued(s, c), c, u.curr, th);
    } else {
      SameQueues(s.threads, u.rq, c, u.curr, th);
    }
  }

  lemma PickedOk(threads: map<Tid, Thread>, q: Rq, c: nat, idle: Tid)
    requires QueuesOk(threads, q, c) && idle in threads && !threads[idle].onRq
    ensures RqOk(q) && CanPick(threads, q)
    ensures var t := NextThread(threads, q, idle);
            && t in threads && RqOk(Picked(threads, q))
            && (t != idle ==> threads[t].onRq && threads[t].cpu == c)
            && QueuesOk(threads[t := threads[t].(onRq := false)], Picked(threads, q), c)
  {
    var p := Lowest(q.bitmap, 0);
    if p < NR_PRIO {
      assert q.queues[p][0] in q.queues[p];
    }
    var t := NextThread(threads, q, idle);
    var th := threads[t].(onRq := false);
    if p == NR_PRIO {
      SameQueues(threads, q, c, t, th);
    } else {
      DelOk(q, t, p);
      QueuesStep(threads, q, Picked(threads, q), c, t, th);
    }
  }

  // schedule on CPU c, up to the switch. A thread that stays lets go of the lock.
  function Switched(s: Sys, c: nat): Sys
    requires Enabled(s, SwitchBegin(c)) && Defined(s, SwitchBegin(c))
  {
    var u := s.cpus[c];
    var q := Requeued(s, c);
    var next := NextThread(s.threads, q, u.idle);
    var lock := if next == u.curr then None else Some(Switching(u.curr));
    Sys(s.cpus[c := u.(rq := Picked(s.threads, q), curr := next, lock := lock)],
        Switch(s.threads, u.curr, next, GoesBack(s, c), c))
  }

  // finish_switch on CPU c.
  function Finished(s: Sys, c: nat): Sys
    requires Enabled(s, SwitchEnd(c)) && Defined(s, SwitchEnd(c))
  {
    var prev := s.cpus[c].lock.value.tid;
    WithThread(WithLock(s, c, None), prev, s.threads[prev].(onCpu := false))
  }

  // Whether the previous thread is marked queued makes no difference to the pick.
  lemma PickSame(threads: map<Tid, Thread>, q: Rq, idle: Tid, t: Tid, onRq: bool)
    requires t in threads && CanPick(threads[t := threads[t].(onRq := onRq)], q)
    ensures CanPick(threads, q)
    ensures var threads1 := threads[t := threads[t].(onRq := onRq)];
            Picked(threads, q) == Picked(threads1, q) && NextThread(threads, q, idle) == NextThread(threads1, q, idle)
  {
    hide RqOk, IsNext, Del;
  }

  lemma SwitchDefined(s: Sys, c: nat)
    requires Placed(s) && Enabled(s, SwitchBegin(c))
    ensures Defined(s, SwitchBegin(c))
  {
    hide RqOk, QueuesOk, Add, Requeued, CanPick, QueuedAt;
    RequeuedOk(s, c);
    assert CpuOk(s, c);
    var u := s.cpus[c];
    var back := GoesBack(s, c);
    PickedOk(s.threads[u.curr := s.threads[u.curr].(onRq := back)], Requeued(s, c), c, u.idle);
    PickSame(s.threads, Requeued(s, c), u.idle, u.curr, back);
  }

  lemma QueuesAgree(threads: map<Tid, Thread>, threads': map<Tid, Thread>, q: Rq, c: nat)
    requires QueuesOk(threads, q, c) && threads'.Keys == threads.Keys
    requires forall t, p :: t in threads ==> QueuedAt(threads'[t], c, p) == QueuedAt(threads[t], c, p)
    ensures QueuesOk(threads', q, c)
  {
    hide RqOk;
    RqShape(q);
  }

  // What the switch does to each thread.
  lemma SwitchFacts(s: Sys, c: nat)
    requires Placed(s) && Enabled(s, SwitchBegin(c))
    ensures Defined(s, SwitchBegin(c))
    ensures var s' := Switched(s, c); var prev := s.cpus[c].curr; var next := s'.cpus[c].curr;
            && prev in s.threads && next in s.threads && s'.threads.Keys == s.threads.Keys
            && s.threads[next].cpu == c && !(next != prev && s.threads[next].onCpu)
            && (next != prev && next != s.cpus[c].idle ==> s.threads[next].onRq && s.threads[next].state.Running?)
            && (next == prev && prev != s.cpus[c].idle ==> GoesBack(s, c))
            && s'.threads == Switch(s.threads, prev, next, GoesBack(s, c), c)
            && s'.cpus == s.cpus[c := s.cpus[c].(rq := s'.cpus[c].rq, curr := next,
                                 lock := if next == prev then None else Some(Switching(prev)))]
            && QueuesOk(s'.threads, s'.cpus[c].rq, c)
  {
    hide RqOk, QueuesOk, Add, Del, Requeued, Picked, CanPick;
    SwitchDefined(s, c);
    RequeuedOk(s, c);
    assert CpuOk(s, c);
    var u := s.cpus[c];
    var prev, back := u.curr, GoesBack(s, c);
    var q := Requeued(s, c);
    var threads1 := s.threads[prev := s.threads[prev].(onRq := back)];
    PickedOk(threads1, q, c, u.idle);
    PickSame(s.threads, q, u.idle, prev, back);
    var next := NextThread(s.threads, q, u.idle);
    assert ThreadOk(s, prev) && ThreadOk(s, next);
    QueuesAgree(threads1[next := threads1[next].(onRq := false)], Switch(s.threads, prev, next, back, c),
                Picked(s.threads, q), c);
  }

  // The thread that runs next has the best priority of all that are queued,
  // the preempted one included, and has waited longest at that priority; the
  // idle thread runs only when nobody is queued.
  lemma TakesBest(s: Sys, c: nat)
    requires Placed(s) && Enabled(s, SwitchBegin(c))
    ensures Defined(s, SwitchBegin(c))
    ensures var next := Switched(s, c).cpus[c].curr; var q := Requeued(s, c);
            && |q.queues| == NR_PRIO
            && (|| (exists p :: 0 <= p < NR_PRIO && IsNext(q, next, p))
                || (next == s.cpus[c].idle && forall p :: 0 <= p < NR_PRIO ==> q.queues[p] == []))
  {
    hide Add, CpuOk, ThreadOk, QueuesOk, Requeued;
    SwitchDefined(s, c);
    RequeuedOk(s, c);
    var q := Requeued(s, c);
    var p := Lowest(q.bitmap, 0);
    if p < NR_PRIO {
      assert IsNext(q, NextThread(s.threads, q, s.cpus[c].idle), p);
    } else {
      assert forall k :: 0 <= k < NR_PRIO ==> !q.bitmap[k];
    }
  }

  lemma SwitchCpu(s: Sys, c: nat, d: nat)
    requires Placed(s) && Enabled(s, SwitchBegin(c)) && Defined(s, SwitchBegin(c)) && d < |s.cpus|
    ensures CpuOk(Switched(s, c), d)
  {
    hide Switched, QueuesOk;
    SwitchFacts(s, c);
    assert CpuOk(s, c) && CpuOk(s, d);
    var s' := Switched(s, c);
    var prev, next := s.cpus[c].curr, s'.cpus[c].curr;
    assert ThreadOk(s, prev) && ThreadOk(s, next);
    if d != c {
      QueuesAgree(s.threads, s'.threads, s.cpus[d].rq, d);
    }
    var w := s.cpus[d].waking;
    if w.Some? {
      assert ThreadOk(s, w.value);
    }
  }

  lemma SwitchKeeps(s: Sys, c: nat)
    requires Placed(s) && Enabled(s, SwitchBegin(c))
    ensures Defined(s, SwitchBegin(c)) && Placed(Switched(s, c))
  {
    hide Switched, QueuesOk;
    SwitchFacts(s, c);
    var s' := Switched(s, c);
    var prev, next := s.cpus[c].curr, s'.cpus[c].curr;
    assert CpuOk(s, c) && ThreadOk(s, prev) && ThreadOk(s, next);
    assert forall u, d :: InTransit(s', u, d) == InTransit(s, u, d);
    forall d | 0 <= d < |s'.cpus|
      ensures CpuOk(s', d)
    {
      SwitchCpu(s, c, d);
    }
    forall u | u in s'.threads
      ensures ThreadOk(s', u)
    {
      assert ThreadOk(s, u);
      assert Moving(s', u) == Moving(s, u);
    }
  }

  lemma FinishKeeps(s: Sys, c: nat)
    requires Placed(s) && Enabled(s, SwitchEnd(c))
    ensures Defined(s, SwitchEnd(c)) && Placed(Finished(s, c))
  {
    hide QueuesOk;
    assert CpuOk(s, c);
    var s', prev := Finished(s, c), s.cpus[c].lock.value.tid;
    assert ThreadOk(s, prev);
    assert forall u, d :: InTransit(s', u, d) == InTransit(s, u, d);
    forall d | 0 <= d < |s'.cpus|
      ensures CpuOk(s', d)
    {
      assert CpuOk(s, d);
      SameQueues(s.threads, s.cpus[d].rq, d, prev, s'.threads[prev]);
    }
    forall u | u in s'.threads
      ensures ThreadOk(s', u)
    {
      assert ThreadOk(s, u);
      assert Moving(s', u) == Moving(s, u);
    }
  }

  // ---- wakeups ----

  // A waker whose lock still protects its thread.
  lemma SetKeeps(s: Sys, d: nat)
    requires Placed(s) && Enabled(s, WakeSet(d)) && HoldOk(s, d)
    ensures Defined(s, WakeSet(d)) && Placed(Woke(s, d))
  {
    hide OneWaker;
    var h := s.cpus[d].lock.value;
    var s1 := WithLock(s, d, None);
    WithLockKeeps(s, d, None);
    assert ThreadOk(s, h.tid) && ThreadOk(s1, h.tid) && CpuOk(s, d);
    hide ThreadOk, CpuOk, Placed;
    if s.threads[h.tid].onCpu {
      WithStateKeeps(s1, h.tid, Running);
    } else {
      StartMoveKeeps(s1, h.from, h.tid);
    }
  }

  // ---- sched_setscheduler ----

  function BeginChange(s: Sys, t: Tid, p: nat, fifo: bool): Sys
    requires Enabled(s, PrioBegin(t, p, fifo))
  {
    WithLock(s, s.threads[t].cpu, Some(Changing(t, s.threads[t].onRq, p, fifo)))
  }

  // Only a thread that was found queued is taken off its level and put on the
  // new one.
  function EndChange(s: Sys, c: nat): Sys
    requires Enabled(s, PrioEnd(c)) && Defined(s, PrioEnd(c))
  {
    var u := s.cpus[c];
    var ch := u.lock.value;
    var th := s.threads[ch.tid].(prio := ch.prio, fifo := ch.fifo);
    if !ch.queued then WithThread(WithLock(s, c, None), ch.tid, th)
    else
      var q := Add(Del(u.rq, ch.tid, s.threads[ch.tid].prio), ch.tid, ch.prio, false);
      WithThread(WithCpu(s, c, u.(lock := None, rq := q)), ch.tid, th.(onRq := true, cpu := c))
  }

  lemma RequeuedAt(threads: map<Tid, Thread>, q: Rq, c: nat, t: Tid, p: nat, fifo: bool)
    requires QueuesOk(threads, q, c) && t in threads && threads[t].onRq && threads[t].cpu == c
    requires threads[t].prio < NR_PRIO && p < NR_PRIO
    ensures QueuesOk(threads[t := threads[t].(prio := p, fifo := fifo)], Add(Del(q, t, threads[t].prio), t, p, false), c)
  {
    var th := threads[t];
    DelOk(q, t, th.prio);
    var q1 := Del(q, t, th.prio);
    QueuesStep(threads, q, q1, c, t, th.(onRq := false));
    AddOk(q1, t, p, false);
    var threads1 := threads[t := th.(onRq := false)];
    QueuesStep(threads1, q1, Add(q1, t, p, false), c, t, th.(prio := p, fifo := fifo));
    assert threads1[t := th.(prio := p, fifo := fifo)] == threads[t := th.(prio := p, fifo := fifo)];
  }

  lemma PrioEndDefined(s: Sys, c: nat)
    requires Placed(s) && Enabled(s, PrioEnd(c)) && HoldOk(s, c)
    ensures Defined(s, PrioEnd(c))
  {
    assert CpuOk(s, c) && ThreadOk(s, s.cpus[c].lock.value.tid);
  }

  // A change whose lock still protects its thread.
  lemma EndChangeKeeps(s: Sys, c: nat)
    requires Placed(s) && Enabled(s, PrioEnd(c)) && HoldOk(s, c)
    ensures Defined(s, PrioEnd(c)) && Placed(EndChange(s, c))
  {
    hide QueuesOk, Add, Del, RqOk;
    PrioEndDefined(s, c);
    var s' := EndChange(s, c);
    var t := s.cpus[c].lock.value.tid;
    assert ThreadOk(s, t);
    assert forall u, d :: InTransit(s', u, d) == InTransit(s, u, d);
    forall d | 0 <= d < |s'.cpus|
      ensures CpuOk(s', d)
    {
      EndChangeCpu(s, c, d);
    }
    forall u | u in s'.threads
      ensures ThreadOk(s', u)
    {
      assert ThreadOk(s, u);
      assert Moving(s', u) == Moving(s, u);
    }
  }

  lemma EndChangeCpu(s: Sys, c: nat, d: nat)
    requires Placed(s) && Enabled(s, PrioEnd(c)) && HoldOk(s, c) && Defined(s, PrioEnd(c)) && d < |s.cpus|
    ensures CpuOk(EndChange(s, c), d)
  {
    hide QueuesOk, Add, Del, RqOk;
    var s' := EndChange(s, c);
    var ch := s.cpus[c].lock.value;
    assert ThreadOk(s, ch.tid) && CpuOk(s, d);
    if ch.queued && d == c {
      RequeuedAt(s.threads, s.cpus[d].rq, d, ch.tid, ch.prio, ch.fifo);
    } else {
      SameQueues(s.threads, s.cpus[d].rq, d, ch.tid, s'.threads[ch.tid]);
    }
  }

  // ---- runs ----

  function Apply(s: Sys, e: Step): Sys
    requires Enabled(s, e) && Defined(s, e)
  {
    match e
    case SetState(c, st) => WithState(s, s.cpus[c].curr, st)
    case WakeLock(c, t, mask) => Asked(s, c, t, mask)
    case WakeTest(d) => Tested(s, d)
    case WakeSet(d) => Woke(s, d)
    case WakeEnd(c, target) => FinishMove(s, c, target)
    case SwitchBegin(c) => Switched(s, c)
    case SwitchEnd(c) => Finished(s, c)
    case PrioBegin(t, p, fifo) => BeginChange(s, t, p, fifo)
    case PrioEnd(c) => EndChange(s, c)
    case AddNew(c, t) => StartMove(s, c, t)
  }

  // A thread's lock is not taken while the thread is in transit, neither for a
  // wakeup nor for a priority change.
  ghost predicate Disciplined(s: Sys, e: Step) {
    e.PrioBegin? || e.WakeLock? ==> Settled(s, e.tid)
  }

  // The step uses a lock it has taken before.
  predicate UsesLock(e: Step) {
    e.WakeTest? || e.WakeSet? || e.PrioEnd?
  }

  // Who moves or changes is either behind a lock that the step has checked, or
  // not protected by any lock that is held.
  lemma StepKeepsPlaced(s: Sys, e: Step)
    requires Placed(s) && Enabled(s, e)
    requires UsesLock(e) ==> e.cpu < |s.cpus| && HoldOk(s, e.cpu)
    ensures Defined(s, e) && Placed(Apply(s, e))
  {
    hide Placed, HoldOk, CanPick, Requeued, FinishMove, Switched, Finished, Woke, EndChange;
    match e
    case SetState(c, st) =>
      CurrentFacts(s, c);
      WithStateKeeps(s, s.cpus[c].curr, st);
    case WakeLock(c, t, mask) => WithLockKeeps(s, s.threads[t].cpu, Some(Waker(c, t, mask)));
    case WakeTest(d) => HeldKnown(s, d); WithLockKeeps(s, d, Tested(s, d).cpus[d].lock);
    case WakeSet(d) => SetKeeps(s, d);
    case WakeEnd(c, target) => FinishMoveKeeps(s, c, target);
    case SwitchBegin(c) => SwitchKeeps(s, c);
    case SwitchEnd(c) => FinishKeeps(s, c);
    case PrioBegin(t, p, fifo) => WithLockKeeps(s, s.threads[t].cpu, Some(Changing(t, s.threads[t].onRq, p, fifo)));
    case PrioEnd(c) => EndChangeKeeps(s, c);
    case AddNew(c, t) => NewFacts(s, t); StartMoveKeeps(s, c, t);
  }

  lemma HeldKnown(s: Sys, d: nat)
    requires d < |s.cpus| && HoldOk(s, d) && s.cpus[d].lock.Some? && s.cpus[d].lock.value.Waker?
    ensures s.cpus[d].lock.value.tid in s.threads
  {
  }

  lemma ThreadStepHolds(s: Sys, e: Step, d: nat)
    requires Inv(s) && Enabled(s, e) && Defined(s, e) && d < |s.cpus|
    requires e.SetState? || e.WakeEnd? || e.AddNew?
    ensures |Apply(s, e).cpus| == |s.cpus| && HoldOk(Apply(s, e), d)
  {
    hide QueuesOk, Add;
    var s' := Apply(s, e);
    assert HoldOk(s, d);
    if e.SetState? {
      CurrentFacts(s, e.cpu);
    } else if e.WakeEnd? {
      assert InTransit(s, s.cpus[e.cpu].waking.value, e.cpu);
    }
    hide Placed, CpuOk, ThreadOk;
    HoldSame(s, s', d);
  }

  lemma LockStepHolds(s: Sys, e: Step, d: nat)
    requires Inv(s) && Enabled(s, e) && Defined(s, e) && Disciplined(s, e) && d < |s.cpus|
    requires e.WakeLock? || e.PrioBegin?
    ensures |Apply(s, e).cpus| == |s.cpus| && HoldOk(Apply(s, e), d)
  {
    hide Placed;
    var s' := Apply(s, e);
    assert HoldOk(s, d);
    assert forall u, c :: InTransit(s', u, c) == InTransit(s, u, c);
    if d != s.threads[e.tid].cpu {
      HoldSame(s, s', d);
    }
  }

  lemma UseStepHolds(s: Sys, e: Step, d: nat)
    requires Inv(s) && Enabled(s, e) && Defined(s, e) && UsesLock(e) && d < |s.cpus|
    ensures |Apply(s, e).cpus| == |s.cpus| && HoldOk(Apply(s, e), d)
  {
    hide Add, Del, CpuOk, OneWaker;
    var s', t := Apply(s, e), s.cpus[e.cpu].lock.value.tid;
    assert HoldOk(s, d) && HoldOk(s, e.cpu);
    assert ThreadOk(s, t);
    hide Placed, ThreadOk;
    assert forall u, c :: InTransit(s', u, c) ==> InTransit(s, u, c) || (u == t && e.WakeSet?);
    if d != e.cpu {
      assert s'.cpus[d].lock == s.cpus[d].lock && s'.cpus[d].curr == s.cpus[d].curr;
      HoldSame(s, s', d);
    }
  }

  lemma SwitchStepHolds(s: Sys, e: Step, d: nat)
    requires Inv(s) && Enabled(s, e) && Defined(s, e) && d < |s.cpus| && (e.SwitchBegin? || e.SwitchEnd?)
    ensures |Apply(s, e).cpus| == |s.cpus| && HoldOk(Apply(s, e), d)
  {
    hide QueuesOk, Switched;
    var s' := Apply(s, e);
    assert HoldOk(s, d);
    assert CpuOk(s, e.cpu);
    if e.SwitchBegin? {
      SwitchFacts(s, e.cpu);
    }
    hide Placed, CpuOk, ThreadOk;
    if d != e.cpu {
      assert forall t :: t in s.threads && s.threads[t].cpu == d ==> t in s'.threads && s'.threads[t] == s.threads[t];
      HoldSame(s, s', d);
    }
  }

  lemma StepKeepsHolds(s: Sys, e: Step, d: nat)
    requires Inv(s) && Enabled(s, e) && Defined(s, e) && Disciplined(s, e) && d < |s.cpus|
    ensures |Apply(s, e).cpus| == |s.cpus| && HoldOk(Apply(s, e), d)
  {
    hide Inv, Enabled, Defined, Disciplined, Apply, HoldOk;
    if UsesLock(e) {
      UseStepHolds(s, e, d);
    } else if e.WakeLock? || e.PrioBegin? {
      LockStepHolds(s, e, d);
    } else if e.SwitchBegin? || e.SwitchEnd? {
      SwitchStepHolds(s, e, d);
    } else {
      ThreadStepHolds(s, e, d);
    }
  }

  lemma StepKeepsInv(s: Sys, e: Step)
    requires Inv(s) && Enabled(s, e) && Disciplined(s, e)
    ensures Defined(s, e) && Inv(Apply(s, e))
  {
    hide Placed, HoldOk, Enabled, Defined, Apply, Disciplined;
    LockInRange(s, e);
    StepKeepsPlaced(s, e);
    CpusStay(s, e);
    forall d | 0 <= d < |s.cpus|
      ensures HoldOk(Apply(s, e), d)
    {
      StepKeepsHolds(s, e, d);
    }
  }

  lemma CpusStay(s: Sys, e: Step)
    requires Enabled(s, e) && Defined(s, e)
    ensures |Apply(s, e).cpus| == |s.cpus|
  {
    hide Add, Del, Requeued, Picked;
  }

  lemma LockInRange(s: Sys, e: Step)
    requires Enabled(s, e)
    ensures UsesLock(e) ==> e.cpu < |s.cpus|
  {
  }

  lemma CurrentFacts(s: Sys, c: nat)
    requires Placed(s) && c < |s.cpus| && s.cpus[c].curr != s.cpus[c].idle
    ensures s.cpus[c].curr in s.threads && s.threads[s.cpus[c].curr].onCpu && s.threads[s.cpus[c].curr].cpu == c
    ensures !s.threads[s.cpus[c].curr].state.New?
    ensures forall d :: 0 <= d < |s.cpus| ==> s.cpus[d].idle != s.cpus[c].curr
  {
    hide QueuesOk;
    assert CpuOk(s, c) && ThreadOk(s, s.cpus[c].curr);
    forall d | 0 <= d < |s.cpus|
      ensures s.cpus[d].idle != s.cpus[c].curr
    {
      assert CpuOk(s, d);
    }
  }

  lemma NewFacts(s: Sys, t: Tid)
    requires Placed(s) && t in s.threads && s.threads[t].state.New?
    ensures !s.threads[t].onCpu
  {
    assert ThreadOk(s, t);
  }

  ghost predicate Possible(s: Sys, es: seq<Step>)
    decreases |es|
  {
    es == [] || (Enabled(s, es[0]) && Defined(s, es[0]) && Possible(Apply(s, es[0]), es[1..]))
  }

  ghost function After(s: Sys, es: seq<Step>): Sys
    requires Possible(s, es)
    decreases |es|
  {
    if es == [] then s else After(Apply(s, es[0]), es[1..])
  }

  ghost predicate DisciplinedRun(s: Sys, es: seq<Step>)
    requires Possible(s, es)
    decreases |es|
  {
    es == [] || (Disciplined(s, es[0]) && DisciplinedRun(Apply(s, es[0]), es[1..]))
  }

  lemma {:induction false} RunKeepsInv(s: Sys, es: seq<Step>)
    requires Inv(s) && Possible(s, es) && DisciplinedRun(s, es)
    ensures Inv(After(s, es))
    decreases |es|
  {
    hide Inv, Apply, Enabled, Defined, Disciplined;
    if es != [] {
      StepKeepsInv(s, es[0]);
      RunKeepsInv(Apply(s, es[0]), es[1..]);
    }
  }

  // Over every run, every thread that is not idle is in exactly one place, and
  // it is off every CPU and queue only if it is asleep.
  lemma RunnableHasPlace(s: Sys, es: seq<Step>, t: Tid) returns (pl: Place)
    requires Inv(s) && Possible(s, es) && DisciplinedRun(s, es)
    requires t in After(s, es).threads && !IsIdle(After(s, es), t)
    ensures At(After(s, es), t, pl) && forall q :: At(After(s, es), t, q) ==> q == pl
    ensures After(s, es).threads[t].state.Running? ==> !pl.Asleep?
  {
    hide Possible, After, Placed, DisciplinedRun;
    RunKeepsInv(s, es);
    pl := OnePlace(After(s, es), t);
  }

  // Over every run the bitmaps are exact, so no step that may come next can
  // find an empty list where the bitmap names one.
  lemma BitmapsAgree(s: Sys, es: seq<Step>, c: nat, p: nat)
    requires Inv(s) && Possible(s, es) && DisciplinedRun(s, es) && c < |After(s, es).cpus| && p < NR_PRIO
    ensures var q := After(s, es).cpus[c].rq;
            && p < |q.bitmap| && p < |q.queues| && (q.bitmap[p] <==> q.queues[p] != [])
            && q.nrRunning == Total(q.queues)
    ensures forall e :: Enabled(After(s, es), e) && Disciplined(After(s, es), e) ==> Defined(After(s, es), e)
  {
    hide Possible, After, DisciplinedRun, Enabled, Defined, Disciplined;
    RunKeepsInv(s, es);
    assert CpuOk(After(s, es), c);
    forall e | Enabled(After(s, es), e) && Disciplined(After(s, es), e)
      ensures Defined(After(s, es), e)
    {
      hide Inv;
      StepKeepsInv(After(s, es), e);
    }
  }
}

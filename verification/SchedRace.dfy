// A priority change while its thread is in transit (kernel/sched.c): the one
// interleaving that puts a thread on the list of a level it does not have.
module SchedRace {
  import opened Common
  import opened Lists
  import opened RunQueue
  import opened Sched

  // However the other CPUs go on, as long as they take no lock of a thread in
  // transit themselves.
  ghost predicate StaysPlaced(s: Sys) {
    forall es :: Possible(s, es) && DisciplinedRun(s, es) ==> Placed(After(s, es))
  }

  lemma PossibleCons(s: Sys, e: Step, es: seq<Step>)
    requires Enabled(s, e) && Defined(s, e) && Possible(Apply(s, e), es)
    ensures Possible(s, [e] + es) && After(s, [e] + es) == After(Apply(s, e), es)
    ensures Disciplined(s, e) && DisciplinedRun(Apply(s, e), es) ==> DisciplinedRun(s, [e] + es)
  {
    hide Enabled, Defined, Apply, Disciplined;
    assert ([e] + es)[1..] == es;
  }

  lemma PossibleOne(s: Sys, e: Step)
    requires Enabled(s, e) && Defined(s, e)
    ensures Possible(s, [e]) && After(s, [e]) == Apply(s, e)
    ensures Disciplined(s, e) ==> DisciplinedRun(s, [e])
  {
    hide Enabled, Defined, Apply, Disciplined;
    PossibleCons(s, e, []);
    assert [e] + [] == [e];
  }

  // The thread lands on the other CPU's queue at its old level while the
  // change believes it is not queued.
  lemma RaceBreaks(s: Sys, t: Tid, p: nat, fifo: bool, c: nat, target: nat)
    requires Placed(s) && InTransit(s, t, c) && t in s.threads && Enabled(s, PrioBegin(t, p, fifo))
    requires p != s.threads[t].prio && Unlocked(s, target) && target != s.threads[t].cpu
    ensures var s1 := BeginChange(s, t, p, fifo); var es := [WakeEnd(c, target), PrioEnd(s.threads[t].cpu)];
            Possible(s1, es) && DisciplinedRun(s1, es) && !Placed(After(s1, es))
  {
    var d := s.threads[t].cpu;
    Levels(s, t, target, p);
    Levels(s, t, d, p);
    hide Placed, CpuOk, ThreadOk, HasLevel, Possible, After, DisciplinedRun;
    var s1 := BeginChange(s, t, p, fifo);
    var s2 := FinishMove(s1, c, target);
    var s3 := EndChange(s2, d);
    PossibleOne(s2, PrioEnd(d));
    PossibleCons(s1, WakeEnd(c, target), [PrioEnd(d)]);
    assert [WakeEnd(c, target)] + [PrioEnd(d)] == [WakeEnd(c, target), PrioEnd(d)];
    Misfiled(s3, t, target, s.threads[t].prio);
  }

  lemma Levels(s: Sys, t: Tid, c: nat, p: nat)
    requires Placed(s) && t in s.threads && c < |s.cpus| && p < NR_PRIO
    ensures HasLevel(s.cpus[c].rq, s.threads[t].prio) && HasLevel(s.cpus[c].rq, p) && s.threads[t].prio < NR_PRIO
    ensures HasLevel(Add(s.cpus[c].rq, t, s.threads[t].prio, false), p)
  {
    assert CpuOk(s, c) && ThreadOk(s, t);
  }

  lemma Misfiled(s: Sys, t: Tid, c: nat, p: nat)
    requires c < |s.cpus| && p < |s.cpus[c].rq.queues| && t in s.cpus[c].rq.queues[p]
    requires t in s.threads && s.threads[t].prio != p && p < NR_PRIO
    ensures !Placed(s)
  {
    assert !QueuedAt(s.threads[t], c, p);
    assert !QueuesOk(s.threads, s.cpus[c].rq, c);
    assert !CpuOk(s, c);
  }

  // A new thread goes the same way: sched_add_new takes no lock of its own.
  lemma NewRaceBreaks(s: Sys, t: Tid, p: nat, fifo: bool, c: nat, target: nat)
    requires Inv(s) && t in s.threads && s.threads[t].state.New? && Enabled(s, PrioBegin(t, p, fifo))
    requires p != s.threads[t].prio && Unlocked(s, target) && target != s.threads[t].cpu && Free(s, c)
    ensures var s1 := BeginChange(s, t, p, fifo);
            var es := [AddNew(c, t), WakeEnd(c, target), PrioEnd(s.threads[t].cpu)];
            Possible(s1, es) && DisciplinedRun(s1, es) && !Placed(After(s1, es))
  {
    hide CpuOk, ThreadOk, HoldOk, OneWaker;
    var d := s.threads[t].cpu;
    var s0 := StartMove(s, c, t);
    NewFacts(s, t);
    StartMoveKeeps(s, c, t);
    RaceBreaks(s0, t, p, fifo, c, target);
    var s1 := BeginChange(s, t, p, fifo);
    var es := [WakeEnd(c, target), PrioEnd(d)];
    assert StartMove(s1, c, t) == BeginChange(s0, t, p, fifo) by { SwapBegin(s, t, p, fifo, c); }
    hide Possible, After, DisciplinedRun, Placed;
    PossibleCons(s1, AddNew(c, t), es);
    assert [AddNew(c, t)] + es == [AddNew(c, t), WakeEnd(c, target), PrioEnd(d)];
  }

  // Neither step looks at what the other writes.
  lemma SwapBegin(s: Sys, t: Tid, p: nat, fifo: bool, c: nat)
    requires Enabled(s, PrioBegin(t, p, fifo)) && Free(s, c)
    ensures StartMove(BeginChange(s, t, p, fifo), c, t) == BeginChange(StartMove(s, c, t), t, p, fifo)
  {
    var d := s.threads[t].cpu;
    var a, b := StartMove(BeginChange(s, t, p, fifo), c, t), BeginChange(StartMove(s, c, t), t, p, fifo);
    assert forall k :: 0 <= k < |s.cpus| ==> a.cpus[k] == b.cpus[k];
  }

  // A change of priority is safe, whatever the others do meanwhile, if and only
  // if its thread is not in transit and not still to be added. (With a second
  // CPU to queue it on, and a CPU to add it from.)
  lemma SafeExactlyWhenSettled(s: Sys, t: Tid, p: nat, fifo: bool, free: nat, target: nat)
    requires Inv(s) && t in s.threads && Enabled(s, PrioBegin(t, p, fifo)) && p != s.threads[t].prio
    requires Free(s, free) && Unlocked(s, target) && target != s.threads[t].cpu
    ensures StaysPlaced(BeginChange(s, t, p, fifo)) <==> Settled(s, t)
  {
    hide Placed, HoldOk, Possible, After, DisciplinedRun, BeginChange;
    var s1 := BeginChange(s, t, p, fifo);
    InvIsPlaced(s);
    if Settled(s, t) {
      ChangeBegins(s, t, p, fifo);
      hide Inv;
      forall es | Possible(s1, es) && DisciplinedRun(s1, es)
        ensures Placed(After(s1, es))
      {
        RunKeepsInv(s1, es);
        InvIsPlaced(After(s1, es));
      }
    } else if s.threads[t].state.New? {
      NewRaceBreaks(s, t, p, fifo, free, target);
    } else {
      var c :| InTransit(s, t, c);
      RaceBreaks(s, t, p, fifo, c, target);
    }
  }

  lemma ChangeBegins(s: Sys, t: Tid, p: nat, fifo: bool)
    requires Inv(s) && Enabled(s, PrioBegin(t, p, fifo)) && Settled(s, t)
    ensures Inv(BeginChange(s, t, p, fifo))
  {
    hide Inv, BeginChange;
    StepKeepsInv(s, PrioBegin(t, p, fifo));
  }

  // ---- what the misplaced thread does to the bitmap ----

  // Taking a thread off the list of level p when its priority says r leaves the
  // bit of p set, also when the list is then empty.
  lemma WrongBit(q: Rq, t: Tid, p: nat, r: nat)
    requires RqOk(q) && p < NR_PRIO && r < NR_PRIO && p != r && OnlyAt(q, t, p)
    ensures Del(q, t, r).bitmap[p]
    ensures q.queues[p] == [t] ==> Del(q, t, r).queues[p] == [] && !RqOk(Del(q, t, r))
  {
    var q' := Del(q, t, r);
    if q.queues[p] == [t] {
      assert q'.queues[p] == [];
      assert q'.bitmap[p] && p < NR_PRIO;
    }
  }

  ghost predicate Empty(q: Rq) {
    RqOk(q) && forall p :: 0 <= p < NR_PRIO ==> q.queues[p] == []
  }

  // Two CPUs; thread 1 last ran on CPU 0, CPU 0 is idle, and CPU 1 runs its idle
  // thread or thread 1.
  function Pair(q0: Rq, lock0: Option<Hold>, q1: Rq, curr1: Tid, waking1: Option<Tid>, lock1: Option<Hold>,
      one: Thread): Sys
  {
    Sys([Cpu(q0, 10, 10, None, lock0), Cpu(q1, curr1, 11, waking1, lock1)],
        map[1 := one, 10 := Thread(Running, 31, false, false, true, 0),
            11 := Thread(Running, 31, false, false, curr1 == 11 || lock1 == Some(Switching(11)), 1)])
  }

  function Sleeper(): Thread {
    Thread(Uninterruptible, 25, false, false, false, 0)
  }

  const MASK := {Uninterruptible}

  lemma PairOk(q: Rq)
    requires Empty(q)
    ensures Inv(Pair(q, None, q, 11, None, None, Sleeper()))
  {
    hide QueuesOk, RqOk, Empty;
    var s := Pair(q, None, q, 11, None, None, Sleeper());
    EmptyOk(s.threads, q, 0);
    EmptyOk(s.threads, q, 1);
    assert CpuOk(s, 0) && CpuOk(s, 1) && HoldOk(s, 0) && HoldOk(s, 1);
    assert ThreadOk(s, 1) && ThreadOk(s, 10) && ThreadOk(s, 11);
  }

  lemma EmptyOk(threads: map<Tid, Thread>, q: Rq, c: nat)
    requires Empty(q) && forall t :: t in threads ==> !threads[t].onRq
    ensures QueuesOk(threads, q, c)
  {
    RqShape(q);
    hide RqOk;
  }

  // The step is there, and leads from s to s'.
  ghost predicate Goes(s: Sys, e: Step, s': Sys) {
    Enabled(s, e) && Defined(s, e) && Apply(s, e) == s'
  }

  lemma GoesOn(s: Sys, e: Step, s': Sys, es: seq<Step>)
    requires Goes(s, e, s') && Possible(s', es)
    ensures Possible(s, [e] + es) && After(s, [e] + es) == After(s', es)
  {
    hide Enabled, Defined, Apply;
    PossibleCons(s, e, es);
  }

  lemma GoesNowhere(s: Sys)
    ensures Possible(s, []) && After(s, []) == s
  {
  }

  // CPU 1 wakes the sleeper.
  lemma WakeGoes(q: Rq)
    requires Empty(q)
    ensures var th := Sleeper();
            var s0 := Pair(q, None, q, 11, None, None, th);
            var s1 := Pair(q, Some(Waker(1, 1, MASK)), q, 11, None, None, th);
            var s1' := Pair(q, Some(Setter(1, 1)), q, 11, None, None, th);
            var s2 := Pair(q, None, q, 11, Some(1), None, th.(state := Running));
            Goes(s0, WakeLock(1, 1, MASK), s1) && Goes(s1, WakeTest(0), s1') && Goes(s1', WakeSet(0), s2)
  {
  }

  lemma ChangeGoes(q: Rq)
    requires Empty(q)
    ensures var th := Sleeper().(state := Running);
            var q1 := Add(q, 1, 25, false);
            var ch := Some(Changing(1, false, 5, false));
            var s2 := Pair(q, None, q, 11, Some(1), None, th);
            var s3 := Pair(q, ch, q, 11, Some(1), None, th);
            var s4 := Pair(q, ch, q1, 11, None, None, th.(onRq := true, cpu := 1));
            var s5 := Pair(q, None, q1, 11, None, None, th.(onRq := true, cpu := 1, prio := 5));
            Goes(s2, PrioBegin(1, 5, false), s3) && Goes(s3, WakeEnd(1, 1), s4) && Goes(s4, PrioEnd(0), s5)
  {
  }

  // The list of level 25 has been emptied and its bit is still set.
  function Stale(q: Rq): Rq
    requires |q.bitmap| == NR_PRIO
  {
    Rq(q.queues, q.bitmap[25 := true], q.nrRunning)
  }

  lemma OneSet(bitmap: seq<bool>, p: nat)
    requires p < |bitmap| && forall k :: 0 <= k < |bitmap| ==> !bitmap[k]
    ensures Lowest(bitmap[p := true], 0) == p
  {
    var b := bitmap[p := true];
    hide Lowest;
    assert b[p] && forall k :: 0 <= k < |b| && k != p ==> !b[k];
  }

  // pick_next and dequeue on the queue with the misplaced thread.
  lemma PickStale(q: Rq)
    requires Empty(q)
    ensures var q1 := Add(q, 1, 25, false);
            && Lowest(q1.bitmap, 0) == 25 && q1.queues[25] == [1] && Del(q1, 1, 5) == Stale(q)
            && Lowest(Stale(q).bitmap, 0) == 25
  {
    OneSet(q.bitmap, 25);
    var q1 := Add(q, 1, 25, false);
    assert Without(q1.queues[25], 1) == [];
    assert q1.queues[25 := []] == q.queues;
    assert q1.bitmap[5 := false] == q1.bitmap;
  }

  lemma RunGoes(q: Rq)
    requires Empty(q)
    ensures var th := Sleeper().(state := Running, cpu := 1, prio := 5);
            var s5 := Pair(q, None, Add(q, 1, 25, false), 11, None, None, th.(onRq := true));
            var s6 := Pair(q, None, Stale(q), 1, None, Some(Switching(11)), th.(onCpu := true));
            var s7 := Pair(q, None, Stale(q), 1, None, None, th.(onCpu := true));
            var s8 := Pair(q, None, Stale(q), 1, None, None, th.(onCpu := true, state := Uninterruptible));
            && Goes(s5, SwitchBegin(1), s6) && Goes(s6, SwitchEnd(1), s7)
            && Goes(s7, SetState(1, Uninterruptible), s8)
            && Enabled(s8, SwitchBegin(1)) && !Defined(s8, SwitchBegin(1))
  {
    PickStale(q);
  }

  // CPU 1 wakes the sleeper while it is given level 5, and queues it on its own
  // lists. When the thread has run and sleeps again, schedule on CPU 1 takes
  // the first entry of an empty list.
  lemma StaleBit(q: Rq) returns (es: seq<Step>)
    requires Empty(q)
    ensures es == [WakeLock(1, 1, MASK), WakeTest(0), WakeSet(0), PrioBegin(1, 5, false), WakeEnd(1, 1), PrioEnd(0),
                   SwitchBegin(1), SwitchEnd(1), SetState(1, Uninterruptible)]
    ensures var s := Pair(q, None, q, 11, None, None, Sleeper());
            && Inv(s) && Possible(s, es)
            && var s' := After(s, es);
               && |s'.cpus| == 2 && s'.cpus[1].rq.bitmap == q.bitmap[25 := true] && s'.cpus[1].rq.queues == q.queues
               && Enabled(s', SwitchBegin(1)) && !Defined(s', SwitchBegin(1))
  {
    hide *;
    Levels32(q);
    PairOk(q);
    var th := Sleeper();
    var up, run := th.(state := Running), th.(state := Running, cpu := 1, prio := 5);
    var q1 := Add(q, 1, 25, false);
    var ch := Some(Changing(1, false, 5, false));
    var s0 := Pair(q, None, q, 11, None, None, th);
    var s1 := Pair(q, Some(Waker(1, 1, MASK)), q, 11, None, None, th);
    var s1' := Pair(q, Some(Setter(1, 1)), q, 11, None, None, th);
    var s2 := Pair(q, None, q, 11, Some(1), None, up);
    var s3 := Pair(q, ch, q, 11, Some(1), None, up);
    var s4 := Pair(q, ch, q1, 11, None, None, up.(onRq := true, cpu := 1));
    var s5 := Pair(q, None, q1, 11, None, None, up.(onRq := true, cpu := 1, prio := 5));
    var s6 := Pair(q, None, Stale(q), 1, None, Some(Switching(11)), run.(onCpu := true));
    var s7 := Pair(q, None, Stale(q), 1, None, None, run.(onCpu := true));
    var s8 := Pair(q, None, Stale(q), 1, None, None, run.(onCpu := true, state := Uninterruptible));
    WakeGoes(q);
    ChangeGoes(q);
    RunGoes(q);
    StaleShape(q, run.(onCpu := true, state := Uninterruptible));
    GoesNowhere(s8);
    es := [];
    GoesOn(s7, SetState(1, Uninterruptible), s8, es);
    es := [SetState(1, Uninterruptible)] + es;
    GoesOn(s6, SwitchEnd(1), s7, es);
    es := [SwitchEnd(1)] + es;
    GoesOn(s5, SwitchBegin(1), s6, es);
    es := [SwitchBegin(1)] + es;
    GoesOn(s4, PrioEnd(0), s5, es);
    es := [PrioEnd(0)] + es;
    GoesOn(s3, WakeEnd(1, 1), s4, es);
    es := [WakeEnd(1, 1)] + es;
    GoesOn(s2, PrioBegin(1, 5, false), s3, es);
    es := [PrioBegin(1, 5, false)] + es;
    GoesOn(s1', WakeSet(0), s2, es);
    es := [WakeSet(0)] + es;
    GoesOn(s1, WakeTest(0), s1', es);
    es := [WakeTest(0)] + es;
    GoesOn(s0, WakeLock(1, 1, MASK), s1, es);
    es := [WakeLock(1, 1, MASK)] + es;
  }

  lemma Levels32(q: Rq)
    requires Empty(q)
    ensures |q.queues| == |q.bitmap| == NR_PRIO && NR_PRIO == 32
  {
  }

  lemma StaleShape(q: Rq, one: Thread)
    requires |q.bitmap| == NR_PRIO
    ensures var s := Pair(q, None, Stale(q), 1, None, None, one);
            |s.cpus| == 2 && s.cpus[1].rq.bitmap == q.bitmap[25 := true] && s.cpus[1].rq.queues == q.queues
  {
  }
}

// In which order the threads of one level run (kernel/sched.c): each run queue is
// first come, first served, except that a preempted SCHED_FIFO thread keeps its
// place at the front.
module SchedOrder {
  import opened Common
  import opened Lists
  import opened RunQueue
  import opened Sched

  // Both are queued on level p of CPU c, a in front of b.
  ghost predicate Ahead(s: Sys, c: nat, p: nat, a: Tid, b: Tid) {
    c < |s.cpus| && InFront(s.cpus[c].rq, p, a, b)
  }

  ghost predicate InFront(q: Rq, p: nat, a: Tid, b: Tid) {
    p < |q.queues| && Earlier(q.queues[p], a, b)
  }

  lemma AddKeeps(q: Rq, t: Tid, l: nat, head: bool, p: nat, a: Tid, b: Tid)
    requires InFront(q, p, a, b) && HasLevel(q, l)
    ensures InFront(Add(q, t, l, head), p, a, b)
  {
    AddOrder(q, t, l, head);
    if l == p {
      EarlierGrows(q.queues[p], t, a, b);
      var m := Add(q, t, l, head).queues[p];
      assert m == if head then [t] + q.queues[p] else q.queues[p] + [t];
    }
  }

  lemma DelKeeps(q: Rq, t: Tid, l: nat, p: nat, a: Tid, b: Tid)
    requires InFront(q, p, a, b) && HasLevel(q, l) && t != a && t != b
    ensures InFront(Del(q, t, l), p, a, b)
  {
    EarlierWithout(q.queues[p], t, a, b);
  }

  // Whoever comes last is behind everybody on its level.
  lemma LastIsBehind(q: Rq, t: Tid, p: nat, a: Tid)
    requires HasLevel(q, p) && a in q.queues[p]
    ensures InFront(Add(q, t, p, false), p, a, t)
  {
    AddOrder(q, t, p, false);
    EarlierThanLast(q.queues[p], a, t);
    var l := Add(q, t, p, false).queues[p];
    assert l == q.queues[p] + [t];
  }

  // ---- pick_next ----

  // The pick is a, or leaves a in front of b.
  lemma PickKeeps(threads: map<Tid, Thread>, q: Rq, c: nat, idle: Tid, p: nat, a: Tid, b: Tid)
    requires QueuesOk(threads, q, c) && CanPick(threads, q) && p < NR_PRIO && InFront(q, p, a, b)
    ensures NextThread(threads, q, idle) == a || InFront(Picked(threads, q), p, a, b)
  {
    var l := Lowest(q.bitmap, 0);
    var i, j :| 0 <= i < j < |q.queues[p]| && q.queues[p][i] == a && q.queues[p][j] == b;
    assert q.bitmap[p] && l <= p;
    var t := q.queues[l][0];
    assert t in q.queues[l] && b in q.queues[p];
    if t != a {
      assert QueuedAt(threads[t], c, l) && QueuedAt(threads[b], c, p);
      assert t == b ==> l == p;
      assert t != b;
      DelKeeps(q, t, threads[t].prio, p, a, b);
    }
  }

  lemma RequeueKeeps(s: Sys, c: nat, p: nat, a: Tid, b: Tid)
    requires Placed(s) && c < |s.cpus| && Ahead(s, c, p, a, b)
    ensures s.cpus[c].curr in s.threads && HasLevel(s.cpus[c].rq, s.threads[s.cpus[c].curr].prio)
    ensures InFront(Requeued(s, c), p, a, b)
  {
    hide InFront, Add;
    RequeuedOk(s, c);
    var prev := s.cpus[c].curr;
    if GoesBack(s, c) {
      AddKeeps(s.cpus[c].rq, prev, s.threads[prev].prio, s.threads[prev].fifo, p, a, b);
    }
  }

  lemma SwitchPicks(s: Sys, c: nat, p: nat, a: Tid, b: Tid)
    requires Placed(s) && Enabled(s, SwitchBegin(c)) && p < NR_PRIO
    requires s.cpus[c].curr in s.threads && HasLevel(s.cpus[c].rq, s.threads[s.cpus[c].curr].prio)
    requires InFront(Requeued(s, c), p, a, b)
    ensures Defined(s, SwitchBegin(c))
    ensures var s' := Switched(s, c); s'.cpus[c].curr == a || Ahead(s', c, p, a, b)
  {
    hide InFront, QueuesOk, Requeued, Add, Del, RqOk, IsNext;
    SwitchDefined(s, c);
    RequeuedOk(s, c);
    IdleWaits(s, c);
    var prev, q, back := s.cpus[c].curr, Requeued(s, c), GoesBack(s, c);
    var threads := s.threads[prev := s.threads[prev].(onRq := back)];
    PickedOk(threads, q, c, s.cpus[c].idle);
    PickSame(s.threads, q, s.cpus[c].idle, prev, back);
    PickKeeps(threads, q, c, s.cpus[c].idle, p, a, b);
  }

  lemma IdleWaits(s: Sys, c: nat)
    requires Placed(s) && c < |s.cpus|
    ensures var u := s.cpus[c];
            && u.idle in s.threads && !s.threads[u.idle].onRq
            && u.curr in s.threads
            && var back := GoesBack(s, c);
               var threads := s.threads[u.curr := s.threads[u.curr].(onRq := back)]; !threads[u.idle].onRq
  {
    assert CpuOk(s, c);
  }

  // ---- steps ----

  // The step sets the priority of one of the two.
  predicate Changes(s: Sys, e: Step, a: Tid, b: Tid) {
    e.PrioEnd? && e.cpu < |s.cpus| && s.cpus[e.cpu].lock.Some? && s.cpus[e.cpu].lock.value.Changing? &&
    (s.cpus[e.cpu].lock.value.tid == a || s.cpus[e.cpu].lock.value.tid == b)
  }

  // No step overtakes: a stays in front of b until a runs.
  lemma NoOvertaking(s: Sys, e: Step, c: nat, p: nat, a: Tid, b: Tid)
    requires Inv(s) && Enabled(s, e) && Disciplined(s, e) && p < NR_PRIO
    requires Ahead(s, c, p, a, b) && !Changes(s, e, a, b)
    ensures Defined(s, e)
    ensures Ahead(Apply(s, e), c, p, a, b) || (e == SwitchBegin(c) && Apply(s, e).cpus[c].curr == a)
  {
    hide Inv, Placed, Disciplined, HoldOk, InFront, Add, Del, CpuOk, ThreadOk;
    StepKeepsInv(s, e);
    InvIsPlaced(s);
    if e.SwitchBegin? {
      hide Switched;
      SwitchFacts(s, e.cpu);
      if e.cpu == c {
        RequeueKeeps(s, c, p, a, b);
        SwitchPicks(s, c, p, a, b);
      }
    } else if e.WakeEnd? {
      if e.target == c {
        var t := s.cpus[e.cpu].waking.value;
        AddKeeps(s.cpus[c].rq, t, s.threads[t].prio, false, p, a, b);
      }
    } else if e.PrioEnd? && e.cpu == c {
      ChangeKeeps(s, c, p, a, b);
    }
  }

  lemma ChangeKeeps(s: Sys, c: nat, p: nat, a: Tid, b: Tid)
    requires Enabled(s, PrioEnd(c)) && Defined(s, PrioEnd(c)) && Ahead(s, c, p, a, b) && !Changes(s, PrioEnd(c), a, b)
    ensures Ahead(EndChange(s, c), c, p, a, b)
  {
    hide InFront, Add, Del;
    var u := s.cpus[c];
    var ch := u.lock.value;
    var was := s.threads[ch.tid].prio;
    if ch.queued {
      DelKeeps(u.rq, ch.tid, was, p, a, b);
      DelLevels(u.rq, ch.tid, was, ch.prio);
      AddKeeps(Del(u.rq, ch.tid, was), ch.tid, ch.prio, false, p, a, b);
    }
  }

  lemma DelLevels(q: Rq, t: Tid, l: nat, k: nat)
    requires HasLevel(q, l) && HasLevel(q, k)
    ensures HasLevel(Del(q, t, l), k)
  {
  }

  // ---- runs ----

  ghost predicate NoChange(s: Sys, es: seq<Step>, a: Tid, b: Tid)
    requires Possible(s, es)
    decreases |es|
  {
    es == [] || (!Changes(s, es[0], a, b) && NoChange(Apply(s, es[0]), es[1..], a, b))
  }

  // First come, first served: over every run that changes the priority of
  // neither, b is off its place behind a only after a step that made a run.
  lemma {:induction false} FirstComeFirstServed(s: Sys, es: seq<Step>, c: nat, p: nat, a: Tid, b: Tid) returns (k: nat)
    requires Inv(s) && Possible(s, es) && DisciplinedRun(s, es) && NoChange(s, es, a, b)
    requires p < NR_PRIO && Ahead(s, c, p, a, b)
    ensures k <= |es| && Possible(s, es[..k])
    ensures Ahead(After(s, es), c, p, a, b) ||
            (c < |After(s, es[..k]).cpus| && After(s, es[..k]).cpus[c].curr == a)
    decreases |es|
  {
    hide Inv, Enabled, Defined, Disciplined, Apply, Ahead, Changes;
    k := 0;
    assert es[..0] == [];
    if es != [] {
      var e, s1 := es[0], Apply(s, es[0]);
      StepKeepsInv(s, e);
      NoOvertaking(s, e, c, p, a, b);
      if Ahead(s1, c, p, a, b) {
        k := FirstComeFirstServed(s1, es[1..], c, p, a, b);
        k := k + 1;
        assert es[..k] == [e] + es[1..][..k - 1];
        Prefixed(s, e, es[1..][..k - 1]);
      } else {
        k := 1;
        InRange(s, e, c);
        assert es[..1] == [e] + [];
        Prefixed(s, e, []);
      }
    }
  }

  lemma Prefixed(s: Sys, e: Step, es: seq<Step>)
    requires Enabled(s, e) && Defined(s, e) && Possible(Apply(s, e), es)
    ensures Possible(s, [e] + es) && After(s, [e] + es) == After(Apply(s, e), es)
  {
    hide Enabled, Defined, Apply;
    assert ([e] + es)[1..] == es;
  }

  lemma InRange(s: Sys, e: Step, c: nat)
    requires Enabled(s, e) && Defined(s, e) && e == SwitchBegin(c)
    ensures c < |Apply(s, e).cpus|
  {
    CpusStay(s, e);
  }

  // ---- arrivals ----

  // A thread that activate queues is behind everybody on its level.
  lemma WokenIsLast(s: Sys, c: nat, target: nat, a: Tid)
    requires Inv(s) && Enabled(s, WakeEnd(c, target)) && Defined(s, WakeEnd(c, target))
    requires var t := s.cpus[c].waking.value; a in s.cpus[target].rq.queues[s.threads[t].prio]
    ensures var t := s.cpus[c].waking.value;
            Ahead(FinishMove(s, c, target), target, s.threads[t].prio, a, t)
  {
    hide Inv, InFront, Add;
    var t := s.cpus[c].waking.value;
    LastIsBehind(s.cpus[target].rq, t, s.threads[t].prio, a);
  }

  // A queued thread whose priority is set goes behind everybody on its new level.
  lemma ChangedIsLast(s: Sys, c: nat, a: Tid)
    requires Enabled(s, PrioEnd(c)) && Defined(s, PrioEnd(c))
    requires var ch := s.cpus[c].lock.value; ch.queued && a != ch.tid && a in s.cpus[c].rq.queues[ch.prio]
    ensures var ch := s.cpus[c].lock.value; Ahead(EndChange(s, c), c, ch.prio, a, ch.tid)
  {
    hide InFront, Add;
    var q, ch := s.cpus[c].rq, s.cpus[c].lock.value;
    var was := s.threads[ch.tid].prio;
    DelLevels(q, ch.tid, was, ch.prio);
    StaysWithout(q.queues[ch.prio], ch.tid, a);
    LastIsBehind(Del(q, ch.tid, was), ch.tid, ch.prio, a);
  }

  // A running thread that is not SCHED_FIFO gives way: schedule does not pick it
  // again while another of its level is queued, but leaves it behind all those.
  lemma RoundRobin(s: Sys, c: nat, a: Tid)
    requires Inv(s) && Enabled(s, SwitchBegin(c)) && GoesBackAs(s, c, false)
    requires a in s.cpus[c].rq.queues[s.threads[s.cpus[c].curr].prio]
    ensures Defined(s, SwitchBegin(c))
    ensures var s', prev := Switched(s, c), s.cpus[c].curr;
            && s'.cpus[c].curr != prev
            && (s'.cpus[c].curr == a || Ahead(s', c, s.threads[prev].prio, a, prev))
  {
    hide Inv, Placed, InFront, Add;
    InvIsPlaced(s);
    var prev := s.cpus[c].curr;
    var p := s.threads[prev].prio;
    LastIsBehind(s.cpus[c].rq, prev, p, a);
    CurrentLevel(s, c);
    SwitchPicks(s, c, p, a, prev);
    SwitchedAway(s, c, a);
  }

  // The current thread is runnable, not idle, and SCHED_FIFO or not.
  predicate GoesBackAs(s: Sys, c: nat, fifo: bool) {
    && c < |s.cpus| && s.cpus[c].curr in s.threads && GoesBack(s, c)
    && s.threads[s.cpus[c].curr].fifo == fifo && HasLevel(s.cpus[c].rq, s.threads[s.cpus[c].curr].prio)
  }

  lemma CurrentLevel(s: Sys, c: nat)
    requires Placed(s) && c < |s.cpus|
    ensures s.cpus[c].curr in s.threads && s.threads[s.cpus[c].curr].prio < NR_PRIO
  {
    assert CpuOk(s, c) && ThreadOk(s, s.cpus[c].curr);
  }

  lemma SwitchedAway(s: Sys, c: nat, a: Tid)
    requires Placed(s) && Enabled(s, SwitchBegin(c)) && Defined(s, SwitchBegin(c)) && GoesBackAs(s, c, false)
    requires a in s.cpus[c].rq.queues[s.threads[s.cpus[c].curr].prio]
    ensures Switched(s, c).cpus[c].curr != s.cpus[c].curr
  {
    assert CpuOk(s, c) && ThreadOk(s, s.cpus[c].curr);
    var prev, p := s.cpus[c].curr, s.threads[s.cpus[c].curr].prio;
    var q := Requeued(s, c);
    AddOrder(s.cpus[c].rq, prev, p, false);
    RequeuedOk(s, c);
    var l := Lowest(q.bitmap, 0);
    assert q.bitmap[p] && l <= p;
    assert q.queues[p] == s.cpus[c].rq.queues[p] + [prev];
    assert s.cpus[c].rq.queues[p][0] in s.cpus[c].rq.queues[p];
    if l < p {
      assert q.queues[l] == s.cpus[c].rq.queues[l] && q.queues[l][0] in q.queues[l];
    }
  }

  // A SCHED_FIFO thread keeps its place: it goes on unless a better level has
  // somebody.
  lemma FifoKeepsItsPlace(s: Sys, c: nat)
    requires Inv(s) && Enabled(s, SwitchBegin(c)) && GoesBackAs(s, c, true)
    ensures Defined(s, SwitchBegin(c))
    ensures var prev := s.cpus[c].curr;
            Switched(s, c).cpus[c].curr == prev <==>
            forall l :: 0 <= l < s.threads[prev].prio ==> s.cpus[c].rq.queues[l] == []
  {
    InvIsPlaced(s);
    assert CpuOk(s, c) && ThreadOk(s, s.cpus[c].curr);
    SwitchDefined(s, c);
    RequeuedOk(s, c);
    var prev, p := s.cpus[c].curr, s.threads[s.cpus[c].curr].prio;
    var q := Requeued(s, c);
    AddOrder(s.cpus[c].rq, prev, p, true);
    var l := Lowest(q.bitmap, 0);
    assert q.bitmap[p] && l <= p;
    if l < p {
      assert q.queues[l] == s.cpus[c].rq.queues[l] && q.queues[l][0] in q.queues[l];
    }
  }
}

// In which order a wait queue wakes (kernel/wait.c): waiters line up in the order
// in which they first prepared, and a walk goes along that line.
module WaitOrder {
  import opened Common
  import opened Lists
  import opened RunQueue
  import opened Sched
  import opened WaitQueue

  // A new waiter is behind all others; one that prepares again keeps its place.
  lemma PreparesLast(w: World, c: nat, st: TaskState, t: Tid)
    requires Allowed(w, Prepare(c, st)) && t in w.queue
    ensures var me := Curr(w, c); var queue := Do(w, Prepare(c, st)).queue;
            if me in w.queue then queue == w.queue else Earlier(queue, t, me)
  {
    var me := Curr(w, c);
    if me !in w.queue {
      EarlierThanLast(w.queue, t, me);
    }
  }

  // Nobody overtakes in the line.
  lemma LineStays(w: World, a: Act, x: Tid, y: Tid)
    requires Allowed(w, a) && Earlier(w.queue, x, y)
    requires a.Unlink? ==> Curr(w, a.cpu) != x && Curr(w, a.cpu) != y
    ensures Earlier(Do(w, a).queue, x, y)
  {
    if a.Prepare? {
      EarlierGrows(w.queue, Curr(w, a.cpu), x, y);
    } else if a.Unlink? {
      EarlierWithout(w.queue, Curr(w, a.cpu), x, y);
    }
  }

  // What a walk has ahead is the rest of the line.
  ghost predicate OnLine(w: World) {
    w.walk.Some? ==> exists k :: RestFrom(w.walk.value.todo, w.queue, k)
  }

  predicate RestFrom(todo: seq<Tid>, queue: seq<Tid>, k: nat) {
    k <= |queue| && todo == queue[k..]
  }

  // What a step does to a walk.
  lemma WalkCases(w: World, a: Act)
    requires Allowed(w, a) && Do(w, a).walk.Some?
    ensures var w' := Do(w, a);
            && w'.queue == w.queue
            && if w.walk.None? then w'.walk.value.todo == w.queue
               else
                 var todo, todo' := w.walk.value.todo, w'.walk.value.todo;
                 todo' == todo || todo' == [] || (todo != [] && todo' == todo[1..])
  {
    hide Apply, Enabled, Defined, Disciplined, Acting, Free, WithState, Without;
    match a
    case Prepare(_, _) =>
    case Unlink(_) =>
    case _ =>
  }

  lemma WholeLine(queue: seq<Tid>)
    ensures RestFrom(queue, queue, 0)
  {
  }

  lemma RestGoesOn(todo: seq<Tid>, todo': seq<Tid>, queue: seq<Tid>, k: nat)
    requires RestFrom(todo, queue, k) && (todo' == todo || todo' == [] || (todo != [] && todo' == todo[1..]))
    ensures exists j :: RestFrom(todo', queue, j)
  {
    if todo' == todo {
      assert RestFrom(todo', queue, k);
    } else if todo' == [] {
      assert RestFrom(todo', queue, |queue|);
    } else {
      assert RestFrom(todo', queue, k + 1);
    }
  }

  lemma OnLineStays(w: World, a: Act)
    requires OnLine(w) && Allowed(w, a)
    ensures OnLine(Do(w, a))
  {
    hide Do, Allowed, RestFrom;
    var w' := Do(w, a);
    if w'.walk.Some? {
      WalkCases(w, a);
      var todo' := w'.walk.value.todo;
      if w.walk.None? {
        WholeLine(w.queue);
      } else {
        var k: nat :| RestFrom(w.walk.value.todo, w.queue, k);
        RestGoesOn(w.walk.value.todo, todo', w.queue, k);
      }
    }
  }

  // Over every run.
  lemma {:induction false} WalksTheLine(w: World, acts: seq<Act>)
    requires OnLine(w) && CanRun(w, acts)
    ensures OnLine(Ran(w, acts))
    decreases |acts|
  {
    hide OnLine, Do, Allowed;
    if acts != [] {
      OnLineStays(w, acts[0]);
      WalksTheLine(Do(w, acts[0]), acts[1..]);
    }
  }

  // ---- wake_up_one wakes the one that has waited longest ----

  predicate AwakeIn(w: World, t: Tid) {
    t in w.sys.threads && w.sys.threads[t].state !in {Interruptible, Uninterruptible}
  }

  // At some point of the run t is not in a sleeping state.
  ghost predicate SeenAwake(w: World, acts: seq<Act>, t: Tid) {
    exists m: nat :: AwakeAfter(w, acts, m, t)
  }

  ghost predicate AwakeAfter(w: World, acts: seq<Act>, m: nat, t: Tid) {
    m <= |acts| && CanRun(w, acts[..m]) && AwakeIn(Ran(w, acts[..m]), t)
  }

  // wake_up_one goes on past a waiter only when it finds it awake.
  lemma PassesTheAwake(w: World, a: Act)
    requires Allowed(w, a) && w.walk.Some? && w.walk.value.one && !a.EndWalk?
    ensures var w' := Do(w, a);
            && w'.walk.Some? && w'.walk.value.one && w'.queue == w.queue
            && var todo, todo' := w.walk.value.todo, w'.walk.value.todo;
               todo' == todo || todo' == [] || (todo != [] && todo' == todo[1..] && AwakeIn(w, todo[0]))
  {
    hide Apply, Enabled, Defined, Disciplined, Acting, Free, WithState, Without;
    match a
    case Prepare(_, _) =>
    case Unlink(_) =>
    case _ =>
  }

  lemma AwakeLater(w: World, acts: seq<Act>, t: Tid)
    requires acts != [] && Allowed(w, acts[0]) && SeenAwake(Do(w, acts[0]), acts[1..], t)
    ensures SeenAwake(w, acts, t)
  {
    hide Allowed, Do, AwakeIn;
    var m: nat :| AwakeAfter(Do(w, acts[0]), acts[1..], m, t);
    assert acts[..m + 1][1..] == acts[1..][..m] && acts[..m + 1][0] == acts[0];
    assert AwakeAfter(w, acts, m + 1, t);
  }

  // Whatever else happens during the walk: when it has come to place k of the
  // line, it has seen everybody before that place awake. So the waiter it wakes
  // is the first of the line that it found asleep.
  lemma {:induction false} LongestWaiting(w: World, acts: seq<Act>, k0: nat) returns (k: nat)
    requires w.walk.Some? && w.walk.value.one && RestFrom(w.walk.value.todo, w.queue, k0)
    requires CanRun(w, acts) && forall i :: 0 <= i < |acts| ==> !acts[i].EndWalk?
    ensures var w' := Ran(w, acts);
            && w'.walk.Some? && w'.queue == w.queue
            && (w'.walk.value.todo != [] ==>
                  && k0 <= k && RestFrom(w'.walk.value.todo, w.queue, k)
                  && forall j :: k0 <= j < k ==> SeenAwake(w, acts, w.queue[j]))
    decreases |acts|
  {
    hide Allowed, Do, SeenAwake, AwakeIn;
    k := k0;
    if acts != [] {
      var w1 := Do(w, acts[0]);
      PassesTheAwake(w, acts[0]);
      var todo, todo1 := w.walk.value.todo, w1.walk.value.todo;
      if todo1 == todo {
        k := LongestWaiting(w1, acts[1..], k0);
      } else if todo1 == [] {
        NothingAhead(w1, acts[1..]);
      } else {
        k := LongestWaiting(w1, acts[1..], k0 + 1);
        SeenNow(w, acts, todo[0]);
      }
      if Ran(w, acts).walk.value.todo != [] {
        forall j | k0 <= j < k
          ensures SeenAwake(w, acts, w.queue[j])
        {
          if todo1 == todo || j > k0 {
            AwakeLater(w, acts, w.queue[j]);
          }
        }
      }
    }
  }

  lemma SeenNow(w: World, acts: seq<Act>, t: Tid)
    requires AwakeIn(w, t)
    ensures SeenAwake(w, acts, t)
  {
    hide AwakeIn;
    assert acts[..0] == [];
    assert AwakeAfter(w, acts, 0, t);
  }

  lemma {:induction false} NothingAhead(w: World, acts: seq<Act>)
    requires w.walk.Some? && w.walk.value.one && w.walk.value.todo == []
    requires CanRun(w, acts) && forall i :: 0 <= i < |acts| ==> !acts[i].EndWalk?
    ensures var w' := Ran(w, acts); w'.walk.Some? && w'.walk.value.todo == [] && w'.queue == w.queue
    decreases |acts|
  {
    hide Allowed, Do, AwakeIn;
    if acts != [] {
      PassesTheAwake(w, acts[0]);
      NothingAhead(Do(w, acts[0]), acts[1..]);
    }
  }
}

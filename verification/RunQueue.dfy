// One CPU's run queue (kernel/sched.c): 32 FIFO lists, one per priority, the
// bitmap of non-empty levels and the count.
module RunQueue {
  import opened Common
  import opened Lists

  const NR_PRIO := 32

  type Tid = nat

  datatype Rq = Rq(queues: seq<seq<Tid>>, bitmap: seq<bool>, nrRunning: int)

  function Total(queues: seq<seq<Tid>>): nat {
    if queues == [] then 0 else |queues[0]| + Total(queues[1..])
  }

  ghost predicate RqOk(q: Rq) {
    && |q.queues| == NR_PRIO && |q.bitmap| == NR_PRIO
    && (forall p :: 0 <= p < NR_PRIO ==> (q.bitmap[p] <==> q.queues[p] != []))
    && (forall p :: 0 <= p < NR_PRIO ==> NoDup(q.queues[p]))
    && q.nrRunning == Total(q.queues)
  }

  // enqueue
  function Add(q: Rq, t: Tid, p: nat, head: bool): Rq
    requires p < |q.queues| && p < |q.bitmap|
  {
    Rq(q.queues[p := if head then [t] + q.queues[p] else q.queues[p] + [t]], q.bitmap[p := true], q.nrRunning + 1)
  }

  // The level whose list the thread is linked into, if any.
  function LinkedAt(queues: seq<seq<Tid>>, t: Tid): (l: nat)
    ensures l <= |queues| && (l < |queues| ==> t in queues[l])
    ensures forall k :: 0 <= k < l ==> t !in queues[k]
  {
    if queues == [] || t in queues[0] then 0 else 1 + LinkedAt(queues[1..], t)
  }

  // dequeue: unlinks the thread from whatever list it is on, and looks at the
  // level its priority says.
  function Del(q: Rq, t: Tid, p: nat): Rq
    requires p < |q.queues| && p < |q.bitmap|
  {
    var l := LinkedAt(q.queues, t);
    var queues := if l < |q.queues| then q.queues[l := Without(q.queues[l], t)] else q.queues;
    Rq(queues, if queues[p] == [] then q.bitmap[p := false] else q.bitmap, q.nrRunning - 1)
  }

  // The thread is on the list of level p and on no other.
  ghost predicate OnlyAt(q: Rq, t: Tid, p: nat) {
    p < |q.queues| && t in q.queues[p] && forall k :: 0 <= k < |q.queues| && t in q.queues[k] ==> k == p
  }

  // No thread is on two lists.
  ghost predicate OneList(q: Rq) {
    forall t, p :: 0 <= p < |q.queues| && t in q.queues[p] ==> OnlyAt(q, t, p)
  }

  lemma {:induction false} TotalUpdate(queues: seq<seq<Tid>>, p: nat, l: seq<Tid>)
    requires p < |queues|
    ensures Total(queues[p := l]) == Total(queues) - |queues[p]| + |l|
  {
    if p == 0 {
      assert queues[p := l][1..] == queues[1..];
    } else {
      assert queues[p := l][1..] == queues[1..][p - 1 := l];
      TotalUpdate(queues[1..], p - 1, l);
    }
  }

  lemma AddOk(q: Rq, t: Tid, p: nat, head: bool)
    requires RqOk(q) && p < NR_PRIO && t !in q.queues[p]
    ensures RqOk(Add(q, t, p, head))
    ensures forall u, k :: 0 <= k < NR_PRIO ==>
              (u in Add(q, t, p, head).queues[k] <==> u in q.queues[k] || (u == t && k == p))
  {
    var l := if head then [t] + q.queues[p] else q.queues[p] + [t];
    TotalUpdate(q.queues, p, l);
    if head {
      PushFront(q.queues[p], t);
    } else {
      PushBack(q.queues[p], t);
    }
  }

  // The thread is last on its level, or first if it keeps its place; the others
  // of the level keep their order, and no other level changes.
  lemma AddOrder(q: Rq, t: Tid, p: nat, head: bool)
    requires p < |q.queues| && p < |q.bitmap|
    ensures var queues := Add(q, t, p, head).queues; var l := queues[p];
            && |queues| == |q.queues| && |l| == |q.queues[p]| + 1
            && (head ==> l[0] == t && l[1..] == q.queues[p])
            && (!head ==> l[|l| - 1] == t && l[..|l| - 1] == q.queues[p])
            && forall k :: 0 <= k < |queues| && k != p ==> queues[k] == q.queues[k]
  {
  }

  lemma DelOk(q: Rq, t: Tid, p: nat)
    requires RqOk(q) && OnlyAt(q, t, p)
    ensures RqOk(Del(q, t, p)) && Del(q, t, p).queues == q.queues[p := Without(q.queues[p], t)]
    ensures forall u, k :: 0 <= k < NR_PRIO ==>
              (u in Del(q, t, p).queues[k] <==> u in q.queues[k] && !(u == t && k == p))
  {
    WithoutRemoves(q.queues[p], t);
    TotalUpdate(q.queues, p, Without(q.queues[p], t));
  }

  lemma AddOneList(q: Rq, t: Tid, p: nat, head: bool)
    requires RqOk(q) && OneList(q) && p < NR_PRIO && forall k :: 0 <= k < NR_PRIO ==> t !in q.queues[k]
    ensures OneList(Add(q, t, p, head))
  {
    AddOk(q, t, p, head);
    hide RqOk, Add;
    var q' := Add(q, t, p, head);
    AddShape(q, t, p, head);
    forall u, k | 0 <= k < |q'.queues| && u in q'.queues[k]
      ensures OnlyAt(q', u, k)
    {
      if u != t {
        assert OnlyAt(q, u, k);
      }
    }
  }

  lemma AddShape(q: Rq, t: Tid, p: nat, head: bool)
    requires RqOk(q) && p < NR_PRIO
    ensures |Add(q, t, p, head).queues| == |q.queues| == NR_PRIO
  {
  }

  // The lowest set bit at or above p: the level pick_next takes from.
  function Lowest(bitmap: seq<bool>, p: nat): (r: nat)
    requires p <= |bitmap|
    ensures p <= r <= |bitmap| && (r < |bitmap| ==> bitmap[r])
    ensures forall k :: p <= k < r ==> !bitmap[k]
    decreases |bitmap| - p
  {
    if p == |bitmap| || bitmap[p] then p else Lowest(bitmap, p + 1)
  }

  // Head of the best level: nobody of a better priority waits anywhere on the
  // queue, and nobody of the same priority has waited longer.
  ghost predicate IsNext(q: Rq, t: Tid, p: nat) {
    && p < |q.queues|
    && q.queues[p] != [] && q.queues[p][0] == t
    && forall k :: 0 <= k < p ==> q.queues[k] == []
  }

  class CpuQueue {
    var queues: seq<seq<Tid>>
    var bitmap: seq<bool>
    var nrRunning: int

    function St(): Rq
      reads this
    {
      Rq(queues, bitmap, nrRunning)
    }

    constructor ()
      ensures RqOk(St()) && OneList(St()) && forall p :: 0 <= p < NR_PRIO ==> queues[p] == []
    {
      queues, bitmap, nrRunning := seq(NR_PRIO, _ => []), seq(NR_PRIO, _ => false), 0;
      new;
      AllEmpty(queues);
    }

    method Enqueue(t: Tid, p: nat, head: bool)
      requires RqOk(St()) && OneList(St()) && p < NR_PRIO && forall k :: 0 <= k < NR_PRIO ==> t !in queues[k]
      modifies this
      ensures RqOk(St()) && OneList(St()) && St() == Add(old(St()), t, p, head)
    {
      AddOk(St(), t, p, head);
      AddOneList(St(), t, p, head);
      if head {
        queues := queues[p := [t] + queues[p]];
      } else {
        queues := queues[p := queues[p] + [t]];
      }
      bitmap := bitmap[p := true];
      nrRunning := nrRunning + 1;
    }

    method Dequeue(t: Tid, p: nat)
      requires RqOk(St()) && OneList(St()) && p < NR_PRIO && t in queues[p]
      modifies this
      ensures RqOk(St()) && OneList(St()) && St() == Del(old(St()), t, p)
    {
      assert OnlyAt(St(), t, p);
      DelOk(St(), t, p);
      queues := queues[p := Without(queues[p], t)];
      if queues[p] == [] {
        bitmap := bitmap[p := false];
      }
      nrRunning := nrRunning - 1;
    }

    method PickNext() returns (t: Option<Tid>)
      requires RqOk(St()) && OneList(St())
      modifies this
      ensures RqOk(St()) && OneList(St())
      ensures t.None? ==> St() == old(St()) && nrRunning == 0 && forall p :: 0 <= p < NR_PRIO ==> queues[p] == []
      ensures t.Some? ==> var p := Lowest(old(bitmap), 0);
                          p < NR_PRIO && IsNext(old(St()), t.value, p) && St() == Del(old(St()), t.value, p)
    {
      var p := 0;
      while p < NR_PRIO && !bitmap[p]
        invariant 0 <= p <= NR_PRIO
        invariant Lowest(bitmap, p) == Lowest(bitmap, 0)
      {
        p := p + 1;
      }
      if p == NR_PRIO {
        AllEmpty(queues);
        return None;
      }
      t := Some(queues[p][0]);
      Dequeue(t.value, p);
    }
  }

  lemma {:induction false} AllEmpty(queues: seq<seq<Tid>>)
    requires forall p :: 0 <= p < |queues| ==> queues[p] == []
    ensures Total(queues) == 0
  {
    if queues != [] {
      AllEmpty(queues[1..]);
    }
  }
}

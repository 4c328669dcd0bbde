// The ticket spinlock (kernel/spinlock.c) as a state machine over any number of
// threads, with 16-bit counters that wrap.
module TicketLock {
  import opened CArith
  import opened Counter16
  import opened Lists

  type Tid = nat

  datatype Pc = Outside | Spinning(ticket: nat) | Holding

  // `taken` and `entered` record who drew a ticket and who got the lock, in
  // order; `done` counts the releases.
  datatype Lock = Lock(owner: nat, next: nat, pcs: map<Tid, Pc>, taken: seq<Tid>, entered: seq<Tid>, done: nat)

  function PcOf(l: Lock, t: Tid): Pc {
    if t in l.pcs then l.pcs[t] else Outside
  }

  datatype Step =
    | Draw(t: Tid)     // fetch_add of next
    | Enter(t: Tid)    // the spin sees its ticket
    | TryLock(t: Tid)  // the compare-and-exchange of the whole word
    | Unlock(t: Tid)

  // The contenders in line: everybody who drew a ticket and has not released.
  function Line(l: Lock): seq<Tid>
    requires l.done <= |l.taken|
  {
    l.taken[l.done..]
  }

  predicate Enabled(l: Lock, s: Step) {
    match s
    case Draw(t) => PcOf(l, t) == Outside
    case Enter(t) => PcOf(l, t) == Spinning(l.owner)
    case TryLock(t) => PcOf(l, t) == Outside
    case Unlock(t) => PcOf(l, t) == Holding
  }

  function Apply(l: Lock, s: Step): Lock {
    match s
    case Draw(t) => l.(next := Low(l.next + 1), pcs := l.pcs[t := Spinning(l.next)], taken := l.taken + [t])
    case Enter(t) => l.(pcs := l.pcs[t := Holding], entered := l.entered + [t])
    case TryLock(t) =>
      if l.owner != l.next then l
      else l.(next := Low(l.next + 1), pcs := l.pcs[t := Holding], taken := l.taken + [t], entered := l.entered + [t])
    case Unlock(t) => l.(owner := Low(l.owner + 1), pcs := l.pcs[t := Outside], done := l.done + 1)
  }

  // ---- the counters ----

  ghost function Contenders(l: Lock): set<Tid> {
    set t | t in l.pcs && l.pcs[t] != Outside
  }

  // The fields are the low halves of the draws and the releases, and the
  // difference is the number of contenders.
  ghost predicate Counters(l: Lock) {
    l.owner == Low(l.done) && l.next == Low(|l.taken|) && |l.taken| == l.done + |Contenders(l)|
  }

  lemma CountersKept(l: Lock, s: Step)
    requires Counters(l) && Enabled(l, s)
    ensures Counters(Apply(l, s))
  {
    LowNext(|l.taken|);
    LowNext(l.done);
    hide Low;
    var l', t := Apply(l, s), s.t;
    if s.Unlock? {
      assert Contenders(l') == Contenders(l) - {t};
    } else if s.Enter? || (s.TryLock? && l.owner != l.next) {
      assert Contenders(l') == Contenders(l);
    } else {
      assert Contenders(l') == Contenders(l) + {t};
    }
  }

  // The fields agree exactly when the contenders are a multiple of 65536.
  lemma FieldsAgree(l: Lock)
    requires Counters(l)
    ensures l.owner == l.next <==> |Contenders(l)| % U16 == 0
  {
    var a, n := l.done, |Contenders(l)|;
    if n % U16 == 0 {
      assert a + n == U16 * (n / U16) + a;
      ModAddMultiple(a, U16, n / U16);
    } else if Low(a) == Low(a + n) {
      assert n == U16 * ((a + n) / U16 - a / U16);
      DivMod(n, U16, (a + n) / U16 - a / U16, 0);
    }
  }

  // The i-th in line has the i-th ticket from the owner on; only the first may
  // hold the lock.
  predicate PlaceOk(l: Lock, i: nat)
    requires l.done <= |l.taken| && i < |Line(l)|
  {
    var pc := PcOf(l, Line(l)[i]);
    pc == Spinning(Low(l.done + i)) || (i == 0 && pc == Holding)
  }

  ghost predicate LineOk(l: Lock)
    requires l.done <= |l.taken|
  {
    && NoDup(Line(l)) && (forall t :: t in Line(l) <==> PcOf(l, t) != Outside)
    && (forall i :: 0 <= i < |Line(l)| ==> PlaceOk(l, i))
  }

  // The lock has gone to everybody who released it and to the holder, in order.
  predicate LogOk(l: Lock)
    requires l.done <= |l.taken|
  {
    var held := l.done < |l.taken| && PcOf(l, l.taken[l.done]) == Holding;
    l.entered == l.taken[..if held then l.done + 1 else l.done]
  }

  ghost predicate Inv(l: Lock) {
    && l.done <= |l.taken| && |Line(l)| <= U16
    && l.owner == Low(l.done) && l.next == Low(|l.taken|)
    && LineOk(l) && LogOk(l)
  }

  // Only the first in line can see its ticket come up.
  lemma FirstOnly(l: Lock, t: Tid)
    requires Inv(l) && (PcOf(l, t) == Spinning(l.owner) || PcOf(l, t) == Holding)
    ensures |Line(l)| > 0 && Line(l)[0] == t
  {
    assert t in Line(l);
    var i :| 0 <= i < |Line(l)| && Line(l)[i] == t;
    assert PlaceOk(l, i);
    if i > 0 {
      LowSame(l.done, l.done + i);
    }
  }

  // At most one holder.
  lemma MutualExclusion(l: Lock, a: Tid, b: Tid)
    requires Inv(l) && PcOf(l, a) == Holding && PcOf(l, b) == Holding
    ensures a == b
  {
    FirstOnly(l, a);
    FirstOnly(l, b);
  }

  // Below 65536 the fields agree exactly when nobody is in line: trylock
  // succeeds only on a free lock.
  lemma FreeMeansEmpty(l: Lock)
    requires Inv(l) && |Line(l)| < U16
    ensures l.owner == l.next <==> Line(l) == []
  {
    if l.owner == l.next {
      LowSame(l.done, |l.taken|);
    }
  }

  // The step leaves at most that many in line.
  predicate Within(l: Lock, s: Step, max: nat) {
    |Apply(l, s).taken| <= Apply(l, s).done + max
  }

  lemma StepKeepsInv(l: Lock, s: Step)
    requires Inv(l) && Enabled(l, s) && Within(l, s, U16)
    ensures Inv(Apply(l, s))
  {
    match s
    case Draw(t) => JoinKeeps(l, t);
    case Enter(t) => EnterKeeps(l, t);
    case TryLock(t) => TryKeeps(l, t);
    case Unlock(t) => UnlockKeeps(l, t);
  }

  lemma JoinKeeps(l: Lock, t: Tid)
    requires Inv(l) && Enabled(l, Draw(t)) && Within(l, Draw(t), U16)
    ensures Inv(Apply(l, Draw(t)))
  {
    hide Low, LineOk;
    var l' := Apply(l, Draw(t));
    LowNext(|l.taken|);
    JoinLine(l, l', t);
    if l.done < |l.taken| {
      HeadStays(l, l', t);
      assert l.taken[..l.done + 1] == l'.taken[..l.done + 1];
    }
    assert l.taken[..l.done] == l'.taken[..l.done];
  }

  lemma HeadStays(l: Lock, l': Lock, t: Tid)
    requires l.done < |l.taken| && LineOk(l) && PcOf(l, t) == Outside
    requires t in l'.pcs && l'.pcs == l.pcs[t := l'.pcs[t]]
    ensures PcOf(l', l.taken[l.done]) == PcOf(l, l.taken[l.done])
  {
    assert Line(l)[0] in Line(l);
  }

  lemma JoinLine(l: Lock, l': Lock, t: Tid)
    requires l.done <= |l.taken| && LineOk(l) && PcOf(l, t) == Outside
    requires l'.taken == l.taken + [t] && l'.done == l.done && l'.pcs == l.pcs[t := Spinning(Low(|l.taken|))]
    ensures LineOk(l')
  {
    hide Low;
    assert Line(l') == Line(l) + [t];
    PushBack(Line(l), t);
    forall i | 0 <= i < |Line(l')|
      ensures PlaceOk(l', i)
    {
      if i < |Line(l)| {
        assert PlaceOk(l, i) && Line(l)[i] in Line(l);
      } else {
        assert l.done + i == |l.taken|;
      }
    }
  }

  lemma EnterKeeps(l: Lock, t: Tid)
    requires Inv(l) && Enabled(l, Enter(t))
    ensures Inv(Apply(l, Enter(t)))
  {
    var l' := Apply(l, Enter(t));
    FirstOnly(l, t);
    hide Low, NoDup;
    forall i | 0 <= i < |Line(l')|
      ensures PlaceOk(l', i)
    {
      assert PlaceOk(l, i);
    }
    assert l.taken[..l.done + 1] == l.taken[..l.done] + [t];
  }

  lemma TryKeeps(l: Lock, t: Tid)
    requires Inv(l) && Enabled(l, TryLock(t)) && Within(l, TryLock(t), U16)
    ensures Inv(Apply(l, TryLock(t)))
  {
    hide Low;
    LowNext(|l.taken|);
    if l.owner == l.next {
      FreeMeansEmpty(l);
      var l' := Apply(l, TryLock(t));
      assert Line(l') == [t];
      assert l.taken[..l.done] == l.taken && l'.taken[..l.done + 1] == l'.taken;
      assert PlaceOk(l', 0);
    }
  }

  lemma UnlockKeeps(l: Lock, t: Tid)
    requires Inv(l) && Enabled(l, Unlock(t))
    ensures Inv(Apply(l, Unlock(t)))
  {
    var l' := Apply(l, Unlock(t));
    FirstOnly(l, t);
    hide Low;
    LowNext(l.done);
    TailLine(l, l', t);
    if l'.done < |l'.taken| {
      assert PlaceOk(l', 0);
    }
  }

  lemma TailNoDup(s: seq<Tid>)
    requires NoDup(s) && s != []
    ensures NoDup(s[1..]) && s[0] !in s[1..]
  {
    var r := s[1..];
    forall i | 0 <= i < |r|
      ensures r[i] == s[i + 1] && r[i] != s[0]
    {
    }
    forall i, j | 0 <= i < j < |r|
      ensures r[i] != r[j]
    {
      assert s[i + 1] != s[j + 1];
    }
  }

  lemma TailLine(l: Lock, l': Lock, t: Tid)
    requires l.done < |l.taken| && LineOk(l) && Line(l)[0] == t
    requires l'.taken == l.taken && l'.done == l.done + 1 && l'.pcs == l.pcs[t := Outside]
    ensures LineOk(l') && forall i :: 0 <= i < |Line(l')| ==> PcOf(l', Line(l')[i]) == Spinning(Low(l'.done + i))
  {
    hide Low;
    assert Line(l) == [t] + Line(l');
    TailNoDup(Line(l));
    assert Line(l)[1..] == Line(l');
    hide NoDup;
    forall u: Tid
      ensures u in Line(l') <==> PcOf(l', u) != Outside
    {
      assert u in Line(l) <==> u == t || u in Line(l');
    }
    forall i | 0 <= i < |Line(l')|
      ensures PlaceOk(l', i) && PcOf(l', Line(l')[i]) == Spinning(Low(l'.done + i))
    {
      assert PlaceOk(l, i + 1) && Line(l')[i] == Line(l)[i + 1];
      assert l.done + (i + 1) == l'.done + i;
    }
  }

  ghost predicate Possible(l: Lock, ss: seq<Step>)
    decreases |ss|
  {
    ss == [] || (Enabled(l, ss[0]) && Possible(Apply(l, ss[0]), ss[1..]))
  }

  ghost function After(l: Lock, ss: seq<Step>): Lock
    decreases |ss|
  {
    if ss == [] then l else After(Apply(l, ss[0]), ss[1..])
  }

  function Unlocked(): Lock {
    Lock(0, 0, map[], [], [], 0)
  }

  // At most that many contenders at any time of the run.
  ghost predicate WithinRun(l: Lock, ss: seq<Step>, max: nat)
    decreases |ss|
  {
    ss == [] || (Within(l, ss[0], max) && WithinRun(Apply(l, ss[0]), ss[1..], max))
  }

  lemma {:induction false} RunKeepsInv(l: Lock, ss: seq<Step>)
    requires Inv(l) && Possible(l, ss) && WithinRun(l, ss, U16)
    ensures Inv(After(l, ss))
    decreases |ss|
  {
    hide Inv, Apply, Enabled;
    if ss != [] {
      StepKeepsInv(l, ss[0]);
      RunKeepsInv(Apply(l, ss[0]), ss[1..]);
    }
  }

  lemma {:induction false} RunKeepsCounters(l: Lock, ss: seq<Step>)
    requires Counters(l) && Possible(l, ss)
    ensures Counters(After(l, ss))
    decreases |ss|
  {
    hide Counters, Apply, Enabled;
    if ss != [] {
      CountersKept(l, ss[0]);
      RunKeepsCounters(Apply(l, ss[0]), ss[1..]);
    }
  }

  // Over every run, however many contend: spin_is_locked, and the test in
  // trylock, are right exactly when the contenders are none or no multiple of
  // 65536.
  lemma LooksFreeExactly(ss: seq<Step>)
    requires Possible(Unlocked(), ss)
    ensures var l := After(Unlocked(), ss);
            l.owner == l.next <==> |Contenders(l)| % U16 == 0
  {
    assert Contenders(Unlocked()) == {};
    RunKeepsCounters(Unlocked(), ss);
    FieldsAgree(After(Unlocked(), ss));
  }

  // Over every run from the unlocked state with at most 65536 contenders: at
  // most one holder, and the lock was handed out in the order in which tickets
  // were drawn.
  lemma RunIsSafeAndFair(ss: seq<Step>, a: Tid, b: Tid)
    requires Possible(Unlocked(), ss) && WithinRun(Unlocked(), ss, U16)
    ensures var l := After(Unlocked(), ss);
            && (PcOf(l, a) == Holding && PcOf(l, b) == Holding ==> a == b)
            && l.entered <= l.taken
  {
    RunKeepsInv(Unlocked(), ss);
    var l := After(Unlocked(), ss);
    if PcOf(l, a) == Holding && PcOf(l, b) == Holding {
      MutualExclusion(l, a, b);
    }
  }

  // ---- one too many ----

  // Thread 0 holds the lock and n - 1 others wait.
  function Crowd(n: nat): Lock {
    Lock(0, Low(n), map t: nat | 0 <= t < n :: if t == 0 then Holding else Spinning(Low(t)), seq(n, i => i), [0], 0)
  }

  function CrowdRun(n: nat): seq<Step>
    requires n > 0
  {
    if n == 1 then [Draw(0), Enter(0)] else CrowdRun(n - 1) + [Draw(n - 1)]
  }

  lemma {:induction false} RunAppend(l: Lock, ss: seq<Step>, s: Step, max: nat)
    requires Possible(l, ss) && Enabled(After(l, ss), s)
    ensures Possible(l, ss + [s]) && After(l, ss + [s]) == Apply(After(l, ss), s)
    ensures WithinRun(l, ss, max) && Within(After(l, ss), s, max) ==> WithinRun(l, ss + [s], max)
    decreases |ss|
  {
    hide Apply, Enabled, Within;
    if ss == [] {
      assert ss + [s] == [s];
    } else {
      assert (ss + [s])[1..] == ss[1..] + [s];
      RunAppend(Apply(l, ss[0]), ss[1..], s, max);
    }
  }

  lemma CrowdJoin(n: nat)
    requires n > 0
    ensures Enabled(Crowd(n), Draw(n)) && Apply(Crowd(n), Draw(n)) == Crowd(n + 1)
    ensures |Crowd(n).taken| == n && Crowd(n).done == 0
  {
    LowNext(n);
    hide Low;
    var l, l' := Apply(Crowd(n), Draw(n)), Crowd(n + 1);
    assert l.taken == l'.taken;
    assert l.pcs == l'.pcs;
  }

  lemma {:induction false} CrowdReached(n: nat)
    requires n > 0
    ensures Possible(Unlocked(), CrowdRun(n)) && After(Unlocked(), CrowdRun(n)) == Crowd(n)
    ensures WithinRun(Unlocked(), CrowdRun(n), n)
  {
    if n == 1 {
      var l1 := Apply(Unlocked(), Draw(0));
      var l2 := Apply(l1, Enter(0));
      assert l2.pcs == Crowd(1).pcs && l2.taken == Crowd(1).taken;
      RunAppend(Unlocked(), [], Draw(0), 1);
      RunAppend(Unlocked(), [] + [Draw(0)], Enter(0), 1);
      assert [] + [Draw(0)] + [Enter(0)] == CrowdRun(1);
    } else {
      CrowdReached(n - 1);
      CrowdJoin(n - 1);
      WithinMore(Unlocked(), CrowdRun(n - 1), n - 1, n);
      CrowdSize(n);
      hide Apply, Crowd;
      RunAppend(Unlocked(), CrowdRun(n - 1), Draw(n - 1), n);
    }
  }

  lemma CrowdSize(n: nat)
    ensures |Crowd(n).taken| == n && Crowd(n).done == 0
  {
  }

  lemma {:induction false} WithinMore(l: Lock, ss: seq<Step>, max: nat, more: nat)
    requires WithinRun(l, ss, max) && max <= more
    ensures WithinRun(l, ss, more)
    decreases |ss|
  {
    hide Apply;
    if ss != [] {
      WithinMore(Apply(l, ss[0]), ss[1..], max, more);
    }
  }

  // Two holders at once.
  ghost predicate Broken(l: Lock) {
    exists a, b :: a != b && PcOf(l, a) == Holding && PcOf(l, b) == Holding
  }

  // With 65536 in line the fields agree although thread 0 holds the lock, and a
  // trylock gives it to one more.
  lemma FullLineLooksFree() returns (ss: seq<Step>)
    ensures ss == CrowdRun(U16) + [TryLock(U16)]
    ensures Possible(Unlocked(), ss) && WithinRun(Unlocked(), ss, U16 + 1) && Broken(After(Unlocked(), ss))
    ensures var l := After(Unlocked(), CrowdRun(U16)); l.owner == l.next && PcOf(l, 0) == Holding
  {
    CrowdReached(U16);
    WithinMore(Unlocked(), CrowdRun(U16), U16, U16 + 1);
    CrowdSize(U16);
    CrowdTry();
    hide *;
    RunAppend(Unlocked(), CrowdRun(U16), TryLock(U16), U16 + 1);
    ss := CrowdRun(U16) + [TryLock(U16)];
  }

  lemma CrowdTry()
    ensures var l := Crowd(U16);
            && l.owner == l.next && PcOf(l, 0) == Holding && Enabled(l, TryLock(U16))
            && Broken(Apply(l, TryLock(U16))) && Within(l, TryLock(U16), U16 + 1)
  {
    var l := Crowd(U16);
    var l' := Apply(l, TryLock(U16));
    assert PcOf(l', 0) == Holding && PcOf(l', U16) == Holding;
  }

  ghost predicate SafeUpTo(max: nat) {
    forall ss :: Possible(Unlocked(), ss) && WithinRun(Unlocked(), ss, max) ==> !Broken(After(Unlocked(), ss))
  }

  // The lock excludes whatever its contenders do, exactly when there are never
  // more than 65536 of them.
  lemma SafeExactly(max: nat)
    ensures SafeUpTo(max) <==> max <= U16
  {
    hide Possible, After, WithinRun, Broken;
    if max <= U16 {
      forall ss | Possible(Unlocked(), ss) && WithinRun(Unlocked(), ss, max)
        ensures !Broken(After(Unlocked(), ss))
      {
        WithinMore(Unlocked(), ss, max, U16);
        NotBroken(ss);
      }
    } else {
      var ss := FullLineLooksFree();
      WithinMore(Unlocked(), ss, U16 + 1, max);
    }
  }

  lemma NotBroken(ss: seq<Step>)
    requires Possible(Unlocked(), ss) && WithinRun(Unlocked(), ss, U16)
    ensures !Broken(After(Unlocked(), ss))
  {
    var l := After(Unlocked(), ss);
    forall a, b | PcOf(l, a) == Holding && PcOf(l, b) == Holding
      ensures a == b
    {
      RunIsSafeAndFair(ss, a, b);
    }
  }
}

// Futexes over whole runs (kernel/futex.c): user stores, waits, wakes and
// requeues in any order. A wait reads the word and joins the queue under the
// futex lock; a store takes no lock.
module FutexRun {
  import opened Common
  import opened CArith
  import opened Lists
  import opened Futex

  // The value a waiter read, and when.
  datatype Seen = Seen(val: nat, at: nat)

  // futex_wait between reading the word and letting go of the lock.
  datatype Reader = Reader(tid: Tid, key: Key, expected: nat, bits: bv32, seen: Seen)

  // `now` counts the steps so far.
  datatype State = State(words: map<Key, nat>, bs: Buckets, ws: Waiters, seen: map<Tid, Seen>,
                         lock: Option<Reader>, now: nat)

  datatype Act =
    | Store(key: Key, val: nat)                                // user code writes the word
    | Read(tid: Tid, key: Key, expected: nat, bits: bv32)      // futex_wait: lock, get_user
    | Commit                                                   // ... join the queue or give up, unlock
    | Wake(key: Key, n: int, bits: bv32)
    | Requeue(key: Key, key2: Key, nwake: int, nrequeue: int)
    | End(tid: Tid)                                            // futex_wait, after the sleep

  function Word(s: State, k: Key): nat {
    if k in s.words then s.words[k] else 0
  }

  function Q(s: State, hash: Key -> nat, k: Key): seq<Tid> {
    Queue(s.bs, s.ws, hash, k)
  }

  predicate Allowed(s: State, a: Act) {
    match a
    case Store(_, _) => true
    case Read(t, _, _, bits) => s.lock.None? && t !in s.ws && bits != 0
    case Commit => s.lock.Some?
    case End(t) => s.lock.None? && t in s.ws
    case _ => s.lock.None?
  }

  function Woken(s: State, hash: Key -> nat, k: Key, n: int, bits: bv32): State {
    var h := hash(k);
    var l := Bucket(s.bs, h);
    s.(bs := s.bs[h := Left(s.ws, l, k, bits, n)], ws := WokenAll(s.ws, Taken(s.ws, l, k, bits, n)))
  }

  function Shifted(s: State, hash: Key -> nat, k: Key, k2: Key, n: int): State {
    var l := Bucket(s.bs, hash(k));
    if k == k2 then s.(bs := s.bs[hash(k) := Spin(s.ws, [], l, k, n).0])
    else s.(bs := Moved(s.bs, s.ws, hash, k, k2, n), ws := Rekeyed(s.ws, Taken(s.ws, l, k, 0xffff_ffff, n), k2))
  }

  function Effect(s: State, hash: Key -> nat, a: Act): State
    requires Allowed(s, a)
  {
    match a
    case Store(k, v) => s.(words := s.words[k := v])
    case Read(t, k, expected, bits) => s.(lock := Some(Reader(t, k, expected, bits, Seen(Word(s, k), s.now))))
    case Commit =>
      var r := s.lock.value;
      if r.seen.val != r.expected then s.(lock := None)
      else
        var h := hash(r.key);
        s.(lock := None, bs := s.bs[h := Bucket(s.bs, h) + [r.tid]],
           ws := s.ws[r.tid := Waiter(r.key, r.bits, false, false)], seen := s.seen[r.tid := r.seen])
    case Wake(k, n, bits) => Woken(s, hash, k, n, bits)
    case Requeue(k, k2, nwake, nrequeue) => Shifted(Woken(s, hash, k, nwake, 0xffff_ffff), hash, k, k2, nrequeue)
    case End(t) =>
      var w := s.ws[t];
      s.(ws := s.ws - {t},
         bs := if w.woken then s.bs else s.bs[hash(w.key) := Without(Bucket(s.bs, hash(w.key)), t)])
  }

  function Do(s: State, hash: Key -> nat, a: Act): State
    requires Allowed(s, a)
  {
    Effect(s, hash, a).(now := s.now + 1)
  }

  // ---- the invariant ----

  ghost predicate Valid(s: State, hash: Key -> nat) {
    && TableOk(s.bs, s.ws, hash)
    && (forall t :: t in s.ws ==> t in s.seen && s.seen[t].at < s.now)
    && (s.lock.Some? ==>
          && s.lock.value.tid !in s.ws && s.lock.value.bits != 0 && s.lock.value.seen.at < s.now
          && forall t :: t in s.ws ==> s.seen[t].at < s.lock.value.seen.at)
  }

  // Whoever read the word earlier stands further ahead.
  ghost predicate InOrder(seen: map<Tid, Seen>, q: seq<Tid>) {
    && (forall i :: 0 <= i < |q| ==> q[i] in seen)
    && (forall i, j :: 0 <= i < j < |q| ==> seen[q[i]].at < seen[q[j]].at)
  }

  // A step that only takes waiters off the queue of k.
  ghost predicate Shrinks(s: State, s': State, hash: Key -> nat, k: Key) {
    && (forall t :: t in Q(s', hash, k) ==> t in Q(s, hash, k))
    && (InOrder(s.seen, Q(s, hash, k)) ==> InOrder(s.seen, Q(s', hash, k)))
  }

  lemma QueueIs(s: State, hash: Key -> nat, k: Key)
    requires TableOk(s.bs, s.ws, hash)
    ensures forall t :: t in Q(s, hash, k) <==> t in s.ws && !s.ws[t].woken && s.ws[t].key == k
  {
    assert BucketOk(s.bs, s.ws, hash, hash(k));
    OfIn(s.ws, Bucket(s.bs, hash(k)), k);
  }

  lemma {:induction false} LeftInOrder(ws: Waiters, seen: map<Tid, Seen>, q: seq<Tid>, k: Key, bits: bv32, n: int)
    ensures forall t :: t in Left(ws, q, k, bits, n) ==> t in q
    ensures InOrder(seen, q) ==> InOrder(seen, Left(ws, q, k, bits, n))
    decreases |q|
  {
    if q != [] && n > 0 {
      assert q == [q[0]] + q[1..];
      var m := if Matches(ws, q[0], k, bits) then n - 1 else n;
      LeftInOrder(ws, seen, q[1..], k, bits, m);
      hide Matches;
      var l := Left(ws, q[1..], k, bits, m);
      if InOrder(seen, q) {
        forall i | 0 <= i < |l|
          ensures l[i] in seen && seen[q[0]].at < seen[l[i]].at
        {
          assert l[i] in l;
        }
      }
    }
  }

  lemma {:induction false} WithoutInOrder(seen: map<Tid, Seen>, q: seq<Tid>, t: Tid)
    ensures forall u :: u in Without(q, t) ==> u in q
    ensures InOrder(seen, q) ==> InOrder(seen, Without(q, t))
    decreases |q|
  {
    if q != [] && q[0] != t {
      assert q == [q[0]] + q[1..];
      WithoutInOrder(seen, q[1..], t);
      var l := Without(q[1..], t);
      if InOrder(seen, q) {
        forall i | 0 <= i < |l|
          ensures l[i] in seen && seen[q[0]].at < seen[l[i]].at
        {
          assert l[i] in l;
        }
      }
    }
  }

  lemma WokenStep(s: State, hash: Key -> nat, k: Key, n: int, bits: bv32, k2: Key)
    requires Valid(s, hash)
    ensures var s' := Woken(s, hash, k, n, bits);
            && Valid(s', hash) && s' == s.(bs := s'.bs, ws := s'.ws) && Shrinks(s, s', hash, k2)
            && (k == k2 ==> Q(s', hash, k) == Left(s.ws, Q(s, hash, k), k, bits, n))
  {
    hide TableOk, Queue, Taken, Left, InOrder;
    WakeKeeps(s.bs, s.ws, hash, k, bits, n);
    WakeQueues(s.bs, s.ws, hash, k, bits, n, k2);
    LeftInOrder(s.ws, s.seen, Q(s, hash, k), k, bits, n);
  }

  lemma ShiftedStep(s: State, hash: Key -> nat, k: Key, k2: Key, n: int, k3: Key)
    requires Valid(s, hash)
    ensures var s' := Shifted(s, hash, k, k2, n);
            Valid(s', hash) && s' == s.(bs := s'.bs, ws := s'.ws) && (k3 != k2 ==> Shrinks(s, s', hash, k3))
  {
    hide Valid, Shrinks, Taken, Left, Moved, Spin;
    if k == k2 {
      SpunStep(s, hash, k, n, k3);
    } else {
      MovedStep(s, hash, k, k2, n, k3);
    }
  }

  lemma SpunStep(s: State, hash: Key -> nat, k: Key, n: int, k3: Key)
    requires Valid(s, hash)
    ensures var s' := Shifted(s, hash, k, k, n);
            Valid(s', hash) && (k3 != k ==> Shrinks(s, s', hash, k3))
  {
    hide TableOk, Queue, Spin, Rotated, SpinMoves, EndsIn, InOrder;
    SpunBucket(s.bs, s.ws, hash, k, n);
  }

  lemma MovedStep(s: State, hash: Key -> nat, k: Key, k2: Key, n: int, k3: Key)
    requires Valid(s, hash) && k != k2
    ensures var s' := Shifted(s, hash, k, k2, n);
            Valid(s', hash) && (k3 != k2 ==> Shrinks(s, s', hash, k3))
  {
    hide TableOk, Taken, Moved, Shrinks;
    MoveKeeps(s.bs, s.ws, hash, k, k2, n);
    MovedShrinks(s, hash, k, k2, n, k3);
  }

  lemma MovedShrinks(s: State, hash: Key -> nat, k: Key, k2: Key, n: int, k3: Key)
    requires TableOk(s.bs, s.ws, hash) && k != k2
    ensures k3 != k2 ==> Shrinks(s, Shifted(s, hash, k, k2, n), hash, k3)
  {
    hide TableOk, Queue, Taken, Left, Moved, InOrder, Rekeyed;
    MoveQueues(s.bs, s.ws, hash, k, k2, n, k3);
    var q, q' := Q(s, hash, k), Q(Shifted(s, hash, k, k2, n), hash, k);
    var m := Clip(n, |q|);
    assert q' == q[m..];
    TailInOrder(s.seen, q, m);
  }

  lemma TailInOrder(seen: map<Tid, Seen>, q: seq<Tid>, m: nat)
    requires m <= |q|
    ensures forall t :: t in q[m..] ==> t in q
    ensures InOrder(seen, q) ==> InOrder(seen, q[m..])
  {
  }

  // No step but a requeue onto k lets anybody ahead of an earlier reader.
  lemma StepKeeps(s: State, hash: Key -> nat, a: Act, k: Key)
    requires Valid(s, hash) && Allowed(s, a)
    ensures var s' := Do(s, hash, a);
            && Valid(s', hash)
            && (InOrder(s.seen, Q(s, hash, k)) && !(a.Requeue? && a.key2 == k) ==> InOrder(s'.seen, Q(s', hash, k)))
            && (!a.Commit? && !(a.Requeue? && a.key2 == k) ==>
                  s'.seen == s.seen && forall t :: t in Q(s', hash, k) ==> t in Q(s, hash, k))
  {
    hide TableOk, Queue, Taken, Left, InOrder, Shifted, Woken;
    var s' := Do(s, hash, a);
    match a
    case Wake(k1, n, bits) => WokenStep(s, hash, k1, n, bits, k);
    case Requeue(k1, k2, nwake, nrequeue) =>
      WokenStep(s, hash, k1, nwake, 0xffff_ffff, k);
      ShiftedStep(Woken(s, hash, k1, nwake, 0xffff_ffff), hash, k1, k2, nrequeue, k);
    case Commit => CommitKeeps(s, hash, k);
    case End(t) =>
      RemoveKeeps(s.bs, s.ws, hash, t);
      RemoveQueues(s.bs, s.ws, hash, t, k);
      WithoutInOrder(s.seen, Q(s, hash, k), t);
    case _ =>
  }

  lemma CommitKeeps(s: State, hash: Key -> nat, k: Key)
    requires Valid(s, hash) && s.lock.Some?
    ensures var s' := Do(s, hash, Commit); var r := s.lock.value;
            && Valid(s', hash)
            && (InOrder(s.seen, Q(s, hash, k)) ==> InOrder(s'.seen, Q(s', hash, k)))
            && forall t :: t in Q(s', hash, k) ==> t in Q(s, hash, k) || (t == r.tid && k == r.key)
  {
    hide TableOk, Queue;
    var r := s.lock.value;
    var s' := Do(s, hash, Commit);
    QueueIs(s, hash, k);
    if r.seen.val == r.expected {
      var w := Waiter(r.key, r.bits, false, false);
      AddKeeps(s.bs, s.ws, hash, r.tid, w);
      AddQueues(s.bs, s.ws, hash, r.tid, w, k);
      assert forall i :: 0 <= i < |Q(s, hash, k)| ==> Q(s, hash, k)[i] in Q(s, hash, k);
    }
  }

  // ---- runs ----

  predicate CanRun(s: State, hash: Key -> nat, acts: seq<Act>)
    decreases |acts|
  {
    acts == [] || (Allowed(s, acts[0]) && CanRun(Do(s, hash, acts[0]), hash, acts[1..]))
  }

  function Ran(s: State, hash: Key -> nat, acts: seq<Act>): State
    requires CanRun(s, hash, acts)
    decreases |acts|
  {
    if acts == [] then s else Ran(Do(s, hash, acts[0]), hash, acts[1..])
  }

  lemma {:induction false} RanAppend(s: State, hash: Key -> nat, a: seq<Act>, b: seq<Act>)
    requires CanRun(s, hash, a + b)
    ensures CanRun(s, hash, a) && CanRun(Ran(s, hash, a), hash, b)
    ensures Ran(s, hash, a + b) == Ran(Ran(s, hash, a), hash, b)
    decreases |a|
  {
    hide Do, Allowed;
    if a == [] {
      assert a + b == b;
    } else {
      assert (a + b)[1..] == a[1..] + b;
      RanAppend(Do(s, hash, a[0]), hash, a[1..], b);
    }
  }

  // Neither a store to k nor a requeue onto it.
  predicate Quiet(acts: seq<Act>, k: Key) {
    forall i :: 0 <= i < |acts| ==> QuietAct(acts[i], k)
  }

  predicate QuietAct(a: Act, k: Key) {
    !(a.Store? && a.key == k) && !(a.Requeue? && a.key2 == k)
  }

  // A waiter on k read its word before time `since`.
  predicate ReadBefore(s: State, t: Tid, since: nat) {
    t in s.seen && s.seen[t].at < since
  }

  // The word has been v since that time: who has read it later has read v.
  ghost predicate Since(s: State, hash: Key -> nat, k: Key, v: nat, since: nat) {
    && Word(s, k) == v && since <= s.now
    && (forall t :: t in Q(s, hash, k) ==> ReadBefore(s, t, since) || (t in s.seen && s.seen[t].val == v))
    && (s.lock.Some? && s.lock.value.key == k ==> s.lock.value.seen.at < since || s.lock.value.seen.val == v)
  }

  lemma SinceStep(s: State, hash: Key -> nat, a: Act, k: Key, v: nat, since: nat)
    requires Valid(s, hash) && Allowed(s, a) && QuietAct(a, k) && Since(s, hash, k, v, since)
    ensures Since(Do(s, hash, a), hash, k, v, since)
  {
    hide TableOk, Queue, Taken, Left, InOrder, Shifted, Woken;
    StepKeeps(s, hash, a, k);
    if a.Commit? {
      CommitKeeps(s, hash, k);
      QueueIs(s, hash, k);
    }
    EffectFrame(s, hash, a);
  }

  lemma EffectFrame(s: State, hash: Key -> nat, a: Act)
    requires Allowed(s, a)
    ensures !a.Store? ==> Do(s, hash, a).words == s.words
    ensures !a.Read? && !a.Commit? ==> Do(s, hash, a).lock == s.lock
    ensures Do(s, hash, a).now == s.now + 1
  {
  }

  lemma {:induction false} QuietRun(s: State, hash: Key -> nat, acts: seq<Act>, k: Key, v: nat, since: nat)
    requires Valid(s, hash) && CanRun(s, hash, acts) && Quiet(acts, k)
    requires Since(s, hash, k, v, since)
    ensures var s' := Ran(s, hash, acts);
            && Valid(s', hash) && Since(s', hash, k, v, since)
            && (InOrder(s.seen, Q(s, hash, k)) ==> InOrder(s'.seen, Q(s', hash, k)))
    decreases |acts|
  {
    hide Valid, Do, Allowed, Since, InOrder, QuietAct, Queue;
    if acts != [] {
      assert QuietAct(acts[0], k);
      NotOnto(acts[0], k);
      StepKeeps(s, hash, acts[0], k);
      SinceStep(s, hash, acts[0], k, v, since);
      QuietRun(Do(s, hash, acts[0]), hash, acts[1..], k, v, since);
    }
  }

  lemma NotOnto(a: Act, k: Key)
    requires QuietAct(a, k)
    ensures !(a.Requeue? && a.key2 == k)
  {
  }

  // How many waiters on k read it before that time.
  ghost function Stale(s: State, hash: Key -> nat, k: Key, since: nat): set<int> {
    var q := Q(s, hash, k);
    set i | 0 <= i < |q| && ReadBefore(s, q[i], since)
  }

  ghost function Upto(n: nat): (r: set<int>)
    ensures |r| == n && forall i :: i in r <==> 0 <= i < n
  {
    if n == 0 then {} else Upto(n - 1) + {n - 1}
  }

  lemma Bigger(a: set<int>, b: set<int>)
    requires a <= b
    ensures |a| <= |b|
  {
    assert b == a + (b - a);
  }

  // A wake of n reaches all of them: it is one of everybody, or they stand in
  // front and are no more than n.
  ghost predicate Enough(s: State, hash: Key -> nat, k: Key, n: int, since: nat) {
    n >= |Q(s, hash, k)| || (InOrder(s.seen, Q(s, hash, k)) && n >= |Stale(s, hash, k, since)|)
  }

  lemma WakeTakesStale(s: State, hash: Key -> nat, k: Key, n: int, since: nat)
    requires Valid(s, hash) && s.lock.None? && Enough(s, hash, k, n, since)
    ensures forall t :: t in Q(Do(s, hash, Wake(k, n, 0xffff_ffff)), hash, k) ==> !ReadBefore(s, t, since)
  {
    hide TableOk, Queue, Taken, Left, Woken;
    WokenStep(s, hash, k, n, 0xffff_ffff, k);
    WakesFirst(s.bs, s.ws, hash, k, n);
    var q, m := Q(s, hash, k), Clip(n, |Q(s, hash, k)|);
    assert Q(Woken(s, hash, k, n, 0xffff_ffff), hash, k) == q[m..];
    SameQ(s, hash, Wake(k, n, 0xffff_ffff), k);
    forall i | m <= i < |q|
      ensures !ReadBefore(s, q[i], since)
    {
      if ReadBefore(s, q[i], since) {
        assert forall j :: 0 <= j <= i ==> ReadBefore(s, q[j], since);
        Bigger(Upto(i + 1), Stale(s, hash, k, since));
        assert false;
      }
    }
  }

  lemma SameQ(s: State, hash: Key -> nat, a: Act, k: Key)
    requires Allowed(s, a)
    ensures Q(Do(s, hash, a), hash, k) == Q(Effect(s, hash, a), hash, k)
    ensures a.Wake? ==> Effect(s, hash, a) == Woken(s, hash, a.key, a.n, a.bits)
  {
    hide Effect, Queue;
    if a.Wake? {
      WakeEffect(s, hash, a);
    }
  }

  lemma WakeEffect(s: State, hash: Key -> nat, a: Act)
    requires Allowed(s, a) && a.Wake?
    ensures Effect(s, hash, a) == Woken(s, hash, a.key, a.n, a.bits)
  {
  }

  // A wake cannot miss. A user stores v and then wakes everybody, or at least as
  // many as have read the word before the store, on a queue in the order of the
  // reads. Whatever else happens in between and afterwards, short of another
  // store or a requeue onto this futex, nobody is left queued on it who has read
  // another value.
  lemma CannotMiss(s: State, hash: Key -> nat, k: Key, v: nat, mid: seq<Act>, n: int, post: seq<Act>)
    requires Valid(s, hash) && Quiet(mid, k) && Quiet(post, k)
    requires CanRun(s, hash, [Store(k, v)] + mid + [Wake(k, n, 0xffff_ffff)] + post)
    requires CanRun(s, hash, [Store(k, v)] + mid) ==>
               var s2 := Ran(s, hash, [Store(k, v)] + mid);
               || n >= |Q(s2, hash, k)|
               || (InOrder(s.seen, Q(s, hash, k)) && n >= |Stale(s2, hash, k, s.now)|)
    ensures var s' := Ran(s, hash, [Store(k, v)] + mid + [Wake(k, n, 0xffff_ffff)] + post);
            && Word(s', k) == v
            && forall t :: t in s'.ws && !s'.ws[t].woken && s'.ws[t].key == k ==> t in s'.seen && s'.seen[t].val == v
  {
    hide Valid, Do, Allowed, Since, InOrder, Queue, CanRun, Ran, Quiet, Stale;
    var wake := Wake(k, n, 0xffff_ffff);
    RanAppend(s, hash, [Store(k, v)] + mid + [wake], post);
    RanAppend(s, hash, [Store(k, v)] + mid, [wake]);
    RanAppend(s, hash, [Store(k, v)], mid);
    AfterStore(s, hash, k, v);
    var s1 := Ran(s, hash, [Store(k, v)]);
    QuietRun(s1, hash, mid, k, v, s.now);
    var s2 := Ran(s1, hash, mid);
    AfterWake(s2, hash, k, v, n, s.now);
    var s3 := Ran(s2, hash, [wake]);
    QuietRun(s3, hash, post, k, v, 0);
    AllRead(Ran(s3, hash, post), hash, k, v);
  }

  lemma AfterStore(s: State, hash: Key -> nat, k: Key, v: nat)
    requires Valid(s, hash)
    ensures CanRun(s, hash, [Store(k, v)])
    ensures var s' := Ran(s, hash, [Store(k, v)]);
            && Valid(s', hash) && Since(s', hash, k, v, s.now)
            && (InOrder(s.seen, Q(s, hash, k)) ==> InOrder(s'.seen, Q(s', hash, k)))
  {
    hide TableOk, Queue, InOrder;
    StepKeeps(s, hash, Store(k, v), k);
    QueueIs(s, hash, k);
    var s' := Do(s, hash, Store(k, v));
    assert Ran(s, hash, [Store(k, v)]) == s';
  }

  lemma AfterWake(s: State, hash: Key -> nat, k: Key, v: nat, n: int, since: nat)
    requires Valid(s, hash) && Since(s, hash, k, v, since)
    requires CanRun(s, hash, [Wake(k, n, 0xffff_ffff)]) && Enough(s, hash, k, n, since)
    ensures var s' := Ran(s, hash, [Wake(k, n, 0xffff_ffff)]);
            Valid(s', hash) && Since(s', hash, k, v, 0)
  {
    hide TableOk, Queue, InOrder, Stale, Woken, Enough;
    var wake := Wake(k, n, 0xffff_ffff);
    StepKeeps(s, hash, wake, k);
    SinceStep(s, hash, wake, k, v, since);
    WakeTakesStale(s, hash, k, n, since);
    EffectFrame(s, hash, wake);
    var s' := Do(s, hash, wake);
    assert Ran(s, hash, [wake]) == s';
  }

  lemma AllRead(s: State, hash: Key -> nat, k: Key, v: nat)
    requires Valid(s, hash) && Since(s, hash, k, v, 0)
    ensures Word(s, k) == v
    ensures forall t :: t in s.ws && !s.ws[t].woken && s.ws[t].key == k ==> t in s.seen && s.seen[t].val == v
  {
    hide TableOk, Queue;
    QueueIs(s, hash, k);
  }
}

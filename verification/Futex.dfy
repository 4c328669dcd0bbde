// Futex wait queues (kernel/futex.c). Waiters of all keys that hash alike share
// one bucket list; what matters to a user is the queue of one key.
module Futex {
  import opened Common
  import opened CArith
  import opened Lists

  type Tid = nat

  datatype Key = Key(a: nat, b: nat)

  datatype Waiter = Waiter(key: Key, bitset: bv32, woken: bool, running: bool)

  type Waiters = map<Tid, Waiter>

  predicate Matches(ws: Waiters, t: Tid, k: Key, bits: bv32) {
    t in ws && ws[t].key == k && ws[t].bitset & bits != 0
  }

  // The waiters of key k on a list, in arrival order.
  function Of(ws: Waiters, s: seq<Tid>, k: Key): seq<Tid> {
    if s == [] then []
    else if s[0] in ws && ws[s[0]].key == k then [s[0]] + Of(ws, s[1..], k)
    else Of(ws, s[1..], k)
  }

  function Matching(ws: Waiters, s: seq<Tid>, k: Key, bits: bv32): seq<Tid> {
    if s == [] then []
    else if Matches(ws, s[0], k, bits) then [s[0]] + Matching(ws, s[1..], k, bits)
    else Matching(ws, s[1..], k, bits)
  }

  // What a walk that takes at most n matching waiters leaves on the list.
  function Left(ws: Waiters, s: seq<Tid>, k: Key, bits: bv32, n: int): seq<Tid> {
    if s == [] || n <= 0 then s
    else if Matches(ws, s[0], k, bits) then Left(ws, s[1..], k, bits, n - 1)
    else [s[0]] + Left(ws, s[1..], k, bits, n)
  }

  // ... and what it takes: the first ones in order.
  function Taken(ws: Waiters, s: seq<Tid>, k: Key, bits: bv32, n: int): seq<Tid> {
    var m := Matching(ws, s, k, bits);
    if n <= 0 then [] else if n >= |m| then m else m[..n]
  }

  lemma {:induction false} TakenStep(ws: Waiters, s: seq<Tid>, k: Key, bits: bv32, n: int)
    requires s != [] && n > 0
    ensures Taken(ws, s, k, bits, n) ==
            if Matches(ws, s[0], k, bits) then [s[0]] + Taken(ws, s[1..], k, bits, n - 1) else Taken(ws, s[1..], k, bits, n)
  {
  }

  // A walk in progress: entries kept and taken so far, and those ahead.
  ghost predicate Walked(ws: Waiters, s0: seq<Tid>, k: Key, bits: bv32, n: int, kept: seq<Tid>, taken: seq<Tid>,
      todo: seq<Tid>)
  {
    && Left(ws, s0, k, bits, n) == kept + Left(ws, todo, k, bits, n - |taken|)
    && Taken(ws, s0, k, bits, n) == taken + Taken(ws, todo, k, bits, n - |taken|)
  }

  lemma WalkedStart(ws: Waiters, s0: seq<Tid>, k: Key, bits: bv32, n: int)
    ensures Walked(ws, s0, k, bits, n, [], [], s0)
  {
    hide Left, Taken;
  }

  lemma WalkedStep(ws: Waiters, s0: seq<Tid>, k: Key, bits: bv32, n: int, kept: seq<Tid>, taken: seq<Tid>,
      todo: seq<Tid>)
    requires Walked(ws, s0, k, bits, n, kept, taken, todo) && todo != [] && |taken| < n
    ensures if Matches(ws, todo[0], k, bits) then Walked(ws, s0, k, bits, n, kept, taken + [todo[0]], todo[1..])
            else Walked(ws, s0, k, bits, n, kept + [todo[0]], taken, todo[1..])
  {
    hide Taken, Matches;
    TakenStep(ws, todo, k, bits, n - |taken|);
  }

  lemma WalkedEnd(ws: Waiters, s0: seq<Tid>, k: Key, bits: bv32, n: int, kept: seq<Tid>, taken: seq<Tid>,
      todo: seq<Tid>)
    requires Walked(ws, s0, k, bits, n, kept, taken, todo) && (todo == [] || |taken| >= n)
    ensures Left(ws, s0, k, bits, n) == kept + todo && Taken(ws, s0, k, bits, n) == taken
  {
    TakenNone(ws, todo, k, bits, n - |taken|);
  }

  // A list is what was taken and what is left, and both keep their order: the
  // queue of every other key is untouched, and key k loses exactly the taken.
  lemma {:induction false} WalkSplits(ws: Waiters, s: seq<Tid>, k: Key, bits: bv32, n: int)
    requires NoDup(s)
    ensures forall t :: t in s <==> t in Taken(ws, s, k, bits, n) || t in Left(ws, s, k, bits, n)
    ensures forall t :: t in Taken(ws, s, k, bits, n) ==> t !in Left(ws, s, k, bits, n) && Matches(ws, t, k, bits)
    ensures NoDup(Taken(ws, s, k, bits, n)) && NoDup(Left(ws, s, k, bits, n))
    decreases |s|
  {
    if s != [] && n > 0 {
      TakenStep(ws, s, k, bits, n);
      assert s == [s[0]] + s[1..];
      var m := if Matches(ws, s[0], k, bits) then n - 1 else n;
      WalkSplits(ws, s[1..], k, bits, m);
      assert s[0] !in s[1..];
      if Matches(ws, s[0], k, bits) {
        PushFront(Taken(ws, s[1..], k, bits, m), s[0]);
      } else {
        PushFront(Left(ws, s[1..], k, bits, m), s[0]);
      }
    }
  }

  lemma {:induction false} OtherKeysKept(ws: Waiters, s: seq<Tid>, k: Key, bits: bv32, n: int, k2: Key)
    requires k2 != k
    ensures Of(ws, Left(ws, s, k, bits, n), k2) == Of(ws, s, k2)
    decreases |s|
  {
    if s != [] && n > 0 {
      if Matches(ws, s[0], k, bits) {
        OtherKeysKept(ws, s[1..], k, bits, n - 1, k2);
      } else {
        OtherKeysKept(ws, s[1..], k, bits, n, k2);
        var l := Left(ws, s[1..], k, bits, n);
        assert ([s[0]] + l)[1..] == l;
      }
    }
  }

  // With a full bitset the walk takes a prefix of the key's queue.
  lemma {:induction false} TakesPrefix(ws: Waiters, s: seq<Tid>, k: Key, n: int)
    requires forall t :: t in s ==> t in ws && ws[t].bitset != 0
    ensures var q := Of(ws, s, k); var m := if n <= 0 then 0 else if n >= |q| then |q| else n;
            && Matching(ws, s, k, 0xffff_ffff) == q
            && Taken(ws, s, k, 0xffff_ffff, n) == q[..m] && Of(ws, Left(ws, s, k, 0xffff_ffff, n), k) == q[m..]
    decreases |s|
  {
    if s != [] {
      var hit := s[0] in ws && ws[s[0]].key == k;
      assert s[0] in s;
      assert ws[s[0]].bitset & 0xffff_ffff == ws[s[0]].bitset;
      TakesPrefix(ws, s[1..], k, if hit && n > 0 then n - 1 else n);
      if n > 0 && !hit {
        var l := Left(ws, s[1..], k, 0xffff_ffff, n);
        assert ([s[0]] + l)[1..] == l;
      }
    }
  }

  // Sharing a bucket with other keys makes no difference to a walk.
  lemma {:induction false} MatchesOnlyItsKey(ws: Waiters, s: seq<Tid>, k: Key, bits: bv32)
    ensures Matching(ws, Of(ws, s, k), k, bits) == Matching(ws, s, k, bits)
  {
    if s != [] {
      MatchesOnlyItsKey(ws, s[1..], k, bits);
      var q := Of(ws, s[1..], k);
      assert ([s[0]] + q)[1..] == q;
    }
  }

  lemma {:induction false} SeesOnlyItsKey(ws: Waiters, s: seq<Tid>, k: Key, bits: bv32, n: int)
    ensures Of(ws, Left(ws, s, k, bits, n), k) == Left(ws, Of(ws, s, k), k, bits, n)
    decreases |s|
  {
    if s != [] && n > 0 {
      var q := Of(ws, s[1..], k);
      assert ([s[0]] + q)[1..] == q;
      if Matches(ws, s[0], k, bits) {
        SeesOnlyItsKey(ws, s[1..], k, bits, n - 1);
      } else {
        SeesOnlyItsKey(ws, s[1..], k, bits, n);
        var l := Left(ws, s[1..], k, bits, n);
        assert ([s[0]] + l)[1..] == l;
      }
    }
  }

  lemma {:induction false} OfSame(ws: Waiters, ws': Waiters, s: seq<Tid>, k: Key)
    requires forall t :: t in s ==> (t in ws && ws[t].key == k <==> t in ws' && ws'[t].key == k)
    ensures Of(ws', s, k) == Of(ws, s, k)
  {
    if s != [] {
      assert s[0] in s;
      OfSame(ws, ws', s[1..], k);
    }
  }

  lemma {:induction false} OfAppend(ws: Waiters, s: seq<Tid>, r: seq<Tid>, k: Key)
    ensures Of(ws, s + r, k) == Of(ws, s, k) + Of(ws, r, k)
    decreases |s|
  {
    if s == [] {
      assert s + r == r;
    } else {
      assert (s + r)[1..] == s[1..] + r;
      OfAppend(ws, s[1..], r, k);
    }
  }

  lemma {:induction false} OfAll(ws: Waiters, s: seq<Tid>, k: Key, all: bool)
    requires forall t :: t in s ==> (t in ws && ws[t].key == k <==> all)
    ensures Of(ws, s, k) == if all then s else []
  {
    if s != [] {
      assert s[0] in s;
      OfAll(ws, s[1..], k, all);
    }
  }

  // ---- the table ----

  type Buckets = map<nat, seq<Tid>>

  function Bucket(bs: Buckets, h: nat): seq<Tid> {
    if h in bs then bs[h] else []
  }

  ghost predicate BucketOk(bs: Buckets, ws: Waiters, hash: Key -> nat, h: nat) {
    && NoDup(Bucket(bs, h))
    && forall t :: t in Bucket(bs, h) <==> t in ws && !ws[t].woken && hash(ws[t].key) == h
  }

  // Every waiter is in the bucket of its current key, once, or has been woken,
  // and a woken one is not asleep.
  ghost predicate TableOk(bs: Buckets, ws: Waiters, hash: Key -> nat) {
    && (forall h :: BucketOk(bs, ws, hash, h))
    && (forall t :: t in ws ==> ws[t].bitset != 0 && (ws[t].woken ==> ws[t].running))
  }

  // The queue of a key, as its users see it.
  function Queue(bs: Buckets, ws: Waiters, hash: Key -> nat, k: Key): seq<Tid> {
    Of(ws, Bucket(bs, hash(k)), k)
  }

  function WokenAll(ws: Waiters, ts: seq<Tid>): Waiters {
    map t | t in ws :: if t in ts then ws[t].(woken := true, running := true) else ws[t]
  }

  // Waking: the table stays right; key k loses exactly the taken ones from its
  // queue and no other queue changes.
  lemma WakeKeeps(bs: Buckets, ws: Waiters, hash: Key -> nat, k: Key, bits: bv32, n: int)
    requires TableOk(bs, ws, hash)
    ensures var h := hash(k); var s := Bucket(bs, h); var ts := Taken(ws, s, k, bits, n);
            TableOk(bs[h := Left(ws, s, k, bits, n)], WokenAll(ws, ts), hash)
  {
    var h := hash(k);
    var s := Bucket(bs, h);
    var ts, bs' := Taken(ws, s, k, bits, n), bs[h := Left(ws, s, k, bits, n)];
    var ws' := WokenAll(ws, ts);
    assert BucketOk(bs, ws, hash, h);
    WalkSplits(ws, s, k, bits, n);
    hide Left, Taken;
    forall g
      ensures BucketOk(bs', ws', hash, g)
    {
      assert BucketOk(bs, ws, hash, g);
    }
  }

  lemma WakeQueues(bs: Buckets, ws: Waiters, hash: Key -> nat, k: Key, bits: bv32, n: int, k2: Key)
    requires TableOk(bs, ws, hash)
    ensures var h := hash(k); var s := Bucket(bs, h); var q := Queue(bs, ws, hash, k);
            var ts := Taken(ws, s, k, bits, n); var bs' := bs[h := Left(ws, s, k, bits, n)]; var ws' := WokenAll(ws, ts);
            && ts == Taken(ws, q, k, bits, n)
            && Queue(bs', ws', hash, k) == Left(ws, q, k, bits, n)
            && (k2 != k ==> Queue(bs', ws', hash, k2) == Queue(bs, ws, hash, k2))
  {
    var h := hash(k);
    var s := Bucket(bs, h);
    var ts, bs' := Taken(ws, s, k, bits, n), bs[h := Left(ws, s, k, bits, n)];
    var ws' := WokenAll(ws, ts);
    hide Left, Of;
    SeesOnlyItsKey(ws, s, k, bits, n);
    MatchesOnlyItsKey(ws, s, k, bits);
    OfSame(ws, ws', Bucket(bs', h), k);
    OfSame(ws, ws', Bucket(bs', hash(k2)), k2);
    if k2 != k {
      OtherKeysKept(ws, s, k, bits, n, k2);
    }
  }

  // ---- requeue ----

  function Rekeyed(ws: Waiters, ts: seq<Tid>, k2: Key): Waiters {
    map t | t in ws :: if t in ts then ws[t].(key := k2) else ws[t]
  }

  // The lists after moving the first n waiters of k behind k2's bucket, which
  // may be the same bucket.
  function Moved(bs: Buckets, ws: Waiters, hash: Key -> nat, k: Key, k2: Key, n: int): Buckets {
    var s := Bucket(bs, hash(k));
    var ts := Taken(ws, s, k, 0xffff_ffff, n);
    var bs1 := bs[hash(k) := Left(ws, s, k, 0xffff_ffff, n)];
    bs1[hash(k2) := Bucket(bs1, hash(k2)) + ts]
  }

  lemma MoveKeeps(bs: Buckets, ws: Waiters, hash: Key -> nat, k: Key, k2: Key, n: int)
    requires TableOk(bs, ws, hash)
    ensures var ts := Taken(ws, Bucket(bs, hash(k)), k, 0xffff_ffff, n);
            TableOk(Moved(bs, ws, hash, k, k2, n), Rekeyed(ws, ts, k2), hash)
  {
    hide Moved, Taken;
    var ts := Taken(ws, Bucket(bs, hash(k)), k, 0xffff_ffff, n);
    var bs', ws' := Moved(bs, ws, hash, k, k2, n), Rekeyed(ws, ts, k2);
    forall g
      ensures BucketOk(bs', ws', hash, g)
    {
      MovedBucket(bs, ws, hash, k, k2, n, g);
    }
  }

  lemma MovedBucket(bs: Buckets, ws: Waiters, hash: Key -> nat, k: Key, k2: Key, n: int, g: nat)
    requires TableOk(bs, ws, hash)
    ensures var ts := Taken(ws, Bucket(bs, hash(k)), k, 0xffff_ffff, n);
            BucketOk(Moved(bs, ws, hash, k, k2, n), Rekeyed(ws, ts, k2), hash, g)
  {
    hide Left, Taken;
    var s := Bucket(bs, hash(k));
    var ts := Taken(ws, s, k, 0xffff_ffff, n);
    assert BucketOk(bs, ws, hash, hash(k)) && BucketOk(bs, ws, hash, g);
    WalkSplits(ws, s, k, 0xffff_ffff, n);
    if g == hash(k2) {
      var l := if hash(k2) == hash(k) then Left(ws, s, k, 0xffff_ffff, n) else Bucket(bs, g);
      assert forall t :: t in ts ==> t !in l;
      AppendNoDup(l, ts);
    }
  }

  lemma AppendNoDup(l: seq<Tid>, ts: seq<Tid>)
    requires NoDup(l) && NoDup(ts) && forall t :: t in ts ==> t !in l
    ensures NoDup(l + ts)
    ensures forall t :: t in l + ts <==> t in l || t in ts
  {
    var s := l + ts;
    forall i, j | 0 <= i < j < |s|
      ensures s[i] != s[j]
    {
      if i < |l| <= j {
        assert s[j] == ts[j - |l|] && s[j] in ts && s[i] in l;
      }
    }
  }

  // The moved waiters line up, in order, behind those already waiting on k2.
  lemma MoveQueues(bs: Buckets, ws: Waiters, hash: Key -> nat, k: Key, k2: Key, n: int, k3: Key)
    requires TableOk(bs, ws, hash) && k != k2
    ensures var ts := Taken(ws, Bucket(bs, hash(k)), k, 0xffff_ffff, n);
            var bs' := Moved(bs, ws, hash, k, k2, n); var ws' := Rekeyed(ws, ts, k2); var q := Queue(bs, ws, hash, k);
            var m := if n <= 0 then 0 else if n >= |q| then |q| else n;
            && ts == q[..m]
            && Queue(bs', ws', hash, k) == q[m..]
            && Queue(bs', ws', hash, k2) == Queue(bs, ws, hash, k2) + q[..m]
            && (k3 != k && k3 != k2 ==> Queue(bs', ws', hash, k3) == Queue(bs, ws, hash, k3))
  {
    var s := Bucket(bs, hash(k));
    var ts := Taken(ws, s, k, 0xffff_ffff, n);
    assert BucketOk(bs, ws, hash, hash(k));
    TakesPrefix(ws, s, k, n);
    WalkSplits(ws, s, k, 0xffff_ffff, n);
    hide Left, Taken, Of;
    MovedQueue(bs, ws, hash, k, k2, n, k);
    MovedQueue(bs, ws, hash, k, k2, n, k2);
    MovedQueue(bs, ws, hash, k, k2, n, k3);
    if k3 != k {
      OtherKeysKept(ws, s, k, 0xffff_ffff, n, k3);
    }
    OtherKeysKept(ws, s, k, 0xffff_ffff, n, k2);
  }

  // Queue by queue: what the lists left by the walk hold, plus the moved ones.
  lemma MovedQueue(bs: Buckets, ws: Waiters, hash: Key -> nat, k: Key, k2: Key, n: int, k3: Key)
    requires TableOk(bs, ws, hash) && k != k2
    ensures var s := Bucket(bs, hash(k)); var ts := Taken(ws, s, k, 0xffff_ffff, n);
            var l := if hash(k3) == hash(k) then Left(ws, s, k, 0xffff_ffff, n) else Bucket(bs, hash(k3));
            Queue(Moved(bs, ws, hash, k, k2, n), Rekeyed(ws, ts, k2), hash, k3) ==
              Of(ws, l, k3) + if k3 == k2 then ts else []
  {
    var s := Bucket(bs, hash(k));
    var ts := Taken(ws, s, k, 0xffff_ffff, n);
    var bs', ws' := Moved(bs, ws, hash, k, k2, n), Rekeyed(ws, ts, k2);
    var l := if hash(k3) == hash(k) then Left(ws, s, k, 0xffff_ffff, n) else Bucket(bs, hash(k3));
    assert BucketOk(bs, ws, hash, hash(k)) && BucketOk(bs, ws, hash, hash(k3));
    WalkSplits(ws, s, k, 0xffff_ffff, n);
    hide Left, Taken, Of;
    forall t | t in l
      ensures t !in ts
    {
    }
    OfSame(ws, ws', l, k3);
    if hash(k3) == hash(k2) {
      OfAppend(ws', l, ts, k3);
      OfAll(ws', ts, k3, k3 == k2);
    }
  }

  // ---- requeue onto the same key ----

  predicate Has(ws: Waiters, t: Tid, k: Key) {
    t in ws && ws[t].key == k
  }

  // A walk that moves waiters to the tail of the list it walks meets them
  // again. It ends when n are moved or when it was on the last entry. The
  // result is the list and how many were moved.
  function Spin(ws: Waiters, kept: seq<Tid>, todo: seq<Tid>, k: Key, n: int): (seq<Tid>, nat)
    decreases if n > 0 then n else 0, |todo|
  {
    if todo == [] || n <= 0 then (kept + todo, 0)
    else if !Has(ws, todo[0], k) then Spin(ws, kept + [todo[0]], todo[1..], k, n)
    else if |todo| == 1 then (kept + todo, 1)
    else
      var r := Spin(ws, kept, todo[1..] + [todo[0]], k, n - 1);
      (r.0, r.1 + 1)
  }

  // What it moves from a queue of that length; atEnd says whether the last
  // entry of the list belongs to the queue.
  function SpinMoves(n: int, len: nat, atEnd: bool): nat {
    if n <= 0 || len == 0 then 0 else if len >= 2 then n else if atEnd || n == 1 then 1 else 2
  }

  predicate EndsIn(ws: Waiters, s: seq<Tid>, k: Key) {
    s != [] && Has(ws, s[|s| - 1], k)
  }

  function Rotated(q: seq<Tid>, n: nat): seq<Tid> {
    if q == [] then q else Turned(q, n % |q|)
  }

  function Turned(q: seq<Tid>, a: nat): seq<Tid>
    requires a <= |q|
  {
    q[a..] + q[..a]
  }

  lemma RotateStep(q: seq<Tid>, n: nat)
    requires q != []
    ensures Rotated(q[1..] + [q[0]], n) == Rotated(q, n + 1)
  {
    hide Turned;
    var l := |q|;
    assert |q[1..] + [q[0]]| == l;
    NextMod(n, l);
    TurnAt(q, n % l);
  }

  lemma NextMod(n: nat, l: nat)
    requires l > 0
    ensures n % l < l && (n + 1) % l == if n % l + 1 == l then 0 else n % l + 1
  {
    var a, d := n % l, n / l;
    assert n == l * d + a;
    if a + 1 == l {
      assert l * (d + 1) == l * d + l;
      DivMod(n + 1, l, d + 1, 0);
    } else {
      DivMod(n + 1, l, d, a + 1);
    }
  }

  lemma TurnAt(q: seq<Tid>, a: nat)
    requires a < |q|
    ensures var p := q[1..] + [q[0]]; var b := if a + 1 == |q| then 0 else a + 1;
            Turned(p, a) == Turned(q, b)
  {
    var p := q[1..] + [q[0]];
    if a + 1 == |q| {
      assert p[a..] == [q[0]] && p[..a] == q[1..];
    } else {
      assert p[a..] == q[a + 1..] + [q[0]] && p[..a] == q[1..a + 1];
    }
  }

  lemma OfHead(ws: Waiters, s: seq<Tid>, k: Key)
    requires s != []
    ensures Of(ws, s, k) == (if Has(ws, s[0], k) then [s[0]] else []) + Of(ws, s[1..], k)
    ensures Of(ws, [s[0]], k) == if Has(ws, s[0], k) then [s[0]] else []
    ensures Has(ws, s[0], k) ==> Of(ws, s[1..] + [s[0]], k) == Of(ws, s, k)[1..] + [s[0]]
  {
    OfAppend(ws, s[1..], [s[0]], k);
  }

  // The queue turns once for every move.
  lemma {:induction false} SpinRotates(ws: Waiters, kept: seq<Tid>, todo: seq<Tid>, k: Key, n: int)
    requires Of(ws, kept, k) == []
    ensures var r := Spin(ws, kept, todo, k, n); var q := Of(ws, todo, k);
            r.1 == SpinMoves(n, |q|, EndsIn(ws, todo, k)) && Of(ws, r.0, k) == Rotated(q, r.1)
    decreases if n > 0 then n else 0, |todo|
  {
    hide Of, Rotated;
    OfAppend(ws, kept, todo, k);
    var q := Of(ws, todo, k);
    if todo == [] || n <= 0 {
      RotateNone(q);
      OfNone(ws, k);
    } else {
      var t, rest := todo[0], todo[1..];
      OfHead(ws, todo, k);
      if !Has(ws, t, k) {
        OfAppend(ws, kept, [t], k);
        SpinRotates(ws, kept + [t], rest, k, n);
        OfNone(ws, k);
        assert q == Of(ws, rest, k);
        assert rest != [] ==> rest[|rest| - 1] == todo[|todo| - 1];
      } else if |todo| == 1 {
        OfNone(ws, k);
        assert q == [t];
        RotateOne(t);
      } else {
        SpinRotates(ws, kept, rest + [t], k, n - 1);
        RotateStep(q, Spin(ws, kept, rest + [t], k, n - 1).1);
        LastAlone(ws, todo, k);
      }
    }
  }

  lemma OfNone(ws: Waiters, k: Key)
    ensures Of(ws, [], k) == []
  {
  }

  lemma RotateNone(q: seq<Tid>)
    ensures Rotated(q, 0) == q
  {
  }

  lemma RotateOne(t: Tid)
    ensures Rotated([t], 1) == [t]
  {
  }

  // A first and a last entry of the key make a queue of two.
  lemma LastAlone(ws: Waiters, todo: seq<Tid>, k: Key)
    requires |todo| >= 2 && Has(ws, todo[0], k)
    ensures EndsIn(ws, todo, k) ==> |Of(ws, todo, k)| >= 2
  {
    var e := |todo| - 1;
    assert todo == todo[..e] + [todo[e]];
    OfAppend(ws, todo[..e], [todo[e]], k);
  }

  // The other queues of the bucket keep their order, and no entry is lost.
  lemma {:induction false} SpinKeeps(ws: Waiters, kept: seq<Tid>, todo: seq<Tid>, k: Key, n: int, k2: Key)
    requires NoDup(kept + todo) && k2 != k
    ensures var l := Spin(ws, kept, todo, k, n).0;
            && Of(ws, l, k2) == Of(ws, kept + todo, k2)
            && NoDup(l) && forall t :: t in l <==> t in kept + todo
    decreases if n > 0 then n else 0, |todo|
  {
    hide Of;
    if todo != [] && n > 0 {
      var t, rest := todo[0], todo[1..];
      if !Has(ws, t, k) {
        assert kept + [t] + rest == kept + todo;
        SpinKeeps(ws, kept + [t], rest, k, n, k2);
      } else if |todo| > 1 {
        assert [t] + rest == todo;
        TurnKeeps(kept, t, rest);
        SpinKeeps(ws, kept, rest + [t], k, n - 1, k2);
        OfAppend(ws, kept, todo, k2);
        OfAppend(ws, kept, rest + [t], k2);
        OfAppend(ws, rest, [t], k2);
        OfHead(ws, todo, k2);
      }
    }
  }

  lemma TurnKeeps(kept: seq<Tid>, t: Tid, rest: seq<Tid>)
    requires NoDup(kept + ([t] + rest))
    ensures NoDup(kept + (rest + [t]))
    ensures forall u :: u in kept + (rest + [t]) <==> u in kept + ([t] + rest)
  {
    var a, b := kept + ([t] + rest), kept + (rest + [t]);
    var c := |kept|;
    assert forall i :: 0 <= i < |b| ==> b[i] == if i < c then a[i] else if i < c + |rest| then a[i + 1] else a[c];
    assert forall i :: 0 <= i < |a| ==> a[i] == if i < c then b[i] else if i == c then b[c + |rest|] else b[i - 1];
    forall i, j | 0 <= i < j < |b|
      ensures b[i] != b[j]
    {
      var x := if i < c then i else i + 1;
      var y := if j < c then j else if j < c + |rest| then j + 1 else c;
      assert b[i] == a[x] && b[j] == a[y] && x != y;
    }
  }

  // The cursor of such a walk.
  ghost predicate Spinning(ws: Waiters, s0: seq<Tid>, k: Key, n: int, kept: seq<Tid>, todo: seq<Tid>, m: nat) {
    && (forall t :: t in todo ==> t in ws)
    && var r := Spin(ws, kept, todo, k, n - m);
       Spin(ws, [], s0, k, n) == (r.0, r.1 + m)
  }

  lemma SpinStep(ws: Waiters, s0: seq<Tid>, k: Key, n: int, kept: seq<Tid>, todo: seq<Tid>, m: nat)
    requires Spinning(ws, s0, k, n, kept, todo, m) && todo != [] && m < n
    ensures var t := todo[0];
            if !Has(ws, t, k) then Spinning(ws, s0, k, n, kept + [t], todo[1..], m)
            else if |todo| == 1 then Spinning(ws, s0, k, n, kept + todo, [], m + 1)
            else Spinning(ws, s0, k, n, kept, todo[1..] + [t], m + 1)
  {
    assert forall u :: u in todo[1..] + [todo[0]] ==> u in todo;
    assert kept + todo + [] == kept + todo;
  }

  lemma SpinEnd(ws: Waiters, s0: seq<Tid>, k: Key, n: int, kept: seq<Tid>, todo: seq<Tid>, m: nat)
    requires Spinning(ws, s0, k, n, kept, todo, m) && (todo == [] || m >= n)
    ensures Spin(ws, [], s0, k, n) == (kept + todo, m)
  {
  }

  // The bucket after the walk is as good as before.
  lemma SpunBucket(bs: Buckets, ws: Waiters, hash: Key -> nat, k: Key, n: int)
    requires TableOk(bs, ws, hash)
    ensures var s := Bucket(bs, hash(k)); var r := Spin(ws, [], s, k, n); var bs' := bs[hash(k) := r.0];
            var q := Queue(bs, ws, hash, k);
            && TableOk(bs', ws, hash) && r.1 == SpinMoves(n, |q|, EndsIn(ws, s, k))
            && Queue(bs', ws, hash, k) == Rotated(q, r.1)
            && forall k2 :: k2 != k ==> Queue(bs', ws, hash, k2) == Queue(bs, ws, hash, k2)
  {
    hide Spin, Of, Rotated, SpinMoves;
    var s := Bucket(bs, hash(k));
    var r := Spin(ws, [], s, k, n);
    var bs' := bs[hash(k) := r.0];
    OfNone(ws, k);
    SpinRotates(ws, [], s, k, n);
    assert BucketOk(bs, ws, hash, hash(k));
    assert [] + s == s;
    forall k2 | k2 != k
      ensures Queue(bs', ws, hash, k2) == Queue(bs, ws, hash, k2)
    {
      SpinKeeps(ws, [], s, k, n, k2);
    }
    SpinKeeps(ws, [], s, k, n, Key(k.a + 1, k.b));
    forall g
      ensures BucketOk(bs', ws, hash, g)
    {
      assert BucketOk(bs, ws, hash, g);
    }
  }

  ghost function WokenSet(ws: Waiters): set<Tid> {
    set t | t in ws && ws[t].woken
  }

  // A wake of at most n waiters of the queue q, in plain words: whoever was woken
  // was on q with a bit in common, no such waiter was passed over for a later
  // one, and when fewer than n were woken no such waiter is left.
  ghost predicate WokeFirst(ws: Waiters, ws': Waiters, q: seq<Tid>, bits: bv32, n: int, r: nat) {
    && ws'.Keys == ws.Keys && (forall t :: t in q ==> t in ws)
    && (forall t :: t in ws && ws'[t] != ws[t] ==>
          t in q && ws[t].bitset & bits != 0 && ws'[t] == ws[t].(woken := true, running := true))
    && (forall i, j :: 0 <= i < j < |q| && ws'[q[j]] != ws[q[j]] && ws[q[i]].bitset & bits != 0 ==> ws'[q[i]] != ws[q[i]])
    && (r < n ==> forall t :: t in q && ws[t].bitset & bits != 0 ==> ws'[t] != ws[t])
    && (r > 0 ==> r <= n)
  }

  lemma {:induction false} MatchingIn(ws: Waiters, s: seq<Tid>, k: Key, bits: bv32)
    ensures forall t :: t in Matching(ws, s, k, bits) <==> t in s && Matches(ws, t, k, bits)
  {
    hide Matches;
    if s != [] {
      MatchingIn(ws, s[1..], k, bits);
      assert s == [s[0]] + s[1..];
    }
  }

  // A waiter that matches is taken before any later one.
  lemma {:induction false} TakenInOrder(ws: Waiters, s: seq<Tid>, k: Key, bits: bv32, n: int, i: nat, j: nat)
    requires NoDup(s) && i < j < |s| && s[j] in Taken(ws, s, k, bits, n) && Matches(ws, s[i], k, bits)
    ensures s[i] in Taken(ws, s, k, bits, n)
    decreases |s|
  {
    assert n > 0;
    hide Matches, Taken;
    TakenStep(ws, s, k, bits, n);
    if i > 0 {
      assert s[1..][i - 1] == s[i] && s[1..][j - 1] == s[j];
      TakenInOrder(ws, s[1..], k, bits, if Matches(ws, s[0], k, bits) then n - 1 else n, i - 1, j - 1);
    }
  }

  lemma WakePlain(ws: Waiters, q: seq<Tid>, k: Key, bits: bv32, n: int)
    requires NoDup(q) && forall t :: t in q ==> t in ws && ws[t].key == k && !ws[t].woken
    ensures var ts := Taken(ws, q, k, bits, n); WokeFirst(ws, WokenAll(ws, ts), q, bits, n, |ts|)
  {
    var ts := Taken(ws, q, k, bits, n);
    var ws' := WokenAll(ws, ts);
    MatchingIn(ws, q, k, bits);
    WalkSplits(ws, q, k, bits, n);
    assert |ts| < n ==> ts == Matching(ws, q, k, bits);
    hide Taken, Left, Matching;
    assert forall t :: t in ws ==> (ws'[t] != ws[t] <==> t in ts);
    forall i, j | 0 <= i < j < |q| && ws'[q[j]] != ws[q[j]] && ws[q[i]].bitset & bits != 0
      ensures ws'[q[i]] != ws[q[i]]
    {
      assert q[i] in q;
      TakenInOrder(ws, q, k, bits, n, i, j);
    }
  }

  lemma QueueShape(bs: Buckets, ws: Waiters, hash: Key -> nat, k: Key)
    requires TableOk(bs, ws, hash)
    ensures var q := Queue(bs, ws, hash, k); NoDup(q) && forall t :: t in q ==> t in ws && ws[t].key == k && !ws[t].woken
  {
    assert BucketOk(bs, ws, hash, hash(k));
    OfShape(ws, Bucket(bs, hash(k)), k);
  }

  lemma {:induction false} OfShape(ws: Waiters, s: seq<Tid>, k: Key)
    requires NoDup(s)
    ensures NoDup(Of(ws, s, k)) && forall t :: t in Of(ws, s, k) ==> t in s && t in ws && ws[t].key == k
  {
    if s != [] {
      OfShape(ws, s[1..], k);
      assert s == [s[0]] + s[1..] && s[0] !in s[1..];
      PushFront(Of(ws, s[1..], k), s[0]);
    }
  }

  class FutexTable {
    const hash: Key -> nat
    var buckets: Buckets
    var waiters: Waiters
    ghost var counted: nat  // waiters counted by wakes so far
    ghost var zeros: nat    // waits that have returned 0 so far

    // Every wake that counted a waiter is owed exactly one wait returning 0.
    ghost predicate Valid()
      reads this
    {
      TableOk(buckets, waiters, hash) && counted == zeros + |WokenSet(waiters)|
    }

    function QueueOf(k: Key): seq<Tid>
      reads this
    {
      Queue(buckets, waiters, hash, k)
    }

    // Whether the bucket of k ends in a waiter of k once n have been woken.
    predicate EndsAfterWake(k: Key, n: int)
      reads this
    {
      EndsIn(waiters, Left(waiters, Bucket(buckets, hash(k)), k, 0xffff_ffff, n), k)
    }

    constructor (hash: Key -> nat)
      ensures Valid() && waiters == map[] && forall k :: QueueOf(k) == []
    {
      this.hash := hash;
      buckets, waiters, counted, zeros := map[], map[], 0, 0;
    }

    // futex_wait up to going to sleep. The word is read and the waiter queued
    // in one step under the lock. `key` and `cur` carry the failures of
    // make_key and get_user.
    method WaitBegin(t: Tid, key: Result<Key>, bitset: bv32, cur: Option<nat>, val: nat) returns (r: int)
      requires Valid() && t !in waiters
      requires key.Err? ==> key.errno > 0
      modifies this
      ensures Valid() && counted == old(counted) && zeros == old(zeros)
      ensures r == if bitset == 0 then -EINVAL
                   else if key.Err? then -key.errno
                   else if cur.None? then -EFAULT
                   else if cur.value != val then -EAGAIN else 0
      ensures r != 0 ==> waiters == old(waiters) && buckets == old(buckets)
      ensures r == 0 ==>
                && waiters == old(waiters)[t := Waiter(key.value, bitset, false, false)]
                && QueueOf(key.value) == old(QueueOf(key.value)) + [t]
                && forall k :: k != key.value ==> QueueOf(k) == old(QueueOf(k))
    {
      hide TableOk, Queue;
      if bitset == 0 {
        return -EINVAL;
      }
      if key.Err? {
        return -key.errno;
      }
      if cur.None? {
        return -EFAULT;
      }
      if cur.value != val {
        return -EAGAIN;
      }
      var k := key.value;
      var w := Waiter(k, bitset, false, false);
      AddKeeps(buckets, waiters, hash, t, w);
      forall k2 {
        AddQueues(buckets, waiters, hash, t, w, k2);
      }
      assert WokenSet(waiters[t := w]) == WokenSet(waiters);
      buckets := buckets[hash(k) := Bucket(buckets, hash(k)) + [t]];
      waiters := waiters[t := w];
      r := 0;
    }

    // futex_wait after sleeping: 0 exactly if a wake counted this waiter.
    method WaitEnd(t: Tid, timedOut: bool, signal: bool) returns (r: int)
      requires Valid() && t in waiters
      modifies this
      ensures Valid() && counted == old(counted) && waiters == old(waiters) - {t}
      ensures r == 0 <==> old(waiters)[t].woken
      ensures zeros == old(zeros) + (if r == 0 then 1 else 0)
      ensures r != 0 ==> r == if timedOut then -ETIMEDOUT else if signal then -EINTR else -EAGAIN
      ensures old(waiters)[t].woken ==> buckets == old(buckets)
      ensures forall k :: QueueOf(k) == Without(old(QueueOf(k)), t)
    {
      hide TableOk, Queue;
      var w := waiters[t];
      r := if timedOut then -ETIMEDOUT else 0;
      forall k2 {
        RemoveQueues(buckets, waiters, hash, t, k2);
      }
      RemoveKeeps(buckets, waiters, hash, t);
      if w.woken {
        assert WokenSet(waiters - {t}) == WokenSet(waiters) - {t};
        zeros := zeros + 1;
        r := 0;
      } else {
        assert WokenSet(waiters - {t}) == WokenSet(waiters);
        buckets := buckets[hash(w.key) := Without(Bucket(buckets, hash(w.key)), t)];
        if r == 0 && signal {
          r := -EINTR;
        }
        if r == 0 {
          r := -EAGAIN;
        }
      }
      waiters := waiters - {t};
    }

    // The loop of wake_key over a bucket list.
    method WalkList(s0: seq<Tid>, k: Key, n: int, bits: bv32) returns (s: seq<Tid>, r: nat)
      modifies `waiters
      ensures s == Left(old(waiters), s0, k, bits, n)
      ensures r == |Taken(old(waiters), s0, k, bits, n)|
      ensures waiters == WokenAll(old(waiters), Taken(old(waiters), s0, k, bits, n))
    {
      hide Matches, WokenAll, Taken, Left, Walked;
      ghost var ws := waiters;
      ghost var taken: seq<Tid> := [];
      var kept: seq<Tid>, todo := [], s0;  // the list before and after the cursor
      r := 0;
      WalkedStart(ws, s0, k, bits, n);
      WokenNone(ws);
      while todo != [] && r < n
        invariant r == |taken| && Walked(ws, s0, k, bits, n, kept, taken, todo)
        invariant waiters == WokenAll(ws, taken)
        decreases |todo|
      {
        var t := todo[0];
        WalkedStep(ws, s0, k, bits, n, kept, taken, todo);
        WokenMatches(ws, taken, t, k, bits);
        if Matches(waiters, t, k, bits) {
          WokenOne(ws, taken, t, k, bits);
          waiters := waiters[t := waiters[t].(woken := true, running := true)];
          taken := taken + [t];
          r := r + 1;
        } else {
          kept := kept + [t];
        }
        todo := todo[1..];
      }
      WalkedEnd(ws, s0, k, bits, n, kept, taken, todo);
      s := kept + todo;
    }

    // wake_key: the first n matching waiters of k, in arrival order.
    method WakeKey(k: Key, n: int, bits: bv32) returns (r: nat)
      requires Valid()
      modifies this
      ensures Valid() && zeros == old(zeros) && counted == old(counted) + r
      ensures var ts := Taken(old(waiters), old(QueueOf(k)), k, bits, n);
              && r == |ts| && waiters == WokenAll(old(waiters), ts)
              && QueueOf(k) == Left(old(waiters), old(QueueOf(k)), k, bits, n)
      ensures buckets == old(buckets)[hash(k) := Left(old(waiters), old(Bucket(buckets, hash(k))), k, bits, n)]
      ensures forall k2 :: k2 != k ==> QueueOf(k2) == old(QueueOf(k2))
    {
      hide TableOk, Queue, Of, Matches, Taken, Left, WokenAll;
      var h := hash(k);
      WakeKeeps(buckets, waiters, hash, k, bits, n);
      forall k2 {
        WakeQueues(buckets, waiters, hash, k, bits, n, k2);
      }
      CountWoken(buckets, waiters, hash, k, bits, n);
      var s;
      s, r := WalkList(Bucket(buckets, h), k, n, bits);
      buckets := buckets[h := s];
      counted := counted + r;
    }

    // The second loop of futex_requeue: the list of k's bucket, with the entries
    // moved to `other`'s tail, or to its own tail if the keys share a bucket.
    // Entries it moved and meets again carry the new key and are passed over.
    method MoveList(s0: seq<Tid>, other0: seq<Tid>, same: bool, k: Key, k2: Key, n: int)
      returns (s: seq<Tid>, other: seq<Tid>, m: nat)
      requires Unmoved(waiters, s0, []) && (k == k2 ==> same)
      modifies `waiters
      ensures k != k2 ==>
                var ts := Taken(old(waiters), s0, k, 0xffff_ffff, n); var l := Left(old(waiters), s0, k, 0xffff_ffff, n);
                && m == |ts| && waiters == Rekeyed(old(waiters), ts, k2)
                && s == (if same then l + ts else l) && other == (if same then other0 else other0 + ts)
      ensures k == k2 ==> waiters == old(waiters) && (s, m) == Spin(waiters, [], s0, k, n)
    {
      hide Rekeyed, Taken, Left, Matches, Cursor, Shape, Spin;
      ghost var ws := waiters;
      ghost var v := View([], s0, [], [], []);
      var kept: seq<Tid>, todo := [], s0;
      other, m := other0, 0;
      RekeyedNone(ws, k2);
      CursorStart(ws, s0, k, k2, n);
      ShapeStart(s0, same, other0);
      while todo != [] && m < n
        invariant k != k2 ==> m == |v.moved| && waiters == Rekeyed(ws, v.moved, k2)
        invariant k != k2 ==> Cursor(ws, s0, k, n, v) && Shape(v, same, other0, kept, todo, other)
        invariant k == k2 ==> waiters == ws && Spinning(ws, s0, k, n, kept, todo, m)
        decreases if k == k2 then n - m else |v.rest|, if k == k2 then |todo| else |v.pend|
      {
        var t := todo[0];
        // The next entry is picked before this one moves.
        var last := |todo| == 1;
        if k == k2 {
          SpinStep(ws, s0, k, n, kept, todo, m);
          assert last ==> todo == [t];
        } else {
          ShapeHead(v, same, other0, kept, todo, other);
          if v.rest != [] {
            CursorAhead(ws, s0, k, k2, n, v);
          } else {
            RekeyedBehind(ws, s0, k, n, v, k2);
          }
        }
        if waiters[t].key == k {
          if k != k2 {
            RekeyedOne(ws, v.moved, t, k2);
            ShapeMove(v, same, other0, kept, todo, other);
          }
          waiters := waiters[t := waiters[t].(key := k2)];
          todo := todo[1..];
          m := m + 1;
          if k != k2 {
            v := v.(rest := v.rest[1..], moved := v.moved + [t], pend := if same then v.pend + [t] else v.pend);
          }
          if !same {
            other := other + [t];
          } else if !last {
            todo := todo + [t];
          } else {
            if k != k2 {
              assert todo + [t] == [t];
              ShapeHead(v, same, other0, kept, [t], other);
              RekeyedBehind(ws, s0, k, n, v, k2);
              ShapePass(v, same, other0, kept, [t], other);
              v := v.(vis := v.vis + [t], pend := v.pend[1..]);
            }
            kept := kept + [t];
          }
        } else {
          if k != k2 {
            ShapePass(v, same, other0, kept, todo, other);
            v := if v.rest != [] then v.(kept := v.kept + [t], rest := v.rest[1..])
                 else v.(vis := v.vis + [t], pend := v.pend[1..]);
          }
          kept := kept + [t];
          todo := todo[1..];
        }
      }
      s := kept + todo;
      if k != k2 {
        ShapeHead(v, same, other0, kept, todo, other);
        CursorEnd(ws, s0, k, n, v);
        ShapeEnd(v, same, other0, kept, todo, other);
      } else {
        SpinEnd(ws, s0, k, n, kept, todo, m);
      }
    }

    // futex_wake_bitset
    method Wake(key: Result<Key>, n: int, bits: bv32) returns (r: int)
      requires Valid() && (key.Err? ==> key.errno > 0)
      modifies this
      ensures Valid() && zeros == old(zeros)
      ensures bits == 0 ==> r == -EINVAL
      ensures bits != 0 && key.Err? ==> r == -key.errno
      ensures r < 0 ==> buckets == old(buckets) && waiters == old(waiters) && counted == old(counted)
      ensures bits != 0 && key.Ok? ==>
                var ts := Taken(old(waiters), old(QueueOf(key.value)), key.value, bits, n);
                && r == |ts| && counted == old(counted) + r && waiters == WokenAll(old(waiters), ts)
                && QueueOf(key.value) == Left(old(waiters), old(QueueOf(key.value)), key.value, bits, n)
                && WokeFirst(old(waiters), waiters, old(QueueOf(key.value)), bits, n, r)
                && forall k2 :: k2 != key.value ==> QueueOf(k2) == old(QueueOf(k2))
    {
      hide TableOk, Queue, Taken, Left, WokenAll, WokeFirst;
      if bits == 0 {
        return -EINVAL;
      }
      if key.Err? {
        return -key.errno;
      }
      QueueShape(buckets, waiters, hash, key.value);
      WakePlain(waiters, QueueOf(key.value), key.value, bits, n);
      r := WakeKey(key.value, n, bits);
    }

    // Moving up to n waiters of k behind those of k2.
    method MoveKey(k: Key, k2: Key, n: int) returns (m: nat)
      requires Valid()
      modifies `waiters, `buckets
      ensures Valid()
      ensures k != k2 ==>
                var q := old(QueueOf(k));
                && m == Clip(n, |q|) && waiters == Rekeyed(old(waiters), q[..m], k2)
                && QueueOf(k) == q[m..] && QueueOf(k2) == old(QueueOf(k2)) + q[..m]
      ensures k == k2 ==>
                var q := old(QueueOf(k));
                && m == SpinMoves(n, |q|, old(EndsIn(waiters, Bucket(buckets, hash(k)), k)))
                && waiters == old(waiters) && QueueOf(k) == Rotated(q, m)
      ensures forall k3 :: k3 != k && k3 != k2 ==> QueueOf(k3) == old(QueueOf(k3))
    {
      hide TableOk, Queue, Taken, Left, Rekeyed, WokenSet, Spin, Rotated, SpinMoves, EndsIn;
      var h, h2 := hash(k), hash(k2);
      if k == k2 {
        SpunBucket(buckets, waiters, hash, k, n);
      } else {
        MoveKeeps(buckets, waiters, hash, k, k2, n);
        forall k3 {
          MoveQueues(buckets, waiters, hash, k, k2, n, k3);
        }
        RekeyedWoken(waiters, Taken(waiters, Bucket(buckets, h), k, 0xffff_ffff, n), k2);
      }
      ListUnmoved(buckets, waiters, hash, h);
      var s, other;
      s, other, m := MoveList(Bucket(buckets, h), Bucket(buckets, h2), h == h2, k, k2, n);
      buckets := if h == h2 then buckets[h := s] else buckets[h := s][h2 := other];
      assert k != k2 ==> buckets == Moved(old(buckets), old(waiters), hash, k, k2, n);
    }

    // futex_requeue: wake the first, then move the next. Onto its own key it
    // turns the queue instead.
    method Requeue(key: Result<Key>, nwake: int, key2: Result<Key>, nrequeue: int, cmp: bool, cur: Option<nat>,
        cmpval: nat)
      returns (r: int)
      requires Valid() && (key.Err? ==> key.errno > 0) && (key2.Err? ==> key2.errno > 0)
      modifies this
      ensures Valid() && zeros == old(zeros)
      ensures r < 0 <==> key.Err? || key2.Err? || (cmp && cur != Some(cmpval))
      ensures r < 0 ==>
                && buckets == old(buckets) && waiters == old(waiters) && counted == old(counted)
                && r == if key.Err? then -key.errno else if key2.Err? then -key2.errno
                        else if cur.None? then -EFAULT else -EAGAIN
      ensures r >= 0 && key != key2 ==>
                var q := old(QueueOf(key.value));
                var w := Clip(nwake, |q|);
                var m := Clip(nrequeue, |q| - w);
                && r == w + m && counted == old(counted) + w
                && waiters == Rekeyed(WokenAll(old(waiters), q[..w]), q[w..w + m], key2.value)
                && QueueOf(key.value) == q[w + m..]
                && QueueOf(key2.value) == old(QueueOf(key2.value)) + q[w..w + m]
      ensures r >= 0 && key == key2 ==>
                var q := old(QueueOf(key.value));
                var w := Clip(nwake, |q|);
                && r == w + SpinMoves(nrequeue, |q| - w, old(EndsAfterWake(key.value, nwake)))
                && counted == old(counted) + w && waiters == WokenAll(old(waiters), q[..w])
                && QueueOf(key.value) == Rotated(q[w..], r - w)
      ensures r >= 0 ==> forall k3 :: k3 != key.value && k3 != key2.value ==> QueueOf(k3) == old(QueueOf(k3))
    {
      hide TableOk, Queue, Rekeyed, WokenAll, Taken, Left, Rotated, SpinMoves, EndsIn;
      if key.Err? {
        return -key.errno;
      }
      if key2.Err? {
        return -key2.errno;
      }
      if cmp && cur.None? {
        return -EFAULT;
      }
      if cmp && cur.value != cmpval {
        return -EAGAIN;
      }
      WakesFirst(buckets, waiters, hash, key.value, nwake);
      var woken := WakeKey(key.value, nwake, 0xffff_ffff);
      ghost var q := old(QueueOf(key.value));
      assert QueueOf(key.value) == q[woken..];
      WokenEnds(old(waiters), q[..woken], Bucket(buckets, hash(key.value)), key.value);
      var moved := MoveKey(key.value, key2.value, nrequeue);
      if key != key2 {
        assert q[woken..][..moved] == q[woken..woken + moved] && q[woken..][moved..] == q[woken + moved..];
      }
      r := woken + moved;
    }
  }

  function Clip(n: int, len: nat): (r: nat)
    ensures r <= len
  {
    if n <= 0 then 0 else if n >= len then len else n
  }

  lemma WokenEnds(ws: Waiters, ts: seq<Tid>, s: seq<Tid>, k: Key)
    ensures EndsIn(WokenAll(ws, ts), s, k) == EndsIn(ws, s, k)
  {
  }

  lemma RekeyedWoken(ws: Waiters, ts: seq<Tid>, k2: Key)
    ensures WokenSet(Rekeyed(ws, ts, k2)) == WokenSet(ws)
  {
  }

  lemma ListUnmoved(bs: Buckets, ws: Waiters, hash: Key -> nat, h: nat)
    requires TableOk(bs, ws, hash)
    ensures Unmoved(ws, Bucket(bs, h), [])
  {
    assert BucketOk(bs, ws, hash, h);
  }

  // A waiter that has not been woken is on the queue of its key, and a wake that
  // reaches its position wakes it.
  lemma WakeReaches(bs: Buckets, ws: Waiters, hash: Key -> nat, t: Tid, n: int)
    requires TableOk(bs, ws, hash) && t in ws && !ws[t].woken
    ensures var q := Queue(bs, ws, hash, ws[t].key);
            && t in q
            && forall i :: 0 <= i < |q| && q[i] == t && n > i ==>
                 var ws' := WokenAll(ws, Taken(ws, q, ws[t].key, 0xffff_ffff, n));
                 ws'[t].woken && ws'[t].running
  {
    hide Taken, Left;
    var k := ws[t].key;
    var q := Queue(bs, ws, hash, k);
    assert BucketOk(bs, ws, hash, hash(k));
    OfIn(ws, Bucket(bs, hash(k)), k);
    WakesFirst(bs, ws, hash, k, n);
    forall i | 0 <= i < |q| && q[i] == t && n > i
      ensures t in Taken(ws, q, k, 0xffff_ffff, n)
    {
      assert q[..Clip(n, |q|)][i] == t;
    }
  }

  // With the full bitset a wake takes the head of the key's queue.
  lemma WakesFirst(bs: Buckets, ws: Waiters, hash: Key -> nat, k: Key, n: int)
    requires TableOk(bs, ws, hash)
    ensures var q := Queue(bs, ws, hash, k); var m := Clip(n, |q|);
            Taken(ws, q, k, 0xffff_ffff, n) == q[..m] && Left(ws, q, k, 0xffff_ffff, n) == q[m..]
  {
    var s := Bucket(bs, hash(k));
    assert BucketOk(bs, ws, hash, hash(k));
    TakesPrefix(ws, s, k, n);
    hide Of, Left;
    SeesOnlyItsKey(ws, s, k, 0xffff_ffff, n);
    MatchesOnlyItsKey(ws, s, k, 0xffff_ffff);
  }

  // A walk that moves entries to the tail: entries kept, entries not reached
  // yet, entries moved, and of these the ones met again and the ones ahead.
  datatype View = View(kept: seq<Tid>, rest: seq<Tid>, moved: seq<Tid>, vis: seq<Tid>, pend: seq<Tid>)

  ghost predicate Cursor(ws: Waiters, s0: seq<Tid>, k: Key, n: int, v: View) {
    && Unmoved(ws, v.rest, v.moved) && (v.rest != [] ==> v.vis == [])
    && Left(ws, s0, k, 0xffff_ffff, n) == v.kept + Left(ws, v.rest, k, 0xffff_ffff, n - |v.moved|)
    && Taken(ws, s0, k, 0xffff_ffff, n) == v.moved + Taken(ws, v.rest, k, 0xffff_ffff, n - |v.moved|)
  }

  // How the lists in hand spell the view out.
  ghost predicate Shape(v: View, same: bool, other0: seq<Tid>, kept: seq<Tid>, todo: seq<Tid>, other: seq<Tid>) {
    && kept == v.kept + v.vis && (v.rest != [] ==> v.vis == [])
    && if same then todo == v.rest + v.pend && v.moved == v.vis + v.pend && other == other0
       else todo == v.rest && v.vis == v.pend == [] && other == other0 + v.moved
  }

  lemma ShapeStart(s0: seq<Tid>, same: bool, other0: seq<Tid>)
    ensures Shape(View([], s0, [], [], []), same, other0, [], s0, other0)
  {
  }

  lemma ShapeHead(v: View, same: bool, other0: seq<Tid>, kept: seq<Tid>, todo: seq<Tid>, other: seq<Tid>)
    requires Shape(v, same, other0, kept, todo, other)
    ensures todo != [] && v.rest != [] ==> todo[0] == v.rest[0]
    ensures todo != [] && v.rest == [] ==> v.pend != [] && todo[0] == v.pend[0] && v.moved == v.vis + v.pend
    ensures todo == [] ==> v.rest == []
  {
  }

  lemma ShapeMove(v: View, same: bool, other0: seq<Tid>, kept: seq<Tid>, todo: seq<Tid>, other: seq<Tid>)
    requires Shape(v, same, other0, kept, todo, other) && v.rest != []
    ensures var t := v.rest[0];
            todo != [] &&
            if same
            then Shape(v.(rest := v.rest[1..], moved := v.moved + [t], pend := v.pend + [t]), same, other0, kept, todo[1..] + [t], other)
            else Shape(v.(rest := v.rest[1..], moved := v.moved + [t]), same, other0, kept, todo[1..], other + [t])
  {
  }

  lemma ShapePass(v: View, same: bool, other0: seq<Tid>, kept: seq<Tid>, todo: seq<Tid>, other: seq<Tid>)
    requires Shape(v, same, other0, kept, todo, other) && todo != []
    ensures var t := todo[0];
            if v.rest != [] then Shape(v.(kept := v.kept + [t], rest := v.rest[1..]), same, other0, kept + [t], todo[1..], other)
            else v.pend != [] && Shape(v.(vis := v.vis + [t], pend := v.pend[1..]), same, other0, kept + [t], todo[1..], other)
  {
  }

  lemma ShapeEnd(v: View, same: bool, other0: seq<Tid>, kept: seq<Tid>, todo: seq<Tid>, other: seq<Tid>)
    requires Shape(v, same, other0, kept, todo, other)
    ensures kept + todo == if same then v.kept + v.rest + v.moved else v.kept + v.rest
    ensures other == if same then other0 else other0 + v.moved
  {
  }

  lemma CursorStart(ws: Waiters, s0: seq<Tid>, k: Key, k2: Key, n: int)
    requires Unmoved(ws, s0, [])
    ensures Cursor(ws, s0, k, n, View([], s0, [], [], []))
  {
    hide Taken, Left;
  }

  lemma CursorAhead(ws: Waiters, s0: seq<Tid>, k: Key, k2: Key, n: int, v: View)
    requires Cursor(ws, s0, k, n, v) && v.rest != [] && |v.moved| < n
    ensures var t := v.rest[0]; var w := Rekeyed(ws, v.moved, k2);
            && t in ws && t in w && v.vis == []
            && if w[t].key == k
               then Cursor(ws, s0, k, n, v.(rest := v.rest[1..], moved := v.moved + [t]))
                    && Cursor(ws, s0, k, n, v.(rest := v.rest[1..], moved := v.moved + [t], pend := v.pend + [t]))
               else Cursor(ws, s0, k, n, v.(kept := v.kept + [t], rest := v.rest[1..]))
  {
    hide Taken, Rekeyed, Matches, Unmoved;
    TakenStep(ws, v.rest, k, 0xffff_ffff, n - |v.moved|);
    RekeyedAhead(ws, v.rest, v.moved, k, k2);
  }

  lemma RekeyedBehind(ws: Waiters, s0: seq<Tid>, k: Key, n: int, v: View, k2: Key)
    requires Cursor(ws, s0, k, n, v) && v.rest == [] && v.moved == v.vis + v.pend && v.pend != []
    ensures var w := Rekeyed(ws, v.moved, k2); v.pend[0] in w && w[v.pend[0]].key == k2
    ensures Cursor(ws, s0, k, n, v.(vis := v.vis + [v.pend[0]], pend := v.pend[1..]))
  {
    hide Taken, Left;
    assert v.moved[|v.vis|] == v.pend[0];
  }

  lemma CursorEnd(ws: Waiters, s0: seq<Tid>, k: Key, n: int, v: View)
    requires Cursor(ws, s0, k, n, v) && (v.rest == [] || |v.moved| >= n)
    ensures Left(ws, s0, k, 0xffff_ffff, n) == v.kept + v.rest && Taken(ws, s0, k, 0xffff_ffff, n) == v.moved
    ensures v.rest != [] ==> v.vis == []
  {
    TakenNone(ws, v.rest, k, 0xffff_ffff, n - |v.moved|);
  }

  lemma RekeyedNone(ws: Waiters, k2: Key)
    ensures Rekeyed(ws, [], k2) == ws
  {
  }

  // The waiters still ahead of the cursor have not been moved.
  ghost predicate Unmoved(ws: Waiters, rest: seq<Tid>, moved: seq<Tid>) {
    && NoDup(rest)
    && (forall t :: t in rest ==> t in ws && ws[t].bitset != 0)
    && (forall t :: t in moved ==> t in ws && t !in rest)
  }

  lemma RekeyedAhead(ws: Waiters, rest: seq<Tid>, moved: seq<Tid>, k: Key, k2: Key)
    requires Unmoved(ws, rest, moved) && rest != []
    ensures var t := rest[0]; var w := Rekeyed(ws, moved, k2);
            t in ws && t in w && (w[t].key == k <==> Matches(ws, t, k, 0xffff_ffff))
    ensures Unmoved(ws, rest[1..], moved) && Unmoved(ws, rest[1..], moved + [rest[0]])
  {
    var t := rest[0];
    assert rest == [t] + rest[1..];
    assert ws[t].bitset & 0xffff_ffff == ws[t].bitset;
  }

  lemma RekeyedOne(ws: Waiters, ts: seq<Tid>, t: Tid, k2: Key)
    requires t in ws
    ensures t in Rekeyed(ws, ts, k2)
    ensures Rekeyed(ws, ts, k2)[t := Rekeyed(ws, ts, k2)[t].(key := k2)] == Rekeyed(ws, ts + [t], k2)
  {
  }

  lemma TakenNone(ws: Waiters, s: seq<Tid>, k: Key, bits: bv32, n: int)
    requires n <= 0 || s == []
    ensures Taken(ws, s, k, bits, n) == [] && Left(ws, s, k, bits, n) == s
  {
  }

  lemma WokenNone(ws: Waiters)
    ensures WokenAll(ws, []) == ws
  {
  }

  lemma WokenMatches(ws: Waiters, ts: seq<Tid>, t: Tid, k: Key, bits: bv32)
    ensures Matches(WokenAll(ws, ts), t, k, bits) == Matches(ws, t, k, bits)
  {
  }

  lemma WokenOne(ws: Waiters, ts: seq<Tid>, t: Tid, k: Key, bits: bv32)
    requires Matches(WokenAll(ws, ts), t, k, bits)
    ensures var w := WokenAll(ws, ts); t in w && w[t := w[t].(woken := true, running := true)] == WokenAll(ws, ts + [t])
  {
  }

  lemma CountWoken(bs: Buckets, ws: Waiters, hash: Key -> nat, k: Key, bits: bv32, n: int)
    requires TableOk(bs, ws, hash)
    ensures var ts := Taken(ws, Bucket(bs, hash(k)), k, bits, n);
            |WokenSet(WokenAll(ws, ts))| == |WokenSet(ws)| + |ts|
  {
    hide Taken, Left, Of;
    var s := Bucket(bs, hash(k));
    var ts := Taken(ws, s, k, bits, n);
    assert BucketOk(bs, ws, hash, hash(k));
    WalkSplits(ws, s, k, bits, n);
    hide BucketOk, TableOk;
    AddWoken(ws, ts);
  }

  lemma {:induction false} AddWoken(ws: Waiters, ts: seq<Tid>)
    requires NoDup(ts) && forall t :: t in ts ==> t in ws && !ws[t].woken
    ensures |WokenSet(WokenAll(ws, ts))| == |WokenSet(ws)| + |ts|
  {
    if ts == [] {
      WokenNone(ws);
    } else {
      var last, rest := ts[|ts| - 1], ts[..|ts| - 1];
      assert ts == rest + [last];
      AddWoken(ws, rest);
      assert last !in rest;
      assert WokenSet(WokenAll(ws, ts)) == WokenSet(WokenAll(ws, rest)) + {last};
    }
  }

  lemma AddKeeps(bs: Buckets, ws: Waiters, hash: Key -> nat, t: Tid, w: Waiter)
    requires TableOk(bs, ws, hash) && t !in ws && !w.woken && w.bitset != 0
    ensures TableOk(bs[hash(w.key) := Bucket(bs, hash(w.key)) + [t]], ws[t := w], hash)
  {
    var h := hash(w.key);
    assert BucketOk(bs, ws, hash, h);
    PushBack(Bucket(bs, h), t);
    var bs', ws' := bs[h := Bucket(bs, h) + [t]], ws[t := w];
    forall g
      ensures BucketOk(bs', ws', hash, g)
    {
      assert BucketOk(bs, ws, hash, g);
    }
  }

  lemma AddQueues(bs: Buckets, ws: Waiters, hash: Key -> nat, t: Tid, w: Waiter, k: Key)
    requires TableOk(bs, ws, hash) && t !in ws
    ensures Queue(bs[hash(w.key) := Bucket(bs, hash(w.key)) + [t]], ws[t := w], hash, k) ==
            Queue(bs, ws, hash, k) + if k == w.key then [t] else []
  {
    hide Of;
    var s, ws' := Bucket(bs, hash(k)), ws[t := w];
    assert BucketOk(bs, ws, hash, hash(k));
    OfSame(ws, ws', s, k);
    OfAppend(ws', s, [t], k);
    OfAll(ws', [t], k, k == w.key);
  }

  lemma RemoveKeeps(bs: Buckets, ws: Waiters, hash: Key -> nat, t: Tid)
    requires TableOk(bs, ws, hash) && t in ws
    ensures ws[t].woken ==> TableOk(bs, ws - {t}, hash)
    ensures !ws[t].woken ==>
              TableOk(bs[hash(ws[t].key) := Without(Bucket(bs, hash(ws[t].key)), t)], ws - {t}, hash)
  {
    var h := hash(ws[t].key);
    assert BucketOk(bs, ws, hash, h);
    WithoutRemoves(Bucket(bs, h), t);
    var bs' := if ws[t].woken then bs else bs[h := Without(Bucket(bs, h), t)];
    forall g
      ensures BucketOk(bs', ws - {t}, hash, g)
    {
      assert BucketOk(bs, ws, hash, g);
    }
  }

  lemma {:induction false} OfWithout(ws: Waiters, s: seq<Tid>, t: Tid, k: Key)
    requires NoDup(s)
    ensures Of(ws - {t}, Without(s, t), k) == Without(Of(ws, s, k), t)
  {
    if s != [] {
      assert s == [s[0]] + s[1..];
      var q := Of(ws, s[1..], k);
      assert ([s[0]] + q)[1..] == q;
      if s[0] != t {
        OfWithout(ws, s[1..], t, k);
        var l := Without(s[1..], t);
        assert ([s[0]] + l)[1..] == l;
      } else {
        OfSame(ws, ws - {t}, s[1..], k);
        OfIn(ws, s[1..], k);
        WithoutAbsent(q, t);
      }
    }
  }

  lemma {:induction false} OfIn(ws: Waiters, s: seq<Tid>, k: Key)
    ensures forall t :: t in Of(ws, s, k) <==> t in s && t in ws && ws[t].key == k
  {
    if s != [] {
      assert s == [s[0]] + s[1..];
      OfIn(ws, s[1..], k);
    }
  }

  lemma RemoveQueues(bs: Buckets, ws: Waiters, hash: Key -> nat, t: Tid, k: Key)
    requires TableOk(bs, ws, hash) && t in ws
    ensures var bs' := if ws[t].woken then bs else bs[hash(ws[t].key) := Without(Bucket(bs, hash(ws[t].key)), t)];
            Queue(bs', ws - {t}, hash, k) == Without(Queue(bs, ws, hash, k), t)
  {
    hide Of, Without;
    var s := Bucket(bs, hash(k));
    assert BucketOk(bs, ws, hash, hash(k));
    OfWithout(ws, s, t, k);
    if t !in s {
      WithoutAbsent(s, t);
    }
  }
}

// The split virtqueue (drivers/virtio/virtio_mmio.c): one descriptor array that
// threads both the free list and every in-flight chain, and two rings indexed
// by free-running 16-bit counters.
module Virtqueue {
  import opened Common
  import opened CArith
  import opened Counter16
  import opened Lists

  type Token = nat

  datatype Buf = Buf(addr: nat, len: nat, write: bool)

  // VRING_DESC_F_NEXT is `more`, VRING_DESC_F_WRITE is `write`.
  datatype Desc = Desc(addr: nat, len: nat, write: bool, more: bool, next: nat)

  datatype Chain = Chain(idxs: seq<nat>, bufs: seq<Buf>, token: Token)

  // Who holds a descriptor: the free list, or the chain with that head.
  type Owners = seq<Option<nat>>

  ghost predicate Owned(own: Owners, who: Option<nat>, idxs: seq<nat>) {
    NoDup(idxs) && forall i :: i in idxs <==> 0 <= i < |own| && own[i] == who
  }

  // The free list is threaded through `next` from the head on. The link of its
  // last entry is never followed.
  ghost predicate FreeOk(desc: seq<Desc>, own: Owners, freeHead: nat, free: seq<nat>) {
    && |own| == |desc| && Owned(own, None, free)
    && (free != [] ==> freeHead == free[0])
    && (forall k :: 0 <= k < |free| ==> free[k] < |desc|)
    && (forall k :: 0 <= k < |free| - 1 ==> desc[free[k]].next == free[k + 1])
  }

  predicate Shows(d: Desc, b: Buf, more: bool) {
    d.addr == b.addr && d.len == b.len && d.write == b.write && d.more == more
  }

  // What the device finds when it follows the chain from its head.
  ghost predicate ChainOk(desc: seq<Desc>, own: Owners, tokens: seq<Token>, h: nat, ch: Chain) {
    && |own| == |desc| && |ch.idxs| == |ch.bufs| > 0 && ch.idxs[0] == h
    && Owned(own, Some(h), ch.idxs)
    && (forall k :: 0 <= k < |ch.idxs| ==> ch.idxs[k] < |desc|)
    && (forall k :: 0 <= k < |ch.idxs| ==> Shows(desc[ch.idxs[k]], ch.bufs[k], k + 1 < |ch.idxs|))
    && (forall k :: 0 <= k < |ch.idxs| - 1 ==> desc[ch.idxs[k]].next == ch.idxs[k + 1])
    && h < |tokens| && tokens[h] == ch.token
  }

  ghost predicate ChainsOk(desc: seq<Desc>, own: Owners, tokens: seq<Token>, inflight: map<nat, Chain>) {
    && (forall h :: h in inflight ==> ChainOk(desc, own, tokens, h, inflight[h]))
    && (forall i :: 0 <= i < |own| && own[i].Some? ==> own[i].value in inflight)
  }

  // Every descriptor is on the free list or in exactly one chain, not both.
  lemma Partition(desc: seq<Desc>, own: Owners, tokens: seq<Token>, freeHead: nat, free: seq<nat>, inflight: map<nat,
      Chain>, i: nat)
    requires FreeOk(desc, own, freeHead, free) && ChainsOk(desc, own, tokens, inflight) && i < |desc|
    ensures i in free <==> forall h :: h in inflight ==> i !in inflight[h].idxs
    ensures forall g, h :: g in inflight && h in inflight && i in inflight[g].idxs && i in inflight[h].idxs ==> g == h
  {
    forall h | h in inflight
      ensures i in inflight[h].idxs <==> own[i] == Some(h)
    {
      assert ChainOk(desc, own, tokens, h, inflight[h]);
    }
  }

  // ---- taking descriptors ----

  // The first m free descriptors now carry the buffers; links are untouched.
  ghost predicate Filled(desc: seq<Desc>, desc': seq<Desc>, free: seq<nat>, bufs: seq<Buf>, m: nat)
    requires m <= |free| && m <= |bufs|
  {
    && |desc'| == |desc|
    && (forall k :: 0 <= k < m && free[k] < |desc| ==>
          Shows(desc'[free[k]], bufs[k], k + 1 < |bufs|) && desc'[free[k]].next == desc[free[k]].next)
    && (forall i :: 0 <= i < |desc| && i !in free[..m] ==> desc'[i] == desc[i])
  }

  ghost function Hand(own: Owners, idxs: seq<nat>, who: Option<nat>): (r: Owners)
    ensures |r| == |own|
    ensures forall i :: 0 <= i < |own| ==> r[i] == if i in idxs then who else own[i]
  {
    seq(|own|, i requires 0 <= i < |own| => if i in idxs then who else own[i])
  }

  // The free list after the first n entries became a chain.
  lemma FreeAfterAdd(desc: seq<Desc>, desc': seq<Desc>, own: Owners, freeHead: nat, free: seq<nat>, bufs: seq<Buf>)
    requires FreeOk(desc, own, freeHead, free) && 0 < |bufs| <= |free|
    requires Filled(desc, desc', free, bufs, |bufs|)
    ensures var n := |bufs|; var p := free[n - 1];
            FreeOk(desc'[p := desc'[p].(next := 0)], Hand(own, free[..n], Some(free[0])), desc'[p].next, free[n..])
  {
    var n := |bufs|;
    SplitNoDup(free, n);
    var own' := Hand(own, free[..n], Some(free[0]));
    forall k | 0 <= k < |free[n..]| - 1
      ensures free[n..][k] !in free[..n]
    {
      assert free[n..][k] in free[n..];
    }
    if n < |free| {
      assert desc[free[n - 1]].next == free[n];
    }
    forall i
      ensures i in free[n..] <==> 0 <= i < |own'| && own'[i] == None
    {
      assert i in free <==> i in free[..n] || i in free[n..] by { assert free == free[..n] + free[n..]; }
    }
  }

  lemma SplitNoDup(s: seq<nat>, n: nat)
    requires NoDup(s) && n <= |s|
    ensures NoDup(s[..n]) && NoDup(s[n..])
    ensures forall x :: x in s[..n] ==> x !in s[n..]
    ensures forall x :: x in s <==> x in s[..n] || x in s[n..]
  {
    assert s == s[..n] + s[n..];
    forall x | x in s[..n]
      ensures x !in s[n..]
    {
      var a :| 0 <= a < n && s[..n][a] == x;
      assert forall b :: 0 <= b < |s| - n ==> s[n..][b] == s[n + b];
    }
  }

  lemma NewChain(desc: seq<Desc>, desc': seq<Desc>, own: Owners, freeHead: nat, free: seq<nat>, bufs: seq<Buf>,
      tokens: seq<Token>, token: Token)
    requires FreeOk(desc, own, freeHead, free) && 0 < |bufs| <= |free| && |tokens| == |desc|
    requires Filled(desc, desc', free, bufs, |bufs|)
    requires forall i :: 0 <= i < |own| ==> own[i] != Some(free[0])
    ensures var n := |bufs|; var p := free[n - 1]; var h := free[0];
            ChainOk(desc'[p := desc'[p].(next := 0)], Hand(own, free[..n], Some(h)), tokens[h := token], h,
                    Chain(free[..n], bufs, token))
  {
    SplitNoDup(free, |bufs|);
  }

  // A free descriptor heads no chain.
  lemma FreeIsNoHead(desc: seq<Desc>, own: Owners, tokens: seq<Token>, inflight: map<nat, Chain>, f: nat)
    requires ChainsOk(desc, own, tokens, inflight) && f < |own| && own[f] == None
    ensures f !in inflight && forall i :: 0 <= i < |own| ==> own[i] != Some(f)
  {
  }

  // A chain none of whose descriptors is touched.
  lemma ChainStays(desc: seq<Desc>, desc': seq<Desc>, own: Owners, own': Owners, tokens: seq<Token>,
      tokens': seq<Token>, h: nat, ch: Chain)
    requires ChainOk(desc, own, tokens, h, ch)
    requires |desc'| == |desc| && |own'| == |own| && |tokens'| == |tokens| && tokens'[h] == tokens[h]
    requires forall i :: 0 <= i < |own| && own[i] == Some(h) ==> desc'[i] == desc[i]
    requires forall i :: 0 <= i < |own| ==> (own'[i] == Some(h) <==> own[i] == Some(h))
    ensures ChainOk(desc', own', tokens', h, ch)
  {
    forall k | 0 <= k < |ch.idxs|
      ensures desc'[ch.idxs[k]] == desc[ch.idxs[k]]
    {
      assert ch.idxs[k] in ch.idxs;
    }
  }

  // ---- giving them back ----

  ghost predicate Spliced(desc: seq<Desc>, idxs: seq<nat>, freeHead: nat, desc': seq<Desc>)
    requires idxs != []
  {
    var p := idxs[|idxs| - 1];
    p < |desc| && desc' == desc[p := desc[p].(next := freeHead)]
  }

  lemma FreeAfterGet(desc: seq<Desc>, own: Owners, tokens: seq<Token>, freeHead: nat, free: seq<nat>, h: nat,
      ch: Chain, desc': seq<Desc>)
    requires FreeOk(desc, own, freeHead, free) && ChainOk(desc, own, tokens, h, ch)
    requires Spliced(desc, ch.idxs, freeHead, desc')
    ensures FreeOk(desc', Hand(own, ch.idxs, None), h, ch.idxs + free)
  {
    var all, n := ch.idxs + free, |ch.idxs|;
    forall k | 0 <= k < |free|
      ensures free[k] !in ch.idxs
    {
      assert free[k] in free;
    }
    forall i, j | 0 <= i < j < |all|
      ensures all[i] != all[j]
    {
      if i < n <= j {
        assert all[i] in ch.idxs && all[j] == free[j - n];
      }
    }
    forall k | 0 <= k < |all| - 1
      ensures desc'[all[k]].next == all[k + 1]
    {
      if k >= n {
        assert all[k] == free[k - n] && all[k + 1] == free[k - n + 1];
      } else if k < n - 1 {
        assert all[k] != ch.idxs[n - 1];
      }
    }
  }

  // ---- rings ----

  function Slot(c: nat, num: nat): (r: nat)
    requires num > 0
    ensures r < num
  {
    c % num
  }

  // The queue size divides the range of the 16-bit indices, as the powers of
  // two that section 2.6 of VIRTIO 1.1 requires do.
  predicate Divides(num: nat)
    requires num > 0
  {
    U16 % num == 0
  }

  // `entries` are the ring's live entries, the oldest being number `from`.
  ghost predicate RingOk(ring: seq<nat>, from: nat, entries: seq<nat>) {
    && |entries| <= |ring| && |ring| > 0
    && forall k :: 0 <= k < |entries| ==> ring[Slot(from + k, |ring|)] == entries[k]
  }

  lemma RingPush(ring: seq<nat>, from: nat, entries: seq<nat>, x: nat)
    requires RingOk(ring, from, entries) && |entries| < |ring|
    ensures RingOk(ring[Slot(from + |entries|, |ring|) := x], from, entries + [x])
  {
    var slot := Slot(from + |entries|, |ring|);
    var ring' := ring[slot := x];
    forall k | 0 <= k < |entries|
      ensures ring'[Slot(from + k, |ring|)] == entries[k]
    {
      if Slot(from + k, |ring|) == slot {
        SameMod(from + k, from + |entries|, |ring|);
      }
    }
  }

  lemma RingPop(ring: seq<nat>, from: nat, entries: seq<nat>)
    requires RingOk(ring, from, entries) && entries != []
    ensures ring[Slot(from, |ring|)] == entries[0]
    ensures RingOk(ring, from + 1, entries[1..])
  {
    hide Slot;
    assert ring[Slot(from + 0, |ring|)] == entries[0];
    forall k | 0 <= k < |entries[1..]|
      ensures ring[Slot(from + 1 + k, |ring|)] == entries[1..][k]
    {
      assert from + 1 + k == from + (k + 1);
      assert ring[Slot(from + (k + 1), |ring|)] == entries[k + 1];
    }
  }

  // The slot of entry number c, found from the 16-bit index.
  function SlotOfLow(c: nat, num: nat): (r: nat)
    requires num > 0
    ensures r < num
  {
    Slot(Low(c), num)
  }

  // The same ring as the code addresses it.
  ghost predicate RingOkLow(ring: seq<nat>, from: nat, entries: seq<nat>) {
    && |entries| <= |ring| && |ring| > 0
    && forall k :: 0 <= k < |entries| ==> ring[SlotOfLow(from + k, |ring|)] == entries[k]
  }

  // One more entry leaves the live ones alone.
  ghost predicate PushKeeps(ring: seq<nat>, from: nat, entries: seq<nat>, x: nat) {
    RingOkLow(ring, from, entries) && |entries| < |ring| ==>
      RingOkLow(ring[SlotOfLow(from + |entries|, |ring|) := x], from, entries + [x])
  }

  // Two entries less than a ring apart do not share a slot.
  predicate Apart(c: nat, d: nat, num: nat)
    requires num > 0
  {
    c < d < c + num ==> SlotOfLow(c, num) != SlotOfLow(d, num)
  }

  // Where the index wraps around, for a size that does not divide its range:
  // entry number c and the one k later share a slot.
  lemma Clash(num: nat) returns (c: nat, k: nat)
    requires num > 0 && !Divides(num)
    ensures 0 < k < num && SlotOfLow(c, num) == SlotOfLow(c + k, num)
  {
    if num > U16 {
      c, k := 0, U16;
    } else {
      var r, q := U16 % num, U16 / num;
      c, k := U16 - 1, r;
      assert U16 - 1 == num * q + (r - 1);
      DivMod(U16 - 1, num, q, r - 1);
      DivMod(U16 - 1 + r, U16, 1, r - 1);
      DivMod(r - 1, num, 0, r - 1);
    }
  }

  // The slots of live entries stay apart across the wrap-around of the 16-bit
  // index exactly for the queue sizes that divide 65536.
  lemma WrapsCleanly(num: nat)
    requires num > 0
    ensures (forall c: nat, d: nat :: Apart(c, d, num)) <==> Divides(num)
  {
    if Divides(num) {
      forall c: nat, d: nat
        ensures Apart(c, d, num)
      {
        SlotOf(c, num);
        SlotOf(d, num);
        if c < d < c + num && Slot(c, num) == Slot(d, num) {
          SameMod(c, d, num);
        }
      }
    } else {
      var c, k := Clash(num);
      assert !Apart(c, c + k, num);
    }
  }

  // So exactly for these sizes no push ever overwrites a live entry.
  lemma PushesCleanly(num: nat)
    requires num > 0
    ensures (forall ring: seq<nat>, from: nat, entries: seq<nat>, x: nat ::
               |ring| == num ==> PushKeeps(ring, from, entries, x)) <==> Divides(num)
  {
    if Divides(num) {
      forall ring: seq<nat>, from: nat, entries: seq<nat>, x: nat | |ring| == num
        ensures PushKeeps(ring, from, entries, x)
      {
        PushIsClean(ring, from, entries, x);
      }
    } else {
      var c, k := Clash(num);
      var ring, entries := seq(num, _ => 0), seq(k, _ => 0);
      hide SlotOfLow;
      assert !PushKeeps(ring, c, entries, 1) by { PushClobbers(num, c, k); }
    }
  }

  lemma PushIsClean(ring: seq<nat>, from: nat, entries: seq<nat>, x: nat)
    requires |ring| > 0 && Divides(|ring|)
    ensures PushKeeps(ring, from, entries, x)
  {
    hide RingOk, RingOkLow, Slot, SlotOfLow;
    var slot := SlotOfLow(from + |entries|, |ring|);
    if RingOkLow(ring, from, entries) && |entries| < |ring| {
      SameRing(ring, from, entries);
      RingPush(ring, from, entries, x);
      SlotOf(from + |entries|, |ring|);
      assert slot == Slot(from + |entries|, |ring|) by { LowSlot(from + |entries|, |ring|); }
      SameRing(ring[slot := x], from, entries + [x]);
    }
  }

  lemma LowSlot(c: nat, num: nat)
    requires num > 0 && Divides(num)
    ensures SlotOfLow(c, num) == Slot(c, num)
  {
    SlotOf(c, num);
  }

  lemma SameRing(ring: seq<nat>, from: nat, entries: seq<nat>)
    requires |ring| > 0 && Divides(|ring|)
    ensures RingOkLow(ring, from, entries) <==> RingOk(ring, from, entries)
  {
    hide Slot, SlotOfLow, Divides;
    forall k | 0 <= k < |entries|
      ensures ring[SlotOfLow(from + k, |ring|)] == entries[k] <==> ring[Slot(from + k, |ring|)] == entries[k]
    {
      LowSlot(from + k, |ring|);
    }
  }

  lemma PushClobbers(num: nat, c: nat, k: nat)
    requires 0 < k < num && SlotOfLow(c, num) == SlotOfLow(c + k, num)
    ensures var ring: seq<nat> := seq(num, _ => 0); var entries: seq<nat> := seq(k, _ => 0);
            !PushKeeps(ring, c, entries, 1)
  {
    hide SlotOfLow;
    var ring: seq<nat> := seq(num, _ => 0);
    var entries: seq<nat> := seq(k, _ => 0);
    var ring' := ring[SlotOfLow(c + k, num) := 1];
    assert RingOkLow(ring, c, entries);
    assert ring'[SlotOfLow(c + 0, num)] == 1 && (entries + [1])[0] == 0;
    assert !RingOkLow(ring', c, entries + [1]);
  }

  lemma SlotOf(c: nat, num: nat)
    requires num > 0 && Divides(num)
    ensures Slot(Low(c), num) == Slot(c, num)
  {
    var q := c / U16;
    var m := U16 / num;
    assert c == U16 * q + c % U16 && U16 == num * m;
    assert U16 * q == num * (m * q);
    ModAddMultiple(c % U16, num, m * q);
  }

  // Distinct heads below num: at most num of them.
  lemma {:induction false} AtMost(s: seq<nat>, n: nat)
    requires NoDup(s) && forall i :: 0 <= i < |s| ==> s[i] < n
    ensures |s| <= n
    decreases n
  {
    if n > 0 {
      var t := Without<nat>(s, n - 1);
      WithoutRemoves<nat>(s, n - 1);
      forall i | 0 <= i < |t|
        ensures t[i] < n - 1
      {
        assert t[i] in t;
        assert t[i] in s;
      }
      AtMost(t, n - 1);
    }
  }

  // ---- one addition, step by step ----

  lemma StillLinked(desc: seq<Desc>, desc': seq<Desc>, own: Owners, freeHead: nat, free: seq<nat>, bufs: seq<Buf>,
      i: nat)
    requires FreeOk(desc, own, freeHead, free) && i < |bufs| <= |free| && Filled(desc, desc', free, bufs, i)
    ensures free[i] < |desc'| && desc'[free[i]].next == desc[free[i]].next
    ensures i + 1 < |free| ==> desc[free[i]].next == free[i + 1]
  {
    assert free[i] !in free[..i];
  }

  lemma FilledOne(desc: seq<Desc>, desc1: seq<Desc>, desc': seq<Desc>, own: Owners, freeHead: nat, free: seq<nat>,
      bufs: seq<Buf>, i: nat)
    requires FreeOk(desc, own, freeHead, free) && i < |bufs| <= |free| && Filled(desc, desc1, free, bufs, i)
    requires free[i] < |desc1|
    requires desc' == desc1[free[i] := Desc(bufs[i].addr, bufs[i].len, bufs[i].write, i + 1 < |bufs|, desc[free[i]].next)]
    ensures Filled(desc, desc', free, bufs, i + 1)
  {
    assert free[..i + 1] == free[..i] + [free[i]];
    forall k | 0 <= k < i
      ensures free[k] != free[i]
    {
    }
  }

  // The chain is made, the other chains and the rest of the free list stand.
  lemma TakeChain(desc: seq<Desc>, desc': seq<Desc>, own: Owners, tokens: seq<Token>, freeHead: nat, free: seq<nat>,
      inflight: map<nat, Chain>, bufs: seq<Buf>, token: Token)
    requires FreeOk(desc, own, freeHead, free) && ChainsOk(desc, own, tokens, inflight) && |tokens| == |desc|
    requires 0 < |bufs| <= |free| && Filled(desc, desc', free, bufs, |bufs|)
    ensures var n := |bufs|; var p := free[n - 1]; var h := free[0];
            var desc'' := desc'[p := desc'[p].(next := 0)]; var own' := Hand(own, free[..n], Some(h));
            && h !in inflight
            && FreeOk(desc'', own', desc'[p].next, free[n..])
            && ChainsOk(desc'', own', tokens[h := token], inflight[h := Chain(free[..n], bufs, token)])
  {
    var n, h := |bufs|, free[0];
    var p := free[n - 1];
    var desc'', own', tokens' := desc'[p := desc'[p].(next := 0)], Hand(own, free[..n], Some(h)), tokens[h := token];
    assert free[0] in free;
    FreeIsNoHead(desc, own, tokens, inflight, h);
    FreeAfterAdd(desc, desc', own, freeHead, free, bufs);
    NewChain(desc, desc', own, freeHead, free, bufs, tokens, token);
    forall g | g in inflight
      ensures ChainOk(desc'', own', tokens', g, inflight[g])
    {
      assert ChainOk(desc, own, tokens, g, inflight[g]);
      OthersUntouched(desc, desc', own, freeHead, free, bufs, g);
      ChainStays(desc, desc'', own, own', tokens, tokens', g, inflight[g]);
    }
  }

  lemma OthersUntouched(desc: seq<Desc>, desc': seq<Desc>, own: Owners, freeHead: nat, free: seq<nat>,
      bufs: seq<Buf>, g: nat)
    requires FreeOk(desc, own, freeHead, free) && 0 < |bufs| <= |free| && Filled(desc, desc', free, bufs, |bufs|)
    requires g != free[0]
    ensures var n := |bufs|; var p := free[n - 1]; var own' := Hand(own, free[..n], Some(free[0]));
            forall i :: 0 <= i < |own| ==>
              && (own[i] == Some(g) ==> desc'[p := desc'[p].(next := 0)][i] == desc[i])
              && (own'[i] == Some(g) <==> own[i] == Some(g))
  {
    var n := |bufs|;
    forall i | i in free[..n]
      ensures i in free
    {
    }
    assert free[n - 1] in free;
  }

  // ---- lists of heads ----

  // Where an in-flight chain is: in the available ring and unseen, with the
  // device, or in the used ring and not yet collected.
  datatype Stage = Posted | Taken | Returned

  ghost predicate Listed(stage: map<nat, Stage>, st: Stage, heads: seq<nat>) {
    NoDup(heads) && forall h :: h in heads <==> h in stage && stage[h] == st
  }

  lemma ListedMore(stage: map<nat, Stage>, st: Stage, heads: seq<nat>, h: nat, num: nat)
    requires Listed(stage, st, heads) && h < num && (h in stage ==> stage[h] != st)
    requires forall g :: g in stage ==> g < num
    ensures |heads| < num && Listed(stage[h := st], st, heads + [h])
  {
    PushBack(heads, h);
    forall i | 0 <= i < |heads + [h]|
      ensures (heads + [h])[i] < num
    {
      assert (heads + [h])[i] in heads + [h];
    }
    AtMost(heads + [h], num);
  }

  lemma HeadsBelow(desc: seq<Desc>, own: Owners, tokens: seq<Token>, inflight: map<nat, Chain>)
    requires ChainsOk(desc, own, tokens, inflight)
    ensures forall h :: h in inflight ==> h < |tokens|
  {
    assert forall h :: h in inflight ==> ChainOk(desc, own, tokens, h, inflight[h]);
  }

  lemma ListedOther(stage: map<nat, Stage>, st: Stage, heads: seq<nat>, h: nat, st': Stage)
    requires Listed(stage, st, heads) && st' != st && (h in stage ==> stage[h] != st)
    ensures Listed(stage[h := st'], st, heads)
  {
  }

  // ---- tokens over a whole history ----

  datatype Op = Added(head: nat, token: Token) | Collected(head: nat, token: Token)

  // The tokens of the chains in flight after a history.
  ghost function Live(log: seq<Op>): map<nat, Token> {
    if log == [] then map[] else
      var m, e := Live(log[..|log| - 1]), log[|log| - 1];
      if e.Added? then m[e.head := e.token] else m - {e.head}
  }

  // Only a free head is added, and what is collected is what is in flight.
  ghost predicate Paired(log: seq<Op>) {
    log == [] ||
    var m, e := Live(log[..|log| - 1]), log[|log| - 1];
    && Paired(log[..|log| - 1])
    && if e.Added? then e.head !in m else e.head in m && m[e.head] == e.token
  }

  function Count(log: seq<Op>, added: bool, x: Token): nat {
    if log == [] then 0 else
      var e := log[|log| - 1];
      Count(log[..|log| - 1], added, x) + if e.Added? == added && e.token == x then 1 else 0
  }

  ghost function Holding(m: map<nat, Token>, x: Token): set<nat> {
    set h | h in m && m[h] == x
  }

  // Every token comes back exactly as often as it was handed in, less the
  // chains that still carry it.
  lemma {:induction false} TokensConserved(log: seq<Op>, x: Token)
    requires Paired(log)
    ensures Count(log, true, x) == Count(log, false, x) + |Holding(Live(log), x)|
  {
    if log != [] {
      var before, e := log[..|log| - 1], log[|log| - 1];
      TokensConserved(before, x);
      var m := Live(before);
      if e.Added? {
        assert Holding(m[e.head := e.token], x) == if e.token == x then Holding(m, x) + {e.head} else Holding(m, x);
      } else {
        assert Holding(m - {e.head}, x) == Holding(m, x) - {e.head};
      }
    }
  }

  ghost predicate LogOk(log: seq<Op>, inflight: map<nat, Chain>) {
    Paired(log) && Live(log) == map h | h in inflight :: inflight[h].token
  }

  lemma LogAdd(log: seq<Op>, inflight: map<nat, Chain>, h: nat, ch: Chain)
    requires LogOk(log, inflight) && h !in inflight
    ensures LogOk(log + [Added(h, ch.token)], inflight[h := ch])
  {
    assert (log + [Added(h, ch.token)])[..|log|] == log;
  }

  lemma LogCollect(log: seq<Op>, inflight: map<nat, Chain>, h: nat)
    requires LogOk(log, inflight) && h in inflight
    ensures LogOk(log + [Collected(h, inflight[h].token)], inflight - {h})
  {
    assert (log + [Collected(h, inflight[h].token)])[..|log|] == log;
  }

  // Every chain in flight is at one stage, and the log accounts for it.
  ghost predicate StagesOk(log: seq<Op>, inflight: map<nat, Chain>, stage: map<nat, Stage>, posted: seq<nat>,
      returned: seq<nat>) {
    LogOk(log, inflight) && stage.Keys == inflight.Keys && Listed(stage, Posted, posted) && Listed(stage, Returned, returned)
  }

  lemma StagesAdd(log: seq<Op>, inflight: map<nat, Chain>, stage: map<nat, Stage>, posted: seq<nat>,
      returned: seq<nat>, h: nat, ch: Chain, num: nat)
    requires StagesOk(log, inflight, stage, posted, returned) && h !in inflight && h < num
    requires forall g :: g in inflight ==> g < num
    ensures |posted| < num
    ensures StagesOk(log + [Added(h, ch.token)], inflight[h := ch], stage[h := Posted], posted + [h], returned)
  {
    hide LogOk, Listed;
    LogAdd(log, inflight, h, ch);
    ListedMore(stage, Posted, posted, h, num);
    ListedOther(stage, Returned, returned, h, Posted);
  }

  lemma StagesFetch(log: seq<Op>, inflight: map<nat, Chain>, stage: map<nat, Stage>, posted: seq<nat>,
      returned: seq<nat>)
    requires StagesOk(log, inflight, stage, posted, returned) && posted != []
    ensures StagesOk(log, inflight, stage[posted[0] := Taken], posted[1..], returned)
  {
    hide LogOk, Listed;
    ListedLess(stage, Posted, posted, Taken);
    ListedMember(stage, Posted, posted);
    ListedOther(stage, Returned, returned, posted[0], Taken);
  }

  lemma StagesComplete(log: seq<Op>, inflight: map<nat, Chain>, stage: map<nat, Stage>, posted: seq<nat>,
      returned: seq<nat>, h: nat, num: nat)
    requires StagesOk(log, inflight, stage, posted, returned) && h in stage && stage[h] == Taken
    requires forall g :: g in inflight ==> g < num
    ensures |returned| < num
    ensures StagesOk(log, inflight, stage[h := Returned], posted, returned + [h])
  {
    hide LogOk, Listed;
    ListedMore(stage, Returned, returned, h, num);
    ListedOther(stage, Posted, posted, h, Returned);
  }

  lemma StagesCollect(log: seq<Op>, inflight: map<nat, Chain>, stage: map<nat, Stage>, posted: seq<nat>,
      returned: seq<nat>)
    requires StagesOk(log, inflight, stage, posted, returned) && returned != []
    ensures var h := returned[0];
            && h in inflight
            && StagesOk(log + [Collected(h, inflight[h].token)], inflight - {h}, stage - {h}, posted, returned[1..])
  {
    hide LogOk, Listed;
    var h := returned[0];
    ListedMember(stage, Returned, returned);
    LogCollect(log, inflight, h);
    ListedGone(stage, Returned, returned);
    ListedGoneOther(stage, Posted, posted, h);
  }

  // ---- the queue ----

  class Vq {
    const num: nat
    var desc: seq<Desc>
    var tokens: seq<Token>
    var freeHead: nat
    var numFree: nat
    var lastUsed: nat
    // shared with the device
    var availIdx: nat
    var availRing: seq<nat>
    var usedIdx: nat
    var usedIds: seq<nat>
    var usedLens: seq<nat>
    var devAvail: nat  // the device's own position in the available ring

    ghost var own: Owners
    ghost var free: seq<nat>
    ghost var inflight: map<nat, Chain>
    ghost var stage: map<nat, Stage>
    ghost var posted: seq<nat>
    ghost var returned: seq<nat>
    ghost var lens: seq<nat>
    ghost var fetched: nat
    ghost var got: nat
    ghost var log: seq<Op>

    ghost predicate DescOk()
      reads `desc, `tokens, `freeHead, `numFree, `own, `free, `inflight
    {
      && |desc| == num && |tokens| == num
      && FreeOk(desc, own, freeHead, free) && ChainsOk(desc, own, tokens, inflight) && numFree == |free|
    }

    ghost predicate AvailOk()
      reads `availRing, `availIdx, `devAvail, `posted, `fetched
    {
      && |availRing| == num && RingOk(availRing, fetched, posted)
      && devAvail == Low(fetched) && availIdx == Low(fetched + |posted|)
    }

    ghost predicate UsedOk()
      reads `usedIds, `usedLens, `usedIdx, `lastUsed, `returned, `lens, `got
    {
      && |usedIds| == |usedLens| == num && |lens| == |returned|
      && RingOk(usedIds, got, returned) && RingOk(usedLens, got, lens)
      && lastUsed == Low(got) && usedIdx == Low(got + |returned|)
    }

    ghost predicate HeadsOk()
      reads `stage, `inflight, `posted, `returned, `log
    {
      StagesOk(log, inflight, stage, posted, returned)
    }

    ghost predicate Valid()
      reads this
    {
      0 < num < U16 && Divides(num) && DescOk() && AvailOk() && UsedOk() && HeadsOk()
    }

    // virtio_setup_vq: all descriptors linked into the free list.
    constructor (n: nat)
      requires 0 < n
      ensures n < U16 && Divides(n) ==> Valid()
      ensures num == n && DescOk() && HeadsOk() && inflight == map[] && |free| == n && log == []
    {
      num := n;
      desc := seq(n, i requires 0 <= i => Desc(0, 0, false, false, i + 1));
      tokens := seq(n, _ => 0);
      freeHead, numFree, lastUsed := 0, n, 0;
      availIdx, usedIdx, devAvail := 0, 0, 0;
      availRing, usedIds, usedLens := seq(n, _ => 0), seq(n, _ => 0), seq(n, _ => 0);
      own, free := seq(n, _ => None), seq(n, i requires 0 <= i => i);
      inflight, stage, posted, returned, lens, fetched, got, log := map[], map[], [], [], [], 0, 0, [];
      new;
      AllFree(own, free);
    }

    // The loop of virtqueue_add: walk the free list, writing buffers.
    method WriteChain(bufs: seq<Buf>) returns (last: nat)
      requires |desc| == num && FreeOk(desc, own, freeHead, free) && 0 < |bufs| <= |free|
      modifies `desc
      ensures Filled(old(desc), desc, free, bufs, |bufs|) && last == free[|bufs| - 1]
      ensures |desc| == num && last < num
    {
      hide Owned, Shows;
      var idx: nat := freeHead;
      last := 0;
      for i := 0 to |bufs|
        invariant Filled(old(desc), desc, free, bufs, i)
        invariant i < |free| ==> idx == free[i]
        invariant i > 0 ==> last == free[i - 1]
      {
        StillLinked(old(desc), desc, own, freeHead, free, bufs, i);
        FilledOne(old(desc), desc, desc[idx := Desc(bufs[i].addr, bufs[i].len, bufs[i].write, i + 1 < |bufs|, desc[idx].next)],
                  own, freeHead, free, bufs, i);
        desc := desc[idx := Desc(bufs[i].addr, bufs[i].len, bufs[i].write, i + 1 < |bufs|, desc[idx].next)];
        last := idx;
        idx := desc[idx].next;
      }
    }

    // Publishing a head in the available ring.
    method Post(head: nat)
      requires 0 < num < U16 && Divides(num) && AvailOk() && |posted| < num
      modifies `availRing, `availIdx, `posted
      ensures AvailOk() && posted == old(posted) + [head]
      ensures |old(availRing)| == num && availRing == old(availRing)[old(availIdx) % num := head]
      ensures availIdx == (old(availIdx) + 1) % 65536
    {
      assert Slot(availIdx, num) == availIdx % num && Low(availIdx + 1) == (availIdx + 1) % 65536;
      hide RingOk, Slot, Low, Divides;
      SlotOf(fetched + |posted|, num);
      RingPush(availRing, fetched, posted, head);
      LowNext(fetched + |posted|);
      availRing := availRing[Slot(availIdx, num) := head];
      availIdx := Low(availIdx + 1);
      posted := posted + [head];
    }

    // The device's side of the available ring.
    method PopAvail() returns (h: Option<nat>)
      requires 0 < num < U16 && Divides(num) && AvailOk()
      modifies `devAvail, `posted, `fetched
      ensures AvailOk()
      ensures h == if old(posted) == [] then None else Some(old(posted)[0])
      ensures posted == if old(posted) == [] then [] else old(posted)[1..]
    {
      hide RingOk, Slot, Low, Divides;
      RingBound(availRing, fetched, posted);
      LowSame(fetched, fetched + |posted|);
      if devAvail == availIdx {
        return None;
      }
      SlotOf(fetched, num);
      RingPop(availRing, fetched, posted);
      LowNext(fetched);
      h := Some(availRing[Slot(devAvail, num)]);
      devAvail := Low(devAvail + 1);
      posted := posted[1..];
      fetched := fetched + 1;
    }

    method PushUsed(h: nat, len: nat)
      requires 0 < num < U16 && Divides(num) && UsedOk() && |returned| < num
      modifies `usedIdx, `usedIds, `usedLens, `returned, `lens
      ensures UsedOk() && returned == old(returned) + [h] && lens == old(lens) + [len]
    {
      hide RingOk, Slot, Low, Divides;
      SlotOf(got + |returned|, num);
      RingPush(usedIds, got, returned, h);
      RingPush(usedLens, got, lens, len);
      LowNext(got + |returned|);
      usedIds := usedIds[Slot(usedIdx, num) := h];
      usedLens := usedLens[Slot(usedIdx, num) := len];
      usedIdx := Low(usedIdx + 1);
      returned := returned + [h];
      lens := lens + [len];
    }

    // The driver's side of the used ring.
    method PopUsed() returns (r: Option<(nat, nat)>)
      requires 0 < num < U16 && Divides(num) && UsedOk()
      modifies `lastUsed, `returned, `lens, `got
      ensures UsedOk()
      ensures r == if old(returned) == [] then None else Some((old(returned)[0], old(lens)[0]))
      ensures old(returned) == [] ==> returned == [] && lens == old(lens)
      ensures old(returned) != [] ==> returned == old(returned)[1..] && lens == old(lens)[1..]
      ensures r.None? <==> old(lastUsed) == usedIdx
      ensures r.Some? ==>
                && |usedIds| == |usedLens| == num && lastUsed == (old(lastUsed) + 1) % 65536
                && r.value == (usedIds[old(lastUsed) % num], usedLens[old(lastUsed) % num])
    {
      assert Slot(lastUsed, num) == lastUsed % num && Low(lastUsed + 1) == (lastUsed + 1) % 65536;
      hide RingOk, Slot, Low, Divides;
      RingBound(usedIds, got, returned);
      LowSame(got, got + |returned|);
      if lastUsed == usedIdx {
        return None;
      }
      SlotOf(got, num);
      RingPop(usedIds, got, returned);
      RingPop(usedLens, got, lens);
      LowNext(got);
      r := Some((usedIds[Slot(lastUsed, num)], usedLens[Slot(lastUsed, num)]));
      lastUsed := Low(lastUsed + 1);
      returned, lens, got := returned[1..], lens[1..], got + 1;
    }

    // Turning the first descriptors of the free list into a chain.
    method MakeChain(bufs: seq<Buf>, token: Token) returns (head: nat)
      requires DescOk() && 0 < |bufs| <= |free|
      modifies `desc, `tokens, `freeHead, `numFree, `own, `inflight, `free
      ensures DescOk() && head == old(free)[0] && head < num && head !in old(inflight)
      ensures inflight == old(inflight)[head := Chain(old(free)[..|bufs|], bufs, token)]
      ensures free == old(free)[|bufs|..]
    {
      hide Owned, ChainsOk, Filled, Hand;
      head := freeHead;
      var last := WriteChain(bufs);
      TakeChain(old(desc), desc, own, tokens, freeHead, free, inflight, bufs, token);
      hide FreeOk;
      freeHead := desc[last].next;
      desc := desc[last := desc[last].(next := 0)];
      numFree := numFree - |bufs|;
      tokens := tokens[head := token];
      own, inflight, free :=
        Hand(own, free[..|bufs|], Some(head)), inflight[head := Chain(free[..|bufs|], bufs, token)], free[|bufs|..];
    }

    // virtqueue_add
    method Add(bufs: seq<Buf>, token: Token) returns (r: int)
      requires Valid()
      modifies this
      ensures Valid()
      ensures r == if |bufs| == 0 || |bufs| > old(|free|) then -ENOSPC else 0
      ensures r != 0 ==> inflight == old(inflight) && free == old(free) && posted == old(posted) && log == old(log)
      ensures r == 0 ==>
                && log == old(log) + [Added(old(free)[0], token)]
                && old(free)[0] !in old(inflight)
                && inflight == old(inflight)[old(free)[0] := Chain(old(free)[..|bufs|], bufs, token)]
                && free == old(free)[|bufs|..] && posted == old(posted) + [old(free)[0]]
                && |old(availRing)| == num && availRing == old(availRing)[old(availIdx) % num := old(free)[0]]
                && availIdx == (old(availIdx) + 1) % 65536
      ensures returned == old(returned) && lens == old(lens)
    {
      hide FreeOk, ChainsOk, AvailOk, UsedOk, Divides, StagesOk;
      if numFree < |bufs| || |bufs| == 0 {
        return -ENOSPC;
      }
      HeadsBelow(desc, own, tokens, inflight);
      var head := MakeChain(bufs, token);
      hide DescOk;
      StagesAdd(log, old(inflight), stage, posted, returned, head, inflight[head], num);
      log, stage := log + [Added(head, token)], stage[head := Posted];
      Post(head);
      r := 0;
    }

    // The device reads the next head: the oldest one it has not seen.
    method DeviceFetch() returns (h: Option<nat>)
      requires Valid()
      modifies `devAvail, `posted, `fetched, `stage
      ensures Valid()
      ensures h == if old(posted) == [] then None else Some(old(posted)[0])
      ensures posted == if old(posted) == [] then [] else old(posted)[1..]
      ensures stage == if old(posted) == [] then old(stage) else old(stage)[old(posted)[0] := Taken]
    {
      hide DescOk, AvailOk, UsedOk, Divides, StagesOk;
      h := PopAvail();
      if h.Some? {
        StagesFetch(log, inflight, stage, old(posted), returned);
        stage := stage[h.value := Taken];
      }
    }

    // The device completes any chain it holds, in any order.
    method DeviceComplete(h: nat, len: nat)
      requires Valid() && h in stage && stage[h] == Taken
      modifies `usedIdx, `usedIds, `usedLens, `stage, `returned, `lens
      ensures Valid()
      ensures stage == old(stage)[h := Returned] && returned == old(returned) + [h] && lens == old(lens) + [len]
    {
      hide AvailOk, UsedOk, Divides, FreeOk, ChainsOk, StagesOk;
      HeadsBelow(desc, own, tokens, inflight);
      hide DescOk;
      StagesComplete(log, inflight, stage, posted, returned, h, num);
      PushUsed(h, len);
      stage := stage[h := Returned];
    }

    // Linking a finished chain back in front of the free list.
    method FreeChain(h: nat)
      requires DescOk() && h in inflight
      modifies `desc, `freeHead, `numFree, `own, `inflight, `free
      ensures DescOk() && inflight == old(inflight) - {h} && free == old(inflight)[h].idxs + old(free)
    {
      hide Owned, ChainsOk, FreeOk, Hand, Spliced;
      ghost var ch := inflight[h];
      ChainAt(desc, own, tokens, inflight, h);
      var i, cnt := h, 1;
      while desc[i].more
        invariant 1 <= cnt <= |ch.idxs| && i == ch.idxs[cnt - 1]
        decreases |ch.idxs| - cnt
      {
        i := desc[i].next;
        cnt := cnt + 1;
      }
      GiveBack(desc, own, tokens, freeHead, free, inflight, h, desc[i := desc[i].(next := freeHead)]);
      desc := desc[i := desc[i].(next := freeHead)];
      freeHead := h;
      numFree := numFree + cnt;
      own, free, inflight := Hand(own, ch.idxs, None), ch.idxs + free, inflight - {h};
    }

    // virtqueue_get: the oldest completion, its token and its length.
    method Get() returns (r: Option<(Token, nat)>)
      requires Valid()
      modifies this
      ensures Valid()
      ensures r.None? <==> old(returned) == []
      ensures r.None? ==> inflight == old(inflight) && free == old(free) && returned == [] && lens == old(lens)
      ensures r.None? ==> log == old(log)
      ensures r.Some? ==> log == old(log) + [Collected(old(returned)[0], r.value.0)]
      ensures r.Some? ==>
                var h := old(returned)[0];
                && h in old(inflight) && r.value == (old(inflight)[h].token, old(lens)[0])
                && inflight == old(inflight) - {h} && free == old(inflight)[h].idxs + old(free)
                && returned == old(returned)[1..] && lens == old(lens)[1..]
      ensures r.None? <==> old(lastUsed) == old(usedIdx)
      ensures r.Some? ==>
                && |usedIds| == |usedLens| == num && lastUsed == (old(lastUsed) + 1) % 65536
                && usedIds[old(lastUsed) % num] == old(returned)[0] && usedLens[old(lastUsed) % num] == r.value.1
      ensures posted == old(posted)
    {
      hide AvailOk, UsedOk, Divides, FreeOk, ChainsOk, StagesOk;
      var e := PopUsed();
      if e.None? {
        return None;
      }
      var id := e.value.0;
      StagesCollect(log, inflight, stage, posted, old(returned));
      ChainAt(desc, own, tokens, inflight, id);
      var token := tokens[id];
      FreeChain(id);
      hide DescOk;
      log, stage := log + [Collected(id, token)], stage - {id};
      r := Some((token, e.value.1));
    }
  }

  lemma ChainAt(desc: seq<Desc>, own: Owners, tokens: seq<Token>, inflight: map<nat, Chain>, h: nat)
    requires ChainsOk(desc, own, tokens, inflight) && h in inflight
    ensures var ch := inflight[h];
            && |ch.idxs| > 0 && ch.idxs[0] == h && h < |tokens| && tokens[h] == ch.token
            && (forall k :: 0 <= k < |ch.idxs| ==>
                  ch.idxs[k] < |desc| && (desc[ch.idxs[k]].more <==> k + 1 < |ch.idxs|)
                  && (k + 1 < |ch.idxs| ==> desc[ch.idxs[k]].next == ch.idxs[k + 1]))
  {
    assert ChainOk(desc, own, tokens, h, inflight[h]);
  }

  // Everything but the chain given back stands.
  lemma GiveBack(desc: seq<Desc>, own: Owners, tokens: seq<Token>, freeHead: nat, free: seq<nat>, inflight: map<nat,
      Chain>, h: nat, desc': seq<Desc>)
    requires FreeOk(desc, own, freeHead, free) && ChainsOk(desc, own, tokens, inflight) && |tokens| == |desc|
    requires h in inflight && inflight[h].idxs != [] && Spliced(desc, inflight[h].idxs, freeHead, desc')
    ensures FreeOk(desc', Hand(own, inflight[h].idxs, None), h, inflight[h].idxs + free)
    ensures ChainsOk(desc', Hand(own, inflight[h].idxs, None), tokens, inflight - {h})
  {
    var ch := inflight[h];
    var own' := Hand(own, ch.idxs, None);
    assert ChainOk(desc, own, tokens, h, ch);
    FreeAfterGet(desc, own, tokens, freeHead, free, h, ch, desc');
    assert ch.idxs[|ch.idxs| - 1] in ch.idxs;
    forall g | g in inflight - {h}
      ensures ChainOk(desc', own', tokens, g, inflight[g])
    {
      assert ChainOk(desc, own, tokens, g, inflight[g]);
      ChainStays(desc, desc', own, own', tokens, tokens, g, inflight[g]);
    }
  }

  lemma RingBound(ring: seq<nat>, from: nat, entries: seq<nat>)
    requires RingOk(ring, from, entries)
    ensures |entries| <= |ring|
  {
  }

  lemma ListedMember(stage: map<nat, Stage>, st: Stage, heads: seq<nat>)
    requires Listed(stage, st, heads) && heads != []
    ensures heads[0] in stage && stage[heads[0]] == st
  {
    assert heads[0] in heads;
  }

  lemma ListedLess(stage: map<nat, Stage>, st: Stage, heads: seq<nat>, st': Stage)
    requires Listed(stage, st, heads) && heads != [] && st' != st
    ensures Listed(stage[heads[0] := st'], st, heads[1..])
  {
    assert heads == [heads[0]] + heads[1..];
  }

  lemma ListedGone(stage: map<nat, Stage>, st: Stage, heads: seq<nat>)
    requires Listed(stage, st, heads) && heads != []
    ensures Listed(stage - {heads[0]}, st, heads[1..])
  {
    assert heads == [heads[0]] + heads[1..];
  }

  lemma ListedGoneOther(stage: map<nat, Stage>, st: Stage, heads: seq<nat>, h: nat)
    requires Listed(stage, st, heads) && h in stage && stage[h] != st
    ensures Listed(stage - {h}, st, heads)
  {
  }

  lemma AllFree(own: Owners, free: seq<nat>)
    requires |own| == |free|
    requires forall i :: 0 <= i < |own| ==> own[i] == None && free[i] == i
    ensures Owned(own, None, free)
  {
    forall i | 0 <= i < |own|
      ensures i in free
    {
      assert free[i] == i;
    }
  }
}

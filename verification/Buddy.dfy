// The binary buddy allocator (mm/page_alloc.c).
//
// A block of order o is a run of 2^o page frames whose first frame number is a
// multiple of 2^o. `Idx(x, o)` numbers the order-o block a frame lies in, so
// that block i of order o has the children 2 i and 2 i + 1 one order below.
module Buddy {
  import opened Common
  import opened CArith

  const MAX_ORDER := 11

  function Pow2(o: nat): (n: nat)
    ensures n > 0
  {
    if o == 0 then 1 else 2 * Pow2(o - 1)
  }

  function Idx(x: nat, o: nat): nat {
    if o == 0 then x else Idx(x, o - 1) / 2
  }

  // First frame of block i of order o.
  function First(i: nat, o: nat): nat
    decreases o
  {
    if o == 0 then i else First(2 * i, o - 1)
  }

  predicate Aligned(p: nat, o: nat) {
    First(Idx(p, o), o) == p
  }

  lemma {:induction false} FirstNext(i: nat, o: nat)
    ensures First(i + 1, o) == First(i, o) + Pow2(o)
    decreases o
  {
    if o > 0 {
      FirstNext(2 * i, o - 1);
      FirstNext(2 * i + 1, o - 1);
    }
  }

  lemma {:induction false} SpanOfBlock(i: nat, o: nat, x: nat)
    ensures First(i, o) <= x < First(i + 1, o) <==> Idx(x, o) == i
    decreases o
  {
    if o > 0 {
      SpanOfBlock(2 * i, o - 1, x);
      SpanOfBlock(2 * i + 1, o - 1, x);
      FirstNext(2 * i, o - 1);
      FirstNext(2 * i + 1, o - 1);
    }
  }

  lemma FirstIsAligned(i: nat, o: nat)
    ensures Idx(First(i, o), o) == i && Aligned(First(i, o), o)
  {
    FirstNext(i, o);
    SpanOfBlock(i, o, First(i, o));
  }

  // Blocks in plain arithmetic.
  lemma {:induction false} FirstIsMultiple(i: nat, o: nat)
    ensures First(i, o) == i * Pow2(o)
    decreases o
  {
    if o > 0 {
      FirstIsMultiple(2 * i, o - 1);
      assert (2 * i) * Pow2(o - 1) == i * (2 * Pow2(o - 1));
    }
  }

  lemma AlignedIsMultiple(p: nat, o: nat)
    requires Aligned(p, o)
    ensures p % Pow2(o) == 0
    ensures forall x: nat :: Idx(x, o) == Idx(p, o) <==> p <= x < p + Pow2(o)
  {
    var i := Idx(p, o);
    FirstIsMultiple(i, o);
    FirstNext(i, o);
    DivMod(p, Pow2(o), i, 0);
    hide Idx;
    forall x: nat
      ensures Idx(x, o) == Idx(p, o) <==> p <= x < p + Pow2(o)
    {
      SpanOfBlock(i, o, x);
    }
  }

  // Frames of one block share every larger block.
  lemma {:induction false} SameAbove(x: nat, y: nat, o: nat, k: nat)
    requires Idx(x, o) == Idx(y, o) && o <= k
    ensures Idx(x, k) == Idx(y, k)
    decreases k
  {
    if o < k {
      SameAbove(x, y, o, k - 1);
    }
  }

  lemma AlignedSame(p: nat, q: nat, o: nat)
    requires Aligned(p, o) && Aligned(q, o) && Idx(p, o) == Idx(q, o)
    ensures p == q
  {
  }

  // pfn ^ (1 << order)
  function BuddyOf(p: nat, o: nat): nat
    requires Idx(p, o) % 2 == 1 ==> p >= Pow2(o)
  {
    if Idx(p, o) % 2 == 0 then p + Pow2(o) else p - Pow2(o)
  }

  // pfn & ~(1 << order)
  function ClearBit(p: nat, o: nat): nat
    requires Idx(p, o) % 2 == 1 ==> p >= Pow2(o)
  {
    if Idx(p, o) % 2 == 0 then p else p - Pow2(o)
  }

  // ---- bits ----

  predicate Bit(x: nat, i: nat) {
    Idx(x, i) % 2 == 1
  }

  lemma {:induction false} IdxOfHalf(x: nat, o: nat)
    requires o > 0
    ensures Idx(x, o) == Idx(x / 2, o - 1)
  {
    if o > 1 {
      IdxOfHalf(x, o - 1);
    }
  }

  lemma {:induction false} BitIsInside(x: nat, o: nat)
    ensures Bit(x, o) ==> x >= Pow2(o)
    decreases o
  {
    if o > 0 {
      IdxOfHalf(x, o);
      BitIsInside(x / 2, o - 1);
    }
  }

  // The arithmetic flips exactly bit o, as ^ does, or clears exactly it.
  lemma {:induction false} FlipsOneBit(p: nat, o: nat, i: nat)
    ensures Bit(p, o) ==> p >= Pow2(o)
    ensures Bit(BuddyOf(p, o), i) == (if i == o then !Bit(p, i) else Bit(p, i))
    ensures Bit(ClearBit(p, o), i) == (i != o && Bit(p, i))
    decreases o
  {
    BitIsInside(p, o);
    var b, c := BuddyOf(p, o), ClearBit(p, o);
    if o == 0 {
      if i > 0 {
        IdxOfHalf(p, i);
        IdxOfHalf(b, i);
        IdxOfHalf(c, i);
      }
    } else {
      IdxOfHalf(p, o);
      var j := if i > 0 then i - 1 else 0;
      FlipsOneBit(p / 2, o - 1, j);
      assert b / 2 == BuddyOf(p / 2, o - 1) && b % 2 == p % 2;
      assert c / 2 == ClearBit(p / 2, o - 1) && c % 2 == p % 2;
      if i > 0 {
        IdxOfHalf(p, i);
        IdxOfHalf(b, i);
        IdxOfHalf(c, i);
      }
    }
  }

  // The bits determine the number, so these are the values of ^ and & ~.
  lemma {:induction false} SameBits(x: nat, y: nat)
    requires forall i: nat :: Bit(x, i) == Bit(y, i)
    ensures x == y
    decreases x + y
  {
    assert Bit(x, 0) == Bit(y, 0);
    if x > 0 || y > 0 {
      forall i: nat
        ensures Bit(x / 2, i) == Bit(y / 2, i)
      {
        IdxOfHalf(x, i + 1);
        IdxOfHalf(y, i + 1);
        assert Bit(x, i + 1) == Bit(y, i + 1);
      }
      SameBits(x / 2, y / 2);
    }
  }

  // The buddy is the other child of the block one order up.
  lemma BuddyIsSibling(p: nat, o: nat)
    requires Aligned(p, o)
    ensures Idx(p, o) % 2 == 1 ==> p >= Pow2(o)
    ensures var b := BuddyOf(p, o);
            && Aligned(b, o)
            && Idx(b, o) == (if Idx(p, o) % 2 == 0 then Idx(p, o) + 1 else Idx(p, o) - 1)
            && BuddyOf(b, o) == p
    ensures Aligned(ClearBit(p, o), o + 1) && Idx(ClearBit(p, o), o + 1) == Idx(p, o) / 2
  {
    var i := Idx(p, o);
    if i % 2 == 0 {
      FirstNext(i, o);
      FirstIsAligned(i + 1, o);
    } else {
      FirstNext(i - 1, o);
      FirstIsAligned(i - 1, o);
    }
    FirstIsAligned(i / 2, o + 1);
    assert First(i / 2, o + 1) == First(2 * (i / 2), o);
  }

  // ---- zones ----

  const ZONE_DMA32_START := 0x4_0000
  const ZONE_NORMAL_START := 0x10_0000
  const NR_ZONES := 3

  // pfn_zone
  function ZoneOf(p: nat): nat {
    if p >= ZONE_NORMAL_START then 2 else if p >= ZONE_DMA32_START then 1 else 0
  }

  // Zone boundaries are multiples of the largest block.
  lemma ZoneOfBlock(x: nat, y: nat, o: nat)
    requires Idx(x, o) == Idx(y, o) && o < MAX_ORDER
    ensures ZoneOf(x) == ZoneOf(y)
  {
    hide Idx;
    SameAbove(x, y, o, 10);
    Idx10(x);
    Idx10(y);
  }

  // The zones in frame numbers: below 1 GiB, below 4 GiB, and above.
  lemma ZoneFrames(p: nat, o: nat)
    requires Aligned(p, o) && o < MAX_ORDER
    ensures ZoneOf(p) == 0 ==> p + Pow2(o) <= 0x4_0000
    ensures ZoneOf(p) == 1 ==> 0x4_0000 <= p && p + Pow2(o) <= 0x10_0000
    ensures ZoneOf(p) == 2 ==> 0x10_0000 <= p
    ensures ZoneOf(p) < NR_ZONES
  {
    AlignedIsMultiple(p, o);
    hide Idx, Pow2, Aligned;
    ZoneOfBlock(p, p + Pow2(o) - 1, o);
  }

  // A free aligned run of 2^o frames from p on.
  ghost predicate RunFrom(h: Heads, p: nat, o: nat) {
    p % Pow2(o) == 0 && forall x: nat :: p <= x < p + Pow2(o) ==> IsFree(h, x)
  }

  lemma RunsOfZone(h: Heads, p: nat, o: nat)
    requires o < MAX_ORDER && RunFrom(h, p, o)
    ensures HasRun(h, ZoneOf(p), o)
  {
    MultipleIsAligned(p, o);
    AlignedIsMultiple(p, o);
    hide Idx, Pow2, Aligned, IsFree, ZoneOf;
    assert RunAt(h, p, o);
  }

  lemma MultipleIsAligned(p: nat, o: nat)
    requires p % Pow2(o) == 0
    ensures Aligned(p, o)
  {
    var i := p / Pow2(o);
    FirstIsMultiple(i, o);
    FirstIsAligned(i, o);
    assert p == i * Pow2(o);
  }

  lemma Idx10(x: nat)
    ensures Idx(x, 10) == x / 1024
  {
    assert Idx(x, 1) == x / 2;
    assert Idx(x, 2) == x / 4;
    assert Idx(x, 3) == x / 8;
    assert Idx(x, 4) == x / 16;
    assert Idx(x, 5) == x / 32;
    assert Idx(x, 6) == x / 64;
    assert Idx(x, 7) == x / 128;
    assert Idx(x, 8) == x / 256;
    assert Idx(x, 9) == x / 512;
  }

  // ---- free blocks ----

  // The pages with PG_BUDDY set, with their orders.
  type Heads = map<nat, nat>

  predicate Covers(h: Heads, p: nat, x: nat)
    requires p in h
  {
    Idx(x, h[p]) == Idx(p, h[p])
  }

  ghost predicate IsFree(h: Heads, x: nat) {
    exists p :: p in h && Covers(h, p, x)
  }

  ghost predicate HeadsAligned(h: Heads) {
    forall p :: p in h ==> h[p] < MAX_ORDER && Aligned(p, h[p])
  }

  ghost predicate Disjoint(h: Heads) {
    forall p, q :: p in h && q in h && p != q ==> !Covers(h, q, p)
  }

  // No two free buddies below the top order.
  ghost predicate Coalesced(h: Heads) {
    forall p :: p in h && h[p] < MAX_ORDER - 1 && Aligned(p, h[p]) ==> !FreeBuddy(h, p, h[p])
  }

  predicate FreeBuddy(h: Heads, p: nat, o: nat)
  {
    Aligned(p, o) && (BuddyIsSibling(p, o); BuddyOf(p, o) in h && h[BuddyOf(p, o)] == o)
  }

  ghost predicate Canonical(h: Heads) {
    HeadsAligned(h) && Disjoint(h) && Coalesced(h)
  }

  // A half of a wholly free run is wholly free.
  lemma HalfRun(h: Heads, x: nat, k: nat, c: nat) returns (a: nat)
    requires k > 0 && RunAt(h, x, k) && c / 2 == Idx(x, k)
    ensures Idx(a, k - 1) == c && Idx(a, k) == Idx(x, k) && RunAt(h, a, k - 1)
  {
    hide IsFree;
    a := First(c, k - 1);
    FirstIsAligned(c, k - 1);
    forall y | Idx(y, k - 1) == c
      ensures IsFree(h, y)
    {
      assert Idx(y, k) == Idx(x, k);
    }
  }

  // In a coalesced set the two halves of a block are not both free blocks.
  lemma HalvesMerged(h: Heads, p: nat, q: nat, o: nat)
    requires Canonical(h) && o < MAX_ORDER - 1
    requires p in h && h[p] == o && q in h && h[q] == o && Idx(p, o) % 2 == 0
    ensures Idx(q, o) != Idx(p, o) + 1
  {
    hide Idx, Disjoint;
    assert !FreeBuddy(h, p, o);
    FirstNext(Idx(p, o), o);
  }

  // A wholly free aligned run lies inside one free block.
  lemma {:induction false} FreeRunIsCovered(h: Heads, x: nat, k: nat) returns (p: nat)
    requires Canonical(h) && k < MAX_ORDER && RunAt(h, x, k)
    ensures p in h && h[p] >= k && Covers(h, p, x)
    decreases k
  {
    hide Idx, Coalesced, Disjoint, Aligned;
    if k == 0 {
      assert IsFree(h, x);
      p :| p in h && Covers(h, p, x);
    } else {
      var a := HalfRun(h, x, k, 2 * Idx(x, k));
      var b := HalfRun(h, x, k, 2 * Idx(x, k) + 1);
      p := FreeRunIsCovered(h, a, k - 1);
      var q := FreeRunIsCovered(h, b, k - 1);
      if h[p] >= k {
        SameAbove(a, x, k, h[p]);
      } else if h[q] >= k {
        p := q;
        SameAbove(b, x, k, h[q]);
      } else {
        HalvesMerged(h, p, q, k - 1);
      }
    }
  }

  // The free blocks are determined by the free pages alone.
  lemma CanonicalIsUnique(h: Heads, g: Heads)
    requires Canonical(h) && Canonical(g)
    requires forall x :: IsFree(h, x) <==> IsFree(g, x)
    ensures h == g
  {
    forall p | p in h
      ensures p in g && g[p] == h[p]
    {
      SameBlock(h, g, p);
    }
    forall p | p in g
      ensures p in h && h[p] == g[p]
    {
      SameBlock(g, h, p);
    }
  }

  lemma SameBlock(h: Heads, g: Heads, p: nat)
    requires Canonical(h) && Canonical(g) && p in h
    requires forall x :: IsFree(h, x) <==> IsFree(g, x)
    ensures p in g && g[p] == h[p]
  {
    BlockIsFree(h, p);
    var q := FreeRunIsCovered(g, p, h[p]);
    BlockIsFree(g, q);
    var r := FreeRunIsCovered(h, p, g[q]);
    assert r == p;
    AlignedSame(p, q, h[p]);
  }

  lemma BlockIsFree(h: Heads, p: nat)
    requires p in h
    ensures forall y :: Idx(y, h[p]) == Idx(p, h[p]) ==> IsFree(h, y)
  {
    forall y | Idx(y, h[p]) == Idx(p, h[p])
      ensures IsFree(h, y)
    {
      assert Covers(h, p, y);
    }
  }

  // An aligned run of 2^k free pages in zone z.
  ghost predicate HasRun(h: Heads, z: nat, k: nat) {
    exists x :: ZoneOf(x) == z && RunAt(h, x, k)
  }

  ghost predicate RunAt(h: Heads, x: nat, k: nat) {
    forall y :: Idx(y, k) == Idx(x, k) ==> IsFree(h, y)
  }

  // Without a free block of order k or more a zone has no free run of 2^k.
  lemma NoBlockNoRun(h: Heads, z: nat, k: nat)
    requires Canonical(h) && k < MAX_ORDER
    ensures (exists p :: p in h && ZoneOf(p) == z && h[p] >= k) <==> HasRun(h, z, k)
  {
    if p :| p in h && ZoneOf(p) == z && h[p] >= k {
      forall y | Idx(y, k) == Idx(p, k)
        ensures IsFree(h, y)
      {
        SameAbove(y, p, k, h[p]);
        assert Covers(h, p, y);
      }
      assert RunAt(h, p, k);
    }
    if HasRun(h, z, k) {
      var x :| ZoneOf(x) == z && RunAt(h, x, k);
      var p := FreeRunIsCovered(h, x, k);
      ZoneOfBlock(x, p, h[p]);
    }
  }

  // ---- adding and removing one free block ----

  // No page of the block is free.
  ghost predicate Clear(h: Heads, p: nat, o: nat) {
    forall x :: Idx(x, o) == Idx(p, o) ==> !IsFree(h, x)
  }

  // h together with the block (p, o) has the free pages of g and (q, k).
  ghost predicate SameTotal(h: Heads, p: nat, o: nat, g: Heads, q: nat, k: nat) {
    forall x :: (IsFree(h, x) || Idx(x, o) == Idx(p, o)) <==> (IsFree(g, x) || Idx(x, k) == Idx(q, k))
  }

  lemma AddBlock(h: Heads, p: nat, o: nat)
    requires HeadsAligned(h) && Disjoint(h) && o < MAX_ORDER && Aligned(p, o) && Clear(h, p, o)
    ensures p !in h && HeadsAligned(h[p := o]) && Disjoint(h[p := o])
    ensures forall x :: IsFree(h[p := o], x) <==> IsFree(h, x) || Idx(x, o) == Idx(p, o)
  {
    hide Idx, Aligned;
    forall q | q in h
      ensures !Covers(h, q, p) && Idx(q, o) != Idx(p, o) && q != p
    {
      assert Covers(h, q, q) && IsFree(h, q);
      assert !IsFree(h, p);
    }
    FreeAfterAdd(h, p, o);
    var g := h[p := o];
    forall r, q | r in g && q in g && r != q
      ensures !Covers(g, q, r)
    {
      if r != p && q != p {
        assert !Covers(h, q, r);
      } else if r == p {
        assert !Covers(h, q, p);
      }
    }
  }

  lemma FreeAfterAdd(h: Heads, p: nat, o: nat)
    requires p !in h
    ensures forall x :: IsFree(h[p := o], x) <==> IsFree(h, x) || Idx(x, o) == Idx(p, o)
  {
    hide Idx;
    var g := h[p := o];
    forall x
      ensures IsFree(g, x) <==> IsFree(h, x) || Idx(x, o) == Idx(p, o)
    {
      if IsFree(h, x) {
        var q :| q in h && Covers(h, q, x);
        assert Covers(g, q, x);
      }
      if Idx(x, o) == Idx(p, o) {
        assert Covers(g, p, x);
      }
      if IsFree(g, x) {
        var q :| q in g && Covers(g, q, x);
        if q != p {
          assert Covers(h, q, x);
        }
      }
    }
  }

  lemma RemoveBlock(h: Heads, p: nat)
    requires HeadsAligned(h) && Disjoint(h) && p in h
    ensures HeadsAligned(h - {p}) && Disjoint(h - {p})
    ensures forall x :: IsFree(h - {p}, x) <==> IsFree(h, x) && Idx(x, h[p]) != Idx(p, h[p])
  {
    hide Idx, Aligned;
    var g := h - {p};
    forall x
      ensures IsFree(g, x) <==> IsFree(h, x) && Idx(x, h[p]) != Idx(p, h[p])
    {
      if IsFree(g, x) {
        var q :| q in g && Covers(g, q, x);
        assert Covers(h, q, x);
        if Covers(h, p, x) {
          OneCover(h, p, q, x);
        }
      }
      if IsFree(h, x) && !Covers(h, p, x) {
        var q :| q in h && Covers(h, q, x);
        assert Covers(g, q, x);
      }
    }
  }

  lemma OneCover(h: Heads, p: nat, q: nat, x: nat)
    requires Disjoint(h) && p in h && q in h && Covers(h, p, x) && Covers(h, q, x)
    ensures p == q
  {
    if h[p] <= h[q] {
      SameAbove(p, x, h[p], h[q]);
    } else {
      SameAbove(q, x, h[q], h[p]);
    }
  }

  // One turn of the loop of __free: the free buddy joins the block in hand.
  lemma MergeWithBuddy(h: Heads, p: nat, o: nat)
    requires Canonical(h) && o < MAX_ORDER - 1 && Clear(h, p, o) && FreeBuddy(h, p, o)
    ensures Idx(p, o) % 2 == 1 ==> p >= Pow2(o)
    ensures var g := h - {BuddyOf(p, o)};
            && Canonical(g) && Aligned(ClearBit(p, o), o + 1) && Clear(g, ClearBit(p, o), o + 1)
            && SameTotal(g, ClearBit(p, o), o + 1, h, p, o)
  {
    BuddyIsSibling(p, o);
    var b := BuddyOf(p, o);
    RemoveBlock(h, b);
    var g := h - {b};
    forall x
      ensures Idx(x, o + 1) == Idx(p, o) / 2 <==> Idx(x, o) == Idx(p, o) || Idx(x, o) == Idx(b, o)
    {
    }
    assert forall x :: Idx(x, o) == Idx(b, o) ==> Covers(h, b, x);
    forall q | q in g && g[q] < MAX_ORDER - 1 && Aligned(q, g[q])
      ensures !FreeBuddy(g, q, g[q])
    {
      assert !FreeBuddy(h, q, h[q]);
    }
  }

  // The end of that loop.
  lemma PlaceBlock(h: Heads, p: nat, o: nat)
    requires Canonical(h) && o < MAX_ORDER && Aligned(p, o) && Clear(h, p, o)
    requires o == MAX_ORDER - 1 || !FreeBuddy(h, p, o)
    ensures p !in h && Canonical(h[p := o])
    ensures forall x :: IsFree(h[p := o], x) <==> IsFree(h, x) || Idx(x, o) == Idx(p, o)
  {
    hide Idx, Aligned, Disjoint;
    AddBlock(h, p, o);
    var g := h[p := o];
    forall q | q in g && g[q] < MAX_ORDER - 1 && Aligned(q, g[q])
      ensures !FreeBuddy(g, q, g[q])
    {
      BuddyIsSibling(q, g[q]);
      if q == p {
        var b := BuddyOf(p, o);
        assert b != p;
      } else {
        assert !FreeBuddy(h, q, h[q]);
      }
    }
  }

  // One turn of the splitting loop of __alloc: the upper half of the block in
  // hand becomes free.
  lemma SplitBlock(h: Heads, p: nat, o: nat)
    requires Canonical(h) && 0 < o < MAX_ORDER && Aligned(p, o) && Clear(h, p, o)
    ensures p + Pow2(o - 1) !in h
    ensures var g := h[p + Pow2(o - 1) := o - 1];
            && Canonical(g) && Aligned(p, o - 1) && Clear(g, p, o - 1)
            && SameTotal(g, p, o - 1, h, p, o)
  {
    hide Canonical, IsFree;
    var u := p + Pow2(o - 1);
    HalvesOf(p, o);
    NoHeads(h, p, o);
    BuddyIsSibling(u, o - 1);
    PlaceBlock(h, u, o - 1);
  }

  // The two halves of a block.
  lemma HalvesOf(p: nat, o: nat)
    requires o > 0 && Aligned(p, o)
    ensures var i := Idx(p, o); var u := p + Pow2(o - 1);
            && Aligned(p, o - 1) && Aligned(u, o - 1) && Idx(p, o - 1) == 2 * i && Idx(u, o - 1) == 2 * i + 1
            && Idx(u, o) == i
            && forall x: nat :: Idx(x, o) == i <==> Idx(x, o - 1) == 2 * i || Idx(x, o - 1) == 2 * i + 1
  {
    var i := Idx(p, o);
    FirstIsAligned(2 * i, o - 1);
    FirstIsAligned(2 * i + 1, o - 1);
    FirstNext(2 * i, o - 1);
  }

  // No block starts where no page is free.
  lemma NoHeads(h: Heads, p: nat, o: nat)
    requires Clear(h, p, o)
    ensures forall q :: q in h ==> Idx(q, o) != Idx(p, o)
  {
    forall q | q in h
      ensures Idx(q, o) != Idx(p, o)
    {
      assert Covers(h, q, q);
      assert IsFree(h, q);
    }
  }

  // Merging stays inside the zone and next to the block in hand.
  lemma MergedBlockIsNear(p: nat, o: nat)
    requires Aligned(p, o) && o < MAX_ORDER - 1
    ensures Idx(p, o) % 2 == 1 ==> p >= Pow2(o)
    ensures var b, m := BuddyOf(p, o), ClearBit(p, o);
            && ZoneOf(b) == ZoneOf(m) == ZoneOf(p)
            && m == (if p < b then p else b)
            && m + Pow2(o + 1) == (if p < b then b else p) + Pow2(o)
  {
    BuddyIsSibling(p, o);
    ZoneOfBlock(BuddyOf(p, o), p, o + 1);
    ZoneOfBlock(ClearBit(p, o), p, o + 1);
  }

  lemma SameTotalTrans(h1: Heads, p1: nat, o1: nat, h2: Heads, p2: nat, o2: nat, h3: Heads, p3: nat, o3: nat)
    requires SameTotal(h1, p1, o1, h2, p2, o2) && SameTotal(h2, p2, o2, h3, p3, o3)
    ensures SameTotal(h1, p1, o1, h3, p3, o3)
  {
  }

  // The block (p, o) was free and is not any more; nothing else changed.
  ghost predicate Allocated(h: Heads, g: Heads, p: nat, o: nat) {
    && Aligned(p, o)
    && (forall x :: Idx(x, o) == Idx(p, o) ==> IsFree(h, x))
    && (forall x :: IsFree(g, x) <==> IsFree(h, x) && Idx(x, o) != Idx(p, o))
  }

  ghost predicate Released(h: Heads, g: Heads, p: nat, o: nat) {
    forall x :: IsFree(g, x) <==> IsFree(h, x) || Idx(x, o) == Idx(p, o)
  }

  // Freeing a block again undoes its allocation block for block, although the
  // allocation may have split a larger one.
  lemma FreeUndoesAlloc(h: Heads, g: Heads, h': Heads, p: nat, o: nat)
    requires Canonical(h) && Canonical(h')
    requires Allocated(h, g, p, o) && Released(g, h', p, o)
    ensures h' == h
  {
    hide Idx, Aligned, Canonical;
    CanonicalIsUnique(h, h');
  }
}

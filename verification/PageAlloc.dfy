// The page allocator proper (mm/page_alloc.c): per-zone free lists, the
// PG_BUDDY marks, and the counters, over the block structure of Buddy.
module PageAlloc {
  import opened Common
  import opened Lists
  import opened Buddy
  import Memblock

  datatype Slot = Slot(zone: nat, order: nat)

  predicate InTable(s: Slot) {
    s.zone < NR_ZONES && s.order < MAX_ORDER
  }

  // The lists hold exactly the marked pages, by zone and order.
  ghost predicate ListsMatch(h: Heads, lists: map<Slot, seq<nat>>) {
    forall s: Slot :: InTable(s) ==>
      && s in lists
      && NoDup(lists[s])
      && forall p :: p in lists[s] <==> p in h && h[p] == s.order && ZoneOf(p) == s.zone
  }

  ghost predicate Lengths(lists: map<Slot, seq<nat>>, nrFree: map<Slot, int>) {
    forall s: Slot :: InTable(s) ==> s in lists && s in nrFree && nrFree[s] == |lists[s]|
  }

  // ---- counting free pages ----

  function Interval(lo: nat, n: nat): (r: set<nat>)
    ensures forall x :: x in r <==> lo <= x < lo + n
    ensures |r| == n
  {
    if n == 0 then {} else Interval(lo, n - 1) + {lo + n - 1}
  }

  function Span(p: nat, o: nat): set<nat> {
    Interval(p, Pow2(o))
  }

  function FreeIn(h: Heads, z: nat): set<nat> {
    set p, x | p in h && ZoneOf(p) == z && x in Span(p, h[p]) :: x
  }

  lemma InSpan(p: nat, o: nat, x: nat)
    requires Aligned(p, o)
    ensures x in Span(p, o) <==> Idx(x, o) == Idx(p, o)
  {
    FirstNext(Idx(p, o), o);
    SpanOfBlock(Idx(p, o), o, x);
  }

  lemma FreeInIs(h: Heads, z: nat)
    requires HeadsAligned(h)
    ensures forall x :: x in FreeIn(h, z) <==> IsFree(h, x) && ZoneOf(x) == z
  {
    hide Idx, Aligned, Pow2, Span, ZoneOf;
    forall x
      ensures x in FreeIn(h, z) <==> IsFree(h, x) && ZoneOf(x) == z
    {
      if x in FreeIn(h, z) {
        var p :| p in h && ZoneOf(p) == z && x in Span(p, h[p]);
        InSpan(p, h[p], x);
        assert Covers(h, p, x);
        ZoneOfBlock(x, p, h[p]);
      }
      if IsFree(h, x) && ZoneOf(x) == z {
        var p :| p in h && Covers(h, p, x);
        InSpan(p, h[p], x);
        ZoneOfBlock(x, p, h[p]);
      }
    }
  }

  // Freeing a block adds its pages to the count of its zone.
  lemma CountFreed(h: Heads, g: Heads, p: nat, o: nat, z: nat)
    requires HeadsAligned(h) && HeadsAligned(g) && o < MAX_ORDER && Aligned(p, o) && Clear(h, p, o)
    requires forall x :: IsFree(g, x) <==> IsFree(h, x) || Idx(x, o) == Idx(p, o)
    ensures |FreeIn(g, z)| == |FreeIn(h, z)| + (if z == ZoneOf(p) then Pow2(o) else 0)
  {
    hide Idx, Aligned, Pow2, IsFree, FreeIn, HeadsAligned, ZoneOf;
    FreeInIs(h, z);
    FreeInIs(g, z);
    forall x
      ensures x in Span(p, o) <==> Idx(x, o) == Idx(p, o)
      ensures x in Span(p, o) ==> ZoneOf(x) == ZoneOf(p) && !IsFree(h, x)
    {
      InSpan(p, o, x);
      if Idx(x, o) == Idx(p, o) {
        ZoneOfBlock(x, p, o);
      }
    }
    if z == ZoneOf(p) {
      assert FreeIn(g, z) == FreeIn(h, z) + Span(p, o);
      assert FreeIn(h, z) !! Span(p, o);
    } else {
      assert FreeIn(g, z) == FreeIn(h, z);
    }
  }

  class PageAllocator {
    const basePfn: nat
    const pfns: nat
    var heads: Heads
    var lists: map<Slot, seq<nat>>
    var nrFree: map<Slot, int>
    var freePages: map<nat, int>

    ghost predicate Structure()
      reads this
    {
      && Canonical(heads)
      && ListsMatch(heads, lists)
      && (forall p :: p in heads ==> basePfn <= p && p + Pow2(heads[p]) <= basePfn + pfns)
      && Lengths(lists, nrFree)
    }

    ghost predicate Counted()
      reads this
    {
      forall z: nat :: z < NR_ZONES ==> z in freePages && freePages[z] == |FreeIn(heads, z)|
    }

    ghost predicate Valid()
      reads this
    {
      Structure() && Counted()
    }

    // An allocator over the frames [start, start + n) with none of them free.
    constructor (start: nat, n: nat)
      ensures Valid() && heads == map[] && basePfn == start && pfns == n
    {
      basePfn, pfns := start, n;
      heads := map[];
      var slots := set z, o | 0 <= z < NR_ZONES && 0 <= o < MAX_ORDER :: Slot(z, o);
      lists := map s | s in slots :: [];
      nrFree := map s | s in slots :: 0;
      freePages := map z | z in Interval(0, NR_ZONES) :: 0;
    }

    method AddFree(p: nat, o: nat)
      requires ListsMatch(heads, lists) && p !in heads && o < MAX_ORDER
      requires Lengths(lists, nrFree)
      modifies this
      ensures heads == old(heads)[p := o] && freePages == old(freePages)
      ensures var s := Slot(ZoneOf(p), o); s in old(lists) && lists == old(lists)[s := [p] + old(lists)[s]]
      ensures ListsMatch(heads, lists)
      ensures Lengths(lists, nrFree)
    {
      var s := Slot(ZoneOf(p), o);
      heads := heads[p := o];
      lists := lists[s := [p] + lists[s]];
      nrFree := nrFree[s := nrFree[s] + 1];
    }

    method DelFree(p: nat, o: nat)
      requires ListsMatch(heads, lists) && p in heads && heads[p] == o < MAX_ORDER
      requires Lengths(lists, nrFree)
      modifies this
      ensures heads == old(heads) - {p} && freePages == old(freePages)
      ensures var s := Slot(ZoneOf(p), o); s in old(lists) && lists == old(lists)[s := Without(old(lists)[s], p)]
      ensures ListsMatch(heads, lists)
      ensures Lengths(lists, nrFree)
    {
      var s := Slot(ZoneOf(p), o);
      WithoutRemoves(lists[s], p);
      lists := lists[s := Without(lists[s], p)];
      heads := heads - {p};
      nrFree := nrFree[s := nrFree[s] - 1];
    }

    predicate PfnValid(p: nat) {
      basePfn <= p < basePfn + pfns
    }

    // __free: exactly the pages of the block become free, whatever merges.
    method FreeBlock(p: nat, order: nat)
      requires Valid() && order < MAX_ORDER && Aligned(p, order) && Clear(heads, p, order)
      requires basePfn <= p && p + Pow2(order) <= basePfn + pfns
      modifies this
      ensures Valid()
      ensures forall x :: IsFree(heads, x) <==> IsFree(old(heads), x) || Idx(x, order) == Idx(p, order)
    {
      hide Idx, Aligned, IsFree, FreeIn, ListsMatch, Lengths, Clear, SameTotal, Pow2;
      var z := ZoneOf(p);
      var pfn: nat, o: nat := p, order;
      freePages := freePages[z := freePages[z] + Pow2(order)];
      SameTotalStart(heads, p, order);
      while o < MAX_ORDER - 1
        invariant Structure() && freePages == old(freePages)[z := old(freePages)[z] + Pow2(order)]
        invariant order <= o < MAX_ORDER && Aligned(pfn, o) && Clear(heads, pfn, o) && ZoneOf(pfn) == z
        invariant SameTotal(heads, pfn, o, old(heads), p, order)
        invariant basePfn <= pfn && pfn + Pow2(o) <= basePfn + pfns
        decreases MAX_ORDER - o
      {
        BuddyIsSibling(pfn, o);
        MergedBlockIsNear(pfn, o);
        var b := BuddyOf(pfn, o);
        if !PfnValid(b) || ZoneOf(b) != z || b !in heads || heads[b] != o {
          break;
        }
        MergeWithBuddy(heads, pfn, o);
        SameTotalTrans(heads - {b}, ClearBit(pfn, o), o + 1, heads, pfn, o, old(heads), p, order);
        DelFree(b, o);
        pfn := ClearBit(pfn, o);
        o := o + 1;
      }
      PlaceBlock(heads, pfn, o);
      ghost var h := heads;
      AddFree(pfn, o);
      FreedTotal(h, heads, pfn, o, old(heads), p, order);
    }

    // __alloc: the smallest sufficient block of the zone, split as needed, or
    // nothing when the zone has no free aligned run of that size.
    method AllocFrom(z: nat, order: nat) returns (r: Option<nat>)
      requires Valid() && z < NR_ZONES && order < MAX_ORDER
      modifies this
      ensures Valid()
      ensures r.None? <==> !HasRun(old(heads), z, order)
      ensures r.None? ==> heads == old(heads)
      ensures r.Some? ==> Allocated(old(heads), heads, r.value, order) && ZoneOf(r.value) == z
      ensures r.Some? ==> basePfn <= r.value && r.value + Pow2(order) <= basePfn + pfns
      ensures r.Some? ==>
                && r.value in old(heads) && old(heads)[r.value] >= order
                && Slot(z, old(heads)[r.value]) in old(lists) && old(lists)[Slot(z, old(heads)[r.value])] != []
                && r.value == old(lists)[Slot(z, old(heads)[r.value])][0]
                && forall p :: p in old(heads) && ZoneOf(p) == z && old(heads)[p] >= order ==>
                     old(heads)[p] >= old(heads)[r.value]
    {
      hide Idx, Aligned, IsFree, FreeIn, ListsMatch, Lengths, Clear, SameTotal, Pow2, HasRun, Allocated;
      NoBlockNoRun(heads, z, order);
      var o: nat := order;
      while o < MAX_ORDER
        invariant order <= o <= MAX_ORDER
        invariant Valid() && heads == old(heads) && lists == old(lists)
        invariant forall p :: p in heads && ZoneOf(p) == z && heads[p] >= order ==> heads[p] >= o
      {
        ListAt(heads, lists, Slot(z, o));
        if lists[Slot(z, o)] != [] {
          var p := lists[Slot(z, o)][0];
          assert p in lists[Slot(z, o)];
          TakeFromList(p, o, order);
          return Some(p);
        }
        o := o + 1;
      }
      r := None;
    }

    // Removing block (p, o) and giving back its upper halves down to order.
    method TakeFromList(p: nat, top: nat, order: nat)
      requires Valid() && p in heads && heads[p] == top && order <= top < MAX_ORDER
      modifies this
      ensures Valid()
      ensures Allocated(old(heads), heads, p, order)
      ensures basePfn <= p && p + Pow2(order) <= basePfn + pfns
    {
      hide Idx, IsFree, FreeIn, ListsMatch, Lengths, Clear, SameTotal, Pow2, Allocated, Coalesced, Aligned;
      RemovedBlock(heads, p);
      ghost var h := heads - {p};
      DelFree(p, top);
      var o: nat := top;
      SameTotalStart(heads, p, top);
      while o > order
        invariant Structure() && freePages == old(freePages)
        invariant order <= o <= top && Aligned(p, o) && Clear(heads, p, o)
        invariant SameTotal(heads, p, o, h, p, top)
        invariant basePfn <= p && p + Pow2(o) <= basePfn + pfns
      {
        SplitBlock(heads, p, o);
        HalfOf(p, o);
        SameTotalTrans(heads[p + Pow2(o - 1) := o - 1], p, o - 1, heads, p, o, h, p, top);
        o := o - 1;
        AddFree(p + Pow2(o), o);
      }
      TakenTotal(old(heads), heads, p, top, order);
      freePages := freePages[ZoneOf(p) := freePages[ZoneOf(p)] - Pow2(order)];
    }

    // alloc_pages: zones from the preferred one down. It fails only when no
    // eligible zone has a free aligned run of 2^order pages, and it takes the
    // highest zone that has one.
    method AllocPages(top: nat, order: nat) returns (r: Option<nat>)
      requires Valid() && top < NR_ZONES
      modifies this
      ensures Valid()
      ensures r.None? ==> heads == old(heads)
      ensures r.None? <==> order >= 11 || forall z: nat :: z <= top ==> !HasRun(old(heads), z, order)
      ensures r.Some? ==>
                && Allocated(old(heads), heads, r.value, order)
                && ZoneOf(r.value) <= top
                && forall z: nat :: ZoneOf(r.value) < z <= top ==> !HasRun(old(heads), z, order)
      ensures r.Some? ==>
                && r.value % Pow2(order) == 0
                && (forall x: nat :: r.value <= x < r.value + Pow2(order) ==> IsFree(old(heads), x))
                && (forall x: nat :: IsFree(heads, x) <==> IsFree(old(heads), x) && !(r.value <= x < r.value + Pow2(order)))
                && (top == 0 ==> r.value + Pow2(order) <= 0x4_0000)
                && (top <= 1 ==> r.value + Pow2(order) <= 0x10_0000)
                && (top == 2 && r.value < 0x10_0000 ==> forall p: nat :: p >= 0x10_0000 ==> !RunFrom(old(heads), p, order))
                && (top >= 1 && r.value < 0x4_0000 ==>
                      forall p: nat :: 0x4_0000 <= p < 0x10_0000 ==> !RunFrom(old(heads), p, order))
      ensures r.None? && order < MAX_ORDER ==>
                forall p: nat :: RunFrom(old(heads), p, order) ==> p >= (if top == 0 then 0x4_0000 else 0x10_0000) && top < 2
    {
      hide Idx, Aligned, IsFree, HasRun, Allocated, Valid;
      if order >= MAX_ORDER {
        return None;
      }
      r := None;
      var zi: int := top;
      while zi >= 0 && r.None?
        invariant -1 <= zi <= top && Valid()
        invariant forall z: nat :: zi < z <= top && (r.Some? ==> ZoneOf(r.value) != z) ==> !HasRun(old(heads), z, order)
        invariant r.None? ==> heads == old(heads)
        invariant r.Some? ==>
                    && zi < top && Allocated(old(heads), heads, r.value, order)
                    && ZoneOf(r.value) == zi + 1 && HasRun(old(heads), zi + 1, order)
        decreases zi
      {
        r := AllocFrom(zi, order);
        zi := zi - 1;
      }
      FrameTerms(old(heads), heads, top, order, r);
    }

    // One RAM region, page by page.
    method FeedRegion(mb: Memblock.Memblock, i: nat)
      requires mb.Valid() && i < |mb.memory|
      requires Valid() && forall x :: IsFree(heads, x) <==> Fed(mb.memory, mb.reserved, i, x)
      requires forall k :: 0 <= k < |mb.memory| ==> Within(mb.memory[k], basePfn, pfns)
      modifies this
      ensures Valid() && forall x :: IsFree(heads, x) <==> Fed(mb.memory, mb.reserved, i + 1, x)
    {
      hide Valid, IsFree, Fed, Idx, Aligned, Canonical, Memblock.Covered;
      var r := mb.memory[i];
      Memblock.RegionIsPaged(mb.memory, i);
      var p, end := r.base / PAGE_SIZE, (r.base + r.size) / PAGE_SIZE;
      while p < end
        invariant r.base / PAGE_SIZE <= p <= end
        invariant Valid()
        invariant forall x :: IsFree(heads, x) <==> Fed(mb.memory, mb.reserved, i, x) || FedIn(mb.reserved, r.base / PAGE_SIZE, p, x)
      {
        var kept := mb.IsReserved(p * PAGE_SIZE);
        if !kept {
          NotYetFed(mb.memory, mb.reserved, i, p);
          FreeOne(p);
        }
        p := p + 1;
      }
      FedRegion(mb.memory, mb.reserved, i);
      assert p == Memblock.End(mb.memory[i]) / PAGE_SIZE;
    }

    method FreeOne(p: nat)
      requires Valid() && !IsFree(heads, p) && basePfn <= p < basePfn + pfns
      modifies this
      ensures Valid() && forall x :: IsFree(heads, x) <==> IsFree(old(heads), x) || x == p
    {
      hide Valid, IsFree;
      assert forall x :: Idx(x, 0) == x;
      FreeBlock(p, 0);
    }
  }

  // What AllocPages has done, in frame numbers.
  lemma FrameTerms(h: Heads, g: Heads, top: nat, order: nat, r: Option<nat>)
    requires top < NR_ZONES && order < MAX_ORDER
    requires r.None? ==> forall z: nat :: z <= top ==> !HasRun(h, z, order)
    requires r.Some? ==>
               && Allocated(h, g, r.value, order) && ZoneOf(r.value) <= top
               && forall z: nat :: ZoneOf(r.value) < z <= top ==> !HasRun(h, z, order)
    ensures r.Some? ==>
              && r.value % Pow2(order) == 0
              && (forall x: nat :: r.value <= x < r.value + Pow2(order) ==> IsFree(h, x))
              && (forall x: nat :: IsFree(g, x) <==> IsFree(h, x) && !(r.value <= x < r.value + Pow2(order)))
              && (top == 0 ==> r.value + Pow2(order) <= 0x4_0000)
              && (top <= 1 ==> r.value + Pow2(order) <= 0x10_0000)
              && (top == 2 && r.value < 0x10_0000 ==> forall p: nat :: p >= 0x10_0000 ==> !RunFrom(h, p, order))
              && (top >= 1 && r.value < 0x4_0000 ==>
                    forall p: nat :: 0x4_0000 <= p < 0x10_0000 ==> !RunFrom(h, p, order))
    ensures r.None? ==>
              forall p: nat :: RunFrom(h, p, order) ==> p >= (if top == 0 then 0x4_0000 else 0x10_0000) && top < 2
  {
    hide Idx, Aligned, Pow2, IsFree, HasRun, ZoneOf, RunFrom;
    if r.Some? {
      AlignedIsMultiple(r.value, order);
      ZoneFrames(r.value, order);
    }
    forall p: nat | RunFrom(h, p, order)
      ensures HasRun(h, ZoneOf(p), order) && ZoneOf(p) < NR_ZONES
      ensures ZoneOf(p) == 0 ==> p < 0x4_0000
      ensures ZoneOf(p) == 1 ==> 0x4_0000 <= p < 0x10_0000
      ensures ZoneOf(p) == 2 ==> 0x10_0000 <= p
    {
      RunsOfZone(h, p, order);
      MultipleIsAligned(p, order) by { RunStart(h, p, order); }
      ZoneFrames(p, order);
    }
  }

  lemma RunStart(h: Heads, p: nat, o: nat)
    requires RunFrom(h, p, o)
    ensures p % Pow2(o) == 0
  {
  }

  function FirstPage(memory: seq<Memblock.Region>): nat {
    if memory == [] then 0 else memory[0].base / PAGE_SIZE
  }

  function EndPage(memory: seq<Memblock.Region>): nat {
    if memory == [] then 0 else Memblock.End(memory[|memory| - 1]) / PAGE_SIZE
  }

  // The boot allocator has this place for the page structures, and can enter
  // it in its table.
  ghost predicate RoomAt(memory: seq<Memblock.Region>, reserved: seq<Memblock.Region>, bytes: nat, s: nat) {
    var size := Memblock.AlignUp(bytes, PAGE_SIZE);
    && s > 0 && Memblock.IsHighestFit(memory, reserved, s, size, PAGE_SIZE, ADDRESS_LIMIT)
    && !Memblock.NoRoom(reserved, Memblock.AlignDown(s, PAGE_SIZE), Memblock.AlignUp(s + size, PAGE_SIZE))
  }

  // page_alloc_init: room for the page structures comes out of the boot
  // allocator, then every RAM page that is not reserved becomes free. None is
  // the panic when that room cannot be had.
  method Init(mb: Memblock.Memblock, structSize: nat) returns (r: Option<PageAllocator>)
    requires mb.Valid()
    modifies mb
    ensures mb.Valid() && mb.memory == old(mb.memory)
    ensures var n := EndPage(mb.memory) - FirstPage(mb.memory);
            n >= 0 && (r.Some? <==> exists s: nat :: RoomAt(mb.memory, old(mb.reserved), n * structSize, s))
    ensures r.Some? ==> fresh(r.value) && r.value.Valid()
    ensures r.Some? && mb.memory != [] ==>
              var last := mb.memory[|mb.memory| - 1];
              && r.value.basePfn == mb.memory[0].base / PAGE_SIZE
              && r.value.basePfn + r.value.pfns == (last.base + last.size) / PAGE_SIZE
    ensures r.Some? ==> forall x: nat :: IsFree(r.value.heads, x) <==>
              Memblock.Covered(mb.memory, x * PAGE_SIZE) && !Memblock.Covered(mb.reserved, x * PAGE_SIZE)
  {
    hide IsFree, Fed, PageAllocator.Valid, Memblock.Covered, Memblock.Fits, Memblock.PageMeets, Memblock.Paged,
         Memblock.AlignUp, Memblock.AlignDown, Memblock.NoRoom;
    var n := |mb.memory|;
    var start, end := FirstPage(mb.memory), EndPage(mb.memory);
    AllWithin(mb.memory, start, end);
    var pa := mb.Alloc((end - start) * structSize, PAGE_SIZE, ADDRESS_LIMIT);
    if pa.None? || pa.value == 0 {
      return None;
    }
    assert RoomAt(mb.memory, old(mb.reserved), (end - start) * structSize, pa.value);
    var a := new PageAllocator(start, end - start);
    NoneFed(mb.memory, mb.reserved, a.heads);
    for i := 0 to n
      modifies a
      invariant a.Valid() && forall x :: IsFree(a.heads, x) <==> Fed(mb.memory, mb.reserved, i, x)
    {
      a.FeedRegion(mb, i);
    }
    AllFed(mb.memory, mb.reserved);
    r := Some(a);
  }

  const ADDRESS_LIMIT := 0xffff_ffff_ffff_ffff

  lemma AllWithin(memory: seq<Memblock.Region>, start: nat, end: nat)
    requires Memblock.Sorted(memory) && Memblock.Paged(memory)
    requires |memory| == 0 ==> start == end == 0
    requires |memory| > 0 ==>
      start == memory[0].base / PAGE_SIZE && end == Memblock.End(memory[|memory| - 1]) / PAGE_SIZE
    ensures start <= end
    ensures forall k :: 0 <= k < |memory| ==> Within(memory[k], start, end - start)
  {
    hide Memblock.Paged;
    forall k | 0 <= k < |memory|
      ensures start <= end && Within(memory[k], start, end - start)
    {
      Memblock.RegionIsPaged(memory, 0);
      Memblock.RegionIsPaged(memory, |memory| - 1);
    }
  }

  lemma NoneFed(memory: seq<Memblock.Region>, reserved: seq<Memblock.Region>, h: Heads)
    requires h == map[]
    ensures forall x :: IsFree(h, x) <==> Fed(memory, reserved, 0, x)
  {
  }

  lemma AllFed(memory: seq<Memblock.Region>, reserved: seq<Memblock.Region>)
    ensures forall x: nat :: Fed(memory, reserved, |memory|, x) <==>
              Memblock.Covered(memory, x * PAGE_SIZE) && !Memblock.Covered(reserved, x * PAGE_SIZE)
  {
    assert memory[..|memory|] == memory;
  }

  predicate Within(r: Memblock.Region, start: nat, n: nat) {
    start * PAGE_SIZE <= r.base && r.base + r.size <= (start + n) * PAGE_SIZE
  }

  // Frames handed over so far: unreserved frames of the first i RAM regions.
  ghost predicate Fed(memory: seq<Memblock.Region>, reserved: seq<Memblock.Region>, i: nat, x: nat)
    requires i <= |memory|
  {
    Memblock.Covered(memory[..i], x * PAGE_SIZE) && !Memblock.Covered(reserved, x * PAGE_SIZE)
  }

  ghost predicate FedIn(reserved: seq<Memblock.Region>, lo: nat, hi: nat, x: nat) {
    lo <= x < hi && !Memblock.Covered(reserved, x * PAGE_SIZE)
  }

  lemma NotYetFed(memory: seq<Memblock.Region>, reserved: seq<Memblock.Region>, i: nat, p: nat)
    requires Memblock.Sorted(memory) && i < |memory| && memory[i].base <= p * PAGE_SIZE
    ensures !Fed(memory, reserved, i, p)
  {
  }

  lemma FedRegion(memory: seq<Memblock.Region>, reserved: seq<Memblock.Region>, i: nat)
    requires Memblock.Sorted(memory) && i < |memory|
    requires memory[i].base % PAGE_SIZE == 0 && memory[i].size % PAGE_SIZE == 0
    ensures forall x: nat :: Fed(memory, reserved, i + 1, x) <==>
      Fed(memory, reserved, i, x) || FedIn(reserved, memory[i].base / PAGE_SIZE, Memblock.End(memory[i]) / PAGE_SIZE, x)
  {
    forall x: nat
      ensures Fed(memory, reserved, i + 1, x) <==>
        Fed(memory, reserved, i, x) || FedIn(reserved, memory[i].base / PAGE_SIZE, Memblock.End(memory[i]) / PAGE_SIZE, x)
    {
      Memblock.CoveredWithout(memory[..i + 1], i, x * PAGE_SIZE);
      assert Memblock.Remove(memory[..i + 1], i) == memory[..i];
    }
  }

  lemma ListAt(h: Heads, lists: map<Slot, seq<nat>>, s: Slot)
    requires ListsMatch(h, lists) && InTable(s)
    ensures s in lists
    ensures forall p :: p in lists[s] ==> p in h && h[p] == s.order && ZoneOf(p) == s.zone
    ensures lists[s] == [] ==> forall p :: p in h && ZoneOf(p) == s.zone ==> h[p] != s.order
  {
  }

  lemma RemovedBlock(h: Heads, p: nat)
    requires Canonical(h) && p in h
    ensures Canonical(h - {p}) && Clear(h - {p}, p, h[p]) && Aligned(p, h[p])
  {
    hide Idx, Aligned;
    RemoveBlock(h, p);
    forall q | q in h - {p} && h[q] < MAX_ORDER - 1 && Aligned(q, h[q])
      ensures !FreeBuddy(h - {p}, q, h[q])
    {
      assert !FreeBuddy(h, q, h[q]);
    }
  }

  lemma HalfOf(p: nat, o: nat)
    requires o > 0 && Aligned(p, o) && o < MAX_ORDER
    ensures Pow2(o) == 2 * Pow2(o - 1)
    ensures p + Pow2(o - 1) != p
  {
  }

  // After the splitting loop exactly the block handed out has left the free
  // pages.
  lemma TakenTotal(h: Heads, g: Heads, p: nat, top: nat, order: nat)
    requires Canonical(h) && Canonical(g) && p in h && h[p] == top && order <= top < MAX_ORDER
    requires Aligned(p, order) && Clear(g, p, order) && SameTotal(g, p, order, h - {p}, p, top)
    ensures Allocated(h, g, p, order)
    ensures forall z: nat :: |FreeIn(g, z)| == |FreeIn(h, z)| - (if z == ZoneOf(p) then Pow2(order) else 0)
  {
    hide Idx, Aligned, FreeIn, Pow2, Coalesced;
    RemoveBlock(h, p);
    BlockIsFree(h, p);
    assert forall x :: IsFree(h, x) <==> IsFree(g, x) || Idx(x, order) == Idx(p, order);
    forall z: nat
      ensures |FreeIn(g, z)| == |FreeIn(h, z)| - (if z == ZoneOf(p) then Pow2(order) else 0)
    {
      CountFreed(g, h, p, order, z);
    }
  }

  // What the finished block contributes, in free pages and in the counters.
  lemma FreedTotal(h: Heads, g: Heads, pfn: nat, o: nat, h0: Heads, p: nat, order: nat)
    requires Canonical(h0) && Canonical(g) && order < MAX_ORDER && Aligned(p, order) && Clear(h0, p, order)
    requires SameTotal(h, pfn, o, h0, p, order)
    requires forall x :: IsFree(g, x) <==> IsFree(h, x) || Idx(x, o) == Idx(pfn, o)
    ensures forall x :: IsFree(g, x) <==> IsFree(h0, x) || Idx(x, order) == Idx(p, order)
    ensures forall z: nat :: |FreeIn(g, z)| == |FreeIn(h0, z)| + (if z == ZoneOf(p) then Pow2(order) else 0)
  {
    hide Idx, Aligned, IsFree, FreeIn, Pow2, Disjoint, Coalesced;
    forall z: nat
      ensures |FreeIn(g, z)| == |FreeIn(h0, z)| + (if z == ZoneOf(p) then Pow2(order) else 0)
    {
      CountFreed(h0, g, p, order, z);
    }
  }

  lemma SameTotalStart(h: Heads, p: nat, o: nat)
    ensures SameTotal(h, p, o, h, p, o)
  {
  }
}

// The VMA list of an address space (mm/vm.c) and the page map it stands for.
// Addresses are page numbers; file offsets and lengths are in bytes.
module VmaList {
  import opened Common

  datatype Flags = Flags(read: bool, write: bool, exec: bool, shared: bool, io: bool, grows: bool, nc: bool)

  datatype Vma = Vma(start: nat, end: nat, flags: Flags, file: Option<nat>, fileOff: nat, fileBytes: nat, ioBase: nat)

  // What a page of a mapping holds until it is written: device memory, n
  // bytes of a file followed by zeros, or zeros.
  datatype Backing = Device(pa: nat) | FilePart(file: nat, off: nat, n: nat) | Zeros

  datatype Attr = Attr(flags: Flags, backing: Backing)

  function BackingOf(v: Vma, pg: nat): Backing
    requires v.start <= pg
  {
    var delta := (pg - v.start) * PAGE_SIZE;
    if v.flags.io then Device(v.ioBase + delta)
    else if v.file.None? || delta >= v.fileBytes then Zeros
    else FilePart(v.file.value, v.fileOff + delta, if v.fileBytes - delta < PAGE_SIZE then v.fileBytes - delta else PAGE_SIZE)
  }

  predicate Contains(v: Vma, pg: nat) {
    v.start <= pg < v.end
  }

  // The page map: the attributes of page pg, if it is mapped.
  function AttrAt(vmas: seq<Vma>, pg: nat): Option<Attr> {
    if vmas == [] then None
    else if Contains(vmas[0], pg) then Some(Attr(vmas[0].flags, BackingOf(vmas[0], pg)))
    else AttrAt(vmas[1..], pg)
  }

  ghost predicate Ordered(vmas: seq<Vma>) {
    && (forall i :: 0 <= i < |vmas| ==> vmas[i].start < vmas[i].end)
    && (forall i :: 0 <= i < |vmas| && vmas[i].flags.grows ==> vmas[i].file.None? && !vmas[i].flags.io)
    && (forall i, j :: 0 <= i < j < |vmas| ==> vmas[i].end <= vmas[j].start)
  }

  // The VMA that contains a page.
  ghost function VmaAt(vmas: seq<Vma>, pg: nat): (r: Option<Vma>)
    ensures r.Some? ==> Contains(r.value, pg)
    ensures r.Some? <==> AttrAt(vmas, pg).Some?
  {
    if vmas == [] then None
    else if Contains(vmas[0], pg) then Some(vmas[0])
    else VmaAt(vmas[1..], pg)
  }

  lemma {:induction false} VmaAtMember(vmas: seq<Vma>, i: nat, pg: nat)
    requires Ordered(vmas) && i < |vmas| && Contains(vmas[i], pg)
    ensures VmaAt(vmas, pg) == Some(vmas[i])
  {
    if i > 0 {
      assert !Contains(vmas[0], pg);
      OrderedTail(vmas);
      VmaAtMember(vmas[1..], i - 1, pg);
    }
  }

  // ---- the page map of an edited list ----

  lemma {:induction false} AttrOfConcat(a: seq<Vma>, b: seq<Vma>, pg: nat)
    ensures AttrAt(a + b, pg) == if AttrAt(a, pg).Some? then AttrAt(a, pg) else AttrAt(b, pg)
  {
    if a == [] {
      assert a + b == b;
    } else {
      assert (a + b)[1..] == a[1..] + b;
      AttrOfConcat(a[1..], b, pg);
    }
  }

  // A page is mapped by the one VMA that contains it.
  lemma {:induction false} AttrOfMember(vmas: seq<Vma>, i: nat, pg: nat)
    requires Ordered(vmas) && i < |vmas| && Contains(vmas[i], pg)
    ensures AttrAt(vmas, pg) == Some(Attr(vmas[i].flags, BackingOf(vmas[i], pg)))
  {
    if i > 0 {
      assert !Contains(vmas[0], pg);
      OrderedTail(vmas);
      AttrOfMember(vmas[1..], i - 1, pg);
    }
  }

  lemma OrderedTail(vmas: seq<Vma>)
    requires Ordered(vmas) && vmas != []
    ensures Ordered(vmas[1..])
  {
  }

  lemma OrderedAt(vmas: seq<Vma>, i: nat)
    requires Ordered(vmas) && i < |vmas|
    ensures vmas[i].start < vmas[i].end
    ensures i + 1 < |vmas| ==> vmas[i].end <= vmas[i + 1].start
  {
  }

  lemma {:induction false} AttrOfNone(vmas: seq<Vma>, pg: nat)
    requires forall i :: 0 <= i < |vmas| ==> !Contains(vmas[i], pg)
    ensures AttrAt(vmas, pg) == None
  {
    if vmas != [] {
      AttrOfNone(vmas[1..], pg);
    }
  }

  lemma {:induction false} MemberOfAttr(vmas: seq<Vma>, pg: nat) returns (i: nat)
    requires AttrAt(vmas, pg).Some?
    ensures i < |vmas| && Contains(vmas[i], pg)
  {
    if Contains(vmas[0], pg) {
      i := 0;
    } else {
      i := MemberOfAttr(vmas[1..], pg);
      i := i + 1;
    }
  }

  lemma AttrOfSplice(pre: seq<Vma>, mid: seq<Vma>, mid': seq<Vma>, post: seq<Vma>, pg: nat)
    requires AttrAt(mid, pg) == AttrAt(mid', pg)
    ensures AttrAt(pre + mid + post, pg) == AttrAt(pre + mid' + post, pg)
  {
    AttrOfConcat(pre + mid, post, pg);
    AttrOfConcat(pre, mid, pg);
    AttrOfConcat(pre + mid', post, pg);
    AttrOfConcat(pre, mid', pg);
  }

  // ---- vma_split ----

  function SplitLow(v: Vma, at: nat): Vma
    requires v.start < at < v.end
  {
    var delta := (at - v.start) * PAGE_SIZE;
    v.(end := at, fileBytes := if v.fileBytes < delta then v.fileBytes else delta)
  }

  function SplitHigh(v: Vma, at: nat): Vma
    requires v.start < at < v.end
  {
    var delta := (at - v.start) * PAGE_SIZE;
    v.(start := at,
       fileOff := v.fileOff + delta,
       fileBytes := if v.fileBytes > delta then v.fileBytes - delta else 0,
       ioBase := if v.flags.io then v.ioBase + delta else v.ioBase)
  }

  function Splice(vmas: seq<Vma>, i: nat, parts: seq<Vma>): seq<Vma>
    requires i < |vmas|
  {
    vmas[..i] + parts + vmas[i + 1..]
  }

  lemma AttrOfOne(v: Vma, pg: nat)
    ensures AttrAt([v], pg) == if Contains(v, pg) then Some(Attr(v.flags, BackingOf(v, pg))) else None
  {
    assert [v][1..] == [];
  }

  // Replacing part of an ordered list by VMAs that stay inside the gap.
  lemma OrderedSplice(pre: seq<Vma>, mid: seq<Vma>, post: seq<Vma>, lo: nat, hi: nat)
    requires Ordered(pre) && Ordered(mid) && Ordered(post) && lo <= hi
    requires forall i :: 0 <= i < |pre| ==> pre[i].end <= lo
    requires forall i :: 0 <= i < |mid| ==> lo <= mid[i].start && mid[i].end <= hi
    requires forall i :: 0 <= i < |post| ==> hi <= post[i].start
    ensures Ordered(pre + mid + post)
  {
    var all := pre + mid + post;
    var a, b := |pre|, |pre| + |mid|;
    forall i | 0 <= i < |all|
      ensures all[i] == if i < a then pre[i] else if i < b then mid[i - a] else post[i - b]
    {
    }
  }

  lemma OrderedSlice(vmas: seq<Vma>, i: nat, j: nat)
    requires Ordered(vmas) && i <= j <= |vmas|
    ensures Ordered(vmas[i..j])
  {
  }

  lemma SpliceIsOrdered(vmas: seq<Vma>, i: nat, parts: seq<Vma>)
    requires Ordered(vmas) && i < |vmas| && Ordered(parts)
    requires forall j :: 0 <= j < |parts| ==> vmas[i].start <= parts[j].start && parts[j].end <= vmas[i].end
    ensures Ordered(Splice(vmas, i, parts))
  {
    OrderedSlice(vmas, 0, i);
    OrderedSlice(vmas, i + 1, |vmas|);
    assert vmas[0..i] == vmas[..i];
    OrderedSplice(vmas[..i], parts, vmas[i + 1..], vmas[i].start, vmas[i].end);
  }

  // Splitting a VMA anywhere changes the attributes of no page.
  lemma SplitKeepsPageMap(vmas: seq<Vma>, i: nat, at: nat)
    requires Ordered(vmas) && i < |vmas| && vmas[i].start < at < vmas[i].end
    ensures var after := Splice(vmas, i, [SplitLow(vmas[i], at), SplitHigh(vmas[i], at)]);
            && Ordered(after)
            && forall pg :: AttrAt(after, pg) == AttrAt(vmas, pg)
  {
    hide AttrAt, SplitLow, SplitHigh;
    SplitIsOrdered(vmas, i, at);
    forall pg: nat
      ensures AttrAt(Splice(vmas, i, [SplitLow(vmas[i], at), SplitHigh(vmas[i], at)]), pg) == AttrAt(vmas, pg)
    {
      SplitKeepsPage(vmas, i, at, pg);
    }
  }

  lemma SplitKeepsPage(vmas: seq<Vma>, i: nat, at: nat, pg: nat)
    requires i < |vmas| && vmas[i].start < at < vmas[i].end
    ensures AttrAt(Splice(vmas, i, [SplitLow(vmas[i], at), SplitHigh(vmas[i], at)]), pg) == AttrAt(vmas, pg)
  {
    hide AttrAt;
    var v := vmas[i];
    assert vmas == vmas[..i] + [v] + vmas[i + 1..];
    HalvesAgree(v, at, pg);
    AttrOfSplice(vmas[..i], [v], [SplitLow(v, at), SplitHigh(v, at)], vmas[i + 1..], pg);
  }

  lemma SplitIsOrdered(vmas: seq<Vma>, i: nat, at: nat)
    requires Ordered(vmas) && i < |vmas| && vmas[i].start < at < vmas[i].end
    ensures Ordered(Splice(vmas, i, [SplitLow(vmas[i], at), SplitHigh(vmas[i], at)]))
  {
    SpliceIsOrdered(vmas, i, [SplitLow(vmas[i], at), SplitHigh(vmas[i], at)]);
  }

  lemma HalvesAgree(v: Vma, at: nat, pg: nat)
    requires v.start < at < v.end
    ensures AttrAt([SplitLow(v, at), SplitHigh(v, at)], pg) == AttrAt([v], pg)
  {
    var lo, hi := SplitLow(v, at), SplitHigh(v, at);
    assert [lo, hi][1..] == [hi];
    AttrOfOne(hi, pg);
    AttrOfOne(v, pg);
    if Contains(v, pg) {
      if pg < at {
        assert BackingOf(lo, pg) == BackingOf(v, pg);
      } else {
        assert BackingOf(hi, pg) == BackingOf(v, pg);
      }
    }
  }

  // ---- searching the list ----

  // vma_find: the list is scanned only up to the first VMA past the page.
  method VmaFind(vmas: seq<Vma>, pg: nat) returns (r: Option<nat>)
    requires Ordered(vmas)
    ensures r.None? ==> AttrAt(vmas, pg) == None
    ensures r.Some? ==> r.value < |vmas| && Contains(vmas[r.value], pg)
  {
    var i := 0;
    while i < |vmas|
      invariant 0 <= i <= |vmas|
      invariant forall j :: 0 <= j < i ==> vmas[j].end <= pg
    {
      if pg < vmas[i].start {
        break;
      }
      if pg < vmas[i].end {
        return Some(i);
      }
      i := i + 1;
    }
    AttrOfNone(vmas, pg);
    r := None;
  }

  ghost predicate Free(vmas: seq<Vma>, start: nat, end: nat) {
    forall i :: 0 <= i < |vmas| ==> vmas[i].end <= start || end <= vmas[i].start
  }

  // vma_find_intersect: the lowest VMA that meets [start, end).
  method VmaFindIntersect(vmas: seq<Vma>, start: nat, end: nat) returns (r: Option<nat>)
    requires Ordered(vmas)
    ensures r.None? ==> Free(vmas, start, end)
    ensures r.Some? ==> r.value < |vmas| && vmas[r.value].start < end && start < vmas[r.value].end
    ensures r.Some? ==> forall j :: 0 <= j < r.value ==> vmas[j].end <= start
  {
    var i := 0;
    while i < |vmas|
      invariant 0 <= i <= |vmas|
      invariant forall j :: 0 <= j < i ==> vmas[j].end <= start
    {
      if vmas[i].start >= end {
        break;
      }
      if vmas[i].end > start {
        return Some(i);
      }
      i := i + 1;
    }
    r := None;
  }

  // vma_insert into a hole: the new pages appear and no other page changes.
  method VmaInsert(vmas: seq<Vma>, nv: Vma) returns (r: seq<Vma>)
    requires Ordered(vmas) && Ordered([nv]) && Free(vmas, nv.start, nv.end)
    ensures Ordered(r)
    ensures forall pg :: AttrAt(r, pg) == if Contains(nv, pg) then AttrAt([nv], pg) else AttrAt(vmas, pg)
  {
    var i := 0;
    while i < |vmas| && vmas[i].start <= nv.start
      invariant 0 <= i <= |vmas|
      invariant forall j :: 0 <= j < i ==> vmas[j].start <= nv.start
    {
      i := i + 1;
    }
    r := vmas[..i] + [nv] + vmas[i..];
    InsertPageMap(vmas, nv, i);
  }

  lemma InsertPageMap(vmas: seq<Vma>, nv: Vma, i: nat)
    requires Ordered(vmas) && Ordered([nv]) && Free(vmas, nv.start, nv.end) && i <= |vmas|
    requires forall j :: 0 <= j < i ==> vmas[j].start <= nv.start
    requires i < |vmas| ==> vmas[i].start > nv.start
    ensures var r := vmas[..i] + [nv] + vmas[i..];
            && Ordered(r)
            && forall pg :: AttrAt(r, pg) == if Contains(nv, pg) then AttrAt([nv], pg) else AttrAt(vmas, pg)
  {
    hide AttrAt;
    var r := vmas[..i] + [nv] + vmas[i..];
    InsertIsOrdered(vmas, nv, i);
    assert vmas == vmas[..i] + vmas[i..];
    forall pg: nat
      ensures AttrAt(r, pg) == if Contains(nv, pg) then AttrAt([nv], pg) else AttrAt(vmas, pg)
    {
      InsertedPage(vmas[..i], nv, vmas[i..], pg);
    }
  }

  lemma InsertIsOrdered(vmas: seq<Vma>, nv: Vma, i: nat)
    requires Ordered(vmas) && Ordered([nv]) && Free(vmas, nv.start, nv.end) && i <= |vmas|
    requires forall j :: 0 <= j < i ==> vmas[j].start <= nv.start
    requires i < |vmas| ==> vmas[i].start > nv.start
    ensures Ordered(vmas[..i] + [nv] + vmas[i..])
  {
    assert [nv][0] == nv;
    OrderedSlice(vmas, 0, i);
    OrderedSlice(vmas, i, |vmas|);
    assert vmas[0..i] == vmas[..i];
    OrderedSplice(vmas[..i], [nv], vmas[i..], nv.start, nv.end);
  }

  lemma InsertedPage(pre: seq<Vma>, nv: Vma, post: seq<Vma>, pg: nat)
    requires Contains(nv, pg) ==> forall i :: 0 <= i < |pre| ==> !Contains(pre[i], pg)
    ensures AttrAt(pre + [nv] + post, pg) == if Contains(nv, pg) then AttrAt([nv], pg) else AttrAt(pre + post, pg)
  {
    AttrOfOne(nv, pg);
    if Contains(nv, pg) {
      AttrOfNone(pre, pg);
      AttrOfConcat(pre + [nv], post, pg);
      AttrOfConcat(pre, [nv], pg);
    } else {
      assert pre + [] + post == pre + post;
      AttrOfSplice(pre, [], [nv], post, pg);
    }
  }

  const USER_MIN_PAGE := 16
  const USER_END_PAGE := 0x800_0000
  const MMAP_GAP := 0x1000_0000

  // A place for len pages below mmapBase that user space may use.
  ghost predicate Hole(vmas: seq<Vma>, mmapBase: nat, len: nat, x: nat) {
    16 <= x && x + len <= mmapBase && Free(vmas, x, x + len)
  }

  ghost predicate NoHole(vmas: seq<Vma>, mmapBase: nat, len: nat) {
    forall x: nat :: !Hole(vmas, mmapBase, len, x)
  }

  ghost predicate Highest(vmas: seq<Vma>, mmapBase: nat, len: nat, h: nat) {
    Hole(vmas, mmapBase, len, h) && forall x: nat :: Hole(vmas, mmapBase, len, x) ==> x <= h
  }

  // It reaches into the room kept for the heap.
  predicate TooClose(brkStart: nat, brk: nat, len: nat, h: nat) {
    h * PAGE_SIZE < brk + 0x400_0000 && (h + len) * PAGE_SIZE > brkStart
  }

  // What mm_get_unmapped_area answers: the highest hole, unless that is too
  // close to the heap. Then it gives up, or, if the break lies below the start
  // of the heap, takes the highest hole below that start. 0 stands for none.
  ghost predicate AreaIs(vmas: seq<Vma>, mmapBase: nat, brkStart: nat, brk: nat, len: nat, r: nat) {
    && (NoHole(vmas, mmapBase, len) ==> r == 0)
    && forall h: nat :: Highest(vmas, mmapBase, len, h) ==>
         if !TooClose(brkStart, brk, len, h) then r == h
         else if brkStart <= brk then r == 0
         else if r == 0 then NoHole(vmas, brkStart / PAGE_SIZE, len)
         else Highest(vmas, brkStart / PAGE_SIZE, len, r)
  }

  lemma {:induction false} SomeHighest(vmas: seq<Vma>, mmapBase: nat, len: nat, x: nat) returns (h: nat)
    requires Hole(vmas, mmapBase, len, x)
    ensures Highest(vmas, mmapBase, len, h)
    decreases mmapBase - x
  {
    if y: nat :| Hole(vmas, mmapBase, len, y) && y > x {
      h := SomeHighest(vmas, mmapBase, len, y);
    } else {
      h := x;
    }
  }

  // There is only one such answer.
  lemma AreaUnique(vmas: seq<Vma>, mmapBase: nat, brkStart: nat, brk: nat, len: nat, a: nat, b: nat)
    requires AreaIs(vmas, mmapBase, brkStart, brk, len, a) && AreaIs(vmas, mmapBase, brkStart, brk, len, b)
    ensures a == b
  {
    hide Hole, TooClose;
    if x: nat :| Hole(vmas, mmapBase, len, x) {
      var h := SomeHighest(vmas, mmapBase, len, x);
    }
  }

  // With the break where do_brk keeps it, the search fails exactly when there
  // is no hole or the highest one is too close to the heap.
  lemma NoAreaExactly(vmas: seq<Vma>, mmapBase: nat, brkStart: nat, brk: nat, len: nat, r: nat)
    requires AreaIs(vmas, mmapBase, brkStart, brk, len, r) && brkStart <= brk
    ensures r == 0 <==>
            || NoHole(vmas, mmapBase, len)
            || exists h: nat :: Highest(vmas, mmapBase, len, h) && TooClose(brkStart, brk, len, h)
  {
    hide TooClose;
    if x: nat :| Hole(vmas, mmapBase, len, x) {
      var h := SomeHighest(vmas, mmapBase, len, x);
      hide Hole;
    }
  }

  // The mmap base of mm_create, in pages, for the two parts of its random number.
  function MmapBase(stackRnd: nat, mmapRnd: nat): nat
    requires stackRnd < 0x1_0000 && mmapRnd < 0x1_0000
  {
    (0x7f_f000_0000 - 0x80_0000 - MMAP_GAP) / PAGE_SIZE - stackRnd - mmapRnd
  }

  // A space that is full from 100 pages above the heap up to the mmap base,
  // wherever mm_create has put that: the highest free page is too close to the
  // heap, so the search fails, although any page below the heap would do.
  lemma GivesUpEarly(stackRnd: nat, mmapRnd: nat, v: Vma, x: nat)
    requires stackRnd < 0x1_0000 && mmapRnd < 0x1_0000 && !v.flags.grows
    requires var heap := 0x550_0000;
             v.start == heap + 100 && v.end == MmapBase(stackRnd, mmapRnd) && USER_MIN_PAGE <= x < heap
    ensures var base := MmapBase(stackRnd, mmapRnd); var brk := 0x550_0000 * PAGE_SIZE;
            && Ordered([v]) && AreaIs([v], base, brk, brk, 1, 0)
            && Hole([v], base, 1, x) && !TooClose(brk, brk, 1, x)
  {
    var base, h := MmapBase(stackRnd, mmapRnd), 0x550_0000 + 99;
    assert TooClose(0x550_0000 * PAGE_SIZE, 0x550_0000 * PAGE_SIZE, 1, h);
    FullFrom(v, base, h);
    assert Hole([v], base, 1, x);
  }

  lemma FullFrom(v: Vma, base: nat, h: nat)
    requires v.start == h + 1 < v.end == base && USER_MIN_PAGE <= h
    ensures Highest([v], base, 1, h)
  {
    assert [v][0] == v;
  }

  // mm_get_unmapped_area. The heap bounds are byte addresses.
  method GetUnmappedArea(vmas: seq<Vma>, mmapBase: nat, brkStart: nat, brk: nat, len: nat) returns (r: nat)
    requires Ordered(vmas) && len > 0 && brkStart % PAGE_SIZE == 0
    ensures AreaIs(vmas, mmapBase, brkStart, brk, len, r)
    ensures r != 0 ==> USER_MIN_PAGE <= r && r + len <= mmapBase && Free(vmas, r, r + len)
    ensures r != 0 ==> brk + MMAP_GAP / 4 <= r * PAGE_SIZE || (r + len) * PAGE_SIZE <= brkStart
  {
    hide Ordered;
    var top: nat := mmapBase;
    ghost var base: nat, high: nat := mmapBase, 0;
    while true
      invariant top <= base <= mmapBase
      invariant forall x: nat :: Hole(vmas, base, len, x) ==> x + len <= top
      invariant base != mmapBase ==>
                  && Highest(vmas, mmapBase, len, high) && TooClose(brkStart, brk, len, high)
                  && brk < brkStart && base == brkStart / PAGE_SIZE
      decreases top
    {
      if top < len + USER_MIN_PAGE {
        NoneBelow(vmas, base, len, top);
        OnlyHighest(vmas, mmapBase, len);
        return 0;
      }
      var cand := top - len;
      var v := VmaFindIntersect(vmas, cand, top);
      if v.None? {
        HighestIs(vmas, base, len, cand);
        OnlyHighest(vmas, mmapBase, len);
        if cand * PAGE_SIZE < brk + MMAP_GAP / 4 && top * PAGE_SIZE > brkStart {
          if brkStart <= brk {
            return 0;
          }
          base, high := brkStart / PAGE_SIZE, cand;
          top := brkStart / PAGE_SIZE;
        } else {
          return cand;
        }
      } else {
        BelowVma(vmas, base, len, v.value, cand, top);
        top := vmas[v.value].start;
      }
    }
  }

  lemma NoneBelow(vmas: seq<Vma>, base: nat, len: nat, top: nat)
    requires (forall x: nat :: Hole(vmas, base, len, x) ==> x + len <= top) && top < len + USER_MIN_PAGE
    ensures NoHole(vmas, base, len)
  {
    hide Free;
  }

  lemma HighestIs(vmas: seq<Vma>, base: nat, len: nat, cand: nat)
    requires forall x: nat :: Hole(vmas, base, len, x) ==> x + len <= cand + len
    requires cand >= USER_MIN_PAGE && cand + len <= base && Free(vmas, cand, cand + len)
    ensures Highest(vmas, base, len, cand)
  {
    hide Free;
  }

  lemma OnlyHighest(vmas: seq<Vma>, base: nat, len: nat)
    ensures forall a: nat, b: nat :: Highest(vmas, base, len, a) && Highest(vmas, base, len, b) ==> a == b
    ensures NoHole(vmas, base, len) ==> forall a: nat :: !Highest(vmas, base, len, a)
  {
    hide Hole;
  }

  // A hole below top that meets no VMA lies below any VMA that the topmost
  // candidate meets.
  lemma BelowVma(vmas: seq<Vma>, base: nat, len: nat, i: nat, cand: nat, top: nat)
    requires i < |vmas| && vmas[i].start < top && cand < vmas[i].end && cand + len == top
    requires forall x: nat :: Hole(vmas, base, len, x) ==> x + len <= top
    ensures forall x: nat :: Hole(vmas, base, len, x) ==> x + len <= vmas[i].start
  {
  }

  // Growing a stack VMA down into a hole adds zero pages below it.
  lemma GrowPageMap(vmas: seq<Vma>, i: nat, pg: nat)
    requires Ordered(vmas) && i < |vmas| && pg < vmas[i].start && vmas[i].flags.grows
    requires forall j :: 0 <= j < i ==> vmas[j].end <= pg
    ensures Ordered(vmas[i := vmas[i].(start := pg)])
    ensures forall x: nat :: AttrAt(vmas[i := vmas[i].(start := pg)], x) ==
                        if pg <= x < vmas[i].start then Some(Attr(vmas[i].flags, Zeros)) else AttrAt(vmas, x)
    ensures forall x: nat :: pg <= x < vmas[i].start ==> AttrAt(vmas, x) == None
  {
    hide AttrAt;
    var grown := vmas[i := vmas[i].(start := pg)];
    assert Ordered(grown);
    forall x: nat
      ensures AttrAt(grown, x) == if pg <= x < vmas[i].start then Some(Attr(vmas[i].flags, Zeros)) else AttrAt(vmas, x)
      ensures pg <= x < vmas[i].start ==> AttrAt(vmas, x) == None
    {
      ReplacedPage(vmas, i, grown[i], x);
    }
  }

  // The page map after one VMA is replaced by another that keeps the order.
  lemma ReplacedPage(vmas: seq<Vma>, i: nat, v: Vma, pg: nat)
    requires Ordered(vmas) && i < |vmas| && Ordered(vmas[i := v])
    ensures AttrAt(vmas[i := v], pg) ==
            if Contains(v, pg) then Some(Attr(v.flags, BackingOf(v, pg)))
            else if Contains(vmas[i], pg) then None
            else AttrAt(vmas, pg)
    ensures Contains(vmas[i], pg) ==> AttrAt(vmas, pg) == Some(Attr(vmas[i].flags, BackingOf(vmas[i], pg)))
    ensures Contains(v, pg) && !Contains(vmas[i], pg) ==> AttrAt(vmas, pg) == None
  {
    hide AttrAt, BackingOf;
    var after := vmas[i := v];
    if Contains(v, pg) {
      AttrOfMember(after, i, pg);
    } else if Contains(vmas[i], pg) {
      AttrOfNone(after, pg);
    } else {
      assert vmas == vmas[..i] + [vmas[i]] + vmas[i + 1..];
      assert after == vmas[..i] + [v] + vmas[i + 1..];
      AttrOfOne(v, pg);
      AttrOfOne(vmas[i], pg);
      AttrOfSplice(vmas[..i], [vmas[i]], [v], vmas[i + 1..], pg);
    }
    if Contains(vmas[i], pg) {
      AttrOfMember(vmas, i, pg);
    } else if Contains(v, pg) {
      forall j | 0 <= j < |vmas|
        ensures !Contains(vmas[j], pg)
      {
        assert j != i ==> after[j] == vmas[j];
      }
      AttrOfNone(vmas, pg);
    }
  }

  // Deleting a VMA unmaps its pages and no others.
  lemma RemovePageMap(vmas: seq<Vma>, i: nat)
    requires Ordered(vmas) && i < |vmas|
    ensures Ordered(Splice(vmas, i, []))
    ensures forall pg: nat :: AttrAt(Splice(vmas, i, []), pg) == if Contains(vmas[i], pg) then None else AttrAt(vmas, pg)
  {
    hide AttrAt, BackingOf;
    SpliceIsOrdered(vmas, i, []);
    forall pg: nat
      ensures AttrAt(Splice(vmas, i, []), pg) == if Contains(vmas[i], pg) then None else AttrAt(vmas, pg)
    {
      RemovedPage(vmas, i, pg);
    }
  }

  lemma RemovedPage(vmas: seq<Vma>, i: nat, pg: nat)
    requires Ordered(vmas) && i < |vmas|
    ensures AttrAt(Splice(vmas, i, []), pg) == if Contains(vmas[i], pg) then None else AttrAt(vmas, pg)
  {
    hide AttrAt, BackingOf;
    var after := Splice(vmas, i, []);
    if Contains(vmas[i], pg) {
      forall j | 0 <= j < |after|
        ensures !Contains(after[j], pg)
      {
        assert after[j] == if j < i then vmas[j] else vmas[j + 1];
      }
      AttrOfNone(after, pg);
    } else {
      assert vmas == vmas[..i] + [vmas[i]] + vmas[i + 1..];
      AttrOfOne(vmas[i], pg);
      AttrOfNone([], pg);
      AttrOfSplice(vmas[..i], [vmas[i]], [], vmas[i + 1..], pg);
    }
  }

  // Extending a VMA upwards into a hole.
  lemma ExtendPageMap(vmas: seq<Vma>, i: nat, end: nat)
    requires Ordered(vmas) && i < |vmas| && vmas[i].end <= end && Free(vmas, vmas[i].end, end)
    ensures Ordered(vmas[i := vmas[i].(end := end)])
    ensures forall x: nat :: AttrAt(vmas[i := vmas[i].(end := end)], x) ==
                             if vmas[i].end <= x < end then Some(Attr(vmas[i].flags, BackingOf(vmas[i], x))) else AttrAt(vmas, x)
    ensures forall x: nat :: vmas[i].end <= x < end ==> AttrAt(vmas, x) == None
  {
    hide AttrAt, BackingOf;
    var v := vmas[i].(end := end);
    assert Ordered(vmas[i := v]) by {
      if vmas[i].end < end {
        assert forall j :: i < j < |vmas| ==> vmas[i].end <= vmas[j].start;
        assert forall j :: i < j < |vmas| ==> end <= vmas[j].start;
      }
    }
    forall x: nat
      ensures AttrAt(vmas[i := v], x) ==
              if vmas[i].end <= x < end then Some(Attr(vmas[i].flags, BackingOf(vmas[i], x))) else AttrAt(vmas, x)
      ensures vmas[i].end <= x < end ==> AttrAt(vmas, x) == None
    {
      ReplacedPage(vmas, i, v, x);
      if Contains(v, x) {
        SameBacking(vmas[i], v, x);
      }
    }
  }

  lemma SameBacking(v: Vma, w: Vma, pg: nat)
    requires w == v.(end := w.end) && v.start <= pg
    ensures BackingOf(v, pg) == BackingOf(w, pg)
  {
  }
}

// Boot-time memory bookkeeping (mm/memblock.c): sorted lists of RAM and of
// reserved regions, and top-down allocation between them.
module Memblock {
  import opened Common
  import opened CArith

  const MEMBLOCK_MAX := 64

  datatype Region = Region(base: nat, size: nat)

  function End(r: Region): nat {
    r.base + r.size
  }

  // Regions are non-empty, sorted, and do not even touch.
  ghost predicate Sorted(l: seq<Region>) {
    && (forall i :: 0 <= i < |l| ==> l[i].size > 0)
    && (forall i, j :: 0 <= i < j < |l| ==> End(l[i]) < l[j].base)
  }

  predicate Holds(r: Region, x: nat) {
    r.base <= x < End(r)
  }

  ghost predicate Covered(l: seq<Region>, x: nat) {
    exists i :: 0 <= i < |l| && Holds(l[i], x)
  }

  predicate Apart(r: Region, base: nat, end: nat) {
    End(r) < base || end < r.base
  }

  // The table is full and nothing in it merges with [base, end).
  predicate NoRoom(l: seq<Region>, base: nat, end: nat) {
    base < end && |l| == 64 && forall i :: 0 <= i < |l| ==> Apart(l[i], base, end)
  }

  function Remove(l: seq<Region>, i: nat): (r: seq<Region>)
    requires i < |l|
    ensures |r| == |l| - 1 && r[..i] == l[..i]
  {
    l[..i] + l[i + 1..]
  }

  // insert: the list afterwards holds exactly the old addresses and the new
  // ones. None stands for the panic on a full table.
  method Insert(l0: seq<Region>, base0: nat, size: nat) returns (r: Option<seq<Region>>)
    requires Sorted(l0) && |l0| <= MEMBLOCK_MAX
    ensures r.Some? ==> Sorted(r.value) && |r.value| <= MEMBLOCK_MAX
    ensures r.Some? ==> forall x: nat :: Covered(r.value, x) <==> Covered(l0, x) || base0 <= x < base0 + size
    ensures r.None? <==> NoRoom(l0, base0, base0 + size)
  {
    hide Sorted, Covered, Remove;
    if size == 0 {
      return Some(l0);
    }
    var l, base: nat, end: nat := l0, base0, base0 + size;
    var i := 0;
    while i < |l|
      invariant 0 <= i <= |l| <= |l0| && base <= base0 && base0 + size <= end
      invariant Sorted(l)
      invariant forall j :: 0 <= j < i ==> Apart(l[j], base, end)
      invariant SameUnion(l, base, end, l0, base0, base0 + size)
      invariant |l| == |l0| ==> l == l0 && base == base0 && end == base0 + size
      invariant |l| < |l0| ==> exists k :: 0 <= k < |l0| && !Apart(l0[k], base0, base0 + size)
      decreases |l| - i
    {
      if Apart(l[i], base, end) {
        i := i + 1;
      } else {
        MergeRegion(l, i, base, end);
        SameUnionTrans(Remove(l, i), Min(base, l[i].base), Max(end, End(l[i])), l, base, end, l0, base0, base0 + size);
        base, end, l := Min(base, l[i].base), Max(end, End(l[i])), Remove(l, i);
      }
    }
    if |l| == MEMBLOCK_MAX {
      return None;
    }
    i := 0;
    while i < |l| && l[i].base < base
      invariant 0 <= i <= |l|
      invariant forall j :: 0 <= j < i ==> l[j].base < base
    {
      i := i + 1;
    }
    var n := Region(base, end - base);
    PlaceRegion(l, i, n);
    r := Some(Placed(l, i, n));
    assert forall x: nat :: Holds(n, x) <==> base <= x < end;
  }

  ghost predicate SameUnion(l: seq<Region>, b: nat, e: nat, l': seq<Region>, b': nat, e': nat) {
    forall x: nat :: (Covered(l, x) || b <= x < e) <==> (Covered(l', x) || b' <= x < e')
  }

  lemma SameUnionTrans(l1: seq<Region>, b1: nat, e1: nat, l2: seq<Region>, b2: nat, e2: nat, l3: seq<Region>,
      b3: nat, e3: nat)
    requires SameUnion(l1, b1, e1, l2, b2, e2) && SameUnion(l2, b2, e2, l3, b3, e3)
    ensures SameUnion(l1, b1, e1, l3, b3, e3)
  {
  }

  // Swallowing a region that meets or touches [base, end).
  lemma MergeRegion(l: seq<Region>, i: nat, base: nat, end: nat)
    requires Sorted(l) && i < |l| && base < end && !Apart(l[i], base, end)
    requires forall j :: 0 <= j < i ==> Apart(l[j], base, end)
    ensures Sorted(Remove(l, i))
    ensures SameUnion(Remove(l, i), Min(base, l[i].base), Max(end, End(l[i])), l, base, end)
    ensures forall j :: 0 <= j < i ==> Apart(l[j], Min(base, l[i].base), Max(end, End(l[i])))
  {
    var m := Remove(l, i);
    assert forall j :: 0 <= j < |m| ==> m[j] == l[if j < i then j else j + 1];
    forall x: nat
      ensures (Covered(m, x) || Min(base, l[i].base) <= x < Max(end, End(l[i]))) <==> (Covered(l, x) || base <= x < end)
    {
      hide Sorted, Covered, Remove;
      CoveredWithout(l, i, x);
    }
  }

  lemma CoveredWithout(l: seq<Region>, i: nat, x: nat)
    requires i < |l|
    ensures Covered(l, x) <==> Covered(Remove(l, i), x) || Holds(l[i], x)
  {
    var m := Remove(l, i);
    assert forall j :: 0 <= j < |m| ==> m[j] == l[if j < i then j else j + 1];
    if Covered(m, x) {
      var j :| 0 <= j < |m| && Holds(m[j], x);
      assert Holds(l[if j < i then j else j + 1], x);
    }
    if Covered(l, x) {
      var j :| 0 <= j < |l| && Holds(l[j], x);
      if j != i {
        assert Holds(m[if j < i then j else j - 1], x);
      }
    }
  }

  function Placed(l: seq<Region>, i: nat, r: Region): seq<Region>
    requires i <= |l|
  {
    l[..i] + [r] + l[i..]
  }

  lemma PlaceRegion(l: seq<Region>, i: nat, r: Region)
    requires Sorted(l) && i <= |l| && r.size > 0
    requires forall j :: 0 <= j < |l| ==> Apart(l[j], r.base, End(r))
    requires forall j :: 0 <= j < i ==> l[j].base < r.base
    requires i < |l| ==> l[i].base >= r.base
    ensures Sorted(Placed(l, i, r))
    ensures forall x: nat :: Covered(Placed(l, i, r), x) <==> Covered(l, x) || Holds(r, x)
  {
    var m := Placed(l, i, r);
    assert forall j :: 0 <= j < |m| ==> m[j] == if j < i then l[j] else if j == i then r else l[j - 1];
    forall x: nat
      ensures Covered(m, x) <==> Covered(l, x) || Holds(r, x)
    {
      CoveredWithout(m, i, x);
      assert Remove(m, i) == l;
    }
    forall j, k | 0 <= j < k < |m|
      ensures End(m[j]) < m[k].base
    {
      if i < k && i < |l| && k > i + 1 {
        assert End(l[i]) < l[k - 1].base;
      }
    }
  }

  predicate Aligned(x: nat, align: nat)
    requires align > 0
  {
    x % align == 0
  }

  function AlignDown(x: nat, align: nat): nat
    requires align > 0
  {
    x - x % align
  }

  // The floor is the highest multiple at or below x.
  lemma FloorIsMultiple(x: nat, align: nat)
    requires align > 0
    ensures Aligned(AlignDown(x, align), align) && AlignDown(x, align) <= x
  {
    DivMod(AlignDown(x, align), align, x / align, 0);
  }

  lemma FloorIsHighest(x: nat, align: nat, s: nat)
    requires align > 0 && Aligned(s, align) && s <= x
    ensures s <= AlignDown(x, align)
  {
    MultipleOrder(align, s / align, x / align);
  }

  lemma MultipleOrder(b: nat, k: nat, q: nat)
    requires b > 0 && b * k < b * q + b
    ensures b * k <= b * q
  {
    if q < k {
      Monotone(b, q + 1, k);
    } else {
      Monotone(b, k, q);
    }
  }

  lemma Monotone(b: nat, i: nat, j: nat)
    requires i <= j
    ensures b * i <= b * j
  {
    assert b * j == b * i + b * (j - i);
  }

  function AlignUp(x: nat, align: nat): nat
    requires align > 0
  {
    AlignDown(x + align - 1, align)
  }

  // A start address at which `size` bytes lie in a RAM region below the limit.
  predicate Inside(r: Region, s: nat, size: nat, limit: nat) {
    r.base < limit && r.base <= s && s + size <= End(r) && s + size <= limit
  }

  predicate Overlaps(r: Region, s: nat, size: nat) {
    s < End(r) && r.base < s + size
  }

  // Every region ends at or below s, or starts at or above s + size.
  ghost predicate Clear(l: seq<Region>, s: nat, size: nat) {
    forall j :: 0 <= j < |l| ==> l[j].base + l[j].size <= s || s + size <= l[j].base
  }

  // What memblock_alloc is looking for.
  ghost predicate Fits(memory: seq<Region>, reserved: seq<Region>, s: nat, size: nat, align: nat, limit: nat)
    requires align > 0
  {
    && Aligned(s, align)
    && (exists i :: 0 <= i < |memory| && Inside(memory[i], s, size, limit))
    && Clear(reserved, s, size)
  }

  ghost predicate IsHighestFit(memory: seq<Region>, reserved: seq<Region>, s: nat, size: nat, align: nat, limit: nat)
    requires align > 0
  {
    && Fits(memory, reserved, s, size, align, limit)
    && forall t: nat :: Fits(memory, reserved, t, size, align, limit) ==> t <= s
  }

  ghost predicate FitsIn(r: Region, reserved: seq<Region>, s: nat, size: nat, align: nat, limit: nat)
    requires align > 0
  {
    Aligned(s, align) && Inside(r, s, size, limit) && Clear(reserved, s, size)
  }

  // The reservation in the way of [s, s + size) with the lowest index, if any.
  method FirstConflict(reserved: seq<Region>, s: nat, size: nat) returns (j: nat)
    ensures j <= |reserved|
    ensures j == |reserved| <==> Clear(reserved, s, size)
    ensures j < |reserved| ==> Overlaps(reserved[j], s, size)
    ensures forall k :: 0 <= k < j ==> !Overlaps(reserved[k], s, size)
  {
    j := 0;
    while j < |reserved| && !Overlaps(reserved[j], s, size)
      invariant 0 <= j <= |reserved|
      invariant forall k :: 0 <= k < j ==> !Overlaps(reserved[k], s, size)
    {
      j := j + 1;
    }
  }

  // No fit in the region lies above `top`.
  ghost predicate NoneAbove(r: Region, reserved: seq<Region>, size: nat, align: nat, limit: nat, top: int)
    requires align > 0
  {
    forall t: nat :: FitsIn(r, reserved, t, size, align, limit) ==> t <= top
  }

  // The candidate walks down one RAM region, jumping below each conflict.
  method HighestIn(r: Region, reserved: seq<Region>, size: nat, align: nat, limit: nat) returns (s: Option<nat>)
    requires align > 0 && r.size > 0
    ensures s.Some? ==> FitsIn(r, reserved, s.value, size, align, limit)
    ensures NoneAbove(r, reserved, size, align, limit, if s.Some? then s.value else -1)
  {
    hide Clear, AlignDown, Aligned, Overlaps, NoneAbove;
    var lo, hi: nat := r.base, Min(End(r), limit);
    if hi <= lo || hi - lo < size {
      TooSmall(r, reserved, size, align, limit);
      return None;
    }
    var cand: nat := AlignDown(hi - size, align);
    FloorIsMultiple(hi - size, align);
    StartsAbove(r, reserved, size, align, limit);
    while cand >= lo
      invariant Aligned(cand, align) && cand + size <= hi
      invariant NoneAbove(r, reserved, size, align, limit, cand)
      decreases cand
    {
      var j := FirstConflict(reserved, cand, size);
      if j == |reserved| {
        return Some(cand);
      }
      var c := reserved[j].base;
      BelowConflict(r, reserved, size, align, limit, cand, j);
      if c < size {
        return None;
      }
      FloorIsMultiple(c - size, align);
      cand := AlignDown(c - size, align);
    }
    NoneBelow(r, reserved, size, align, limit, cand);
    return None;
  }

  lemma TooSmall(r: Region, reserved: seq<Region>, size: nat, align: nat, limit: nat)
    requires align > 0 && r.size > 0
    requires Min(End(r), limit) <= r.base || Min(End(r), limit) < r.base + size
    ensures NoneAbove(r, reserved, size, align, limit, -1)
  {
    hide Clear, Aligned;
  }

  lemma StartsAbove(r: Region, reserved: seq<Region>, size: nat, align: nat, limit: nat)
    requires align > 0 && size <= Min(End(r), limit)
    ensures NoneAbove(r, reserved, size, align, limit, AlignDown(Min(End(r), limit) - size, align))
  {
    forall t: nat | FitsIn(r, reserved, t, size, align, limit)
      ensures t <= AlignDown(Min(End(r), limit) - size, align)
    {
      FloorIsHighest(Min(End(r), limit) - size, align, t);
    }
  }

  // A clear start at or below a conflicting one ends before the conflict.
  lemma BelowConflict(r: Region, reserved: seq<Region>, size: nat, align: nat, limit: nat, cand: nat, j: nat)
    requires align > 0 && NoneAbove(r, reserved, size, align, limit, cand)
    requires j < |reserved| && Overlaps(reserved[j], cand, size)
    ensures reserved[j].base < cand + size
    ensures var c := reserved[j].base;
            NoneAbove(r, reserved, size, align, limit, if c < size then -1 else AlignDown(c - size, align))
  {
    var c := reserved[j].base;
    forall t: nat | FitsIn(r, reserved, t, size, align, limit)
      ensures t + size <= c && t <= AlignDown(c - size, align)
    {
      assert !Overlaps(reserved[j], t, size);
      FloorIsHighest(c - size, align, t);
    }
  }

  lemma NoneBelow(r: Region, reserved: seq<Region>, size: nat, align: nat, limit: nat, cand: nat)
    requires align > 0 && NoneAbove(r, reserved, size, align, limit, cand) && cand < r.base
    ensures NoneAbove(r, reserved, size, align, limit, -1)
  {
    forall t: nat | FitsIn(r, reserved, t, size, align, limit)
      ensures t <= cand
    {
    }
  }

  // The whole search: the highest fit of all RAM regions.
  method HighestFit(memory: seq<Region>, reserved: seq<Region>, size: nat, align: nat, limit: nat)
    returns (s: Option<nat>)
    requires align > 0 && Sorted(memory)
    ensures s.Some? ==> Fits(memory, reserved, s.value, size, align, limit)
    ensures forall t: nat :: Fits(memory, reserved, t, size, align, limit) ==> s.Some? && t <= s.value
  {
    hide Clear, Aligned;
    var i := |memory|;
    while i > 0
      invariant 0 <= i <= |memory|
      invariant forall k, t: nat :: i <= k < |memory| ==> !FitsIn(memory[k], reserved, t, size, align, limit)
    {
      i := i - 1;
      s := HighestIn(memory[i], reserved, size, align, limit);
      if s.Some? {
        forall t: nat | Fits(memory, reserved, t, size, align, limit)
          ensures t <= s.value
        {
          var k :| 0 <= k < |memory| && Inside(memory[k], t, size, limit);
          assert FitsIn(memory[k], reserved, t, size, align, limit);
          if k < i {
            assert End(memory[k]) < memory[i].base;
          }
        }
        return;
      }
      assert forall t: nat :: !FitsIn(memory[i], reserved, t, size, align, limit);
    }
    forall t: nat
      ensures !Fits(memory, reserved, t, size, align, limit)
    {
      assert forall k :: 0 <= k < |memory| ==> !FitsIn(memory[k], reserved, t, size, align, limit);
    }
    return None;
  }

  // The address lies in a page that is wholly, or partly, in [base, base + size).
  predicate WholePageIn(x: nat, base: nat, size: nat) {
    var p := AlignDown(x, PAGE_SIZE);
    base <= p && p + PAGE_SIZE <= base + size
  }

  predicate PageMeets(x: nat, base: nat, size: nat) {
    var p := AlignDown(x, PAGE_SIZE);
    AlignDown(base, PAGE_SIZE) <= p < base + size
  }

  // Rounding moves no address across a multiple of the page size.
  lemma FloorOrder(x: nat, m: nat)
    requires Aligned(m, PAGE_SIZE)
    ensures x < m <==> AlignDown(x, PAGE_SIZE) < m
    ensures x < m <==> AlignDown(x, PAGE_SIZE) + PAGE_SIZE <= m
  {
    var k := m / PAGE_SIZE;
    var q := x / PAGE_SIZE;
    assert m == PAGE_SIZE * k && x == PAGE_SIZE * q + x % PAGE_SIZE;
  }

  lemma WholePageAt(base: nat, size: nat, x: nat)
    ensures WholePageIn(x, base, size) <==> AlignUp(base, PAGE_SIZE) <= x < AlignDown(base + size, PAGE_SIZE)
    ensures WholePageIn(AlignDown(x, PAGE_SIZE), base, size) == WholePageIn(x, base, size)
  {
    hide AlignDown, Aligned;
    var p := AlignDown(x, PAGE_SIZE);
    FloorIsMultiple(x, PAGE_SIZE);
    FloorIsMultiple(base + PAGE_SIZE - 1, PAGE_SIZE);
    FloorIsMultiple(base + size, PAGE_SIZE);
    FloorOfMultiple(p);
    FloorOrder(x, AlignUp(base, PAGE_SIZE));
    FloorOrder(base + PAGE_SIZE - 1, p + PAGE_SIZE);
    FloorOrder(x, AlignDown(base + size, PAGE_SIZE));
    FloorOrder(base + size, p + PAGE_SIZE);
    FloorOrder(p, AlignUp(base, PAGE_SIZE));
  }

  lemma FloorOfMultiple(p: nat)
    requires Aligned(p, PAGE_SIZE)
    ensures AlignDown(p, PAGE_SIZE) == p && Aligned(p + PAGE_SIZE, PAGE_SIZE)
  {
  }

  lemma PageMeetsAt(base: nat, size: nat, x: nat)
    ensures PageMeets(x, base, size) <==> AlignDown(base, PAGE_SIZE) <= x < AlignUp(base + size, PAGE_SIZE)
    ensures PageMeets(AlignDown(x, PAGE_SIZE), base, size) == PageMeets(x, base, size)
    ensures base <= x < base + size ==> PageMeets(x, base, size)
  {
    hide AlignDown, Aligned;
    var p := AlignDown(x, PAGE_SIZE);
    FloorIsMultiple(x, PAGE_SIZE);
    FloorIsMultiple(base, PAGE_SIZE);
    FloorIsMultiple(base + size + PAGE_SIZE - 1, PAGE_SIZE);
    FloorOfMultiple(p);
    FloorOrder(x, AlignDown(base, PAGE_SIZE));
    FloorOrder(x, AlignUp(base + size, PAGE_SIZE));
    FloorOrder(base + size + PAGE_SIZE - 1, p + PAGE_SIZE);
  }

  lemma WholePages(base: nat, size: nat)
    ensures forall x: nat :: WholePageIn(x, base, size) <==>
              AlignUp(base, PAGE_SIZE) <= x < AlignDown(base + size, PAGE_SIZE)
    ensures forall x: nat :: WholePageIn(AlignDown(x, PAGE_SIZE), base, size) == WholePageIn(x, base, size)
  {
    hide AlignDown, AlignUp, WholePageIn;
    forall x: nat
      ensures WholePageIn(x, base, size) <==> AlignUp(base, PAGE_SIZE) <= x < AlignDown(base + size, PAGE_SIZE)
      ensures WholePageIn(AlignDown(x, PAGE_SIZE), base, size) == WholePageIn(x, base, size)
    {
      WholePageAt(base, size, x);
    }
  }

  lemma RoundedAround(b: nat, e: nat)
    requires b <= e
    ensures AlignDown(b, PAGE_SIZE) <= AlignUp(e, PAGE_SIZE)
  {
  }

  lemma MetPages(base: nat, size: nat)
    ensures forall x: nat :: PageMeets(x, base, size) <==>
              AlignDown(base, PAGE_SIZE) <= x < AlignUp(base + size, PAGE_SIZE)
    ensures forall x: nat :: PageMeets(AlignDown(x, PAGE_SIZE), base, size) == PageMeets(x, base, size)
    ensures forall x: nat :: base <= x < base + size ==> PageMeets(x, base, size)
    ensures AlignDown(base, PAGE_SIZE) <= AlignUp(base + size, PAGE_SIZE)
  {
    hide AlignDown, AlignUp, PageMeets;
    RoundedAround(base, base + size);
    forall x: nat
      ensures PageMeets(x, base, size) <==> AlignDown(base, PAGE_SIZE) <= x < AlignUp(base + size, PAGE_SIZE)
      ensures PageMeets(AlignDown(x, PAGE_SIZE), base, size) == PageMeets(x, base, size)
      ensures base <= x < base + size ==> PageMeets(x, base, size)
    {
      PageMeetsAt(base, size, x);
    }
  }

  // Coverage changes a page at a time.
  ghost predicate Paged(l: seq<Region>) {
    forall x: nat :: Covered(l, x) <==> Covered(l, AlignDown(x, PAGE_SIZE))
  }

  class Memblock {
    var memory: seq<Region>
    var reserved: seq<Region>

    ghost predicate Valid()
      reads this
    {
      && Sorted(memory) && Sorted(reserved)
      && |memory| <= MEMBLOCK_MAX && |reserved| <= MEMBLOCK_MAX
      && Paged(memory) && Paged(reserved)
    }

    constructor ()
      ensures Valid()
      ensures forall x: nat :: !Covered(memory, x) && !Covered(reserved, x)
    {
      memory, reserved := [], [];
    }

    // memblock_add: only whole pages of RAM are entered. `ok` is false when the
    // table is full, where the kernel stops.
    method Add(base: nat, size: nat) returns (ok: bool)
      requires Valid()
      modifies `memory
      ensures Valid()
      ensures ok ==> forall x: nat :: Covered(memory, x) <==> old(Covered(memory, x)) || WholePageIn(x, base, size)
      ensures !ok <==> NoRoom(old(memory), AlignUp(base, PAGE_SIZE), AlignDown(base + size, PAGE_SIZE))
      ensures !ok ==> memory == old(memory)
    {
      hide NoRoom, Covered, Sorted, AlignDown, AlignUp, WholePageIn;
      WholePages(base, size);
      var b, e: nat := AlignUp(base, PAGE_SIZE), AlignDown(base + size, PAGE_SIZE);
      NoRoomForNothing(memory, b, e);
      ok := true;
      if e > b {
        var r := Insert(memory, b, e - b);
        ok := r.Some?;
        if ok {
          memory := r.value;
        }
      }
    }

    // memblock_reserve: every page the range meets becomes reserved.
    method Reserve(base: nat, size: nat) returns (ok: bool)
      requires Valid()
      modifies `reserved
      ensures Valid()
      ensures ok ==> forall x: nat :: Covered(reserved, x) <==> old(Covered(reserved, x)) || PageMeets(x, base, size)
      ensures !ok <==> NoRoom(old(reserved), AlignDown(base, PAGE_SIZE), AlignUp(base + size, PAGE_SIZE))
      ensures !ok ==> reserved == old(reserved)
    {
      hide NoRoom, Covered, Sorted, AlignDown, AlignUp, PageMeets;
      MetPages(base, size);
      var b, e: nat := AlignDown(base, PAGE_SIZE), AlignUp(base + size, PAGE_SIZE);
      var r := Insert(reserved, b, e - b);
      ok := r.Some?;
      if ok {
        reserved := r.value;
      }
    }

    method IsReserved(pa: nat) returns (b: bool)
      ensures b <==> Covered(reserved, pa)
    {
      for i := 0 to |reserved|
        invariant forall j :: 0 <= j < i ==> !Holds(reserved[j], pa)
      {
        if Holds(reserved[i], pa) {
          return true;
        }
      }
      return false;
    }

    // memblock_alloc: the highest fit, reserved. None is the panic when the fit
    // cannot be entered in the table; 0 means that no address but 0 fits.
    method Alloc(size0: nat, align: nat, limit: nat) returns (r: Option<nat>)
      requires Valid() && align > 0
      modifies `reserved
      ensures Valid()
      ensures var size := AlignUp(size0, PAGE_SIZE);
              && ((forall t: nat :: !Fits(memory, old(reserved), t, size, align, limit)) ==>
                    r == Some(0) && reserved == old(reserved))
              && (r.Some? && r.value != 0 ==> IsHighestFit(memory, old(reserved), r.value, size, align, limit))
              && forall s: nat :: IsHighestFit(memory, old(reserved), s, size, align, limit) ==>
                   if NoRoom(old(reserved), AlignDown(s, PAGE_SIZE), AlignUp(s + size, PAGE_SIZE))
                   then r == None && reserved == old(reserved)
                   else
                     && r == Some(s)
                     && forall x: nat :: Covered(reserved, x) <==> old(Covered(reserved, x)) || PageMeets(x, s, size)
    {
      hide NoRoom, Fits, Covered, Sorted, AlignDown, AlignUp, PageMeets;
      var size := AlignUp(size0, PAGE_SIZE);
      var s := HighestFit(memory, reserved, size, align, limit);
      if s.None? {
        return Some(0);
      }
      assert IsHighestFit(memory, reserved, s.value, size, align, limit);
      var ok := Reserve(s.value, size);
      return if ok then s else None;
    }
  }

  lemma NoRoomForNothing(l: seq<Region>, base: nat, end: nat)
    ensures base >= end ==> !NoRoom(l, base, end)
  {
  }

  // What an allocation hands out is RAM that nothing had reserved, so it is
  // disjoint from everything handed out before.
  lemma FitIsUnreserved(memory: seq<Region>, reserved: seq<Region>, s: nat, size: nat, align: nat, limit: nat, x: nat)
    requires align > 0 && Fits(memory, reserved, s, size, align, limit)
    requires s <= x < s + size
    ensures Covered(memory, x) && !Covered(reserved, x) && x < limit
    ensures PageMeets(x, s, size)
  {
    hide AlignDown, PageMeets;
    MetPages(s, size);
    var i :| 0 <= i < |memory| && Inside(memory[i], s, size, limit);
    assert Holds(memory[i], x);
    forall j | 0 <= j < |reserved|
      ensures !Holds(reserved[j], x)
    {
      assert !Overlaps(reserved[j], s, size);
    }
  }

  // A region of a page-wise list starts and ends on page boundaries, since the
  // addresses just outside it are not covered.
  lemma RegionIsPaged(l: seq<Region>, i: nat)
    requires Sorted(l) && Paged(l) && i < |l|
    ensures Aligned(l[i].base, PAGE_SIZE) && Aligned(l[i].size, PAGE_SIZE)
  {
    var b, e := l[i].base, End(l[i]);
    assert Holds(l[i], b) && Holds(l[i], e - 1);
    assert !Covered(l, e);
    if b > 0 {
      assert !Covered(l, b - 1);
      PageEdge(l, b - 1);
    }
    PageEdge(l, e - 1);
  }

  lemma PageEdge(l: seq<Region>, x: nat)
    requires Paged(l) && Covered(l, x) != Covered(l, x + 1)
    ensures Aligned(x + 1, PAGE_SIZE)
  {
    hide Covered;
    assert AlignDown(x, PAGE_SIZE) != AlignDown(x + 1, PAGE_SIZE);
  }
}

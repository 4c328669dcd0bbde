// The operations on the kernel page tables (arch/arm64/mmu.c).
module KernelMap {
  import opened Common
  import opened CArith
  import opened PageTables

  // A descriptor's place: entry `index` of a table of that level.
  datatype Slot = Slot(table: nat, index: nat, level: nat)

  ghost predicate SameMap(tables: Tables, tables': Tables, root: nat) {
    forall p: nat :: Translate(tables', root, p) == Translate(tables, root, p)
  }

  // The translation after pages [va, va + n) are mapped to pa.
  ghost predicate Mapped(tables: Tables, tables': Tables, root: nat, va: nat, n: nat, pa: nat, attrs: nat) {
    forall p: nat :: p < VA_PAGES ==>
      Translate(tables', root, p) ==
        if va <= p < va + n then Some(Tr(pa + p - va, attrs)) else Translate(tables, root, p)
  }

  lemma {:induction false} FreshTable(s: set<nat>)
    ensures exists u: nat :: u !in s
    decreases s
  {
    var n := Bound(s);
    assert n !in s;
  }

  lemma {:induction false} Bound(s: set<nat>) returns (n: nat)
    ensures forall x :: x in s ==> x < n
    decreases s
  {
    if s == {} {
      n := 0;
    } else {
      var x :| x in s;
      var m := Bound(s - {x});
      n := if x < m then m else x + 1;
      assert forall y :: y in s ==> y == x || y in s - {x};
    }
  }

  lemma SlotOnPath(tables: Tables, home: map<nat, Home>, root: nat, p: nat, l: nat)
    requires Inv(tables, home, root) && 1 <= l <= 3 && Path(tables, root, p, l).Some?
    ensures var t := Path(tables, root, p, l).value;
            && t in tables && |tables[t]| == PT_ENTRIES && t in home && home[t].level == l
            && EntryOk(tables, home, t, l, Ix(p, l), tables[t][Ix(p, l)])
            && (l < 3 && tables[t][Ix(p, l)].Table? ==> Path(tables, root, p, l + 1) == Some(tables[t][Ix(p, l)].next))
            && (!tables[t][Ix(p, l)].Table? ==> Translate(tables, root, p) == Leaf(tables[t][Ix(p, l)], p, l))
  {
    PathOk(tables, home, root, p, l);
    LookAlong(tables, root, p, l);
  }

  // After linking a table, the path goes one level further.
  lemma LinkedPath(tables: Tables, home: map<nat, Home>, root: nat, p: nat, l: nat, u: nat, content: seq<Entry>)
    requires Inv(tables, home, root) && 1 <= l < 3 && Path(tables, root, p, l).Some? && u !in tables
    requires LeavesOf(content, l + 1)
    ensures var t := Path(tables, root, p, l).value;
            && t in tables && |tables[t]| == PT_ENTRIES
            && var tables' := Link(tables, t, Ix(p, l), u, content);
               Path(tables', root, p, l) == Some(t) && tables'[t][Ix(p, l)] == Table(u)
  {
    PathOk(tables, home, root, p, l);
    var t := Path(tables, root, p, l).value;
    PathStays(tables, home, root, p, l, t, Ix(p, l), Table(u));
    AddTable(SetEntry(tables, t, Ix(p, l), Table(u)), root, p, l, u, content, tables, home);
    assert Link(tables, t, Ix(p, l), u, content) == SetEntry(tables, t, Ix(p, l), Table(u))[u := content];
  }

  lemma {:induction false} AddTable(tables': Tables, root: nat, p: nat, l: nat, u: nat, content: seq<Entry>,
      tables: Tables, home: map<nat, Home>)
    requires Inv(tables, home, root) && 1 <= l <= 3 && Path(tables, root, p, l).Some? && u !in tables
    requires tables'.Keys == tables.Keys && forall k :: 1 <= k <= l ==> Path(tables', root, p, k) == Path(tables, root, p, k)
    ensures Path(tables'[u := content], root, p, l) == Path(tables', root, p, l)
  {
    if l > 1 {
      PathOk(tables, home, root, p, l - 1);
      AddTable(tables', root, p, l - 1, u, content, tables, home);
    }
  }

  lemma LinkSameMap(tables: Tables, home: map<nat, Home>, root: nat, t: nat, i: nat, u: nat, content: seq<Entry>)
    requires Inv(tables, home, root) && t in tables && i < |tables[t]| && u !in tables
    requires home[t].level < 3 && LeavesOf(content, home[t].level + 1) && !tables[t][i].Table?
    requires SameMeaning(tables[t][i], content, home[t].level)
    ensures SameMap(tables, Link(tables, t, i, u, content), root)
  {
    forall p: nat
      ensures Translate(Link(tables, t, i, u, content), root, p) == Translate(tables, root, p)
    {
      LinkLooks(tables, home, root, t, i, u, content, root, 1, p);
    }
  }

  class KernelTables {
    const root: nat
    var tables: Tables
    ghost var home: map<nat, Home>

    ghost predicate Valid()
      reads this
    {
      Inv(tables, home, root)
    }

    // An empty root table.
    constructor (root: nat)
      ensures Valid() && this.root == root && forall p: nat :: Translate(tables, root, p) == None
    {
      this.root := root;
      tables, home := map[root := seq(PT_ENTRIES, _ => Invalid)], map[root := Home(1, 0, 0)];
    }

    // A table page that is not in use.
    method AllocTable() returns (u: nat)
      ensures u !in tables
    {
      FreshTable(tables.Keys);
      u :| u !in tables.Keys;
    }

    // split_block: the block's entry becomes a table; no translation changes.
    method SplitBlock(t: nat, i: nat, level: nat)
      requires Valid() && t in tables && i < |tables[t]| && home[t].level == level && 1 <= level < 3
      requires tables[t][i].Block?
      modifies this
      ensures Valid() && SameMap(old(tables), tables, root)
      ensures exists u :: u !in old(tables) && tables == Link(old(tables), t, i, u, SplitTable(old(tables)[t][i], level))
    {
      hide Inv, TableOk, Look, LeavesOf, SameMeaning, Link;
      var blk := tables[t][i];
      var u := AllocTable();
      var content: seq<Entry> := [];
      for j := 0 to PT_ENTRIES
        invariant content == SplitTable(blk, level)[..j]
      {
        content := content + [if level == 1 then Block(blk.addr + j * Span(2), blk.attrs)
                              else Page(blk.addr + j * Span(3), blk.attrs)];
      }
      assert content == SplitTable(blk, level);
      BlockAligned(tables, home, root, t, i);
      SplitMeaning(blk, level);
      LinkKeepsInv(tables, home, root, t, i, u, content);
      LinkSameMap(tables, home, root, t, i, u, content);
      home := home[u := Home(level + 1, t, i)];
      tables := Link(tables, t, i, u, content);
    }

    // walk with alloc: the entry of p at `level`, making tables on the way.
    method WalkAlloc(p: nat, level: nat) returns (t: nat)
      requires Valid() && 1 <= level <= 3
      modifies this
      ensures Valid() && SameMap(old(tables), tables, root)
      ensures Path(tables, root, p, level) == Some(t)
      ensures p < VA_PAGES ==> EndsStay(old(tables), tables, root, p, level)
    {
      hide Inv, TableOk, Look, LeavesOf, SameMeaning, Link, SameMap, EndsStay;
      SameMapRefl(tables, root);
      EndsSame(tables, root, p, level);
      t := root;
      for l := 1 to level
        invariant Valid() && SameMap(old(tables), tables, root)
        invariant p < VA_PAGES ==> EndsStay(old(tables), tables, root, p, level)
        invariant Path(tables, root, p, l) == Some(t)
      {
        SlotOnPath(tables, home, root, p, l);
        var i := Ix(p, l);
        ghost var before, home1 := tables, home;
        match tables[t][i] {
          case Invalid =>
            var u := AllocTable();
            EmptyMeaning(l);
            LinkKeepsInv(tables, home, root, t, i, u, EmptyTable());
            LinkSameMap(tables, home, root, t, i, u, EmptyTable());
            LinkedPath(tables, home, root, p, l, u, EmptyTable());
            if p < VA_PAGES {
              EndsLinked(old(tables), tables, home, root, p, l, u, EmptyTable(), level);
            }
            home := home[u := Home(l + 1, t, i)];
            tables := Link(tables, t, i, u, EmptyTable());
          case Block(_, _) =>
            ghost var blk := tables[t][i];
            SplitBlock(t, i, l);
            ghost var u :| u !in before && tables == Link(before, t, i, u, SplitTable(blk, l));
            SplitMeaning(blk, l);
            LinkedPath(before, home1, root, p, l, u, SplitTable(blk, l));
            if p < VA_PAGES {
              EndsLinked(old(tables), before, home1, root, p, l, u, SplitTable(blk, l), level);
            }
          case Table(_) =>
            SameMapRefl(tables, root);
        }
        SameMapTrans(old(tables), before, tables, root);
        SlotOnPath(tables, home, root, p, l);
        t := tables[t][i].next;
      }
    }

    // walk without alloc: the entry where the walk of p stops, or None where
    // a table is missing.
    method WalkFind(p: nat, level: nat) returns (r: Option<Slot>)
      requires Valid() && 1 <= level <= 3
      ensures r.None? ==> Translate(tables, root, p) == None && Path(tables, root, p, level) == None
      ensures r.Some? ==>
                && 1 <= r.value.level <= level && r.value.index == Ix(p, r.value.level)
                && Path(tables, root, p, r.value.level) == Some(r.value.table)
                && (r.value.level < level ==>
                      && r.value.table in tables && |tables[r.value.table]| == PT_ENTRIES
                      && tables[r.value.table][r.value.index].Block? && Path(tables, root, p, level) == None)
    {
      hide Inv, TableOk, Look;
      var t := root;
      for l := 1 to level
        invariant Path(tables, root, p, l) == Some(t)
      {
        SlotOnPath(tables, home, root, p, l);
        var e := tables[t][Ix(p, l)];
        if !e.Table? {
          PathEnds(tables, root, p, l, level);
          return if e.Invalid? then None else Some(Slot(t, Ix(p, l), l));
        }
        t := e.next;
      }
      r := Some(Slot(t, Ix(p, level), level));
    }

    // Mapping one aligned block, or one page.
    method MapBlock(va: nat, pa: nat, level: nat, attrs: nat)
      requires Valid() && 1 <= level <= 3 && va % Span(level) == 0 && pa % Span(level) == 0
      requires va + Span(level) <= VA_PAGES
      modifies this
      ensures Valid() && Mapped(old(tables), tables, root, va, Span(level), pa, attrs)
      ensures Ended(old(tables), tables, root, va, level)
    {
      hide Inv, TableOk, Look, SameMap, Mapped, EndsStay, Ended;
      var t := WalkAlloc(va, level);
      SlotOnPath(tables, home, root, va, level);
      var e := if level < 3 then Block(pa, attrs) else Page(pa, attrs);
      BlockMapped(tables, home, root, va, level, pa, attrs);
      LeafKeepsInv(tables, home, root, t, Ix(va, level), e);
      ghost var before := tables;
      EndsWritten(old(tables), tables, home, root, va, level, e);
      tables := SetEntry(tables, t, Ix(va, level), e);
      SameThenMapped(old(tables), before, tables, root, va, Span(level), pa, attrs);
    }

    // map_range: the largest blocks that fit give the same map as single pages.
    // Every page of the range is in the largest block that lies in the range and
    // is aligned in both address spaces.
    method MapRange(va0: nat, pa0: nat, n0: nat, attrs: nat)
      requires Valid() && va0 + n0 <= VA_PAGES
      modifies this
      ensures Valid() && Mapped(old(tables), tables, root, va0, n0, pa0, attrs)
      ensures forall q, l :: va0 <= q < va0 + n0 && 1 <= l <= 3 && Eligible(va0, pa0, n0, q, l) ==>
                EndLevel(tables, root, q) <= l
    {
      hide Inv, Mapped, Translate, EndLevel, Span, Blk, Ended, InBlocks, Largest, Eligible, BetweenBlocks;
      var va, pa, n: nat := va0, pa0, n0;
      NothingMapped(tables, root, va0, pa0, attrs);
      StartsBetween(tables, root, va0, pa0, n0);
      while n > 0
        invariant Valid() && n <= n0 && va == va0 + (n0 - n) && pa == pa0 + (n0 - n)
        invariant Mapped(old(tables), tables, root, va0, n0 - n, pa0, attrs)
        invariant InBlocks(tables, root, va0, va) && Largest(tables, root, va0, pa0, n0, va)
        invariant BetweenBlocks(va0, pa0, n0, va)
        decreases n
      {
        var level := if va % Span(1) == 0 && pa % Span(1) == 0 && n >= Span(1) then 1
                     else if va % Span(2) == 0 && pa % Span(2) == 0 && n >= Span(2) then 2
                     else 3;
        ghost var before := tables;
        PickIs(va, pa, n, level);
        MapBlock(va, pa, level, attrs);
        MappedMore(old(tables), before, tables, root, va0, n0 - n, pa0, Span(level), attrs);
        NextBlock(before, tables, root, va0, pa0, n0, va, level);
        va, pa, n := va + Span(level), pa + Span(level), n - Span(level);
      }
      AllLargest(tables, root, va0, pa0, n0);
    }

    method MapKernelPage(va: nat, pa: nat, attrs: nat)
      requires Valid() && va < VA_PAGES
      modifies this
      ensures Valid() && Mapped(old(tables), tables, root, va, 1, pa, attrs)
    {
      hide Inv, Mapped;
      MapBlock(va, pa, 3, attrs);
    }

    // unmap_kernel_page: the page goes if it has a level-3 entry of its own; a
    // page inside a block stays mapped.
    method UnmapKernelPage(va: nat)
      requires Valid() && va < VA_PAGES
      modifies this
      ensures Valid()
      ensures forall p: nat :: p < VA_PAGES ==>
                Translate(tables, root, p) ==
                  if p == va && Path(old(tables), root, va, 3).Some? then None else Translate(old(tables), root, p)
    {
      hide Inv, TableOk, Look, Translate;
      var e := WalkFind(va, 3);
      if e.Some? {
        SlotOnPath(tables, home, root, va, e.value.level);
        var t, i := e.value.table, e.value.index;
        if !tables[t][i].Invalid? && !tables[t][i].Block? {
          forall p: nat | p < VA_PAGES
            ensures Translate(SetEntry(tables, t, i, Invalid), root, p) ==
                      if p == va then None else Translate(tables, root, p)
          {
            WriteLeaf(tables, home, root, va, 3, Invalid, p);
          }
          LeafKeepsInv(tables, home, root, t, i, Invalid);
          tables := SetEntry(tables, t, i, Invalid);
        }
      }
    }

    // kernel_va_to_phys, for a byte address; 0 where nothing is mapped.
    method VaToPhys(va: nat) returns (r: nat)
      requires Valid() && va < VA_PAGES * PAGE_SIZE
      ensures r == match Translate(tables, root, va / PAGE_SIZE)
                   case None => 0
                   case Some(tr) => tr.pfn * PAGE_SIZE + va % PAGE_SIZE
    {
      hide Inv, TableOk, Look, Translate;
      var p := va / PAGE_SIZE;
      var t := root;
      for l := 1 to 4
        invariant l < 4 && Path(tables, root, p, l) == Some(t)
      {
        SlotOnPath(tables, home, root, p, l);
        var e := tables[t][Ix(p, l)];
        match e {
          case Invalid =>
            return 0;
          case Block(a, _) =>
            ByteOffset(va, l);
            return a * PAGE_SIZE + va % (Span(l) * PAGE_SIZE);
          case Page(a, _) =>
            ByteOffset(va, l);
            return a * PAGE_SIZE + va % (Span(l) * PAGE_SIZE);
          case Table(u) =>
            t := u;
        }
      }
      assert false;
    }
  }

  // ---- the largest blocks ----

  // First page of the level-l block of q.
  ghost function Start(q: nat, l: nat): nat {
    q - q % Span(l)
  }

  // The level-l block of q lies in the range, and could be mapped as one.
  ghost predicate Eligible(va0: nat, pa0: nat, n0: nat, q: nat, l: nat) {
    va0 <= Start(q, l) && Start(q, l) + Span(l) <= va0 + n0 && va0 % Span(l) == pa0 % Span(l)
  }

  // Walks that do not end above `level` in a block with p end where they did.
  ghost predicate EndsStay(a: Tables, b: Tables, root: nat, p: nat, level: nat) {
    forall q: nat :: q < VA_PAGES ==>
      var j := EndLevel(a, root, q);
      j >= level || Blk(q, j) != Blk(p, j) ==> EndLevel(b, root, q) == j
  }

  lemma EndsSame(a: Tables, root: nat, p: nat, level: nat)
    ensures EndsStay(a, a, root, p, level)
  {
  }

  lemma EndsLinked(a: Tables, b: Tables, home: map<nat, Home>, root: nat, p: nat, l: nat, u: nat, content: seq<Entry>,
      level: nat)
    requires EndsStay(a, b, root, p, level) && Inv(b, home, root) && 1 <= l < level <= 3 && p < VA_PAGES && u !in b
    requires Path(b, root, p, l).Some?
    requires var t := Path(b, root, p, l).value; t in b && Ix(p, l) < |b[t]| && !b[t][Ix(p, l)].Table?
    ensures EndsStay(a, Link(b, Path(b, root, p, l).value, Ix(p, l), u, content), root, p, level)
  {
    hide Inv, Blk, EndLevel, Path, Link;
    var t := Path(b, root, p, l).value;
    forall q: nat | q < VA_PAGES
      ensures var j := EndLevel(a, root, q);
              j >= level || Blk(q, j) != Blk(p, j) ==> EndLevel(Link(b, t, Ix(p, l), u, content), root, q) == j
    {
      LinkEnds(b, home, root, p, l, u, content, q);
    }
  }

  // A write of one block ends its walks there, and no others elsewhere.
  ghost predicate Ended(a: Tables, b: Tables, root: nat, va: nat, level: nat) {
    forall q: nat :: q < VA_PAGES ==>
      var j := EndLevel(a, root, q);
      && (Blk(q, level) == Blk(va, level) ==> EndLevel(b, root, q) == level)
      && (Blk(q, level) != Blk(va, level) && (j >= level || Blk(q, j) != Blk(va, j)) ==> EndLevel(b, root, q) == j)
  }

  lemma EndsWritten(a: Tables, b: Tables, home: map<nat, Home>, root: nat, va: nat, level: nat, e: Entry)
    requires EndsStay(a, b, root, va, level) && Inv(b, home, root) && 1 <= level <= 3 && va < VA_PAGES && !e.Table?
    requires Path(b, root, va, level).Some?
    requires var t := Path(b, root, va, level).value; t in b && Ix(va, level) < |b[t]|
    ensures Ended(a, SetEntry(b, Path(b, root, va, level).value, Ix(va, level), e), root, va, level)
  {
    hide Inv, Blk, EndLevel, Path, SetEntry;
    var c := SetEntry(b, Path(b, root, va, level).value, Ix(va, level), e);
    forall q: nat | q < VA_PAGES
      ensures EndLevel(c, root, q) == if Blk(q, level) == Blk(va, level) then level else EndLevel(b, root, q)
    {
      LeafEnds(b, home, root, va, level, e, q);
    }
  }

  // Every page of [lo, hi) is mapped by a block that lies there.
  ghost predicate InBlocks(tables: Tables, root: nat, lo: nat, hi: nat) {
    forall q: nat :: lo <= q < hi ==>
      var j := EndLevel(tables, root, q);
      1 <= j <= 3 && lo <= Start(q, j) && Start(q, j) + Span(j) <= hi
  }

  // Every eligible block that lies below hi is mapped by one entry.
  ghost predicate Largest(tables: Tables, root: nat, va0: nat, pa0: nat, n0: nat, hi: nat) {
    forall q: nat, l :: va0 <= q < hi && 1 <= l <= 3 && Eligible(va0, pa0, n0, q, l) && Start(q, l) + Span(l) <= hi ==>
      EndLevel(tables, root, q) <= l
  }

  lemma AllLargest(tables: Tables, root: nat, va0: nat, pa0: nat, n0: nat)
    requires Largest(tables, root, va0, pa0, n0, va0 + n0)
    ensures forall q, l :: va0 <= q < va0 + n0 && 1 <= l <= 3 && Eligible(va0, pa0, n0, q, l) ==>
              EndLevel(tables, root, q) <= l
  {
    hide EndLevel, Span;
  }

  // va is not inside an eligible block.
  ghost predicate BetweenBlocks(va0: nat, pa0: nat, n0: nat, va: nat) {
    forall l :: 1 <= l <= 3 && Eligible(va0, pa0, n0, va, l) ==> Start(va, l) == va
  }

  lemma StartsBetween(tables: Tables, root: nat, va0: nat, pa0: nat, n0: nat)
    ensures InBlocks(tables, root, va0, va0) && Largest(tables, root, va0, pa0, n0, va0) && BetweenBlocks(va0, pa0, n0, va0)
  {
    hide EndLevel, Span;
  }

  // The level map_range picks.
  ghost predicate Picks(va: nat, pa: nat, n: nat, level: nat) {
    && 1 <= level <= 3 && va % Span(level) == 0 && pa % Span(level) == 0 && n >= Span(level)
    && forall l :: 1 <= l < level ==> !(va % Span(l) == 0 && pa % Span(l) == 0 && n >= Span(l))
  }

  lemma PickIs(va: nat, pa: nat, n: nat, level: nat)
    requires n > 0
    requires level == if va % Span(1) == 0 && pa % Span(1) == 0 && n >= Span(1) then 1
                      else if va % Span(2) == 0 && pa % Span(2) == 0 && n >= Span(2) then 2 else 3
    ensures Picks(va, pa, n, level)
    ensures 1 <= level <= 3 && va % Span(level) == 0 && pa % Span(level) == 0 && n >= Span(level)
  {
  }

  lemma StartIs(x: nat, l: nat, b: nat)
    requires b % Span(l) == 0 && b <= x < b + Span(l)
    ensures Start(x, l) == b && Blk(x, l) * Span(l) == b
  {
    hide Span;
    var n := Span(l);
    assert b == n * (b / n) + b % n;
    DivMod(x, n, b / n, x - b);
  }

  lemma StartFacts(x: nat, l: nat)
    ensures Start(x, l) % Span(l) == 0 && Start(x, l) <= x < Start(x, l) + Span(l)
  {
    hide Span;
    var n := Span(l);
    assert x == n * (x / n) + x % n;
    DivMod(x - x % n, n, x / n, 0);
  }

  // A page below va keeps its block, a page of the new block gets it.
  lemma BlockOf(a: Tables, b: Tables, root: nat, va0: nat, va: nat, level: nat, q: nat)
    requires InBlocks(a, root, va0, va) && Ended(a, b, root, va, level) && 1 <= level <= 3 && va % Span(level) == 0
    requires va0 <= q < va + Span(level) <= VA_PAGES
    ensures EndLevel(b, root, q) == if q < va then EndLevel(a, root, q) else level
    ensures q >= va ==> Start(q, level) == va
  {
    hide EndLevel;
    InBlock(va, level, q);
    if q < va {
      var j := EndLevel(a, root, q);
      StartFacts(q, j);
      StartFacts(va, j);
      hide Span;
      if Blk(q, j) == Blk(va, j) {
        SameStart(q, va, j);
      }
    }
  }

  lemma SameStart(x: nat, y: nat, l: nat)
    requires Blk(x, l) == Blk(y, l)
    ensures Start(x, l) == Start(y, l)
  {
    hide Span;
    var n := Span(l);
    assert x == n * (x / n) + x % n && y == n * (y / n) + y % n;
  }

  // Two pages of which one is in the other's block have the same block.
  lemma SharedBlock(va0: nat, pa0: nat, n0: nat, x: nat, y: nat, l: nat)
    requires Start(x, l) <= y < Start(x, l) + Span(l)
    ensures Start(y, l) == Start(x, l) && (Eligible(va0, pa0, n0, y, l) <==> Eligible(va0, pa0, n0, x, l))
  {
    hide Span;
    StartFacts(x, l);
    StartIs(y, l, Start(x, l));
  }

  // The new position is between blocks again.
  lemma StaysBetween(va0: nat, pa0: nat, n0: nat, va: nat, level: nat, l: nat)
    requires va0 <= va <= va0 + n0 && BetweenBlocks(va0, pa0, n0, va) && Picks(va, pa0 + (va - va0), va0 + n0 - va, level)
    requires 1 <= l <= 3 && Eligible(va0, pa0, n0, va + Span(level), l)
    ensures Start(va + Span(level), l) == va + Span(level)
  {
    var hi := va + Span(level);
    var b := Start(hi, l);
    StartFacts(hi, l);
    if b < va {
      SharedBlock(va0, pa0, n0, hi, va, l);
    } else if b == va {
      CouldPick(va0, pa0, n0, va, l);
    } else if b < hi {
      NoBoundary(va, level, l, b);
    }
  }

  // A block that is eligible where map_range stands is one it could pick.
  lemma CouldPick(va0: nat, pa0: nat, n0: nat, va: nat, l: nat)
    requires va0 <= va && 1 <= l <= 3 && va % Span(l) == 0 && va0 % Span(l) == pa0 % Span(l)
    ensures (pa0 + (va - va0)) % Span(l) == 0
  {
    var n := Span(l);
    hide Span;
    var d := pa0 / n - va0 / n;
    assert pa0 == n * (pa0 / n) + pa0 % n && va0 == n * (va0 / n) + va0 % n && va == n * (va / n) + va % n;
    assert pa0 + (va - va0) == n * (d + va / n);
    DivMod(pa0 + (va - va0), n, d + va / n, 0);
  }

  // Inside an aligned block there is a boundary only of smaller ones, and then
  // its end is one too.
  lemma NoBoundary(va: nat, level: nat, l: nat, b: nat)
    requires 1 <= level <= 3 && 1 <= l <= 3 && va % Span(level) == 0 && b % Span(l) == 0
    requires va < b < va + Span(level)
    ensures (va + Span(level)) % Span(l) == 0 && Start(va + Span(level), l) == va + Span(level)
  {
    var n := Span(level);
    if l <= level {
      Coarser(b, l, level);
      NextMultiple(va, b, n);
    } else {
      EndsToo(va, n);
      Coarser(va + n, level, l);
    }
  }

  lemma Coarser(x: nat, l: nat, k: nat)
    requires 1 <= l <= k <= 3 && x % Span(l) == 0
    ensures x % Span(k) == 0
  {
    if l == 1 && k == 2 {
      DivMod(x, 512, 512 * (x / 262144), 0);
    }
  }

  lemma NextMultiple(x: nat, y: nat, n: nat)
    requires n > 0 && x % n == 0 && y % n == 0 && x < y
    ensures x + n <= y
  {
    var i, j := x / n, y / n;
    assert x == n * i && y == n * j;
    assert y - x == n * (j - i);
    if y < x + n {
      MultipleInside(n, j - i);
    }
  }

  lemma EndsToo(x: nat, n: nat)
    requires n > 0 && x % n == 0
    ensures (x + n) % n == 0
  {
    DivMod(x + n, n, x / n + 1, 0);
  }

  lemma NextBlock(a: Tables, b: Tables, root: nat, va0: nat, pa0: nat, n0: nat, va: nat, level: nat)
    requires va0 <= va < va0 + n0 <= VA_PAGES && Ended(a, b, root, va, level)
    requires Picks(va, pa0 + (va - va0), va0 + n0 - va, level)
    requires InBlocks(a, root, va0, va) && Largest(a, root, va0, pa0, n0, va) && BetweenBlocks(va0, pa0, n0, va)
    ensures var hi := va + Span(level);
            InBlocks(b, root, va0, hi) && Largest(b, root, va0, pa0, n0, hi) && BetweenBlocks(va0, pa0, n0, hi)
  {
    var hi := va + Span(level);
    hide EndLevel, Ended;
    forall q: nat | va0 <= q < hi
      ensures EndLevel(b, root, q) == if q < va then EndLevel(a, root, q) else level
      ensures q >= va ==> Start(q, level) == va
    {
      BlockOf(a, b, root, va0, va, level, q);
    }
    forall q: nat, l | va0 <= q < hi && 1 <= l <= 3 && Eligible(va0, pa0, n0, q, l) && Start(q, l) + Span(l) <= hi
      ensures EndLevel(b, root, q) <= l
    {
      LargestHere(a, b, root, va0, pa0, n0, va, level, q, l);
    }
    forall l | 1 <= l <= 3 && Eligible(va0, pa0, n0, hi, l)
      ensures Start(hi, l) == hi
    {
      StaysBetween(va0, pa0, n0, va, level, l);
    }
  }

  lemma LargestHere(a: Tables, b: Tables, root: nat, va0: nat, pa0: nat, n0: nat, va: nat, level: nat, q: nat, l: nat)
    requires Largest(a, root, va0, pa0, n0, va) && BetweenBlocks(va0, pa0, n0, va) && 1 <= level <= 3 && 1 <= l <= 3
    requires va0 <= q < va + Span(level) && Eligible(va0, pa0, n0, q, l) && Start(q, l) + Span(l) <= va + Span(level)
    requires EndLevel(b, root, q) == if q < va then EndLevel(a, root, q) else level
    ensures EndLevel(b, root, q) <= l
  {
    hide EndLevel, Eligible;
    StartFacts(q, l);
    if Start(q, l) < va < Start(q, l) + Span(l) {
      SharedBlock(va0, pa0, n0, q, va, l);
    }
  }

  lemma PathEnds(tables: Tables, root: nat, p: nat, l: nat, k: nat)
    requires 1 <= l < k <= 3 && Path(tables, root, p, l).Some?
    requires var t := Path(tables, root, p, l).value;
             t in tables && |tables[t]| == PT_ENTRIES && !tables[t][Ix(p, l)].Table?
    ensures Path(tables, root, p, k) == None
  {
    assert Path(tables, root, p, l + 1) == None;
  }

  lemma InBlock(va: nat, l: nat, q: nat)
    requires 1 <= l <= 3 && va % Span(l) == 0
    ensures Blk(q, l) == Blk(va, l) <==> va <= q < va + Span(l)
    ensures Blk(q, l) == Blk(va, l) ==> q % Span(l) == q - va
  {
  }

  lemma BlockMapped(tables: Tables, home: map<nat, Home>, root: nat, va: nat, l: nat, pa: nat, attrs: nat)
    requires Inv(tables, home, root) && 1 <= l <= 3 && va % Span(l) == 0 && va + Span(l) <= VA_PAGES
    requires Path(tables, root, va, l).Some?
    ensures var t := Path(tables, root, va, l).value;
            && t in tables && Ix(va, l) < |tables[t]|
            && Mapped(tables, SetEntry(tables, t, Ix(va, l), if l < 3 then Block(pa, attrs) else Page(pa, attrs)),
                      root, va, Span(l), pa, attrs)
  {
    hide Inv, Translate, Path, Blk, Span;
    var e := if l < 3 then Block(pa, attrs) else Page(pa, attrs);
    WriteLeaf(tables, home, root, va, l, e, va);
    forall q: nat | q < VA_PAGES
      ensures Translate(SetEntry(tables, Path(tables, root, va, l).value, Ix(va, l), e), root, q) ==
                if va <= q < va + Span(l) then Some(Tr(pa + q - va, attrs)) else Translate(tables, root, q)
    {
      WriteLeaf(tables, home, root, va, l, e, q);
      InBlock(va, l, q);
    }
  }

  lemma SameThenMapped(a: Tables, b: Tables, c: Tables, root: nat, va: nat, n: nat, pa: nat, attrs: nat)
    requires SameMap(a, b, root) && Mapped(b, c, root, va, n, pa, attrs)
    ensures Mapped(a, c, root, va, n, pa, attrs)
  {
    hide Translate;
  }

  lemma NothingMapped(tables: Tables, root: nat, va: nat, pa: nat, attrs: nat)
    ensures Mapped(tables, tables, root, va, 0, pa, attrs)
  {
    hide Translate;
  }

  lemma MappedMore(a: Tables, b: Tables, c: Tables, root: nat, va: nat, n: nat, pa: nat, m: nat, attrs: nat)
    requires Mapped(a, b, root, va, n, pa, attrs) && Mapped(b, c, root, va + n, m, pa + n, attrs)
    ensures Mapped(a, c, root, va, n + m, pa, attrs)
  {
    hide Translate;
  }

  lemma ByteOffset(va: nat, l: nat)
    requires 1 <= l <= 3
    ensures va % (Span(l) * PAGE_SIZE) == (va / PAGE_SIZE) % Span(l) * PAGE_SIZE + va % PAGE_SIZE
  {
    var p := va / PAGE_SIZE;
    var q, r := p / Span(l), p % Span(l);
    assert p == Span(l) * q + r;
    DivMod(va, Span(l) * PAGE_SIZE, q, r * PAGE_SIZE + va % PAGE_SIZE);
  }

  lemma SameMapRefl(tables: Tables, root: nat)
    ensures SameMap(tables, tables, root)
  {
  }

  lemma SameMapTrans(a: Tables, b: Tables, c: Tables, root: nat)
    requires SameMap(a, b, root) && SameMap(b, c, root)
    ensures SameMap(a, c, root)
  {
    hide Translate;
  }

  lemma BlockAligned(tables: Tables, home: map<nat, Home>, root: nat, t: nat, i: nat)
    requires Inv(tables, home, root) && t in tables && i < |tables[t]| && tables[t][i].Block?
    ensures home[t].level < 3 ==> tables[t][i].addr % Span(home[t].level) == 0
  {
    assert TableOk(tables, home, t);
    assert EntryOk(tables, home, t, home[t].level, i, tables[t][i]);
  }
}

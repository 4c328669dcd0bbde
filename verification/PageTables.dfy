// Kernel page tables (arch/arm64/mmu.c): three levels with 4 KiB granule, where
// an entry of level 1 or 2 may be a block. Addresses are page numbers; the
// tables live in a heap, each in its own page.
module PageTables {
  import opened Common
  import opened CArith

  const PT_ENTRIES := 512
  const VA_PAGES := 134217728  // 39-bit addresses

  datatype Entry = Invalid | Block(addr: nat, attrs: nat) | Page(addr: nat, attrs: nat) | Table(next: nat)

  type Tables = map<nat, seq<Entry>>

  // What a page translates to.
  datatype Tr = Tr(pfn: nat, attrs: nat)

  // The level of a table and the one entry that may point to it.
  datatype Home = Home(level: nat, parent: nat, index: nat)

  // Pages covered by one entry of a level (1 GiB, 2 MiB, 4 KiB).
  function Span(l: nat): (n: nat)
    ensures n > 0
  {
    if l <= 1 then 262144 else if l == 2 then 512 else 1
  }

  function Blk(p: nat, l: nat): nat {
    p / Span(l)
  }

  function Ix(p: nat, l: nat): (i: nat)
    ensures i < PT_ENTRIES
  {
    Blk(p, l) % PT_ENTRIES
  }

  predicate EntryOk(tables: Tables, home: map<nat, Home>, t: nat, l: nat, i: nat, e: Entry) {
    match e
    case Invalid => true
    case Block(a, _) => l < 3 && a % Span(l) == 0
    case Page(_, _) => l == 3
    case Table(u) => l < 3 && u in tables && u in home && home[u] == Home(l + 1, t, i)
  }

  ghost predicate TableOk(tables: Tables, home: map<nat, Home>, t: nat)
    requires t in tables
  {
    && t in home && 1 <= home[t].level <= 3 && |tables[t]| == PT_ENTRIES
    && forall i :: 0 <= i < PT_ENTRIES ==> EntryOk(tables, home, t, home[t].level, i, tables[t][i])
  }

  ghost predicate Inv(tables: Tables, home: map<nat, Home>, root: nat) {
    && root in tables && root in home && home[root].level == 1
    && forall t :: t in tables ==> TableOk(tables, home, t)
  }

  function Leaf(e: Entry, p: nat, l: nat): Option<Tr> {
    match e
    case Invalid => None
    case Block(a, at) => Some(Tr(a + p % Span(l), at))
    case Page(a, at) => Some(Tr(a + p % Span(l), at))
    case Table(_) => None
  }

  // The hardware walk from a table of level l on.
  ghost function Look(tables: Tables, t: nat, l: nat, p: nat): Option<Tr>
    decreases 4 - l
  {
    if t !in tables || |tables[t]| != PT_ENTRIES || l > 3 then None
    else
      var e := tables[t][Ix(p, l)];
      if e.Table? then Look(tables, e.next, l + 1, p) else Leaf(e, p, l)
  }

  ghost function Translate(tables: Tables, root: nat, p: nat): Option<Tr> {
    Look(tables, root, 1, p)
  }

  // The table of level l on the walk of p.
  ghost function Path(tables: Tables, root: nat, p: nat, l: nat): Option<nat> {
    if l <= 1 then Some(root)
    else
      var u := Path(tables, root, p, l - 1);
      if u.Some? && u.value in tables && |tables[u.value]| == PT_ENTRIES && tables[u.value][Ix(p, l - 1)].Table?
      then Some(tables[u.value][Ix(p, l - 1)].next) else None
  }

  lemma {:induction false} PathOk(tables: Tables, home: map<nat, Home>, root: nat, p: nat, l: nat)
    requires Inv(tables, home, root) && 1 <= l <= 3 && Path(tables, root, p, l).Some?
    ensures var t := Path(tables, root, p, l).value; t in tables && TableOk(tables, home, t) && home[t].level == l
  {
    if l > 1 {
      PathOk(tables, home, root, p, l - 1);
    }
  }

  // A block number splits into the block above and the index.
  lemma BlkSplit(p: nat, l: nat)
    requires 1 < l <= 3
    ensures Blk(p, l) == PT_ENTRIES * Blk(p, l - 1) + Ix(p, l)
  {
    DivMod(p, Span(l - 1), Blk(p, l) / PT_ENTRIES, p - Span(l - 1) * (Blk(p, l) / PT_ENTRIES));
  }

  // Two walks meet in a table only if they agree down to it.
  lemma {:induction false} SamePrefix(tables: Tables, home: map<nat, Home>, root: nat, p: nat, q: nat, l: nat)
    requires Inv(tables, home, root) && 1 < l <= 3
    requires Path(tables, root, p, l).Some? && Path(tables, root, q, l) == Path(tables, root, p, l)
    requires p < VA_PAGES && q < VA_PAGES
    ensures Blk(p, l - 1) == Blk(q, l - 1)
  {
    PathOk(tables, home, root, p, l - 1);
    PathOk(tables, home, root, q, l - 1);
    var t := Path(tables, root, p, l - 1).value;
    var u := Path(tables, root, q, l - 1).value;
    assert EntryOk(tables, home, t, l - 1, Ix(p, l - 1), tables[t][Ix(p, l - 1)]);
    assert EntryOk(tables, home, u, l - 1, Ix(q, l - 1), tables[u][Ix(q, l - 1)]);
    if l > 2 {
      SamePrefix(tables, home, root, p, q, l - 1);
      BlkSplit(p, l - 1);
      BlkSplit(q, l - 1);
    }
  }

  // ---- writing one entry ----

  function SetEntry(tables: Tables, t: nat, i: nat, e: Entry): Tables
    requires t in tables && i < |tables[t]|
  {
    tables[t := tables[t][i := e]]
  }

  // The walk of q from a level-l table reads entry i of table t.
  ghost predicate Hits(tables: Tables, u: nat, l: nat, q: nat, t: nat, i: nat)
    decreases 4 - l
  {
    && u in tables && |tables[u]| == PT_ENTRIES && l <= 3
    && ((u == t && Ix(q, l) == i)
        || (tables[u][Ix(q, l)].Table? && Hits(tables, tables[u][Ix(q, l)].next, l + 1, q, t, i)))
  }

  lemma {:induction false} LookOff(tables: Tables, u: nat, l: nat, q: nat, t: nat, i: nat, e: Entry)
    requires t in tables && i < |tables[t]| && !Hits(tables, u, l, q, t, i)
    ensures Look(SetEntry(tables, t, i, e), u, l, q) == Look(tables, u, l, q)
    decreases 4 - l
  {
    if l <= 3 && u in tables && |tables[u]| == PT_ENTRIES && tables[u][Ix(q, l)].Table? {
      LookOff(tables, tables[u][Ix(q, l)].next, l + 1, q, t, i, e);
    }
  }

  // Reaching an entry means having its table on the path at its level.
  lemma {:induction false} HitsOnPath(tables: Tables, home: map<nat, Home>, root: nat, l: nat, q: nat, t: nat, i: nat)
    requires Inv(tables, home, root) && 1 <= l <= 3 && Path(tables, root, q, l).Some? && t in tables
    requires Hits(tables, Path(tables, root, q, l).value, l, q, t, i)
    ensures var k := home[t].level;
            1 <= k <= 3 && Path(tables, root, q, k) == Some(t) && Ix(q, k) == i
    decreases 4 - l
  {
    PathOk(tables, home, root, q, l);
    assert TableOk(tables, home, t);
    var u := Path(tables, root, q, l).value;
    if !(u == t && Ix(q, l) == i) {
      assert EntryOk(tables, home, u, l, Ix(q, l), tables[u][Ix(q, l)]);
      HitsOnPath(tables, home, root, l + 1, q, t, i);
    }
  }

  // Upper levels of a path do not notice a write in a table of level l.
  lemma {:induction false} PathStays(tables: Tables, home: map<nat, Home>, root: nat, q: nat, k: nat, t: nat, i: nat,
      e: Entry)
    requires Inv(tables, home, root) && t in tables && i < PT_ENTRIES && 1 <= k <= home[t].level
    ensures i < |tables[t]| && Path(SetEntry(tables, t, i, e), root, q, k) == Path(tables, root, q, k)
  {
    assert TableOk(tables, home, t);
    if k > 1 {
      PathStays(tables, home, root, q, k - 1, t, i, e);
      if Path(tables, root, q, k - 1).Some? {
        PathOk(tables, home, root, q, k - 1);
      }
    }
  }

  lemma LeafKeepsInv(tables: Tables, home: map<nat, Home>, root: nat, t: nat, i: nat, e: Entry)
    requires Inv(tables, home, root) && t in tables && i < |tables[t]| && EntryOk(tables, home, t, home[t].level, i, e)
    ensures Inv(SetEntry(tables, t, i, e), home, root)
  {
    var tables' := SetEntry(tables, t, i, e);
    forall u | u in tables'
      ensures TableOk(tables', home, u)
    {
      assert TableOk(tables, home, u);
      forall j | 0 <= j < PT_ENTRIES
        ensures EntryOk(tables', home, u, home[u].level, j, tables'[u][j])
      {
        assert EntryOk(tables, home, u, home[u].level, j, tables[u][j]);
      }
    }
  }

  // Writing a leaf changes the translation of exactly the pages under it.
  lemma WriteLeaf(tables: Tables, home: map<nat, Home>, root: nat, p: nat, l: nat, e: Entry, q: nat)
    requires Inv(tables, home, root) && 1 <= l <= 3 && p < VA_PAGES && q < VA_PAGES
    requires Path(tables, root, p, l).Some? && !e.Table?
    ensures var t := Path(tables, root, p, l).value;
            && t in tables && Ix(p, l) < |tables[t]|
            && Translate(SetEntry(tables, t, Ix(p, l), e), root, q) ==
               if Blk(q, l) == Blk(p, l) then Leaf(e, q, l) else Translate(tables, root, q)
  {
    PathOk(tables, home, root, p, l);
    var t, i := Path(tables, root, p, l).value, Ix(p, l);
    var tables' := SetEntry(tables, t, i, e);
    if Blk(q, l) == Blk(p, l) {
      SamePath(tables, root, p, q, l);
      PathStays(tables, home, root, q, l, t, i, e);
      LookAlong(tables', root, q, l);
    } else if Hits(tables, root, 1, q, t, i) {
      HitsOnPath(tables, home, root, 1, q, t, i);
      if l > 1 {
        SamePrefix(tables, home, root, p, q, l);
        BlkSplit(p, l);
        BlkSplit(q, l);
      }
      assert false;
    } else {
      LookOff(tables, root, 1, q, t, i, e);
    }
  }

  // Pages of one block share the walk down to its level.
  lemma {:induction false} SamePath(tables: Tables, root: nat, p: nat, q: nat, l: nat)
    requires 1 <= l <= 3 && Blk(q, l) == Blk(p, l)
    ensures Path(tables, root, q, l) == Path(tables, root, p, l)
  {
    if l > 1 {
      BlkSplit(p, l);
      BlkSplit(q, l);
      SamePath(tables, root, p, q, l - 1);
    }
  }

  lemma {:induction false} LookAlong(tables: Tables, root: nat, q: nat, l: nat)
    requires 1 <= l <= 3 && Path(tables, root, q, l).Some?
    ensures Translate(tables, root, q) == Look(tables, Path(tables, root, q, l).value, l, q)
  {
    if l > 1 {
      LookAlong(tables, root, q, l - 1);
    }
  }

  // ---- putting a table where an entry was ----

  function Link(tables: Tables, t: nat, i: nat, u: nat, content: seq<Entry>): Tables
    requires t in tables && i < |tables[t]| && u !in tables
  {
    tables[u := content][t := tables[t][i := Table(u)]]
  }

  // The new table translates as the entry it replaces did.
  ghost predicate SameMeaning(e: Entry, content: seq<Entry>, l: nat)
    requires |content| == PT_ENTRIES
  {
    forall q: nat :: Leaf(content[Ix(q, l + 1)], q, l + 1) == Leaf(e, q, l)
  }

  predicate LeavesOf(content: seq<Entry>, l: nat) {
    && |content| == PT_ENTRIES && 1 <= l <= 3
    && forall j :: 0 <= j < PT_ENTRIES ==> !content[j].Table? && EntryOk(map[], map[], 0, l, j, content[j])
  }

  lemma LinkKeepsInv(tables: Tables, home: map<nat, Home>, root: nat, t: nat, i: nat, u: nat, content: seq<Entry>)
    requires Inv(tables, home, root) && t in tables && i < |tables[t]| && u !in tables
    requires home[t].level < 3 && LeavesOf(content, home[t].level + 1)
    ensures Inv(Link(tables, t, i, u, content), home[u := Home(home[t].level + 1, t, i)], root)
  {
    var tables', home' := Link(tables, t, i, u, content), home[u := Home(home[t].level + 1, t, i)];
    assert TableOk(tables, home, t);
    forall w | w in tables'
      ensures TableOk(tables', home', w)
    {
      if w != u {
        assert TableOk(tables, home, w);
        forall j | 0 <= j < PT_ENTRIES
          ensures EntryOk(tables', home', w, home'[w].level, j, tables'[w][j])
        {
          assert EntryOk(tables, home, w, home[w].level, j, tables[w][j]);
        }
      } else {
        forall j | 0 <= j < PT_ENTRIES
          ensures EntryOk(tables', home', w, home'[w].level, j, content[j])
        {
          assert EntryOk(map[], map[], 0, home[t].level + 1, j, content[j]);
        }
      }
    }
  }

  lemma {:induction false} LinkLooks(tables: Tables, home: map<nat, Home>, root: nat, t: nat, i: nat, u: nat,
      content: seq<Entry>, w: nat, l: nat, q: nat)
    requires Inv(tables, home, root) && t in tables && i < |tables[t]| && u !in tables
    requires home[t].level < 3 && LeavesOf(content, home[t].level + 1) && !tables[t][i].Table?
    requires SameMeaning(tables[t][i], content, home[t].level)
    requires w in tables && home[w].level == l
    ensures Look(Link(tables, t, i, u, content), w, l, q) == Look(tables, w, l, q)
    decreases 4 - l
  {
    var tables' := Link(tables, t, i, u, content);
    assert TableOk(tables, home, w) && TableOk(tables, home, t);
    var j := Ix(q, l);
    var e := tables[w][j];
    assert EntryOk(tables, home, w, l, j, e);
    if w == t && j == i {
      assert tables'[w][j] == Table(u) && tables'[u] == content;
      assert Look(tables', u, l + 1, q) == Leaf(content[Ix(q, l + 1)], q, l + 1);
    } else if e.Table? {
      LinkLooks(tables, home, root, t, i, u, content, e.next, l + 1, q);
    }
  }

  // split_block's table.
  function SplitTable(e: Entry, l: nat): seq<Entry>
    requires e.Block? && 1 <= l < 3
  {
    seq(PT_ENTRIES, j requires 0 <= j < PT_ENTRIES =>
      if l == 1 then Block(e.addr + j * Span(2), e.attrs) else Page(e.addr + j * Span(3), e.attrs))
  }

  lemma SplitOffset(q: nat, l: nat)
    requires 1 <= l < 3
    ensures q % Span(l) == Ix(q, l + 1) * Span(l + 1) + q % Span(l + 1)
  {
    BlkSplit(q, l + 1);
  }

  lemma SplitMeaning(e: Entry, l: nat)
    requires e.Block? && 1 <= l < 3 && e.addr % Span(l) == 0
    ensures LeavesOf(SplitTable(e, l), l + 1) && SameMeaning(e, SplitTable(e, l), l)
  {
    forall q: nat
      ensures Leaf(SplitTable(e, l)[Ix(q, l + 1)], q, l + 1) == Leaf(e, q, l)
    {
      SplitOffset(q, l);
    }
  }

  function EmptyTable(): seq<Entry> {
    seq(PT_ENTRIES, _ => Invalid)
  }

  lemma EmptyMeaning(l: nat)
    requires 1 <= l < 3
    ensures LeavesOf(EmptyTable(), l + 1) && SameMeaning(Invalid, EmptyTable(), l)
  {
  }

  // ---- where a walk ends ----

  // The level of the entry at which the walk of p from a level-l table ends.
  ghost function Depth(tables: Tables, t: nat, l: nat, p: nat): nat
    decreases 4 - l
  {
    if t in tables && |tables[t]| == PT_ENTRIES && l <= 3 && tables[t][Ix(p, l)].Table?
    then Depth(tables, tables[t][Ix(p, l)].next, l + 1, p) else l
  }

  // 1 for a gibibyte block, 2 for a 2 MiB block, 3 for a page; or where nothing
  // is mapped.
  ghost function EndLevel(tables: Tables, root: nat, p: nat): nat {
    Depth(tables, root, 1, p)
  }

  lemma {:induction false} DepthOff(tables: Tables, u: nat, l: nat, q: nat, t: nat, i: nat, e: Entry)
    requires t in tables && i < |tables[t]| && !Hits(tables, u, l, q, t, i)
    ensures Depth(SetEntry(tables, t, i, e), u, l, q) == Depth(tables, u, l, q)
    decreases 4 - l
  {
    if l <= 3 && u in tables && |tables[u]| == PT_ENTRIES && tables[u][Ix(q, l)].Table? {
      DepthOff(tables, tables[u][Ix(q, l)].next, l + 1, q, t, i, e);
    }
  }

  lemma {:induction false} DepthAlong(tables: Tables, root: nat, q: nat, l: nat)
    requires 1 <= l <= 3 && Path(tables, root, q, l).Some?
    ensures EndLevel(tables, root, q) == Depth(tables, Path(tables, root, q, l).value, l, q)
  {
    if l > 1 {
      DepthAlong(tables, root, q, l - 1);
    }
  }

  // The entry of p is read by the walks of its own block alone.
  lemma OnlyItsBlockHits(tables: Tables, home: map<nat, Home>, root: nat, p: nat, l: nat, q: nat)
    requires Inv(tables, home, root) && 1 <= l <= 3 && p < VA_PAGES && q < VA_PAGES && Path(tables, root, p, l).Some?
    requires Blk(q, l) != Blk(p, l)
    ensures !Hits(tables, root, 1, q, Path(tables, root, p, l).value, Ix(p, l))
  {
    PathOk(tables, home, root, p, l);
    var t, i := Path(tables, root, p, l).value, Ix(p, l);
    if Hits(tables, root, 1, q, t, i) {
      HitsOnPath(tables, home, root, 1, q, t, i);
      if l > 1 {
        SamePrefix(tables, home, root, p, q, l);
        BlkSplit(p, l);
        BlkSplit(q, l);
      }
      assert false;
    }
  }

  // Writing a leaf ends the walks of its block there, and changes no other.
  lemma LeafEnds(tables: Tables, home: map<nat, Home>, root: nat, p: nat, l: nat, e: Entry, q: nat)
    requires Inv(tables, home, root) && 1 <= l <= 3 && p < VA_PAGES && q < VA_PAGES
    requires Path(tables, root, p, l).Some? && !e.Table?
    ensures var t := Path(tables, root, p, l).value;
            && t in tables && Ix(p, l) < |tables[t]|
            && EndLevel(SetEntry(tables, t, Ix(p, l), e), root, q) ==
               if Blk(q, l) == Blk(p, l) then l else EndLevel(tables, root, q)
  {
    PathOk(tables, home, root, p, l);
    var t, i := Path(tables, root, p, l).value, Ix(p, l);
    if Blk(q, l) == Blk(p, l) {
      SamePath(tables, root, p, q, l);
      PathStays(tables, home, root, q, l, t, i, e);
      DepthAlong(SetEntry(tables, t, i, e), root, q, l);
    } else {
      OnlyItsBlockHits(tables, home, root, p, l, q);
      DepthOff(tables, root, 1, q, t, i, e);
    }
  }

  lemma {:induction false} LinkDepth(tables: Tables, home: map<nat, Home>, root: nat, t: nat, i: nat, u: nat,
      content: seq<Entry>, w: nat, l: nat, q: nat)
    requires Inv(tables, home, root) && t in tables && i < |tables[t]| && u !in tables
    requires w in tables && home[w].level == l && !Hits(tables, w, l, q, t, i)
    ensures Depth(Link(tables, t, i, u, content), w, l, q) == Depth(tables, w, l, q)
    decreases 4 - l
  {
    assert TableOk(tables, home, w) && TableOk(tables, home, t);
    var e := tables[w][Ix(q, l)];
    assert EntryOk(tables, home, w, l, Ix(q, l), e);
    if e.Table? {
      LinkDepth(tables, home, root, t, i, u, content, e.next, l + 1, q);
    }
  }

  // A table linked in where the walk of p ends leaves the walks of other blocks
  // alone; those of its own block ended there too.
  lemma LinkEnds(tables: Tables, home: map<nat, Home>, root: nat, p: nat, l: nat, u: nat, content: seq<Entry>, q: nat)
    requires Inv(tables, home, root) && 1 <= l < 3 && p < VA_PAGES && q < VA_PAGES && u !in tables
    requires Path(tables, root, p, l).Some?
    ensures var t := Path(tables, root, p, l).value;
            && t in tables && |tables[t]| == PT_ENTRIES
            && if Blk(q, l) == Blk(p, l) then tables[t][Ix(p, l)].Table? || EndLevel(tables, root, q) == l
               else EndLevel(Link(tables, t, Ix(p, l), u, content), root, q) == EndLevel(tables, root, q)
  {
    PathOk(tables, home, root, p, l);
    var t := Path(tables, root, p, l).value;
    assert TableOk(tables, home, t);
    if Blk(q, l) == Blk(p, l) {
      SamePath(tables, root, p, q, l);
      DepthAlong(tables, root, q, l);
    } else {
      OnlyItsBlockHits(tables, home, root, p, l, q);
      LinkDepth(tables, home, root, t, Ix(p, l), u, content, root, 1, q);
    }
  }
}

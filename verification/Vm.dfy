// User address spaces (mm/vm.c): page tables, reference-counted pages, demand
// paging and copy-on-write, for all address spaces together.
module Vm {
  import opened Common
  import opened VmaList

  datatype Key = Key(mm: nat, pg: nat)

  // A valid page-table entry. `frame` is a page frame, or for device memory
  // (PTE_SW_SHARED) a physical address that is never reference counted.
  datatype Pte = Pte(frame: nat, rdonly: bool, cow: bool, io: bool)

  // `shared` marks the pages of MAP_SHARED mappings; it is kept for the proof
  // and decides nothing.
  datatype Page = Page(refs: int, data: seq<Byte>, shared: bool)

  datatype Mm = Mm(vmas: seq<Vma>, brkStart: nat, brk: nat, mmapBase: nat, stackTop: nat, rss: int)

  // `pages` holds the frames that are allocated to user memory.
  datatype State = State(files: map<nat, seq<Byte>>, spaces: map<nat, Mm>, ptes: map<Key, Pte>, pages: map<nat, Page>)

  function Attrs(s: State, k: Key): Option<Attr> {
    if k.mm in s.spaces then AttrAt(s.spaces[k.mm].vmas, k.pg) else None
  }

  function SharedAt(s: State, k: Key): bool {
    Attrs(s, k).Some? && Attrs(s, k).value.flags.shared
  }

  // ---- what an address space reads ----

  // The contents fill_page gives a fresh page.
  function Fill(files: map<nat, seq<Byte>>, b: Backing): seq<Byte> {
    seq(PAGE_SIZE, i requires 0 <= i < PAGE_SIZE =>
      if b.FilePart? && i < b.n && b.file in files && b.off + i < |files[b.file]| then files[b.file][b.off + i]
      else 0)
  }

  datatype Content = Bytes(data: seq<Byte>) | DeviceMemory(pa: nat)

  datatype Cell = Cell(flags: Flags, content: Content)

  // The abstract memory: what a load from page k would see, whether or not
  // the page has been faulted in.
  function Mem(s: State, k: Key): Option<Cell> {
    match Attrs(s, k)
    case None => None
    case Some(a) =>
      Some(Cell(a.flags,
                if a.backing.Device? then DeviceMemory(a.backing.pa)
                else if k in s.ptes && s.ptes[k].frame in s.pages then Bytes(s.pages[s.ptes[k].frame].data)
                else Bytes(Fill(s.files, a.backing))))
  }

  // ---- the invariant ----

  function Mappers(ptes: map<Key, Pte>, p: nat): set<Key> {
    set k | k in ptes && !ptes[k].io && ptes[k].frame == p
  }

  function Resident(ptes: map<Key, Pte>, m: nat): set<Key> {
    set k | k in ptes && !ptes[k].io && k.mm == m
  }

  ghost predicate SpacesOk(s: State) {
    forall m :: m in s.spaces ==>
      Ordered(s.spaces[m].vmas) && s.spaces[m].rss == |Resident(s.ptes, m)|
  }

  // An entry never allows more than its mapping; only private entries may be
  // read-only while the mapping is writable.
  predicate PteFits(e: Pte, a: Attr) {
    && (e.io <==> a.backing == Device(e.frame))
    && (e.io <==> a.backing.Device?)
    && (!e.rdonly ==> a.flags.write)
    && (a.flags.shared || e.io ==> !e.cow && e.rdonly == !a.flags.write)
  }

  // A writable private entry is the only mapping of its page, and no page is
  // mapped both privately and shared.
  predicate FrameFits(e: Pte, a: Attr, pages: map<nat, Page>) {
    e.io ||
    (&& e.frame in pages
     && pages[e.frame].shared == a.flags.shared
     && (!a.flags.shared && !e.rdonly ==> pages[e.frame].refs == 1))
  }

  ghost predicate PtesOk(s: State) {
    forall k :: k in s.ptes ==>
      && Attrs(s, k).Some?
      && PteFits(s.ptes[k], Attrs(s, k).value)
      && FrameFits(s.ptes[k], Attrs(s, k).value, s.pages)
  }

  // Every reference count is the number of entries that map the page.
  ghost predicate Counted(s: State) {
    forall p :: p in s.pages ==> s.pages[p].refs == |Mappers(s.ptes, p)| > 0
  }

  ghost predicate Inv(s: State) {
    SpacesOk(s) && PtesOk(s) && Counted(s)
  }

  // ---- atomic steps on entries and pages ----

  function AddRss(spaces: map<nat, Mm>, m: nat, d: int): map<nat, Mm>
    requires m in spaces
  {
    spaces[m := spaces[m].(rss := spaces[m].rss + d)]
  }

  // page_put
  function PutPage(pages: map<nat, Page>, p: nat): map<nat, Page>
    requires p in pages
  {
    if pages[p].refs == 1 then pages - {p} else pages[p := pages[p].(refs := pages[p].refs - 1)]
  }

  // Clearing one entry and releasing what it maps (zap_range, release_pte).
  function Zap(s: State, k: Key): State
    requires k in s.ptes && k.mm in s.spaces && (!s.ptes[k].io ==> s.ptes[k].frame in s.pages)
  {
    var e := s.ptes[k];
    if e.io then s.(ptes := s.ptes - {k})
    else s.(ptes := s.ptes - {k}, pages := PutPage(s.pages, e.frame), spaces := AddRss(s.spaces, k.mm, -1))
  }

  // Demand fault on an absent page (fault_in), with the frame alloc_page gave.
  function FaultNew(s: State, k: Key, p: nat): State
    requires Attrs(s, k).Some?
  {
    var a := Attrs(s, k).value;
    if a.backing.Device? then s.(ptes := s.ptes[k := Pte(a.backing.pa, !a.flags.write, false, true)])
    else s.(ptes := s.ptes[k := Pte(p, !a.flags.write, false, false)],
            pages := s.pages[p := Page(1, Fill(s.files, a.backing), a.flags.shared)],
            spaces := AddRss(s.spaces, k.mm, 1))
  }

  // Write fault on a present read-only page (fault_in): reuse it when this is
  // the only mapping, otherwise copy it to frame p.
  function FaultWrite(s: State, k: Key, p: nat): State
    requires k in s.ptes && s.ptes[k].frame in s.pages
  {
    var e := s.ptes[k];
    if s.pages[e.frame].refs == 1 then s.(ptes := s.ptes[k := e.(rdonly := false, cow := false)])
    else s.(ptes := s.ptes[k := Pte(p, false, false, false)],
            pages := PutPage(s.pages, e.frame)[p := Page(1, s.pages[e.frame].data, false)])
  }

  // fork of one present page (mm_dup): a private page becomes read-only
  // copy-on-write on both sides.
  function ForkPage(s: State, k: Key, c: Key): State
    requires k in s.ptes && c.mm in s.spaces && (!s.ptes[k].io ==> s.ptes[k].frame in s.pages)
  {
    var e := s.ptes[k];
    if e.io then s.(ptes := s.ptes[c := e])
    else
      var e' := if SharedAt(s, k) then e else e.(rdonly := true, cow := true);
      var page := s.pages[e.frame];
      s.(ptes := s.ptes[k := e'][c := e'],
         pages := s.pages[e.frame := page.(refs := page.refs + 1)],
         spaces := AddRss(s.spaces, c.mm, 1))
  }

  // Moving one entry within an address space (do_mremap).
  function MovePte(s: State, k: Key, l: Key): State
    requires k in s.ptes
  {
    s.(ptes := (s.ptes - {k})[l := s.ptes[k]])
  }

  // The entry do_mprotect writes for a present page whose mapping now has
  // the given flags.
  function ProtectedPte(pages: map<nat, Page>, e: Pte, flags: Flags): Pte
    requires !e.io ==> e.frame in pages
  {
    var cow := e.cow || (!flags.shared && !e.io && pages[e.frame].refs > 1);
    e.(rdonly := !flags.write || cow, cow := cow)
  }

  function Protect(s: State, m: nat, vmas: seq<Vma>, lo: nat, hi: nat): State
    requires m in s.spaces
    requires forall k :: k in s.ptes && !s.ptes[k].io ==> s.ptes[k].frame in s.pages
  {
    s.(spaces := s.spaces[m := s.spaces[m].(vmas := vmas)],
       ptes := map k | k in s.ptes ::
                 if k.mm == m && lo <= k.pg < hi && AttrAt(vmas, k.pg).Some?
                 then ProtectedPte(s.pages, s.ptes[k], AttrAt(vmas, k.pg).value.flags)
                 else s.ptes[k])
  }

  // Any edit of one VMA list.
  function EditVmas(s: State, m: nat, vmas: seq<Vma>): State
    requires m in s.spaces
  {
    s.(spaces := s.spaces[m := s.spaces[m].(vmas := vmas)])
  }

  // A store through a writable entry.
  function Store(s: State, k: Key, off: nat, b: Byte): State
    requires k in s.ptes && s.ptes[k].frame in s.pages && off < |s.pages[s.ptes[k].frame].data|
  {
    var p := s.ptes[k].frame;
    s.(pages := s.pages[p := s.pages[p].(data := s.pages[p].data[off := b])])
  }

  // ---- counting ----

  lemma CountAdd(ptes: map<Key, Pte>, k: Key, e: Pte)
    requires k !in ptes
    ensures forall p :: |Mappers(ptes[k := e], p)| == |Mappers(ptes, p)| + (if !e.io && e.frame == p then 1 else 0)
    ensures forall m :: |Resident(ptes[k := e], m)| == |Resident(ptes, m)| + (if !e.io && k.mm == m then 1 else 0)
  {
    hide *;
    forall p: nat
      ensures |Mappers(ptes[k := e], p)| == |Mappers(ptes, p)| + (if !e.io && e.frame == p then 1 else 0)
    {
      MapperAdded(ptes, k, e, p);
    }
    forall m: nat
      ensures |Resident(ptes[k := e], m)| == |Resident(ptes, m)| + (if !e.io && k.mm == m then 1 else 0)
    {
      ResidentAdded(ptes, k, e, m);
    }
  }

  lemma MapperAdded(ptes: map<Key, Pte>, k: Key, e: Pte, p: nat)
    requires k !in ptes
    ensures |Mappers(ptes[k := e], p)| == |Mappers(ptes, p)| + (if !e.io && e.frame == p then 1 else 0)
  {
    assert Mappers(ptes[k := e], p) == Mappers(ptes, p) + (if !e.io && e.frame == p then {k} else {});
  }

  lemma ResidentAdded(ptes: map<Key, Pte>, k: Key, e: Pte, m: nat)
    requires k !in ptes
    ensures |Resident(ptes[k := e], m)| == |Resident(ptes, m)| + (if !e.io && k.mm == m then 1 else 0)
  {
    assert Resident(ptes[k := e], m) == Resident(ptes, m) + (if !e.io && k.mm == m then {k} else {});
  }

  lemma CountRemove(ptes: map<Key, Pte>, k: Key)
    requires k in ptes
    ensures forall p :: |Mappers(ptes - {k}, p)| == |Mappers(ptes, p)| - (if !ptes[k].io && ptes[k].frame == p then 1 else 0)
    ensures forall m :: |Resident(ptes - {k}, m)| == |Resident(ptes, m)| - (if !ptes[k].io && k.mm == m then 1 else 0)
  {
    CountAdd(ptes - {k}, k, ptes[k]);
    assert (ptes - {k})[k := ptes[k]] == ptes;
  }

  // Changing permissions only leaves the counts alone.
  lemma CountSame(ptes: map<Key, Pte>, ptes': map<Key, Pte>)
    requires ptes.Keys == ptes'.Keys
    requires forall k :: k in ptes ==> ptes[k].io == ptes'[k].io && ptes[k].frame == ptes'[k].frame
    ensures forall p :: Mappers(ptes', p) == Mappers(ptes, p)
    ensures forall m :: Resident(ptes', m) == Resident(ptes, m)
  {
  }

  lemma SoleMapper(s: State, k: Key, l: Key)
    requires Counted(s) && k in s.ptes && l in s.ptes && k != l
    requires !s.ptes[k].io && !s.ptes[l].io && s.ptes[k].frame == s.ptes[l].frame && s.ptes[k].frame in s.pages
    ensures s.pages[s.ptes[k].frame].refs > 1
  {
    var both := Mappers(s.ptes, s.ptes[k].frame);
    assert {k, l} <= both;
    assert |both - {k, l}| + 2 == |both|;
  }

  // ---- the steps keep the invariant ----

  lemma ZapKeepsInv(s: State, k: Key)
    requires Inv(s) && k in s.ptes
    ensures Inv(Zap(s, k))
  {
    hide AttrAt, Ordered, Mappers, Resident, PteFits;
    CountRemove(s.ptes, k);
    ZapKeepsEntries(s, k);
  }

  lemma ZapKeepsEntries(s: State, k: Key)
    requires Counted(s) && PtesOk(s) && k in s.ptes
    ensures PtesOk(Zap(s, k))
  {
    hide AttrAt, Mappers, PteFits, Counted;
    var s' := Zap(s, k);
    forall l | l in s'.ptes
      ensures Attrs(s', l) == Attrs(s, l) && FrameFits(s'.ptes[l], Attrs(s', l).value, s'.pages)
    {
      if !s.ptes[k].io && !s.ptes[l].io && s.ptes[l].frame == s.ptes[k].frame {
        SoleMapper(s, k, l);
      }
    }
  }

  lemma FaultNewKeepsInv(s: State, k: Key, p: nat)
    requires Inv(s) && k !in s.ptes && Attrs(s, k).Some? && p !in s.pages
    ensures Inv(FaultNew(s, k, p))
  {
    hide AttrAt, Ordered, Mappers, Resident, PteFits, Fill;
    CountAdd(s.ptes, k, FaultNew(s, k, p).ptes[k]);
    NoMappers(s, p);
    FaultNewKeepsEntries(s, k, p);
  }

  lemma FaultNewKeepsEntries(s: State, k: Key, p: nat)
    requires PtesOk(s) && k !in s.ptes && Attrs(s, k).Some? && p !in s.pages
    ensures PtesOk(FaultNew(s, k, p))
  {
    hide AttrAt, Fill;
    var s' := FaultNew(s, k, p);
    assert forall l :: Attrs(s', l) == Attrs(s, l);
  }

  // A free frame is mapped nowhere.
  lemma NoMappers(s: State, p: nat)
    requires PtesOk(s) && p !in s.pages
    ensures |Mappers(s.ptes, p)| == 0
  {
    assert Mappers(s.ptes, p) == {};
  }

  lemma FaultWriteKeepsInv(s: State, k: Key, p: nat)
    requires Inv(s) && k in s.ptes && !s.ptes[k].io && s.ptes[k].rdonly && p !in s.pages
    requires Attrs(s, k).value.flags.write
    ensures Inv(FaultWrite(s, k, p))
  {
    hide AttrAt, Ordered, Mappers, Resident, PteFits;
    var s' := FaultWrite(s, k, p);
    if s.pages[s.ptes[k].frame].refs == 1 {
      CountSame(s.ptes, s'.ptes);
    } else {
      CountRemove(s.ptes, k);
      CountAdd(s.ptes - {k}, k, s'.ptes[k]);
      assert (s.ptes - {k})[k := s'.ptes[k]] == s'.ptes;
      NoMappers(s, p);
    }
    FaultWriteKeepsEntries(s, k, p);
  }

  lemma FaultWriteKeepsEntries(s: State, k: Key, p: nat)
    requires Counted(s) && PtesOk(s) && k in s.ptes && !s.ptes[k].io && s.ptes[k].rdonly && p !in s.pages
    requires Attrs(s, k).value.flags.write
    ensures PtesOk(FaultWrite(s, k, p))
  {
    hide AttrAt, Mappers, Counted;
    var s' := FaultWrite(s, k, p);
    forall l | l in s'.ptes
      ensures Attrs(s', l) == Attrs(s, l)
      ensures PteFits(s'.ptes[l], Attrs(s', l).value) && FrameFits(s'.ptes[l], Attrs(s', l).value, s'.pages)
    {
      if l != k && !s.ptes[l].io && s.ptes[l].frame == s.ptes[k].frame {
        SoleMapper(s, k, l);
      }
    }
  }

  lemma ForkPageKeepsInv(s: State, k: Key, c: Key)
    requires Inv(s) && k in s.ptes && c !in s.ptes && Attrs(s, c) == Attrs(s, k)
    ensures Inv(ForkPage(s, k, c))
  {
    hide AttrAt, Ordered, Mappers, Resident, PteFits;
    var s' := ForkPage(s, k, c);
    CountAdd(s.ptes, c, s'.ptes[c]);
    CountSame(s.ptes[c := s'.ptes[c]], s'.ptes);
    ForkPageKeepsEntries(s, k, c);
  }

  lemma ForkPageKeepsEntries(s: State, k: Key, c: Key)
    requires Counted(s) && PtesOk(s) && k in s.ptes && c !in s.ptes && Attrs(s, c) == Attrs(s, k)
    ensures PtesOk(ForkPage(s, k, c))
  {
    hide AttrAt, Mappers, Counted;
    var s' := ForkPage(s, k, c);
    forall l | l in s'.ptes
      ensures Attrs(s', l) == Attrs(s, l) && Attrs(s, l).Some?
      ensures PteFits(s'.ptes[l], Attrs(s', l).value) && FrameFits(s'.ptes[l], Attrs(s', l).value, s'.pages)
    {
      if l != k && l != c && !s.ptes[l].io && !s.ptes[k].io && s.ptes[l].frame == s.ptes[k].frame {
        SoleMapper(s, k, l);
      }
    }
  }

  lemma MovePteKeepsInv(s: State, k: Key, l: Key)
    requires Inv(s) && k in s.ptes && l !in s.ptes && l.mm == k.mm && Attrs(s, l) == Attrs(s, k)
    ensures Inv(MovePte(s, k, l))
  {
    hide AttrAt, Ordered, Mappers, Resident, PteFits, FrameFits;
    var s' := MovePte(s, k, l);
    assert forall x :: Attrs(s', x) == Attrs(s, x);
    CountRemove(s.ptes, k);
    CountAdd(s.ptes - {k}, l, s.ptes[k]);
  }

  lemma EditVmasKeepsInv(s: State, m: nat, vmas: seq<Vma>)
    requires Inv(s) && m in s.spaces && Ordered(vmas)
    requires forall k :: k in s.ptes && k.mm == m ==> AttrAt(vmas, k.pg) == Attrs(s, k)
    ensures Inv(EditVmas(s, m, vmas))
  {
    hide AttrAt, Ordered, Mappers, Resident, PteFits, FrameFits;
    var s' := EditVmas(s, m, vmas);
    assert forall k :: k in s.ptes ==> Attrs(s', k) == Attrs(s, k);
  }

  lemma StoreKeepsInv(s: State, k: Key, off: nat, b: Byte)
    requires Inv(s) && k in s.ptes && !s.ptes[k].io && off < |s.pages[s.ptes[k].frame].data|
    ensures Inv(Store(s, k, off, b))
  {
    hide AttrAt, Ordered, Mappers, Resident, PteFits;
    var s' := Store(s, k, off, b);
    assert forall l :: Attrs(s', l) == Attrs(s, l);
  }

  // The new list differs from the old one on [lo, hi) only, and there only in
  // the access permissions.
  predicate SameButAccess(a: Option<Attr>, b: Option<Attr>) {
    && a.Some? && b.Some?
    && b.value.backing == a.value.backing
    && b.value.flags.shared == a.value.flags.shared
  }

  ghost predicate ProtectsRange(s: State, m: nat, vmas: seq<Vma>, lo: nat, hi: nat)
    requires m in s.spaces
  {
    forall pg: nat ::
      if lo <= pg < hi && AttrAt(s.spaces[m].vmas, pg).Some?
      then SameButAccess(AttrAt(s.spaces[m].vmas, pg), AttrAt(vmas, pg))
      else AttrAt(vmas, pg) == AttrAt(s.spaces[m].vmas, pg)
  }

  lemma ProtectKeepsInv(s: State, m: nat, vmas: seq<Vma>, lo: nat, hi: nat)
    requires Inv(s) && m in s.spaces && Ordered(vmas) && ProtectsRange(s, m, vmas, lo, hi)
    ensures Inv(Protect(s, m, vmas, lo, hi))
  {
    hide AttrAt, Ordered, Mappers, Resident, PteFits, SameButAccess;
    CountSame(s.ptes, Protect(s, m, vmas, lo, hi).ptes);
    ProtectKeepsEntries(s, m, vmas, lo, hi);
  }

  lemma ProtectKeepsEntries(s: State, m: nat, vmas: seq<Vma>, lo: nat, hi: nat)
    requires PtesOk(s) && Counted(s) && m in s.spaces && ProtectsRange(s, m, vmas, lo, hi)
    ensures PtesOk(Protect(s, m, vmas, lo, hi))
  {
    hide AttrAt, Mappers;
    var s' := Protect(s, m, vmas, lo, hi);
    forall k | k in s'.ptes
      ensures Attrs(s', k).Some?
      ensures PteFits(s'.ptes[k], Attrs(s', k).value) && FrameFits(s'.ptes[k], Attrs(s', k).value, s'.pages)
    {
      assert Attrs(s, k).Some? && PteFits(s.ptes[k], Attrs(s, k).value);
      if k.mm == m {
        assert lo <= k.pg < hi ==> SameButAccess(Attrs(s, k), Attrs(s', k));
      } else {
        assert Attrs(s', k) == Attrs(s, k);
      }
    }
  }

  // ---- what the steps do to the abstract memory ----

  lemma SameMem(s: State, s': State, k: Key)
    requires s'.files == s.files && Attrs(s', k) == Attrs(s, k)
    requires k in s'.ptes <==> k in s.ptes
    requires k in s.ptes ==> Attrs(s, k).Some?
    requires k in s.ptes && !Attrs(s, k).value.backing.Device? ==>
               && s.ptes[k].frame in s.pages && s'.ptes[k].frame in s'.pages
               && s'.pages[s'.ptes[k].frame].data == s.pages[s.ptes[k].frame].data
    ensures Mem(s', k) == Mem(s, k)
  {
    hide AttrAt, Fill;
  }

  lemma ZapMem(s: State, k: Key)
    requires Inv(s) && k in s.ptes
    ensures forall l :: l != k ==> Mem(Zap(s, k), l) == Mem(s, l)
  {
    hide AttrAt, Fill, Mem, Ordered, Mappers, Resident;
    var s' := Zap(s, k);
    forall l | l != k
      ensures Mem(s', l) == Mem(s, l)
    {
      if l in s.ptes && !s.ptes[k].io && !s.ptes[l].io && s.ptes[l].frame == s.ptes[k].frame {
        SoleMapper(s, k, l);
      }
      SameMem(s, s', l);
    }
  }

  // Faulting a page in is invisible to every address space.
  lemma FaultNewMem(s: State, k: Key, p: nat)
    requires Inv(s) && k !in s.ptes && Attrs(s, k).Some? && p !in s.pages
    ensures forall l :: Mem(FaultNew(s, k, p), l) == Mem(s, l)
  {
    hide AttrAt, Fill, Ordered, Mappers, Resident;
    var s' := FaultNew(s, k, p);
    forall l
      ensures Mem(s', l) == Mem(s, l)
    {
      if l != k {
        SameMem(s, s', l);
      }
    }
  }

  // So is breaking copy-on-write.
  lemma FaultWriteMem(s: State, k: Key, p: nat)
    requires Inv(s) && k in s.ptes && !s.ptes[k].io && p !in s.pages
    ensures forall l :: Mem(FaultWrite(s, k, p), l) == Mem(s, l)
  {
    hide AttrAt, Fill, Mem, Ordered, Mappers, Resident;
    var s' := FaultWrite(s, k, p);
    forall l
      ensures Mem(s', l) == Mem(s, l)
    {
      if l != k && l in s.ptes && !s.ptes[l].io && s.ptes[l].frame == s.ptes[k].frame {
        SoleMapper(s, k, l);
      }
      SameMem(s, s', l);
    }
  }

  lemma ForkPageMem(s: State, k: Key, c: Key)
    requires Inv(s) && k in s.ptes && c !in s.ptes && Attrs(s, c) == Attrs(s, k)
    ensures forall l :: l != c ==> Mem(ForkPage(s, k, c), l) == Mem(s, l)
    ensures Mem(ForkPage(s, k, c), c) == Mem(s, k)
  {
    hide AttrAt, Fill, Ordered, Mappers, Resident;
    var s' := ForkPage(s, k, c);
    forall l | l != c
      ensures Mem(s', l) == Mem(s, l)
    {
      SameMem(s, s', l);
    }
  }

  lemma MovePteMem(s: State, k: Key, l: Key)
    requires Inv(s) && k in s.ptes && l !in s.ptes && l.mm == k.mm && Attrs(s, l) == Attrs(s, k)
    ensures forall x :: x != k && x != l ==> Mem(MovePte(s, k, l), x) == Mem(s, x)
    ensures Mem(MovePte(s, k, l), l) == Mem(s, k)
  {
    hide AttrAt, Fill, Ordered, Mappers, Resident;
    var s' := MovePte(s, k, l);
    forall x | x != k && x != l
      ensures Mem(s', x) == Mem(s, x)
    {
      SameMem(s, s', x);
    }
  }

  lemma EditVmasMem(s: State, m: nat, vmas: seq<Vma>)
    requires Inv(s) && m in s.spaces
    ensures forall k: Key :: (k.mm == m ==> AttrAt(vmas, k.pg) == Attrs(s, k)) ==> Mem(EditVmas(s, m, vmas), k) == Mem(s, k)
  {
    hide AttrAt, Fill, Mem, Ordered, Mappers, Resident;
    var s' := EditVmas(s, m, vmas);
    forall k: Key | k.mm == m ==> AttrAt(vmas, k.pg) == Attrs(s, k)
      ensures Mem(s', k) == Mem(s, k)
    {
      SameMem(s, s', k);
    }
  }

  // Changing permissions changes no contents.
  lemma ProtectMem(s: State, m: nat, vmas: seq<Vma>, lo: nat, hi: nat)
    requires Inv(s) && m in s.spaces && ProtectsRange(s, m, vmas, lo, hi)
    ensures forall k: Key :: !(k.mm == m && lo <= k.pg < hi) ==> Mem(Protect(s, m, vmas, lo, hi), k) == Mem(s, k)
    ensures forall k :: Mem(s, k).Some? ==>
              && Mem(Protect(s, m, vmas, lo, hi), k).Some?
              && Mem(Protect(s, m, vmas, lo, hi), k).value.content == Mem(s, k).value.content
  {
    hide AttrAt, Fill, Ordered, Mappers, Resident, PteFits;
    var s' := Protect(s, m, vmas, lo, hi);
    assert forall k :: k in s.ptes ==> s'.ptes[k].frame == s.ptes[k].frame;
  }

  // A store is seen by the storing page, by the shared mappings of the same
  // page, and by nobody else.
  lemma StoreMem(s: State, k: Key, off: nat, b: Byte)
    requires Inv(s) && k in s.ptes && !s.ptes[k].io && !s.ptes[k].rdonly && off < |s.pages[s.ptes[k].frame].data|
    ensures var s' := Store(s, k, off, b);
            && Mem(s, k).Some? && Mem(s, k).value.content.Bytes? && off < |Mem(s, k).value.content.data|
            && Mem(s', k) == Some(Cell(Mem(s, k).value.flags, Bytes(Mem(s, k).value.content.data[off := b])))
            && (forall l :: l != k && Mem(s', l) != Mem(s, l) ==>
                  && SharedAt(s, k) && SharedAt(s, l)
                  && Mem(s', l).Some? && Mem(s', l).value.content == Mem(s', k).value.content)
  {
    hide AttrAt, Fill, Ordered, Mappers, Resident;
    var s' := Store(s, k, off, b);
    forall l | l != k && Mem(s', l) != Mem(s, l)
      ensures SharedAt(s, k) && SharedAt(s, l) && Mem(s', l).Some? && Mem(s', l).value.content == Mem(s', k).value.content
    {
      if l in s.ptes && !s.ptes[l].io && s.ptes[l].frame == s.ptes[k].frame {
        SoleMapper(s, k, l);
      } else {
        SameMem(s, s', l);
      }
    }
  }

  // ---- runs ----

  // The atomic steps the operations are made of. Operations hold the big
  // kernel lock, so every interleaving of operations is one of these runs.
  datatype Step =
    | NewPage(k: Key, frame: nat)
    | BreakCow(k: Key, frame: nat)
    | ShareWithChild(k: Key, child: Key)
    | Move(k: Key, to: Key)
    | Release(k: Key)
    | EditList(m: nat, vmas: seq<Vma>)
    | SetAccess(m: nat, vmas: seq<Vma>, lo: nat, hi: nat)
    | Write(k: Key, off: nat, b: Byte)
    | Create(m: nat, mm: Mm)
    | Destroy(m: nat)

  // The address space a step acts for; a forked page is put into the child.
  function Actor(t: Step): nat {
    match t
    case NewPage(k, _) => k.mm
    case BreakCow(k, _) => k.mm
    case ShareWithChild(_, c) => c.mm
    case Move(k, _) => k.mm
    case Release(k) => k.mm
    case EditList(m, _) => m
    case SetAccess(m, _, _, _) => m
    case Write(k, _, _) => k.mm
    case Create(m, _) => m
    case Destroy(m) => m
  }

  ghost predicate Enabled(s: State, t: Step) {
    match t
    case NewPage(k, p) => k !in s.ptes && Attrs(s, k).Some? && p !in s.pages
    case BreakCow(k, p) =>
      && k in s.ptes && !s.ptes[k].io && s.ptes[k].rdonly && p !in s.pages
      && Attrs(s, k).Some? && Attrs(s, k).value.flags.write
    case ShareWithChild(k, c) => k in s.ptes && c !in s.ptes && k.mm != c.mm && Attrs(s, c) == Attrs(s, k)
    case Move(k, l) => k in s.ptes && l !in s.ptes && l.mm == k.mm && Attrs(s, l) == Attrs(s, k)
    case Release(k) => k in s.ptes
    case EditList(m, vmas) =>
      && m in s.spaces && Ordered(vmas)
      && forall k: Key :: k in s.ptes && k.mm == m ==> AttrAt(vmas, k.pg) == Attrs(s, k)
    case SetAccess(m, vmas, lo, hi) => m in s.spaces && Ordered(vmas) && ProtectsRange(s, m, vmas, lo, hi)
    case Write(k, off, b) =>
      && k in s.ptes && !s.ptes[k].io && !s.ptes[k].rdonly && s.ptes[k].frame in s.pages
      && off < |s.pages[s.ptes[k].frame].data|
    case Create(m, mm) => m !in s.spaces && mm.vmas == [] && mm.rss == 0
    case Destroy(m) => m in s.spaces && forall k: Key :: k in s.ptes ==> k.mm != m
  }

  ghost function Apply(s: State, t: Step): State
    requires Inv(s) && Enabled(s, t)
  {
    match t
    case NewPage(k, p) => FaultNew(s, k, p)
    case BreakCow(k, p) => FaultWrite(s, k, p)
    case ShareWithChild(k, c) => ForkPage(s, k, c)
    case Move(k, l) => MovePte(s, k, l)
    case Release(k) => Zap(s, k)
    case EditList(m, vmas) => EditVmas(s, m, vmas)
    case SetAccess(m, vmas, lo, hi) => Protect(s, m, vmas, lo, hi)
    case Write(k, off, b) => Store(s, k, off, b)
    case Create(m, mm) => s.(spaces := s.spaces[m := mm])
    case Destroy(m) => s.(spaces := s.spaces - {m})
  }

  lemma StepKeepsInv(s: State, t: Step)
    requires Inv(s) && Enabled(s, t)
    ensures Inv(Apply(s, t))
  {
    hide Inv, ProtectsRange, Ordered, AttrAt;
    match t
    case NewPage(k, p) => FaultNewKeepsInv(s, k, p);
    case BreakCow(k, p) => FaultWriteKeepsInv(s, k, p);
    case ShareWithChild(k, c) => ForkPageKeepsInv(s, k, c);
    case Move(k, l) => MovePteKeepsInv(s, k, l);
    case Release(k) => ZapKeepsInv(s, k);
    case EditList(m, vmas) => EditVmasKeepsInv(s, m, vmas);
    case SetAccess(m, vmas, lo, hi) => ProtectKeepsInv(s, m, vmas, lo, hi);
    case Write(k, off, b) => StoreKeepsInv(s, k, off, b);
    case Create(m, mm) => CreateKeepsInv(s, m, mm);
    case Destroy(m) => DestroyKeepsInv(s, m);
  }

  lemma CreateKeepsInv(s: State, m: nat, mm: Mm)
    requires Inv(s) && m !in s.spaces && mm.vmas == [] && mm.rss == 0
    ensures Inv(s.(spaces := s.spaces[m := mm]))
  {
    hide AttrAt, Mappers, PteFits, FrameFits;
    var s' := s.(spaces := s.spaces[m := mm]);
    assert forall k :: k in s.ptes ==> Attrs(s', k) == Attrs(s, k);
    assert Resident(s.ptes, m) == {};
  }

  lemma DestroyKeepsInv(s: State, m: nat)
    requires Inv(s) && forall k: Key :: k in s.ptes ==> k.mm != m
    ensures Inv(s.(spaces := s.spaces - {m}))
  {
    hide AttrAt, Mappers, PteFits, FrameFits, Resident, Ordered;
    var s' := s.(spaces := s.spaces - {m});
    assert forall k :: k in s.ptes ==> Attrs(s', k) == Attrs(s, k);
  }

  lemma LifecycleMem(s: State, spaces: map<nat, Mm>, k: Key)
    requires Inv(s) && Attrs(s.(spaces := spaces), k) == Attrs(s, k)
    ensures Mem(s.(spaces := spaces), k) == Mem(s, k)
  {
    hide AttrAt, Mappers, Resident, Ordered, Mem;
    SameMem(s, s.(spaces := spaces), k);
  }

  // A step of one address space leaves the mappings of every other one alone,
  // and every byte the others hold privately.
  lemma StepIsIsolated(s: State, t: Step, k: Key)
    requires Inv(s) && Enabled(s, t) && k.mm != Actor(t)
    ensures Attrs(Apply(s, t), k) == Attrs(s, k)
    ensures !SharedAt(s, k) ==> Mem(Apply(s, t), k) == Mem(s, k)
  {
    hide AttrAt, Fill, Ordered, Mappers, Resident, PteFits, FrameFits, ProtectsRange, Mem;
    match t
    case NewPage(l, p) => FaultNewMem(s, l, p);
    case BreakCow(l, p) => FaultWriteMem(s, l, p);
    case ShareWithChild(l, c) => ForkPageMem(s, l, c);
    case Move(l, to) => MovePteMem(s, l, to);
    case Release(l) => ZapMem(s, l);
    case EditList(m, vmas) => EditVmasMem(s, m, vmas);
    case SetAccess(m, vmas, lo, hi) => ProtectMem(s, m, vmas, lo, hi);
    case Write(l, off, b) => StoreMem(s, l, off, b);
    case Create(m, mm) => LifecycleMem(s, s.spaces[m := mm], k);
    case Destroy(m) => LifecycleMem(s, s.spaces - {m}, k);
  }

  ghost predicate Possible(s: State, run: seq<Step>)
    requires Inv(s)
    decreases |run|
  {
    run != [] ==>
      && Enabled(s, run[0])
      && (StepKeepsInv(s, run[0]); Possible(Apply(s, run[0]), run[1..]))
  }

  ghost function After(s: State, run: seq<Step>): State
    requires Inv(s) && Possible(s, run)
    decreases |run|
  {
    if run == [] then s
    else StepKeepsInv(s, run[0]); After(Apply(s, run[0]), run[1..])
  }

  lemma EmptyIsInv(files: map<nat, seq<Byte>>)
    ensures Inv(EMPTY.(files := files))
  {
  }

  const EMPTY := State(map[], map[], map[], map[])

  // Copy-on-write safety over every run: reference counts are exact, and a
  // writable private entry is the only one that maps its page.
  lemma CowSafety(files: map<nat, seq<Byte>>, run: seq<Step>)
    requires Possible(EMPTY.(files := files), run)
    ensures var s := After(EMPTY.(files := files), run);
            && (forall p :: p in s.pages ==> s.pages[p].refs == |Mappers(s.ptes, p)| > 0)
            && (forall k :: k in s.ptes && !s.ptes[k].io && !SharedAt(s, k) && !s.ptes[k].rdonly ==>
                  Mappers(s.ptes, s.ptes[k].frame) == {k})
  {
    hide *;
    EmptyIsInv(files);
    RunKeepsInv(EMPTY.(files := files), run);
    InvIsSafe(After(EMPTY.(files := files), run));
  }

  lemma InvIsSafe(s: State)
    requires Inv(s)
    ensures forall p :: p in s.pages ==> s.pages[p].refs == |Mappers(s.ptes, p)| > 0
    ensures forall k :: k in s.ptes && !s.ptes[k].io && !SharedAt(s, k) && !s.ptes[k].rdonly ==>
              Mappers(s.ptes, s.ptes[k].frame) == {k}
  {
    hide AttrAt, Ordered, Resident;
    forall k, l | k in s.ptes && !s.ptes[k].io && !SharedAt(s, k) && !s.ptes[k].rdonly && l in Mappers(s.ptes, s.ptes[k].frame)
      ensures l == k
    {
      if l != k {
        SoleMapper(s, k, l);
      }
    }
  }

  lemma {:induction false} RunKeepsInv(s: State, run: seq<Step>)
    requires Inv(s) && Possible(s, run)
    ensures Inv(After(s, run))
    decreases |run|
  {
    hide Inv, Enabled, Apply;
    if run != [] {
      StepKeepsInv(s, run[0]);
      RunKeepsInv(Apply(s, run[0]), run[1..]);
    }
  }

  // Isolation over every run: while other address spaces fault, fork, write,
  // remap, protect, unmap and exit, an address space keeps every mapping and
  // every private byte.
  lemma {:induction false} RunIsIsolated(s: State, run: seq<Step>, k: Key)
    requires Inv(s) && Possible(s, run)
    requires forall i :: 0 <= i < |run| ==> Actor(run[i]) != k.mm
    ensures Attrs(After(s, run), k) == Attrs(s, k)
    ensures !SharedAt(s, k) ==> Mem(After(s, run), k) == Mem(s, k)
    decreases |run|
  {
    hide Inv, Enabled, Apply, Mem, Attrs;
    if run != [] {
      StepKeepsInv(s, run[0]);
      StepIsIsolated(s, run[0], k);
      RunIsIsolated(Apply(s, run[0]), run[1..], k);
    }
  }
}

// The operations on user address spaces (mm/vm.c), as the kernel runs them
// under the big kernel lock.
module VmOps {
  import opened Common
  import opened VmaList
  import opened Vm

  const STACK_MAX_PAGES := 2048

  predicate InRange(k: Key, m: nat, start: nat, end: nat) {
    k.mm == m && start <= k.pg < end
  }

  // Only resident counts differ.
  ghost predicate SameSpaces(a: map<nat, Mm>, b: map<nat, Mm>) {
    a.Keys == b.Keys && forall m :: m in a ==> a[m].(rss := 0) == b[m].(rss := 0)
  }

  // Only the VMA list of m and resident counts differ.
  ghost predicate SameButList(a: map<nat, Mm>, b: map<nat, Mm>, m: nat) {
    && a.Keys == b.Keys
    && forall x :: x in a ==>
         if x == m then a[x].(rss := 0, vmas := []) == b[x].(rss := 0, vmas := [])
         else a[x].(rss := 0) == b[x].(rss := 0)
  }

  lemma ListSame(a: map<nat, Mm>, m: nat)
    ensures SameButList(a, a, m)
  {
  }

  lemma ListTrans(a: map<nat, Mm>, b: map<nat, Mm>, c: map<nat, Mm>, m: nat)
    requires SameButList(b, a, m) && SameButList(c, b, m)
    ensures SameButList(c, a, m) && (m in a ==> m in c)
  {
  }

  lemma ListThenSame(a: map<nat, Mm>, b: map<nat, Mm>, c: map<nat, Mm>, m: nat)
    requires SameButList(b, a, m) && SameSpaces(c, b)
    ensures SameButList(c, a, m)
  {
  }

  // Entries are removed inside the range only.
  ghost predicate KeepsOutside(a: map<Key, Pte>, b: map<Key, Pte>, m: nat, start: nat, end: nat) {
    && (forall k :: k in a ==> k in b && a[k] == b[k])
    && (forall k :: k in b && !InRange(k, m, start, end) ==> k in a)
  }

  class AddressSpaces {
    const files: map<nat, seq<Byte>>
    var spaces: map<nat, Mm>
    var ptes: map<Key, Pte>
    var pages: map<nat, Page>

    ghost function St(): State
      reads this
    {
      State(files, spaces, ptes, pages)
    }

    constructor (files: map<nat, seq<Byte>>)
      ensures St() == EMPTY.(files := files) && Inv(St())
    {
      this.files := files;
      spaces, ptes, pages := map[], map[], map[];
    }

    method PagePut(p: nat)
      requires p in pages
      modifies this
      ensures pages == PutPage(old(pages), p) && spaces == old(spaces) && ptes == old(ptes)
    {
      if pages[p].refs == 1 {
        pages := pages - {p};
      } else {
        pages := pages[p := pages[p].(refs := pages[p].refs - 1)];
      }
    }

    method ReleasePte(k: Key)
      requires Inv(St()) && k in ptes
      modifies this
      ensures St() == Zap(old(St()), k)
      ensures Inv(St()) && SameSpaces(spaces, old(spaces))
      ensures forall l :: l != k ==> Mem(St(), l) == old(Mem(St(), l))
    {
      hide AttrAt, Fill, Ordered, Mappers, Resident, Mem;
      ZapKeepsInv(St(), k);
      ZapMem(St(), k);
      var e := ptes[k];
      ptes := ptes - {k};
      if !e.io {
        PagePut(e.frame);
        spaces := spaces[k.mm := spaces[k.mm].(rss := spaces[k.mm].rss - 1)];
      }
    }

    method ZapRange(m: nat, start: nat, end: nat)
      requires Inv(St()) && m in spaces && start <= end
      modifies this
      ensures Inv(St()) && SameSpaces(spaces, old(spaces))
      ensures ptes == map k | k in old(ptes) && !InRange(k, m, start, end) :: old(ptes)[k]
      ensures forall k :: !InRange(k, m, start, end) ==> Mem(St(), k) == old(Mem(St(), k))
    {
      hide AttrAt, Fill, Ordered, Mappers, Resident, Mem, Inv;
      for va := start to end
        invariant Inv(St()) && SameSpaces(spaces, old(spaces))
        invariant ptes == map k | k in old(ptes) && !InRange(k, m, start, va) :: old(ptes)[k]
        invariant forall k :: !InRange(k, m, start, va) ==> Mem(St(), k) == old(Mem(St(), k))
      {
        if Key(m, va) in ptes {
          ReleasePte(Key(m, va));
        }
      }
    }

    // fault_in. `frame` is what alloc_page returned and `readErr` the error of
    // reading the mapped file, if any.
    method FaultIn(k: Key, flags: Flags, write: bool, frame: Option<nat>, readErr: Option<int>) returns (r: int)
      requires Inv(St()) && Attrs(St(), k).Some? && Attrs(St(), k).value.flags == flags
      requires frame.Some? ==> frame.value !in pages
      requires readErr.Some? ==> readErr.value > 0
      modifies this
      ensures Inv(St()) && SameSpaces(spaces, old(spaces))
      ensures forall l :: Mem(St(), l) == old(Mem(St(), l))
      ensures r == 0 ==> k in ptes && (write && flags.write ==> !ptes[k].rdonly)
      ensures r != 0 ==> St() == old(St())
      ensures r == FaultResult(old(St()), k, write, frame, readErr)
    {
      hide AttrAt, Fill, Ordered, Mappers, Resident, Mem, Inv, Attrs;
      if k !in ptes {
        r := FaultAbsent(k, flags, frame, readErr);
        return;
      }
      if write && ptes[k].rdonly {
        if !flags.write {
          return -EACCES;
        }
        r := FaultReadOnly(k, frame);
        return;
      }
      r := 0;
    }

    method FaultAbsent(k: Key, flags: Flags, frame: Option<nat>, readErr: Option<int>) returns (r: int)
      requires Inv(St()) && Attrs(St(), k).Some? && Attrs(St(), k).value.flags == flags && k !in ptes
      requires frame.Some? ==> frame.value !in pages
      requires readErr.Some? ==> readErr.value > 0
      modifies this
      ensures Inv(St()) && SameSpaces(spaces, old(spaces))
      ensures forall l :: Mem(St(), l) == old(Mem(St(), l))
      ensures r == 0 ==> k in ptes && ptes[k].rdonly == !flags.write
      ensures r != 0 ==> St() == old(St())
      ensures r == FaultResult(old(St()), k, false, frame, readErr)
    {
      hide AttrAt, Fill, Ordered, Mappers, Resident, Mem, Inv;
      var a := AttrAt(spaces[k.mm].vmas, k.pg).value;
      if a.backing.Device? {
        ghost var free := Unused(pages.Keys);
        FaultNewKeepsInv(St(), k, free);
        FaultNewMem(St(), k, free);
        ptes := ptes[k := Pte(a.backing.pa, !flags.write, false, true)];
        return 0;
      }
      if frame.None? {
        return -ENOMEM;
      }
      if a.backing.FilePart? && readErr.Some? {
        return -readErr.value;
      }
      FaultNewKeepsInv(St(), k, frame.value);
      FaultNewMem(St(), k, frame.value);
      pages := pages[frame.value := Page(1, Fill(files, a.backing), flags.shared)];
      ptes := ptes[k := Pte(frame.value, !flags.write, false, false)];
      spaces := spaces[k.mm := spaces[k.mm].(rss := spaces[k.mm].rss + 1)];
      r := 0;
    }

    method FaultReadOnly(k: Key, frame: Option<nat>) returns (r: int)
      requires Inv(St()) && k in ptes && ptes[k].rdonly && Attrs(St(), k).Some? && Attrs(St(), k).value.flags.write
      requires frame.Some? ==> frame.value !in pages
      modifies this
      ensures Inv(St()) && spaces == old(spaces)
      ensures forall l :: Mem(St(), l) == old(Mem(St(), l))
      ensures r == 0 ==> k in ptes && !ptes[k].rdonly
      ensures r != 0 ==> r == -ENOMEM && frame.None? && St() == old(St())
      ensures old(ptes)[k].frame in old(pages)
      ensures old(pages)[old(ptes)[k].frame].refs == 1 ==>
                r == 0 && pages == old(pages) && ptes == old(ptes)[k := old(ptes)[k].(rdonly := false, cow := false)]
      ensures old(pages)[old(ptes)[k].frame].refs != 1 ==>
                (r == 0 <==> frame.Some?) && (r == 0 ==> ptes[k].frame == frame.value && !ptes[k].cow)
    {
      hide AttrAt, Fill, Ordered, Mappers, Resident, Mem;
      var e := ptes[k];
      if pages[e.frame].refs == 1 {
        ghost var free := Unused(pages.Keys);
        FaultWriteKeepsInv(St(), k, free);
        FaultWriteMem(St(), k, free);
        ptes := ptes[k := e.(rdonly := false, cow := false)];
      } else {
        if frame.None? {
          return -ENOMEM;
        }
        FaultWriteKeepsInv(St(), k, frame.value);
        FaultWriteMem(St(), k, frame.value);
        var data := pages[e.frame].data;
        ptes := ptes[k := Pte(frame.value, false, false, false)];
        PagePut(e.frame);
        pages := pages[frame.value := Page(1, data, false)];
      }
      r := 0;
    }

    // Storing an edited VMA list; present pages keep their attributes.
    method SetVmas(m: nat, vmas: seq<Vma>)
      requires Inv(St()) && m in spaces && Ordered(vmas)
      requires forall k: Key :: k in ptes && k.mm == m ==> AttrAt(vmas, k.pg) == Attrs(St(), k)
      modifies this
      ensures Inv(St())
      ensures St() == EditVmas(old(St()), m, vmas)
      ensures SameButList(spaces, old(spaces), m)
      ensures forall k: Key :: Attrs(St(), k) == if k.mm == m then AttrAt(vmas, k.pg) else old(Attrs(St(), k))
      ensures forall k: Key :: (k.mm == m ==> AttrAt(vmas, k.pg) == old(Attrs(St(), k))) ==> Mem(St(), k) == old(Mem(St(), k))
    {
      hide AttrAt, Fill, Ordered, Mappers, Resident, Mem, Inv;
      EditVmasKeepsInv(St(), m, vmas);
      EditVmasMem(St(), m, vmas);
      spaces := spaces[m := spaces[m].(vmas := vmas)];
    }

    method SplitVma(m: nat, i: nat, at: nat)
      requires Inv(St()) && m in spaces && i < |spaces[m].vmas|
      requires spaces[m].vmas[i].start < at < spaces[m].vmas[i].end
      modifies this
      ensures Inv(St()) && ptes == old(ptes) && pages == old(pages)
      ensures SameButList(spaces, old(spaces), m)
      ensures var v := old(spaces[m].vmas[i]);
              spaces[m].vmas == Splice(old(spaces[m].vmas), i, [SplitLow(v, at), SplitHigh(v, at)])
      ensures forall k :: Attrs(St(), k) == old(Attrs(St(), k)) && Mem(St(), k) == old(Mem(St(), k))
    {
      hide AttrAt, Fill, Ordered, Mappers, Resident, Mem, PtesOk, Counted;
      var v := spaces[m].vmas[i];
      SplitKeepsPageMap(spaces[m].vmas, i, at);
      SetVmas(m, spaces[m].vmas[..i] + [SplitLow(v, at), SplitHigh(v, at)] + spaces[m].vmas[i + 1..]);
    }

    method RemoveVma(m: nat, i: nat)
      requires Inv(St()) && m in spaces && i < |spaces[m].vmas|
      modifies this
      ensures Inv(St())
      ensures SameButList(spaces, old(spaces), m)
      ensures KeepsOutside(ptes, old(ptes), m, old(spaces[m].vmas[i].start), old(spaces[m].vmas[i].end))
      ensures spaces[m].vmas == Splice(old(spaces[m].vmas), i, [])
      ensures var v := old(spaces[m].vmas[i]);
              forall k :: if InRange(k, m, v.start, v.end) then Mem(St(), k) == None && Attrs(St(), k) == None
                          else Attrs(St(), k) == old(Attrs(St(), k)) && Mem(St(), k) == old(Mem(St(), k))
    {
      hide AttrAt, Fill, Ordered, Mappers, Resident, Mem, Inv;
      var v := spaces[m].vmas[i];
      InvOrdered(St(), m);
      OrderedAt(spaces[m].vmas, i);
      ZapRange(m, v.start, v.end);
      RemovePageMap(spaces[m].vmas, i);
      assert Splice(spaces[m].vmas, i, []) == spaces[m].vmas[..i] + spaces[m].vmas[i + 1..];
      SetVmas(m, spaces[m].vmas[..i] + spaces[m].vmas[i + 1..]);
      UnmappedMem(St());
    }

    // Unmapping the part of VMA i below end; an upper part stays.
    method UnmapVma(m: nat, i: nat, end: nat)
      requires Inv(St()) && m in spaces && i < |spaces[m].vmas| && spaces[m].vmas[i].start < end
      modifies this
      ensures Inv(St()) && SameButList(spaces, old(spaces), m)
      ensures KeepsOutside(ptes, old(ptes), m, old(spaces[m].vmas[i].start), end)
      ensures var v := old(spaces[m].vmas[i]);
              forall k :: !InRange(k, m, v.start, end) ==> Attrs(St(), k) == old(Attrs(St(), k)) && Mem(St(), k) == old(Mem(St(), k))
      ensures i <= |spaces[m].vmas| && spaces[m].vmas[..i] == old(spaces[m].vmas[..i])
      ensures || |spaces[m].vmas| == |old(spaces[m].vmas)| - 1
              || (|spaces[m].vmas| == |old(spaces[m].vmas)| && spaces[m].vmas[i].start == end)
    {
      hide AttrAt, Fill, Mappers, Resident, Mem, PtesOk, Counted, Ordered;
      if spaces[m].vmas[i].end > end {
        SplitVma(m, i, end);
      }
      RemoveVma(m, i);
    }

    // unmap_region: exactly the pages of [start, end) disappear.
    method UnmapRegion(m: nat, start: nat, end: nat)
      requires Inv(St()) && m in spaces && start <= end
      modifies this
      ensures Inv(St())
      ensures SameButList(spaces, old(spaces), m)
      ensures KeepsOutside(ptes, old(ptes), m, start, end)
      ensures Cut(old(St()), St(), m, start, end)
    {
      hide AttrAt, Fill, Mappers, Resident, Mem, Inv, Ordered, Attrs;
      var i := 0;
      while i < |spaces[m].vmas|
        invariant Inv(St()) && SameButList(spaces, old(spaces), m)
        invariant 0 <= i <= |spaces[m].vmas|
        invariant KeepsOutside(ptes, old(ptes), m, start, end)
        invariant forall v :: v in spaces[m].vmas[..i] ==> v.end <= start
        invariant forall k :: !InRange(k, m, start, end) ==> Attrs(St(), k) == old(Attrs(St(), k)) && Mem(St(), k) == old(Mem(St(), k))
        decreases |spaces[m].vmas| - i, if i == |spaces[m].vmas| then 0 else Left(spaces[m].vmas[i], start, end)
      {
        var v := spaces[m].vmas[i];
        if v.end <= start {
          i := i + 1;
        } else if v.start >= end {
          break;
        } else if v.start < start {
          SplitVma(m, i, start);
          i := i + 1;
        } else {
          UnmapVma(m, i, end);
        }
      }
      InvOrdered(St(), m);
      UnmappedRange(St(), m, start, end, i);
    }

    method Munmap(m: nat, addr: nat, len: nat) returns (r: int)
      requires Inv(St()) && m in spaces
      modifies this
      ensures Inv(St())
      ensures r == 0 || r == -EINVAL
      ensures r == 0 <==> addr % PAGE_SIZE == 0 && len > 0 && addr / PAGE_SIZE + PageCount(len) <= 0x800_0000
      ensures r != 0 ==> St() == old(St())
      ensures r == 0 ==> Cut(old(St()), St(), m, addr / PAGE_SIZE, addr / PAGE_SIZE + PageCount(len))
      ensures SameButList(spaces, old(spaces), m)
    {
      hide AttrAt, Fill, Mappers, Resident, Mem, Inv, Attrs;
      if addr % PAGE_SIZE != 0 || len == 0 {
        return -EINVAL;
      }
      var end := addr / PAGE_SIZE + PageCount(len);
      if end > USER_END_PAGE {
        return -EINVAL;
      }
      UnmapRegion(m, addr / PAGE_SIZE, end);
      r := 0;
    }

    // handle_mm_fault. A fault below a stack first extends the stack.
    method HandleFault(m: nat, pg: nat, write: bool, exec: bool, frame: Option<nat>,
        readErr: Option<int>) returns (r: int)
      requires Inv(St()) && m in spaces
      requires frame.Some? ==> frame.value !in pages
      requires readErr.Some? ==> readErr.value > 0
      modifies this
      ensures Inv(St()) && SameButList(spaces, old(spaces), m)
      ensures forall k :: Grew(old(Attrs(St(), k)), Attrs(St(), k), k.mm == m && k.pg >= pg)
      ensures forall k :: old(Attrs(St(), k)).Some? || Attrs(St(), k) == None ==> Mem(St(), k) == old(Mem(St(), k))
      ensures r == 0 ==>
                && Key(m, pg) in ptes && (write ==> !ptes[Key(m, pg)].rdonly)
                && Attrs(St(), Key(m, pg)).Some? && Permits(Attrs(St(), Key(m, pg)).value.flags, write, exec)
      ensures NewPagesUnread(old(St()), St())
      ensures forall k :: old(Attrs(St(), k)) == None && Attrs(St(), k).Some? ==> ReadsZeros(Mem(St(), k))
      ensures if pg >= 0x800_0000 || (old(Attrs(St(), Key(m, pg))) == None && !GrowsDown(old(spaces[m]), pg))
              then r == -EFAULT && St() == old(St())
              else
                && Attrs(St(), Key(m, pg)).Some?
                && if !Permits(Attrs(St(), Key(m, pg)).value.flags, write, exec)
                   then r == -EACCES && ptes == old(ptes) && pages == old(pages)
                   else if old(Attrs(St(), Key(m, pg))).Some?
                   then r == FaultResult(old(St()), Key(m, pg), write, frame, readErr)
                   else r == if frame.None? then -ENOMEM else 0
    {
      hide AttrAt, Fill, Mappers, Resident, Mem, Inv, Ordered, GrowsDown, NewPagesUnread, FaultResult, ReadsZeros, Attrs,
           SameButList, SameSpaces;
      ListSame(spaces, m);
      NoNewPages(St());
      if pg >= USER_END_PAGE {
        return -EFAULT;
      }
      var i := VmaForFault(m, pg);
      if i.None? {
        return -EFAULT;
      }
      ListTrans(old(spaces), old(spaces), spaces, m);
      InvOrdered(St(), m);
      AttrOfMember(spaces[m].vmas, i.value, pg);
      AttrsIs(St(), m, pg);
      ZeroPages(old(St()), St(), m, pg);
      var flags := spaces[m].vmas[i.value].flags;
      if (write && !flags.write) || (exec && !flags.exec) {
        return -EACCES;
      }
      if !write && !exec && !(flags.read || flags.write || flags.exec) {
        return -EACCES;
      }
      ghost var s1 := St();
      FaultResultIs(old(St()), s1, m, pg, write, frame, readErr);
      r := FaultIn(Key(m, pg), flags, write, frame, readErr);
      SameAttrs(s1, St());
      ListThenSame(old(spaces), s1.spaces, spaces, m);
      StillUnread(old(St()), s1, St());
      ZeroPages(old(St()), St(), m, pg);
    }

    // The VMA of the page, once a stack above it has grown down to it.
    method VmaForFault(m: nat, pg: nat) returns (i: Option<nat>)
      requires Inv(St()) && m in spaces && pg < USER_END_PAGE
      modifies this
      ensures Inv(St()) && SameButList(spaces, old(spaces), m) && ptes == old(ptes) && pages == old(pages)
      ensures i.Some? <==> old(Attrs(St(), Key(m, pg))).Some? || GrowsDown(old(spaces[m]), pg)
      ensures i.Some? ==> i.value < |spaces[m].vmas| && Contains(spaces[m].vmas[i.value], pg)
      ensures i.None? ==> St() == old(St())
      ensures forall k :: Grew(old(Attrs(St(), k)), Attrs(St(), k), k.mm == m && k.pg >= pg)
      ensures forall k :: old(Attrs(St(), k)).Some? || Attrs(St(), k) == None ==> Mem(St(), k) == old(Mem(St(), k))
      ensures NewPagesUnread(old(St()), St())
    {
      hide AttrAt, Fill, Mappers, Resident, Mem, PtesOk, Counted, Ordered, NewPagesUnread;
      NoNewPages(St());
      i := VmaFind(spaces[m].vmas, pg);
      if i.Some? {
        AttrOfMember(spaces[m].vmas, i.value, pg);
        return;
      }
      i := VmaFindIntersect(spaces[m].vmas, pg, USER_END_PAGE);
      if i.None? {
        return;
      }
      OnlyNext(spaces[m].vmas, i.value, pg);
      var s := spaces[m].vmas[i.value];
      if !s.flags.grows || s.start - pg > STACK_MAX_PAGES || spaces[m].stackTop < pg ||
         spaces[m].stackTop - pg > STACK_MAX_PAGES {
        return None;
      }
      GrowStack(m, i.value, pg);
    }

    method GrowStack(m: nat, i: nat, pg: nat)
      requires Inv(St()) && m in spaces && i < |spaces[m].vmas|
      requires AttrAt(spaces[m].vmas, pg) == None
      requires pg < spaces[m].vmas[i].end && spaces[m].vmas[i].flags.grows
      requires forall j :: 0 <= j < i ==> spaces[m].vmas[j].end <= pg
      modifies this
      ensures Inv(St()) && SameButList(spaces, old(spaces), m) && ptes == old(ptes) && pages == old(pages)
      ensures spaces[m].vmas == old(spaces[m].vmas)[i := old(spaces[m].vmas[i]).(start := pg)]
      ensures forall k :: Grew(old(Attrs(St(), k)), Attrs(St(), k), k.mm == m && k.pg >= pg)
      ensures forall k :: old(Attrs(St(), k)).Some? || Attrs(St(), k) == None ==> Mem(St(), k) == old(Mem(St(), k))
      ensures NewPagesUnread(old(St()), St())
    {
      var vmas := spaces[m].vmas;
      if vmas[i].start <= pg {
        AttrOfMember(vmas, i, pg);
      }
      assert pg < vmas[i].start;
      GrowPageMap(vmas, i, pg);
      hide AttrAt, Fill, Mappers, Resident, Mem, Counted, Ordered, PteFits, FrameFits;
      UnmappedMem(St());
      AbsentWhenUnmapped(St());
      SetVmas(m, vmas[i := vmas[i].(start := pg)]);
      UnmappedMem(St());
      AbsentIsUnread(St());
    }

    // A user store: fault the page in for writing, then write the byte. Other
    // pages see it only if both mappings are shared; stack pages that appear on
    // the way are zero.
    method UserStore(m: nat, pg: nat, off: nat, b: Byte, frame: Option<nat>, readErr: Option<int>) returns (r: int)
      requires Inv(St()) && m in spaces
      requires frame.Some? ==> frame.value !in pages
      requires readErr.Some? ==> readErr.value > 0
      modifies this
      ensures Inv(St()) && SameButList(spaces, old(spaces), m)
      ensures forall k :: k != Key(m, pg) && !(r == 0 && SharedAt(St(), Key(m, pg)) && SharedAt(St(), k)) ==>
                (old(Attrs(St(), k)).Some? || Attrs(St(), k) == None) ==> Mem(St(), k) == old(Mem(St(), k))
      ensures r != 0 && old(Attrs(St(), Key(m, pg))).Some? ==> Mem(St(), Key(m, pg)) == old(Mem(St(), Key(m, pg)))
      ensures r == 0 ==> Attrs(St(), Key(m, pg)).Some?
      ensures r == 0 ==>
                var cell := if old(Attrs(St(), Key(m, pg))).Some? then old(Mem(St(), Key(m, pg)))
                            else Some(UnreadCell(files, Attrs(St(), Key(m, pg)).value));
                cell.value.content.Bytes? && off < |cell.value.content.data| ==>
                  Mem(St(), Key(m, pg)) == Some(Cell(cell.value.flags, Bytes(cell.value.content.data[off := b])))
    {
      hide AttrAt, Fill, Mappers, Resident, Counted, Ordered, FrameFits, GrowsDown;
      var k := Key(m, pg);
      r := HandleFault(m, pg, true, false, frame, readErr);
      if r == 0 && !ptes[k].io {
        FramesExist(St());
        if off < |pages[ptes[k].frame].data| {
          StoreKeepsInv(St(), k, off, b);
          StoreMem(St(), k, off, b);
          var p := ptes[k].frame;
          pages := pages[p := pages[p].(data := pages[p].data[off := b])];
        }
      }
    }

    // One VMA of do_mprotect: its flags, then every present entry.
    method ProtectVma(m: nat, i: nat, prot: Prot)
      requires Inv(St()) && m in spaces && i < |spaces[m].vmas|
      modifies this
      ensures Inv(St()) && SameButList(spaces, old(spaces), m)
      ensures |spaces[m].vmas| == |old(spaces[m].vmas)|
      ensures spaces[m].vmas == old(spaces[m].vmas)[i := WithProt(old(spaces[m].vmas[i]), prot)]
      ensures var v := old(spaces[m].vmas[i]);
              ProtectedAll(old(St()), St(), m, v.start, v.end, prot)
    {
      hide Inv, ProtectedPte, ProtectedAll, Attrs, Mem;
      var v := spaces[m].vmas[i];
      FramesExist(St());
      InvOrdered(St(), m);
      OrderedAt(spaces[m].vmas, i);
      var vmas := spaces[m].vmas[i := WithProt(v, prot)];
      ghost var s := St();
      spaces := spaces[m := spaces[m].(vmas := vmas)];
      ProtectEntries(m, v.start, v.end, vmas[i].flags);
      ProtectDone(s, St(), m, i, prot);
    }

    method ProtectEntries(m: nat, start: nat, end: nat, flags: Flags)
      requires start <= end
      requires forall k :: k in ptes && !ptes[k].io ==> ptes[k].frame in pages
      modifies this
      ensures spaces == old(spaces) && pages == old(pages)
      ensures ptes == map k | k in old(ptes) ::
                if InRange(k, m, start, end) then ProtectedPte(old(pages), old(ptes)[k], flags) else old(ptes)[k]
    {
      for va := start to end
        invariant spaces == old(spaces) && pages == old(pages)
        invariant ptes == map k | k in old(ptes) ::
                    if InRange(k, m, start, va) then ProtectedPte(old(pages), old(ptes)[k], flags) else old(ptes)[k]
      {
        var k := Key(m, va);
        if k in ptes {
          var e := ptes[k];
          var cow := e.cow || (!flags.shared && !e.io && pages[e.frame].refs > 1);
          ptes := ptes[k := e.(rdonly := !flags.write || cow, cow := cow)];
        }
      }
    }

    // The first pass of do_mprotect: is every page of the range mapped?
    method WholeRangeMapped(m: nat, start: nat, end: nat) returns (ok: bool)
      requires m in spaces && Ordered(spaces[m].vmas)
      ensures ok <==> RangeMapped(St(), m, start, end)
    {
      hide AttrAt;
      var a := start;
      while a < end
        invariant start <= a && RangeMapped(St(), m, start, a)
        decreases end - a
      {
        var v := VmaFind(spaces[m].vmas, a);
        if v.None? {
          assert Attrs(St(), Key(m, a)) == None;
          return false;
        }
        var i := v.value;
        forall pg: nat | a <= pg < spaces[m].vmas[i].end
          ensures Attrs(St(), Key(m, pg)).Some?
        {
          AttrOfMember(spaces[m].vmas, i, pg);
        }
        a := spaces[m].vmas[i].end;
      }
      ok := true;
    }

    // do_mprotect changes the access of exactly the pages of its range, or of
    // none when some page of the range is not mapped.
    method Mprotect(m: nat, addr: nat, len: nat, prot: Prot) returns (r: int)
      requires Inv(St()) && m in spaces
      modifies this
      ensures Inv(St())
      ensures r == if addr % PAGE_SIZE != 0 then -EINVAL
                   else if RangeMapped(old(St()), m, addr / PAGE_SIZE, addr / PAGE_SIZE + PageCount(len)) then 0 else -ENOMEM
      ensures r != 0 ==> St() == old(St())
      ensures r == 0 ==>
                ProtectedAll(old(St()), St(), m, addr / PAGE_SIZE, addr / PAGE_SIZE + PageCount(len), prot)
      ensures SameButList(spaces, old(spaces), m)
      ensures r == 0 ==>
                forall k :: InRange(k, m, addr / PAGE_SIZE, addr / PAGE_SIZE + PageCount(len)) ==>
                  && Mem(St(), k).Some? && old(Mem(St(), k)).Some?
                  && Mem(St(), k).value.content == old(Mem(St(), k)).value.content
                  && var f := Mem(St(), k).value.flags;
                     && (f.write <==> prot.write) && (f.exec <==> prot.exec)
                     && (f.read <==> prot.read || prot.write || prot.exec)
                     && f == old(Mem(St(), k)).value.flags.(read := f.read, write := f.write, exec := f.exec)
    {
      if addr % PAGE_SIZE != 0 {
        return -EINVAL;
      }
      var start, end := addr / PAGE_SIZE, addr / PAGE_SIZE + PageCount(len);
      hide AttrAt, Fill, Mappers, Resident, Mem, Counted, PtesOk, Ordered, ProtectedAll, RangeMapped;
      var ok := WholeRangeMapped(m, start, end);
      if !ok {
        return -ENOMEM;
      }
      ProtectRange(m, start, end, prot);
      AccessIs(old(St()), St(), m, start, end, prot);
      r := 0;
    }

    // The part of VMA i below end.
    method ProtectPart(m: nat, i: nat, end: nat, prot: Prot)
      requires Inv(St()) && m in spaces && i < |spaces[m].vmas| && spaces[m].vmas[i].start < end
      modifies this
      ensures Inv(St()) && SameButList(spaces, old(spaces), m)
      ensures i < |spaces[m].vmas| && spaces[m].vmas[..i] == old(spaces[m].vmas[..i])
      ensures var v := old(spaces[m].vmas[i]);
              var hi := if v.end < end then v.end else end;
              && spaces[m].vmas[i].end == hi
              && ProtectedAll(old(St()), St(), m, v.start, hi, prot)
      ensures || |spaces[m].vmas| == |old(spaces[m].vmas)|
              || (|spaces[m].vmas| == |old(spaces[m].vmas)| + 1 && spaces[m].vmas[i + 1].start == end)
    {
      hide AttrAt, Fill, Mappers, Resident, Mem, Counted, PtesOk, Ordered, ProtectedAll, RangeMapped, Attrs;
      if spaces[m].vmas[i].end > end {
        SplitVma(m, i, end);
        ghost var s := St();
        ProtectVma(m, i, prot);
        var v := old(spaces[m].vmas[i]);
        ProtectedCongruence(old(St()), s, St(), m, v.start, end, prot);
      } else {
        ProtectVma(m, i, prot);
      }
    }

    method ProtectRange(m: nat, start: nat, end: nat, prot: Prot)
      requires Inv(St()) && m in spaces && start <= end
      requires RangeMapped(St(), m, start, end)
      modifies this
      ensures Inv(St()) && SameButList(spaces, old(spaces), m)
      ensures ProtectedAll(old(St()), St(), m, start, end, prot)
    {
      hide AttrAt, Fill, Mappers, Resident, Mem, Counted, PtesOk, Ordered, ProtectedAll, RangeMapped, Attrs, SameButList;
      var i := 0;
      ghost var done := start;
      ListSame(spaces, m);
      ProtectedSame(St(), m, start, prot);
      while i < |spaces[m].vmas|
        invariant m in spaces && Inv(St()) && 0 <= i <= |spaces[m].vmas| && start <= done <= end
        invariant SameButList(spaces, old(spaces), m)
        invariant forall v :: v in spaces[m].vmas[..i] ==> v.end <= done
        invariant i < |spaces[m].vmas| && done > start ==> done <= spaces[m].vmas[i].start
        invariant ProtectedAll(old(St()), St(), m, start, done, prot)
        decreases |spaces[m].vmas| - i, if i == |spaces[m].vmas| then 0 else Left(spaces[m].vmas[i], start, end)
      {
        var v := spaces[m].vmas[i];
        ghost var s := St();
        OrderedAt(spaces[m].vmas, i);
        if v.end <= start {
          i := i + 1;
        } else if v.start >= end {
          break;
        } else if v.start < start {
          SplitVma(m, i, start);
          ListTrans(old(spaces), s.spaces, spaces, m);
          ProtectedThenSame(old(St()), s, St(), m, start, done, prot);
          i := i + 1;
        } else {
          ReachesNext(old(St()), s, m, start, done, end, i, prot);
          ProtectPart(m, i, end, prot);
          ListTrans(old(spaces), s.spaces, spaces, m);
          ghost var hi := if v.end < end then v.end else end;
          ProtectedTwice(old(St()), s, St(), m, start, done, hi, prot);
          OrderedAt(spaces[m].vmas, i);
          done := hi;
          i := i + 1;
        }
      }
      if done < end {
        ReachesNext(old(St()), St(), m, start, done, end, i, prot);
      }
    }

    // map_vma into a hole.
    method MapVma(m: nat, nv: Vma)
      requires Inv(St()) && m in spaces && Ordered([nv]) && Free(spaces[m].vmas, nv.start, nv.end)
      modifies this
      ensures Inv(St()) && SameButList(spaces, old(spaces), m) && ptes == old(ptes) && pages == old(pages)
      ensures NewlyMapped(old(St()), St(), m, nv, nv.start, nv.end)
      ensures spaces[m].rss == old(spaces[m].rss)
    {
      FreeHasNoAttrs(spaces[m].vmas, nv.start, nv.end);
      hide AttrAt, Fill, Mappers, Resident, Mem, Counted, Ordered, PteFits, FrameFits;
      var vmas := VmaInsert(spaces[m].vmas, nv);
      SetVmas(m, vmas);
      NewCells(old(St()), St(), m, nv, nv.start, nv.end);
    }

    method ExtendVma(m: nat, i: nat, end: nat)
      requires Inv(St()) && m in spaces && i < |spaces[m].vmas|
      requires spaces[m].vmas[i].end <= end && Free(spaces[m].vmas, spaces[m].vmas[i].end, end)
      modifies this
      ensures Inv(St()) && SameButList(spaces, old(spaces), m) && ptes == old(ptes) && pages == old(pages)
      ensures NewlyMapped(old(St()), St(), m, old(spaces[m].vmas[i]), old(spaces[m].vmas[i].end), end)
    {
      OrderedAt(spaces[m].vmas, i);
      hide AttrAt, Fill, Mappers, Resident, Mem, Counted, Ordered, PteFits, FrameFits, BackingOf;
      var vmas := spaces[m].vmas;
      ExtendPageMap(vmas, i, end);
      SetVmas(m, vmas[i := vmas[i].(end := end)]);
      NewCells(old(St()), St(), m, vmas[i], vmas[i].end, end);
    }

    // The entry-moving loop of do_mremap.
    method MoveEntries(m: nat, src: nat, dst: nat, n: nat)
      requires Inv(St()) && (src + n <= dst || dst + n <= src)
      requires forall k :: InRange(k, m, dst, dst + n) ==> k !in ptes && Attrs(St(), k) == Attrs(St(), Key(m, k.pg - dst + src))
      modifies this
      ensures Inv(St()) && spaces == old(spaces)
      ensures forall k :: InRange(k, m, src, src + n) ==> k !in ptes
      ensures EntriesMoved(old(St()), St(), m, src, dst, n)
    {
      hide AttrAt, Fill, Mappers, Resident, Mem, Inv;
      for off := 0 to n
        invariant Inv(St()) && spaces == old(spaces)
        invariant forall k :: Attrs(St(), k) == old(Attrs(St(), k))
        invariant forall k :: InRange(k, m, src, src + off) ==> k !in ptes
        invariant forall k :: InRange(k, m, dst + off, dst + n) ==> k !in ptes
        invariant forall k :: InRange(k, m, dst, dst + off) ==> Mem(St(), k) == old(Mem(St(), Key(m, k.pg - dst + src)))
        invariant forall k :: !InRange(k, m, dst, dst + off) && !InRange(k, m, src, src + off) ==> Mem(St(), k) == old(Mem(St(), k))
      {
        var a, b := Key(m, src + off), Key(m, dst + off);
        if a in ptes {
          MovePteKeepsInv(St(), a, b);
          MovePteMem(St(), a, b);
          ptes := (ptes - {a})[b := ptes[a]];
        } else {
          AbsentMem(St(), a, b);
        }
      }
    }

    // The moving half of do_mremap: to a hole dst of newPages pages.
    method MoveMapping(m: nat, i: nat, old': nat, oldPages: nat, dst: nat, newPages: nat)
      requires Inv(St()) && m in spaces && i < |spaces[m].vmas| && !spaces[m].vmas[i].flags.io
      requires spaces[m].vmas[i].start <= old' && old' + oldPages <= spaces[m].vmas[i].end && oldPages < newPages
      requires Free(spaces[m].vmas, dst, dst + newPages) && old' < spaces[m].vmas[i].end
      modifies this
      ensures Inv(St()) && SameButList(spaces, old(spaces), m) && spaces[m].rss == old(spaces[m].rss)
      ensures Moved(old(St()), St(), m, old', dst, oldPages, newPages, old(spaces[m].vmas[i]))
    {
      hide AttrAt, Fill, Mappers, Resident, Mem, Inv, Ordered, BackingOf, Moved, NewlyMapped, Cut, EntriesMoved, Attrs,
           Free, KeepsOutside, MovedVma;
      var nv := MovedVma(spaces[m].vmas[i], old', dst, newPages);
      MovedVmaIsSame(St(), m, i, old', oldPages, dst, newPages);
      ghost var s0 := St();
      MapVma(m, nv);
      ghost var s1 := St();
      ReadyToMove(s0, s1, m, i, nv, old', oldPages);
      MoveEntries(m, old', dst, oldPages);
      ghost var s2 := St();
      UnmapRegion(m, old', old' + oldPages);
      SameResident(s2, St(), m, old', old' + oldPages);
      MovedBacking(s0.spaces[m].vmas[i], old', dst, newPages);
      MoveInSteps(s0, s1, s2, St(), m, s0.spaces[m].vmas[i], nv, old', dst, oldPages, newPages);
    }

    // do_mremap. Which errors when; shrinking always succeeds, growing in place
    // when the pages that follow are free, and moving when the search finds a
    // place.
    method Mremap(m: nat, addr: nat, oldLen: nat, newLen: nat, mayMove: bool, fixedAddr: bool) returns (r: int)
      requires Inv(St()) && m in spaces && spaces[m].brkStart % PAGE_SIZE == 0
      modifies this
      ensures Inv(St()) && SameButList(spaces, old(spaces), m)
      ensures r < 0 ==> St() == old(St())
      ensures Remapped(old(St()), St(), m, addr, PageCount(oldLen), PageCount(newLen), newLen > 0, mayMove, fixedAddr, r)
    {
      hide AttrAt, Fill, Mappers, Resident, Mem, Inv, Ordered, BackingOf, Moved, Attrs, Free, PageCount, Cut,
           NewlyMapped, VmaAt, AreaIs;
      if addr % PAGE_SIZE != 0 || newLen == 0 {
        return -EINVAL;
      }
      var from, n, n' := addr / PAGE_SIZE, PageCount(oldLen), PageCount(newLen);
      InvOrdered(St(), m);
      ghost var s := St();
      var v := VmaFind(spaces[m].vmas, from);
      if v.None? || from + n > spaces[m].vmas[v.value].end || spaces[m].vmas[v.value].flags.io {
        if v.Some? {
          VmaAtMember(s.spaces[m].vmas, v.value, from);
        }
        return -EFAULT;
      }
      VmaAtMember(s.spaces[m].vmas, v.value, from);
      if fixedAddr {
        return -EINVAL;
      }
      if n' <= n {
        if n' < n {
          WholePages(n - n');
          var _ := Munmap(m, (from + n') * PAGE_SIZE, (n - n') * PAGE_SIZE);
        }
        return addr;
      }
      if from + n == spaces[m].vmas[v.value].end && from + n' <= USER_END_PAGE {
        var hit := VmaFindIntersect(spaces[m].vmas, from + n, from + n');
        if hit.None? {
          ExtendVma(m, v.value, from + n');
          return addr;
        }
        NotFree(spaces[m].vmas, hit.value, from + n, from + n');
      }
      if !mayMove {
        return -ENOMEM;
      }
      var dst := GetUnmappedArea(spaces[m].vmas, spaces[m].mmapBase, spaces[m].brkStart, spaces[m].brk, n');
      if dst == 0 {
        return -ENOMEM;
      }
      MoveMapping(m, v.value, from, n, dst, n');
      r := dst * PAGE_SIZE;
    }

    // do_brk. The break is a byte address; the heap is whole pages.
    method Brk(m: nat, nbrk: nat) returns (r: nat)
      requires Inv(St()) && m in spaces && spaces[m].brkStart <= spaces[m].brk
      modifies this
      ensures Inv(St()) && m in spaces && r == spaces[m].brk && spaces[m].brkStart == old(spaces[m].brkStart) <= r
      ensures r == nbrk <==>
                && nbrk >= old(spaces[m].brkStart)
                && (|| PageCount(nbrk) <= PageCount(old(spaces[m].brk))
                    || Free(old(spaces[m].vmas), PageCount(old(spaces[m].brk)), PageCount(nbrk) + 1))
      ensures r != nbrk ==> r == old(spaces[m].brk) && St() == old(St())
      ensures var was, now := PageCount(old(spaces[m].brk)), PageCount(nbrk);
              && (r == nbrk ==> HeapMoved(old(St()), St(), m, was, now))
              && forall k :: r == nbrk && InRange(k, m, was, now) ==>
                   ReadsZeros(Mem(St(), k)) && AccessAsked(Mem(St(), k).value.flags, Prot(true, true, false), false)
      ensures SameButList(spaces, old(spaces)[m := old(spaces)[m].(brk := r)], m)
    {
      hide AttrAt, Fill, Mappers, Resident, Mem, Inv, Ordered, BackingOf, Attrs, Free, PageCount, Cut, NewlyMapped,
           HeapMoved;
      if nbrk < spaces[m].brkStart {
        return spaces[m].brk;
      }
      var was, now := PageCount(spaces[m].brk), PageCount(nbrk);
      ghost var s := St();
      if now > was {
        InvOrdered(s, m);
        var hit := VmaFindIntersect(spaces[m].vmas, was, now + 1);
        if hit.Some? {
          NotFree(spaces[m].vmas, hit.value, was, now + 1);
          return spaces[m].brk;
        }
        FreeBelow(spaces[m].vmas, was, now);
        var v := None;
        if was > 0 && was * PAGE_SIZE > spaces[m].brkStart {
          v := VmaFind(spaces[m].vmas, was - 1);
        }
        if v.Some? && spaces[m].vmas[v.value].end == was && spaces[m].vmas[v.value].file.None? &&
           spaces[m].vmas[v.value].flags == HEAP {
          ExtendVma(m, v.value, now);
          HeapGrew(s, St(), m, s.spaces[m].vmas[v.value], was, now);
        } else {
          HeapVmaIsOrdered(was, now);
          MapVma(m, HeapVma(was, now));
          HeapGrew(s, St(), m, HeapVma(was, now), was, now);
        }
      } else if now < was {
        UnmapRegion(m, now, was);
        HeapShrank(s, St(), m, was, now);
      } else {
        HeapStayed(s, m, was);
      }
      ghost var s' := St();
      spaces := spaces[m := spaces[m].(brk := nbrk)];
      BreakIsInvisible(s', m, nbrk);
      HeapThenBreak(s, s', St(), m, was, now);
      HeapIsZero(s, St(), m, was, now);
      r := nbrk;
    }

    // The page loop of mm_dup for one VMA.
    method ForkPages(p: nat, c: nat, lo: nat, hi: nat)
      requires Inv(St()) && p != c && p in spaces && c in spaces && lo <= hi
      requires forall k :: InRange(k, c, lo, hi) ==> k !in ptes && Attrs(St(), k) == Attrs(St(), Key(p, k.pg))
      modifies this
      ensures Inv(St()) && SameSpaces(spaces, old(spaces))
      ensures forall k: Key :: k.mm == c && !InRange(k, c, lo, hi) ==> (k in ptes <==> k in old(ptes))
      ensures forall k :: Attrs(St(), k) == old(Attrs(St(), k))
      ensures forall k :: Mem(St(), k) == if InRange(k, c, lo, hi) then old(Mem(St(), Key(p, k.pg))) else old(Mem(St(), k))
    {
      hide AttrAt, Fill, Mappers, Resident, Mem, Inv;
      for va := lo to hi
        invariant Inv(St()) && SameSpaces(spaces, old(spaces))
        invariant forall k: Key :: k.mm == c && !InRange(k, c, lo, va) ==> (k in ptes <==> k in old(ptes))
        invariant forall k :: Attrs(St(), k) == old(Attrs(St(), k))
        invariant forall k :: Mem(St(), k) == if InRange(k, c, lo, va) then old(Mem(St(), Key(p, k.pg))) else old(Mem(St(), k))
      {
        assert Attrs(St(), Key(c, va)) == Attrs(St(), Key(p, va)) && Key(c, va) !in ptes by {
          assert InRange(Key(c, va), c, lo, hi);
        }
        if Key(p, va) in ptes {
          ForkOne(Key(p, va), Key(c, va));
        } else {
          AbsentMem(St(), Key(p, va), Key(c, va));
        }
      }
    }

    method ForkOne(k: Key, l: Key)
      requires Inv(St()) && k in ptes && l !in ptes && Attrs(St(), k) == Attrs(St(), l)
      modifies this
      ensures ForkedOne(old(St()), St(), k, l)
    {
      hide AttrAt, Fill, Mappers, Resident, Mem, Inv, ForkedOne, SameSpaces;
      ForkPageEffects(St(), k, l);
      var e := ptes[k];
      var shared := AttrAt(spaces[k.mm].vmas, k.pg).value.flags.shared;
      if e.io {
        ptes := ptes[l := e];
      } else {
        pages := pages[e.frame := pages[e.frame].(refs := pages[e.frame].refs + 1)];
        spaces := spaces[l.mm := spaces[l.mm].(rss := spaces[l.mm].rss + 1)];
        if !shared {
          e := e.(rdonly := true, cow := true);
        }
        ptes := ptes[k := e][l := e];
      }
      assert St() == ForkPage(old(St()), k, l);
    }

    // mm_dup: the child reads exactly what the parent reads, and nobody else
    // sees a difference.
    method Dup(p: nat, c: nat)
      requires Inv(St()) && p in spaces && c !in spaces
      modifies this
      ensures Inv(St())
      ensures Forked(old(St()), St(), p, c)
      ensures spaces.Keys == old(spaces).Keys + {c}
      ensures spaces[c].(rss := 0) == old(spaces[p]).(rss := 0)
      ensures forall x :: x in old(spaces) ==> spaces[x].(rss := 0) == old(spaces)[x].(rss := 0)
    {
      hide AttrAt, Fill, Mappers, Resident, Mem, Inv, Ordered, ForkedPart, Forked, Attrs, ChildOf;
      InvOrdered(St(), p);
      ghost var s0 := St();
      var vmas := spaces[p].vmas;
      CreateKeepsInv(s0, c, spaces[p].(vmas := [], rss := 0));
      spaces := spaces[c := spaces[p].(vmas := [], rss := 0)];
      ForkBegins(s0, St(), p, c);
      ChildBegins(s0.spaces, p, c);
      for i := 0 to |vmas|
        invariant Inv(St()) && p in spaces && c in spaces && spaces[p].vmas == vmas && spaces[c].vmas == vmas[..i]
        invariant ForkedPart(s0, St(), p, c, vmas[..i])
        invariant ChildOf(spaces, s0.spaces, p, c)
      {
        ghost var s := St();
        ghost var more := vmas[..i] + [vmas[i]];
        ForkExtends(s, c, vmas, i);
        SetVmas(c, spaces[c].vmas + [vmas[i]]);
        ghost var s1 := St();
        OrderedAt(vmas, i);
        ForkReady(s0, s, s1, p, c, vmas, i);
        ForkPages(p, c, vmas[i].start, vmas[i].end);
        ForkStep(s0, s, s1, St(), p, c, vmas, i);
        ChildStays(s.spaces, s1.spaces, spaces, s0.spaces, p, c);
        assert more == vmas[..i + 1];
      }
      assert vmas[..|vmas|] == vmas;
      ForkEnds(s0, St(), p, c);
      ChildIs(spaces, s0.spaces, p, c);
    }

    // The last mm_put: free_tables releases every entry, then the space goes.
    method Exit(m: nat)
      requires Inv(St()) && m in spaces
      modifies this
      ensures Inv(St()) && SameSpaces(spaces, old(spaces) - {m})
      ensures forall k: Key :: k.mm == m ==> Mem(St(), k) == None
      ensures forall k: Key :: k.mm != m ==> Attrs(St(), k) == old(Attrs(St(), k)) && Mem(St(), k) == old(Mem(St(), k))
    {
      hide AttrAt, Fill, Mappers, Resident, Mem, Inv;
      var todo := set k | k in ptes && k.mm == m;
      while todo != {}
        invariant Inv(St()) && SameSpaces(spaces, old(spaces))
        invariant todo == set k | k in ptes && k.mm == m
        invariant forall k: Key :: k.mm != m ==> Mem(St(), k) == old(Mem(St(), k))
        decreases todo
      {
        var k :| k in todo;
        ReleasePte(k);
        todo := todo - {k};
      }
      assert forall k :: k in ptes && k.mm == m ==> k in todo;
      DestroyKeepsInv(St(), m);
      ghost var s := St();
      spaces := spaces - {m};
      forall k: Key | k.mm != m
        ensures Mem(St(), k) == Mem(s, k)
      {
        LifecycleMem(s, spaces, k);
      }
      UnmappedMem(St());
    }

    // do_mmap of anonymous memory or of a regular file, without MAP_POPULATE.
    // A shared writable file mapping is refused only after MAP_FIXED has
    // already unmapped the range.
    method Mmap(m: nat, addr: nat, len: nat, prot: Prot, map': MapFlags, file: Option<nat>, fileSize: nat,
        off: nat) returns (r: int)
      requires Inv(St()) && m in spaces && spaces[m].brkStart % PAGE_SIZE == 0
      modifies this
      ensures Inv(St())
      ensures r < 0 ==> r in {-EINVAL, -ENOMEM, -EEXIST, -EOPNOTSUPP}
      ensures r == -EINVAL <==>
                len == 0 || off % PAGE_SIZE != 0 || (PageCount(len) <= USER_END_PAGE && Fixed(map') && addr % PAGE_SIZE != 0)
      ensures r == -ENOMEM <==>
                && len > 0 && off % PAGE_SIZE == 0
                && (|| PageCount(len) > USER_END_PAGE
                    || (Fixed(map') && addr % PAGE_SIZE == 0 && !UserRange(addr / PAGE_SIZE, PageCount(len)))
                    || (!Fixed(map') && NoPlace(old(spaces[m]), addr / PAGE_SIZE, PageCount(len))))
      ensures r == -EEXIST <==>
                && PlaceGiven(addr, len, map', off) && map'.noReplace
                && !Free(old(spaces[m].vmas), addr / PAGE_SIZE, addr / PAGE_SIZE + PageCount(len))
      ensures r == -EOPNOTSUPP <==>
                && file.Some? && map'.shared && prot.write
                && if Fixed(map') then
                     && PlaceGiven(addr, len, map', off)
                     && (!map'.noReplace || Free(old(spaces[m].vmas), addr / PAGE_SIZE, addr / PAGE_SIZE + PageCount(len)))
                   else
                     && len > 0 && off % PAGE_SIZE == 0 && PageCount(len) <= USER_END_PAGE
                     && !NoPlace(old(spaces[m]), addr / PAGE_SIZE, PageCount(len))
      ensures r < 0 ==> (St() != old(St()) <==> LosesMapping(old(St()), m, addr, len, prot, map', file, off))
      ensures r < 0 && St() != old(St()) ==>
                Cut(old(St()), St(), m, addr / PAGE_SIZE, addr / PAGE_SIZE + PageCount(len))
      ensures var n := PageCount(len);
              r >= 0 ==>
                && r % PAGE_SIZE == 0
                && PlaceIs(old(spaces[m]), addr / PAGE_SIZE, n, map', r / PAGE_SIZE)
                && Mapped(old(St()), St(), m, NewVma(r / PAGE_SIZE, n, prot, map', file, fileSize, off))
                && forall k :: InRange(k, m, r / PAGE_SIZE, r / PAGE_SIZE + n) ==>
                     && var c := Mem(St(), k);
                     && c.Some? && AccessAsked(c.value.flags, prot, map'.shared && file.None?)
                     && ReadsFile(c.value.content, files, file, fileSize, off + (k.pg - r / PAGE_SIZE) * PAGE_SIZE)
      ensures SameButList(spaces, old(spaces), m)
    {
      hide AttrAt, Fill, Mappers, Resident, Mem, Inv, Ordered, BackingOf, Attrs, PageCount, Cut, NewlyMapped, Mapped,
           NewVma, Free, AreaIs;
      if len == 0 || off % PAGE_SIZE != 0 {
        return -EINVAL;
      }
      SomePages(len);
      var n := PageCount(len);
      if n > USER_END_PAGE {
        return -ENOMEM;
      }
      ghost var s := St();
      var e, at := MakeRoom(m, addr, n, map');
      if e != 0 {
        return e;
      }
      if file.Some? && map'.shared && prot.write {
        return -EOPNOTSUPP;
      }
      ghost var s1 := St();
      var nv := NewVma(at, n, prot, map', file, fileSize, off);
      CutIsFree(s, s1, m, at, at + n);
      MapVma(m, nv);
      MapInSteps(s, s1, St(), m, nv);
      NewVmaReads(s, St(), m, at, n, prot, map', file, fileSize, off);
      r := at * PAGE_SIZE;
    }

    // The place of a new mapping of n pages, unmapped if it is fixed.
    method MakeRoom(m: nat, addr: nat, n: nat, map': MapFlags) returns (e: int, at: nat)
      requires Inv(St()) && m in spaces && spaces[m].brkStart % PAGE_SIZE == 0 && 0 < n
      modifies this
      ensures Inv(St()) && m in spaces && SameButList(spaces, old(spaces), m)
      ensures e in {0, -EINVAL, -ENOMEM, -EEXIST} && (e != 0 ==> St() == old(St()))
      ensures e == -EINVAL <==> Fixed(map') && addr % PAGE_SIZE != 0
      ensures e == -ENOMEM <==>
                || (Fixed(map') && addr % PAGE_SIZE == 0 && !UserRange(addr / PAGE_SIZE, n))
                || (!Fixed(map') && NoPlace(old(spaces[m]), addr / PAGE_SIZE, n))
      ensures e == -EEXIST <==>
                && Fixed(map') && addr % PAGE_SIZE == 0 && UserRange(addr / PAGE_SIZE, n) && map'.noReplace
                && !Free(old(spaces[m].vmas), addr / PAGE_SIZE, addr / PAGE_SIZE + n)
      ensures e == 0 ==>
                && PlaceIs(old(spaces[m]), addr / PAGE_SIZE, n, map', at) && Cut(old(St()), St(), m, at, at + n)
                && (St() == old(St()) <==> Free(old(spaces[m].vmas), at, at + n))
    {
      hide AttrAt, Fill, Mappers, Resident, Mem, Inv, Ordered, BackingOf, Attrs, Cut, Free, AreaIs;
      ghost var s := St();
      InvOrdered(s, m);
      at := addr / PAGE_SIZE;
      if map'.fixedAddr || map'.noReplace {
        if addr % PAGE_SIZE != 0 {
          return -EINVAL, at;
        }
        if at < USER_MIN_PAGE || at + n > USER_END_PAGE {
          return -ENOMEM, at;
        }
        var hit := VmaFindIntersect(spaces[m].vmas, at, at + n);
        if hit.Some? {
          NotFree(spaces[m].vmas, hit.value, at, at + n);
          if map'.noReplace {
            return -EEXIST, at;
          }
          UnmapRegion(m, at, at + n);
          CutIsFree(s, St(), m, at, at + n);
        } else {
          FreeIsCut(s, m, at, at + n);
        }
      } else {
        var hit := Some(0);
        if at >= USER_MIN_PAGE && at + n <= USER_END_PAGE {
          hit := VmaFindIntersect(spaces[m].vmas, at, at + n);
          if hit.Some? {
            NotFree(spaces[m].vmas, hit.value, at, at + n);
          }
        }
        if hit.Some? {
          at := GetUnmappedArea(spaces[m].vmas, spaces[m].mmapBase, spaces[m].brkStart, spaces[m].brk, n);
          OneArea(spaces[m], n, at);
          if at == 0 {
            return -ENOMEM, at;
          }
        }
        FreeIsCut(s, m, at, at + n);
      }
      e := 0;
    }
  }

  // What do_mremap makes of n pages at addr, grown or shrunk to n'.
  ghost predicate Remapped(s: State, s': State, m: nat, addr: nat, n: nat, n': nat, some: bool, mayMove: bool,
      fixedAddr: bool, r: int)
    requires m in s.spaces
  {
    var sp, from := s.spaces[m], addr / PAGE_SIZE;
    var v := VmaAt(sp.vmas, from);
    if addr % PAGE_SIZE != 0 || !some then r == -EINVAL
    else if v.None? || from + n > v.value.end || v.value.flags.io then r == -EFAULT
    else if fixedAddr then r == -EINVAL
    else if n' == n then r == addr && s' == s
    else if n' < n then r == addr && (from + n <= USER_END_PAGE ==> Cut(s, s', m, from + n', from + n))
    else if from + n == v.value.end && from + n' <= USER_END_PAGE && Free(sp.vmas, from + n, from + n')
    then r == addr && NewlyMapped(s, s', m, v.value, from + n, from + n')
    else if !mayMove then r == -ENOMEM
    else if r < 0 then r == -ENOMEM && AreaIs(sp.vmas, sp.mmapBase, sp.brkStart, sp.brk, n', 0)
    else
      && r > 0 && r % PAGE_SIZE == 0 && m in s'.spaces && s'.spaces[m].rss == sp.rss
      && AreaIs(sp.vmas, sp.mmapBase, sp.brkStart, sp.brk, n', r / PAGE_SIZE)
      && Moved(s, s', m, from, r / PAGE_SIZE, n, n', v.value)
  }

  datatype MapFlags = MapFlags(shared: bool, fixedAddr: bool, noReplace: bool)

  // MAP_FIXED or MAP_FIXED_NOREPLACE.
  predicate Fixed(map': MapFlags) {
    map'.fixedAddr || map'.noReplace
  }

  predicate UserRange(at: nat, n: nat) {
    16 <= at && at + n <= 0x800_0000
  }

  // The arguments name a fixed place that user space may have.
  predicate PlaceGiven(addr: nat, len: nat, map': MapFlags, off: nat) {
    && len > 0 && off % PAGE_SIZE == 0 && PageCount(len) <= USER_END_PAGE
    && Fixed(map') && addr % PAGE_SIZE == 0 && UserRange(addr / PAGE_SIZE, PageCount(len))
  }

  ghost predicate HintFree(sp: Mm, at: nat, n: nat) {
    UserRange(at, n) && Free(sp.vmas, at, at + n)
  }

  // Neither the hint nor the search gives a place.
  ghost predicate NoPlace(sp: Mm, hint: nat, n: nat) {
    !HintFree(sp, hint, n) && AreaIs(sp.vmas, sp.mmapBase, sp.brkStart, sp.brk, n, 0)
  }

  // Where the mapping goes: the place given, the hint if it is free, or what
  // the search finds.
  ghost predicate PlaceIs(sp: Mm, hint: nat, n: nat, map': MapFlags, at: nat) {
    if Fixed(map') then at == hint && UserRange(at, n) && (map'.noReplace ==> Free(sp.vmas, at, at + n))
    else if HintFree(sp, hint, n) then at == hint
    else at != 0 && AreaIs(sp.vmas, sp.mmapBase, sp.brkStart, sp.brk, n, at) && Free(sp.vmas, at, at + n)
  }

  lemma OneArea(sp: Mm, n: nat, at: nat)
    requires AreaIs(sp.vmas, sp.mmapBase, sp.brkStart, sp.brk, n, at)
    ensures at != 0 ==> !AreaIs(sp.vmas, sp.mmapBase, sp.brkStart, sp.brk, n, 0)
  {
    if at != 0 && AreaIs(sp.vmas, sp.mmapBase, sp.brkStart, sp.brk, n, 0) {
      AreaUnique(sp.vmas, sp.mmapBase, sp.brkStart, sp.brk, n, at, 0);
    }
  }

  // do_mmap fails, but not before it has unmapped what was there: a shared
  // writable mapping of a file over a fixed range in use.
  ghost predicate LosesMapping(s: State, m: nat, addr: nat, len: nat, prot: Prot, map': MapFlags, file: Option<nat>,
      off: nat)
    requires m in s.spaces
  {
    && PlaceGiven(addr, len, map', off) && !map'.noReplace && file.Some? && map'.shared && prot.write
    && !Free(s.spaces[m].vmas, addr / PAGE_SIZE, addr / PAGE_SIZE + PageCount(len))
  }

  // One page of heap, replaced by a file.
  lemma LosesHeapPage()
    ensures var s := State(map[], map[0 := Mm([HeapVma(16, 17)], 0, 0, 1000, 2000, 0)], map[], map[]);
            Inv(s) && LosesMapping(s, 0, 16 * PAGE_SIZE, 1, Prot(true, true, false), MapFlags(true, true, false), Some(0), 0)
  {
    var s := State(map[], map[0 := Mm([HeapVma(16, 17)], 0, 0, 1000, 2000, 0)], map[], map[]);
    HeapVmaIsOrdered(16, 17);
    assert s.spaces[0].vmas[0] == HeapVma(16, 17);
    assert PageCount(1) == 1;
    assert Resident(s.ptes, 0) == {};
  }

  // The VMA do_mmap creates; a shared read-only file mapping is treated as
  // private, and only the part of the file inside the mapping backs it.
  function NewVma(at: nat, n: nat, prot: Prot, map': MapFlags, file: Option<nat>, fileSize: nat, off: nat): (v: Vma)
    ensures v.start == at && v.end == at + n && (n > 0 ==> Ordered([v]))
  {
    var access := WithAccess(Flags(false, false, false, map'.shared && file.None?, false, false, false), prot);
    var bytes := if off >= fileSize then 0 else if n * PAGE_SIZE < fileSize - off then n * PAGE_SIZE else fileSize - off;
    if file.Some? then Vma(at, at + n, access, file, off, bytes, 0)
    else Vma(at, at + n, access, None, 0, 0, 0)
  }

  // The access prot_to_vm gives.
  predicate AccessAsked(f: Flags, prot: Prot, shared: bool) {
    && (f.write <==> prot.write) && (f.exec <==> prot.exec) && (f.read <==> prot.read || prot.write || prot.exec)
    && f.shared == shared && !f.io && !f.grows && !f.nc
  }

  // A page that holds the bytes of the file from `pos` on, up to `size` and the
  // end of the file, and zeros after them; without a file zeros alone.
  ghost predicate ReadsFile(c: Content, files: map<nat, seq<Byte>>, file: Option<nat>, size: nat, pos: nat) {
    && c.Bytes? && |c.data| == PAGE_SIZE
    && forall i :: 0 <= i < PAGE_SIZE ==>
         if file.Some? && file.value in files && pos + i < size && pos + i < |files[file.value]|
         then c.data[i] == files[file.value][pos + i] else c.data[i] == 0
  }

  lemma NewVmaReads(s: State, s': State, m: nat, at: nat, n: nat, prot: Prot, map': MapFlags, file: Option<nat>,
      fileSize: nat, off: nat)
    requires Mapped(s, s', m, NewVma(at, n, prot, map', file, fileSize, off))
    ensures forall k :: InRange(k, m, at, at + n) ==>
              && var c := Mem(s', k);
              && c.Some? && AccessAsked(c.value.flags, prot, map'.shared && file.None?)
              && ReadsFile(c.value.content, s.files, file, fileSize, off + (k.pg - at) * PAGE_SIZE)
  {
    hide Attrs, Mem;
    var v := NewVma(at, n, prot, map', file, fileSize, off);
    forall k | InRange(k, m, at, at + n)
      ensures var c := Mem(s', k);
              && c.Some? && AccessAsked(c.value.flags, prot, map'.shared && file.None?)
              && ReadsFile(c.value.content, s.files, file, fileSize, off + (k.pg - at) * PAGE_SIZE)
    {
      UnreadNewPage(s.files, at, n, prot, map', file, fileSize, off, k.pg - at);
    }
  }

  lemma UnreadNewPage(files: map<nat, seq<Byte>>, at: nat, n: nat, prot: Prot, map': MapFlags, file: Option<nat>,
      fileSize: nat, off: nat, j: nat)
    requires j < n
    ensures var v := NewVma(at, n, prot, map', file, fileSize, off);
            var c := UnreadCell(files, Attr(v.flags, BackingOf(v, at + j)));
            && AccessAsked(c.flags, prot, map'.shared && file.None?)
            && ReadsFile(c.content, files, file, fileSize, off + j * PAGE_SIZE)
  {
    assert j * PAGE_SIZE + PAGE_SIZE <= n * PAGE_SIZE;
  }

  // The pages of v are mapped, unread, and no other page changes.
  ghost predicate Mapped(s: State, s': State, m: nat, v: Vma) {
    forall k ::
      if InRange(k, m, v.start, v.end) then
        && Attrs(s', k) == Some(Attr(v.flags, BackingOf(v, k.pg)))
        && Mem(s', k) == Some(UnreadCell(s.files, Attr(v.flags, BackingOf(v, k.pg))))
      else Attrs(s', k) == Attrs(s, k) && Mem(s', k) == Mem(s, k)
  }

  lemma MapInSteps(s: State, s1: State, s2: State, m: nat, v: Vma)
    requires s1.files == s.files && Cut(s, s1, m, v.start, v.end) && NewlyMapped(s1, s2, m, v, v.start, v.end)
    ensures Mapped(s, s2, m, v)
  {
    hide Attrs, Mem, BackingOf, UnreadCell;
  }

  lemma NotFree(vmas: seq<Vma>, i: nat, lo: nat, hi: nat)
    requires i < |vmas| && vmas[i].start < hi && lo < vmas[i].end
    ensures !Free(vmas, lo, hi)
  {
  }

  lemma FreeIsCut(s: State, m: nat, lo: nat, hi: nat)
    requires m in s.spaces && Free(s.spaces[m].vmas, lo, hi)
    ensures Cut(s, s, m, lo, hi)
  {
    hide AttrAt, Mem;
    FreeHasNoAttrs(s.spaces[m].vmas, lo, hi);
    UnmappedMem(s);
  }

  lemma CutIsFree(s: State, s': State, m: nat, lo: nat, hi: nat)
    requires lo < hi && m in s'.spaces && Inv(s') && Cut(s, s', m, lo, hi)
    ensures Free(s'.spaces[m].vmas, lo, hi)
  {
    hide AttrAt, Mem, Mappers, Resident, PtesOk, Counted;
    var vmas := s'.spaces[m].vmas;
    forall i | 0 <= i < |vmas|
      ensures vmas[i].end <= lo || hi <= vmas[i].start
    {
      if vmas[i].end > lo && vmas[i].start < hi {
        var pg := if vmas[i].start < lo then lo else vmas[i].start;
        assert InRange(Key(m, pg), m, lo, hi);
        AttrOfMember(vmas, i, pg);
      }
    }
  }

  lemma SomePages(len: nat)
    requires len > 0
    ensures PageCount(len) > 0
  {
  }

  // Page l of the child is page k of the parent.
  ghost predicate ForkedOne(s: State, s': State, k: Key, l: Key) {
    && Inv(s') && SameSpaces(s'.spaces, s.spaces) && s'.ptes.Keys == s.ptes.Keys + {l}
    && (forall x :: Attrs(s', x) == Attrs(s, x))
    && (forall x :: x != l ==> Mem(s', x) == Mem(s, x))
    && Mem(s', l) == Mem(s, k)
  }

  lemma ForkPageEffects(s: State, k: Key, l: Key)
    requires Inv(s) && k in s.ptes && l !in s.ptes && Attrs(s, k) == Attrs(s, l)
    ensures Attrs(s, k).Some? && l.mm in s.spaces && k.mm in s.spaces && (!s.ptes[k].io ==> s.ptes[k].frame in s.pages)
    ensures ForkedOne(s, ForkPage(s, k, l), k, l)
  {
    hide AttrAt, Fill, Mappers, Resident, Mem, Inv, SameSpaces, ForkPage;
    AttrsOfEntries(s);
    FramesExist(s);
    ForkPageKeepsInv(s, k, l);
    ForkPageMem(s, k, l);
    ForkPageShape(s, k, l);
  }

  lemma ForkPageShape(s: State, k: Key, l: Key)
    requires k in s.ptes && l.mm in s.spaces && (!s.ptes[k].io ==> s.ptes[k].frame in s.pages)
    ensures var s' := ForkPage(s, k, l);
            && SameSpaces(s'.spaces, s.spaces) && s'.ptes.Keys == s.ptes.Keys + {l}
            && forall x :: Attrs(s', x) == Attrs(s, x)
  {
    hide AttrAt;
  }

  ghost predicate Forked(s: State, s': State, p: nat, c: nat) {
    forall k: Key ::
      if k.mm == c then Attrs(s', k) == Attrs(s, Key(p, k.pg)) && Mem(s', k) == Mem(s, Key(p, k.pg))
      else Attrs(s', k) == Attrs(s, k) && Mem(s', k) == Mem(s, k)
  }

  // Space c is a copy of p but for its list, and the others are as before.
  ghost predicate ChildOf(now: map<nat, Mm>, was: map<nat, Mm>, p: nat, c: nat) {
    && p in was && c !in was && now.Keys == was.Keys + {c}
    && now[c].(rss := 0, vmas := []) == was[p].(rss := 0, vmas := [])
    && forall x :: x in was ==> now[x].(rss := 0) == was[x].(rss := 0)
  }

  lemma ChildBegins(was: map<nat, Mm>, p: nat, c: nat)
    requires p in was && c !in was
    ensures ChildOf(was[c := was[p].(vmas := [], rss := 0)], was, p, c)
  {
  }

  lemma ChildStays(a: map<nat, Mm>, b: map<nat, Mm>, d: map<nat, Mm>, was: map<nat, Mm>, p: nat, c: nat)
    requires ChildOf(a, was, p, c) && SameButList(b, a, c) && SameSpaces(d, b)
    ensures ChildOf(d, was, p, c)
  {
  }

  lemma ChildIs(now: map<nat, Mm>, was: map<nat, Mm>, p: nat, c: nat)
    requires ChildOf(now, was, p, c) && now[c].vmas == was[p].vmas
    ensures now.Keys == was.Keys + {c} && now[c].(rss := 0) == was[p].(rss := 0)
    ensures forall x :: x in was ==> now[x].(rss := 0) == was[x].(rss := 0)
  {
  }

  // The child has the first VMAs of the parent, with their contents.
  ghost predicate ForkedPart(s: State, s': State, p: nat, c: nat, vmas: seq<Vma>) {
    && (forall k: Key :: k.mm != c ==> Attrs(s', k) == Attrs(s, k) && Mem(s', k) == Mem(s, k))
    && (forall k: Key :: k.mm == c ==> Attrs(s', k) == AttrAt(vmas, k.pg))
    && (forall k: Key :: k.mm == c && Attrs(s', k).Some? ==> Mem(s', k) == Mem(s, Key(p, k.pg)))
  }

  lemma ForkBegins(s: State, s': State, p: nat, c: nat)
    requires Inv(s) && p in s.spaces && c !in s.spaces
    requires s' == s.(spaces := s.spaces[c := s.spaces[p].(vmas := [], rss := 0)])
    ensures ForkedPart(s, s', p, c, [])
  {
    hide Fill, Mappers, Resident, Ordered, Mem, Inv;
    forall k: Key | k.mm != c
      ensures Attrs(s', k) == Attrs(s, k) && Mem(s', k) == Mem(s, k)
    {
      LifecycleMem(s, s'.spaces, k);
    }
  }

  lemma ForkExtends(s: State, c: nat, vmas: seq<Vma>, i: nat)
    requires Inv(s) && i < |vmas| && Ordered(vmas) && c in s.spaces && s.spaces[c].vmas == vmas[..i]
    ensures Ordered(vmas[..i] + [vmas[i]])
    ensures forall k: Key :: k.mm == c && Attrs(s, k).Some? ==> AttrAt(vmas[..i] + [vmas[i]], k.pg) == Attrs(s, k)
    ensures forall k: Key :: k.mm == c && k in s.ptes ==> AttrAt(vmas[..i] + [vmas[i]], k.pg) == Attrs(s, k)
  {
    hide AttrAt, Mappers, Resident, PteFits, FrameFits;
    forall pg: nat
      ensures AttrAt(vmas[..i], pg).Some? ==> AttrAt(vmas[..i] + [vmas[i]], pg) == AttrAt(vmas[..i], pg)
    {
      AttrOfConcat(vmas[..i], [vmas[i]], pg);
    }
  }

  lemma ForkReady(s0: State, s: State, s1: State, p: nat, c: nat, vmas: seq<Vma>, i: nat)
    requires Inv(s) && p != c && p in s.spaces && i < |vmas| && Ordered(vmas) && s.spaces[p].vmas == vmas
    requires c in s.spaces && s.spaces[c].vmas == vmas[..i]
    requires s1 == EditVmas(s, c, vmas[..i] + [vmas[i]])
    ensures forall k :: InRange(k, c, vmas[i].start, vmas[i].end) ==>
              k !in s1.ptes && Attrs(s, k) == None && Attrs(s1, k) == Attrs(s1, Key(p, k.pg))
  {
    hide AttrAt, Mappers, Resident, PteFits, FrameFits, Ordered;
    AbsentWhenUnmapped(s);
    forall k | InRange(k, c, vmas[i].start, vmas[i].end)
      ensures Attrs(s, k) == None && Attrs(s1, k) == Attrs(s1, Key(p, k.pg))
    {
      AttrOfMember(vmas, i, k.pg);
      PrefixMisses(vmas, i, k.pg);
      AttrOfConcat(vmas[..i], [vmas[i]], k.pg);
      AttrOfOne(vmas[i], k.pg);
    }
  }

  lemma PrefixMisses(vmas: seq<Vma>, i: nat, pg: nat)
    requires Ordered(vmas) && i < |vmas| && Contains(vmas[i], pg)
    ensures AttrAt(vmas[..i], pg) == None
  {
    AttrOfNone(vmas[..i], pg);
  }

  lemma ForkStep(s0: State, s: State, s1: State, s2: State, p: nat, c: nat, vmas: seq<Vma>, i: nat)
    requires p != c && i < |vmas|
    requires ForkedPart(s0, s, p, c, vmas[..i])
    requires forall k: Key :: k.mm != c ==> Attrs(s1, k) == Attrs(s, k) && Mem(s1, k) == Mem(s, k)
    requires forall k: Key :: k.mm == c ==> Attrs(s1, k) == AttrAt(vmas[..i] + [vmas[i]], k.pg)
    requires forall k: Key :: k.mm == c && Attrs(s1, k) == Attrs(s, k) ==> Mem(s1, k) == Mem(s, k)
    requires forall k :: Attrs(s2, k) == Attrs(s1, k)
    requires forall k :: Mem(s2, k) == if InRange(k, c, vmas[i].start, vmas[i].end) then Mem(s1, Key(p, k.pg)) else Mem(s1, k)
    ensures ForkedPart(s0, s2, p, c, vmas[..i] + [vmas[i]])
  {
    hide AttrAt, Attrs, Mem;
    forall k: Key | k.mm == c && Attrs(s2, k).Some?
      ensures Mem(s2, k) == Mem(s0, Key(p, k.pg))
    {
      if !InRange(k, c, vmas[i].start, vmas[i].end) {
        AttrOfConcat(vmas[..i], [vmas[i]], k.pg);
        AttrOfOne(vmas[i], k.pg);
        assert Attrs(s1, k) == Attrs(s, k);
      }
    }
  }

  lemma ForkEnds(s: State, s': State, p: nat, c: nat)
    requires p in s.spaces && ForkedPart(s, s', p, c, s.spaces[p].vmas)
    ensures Forked(s, s', p, c)
  {
    hide AttrAt, Mem;
    UnmappedMem(s);
    UnmappedMem(s');
  }

  lemma AttrsOfEntries(s: State)
    requires Inv(s)
    ensures forall k :: k in s.ptes ==> Attrs(s, k).Some?
  {
    hide AttrAt, Mappers, Resident, Ordered;
  }

  const HEAP := Flags(true, true, false, false, false, false, false)

  function HeapVma(lo: nat, hi: nat): (v: Vma)
    ensures v.start == lo && v.end == hi
  {
    Vma(lo, hi, HEAP, None, 0, 0, 0)
  }

  lemma HeapVmaIsOrdered(lo: nat, hi: nat)
    requires lo < hi
    ensures Ordered([HeapVma(lo, hi)])
  {
  }

  // Pages [was, now) appear as zero pages, or pages [now, was) disappear.
  ghost predicate HeapMoved(s: State, s': State, m: nat, was: nat, now: nat) {
    forall k ::
      if InRange(k, m, was, now) then
        && Attrs(s, k) == None
        && Attrs(s', k) == Some(Attr(HEAP, Zeros))
        && Mem(s', k) == Some(UnreadCell(s.files, Attr(HEAP, Zeros)))
      else if InRange(k, m, now, was) then Attrs(s', k) == None && Mem(s', k) == None
      else Attrs(s', k) == Attrs(s, k) && Mem(s', k) == Mem(s, k)
  }

  lemma HeapGrew(s: State, s': State, m: nat, v: Vma, was: nat, now: nat)
    requires v.start <= was <= now && v.file.None? && v.flags == HEAP && NewlyMapped(s, s', m, v, was, now)
    ensures HeapMoved(s, s', m, was, now)
  {
    hide Attrs, Mem, UnreadCell;
  }

  lemma HeapShrank(s: State, s': State, m: nat, was: nat, now: nat)
    requires now <= was && Cut(s, s', m, now, was)
    ensures HeapMoved(s, s', m, was, now)
  {
    hide Attrs, Mem;
  }

  lemma HeapStayed(s: State, m: nat, was: nat)
    ensures HeapMoved(s, s, m, was, was)
  {
  }

  lemma BreakIsInvisible(s: State, m: nat, nbrk: nat)
    requires Inv(s) && m in s.spaces
    ensures var s' := s.(spaces := s.spaces[m := s.spaces[m].(brk := nbrk)]);
            && Inv(s')
            && forall k :: Attrs(s', k) == Attrs(s, k) && Mem(s', k) == Mem(s, k)
  {
    hide AttrAt, Fill, Mappers, Resident, Ordered, PteFits, FrameFits;
    var s' := s.(spaces := s.spaces[m := s.spaces[m].(brk := nbrk)]);
    assert forall k :: Attrs(s', k) == Attrs(s, k);
  }

  lemma HeapThenBreak(s: State, s1: State, s2: State, m: nat, was: nat, now: nat)
    requires HeapMoved(s, s1, m, was, now) && forall k :: Attrs(s2, k) == Attrs(s1, k) && Mem(s2, k) == Mem(s1, k)
    ensures HeapMoved(s, s2, m, was, now)
  {
    hide Attrs, Mem, UnreadCell;
  }

  lemma HeapIsZero(s: State, s': State, m: nat, was: nat, now: nat)
    requires HeapMoved(s, s', m, was, now)
    ensures forall k :: InRange(k, m, was, now) ==>
              ReadsZeros(Mem(s', k)) && AccessAsked(Mem(s', k).value.flags, Prot(true, true, false), false)
  {
    hide Attrs, Mem;
  }

  lemma FreeBelow(vmas: seq<Vma>, lo: nat, hi: nat)
    requires Free(vmas, lo, hi + 1)
    ensures Free(vmas, lo, hi)
  {
  }

  // The first n pages of the mapping v at src read the same at dst; the pages
  // after them are unread and backed as v would go on; src is unmapped, and
  // outside both ranges nothing changes.
  ghost predicate MovedKey(s: State, s': State, k: Key, m: nat, src: nat, dst: nat, n: nat, n': nat, v: Vma)
    requires v.start <= src
  {
    if InRange(k, m, dst, dst + n') then
      var pg := k.pg - dst + src;
      && Attrs(s, k) == None
      && if InRange(k, m, dst, dst + n)
         then Attrs(s', k) == Attrs(s, Key(m, pg)) && Mem(s', k) == Mem(s, Key(m, pg))
         else Attrs(s', k) == Some(Attr(v.flags, BackingOf(v, pg)))
              && Mem(s', k) == Some(UnreadCell(s.files, Attr(v.flags, BackingOf(v, pg))))
    else if InRange(k, m, src, src + n) then Attrs(s', k) == None && Mem(s', k) == None
    else Attrs(s', k) == Attrs(s, k) && Mem(s', k) == Mem(s, k)
  }

  ghost predicate Moved(s: State, s': State, m: nat, src: nat, dst: nat, n: nat, n': nat, v: Vma)
    requires v.start <= src
  {
    forall k :: MovedKey(s, s', k, m, src, dst, n, n', v)
  }

  lemma MovedBacking(v: Vma, src: nat, dst: nat, n: nat)
    requires v.start <= src && !v.flags.io
    ensures forall pg: nat :: pg >= dst ==> BackingOf(MovedVma(v, src, dst, n), pg) == BackingOf(v, pg - dst + src)
  {
  }

  ghost predicate EntryMoved(s: State, s': State, k: Key, m: nat, src: nat, dst: nat, n: nat) {
    && Attrs(s', k) == Attrs(s, k)
    && (InRange(k, m, dst, dst + n) ==> Mem(s', k) == Mem(s, Key(m, k.pg - dst + src)))
    && (!InRange(k, m, dst, dst + n) && !InRange(k, m, src, src + n) ==> Mem(s', k) == Mem(s, k))
  }

  ghost predicate EntriesMoved(s: State, s': State, m: nat, src: nat, dst: nat, n: nat) {
    forall k :: EntryMoved(s, s', k, m, src, dst, n)
  }

  lemma ReadyToMove(s: State, s': State, m: nat, i: nat, nv: Vma, src: nat, n: nat)
    requires Inv(s) && m in s.spaces && i < |s.spaces[m].vmas| && s'.ptes == s.ptes
    requires nv.end - nv.start > n && s.spaces[m].vmas[i].start <= src < s.spaces[m].vmas[i].end && src + n <= s.spaces[m].vmas[i].end
    requires Free(s.spaces[m].vmas, nv.start, nv.end)
    requires NewlyMapped(s, s', m, nv, nv.start, nv.end)
    requires forall pg: nat :: nv.start <= pg < nv.start + n ==>
               AttrAt(s.spaces[m].vmas, pg - nv.start + src) == Some(Attr(nv.flags, BackingOf(nv, pg)))
    ensures src + n <= nv.start || nv.end <= src
    ensures forall k :: InRange(k, m, nv.start, nv.start + n) ==>
              k !in s'.ptes && Attrs(s', k) == Attrs(s', Key(m, k.pg - nv.start + src))
  {
    hide AttrAt, Mappers, Resident, Mem, BackingOf;
    AbsentWhenUnmapped(s);
    OrderedAt(s.spaces[m].vmas, i);
  }

  lemma NewAt(s: State, s': State, m: nat, v: Vma, lo: nat, hi: nat, k: Key)
    requires v.start <= lo && NewlyMapped(s, s', m, v, lo, hi)
    ensures if InRange(k, m, lo, hi) then
              && Attrs(s, k) == None
              && Attrs(s', k) == Some(Attr(v.flags, BackingOf(v, k.pg)))
              && Mem(s', k) == Some(UnreadCell(s.files, Attr(v.flags, BackingOf(v, k.pg))))
            else Attrs(s', k) == Attrs(s, k) && Mem(s', k) == Mem(s, k)
  {
    hide Attrs, Mem, BackingOf, UnreadCell;
  }

  lemma CutAt(s: State, s': State, m: nat, lo: nat, hi: nat, k: Key)
    requires Cut(s, s', m, lo, hi)
    ensures if InRange(k, m, lo, hi) then Attrs(s', k) == None && Mem(s', k) == None
            else Attrs(s', k) == Attrs(s, k) && Mem(s', k) == Mem(s, k)
  {
    hide Attrs, Mem;
  }

  lemma MoveInSteps(s0: State, s1: State, s2: State, s3: State, m: nat, v: Vma, nv: Vma, src: nat, dst: nat, n: nat,
      n': nat)
    requires nv.start == dst && n <= n' && (src + n <= dst || dst + n' <= src)
    requires v.start <= src && nv.flags == v.flags
    requires forall pg: nat :: pg >= dst ==> BackingOf(nv, pg) == BackingOf(v, pg - dst + src)
    requires NewlyMapped(s0, s1, m, nv, dst, dst + n')
    requires EntriesMoved(s1, s2, m, src, dst, n)
    requires Cut(s2, s3, m, src, src + n)
    requires forall k :: InRange(k, m, dst, dst + n) ==> Attrs(s1, k) == Attrs(s1, Key(m, k.pg - dst + src))
    ensures Moved(s0, s3, m, src, dst, n, n', v)
  {
    hide Attrs, Mem, BackingOf, UnreadCell, NewlyMapped, Cut;
    forall k
      ensures MovedKey(s0, s3, k, m, src, dst, n, n', v)
    {
      assert EntryMoved(s1, s2, k, m, src, dst, n);
      NewAt(s0, s1, m, nv, dst, dst + n', k);
      CutAt(s2, s3, m, src, src + n, k);
      if InRange(k, m, dst, dst + n') {
        assert BackingOf(nv, k.pg) == BackingOf(v, k.pg - dst + src);
      }
      if InRange(k, m, dst, dst + n) {
        var l := Key(m, k.pg - dst + src);
        NewAt(s0, s1, m, nv, dst, dst + n', l);
        assert !InRange(l, m, dst, dst + n');
        assert Attrs(s1, l) == Attrs(s0, l) && Mem(s1, l) == Mem(s0, l);
      }
      assert InRange(k, m, src, src + n) || (Attrs(s3, k) == Attrs(s2, k) && Mem(s3, k) == Mem(s2, k));
    }
  }

  lemma WholePages(n: nat)
    ensures PageCount(n * PAGE_SIZE) == n
  {
  }

  ghost predicate Cut(s: State, s': State, m: nat, lo: nat, hi: nat) {
    forall k ::
      if InRange(k, m, lo, hi) then Attrs(s', k) == None && Mem(s', k) == None
      else Attrs(s', k) == Attrs(s, k) && Mem(s', k) == Mem(s, k)
  }

  // The VMA do_mremap maps at dst for the pages of v from src on.
  function MovedVma(v: Vma, src: nat, dst: nat, n: nat): (nv: Vma)
    requires v.start <= src
    ensures nv.start == dst && nv.end == dst + n && nv.flags == v.flags
  {
    var delta := (src - v.start) * PAGE_SIZE;
    Vma(dst, dst + n, v.flags, v.file, v.fileOff + delta,
        if v.fileBytes > delta then v.fileBytes - delta else 0, v.ioBase)
  }

  lemma MovedVmaIsSame(s: State, m: nat, i: nat, src: nat, n: nat, dst: nat, n': nat)
    requires Inv(s) && m in s.spaces && i < |s.spaces[m].vmas| && !s.spaces[m].vmas[i].flags.io
    requires s.spaces[m].vmas[i].start <= src && src + n <= s.spaces[m].vmas[i].end && n' > 0
    ensures var nv := MovedVma(s.spaces[m].vmas[i], src, dst, n');
            && Ordered([nv])
            && forall pg: nat :: dst <= pg < dst + n ==>
                 AttrAt(s.spaces[m].vmas, pg - dst + src) == Some(Attr(nv.flags, BackingOf(nv, pg)))
  {
    hide AttrAt, Mappers, Resident, PtesOk, Counted;
    var vmas := s.spaces[m].vmas;
    var nv := MovedVma(vmas[i], src, dst, n');
    forall pg: nat | dst <= pg < dst + n
      ensures AttrAt(vmas, pg - dst + src) == Some(Attr(nv.flags, BackingOf(nv, pg)))
    {
      AttrOfMember(vmas, i, pg - dst + src);
    }
  }

  lemma InvOrdered(s: State, m: nat)
    requires Inv(s) && m in s.spaces
    ensures Ordered(s.spaces[m].vmas)
  {
  }

  lemma AbsentWhenUnmapped(s: State)
    requires Inv(s)
    ensures forall k :: Attrs(s, k) == None ==> k !in s.ptes
  {
    hide AttrAt, Mappers, Resident, Ordered;
  }

  // Unmapping a range without present pages leaves the resident set alone.
  lemma SameResident(s: State, s': State, m: nat, lo: nat, hi: nat)
    requires Inv(s) && Inv(s') && m in s.spaces && m in s'.spaces
    requires KeepsOutside(s'.ptes, s.ptes, m, lo, hi)
    requires forall k :: InRange(k, m, lo, hi) ==> k !in s.ptes
    ensures s'.spaces[m].rss == s.spaces[m].rss
  {
    hide AttrAt, Mappers, Ordered;
    assert s'.ptes == s.ptes;
  }

  // Pages [lo, hi) of VMA v appear, unread, and nothing else changes.
  ghost predicate NewlyMapped(s: State, s': State, m: nat, v: Vma, lo: nat, hi: nat)
    requires v.start <= lo
  {
    forall k ::
      if InRange(k, m, lo, hi) then
        && Attrs(s, k) == None
        && Attrs(s', k) == Some(Attr(v.flags, BackingOf(v, k.pg)))
        && Mem(s', k) == Some(UnreadCell(s.files, Attr(v.flags, BackingOf(v, k.pg))))
      else Attrs(s', k) == Attrs(s, k) && Mem(s', k) == Mem(s, k)
  }

  function UnreadCell(files: map<nat, seq<Byte>>, a: Attr): Cell {
    Cell(a.flags, if a.backing.Device? then DeviceMemory(a.backing.pa) else Bytes(Fill(files, a.backing)))
  }

  lemma NewCells(s: State, s': State, m: nat, v: Vma, lo: nat, hi: nat)
    requires Inv(s) && s'.ptes == s.ptes && s'.files == s.files && v.start <= lo
    requires forall k :: if InRange(k, m, lo, hi)
                         then Attrs(s, k) == None && Attrs(s', k) == Some(Attr(v.flags, BackingOf(v, k.pg)))
                         else Attrs(s', k) == Attrs(s, k) && Mem(s', k) == Mem(s, k)
    ensures NewlyMapped(s, s', m, v, lo, hi)
  {
    hide AttrAt, Fill, Mappers, Resident, Ordered, BackingOf;
  }

  lemma AbsentMem(s: State, a: Key, b: Key)
    requires a !in s.ptes && b !in s.ptes && Attrs(s, a) == Attrs(s, b)
    ensures Mem(s, a) == Mem(s, b)
  {
    hide AttrAt, Fill;
  }

  lemma FreeHasNoAttrs(vmas: seq<Vma>, lo: nat, hi: nat)
    requires Free(vmas, lo, hi)
    ensures forall pg: nat :: lo <= pg < hi ==> AttrAt(vmas, pg) == None
  {
    hide AttrAt;
    forall pg: nat | lo <= pg < hi
      ensures AttrAt(vmas, pg) == None
    {
      AttrOfNone(vmas, pg);
    }
  }

  ghost predicate RangeMapped(s: State, m: nat, lo: nat, hi: nat) {
    forall pg: nat :: lo <= pg < hi ==> Attrs(s, Key(m, pg)).Some?
  }

  datatype Prot = Prot(read: bool, write: bool, exec: bool)

  // prot_to_vm on top of the flags do_mprotect keeps.
  function WithAccess(f: Flags, p: Prot): Flags {
    f.(read := p.read || p.write || p.exec, write := p.write, exec := p.exec)
  }

  function WithProt(v: Vma, p: Prot): Vma {
    v.(flags := WithAccess(v.flags, p))
  }

  // A page before and after its access permissions change, or do not.
  ghost predicate Protected(s: State, s': State, k: Key, prot: Prot, inside: bool) {
    if inside && Attrs(s, k).Some? then
      && Attrs(s', k) == Some(Attr(WithAccess(Attrs(s, k).value.flags, prot), Attrs(s, k).value.backing))
      && Mem(s, k).Some?
      && Mem(s', k) == Some(Cell(WithAccess(Attrs(s, k).value.flags, prot), Mem(s, k).value.content))
    else Attrs(s', k) == Attrs(s, k) && Mem(s', k) == Mem(s, k)
  }

  ghost predicate ProtectedAll(s: State, s': State, m: nat, lo: nat, hi: nat, prot: Prot) {
    forall k :: Protected(s, s', k, prot, InRange(k, m, lo, hi))
  }

  lemma AccessIs(s: State, s': State, m: nat, lo: nat, hi: nat, prot: Prot)
    requires RangeMapped(s, m, lo, hi) && ProtectedAll(s, s', m, lo, hi, prot)
    ensures forall k :: InRange(k, m, lo, hi) ==>
              && Mem(s', k).Some? && Mem(s, k).Some? && Mem(s', k).value.content == Mem(s, k).value.content
              && var f := Mem(s', k).value.flags;
                 && (f.write <==> prot.write) && (f.exec <==> prot.exec)
                 && (f.read <==> prot.read || prot.write || prot.exec)
                 && f == Mem(s, k).value.flags.(read := f.read, write := f.write, exec := f.exec)
  {
    forall k | InRange(k, m, lo, hi)
      ensures Mem(s, k).Some? && Mem(s', k) == Some(Cell(WithAccess(Mem(s, k).value.flags, prot), Mem(s, k).value.content))
    {
      assert Attrs(s, Key(m, k.pg)).Some?;
      assert Protected(s, s', k, prot, true);
      hide AttrAt, Fill;
    }
    hide Mem;
  }

  lemma ProtectPageMap(s: State, m: nat, i: nat, prot: Prot)
    requires m in s.spaces && Ordered(s.spaces[m].vmas) && i < |s.spaces[m].vmas|
    ensures var v := s.spaces[m].vmas[i];
            var vmas := s.spaces[m].vmas[i := WithProt(v, prot)];
            && Ordered(vmas) && ProtectsRange(s, m, vmas, v.start, v.end)
            && forall pg: nat :: Contains(v, pg) ==>
                 && AttrAt(s.spaces[m].vmas, pg).Some?
                 && AttrAt(vmas, pg) == Some(Attr(WithAccess(v.flags, prot), AttrAt(s.spaces[m].vmas, pg).value.backing))
                 && AttrAt(s.spaces[m].vmas, pg).value.flags == v.flags
    ensures var v := s.spaces[m].vmas[i];
            var vmas := s.spaces[m].vmas[i := WithProt(v, prot)];
            forall pg: nat :: !Contains(v, pg) ==> AttrAt(vmas, pg) == AttrAt(s.spaces[m].vmas, pg)
  {
    hide AttrAt;
    var v := s.spaces[m].vmas[i];
    var vmas := s.spaces[m].vmas[i := WithProt(v, prot)];
    assert Ordered(vmas);
    forall pg: nat
      ensures if Contains(v, pg) then
                && AttrAt(s.spaces[m].vmas, pg) == Some(Attr(v.flags, BackingOf(v, pg)))
                && AttrAt(vmas, pg) == Some(Attr(WithAccess(v.flags, prot), BackingOf(v, pg)))
              else AttrAt(vmas, pg) == AttrAt(s.spaces[m].vmas, pg)
    {
      ReplacedPage(s.spaces[m].vmas, i, WithProt(v, prot), pg);
    }
  }

  lemma ProtectedPages(s: State, m: nat, i: nat, prot: Prot)
    requires Inv(s) && m in s.spaces && i < |s.spaces[m].vmas|
    ensures var v := s.spaces[m].vmas[i];
            var vmas := s.spaces[m].vmas[i := WithProt(v, prot)];
            ProtectedAll(s, Protect(s, m, vmas, v.start, v.end), m, v.start, v.end, prot)
  {
    hide AttrAt, Fill, Mappers, Resident, Ordered, PteFits, ProtectedPte, ProtectsRange;
    var v := s.spaces[m].vmas[i];
    var vmas := s.spaces[m].vmas[i := WithProt(v, prot)];
    ProtectPageMap(s, m, i, prot);
    ProtectMem(s, m, vmas, v.start, v.end);
    var s' := Protect(s, m, vmas, v.start, v.end);
    forall k
      ensures Protected(s, s', k, prot, InRange(k, m, v.start, v.end))
    {
      if InRange(k, m, v.start, v.end) {
        assert Contains(v, k.pg);
        assert Mem(s', k).value.flags == Attrs(s', k).value.flags;
      }
    }
  }

  lemma ProtectedSame(s: State, m: nat, start: nat, prot: Prot)
    ensures ProtectedAll(s, s, m, start, start, prot)
  {
    hide Attrs, Mem;
  }

  lemma ProtectedThenSame(s0: State, s: State, s': State, m: nat, lo: nat, hi: nat, prot: Prot)
    requires ProtectedAll(s0, s, m, lo, hi, prot)
    requires forall k :: Attrs(s', k) == Attrs(s, k) && Mem(s', k) == Mem(s, k)
    ensures ProtectedAll(s0, s', m, lo, hi, prot)
  {
    hide Attrs, Mem;
  }

  lemma ProtectedCongruence(s0: State, s: State, s': State, m: nat, lo: nat, hi: nat, prot: Prot)
    requires forall k :: Attrs(s, k) == Attrs(s0, k) && Mem(s, k) == Mem(s0, k)
    requires ProtectedAll(s, s', m, lo, hi, prot)
    ensures ProtectedAll(s0, s', m, lo, hi, prot)
  {
    hide Attrs, Mem;
  }

  lemma ProtectedTwice(s0: State, s: State, s': State, m: nat, lo: nat, mid: nat, hi: nat, prot: Prot)
    requires lo <= mid <= hi
    requires ProtectedAll(s0, s, m, lo, mid, prot)
    requires ProtectedAll(s, s', m, mid, hi, prot)
    ensures ProtectedAll(s0, s', m, lo, hi, prot)
  {
    hide Attrs, Mem;
    forall k
      ensures Protected(s0, s', k, prot, InRange(k, m, lo, hi))
    {
      assert Protected(s0, s, k, prot, InRange(k, m, lo, mid));
      assert Protected(s, s', k, prot, InRange(k, m, mid, hi));
    }
  }

  // The pages done so far reach the next VMA: the range has no holes.
  lemma ReachesNext(s0: State, s: State, m: nat, lo: nat, done: nat, hi: nat, i: nat, prot: Prot)
    requires m in s.spaces && Ordered(s.spaces[m].vmas) && i <= |s.spaces[m].vmas|
    requires forall v :: v in s.spaces[m].vmas[..i] ==> v.end <= done
    requires ProtectedAll(s0, s, m, lo, done, prot)
    requires RangeMapped(s0, m, lo, hi) && lo <= done < hi
    ensures i < |s.spaces[m].vmas| && s.spaces[m].vmas[i].start <= done
  {
    hide AttrAt, Mem;
    assert Attrs(s0, Key(m, done)).Some?;
    assert Protected(s0, s, Key(m, done), prot, InRange(Key(m, done), m, lo, done));
    forall j | 0 <= j < i
      ensures s.spaces[m].vmas[j].end <= done
    {
      assert s.spaces[m].vmas[j] in s.spaces[m].vmas[..i];
    }
    var j := MemberOfAttr(s.spaces[m].vmas, done);
  }

  // One VMA and its entries changed: the invariant holds, and exactly its pages
  // have the new access.
  lemma ProtectDone(s: State, s': State, m: nat, i: nat, prot: Prot)
    requires Inv(s) && m in s.spaces && i < |s.spaces[m].vmas|
    requires forall k :: k in s.ptes && !s.ptes[k].io ==> s.ptes[k].frame in s.pages
    requires var v := s.spaces[m].vmas[i]; var vmas := s.spaces[m].vmas[i := WithProt(v, prot)];
             && s'.spaces == s.spaces[m := s.spaces[m].(vmas := vmas)] && s'.pages == s.pages && s'.files == s.files
             && s'.ptes == map k | k in s.ptes ::
                  if InRange(k, m, v.start, v.end) then ProtectedPte(s.pages, s.ptes[k], vmas[i].flags) else s.ptes[k]
    ensures Inv(s') && ProtectedAll(s, s', m, s.spaces[m].vmas[i].start, s.spaces[m].vmas[i].end, prot)
  {
    hide Inv, Ordered, ProtectedPte, ProtectsRange, ProtectedAll, Protect, Attrs, Mem, AttrAt;
    var v := s.spaces[m].vmas[i];
    var vmas := s.spaces[m].vmas[i := WithProt(v, prot)];
    InvOrdered(s, m);
    ProtectPageMap(s, m, i, prot);
    ProtectKeepsInv(s, m, vmas, v.start, v.end);
    ProtectByRange(s, m, vmas, v.start, v.end, vmas[i].flags);
    ProtectedPages(s, m, i, prot);
  }

  lemma ProtectByRange(s: State, m: nat, vmas: seq<Vma>, lo: nat, hi: nat, flags: Flags)
    requires m in s.spaces && forall k :: k in s.ptes && !s.ptes[k].io ==> s.ptes[k].frame in s.pages
    requires forall pg: nat :: lo <= pg < hi ==> AttrAt(vmas, pg).Some? && AttrAt(vmas, pg).value.flags == flags
    ensures Protect(s, m, vmas, lo, hi) ==
            s.(spaces := s.spaces[m := s.spaces[m].(vmas := vmas)],
               ptes := map k | k in s.ptes :: if InRange(k, m, lo, hi) then ProtectedPte(s.pages, s.ptes[k], flags) else s.ptes[k])
  {
    hide AttrAt, ProtectedPte;
  }

  lemma FramesExist(s: State)
    requires Inv(s)
    ensures forall k :: k in s.ptes && !s.ptes[k].io ==> s.ptes[k].frame in s.pages
  {
    hide AttrAt, Mappers, Resident, Ordered, PteFits;
  }

  predicate Permits(flags: Flags, write: bool, exec: bool) {
    && (write ==> flags.write)
    && (exec ==> flags.exec)
    && (flags.read || flags.write || flags.exec || write || exec)
  }

  // What fault_in returns: an absent page of memory needs a frame, and one backed
  // by a file its contents; a write to a read-only entry needs permission, and a
  // frame only if the page has other owners.
  ghost function FaultResult(s: State, k: Key, write: bool, frame: Option<nat>, readErr: Option<int>): int
    requires Attrs(s, k).Some?
  {
    var a := Attrs(s, k).value;
    if k !in s.ptes then
      if a.backing.Device? then 0
      else if frame.None? then -ENOMEM
      else if a.backing.FilePart? && readErr.Some? then -readErr.value else 0
    else if !write || !s.ptes[k].rdonly then 0
    else if !a.flags.write then -EACCES
    else if s.ptes[k].frame in s.pages && s.pages[s.ptes[k].frame].refs == 1 then 0
    else if frame.None? then -ENOMEM else 0
  }

  // Growing a stack to the page leaves only a frame to be found.
  lemma FaultResultIs(s: State, s1: State, m: nat, pg: nat, write: bool, frame: Option<nat>, readErr: Option<int>)
    requires Inv(s) && s1.ptes == s.ptes && s1.pages == s.pages && Attrs(s1, Key(m, pg)).Some?
    requires forall k :: Grew(Attrs(s, k), Attrs(s1, k), k.mm == m && k.pg >= pg)
    ensures FaultResult(s1, Key(m, pg), write, frame, readErr) ==
            if Attrs(s, Key(m, pg)).Some? then FaultResult(s, Key(m, pg), write, frame, readErr)
            else if frame.None? then -ENOMEM else 0
  {
    hide AttrAt, Mappers, Resident, Ordered;
    assert Grew(Attrs(s, Key(m, pg)), Attrs(s1, Key(m, pg)), true);
    AbsentWhenUnmapped(s);
  }

  lemma AttrsIs(s: State, m: nat, pg: nat)
    requires m in s.spaces
    ensures Attrs(s, Key(m, pg)) == AttrAt(s.spaces[m].vmas, pg)
  {
  }

  lemma SameAttrs(s: State, s': State)
    requires SameSpaces(s'.spaces, s.spaces)
    ensures forall k :: Attrs(s', k) == Attrs(s, k)
  {
    hide AttrAt;
  }

  // The first VMA that ends above pg.
  ghost predicate NextAbove(vmas: seq<Vma>, i: nat, pg: nat) {
    i < |vmas| && vmas[i].start < USER_END_PAGE && pg < vmas[i].end && forall j :: 0 <= j < i ==> vmas[j].end <= pg
  }

  lemma OnlyNext(vmas: seq<Vma>, i: nat, pg: nat)
    requires NextAbove(vmas, i, pg)
    ensures forall j: nat :: NextAbove(vmas, j, pg) ==> j == i
  {
  }

  // It is a stack that may grow down to pg.
  ghost predicate GrowsDown(sp: Mm, pg: nat) {
    exists i: nat ::
      && NextAbove(sp.vmas, i, pg) && sp.vmas[i].flags.grows && sp.vmas[i].start - pg <= 2048
      && pg <= sp.stackTop <= pg + 2048
  }

  // Pages that have appeared read as their backing.
  ghost predicate NewPagesUnread(s: State, s': State) {
    forall k :: Attrs(s, k) == None && Attrs(s', k).Some? ==> Mem(s', k) == Some(UnreadCell(s'.files, Attrs(s', k).value))
  }

  // A page of ordinary memory that holds zeros.
  ghost predicate ReadsZeros(c: Option<Cell>) {
    && c.Some? && c.value.content.Bytes? && |c.value.content.data| == PAGE_SIZE
    && forall i :: 0 <= i < PAGE_SIZE ==> c.value.content.data[i] == 0
  }

  lemma ZeroPages(s: State, s': State, m: nat, pg: nat)
    requires NewPagesUnread(s, s') && forall k :: Grew(Attrs(s, k), Attrs(s', k), k.mm == m && k.pg >= pg)
    ensures forall k :: Attrs(s, k) == None && Attrs(s', k).Some? ==> ReadsZeros(Mem(s', k))
  {
    hide Attrs, Mem;
    forall k | Attrs(s, k) == None && Attrs(s', k).Some?
      ensures ReadsZeros(Mem(s', k))
    {
      assert Grew(Attrs(s, k), Attrs(s', k), k.mm == m && k.pg >= pg);
    }
  }

  lemma NoNewPages(s: State)
    ensures NewPagesUnread(s, s)
  {
  }

  lemma StillUnread(s: State, s1: State, s2: State)
    requires NewPagesUnread(s, s1) && s2.files == s1.files
    requires forall k :: Attrs(s2, k) == Attrs(s1, k) && Mem(s2, k) == Mem(s1, k)
    ensures NewPagesUnread(s, s2)
  {
    hide Attrs, Mem, UnreadCell;
  }

  lemma AbsentIsUnread(s: State)
    ensures forall k :: k !in s.ptes && Attrs(s, k).Some? ==> Mem(s, k) == Some(UnreadCell(s.files, Attrs(s, k).value))
  {
    hide AttrAt, Fill;
  }

  // A page keeps its attributes, or is a new zero page of a stack.
  predicate Grew(before: Option<Attr>, after: Option<Attr>, below: bool) {
    after == before || (below && before == None && after.Some? && after.value.flags.grows && after.value.backing == Zeros)
  }

  // The fewest pages that hold len bytes.
  function PageCount(len: nat): (n: nat)
    ensures len <= n * PAGE_SIZE && (n > 0 ==> (n - 1) * PAGE_SIZE < len)
  {
    (len + PAGE_SIZE - 1) / PAGE_SIZE
  }

  // How far a VMA is from being wholly inside or outside [start, end).
  function Left(v: Vma, start: nat, end: nat): nat {
    if v.start < start then 2 else if v.start < end then 1 else 0
  }

  lemma UnmappedRange(s: State, m: nat, start: nat, end: nat, i: nat)
    requires m in s.spaces && Ordered(s.spaces[m].vmas) && i <= |s.spaces[m].vmas|
    requires forall v :: v in s.spaces[m].vmas[..i] ==> v.end <= start
    requires i < |s.spaces[m].vmas| ==> s.spaces[m].vmas[i].start >= end
    ensures forall k :: InRange(k, m, start, end) ==> Mem(s, k) == None && Attrs(s, k) == None
  {
    hide AttrAt;
    forall k | InRange(k, m, start, end)
      ensures Attrs(s, k) == None
    {
      forall j | 0 <= j < |s.spaces[m].vmas|
        ensures !Contains(s.spaces[m].vmas[j], k.pg)
      {
        if j < i {
          assert s.spaces[m].vmas[j] in s.spaces[m].vmas[..i];
        }
      }
      AttrOfNone(s.spaces[m].vmas, k.pg);
    }
  }

  lemma UnmappedMem(s: State)
    ensures forall k :: Attrs(s, k) == None ==> Mem(s, k) == None
  {
    hide AttrAt;
  }

  lemma {:induction false} Unused(s: set<nat>) returns (p: nat)
    ensures p !in s
    ensures forall x :: x in s ==> x < p
  {
    if s == {} {
      p := 0;
    } else {
      var x :| x in s;
      var q := Unused(s - {x});
      p := if x < q then q else x + 1;
      assert s == s - {x} + {x};
    }
  }
}

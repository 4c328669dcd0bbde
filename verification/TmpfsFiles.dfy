// One tmpfs mount: its files, its page quota, and the operations on regular
// files (fs/tmpfs.c).
module TmpfsFiles {
  import opened Common
  import opened Bytes
  import opened CArith
  import opened Tmpfs
  import opened TmpfsRuns

  type Files = map<nat, File>

  ghost function Pairs(f: nat, s: set<nat>): set<(nat, nat)> {
    set p | p in s :: (f, p)
  }

  ghost function Allocated(files: Files): set<(nat, nat)> {
    set f, p | f in files && p in Slots(files[f].pages) :: (f, p)
  }

  lemma {:induction false} PairsCount(f: nat, s: set<nat>)
    ensures |Pairs(f, s)| == |s|
    decreases s
  {
    if s != {} {
      var x :| x in s;
      PairsCount(f, s - {x});
      assert Pairs(f, s) == Pairs(f, s - {x}) + {(f, x)};
    }
  }

  ghost function Elsewhere(files: Files, f: nat): set<(nat, nat)> {
    set x | x in Allocated(files) && x.0 != f
  }

  lemma SplitAllocated(files: Files, f: nat)
    requires f in files
    ensures |Allocated(files)| == |Elsewhere(files, f)| + |Slots(files[f].pages)|
  {
    hide Slots;
    PairsCount(f, Slots(files[f].pages));
    var mine := Pairs(f, Slots(files[f].pages));
    forall x | x in Allocated(files)
      ensures x in Elsewhere(files, f) || x in mine
    {
    }
    forall x | x in mine
      ensures x in Allocated(files) && x !in Elsewhere(files, f)
    {
    }
    assert Allocated(files) == Elsewhere(files, f) + mine;
  }

  // Changing one file changes the total by that file's change.
  lemma AllocatedAfter(files: Files, f: nat, file: File)
    requires f in files
    ensures |Allocated(files[f := file])| == |Allocated(files)| - |Slots(files[f].pages)| + |Slots(file.pages)|
  {
    hide Slots;
    SplitAllocated(files, f);
    SplitAllocated(files[f := file], f);
    assert Elsewhere(files[f := file], f) == Elsewhere(files, f);
  }

  lemma AllocatedWithout(files: Files, f: nat)
    requires f in files
    ensures |Allocated(files - {f})| == |Allocated(files)| - |Slots(files[f].pages)|
  {
    hide Slots;
    SplitAllocated(files, f);
    assert Allocated(files - {f}) == Elsewhere(files, f);
  }

  // The file holds these bytes at pos.
  ghost predicate Holds(pages: Pages, pos: nat, bytes: seq<Byte>)
    requires PagesOk(pages)
  {
    forall i: nat :: pos <= i < pos + |bytes| ==> bytes[i - pos] == ByteAt(pages, i)
  }

  ghost predicate OthersSame(files: Files, files': Files, f: nat) {
    files'.Keys == files.Keys && forall g :: g in files && g != f ==> files'[g] == files[g]
  }

  // A write of buf at `start` that returned r. The file has the first k bytes of
  // the buffer there, and is unchanged elsewhere; k is the result, plus what a
  // copy that faulted had already stored.
  ghost predicate WriteDid(f: File, f': File, start: nat, buf: seq<Byte>, r: int, pos: nat, stray: nat) {
    && Max(r, 0) + stray <= |buf| && (r < 0 ==> r in {-ENOSPC, -EFAULT})
    && pos == start + Max(r, 0)
    && Wrote(f.pages, f'.pages, start, buf[..Max(r, 0) + stray])
    && f'.size == (if r < 0 then f.size else Max(f.size, pos))
    && (stray > 0 ==> Max(r, 0) + stray < |buf| && stray < PAGE_SIZE && (r < 0 ==> r == -EFAULT))
    && (0 < r < |buf| ==> pos % PAGE_SIZE == 0)
  }

  // A write that falls short without a failure has come to a hole with the quota
  // used up, and says so if it has written nothing.
  ghost predicate StoppedByQuota(f: File, start: nat, buf: seq<Byte>, r: int, full: bool) {
    r < |buf| ==> full && !HasPage(f.pages, (start + Max(r, 0)) / PAGE_SIZE) && (r <= 0 ==> r == -ENOSPC)
  }

  predicate HasPage(pages: Pages, idx: nat) {
    idx < |pages| && pages[idx].Some?
  }

  // A read from pos0 that returned r. A fault returns what was copied before its
  // chunk and leaves the position; `buf` is all that was stored.
  ghost predicate ReadDid(f: File, pos0: nat, len: nat, r: int, buf: seq<Byte>, pos: nat, fault: bool)
    requires PagesOk(f.pages)
  {
    var n := if pos0 >= f.size then 0 else Min(len, f.size - pos0);
    && Max(r, 0) <= |buf| <= n && (r < 0 ==> r == -EFAULT && fault)
    && (if fault then pos == pos0 else r == n == |buf| && pos == pos0 + n)
    && (fault ==> r != 0 && |buf| - Max(r, 0) < PAGE_SIZE && (r > 0 ==> (pos0 + r) % PAGE_SIZE == 0))
    && Holds(f.pages, pos0, buf)
  }

  class Mount {
    const maxPages: nat
    var usedPages: nat
    var files: Files
    ghost var failed: nat  // allocations and user copies that failed so far
    ghost var log: map<nat, seq<FileOp>>  // every write and size change of each file

    // The page accounting.
    ghost predicate Sound()
      reads `files, `usedPages
    {
      && (forall f :: f in files ==> ShapeOk(files[f]))
      && usedPages == |Allocated(files)| <= maxPages
    }

    // Every file is what its log says, from an empty file on.
    ghost predicate Logged()
      reads `files, `log
    {
      log.Keys == files.Keys && forall f :: f in files ==> Tracks(files[f], log[f])
    }

    constructor (max: nat)
      ensures Sound() && Logged() && files == map[] && maxPages == max
    {
      maxPages, usedPages, files, failed, log := max, 0, map[], 0, map[];
    }

    // tmpfs_new_inode of a regular file
    method NewFile(f: nat)
      requires Sound() && Logged() && f !in files
      modifies `files, `log
      ensures Sound() && Logged() && files == old(files)[f := File([], 0, 0)] && log == old(log)[f := []]
    {
      hide Tracks;
      TracksEmpty();
      files, log := files[f := File([], 0, 0)], log[f := []];
      assert Allocated(files) == Allocated(old(files));
    }

    // tmpfs_evict of a regular file: exactly its pages come back.
    method Evict(f: nat)
      requires Sound() && Logged() && f in files
      modifies `files, `usedPages, `log
      ensures Sound() && Logged() && files == old(files) - {f} && log == old(log) - {f}
      ensures usedPages == old(usedPages) - |Slots(old(files)[f].pages)|
    {
      hide Tracks, Slots, Allocated, ByteAt, ShapeOk;
      TruncatePages(f, 0);
      assert Slots(files[f].pages) == {};
      AllocatedWithout(files, f);
      AllocatedWithout(old(files), f);
      files, log := files - {f}, log - {f};
      assert files == old(files) - {f};
    }

    // ensure_slots
    method EnsureSlots(f: nat, idx: nat) returns (ok: bool)
      requires Sound() && f in files
      modifies `files, `failed
      ensures Sound() && OthersSame(old(files), files, f)
      ensures if ok then failed == old(failed) && idx < |files[f].pages| else failed > old(failed) && files == old(files)
      ensures SameBytes(old(files)[f].pages, files[f].pages) && Slots(files[f].pages) == Slots(old(files)[f].pages)
      ensures files[f] == old(files)[f].(pages := files[f].pages)
      ensures old(files)[f].pages <= files[f].pages
    {
      var n := |files[f].pages|;
      if idx < n {
        SameBytesRefl(files[f].pages);
        return true;
      }
      var oom: bool := *;
      if oom {
        failed := failed + 1;
        SameBytesRefl(files[f].pages);
        return false;
      }
      var nn := Max(Max(idx + 1, n * 2), 8);
      var more: Pages := seq(nn - n, _ => None);
      MoreSlots(files[f].pages, nn - n);
      var file := files[f].(pages := files[f].pages + more);
      SameFileOk(files[f], file);
      AllocatedAfter(files, f, file);
      hide Allocated, Slots, ByteAt;
      files := files[f := file];
      return true;
    }

    // Filling a hole, if the quota and the allocator allow.
    method AddPage(f: nat, idx: nat) returns (ok: bool)
      requires Sound() && f in files && idx < |files[f].pages| && files[f].pages[idx].None?
      modifies `files, `usedPages, `failed
      ensures Sound()
      ensures !ok ==> files == old(files) && usedPages == old(usedPages)
      ensures ok ==> failed == old(failed) && usedPages == old(usedPages) + 1 && OthersSame(old(files), files, f)
      ensures ok ==> SameBytes(old(files)[f].pages, files[f].pages) && files[f].size == old(files)[f].size
      ensures ok ==> |files[f].pages| == |old(files)[f].pages| && files[f].pages[idx].Some?
      ensures !ok && failed == old(failed) ==> usedPages == maxPages
      ensures failed >= old(failed)
    {
      if usedPages >= maxPages {
        return false;
      }
      var oom: bool := *;
      if oom {
        failed := failed + 1;
        return false;
      }
      var pages := files[f].pages[idx := Some(Zeros(PAGE_SIZE))];
      NewPage(files[f].pages, idx);
      var file := files[f].(pages := pages, blocks := files[f].blocks + 8);
      AllocatedAfter(files, f, file);
      OnePageMore(files[f], file, idx);
      hide Allocated, Slots, ByteAt;
      usedPages := usedPages + 1;
      files := files[f := file];
      return true;
    }

    // The copy into a page that is there.
    method CopyIn(f: nat, idx: nat, at: nat, bytes: seq<Byte>)
      requires Sound() && f in files && idx < |files[f].pages| && files[f].pages[idx].Some?
      requires at + |bytes| <= PAGE_SIZE
      modifies `files
      ensures Sound() && OthersSame(old(files), files, f) && files[f].size == old(files)[f].size
      ensures Wrote(old(files)[f].pages, files[f].pages, idx * PAGE_SIZE + at, bytes)
    {
      hide ByteAt, Slots, Allocated, SameBytes, Wrote;
      PutBytes(files[f].pages, idx, at, bytes);
      var file := files[f].(pages := Put(files[f].pages, idx, at, bytes));
      AllocatedAfter(files, f, file);
      ShapeStays(files[f], file);
      hide Put;
      files := files[f := file];
    }

    // One chunk of tmpfs_write: page present or made, bytes copied in. A copy
    // that faults has stored some first part of the chunk by then.
    method WriteChunk(f: nat, off: nat, bytes: seq<Byte>) returns (r: int, ghost copied: nat)
      requires Sound() && f in files && off % PAGE_SIZE + |bytes| <= PAGE_SIZE && bytes != []
      modifies `files, `usedPages, `failed
      ensures Sound() && OthersSame(old(files), files, f) && files[f].size == old(files)[f].size
      ensures r in {0, -ENOMEM, -ENOSPC, -EFAULT} && copied <= |bytes|
      ensures Wrote(old(files)[f].pages, files[f].pages, off, bytes[..copied])
      ensures r == 0 ==> copied == |bytes| && failed == old(failed)
      ensures r == -EFAULT ==> copied < |bytes| && failed > old(failed)
      ensures r == -ENOMEM ==> copied == 0 && failed > old(failed)
      ensures r == -ENOSPC ==> copied == 0 && (usedPages == maxPages || failed > old(failed))
      ensures r == -ENOSPC && failed == old(failed) ==> !HasPage(files[f].pages, off / PAGE_SIZE)
    {
      hide ByteAt, Slots, Allocated, SameBytes, Wrote, Sound;
      var idx, at := off / PAGE_SIZE, off % PAGE_SIZE;
      copied := 0;
      assert bytes[..0] == [];
      var ok := EnsureSlots(f, idx);
      SameIsWrote(old(files)[f].pages, files[f].pages, off);
      if !ok {
        return -ENOMEM, 0;
      }
      ghost var pages1 := files[f].pages;
      if files[f].pages[idx].None? {
        ok := AddPage(f, idx);
        if !ok {
          return -ENOSPC, 0;
        }
        SameTrans(old(files)[f].pages, pages1, files[f].pages);
      }
      ghost var pages2 := files[f].pages;
      var fault: bool := *;
      if fault {
        var n: nat :| n < |bytes|;
        failed := failed + 1;
        CopyIn(f, idx, at, bytes[..n]);
        SameThenWrote(old(files)[f].pages, pages2, files[f].pages, off, bytes[..n]);
        return -EFAULT, n;
      }
      CopyIn(f, idx, at, bytes);
      SameThenWrote(old(files)[f].pages, pages2, files[f].pages, off, bytes);
      assert bytes[..|bytes|] == bytes;
      return 0, |bytes|;
    }

    // tmpfs_write: its log grows by what was stored and what was counted.
    method Write(f: nat, append: bool, pos0: nat, buf: seq<Byte>) returns (r: int, pos: nat, ghost stray: nat)
      requires Sound() && Logged() && f in files
      modifies `files, `usedPages, `failed, `log
      ensures Sound() && Logged() && OthersSame(old(files), files, f)
      ensures var start := if append then old(files)[f].size else pos0;
              && WriteDid(old(files)[f], files[f], start, buf, r, pos, stray)
              && log == old(log)[f := old(log)[f] + [Store(start, buf[..Max(r, 0) + stray], Max(r, 0), r < 0)]]
      ensures failed == old(failed) ==>
                stray == 0 && StoppedByQuota(files[f], if append then old(files)[f].size else pos0, buf, r, usedPages == maxPages)
    {
      hide Sound, Tracks, Wrote;
      r, pos, stray := WriteAll(f, append, pos0, buf);
      ghost var start := if append then old(files)[f].size else pos0;
      Note(old(files), f, Store(start, buf[..Max(r, 0) + stray], Max(r, 0), r < 0));
    }

    // The loop of tmpfs_write.
    method WriteAll(f: nat, append: bool, pos0: nat, buf: seq<Byte>) returns (r: int, pos: nat, ghost stray: nat)
      requires Sound() && f in files
      modifies `files, `usedPages, `failed
      ensures Sound() && OthersSame(old(files), files, f)
      ensures var start := if append then old(files)[f].size else pos0;
              WriteDid(old(files)[f], files[f], start, buf, r, pos, stray)
      ensures failed == old(failed) ==>
                stray == 0 && StoppedByQuota(files[f], if append then old(files)[f].size else pos0, buf, r, usedPages == maxPages)
    {
      hide ByteAt, Slots, Allocated, SameBytes, Wrote, ShapeOk;
      var start := if append then files[f].size else pos0;
      pos, stray := start, 0;
      var done := 0;
      ShapePages(files[f]);
      WroteNothing(files[f].pages, start);
      assert buf[..0] == [];
      while done < |buf|
        invariant 0 <= done <= |buf| && Sound() && failed == old(failed) && stray == 0
        invariant OthersSame(old(files), files, f) && files[f].size == old(files)[f].size
        invariant Wrote(old(files)[f].pages, files[f].pages, start, buf[..done])
        invariant 0 < done < |buf| ==> (start + done) % PAGE_SIZE == 0
      {
        var off := start + done;
        var chunk := Min(|buf| - done, PAGE_SIZE - off % PAGE_SIZE);
        NextPage(off);
        ghost var before := files[f].pages;
        ghost var copied;
        var e;
        e, copied := WriteChunk(f, off, buf[done..done + chunk]);
        assert buf[done..done + chunk][..copied] == buf[done..done + copied];
        WroteMore(old(files)[f].pages, before, files[f].pages, start, buf, done, copied);
        if e != 0 {
          stray := copied;
          if done == 0 && e != -ENOMEM {
            return e, pos, stray;
          }
          break;
        }
        done := done + chunk;
      }
      pos := start + done;
      if pos > files[f].size {
        SizeKeepsSound(files, f, pos);
        files := files[f := files[f].(size := pos)];
      }
      r := done;
    }

    ghost method Note(before: Files, f: nat, op: FileOp)
      requires op.Store? && OpOk(op) && f in before && OthersSame(before, files, f)
      requires log.Keys == before.Keys && forall g :: g in before ==> Tracks(before[g], log[g])
      requires Wrote(before[f].pages, files[f].pages, op.pos, op.bytes) && files[f].size == NextSize(before[f].size, op)
      modifies `log
      ensures Logged() && log == old(log)[f := old(log)[f] + [op]]
    {
      hide Tracks, Wrote;
      TracksWrite(before[f], files[f], log[f], op);
      log := log[f := log[f] + [op]];
    }

    // tmpfs_read. Each byte is the one the log defines, exactly when no stray byte
    // lingers there.
    method ReadAt(f: nat, pos0: nat, len: nat) returns (r: int, buf: seq<Byte>, pos: nat)
      requires Sound() && Logged() && f in files
      modifies `failed
      ensures files == old(files) && usedPages == old(usedPages) && failed >= old(failed)
      ensures ReadDid(files[f], pos0, len, r, buf, pos, failed != old(failed)) && OpsOk(log[f])
      ensures forall k :: 0 <= k < |buf| ==>
                (buf[k] == OrZero(Contents(log[f]), pos0 + k) <==> !Lingers(log[f], pos0 + k))
    {
      r, buf, pos := CopyOut(f, pos0, len);
      assert Tracks(files[f], log[f]);
      forall k | 0 <= k < |buf|
        ensures buf[k] == OrZero(Contents(log[f]), pos0 + k) <==> !Lingers(log[f], pos0 + k)
      {
        RightExactly(log[f], pos0 + k);
      }
    }

    // The loop of tmpfs_read.
    method CopyOut(f: nat, pos0: nat, len: nat) returns (r: int, buf: seq<Byte>, pos: nat)
      requires Sound() && f in files
      modifies `failed
      ensures files == old(files) && usedPages == old(usedPages) && failed >= old(failed)
      ensures ReadDid(files[f], pos0, len, r, buf, pos, failed != old(failed))
    {
      hide Slots, Allocated, Holds;
      HoldsNothing(files[f].pages, pos0);
      pos, buf := pos0, [];
      if pos0 >= files[f].size {
        return 0, buf, pos;
      }
      var total, done: nat := Min(len, files[f].size - pos0), 0;
      var pages := files[f].pages;
      while done < total
        invariant done <= total && |buf| == done && failed == old(failed) && files == old(files)
        invariant Holds(pages, pos0, buf)
        invariant 0 < done < total ==> (pos0 + done) % PAGE_SIZE == 0
      {
        var off := pos0 + done;
        NextPage(off);
        var idx, at := off / PAGE_SIZE, off % PAGE_SIZE;
        var chunk := Min(total - done, PAGE_SIZE - at);
        var src := if idx < |pages| && pages[idx].Some? then pages[idx].value else Zeros(PAGE_SIZE);
        var fault: bool := *;
        if fault {
          var n: nat :| n < chunk;
          failed := failed + 1;
          PageBytes(pages, off, n);
          HoldsMore(pages, pos0, buf, src[at..at + n]);
          return if done > 0 then done else -EFAULT, buf + src[at..at + n], pos;
        }
        PageBytes(pages, off, chunk);
        HoldsMore(pages, pos0, buf, src[at..at + chunk]);
        buf := buf + src[at..at + chunk];
        done := done + chunk;
      }
      return done, buf, pos0 + done;
    }

    // truncate_pages: free whole pages past the size, clear the tail of the
    // last one, count the blocks again.
    method TruncatePages(f: nat, size: nat)
      requires Sound() && f in files
      modifies `files, `usedPages
      ensures Sound() && OthersSame(old(files), files, f)
      ensures files[f].size == size && usedPages <= old(usedPages)
      ensures forall p :: p in Slots(files[f].pages) ==> p < KeepPages(size)
      ensures forall i: nat :: ByteAt(files[f].pages, i) == if i < size then ByteAt(old(files)[f].pages, i) else 0
    {
      hide Allocated, Slots, ByteAt, Dropped, Cut, KeepPages;
      ghost var pages0 := files[f].pages;
      var pages, used: int := files[f].pages, usedPages;
      var keep := KeepPages(size);
      DropNone(pages0, keep);
      for p := Min(keep, |pages|) to |pages|
        invariant files == old(files) && usedPages == old(usedPages)
        invariant pages == DroppedTo(pages0, keep, p)
        invariant |pages| == |pages0| && usedPages - used == |Slots(pages0)| - |Slots(pages)|
      {
        DropOne(pages0, keep, p);
        if pages[p].Some? {
          pages := pages[p := None];
          used := used - 1;
        }
      }
      DropAll(pages0, keep);
      CutIs(pages0, size);
      CutBytes(pages0, size);
      var at := size % PAGE_SIZE;
      if at > 0 && keep > 0 && keep <= |pages| && pages[keep - 1].Some? {
        pages := Put(pages, keep - 1, at, Zeros(PAGE_SIZE - at));
      }
      assert pages == Cut(pages0, size);
      var blocks := 0;
      NoSlots(pages);
      for p := 0 to Min(keep, |pages|)
        invariant files == old(files) && usedPages == old(usedPages)
        invariant blocks == 8 * |Below(pages, p)|
      {
        OneSlot(pages, p);
        if pages[p].Some? {
          blocks := blocks + 8;
        }
      }
      AllSlots(pages, keep);
      CutZeros(pages0, size);
      var file := File(pages, size, blocks);
      AllocatedAfter(files, f, file);
      files, usedPages := files[f := file], used;
    }

    // tmpfs_setattr with a size. Shrinking clears what lies past the size;
    // growing shows whatever lies there.
    method SetSize(f: nat, size: nat)
      requires Sound() && Logged() && f in files
      modifies `files, `usedPages, `log
      ensures Sound() && Logged() && OthersSame(old(files), files, f)
      ensures log == old(log)[f := old(log)[f] + [Extent(size)]]
      ensures files[f].size == size && usedPages <= old(usedPages)
      ensures forall i: nat ::
                ByteAt(files[f].pages, i) ==
                if i >= size && size < old(files)[f].size then 0 else ByteAt(old(files)[f].pages, i)
    {
      hide Allocated, Slots, ByteAt, Tracks;
      if size < files[f].size {
        TruncatePages(f, size);
      } else {
        SizeKeepsSound(files, f, size);
        files := files[f := files[f].(size := size)];
      }
      TracksSize(old(files)[f], files[f], log[f]);
      log := log[f := log[f] + [Extent(size)]];
    }
  }

  // What a write that faulted leaves, in full. The buffer [7, 7] goes to an empty
  // file; the copy faults after its first byte, and tmpfs_write returns -EFAULT
  // with the size still 0. Extending the file then shows the byte.
  lemma FaultShowsLater()
    ensures var f0 := File([], 0, 0);
            var slots: Pages := seq(8, _ => None)[0 := Some(Zeros(PAGE_SIZE))];
            var f1 := File(Put(slots, 0, 0, [7]), 0, 8);
            var f2 := f1.(size := 1);
            && FileOk(f0) && ShapeOk(f1) && Wrote(f0.pages, f1.pages, 0, [7, 7][..1])
            && !ZeroFrom(f1.pages, f1.size)
            && var ops := [Store(0, [7, 7][..1], 0, true), Extent(1)];
               Tracks(f2, ops) && Flat(f2) == [7] && Contents(ops) == [0]
  {
    var none: Pages := seq(8, _ => None);
    var slots: Pages := none[0 := Some(Zeros(PAGE_SIZE))];
    var nil: Pages := [];
    MoreSlots(nil, 8);
    assert nil + none == none;
    NewPage(none, 0);
    PutBytes(slots, 0, 0, [7]);
    var f1 := File(Put(slots, 0, 0, [7]), 0, 8);
    assert Slots(f1.pages) == {0};
    assert [7, 7][..1] == [7];
    assert ByteAt(f1.pages, 0) == 7;
    var op1, op2 := Store(0, [7], 0, true), Extent(1);
    TracksEmpty();
    TracksWrite(File([], 0, 0), f1, [], op1);
    TracksSize(f1, f1.(size := 1), [op1]);
    assert [] + [op1] == [op1] && [op1] + [op2] == [op1, op2];
    FrontLast([], op1);
    FrontLast([op1], op2);
  }

  function DroppedTo(pages: Pages, keep: nat, n: nat): Pages {
    seq(|pages|, p requires 0 <= p < |pages| => if keep <= p < n then None else pages[p])
  }

  lemma DropNone(pages: Pages, keep: nat)
    ensures DroppedTo(pages, keep, Min(keep, |pages|)) == pages
  {
  }

  lemma DropOne(pages: Pages, keep: nat, p: nat)
    requires keep <= p < |pages|
    ensures var d := DroppedTo(pages, keep, p);
            && d[p] == pages[p]
            && DroppedTo(pages, keep, p + 1) == d[p := None]
            && |Slots(d[p := None])| == |Slots(d)| - (if d[p].Some? then 1 else 0)
  {
    var d := DroppedTo(pages, keep, p);
    assert DroppedTo(pages, keep, p + 1) == d[p := None];
    assert Slots(d[p := None]) == Slots(d) - {p};
  }

  lemma DropAll(pages: Pages, keep: nat)
    ensures DroppedTo(pages, keep, |pages|) == Dropped(pages, keep)
    ensures |pages| < keep ==> Dropped(pages, keep) == pages
  {
  }

  lemma CutIs(pages: Pages, size: nat)
    requires PagesOk(pages)
    ensures var keep := KeepPages(size); var at := size % PAGE_SIZE; var d := Dropped(pages, keep);
            && |d| == |pages|
            && if at > 0 && keep > 0 && keep <= |pages| && d[keep - 1].Some?
               then |d[keep - 1].value| == PAGE_SIZE && Cut(pages, size) == Put(d, keep - 1, at, Zeros(PAGE_SIZE - at))
               else Cut(pages, size) == d
    ensures |Slots(Cut(pages, size))| == |Slots(Dropped(pages, KeepPages(size)))|
  {
    CutBytes(pages, size);
    assert Slots(Dropped(pages, KeepPages(size))) == set p | p in Slots(pages) && p < KeepPages(size);
  }

  lemma CutZeros(pages: Pages, size: nat)
    requires PagesOk(pages)
    ensures PagesOk(Cut(pages, size)) && ZeroFrom(Cut(pages, size), size)
    ensures forall p :: p in Slots(Cut(pages, size)) ==> p < KeepPages(size)
    ensures |Slots(Cut(pages, size))| <= |Slots(pages)|
  {
    CutBytes(pages, size);
    Fewer(Slots(Cut(pages, size)), Slots(pages));
  }

  lemma Fewer(a: set<nat>, b: set<nat>)
    requires a <= b
    ensures |a| <= |b|
  {
    assert b == a + (b - a);
  }

  ghost function Below(pages: Pages, n: nat): set<nat> {
    set p | p in Slots(pages) && p < n
  }

  lemma NoSlots(pages: Pages)
    ensures Below(pages, 0) == {}
  {
  }

  lemma OneSlot(pages: Pages, p: nat)
    requires p < |pages|
    ensures |Below(pages, p + 1)| == |Below(pages, p)| + (if pages[p].Some? then 1 else 0)
  {
    assert Below(pages, p + 1) == if pages[p].Some? then Below(pages, p) + {p} else Below(pages, p);
  }

  lemma AllSlots(pages: Pages, keep: nat)
    ensures (forall p :: p in Slots(pages) ==> p < keep) ==> Below(pages, Min(keep, |pages|)) == Slots(pages)
  {
  }

  lemma SameTrans(a: Pages, b: Pages, c: Pages)
    requires SameBytes(a, b) && SameBytes(b, c)
    ensures SameBytes(a, c)
  {
    hide ByteAt;
  }

  lemma SameThenWrote(a: Pages, b: Pages, c: Pages, pos: nat, bytes: seq<Byte>)
    requires SameBytes(a, b) && Wrote(b, c, pos, bytes)
    ensures Wrote(a, c, pos, bytes)
  {
    hide ByteAt;
  }

  lemma SameIsWrote(a: Pages, b: Pages, pos: nat)
    requires SameBytes(a, b)
    ensures Wrote(a, b, pos, [])
  {
    hide ByteAt;
  }

  lemma WroteNothing(pages: Pages, pos: nat)
    requires PagesOk(pages)
    ensures Wrote(pages, pages, pos, [])
  {
    hide ByteAt;
  }

  lemma ShapeStays(f: File, f': File)
    requires ShapeOk(f) && PagesOk(f'.pages) && Slots(f'.pages) == Slots(f.pages) && f'.blocks == f.blocks
    ensures ShapeOk(f')
  {
  }

  lemma SizeKeepsSound(files: Files, f: nat, size: nat)
    requires f in files
    ensures |Allocated(files[f := files[f].(size := size)])| == |Allocated(files)|
    ensures ShapeOk(files[f]) ==> ShapeOk(files[f].(size := size))
  {
    AllocatedAfter(files, f, files[f].(size := size));
  }

  lemma PageBytes(pages: Pages, off: nat, n: nat)
    requires PagesOk(pages) && off % PAGE_SIZE + n <= PAGE_SIZE
    ensures var idx := off / PAGE_SIZE; var at := off % PAGE_SIZE;
            var src := if idx < |pages| && pages[idx].Some? then pages[idx].value else Zeros(PAGE_SIZE);
            Holds(pages, off, src[at..at + n])
  {
    var idx, at := off / PAGE_SIZE, off % PAGE_SIZE;
    var src := if idx < |pages| && pages[idx].Some? then pages[idx].value else Zeros(PAGE_SIZE);
    forall i: nat | off <= i < off + n
      ensures src[at..at + n][i - off] == ByteAt(pages, i)
    {
      DivMod(i, PAGE_SIZE, idx, at + (i - off));
    }
  }

  // A chunk that is not the last ends with its page.
  lemma NextPage(off: nat)
    ensures (off + (PAGE_SIZE - off % PAGE_SIZE)) % PAGE_SIZE == 0
  {
    var q := off / PAGE_SIZE;
    assert off == PAGE_SIZE * q + off % PAGE_SIZE;
    DivMod(off + (PAGE_SIZE - off % PAGE_SIZE), PAGE_SIZE, q + 1, 0);
  }

  lemma HoldsNothing(pages: Pages, pos: nat)
    requires PagesOk(pages)
    ensures Holds(pages, pos, [])
  {
  }

  lemma HoldsMore(pages: Pages, pos: nat, buf: seq<Byte>, more: seq<Byte>)
    requires PagesOk(pages) && Holds(pages, pos, buf) && Holds(pages, pos + |buf|, more)
    ensures Holds(pages, pos, buf + more)
  {
    hide ByteAt;
  }

  lemma ShapePages(f: File)
    requires ShapeOk(f)
    ensures PagesOk(f.pages)
  {
  }

  lemma SameBytesRefl(pages: Pages)
    requires PagesOk(pages)
    ensures SameBytes(pages, pages)
  {
  }

  lemma SameFileOk(f: File, f': File)
    requires ShapeOk(f) && SameBytes(f.pages, f'.pages) && Slots(f'.pages) == Slots(f.pages)
    requires f'.size == f.size && f'.blocks == f.blocks
    ensures ShapeOk(f')
  {
    hide ByteAt, Slots;
  }

  lemma OnePageMore(f: File, f': File, idx: nat)
    requires ShapeOk(f) && SameBytes(f.pages, f'.pages) && Slots(f'.pages) == Slots(f.pages) + {idx} && idx !in Slots(f.pages)
    requires f'.size == f.size && f'.blocks == f.blocks + 8
    ensures ShapeOk(f') && |Slots(f'.pages)| == |Slots(f.pages)| + 1
  {
    hide ByteAt, Slots;
  }
}

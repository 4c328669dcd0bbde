// The buffer cache itself (drivers/block/blkdev.c): the hash index, the LRU
// list and the counters, and the operations under cache_lock. The device's
// answers are arbitrary: any transfer may fail.
module BlockCache {
  import opened Common
  import opened CArith
  import opened Lists
  import opened BufferCache

  type HashTable = map<nat, seq<nat>>

  function Bucket(hash: HashTable, h: nat): seq<nat> {
    if h in hash then hash[h] else []
  }

  // Every buffer is on the LRU list once and in the bucket of its key.
  ghost predicate IndexOk(bufs: Bufs, lru: seq<nat>, hash: HashTable, hkey: (nat, nat) -> nat) {
    && NoDup(lru)
    && (forall id :: id in lru <==> id in bufs)
    && (forall h :: ChainOk(bufs, Bucket(hash, h), hkey, h))
  }

  ghost predicate ChainOk(bufs: Bufs, chain: seq<nat>, hkey: (nat, nat) -> nat, h: nat) {
    NoDup(chain) && forall id :: id in chain <==> id in bufs && hkey(bufs[id].disk, bufs[id].block) == h
  }

  ghost function Dirty(bufs: Bufs): set<nat> {
    set id | id in bufs && bufs[id].dirty
  }

  ghost predicate Idle(bufs: Bufs) {
    forall id :: id in bufs ==> bufs[id].users == 0
  }

  // A block device: a whole disk or a partition of one, in sectors.
  datatype Device = Device(disk: nat, start: nat, nrSectors: nat, readonly: bool)

  predicate DeviceOk(disks: Disks, p: Device) {
    p.disk in disks && (p.start + p.nrSectors) * SECTOR <= |disks[p.disk]|
  }

  // Bytes of a request that lie on the device.
  function InLimit(p: Device, n: nat, off: nat): (r: nat)
    ensures r <= n && (r > 0 ==> off + r <= p.nrSectors * SECTOR)
  {
    if off >= p.nrSectors * SECTOR then 0 else Min(n, p.nrSectors * SECTOR - off)
  }

  ghost predicate Read(disks: Disks, bufs: Bufs, d: nat, pos: nat, bytes: seq<Byte>)
    requires Content(disks, bufs)
  {
    d in disks && pos + |bytes| <= |disks[d]|
    && forall i: nat :: pos <= i < pos + |bytes| ==> bytes[i - pos] == LogicalAt(disks, bufs, d, i)
  }

  // A buffer that served another block before was the least recently used one.
  predicate Recycled(bufs: Bufs, lru: seq<nat>, id: nat, d: nat, b: nat) {
    id in bufs && !SameKey(bufs[id], d, b) ==> lru != [] && id == lru[|lru| - 1]
  }

  class Cache {
    const maxBufs: nat
    const hkey: (nat, nat) -> nat
    var disks: Disks
    var bufs: Bufs
    var lru: seq<nat>
    var hash: HashTable
    var nbufs: nat
    var ndirty: int
    ghost var failed: nat  // transfers and allocations that failed so far
    ghost var loads: nat   // blocks read from a device so far

    ghost predicate Valid()
      reads this
    {
      && Content(disks, bufs)
      && IndexOk(bufs, lru, hash, hkey)
      && nbufs == |lru| <= maxBufs && 0 < maxBufs
      && ndirty == |Dirty(bufs)|
    }

    constructor (disks: Disks, maxBufs: nat, hkey: (nat, nat) -> nat)
      requires maxBufs > 0
      ensures Valid() && Idle(bufs) && this.disks == disks
      ensures forall d, i: nat :: d in disks && i < |disks[d]| ==> LogicalAt(disks, bufs, d, i) == disks[d][i]
    {
      this.maxBufs, this.hkey, this.disks := maxBufs, hkey, disks;
      bufs, lru, hash, nbufs, ndirty, failed, loads := map[], [], map[], 0, 0, 0, 0;
    }

    // disk_io writing: on failure the sectors of the block may hold anything.
    method WriteBlock(d: nat, b: nat, data: seq<Byte>) returns (r: int)
      requires OnDisk(disks, d, b) && |data| == BLOCK
      modifies `disks, `failed
      ensures failed == old(failed) + (if r == 0 then 0 else 1)
      ensures r == 0 ==> disks == PutBlock(old(disks), d, b, data)
      ensures SameDisksButBlock(old(disks), disks, d, b)
    {
      r := *;
      var sent := data;
      if r != 0 {
        failed := failed + 1;
        sent := *;
        if |sent| != BLOCK {
          sent := data;
        }
      }
      PutBlockOnly(disks, d, b, sent);
      disks := PutBlock(disks, d, b, sent);
    }

    // disk_io reading into a buffer.
    method ReadBlock(d: nat, b: nat, data0: seq<Byte>) returns (r: int, data: seq<Byte>)
      requires OnDisk(disks, d, b) && |data0| == BLOCK
      modifies `failed, `loads
      ensures failed == old(failed) + (if r == 0 then 0 else 1) && loads == old(loads) + 1
      ensures |data| == BLOCK
      ensures r == 0 ==> data[..Len(disks, d, b)] == DiskBlock(disks, d, b)
    {
      r := *;
      loads := loads + 1;
      data := DiskBlock(disks, d, b) + data0[Len(disks, d, b)..];
      if r != 0 {
        failed := failed + 1;
        data := *;
        if |data| != BLOCK {
          data := data0;
        }
      }
    }

    method Writeback(id: nat) returns (r: int)
      requires Valid() && id in bufs
      modifies `disks, `bufs, `ndirty, `failed
      ensures failed == old(failed) + (if r == 0 then 0 else 1)
      ensures Valid() && SameLogical(old(disks), old(bufs), disks, bufs)
      ensures r == 0 ==> bufs == old(bufs)[id := old(bufs)[id].(dirty := false)]
      ensures r != 0 ==> bufs == old(bufs) && bufs[id].dirty
    {
      hide Content, LogicalAt, SameLogical, PutBlock, SameDisksButBlock, Dirty;
      var u := bufs[id];
      if !u.dirty {
        SameLogicalRefl(disks, bufs);
        assert bufs == bufs[id := u.(dirty := false)];
        return 0;
      }
      WriteBackStep(disks, bufs, id);
      r := WriteBlock(u.disk, u.block, u.data);
      if r == 0 {
        LogicalImpliesContent(old(disks), bufs, disks, bufs[id := u.(dirty := false)]);
        Cleaned(bufs, id);
        bufs := bufs[id := u.(dirty := false)];
        ndirty := ndirty - 1;
      } else {
        WriteFailedStep(old(disks), bufs, id, disks);
        LogicalImpliesContent(old(disks), bufs, disks, bufs);
      }
    }

    // The hash chain walk of getblk.
    method Lookup(d: nat, b: nat) returns (r: Option<nat>)
      requires Valid()
      ensures r.Some? ==> r.value in bufs && SameKey(bufs[r.value], d, b)
      ensures r.None? ==> forall k :: k in bufs ==> !SameKey(bufs[k], d, b)
    {
      hide Content, Dirty;
      var chain := Bucket(hash, hkey(d, b));
      for i := 0 to |chain|
        invariant forall j :: 0 <= j < i ==> !SameKey(bufs[chain[j]], d, b)
      {
        if SameKey(bufs[chain[i]], d, b) {
          return Some(chain[i]);
        }
      }
      forall k | k in bufs
        ensures !SameKey(bufs[k], d, b)
      {
        if hkey(bufs[k].disk, bufs[k].block) == hkey(d, b) {
          assert k in chain;
        }
      }
      return None;
    }

    // The least recently used buffer nobody references.
    method Victim() returns (r: Option<nat>)
      requires Valid()
      ensures r.None? ==> forall i :: 0 <= i < |lru| ==> bufs[lru[i]].users > 0
      ensures r.Some? ==> exists i :: 0 <= i < |lru| && r.value == lru[i] && bufs[lru[i]].users == 0
                                      && forall j :: i < j < |lru| ==> bufs[lru[j]].users > 0
    {
      hide Content, Dirty;
      var i := |lru|;
      while i > 0
        invariant 0 <= i <= |lru|
        invariant forall j :: i <= j < |lru| ==> bufs[lru[j]].users > 0
      {
        i := i - 1;
        if bufs[lru[i]].users == 0 {
          return Some(lru[i]);
        }
      }
      return None;
    }

    method Touch(id: nat)
      requires Valid() && id in bufs
      modifies `lru
      ensures Valid() && lru == [id] + Without(old(lru), id)
    {
      hide Content, Dirty;
      MoveToFront(bufs, lru, hash, hkey, id);
      lru := [id] + Without(lru, id);
    }

    method Unlink(id: nat)
      requires Valid() && id in bufs && !bufs[id].dirty
      modifies `bufs, `lru, `hash, `nbufs
      ensures Valid() && bufs == old(bufs) - {id} && nbufs == old(nbufs) - 1 && lru == Without(old(lru), id)
      ensures SameLogical(disks, old(bufs), disks, bufs)
    {
      hide Content, LogicalAt, IndexOk;
      var h := hkey(bufs[id].disk, bufs[id].block);
      RemoveFromIndex(bufs, lru, hash, hkey, id);
      EvictStep(disks, bufs, id);
      LogicalImpliesContent(disks, bufs, disks, bufs - {id});
      assert Dirty(bufs - {id}) == Dirty(bufs);
      hash := hash[h := Without(Bucket(hash, h), id)];
      lru := Without(lru, id);
      bufs := bufs - {id};
      nbufs := nbufs - 1;
    }

    method Link(id: nat, u: Buf)
      requires Valid() && id !in bufs && nbufs < maxBufs
      requires !u.valid && !u.dirty && |u.data| == BLOCK && OnDisk(disks, u.disk, u.block)
      requires forall k :: k in bufs ==> !SameKey(bufs[k], u.disk, u.block)
      modifies `bufs, `lru, `hash, `nbufs
      ensures Valid() && bufs == old(bufs)[id := u] && lru == [id] + old(lru)
      ensures SameLogical(disks, old(bufs), disks, bufs)
    {
      hide Content, LogicalAt, IndexOk;
      var h := hkey(u.disk, u.block);
      AddToIndex(bufs, lru, hash, hkey, id, u);
      CreateStep(disks, bufs, id, u);
      LogicalImpliesContent(disks, bufs, disks, bufs[id := u]);
      assert Dirty(bufs[id := u]) == Dirty(bufs);
      hash := hash[h := [id] + Bucket(hash, h)];
      lru := [id] + lru;
      bufs := bufs[id := u];
      nbufs := nbufs + 1;
    }

    // The first half of getblk: the buffer of the block, found or made.
    method Obtain(d: nat, b: nat) returns (r: Option<nat>)
      requires Valid() && Idle(bufs) && OnDisk(disks, d, b)
      modifies this
      ensures Valid() && Idle(bufs) && SameLogical(old(disks), old(bufs), disks, bufs)
      ensures (r.None? <==> failed != old(failed)) && loads == old(loads)
      ensures r.Some? ==> r.value in bufs && SameKey(bufs[r.value], d, b) && lru == [r.value] + Without(old(lru), r.value)
      ensures r.Some? ==> Recycled(old(bufs), old(lru), r.value, d, b)
      ensures forall id :: id in old(bufs) && SameKey(old(bufs)[id], d, b) ==> r == Some(id) && bufs == old(bufs)
      ensures r.Some? && (forall id :: id in old(bufs) ==> !SameKey(old(bufs)[id], d, b)) ==>
                && !bufs[r.value].valid && (r.value in old(bufs) <==> old(nbufs) >= maxBufs)
                && bufs == old(bufs)[r.value := bufs[r.value]]
    {
      hide Content, LogicalAt, SameLogical, Dirty, IndexOk;
      SameLogicalRefl(disks, bufs);
      var found := Lookup(d, b);
      if found.Some? {
        OnlyBuffer(disks, bufs, found.value);
        Touch(found.value);
        return found;
      }
      var id, data: seq<Byte>;
      if nbufs >= maxBufs {
        var v := Victim();
        LastIsVictim(bufs, lru, hash, hkey);
        assert bufs[lru[0]].users == 0;
        assert v.value == lru[|lru| - 1];
        var e := Writeback(v.value);
        if e != 0 {
          return None;
        }
        id, data := v.value, bufs[v.value].data;
        DataSizeOf(disks, bufs, id);
        ghost var disks1, bufs1 := disks, bufs;
        Unlink(id);
        SameLogicalTrans(old(disks), old(bufs), disks1, bufs1, disks, bufs);
      } else {
        var oom: bool := *;
        if oom {
          failed := failed + 1;
          return None;
        }
        id, data := Above(lru), seq(BLOCK, _ => 0);
        NotListed(bufs, lru, hash, hkey);
        WithoutAbsent(lru, id);
      }
      ghost var disks2, bufs2 := disks, bufs;
      StillOnDisk(old(disks), old(bufs), disks, bufs, d, b);
      Link(id, Buf(d, b, data, false, false, 0, 0));
      SameLogicalTrans(old(disks), old(bufs), disks2, bufs2, disks, bufs);
      r := Some(id);
    }

    // Replacing a buffer's fields without moving it.
    method Update(id: nat, u: Buf)
      requires Valid() && id in bufs && SameKey(u, bufs[id].disk, bufs[id].block) && u.dirty == bufs[id].dirty
      requires SameLogical(disks, bufs, disks, bufs[id := u])
      modifies `bufs
      ensures Valid() && bufs == old(bufs)[id := u]
    {
      hide Content, LogicalAt;
      LogicalImpliesContent(disks, bufs, disks, bufs[id := u]);
      assert Dirty(bufs[id := u]) == Dirty(bufs);
      SameIndex(bufs, lru, hash, hkey, id, u);
      hide IndexOk, Dirty;
      bufs := bufs[id := u];
    }

    // getblk: a referenced buffer, most recently used, valid if asked to read.
    method Getblk(d: nat, b: nat, read: bool) returns (r: Option<nat>)
      requires Valid() && Idle(bufs) && OnDisk(disks, d, b)
      modifies this
      ensures Valid() && SameLogical(old(disks), old(bufs), disks, bufs)
      ensures r.None? <==> failed != old(failed)
      ensures old(loads) <= loads <= old(loads) + (if read then 1 else 0)
      ensures r.None? ==> Idle(bufs)
      ensures r.Some? ==>
                && r.value in bufs && SameKey(bufs[r.value], d, b) && (read ==> bufs[r.value].valid)
                && lru == [r.value] + Without(old(lru), r.value) && Recycled(old(bufs), old(lru), r.value, d, b)
                && bufs[r.value].users == 1 && Idle(bufs - {r.value})
    {
      hide Content, LogicalAt, SameLogical, Dirty, IndexOk;
      r := Obtain(d, b);
      if r.None? {
        return;
      }
      var id := r.value;
      if read && !bufs[id].valid {
        DataSizeOf(disks, bufs, id);
        StillOnDisk(old(disks), old(bufs), disks, bufs, d, b);
        var e, data := ReadBlock(d, b, bufs[id].data);
        FillStep(disks, bufs, id, data, e == 0);
        ghost var bufs1 := bufs;
        Update(id, bufs[id].(data := data, valid := e == 0));
        SameLogicalTrans(old(disks), old(bufs), disks, bufs1, disks, bufs);
        if e != 0 {
          return None;
        }
      }
      UsersStep(disks, bufs, id, bufs[id].users + 1);
      ghost var bufs2 := bufs;
      Update(id, bufs[id].(users := bufs[id].users + 1));
      SameLogicalTrans(old(disks), old(bufs), disks, bufs2, disks, bufs);
    }

    // The write half of one chunk: copy in, mark dirty, drop the reference.
    method PutBytes(id: nat, at: nat, bytes: seq<Byte>)
      requires Valid() && id in bufs && at + |bytes| <= BLOCK && bufs[id].users == 1 && Idle(bufs - {id})
      requires bufs[id].valid || |bytes| == BLOCK
      modifies `bufs, `ndirty
      ensures Valid() && Idle(bufs)
      ensures Wrote(disks, old(bufs), disks, bufs, old(bufs)[id].disk, old(bufs)[id].block * BLOCK + at, bytes)
      ensures bufs == old(bufs)[id := bufs[id]] && bufs[id].dirty
      ensures old(bufs)[id].dirty ==> bufs[id].dirtiedAt == old(bufs)[id].dirtiedAt
    {
      hide Content, LogicalAt, Dirty, IndexOk, SameLogical, Wrote, Overwritten;
      var now: nat := *;
      DataSizeOf(disks, bufs, id);
      OverwriteStep(disks, bufs, id, at, bytes, now);
      var u := Overwritten(bufs[id], at, bytes, now);
      OverwrittenKeeps(bufs[id], at, bytes, now);
      WroteImpliesContent(disks, bufs, disks, bufs[id := u], bufs[id].disk, bufs[id].block * BLOCK + at, bytes);
      SameIndex(bufs, lru, hash, hkey, id, u);
      Dirtied(bufs, id, u);
      if !bufs[id].dirty {
        ndirty := ndirty + 1;
      }
      assert bufs[id := u] - {id} == bufs - {id};
      bufs := bufs[id := u];
      ghost var bufs1 := bufs;
      Release(id);
      WroteThenSame(disks, old(bufs), disks, bufs1, disks, bufs, old(bufs)[id].disk, old(bufs)[id].block * BLOCK + at, bytes);
    }

    method Release(id: nat)
      requires Valid() && id in bufs && bufs[id].users == 1 && Idle(bufs - {id})
      modifies `bufs
      ensures Valid() && Idle(bufs) && SameLogical(disks, old(bufs), disks, bufs)
      ensures bufs == old(bufs)[id := old(bufs)[id].(users := 0)]
    {
      hide Content, LogicalAt, Dirty, IndexOk, SameLogical;
      UsersStep(disks, bufs, id, 0);
      OnlyUser(bufs, id);
      Update(id, bufs[id].(users := 0));
    }

    // The read half of one chunk.
    method GetBytes(id: nat, at: nat, n: nat) returns (bytes: seq<Byte>)
      requires Valid() && id in bufs && bufs[id].valid && bufs[id].users == 1 && Idle(bufs - {id})
      requires at + n <= BLOCK && bufs[id].disk in disks && bufs[id].block * BLOCK + at + n <= |disks[bufs[id].disk]|
      modifies `bufs
      ensures Valid() && Idle(bufs) && SameLogical(disks, old(bufs), disks, bufs)
      ensures |bytes| == n
      ensures Read(disks, old(bufs), old(bufs)[id].disk, old(bufs)[id].block * BLOCK + at, bytes)
    {
      hide Content, LogicalAt, Dirty, IndexOk, SameLogical;
      DataSizeOf(disks, bufs, id);
      bytes := bufs[id].data[at..at + n];
      var pos := bufs[id].block * BLOCK + at;
      forall i: nat | pos <= i < pos + n
        ensures bytes[i - pos] == LogicalAt(disks, bufs, bufs[id].disk, i)
      {
        BlockReads(disks, bufs, id, i);
        assert i % BLOCK == i - bufs[id].block * BLOCK;
      }
      Release(id);
    }

    // cached_rw, writing: a result k means exactly the first k bytes went in,
    // and k falls short of the request only if something failed.
    method Write(p: Device, buf: seq<Byte>, off: nat) returns (r: int)
      requires Valid() && Idle(bufs) && DeviceOk(disks, p)
      modifies this
      ensures Valid() && Idle(bufs)
      ensures r <= |buf| && (r > 0 ==> off + r <= p.nrSectors * SECTOR)
      ensures Wrote(old(disks), old(bufs), disks, bufs, p.disk, p.start * SECTOR + off, buf[..Max(r, 0)])
      ensures r == -EROFS <==> p.readonly && off < p.nrSectors * SECTOR
      ensures var limit := p.nrSectors * 512;
              r != -EROFS && failed == old(failed) ==>
                && (off + |buf| <= limit ==> r == |buf|)
                && (off < limit < off + |buf| ==> r == limit - off)
                && (limit <= off ==> r == 0)
      ensures r < 0 ==> r == -EROFS || (r == -EIO && failed != old(failed))
      ensures loads <= old(loads) + 2
      ensures var base := p.start * SECTOR + off;
              failed == old(failed) && r > 0 ==> loads <= old(loads) + Partial(base) + Partial(base + r)
    {
      hide Content, LogicalAt, Dirty, IndexOk, SameLogical, Wrote, Idle, Partial, Recycled;
      WroteNothing(disks, bufs, p.disk, p.start * SECTOR + off);
      assert buf[..0] == [];
      if off >= p.nrSectors * SECTOR {
        return 0;
      }
      if p.readonly {
        return -EROFS;
      }
      var n := InLimit(p, |buf|, off);
      var base, done: nat := p.start * SECTOR + off, 0;
      while done < n
        invariant 0 <= done <= n
        invariant Valid() && Idle(bufs) && DeviceOk(disks, p) && failed == old(failed)
        invariant Wrote(old(disks), old(bufs), disks, bufs, p.disk, base, buf[..done])
        invariant 0 < done < n ==> Partial(base + done) == 0
        invariant loads <= old(loads) + (if done == 0 then 0 else Partial(base) + Partial(base + done))
      {
        var pos := base + done;
        BlockEnd(pos, n - done);
        var b, at := pos / BLOCK, pos % BLOCK;
        var chunk := Min(n - done, BLOCK - at);
        ghost var disks1, bufs1 := disks, bufs;
        var id := Getblk(p.disk, b, chunk != BLOCK);
        WroteThenSame(old(disks), old(bufs), disks1, bufs1, disks, bufs, p.disk, base, buf[..done]);
        if id.None? {
          return if done > 0 then done else -EIO;
        }
        ghost var bufs2 := bufs;
        PutBytes(id.value, at, buf[done..done + chunk]);
        StillDevice(disks1, bufs1, disks, bufs2, p);
        WroteMore(old(disks), old(bufs), disks, bufs2, disks, bufs, p.disk, base, buf, done, chunk);
        done := done + chunk;
      }
      return done;
    }

    // cached_rw, reading.
    method ReadAt(p: Device, n0: nat, off: nat) returns (r: int, buf: seq<Byte>)
      requires Valid() && Idle(bufs) && DeviceOk(disks, p)
      modifies this
      ensures Valid() && Idle(bufs) && SameLogical(old(disks), old(bufs), disks, bufs)
      ensures r <= n0 && (r > 0 ==> off + r <= p.nrSectors * SECTOR) && |buf| == Max(r, 0)
      ensures |buf| > 0 ==> Read(old(disks), old(bufs), p.disk, p.start * SECTOR + off, buf)
      ensures var limit := p.nrSectors * 512;
              failed == old(failed) ==>
                && (off + n0 <= limit ==> r == n0)
                && (off < limit < off + n0 ==> r == limit - off)
                && (limit <= off ==> r == 0)
      ensures r < 0 ==> r == -EIO && failed != old(failed)
    {
      hide Content, LogicalAt, Dirty, IndexOk, SameLogical, Idle, Read;
      SameLogicalRefl(disks, bufs);
      buf := [];
      if off >= p.nrSectors * SECTOR {
        return 0, buf;
      }
      var n := InLimit(p, n0, off);
      var base, done: nat := p.start * SECTOR + off, 0;
      ReadNothing(disks, bufs, p.disk, base);
      while done < n
        invariant 0 <= done <= n && |buf| == done
        invariant Valid() && Idle(bufs) && DeviceOk(disks, p) && failed == old(failed)
        invariant SameLogical(old(disks), old(bufs), disks, bufs)
        invariant Read(old(disks), old(bufs), p.disk, base, buf)
      {
        var pos := base + done;
        var b, at := pos / BLOCK, pos % BLOCK;
        var chunk := Min(n - done, BLOCK - at);
        ghost var disks1, bufs1 := disks, bufs;
        var id := Getblk(p.disk, b, true);
        SameLogicalTrans(old(disks), old(bufs), disks1, bufs1, disks, bufs);
        if id.None? {
          return if done > 0 then done else -EIO, buf;
        }
        ghost var bufs2 := bufs;
        StillDevice(disks1, bufs1, disks, bufs2, p);
        var bytes := GetBytes(id.value, at, chunk);
        ReadMore(old(disks), old(bufs), disks, bufs2, p.disk, base, buf, bytes);
        SameLogicalTrans(old(disks), old(bufs), disks, bufs2, disks, bufs);
        buf := buf + bytes;
        done := done + chunk;
      }
      return done, buf;
    }

    // sync_disk: write back what matches, going on past errors.
    method SyncDisk(d: Option<nat>, olderThan: nat) returns (err: int)
      requires Valid() && Idle(bufs)
      modifies `disks, `bufs, `ndirty, `failed
      ensures Valid() && Idle(bufs) && SameLogical(old(disks), old(bufs), disks, bufs)
      ensures err == 0 <==> failed == old(failed)
      ensures err == 0 ==> forall id :: id in bufs && ToSync(bufs[id], d, olderThan) ==> !bufs[id].dirty
      ensures bufs.Keys == old(bufs).Keys
      ensures forall id :: id in bufs ==> Synced(old(bufs)[id], bufs[id], d, olderThan)
    {
      hide Content, LogicalAt, Dirty, IndexOk, SameLogical, ToSync;
      SameLogicalRefl(disks, bufs);
      LastIsVictim(bufs, lru, hash, hkey);
      err := 0;
      for i := 0 to |lru|
        invariant Valid() && Idle(bufs) && SameLogical(old(disks), old(bufs), disks, bufs)
        invariant forall j :: 0 <= j < |lru| ==> lru[j] in bufs
        invariant err == 0 <==> failed == old(failed)
        invariant failed >= old(failed)
        invariant bufs.Keys == old(bufs).Keys
        invariant forall id :: id in bufs ==> Synced(old(bufs)[id], bufs[id], d, olderThan)
        invariant err == 0 ==> forall j :: 0 <= j < i && ToSync(bufs[lru[j]], d, olderThan) ==> !bufs[lru[j]].dirty
      {
        var u := bufs[lru[i]];
        ToSyncIs(u, d, olderThan);
        if u.dirty && (d.None? || u.disk == d.value) && (olderThan == 0 || u.dirtiedAt <= olderThan) {
          ghost var disks1, bufs1 := disks, bufs;
          var r := Writeback(lru[i]);
          SameLogicalTrans(old(disks), old(bufs), disks1, bufs1, disks, bufs);
          ToSyncCleaned(u, d, olderThan);
          if r != 0 {
            err := r;
          }
        }
      }
      AllListed(bufs, lru, hash, hkey);
    }

    // bdev_sync of a device: on success its disk holds the flat contents.
    method BdevSync(p: Device) returns (r: int)
      requires Valid() && Idle(bufs) && DeviceOk(disks, p)
      modifies `disks, `bufs, `ndirty, `failed
      ensures Valid() && Idle(bufs) && SameLogical(old(disks), old(bufs), disks, bufs)
      ensures r == 0 ==> forall i: nat :: i < |disks[p.disk]| ==>
                           disks[p.disk][i] == LogicalAt(disks, bufs, p.disk, i)
    {
      hide Content, LogicalAt, Dirty, IndexOk, SameLogical, Idle;
      r := SyncDisk(Some(p.disk), 0);
      StillDevice(old(disks), old(bufs), disks, bufs, p);
      if r == 0 {
        CleanDiskReads(disks, bufs, p.disk);
        r := *;  // the device's own flush
      }
    }
  }

  predicate ToSync(u: Buf, d: Option<nat>, olderThan: nat) {
    (d.None? || u.disk == d.value) && (olderThan == 0 || u.dirtiedAt <= olderThan)
  }

  // A buffer that does not match is left alone; one that does may be clean now.
  predicate Synced(was: Buf, now: Buf, d: Option<nat>, olderThan: nat) {
    now == was || (ToSync(was, d, olderThan) && now == was.(dirty := false))
  }

  lemma ToSyncIs(u: Buf, d: Option<nat>, olderThan: nat)
    ensures ToSync(u, d, olderThan) <==> (d.None? || u.disk == d.value) && (olderThan == 0 || u.dirtiedAt <= olderThan)
  {
  }

  lemma ToSyncCleaned(u: Buf, d: Option<nat>, olderThan: nat)
    ensures ToSync(u.(dirty := false), d, olderThan) == ToSync(u, d, olderThan)
  {
  }

  lemma AllListed(bufs: Bufs, lru: seq<nat>, hash: HashTable, hkey: (nat, nat) -> nat)
    requires IndexOk(bufs, lru, hash, hkey)
    ensures forall id :: id in bufs ==> exists i :: 0 <= i < |lru| && lru[i] == id
  {
    forall id | id in bufs
      ensures exists i :: 0 <= i < |lru| && lru[i] == id
    {
      assert id in lru;
    }
  }

  lemma CleanDiskReads(disks: Disks, bufs: Bufs, d: nat)
    requires Content(disks, bufs) && d in disks
    requires forall id :: id in bufs && ToSync(bufs[id], Some(d), 0) ==> !bufs[id].dirty
    ensures forall i: nat :: i < |disks[d]| ==> disks[d][i] == LogicalAt(disks, bufs, d, i)
  {
    forall i: nat | i < |disks[d]|
      ensures disks[d][i] == LogicalAt(disks, bufs, d, i)
    {
      if id :| id in bufs && SameKey(bufs[id], d, i / BLOCK) {
        assert ToSync(bufs[id], Some(d), 0);
        BlockReads(disks, bufs, id, i);
      } else {
        BareBlockReads(disks, bufs, d, i);
      }
    }
  }

  // ---- histories ----

  datatype Snapshot = Snapshot(disks: Disks, bufs: Bufs)

  datatype Event =
    | DidWrite(disk: nat, pos: nat, bytes: seq<Byte>)
    | DidRead(disk: nat, pos: nat, bytes: seq<Byte>)
    | Housekeeping

  // What the operations promise, as a relation between snapshots.
  ghost predicate Follows(s: Snapshot, e: Event, s': Snapshot) {
    match e
    case DidWrite(d, pos, bytes) => Wrote(s.disks, s.bufs, s'.disks, s'.bufs, d, pos, bytes)
    case DidRead(d, pos, bytes) =>
      SameLogical(s.disks, s.bufs, s'.disks, s'.bufs) && Read(s.disks, s.bufs, d, pos, bytes)
    case Housekeeping => SameLogical(s.disks, s.bufs, s'.disks, s'.bufs)
  }

  ghost predicate History(ss: seq<Snapshot>, es: seq<Event>) {
    |ss| == |es| + 1 && forall k :: 0 <= k < |es| ==> Follows(ss[k], es[k], ss[k + 1])
  }

  // The byte last written at (d, i), or what was there at first.
  function LastWritten(es: seq<Event>, d: nat, i: nat, first: Byte): Byte {
    if es == [] then first else
      var e := es[|es| - 1];
      if e.DidWrite? && e.disk == d && e.pos <= i < e.pos + |e.bytes| then e.bytes[i - e.pos]
      else LastWritten(es[..|es| - 1], d, i, first)
  }

  // The disk seen through the cache after any history of operations.
  lemma {:induction false} ContentsAfter(ss: seq<Snapshot>, es: seq<Event>, d: nat, i: nat)
    requires History(ss, es) && Content(ss[0].disks, ss[0].bufs) && d in ss[0].disks && i < |ss[0].disks[d]|
    ensures var s := ss[|es|];
            && Content(s.disks, s.bufs) && d in s.disks && i < |s.disks[d]|
            && LogicalAt(s.disks, s.bufs, d, i) ==
               LastWritten(es, d, i, LogicalAt(ss[0].disks, ss[0].bufs, d, i))
  {
    hide Content, LogicalAt;
    if es != [] {
      var n := |es| - 1;
      ContentsAfter(ss[..n + 1], es[..n], d, i);
      assert Follows(ss[n], es[n], ss[n + 1]);
    }
  }

  // Every read returns the bytes last written, whatever was evicted, written
  // back or failed in between.
  lemma ReadsLastWritten(ss: seq<Snapshot>, es: seq<Event>, k: nat, i: nat)
    requires History(ss, es) && Content(ss[0].disks, ss[0].bufs)
    requires k < |es| && es[k].DidRead? && es[k].pos <= i < es[k].pos + |es[k].bytes|
    requires es[k].disk in ss[0].disks && i < |ss[0].disks[es[k].disk]|
    ensures es[k].bytes[i - es[k].pos] ==
            LastWritten(es[..k], es[k].disk, i, LogicalAt(ss[0].disks, ss[0].bufs, es[k].disk, i))
  {
    hide Content, LogicalAt;
    assert Follows(ss[k], es[k], ss[k + 1]);
    ContentsAfter(ss[..k + 1], es[..k], es[k].disk, i);
  }

  // Whether an address is inside a block.
  function Partial(pos: nat): (n: nat)
    ensures n <= 1
  {
    if pos % BLOCK == 0 then 0 else 1
  }

  // A chunk that is not the last ends with its block, and a whole block starts
  // and ends with one.
  lemma BlockEnd(pos: nat, left: nat)
    requires left > 0
    ensures var chunk := Min(left, BLOCK - pos % BLOCK);
            && (chunk < left ==> Partial(pos + chunk) == 0)
            && (chunk != BLOCK ==> Partial(pos) + Partial(pos + chunk) > 0)
            && (chunk == BLOCK ==> Partial(pos) == 0)
  {
    var at, q := pos % BLOCK, pos / BLOCK;
    assert pos == BLOCK * q + at;
    var chunk := Min(left, BLOCK - at);
    if at + chunk == BLOCK {
      DivMod(pos + chunk, BLOCK, q + 1, 0);
    } else {
      DivMod(pos + chunk, BLOCK, q, at + chunk);
    }
  }

  lemma WroteNothing(disks: Disks, bufs: Bufs, d: nat, pos: nat)
    requires Content(disks, bufs)
    ensures Wrote(disks, bufs, disks, bufs, d, pos, [])
  {
  }

  lemma ReadNothing(disks: Disks, bufs: Bufs, d: nat, pos: nat)
    requires Content(disks, bufs) && d in disks && pos <= |disks[d]|
    ensures Read(disks, bufs, d, pos, [])
  {
  }

  lemma StillDevice(disks: Disks, bufs: Bufs, disks': Disks, bufs': Bufs, p: Device)
    requires SameLogical(disks, bufs, disks', bufs') && DeviceOk(disks, p)
    ensures DeviceOk(disks', p)
  {
  }

  lemma WroteMore(disks: Disks, bufs: Bufs, disks': Disks, bufs': Bufs, disks'': Disks, bufs'': Bufs, d: nat,
      pos: nat, buf: seq<Byte>, done: nat, chunk: nat)
    requires done + chunk <= |buf|
    requires Wrote(disks, bufs, disks', bufs', d, pos, buf[..done])
    requires Wrote(disks', bufs', disks'', bufs'', d, pos + done, buf[done..done + chunk])
    ensures Wrote(disks, bufs, disks'', bufs'', d, pos, buf[..done + chunk])
  {
    hide Content, LogicalAt;
  }

  lemma ReadMore(disks: Disks, bufs: Bufs, disks': Disks, bufs': Bufs, d: nat, pos: nat, buf: seq<Byte>,
      bytes: seq<Byte>)
    requires SameLogical(disks, bufs, disks', bufs') && Read(disks, bufs, d, pos, buf)
    requires Read(disks', bufs', d, pos + |buf|, bytes)
    ensures Read(disks, bufs, d, pos, buf + bytes)
  {
    hide Content, LogicalAt;
  }

  lemma OnlyUser(bufs: Bufs, id: nat)
    requires Idle(bufs - {id}) && id in bufs
    ensures Idle(bufs[id := bufs[id].(users := 0)])
  {
    forall k | k in bufs && k != id
      ensures bufs[k].users == 0
    {
      assert k in bufs - {id};
    }
  }

  lemma OnlyBuffer(disks: Disks, bufs: Bufs, id: nat)
    requires Content(disks, bufs) && id in bufs
    ensures forall k :: k in bufs && SameKey(bufs[k], bufs[id].disk, bufs[id].block) ==> k == id
  {
    hide BufOk;
  }

  lemma OverwrittenKeeps(u: Buf, at: nat, bytes: seq<Byte>, now: nat)
    requires at + |bytes| <= |u.data|
    ensures var v := Overwritten(u, at, bytes, now);
            && SameKey(v, u.disk, u.block) && v.dirty && v.users == u.users
            && (u.dirty ==> v.dirtiedAt == u.dirtiedAt)
  {
  }

  lemma Dirtied(bufs: Bufs, id: nat, u: Buf)
    requires id in bufs && u.dirty
    ensures |Dirty(bufs[id := u])| == |Dirty(bufs)| + (if bufs[id].dirty then 0 else 1)
  {
    assert Dirty(bufs[id := u]) == Dirty(bufs) + {id};
  }

  lemma SameIndex(bufs: Bufs, lru: seq<nat>, hash: HashTable, hkey: (nat, nat) -> nat, id: nat, u: Buf)
    requires IndexOk(bufs, lru, hash, hkey) && id in bufs && SameKey(u, bufs[id].disk, bufs[id].block)
    ensures IndexOk(bufs[id := u], lru, hash, hkey)
  {
    forall g
      ensures ChainOk(bufs[id := u], Bucket(hash, g), hkey, g)
    {
      assert ChainOk(bufs, Bucket(hash, g), hkey, g);
    }
  }

  lemma WroteImpliesContent(disks: Disks, bufs: Bufs, disks': Disks, bufs': Bufs, d: nat, pos: nat, bytes: seq<Byte>)
    requires Wrote(disks, bufs, disks', bufs', d, pos, bytes)
    ensures Content(disks', bufs')
  {
  }

  lemma WroteThenSame(disks: Disks, bufs: Bufs, disks': Disks, bufs': Bufs, disks'': Disks, bufs'': Bufs, d: nat,
      pos: nat, bytes: seq<Byte>)
    requires Wrote(disks, bufs, disks', bufs', d, pos, bytes) && SameLogical(disks', bufs', disks'', bufs'')
    ensures Wrote(disks, bufs, disks'', bufs'', d, pos, bytes)
  {
    hide Content, LogicalAt;
  }

  function Above(s: seq<nat>): (n: nat)
    ensures forall x :: x in s ==> x < n
  {
    if s == [] then 0 else
      var n := Above(s[1..]);
      assert forall x :: x in s ==> x == s[0] || x in s[1..];
      if s[0] < n then n else s[0] + 1
  }

  lemma NotListed(bufs: Bufs, lru: seq<nat>, hash: HashTable, hkey: (nat, nat) -> nat)
    requires IndexOk(bufs, lru, hash, hkey)
    ensures Above(lru) !in bufs
  {
    assert Above(lru) !in lru;
  }

  lemma LastIsVictim(bufs: Bufs, lru: seq<nat>, hash: HashTable, hkey: (nat, nat) -> nat)
    requires IndexOk(bufs, lru, hash, hkey) && Idle(bufs)
    ensures forall i :: 0 <= i < |lru| ==> lru[i] in bufs && bufs[lru[i]].users == 0
  {
    assert forall i :: 0 <= i < |lru| ==> lru[i] in lru;
  }

  lemma DataSizeOf(disks: Disks, bufs: Bufs, id: nat)
    requires Content(disks, bufs) && id in bufs
    ensures |bufs[id].data| == BLOCK
  {
    DataSize(disks, bufs[id]);
  }

  lemma StillOnDisk(disks: Disks, bufs: Bufs, disks': Disks, bufs': Bufs, d: nat, b: nat)
    requires SameLogical(disks, bufs, disks', bufs') && OnDisk(disks, d, b)
    ensures OnDisk(disks', d, b)
  {
  }

  lemma MoveToFront(bufs: Bufs, lru: seq<nat>, hash: HashTable, hkey: (nat, nat) -> nat, id: nat)
    requires IndexOk(bufs, lru, hash, hkey) && id in bufs
    ensures IndexOk(bufs, [id] + Without(lru, id), hash, hkey)
    ensures |[id] + Without(lru, id)| == |lru|
  {
    WithoutRemoves(lru, id);
    PushFront(Without(lru, id), id);
  }

  lemma RemoveFromIndex(bufs: Bufs, lru: seq<nat>, hash: HashTable, hkey: (nat, nat) -> nat, id: nat)
    requires IndexOk(bufs, lru, hash, hkey) && id in bufs
    ensures var h := hkey(bufs[id].disk, bufs[id].block);
            IndexOk(bufs - {id}, Without(lru, id), hash[h := Without(Bucket(hash, h), id)], hkey)
    ensures |Without(lru, id)| == |lru| - 1
  {
    var h := hkey(bufs[id].disk, bufs[id].block);
    WithoutRemoves(lru, id);
    WithoutRemoves(Bucket(hash, h), id);
    var bufs', hash' := bufs - {id}, hash[h := Without(Bucket(hash, h), id)];
    forall g
      ensures ChainOk(bufs', Bucket(hash', g), hkey, g)
    {
      assert ChainOk(bufs, Bucket(hash, g), hkey, g);
    }
  }

  lemma AddToIndex(bufs: Bufs, lru: seq<nat>, hash: HashTable, hkey: (nat, nat) -> nat, id: nat, u: Buf)
    requires IndexOk(bufs, lru, hash, hkey) && id !in bufs
    ensures var h := hkey(u.disk, u.block);
            IndexOk(bufs[id := u], [id] + lru, hash[h := [id] + Bucket(hash, h)], hkey)
  {
    PushFront(lru, id);
    var h := hkey(u.disk, u.block);
    PushFront(Bucket(hash, h), id);
    var bufs', hash' := bufs[id := u], hash[h := [id] + Bucket(hash, h)];
    forall g
      ensures ChainOk(bufs', Bucket(hash', g), hkey, g)
    {
      assert ChainOk(bufs, Bucket(hash, g), hkey, g);
    }
  }

  lemma SameLogicalRefl(disks: Disks, bufs: Bufs)
    requires Content(disks, bufs)
    ensures SameLogical(disks, bufs, disks, bufs)
  {
  }

  lemma LogicalImpliesContent(disks: Disks, bufs: Bufs, disks': Disks, bufs': Bufs)
    requires SameLogical(disks, bufs, disks', bufs')
    ensures Content(disks', bufs')
  {
  }

  lemma Cleaned(bufs: Bufs, id: nat)
    requires id in bufs && bufs[id].dirty
    ensures |Dirty(bufs[id := bufs[id].(dirty := false)])| == |Dirty(bufs)| - 1
  {
    assert Dirty(bufs[id := bufs[id].(dirty := false)]) == Dirty(bufs) - {id};
  }
}

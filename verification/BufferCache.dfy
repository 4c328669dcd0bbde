// What the write-back buffer cache (drivers/block/blkdev.c) means: the disks
// and the buffers over them together stand for one flat byte array per disk.
module BufferCache {
  import opened Common
  import opened CArith

  const BLOCK := 4096
  const SECTOR := 512

  type Disks = map<nat, seq<Byte>>

  datatype Buf = Buf(disk: nat, block: nat, data: seq<Byte>, valid: bool, dirty: bool, dirtiedAt: nat, users: nat)

  type Bufs = map<nat, Buf>

  predicate OnDisk(disks: Disks, d: nat, b: nat) {
    d in disks && b * BLOCK < |disks[d]|
  }

  // Bytes of the block that exist; the last block of a disk may be short.
  function Len(disks: Disks, d: nat, b: nat): (n: nat)
    requires OnDisk(disks, d, b)
    ensures n <= BLOCK && b * BLOCK + n <= |disks[d]|
  {
    Min(BLOCK, |disks[d]| - b * BLOCK)
  }

  function DiskBlock(disks: Disks, d: nat, b: nat): seq<Byte>
    requires OnDisk(disks, d, b)
  {
    disks[d][b * BLOCK..b * BLOCK + Len(disks, d, b)]
  }

  ghost predicate BufOk(disks: Disks, u: Buf) {
    && |u.data| == BLOCK
    && OnDisk(disks, u.disk, u.block)
    && (u.dirty ==> u.valid)
    && (u.valid && !u.dirty ==> u.data[..Len(disks, u.disk, u.block)] == DiskBlock(disks, u.disk, u.block))
  }

  predicate SameKey(u: Buf, d: nat, b: nat) {
    u.disk == d && u.block == b
  }

  ghost predicate OnePerBlock(bufs: Bufs) {
    forall i, j :: i in bufs && j in bufs && SameKey(bufs[i], bufs[j].disk, bufs[j].block) ==> i == j
  }

  ghost predicate Content(disks: Disks, bufs: Bufs) {
    OnePerBlock(bufs) && forall id :: id in bufs ==> BufOk(disks, bufs[id])
  }

  predicate CachedAt(bufs: Bufs, id: nat, d: nat, b: nat) {
    id in bufs && bufs[id].valid && SameKey(bufs[id], d, b)
  }

  // Byte i of the flat contents of disk d.
  ghost function LogicalAt(disks: Disks, bufs: Bufs, d: nat, i: nat): Byte
    requires Content(disks, bufs) && d in disks && i < |disks[d]|
  {
    if exists id :: CachedAt(bufs, id, d, i / BLOCK) then
      var id :| CachedAt(bufs, id, d, i / BLOCK);
      bufs[id].data[i % BLOCK]
    else
      disks[d][i]
  }

  lemma LogicalCached(disks: Disks, bufs: Bufs, d: nat, i: nat, id: nat)
    requires Content(disks, bufs) && d in disks && i < |disks[d]| && CachedAt(bufs, id, d, i / BLOCK)
    ensures LogicalAt(disks, bufs, d, i) == bufs[id].data[i % BLOCK]
  {
    hide BufOk;
    assert BufOk(disks, bufs[id]);
    DataSize(disks, bufs[id]);
  }

  lemma DataSize(disks: Disks, u: Buf)
    requires BufOk(disks, u)
    ensures |u.data| == BLOCK
  {
  }

  // ---- steps that touch one block ----

  ghost predicate SameDisksButBlock(disks: Disks, disks': Disks, d: nat, b: nat) {
    && disks'.Keys == disks.Keys
    && (forall e :: e in disks ==> |disks'[e]| == |disks[e]|)
    && (forall e, i :: e in disks && 0 <= i < |disks[e]| && (e != d || i / BLOCK != b) ==> disks'[e][i] == disks[e][i])
  }

  ghost predicate SameBufsBut(bufs: Bufs, bufs': Bufs, id: nat, d: nat, b: nat) {
    && bufs' - {id} == bufs - {id}
    && (id in bufs ==> SameKey(bufs[id], d, b))
    && (id in bufs' ==> SameKey(bufs'[id], d, b))
  }

  ghost predicate Sized(disks: Disks, disks': Disks) {
    disks'.Keys == disks.Keys && forall e :: e in disks ==> |disks'[e]| == |disks[e]|
  }

  ghost predicate SameLogical(disks: Disks, bufs: Bufs, disks': Disks, bufs': Bufs) {
    && Content(disks, bufs) && Content(disks', bufs') && Sized(disks, disks')
    && forall e, i: nat :: e in disks && i < |disks[e]| ==>
         LogicalAt(disks', bufs', e, i) == LogicalAt(disks, bufs, e, i)
  }

  lemma SameLogicalTrans(disks: Disks, bufs: Bufs, disks': Disks, bufs': Bufs, disks'': Disks, bufs'': Bufs)
    requires SameLogical(disks, bufs, disks', bufs') && SameLogical(disks', bufs', disks'', bufs'')
    ensures SameLogical(disks, bufs, disks'', bufs'')
  {
    hide Content, LogicalAt;
  }

  // Every other buffer stays right when only block (d, b) changes.
  lemma OthersOk(disks: Disks, bufs: Bufs, disks': Disks, bufs': Bufs, id: nat, d: nat, b: nat)
    requires Content(disks, bufs) && SameDisksButBlock(disks, disks', d, b) && SameBufsBut(bufs, bufs', id, d, b)
    requires id in bufs' ==> BufOk(disks', bufs'[id])
    requires forall k :: k in bufs && SameKey(bufs[k], d, b) ==> k == id
    ensures Content(disks', bufs')
  {
    forall k | k in bufs'
      ensures BufOk(disks', bufs'[k])
      ensures k != id ==> k in bufs && bufs[k] == bufs'[k] && !SameKey(bufs'[k], d, b)
    {
      if k != id {
        assert k in bufs - {id};
        assert BufOk(disks, bufs[k]);
        BufStaysOk(disks, disks', d, b, bufs[k]);
      }
    }
  }

  lemma BufStaysOk(disks: Disks, disks': Disks, d: nat, b: nat, u: Buf)
    requires SameDisksButBlock(disks, disks', d, b) && BufOk(disks, u) && !SameKey(u, d, b)
    ensures BufOk(disks', u)
  {
    var lo, n := u.block * BLOCK, Len(disks, u.disk, u.block);
    forall i | lo <= i < lo + n
      ensures disks'[u.disk][i] == disks[u.disk][i]
    {
      assert i / BLOCK == u.block;
    }
    assert DiskBlock(disks', u.disk, u.block) == DiskBlock(disks, u.disk, u.block);
  }

  // ... and every byte outside the block reads as before.
  lemma OtherBlockReads(disks: Disks, bufs: Bufs, disks': Disks, bufs': Bufs, id: nat, d: nat, b: nat, e: nat, i: nat)
    requires Content(disks, bufs) && Content(disks', bufs')
    requires SameDisksButBlock(disks, disks', d, b) && SameBufsBut(bufs, bufs', id, d, b)
    requires e in disks && i < |disks[e]| && (e != d || i / BLOCK != b)
    ensures LogicalAt(disks', bufs', e, i) == LogicalAt(disks, bufs, e, i)
  {
    hide Content, BufOk;
    assert forall k :: k != id && (k in bufs || k in bufs') ==> k in bufs && k in bufs' && bufs[k] == bufs'[k] by {
      forall k | k != id && (k in bufs || k in bufs')
        ensures k in bufs && k in bufs' && bufs[k] == bufs'[k]
      {
        assert k in bufs - {id} || k in bufs' - {id};
      }
    }
    if k :| CachedAt(bufs, k, e, i / BLOCK) {
      LogicalCached(disks, bufs, e, i, k);
      assert CachedAt(bufs', k, e, i / BLOCK);
      LogicalCached(disks', bufs', e, i, k);
    } else {
      assert forall k :: CachedAt(bufs', k, e, i / BLOCK) ==> CachedAt(bufs, k, e, i / BLOCK);
    }
  }

  // A step inside one block that keeps the block's bytes keeps every byte.
  lemma BlockStep(disks: Disks, bufs: Bufs, disks': Disks, bufs': Bufs, id: nat, d: nat, b: nat)
    requires Content(disks, bufs) && Content(disks', bufs')
    requires SameDisksButBlock(disks, disks', d, b) && SameBufsBut(bufs, bufs', id, d, b)
    requires forall i: nat :: d in disks && i < |disks[d]| && i / BLOCK == b ==>
               LogicalAt(disks', bufs', d, i) == LogicalAt(disks, bufs, d, i)
    ensures SameLogical(disks, bufs, disks', bufs')
  {
    hide Content, LogicalAt, SameBufsBut;
    forall e, i: nat | e in disks && i < |disks[e]|
      ensures LogicalAt(disks', bufs', e, i) == LogicalAt(disks, bufs, e, i)
    {
      if e != d || i / BLOCK != b {
        OtherBlockReads(disks, bufs, disks', bufs', id, d, b, e, i);
      }
    }
  }

  // The bytes of a block, by the buffer that has its key, if any.
  lemma BlockReads(disks: Disks, bufs: Bufs, id: nat, i: nat)
    requires Content(disks, bufs) && id in bufs
    requires i < |disks[bufs[id].disk]| && i / BLOCK == bufs[id].block
    ensures LogicalAt(disks, bufs, bufs[id].disk, i) == if bufs[id].valid then bufs[id].data[i % BLOCK] else disks[bufs[id].disk][i]
    ensures bufs[id].valid && !bufs[id].dirty ==> bufs[id].data[i % BLOCK] == disks[bufs[id].disk][i]
  {
    var u := bufs[id];
    assert BufOk(disks, u);
    if u.valid {
      hide BufOk, Content;
      assert CachedAt(bufs, id, u.disk, i / BLOCK);
      LogicalCached(disks, bufs, u.disk, i, id);
      if !u.dirty {
        CleanByte(disks, u, i);
      }
    } else {
      forall k
        ensures !CachedAt(bufs, k, u.disk, i / BLOCK)
      {
        if k in bufs && SameKey(bufs[k], u.disk, u.block) {
          assert k == id;
        }
      }
    }
  }

  lemma CleanByte(disks: Disks, u: Buf, i: nat)
    requires BufOk(disks, u) && u.valid && !u.dirty
    requires i < |disks[u.disk]| && i / BLOCK == u.block
    ensures u.data[i % BLOCK] == disks[u.disk][i]
  {
    var j := i % BLOCK;
    assert i == u.block * BLOCK + j;
    assert u.data[..Len(disks, u.disk, u.block)][j] == DiskBlock(disks, u.disk, u.block)[j];
  }

  lemma BareBlockReads(disks: Disks, bufs: Bufs, d: nat, i: nat)
    requires Content(disks, bufs) && d in disks && i < |disks[d]|
    requires forall k :: k in bufs ==> !SameKey(bufs[k], d, i / BLOCK)
    ensures LogicalAt(disks, bufs, d, i) == disks[d][i]
  {
    assert forall k :: !CachedAt(bufs, k, d, i / BLOCK);
  }

  function PutBlock(disks: Disks, d: nat, b: nat, data: seq<Byte>): Disks
    requires OnDisk(disks, d, b) && |data| == BLOCK
  {
    var n := Len(disks, d, b);
    disks[d := disks[d][..b * BLOCK] + data[..n] + disks[d][b * BLOCK + n..]]
  }

  lemma PutBlockOnly(disks: Disks, d: nat, b: nat, data: seq<Byte>)
    requires OnDisk(disks, d, b) && |data| == BLOCK
    ensures SameDisksButBlock(disks, PutBlock(disks, d, b, data), d, b)
    ensures OnDisk(PutBlock(disks, d, b, data), d, b)
    ensures data[..Len(disks, d, b)] == DiskBlock(PutBlock(disks, d, b, data), d, b)
    ensures Len(PutBlock(disks, d, b, data), d, b) == Len(disks, d, b)
  {
    var lo, n := b * BLOCK, Len(disks, d, b);
    var t := disks[d][..lo] + data[..n] + disks[d][lo + n..];
    forall i: nat | i < |disks[d]| && i / BLOCK != b
      ensures t[i] == disks[d][i]
    {
      assert i < lo || i >= lo + n;
    }
    assert t[lo..lo + n] == data[..n];
  }

  // Writing a dirty buffer back keeps the flat contents.
  lemma WriteBackStep(disks: Disks, bufs: Bufs, id: nat)
    requires Content(disks, bufs) && id in bufs && bufs[id].dirty
    ensures var u := bufs[id];
            && OnDisk(disks, u.disk, u.block) && |u.data| == BLOCK
            && SameLogical(disks, bufs, PutBlock(disks, u.disk, u.block, u.data), bufs[id := u.(dirty := false)])
  {
    var u := bufs[id];
    assert BufOk(disks, u);
    var disks', bufs' := PutBlock(disks, u.disk, u.block, u.data), bufs[id := u.(dirty := false)];
    PutBlockOnly(disks, u.disk, u.block, u.data);
    OthersOk(disks, bufs, disks', bufs', id, u.disk, u.block);
    hide BufOk, Content, PutBlock, LogicalAt;
    forall i: nat | i < |disks[u.disk]| && i / BLOCK == u.block
      ensures LogicalAt(disks', bufs', u.disk, i) == LogicalAt(disks, bufs, u.disk, i)
    {
      DataSize(disks, u);
      BlockReads(disks, bufs, id, i);
      BlockReads(disks', bufs', id, i);
    }
    BlockStep(disks, bufs, disks', bufs', id, u.disk, u.block);
  }

  // A failed write may leave anything in the block: the buffer is still dirty
  // and hides it.
  lemma WriteFailedStep(disks: Disks, bufs: Bufs, id: nat, disks': Disks)
    requires Content(disks, bufs) && id in bufs && bufs[id].dirty
    requires SameDisksButBlock(disks, disks', bufs[id].disk, bufs[id].block)
    ensures SameLogical(disks, bufs, disks', bufs)
  {
    var u := bufs[id];
    assert BufOk(disks, u);
    OthersOk(disks, bufs, disks', bufs, id, u.disk, u.block);
    hide BufOk, Content, LogicalAt;
    forall i: nat | i < |disks[u.disk]| && i / BLOCK == u.block
      ensures LogicalAt(disks', bufs, u.disk, i) == LogicalAt(disks, bufs, u.disk, i)
    {
      BlockReads(disks, bufs, id, i);
      BlockReads(disks', bufs, id, i);
    }
    BlockStep(disks, bufs, disks', bufs, id, u.disk, u.block);
  }

  lemma NothingChanged(disks: Disks, d: nat, b: nat)
    ensures SameDisksButBlock(disks, disks, d, b)
  {
  }

  // Forgetting a clean buffer.
  lemma EvictStep(disks: Disks, bufs: Bufs, id: nat)
    requires Content(disks, bufs) && id in bufs && !bufs[id].dirty
    ensures SameLogical(disks, bufs, disks, bufs - {id})
  {
    var u, bufs' := bufs[id], bufs - {id};
    assert BufOk(disks, u);
    NothingChanged(disks, u.disk, u.block);
    OthersOk(disks, bufs, disks, bufs', id, u.disk, u.block);
    forall i: nat | i < |disks[u.disk]| && i / BLOCK == u.block
      ensures LogicalAt(disks, bufs', u.disk, i) == LogicalAt(disks, bufs, u.disk, i)
    {
      hide BufOk, LogicalAt;
      BlockReads(disks, bufs, id, i);
      BareBlockReads(disks, bufs', u.disk, i);
    }
    hide BufOk, Content, LogicalAt;
    BlockStep(disks, bufs, disks, bufs', id, u.disk, u.block);
  }

  // A new buffer for an uncached block, not yet valid, whatever its bytes.
  lemma CreateStep(disks: Disks, bufs: Bufs, id: nat, u: Buf)
    requires Content(disks, bufs) && id !in bufs && !u.valid && !u.dirty && |u.data| == BLOCK
    requires OnDisk(disks, u.disk, u.block) && forall k :: k in bufs ==> !SameKey(bufs[k], u.disk, u.block)
    ensures SameLogical(disks, bufs, disks, bufs[id := u])
  {
    var bufs' := bufs[id := u];
    assert bufs' - {id} == bufs - {id};
    NothingChanged(disks, u.disk, u.block);
    OthersOk(disks, bufs, disks, bufs', id, u.disk, u.block);
    hide BufOk, Content, LogicalAt;
    forall i: nat | i < |disks[u.disk]| && i / BLOCK == u.block
      ensures LogicalAt(disks, bufs', u.disk, i) == LogicalAt(disks, bufs, u.disk, i)
    {
      BlockReads(disks, bufs', id, i);
      BareBlockReads(disks, bufs, u.disk, i);
    }
    BlockStep(disks, bufs, disks, bufs', id, u.disk, u.block);
  }

  // Reading a block in. A failed read leaves the buffer invalid.
  lemma FillStep(disks: Disks, bufs: Bufs, id: nat, data: seq<Byte>, good: bool)
    requires Content(disks, bufs) && id in bufs && !bufs[id].valid && |data| == BLOCK
    requires OnDisk(disks, bufs[id].disk, bufs[id].block)
    requires good ==> data[..Len(disks, bufs[id].disk, bufs[id].block)] == DiskBlock(disks, bufs[id].disk, bufs[id].block)
    ensures SameLogical(disks, bufs, disks, bufs[id := bufs[id].(data := data, valid := good)])
  {
    var u := bufs[id];
    var bufs' := bufs[id := u.(data := data, valid := good)];
    assert BufOk(disks, u);
    NothingChanged(disks, u.disk, u.block);
    OthersOk(disks, bufs, disks, bufs', id, u.disk, u.block);
    hide BufOk, Content, LogicalAt;
    forall i: nat | i < |disks[u.disk]| && i / BLOCK == u.block
      ensures LogicalAt(disks, bufs', u.disk, i) == LogicalAt(disks, bufs, u.disk, i)
    {
      BlockReads(disks, bufs, id, i);
      BlockReads(disks, bufs', id, i);
    }
    BlockStep(disks, bufs, disks, bufs', id, u.disk, u.block);
  }

  // Bookkeeping fields do not matter to the contents.
  lemma UsersStep(disks: Disks, bufs: Bufs, id: nat, users: nat)
    requires Content(disks, bufs) && id in bufs
    ensures SameLogical(disks, bufs, disks, bufs[id := bufs[id].(users := users)])
  {
    var u := bufs[id];
    var bufs' := bufs[id := u.(users := users)];
    assert BufOk(disks, u);
    NothingChanged(disks, u.disk, u.block);
    OthersOk(disks, bufs, disks, bufs', id, u.disk, u.block);
    hide BufOk, Content, LogicalAt;
    forall i: nat | u.disk in disks && i < |disks[u.disk]| && i / BLOCK == u.block
      ensures LogicalAt(disks, bufs', u.disk, i) == LogicalAt(disks, bufs, u.disk, i)
    {
      BlockReads(disks, bufs, id, i);
      BlockReads(disks, bufs', id, i);
    }
    BlockStep(disks, bufs, disks, bufs', id, u.disk, u.block);
  }

  // ---- overwriting ----

  function Overwritten(u: Buf, at: nat, bytes: seq<Byte>, now: nat): Buf
    requires at + |bytes| <= |u.data|
  {
    u.(data := u.data[..at] + bytes + u.data[at + |bytes|..], valid := true, dirty := true,
       dirtiedAt := if u.dirty then u.dirtiedAt else now)
  }

  // The flat contents of disk d change to `bytes` at `pos` and nowhere else.
  ghost predicate Wrote(disks: Disks, bufs: Bufs, disks': Disks, bufs': Bufs, d: nat, pos: nat, bytes: seq<Byte>) {
    && Content(disks, bufs) && Content(disks', bufs') && Sized(disks, disks')
    && forall e, i: nat :: e in disks && i < |disks[e]| ==>
         LogicalAt(disks', bufs', e, i) ==
           if e == d && pos <= i < pos + |bytes| then bytes[i - pos] else LogicalAt(disks, bufs, e, i)
  }

  lemma OverwriteStep(disks: Disks, bufs: Bufs, id: nat, at: nat, bytes: seq<Byte>, now: nat)
    requires Content(disks, bufs) && id in bufs && at + |bytes| <= |bufs[id].data|
    requires bufs[id].valid || |bytes| == BLOCK
    ensures Wrote(disks, bufs, disks, bufs[id := Overwritten(bufs[id], at, bytes, now)], bufs[id].disk,
                  bufs[id].block * BLOCK + at, bytes)
  {
    var u := bufs[id];
    var u' := Overwritten(u, at, bytes, now);
    var bufs' := bufs[id := u'];
    assert BufOk(disks, u) && BufOk(disks, u');
    NothingChanged(disks, u.disk, u.block);
    OthersOk(disks, bufs, disks, bufs', id, u.disk, u.block);
    hide BufOk, Content, LogicalAt;
    var pos := u.block * BLOCK + at;
    forall e, i: nat | e in disks && i < |disks[e]|
      ensures LogicalAt(disks, bufs', e, i) ==
                if e == u.disk && pos <= i < pos + |bytes| then bytes[i - pos] else LogicalAt(disks, bufs, e, i)
    {
      if e != u.disk || i / BLOCK != u.block {
        OtherBlockReads(disks, bufs, disks, bufs', id, u.disk, u.block, e, i);
      } else {
        DataSize(disks, u);
        BlockReads(disks, bufs, id, i);
        BlockReads(disks, bufs', id, i);
        assert i == u.block * BLOCK + i % BLOCK;
      }
    }
  }
}

// What a tmpfs regular file holds after any run of writes and size changes
// (fs/tmpfs.c), from an empty file on. A write that faults can leave bytes past
// the size; this says when such a byte still matters.
module TmpfsRuns {
  import opened Common
  import opened Bytes
  import opened CArith
  import opened Tmpfs

  // `Store` has put `bytes` into the pages at pos and counted the first n of
  // them; one that failed leaves the size alone. `Extent` sets the size.
  datatype FileOp = Store(pos: nat, bytes: seq<Byte>, n: nat, failed: bool) | Extent(size: nat)

  function NextSize(size: nat, op: FileOp): nat {
    match op
    case Store(pos, _, n, failed) => if failed then size else Max(size, pos + n)
    case Extent(n) => n
  }

  ghost predicate OpOk(op: FileOp) {
    op.Store? ==> op.n <= |op.bytes| && (op.failed ==> op.n == 0)
  }

  ghost predicate OpsOk(ops: seq<FileOp>) {
    forall k :: 0 <= k < |ops| ==> OpOk(ops[k])
  }

  function SizeAfter(ops: seq<FileOp>): nat
    decreases |ops|
  {
    if ops == [] then 0 else NextSize(SizeAfter(Front(ops)), Last(ops))
  }

  function Front(ops: seq<FileOp>): (r: seq<FileOp>)
    requires ops != []
    ensures |r| == |ops| - 1
  {
    ops[..|ops| - 1]
  }

  function Last(ops: seq<FileOp>): FileOp
    requires ops != []
  {
    ops[|ops| - 1]
  }

  predicate Overwrites(op: FileOp, i: nat) {
    op.Store? && op.pos <= i < op.pos + |op.bytes|
  }

  // A shrink to at most i clears byte i.
  predicate CutsOff(size: nat, op: FileOp, i: nat) {
    op.Extent? && op.size < size && op.size <= i
  }

  // ---- what the pages hold ----

  // Byte i of the pages after the run.
  function Stored(ops: seq<FileOp>, i: nat): Byte
    decreases |ops|
  {
    if ops == [] then 0 else
      var op := Last(ops);
      if Overwrites(op, i) then op.bytes[i - op.pos]
      else if CutsOff(SizeAfter(Front(ops)), op, i) then 0
      else Stored(Front(ops), i)
  }

  // The file is what the run leaves.
  ghost predicate Tracks(f: File, ops: seq<FileOp>) {
    && OpsOk(ops) && PagesOk(f.pages) && f.size == SizeAfter(ops)
    && forall i: nat :: ByteAt(f.pages, i) == Stored(ops, i)
  }

  lemma TracksEmpty()
    ensures Tracks(File([], 0, 0), [])
  {
  }

  lemma FrontLast(ops: seq<FileOp>, op: FileOp)
    ensures Front(ops + [op]) == ops && Last(ops + [op]) == op
    ensures OpsOk(ops) && OpOk(op) ==> OpsOk(ops + [op])
  {
  }

  lemma TracksWrite(f: File, f': File, ops: seq<FileOp>, op: FileOp)
    requires Tracks(f, ops) && op.Store? && OpOk(op)
    requires Wrote(f.pages, f'.pages, op.pos, op.bytes) && f'.size == NextSize(f.size, op)
    ensures Tracks(f', ops + [op])
  {
    hide ByteAt;
    FrontLast(ops, op);
  }

  lemma TracksSize(f: File, f': File, ops: seq<FileOp>)
    requires Tracks(f, ops) && PagesOk(f'.pages)
    requires forall i: nat ::
               ByteAt(f'.pages, i) == if i >= f'.size && f'.size < f.size then 0 else ByteAt(f.pages, i)
    ensures Tracks(f', ops + [Extent(f'.size)])
  {
    hide ByteAt;
    FrontLast(ops, Extent(f'.size));
  }

  // ---- what the file should hold ----

  // The flat contents as the writes and size changes define them: a write is a
  // splice, cut to the size, and a size change cuts or pads with zeros.
  ghost function Contents(ops: seq<FileOp>): (s: seq<Byte>)
    requires OpsOk(ops)
    ensures |s| == SizeAfter(ops)
    decreases |ops|
  {
    if ops == [] then [] else
      var s := Contents(Front(ops));
      match Last(ops)
      case Store(pos, bytes, n, failed) => Spliced(s, pos, bytes)[..NextSize(|s|, Last(ops))]
      case Extent(n) => Resized(s, n)
  }

  // Byte i of contents followed by zeros.
  function OrZero(s: seq<Byte>, i: nat): Byte {
    if i < |s| then s[i] else 0
  }

  lemma SplicedAt(s: seq<Byte>, pos: nat, bytes: seq<Byte>, n: nat, i: nat)
    requires n <= |Spliced(s, pos, bytes)| && n >= |s|
    ensures OrZero(Spliced(s, pos, bytes)[..n], i) ==
            if i >= n then 0 else if pos <= i < pos + |bytes| then bytes[i - pos] else OrZero(s, i)
  {
  }

  lemma ResizedAt(s: seq<Byte>, n: nat, i: nat)
    ensures |Resized(s, n)| == n && OrZero(Resized(s, n), i) == if i < n then OrZero(s, i) else 0
  {
  }

  // ---- stray bytes ----

  // Step k left a non-zero byte i past the size it set.
  predicate StrayAt(ops: seq<FileOp>, k: nat, i: nat) {
    && k < |ops| && Overwrites(ops[k], i) && ops[k].bytes[i - ops[k].pos] != 0
    && i >= SizeAfter(ops[..k + 1])
  }

  predicate Replaced(ops: seq<FileOp>, m: nat, i: nat)
    requires m < |ops|
  {
    Overwrites(ops[m], i) || CutsOff(SizeAfter(ops[..m]), ops[m], i)
  }

  // Step k left a stray byte i that nothing has overwritten or cut off since.
  ghost predicate LingersFrom(ops: seq<FileOp>, k: nat, i: nat) {
    StrayAt(ops, k, i) && forall m :: k < m < |ops| ==> !Replaced(ops, m, i)
  }

  ghost predicate Lingers(ops: seq<FileOp>, i: nat) {
    exists k :: LingersFrom(ops, k, i)
  }

  lemma LingersStep(ops: seq<FileOp>, op: FileOp, i: nat)
    ensures var size := SizeAfter(ops);
            Lingers(ops + [op], i) <==>
            if Overwrites(op, i) then op.bytes[i - op.pos] != 0 && i >= NextSize(size, op)
            else !CutsOff(size, op, i) && Lingers(ops, i)
  {
    var all, n := ops + [op], |ops|;
    FrontLast(ops, op);
    assert all[..n + 1] == all && all[..n] == ops;
    assert StrayAt(all, n, i) <==>
           Overwrites(op, i) && op.bytes[i - op.pos] != 0 && i >= NextSize(SizeAfter(ops), op);
    assert Replaced(all, n, i) <==> Overwrites(op, i) || CutsOff(SizeAfter(ops), op, i);
    hide SizeAfter, Overwrites, CutsOff;
    forall k: nat | k < n
      ensures StrayAt(all, k, i) == StrayAt(ops, k, i) && Replaced(all, k, i) == Replaced(ops, k, i)
    {
      assert all[..k + 1] == ops[..k + 1] && all[..k] == ops[..k] && all[k] == ops[k];
    }
    hide StrayAt, Replaced;
    assert LingersFrom(all, n, i) == StrayAt(all, n, i) by { OnlyStray(all, n, i); }
    LingersSplit(ops, op, i);
  }

  lemma OnlyStray(ops: seq<FileOp>, n: nat, i: nat)
    requires n + 1 == |ops|
    ensures LingersFrom(ops, n, i) == StrayAt(ops, n, i)
  {
  }

  lemma LingersSplit(ops: seq<FileOp>, op: FileOp, i: nat)
    requires var all := ops + [op];
             forall k: nat :: k < |ops| ==>
               (LingersFrom(all, k, i) <==> LingersFrom(ops, k, i) && !Replaced(all, |ops|, i))
    ensures var all := ops + [op];
            Lingers(all, i) <==> LingersFrom(all, |ops|, i) || (!Replaced(all, |ops|, i) && Lingers(ops, i))
  {
    var all := ops + [op];
    forall k: nat | LingersFrom(all, k, i)
      ensures k <= |ops|
    {
    }
    forall k: nat | LingersFrom(ops, k, i)
      ensures k < |ops|
    {
    }
    hide LingersFrom, Replaced;
  }

  // ---- the theorems ----

  // Over every run: a byte is what it should be, the contents below the size and
  // zero past it, if and only if no stray byte lingers there.
  lemma {:induction false} RightExactly(ops: seq<FileOp>, i: nat)
    requires OpsOk(ops)
    ensures Stored(ops, i) == OrZero(Contents(ops), i) <==> !Lingers(ops, i)
    decreases |ops|
  {
    if ops != [] {
      var before, op := Front(ops), Last(ops);
      assert ops == before + [op];
      RightExactly(before, i);
      LingersStep(before, op, i);
      hide Lingers;
      var s := Contents(before);
      if op.Store? {
        SplicedAt(s, op.pos, op.bytes, NextSize(|s|, op), i);
      } else {
        ResizedAt(s, op.size, i);
      }
    }
  }

  // The bytes past the size are all zero exactly when no stray byte lingers
  // there, and the flat contents are those of the run exactly when none lingers
  // below the size.
  lemma RunExactly(f: File, ops: seq<FileOp>)
    requires Tracks(f, ops)
    ensures ZeroFrom(f.pages, f.size) <==> forall i: nat :: i >= f.size ==> !Lingers(ops, i)
    ensures Flat(f) == Contents(ops) <==> forall i: nat :: i < f.size ==> !Lingers(ops, i)
  {
    hide ByteAt, Stored, Contents, Lingers, SizeAfter;
    forall i: nat
      ensures ByteAt(f.pages, i) == OrZero(Contents(ops), i) <==> !Lingers(ops, i)
    {
      RightExactly(ops, i);
    }
    var a, b := Flat(f), Contents(ops);
    if forall i: nat :: i < f.size ==> !Lingers(ops, i) {
      assert forall i: nat :: i < f.size ==> a[i] == b[i];
    }
    if a == b {
      assert forall i: nat :: i < f.size ==> a[i] == ByteAt(f.pages, i) && b[i] == OrZero(b, i);
    }
  }

  // No write of the run left a non-zero byte past the size.
  ghost predicate CleanRun(ops: seq<FileOp>) {
    forall k, i :: !StrayAt(ops, k, i)
  }

  // Then the invariant of the file holds: zeros past the size, and the contents
  // are the splices, cuts and extensions of the run.
  lemma CleanRunKeeps(f: File, ops: seq<FileOp>)
    requires Tracks(f, ops) && CleanRun(ops) && f.blocks == 8 * |Slots(f.pages)|
    ensures FileOk(f) && Flat(f) == Contents(ops)
  {
    RunExactly(f, ops);
    hide Tracks, ZeroFrom, Flat;
    forall i: nat
      ensures !Lingers(ops, i)
    {
    }
  }

  // A run in which every stored byte was counted is clean: so every run in which
  // no copy faults, whatever the quota and the allocator do.
  lemma CountedIsClean(ops: seq<FileOp>)
    requires OpsOk(ops)
    requires forall k :: 0 <= k < |ops| && ops[k].Store? ==> ops[k].n == |ops[k].bytes|
    ensures CleanRun(ops)
  {
    forall k: nat, i: nat | k < |ops|
      ensures !StrayAt(ops, k, i)
    {
      assert ops[..k + 1] == ops[..k] + [ops[k]];
      FrontLast(ops[..k], ops[k]);
    }
  }
}

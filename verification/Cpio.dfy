// The newc cpio format as written by scripts/mkinitramfs.py and read by
// fs/initramfs.c.
module Cpio {
  import opened Common
  import opened Bytes
  import opened CArith

  const U32 := 0x1_0000_0000
  const HEADER := 110

  function Pow16(k: nat): (n: nat)
    ensures n > 0
  {
    if k == 0 then 1 else 16 * Pow16(k - 1)
  }

  function Digit(d: nat): (c: Byte)
    requires d < 16
  {
    if d < 10 then 48 + d else 87 + d
  }

  // "%0kx" for a number that fits.
  function Hex(n: nat, k: nat): (s: seq<Byte>)
    ensures |s| == k
    decreases k
  {
    if k == 0 then [] else Hex(n / 16, k - 1) + [Digit(n % 16)]
  }

  // A hexadecimal digit of either case.
  function Undigit(c: Byte): (d: Option<nat>)
    ensures d.Some? ==> d.value < 16
  {
    if 48 <= c <= 57 then Some(c - 48)
    else if 97 <= c <= 102 then Some(c - 87)
    else if 65 <= c <= 70 then Some(c - 55)
    else None
  }

  function Unhex(s: seq<Byte>): Option<nat> {
    if s == [] then Some(0) else
      var v, d := Unhex(s[..|s| - 1]), Undigit(s[|s| - 1]);
      if v.None? || d.None? then None else Some(16 * v.value + d.value)
  }

  // hex8: the loop over the digits.
  method HexValue(s: seq<Byte>) returns (r: Option<nat>)
    ensures r == Unhex(s)
  {
    var v := 0;
    for i := 0 to |s|
      invariant Unhex(s[..i]) == Some(v)
    {
      assert s[..i + 1][..i] == s[..i];
      var d := Undigit(s[i]);
      if d.None? {
        UnhexFails(s, i + 1);
        return None;
      }
      v := 16 * v + d.value;
    }
    assert s[..|s|] == s;
    r := Some(v);
  }

  lemma {:induction false} UnhexFails(s: seq<Byte>, k: nat)
    requires k <= |s| && Unhex(s[..k]).None?
    ensures Unhex(s).None?
    decreases |s| - k
  {
    if k == |s| {
      assert s[..k] == s;
    } else {
      assert s[..k + 1][..k] == s[..k];
      UnhexFails(s, k + 1);
    }
  }

  lemma {:induction false} UnhexHex(n: nat, k: nat)
    requires n < Pow16(k)
    ensures Unhex(Hex(n, k)) == Some(n)
    decreases k
  {
    if k > 0 {
      UnhexHex(n / 16, k - 1);
      var s := Hex(n, k);
      assert s[..k - 1] == Hex(n / 16, k - 1);
      assert n == 16 * (n / 16) + n % 16;
    }
  }

  lemma Pow16Of8()
    ensures Pow16(8) == U32
  {
    assert Pow16(4) == 65536;
  }

  // ---- records ----

  // `crc` is the second magic number, which comes with a checksum in `check`.
  datatype Rec = Rec(crc: bool, ino: nat, mode: nat, uid: nat, gid: nat, nlink: nat, mtime: nat, major: nat, minor: nat,
                     check: nat, name: seq<Byte>, data: seq<Byte>)

  const MAGIC: seq<Byte> := [48, 55, 48, 55, 48, 49]          // 070701
  const MAGIC_CRC: seq<Byte> := [48, 55, 48, 55, 48, 50]      // 070702
  const TRAILER: seq<Byte> := [84, 82, 65, 73, 76, 69, 82, 33, 33, 33]

  predicate RecOk(r: Rec) {
    && r.ino < U32 && r.mode < U32 && r.uid < U32 && r.gid < U32 && r.nlink < U32 && r.mtime < U32
    && r.major < U32 && r.minor < U32 && r.check < U32
    && |r.name| + 1 < U32 && |r.data| < U32 && 0 !in r.name
  }

  function Fields(r: Rec): (f: seq<nat>)
    ensures |f| == 13
  {
    [r.ino, r.mode, r.uid, r.gid, r.nlink, r.mtime, |r.data|, 0, 0, r.major, r.minor, |r.name| + 1, r.check]
  }

  function HexAll(f: seq<nat>): (s: seq<Byte>)
    ensures |s| == 8 * |f|
  {
    if f == [] then [] else HexAll(f[..|f| - 1]) + Hex(f[|f| - 1], 8)
  }

  lemma HexStep(f: seq<nat>)
    requires f != []
    ensures HexAll(f) == HexAll(f[..|f| - 1]) + Hex(f[|f| - 1], 8)
  {
  }

  lemma {:induction false} HexAt(f: seq<nat>, i: nat)
    requires i < |f|
    ensures HexAll(f)[8 * i..8 * i + 8] == Hex(f[i], 8)
  {
    hide HexAll, Hex;
    HexStep(f);
    if i < |f| - 1 {
      HexAt(f[..|f| - 1], i);
    }
  }

  function MagicOf(r: Rec): (m: seq<Byte>)
    ensures |m| == 6
  {
    if r.crc then MAGIC_CRC else MAGIC
  }

  function Head(r: Rec): (s: seq<Byte>)
    ensures |s| == HEADER + |r.name| + 1
  {
    MagicOf(r) + HexAll(Fields(r)) + r.name + [0]
  }

  function RecBytes(r: Rec): (s: seq<Byte>)
    ensures |s| == Size(r)
  {
    Padded(Head(r)) + Padded(r.data)
  }

  function Size(r: Rec): nat {
    Up4(HEADER + |r.name| + 1) + Up4(|r.data|)
  }

  function Stream(recs: seq<Rec>): (s: seq<Byte>)
    ensures |s| == Off(recs, |recs|)
  {
    if recs == [] then [] else
      OffPrefix(recs, |recs| - 1, |recs| - 1);
      Stream(recs[..|recs| - 1]) + RecBytes(recs[|recs| - 1])
  }

  function Off(recs: seq<Rec>, i: nat): nat
    requires i <= |recs|
  {
    if i == 0 then 0 else Off(recs, i - 1) + Size(recs[i - 1])
  }

  lemma {:induction false} OffPrefix(recs: seq<Rec>, k: nat, i: nat)
    requires i <= k <= |recs|
    ensures Off(recs[..k], i) == Off(recs, i)
    decreases i
  {
    if i > 0 {
      OffPrefix(recs, k, i - 1);
    }
  }

  lemma StreamStep(recs: seq<Rec>)
    requires recs != []
    ensures Stream(recs) == Stream(recs[..|recs| - 1]) + RecBytes(recs[|recs| - 1])
    ensures |Stream(recs[..|recs| - 1])| == Off(recs, |recs| - 1)
  {
    OffPrefix(recs, |recs| - 1, |recs| - 1);
  }

  lemma {:induction false} RecordAt(recs: seq<Rec>, i: nat)
    requires i < |recs|
    ensures Off(recs, i) + Size(recs[i]) <= |Stream(recs)|
    ensures Stream(recs)[Off(recs, i)..Off(recs, i) + Size(recs[i])] == RecBytes(recs[i])
    decreases |recs|
  {
    hide Stream, RecBytes, Off, Size;
    var n := |recs| - 1;
    StreamStep(recs);
    if i < n {
      OffPrefix(recs, n, i);
      RecordAt(recs[..n], i);
    }
  }

  // ---- reading ----

  datatype Item = Item(name: seq<Byte>, mode: nat, uid: nat, gid: nat, mtime: nat, major: nat, minor: nat, data: seq<Byte>)

  function ItemOf(r: Rec): Item {
    Item(r.name, r.mode, r.uid, r.gid, r.mtime, r.major, r.minor, r.data)
  }

  // The header fields in the bytes at o.
  function FieldAt(b: seq<Byte>, o: nat, i: nat): Option<nat>
    requires o + HEADER <= |b| && i < 13
  {
    Unhex(b[o + 6 + 8 * i..o + 14 + 8 * i])
  }

  ghost predicate At(b: seq<Byte>, o: nat, r: Rec) {
    o + Size(r) <= |b| && b[o..o + Size(r)] == RecBytes(r)
  }

  // The parts of a record's bytes.
  lemma RecParts(r: Rec)
    ensures var s := RecBytes(r); var n := HEADER + |r.name| + 1;
            && s[..6] == MagicOf(r) && s[6..HEADER] == HexAll(Fields(r))
            && s[HEADER..HEADER + |r.name|] == r.name && s[n - 1] == 0
            && s[Up4(n)..Up4(n) + |r.data|] == r.data
  {
    hide HexAll, Fields, Up4;
    var s, h, n := RecBytes(r), Head(r), HEADER + |r.name| + 1;
    assert h[..6] == MagicOf(r) && h[6..HEADER] == HexAll(Fields(r));
    assert h[HEADER..HEADER + |r.name|] == r.name && h[n - 1] == 0;
    assert s[..n] == h;
    assert s[Up4(n)..] == Padded(r.data);
    assert s[Up4(n)..][..|r.data|] == r.data;
  }

  lemma FieldsAt(b: seq<Byte>, o: nat, r: Rec, i: nat)
    requires At(b, o, r) && RecOk(r) && i < 13
    ensures o + HEADER <= |b| && FieldAt(b, o, i) == Some(Fields(r)[i])
  {
    hide HexAll, Hex, RecBytes, Unhex;
    RecParts(r);
    var f := Fields(r);
    SubSlice(b, o, Size(r), 6, HEADER);
    HexAt(f, i);
    SubSlice(b, o + 6, HEADER - 6, 8 * i, 8 * i + 8);
    assert f[i] < U32;
    Pow16Of8();
    UnhexHex(f[i], 8);
  }

  // The thirteen fields of a newc header, each at its place, and one of them
  // digit by digit.
  lemma HeaderLayout(r: Rec)
    requires RecOk(r)
    ensures var s := RecBytes(r);
            && HEADER <= |s| && s[..6] == [48, 55, 48, 55, 48, if r.crc then 50 else 49]
            && Unhex(s[6..14]) == Some(r.ino) && Unhex(s[14..22]) == Some(r.mode)
            && Unhex(s[22..30]) == Some(r.uid) && Unhex(s[30..38]) == Some(r.gid)
            && Unhex(s[38..46]) == Some(r.nlink) && Unhex(s[46..54]) == Some(r.mtime)
            && Unhex(s[54..62]) == Some(|r.data|) && Unhex(s[62..70]) == Some(0) && Unhex(s[70..78]) == Some(0)
            && Unhex(s[78..86]) == Some(r.major) && Unhex(s[86..94]) == Some(r.minor)
            && Unhex(s[94..102]) == Some(|r.name| + 1) && Unhex(s[102..110]) == Some(r.check)
  {
    var s := RecBytes(r);
    RecParts(r);
    SizeParts(r);
    assert s[0..Size(r)] == s;
    hide RecBytes, Unhex, Size, Up4, HexAll;
    assert At(s, 0, r);
    FieldsAt(s, 0, r, 0);
    FieldsAt(s, 0, r, 1);
    FieldsAt(s, 0, r, 2);
    FieldsAt(s, 0, r, 3);
    FieldsAt(s, 0, r, 4);
    FieldsAt(s, 0, r, 5);
    FieldsAt(s, 0, r, 6);
    FieldsAt(s, 0, r, 7);
    FieldsAt(s, 0, r, 8);
    FieldsAt(s, 0, r, 9);
    FieldsAt(s, 0, r, 10);
    FieldsAt(s, 0, r, 11);
    FieldsAt(s, 0, r, 12);
  }

  lemma HexDigits()
    ensures Hex(0x12a0_4bcd, 8) == [49, 50, 97, 48, 52, 98, 99, 100]
  {
    assert Hex(0x12a, 3) == [49, 50, 97];
    assert Hex(0x12a0_4b, 6) == [49, 50, 97, 48, 52, 98];
  }

  lemma SizeParts(r: Rec)
    ensures Size(r) == Up4(HEADER + |r.name| + 1) + Up4(|r.data|)
    ensures HEADER + |r.name| + 1 <= Size(r) && Up4(HEADER + |r.name| + 1) + |r.data| <= Size(r)
  {
  }

  lemma MagicAt(b: seq<Byte>, o: nat, r: Rec)
    requires At(b, o, r)
    ensures o + 6 <= |b| && b[o..o + 6] == MagicOf(r)
  {
    hide RecBytes, Up4, Size;
    SizeParts(r);
    RecMagic(r);
    SubSlice(b, o, Size(r), 0, 6);
  }

  lemma RecMagic(r: Rec)
    ensures RecBytes(r)[0..6] == MagicOf(r)
  {
    RecParts(r);
    hide RecBytes, HexAll, Fields, Up4;
    assert RecBytes(r)[0..6] == RecBytes(r)[..6];
  }

  lemma NameAt(b: seq<Byte>, o: nat, r: Rec)
    requires At(b, o, r)
    ensures var n := HEADER + |r.name| + 1;
            && o + n <= |b| && b[o + HEADER..o + HEADER + |r.name|] == r.name && b[o + n - 1] == 0
  {
    hide RecBytes, Up4, Size, HexAll, Fields;
    RecParts(r);
    SizeParts(r);
    SubSlice(b, o, Size(r), HEADER, HEADER + |r.name|);
    SliceIndex(b, o, Size(r), HEADER + |r.name|);
  }

  lemma SliceIndex(b: seq<Byte>, o: nat, n: nat, k: nat)
    requires o + n <= |b| && k < n
    ensures b[o..o + n][k] == b[o + k]
  {
  }

  lemma DataAt(b: seq<Byte>, o: nat, r: Rec)
    requires At(b, o, r)
    ensures var at := o + Up4(HEADER + |r.name| + 1);
            at + |r.data| <= |b| && b[at..at + |r.data|] == r.data
  {
    hide RecBytes, Up4, Size, HexAll, Fields, MagicOf;
    RecParts(r);
    SizeParts(r);
    var n := Up4(HEADER + |r.name| + 1);
    SubSlice(b, o, Size(r), n, n + |r.data|);
  }

  // The bytes of a C string.
  function CString(s: seq<Byte>): (r: seq<Byte>)
    ensures 0 !in r && (0 !in s ==> r == s)
  {
    if s == [] || s[0] == 0 then [] else [s[0]] + CString(s[1..])
  }

  // A whole archive: the records, the trailer, padding.
  ghost predicate IsArchive(b: seq<Byte>, recs: seq<Rec>, trailer: Rec, pad: nat) {
    && b == Stream(recs + [trailer]) + Zeros(pad)
    && (forall i :: 0 <= i < |recs| ==> RecOk(recs[i]) && recs[i].name != TRAILER)
    && RecOk(trailer) && trailer.name == TRAILER
  }

  function Items(recs: seq<Rec>): seq<Item> {
    if recs == [] then [] else Items(recs[..|recs| - 1]) + [ItemOf(recs[|recs| - 1])]
  }

  lemma ArchiveAt(b: seq<Byte>, recs: seq<Rec>, trailer: Rec, pad: nat, i: nat)
    requires IsArchive(b, recs, trailer, pad) && i <= |recs|
    ensures var all := recs + [trailer]; At(b, Off(all, i), all[i]) && RecOk(all[i]) && Off(all, i) + HEADER <= |b|
  {
    hide Stream, RecBytes, Up4;
    var all := recs + [trailer];
    RecordAt(all, i);
    var s, o, n := Stream(all), Off(all, i), Size(all[i]);
    assert b[o..o + n] == s[o..o + n];
    SizeParts(all[i]);
  }

  // The same behind zeros.
  lemma ArchiveBehind(b: seq<Byte>, lead: nat, recs: seq<Rec>, trailer: Rec, pad: nat, i: nat)
    requires lead <= |b| && IsArchive(b[lead..], recs, trailer, pad) && i <= |recs|
    ensures var all := recs + [trailer];
            && At(b, lead + Off(all, i), all[i]) && RecOk(all[i]) && lead + Off(all, i) + HEADER <= |b|
  {
    hide IsArchive, RecBytes, RecOk, Off;
    ArchiveAt(b[lead..], recs, trailer, pad, i);
    var all := recs + [trailer];
    var o, n := Off(all, i), Size(all[i]);
    assert b[lead..][o..o + n] == b[lead + o..lead + o + n];
  }

  method ReadFields(b: seq<Byte>, p: nat) returns (f: Option<seq<nat>>)
    requires p + HEADER <= |b|
    ensures f.Some? ==> |f.value| == 13 && forall i :: 0 <= i < 13 ==> FieldAt(b, p, i) == Some(f.value[i])
    ensures f.None? ==> exists i :: 0 <= i < 13 && FieldAt(b, p, i) == None
  {
    hide Unhex;
    var v: seq<nat> := [];
    for i := 0 to 13
      invariant |v| == i && forall j :: 0 <= j < i ==> FieldAt(b, p, j) == Some(v[j])
    {
      var x := HexValue(b[p + 6 + 8 * i..p + 14 + 8 * i]);
      if x.None? {
        assert FieldAt(b, p, i) == None;
        return None;
      }
      v := v + [x.value];
    }
    f := Some(v);
  }

  lemma StartFacts(all: seq<Rec>, recs: seq<Rec>)
    ensures Off(all, 0) == 0 && Items(recs[..0]) == []
  {
  }

  // What passing record i does: the trailer stops the walk, any other record
  // is one more item.
  lemma NextFacts(b: seq<Byte>, recs: seq<Rec>, trailer: Rec, pad: nat, i: nat)
    requires IsArchive(b, recs, trailer, pad) && i <= |recs|
    ensures var all := recs + [trailer];
            && 0 !in all[i].name && (all[i].name == TRAILER <==> i == |recs|)
            && (i < |recs| ==>
                  && Off(all, i + 1) == Off(all, i) + Up4(HEADER + |all[i].name| + 1) + Up4(|all[i].data|)
                  && Items(recs[..i + 1]) == Items(recs[..i]) + [ItemOf(all[i])])
  {
    hide Stream;
    if i < |recs| {
      assert recs[..i + 1][..i] == recs[..i];
    }
  }

  lemma EndFacts(b: seq<Byte>, recs: seq<Rec>, trailer: Rec, pad: nat, i: nat)
    requires IsArchive(b, recs, trailer, pad) && i <= |recs|
    requires Off(recs + [trailer], i) + HEADER > |b| || i == |recs|
    ensures Items(recs[..i]) == Items(recs)
  {
    ArchiveAt(b, recs, trailer, pad, i);
    assert recs[..|recs|] == recs;
  }

  // unpack_initramfs, parsing only. It runs on any bytes; on a well-formed
  // archive of either kind, with any zeros in front of it, it returns the records
  // in order with everything intact.
  method Unpack(b: seq<Byte>, ghost lead: nat, ghost recs: seq<Rec>, ghost trailer: Rec, ghost pad: nat)
    returns (r: Result<seq<Item>>)
    ensures lead <= |b| && b[..lead] == Zeros(lead) && IsArchive(b[lead..], recs, trailer, pad) ==> r == Ok(Items(recs))
    ensures r.Err? ==> r.errno == EINVAL
  {
    hide Stream, RecBytes, FieldAt, At, IsArchive, RecOk, Items, Up4, Off, MagicOf;
    ghost var good := lead <= |b| && b[..lead] == Zeros(lead) && IsArchive(b[lead..], recs, trailer, pad);
    ghost var all := recs + [trailer];
    var items: seq<Item>, p: nat := [], 0;
    ghost var i: nat := 0;
    StartFacts(all, recs);
    if good {
      ArchiveBehind(b, lead, recs, trailer, pad, 0);
    }
    while p + HEADER <= |b|
      invariant good ==> i <= |recs| && items == Items(recs[..i])
      invariant good ==> (i == 0 && p < lead && lead + HEADER <= |b|) || p == lead + Off(all, i)
      decreases |b| - p
    {
      ghost var at := good && p == lead + Off(all, i) && p >= lead;
      if good && p < lead {
        LeadingZero(b, lead, p);
      }
      if at {
        ArchiveBehind(b, lead, recs, trailer, pad, i);
        MagicAt(b, p, all[i]);
        KnownMagic(all[i]);
        NameAt(b, p, all[i]);
        DataAt(b, p, all[i]);
        forall k | 0 <= k < 13
          ensures FieldAt(b, p, k) == Some(Fields(all[i])[k])
        {
          FieldsAt(b, p, all[i], k);
        }
      }
      if b[p..p + 6] != MAGIC && b[p..p + 6] != MAGIC_CRC {
        if b[p] == 0 {
          p := p + 1;
          continue;
        }
        return Err(EINVAL);
      }
      var g := ReadFields(b, p);
      if g.None? {
        return Err(EINVAL);
      }
      var f := g.value;
      if at {
        assert f == Fields(all[i]);
      }
      var mode, uid, gid, mtime, size := f[1], f[2], f[3], f[5], f[6];
      var major, minor, namesize := f[9], f[10], f[11];
      if p + HEADER + namesize > |b| || namesize == 0 || b[p + HEADER + namesize - 1] != 0 {
        return Err(EINVAL);
      }
      var name := CString(b[p + HEADER..p + HEADER + namesize - 1]);
      var body := p + Up4(HEADER + namesize);
      if body + size > |b| {
        return Err(EINVAL);
      }
      if at {
        NextFacts(b[lead..], recs, trailer, pad, i);
      }
      if name == TRAILER {
        break;
      }
      items := items + [Item(name, mode, uid, gid, mtime, major, minor, b[body..body + size])];
      p := body + Up4(size);
      i := i + 1;
    }
    if good {
      EndFacts(b[lead..], recs, trailer, pad, i);
    }
    r := Ok(items);
  }

  lemma LeadingZero(b: seq<Byte>, lead: nat, p: nat)
    requires p < lead && lead + 6 <= |b| && b[..lead] == Zeros(lead)
    ensures b[p] == 0 && b[p..p + 6] != MAGIC && b[p..p + 6] != MAGIC_CRC
  {
    assert b[..lead][p] == 0;
    assert b[p..p + 6][0] == 0;
  }

  lemma KnownMagic(r: Rec)
    ensures MagicOf(r) == MAGIC || MagicOf(r) == MAGIC_CRC
  {
  }
}

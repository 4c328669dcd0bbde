// Building the initramfs (scripts/mkinitramfs.py): a dictionary of paths that
// always has every entry's parent, written out in sorted order.
module CpioTree {
  import opened Common
  import opened Bytes
  import opened CArith
  import opened Cpio

  type Path = seq<Byte>

  const SLASH: Byte := 47
  const ROOT: Path := [47]
  const S_IFDIR := 0x4000
  const S_IFREG := 0x8000
  const S_IFLNK := 0xa000

  datatype Entry = Entry(mode: nat, data: seq<Byte>, major: nat, minor: nat)

  type Entries = map<Path, Entry>

  // ---- paths ----

  function RStrip(p: Path): (r: Path)
    ensures r <= p && (r != [] ==> r[|r| - 1] != SLASH)
    ensures forall k :: |r| <= k < |p| ==> p[k] == SLASH
    ensures r == [] <==> AllSlashes(p)
  {
    if p != [] && p[|p| - 1] == SLASH then
      assert p == p[..|p| - 1] + [SLASH];
      RStrip(p[..|p| - 1])
    else p
  }

  predicate AllSlashes(p: Path) {
    forall i :: 0 <= i < |p| ==> p[i] == SLASH
  }

  function LStrip(p: Path): (r: Path)
    ensures |r| <= |p| && r == p[|p| - |r|..] && AllSlashes(p[..|p| - |r|]) && (r != [] ==> r[0] != SLASH)
  {
    if p != [] && p[0] == SLASH then LStrip(p[1..]) else p
  }

  // Everything up to and including the last slash.
  function UpToSlash(p: Path): (r: Path)
    ensures r <= p && (r != [] ==> r[|r| - 1] == SLASH)
    ensures forall k :: |r| <= k < |p| ==> p[k] != SLASH
  {
    if p == [] || p[|p| - 1] == SLASH then p else UpToSlash(p[..|p| - 1])
  }

  // os.path.dirname
  function Dirname(p: Path): (r: Path)
    ensures r <= p
    ensures AllSlashes(r) || RStrip(r) == r
  {
    var head := UpToSlash(p);
    if AllSlashes(head) then head else
      var r := RStrip(head);
      assert RStrip(r) == r;
      r
  }

  // A path that does not end in a slash is longer than its directory, and so
  // is any path whose directory is not the root.
  lemma DirnameShorter(p: Path)
    requires p != [] && (p[|p| - 1] != SLASH || !AllSlashes(Dirname(p)))
    ensures |Dirname(p)| < |p|
  {
    var head := UpToSlash(p);
    assert p[|p| - 1] == SLASH ==> head == p;
  }

  // Every directory a path runs through is an entry.
  lemma {:induction false} AllParents(es: Entries, p: Path, i: nat)
    requires Closed(es) && p in es && 0 < i < |p| && p[i] == SLASH && p[i - 1] != SLASH
    ensures p[..i] in es
    decreases |p|
  {
    assert HasParent(es, p);
    DirnameAt(p, i);
    hide Closed, Dirname;
    var d := Dirname(p);
    if i < |d| {
      AllParents(es, d, i);
      assert d[..i] == p[..i];
    }
  }

  lemma DirnameAt(p: Path, i: nat)
    requires 0 < i < |p| && p[i] == SLASH && p[i - 1] != SLASH
    ensures var d := Dirname(p);
            && i <= |d| < |p| && d <= p && !AllSlashes(d) && (i == |d| ==> d == p[..i])
  {
    var head := UpToSlash(p);
    assert i < |head|;
    assert head[i - 1] == p[i - 1];
    var d := RStrip(head);
    assert i <= |d|;
    assert d[i - 1] == p[i - 1];
  }

  // The directory of a name in a directory, of a bare name, and of one in the root.
  lemma DirnameIs(d: Path, name: Path)
    requires SLASH !in name
    ensures d != [] && d[|d| - 1] != SLASH ==> Dirname(d + [SLASH] + name) == d
    ensures Dirname(name) == [] && Dirname([SLASH] + name) == [SLASH]
  {
    LastSlash(d + [SLASH], name);
    LastSlash([], name);
    LastSlash([SLASH], name);
    assert [] + name == name;
    if d != [] && d[|d| - 1] != SLASH {
      var head := d + [SLASH];
      assert head[|d| - 1] == d[|d| - 1] && head[|d|] == SLASH;
      var r := RStrip(head);
      assert |d| <= |r| <= |d|;
      assert r == head[..|d|] == d;
    }
  }

  lemma LastSlash(head: Path, name: Path)
    requires SLASH !in name && (head == [] || head[|head| - 1] == SLASH)
    ensures UpToSlash(head + name) == head
  {
    var p, r := head + name, UpToSlash(head + name);
    assert forall k :: |head| <= k < |p| ==> p[k] == name[k - |head|] && p[k] in name;
    assert head != [] ==> p[|head| - 1] == SLASH;
    assert r == p[..|r|];
    assert r != [] ==> p[|r| - 1] == SLASH;
    assert |r| == |head|;
    assert p[..|head|] == head;
  }

  ghost predicate Closed(es: Entries) {
    forall p :: p in es ==> HasParent(es, p)
  }

  predicate HasParent(es: Entries, p: Path) {
    AllSlashes(Dirname(p)) || Dirname(p) in es
  }

  // ---- order ----

  // Comparison of byte strings, which is also that of the code points.
  predicate Le(a: Path, b: Path) {
    a == [] || (b != [] && (a[0] < b[0] || (a[0] == b[0] && Le(a[1..], b[1..]))))
  }

  lemma {:induction false} LeTotal(a: Path, b: Path)
    ensures Le(a, b) || Le(b, a)
    ensures Le(a, b) && Le(b, a) ==> a == b
  {
    if a != [] && b != [] && a[0] == b[0] {
      LeTotal(a[1..], b[1..]);
      assert a == [a[0]] + a[1..] && b == [b[0]] + b[1..];
    }
  }

  lemma {:induction false} LeTrans(a: Path, b: Path, c: Path)
    requires Le(a, b) && Le(b, c)
    ensures Le(a, c)
  {
    if a != [] && a[0] == b[0] == c[0] {
      LeTrans(a[1..], b[1..], c[1..]);
    }
  }

  lemma {:induction false} PrefixLe(a: Path, b: Path)
    requires a <= b
    ensures Le(a, b)
  {
    if a != [] {
      PrefixLe(a[1..], b[1..]);
    }
  }

  ghost predicate Sorted(s: seq<Path>) {
    forall i, j :: 0 <= i < j < |s| ==> Le(s[i], s[j]) && s[i] != s[j]
  }

  method Least(s: set<Path>) returns (m: Path)
    requires s != {}
    ensures m in s && forall p :: p in s ==> Le(m, p)
  {
    m :| m in s;
    var seen, rest := {m}, s - {m};
    LeTotal(m, m);
    while rest != {}
      invariant m in s && s == seen + rest && forall p :: p in seen ==> Le(m, p)
      decreases |rest|
    {
      var p :| p in rest;
      LeTotal(p, m);
      LeTotal(p, p);
      if Le(p, m) {
        forall q | q in seen
          ensures Le(p, q)
        {
          LeTrans(p, m, q);
        }
        m := p;
      }
      seen, rest := seen + {p}, rest - {p};
    }
  }

  // sorted() of the paths.
  method SortPaths(s: set<Path>) returns (r: seq<Path>)
    ensures Sorted(r) && (forall p :: p in r <==> p in s) && |r| == |s|
  {
    var rest := s;
    r := [];
    while rest != {}
      invariant Sorted(r) && (forall p :: p in s <==> p in r || p in rest) && |r| + |rest| == |s|
      invariant forall p, q :: p in r && q in rest ==> Le(p, q) && p != q
      decreases |rest|
    {
      var m := Least(rest);
      r, rest := r + [m], rest - {m};
    }
  }

  // In sorted order every parent comes before its children.
  lemma ParentsFirst(es: Entries, s: seq<Path>, j: nat)
    requires Closed(es) && Sorted(s) && (forall p :: p in s <==> p in es) && j < |s|
    requires !AllSlashes(Dirname(s[j]))
    ensures exists i :: 0 <= i < j && s[i] == Dirname(s[j])
  {
    var d := Dirname(s[j]);
    assert s[j] in es && d in s;
    var i :| 0 <= i < |s| && s[i] == d;
    DirnameShorter(s[j]);
    PrefixLe(d, s[j]);
    LeTotal(d, s[j]);
  }

  ghost predicate Kept(es: Entries, es': Entries) {
    forall p :: p in es ==> p in es' && es'[p] == es[p]
  }

  // What add_dir may add: a directory at or above the path.
  predicate NewDir(p: Path, path: Path, e: Entry, mode: nat) {
    && p != [] && p[|p| - 1] != SLASH && p <= path
    && (e == Entry(S_IFDIR + mode, [], 0, 0) || e == Entry(S_IFDIR + 0x1ed, [], 0, 0))
  }

  ghost predicate OnlyDirs(es: Entries, es': Entries, path: Path, mode: nat) {
    && Kept(es, es')
    && forall p :: p in es' && p !in es ==> NewDir(p, path, es'[p], mode)
  }

  lemma OnlyDirsUp(es: Entries, es': Entries, parent: Path, path: Path, p: Path, mode: nat)
    requires OnlyDirs(es, es', parent, 0x1ed) && parent <= p <= path && p != [] && p[|p| - 1] != SLASH
    ensures OnlyDirs(es, es', path, mode)
    ensures p !in es' ==> OnlyDirs(es, es'[p := Entry(S_IFDIR + mode, [], 0, 0)], path, mode)
  {
  }

  class Builder {
    var entries: Entries

    constructor ()
      ensures entries == map[] && Closed(entries)
    {
      entries := map[];
    }

    // add_dir: the directory and every missing directory above it.
    method AddDir(path: Path, mode: nat)
      requires Closed(entries) && mode < 0x1000
      modifies this
      ensures Closed(entries) && OnlyDirs(old(entries), entries, path, mode)
      ensures AllSlashes(path) || RStrip(path) in entries
      decreases |path|
    {
      hide Closed, OnlyDirs, Dirname, AllSlashes;
      var p := RStrip(path);
      NothingNew(entries, path, mode);
      if p == [] {
        return;  // "/", which is never an entry
      }
      var parent := Dirname(p);
      DirnameShorter(p);
      NothingNew(entries, parent, 0x1ed);
      if parent != [] && parent != ROOT && parent !in entries {
        AddDir(parent, 0x1ed);
      }
      RootSlashes();
      AddKeeps(entries, p, Entry(S_IFDIR + mode, [], 0, 0));
      OnlyDirsUp(old(entries), entries, parent, path, p, mode);
      if p !in entries {
        entries := entries[p := Entry(S_IFDIR + mode, [], 0, 0)];
      }
    }

    // add_file
    method AddFile(path: Path, data: seq<Byte>, mode: nat)
      requires Closed(entries) && mode < 0x1000
      modifies this
      ensures Closed(entries) && path in entries && entries[path] == Entry(S_IFREG + mode, data, 0, 0)
      ensures forall p :: p in old(entries) && p != path ==> p in entries && entries[p] == old(entries)[p]
      ensures forall p :: p in entries && p !in old(entries) && p != path ==> NewDir(p, path, entries[p], 0x1ed)
    {
      AddDir(Dirname(path), 0x1ed);
      AddKeeps(entries, path, Entry(S_IFREG + mode, data, 0, 0));
      entries := entries[path := Entry(S_IFREG + mode, data, 0, 0)];
    }

    // add_symlink: an existing entry stays.
    method AddSymlink(path: Path, target: seq<Byte>)
      requires Closed(entries)
      modifies this
      ensures Closed(entries) && Kept(old(entries), entries) && path in entries
      ensures path !in old(entries) ==> entries[path] == Entry(S_IFLNK + 0x1ff, target, 0, 0)
      ensures forall p :: p in entries && p !in old(entries) && p != path ==> NewDir(p, path, entries[p], 0x1ed)
    {
      AddDir(Dirname(path), 0x1ed);
      AddKeeps(entries, path, Entry(S_IFLNK + 0x1ff, target, 0, 0));
      if path !in entries {
        entries := entries[path := Entry(S_IFLNK + 0x1ff, target, 0, 0)];
      }
    }

    // add_node
    method AddNode(path: Path, mode: nat, major: nat, minor: nat)
      requires Closed(entries)
      modifies this
      ensures Closed(entries) && path in entries && entries[path] == Entry(mode, [], major, minor)
      ensures forall p :: p in old(entries) && p != path ==> p in entries && entries[p] == old(entries)[p]
      ensures forall p :: p in entries && p !in old(entries) && p != path ==> NewDir(p, path, entries[p], 0x1ed)
    {
      AddDir(Dirname(path), 0x1ed);
      AddKeeps(entries, path, Entry(mode, [], major, minor));
      entries := entries[path := Entry(mode, [], major, minor)];
    }

    // write: a well-formed archive of all entries in sorted order, a multiple
    // of 512 bytes long.
    method Write(mtime: nat) returns (buf: seq<Byte>, paths: seq<Path>, ghost pad: nat)
      requires mtime < U32 && |entries| + 2 < U32
      requires forall p :: p in entries ==> EntryOk(p, entries[p])
      ensures Sorted(paths) && forall p :: p in paths <==> p in entries
      ensures IsArchive(buf, RecsOf(entries, paths, mtime), TrailerRec(|paths| + 1, mtime), pad)
      ensures |buf| % 512 == 0 && pad < 512
    {
      hide Sorted, Stream, RecBytes, EntryOk, LStrip, IsArchive;
      paths := SortPaths(entries.Keys);
      buf := [];
      ghost var recs: seq<Rec> := [];
      NoRecs(entries, paths, mtime);
      for i := 0 to |paths|
        invariant recs == RecsOf(entries, paths[..i], mtime)
        invariant buf == Stream(recs) && |buf| % 4 == 0
      {
        assert paths[i] in paths;
        ghost var r := RecOf(paths[i], entries[paths[i]], i + 1, mtime);
        MoreRecs(entries, paths, i, mtime);
        var e := entries[paths[i]];
        buf := AddRecord(buf, LStrip(paths[i]), e, i + 1, mtime, r);
        StreamGrows(recs, r);
        recs := recs + [r];
      }
      assert paths[..|paths|] == paths;
      ghost var t := TrailerRec(|paths| + 1, mtime);
      buf := AddRecord(buf, TRAILER, Entry(0, [], 0, 0), |paths| + 1, mtime, t);
      StreamGrows(recs, t);
      buf, pad := PadTo512(buf);
      WrittenArchive(buf, entries, paths, mtime, pad);
    }
  }

  predicate EntryOk(p: Path, e: Entry) {
    && 0 !in p && |p| + 1 < U32 && LStrip(p) != TRAILER
    && e.mode < U32 && |e.data| < U32 && e.major < U32 && e.minor < U32
  }

  predicate IsDir(mode: nat) {
    mode / 4096 % 16 == 4
  }

  function RecOf(p: Path, e: Entry, ino: nat, mtime: nat): Rec {
    Rec(false, ino, e.mode, 0, 0, if IsDir(e.mode) then 2 else 1, mtime, e.major, e.minor, 0, LStrip(p), e.data)
  }

  function TrailerRec(ino: nat, mtime: nat): Rec {
    Rec(false, ino, 0, 0, 0, 1, mtime, 0, 0, 0, TRAILER, [])
  }

  function RecsOf(es: Entries, paths: seq<Path>, mtime: nat): (r: seq<Rec>)
    requires forall p :: p in paths ==> p in es
    ensures |r| == |paths|
    ensures forall i :: 0 <= i < |paths| ==> r[i] == RecOf(paths[i], es[paths[i]], i + 1, mtime)
  {
    seq(|paths|, i requires 0 <= i < |paths| => assert paths[i] in paths; RecOf(paths[i], es[paths[i]], i + 1, mtime))
  }

  lemma NoRecs(es: Entries, paths: seq<Path>, mtime: nat)
    ensures RecsOf(es, paths[..0], mtime) == [] && Stream([]) == []
  {
  }

  lemma MoreRecs(es: Entries, paths: seq<Path>, i: nat, mtime: nat)
    requires i < |paths| && forall p :: p in paths ==> p in es
    ensures RecsOf(es, paths[..i + 1], mtime) ==
            RecsOf(es, paths[..i], mtime) + [RecOf(paths[i], es[paths[i]], i + 1, mtime)]
  {
    hide RecOf;
  }

  lemma StreamGrows(recs: seq<Rec>, r: Rec)
    ensures Stream(recs + [r]) == Stream(recs) + RecBytes(r)
  {
    hide RecBytes;
    StreamStep(recs + [r]);
    assert (recs + [r])[..|recs|] == recs;
  }

  lemma {:induction false} StrippedOk(p: Path)
    ensures |LStrip(p)| <= |p| && (0 !in p ==> 0 !in LStrip(p))
  {
    if p != [] && p[0] == SLASH {
      assert p == [p[0]] + p[1..];
      StrippedOk(p[1..]);
    }
  }

  // Appending zeros up to a multiple of four.
  method PadTo4(b: seq<Byte>) returns (r: seq<Byte>)
    ensures r == b + Zeros(Up4(|b|) - |b|)
  {
    r := b;
    while |r| % 4 != 0
      invariant |b| <= |r| <= Up4(|b|) && r == b + Zeros(|r| - |b|)
      decreases Up4(|b|) - |r|
    {
      UpperGap(|b|, |r|);
      r := r + [0];
    }
    AtMultiple(|b|, |r|);
  }

  lemma UpperGap(n: nat, m: nat)
    requires n <= m <= Up4(n) && m % 4 != 0
    ensures m < Up4(n)
  {
  }

  lemma AtMultiple(n: nat, m: nat)
    requires n <= m <= Up4(n) && m % 4 == 0
    ensures m == Up4(n)
  {
  }

  lemma UpAfter(n: nat, k: nat)
    requires n % 4 == 0
    ensures Up4(n + k) == n + Up4(k)
  {
  }

  // hdr and the data of one entry, appended to an aligned buffer.
  method AddRecord(b: seq<Byte>, name: seq<Byte>, e: Entry, ino: nat, mtime: nat, ghost r: Rec) returns (buf: seq<Byte>)
    requires |b| % 4 == 0
    requires r == Rec(false, ino, e.mode, 0, 0, if IsDir(e.mode) then 2 else 1, mtime, e.major, e.minor, 0, name, e.data)
    ensures buf == b + RecBytes(r) && |buf| % 4 == 0
  {
    hide HexAll, Up4, IsDir;
    var nlink := if IsDir(e.mode) then 2 else 1;
    var fields := [ino, e.mode, 0, 0, nlink, mtime, |e.data|, 0, 0, e.major, e.minor, |name| + 1, 0];
    var head := MAGIC + HexAll(fields) + name + [0];
    assert head == Head(r);
    buf := PadTo4(b + head);
    UpAfter(|b|, |head|);
    assert buf == b + Padded(head);
    buf := PadTo4(buf + e.data);
    UpAfter(|b + Padded(head)|, |e.data|);
    assert buf == (b + Padded(head)) + Padded(e.data);
    assert (b + Padded(head)) + Padded(e.data) == b + (Padded(head) + Padded(e.data));
  }

  method PadTo512(b: seq<Byte>) returns (r: seq<Byte>, ghost pad: nat)
    ensures r == b + Zeros(pad) && |r| % 512 == 0 && pad < 512
  {
    r, pad := b, 0;
    while |r| % 512 != 0
      invariant r == b + Zeros(pad) && pad < 512
      invariant pad == 0 || |r| % 512 == 0 || pad <= (|r| - 1) % 512
      decreases 512 - (|r| + 511) % 512
    {
      r, pad := r + [0], pad + 1;
    }
  }

  lemma WrittenArchive(buf: seq<Byte>, es: Entries, paths: seq<Path>, mtime: nat, pad: nat)
    requires mtime < U32 && |paths| + 2 < U32 && (forall p :: p in paths ==> p in es && EntryOk(p, es[p]))
    requires buf == Stream(RecsOf(es, paths, mtime) + [TrailerRec(|paths| + 1, mtime)]) + Zeros(pad)
    ensures IsArchive(buf, RecsOf(es, paths, mtime), TrailerRec(|paths| + 1, mtime), pad)
  {
    hide Stream, LStrip;
    var recs := RecsOf(es, paths, mtime);
    forall i | 0 <= i < |recs|
      ensures RecOk(recs[i]) && recs[i].name != TRAILER
    {
      assert paths[i] in paths;
      StrippedOk(paths[i]);
    }
  }

  // The round trip: what the kernel unpacks is, entry by entry, what was put
  // in, in sorted order.
  lemma {:induction false} UnpackedItems(es: Entries, paths: seq<Path>, mtime: nat, i: nat)
    requires i < |paths| && forall p :: p in paths ==> p in es
    ensures var items := Items(RecsOf(es, paths, mtime)); var e := es[paths[i]];
            |items| == |paths| && items[i] == Item(LStrip(paths[i]), e.mode, 0, 0, mtime, e.major, e.minor, e.data)
    decreases |paths|
  {
    hide LStrip, IsDir;
    ItemsAre(RecsOf(es, paths, mtime), i);
  }

  lemma {:induction false} ItemsAre(recs: seq<Rec>, i: nat)
    requires i < |recs|
    ensures |Items(recs)| == |recs| && Items(recs)[i] == ItemOf(recs[i])
    decreases |recs|
  {
    var n := |recs| - 1;
    if n > 0 {
      ItemsAre(recs[..n], if i < n then i else 0);
    }
  }

  lemma NothingNew(es: Entries, path: Path, mode: nat)
    ensures OnlyDirs(es, es, path, mode)
  {
  }

  lemma RootSlashes()
    ensures AllSlashes([]) && AllSlashes(ROOT)
  {
  }

  lemma AddKeeps(es: Entries, p: Path, e: Entry)
    requires Closed(es) && HasParent(es, p)
    ensures Closed(es[p := e])
  {
    hide Dirname, AllSlashes;
    var es' := es[p := e];
    forall q | q in es'
      ensures HasParent(es', q)
    {
      assert q in es ==> HasParent(es, q);
    }
  }
}

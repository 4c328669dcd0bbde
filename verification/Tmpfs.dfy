// Regular files of tmpfs (fs/tmpfs.c): sparse page arrays under one page quota
// against flat byte sequences. `PAGE_SIZE` divides into 8 blocks of 512 bytes.
module Tmpfs {
  import opened Common
  import opened Bytes
  import opened CArith

  type Page = seq<Byte>
  type Pages = seq<Option<Page>>

  datatype File = File(pages: Pages, size: nat, blocks: nat)

  ghost predicate PagesOk(pages: Pages) {
    forall p :: 0 <= p < |pages| && pages[p].Some? ==> |pages[p].value| == PAGE_SIZE
  }

  // Byte i of the file; a hole reads as zero.
  ghost function ByteAt(pages: Pages, i: nat): Byte
    requires PagesOk(pages)
  {
    var p := i / PAGE_SIZE;
    if p < |pages| && pages[p].Some? then pages[p].value[i % PAGE_SIZE] else 0
  }

  ghost predicate ZeroFrom(pages: Pages, size: nat)
    requires PagesOk(pages)
  {
    forall i: nat :: i >= size ==> ByteAt(pages, i) == 0
  }

  function Slots(pages: Pages): set<nat> {
    set p | 0 <= p < |pages| && pages[p].Some?
  }

  ghost predicate ShapeOk(f: File) {
    PagesOk(f.pages) && f.blocks == 8 * |Slots(f.pages)|
  }

  ghost predicate FileOk(f: File) {
    ShapeOk(f) && ZeroFrom(f.pages, f.size)
  }

  // The flat contents.
  ghost function Flat(f: File): seq<Byte>
    requires PagesOk(f.pages)
  {
    seq(f.size, i requires 0 <= i => ByteAt(f.pages, i))
  }

  ghost predicate SameBytes(pages: Pages, pages': Pages) {
    PagesOk(pages) && PagesOk(pages') && forall i: nat :: ByteAt(pages', i) == ByteAt(pages, i)
  }

  lemma NewPage(pages: Pages, idx: nat)
    requires PagesOk(pages) && idx < |pages| && pages[idx].None?
    ensures SameBytes(pages, pages[idx := Some(Zeros(PAGE_SIZE))])
    ensures Slots(pages[idx := Some(Zeros(PAGE_SIZE))]) == Slots(pages) + {idx} && idx !in Slots(pages)
  {
  }

  lemma MoreSlots(pages: Pages, n: nat)
    requires PagesOk(pages)
    ensures SameBytes(pages, pages + seq(n, _ => None))
    ensures Slots(pages + seq(n, _ => None)) == Slots(pages)
  {
    var pages': Pages := pages + seq(n, _ => None);
    forall i: nat
      ensures ByteAt(pages', i) == ByteAt(pages, i)
    {
    }
  }

  function Put(pages: Pages, idx: nat, at: nat, bytes: seq<Byte>): Pages
    requires idx < |pages| && pages[idx].Some? && at + |bytes| <= |pages[idx].value|
  {
    var page := pages[idx].value;
    pages[idx := Some(page[..at] + bytes + page[at + |bytes|..])]
  }

  ghost predicate Wrote(pages: Pages, pages': Pages, pos: nat, bytes: seq<Byte>) {
    && PagesOk(pages) && PagesOk(pages')
    && forall i: nat ::
         ByteAt(pages', i) == if pos <= i < pos + |bytes| then bytes[i - pos] else ByteAt(pages, i)
  }

  lemma PutBytes(pages: Pages, idx: nat, at: nat, bytes: seq<Byte>)
    requires PagesOk(pages) && idx < |pages| && pages[idx].Some? && at + |bytes| <= PAGE_SIZE
    ensures Wrote(pages, Put(pages, idx, at, bytes), idx * PAGE_SIZE + at, bytes)
    ensures Slots(Put(pages, idx, at, bytes)) == Slots(pages)
  {
    var pages', pos := Put(pages, idx, at, bytes), idx * PAGE_SIZE + at;
    forall i: nat
      ensures ByteAt(pages', i) == if pos <= i < pos + |bytes| then bytes[i - pos] else ByteAt(pages, i)
    {
      if i / PAGE_SIZE == idx {
        assert i == idx * PAGE_SIZE + i % PAGE_SIZE;
      } else {
        PageElsewhere(i, idx, at, |bytes|);
      }
    }
  }

  lemma PageElsewhere(i: nat, idx: nat, at: nat, n: nat)
    requires i / PAGE_SIZE != idx && at + n <= PAGE_SIZE
    ensures !(idx * PAGE_SIZE + at <= i < idx * PAGE_SIZE + at + n)
  {
  }

  lemma WroteMore(a: Pages, b: Pages, c: Pages, pos: nat, buf: seq<Byte>, done: nat, chunk: nat)
    requires done + chunk <= |buf| && Wrote(a, b, pos, buf[..done]) && Wrote(b, c, pos + done, buf[done..done + chunk])
    ensures Wrote(a, c, pos, buf[..done + chunk])
  {
    hide ByteAt;
  }

  // ---- truncation ----

  function KeepPages(size: nat): nat {
    (size + PAGE_SIZE - 1) / PAGE_SIZE
  }

  function Dropped(pages: Pages, keep: nat): Pages {
    seq(|pages|, p requires 0 <= p < |pages| => if p < keep then pages[p] else None)
  }

  function Cut(pages: Pages, size: nat): Pages
    requires forall p :: 0 <= p < |pages| && pages[p].Some? ==> |pages[p].value| == PAGE_SIZE
  {
    var keep, at := KeepPages(size), size % PAGE_SIZE;
    var d := Dropped(pages, keep);
    if at > 0 && keep > 0 && keep <= |pages| && d[keep - 1].Some?
    then Put(d, keep - 1, at, Zeros(PAGE_SIZE - at)) else d
  }

  // Truncation keeps the bytes below the new size and clears all others.
  lemma CutBytes(pages: Pages, size: nat)
    requires PagesOk(pages)
    ensures PagesOk(Cut(pages, size))
    ensures forall i: nat :: ByteAt(Cut(pages, size), i) == if i < size then ByteAt(pages, i) else 0
    ensures Slots(Cut(pages, size)) == set p | p in Slots(pages) && p < KeepPages(size)
  {
    var keep, at := KeepPages(size), size % PAGE_SIZE;
    var d := Dropped(pages, keep);
    assert PagesOk(d);
    assert Slots(d) == set p | p in Slots(pages) && p < keep;
    forall i: nat
      ensures ByteAt(d, i) == if i / PAGE_SIZE < keep then ByteAt(pages, i) else 0
    {
    }
    if at > 0 && keep > 0 && keep <= |pages| && d[keep - 1].Some? {
      PutBytes(d, keep - 1, at, Zeros(PAGE_SIZE - at));
    }
    hide Put, Dropped;
    forall i: nat
      ensures ByteAt(Cut(pages, size), i) == if i < size then ByteAt(pages, i) else 0
    {
      CutEdge(i, size);
    }
  }

  lemma CutEdge(i: nat, size: nat)
    ensures i < size ==> i / PAGE_SIZE < KeepPages(size)
    ensures i >= size && i / PAGE_SIZE < KeepPages(size) ==>
              && size % PAGE_SIZE > 0 && KeepPages(size) > 0 && i / PAGE_SIZE == KeepPages(size) - 1
              && i >= (KeepPages(size) - 1) * PAGE_SIZE + size % PAGE_SIZE
              && i < (KeepPages(size) - 1) * PAGE_SIZE + PAGE_SIZE
    ensures KeepPages(size) > 0 && size % PAGE_SIZE > 0 ==> (KeepPages(size) - 1) * PAGE_SIZE + size % PAGE_SIZE == size
  {
  }

  // ---- flat contents ----

  function Resized(s: seq<Byte>, n: nat): seq<Byte> {
    if n <= |s| then s[..n] else s + Zeros(n - |s|)
  }

  function Spliced(s: seq<Byte>, pos: nat, bytes: seq<Byte>): seq<Byte> {
    var t := if pos + |bytes| > |s| then Resized(s, pos + |bytes|) else s;
    t[..pos] + bytes + t[pos + |bytes|..]
  }

  // A write that counts the first n of the bytes it stored is a splice of the
  // flat contents, with zeros in any gap, cut to the new size.
  lemma FlatAfterWrite(f: File, f': File, pos: nat, bytes: seq<Byte>, n: nat)
    requires FileOk(f) && Wrote(f.pages, f'.pages, pos, bytes)
    requires n <= |bytes| && f'.size == Max(f.size, pos + n)
    ensures |Spliced(Flat(f), pos, bytes)| >= f'.size && Flat(f') == Spliced(Flat(f), pos, bytes)[..f'.size]
    ensures n == |bytes| ==> Flat(f') == Spliced(Flat(f), pos, bytes)
  {
    hide ByteAt;
    var s := Spliced(Flat(f), pos, bytes);
    assert |s| == Max(f.size, pos + |bytes|);
    forall i: nat | i < f'.size
      ensures Flat(f')[i] == s[i]
    {
    }
  }

  // Bytes past the size stay zero exactly when the stored bytes there are zero;
  // so always when no copy stored more than was counted.
  lemma ZeroTailExactly(f: File, f': File, pos: nat, bytes: seq<Byte>)
    requires FileOk(f) && Wrote(f.pages, f'.pages, pos, bytes) && f'.size >= f.size
    ensures ZeroFrom(f'.pages, f'.size) <==>
            forall j :: 0 <= j < |bytes| && pos + j >= f'.size ==> bytes[j] == 0
  {
    hide ByteAt;
    if ZeroFrom(f'.pages, f'.size) {
      forall j | 0 <= j < |bytes| && pos + j >= f'.size
        ensures bytes[j] == 0
      {
        assert ByteAt(f'.pages, pos + j) == bytes[j];
      }
    }
  }

  // A write has stored just its first n bytes exactly when the rest it stored
  // was there before.
  lemma StrayExactly(pages: Pages, pages': Pages, pos: nat, bytes: seq<Byte>, n: nat)
    requires Wrote(pages, pages', pos, bytes) && n <= |bytes|
    ensures Wrote(pages, pages', pos, bytes[..n]) <==>
            forall j :: n <= j < |bytes| ==> bytes[j] == ByteAt(pages, pos + j)
  {
    hide ByteAt;
    if Wrote(pages, pages', pos, bytes[..n]) {
      forall j | n <= j < |bytes|
        ensures bytes[j] == ByteAt(pages, pos + j)
      {
        assert ByteAt(pages', pos + j) == bytes[j];
      }
    }
  }

  // Setting the size cuts the flat contents, or pads them with zeros exactly
  // when there are only zeros past the old size.
  lemma FlatAfterResize(f: File, f': File)
    requires PagesOk(f.pages) && PagesOk(f'.pages)
    requires forall i: nat ::
               ByteAt(f'.pages, i) == if i >= f'.size && f'.size < f.size then 0 else ByteAt(f.pages, i)
    ensures Flat(f') == Resized(Flat(f), f'.size) <==>
            forall i: nat :: f.size <= i < f'.size ==> ByteAt(f.pages, i) == 0
  {
    hide ByteAt;
    var a, b := Flat(f'), Resized(Flat(f), f'.size);
    assert |a| == |b|;
    forall i: nat | f.size <= i < f'.size
      ensures a[i] == ByteAt(f.pages, i) && b[i] == 0
    {
    }
  }
}

// The token stream of a flattened device tree (lib/fdt.c; section 5.4 of the
// Devicetree Specification v0.4), down to its bytes.
module FdtTokens {
  import opened Common
  import opened Bytes
  import opened CArith

  const FDT_BEGIN_NODE := 1
  const FDT_END_NODE := 2
  const FDT_PROP := 3
  const FDT_NOP := 4
  const FDT_END := 9

  datatype Tok =
    | BeginNode(name: seq<Byte>)
    | EndNode
    | Prop(nameoff: nat, value: seq<Byte>)
    | Nop
    | End

  function Tag(t: Tok): nat {
    match t
    case BeginNode(_) => FDT_BEGIN_NODE
    case EndNode => FDT_END_NODE
    case Prop(_, _) => FDT_PROP
    case Nop => FDT_NOP
    case End => FDT_END
  }

  predicate U32(n: nat) {
    n < 0x1_0000_0000
  }

  function Be32(n: nat): (b: seq<Byte>)
    requires U32(n)
    ensures |b| == 4
  {
    [n / 0x100_0000, n / 0x1_0000 % 256, n / 256 % 256, n % 256]
  }

  // rd32
  function Rd32(b: seq<Byte>, o: nat): (n: nat)
    requires o + 4 <= |b|
    ensures U32(n)
  {
    b[o] as int * 0x100_0000 + b[o + 1] as int * 0x1_0000 + b[o + 2] as int * 256 + b[o + 3] as int
  }

  lemma RdBe(n: nat)
    requires U32(n)
    ensures Rd32(Be32(n), 0) == n
  {
    var a, b, c := n / 256, n / 0x1_0000, n / 0x100_0000;
    assert n == 256 * a + n % 256;
    DivMod(a, 256, b, a % 256);
    DivMod(b, 256, c, b % 256);
  }

  // The most significant byte comes first, in what is read and what is written.
  lemma BigEndian(b: seq<Byte>, o: nat)
    requires o + 4 <= |b|
    ensures var n := Rd32(b, o);
            && n / 0x100_0000 == b[o] as int && n / 0x1_0000 % 256 == b[o + 1] as int
            && n / 256 % 256 == b[o + 2] as int && n % 256 == b[o + 3] as int
    ensures Be32(Rd32(b, o)) == b[o..o + 4]
  {
    var n, p, q, r := Rd32(b, o), b[o] as int, b[o + 1] as int, b[o + 2] as int;
    DivMod(n, 256, (p * 256 + q) * 256 + r, b[o + 3] as int);
    DivMod(n / 256, 256, p * 256 + q, r);
    DivMod(n / 0x1_0000, 256, p, q);
    assert n / 0x1_0000 == n / 256 / 256 && n / 0x100_0000 == n / 0x1_0000 / 256;
  }

  predicate TokOk(t: Tok) {
    match t
    case BeginNode(name) => 0 !in name
    case Prop(nameoff, value) => U32(nameoff) && U32(|value|)
    case _ => true
  }

  function TokBytes(t: Tok): (b: seq<Byte>)
    requires TokOk(t)
    ensures |b| == Size(t)
  {
    match t
    case BeginNode(name) => Be32(FDT_BEGIN_NODE) + Padded(name + [0])
    case Prop(nameoff, value) => Be32(FDT_PROP) + Be32(|value|) + Be32(nameoff) + Padded(value)
    case EndNode => Be32(FDT_END_NODE)
    case Nop => Be32(FDT_NOP)
    case End => Be32(FDT_END)
  }

  function Size(t: Tok): (n: nat)
    ensures n >= 4
  {
    match t
    case BeginNode(name) => 4 + Up4(|name| + 1)
    case Prop(_, value) => 12 + Up4(|value|)
    case _ => 4
  }

  ghost predicate StreamOk(toks: seq<Tok>) {
    forall i :: 0 <= i < |toks| ==> TokOk(toks[i])
  }

  ghost function Stream(toks: seq<Tok>): (b: seq<Byte>)
    requires StreamOk(toks)
    ensures |b| == Off(toks, |toks|)
  {
    if toks == [] then [] else
      assert toks[..|toks| - 1][..|toks| - 1] == toks[..|toks| - 1];
      OffPrefix(toks, |toks| - 1, |toks| - 1);
      Stream(toks[..|toks| - 1]) + TokBytes(toks[|toks| - 1])
  }

  // Byte offset of token i.
  ghost function Off(toks: seq<Tok>, i: nat): nat
    requires i <= |toks|
  {
    if i == 0 then 0 else Off(toks, i - 1) + Size(toks[i - 1])
  }

  lemma {:induction false} OffPrefix(toks: seq<Tok>, k: nat, i: nat)
    requires i <= k <= |toks|
    ensures Off(toks[..k], i) == Off(toks, i)
    decreases i
  {
    if i > 0 {
      OffPrefix(toks, k, i - 1);
    }
  }

  lemma {:induction false} OffGrows(toks: seq<Tok>, i: nat, j: nat)
    requires i <= j <= |toks|
    ensures Off(toks, i) + 4 * (j - i) <= Off(toks, j)
    decreases j
  {
    if i < j {
      OffGrows(toks, i, j - 1);
    }
  }

  lemma StreamStep(toks: seq<Tok>)
    requires StreamOk(toks) && toks != []
    ensures Stream(toks) == Stream(toks[..|toks| - 1]) + TokBytes(toks[|toks| - 1])
    ensures |Stream(toks[..|toks| - 1])| == Off(toks, |toks| - 1)
  {
    OffPrefix(toks, |toks| - 1, |toks| - 1);
  }

  // The bytes at a token's offset are the token's bytes.
  lemma {:induction false} TokenAt(toks: seq<Tok>, i: nat)
    requires StreamOk(toks) && i < |toks|
    ensures Off(toks, i) + Size(toks[i]) <= |Stream(toks)|
    ensures Stream(toks)[Off(toks, i)..Off(toks, i) + Size(toks[i])] == TokBytes(toks[i])
    decreases |toks|
  {
    hide Stream, TokBytes, Off, Size;
    var n := |toks| - 1;
    StreamStep(toks);
    if i < n {
      OffPrefix(toks, n, i);
      TokenAt(toks[..n], i);
    }
  }

  // strnlen from `from` on: the first NUL, or the end.
  function NameEnd(b: seq<Byte>, from: nat): (e: nat)
    requires from <= |b|
    ensures from <= e <= |b| && (e < |b| ==> b[e] == 0) && forall k :: from <= k < e ==> b[k] != 0
    decreases |b| - from
  {
    if from == |b| || b[from] == 0 then from else NameEnd(b, from + 1)
  }

  // next_token: the offset after the token at `off`, or -1, and the tag if one
  // could be read. On any bytes at all the offset strictly grows.
  function NextToken(blob: seq<Byte>, off: int): (r: (int, Option<nat>))
    ensures r.0 == -1 || (0 <= off && off + 4 <= |blob| && off + 4 <= r.0 <= |blob| + 3)
    ensures r.1.None? ==> r.0 == -1
    ensures r.0 >= 0 && r.1 == Some(FDT_PROP) ==> off + 12 <= |blob|
  {
    if off < 0 || off + 4 > |blob| then (-1, None)
    else
      var tag := Rd32(blob, off);
      var at := off + 4;
      if tag == FDT_BEGIN_NODE then
        var e := NameEnd(blob, at);
        if e == |blob| then (-1, Some(tag)) else (at + Up4(e - at + 1), Some(tag))
      else if tag == FDT_PROP then
        if at + 8 > |blob| then (-1, Some(tag))
        else
          var len := Rd32(blob, at);
          if len > |blob| - at - 8 then (-1, Some(tag)) else (at + 8 + Up4(len), Some(tag))
      else if tag == FDT_END_NODE || tag == FDT_NOP || tag == FDT_END then (at, Some(tag))
      else (-1, Some(tag))
  }

  // How far a walk at `off` can still go.
  function Left(blob: seq<Byte>, off: int): nat {
    if off < 0 || off > |blob| + 3 then 0 else |blob| + 4 - off
  }

  lemma Rd32Slice(b: seq<Byte>, o: nat, n: nat, k: nat)
    requires o + n <= |b| && k + 4 <= n
    ensures Rd32(b[o..o + n], k) == Rd32(b, o + k)
  {
  }

  lemma Rd32Prefix(a: seq<Byte>, b: seq<Byte>, n: nat)
    requires U32(n)
    ensures Rd32(a + Be32(n) + b, |a|) == n
  {
    RdBe(n);
    var s := a + Be32(n) + b;
    assert forall k :: 0 <= k < 4 ==> s[|a| + k] == Be32(n)[k];
  }

  // The first words of a token's bytes.
  lemma TokenWords(t: Tok)
    requires TokOk(t)
    ensures Rd32(TokBytes(t), 0) == Tag(t)
    ensures t.Prop? ==> Rd32(TokBytes(t), 4) == |t.value| && Rd32(TokBytes(t), 8) == t.nameoff
  {
    var b := TokBytes(t);
    assert b == [] + Be32(Tag(t)) + b[4..];
    Rd32Prefix([], b[4..], Tag(t));
    if t.Prop? {
      assert b == Be32(FDT_PROP) + Be32(|t.value|) + b[8..];
      Rd32Prefix(Be32(FDT_PROP), b[8..], |t.value|);
      assert b == (Be32(FDT_PROP) + Be32(|t.value|)) + Be32(t.nameoff) + b[12..];
      Rd32Prefix(Be32(FDT_PROP) + Be32(|t.value|), b[12..], t.nameoff);
    }
  }

  lemma {:induction false} NameEndIs(b: seq<Byte>, from: nat, e: nat)
    requires from <= e < |b| && b[e] == 0 && forall k :: from <= k < e ==> b[k] != 0
    ensures NameEnd(b, from) == e
  {
    hide NameEnd;
  }

  // On an encoded stream next_token goes from each token to the next.
  lemma NextOnStream(toks: seq<Tok>, i: nat)
    requires StreamOk(toks) && i < |toks|
    ensures NextToken(Stream(toks), Off(toks, i)) == (Off(toks, i + 1), Some(Tag(toks[i])))
  {
    hide Stream, Rd32, NameEnd, TokBytes, Up4;
    TokenAt(toks, i);
    var b, o, t := Stream(toks), Off(toks, i), toks[i];
    TokenWords(t);
    Rd32Slice(b, o, Size(t), 0);
    match t {
      case BeginNode(name) => NameInStream(b, o, name);
      case Prop(_, _) => Rd32Slice(b, o, Size(t), 4);
      case _ =>
    }
  }

  lemma NameInStream(b: seq<Byte>, o: nat, name: seq<Byte>)
    requires 0 !in name && o + Size(BeginNode(name)) <= |b|
    requires b[o..o + Size(BeginNode(name))] == TokBytes(BeginNode(name))
    ensures NameEnd(b, o + 4) == o + 4 + |name| < |b|
  {
    hide NameEnd, TokBytes;
    var s := TokBytes(BeginNode(name));
    NameBytes(name);
    assert forall k :: 0 <= k < |s| ==> b[o..o + |s|][k] == s[k];
    forall k | o + 4 <= k <= o + 4 + |name|
      ensures b[k] == s[k - o]
    {
      assert b[o..o + |s|][k - o] == b[k];
    }
    NameEndIs(b, o + 4, o + 4 + |name|);
  }

  lemma NameBytes(name: seq<Byte>)
    requires 0 !in name
    ensures var s := TokBytes(BeginNode(name));
            s[4 + |name|] == 0 && forall k :: 4 <= k < 4 + |name| ==> s[k] != 0
  {
    var s := TokBytes(BeginNode(name));
    forall k | 4 <= k < 4 + |name|
      ensures s[k] != 0
    {
      assert s[k] == name[k - 4];
    }
  }

  lemma NextAtEnd(toks: seq<Tok>)
    requires StreamOk(toks)
    ensures NextToken(Stream(toks), Off(toks, |toks|)) == (-1, None)
  {
  }

  // The words and the value of a property token, as found in the bytes.
  lemma PropInStream(toks: seq<Tok>, i: nat)
    requires StreamOk(toks) && i < |toks| && toks[i].Prop?
    ensures var b := Stream(toks); var o := Off(toks, i);
            && o + 12 + |toks[i].value| <= |b|
            && Rd32(b, o + 4) == |toks[i].value| && Rd32(b, o + 8) == toks[i].nameoff
            && b[o + 12..o + 12 + |toks[i].value|] == toks[i].value
  {
    hide Stream, Rd32, TokBytes, Off;
    TokenAt(toks, i);
    var b, o, t := Stream(toks), Off(toks, i), toks[i];
    TokenWords(t);
    Rd32Slice(b, o, Size(t), 4);
    Rd32Slice(b, o, Size(t), 8);
    PropBytes(t);
    SubSlice(b, o, Size(t), 12, 12 + |t.value|);
  }

  lemma PropBytes(t: Tok)
    requires TokOk(t) && t.Prop?
    ensures TokBytes(t)[12..12 + |t.value|] == t.value
  {
    var head := Be32(FDT_PROP) + Be32(|t.value|) + Be32(t.nameoff);
    assert TokBytes(t) == head + Padded(t.value);
  }
}

// Walking the flattened device tree by offsets (lib/fdt.c). Every walker runs
// on any bytes at all and stops, since offsets only grow; on the flattened form
// of a tree it agrees with the tree.
module FdtWalk {
  import opened Common
  import opened FdtTokens
  import opened FdtTree

  const FDT_ERR_NOTFOUND := -1
  const FDT_ERR_BADBLOB := -2
  const MAX_DEPTH := 32

  // `off` is the offset of token i of the stream the bytes encode.
  ghost predicate At(blob: seq<Byte>, toks: seq<Tok>, off: int, i: nat) {
    StreamOk(toks) && blob == Stream(toks) && i <= |toks| && off == Off(toks, i)
  }

  lemma Step(blob: seq<Byte>, toks: seq<Tok>, off: int, i: nat)
    requires At(blob, toks, off, i)
    ensures i < |toks| ==> At(blob, toks, NextToken(blob, off).0, i + 1) && NextToken(blob, off).1 == Some(Tag(toks[i]))
    ensures i < |toks| ==> NextToken(blob, off).0 >= 0
    ensures i == |toks| ==> NextToken(blob, off) == (-1, None)
  {
    hide NextToken, Stream;
    if i < |toks| {
      NextOnStream(toks, i);
    } else {
      NextAtEnd(toks);
    }
  }

  // The tag variable keeps its value when no tag could be read.
  function Tagged(t: Option<nat>, tag: nat): nat {
    if t.Some? then t.value else tag
  }

  // skip_props: just past the node's properties.
  method SkipProps(blob: seq<Byte>, node: int, ghost toks: seq<Tok>, ghost i: nat, ghost e: nat) returns (r: int,
      tag: nat)
    ensures At(blob, toks, node, i) && i < |toks| && StopsAt(toks, i + 1, e) ==> r == Off(toks, e) && tag == Tag(toks[e])
    ensures r >= -1
  {
    hide NextToken, Stream, Off;
    ghost var good := At(blob, toks, node, i) && i < |toks| && StopsAt(toks, i + 1, e);
    if good {
      Step(blob, toks, node, i);
    }
    var first := NextToken(blob, node);
    tag := Tagged(first.1, 0);
    var off := first.0;
    ghost var j: nat := i + 1;
    while off >= 0
      invariant off >= -1
      invariant good ==> off >= 0 && i < j <= e && At(blob, toks, off, j)
      decreases off >= 0, Left(blob, off)
    {
      if good {
        Step(blob, toks, off, j);
      }
      var n := NextToken(blob, off);
      tag := Tagged(n.1, tag);
      if tag != FDT_PROP && tag != FDT_NOP {
        return off, tag;
      }
      off := n.0;
      j := j + 1;
    }
    return -1, tag;
  }

  // A later offset, reached by reading a token at `node`.
  predicate Beyond(blob: seq<Byte>, node: int, r: int) {
    0 <= node < r && node + 4 <= |blob|
  }

  // skip_node: just past the node's END_NODE.
  method SkipNode(blob: seq<Byte>, node: int, ghost toks: seq<Tok>, ghost i: nat, ghost nd: Node) returns (r: int)
    ensures At(blob, toks, node, i) && Part(toks, i, Flat(nd)) ==> At(blob, toks, r, i + |Flat(nd)|)
    ensures r == -1 || Beyond(blob, node, r)
  {
    hide NextToken, Stream, Off, Flat, Part;
    ghost var good := At(blob, toks, node, i) && Part(toks, i, Flat(nd));
    var depth, off, tag := 0, node, 0;
    ghost var j: nat := i;
    if good {
      PartBound(toks, i, Flat(nd));
    }
    while off >= 0
      invariant off == -1 || off == node || Beyond(blob, node, off)
      invariant good ==> off >= 0 && i <= j < i + |Flat(nd)| <= |toks| && At(blob, toks, off, j)
      invariant good ==> depth == |Open(toks, j)| - |Open(toks, i)|
      decreases off >= 0, Left(blob, off)
    {
      if good {
        Step(blob, toks, off, j);
        DepthStep(toks, i, nd, j);
      }
      var n := NextToken(blob, off);
      tag := Tagged(n.1, tag);
      if tag == FDT_BEGIN_NODE {
        depth := depth + 1;
      } else if tag == FDT_END_NODE {
        depth := depth - 1;
        if depth == 0 {
          return n.0;
        }
      } else if tag == FDT_END {
        return -1;
      }
      off := n.0;
      j := j + 1;
    }
    return -1;
  }

  // Inside a node the count of open nodes comes back down exactly at its end.
  lemma DepthStep(toks: seq<Tok>, i: nat, nd: Node, j: nat)
    requires Part(toks, i, Flat(nd)) && i <= j < i + |Flat(nd)| <= |toks|
    ensures var d := |Open(toks, j + 1)| - |Open(toks, i)|;
            && (j + 1 == i + |Flat(nd)| ==> d == 0 && toks[j].EndNode?)
            && (j + 1 < i + |Flat(nd)| ==> d > 0 && !toks[j].End?)
            && d == |Open(toks, j)| - |Open(toks, i)| +
                    (if toks[j].BeginNode? then 1 else if toks[j].EndNode? then -1 else 0)
  {
    hide Part, Flat;
    OpenNode(toks, i, nd);
    NoEndInside(toks, i, nd, j);
    LastIsEnd(toks, i, nd);
    if j > i {
      InNode(toks, i, nd, j);
    }
    if j + 1 < i + |Flat(nd)| {
      InNode(toks, i, nd, j + 1);
    }
  }

  lemma LastIsEnd(toks: seq<Tok>, i: nat, nd: Node)
    requires Part(toks, i, Flat(nd))
    ensures i + |Flat(nd)| <= |toks| && toks[i + |Flat(nd)| - 1] == EndNode && toks[i] == BeginNode(nd.name)
  {
    NodeParts(toks, i, nd);
    hide Part;
    FirstOf(toks, KidsAt(i, nd) + |FlatKids(nd.kids)|, [EndNode]);
    PartBound(toks, KidsAt(i, nd) + |FlatKids(nd.kids)|, [EndNode]);
  }

  // The END token occurs in no node.
  lemma {:induction false} NoEndInside(toks: seq<Tok>, i: nat, nd: Node, j: nat)
    requires Part(toks, i, Flat(nd)) && i <= j < i + |Flat(nd)| <= |toks|
    ensures !toks[j].End?
    decreases nd
  {
    hide Part, FlatProps, FlatKids;
    NodeParts(toks, i, nd);
    LastIsEnd(toks, i, nd);
    var s := KidsAt(i, nd);
    if i < j < s {
      InProps(toks, i + 1, nd.props, j);
    } else if s <= j < s + |FlatKids(nd.kids)| {
      NoEndInKids(toks, s, nd.kids, j);
    }
  }

  lemma {:induction false} NoEndInKids(toks: seq<Tok>, s: nat, k: Kids, j: nat)
    requires Part(toks, s, FlatKids(k)) && s <= j < s + |FlatKids(k)| <= |toks|
    ensures !toks[j].End?
    decreases k
  {
    hide Part, Flat;
    KidParts(toks, s, k);
    var c := s + k.nops;
    if j < c {
      InNops(toks, s, k.nops, j);
    } else if k.MoreKids? {
      PartBound(toks, c, Flat(k.node));
      if j < c + |Flat(k.node)| {
        NoEndInside(toks, c, k.node, j);
      } else {
        NoEndInKids(toks, c + |Flat(k.node)|, k.rest, j);
      }
    }
  }

  // fdt_first_child
  method FirstChild(blob: seq<Byte>, node: int, ghost toks: seq<Tok>, ghost i: nat, ghost nd: Node) returns (r: int)
    ensures At(blob, toks, node, i) && Part(toks, i, Flat(nd)) ==>
              var kids := KidIndices(KidsAt(i, nd), nd.kids);
              if kids == [] then r == FDT_ERR_NOTFOUND else At(blob, toks, r, kids[0])
  {
    hide Stream, Off, Flat, Part, NextToken;
    ghost var e := 0;
    if At(blob, toks, node, i) && Part(toks, i, Flat(nd)) {
      LastIsEnd(toks, i, nd);
      e := AfterProps(toks, i, nd);
    }
    var off, tag := SkipProps(blob, node, toks, i, e);
    if off < 0 || tag != FDT_BEGIN_NODE {
      return FDT_ERR_NOTFOUND;
    }
    return off;
  }

  // fdt_next_sibling, for the m-th child of the node at i.
  method NextSibling(blob: seq<Byte>, node: int, ghost toks: seq<Tok>, ghost i: nat, ghost nd: Node,
      ghost m: nat) returns (r: int)
    ensures var kids := KidIndices(KidsAt(i, nd), nd.kids);
            Part(toks, i, Flat(nd)) && m < |kids| && At(blob, toks, node, kids[m]) ==>
              if m + 1 < |kids| then At(blob, toks, r, kids[m + 1]) else r == FDT_ERR_NOTFOUND
    ensures r == FDT_ERR_NOTFOUND || Beyond(blob, node, r)
  {
    hide Stream, Off, Flat, Part, NextToken, KidIndices, KidsAt;
    ghost var kids := KidIndices(KidsAt(i, nd), nd.kids);
    ghost var good := Part(toks, i, Flat(nd)) && m < |kids| && At(blob, toks, node, kids[m]);
    ghost var c, me, z, e := 0, nd, 0, 0;
    if good {
      c, me, z, e := SiblingRange(toks, i, nd, m);
    }
    var off := SkipNode(blob, node, toks, c, me);
    var tag := 0;
    ghost var j: nat := z;
    while off >= 0
      invariant off == -1 || Beyond(blob, node, off)
      invariant good ==> off >= 0 && z <= j <= e < |toks| && At(blob, toks, off, j)
      decreases off >= 0, Left(blob, off)
    {
      if good {
        Step(blob, toks, off, j);
      }
      var n := NextToken(blob, off);
      tag := Tagged(n.1, tag);
      if tag == FDT_BEGIN_NODE {
        return off;
      }
      if tag != FDT_NOP {
        return FDT_ERR_NOTFOUND;
      }
      off := n.0;
      j := j + 1;
    }
    return FDT_ERR_NOTFOUND;
  }

  // The m-th child, where it ends, and the next token that is not a NOP.
  lemma SiblingRange(toks: seq<Tok>, i: nat, nd: Node, m: nat) returns (c: nat, me: Node, z: nat, e: nat)
    requires Part(toks, i, Flat(nd)) && m < |KidIndices(KidsAt(i, nd), nd.kids)|
    ensures var kids := KidIndices(KidsAt(i, nd), nd.kids);
            && c == kids[m] && Part(toks, c, Flat(me)) && z == c + |Flat(me)| && z <= e < |toks| && NopsUntil(toks, z, e)
            && if m + 1 < |kids| then e == kids[m + 1] && toks[e].BeginNode? else toks[e] == EndNode
  {
    hide Part, Flat;
    NodeParts(toks, i, nd);
    var s := KidsAt(i, nd);
    var kids := KidIndices(s, nd.kids);
    KidAt(toks, s, nd.kids, m);
    c, me := kids[m], KidNode(nd.kids, m).value;
    z := c + |Flat(me)|;
    if m + 1 < |kids| {
      KidAt(toks, s, nd.kids, m + 1);
      e := kids[m + 1];
      LastIsEnd(toks, e, KidNode(nd.kids, m + 1).value);
    } else {
      e := s + |FlatKids(nd.kids)|;
      FirstOf(toks, e, [EndNode]);
    }
  }

  // Walking first_child and then next_sibling visits exactly the children: the
  // answers above chain through KidIndices, whose entries strictly grow.
  lemma {:induction false} KidsInOrder(s: nat, k: Kids, a: nat, b: nat)
    requires a < b < |KidIndices(s, k)|
    ensures s <= KidIndices(s, k)[a] < KidIndices(s, k)[b]
    decreases k
  {
    var z := s + k.nops + |Flat(k.node)|;
    if a > 0 {
      KidsInOrder(z, k.rest, a - 1, b - 1);
    } else {
      KidsFrom(z, k.rest, b - 1);
    }
  }

  lemma {:induction false} KidsFrom(s: nat, k: Kids, a: nat)
    requires a < |KidIndices(s, k)|
    ensures s <= KidIndices(s, k)[a]
    decreases k
  {
    if a > 0 {
      KidsFrom(s + k.nops + |Flat(k.node)|, k.rest, a - 1);
    }
  }

  // ---- parents ----

  // Ends match beginnings up to token c, and the stream does not end before it.
  ghost predicate Nested(toks: seq<Tok>, c: nat) {
    c <= |toks| && forall j :: 0 <= j < c ==> !toks[j].End? && (toks[j].EndNode? ==> Open(toks, j) != [])
  }

  // No node before token c is more than 32 levels deep.
  ghost predicate Shallow(toks: seq<Tok>, c: nat) {
    c <= |toks| && forall j :: 0 <= j < c && toks[j].BeginNode? ==> |Open(toks, j)| < 32
  }

  lemma OffInjective(toks: seq<Tok>, i: nat, j: nat)
    requires i <= |toks| && j <= |toks| && Off(toks, i) == Off(toks, j)
    ensures i == j
  {
    if i < j {
      OffGrows(toks, i, j);
    } else {
      OffGrows(toks, j, i);
    }
  }

  // fdt_parent of the node at token c. The answer is exact, including for trees
  // that are too deep for the stack.
  method Parent(blob: seq<Byte>, node: int, ghost toks: seq<Tok>, ghost c: nat) returns (r: int)
    requires At(blob, toks, node, c) && Nested(toks, c) && c < |toks| && toks[c].BeginNode?
    ensures !Shallow(toks, c) ==> r == FDT_ERR_BADBLOB
    ensures Shallow(toks, c) ==>
              var up := Open(toks, c);
              if up == [] then r == FDT_ERR_NOTFOUND else up[|up| - 1] <= |toks| && r == Off(toks, up[|up| - 1])
  {
    hide Stream, Off, NextToken;
    var stack := new int[MAX_DEPTH];
    var depth, off, tag := -1, 0, 0;
    ghost var j: nat := 0;
    assert Off(toks, 0) == 0 by { OffZero(toks); }
    while off >= 0
      invariant off >= 0 && j <= c && At(blob, toks, off, j) && Shallow(toks, j)
      invariant depth + 1 == |Open(toks, j)| <= MAX_DEPTH
      invariant forall k :: 0 <= k <= depth ==> Open(toks, j)[k] <= |toks| && stack[k] == Off(toks, Open(toks, j)[k])
      decreases off >= 0, Left(blob, off)
    {
      Step(blob, toks, off, j);
      var n := NextToken(blob, off);
      tag := Tagged(n.1, tag);
      if tag == FDT_BEGIN_NODE {
        if off == node {
          OffInjective(toks, j, c);
          return if depth >= 0 then stack[depth] else FDT_ERR_NOTFOUND;
        }
        depth := depth + 1;
        if depth >= MAX_DEPTH {
          return FDT_ERR_BADBLOB;
        }
        stack[depth] := off;
      } else if tag == FDT_END_NODE {
        depth := depth - 1;
      } else if tag == FDT_END {
        break;
      }
      off := n.0;
      j := j + 1;
    }
    return FDT_ERR_NOTFOUND;
  }

  lemma OffZero(toks: seq<Tok>)
    ensures Off(toks, 0) == 0
  {
  }

  // fdt_parent inverts first_child and next_sibling.
  lemma ParentOfKid(toks: seq<Tok>, i: nat, nd: Node, m: nat)
    requires Part(toks, i, Flat(nd)) && m < |KidIndices(KidsAt(i, nd), nd.kids)|
    ensures var c := KidIndices(KidsAt(i, nd), nd.kids)[m];
            c <= |toks| && Open(toks, c) == Open(toks, i) + [i]
  {
    hide Part, Flat, Open;
    NodeParts(toks, i, nd);
    OpenNode(toks, i, nd);
    KidAt(toks, KidsAt(i, nd), nd.kids, m);
    PartBound(toks, KidIndices(KidsAt(i, nd), nd.kids)[m], Flat(KidNode(nd.kids, m).value));
  }

  function Levels(nd: Node): nat {
    1 + KidLevels(nd.kids)
  }

  function KidLevels(k: Kids): nat {
    match k
    case NoKids(_) => 0
    case MoreKids(_, node, rest) => if Levels(node) > KidLevels(rest) then Levels(node) else KidLevels(rest)
  }

  lemma {:induction false} LevelsBound(toks: seq<Tok>, i: nat, nd: Node, j: nat)
    requires Part(toks, i, Flat(nd)) && i <= j < i + |Flat(nd)| <= |toks|
    ensures toks[j].BeginNode? ==> |Open(toks, j)| < |Open(toks, i)| + Levels(nd)
    ensures toks[j].EndNode? ==> Open(toks, j) != []
    decreases nd
  {
    hide Part, FlatProps, FlatKids;
    NodeParts(toks, i, nd);
    OpenNode(toks, i, nd);
    LastIsEnd(toks, i, nd);
    var s := KidsAt(i, nd);
    if i < j {
      InNode(toks, i, nd, j);
    }
    if i < j < s {
      InProps(toks, i + 1, nd.props, j);
    } else if s <= j < s + |FlatKids(nd.kids)| {
      KidLevelsBound(toks, s, nd.kids, j);
    }
  }

  lemma {:induction false} KidLevelsBound(toks: seq<Tok>, s: nat, k: Kids, j: nat)
    requires Part(toks, s, FlatKids(k)) && s <= j < s + |FlatKids(k)| <= |toks|
    ensures toks[j].BeginNode? ==> |Open(toks, j)| < |Open(toks, s)| + KidLevels(k)
    decreases k
  {
    hide Part, Flat;
    KidParts(toks, s, k);
    var c := s + k.nops;
    InNops(toks, s, k.nops, c);
    if j < c {
      InNops(toks, s, k.nops, j);
    } else if k.MoreKids? {
      PartBound(toks, c, Flat(k.node));
      OpenNode(toks, c, k.node);
      if j < c + |Flat(k.node)| {
        LevelsBound(toks, c, k.node, j);
      } else {
        KidLevelsBound(toks, c + |Flat(k.node)|, k.rest, j);
      }
    }
  }

  // In a document with at most 32 levels fdt_parent works for every node.
  lemma DocumentWalkable(before: nat, root: Node, after: nat, c: nat)
    requires c < before + |Flat(root)|
    ensures var toks := Document(before, root, after);
            && Part(toks, before, Flat(root)) && Open(toks, before) == []
            && Nested(toks, c) && (Levels(root) <= 32 ==> Shallow(toks, c))
  {
    hide Flat;
    var toks := Document(before, root, after);
    var rest := Nops(after) + [End];
    assert toks == Nops(before) + (Flat(root) + rest);
    assert Part(toks, 0, Nops(before)) && Part(toks, before, Flat(root));
    hide Part;
    InNops(toks, 0, before, before);
    forall j | 0 <= j < c
      ensures !toks[j].End? && (toks[j].EndNode? ==> Open(toks, j) != [])
      ensures toks[j].BeginNode? ==> |Open(toks, j)| < Levels(root)
    {
      if j < before {
        InNops(toks, 0, before, j);
      } else {
        LevelsBound(toks, before, root, j);
        NoEndInside(toks, before, root, j);
      }
    }
  }

  // ---- properties ----

  // The NUL-terminated string at `nameoff` of the strings block is `name`.
  predicate NameIs(strings: seq<Byte>, nameoff: nat, name: seq<Byte>) {
    && nameoff < |strings| && |name| < |strings| - nameoff
    && strings[nameoff..nameoff + |name|] == name && strings[nameoff + |name|] == 0
  }

  // It is the C string at that offset.
  lemma NameIsString(strings: seq<Byte>, nameoff: nat, name: seq<Byte>)
    requires 0 !in name
    ensures NameIs(strings, nameoff, name) <==>
            && nameoff < |strings| && NameEnd(strings, nameoff) < |strings|
            && strings[nameoff..NameEnd(strings, nameoff)] == name
  {
    hide NameEnd;
    if NameIs(strings, nameoff, name) {
      forall k | nameoff <= k < nameoff + |name|
        ensures strings[k] != 0
      {
        assert strings[nameoff..nameoff + |name|][k - nameoff] == name[k - nameoff];
      }
      NameEndIs(strings, nameoff, nameoff + |name|);
    }
  }

  // Token index of the node's first property of that name.
  ghost function FindProp(s: nat, p: Props, strings: seq<Byte>, name: seq<Byte>): Option<nat>
    decreases p
  {
    match p
    case NoProps => None
    case MoreProps(n, nameoff, _, rest) =>
      if NameIs(strings, nameoff, name) then Some(s + n) else FindProp(s + n + 1, rest, strings, name)
  }

  // The same, read off the tokens.
  ghost function Scan(toks: seq<Tok>, j: nat, strings: seq<Byte>, name: seq<Byte>): Option<nat>
    decreases |toks| - j
  {
    if j >= |toks| then None
    else match toks[j]
      case Prop(nameoff, _) => if NameIs(strings, nameoff, name) then Some(j) else Scan(toks, j + 1, strings, name)
      case Nop => Scan(toks, j + 1, strings, name)
      case _ => None
  }

  lemma {:induction false} ScanNops(toks: seq<Tok>, j: nat, n: nat, strings: seq<Byte>, name: seq<Byte>)
    requires Part(toks, j, Nops(n))
    ensures Scan(toks, j, strings, name) == Scan(toks, j + n, strings, name)
    decreases n
  {
    if n > 0 {
      FirstOf(toks, j, Nops(n));
      assert Nops(n) == [Nop] + Nops(n - 1);
      PartOf(toks, j, [Nop], Nops(n - 1));
      hide Part;
      ScanNops(toks, j + 1, n - 1, strings, name);
    }
  }

  lemma {:induction false} ScanFinds(toks: seq<Tok>, s: nat, p: Props, strings: seq<Byte>, name: seq<Byte>, k: Kids)
    requires Part(toks, s, FlatProps(p)) && Part(toks, s + |FlatProps(p)|, FlatKids(k))
    requires Part(toks, s + |FlatProps(p)| + |FlatKids(k)|, [EndNode])
    ensures Scan(toks, s, strings, name) == FindProp(s, p, strings, name)
    decreases p
  {
    hide Part, FlatKids, Flat, NameIs;
    if p.MoreProps? {
      PropParts(toks, s, p);
      ScanNops(toks, s, p.nops, strings, name);
      ScanFinds(toks, s + p.nops + 1, p.rest, strings, name, k);
    } else {
      KidParts(toks, s, k);
      ScanNops(toks, s, k.nops, strings, name);
      if k.MoreKids? {
        FirstOf(toks, s + k.nops, Flat(k.node));
      } else {
        NoKidsLength(k);
        FirstOf(toks, s + k.nops, [EndNode]);
      }
    }
  }

  lemma NoKidsLength(k: Kids)
    requires k.NoKids?
    ensures |FlatKids(k)| == k.nops
  {
  }

  // fdt_getprop: where the value of the first property of that name is, and
  // its length.
  method GetProp(blob: seq<Byte>, strings: seq<Byte>, node: int, name: seq<Byte>, ghost toks: seq<Tok>, ghost i: nat,
      ghost nd: Node)
    returns (r: Option<(int, int)>)
    ensures At(blob, toks, node, i) && Part(toks, i, Flat(nd)) ==>
              match FindProp(i + 1, nd.props, strings, name)
              case None => r == None
              case Some(k) =>
                && k < |toks| && toks[k].Prop? && NameIs(strings, toks[k].nameoff, name)
                && r == Some((Off(toks, k) + 12, |toks[k].value|))
                && Off(toks, k) + 12 + |toks[k].value| <= |blob|
                && blob[Off(toks, k) + 12..Off(toks, k) + 12 + |toks[k].value|] == toks[k].value
  {
    hide Stream, Off, NextToken, NameIs, Rd32, FindProp;
    ghost var good := At(blob, toks, node, i) && Part(toks, i, Flat(nd));
    if good {
      NodeParts(toks, i, nd);
      ScanFinds(toks, i + 1, nd.props, strings, name, nd.kids);
      PartBound(toks, i, Flat(nd));
      Step(blob, toks, node, i);
    }
    hide Part, Flat;
    ghost var want := FindProp(i + 1, nd.props, strings, name);
    if node < 0 {
      return None;
    }
    var off := NextToken(blob, node).0;
    ghost var j: nat := i + 1;
    while off >= 0
      invariant off >= -1
      invariant good ==> off >= 0 && At(blob, toks, off, j) && Scan(toks, j, strings, name) == want
      decreases off >= 0, Left(blob, off)
    {
      if good {
        Step(blob, toks, off, j);
      }
      var n := NextToken(blob, off);
      if n.0 < 0 {
        return None;
      }
      if n.1 == Some(FDT_PROP) {
        if good {
          PropInStream(toks, j);
        }
        var len, nameoff := Rd32(blob, off + 4), Rd32(blob, off + 8);
        if NameIs(strings, nameoff, name) {
          return Some((off + 12, len));
        }
      } else if n.1 != Some(FDT_NOP) {
        return None;
      }
      off := n.0;
      j := j + 1;
    }
    return None;
  }

  // fdt_root: the first token that is not a NOP begins the root.
  method Root(blob: seq<Byte>, ghost before: nat, ghost root: Node, ghost after: nat) returns (r: int)
    ensures StreamOk(Document(before, root, after)) && blob == Stream(Document(before, root, after)) ==>
              At(blob, Document(before, root, after), r, before)
  {
    hide Stream, Off, NextToken, Flat, Document;
    ghost var toks := Document(before, root, after);
    ghost var good := StreamOk(toks) && blob == Stream(toks);
    var off, tag := 0, 0;
    ghost var j: nat := 0;
    if good {
      OffZero(toks);
      RootToken(before, root, after);
    }
    while off >= 0
      invariant off >= -1
      invariant good ==> off >= 0 && j <= before < |toks| && At(blob, toks, off, j)
      decreases off >= 0, Left(blob, off)
    {
      if good {
        Step(blob, toks, off, j);
      }
      var n := NextToken(blob, off);
      tag := Tagged(n.1, tag);
      if tag == FDT_BEGIN_NODE {
        return off;
      }
      if tag != FDT_NOP {
        return FDT_ERR_BADBLOB;
      }
      off := n.0;
      j := j + 1;
    }
    return FDT_ERR_BADBLOB;
  }

  lemma RootToken(before: nat, root: Node, after: nat)
    ensures var toks := Document(before, root, after);
            before < |toks| && toks[before].BeginNode? && NopsUntil(toks, 0, before)
  {
  }
}

// Looking a node up by its absolute path (fdt_path_offset in lib/fdt.c).
module FdtPath {
  import opened Common
  import opened Bytes
  import opened FdtTokens
  import opened FdtTree
  import opened FdtWalk

  const SLASH: Byte := 47
  const UNIT_SIGN: Byte := 64

  // fdt_node_name
  function NodeName(blob: seq<Byte>, node: int): seq<Byte> {
    if node < 0 || node + 4 > |blob| then [] else blob[node + 4..NameEnd(blob, node + 4)]
  }

  lemma NameAt(blob: seq<Byte>, toks: seq<Tok>, off: int, i: nat)
    requires At(blob, toks, off, i) && i < |toks| && toks[i].BeginNode?
    ensures NodeName(blob, off) == toks[i].name
  {
    hide Stream, Off, NameEnd, TokBytes;
    var name := toks[i].name;
    TokenAt(toks, i);
    NameInStream(blob, off, name);
    NameSlice(name);
    SubSlice(blob, off, Size(toks[i]), 4, 4 + |name|);
  }

  lemma NameSlice(name: seq<Byte>)
    requires 0 !in name
    ensures TokBytes(BeginNode(name))[4..4 + |name|] == name
  {
    assert TokBytes(BeginNode(name)) == Be32(FDT_BEGIN_NODE) + Padded(name + [0]);
  }

  // A component names a node in full, or up to its unit address.
  predicate Matches(name: seq<Byte>, comp: seq<Byte>) {
    comp <= name && (|name| == |comp| || (name[|comp|] == UNIT_SIGN && UNIT_SIGN !in comp))
  }

  // The whole name, or all of it before its first '@' when the component has none.
  lemma MatchesExactly(name: seq<Byte>, comp: seq<Byte>)
    ensures Matches(name, comp) <==>
            name == comp || (UNIT_SIGN !in comp && |comp| < |name| && name == comp + [64] + name[|comp| + 1..])
    ensures Matches(name, comp) && name != comp ==> forall k :: 0 <= k < |comp| ==> name[k] != 64
  {
    if comp <= name && |comp| < |name| {
      assert name == name[..|comp|] + [name[|comp|]] + name[|comp| + 1..];
      assert name[..|comp|] == comp;
    }
    if name == comp + [64] + name[if |comp| < |name| then |comp| + 1 else 0..] {
      assert comp <= name;
    }
  }

  // ---- components ----

  // Up to the next slash.
  function CompLen(s: seq<Byte>): (n: nat)
    ensures n <= |s| && SLASH !in s[..n] && (n < |s| ==> s[n] == SLASH)
  {
    if s == [] || s[0] == SLASH then 0
    else
      var n := CompLen(s[1..]);
      assert s[..n + 1] == [s[0]] + s[1..][..n];
      n + 1
  }

  function SkipSlashes(s: seq<Byte>): (r: seq<Byte>)
    ensures |r| <= |s| && (r == [] || r[0] != SLASH)
    ensures Comps(r) == Comps(s)
  {
    if s != [] && s[0] == SLASH then SkipSlashes(s[1..]) else s
  }

  function Comps(s: seq<Byte>): seq<seq<Byte>>
    decreases |s|
  {
    if s == [] then []
    else if s[0] == SLASH then Comps(s[1..])
    else var n := CompLen(s); [s[..n]] + Comps(s[n..])
  }

  predicate Plain(name: seq<Byte>) {
    name != [] && SLASH !in name
  }

  function Segments(names: seq<seq<Byte>>): seq<Byte> {
    if names == [] then [] else [SLASH] + names[0] + Segments(names[1..])
  }

  function FullPath(names: seq<seq<Byte>>): seq<Byte> {
    if names == [] then [SLASH] else Segments(names)
  }

  lemma {:induction false} CompLenIs(a: seq<Byte>, b: seq<Byte>)
    requires SLASH !in a && (b == [] || b[0] == SLASH)
    ensures CompLen(a + b) == |a|
  {
    hide CompLen;
    var s, n := a + b, CompLen(a + b);
    assert forall k :: 0 <= k < |a| ==> s[k] == a[k] && a[k] in a;
    assert forall k :: 0 <= k < n ==> s[..n][k] == s[k];
    assert b != [] ==> s[|a|] == b[0];
  }

  // Splitting a path gives back the names it was made of.
  lemma {:induction false} CompsOfSegments(names: seq<seq<Byte>>)
    requires forall k :: 0 <= k < |names| ==> Plain(names[k])
    ensures Comps(Segments(names)) == names
  {
    if names != [] {
      hide CompLen, Comps;
      var a, b := names[0], Segments(names[1..]);
      CompsOfSegments(names[1..]);
      SegmentsStart(names[1..]);
      assert Segments(names) == [SLASH] + (a + b);
      CompsSkip(a + b);
      CompsFirst(a, b);
    } else {
      CompsEmpty();
    }
  }

  lemma SegmentsStart(names: seq<seq<Byte>>)
    ensures Segments(names) == [] || Segments(names)[0] == SLASH
  {
  }

  lemma CompsSkip(s: seq<Byte>)
    ensures Comps([SLASH] + s) == Comps(s)
  {
    assert ([SLASH] + s)[1..] == s;
  }

  // A plain name in front of a slash or the end is the first component.
  lemma CompsFirst(a: seq<Byte>, b: seq<Byte>)
    requires Plain(a) && (b == [] || b[0] == SLASH)
    ensures Comps(a + b) == [a] + Comps(b)
  {
    hide CompLen;
    CompLenIs(a, b);
    assert (a + b)[0] == a[0] && a[0] in a;
    assert (a + b)[..|a|] == a && (a + b)[|a|..] == b;
  }

  // ---- lookup in the tree ----

  // Child m of the node at token i, and its own token.
  ghost function Kid(i: nat, nd: Node, m: nat): (nat, Node)
    requires m < Count(nd.kids)
  {
    (KidIndices(KidsAt(i, nd), nd.kids)[m], KidNode(nd.kids, m).value)
  }

  // The first child from m on that the component matches.
  ghost function Find(i: nat, nd: Node, comp: seq<Byte>, m: nat): Option<(nat, Node)>
    decreases Count(nd.kids) - m
  {
    if m >= Count(nd.kids) then None
    else if Matches(Kid(i, nd, m).1.name, comp) then Some(Kid(i, nd, m))
    else Find(i, nd, comp, m + 1)
  }

  ghost function Resolve(i: nat, nd: Node, comps: seq<seq<Byte>>): Option<(nat, Node)>
    decreases |comps|
  {
    if comps == [] then Some((i, nd))
    else match Find(i, nd, comps[0], 0)
      case None => None
      case Some(x) => Resolve(x.0, x.1, comps[1..])
  }

  lemma KidPart(toks: seq<Tok>, i: nat, nd: Node, m: nat)
    requires Part(toks, i, Flat(nd)) && m < Count(nd.kids)
    ensures var x := Kid(i, nd, m);
            Part(toks, x.0, Flat(x.1)) && x.0 < |toks| && toks[x.0] == BeginNode(x.1.name)
  {
    hide Part, Flat;
    NodeParts(toks, i, nd);
    KidAt(toks, KidsAt(i, nd), nd.kids, m);
    NodeParts(toks, Kid(i, nd, m).0, Kid(i, nd, m).1);
  }

  // The inner loop of fdt_path_offset.
  method MatchingChild(blob: seq<Byte>, node: int, comp: seq<Byte>, ghost toks: seq<Tok>, ghost i: nat, ghost nd: Node)
    returns (child: int, ghost at: nat, ghost kid: Node)
    ensures At(blob, toks, node, i) && Part(toks, i, Flat(nd)) ==>
              match Find(i, nd, comp, 0)
              case None => child == FDT_ERR_NOTFOUND
              case Some(x) => x == (at, kid) && At(blob, toks, child, at) && Part(toks, at, Flat(kid))
  {
    hide Stream, Off, Flat, Part, NodeName, Matches, KidIndices, KidNode, KidsAt;
    ghost var good := At(blob, toks, node, i) && Part(toks, i, Flat(nd));
    child := FirstChild(blob, node, toks, i, nd);
    at, kid := 0, nd;
    ghost var m: nat := 0;
    while child >= 0
      invariant good ==> Find(i, nd, comp, 0) == Find(i, nd, comp, m) && m <= Count(nd.kids)
      invariant good ==>
                  if m < Count(nd.kids) then child >= 0 && At(blob, toks, child, Kid(i, nd, m).0)
                  else child == FDT_ERR_NOTFOUND
      decreases child >= 0, Left(blob, child)
    {
      var name := NodeName(blob, child);
      if good {
        KidPart(toks, i, nd, m);
        at, kid := Kid(i, nd, m).0, Kid(i, nd, m).1;
        NameAt(blob, toks, child, at);
      }
      if Matches(name, comp) {
        return;
      }
      child := NextSibling(blob, child, toks, i, nd, m);
      m := m + 1;
    }
  }

  // fdt_path_offset of an absolute path.
  method PathOffset(blob: seq<Byte>, path: seq<Byte>, ghost before: nat, ghost root: Node, ghost after: nat)
    returns (node: int)
    requires path != [] && path[0] == SLASH
    ensures StreamOk(Document(before, root, after)) && blob == Stream(Document(before, root, after)) ==>
              match Resolve(before, root, Comps(path))
              case None => node == FDT_ERR_NOTFOUND
              case Some(x) => At(blob, Document(before, root, after), node, x.0)
  {
    hide Stream, Off, Flat, Part, Document, Find, Comps, CompLen;
    ghost var toks := Document(before, root, after);
    ghost var good := StreamOk(toks) && blob == Stream(toks);
    node := Root(blob, before, root, after);
    var rest := SkipSlashes(path);
    ghost var i, nd := before, root;
    ghost var want := Resolve(before, root, Comps(path));
    RootPart(before, root, after);
    while rest != [] && node >= 0
      invariant rest == [] || rest[0] != SLASH
      invariant good ==> Reaches(blob, toks, node, i, nd, Comps(rest), want)
      decreases |rest|
    {
      var len := CompLen(rest);
      CompsStep(rest);
      node, i, nd := MatchingChild(blob, node, rest[..len], toks, i, nd);
      rest := SkipSlashes(rest[len..]);
    }
    assert rest == [] ==> Comps(rest) == [] by { CompsEmpty(); }
  }

  // The rest of the path leads from the node to `want`, or the lookup failed.
  ghost predicate Reaches(blob: seq<Byte>, toks: seq<Tok>, node: int, i: nat, nd: Node, comps: seq<seq<Byte>>,
      want: Option<(nat, Node)>)
  {
    if node >= 0 then At(blob, toks, node, i) && Part(toks, i, Flat(nd)) && want == Resolve(i, nd, comps)
    else node == FDT_ERR_NOTFOUND && want == None
  }

  lemma CompsEmpty()
    ensures Comps([]) == []
  {
  }

  lemma CompsStep(s: seq<Byte>)
    requires s != [] && s[0] != SLASH
    ensures CompLen(s) > 0 && Comps(s) == [s[..CompLen(s)]] + Comps(s[CompLen(s)..])
  {
  }

  lemma RootPart(before: nat, root: Node, after: nat)
    ensures Part(Document(before, root, after), before, Flat(root))
  {
    hide Flat;
    assert Document(before, root, after) == Nops(before) + Flat(root) + (Nops(after) + [End]);
  }

  // ---- every node by its own path ----

  // The node reached by child positions.
  ghost function Descend(i: nat, nd: Node, addr: seq<nat>): Option<(nat, Node)>
    decreases |addr|
  {
    if addr == [] then Some((i, nd))
    else if addr[0] >= Count(nd.kids) then None
    else Descend(Kid(i, nd, addr[0]).0, Kid(i, nd, addr[0]).1, addr[1..])
  }

  ghost predicate IsNode(nd: Node, addr: seq<nat>)
    decreases |addr|
  {
    addr == [] || (addr[0] < Count(nd.kids) && IsNode(KidNode(nd.kids, addr[0]).value, addr[1..]))
  }

  ghost function Names(nd: Node, addr: seq<nat>): seq<seq<Byte>>
    requires IsNode(nd, addr)
    decreases |addr|
  {
    if addr == [] then []
    else var kid := KidNode(nd.kids, addr[0]).value; [kid.name] + Names(kid, addr[1..])
  }

  // No earlier sibling answers to the name of child m.
  ghost predicate FirstOfItsName(nd: Node, m: nat)
    requires m < Count(nd.kids)
  {
    forall e :: 0 <= e < m ==> !Matches(KidNode(nd.kids, e).value.name, KidNode(nd.kids, m).value.name)
  }

  ghost predicate Clear(nd: Node, addr: seq<nat>)
    requires IsNode(nd, addr)
    decreases |addr|
  {
    addr == [] || (FirstOfItsName(nd, addr[0]) && Clear(KidNode(nd.kids, addr[0]).value, addr[1..]))
  }

  // Children lie inside their parent, one after the other.
  lemma {:induction false} KidsApart(s: nat, k: Kids, a: nat, b: nat)
    requires a < b <= Count(k)
    ensures s <= KidIndices(s, k)[a]
    ensures KidIndices(s, k)[a] + |Flat(KidNode(k, a).value)| <=
            (if b < Count(k) then KidIndices(s, k)[b] else s + |FlatKids(k)|)
    decreases k
  {
    hide Flat;
    var z := s + k.nops + |Flat(k.node)|;
    if a > 0 {
      KidsApart(z, k.rest, a - 1, b - 1);
    } else if b < Count(k) {
      KidsFrom(z, k.rest, b - 1);
    }
  }

  lemma KidInside(i: nat, nd: Node, m: nat)
    requires m < Count(nd.kids)
    ensures var x := Kid(i, nd, m); i < x.0 && x.0 + |Flat(x.1)| <= i + |Flat(nd)|
  {
    KidsApart(KidsAt(i, nd), nd.kids, m, Count(nd.kids));
    hide FlatKids, FlatProps;
  }

  lemma {:induction false} FindIs(i: nat, nd: Node, comp: seq<Byte>, m: nat) returns (f: nat)
    requires m <= Count(nd.kids)
    ensures m <= f <= Count(nd.kids)
    ensures forall e :: m <= e < f ==> !Matches(KidNode(nd.kids, e).value.name, comp)
    ensures if f == Count(nd.kids) then Find(i, nd, comp, m) == None
            else Matches(KidNode(nd.kids, f).value.name, comp) && Find(i, nd, comp, m) == Some(Kid(i, nd, f))
    decreases Count(nd.kids) - m
  {
    hide Matches;
    f := m;
    if m < Count(nd.kids) && !Matches(KidNode(nd.kids, m).value.name, comp) {
      f := FindIs(i, nd, comp, m + 1);
    }
  }

  lemma {:induction false} ResolveInside(i: nat, nd: Node, comps: seq<seq<Byte>>)
    ensures var r := Resolve(i, nd, comps); r.Some? ==> i <= r.value.0 < i + |Flat(nd)|
    decreases |comps|
  {
    hide Flat;
    if comps != [] {
      var f := FindIs(i, nd, comps[0], 0);
      hide Find;
      if f < Count(nd.kids) {
        KidInside(i, nd, f);
        ResolveInside(Kid(i, nd, f).0, Kid(i, nd, f).1, comps[1..]);
      }
    }
  }

  lemma {:induction false} DescendInside(i: nat, nd: Node, addr: seq<nat>)
    requires IsNode(nd, addr)
    ensures var r := Descend(i, nd, addr); r.Some? && i <= r.value.0 < i + |Flat(nd)|
    decreases |addr|
  {
    hide Flat;
    if addr != [] {
      KidInside(i, nd, addr[0]);
      DescendInside(Kid(i, nd, addr[0]).0, Kid(i, nd, addr[0]).1, addr[1..]);
    }
  }

  // A node is found under its own names exactly when, on the way down, no
  // earlier sibling answers to the name.
  lemma {:induction false} NamesResolve(i: nat, nd: Node, addr: seq<nat>)
    requires IsNode(nd, addr)
    ensures Resolve(i, nd, Names(nd, addr)) == Descend(i, nd, addr) <==> Clear(nd, addr)
    decreases |addr|
  {
    hide Flat, Find;
    if addr != [] {
      var m, names := addr[0], Names(nd, addr);
      var kid, rest := Kid(i, nd, m), Names(Kid(i, nd, m).1, addr[1..]);
      assert names[0] == kid.1.name && names[1..] == rest;
      var f := FindIs(i, nd, names[0], 0);
      assert Matches(kid.1.name, names[0]);
      assert f <= m;
      NamesResolve(kid.0, kid.1, addr[1..]);
      if f < m {
        var other := Kid(i, nd, f);
        KidsApart(KidsAt(i, nd), nd.kids, f, m);
        ResolveInside(other.0, other.1, rest);
        DescendInside(kid.0, kid.1, addr[1..]);
      }
    }
  }

  // fdt_path_offset on the full path of a node.
  lemma PathResolves(i: nat, nd: Node, addr: seq<nat>)
    requires IsNode(nd, addr) && forall k :: 0 <= k < |Names(nd, addr)| ==> Plain(Names(nd, addr)[k])
    ensures Resolve(i, nd, Comps(FullPath(Names(nd, addr)))) == Descend(i, nd, addr) <==> Clear(nd, addr)
  {
    var names := Names(nd, addr);
    hide Names, Resolve, Descend, Clear, Segments;
    if names == [] {
      assert Comps([SLASH]) == [];
    } else {
      CompsOfSegments(names);
    }
    NamesResolve(i, nd, addr);
  }

  // A node with a unit address hides a later one with the bare name.
  lemma ShadowedByUnit(base: seq<Byte>, unit: seq<Byte>)
    requires Plain(base) && UNIT_SIGN !in base
    ensures var leaf := (name: seq<Byte>) => Node(name, NoProps, NoKids(0));
            var nd := Node([], NoProps, MoreKids(0, leaf(base + [UNIT_SIGN] + unit), MoreKids(0, leaf(base), NoKids(0))));
            && IsNode(nd, [1]) && Names(nd, [1]) == [base] && !Clear(nd, [1])
            && Resolve(0, nd, [base]) != Descend(0, nd, [1])
  {
    var leaf := (name: seq<Byte>) => Node(name, NoProps, NoKids(0));
    var first, second := leaf(base + [UNIT_SIGN] + unit), leaf(base);
    var kids := MoreKids(0, first, MoreKids(0, second, NoKids(0)));
    var nd := Node([], NoProps, kids);
    assert KidNode(kids, 0) == Some(first) && KidNode(kids, 1) == Some(second);
    assert Matches(first.name, base);
    assert [1][1..] == [];
    NamesResolve(0, nd, [1]);
  }
}

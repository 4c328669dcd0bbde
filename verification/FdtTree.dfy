// Device trees and their flattened form, with NOP tokens anywhere between the
// others.
module FdtTree {
  import opened Common
  import opened FdtTokens

  // Each list cell carries the NOPs in front of it; the empty cell those at
  // the end.
  datatype Node = Node(name: seq<Byte>, props: Props, kids: Kids)
  datatype Props = NoProps | MoreProps(nops: nat, nameoff: nat, value: seq<Byte>, rest: Props)
  datatype Kids = NoKids(nops: nat) | MoreKids(nops: nat, node: Node, rest: Kids)

  function Nops(n: nat): (s: seq<Tok>)
    ensures |s| == n && forall i :: 0 <= i < n ==> s[i] == Nop
  {
    seq(n, _ => Nop)
  }

  function FlatProps(p: Props): seq<Tok> {
    match p
    case NoProps => []
    case MoreProps(n, nameoff, value, rest) => Nops(n) + [Prop(nameoff, value)] + FlatProps(rest)
  }

  function Flat(nd: Node): (s: seq<Tok>)
    ensures |s| >= 2 && s[0] == BeginNode(nd.name)
  {
    [BeginNode(nd.name)] + FlatProps(nd.props) + FlatKids(nd.kids) + [EndNode]
  }

  function FlatKids(k: Kids): seq<Tok> {
    match k
    case NoKids(n) => Nops(n)
    case MoreKids(n, node, rest) => Nops(n) + Flat(node) + FlatKids(rest)
  }

  // The structure block of a whole tree.
  function Document(before: nat, root: Node, after: nat): seq<Tok> {
    Nops(before) + Flat(root) + Nops(after) + [End]
  }

  ghost predicate Part(toks: seq<Tok>, i: nat, s: seq<Tok>) {
    i + |s| <= |toks| && toks[i..i + |s|] == s
  }

  lemma PartOf(toks: seq<Tok>, i: nat, a: seq<Tok>, b: seq<Tok>)
    requires Part(toks, i, a + b)
    ensures Part(toks, i, a) && Part(toks, i + |a|, b)
  {
    var s := a + b;
    assert s[..|a|] == a && s[|a|..] == b;
    assert toks[i..i + |a|] == toks[i..i + |s|][..|a|];
    assert toks[i + |a|..i + |s|] == toks[i..i + |s|][|a|..];
  }

  lemma FirstOf(toks: seq<Tok>, i: nat, s: seq<Tok>)
    requires Part(toks, i, s) && s != []
    ensures i < |toks| && toks[i] == s[0]
  {
    assert toks[i..i + |s|][0] == toks[i];
  }

  // Where the pieces of a node are.
  lemma NodeParts(toks: seq<Tok>, i: nat, nd: Node)
    requires Part(toks, i, Flat(nd))
    ensures i < |toks| && toks[i] == BeginNode(nd.name)
    ensures Part(toks, i + 1, FlatProps(nd.props))
    ensures Part(toks, KidsAt(i, nd), FlatKids(nd.kids))
    ensures Part(toks, KidsAt(i, nd) + |FlatKids(nd.kids)|, [EndNode])
  {
    hide Part, FlatProps, FlatKids;
    var p, k := FlatProps(nd.props), FlatKids(nd.kids);
    var h, rest := [BeginNode(nd.name)], p + (k + [EndNode]);
    assert Flat(nd) == h + rest;
    PartOf(toks, i, h, rest);
    FirstOf(toks, i, h);
    PartOf(toks, i + |h|, p, k + [EndNode]);
    PartOf(toks, i + |h| + |p|, k, [EndNode]);
  }

  // Token index where the children of the node at i start, NOPs included.
  function KidsAt(i: nat, nd: Node): nat {
    i + 1 + |FlatProps(nd.props)|
  }

  lemma KidParts(toks: seq<Tok>, s: nat, k: Kids)
    requires Part(toks, s, FlatKids(k))
    ensures k.NoKids? ==> Part(toks, s, Nops(k.nops))
    ensures k.MoreKids? ==>
              && Part(toks, s, Nops(k.nops)) && Part(toks, s + k.nops, Flat(k.node))
              && Part(toks, s + k.nops + |Flat(k.node)|, FlatKids(k.rest))
  {
    hide Part, Flat;
    if k.MoreKids? {
      var a, b, c := Nops(k.nops), Flat(k.node), FlatKids(k.rest);
      assert FlatKids(k) == a + (b + c);
      PartOf(toks, s, a, b + c);
      PartOf(toks, s + |a|, b, c);
    }
  }

  lemma PropParts(toks: seq<Tok>, s: nat, p: Props)
    requires Part(toks, s, FlatProps(p)) && p.MoreProps?
    ensures Part(toks, s, Nops(p.nops))
    ensures s + p.nops < |toks| && toks[s + p.nops] == Prop(p.nameoff, p.value)
    ensures Part(toks, s + p.nops + 1, FlatProps(p.rest))
  {
    var a, b, c := Nops(p.nops), [Prop(p.nameoff, p.value)], FlatProps(p.rest);
    assert FlatProps(p) == a + (b + c);
    PartOf(toks, s, a, b + c);
    PartOf(toks, s + |a|, b, c);
    FirstOf(toks, s + |a|, b);
  }

  // ---- which nodes are open ----

  // The indices of the nodes open before token i, outermost first.
  ghost function Open(toks: seq<Tok>, i: nat): seq<nat>
    requires i <= |toks|
  {
    if i == 0 then [] else
      var st, t := Open(toks, i - 1), toks[i - 1];
      if t.BeginNode? then st + [i - 1]
      else if t.EndNode? && st != [] then st[..|st| - 1] else st
  }

  lemma {:induction false} OpenNops(toks: seq<Tok>, i: nat, n: nat, k: nat)
    requires Part(toks, i, Nops(n)) && k <= n
    ensures Open(toks, i + k) == Open(toks, i)
  {
    if k > 0 {
      OpenNops(toks, i, n, k - 1);
      assert toks[i..i + n][k - 1] == Nop;
    }
  }

  lemma {:induction false} OpenProps(toks: seq<Tok>, i: nat, p: Props)
    requires Part(toks, i, FlatProps(p))
    ensures Open(toks, i + |FlatProps(p)|) == Open(toks, i)
    decreases p
  {
    hide Part;
    if p.MoreProps? {
      PropParts(toks, i, p);
      OpenNops(toks, i, p.nops, p.nops);
      OpenProps(toks, i + p.nops + 1, p.rest);
    }
  }

  // A whole node leaves nothing open.
  lemma {:induction false} OpenNode(toks: seq<Tok>, i: nat, nd: Node)
    requires Part(toks, i, Flat(nd))
    ensures Open(toks, KidsAt(i, nd)) == Open(toks, i) + [i]
    ensures Open(toks, i + |Flat(nd)|) == Open(toks, i)
    decreases nd
  {
    hide Part, FlatProps, FlatKids;
    NodeParts(toks, i, nd);
    var s := KidsAt(i, nd);
    assert Open(toks, i + 1) == Open(toks, i) + [i];
    OpenProps(toks, i + 1, nd.props);
    OpenKids(toks, s, nd.kids);
    var e := s + |FlatKids(nd.kids)|;
    FirstOf(toks, e, [EndNode]);
    assert i + |Flat(nd)| == e + 1;
  }

  lemma {:induction false} OpenKids(toks: seq<Tok>, s: nat, k: Kids)
    requires Part(toks, s, FlatKids(k))
    ensures Open(toks, s + |FlatKids(k)|) == Open(toks, s)
    decreases k
  {
    hide Part, Flat;
    KidParts(toks, s, k);
    OpenNops(toks, s, k.nops, k.nops);
    if k.MoreKids? {
      OpenNode(toks, s + k.nops, k.node);
      OpenKids(toks, s + k.nops + |Flat(k.node)|, k.rest);
    }
  }

  lemma {:induction false} InProps(toks: seq<Tok>, i: nat, p: Props, j: nat)
    requires Part(toks, i, FlatProps(p)) && i <= j <= i + |FlatProps(p)|
    ensures Open(toks, j) == Open(toks, i)
    ensures j < i + |FlatProps(p)| ==> toks[j].Prop? || toks[j].Nop?
    decreases p
  {
    hide Part;
    if p.MoreProps? {
      PropParts(toks, i, p);
      if j <= i + p.nops {
        InNops(toks, i, p.nops, j);
      } else {
        InNops(toks, i, p.nops, i + p.nops);
        InProps(toks, i + p.nops + 1, p.rest, j);
      }
    } else {
      PartBound(toks, i, []);
    }
  }

  lemma PartBound(toks: seq<Tok>, i: nat, s: seq<Tok>)
    requires Part(toks, i, s)
    ensures i + |s| <= |toks|
  {
  }

  lemma InNops(toks: seq<Tok>, i: nat, n: nat, j: nat)
    requires Part(toks, i, Nops(n)) && i <= j <= i + n
    ensures j <= |toks| && Open(toks, j) == Open(toks, i)
    ensures j < i + n ==> toks[j] == Nop
  {
    hide Open;
    OpenNops(toks, i, n, j - i);
    if j < i + n {
      assert toks[i..i + n][j - i] == toks[j];
    }
  }

  // Inside a node it, and everything open around it, stays open.
  lemma {:induction false} InNode(toks: seq<Tok>, i: nat, nd: Node, j: nat)
    requires Part(toks, i, Flat(nd)) && i < j < i + |Flat(nd)|
    ensures j <= |toks| && Open(toks, i) + [i] <= Open(toks, j)
    decreases nd
  {
    hide Part, FlatProps, FlatKids;
    PartBound(toks, i, Flat(nd));
    NodeParts(toks, i, nd);
    OpenNode(toks, i, nd);
    var s := KidsAt(i, nd);
    InProps(toks, i + 1, nd.props, s);
    if j <= s {
      InProps(toks, i + 1, nd.props, j);
    } else {
      InKids(toks, s, nd.kids, j);
    }
  }

  lemma {:induction false} InKids(toks: seq<Tok>, s: nat, k: Kids, j: nat)
    requires Part(toks, s, FlatKids(k)) && s <= j <= s + |FlatKids(k)|
    ensures j <= |toks| && Open(toks, s) <= Open(toks, j)
    decreases k
  {
    hide Part, Flat;
    KidParts(toks, s, k);
    if j <= s + k.nops {
      InNops(toks, s, k.nops, j);
    } else {
      InNops(toks, s, k.nops, s + k.nops);
      var c := s + k.nops;
      OpenNode(toks, c, k.node);
      if j < c + |Flat(k.node)| {
        InNode(toks, c, k.node, j);
      } else {
        InKids(toks, c + |Flat(k.node)|, k.rest, j);
      }
    }
  }

  // ---- children ----

  function Count(k: Kids): nat {
    match k
    case NoKids(_) => 0
    case MoreKids(_, _, rest) => 1 + Count(rest)
  }

  // Token indices of the children of a list starting at s, in order.
  ghost function KidIndices(s: nat, k: Kids): (r: seq<nat>)
    ensures |r| == Count(k)
    decreases k
  {
    match k
    case NoKids(_) => []
    case MoreKids(n, node, rest) => [s + n] + KidIndices(s + n + |Flat(node)|, rest)
  }

  // The m-th child.
  function KidNode(k: Kids, m: nat): (r: Option<Node>)
    ensures r.Some? <==> m < Count(k)
    decreases k
  {
    match k
    case NoKids(_) => None
    case MoreKids(_, node, rest) => if m == 0 then Some(node) else KidNode(rest, m - 1)
  }

  // The first token from j on that is neither a property nor a NOP.
  ghost predicate StopsAt(toks: seq<Tok>, j: nat, e: nat) {
    && j <= e < |toks| && !toks[e].Prop? && !toks[e].Nop?
    && forall x :: j <= x < e ==> toks[x].Prop? || toks[x].Nop?
  }

  // What follows the properties: the first child, or the end of the node.
  lemma AfterProps(toks: seq<Tok>, i: nat, nd: Node) returns (e: nat)
    requires Part(toks, i, Flat(nd))
    ensures StopsAt(toks, i + 1, e)
    ensures match nd.kids
            case NoKids(_) => toks[e] == EndNode
            case MoreKids(_, _, _) => toks[e].BeginNode? && KidIndices(KidsAt(i, nd), nd.kids)[0] == e
  {
    hide Part, FlatProps;
    NodeParts(toks, i, nd);
    var s := KidsAt(i, nd);
    KidParts(toks, s, nd.kids);
    e := s + nd.kids.nops;
    PartBound(toks, s, Nops(nd.kids.nops));
    forall x | i + 1 <= x < e
      ensures toks[x].Prop? || toks[x].Nop?
    {
      if x < s {
        InProps(toks, i + 1, nd.props, x);
      } else {
        InNops(toks, s, nd.kids.nops, x);
      }
    }
    if nd.kids.NoKids? {
      FirstOf(toks, e, [EndNode]);
    } else {
      FirstOf(toks, e, Flat(nd.kids.node));
    }
  }

  // Every child is a node of the stream, directly inside its parent, and what
  // follows it is the next child or the end of the list.
  lemma {:induction false} KidAt(toks: seq<Tok>, s: nat, k: Kids, m: nat)
    requires Part(toks, s, FlatKids(k)) && m < |KidIndices(s, k)|
    ensures var c := KidIndices(s, k)[m];
            && KidNode(k, m).Some? && Part(toks, c, Flat(KidNode(k, m).value))
            && Open(toks, c) == Open(toks, s)
            && var z := c + |Flat(KidNode(k, m).value)|;
               if m + 1 < |KidIndices(s, k)| then NopsUntil(toks, z, KidIndices(s, k)[m + 1])
               else NopsUntil(toks, z, s + |FlatKids(k)|)
    decreases k
  {
    hide Part, Flat;
    KidParts(toks, s, k);
    var c := s + k.nops;
    InNops(toks, s, k.nops, c);
    OpenNode(toks, c, k.node);
    var z := c + |Flat(k.node)|;
    if m > 0 {
      KidAt(toks, z, k.rest, m - 1);
    } else {
      KidParts(toks, z, k.rest);
      AllNops(toks, z, k.rest.nops);
    }
  }

  ghost predicate NopsUntil(toks: seq<Tok>, z: nat, e: nat) {
    z <= e <= |toks| && forall x :: z <= x < e ==> toks[x] == Nop
  }

  lemma AllNops(toks: seq<Tok>, z: nat, n: nat)
    requires Part(toks, z, Nops(n))
    ensures NopsUntil(toks, z, z + n)
  {
    forall x | z <= x < z + n
      ensures toks[x] == Nop
    {
      assert toks[z..z + n][x - z] == toks[x];
    }
  }
}

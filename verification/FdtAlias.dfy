// Aliases in fdt_path_offset (lib/fdt.c): a path that does not start with a
// slash names a property of /aliases, whose value is a path again.
module FdtAlias {
  import opened Common
  import opened Bytes
  import opened FdtTokens
  import opened FdtTree
  import opened FdtWalk
  import opened FdtPath

  // The first property of that name.
  ghost function PropOf(p: Props, strings: seq<Byte>, name: seq<Byte>): Option<seq<Byte>> {
    match p
    case NoProps => None
    case MoreProps(_, nameoff, value, rest) =>
      if NameIs(strings, nameoff, name) then Some(value) else PropOf(rest, strings, name)
  }

  lemma {:induction false} FindPropIs(toks: seq<Tok>, s: nat, p: Props, strings: seq<Byte>, name: seq<Byte>)
    requires Part(toks, s, FlatProps(p))
    ensures match FindProp(s, p, strings, name)
            case None => PropOf(p, strings, name) == None
            case Some(k) => k < |toks| && toks[k].Prop? && PropOf(p, strings, name) == Some(toks[k].value)
    decreases p
  {
    hide Part, NameIs;
    if p.MoreProps? {
      PropParts(toks, s, p);
      FindPropIs(toks, s + p.nops + 1, p.rest, strings, name);
    }
  }

  // A C string: the bytes before the first NUL.
  function CString(v: seq<Byte>): seq<Byte> {
    v[..NameEnd(v, 0)]
  }

  const ALIASES: seq<Byte> := [47, 97, 108, 105, 97, 115, 101, 115]

  // What the alias node says about a name, if it is a string.
  ghost function AliasOf(root: Node, strings: seq<Byte>, name: seq<Byte>): Option<seq<Byte>> {
    match Resolve(0, root, Comps(ALIASES))
    case None => None
    case Some(x) =>
      match PropOf(x.1.props, strings, name)
      case None => None
      case Some(v) => if v == [] || v[|v| - 1] != 0 then None else Some(CString(v))
  }

  predicate Absolute(path: seq<Byte>) {
    path != [] && path[0] == SLASH
  }

  // After at most n aliases the path is absolute or leads nowhere.
  ghost predicate Ends(root: Node, strings: seq<Byte>, path: seq<Byte>, n: nat)
    decreases n
  {
    || Absolute(path)
    || (n > 0 && (AliasOf(root, strings, path).Some? ==> Ends(root, strings, AliasOf(root, strings, path).value, n - 1)))
  }

  // The absolute path at the end of the aliases.
  ghost function Expanded(root: Node, strings: seq<Byte>, path: seq<Byte>, n: nat): Option<seq<Byte>>
    requires Ends(root, strings, path, n)
    decreases n
  {
    if Absolute(path) then Some(path)
    else match AliasOf(root, strings, path)
      case None => None
      case Some(p) => Expanded(root, strings, p, n - 1)
  }

  // ---- when the aliases come to an end ----

  // How many properties the alias node has.
  ghost function AliasCount(root: Node): nat {
    PropCount(AliasProps(root))
  }

  ghost function AliasProps(root: Node): Props {
    match Resolve(0, root, Comps(ALIASES))
    case None => NoProps
    case Some(x) => x.1.props
  }

  function PropCount(p: Props): nat {
    if p.NoProps? then 0 else 1 + PropCount(p.rest)
  }

  // Which property answers to the name; the count if none does.
  function PropIndex(p: Props, strings: seq<Byte>, name: seq<Byte>): (k: nat)
    ensures k <= PropCount(p)
  {
    if p.NoProps? || NameIs(strings, p.nameoff, name) then 0 else 1 + PropIndex(p.rest, strings, name)
  }

  function ValueAt(p: Props, k: nat): Option<seq<Byte>> {
    if p.NoProps? then None else if k == 0 then Some(p.value) else ValueAt(p.rest, k - 1)
  }

  lemma {:induction false} PropOfIndex(p: Props, strings: seq<Byte>, name: seq<Byte>)
    ensures PropOf(p, strings, name) == ValueAt(p, PropIndex(p, strings, name))
    ensures PropOf(p, strings, name).Some? <==> PropIndex(p, strings, name) < PropCount(p)
    decreases p
  {
    hide NameIs;
    if p.MoreProps? {
      PropOfIndex(p.rest, strings, name);
    }
  }

  // The property that decides about a name.
  ghost function Decider(root: Node, strings: seq<Byte>, name: seq<Byte>): nat {
    PropIndex(AliasProps(root), strings, name)
  }

  // Names with the same property have the same alias.
  lemma SameDecider(root: Node, strings: seq<Byte>, a: seq<Byte>, b: seq<Byte>)
    requires Decider(root, strings, a) == Decider(root, strings, b)
    ensures AliasOf(root, strings, a) == AliasOf(root, strings, b)
  {
    hide Resolve, Comps, PropOf, PropIndex, ValueAt;
    PropOfIndex(AliasProps(root), strings, a);
    PropOfIndex(AliasProps(root), strings, b);
  }

  lemma DeciderBound(root: Node, strings: seq<Byte>, name: seq<Byte>)
    requires AliasOf(root, strings, name).Some?
    ensures Decider(root, strings, name) < AliasCount(root)
  {
    hide Resolve, Comps, PropOf, PropIndex, ValueAt;
    PropOfIndex(AliasProps(root), strings, name);
  }

  // The next path, if there is an alias to follow.
  ghost function Next(root: Node, strings: seq<Byte>, path: seq<Byte>): Option<seq<Byte>> {
    if Absolute(path) then None else AliasOf(root, strings, path)
  }

  // How many aliases are followed.
  ghost function Length(root: Node, strings: seq<Byte>, path: seq<Byte>, n: nat): nat
    requires Ends(root, strings, path, n)
    decreases n
  {
    match Next(root, strings, path)
    case None => 0
    case Some(p) => 1 + Length(root, strings, p, n - 1)
  }

  // The properties they are taken from.
  ghost function Used(root: Node, strings: seq<Byte>, path: seq<Byte>, n: nat): set<nat>
    requires Ends(root, strings, path, n)
    decreases n
  {
    match Next(root, strings, path)
    case None => {}
    case Some(p) => {Decider(root, strings, path)} + Used(root, strings, p, n - 1)
  }

  lemma {:induction false} LengthSame(root: Node, strings: seq<Byte>, path: seq<Byte>, m: nat, n: nat)
    requires Ends(root, strings, path, m) && Ends(root, strings, path, n)
    ensures Length(root, strings, path, m) == Length(root, strings, path, n)
    ensures Expanded(root, strings, path, m) == Expanded(root, strings, path, n)
    decreases m
  {
    hide AliasOf;
    var p := Next(root, strings, path);
    if p.Some? {
      LengthSame(root, strings, p.value, m - 1, n - 1);
    }
  }

  // The length is enough, and any more is too.
  lemma {:induction false} EndsAtLength(root: Node, strings: seq<Byte>, path: seq<Byte>, n: nat, m: nat)
    requires Ends(root, strings, path, n) && Length(root, strings, path, n) < m
    ensures Ends(root, strings, path, m)
    decreases n
  {
    hide AliasOf;
    var p := Next(root, strings, path);
    if p.Some? {
      EndsAtLength(root, strings, p.value, n - 1, m - 1);
    }
  }

  ghost predicate Shorter(root: Node, strings: seq<Byte>, path: seq<Byte>, k: nat, len: nat) {
    Ends(root, strings, path, k) && Length(root, strings, path, k) < len
  }

  // A property used on the way leads closer to the end.
  lemma {:induction false} UsedIsAhead(root: Node, strings: seq<Byte>, path: seq<Byte>, n: nat, name: seq<Byte>)
    requires Ends(root, strings, path, n) && Decider(root, strings, name) in Used(root, strings, path, n)
    requires !Absolute(name)
    ensures var p := AliasOf(root, strings, name);
            p.Some? && exists k :: Shorter(root, strings, p.value, k, Length(root, strings, path, n))
    decreases n
  {
    hide AliasOf, Decider;
    var p := Next(root, strings, path);
    if Decider(root, strings, name) == Decider(root, strings, path) {
      SameDecider(root, strings, name, path);
      assert Shorter(root, strings, p.value, n - 1, Length(root, strings, path, n));
    } else {
      UsedIsAhead(root, strings, p.value, n - 1, name);
      var q := AliasOf(root, strings, name).value;
      var k :| Shorter(root, strings, q, k, Length(root, strings, p.value, n - 1));
      assert Shorter(root, strings, q, k, Length(root, strings, path, n));
    }
  }

  // So no property is used twice.
  lemma {:induction false} UsedOnce(root: Node, strings: seq<Byte>, path: seq<Byte>, n: nat)
    requires Ends(root, strings, path, n)
    ensures |Used(root, strings, path, n)| == Length(root, strings, path, n)
    ensures forall k :: k in Used(root, strings, path, n) ==> k < AliasCount(root)
    decreases n
  {
    hide AliasOf, Decider, AliasCount;
    var p := Next(root, strings, path);
    if p.Some? {
      UsedOnce(root, strings, p.value, n - 1);
      DeciderBound(root, strings, path);
      if Decider(root, strings, path) in Used(root, strings, p.value, n - 1) {
        UsedIsAhead(root, strings, p.value, n - 1, path);
        var k :| Shorter(root, strings, p.value, k, Length(root, strings, p.value, n - 1));
        LengthSame(root, strings, p.value, k, n - 1);
      }
    }
  }

  lemma {:induction false} BoundedSet(s: set<nat>, m: nat)
    requires forall k :: k in s ==> k < m
    ensures |s| <= m
    decreases m
  {
    if m > 0 {
      BoundedSet(s - {m - 1}, m - 1);
      assert s <= (s - {m - 1}) + {m - 1};
    } else {
      assert s == {};
    }
  }

  // The aliases come to an end at all if and only if they do after as many steps
  // as the alias node has properties.
  lemma EndsExactly(root: Node, strings: seq<Byte>, path: seq<Byte>)
    ensures (exists n :: Ends(root, strings, path, n)) <==> Ends(root, strings, path, AliasCount(root) + 1)
  {
    hide Ends, AliasOf, AliasCount;
    if n :| Ends(root, strings, path, n) {
      UsedOnce(root, strings, path, n);
      BoundedSet(Used(root, strings, path, n), AliasCount(root));
      EndsAtLength(root, strings, path, n, AliasCount(root) + 1);
    }
  }

  // The path after k aliases.
  ghost function Followed(root: Node, strings: seq<Byte>, path: seq<Byte>, k: nat): Option<seq<Byte>>
    decreases k
  {
    if k == 0 then Some(path)
    else match Next(root, strings, path)
      case None => None
      case Some(p) => Followed(root, strings, p, k - 1)
  }

  lemma {:induction false} FollowedLength(root: Node, strings: seq<Byte>, path: seq<Byte>, n: nat, k: nat)
    requires Ends(root, strings, path, n) && Followed(root, strings, path, k).Some?
    ensures k <= n && Ends(root, strings, Followed(root, strings, path, k).value, n - k)
    ensures Length(root, strings, path, n) == k + Length(root, strings, Followed(root, strings, path, k).value, n - k)
    decreases n
  {
    hide AliasOf;
    if k > 0 {
      FollowedLength(root, strings, Next(root, strings, path).value, n - 1, k - 1);
    }
  }

  // A path that leads back to itself leads on for ever, and so does every path
  // that leads to it, in the source too.
  lemma CycleNeverEnds(root: Node, strings: seq<Byte>, path: seq<Byte>, j: nat, k: nat)
    requires k > 0 && Followed(root, strings, path, j).Some?
    requires var p := Followed(root, strings, path, j).value; Followed(root, strings, p, k) == Some(p)
    ensures forall n: nat :: !Ends(root, strings, path, n)
  {
    hide Ends, Length, Followed;
    var p := Followed(root, strings, path, j).value;
    forall n: nat | Ends(root, strings, path, n)
      ensures false
    {
      FollowedLength(root, strings, path, n, j);
      FollowedLength(root, strings, p, n - j, k);
      LengthSame(root, strings, p, n - j, n - j - k);
    }
  }

  // A tree whose alias node says that a is b and b is a.
  const TWO_ALIASES: Node :=
    Node([], NoProps, MoreKids(0, Node(ALIASES[1..], MoreProps(0, 0, [98, 0], MoreProps(0, 2, [97, 0], NoProps)), NoKids(0)),
                               NoKids(0)))
  const TWO_NAMES: seq<Byte> := [97, 0, 98, 0]

  lemma AliasComps()
    ensures Comps(ALIASES) == [ALIASES[1..]]
  {
    hide Comps;
    var name := ALIASES[1..];
    assert ALIASES == [SLASH] + name && name + [] == name;
    CompsSkip(name);
    CompsFirst(name, []);
    CompsEmpty();
  }

  // The alias node is the first child.
  lemma AliasNodeFirst(root: Node)
    requires root.kids.MoreKids? && root.kids.node.name == ALIASES[1..]
    ensures AliasProps(root) == root.kids.node.props
  {
    hide Comps;
    AliasComps();
    var name, kid := ALIASES[1..], Kid(0, root, 0);
    var none: seq<seq<Byte>> := [];
    assert kid.1 == root.kids.node;
    assert Matches(name, name);
    assert Find(0, root, name, 0) == Some(kid);
    hide Find, Kid, Matches;
    assert [name][1..] == none;
    assert Resolve(kid.0, kid.1, none) == Some(kid);
  }

  lemma AliasIs(root: Node, strings: seq<Byte>, name: seq<Byte>)
    ensures AliasOf(root, strings, name) ==
            match PropOf(AliasProps(root), strings, name)
            case None => None
            case Some(v) => if v == [] || v[|v| - 1] != 0 then None else Some(CString(v))
  {
    hide Resolve, Comps, CString;
  }

  lemma TwoAliasProps()
    ensures var props := TWO_ALIASES.kids.node.props;
            PropOf(props, TWO_NAMES, [97]) == Some([98, 0]) && PropOf(props, TWO_NAMES, [98]) == Some([97, 0])
  {
    var props := TWO_ALIASES.kids.node.props;
    assert NameIs(TWO_NAMES, 0, [97]);
    assert !NameIs(TWO_NAMES, 0, [98]) && NameIs(TWO_NAMES, 2, [98]);
    hide NameIs;
    assert PropOf(props.rest, TWO_NAMES, [98]) == Some([97, 0]);
  }

  lemma TwoAliases()
    ensures AliasOf(TWO_ALIASES, TWO_NAMES, [97]) == Some([98]) && AliasOf(TWO_ALIASES, TWO_NAMES, [98]) == Some([97])
  {
    assert CString([98, 0]) == [98] && CString([97, 0]) == [97];
    AliasNodeFirst(TWO_ALIASES);
    hide *;
    TwoAliasProps();
    AliasIs(TWO_ALIASES, TWO_NAMES, [97]);
    AliasIs(TWO_ALIASES, TWO_NAMES, [98]);
  }

  lemma TwoAliasesStream()
    ensures StreamOk(Document(0, TWO_ALIASES, 0))
  {
    var kid := TWO_ALIASES.kids.node;
    assert FlatProps(kid.props) == [Prop(0, [98, 0]), Prop(2, [97, 0])] by {
      assert FlatProps(kid.props.rest) == [Prop(2, [97, 0])];
    }
    assert Flat(kid) == [BeginNode(kid.name), Prop(0, [98, 0]), Prop(2, [97, 0]), EndNode];
    assert FlatKids(TWO_ALIASES.kids) == Flat(kid);
    assert Flat(TWO_ALIASES) == [BeginNode([])] + Flat(kid) + [EndNode];
  }

  // It is a document, and neither name ever leads to a node.
  lemma TwoAliasesNeverEnd(n: nat)
    ensures StreamOk(Document(0, TWO_ALIASES, 0))
    ensures !Ends(TWO_ALIASES, TWO_NAMES, [97], n) && !Ends(TWO_ALIASES, TWO_NAMES, [98], n)
  {
    TwoAliasesStream();
    TwoAliases();
    hide AliasOf, StreamOk, Document;
    CycleNeverEnds(TWO_ALIASES, TWO_NAMES, [97], 0, 2);
    CycleNeverEnds(TWO_ALIASES, TWO_NAMES, [98], 0, 2);
  }

  // ---- the lookup ----

  // Where a node is in the stream does not change which node it is.
  lemma {:induction false} FindAnywhere(i: nat, j: nat, nd: Node, comp: seq<Byte>, m: nat)
    ensures var a, b := Find(i, nd, comp, m), Find(j, nd, comp, m);
            a.Some? == b.Some? && (a.Some? ==> a.value.1 == b.value.1)
    decreases Count(nd.kids) - m
  {
    hide Matches;
    if m < Count(nd.kids) && !Matches(Kid(i, nd, m).1.name, comp) {
      FindAnywhere(i, j, nd, comp, m + 1);
    }
  }

  lemma {:induction false} ResolveAnywhere(i: nat, j: nat, nd: Node, comps: seq<seq<Byte>>)
    ensures var a, b := Resolve(i, nd, comps), Resolve(j, nd, comps);
            a.Some? == b.Some? && (a.Some? ==> a.value.1 == b.value.1)
    decreases |comps|
  {
    hide Find;
    if comps != [] {
      FindAnywhere(i, j, nd, comps[0], 0);
      var a, b := Find(i, nd, comps[0], 0), Find(j, nd, comps[0], 0);
      if a.Some? {
        ResolveAnywhere(a.value.0, b.value.0, a.value.1, comps[1..]);
      }
    }
  }

  lemma {:induction false} ResolvedPart(toks: seq<Tok>, i: nat, nd: Node, comps: seq<seq<Byte>>)
    requires Part(toks, i, Flat(nd))
    ensures Resolve(i, nd, comps).Some? ==> var x := Resolve(i, nd, comps).value; Part(toks, x.0, Flat(x.1))
    decreases |comps|
  {
    hide Part, Flat;
    if comps != [] {
      var f := FindIs(i, nd, comps[0], 0);
      hide Find;
      if f < Count(nd.kids) {
        KidPart(toks, i, nd, f);
        ResolvedPart(toks, Kid(i, nd, f).0, Kid(i, nd, f).1, comps[1..]);
      }
    }
  }

  // The alias lookup of fdt_path_offset, with fdt_getprop_str.
  method AliasTarget(blob: seq<Byte>, strings: seq<Byte>, name: seq<Byte>, ghost before: nat, ghost root: Node,
      ghost after: nat)
    returns (r: Option<seq<Byte>>)
    requires StreamOk(Document(before, root, after)) && blob == Stream(Document(before, root, after))
    ensures r == AliasOf(root, strings, name)
  {
    hide Stream, Off, Flat, Part, Document, Find, Resolve, Comps, FindProp, PropOf, NameIs, FlatProps, NodeName;
    ghost var toks := Document(before, root, after);
    var aliases := PathOffset(blob, ALIASES, before, root, after);
    RootPart(before, root, after);
    ResolveAnywhere(0, before, root, Comps(ALIASES));
    ResolvedPart(toks, before, root, Comps(ALIASES));
    ghost var at := Resolve(before, root, Comps(ALIASES));
    if aliases < 0 {
      return None;
    }
    ghost var x := at.value;
    NodeParts(toks, x.0, x.1);
    FindPropIs(toks, x.0 + 1, x.1.props, strings, name);
    var p := GetProp(blob, strings, aliases, name, toks, x.0, x.1);
    if p.None? || p.value.1 <= 0 || blob[p.value.0 + p.value.1 - 1] != 0 {
      return None;
    }
    return Some(CString(blob[p.value.0..p.value.0 + p.value.1]));
  }

  // fdt_path_offset of any path whose aliases come to an end.
  method AnyPathOffset(blob: seq<Byte>, strings: seq<Byte>, path: seq<Byte>, ghost before: nat, ghost root: Node,
      ghost after: nat)
    returns (node: int)
    requires StreamOk(Document(before, root, after)) && blob == Stream(Document(before, root, after))
    requires Ends(root, strings, path, AliasCount(root) + 1)
    ensures match Expanded(root, strings, path, AliasCount(root) + 1)
            case None => node == FDT_ERR_NOTFOUND
            case Some(p) =>
              match Resolve(before, root, Comps(p))
              case None => node == FDT_ERR_NOTFOUND
              case Some(x) => At(blob, Document(before, root, after), node, x.0)
    decreases Length(root, strings, path, AliasCount(root) + 1)
  {
    hide Stream, Off, Document, Resolve, Comps, AliasOf, AliasCount;
    if path != [] && path[0] == SLASH {
      node := PathOffset(blob, path, before, root, after);
      return;
    }
    var p := AliasTarget(blob, strings, path, before, root, after);
    if p.None? {
      return FDT_ERR_NOTFOUND;
    }
    EndsExactly(root, strings, p.value);
    LengthSame(root, strings, p.value, AliasCount(root), AliasCount(root) + 1);
    node := AnyPathOffset(blob, strings, p.value, before, root, after);
  }
}

// Linked lists as sequences: membership and removal of one entry.
module Lists {

  ghost predicate NoDup<T>(s: seq<T>) {
    forall i, j :: 0 <= i < j < |s| ==> s[i] != s[j]
  }

  // list_del
  function Without<T(==)>(s: seq<T>, p: T): seq<T> {
    if s == [] then [] else if s[0] == p then s[1..] else [s[0]] + Without(s[1..], p)
  }

  lemma {:induction false} WithoutRemoves<T>(s: seq<T>, p: T)
    requires NoDup(s)
    ensures NoDup(Without(s, p))
    ensures forall q :: q in Without(s, p) <==> q in s && q != p
    ensures |Without(s, p)| == |s| - (if p in s then 1 else 0)
  {
    if s != [] {
      assert s == [s[0]] + s[1..];
      if s[0] != p {
        WithoutRemoves(s[1..], p);
        var r := Without(s[1..], p);
        forall i, j | 0 <= i < j < |Without(s, p)|
          ensures Without(s, p)[i] != Without(s, p)[j]
        {
          if i == 0 {
            assert r[j - 1] in r;
          }
        }
      }
    }
  }

  // The others keep their order.
  lemma {:induction false} WithoutAt<T>(s: seq<T>, i: nat)
    requires NoDup(s) && i < |s|
    ensures Without(s, s[i]) == s[..i] + s[i + 1..]
  {
    if i > 0 {
      WithoutAt(s[1..], i - 1);
    }
  }

  // a stands in front of b.
  ghost predicate Earlier<T>(s: seq<T>, a: T, b: T) {
    exists i, j :: 0 <= i < j < |s| && s[i] == a && s[j] == b
  }

  lemma EarlierThanLast<T>(s: seq<T>, a: T, b: T)
    requires a in s
    ensures Earlier(s + [b], a, b)
  {
    var i :| 0 <= i < |s| && s[i] == a;
    assert (s + [b])[i] == a && (s + [b])[|s|] == b;
  }

  lemma EarlierGrows<T>(s: seq<T>, t: T, a: T, b: T)
    requires Earlier(s, a, b)
    ensures Earlier(s + [t], a, b) && Earlier([t] + s, a, b)
  {
    var i, j :| 0 <= i < j < |s| && s[i] == a && s[j] == b;
    assert (s + [t])[i] == a && (s + [t])[j] == b;
    assert ([t] + s)[i + 1] == a && ([t] + s)[j + 1] == b;
  }

  lemma {:induction false} EarlierWithout<T>(s: seq<T>, t: T, a: T, b: T)
    requires Earlier(s, a, b) && t != a && t != b
    ensures Earlier(Without(s, t), a, b)
  {
    var i, j :| 0 <= i < j < |s| && s[i] == a && s[j] == b;
    if s[0] == t {
      assert s[1..][i - 1] == a && s[1..][j - 1] == b;
    } else if i == 0 {
      assert s[1..][j - 1] == b;
      StaysWithout(s[1..], t, b);
      var l := Without(s[1..], t);
      var k :| 0 <= k < |l| && l[k] == b;
      assert ([a] + l)[0] == a && ([a] + l)[k + 1] == b;
    } else {
      assert s[1..][i - 1] == a && s[1..][j - 1] == b;
      EarlierWithout(s[1..], t, a, b);
      EarlierGrows(Without(s[1..], t), s[0], a, b);
    }
  }

  lemma {:induction false} StaysWithout<T>(s: seq<T>, t: T, b: T)
    requires b in s && t != b
    ensures b in Without(s, t)
  {
    if s[0] != t && s[0] != b {
      StaysWithout(s[1..], t, b);
    }
  }

  lemma {:induction false} WithoutAbsent<T>(s: seq<T>, t: T)
    requires t !in s
    ensures Without(s, t) == s
  {
    if s != [] {
      WithoutAbsent(s[1..], t);
    }
  }

  // list_add
  lemma PushFront<T>(s: seq<T>, p: T)
    requires NoDup(s) && p !in s
    ensures NoDup([p] + s)
    ensures forall q :: q in [p] + s <==> q == p || q in s
  {
    forall i, j | 0 <= i < j < |[p] + s|
      ensures ([p] + s)[i] != ([p] + s)[j]
    {
      assert ([p] + s)[j] == s[j - 1];
      assert s[j - 1] in s;
    }
  }

  // list_add_tail
  lemma PushBack<T>(s: seq<T>, p: T)
    requires NoDup(s) && p !in s
    ensures NoDup(s + [p])
    ensures forall q :: q in s + [p] <==> q in s || q == p
  {
  }
}

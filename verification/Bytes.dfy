// Byte strings: zero padding to words, and slices of slices.
module Bytes {
  import opened Common

  // The next multiple of four.
  function Up4(n: nat): (r: nat)
    ensures n <= r < n + 4 && r % 4 == 0
  {
    (n + 3) / 4 * 4
  }

  function Zeros(n: nat): (z: seq<Byte>)
    ensures |z| == n
  {
    seq(n, _ => 0)
  }

  function Padded(s: seq<Byte>): (r: seq<Byte>)
    ensures |r| == Up4(|s|)
  {
    s + Zeros(Up4(|s|) - |s|)
  }

  lemma SubSlice(b: seq<Byte>, o: nat, n: nat, x: nat, y: nat)
    requires o + n <= |b| && x <= y <= n
    ensures b[o..o + n][x..y] == b[o + x..o + y]
  {
    var s := b[o..o + n];
    forall k | 0 <= k < y - x
      ensures s[x..y][k] == b[o + x..o + y][k]
    {
      assert s[x + k] == b[o + (x + k)];
    }
  }
}

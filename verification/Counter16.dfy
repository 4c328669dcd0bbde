// Free-running counters kept in 16-bit fields.
module Counter16 {
  import opened CArith

  const U16 := 65536

  // A counter as the field holds it.
  function Low(c: nat): nat {
    c % U16
  }

  lemma LowNext(c: nat)
    ensures Low(Low(c) + 1) == Low(c + 1)
  {
  }

  // Fields tell counters apart that are less than 65536 apart.
  lemma LowSame(a: nat, b: nat)
    requires a <= b < a + U16
    ensures Low(a) == Low(b) <==> a == b
  {
    if Low(a) == Low(b) {
      SameMod(a, b, U16);
    }
  }
}

// C integer arithmetic that differs from Dafny's: division truncates toward
// zero and narrowing conversions wrap.
module CArith {

  // `a / b` in C for a positive divisor.
  function CDiv(a: int, b: int): int
    requires b > 0
  {
    if a >= 0 then a / b else -((-a) / b)
  }

  // `a % b` in C for a positive divisor.
  function CMod(a: int, b: int): int
    requires b > 0
  {
    a - b * CDiv(a, b)
  }

  // The remainder is smaller than the divisor and has the dividend's sign.
  lemma CModRange(a: int, b: int)
    requires b > 0
    ensures -b < CMod(a, b) < b
    ensures a >= 0 ==> CMod(a, b) >= 0
    ensures a <= 0 ==> CMod(a, b) <= 0
  {
  }

  // Those properties of the remainder single out the quotient.
  lemma CDivUnique(a: int, b: int, q: int)
    requires b > 0
    requires -b < a - b * q < b
    requires a >= 0 ==> a - b * q >= 0
    requires a <= 0 ==> a - b * q <= 0
    ensures q == CDiv(a, b)
  {
    CModRange(a, b);
    hide CDiv;
    var p := CDiv(a, b);
    MultipleInside(b, q - p);
    assert b * (q - p) == (a - b * p) - (a - b * q);
  }

  lemma MultipleInside(b: int, k: int)
    requires b > 0 && -b < b * k < b
    ensures k == 0
  {
  }

  // Euclidean quotient and remainder are determined by their defining equation.
  lemma DivMod(x: int, n: int, q: int, r: int)
    requires n > 0 && x == n * q + r && 0 <= r < n
    ensures x / n == q && x % n == r
  {
    var d := x / n - q;
    assert n * d == r - x % n;
    MultipleInside(n, d);
  }

  // Numbers less than n apart have the same remainder only if they are equal.
  lemma SameMod(a: int, b: int, n: int)
    requires 0 < n && a <= b < a + n && a % n == b % n
    ensures a == b
  {
    assert n * (b / n - a / n) == b - a;
    MultipleInside(n, b / n - a / n);
  }

  lemma ModAddMultiple(r: int, n: int, k: int)
    requires n > 0
    ensures (n * k + r) % n == r % n
  {
    var q := r / n;
    assert n * k + r == n * (k + q) + r % n;
    DivMod(n * k + r, n, k + q, r % n);
  }

  function Min(a: int, b: int): (m: int)
    ensures m <= a && m <= b && (m == a || m == b)
  {
    if a < b then a else b
  }

  function Max(a: int, b: int): (m: int)
    ensures m >= a && m >= b && (m == a || m == b)
  {
    if a > b then a else b
  }
}

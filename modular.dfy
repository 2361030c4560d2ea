/** Facts about Python's `%` with a positive modulus, which agrees with
    Dafny's Euclidean `%` on `int`. */
module Modular {

  /** Division with remainder is unique: any decomposition x == q*h + r with
      0 <= r < h gives the quotient and remainder Dafny computes. */
  lemma ModUnique(x: int, h: int, q: int, r: int)
    requires h > 0 && 0 <= r < h && x == q * h + r
    ensures x % h == r && x / h == q
  {
    var d := q - x / h;
    assert d * h == x % h - r;
    assert d >= 1 ==> d * h >= h;
    assert d <= -1 ==> d * h <= -h;
  }

  /** Reducing a summand first does not change the remainder of the sum. */
  lemma ModAdd(a: int, b: int, h: int)
    requires h > 0
    ensures (a % h + b) % h == (a + b) % h
  {
    var x := a % h + b;
    ModUnique(a + b, h, a / h + x / h, x % h);
  }

  /** A value already in [0, h) is its own remainder. */
  lemma ModSmall(a: int, h: int)
    requires 0 <= a < h
    ensures a % h == a
  {
    ModUnique(a, h, 0, a);
  }

  /** Adding d and then subtracting it, modulo h, restores an index in [0, h). */
  lemma ModShiftBack(i: int, d: int, h: int)
    requires 0 <= i < h
    ensures ((i + d) % h - d) % h == i
  {
    ModAdd(i + d, -d, h);
    ModSmall(i, h);
  }

  /** For indices a, i in [0, h): a is the image of i under +d iff i is the
      image of a under -d. */
  lemma ModShiftIff(a: int, i: int, d: int, h: int)
    requires 0 <= a < h && 0 <= i < h
    ensures (a == (i + d) % h) <==> ((a - d) % h == i)
  {
    ModShiftBack(i, d, h);
    ModShiftBack(a, -d, h);
  }
}

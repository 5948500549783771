/** Kotlin's `Int`: 32-bit two's complement, where `+` wraps around. */
module Int32 {

  const MIN: int := -0x8000_0000
  const MAX: int := 0x7fff_ffff
  const MODULUS: int := 0x1_0000_0000

  predicate InRange(x: int) {
    MIN <= x <= MAX
  }

  /** The `Int` that a mathematical integer wraps around to. */
  function Wrap(x: int): (r: int)
    ensures InRange(r)
    ensures InRange(x) ==> r == x
  {
    var y := x - MIN;
    DivMod(y);
    y % MODULUS + MIN
  }

  /** A wrapped value differs from the original by a multiple of 2^32. */
  lemma WrapDifference(x: int) returns (k: int)
    ensures Wrap(x) == x - MODULUS * k
  {
    DivMod(x - MIN);
    k := (x - MIN) / MODULUS;
  }

  lemma DivMod(y: int)
    ensures y == MODULUS * (y / MODULUS) + y % MODULUS
    ensures 0 <= y % MODULUS < MODULUS
  {
  }

  /** Euclidean remainders are unique. */
  lemma ModUnique(z: int, q: int, r: int)
    requires 0 <= r < MODULUS
    requires z == MODULUS * q + r
    ensures z % MODULUS == r
  {
    DivMod(z);
  }

  /** Adding a multiple of 2^32 does not change the wrapped value. */
  lemma WrapShift(x: int, k: int)
    ensures Wrap(x + MODULUS * k) == Wrap(x)
  {
    var y := x - MIN;
    DivMod(y);
    ModUnique(y + MODULUS * k, y / MODULUS + k, y % MODULUS);
  }

  /** Wrapped addition agrees with wrapping the mathematical sum. */
  lemma WrapAdd(a: int, b: int)
    ensures Wrap(Wrap(a) + Wrap(b)) == Wrap(a + b)
  {
    var ka := WrapDifference(a);
    var kb := WrapDifference(b);
    WrapShift(a + b, -(ka + kb));
    assert Wrap(a) + Wrap(b) == a + b + MODULUS * (-(ka + kb));
  }

  /** Wrapping an operand before adding changes nothing after wrapping. */
  lemma WrapAbsorb(a: int, b: int)
    ensures Wrap(Wrap(a) + b) == Wrap(a + b)
  {
    var ka := WrapDifference(a);
    WrapShift(a + b, -ka);
  }
}

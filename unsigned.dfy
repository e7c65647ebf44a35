/** Unsigned arithmetic on C++ `size_t`, taken to be 64 bits wide.
    Every operation reduces its exact result modulo 2^64, which is what
    the C++ operators on unsigned operands do. */
module Unsigned {

  /** 2^64, the number of distinct `size_t` values. */
  const WORD: int := 0x1_0000_0000_0000_0000

  /** The largest `size_t`, SIZE_MAX. */
  const SIZE_MAX: int := WORD - 1

  /** 2^32, the number of distinct `uint32_t` (`natural_t`) values. */
  const WORD32: int := 0x1_0000_0000

  type SizeT = x: int | 0 <= x < WORD

  type UInt32 = x: int | 0 <= x < WORD32

  /** Storing a mathematical integer into a `size_t`: the unique value
      congruent to `x` modulo 2^64. */
  function Wrap(x: int): (r: SizeT)
    ensures (x - r) % WORD == 0
    ensures 0 <= x < WORD ==> r == x
  {
    x % WORD
  }

  /** `a + b` on `size_t`. */
  function Add(a: SizeT, b: SizeT): (r: SizeT)
    ensures a + b < WORD ==> r == a + b
    ensures a + b >= WORD ==> r == a + b - WORD
  {
    Wrap(a + b)
  }

  /** `a - b` on `size_t`: borrows 2^64 when `b` exceeds `a`. */
  function Sub(a: SizeT, b: SizeT): (r: SizeT)
    ensures b <= a ==> r == a - b
    ensures a < b ==> r == a - b + WORD
  {
    Wrap(a - b)
  }

  /** `a * b` on `size_t`: the product reduced modulo 2^64, as `Wrap`
      describes. */
  function Mul(a: SizeT, b: SizeT): (r: SizeT)
    ensures a * b < WORD ==> r == a * b
    ensures (a * b - r) % WORD == 0
  {
    var product: nat := a * b;
    Wrap(product)
  }

  /** Adding a multiple of 2^64 does not change the wrapped value. */
  lemma WrapShift(x: int, k: int)
    ensures Wrap(x + k * WORD) == Wrap(x)
  {
    var q := x / WORD;
    assert x == q * WORD + Wrap(x);
    assert x + k * WORD == (q + k) * WORD + Wrap(x);
    DivModUnique(x + k * WORD, q + k, Wrap(x));
  }

  /** Wrapping an operand before adding does not change the wrapped sum:
      `Wrap(Wrap(x) + y) == Wrap(x + y)`. */
  lemma WrapAddRight(x: int, y: int)
    ensures Wrap(Wrap(x) + y) == Wrap(x + y)
  {
    var q := x / WORD;
    assert Wrap(x) + y == (x + y) + (-q) * WORD;
    WrapShift(x + y, -q);
  }

  /** A decomposition `z == q * WORD + r` with `0 <= r < WORD` gives the residue. */
  lemma DivModUnique(z: int, q: int, r: int)
    requires 0 <= r < WORD
    requires z == q * WORD + r
    ensures z % WORD == r
  {
  }

  /** Subtracting from a wrapped value wraps the exact difference. */
  lemma SubOfWrap(x: int, b: SizeT)
    ensures Sub(Wrap(x), b) == Wrap(x - b)
  {
    WrapAddRight(x, -(b as int));
  }

  /** Adding two wrapped values wraps the exact sum. */
  lemma AddOfWraps(x: int, y: int)
    ensures Add(Wrap(x), Wrap(y)) == Wrap(x + y)
  {
    WrapAddRight(x, Wrap(y));
    WrapAddRight(y, x);
  }
}

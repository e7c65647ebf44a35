/** `SiPrefix`, `ToUnits` and `FromUnits`: conversions between byte counts
    and counts of kilobytes, megabytes and gigabytes, each a power of 1024. */
module Units {
  import opened Unsigned

  /** The four unit prefixes of the enumeration. */
  datatype SiPrefix = B | KB | MB | GB

  /** Which power of 1024 a prefix stands for. */
  function Exponent(p: SiPrefix): nat {
    match p
    case B => 0
    case KB => 1
    case MB => 2
    case GB => 3
  }

  /** 1024 raised to `e`. */
  function Pow1024(e: nat): nat {
    if e == 0 then 1 else 1024 * Pow1024(e - 1)
  }

  /** The `size_t` value the enumerator carries. */
  function Multiplier(p: SiPrefix): (m: SizeT)
    ensures m == Pow1024(Exponent(p))
    ensures 0 < m && WORD % m == 0
  {
    match p
    case B => 1
    case KB => 1024
    case MB => 1024 * 1024
    case GB => 1024 * 1024 * 1024
  }

  /** `ToUnits<prefix>(bytes)`: how many whole units fit in `bytes`; the
      division truncates, so the remainder is dropped. */
  function ToUnits(p: SiPrefix, bytes: SizeT): (r: SizeT)
    ensures r * Multiplier(p) <= bytes < (r + 1) * Multiplier(p)
  {
    bytes / Multiplier(p)
  }

  /** `FromUnits<prefix>(units)`: the byte count of `units` units, multiplied
      in `size_t`, so the product wraps modulo 2^64 when it overflows. */
  function FromUnits(p: SiPrefix, units: SizeT): (r: SizeT)
    ensures units * Multiplier(p) < WORD ==> r == units * Multiplier(p)
    ensures r % Multiplier(p) == 0
  {
    MultipleWraps(units, p);
    Mul(units, Multiplier(p))
  }

  /** A multiple of a prefix's multiplier stays a multiple of it after
      wrapping, since every multiplier divides 2^64. */
  lemma MultipleWraps(u: SizeT, p: SiPrefix)
    ensures Mul(u, Multiplier(p)) % Multiplier(p) == 0
  {
    var m := Multiplier(p);
    var k := WORD / m;
    assert k * m == WORD;
    ProductResidue(u, m, k);
    MultipleMod(u % k, m);
  }

  /** A multiple of `m` leaves no remainder modulo `m`. */
  lemma MultipleMod(x: nat, m: nat)
    requires 0 < m
    ensures (x * m) % m == 0
  {
    DivUnique(x * m, m, x, 0);
    assert x * m == (x * m) / m * m + (x * m) % m;
  }

  /** At byte granularity the conversion is the identity. */
  lemma ToUnitsOfBytes(x: SizeT)
    ensures ToUnits(B, x) == x && FromUnits(B, x) == x
  {
  }

  /** Converting to units and back loses only the remainder: the result is
      at most the input and falls short of it by less than one unit. */
  lemma FromToUnitsBelow(p: SiPrefix, bytes: SizeT)
    ensures FromUnits(p, ToUnits(p, bytes)) <= bytes
    ensures bytes - FromUnits(p, ToUnits(p, bytes)) < Multiplier(p)
  {
    var u := ToUnits(p, bytes);
    assert u * Multiplier(p) <= bytes;
  }

  /** When the multiplication does not overflow, `ToUnits` undoes `FromUnits`. */
  lemma ToFromUnitsRoundTrip(p: SiPrefix, units: SizeT)
    requires units * Multiplier(p) < WORD
    ensures ToUnits(p, FromUnits(p, units)) == units
  {
    var m := Multiplier(p);
    var r := ToUnits(p, units * m);
    assert r * m <= units * m < (r + 1) * m;
    MulCancel(r, units, m);
    MulCancel(units + 1, r + 1, m);
  }

  /** On overflow `FromUnits` keeps only the low-order units: multiplying by
      1024^k modulo 2^64 forgets every multiple of 2^64 / 1024^k in `units`. */
  lemma FromUnitsDropsHighUnits(p: SiPrefix, units: SizeT)
    ensures FromUnits(p, units) == (units % (WORD / Multiplier(p))) * Multiplier(p)
  {
    var m := Multiplier(p);
    var k := WORD / m;
    assert k * m == WORD;
    ProductResidue(units, m, k);
  }

  /** When `k * m == 2^64`, the product `u * m` modulo 2^64 is `(u mod k) * m`. */
  lemma ProductResidue(u: nat, m: nat, k: nat)
    requires 0 < m && 0 < k && k * m == WORD
    ensures (u * m) % WORD == (u % k) * m
  {
    var q, low := u / k, u % k;
    assert u * m == q * WORD + low * m by {
      assert u == q * k + low;
      assert u * m == (q * k + low) * m;
      assert (q * k + low) * m == q * (k * m) + low * m;
    }
    assert low * m < WORD by {
      MulCancel(low, k - 1, m);
      assert (k - 1) * m == WORD - m;
    }
    Unsigned.DivModUnique(u * m, q, low * m);
  }

  /** Truncating division by a larger prefix is truncating division by 1024
      applied once more: MB counts are KB counts of KB counts, GB counts are
      KB counts of MB counts. */
  lemma ToUnitsNested(bytes: SizeT)
    ensures ToUnits(MB, bytes) == ToUnits(KB, ToUnits(KB, bytes))
    ensures ToUnits(GB, bytes) == ToUnits(KB, ToUnits(MB, bytes))
  {
    DivDiv(bytes, 1024, 1024);
    DivDiv(bytes, 1024 * 1024, 1024);
  }

  /** `(x / a) / b == x / (a * b)` for positive divisors. */
  lemma DivDiv(x: nat, a: nat, b: nat)
    requires 0 < a && 0 < b
    ensures (x / a) / b == x / (a * b)
  {
    var q1, ra := x / a, x % a;
    var q2, rb := q1 / b, q1 % b;
    assert x == q1 * a + ra;
    assert q1 == q2 * b + rb;
    assert q1 * a == q2 * (a * b) + rb * a by {
      assert q1 * a == (q2 * b + rb) * a;
      assert (q2 * b + rb) * a == q2 * (b * a) + rb * a;
    }
    assert rb * a + ra < a * b by {
      MulCancel(rb, b - 1, a);
      assert (b - 1) * a == a * b - a;
    }
    DivUnique(x, a * b, q2, rb * a + ra);
  }

  /** A decomposition `x == q * d + r` with `0 <= r < d` gives the quotient. */
  lemma DivUnique(x: int, d: int, q: int, r: int)
    requires 0 <= r < d
    requires x == q * d + r
    ensures x / d == q
  {
    var q' := x / d;
    assert x == q' * d + x % d;
    assert (q - q') * d == x % d - r;
    MulMonotone(q - q', d);
  }

  /** Multiplying by a positive `d` keeps a nonzero factor at least `d` away from 0. */
  lemma MulMonotone(k: int, d: int)
    requires 0 < d
    ensures k >= 1 ==> k * d >= d
    ensures k <= -1 ==> k * d <= -d
  {
  }

  /** A positive factor can be cancelled from both sides of `<=`. */
  lemma MulCancel(a: int, b: int, m: int)
    requires 0 < m
    ensures a * m <= b * m <==> a <= b
  {
    assert b * m - a * m == (b - a) * m;
    MulMonotone(b - a, m);
  }

  /** The concrete values the enumeration and the conversions give. */
  lemma ConversionValues()
    ensures Multiplier(B) == 1 && Multiplier(KB) == 1024
    ensures Multiplier(MB) == 1048576 && Multiplier(GB) == 1073741824
    ensures ToUnits(KB, 1024) == 1 && ToUnits(KB, 1023) == 0
    ensures FromUnits(GB, 1) == 1073741824
  {
  }
}

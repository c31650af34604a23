/** Unsigned 64-bit arithmetic as the controllers use it: saturating and
    aligning operations on byte counts, block sizes and millisecond clocks. */
module Arithmetic {
  const U64_MAX: int := 0xFFFF_FFFF_FFFF_FFFF

  type U64 = x: int | 0 <= x <= U64_MAX

  function Min(a: int, b: int): int { if a <= b then a else b }

  function Max(a: int, b: int): int { if a <= b then b else a }

  function SatSub(a: U64, b: U64): U64 { if a < b then 0 else a - b }

  function SatAdd(a: U64, b: U64): U64 { Min(a + b, U64_MAX) }

  /** `n` is a power of two. */
  predicate IsPowerOfTwo(n: int)
    decreases n
  {
    n == 1 || (n > 1 && n % 2 == 0 && IsPowerOfTwo(n / 2))
  }

  /** The greatest multiple of `block` not above `value`. */
  function AlignDown(value: int, block: int): (r: int)
    requires 0 <= value && 0 < block
    ensures 0 <= r <= value && value - r < block && r % block == 0
  {
    MultipleMinusRemainder(value, block);
    value - value % block
  }

  /** The least multiple of `block` not below `value`. */
  function AlignUp(value: int, block: int): (r: int)
    requires 0 <= value && 0 < block
    ensures value <= r < value + block && r % block == 0
  {
    if value % block == 0 then value
    else
      MultipleMinusRemainder(value, block);
      MultiplesAdd(value - value % block, block, block);
      value - value % block + block
  }

  lemma MultipleMinusRemainder(value: int, block: int)
    requires 0 < block
    ensures (value - value % block) % block == 0
  {
    var q := value / block;
    assert value - value % block == q * block;
    ProductIsMultiple(q, block);
  }

  lemma ProductGrows(a: int, b: int, block: int)
    requires a <= b && 0 <= block
    ensures a * block <= b * block
  {
    assert 0 <= (b - a) * block;
  }

  lemma ProductIsMultiple(q: int, block: int)
    requires 0 < block
    ensures (q * block) % block == 0
    ensures (q * block) / block == q
  {
    var d := (q * block) / block;
    if q < d {
      ProductGrows(q + 1, d, block);
    } else if d < q {
      ProductGrows(d + 1, q, block);
    }
  }

  lemma MultiplesAdd(x: int, y: int, block: int)
    requires 0 < block && x % block == 0 && y % block == 0
    ensures (x + y) % block == 0
    ensures (x - y) % block == 0
  {
    assert x == x / block * block;
    assert y == y / block * block;
    assert x + y == (x / block + y / block) * block;
    assert x - y == (x / block - y / block) * block;
    ProductIsMultiple(x / block + y / block, block);
    ProductIsMultiple(x / block - y / block, block);
  }

  /** Two multiples of `block` that differ, differ by at least one block. */
  lemma MultiplesApart(x: int, y: int, block: int)
    requires 0 < block && x % block == 0 && y % block == 0 && x < y
    ensures x + block <= y
  {
    if y / block <= x / block {
      ProductGrows(y / block, x / block, block);
    } else {
      ProductGrows(x / block + 1, y / block, block);
    }
  }
}

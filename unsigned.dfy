/** The C++ integer widths the controller works with: `unsigned int` (32 bits) for the RTT history
    slots and the grace deadline, `uint64_t` for timestamps, and the conversion from a non-negative
    `double` to an unsigned integer. */
module Unsigned {

  const Two32: int := 0x1_0000_0000
  const Two64: int := 0x1_0000_0000_0000_0000

  /** `unsigned int` on the platforms the controller targets. */
  type u32 = x: int | 0 <= x < Two32

  /** `uint64_t`. */
  type u64 = x: int | 0 <= x < Two64

  /** Unsigned 64-bit arithmetic: the exact result reduced modulo 2^64. */
  function Wrap64(x: int): (r: u64)
    ensures (x - r) % Two64 == 0
    ensures 0 <= x < Two64 ==> r == x
  {
    x % Two64
  }

  /** Storing into an `unsigned int`: the value reduced modulo 2^32. */
  function Wrap32(x: int): (r: u32)
    ensures (x - r) % Two32 == 0
    ensures 0 <= x < Two32 ==> r == x
  {
    x % Two32
  }

  /** Converting a non-negative `double` to an unsigned integer rounds toward zero. */
  function Truncate(x: real): (r: nat)
    requires 0.0 <= x
    ensures r as real <= x < r as real + 1.0
  {
    x.Floor
  }

  /** The same conversion into an `unsigned int`; it is defined only for values below 2^32. */
  function TruncateU32(x: real): (r: u32)
    requires 0.0 <= x < Two32 as real
    ensures r as real <= x < r as real + 1.0
  {
    Truncate(x)
  }

  /** A 64-bit result narrowed to 32 bits keeps its low 32 bits, which is the exact result
      reduced modulo 2^32: the two wrap-arounds compose into one. */
  lemma NarrowAfterWrap(x: int)
    ensures Wrap32(Wrap64(x)) == Wrap32(x)
  {
    var q := x / Two64;
    assert x == q * Two64 + Wrap64(x);
    assert Wrap64(x) == x + (-q * Two32) * Two32;
    ModAddMultiple(x, -q * Two32, Two32);
  }

  lemma AtLeastOnce(c: int, m: int)
    requires c >= 1 && m > 0
    ensures c * m >= m
  {
  }

  /** Euclidean remainders are unique. */
  lemma {:induction false} ModUnique(y: int, m: int, d: int, r: int)
    requires m > 0 && 0 <= r < m && y == d * m + r
    ensures y % m == r
  {
    var d', r' := y / m, y % m;
    assert y == d' * m + r';
    assert (d - d') * m == r' - r by {
      assert d * m - d' * m == (d - d') * m;
    }
    if d' < d {
      AtLeastOnce(d - d', m);
    } else if d < d' {
      AtLeastOnce(d' - d, m);
    }
  }

  lemma {:induction false} ModAddMultiple(a: int, k: int, m: int)
    requires m > 0
    ensures (a + k * m) % m == a % m
  {
    var q, r := a / m, a % m;
    assert a + k * m == (q + k) * m + r;
    ModUnique(a + k * m, m, q + k, r);
  }
}

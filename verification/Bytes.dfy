module Bytes {
  // Octets and small helpers shared by every part of the model.

  /** One octet of a packet, the source's `uint8`. */
  type byte = x: int | 0 <= x < 256 witness 0

  /** The contents of a packet as one flat run of octets. */
  type Data = seq<byte>

  /** One octet where the program works on its bits. */
  type octet = bv8

  type Octets = seq<octet>

  function Min(a: int, b: int): int {
    if a <= b then a else b
  }

  /** Euclidean division is the only way to write `x` as a multiple of `d` and a remainder. */
  lemma DivIs(x: int, d: int, q: int, r: int)
    requires d > 0 && x == q * d + r && 0 <= r < d
    ensures x / d == q && x % d == r
  {
    var k := x / d - q;
    assert k * d == r - x % d by {
      assert x == x / d * d + x % d;
      assert x / d * d - q * d == k * d;
    }
    assert k >= 1 ==> k * d >= d;
    assert k <= -1 ==> k * d <= -d;
  }
}

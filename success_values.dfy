/** The success summary of one URI (keepalive.model.SuccessValues). */
module SuccessValuesModel {
  import opened JavaText

  datatype SuccessValues = SuccessValues(success: int, failed: int, availableSegments: int)

  const TWO_32: int := 0x1_0000_0000

  /** Java `int` arithmetic: reduce a mathematical integer to 32-bit two's complement. */
  function Wrap32(n: int): (r: int)
    ensures InInt32(r)
    ensures (r - n) % TWO_32 == 0
  {
    (n - INT_MIN) % TWO_32 + INT_MIN
  }

  /** `Objects.hash(availableSegments, failed, success)`: the 31-based array hash, in `int` arithmetic. */
  function HashCode(v: SuccessValues): (r: int)
    ensures InInt32(r)
  {
    Wrap32(31 * Wrap32(31 * Wrap32(31 + v.availableSegments) + v.failed) + v.success)
  }

  /** `equals`: two summaries are equal exactly when they are the same value. */
  predicate Equals(a: SuccessValues, b: SuccessValues)
    ensures Equals(a, b) <==> a == b
  {
    a.availableSegments == b.availableSegments && a.failed == b.failed && a.success == b.success
  }

  /** Two integers that differ by a multiple of 2^32 wrap to the same `int`. */
  lemma WrapCongruent(m: int, n: int)
    requires (m - n) % TWO_32 == 0
    ensures Wrap32(m) == Wrap32(n)
  {
    var k := (m - n) / TWO_32;
    assert m - INT_MIN == (n - INT_MIN) + k * TWO_32;
    ModAddMultiple(n - INT_MIN, k);
  }

  lemma ModAddMultiple(x: int, k: int)
    ensures (x + k * TWO_32) % TWO_32 == x % TWO_32
  {
  }

  /** Wrapping an inner term of a linear expression does not change the wrapped result. */
  lemma WrapInner(c: int, x: int, y: int)
    ensures Wrap32(c * Wrap32(x) + y) == Wrap32(c * x + y)
  {
    var w := Wrap32(x);
    var j := (w - x) / TWO_32;
    assert w == x + j * TWO_32;
    assert c * w + y == (c * x + y) + (c * j) * TWO_32;
    assert ((c * w + y) - (c * x + y)) % TWO_32 == 0;
    WrapCongruent(c * w + y, c * x + y);
  }

  /** The hash is the polynomial 31^3 + 31^2*availableSegments + 31*failed + success, reduced once. */
  lemma HashCodePolynomial(v: SuccessValues)
    ensures HashCode(v) == Wrap32(29791 + 961 * v.availableSegments + 31 * v.failed + v.success)
  {
    var a, f, s := v.availableSegments, v.failed, v.success;
    WrapInner(31, 31 + a, f);
    WrapInner(31, 31 * (31 + a) + f, s);
    assert 31 * (31 * (31 + a) + f) + s == 29791 + 961 * a + 31 * f + s;
  }
}

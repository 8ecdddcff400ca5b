/** Shared vocabulary: an optional value, and the fixed-width integer
    arithmetic of the JVM (two's-complement wrap-around of `int` and `long`,
    and division that truncates toward zero). */
module Common {

  /** A value that may be absent; used where the Java code throws or
      returns nothing. */
  datatype Option<T> = None | Some(value: T)

  const IntModulus: int := 0x1_0000_0000
  const IntMin: int := -0x8000_0000
  const IntMax: int := 0x7fff_ffff

  const LongModulus: int := 0x1_0000_0000_0000_0000
  const LongMin: int := -0x8000_0000_0000_0000
  const LongMax: int := 0x7fff_ffff_ffff_ffff

  /** The values of a Java `int`. */
  type Int32 = x: int | IntMin <= x <= IntMax

  /** The values of a Java `long`. */
  type Int64 = x: int | LongMin <= x <= LongMax

  /** The `int` a JVM addition produces when the exact sum is `x`. */
  function Wrap32(x: int): (r: Int32)
    ensures (r - x) % IntModulus == 0
    ensures IntMin <= x <= IntMax ==> r == x
  {
    (x - IntMin) % IntModulus + IntMin
  }

  /** The `long` a JVM addition produces when the exact sum is `x`. */
  function Wrap64(x: int): (r: Int64)
    ensures (r - x) % LongModulus == 0
    ensures LongMin <= x <= LongMax ==> r == x
  {
    (x - LongMin) % LongModulus + LongMin
  }

  /** Adding whole multiples of 2^64 does not change the wrapped value. */
  lemma Wrap64Shift(x: int, k: int)
    ensures Wrap64(x + k * LongModulus) == Wrap64(x)
  {
  }

  /** Wrapping an intermediate sum and then adding more gives the same
      `long` as adding everything exactly and wrapping once. */
  lemma Wrap64AddAssociates(x: int, c: int)
    ensures Wrap64(Wrap64(x) + c) == Wrap64(x + c)
  {
    var q := (x - LongMin) / LongModulus;
    assert Wrap64(x) == x - q * LongModulus;
    Wrap64Shift(x + c, -q);
  }

  lemma MulAtLeast(a: int, m: int)
    requires a >= 1 && m > 0
    ensures a * m >= m
  {
  }

  /** Java's `/` on a positive divisor: the quotient truncated toward zero. */
  function TruncDiv(x: int, d: int): (q: int)
    requires d > 0
    ensures 0 <= x ==> 0 <= q * d <= x < q * d + d
    ensures x < 0 ==> q * d - d < x <= q * d <= 0
  {
    if x >= 0 then
      NonNegDiv(x, d);
      x / d
    else
      NonNegDiv(-x, d);
      var q := (-x) / d;
      assert (-q) * d == -(q * d);
      -q
  }

  /** Euclidean division of a non-negative number by a positive one. */
  lemma NonNegDiv(n: int, d: int)
    requires n >= 0 && d > 0
    ensures 0 <= (n / d) * d <= n < (n / d) * d + d
  {
    var q := n / d;
    var r := n % d;
    assert n == q * d + r && 0 <= r < d;
    if q >= 1 {
      MulAtLeast(q, d);
    }
  }

  /** Truncating division by a positive divisor never moves away from zero. */
  lemma TruncDivShrinks(x: int, d: int)
    requires d > 0
    ensures x >= 0 ==> 0 <= TruncDiv(x, d) <= x
    ensures x < 0 ==> x <= TruncDiv(x, d) <= 0
  {
    var q := TruncDiv(x, d);
    if x >= 0 && q >= 1 {
      MulAtLeast(d, q);
    } else if x < 0 && q <= -1 {
      MulAtLeast(d, -q);
      assert d * (-q) == -(q * d);
    }
  }
}

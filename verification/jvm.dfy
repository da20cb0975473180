/** Integer and floating-point semantics of the JVM that the lighting code
    relies on, written out over Dafny's unbounded `int` and exact `real`.
    Double rounding, infinities other than the ones named below, NaN and
    the saturation of out-of-range narrowing casts are not modelled. */
module Jvm {

  /** `Math.PI` as the decimal literal of the double. */
  const MathPi: real := 3.141592653589793

  /** `Long.MAX_VALUE`, what `(long)` makes of positive infinity. */
  const LongMax: int := 0x7fff_ffff_ffff_ffff

  function Abs(x: int): (r: nat)
    ensures r == x || r == -x
  {
    if x < 0 then -x else x
  }

  function MaxReal(a: real, b: real): (r: real)
    ensures r >= a && r >= b && (r == a || r == b)
  {
    if a >= b then a else b
  }

  /** A narrowing cast from double to an integral type: truncation toward zero. */
  function Trunc(x: real): (r: int)
    ensures 0.0 <= x ==> 0 <= r && r as real <= x < r as real + 1.0
    ensures x < 0.0 ==> r <= 0 && r as real - 1.0 < x <= r as real
  {
    if x >= 0.0 then x.Floor else -((-x).Floor)
  }

  /** Java's `%` on integral types: the remainder of truncating division,
      which takes the sign of the dividend. */
  function Rem(a: int, b: int): (r: int)
    requires b != 0
    ensures Abs(r) < Abs(b)
    ensures a >= 0 ==> 0 <= r
    ensures a < 0 ==> r <= 0
  {
    if a >= 0 then a % Abs(b) else -((-a) % Abs(b))
  }

  /** `Math.round(double)`: the nearest integer, halves rounded up. */
  function Round(x: real): (r: int)
    ensures r as real - 0.5 <= x < r as real + 0.5
  {
    (x + 0.5).Floor
  }

  /** `Math.clamp(double, double, double)`. */
  function ClampReal(v: real, lo: real, hi: real): (r: real)
    requires lo <= hi
    ensures lo <= r <= hi
    ensures lo <= v <= hi ==> r == v
    ensures v < lo ==> r == lo
    ensures hi < v ==> r == hi
  {
    if v < lo then lo else if hi < v then hi else v
  }

  /** `Math.max(Math.min(v, hi), lo)` on ints. */
  function ClampInt(v: int, lo: int, hi: int): (r: int)
    requires lo <= hi
    ensures lo <= r <= hi
    ensures lo <= v <= hi ==> r == v
    ensures v < lo ==> r == lo
    ensures hi < v ==> r == hi
  {
    if v < lo then lo else if hi < v then hi else v
  }

  /** An `(int)` cast of a `long` or `BigInteger.intValue()`: the low 32
      bits, read as two's complement. */
  function Int32(x: int): (r: int)
    ensures -0x8000_0000 <= r < 0x8000_0000
    ensures (x - r) % 0x1_0000_0000 == 0
    ensures -0x8000_0000 <= x < 0x8000_0000 ==> r == x
  {
    var low := x % 0x1_0000_0000;
    if low < 0x8000_0000 then low else low - 0x1_0000_0000
  }

  /** A `(byte)` cast keeps the low 8 bits; the value on the wire is that
      octet, here read as unsigned. */
  function LowByte(x: int): (b: int)
    ensures 0 <= b < 256
    ensures 0 <= x < 256 ==> b == x
    ensures (x - b) % 256 == 0
  {
    x % 256
  }

  /** A `(byte)` cast of a double: truncation to int, then the low 8 bits. */
  function ByteOfDouble(x: real): (b: int)
    ensures 0 <= b < 256
    ensures 0.0 <= x < 256.0 ==> b == x.Floor
  {
    LowByte(Trunc(x))
  }
}

/** C integer and byte semantics the firmware relies on, written out explicitly:
    Dafny's integers are unbounded and its `/` is Euclidean, the firmware's are
    fixed-width and truncating. */
module CTypes {

  /** One byte of a UART stream or a C character buffer. */
  newtype byte = x: int | 0 <= x < 256

  datatype Option<T> = None | Some(value: T)

  const NUL: byte := 0
  const LF: byte := 10
  const CR: byte := 13
  const SPACE: byte := 32
  const ZERO_DIGIT: byte := 48

  function Min(a: int, b: int): int { if a <= b then a else b }
  function Max(a: int, b: int): int { if a <= b then b else a }

  /** The bytes of a string literal of the firmware, all of whose characters are ASCII,
      as the C compiler lays it out (without its terminator): one byte per character. */
  function Ascii(s: string): (r: seq<byte>)
    ensures |r| == |s|
    ensures forall i :: 0 <= i < |s| ==> r[i] as int == s[i] as int % 256
  {
    seq(|s|, i requires 0 <= i < |s| => (s[i] as int % 256) as byte)
  }

  predicate IsDigit(b: byte) { '0' as int <= b as int <= '9' as int }

  /** C's `/` for a positive divisor: the quotient is truncated toward zero, so the
      remainder `a - q * b` is smaller than `b` in magnitude and carries the sign of `a`. */
  function CDiv(a: int, b: int): (q: int)
    requires b > 0
    ensures -b < a - q * b < b
    ensures a >= 0 ==> q >= 0 && a - q * b >= 0
    ensures a <= 0 ==> q <= 0 && a - q * b <= 0
  {
    if a >= 0 then a / b else -((-a) / b)
  }

  /** Conversion of an `int` to `int8_t` (two's complement wrap). */
  function Int8(x: int): (r: int)
    ensures -128 <= r < 128 && (x - r) % 256 == 0
    ensures -128 <= x < 128 ==> r == x
  {
    var m := x % 256;
    if m >= 128 then m - 256 else m
  }

  /** Conversion of an `int` to `int16_t` (two's complement wrap). */
  function Int16(x: int): (r: int)
    ensures -32768 <= r < 32768 && (x - r) % 65536 == 0
    ensures -32768 <= x < 32768 ==> r == x
  {
    var m := x % 65536;
    if m >= 32768 then m - 65536 else m
  }

  /** Conversion of an `int` to `uint8_t` (reduction modulo 256). */
  function Uint8(x: int): (r: int)
    ensures 0 <= r < 256 && (x - r) % 256 == 0
    ensures 0 <= x < 256 ==> r == x
  {
    x % 256
  }

  /** A 32-bit `long` result, as the RP2040's arithmetic wraps it. */
  function Int32(x: int): (r: int)
    ensures -0x8000_0000 <= r < 0x8000_0000 && (x - r) % 0x1_0000_0000 == 0
    ensures -0x8000_0000 <= x < 0x8000_0000 ==> r == x
  {
    var m := x % 0x1_0000_0000;
    if m >= 0x8000_0000 then m - 0x1_0000_0000 else m
  }
}

/** Fixed-width C integers and the conversions the firmware relies on. */
module Machine {
  datatype Option<+T> = None | Some(value: T)

  const TWO32: int := 0x1_0000_0000

  type uint8 = x: int | 0 <= x < 0x100
  newtype byte = x: int | 0 <= x < 0x100
  type Bytes = seq<byte>

  type uint16 = x: int | 0 <= x < 0x1_0000
  type uint32 = x: int | 0 <= x < 0x1_0000_0000
  type int8 = x: int | -0x80 <= x < 0x80

  /** Casts to an unsigned type keep the value modulo the width. */
  function U8(x: int): uint8 { x % 0x100 }
  function U16(x: int): uint16 { x % 0x1_0000 }
  function U32(x: int): uint32 { x % 0x1_0000_0000 }

  /** `(int8_t)x`: two's complement. */
  function I8(x: int): int8 { (x + 0x80) % 0x100 - 0x80 }

  /** C division truncates toward zero; Dafny's is Euclidean. */
  function TruncDiv(a: int, b: int): int
    requires b > 0
  {
    if a >= 0 then a / b else -((-a) / b)
  }

  /** `(int)f` for a float: truncation toward zero. */
  function TruncReal(x: real): int {
    if x >= 0.0 then x.Floor else -((-x).Floor)
  }

  /** The distance of two sequence numbers on the 8-bit circle is their true
      distance whenever that fits an int8. */
  lemma I8OfWrappedDifference(n: int, last: int)
    requires -0x80 <= n - last < 0x80
    ensures I8(U8(n) - U8(last)) == n - last
  {
    var a, b := n / 0x100, last / 0x100;
    assert U8(n) - U8(last) + 0x80 == (n - last + 0x80) + 0x100 * (b - a);
    ModShift(n - last + 0x80, b - a);
  }

  lemma ModShift(r: int, k: int)
    requires 0 <= r < 0x100
    ensures (r + 0x100 * k) % 0x100 == r
  {
  }

  lemma U32Add(a: int, b: int)
    ensures U32(U32(a) + b) == U32(a + b)
  {
  }

  lemma Regroup<T>(a: seq<T>, b: seq<T>, c: seq<T>)
    ensures (a + b) + c == a + (b + c)
  {
  }
}

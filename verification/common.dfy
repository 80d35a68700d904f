/** Fixed-width integers, bit access and the small datatypes every module shares. */
module Common {

  /** C's `uint8_t`, `uint16_t` and `uint32_t`. */
  type byte = b: int | 0 <= b < 0x100
  type u16 = v: int | 0 <= v < 0x1_0000
  type u32 = v: int | 0 <= v < 0x1_0000_0000

  datatype Option<T> = None | Some(value: T)

  /** An out-parameter of a C function: a null pointer, or a pointer to a cell holding `value`. */
  datatype Out<T> = Null | Cell(value: T)

  /** The weight of bit `k` of a byte. */
  function Weight(k: nat): (w: nat)
    requires k < 8
    ensures w >= 1
  {
    [1, 2, 4, 8, 16, 32, 64, 128][k]
  }

  /** Bit `k` of `b` (bit 0 is the least significant): `b & BIT(k)`. */
  predicate Bit(b: byte, k: nat)
    requires k < 8
  {
    (b / Weight(k)) % 2 == 1
  }

  /** The conversion of an integer to `uint8_t`: its value modulo 2^8. */
  function Low8(v: int): (b: byte)
    ensures 0 <= v < 0x100 ==> b == v
  {
    v % 0x100
  }

  /** The conversion of an integer to `uint16_t`: its value modulo 2^16. */
  function Low16(v: int): (r: u16)
    ensures 0 <= v < 0x1_0000 ==> r == v
  {
    v % 0x1_0000
  }

  /** The conversion of an integer to `uint32_t`: its value modulo 2^32. */
  function Low32(v: int): (r: u32)
    ensures 0 <= v < 0x1_0000_0000 ==> r == v
  {
    v % 0x1_0000_0000
  }

  /** The conversion of an integer to `int16_t` (two's complement wrap-around). */
  function ToInt16(v: int): (r: int)
    ensures -0x8000 <= r < 0x8000
    ensures -0x8000 <= v < 0x8000 ==> r == v
  {
    var u := v % 0x1_0000;
    if u < 0x8000 then u else u - 0x1_0000
  }

  function Abs(v: int): nat
  {
    if v < 0 then -v else v
  }
}

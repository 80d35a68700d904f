/** Byte splitting and the truncating port read of `utils.c`. */
module Utils {
  import opened Common

  /** `(uint8_t) val`: the low byte of a 16-bit value. */
  function Lsb(val: u16): byte
  {
    val % 0x100
  }

  /** `(uint8_t) (val >> 8)`: the high byte of a 16-bit value. */
  function Msb(val: u16): byte
  {
    val / 0x100
  }

  /** Splitting a 16-bit value and joining the halves again gives the value back. */
  lemma SplitRoundTrip(val: u16)
    ensures Msb(val) * 0x100 + Lsb(val) == val
  {
  }

  /** Joining two bytes and splitting the result gives the two bytes back. */
  lemma JoinRoundTrip(hi: byte, lo: byte)
    ensures 0 <= hi * 0x100 + lo < 0x1_0000
    ensures Msb(hi * 0x100 + lo) == hi && Lsb(hi * 0x100 + lo) == lo
  {
  }

  /** The return code of a helper and the content of its out-parameter afterwards. */
  datatype Stored = Stored(code: int, cell: Out<byte>)

  /** One answer of the `sys_inb` kernel call: its return code and the 32-bit word it read. */
  datatype Inb = Inb(code: int, word: u32)

  /** `util_get_LSB`: a null pointer gives 1; otherwise the low byte is stored and 0 returned. */
  function UtilGetLsb(val: u16, lsb: Out<byte>): (r: Stored)
    ensures lsb.Null? ==> r == Stored(1, Null)
    ensures lsb.Cell? ==> r.code == 0 && r.cell.Cell? && (val - r.cell.value) % 0x100 == 0
  {
    if lsb.Null? then Stored(1, Null) else Stored(0, Cell(Lsb(val)))
  }

  /** `util_get_MSB`: a null pointer gives 1; otherwise the high byte is stored and 0 returned. */
  function UtilGetMsb(val: u16, msb: Out<byte>): (r: Stored)
    ensures msb.Null? ==> r == Stored(1, Null)
    ensures msb.Cell? ==> r.code == 0 && r.cell.Cell? && r.cell.value * 0x100 <= val < (r.cell.value + 1) * 0x100
  {
    if msb.Null? then Stored(1, Null) else Stored(0, Cell(Msb(val)))
  }

  /**
   * `util_sys_inb`: a null pointer gives 1 without reading; otherwise the low byte of the word
   * `sys_inb` delivered is stored, whatever its code, and that code is returned unchanged.
   */
  function UtilSysInb(answer: Inb, value: Out<byte>): (r: Stored)
    ensures value.Null? ==> r == Stored(1, Null)
    ensures value.Cell? ==> r.code == answer.code && r.cell.Cell? && (answer.word - r.cell.value) % 0x100 == 0
  {
    if value.Null? then Stored(1, Null) else Stored(answer.code, Cell(Low8(answer.word)))
  }

  /** The two helpers together give back every 16-bit value. */
  lemma GetBytesRoundTrip(val: u16, a: byte, b: byte)
    ensures var hi := UtilGetMsb(val, Cell(a)); var lo := UtilGetLsb(val, Cell(b));
      hi.cell.Cell? && lo.cell.Cell? && hi.cell.value * 0x100 + lo.cell.value == val
  {
    SplitRoundTrip(val);
  }
}

/** The i8254 programmable interval timer: frequency programming, status decoding and the tick counter. */
module Timer {
  import opened Common
  import opened Utils

  /** One port write of the timer driver. */
  datatype TimerWrite =
    | ReadBack(timer: byte)               // the read-back command sent to the control register
    | Control(value: byte)                // a control word sent to the control register
    | Counter(timer: byte, value: byte)   // a byte sent to the counter register of `timer`

  /** The control word in arithmetic terms: the low four status bits, both access bits set, the timer number in bits 6-7. */
  function ControlWordSpec(conf: byte, timer: byte): (w: byte)
    ensures w % 16 == conf % 16 && (w / 16) % 4 == 3 && w / 64 == timer % 4
  {
    conf % 16 + 0x30 + (timer % 4) * 64
  }

  lemma ControlBits(x: bv8, t: bv8)
    ensures ((x | 0x30) & 0x3F) | (t << 6) == (x & 0x0F) | 0x30 | ((t & 3) << 6)
  {
  }

  lemma LowNibbleAsInt(x: bv8)
    ensures (x & 0x0F) as int == (x as int) % 16
  {
  }

  lemma LowPairAsInt(x: bv8)
    ensures (x & 3) as int == (x as int) % 4
  {
    assert x & 3 == x % 4;
  }

  /** The bit pattern of a `uint8_t`, built from its bits most significant first. */
  function Bits(x: byte): bv8
    decreases x
  {
    if x == 0 then 0 else (Bits(x / 2) << 1) | Parity(x)
  }

  function Parity(x: byte): (c: bv8)
    ensures c as int == x % 2
  {
    if x % 2 == 1 then 1 else 0
  }

  lemma ShiftInBit(b: bv8, c: bv8)
    requires b as int < 128 && c as int < 2
    ensures ((b << 1) | c) as int == 2 * (b as int) + c as int
  {
  }

  /** Reading the bit pattern of a byte as an unsigned number gives the byte back. */
  lemma {:induction false} BitsValue(x: byte)
    ensures Bits(x) as int == x
    decreases x
  {
    if x > 0 {
      BitsValue(x / 2);
      ShiftInBit(Bits(x / 2), Parity(x));
    }
  }

  lemma NibbleOfByte(x: byte)
    ensures (Bits(x) & 0x0F) as int == x % 16
  {
    BitsValue(x);
    LowNibbleAsInt(Bits(x));
  }

  lemma PairOfByte(x: byte)
    ensures (Bits(x) & 3) as int == x % 4
  {
    BitsValue(x);
    LowPairAsInt(Bits(x));
  }

  lemma DisjointFieldsAsInt(a: bv8, b: bv8)
    requires a < 16 && b < 4
    ensures (a | 0x30 | (b << 6)) as int == a as int + 0x30 + (b as int) * 64
  {
  }

  /** The 8-bit operations of the control word agree with its arithmetic meaning. */
  lemma ControlWordAsInt(conf: byte, timer: byte)
    ensures (((Bits(conf) | 0x30) & 0x3F) | (Bits(timer) << 6)) as int == ControlWordSpec(conf, timer)
  {
    var c: bv8 := Bits(conf);
    var t: bv8 := Bits(timer);
    ControlBits(c, t);
    NibbleOfByte(conf);
    PairOfByte(timer);
    WordFromFields(conf, timer, c & 0x0F, t & 3);
  }

  lemma WordFromFields(conf: byte, timer: byte, a: bv8, b: bv8)
    requires a as int == conf % 16 && b as int == timer % 4
    ensures (a | 0x30 | (b << 6)) as int == ControlWordSpec(conf, timer)
  {
    DisjointFieldsAsInt(a, b);
  }

  /** The accepted range of `timer_set_frequency` as written: from `tf / 65535`, rounded down, to `tf`. */
  predicate InRangeAsWritten(tf: nat, freq: u32)
  {
    !(freq < tf / 65535 || freq > tf)
  }

  /** The counter value as written: the quotient stored in a `uint16_t`. */
  function CounterAsWritten(tf: nat, freq: u32): u16
    requires freq > 0
  {
    Low16(tf / freq)
  }

  /**
   * As written, the lower bound rounds down, so with the usual 1193182 Hz clock 18 Hz is
   * accepted although its divisor 66287 does not fit in 16 bits: the counter wraps to 751 and
   * the timer runs at about 1589 Hz.
   */
  lemma CounterWraps()
    ensures InRangeAsWritten(1193182, 18)
    ensures 1193182 / 18 == 66287 && CounterAsWritten(1193182, 18) == 751
  {
  }

  /** The evidently intended range: every frequency whose divisor fits the 16-bit counter. */
  predicate InRangeIntended(tf: nat, freq: u32)
  {
    0 < freq <= tf && tf / freq <= 0xFFFF
  }

  /** In the intended range the counter holds the exact divisor, so the programmed frequency is within one divisor step of `freq`. */
  lemma IntendedCounterExact(tf: nat, freq: u32)
    requires InRangeIntended(tf, freq)
    ensures CounterAsWritten(tf, freq) == tf / freq >= 1
    ensures CounterAsWritten(tf, freq) * freq <= tf < (CounterAsWritten(tf, freq) + 1) * freq
  {
  }

  /**
   * The control word `timer_set_frequency` builds in an 8-bit variable: the status read back,
   * with the access bits set, the timer bits cleared and then set to the timer number.
   */
  method BuildControlWord(conf: byte, timer: byte) returns (w: byte)
    ensures w == ControlWordSpec(conf, timer)
  {
    var st: bv8 := Bits(conf);
    st := st | 0x30;
    st := st & 0x3F;
    st := st | (Bits(timer) << 6);
    ControlWordAsInt(conf, timer);
    w := st as int;
  }

  /**
   * `timer_set_frequency`: out of range it gives 1 before any port access; otherwise it reads
   * the timer's status back, sends the control word built from it, then the counter's low and
   * high byte, and returns the code of the last write.
   */
  method SetFrequency(tf: nat, timer: byte, freq: u32, conf: Inb, lastCode: int) returns (r: int, writes: seq<TimerWrite>)
    requires tf >= 65535
    ensures !InRangeAsWritten(tf, freq) ==> r == 1 && writes == []
    ensures InRangeAsWritten(tf, freq) ==>
      freq > 0 && r == lastCode &&
      writes == [ReadBack(timer), Control(ControlWordSpec(Low8(conf.word), timer)),
                 Counter(timer, Lsb(CounterAsWritten(tf, freq))), Counter(timer, Msb(CounterAsWritten(tf, freq)))]
  {
    var minFreq := tf / 65535;
    if freq < minFreq || freq > tf {
      return 1, [];
    }
    var counterValue: u16 := Low16(tf / freq);
    var msb := UtilGetMsb(counterValue, Cell(0));
    var lsb := UtilGetLsb(counterValue, Cell(0));
    var got := UtilSysInb(conf, Cell(0));
    var st := BuildControlWord(got.cell.value, timer);
    writes := [ReadBack(timer), Control(st), Counter(timer, lsb.cell.value), Counter(timer, msb.cell.value)];
    r := lastCode;
  }

  /** The field of the status byte `timer_display_conf` is asked to show. */
  datatype Field = All | Initial | Mode | Base | Other(code: int)

  datatype InitMode = InvalVal | LsbOnly | MsbOnly | MsbAfterLsb

  /** The union `timer_status_field_val` handed to the printer. */
  datatype ConfigVal = Whole(b: byte) | InMode(im: InitMode) | CountMode(mode: byte) | Bcd(bcd: bool)

  /** The access mode in bits 5:4 of the status byte. */
  function InitModeOf(st: byte): (m: InitMode)
    ensures (st / 16) % 4 == 3 <==> m == MsbAfterLsb
    ensures (st / 16) % 4 == 2 <==> m == MsbOnly
    ensures (st / 16) % 4 == 1 <==> m == LsbOnly
    ensures (st / 16) % 4 == 0 <==> m == InvalVal
  {
    if Bit(st, 4) && Bit(st, 5) then MsbAfterLsb
    else if Bit(st, 5) then MsbOnly
    else if Bit(st, 4) then LsbOnly
    else InvalVal
  }

  /** The counting mode in bits 3:1, where 6 and 7 are the alternative codes of modes 2 and 3. */
  function CountModeOf(st: byte): (m: byte)
    ensures m <= 5
    ensures (st / 2) % 8 <= 5 ==> m == (st / 2) % 8
    ensures (st / 2) % 8 > 5 ==> m == (st / 2) % 4
  {
    var field := (st / 2) % 8;
    if field == 6 then 2 else if field == 7 then 3 else field
  }

  /** The counting base as the code computes it: `bool bcd = st`, true for every non-zero byte. */
  function BaseAsWritten(st: byte): bool
  {
    st != 0
  }

  /** The counting base as the 8254 encodes it: bit 0 of the status byte. */
  function BaseOf(st: byte): (bcd: bool)
    ensures bcd <==> st % 2 == 1
  {
    Bit(st, 0)
  }

  /** A timer counting in binary, mode 2, with both counter bytes, is reported as counting in BCD. */
  lemma BaseAsWrittenMisreports()
    ensures BaseAsWritten(0x34) && !BaseOf(0x34)
  {
  }

  /** Programming a frequency keeps the timer's counting base, and the decoder reads it back. */
  lemma BaseSurvivesControlWord(conf: byte, timer: byte)
    ensures BaseOf(ControlWordSpec(conf, timer)) == BaseOf(conf)
    ensures InitModeOf(ControlWordSpec(conf, timer)) == MsbAfterLsb
  {
  }

  /**
   * `timer_display_conf`: the decoded field and the printer's result; an unknown field gives 1
   * and prints nothing.
   */
  function DisplayConf(st: byte, field: Field, printCode: int): (r: (int, Option<ConfigVal>))
    ensures field.Other? <==> r == (1, None)
    ensures !field.Other? ==> r.0 == printCode && r.1.Some?
    ensures field == Initial ==> r.1 == Some(InMode(InitModeOf(st)))
    ensures field == All ==> r.1 == Some(Whole(st))
    ensures field == Mode ==> r.1 == Some(CountMode(CountModeOf(st))) && r.1.value.mode <= 5
    ensures field == Base ==> r.1 == Some(Bcd(BaseAsWritten(st)))
  {
    match field
    case All => (printCode, Some(Whole(st)))
    case Initial => (printCode, Some(InMode(InitModeOf(st))))
    case Mode => (printCode, Some(CountMode(CountModeOf(st))))
    case Base => (printCode, Some(Bcd(BaseAsWritten(st))))
    case Other(_) => (1, None)
  }

  /** The global `timer_counter`. */
  class TimerDevice {
    var counter: int

    constructor ()
      ensures counter == 0
    {
      counter := 0;
    }

    /** `timer_int_handler`. */
    method IntHandler()
      modifies this
      ensures counter == old(counter) + 1
    {
      counter := counter + 1;
    }
  }
}

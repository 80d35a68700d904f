/** The keyboard side of the i8042 driver: command writes, polled reads and scan-code assembly. */
module Keyboard {
  import opened Common
  import opened Utils
  import opened I8042

  /** `is_valid_kb_st`: a keyboard byte is trusted unless a parity error, a timeout or the AUX bit is flagged. */
  predicate IsValidKbSt(st: byte)
  {
    !Bit(st, ParityErr) && !Bit(st, TimeoutErr) && !Bit(st, Aux)
  }

  /** The keyboard accepts exactly the status bytes whose three top bits are clear. */
  lemma ValidKbStIffTopBitsClear(st: byte)
    ensures IsValidKbSt(st) <==> st < 0x20
  {
    assert Bit(st, ParityErr) <==> st >= 0x80;
    assert Bit(st, TimeoutErr) <==> (st / 0x40) % 2 == 1;
    assert Bit(st, Aux) <==> (st / 0x20) % 2 == 1;
    if st < 0x20 {
      assert st / 0x40 == 0 && st / 0x20 == 0;
    } else if st < 0x40 {
      assert st / 0x20 == 1;
    } else if st < 0x80 {
      assert st / 0x40 == 1;
    }
  }

  /** The read loop of `kbc_read_value`, with the keyboard's status check. */
  function ReadValueSpec(polls: seq<Inb>, answer: Inb): (r: ReadOutcome)
    requires MaxAttempts <= |polls|
    ensures r.code == 0 ==> IsValidKbSt(r.status) && r.data == Some(Low8(answer.word))
    ensures r.code == 1 ==> r.data.None?
  {
    ReadLoop(polls, answer, IsValidKbSt, 0)
  }

  /**
   * What `process_scancode` works on: the `is_make`, `size` and `bytes` it writes through its
   * pointers, and the global `skip_print`.
   */
  datatype Scan = Scan(isMake: bool, size: byte, bytes: seq<byte>, skipPrint: bool)

  /** The code a handler looks at: the second byte of a two-byte code, else the first. */
  function KeyCode(size: byte, bytes: seq<byte>): byte
    requires |bytes| == 2
  {
    if size == 2 then bytes[1] else bytes[0]
  }

  /** Bit 7 of a scan code is set exactly for the codes from 0x80 on. */
  lemma BreakBitIffHigh(b: byte)
    ensures Bit(b, BreakBit) <==> b >= 0x80
  {
  }

  /**
   * `process_scancode` applied to the byte `b` just read. The prefix 0xE0 opens a two-byte code
   * and suppresses dispatch; any other byte becomes the code the handlers read, a make code
   * exactly when it is below 0x80.
   */
  function ScanStep(s: Scan, b: byte): (r: Scan)
    requires |s.bytes| == 2
    ensures |r.bytes| == 2
    ensures b == ScancodePrefix ==>
      r.bytes[0] == ScancodePrefix && r.size == 2 && r.skipPrint && r.isMake == s.isMake && r.bytes[1] == s.bytes[1]
    ensures b != ScancodePrefix ==> KeyCode(r.size, r.bytes) == b && r.size == s.size && (r.isMake <==> b < 0x80)
    ensures b != ScancodePrefix && s.size == 2 ==> !r.skipPrint && r.bytes[0] == s.bytes[0]
    ensures b != ScancodePrefix && s.size != 2 ==> r.skipPrint == s.skipPrint && r.bytes[1] == s.bytes[1]
  {
    BreakBitIffHigh(b);
    if b == ScancodePrefix then
      s.(bytes := [b, s.bytes[1]], skipPrint := true, size := 2)
    else if s.size == 2 then
      s.(bytes := [s.bytes[0], b], isMake := !Bit(b, BreakBit), skipPrint := false)
    else
      s.(bytes := [b, s.bytes[1]], isMake := !Bit(b, BreakBit))
  }

  /** The prefix 0xE0 followed by any other byte assembles the two-byte code `[0xE0, b]`, ready for dispatch. */
  lemma TwoByteCode(s: Scan, b: byte)
    requires |s.bytes| == 2 && b != ScancodePrefix
    ensures var r := ScanStep(ScanStep(s, ScancodePrefix), b);
      r.bytes == [ScancodePrefix, b] && r.size == 2 && !r.skipPrint && (r.isMake <==> !Bit(b, BreakBit))
  {
    BreakBitIffHigh(b);
  }

  /** A one-byte code read with `size` 1 is dispatched as itself and leaves the suppression flag alone. */
  lemma OneByteCode(s: Scan, b: byte)
    requires |s.bytes| == 2 && s.size == 1 && b != ScancodePrefix
    ensures var r := ScanStep(s, b);
      r.bytes[0] == b && r.size == 1 && r.skipPrint == s.skipPrint && KeyCode(r.size, r.bytes) == b
  {
  }

  /** The globals of `keyboard.c`. */
  class KeyboardDriver {
    var data: byte       // keyboard_data
    var status: byte     // kbd_status_byte
    var discard: bool    // discard_keyboard_data
    var skipPrint: bool  // skip_print

    constructor ()
      ensures data == 0 && status == 0 && !discard && !skipPrint
    {
      data := 0;
      status := 0;
      discard := false;
      skipPrint := false;
    }

    /**
     * `kbc_issue_cmd`: up to ten status polls; the first with the input buffer empty writes
     * `cmd` to port `p` once and gives 0; ten busy polls give -1 and write nothing.
     */
    method IssueCmd(p: byte, cmd: byte, polls: seq<Inb>) returns (r: int, writes: seq<PortWrite>)
      requires MaxAttempts <= |polls|
      modifies this`status
      ensures match FirstStop(InputEmpty, polls, 0)
        case Some(k) => r == 0 && writes == [PortWrite(p, cmd)] && status == StatusOf(polls[k])
        case None => r == -1 && writes == [] && status == StatusOf(polls[MaxAttempts - 1])
    {
      var attempts: byte := 10;
      while attempts > 0
        invariant attempts <= 10
        invariant FirstStop(InputEmpty, polls, 0) == FirstStop(InputEmpty, polls, MaxAttempts - attempts)
        invariant attempts < 10 ==> status == StatusOf(polls[MaxAttempts - 1 - attempts])
      {
        var i := MaxAttempts - attempts;
        var st := UtilSysInb(polls[i], Cell(status));
        assert st.cell.value == StatusOf(polls[i]);
        status := st.cell.value;
        if !Bit(status, Ibf) {
          assert FirstStop(InputEmpty, polls, i) == Some(i);
          return 0, [PortWrite(p, cmd)];
        }
        assert FirstStop(InputEmpty, polls, i) == FirstStop(InputEmpty, polls, i + 1);
        attempts := attempts - 1;
      }
      return -1, [];
    }

    /** `kbc_read_cmd`: asks for the command byte and returns whatever the data register then holds. */
    method ReadCmd(polls: seq<Inb>, answer: Inb) returns (cmd: byte, writes: seq<PortWrite>)
      requires MaxAttempts <= |polls|
      modifies this`status
      ensures cmd == Low8(answer.word)
      ensures match FirstStop(InputEmpty, polls, 0)
        case Some(k) => writes == [PortWrite(CommandReg, ReadCmdByte)] && status == StatusOf(polls[k])
        case None => writes == [] && status == StatusOf(polls[MaxAttempts - 1])
    {
      var _, w := IssueCmd(CommandReg, ReadCmdByte, polls);
      writes := w;
      var got := UtilSysInb(answer, Cell(0));
      cmd := got.cell.value;
    }

    /**
     * `kbc_read_value`: the polled output-buffer read. Only a read that reached the data
     * register changes `data`; a timeout leaves it untouched.
     */
    method ReadValue(polls: seq<Inb>, answer: Inb) returns (r: int)
      requires MaxAttempts <= |polls|
      modifies this`status, this`data
      ensures var o := ReadValueSpec(polls, answer);
        r == o.code && status == o.status && data == (if o.data.Some? then o.data.value else old(data))
    {
      var attempts: byte := 10;
      while attempts > 0
        invariant attempts <= 10
        invariant attempts > 0 ==> ReadValueSpec(polls, answer) == ReadLoop(polls, answer, IsValidKbSt, MaxAttempts - attempts)
        invariant attempts == 0 ==> ReadValueSpec(polls, answer) == ReadOutcome(1, status, None)
        invariant data == old(data)
      {
        var i := MaxAttempts - attempts;
        var st := UtilSysInb(polls[i], Cell(status));
        status := st.cell.value;
        if st.code != 0 {
          return -1;
        }
        if Bit(status, Obf) {
          var d := UtilSysInb(answer, Cell(data));
          data := d.cell.value;
          if d.code != 0 {
            return -1;
          }
          if !IsValidKbSt(status) {
            return -1;
          }
          return 0;
        }
        attempts := attempts - 1;
      }
      return 1;
    }

    /** `kbc_ih`: a failed read raises the discard flag; nothing here lowers it. */
    method InterruptHandler(polls: seq<Inb>, answer: Inb)
      requires MaxAttempts <= |polls|
      modifies this`status, this`data, this`discard
      ensures var o := ReadValueSpec(polls, answer);
        discard == (old(discard) || o.code != 0) && status == o.status &&
        data == (if o.data.Some? then o.data.value else old(data))
    {
      var r := ReadValue(polls, answer);
      if r != 0 {
        discard := true;
      }
    }

    /** `process_scancode`: folds `data` into the code under assembly held by the caller. */
    method ProcessScancode(isMake: bool, size: byte, bytes: array<byte>) returns (isMake': bool, size': byte)
      requires bytes.Length == 2
      modifies bytes, this`skipPrint
      ensures var r := ScanStep(Scan(isMake, size, old(bytes[..]), old(skipPrint)), data);
        isMake' == r.isMake && size' == r.size && bytes[..] == r.bytes && skipPrint == r.skipPrint
    {
      isMake', size' := isMake, size;
      if data == ScancodePrefix {
        bytes[0] := data;
        skipPrint := true;
        size' := 2;
      } else {
        if size == 2 {
          bytes[1] := data;
          isMake' := !Bit(data, BreakBit);
          skipPrint := false;
        } else {
          bytes[0] := data;
          isMake' := !Bit(data, BreakBit);
        }
      }
    }
  }
}

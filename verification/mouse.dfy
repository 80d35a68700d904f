/** The mouse side of the i8042 driver: polled reads, command writes and packet assembly. */
module Mouse {
  import opened Common
  import opened Utils
  import opened I8042
  import Keyboard

  /** `is_valid_m_st`: a mouse byte is trusted unless a parity error or a timeout is flagged, or the AUX bit is clear. */
  predicate IsValidMSt(st: byte)
  {
    !Bit(st, ParityErr) && !Bit(st, TimeoutErr) && Bit(st, Aux)
  }

  /** The mouse accepts exactly the status bytes from 0x20 to 0x3F. */
  lemma ValidMStIffAuxOnly(st: byte)
    ensures IsValidMSt(st) <==> 0x20 <= st < 0x40
  {
    if st < 0x20 {
      assert st / 0x20 == 0;
    } else if st < 0x40 {
      assert st / 0x20 == 1 && st / 0x40 == 0;
    } else if st < 0x80 {
      assert st / 0x40 == 1;
    }
  }

  /** No status byte is accepted by both drivers: the AUX bit tells the two sources apart. */
  lemma NoStatusValidForBoth(st: byte)
    ensures !(IsValidMSt(st) && Keyboard.IsValidKbSt(st))
  {
    ValidMStIffAuxOnly(st);
    Keyboard.ValidKbStIffTopBitsClear(st);
  }

  /** The read loop of `m_read_obf_byte`, with the mouse's status check. */
  function ReadObfSpec(polls: seq<Inb>, answer: Inb): (r: ReadOutcome)
    requires MaxAttempts <= |polls|
    ensures r.code == 0 ==> IsValidMSt(r.status) && r.data == Some(Low8(answer.word))
    ensures r.code == 1 ==> r.data.None?
  {
    ReadLoop(polls, answer, IsValidMSt, 0)
  }

  /** Bits of the first packet byte. */
  const LeftButton: nat := 0
  const RightButton: nat := 1
  const MiddleButton: nat := 2
  const SyncBit: nat := 3
  const MsbXDelta: nat := 4
  const MsbYDelta: nat := 5
  const XOverflow: nat := 6
  const YOverflow: nat := 7

  /** The LCF `struct packet`: the raw bytes, the decoded buttons and overflow flags, and the 16-bit deltas. */
  datatype Packet = Packet(bytes: seq<byte>, lb: bool, rb: bool, mb: bool, xOv: bool, yOv: bool, deltaX: int, deltaY: int)

  /**
   * A delta as the packet handler builds it in an `int16_t`: `0xFF00 | b` when the sign bit is
   * set, `b` otherwise. The result is the 9-bit two's complement number with sign `negative`
   * and low byte `b`.
   */
  function Delta(negative: bool, b: byte): (d: int)
    ensures -0x100 <= d < 0x100
    ensures d < 0 <==> negative
    ensures Low8(d) == b
    ensures d == (if negative then b - 0x100 else b)
  {
    ToInt16(if negative then 0xFF00 + b else b)
  }

  /** The handler's result: the new `mouse_count`, the packet, and whether the byte was dropped as out of sync. */
  datatype Rx = Rx(count: byte, packet: Packet, desync: bool)

  /**
   * `mouse_packet_handler` for the byte `b` in slot `count`. A first byte without the sync bit
   * is dropped and the count stays 0; slots 0, 1 and 2 store the byte and advance the count; a
   * count of 3 or more goes back to 0 without touching the packet.
   */
  function PacketStep(count: byte, p: Packet, b: byte): (r: Rx)
    requires |p.bytes| == 3
    ensures |r.packet.bytes| == 3
    ensures count == 0 && !Bit(b, SyncBit) ==> r == Rx(0, p, true)
    ensures count == 0 && Bit(b, SyncBit) ==>
      r.count == 1 && !r.desync && r.packet.bytes == p.bytes[0 := b] &&
      r.packet.lb == Bit(b, LeftButton) && r.packet.rb == Bit(b, RightButton) && r.packet.mb == Bit(b, MiddleButton) &&
      r.packet.xOv == Bit(b, XOverflow) && r.packet.yOv == Bit(b, YOverflow) &&
      r.packet.(bytes := p.bytes, lb := p.lb, rb := p.rb, mb := p.mb, xOv := p.xOv, yOv := p.yOv) == p
    ensures 1 <= count <= 2 ==> r.count == count + 1 && !r.desync && r.packet.bytes[count] == b
    ensures count == 1 ==> Low8(r.packet.deltaX) == b && (r.packet.deltaX < 0 <==> Bit(p.bytes[0], MsbXDelta))
    ensures count == 1 ==>
      r.packet == p.(bytes := p.bytes[1 := b], deltaX := b - (if Bit(p.bytes[0], MsbXDelta) then 0x100 else 0))
    ensures count == 2 ==> Low8(r.packet.deltaY) == b && (r.packet.deltaY < 0 <==> Bit(p.bytes[0], MsbYDelta))
    ensures count == 2 ==>
      r.packet == p.(bytes := p.bytes[2 := b], deltaY := b - (if Bit(p.bytes[0], MsbYDelta) then 0x100 else 0))
    ensures count >= 3 ==> r == Rx(0, p, false)
  {
    if count == 0 then
      if !Bit(b, SyncBit) then Rx(0, p, true)
      else Rx(1, p.(bytes := [b, p.bytes[1], p.bytes[2]], lb := Bit(b, LeftButton), rb := Bit(b, RightButton),
                    mb := Bit(b, MiddleButton), xOv := Bit(b, XOverflow), yOv := Bit(b, YOverflow)), false)
    else if count == 1 then
      Rx(2, p.(bytes := [p.bytes[0], b, p.bytes[2]], deltaX := Delta(Bit(p.bytes[0], MsbXDelta), b)), false)
    else if count == 2 then
      Rx(3, p.(bytes := [p.bytes[0], p.bytes[1], b], deltaY := Delta(Bit(p.bytes[0], MsbYDelta), b)), false)
    else Rx(0, p, false)
  }

  /**
   * Three bytes starting with a synchronised one assemble one packet: the raw bytes in order,
   * the buttons of byte 0 and the deltas `b1 - 256*bit4(b0)` and `b2 - 256*bit5(b0)`.
   */
  lemma AssemblePacket(p: Packet, b0: byte, b1: byte, b2: byte)
    requires |p.bytes| == 3 && Bit(b0, SyncBit)
    ensures var r0 := PacketStep(0, p, b0);
      var r1 := PacketStep(r0.count, r0.packet, b1);
      var r2 := PacketStep(r1.count, r1.packet, b2);
      !r0.desync && !r1.desync && !r2.desync && r2.count == 3 &&
      r2.packet.bytes == [b0, b1, b2] &&
      r2.packet.lb == Bit(b0, LeftButton) && r2.packet.rb == Bit(b0, RightButton) && r2.packet.mb == Bit(b0, MiddleButton) &&
      r2.packet.xOv == Bit(b0, XOverflow) && r2.packet.yOv == Bit(b0, YOverflow) &&
      r2.packet.deltaX == b1 - (if Bit(b0, MsbXDelta) then 0x100 else 0) &&
      r2.packet.deltaY == b2 - (if Bit(b0, MsbYDelta) then 0x100 else 0)
  {
    var r0 := PacketStep(0, p, b0);
    assert r0.packet.bytes[0] == b0;
    var r1 := PacketStep(r0.count, r0.packet, b1);
    assert r1.packet.bytes[..2] == [b0, b1];
  }

  /** The count never leaves 0..3, so a packet is never written past its third byte. */
  lemma CountStaysInRange(count: byte, p: Packet, b: byte)
    requires |p.bytes| == 3 && count <= 3
    ensures PacketStep(count, p, b).count <= 3
  {
  }

  /**
   * The result `kbc_issue_mouse_cmd` gives, as written: 0 exactly when the mouse data variable
   * holds the acknowledgement after the read, whatever the read and the two writes returned.
   */
  function MouseCmdAsWritten(oldData: byte, polls: seq<Inb>, answer: Inb): (r: int)
    requires MaxAttempts <= |polls|
    ensures var o := ReadObfSpec(polls, answer);
      r == 0 <==> (if o.data.Some? then o.data.value else oldData) == Ack
  {
    var o := ReadObfSpec(polls, answer);
    var d := if o.data.Some? then o.data.value else oldData;
    if d == Ack then 0 else -1
  }

  /** Ten quiet status polls: no error and an empty output buffer each time. */
  function QuietPolls(): (polls: seq<Inb>)
    ensures |polls| == MaxAttempts
    ensures forall k :: 0 <= k < MaxAttempts ==> !Stops(OutputFull, polls[k])
  {
    seq(MaxAttempts, _ => Inb(0, 0))
  }

  /**
   * As written, a read that times out leaves the previous acknowledgement in place and the
   * command is reported as acknowledged although the mouse answered nothing.
   */
  lemma StaleAckReportsSuccess(answer: Inb)
    ensures ReadObfSpec(QuietPolls(), answer).code == 1
    ensures MouseCmdAsWritten(Ack, QuietPolls(), answer) == 0
  {
  }

  /**
   * The evidently intended result: success only when both command bytes were written, the read
   * returned 0 and the byte it read is the acknowledgement.
   */
  function MouseCmdChecked(issued: int, sent: int, o: ReadOutcome): (r: int)
    ensures r == 0 <==> issued == 0 && sent == 0 && o.code == 0 && o.data == Some(Ack)
  {
    if issued != 0 || sent != 0 || o.code != 0 then -1
    else if o.data == Some(Ack) then 0 else -1
  }

  /** With the checks, a timed-out read can never be taken for an acknowledgement. */
  lemma CheckedRejectsTimeout(issued: int, sent: int, answer: Inb)
    ensures MouseCmdChecked(issued, sent, ReadObfSpec(QuietPolls(), answer)) == -1
  {
  }

  /** The globals of `mouse.c` that belong to the byte-level driver. */
  class MouseDriver {
    var status: byte   // mouse_status_byte
    var data: byte     // mouse_data
    var discard: bool  // discard_mouse_data
    var count: byte    // mouse_count

    constructor ()
      ensures status == 0 && data == 0 && !discard && count == 0
    {
      status := 0;
      data := 0;
      discard := false;
      count := 0;
    }

    /** `m_read_obf_byte`: the polled read of one byte from the mouse. */
    method ReadObfByte(polls: seq<Inb>, answer: Inb) returns (r: int)
      requires MaxAttempts <= |polls|
      modifies this`status, this`data
      ensures var o := ReadObfSpec(polls, answer);
        r == o.code && status == o.status && data == (if o.data.Some? then o.data.value else old(data))
    {
      var attempts: byte := 10;
      while attempts > 0
        invariant attempts <= 10
        invariant attempts > 0 ==> ReadObfSpec(polls, answer) == ReadLoop(polls, answer, IsValidMSt, MaxAttempts - attempts)
        invariant attempts == 0 ==> ReadObfSpec(polls, answer) == ReadOutcome(1, status, None)
        invariant data == old(data)
      {
        var i := MaxAttempts - attempts;
        var st := UtilSysInb(polls[i], Cell(status));
        status := st.cell.value;
        if st.code != 0 {
          return -1;
        }
        if Bit(status, Obf) {
          var d := UtilSysInb(answer, Cell(data));
          data := d.cell.value;
          if d.code != 0 {
            return -1;
          }
          if !IsValidMSt(status) {
            return -1;
          }
          return 0;
        }
        attempts := attempts - 1;
      }
      return 1;
    }

    /** `mouse_ih`: any non-zero read result raises the discard flag. */
    method InterruptHandler(polls: seq<Inb>, answer: Inb)
      requires MaxAttempts <= |polls|
      modifies this`status, this`data, this`discard
      ensures var o := ReadObfSpec(polls, answer);
        discard == (old(discard) || o.code != 0) && status == o.status &&
        data == (if o.data.Some? then o.data.value else old(data))
    {
      var r := ReadObfByte(polls, answer);
      if r != 0 {
        discard := true;
      }
    }

    /** `mouse_packet_handler`: stores `data` in the caller's packet; always returns 0. */
    method PacketHandler(p: Packet) returns (r: int, p': Packet)
      requires |p.bytes| == 3
      modifies this`count, this`discard
      ensures var rx := PacketStep(old(count), p, data);
        r == 0 && p' == rx.packet && count == rx.count && discard == (old(discard) || rx.desync)
    {
      r := 0;
      p' := p;
      if count == 0 {
        if !Bit(data, SyncBit) {
          discard := true;
          return;
        }
        p' := p'.(bytes := [data, p'.bytes[1], p'.bytes[2]], lb := Bit(data, LeftButton), rb := Bit(data, RightButton),
                  mb := Bit(data, MiddleButton), xOv := Bit(data, XOverflow), yOv := Bit(data, YOverflow));
        count := count + 1;
      } else if count == 1 {
        p' := p'.(bytes := [p'.bytes[0], data, p'.bytes[2]]);
        if Bit(p'.bytes[0], MsbXDelta) {
          p' := p'.(deltaX := ToInt16(0xFF00 + data));
          assert p'.deltaX == Delta(true, data);
        } else {
          p' := p'.(deltaX := data);
          assert p'.deltaX == Delta(false, data);
        }
        count := count + 1;
      } else if count == 2 {
        p' := p'.(bytes := [p'.bytes[0], p'.bytes[1], data]);
        if Bit(p'.bytes[0], MsbYDelta) {
          p' := p'.(deltaY := ToInt16(0xFF00 + data));
          assert p'.deltaY == Delta(true, data);
        } else {
          p' := p'.(deltaY := data);
          assert p'.deltaY == Delta(false, data);
        }
        count := count + 1;
      } else {
        count := 0;
      }
    }

    /**
     * `kbc_issue_mouse_cmd`, as written: writes 0xD4 to the command register and `cmd` to the
     * input buffer, reads one byte, and reports success iff the data variable then holds the
     * acknowledgement, ignoring the results of all three calls.
     */
    method IssueMouseCmd(kbd: Keyboard.KeyboardDriver, cmd: byte, polls1: seq<Inb>, polls2: seq<Inb>,
                         readPolls: seq<Inb>, answer: Inb) returns (r: int, writes: seq<PortWrite>)
      requires MaxAttempts <= |polls1| && MaxAttempts <= |polls2| && MaxAttempts <= |readPolls|
      modifies kbd`status, this`status, this`data
      ensures r == MouseCmdAsWritten(old(data), readPolls, answer)
      ensures writes ==
        (if FirstStop(InputEmpty, polls1, 0).Some? then [PortWrite(CommandReg, WriteByteToMouse)] else []) +
        (if FirstStop(InputEmpty, polls2, 0).Some? then [PortWrite(InBuf, cmd)] else [])
      ensures var o := ReadObfSpec(readPolls, answer);
        status == o.status && data == (if o.data.Some? then o.data.value else old(data))
      ensures match FirstStop(InputEmpty, polls2, 0)
        case Some(k) => kbd.status == StatusOf(polls2[k])
        case None => kbd.status == StatusOf(polls2[MaxAttempts - 1])
    {
      var _, w1 := kbd.IssueCmd(CommandReg, WriteByteToMouse, polls1);
      var _, w2 := kbd.IssueCmd(InBuf, cmd, polls2);
      writes := w1 + w2;
      var _ := ReadObfByte(readPolls, answer);
      if data == Ack {
        r := 0;
      } else {
        r := -1;
      }
    }
  }
}

/**
 * Registers and status bits of the i8042 keyboard controller, and the bounded polling
 * discipline shared by the keyboard and the mouse drivers: at most ten status polls, each
 * followed by a delay when it does not end the wait.
 */
module I8042 {
  import opened Common
  import opened Utils

  const StatusReg: byte := 0x64
  const CommandReg: byte := 0x64
  const OutBuf: byte := 0x60
  const InBuf: byte := 0x60

  /** Bit numbers in the status register. */
  const ParityErr: nat := 7
  const TimeoutErr: nat := 6
  const Aux: nat := 5
  const Ibf: nat := 1
  const Obf: nat := 0

  const ReadCmdByte: byte := 0x20
  const WriteByteToMouse: byte := 0xD4
  const Ack: byte := 0xFA

  /** Scan codes the game reacts to. */
  const ScancodePrefix: byte := 0xE0
  const BreakBit: nat := 7
  const SpacebarBreak: byte := 0xB9
  const ArrowUpBreak: byte := 0xC8
  const ArrowDownBreak: byte := 0xD0
  const WMake: byte := 0x11
  const AMake: byte := 0x1E
  const SMake: byte := 0x1F
  const DMake: byte := 0x20

  /** `uint8_t attempts = 10`. */
  const MaxAttempts: nat := 10

  /** One `sys_outb` call: a port and the byte written to it. */
  datatype PortWrite = PortWrite(port: byte, value: byte)

  /** What a polling loop waits for: the input buffer to empty, or the output buffer to fill. */
  datatype Wait = InputEmpty | OutputFull

  /** The status byte a poll leaves behind: the low byte of the word read. */
  function StatusOf(answer: Inb): byte
  {
    Low8(answer.word)
  }

  /**
   * Whether a status poll ends the wait. A command write ignores the code of the status read;
   * an output-buffer read stops on a failed status read as well as on a full buffer.
   */
  predicate Stops(w: Wait, answer: Inb)
  {
    match w
    case InputEmpty => !Bit(StatusOf(answer), Ibf)
    case OutputFull => answer.code != 0 || Bit(StatusOf(answer), Obf)
  }

  /** The first of the polls `i .. MaxAttempts-1` that ends the wait, if any. */
  function FirstStop(w: Wait, polls: seq<Inb>, i: nat): (r: Option<nat>)
    requires i <= MaxAttempts <= |polls|
    decreases MaxAttempts - i
    ensures r.Some? ==> i <= r.value < MaxAttempts && Stops(w, polls[r.value])
    ensures r.Some? ==> forall k :: i <= k < r.value ==> !Stops(w, polls[k])
    ensures r.None? <==> forall k :: i <= k < MaxAttempts ==> !Stops(w, polls[k])
  {
    if i == MaxAttempts then None
    else if Stops(w, polls[i]) then Some(i)
    else FirstStop(w, polls, i + 1)
  }

  /**
   * The end of an output-buffer read: the return code, the status byte left in the status
   * variable, and the byte written into the data variable, if the data register was read.
   */
  datatype ReadOutcome = ReadOutcome(code: int, status: byte, data: Option<byte>)

  /**
   * The output-buffer read loop from poll `i` on, as the loop runs it: a failed status read
   * gives -1; a full buffer is read (the byte is stored whatever the read's code) and gives -1
   * on a failed read or an invalid status, 0 otherwise; ten quiet polls give 1.
   */
  function ReadLoop(polls: seq<Inb>, data: Inb, valid: byte -> bool, i: nat): (r: ReadOutcome)
    requires i < MaxAttempts <= |polls|
    decreases MaxAttempts - i
    ensures r.code in {-1, 0, 1}
    ensures r.code == 1 <==> forall k :: i <= k < MaxAttempts ==> !Stops(OutputFull, polls[k])
    ensures r.code == 1 ==> r.data.None? && r.status == StatusOf(polls[MaxAttempts - 1])
    ensures r.code == 0 ==> data.code == 0 && r.data == Some(Low8(data.word)) && valid(r.status) && Bit(r.status, Obf)
  {
    var st := StatusOf(polls[i]);
    if polls[i].code != 0 then ReadOutcome(-1, st, None)
    else if Bit(st, Obf) then
      var b := Low8(data.word);
      if data.code != 0 || !valid(st) then ReadOutcome(-1, st, Some(b)) else ReadOutcome(0, st, Some(b))
    else if i + 1 == MaxAttempts then ReadOutcome(1, st, None)
    else ReadLoop(polls, data, valid, i + 1)
  }

  /**
   * The read loop described without recursion: everything is decided by the first poll that
   * ends the wait.
   */
  lemma {:induction false} ReadLoopByFirstStop(polls: seq<Inb>, data: Inb, valid: byte -> bool, i: nat)
    requires i < MaxAttempts <= |polls|
    decreases MaxAttempts - i
    ensures var r := ReadLoop(polls, data, valid, i);
      match FirstStop(OutputFull, polls, i)
      case None => r == ReadOutcome(1, StatusOf(polls[MaxAttempts - 1]), None)
      case Some(k) =>
        var st := StatusOf(polls[k]);
        r.status == st &&
        (polls[k].code != 0 ==> r.code == -1 && r.data.None?) &&
        (polls[k].code == 0 ==>
           r.data == Some(Low8(data.word)) &&
           (r.code == 0 <==> data.code == 0 && valid(st)) &&
           (r.code != 0 ==> r.code == -1))
  {
    if Stops(OutputFull, polls[i]) || i + 1 == MaxAttempts {
    } else {
      ReadLoopByFirstStop(polls, data, valid, i + 1);
    }
  }
}

/**
 * The per-notification body of `proj_main_loop` in `proj.c`: it runs the interrupt handlers of
 * the mouse, the timer and the keyboard, decides when a mouse packet or a scan code is
 * complete, and hands complete ones, and every other timer tick, to the dispatcher.
 */
module EventLoop {
  import opened Common
  import opened Utils
  import opened I8042
  import opened StateStore
  import opened Mouse
  import opened Keyboard
  import opened Timer

  /** The bits `*_subscribe_int` hand back: `BIT(hook_id)` of each device. */
  const TimerHook: nat := 0
  const KeyboardHook: nat := 1
  const MouseHook: nat := 5

  /** The interrupt of hook `k` is flagged in the notification's mask. */
  predicate Pending(mask: u32, k: nat)
    requires k < 8
  {
    (mask / Weight(k)) % 2 == 1
  }

  /** A dispatcher entry point the loop calls, with what it passes. */
  datatype Call =
    | MouseDispatch(packet: Packet)                          // mouse_state_handler
    | GameTick                                               // game_state_handler
    | KeyDispatch(isMake: bool, size: byte, bytes: seq<byte>) // kbd_state_handler

  /** The globals and loop locals the body reads and writes. */
  datatype LoopState = LoopState(
    mouseStatus: byte, mouseData: byte, mouseDiscard: bool, mouseCount: byte, packet: Packet,
    counter: int,
    kbdStatus: byte, kbdData: byte, kbdDiscard: bool, scan: Scan)
  {
    predicate Valid()
    {
      |packet.bytes| == 3 && |scan.bytes| == 2
    }
  }

  /**
   * The mouse branch: `mouse_ih`, then, unless the read failed or the flag was already up, the
   * packet handler; a third byte dispatches the packet and resets the count. The discard flag
   * is lowered in every case.
   */
  function MouseIrq(g: LoopState, o: ReadOutcome): (r: (LoopState, seq<Call>))
    requires g.Valid()
    ensures r.0.Valid()
  {
    var discard := g.mouseDiscard || o.code != 0;
    var data := if o.data.Some? then o.data.value else g.mouseData;
    var g1 := g.(mouseStatus := o.status, mouseData := data, mouseDiscard := false);
    if discard then (g1, [])
    else
      var rx := PacketStep(g.mouseCount, g.packet, data);
      if rx.count == 3 then (g1.(mouseCount := 0, packet := rx.packet), [MouseDispatch(rx.packet)])
      else (g1.(mouseCount := rx.count, packet := rx.packet), [])
  }

  /** The timer branch: `timer_int_handler`, and a game tick when the count becomes even. */
  function TimerIrq(g: LoopState): (LoopState, seq<Call>)
  {
    var c := g.counter + 1;
    (g.(counter := c), if c % 2 == 0 then [GameTick] else [])
  }

  /**
   * The keyboard branch: `kbc_ih`, then, unless the read failed or the flag was already up,
   * `process_scancode`; a complete code is dispatched and `size` goes back to 1. The discard
   * flag is lowered and the timer count reset in every case.
   */
  function KbdIrq(g: LoopState, o: ReadOutcome): (r: (LoopState, seq<Call>))
    requires g.Valid()
    ensures r.0.Valid()
  {
    var discard := g.kbdDiscard || o.code != 0;
    var data := if o.data.Some? then o.data.value else g.kbdData;
    var g1 := g.(kbdStatus := o.status, kbdData := data, kbdDiscard := false, counter := 0);
    if discard then (g1, []) else KbdScan(g1)
  }

  /** `process_scancode` on the byte in `data`; a complete code is dispatched and `size` goes back to 1. */
  function KbdScan(g: LoopState): (r: (LoopState, seq<Call>))
    requires g.Valid()
    ensures r.0.Valid()
  {
    var s := ScanStep(g.scan, g.kbdData);
    if !s.skipPrint then (g.(scan := s.(size := 1)), [KeyDispatch(s.isMake, s.size, s.bytes)])
    else (g.(scan := s), [])
  }

  /** One hardware notification: the pending sources in the order mouse, timer, keyboard. */
  function Step(g: LoopState, mask: u32, mo: ReadOutcome, ko: ReadOutcome): (r: (LoopState, seq<Call>))
    requires g.Valid()
    ensures r.0.Valid()
  {
    var (g1, c1) := if Pending(mask, MouseHook) then MouseIrq(g, mo) else (g, []);
    var (g2, c2) := if Pending(mask, TimerHook) then TimerIrq(g1) else (g1, []);
    var (g3, c3) := if Pending(mask, KeyboardHook) then KbdIrq(g2, ko) else (g2, []);
    (g3, c1 + c2 + c3)
  }

  /**
   * A mouse interrupt leaves the discard flag down and the count in 0..2; it dispatches at
   * most one packet, exactly when an accepted byte completes it, and that packet is the one
   * now held, with the count back at 0.
   */
  lemma MouseIrqEffect(g: LoopState, o: ReadOutcome)
    requires g.Valid() && g.mouseCount <= 2
    ensures var (r, calls) := MouseIrq(g, o);
      && !r.mouseDiscard && r.mouseCount <= 2 && |calls| <= 1
      && (|calls| == 1 <==> !g.mouseDiscard && o.code == 0 && g.mouseCount == 2)
      && (|calls| == 1 ==> calls[0] == MouseDispatch(r.packet) && r.mouseCount == 0)
      && (g.mouseDiscard || o.code != 0 ==> r.mouseCount == g.mouseCount && r.packet == g.packet)
  {
  }

  /**
   * A keyboard interrupt always lowers the discard flag and resets the timer count. It
   * dispatches at most one code, and a lone 0xE0 prefix dispatches nothing: it only opens a
   * two-byte code. A dispatched code leaves `size` at 1.
   */
  lemma KbdIrqEffect(g: LoopState, o: ReadOutcome)
    requires g.Valid()
    ensures var (r, calls) := KbdIrq(g, o);
      && !r.kbdDiscard && r.counter == 0 && |calls| <= 1
      && (!g.kbdDiscard && o.code == 0 && o.data == Some(ScancodePrefix) ==> calls == [] && r.scan.size == 2 && r.scan.skipPrint)
      && (|calls| == 1 ==> r.scan.size == 1 && !r.scan.skipPrint && calls[0].KeyDispatch? && calls[0].bytes == r.scan.bytes)
      && (g.kbdDiscard || o.code != 0 ==> calls == [] && r.scan == g.scan)
  {
  }

  /** Which handler a call goes to, in the order the body visits the sources. */
  function Rank(c: Call): nat
  {
    match c
    case MouseDispatch(_) => 0
    case GameTick => 1
    case KeyDispatch(_, _, _) => 2
  }

  /**
   * Within one notification the calls come in source order (mouse, timer, keyboard); the game
   * ticks exactly when the timer interrupt brings the count to an even number, and a keyboard
   * interrupt in the same notification then resets the count.
   */
  lemma StepOrderAndTick(g: LoopState, mask: u32, mo: ReadOutcome, ko: ReadOutcome)
    requires g.Valid()
    ensures var (r, calls) := Step(g, mask, mo, ko);
      && (forall i, j :: 0 <= i < j < |calls| ==> Rank(calls[i]) <= Rank(calls[j]))
      && (GameTick in calls <==> Pending(mask, TimerHook) && (g.counter + 1) % 2 == 0)
      && r.counter == (if Pending(mask, KeyboardHook) then 0 else if Pending(mask, TimerHook) then g.counter + 1 else g.counter)
  {
    var (g1, c1) := if Pending(mask, MouseHook) then MouseIrq(g, mo) else (g, []);
    var (g2, c2) := if Pending(mask, TimerHook) then TimerIrq(g1) else (g1, []);
    var (g3, c3) := if Pending(mask, KeyboardHook) then KbdIrq(g2, ko) else (g2, []);
    MouseIrqCalls(g, mo);
    KbdIrqCalls(g2, ko);
    assert g1.counter == g.counter;
    assert Step(g, mask, mo, ko) == (g3, c1 + c2 + c3);
    SortedConcat(c1, c2, c3);
  }

  /** The mouse branch calls only the mouse handler and leaves the timer count alone. */
  lemma MouseIrqCalls(g: LoopState, o: ReadOutcome)
    requires g.Valid()
    ensures var (r, calls) := MouseIrq(g, o); r.counter == g.counter && forall c :: c in calls ==> Rank(c) == 0
  {
  }

  /** The keyboard branch calls only the keyboard handler and zeroes the timer count. */
  lemma KbdIrqCalls(g: LoopState, o: ReadOutcome)
    requires g.Valid()
    ensures var (r, calls) := KbdIrq(g, o); r.counter == 0 && forall c :: c in calls ==> Rank(c) == 2
  {
  }

  lemma SortedConcat(c1: seq<Call>, c2: seq<Call>, c3: seq<Call>)
    requires forall c :: c in c1 ==> Rank(c) == 0
    requires forall c :: c in c2 ==> Rank(c) == 1
    requires forall c :: c in c3 ==> Rank(c) == 2
    ensures var calls := c1 + c2 + c3; forall i, j :: 0 <= i < j < |calls| ==> Rank(calls[i]) <= Rank(calls[j])
  {
    var calls := c1 + c2 + c3;
    forall i, j | 0 <= i < j < |calls|
      ensures Rank(calls[i]) <= Rank(calls[j])
    {
      assert calls[i] in c1 || calls[i] in c2 || calls[i] in c3;
      assert calls[j] in c1 || calls[j] in c2 || calls[j] in c3;
    }
  }

  /** A notification with only the timer's bit set. */
  const TimerOnly: u32 := 1

  /** Two timer-only notifications in a row tick the game exactly once: the game runs at half the timer rate. */
  lemma TwoTicksOneFrame(g: LoopState, mo: ReadOutcome, ko: ReadOutcome)
    requires g.Valid()
    ensures var (g1, c1) := Step(g, TimerOnly, mo, ko);
      var (g2, c2) := Step(g1, TimerOnly, mo, ko);
      c1 + c2 == [GameTick] && g2.counter == g.counter + 2
  {
    assert Pending(TimerOnly, TimerHook) && !Pending(TimerOnly, MouseHook) && !Pending(TimerOnly, KeyboardHook);
    if g.counter % 2 == 0 {
      assert (g.counter + 1) % 2 == 1 && (g.counter + 2) % 2 == 0;
    } else {
      assert (g.counter + 1) % 2 == 0 && (g.counter + 2) % 2 == 1;
    }
  }

  /** A notification with only the mouse's bit set. */
  const MouseOnly: u32 := 32

  /** A mouse read that succeeded with byte `b`. */
  function ReadOk(st: byte, b: byte): ReadOutcome
  {
    ReadOutcome(0, st, Some(b))
  }

  /**
   * Three successful mouse interrupts starting with a synchronised byte, from a count of 0,
   * dispatch exactly one packet, built from the three bytes, and leave the count at 0.
   */
  lemma ThreeBytesOnePacket(g: LoopState, st: byte, b0: byte, b1: byte, b2: byte, ko: ReadOutcome)
    requires g.Valid() && g.mouseCount == 0 && !g.mouseDiscard && Bit(b0, SyncBit)
    ensures var (g1, c1) := Step(g, MouseOnly, ReadOk(st, b0), ko);
      var (g2, c2) := Step(g1, MouseOnly, ReadOk(st, b1), ko);
      var (g3, c3) := Step(g2, MouseOnly, ReadOk(st, b2), ko);
      && c1 + c2 + c3 == [MouseDispatch(g3.packet)]
      && g3.mouseCount == 0 && g3.packet.bytes == [b0, b1, b2]
      && g3.packet.deltaX == b1 - (if Bit(b0, MsbXDelta) then 0x100 else 0)
      && g3.packet.deltaY == b2 - (if Bit(b0, MsbYDelta) then 0x100 else 0)
  {
    assert Pending(MouseOnly, MouseHook) && !Pending(MouseOnly, TimerHook) && !Pending(MouseOnly, KeyboardHook);
    AssemblePacket(g.packet, b0, b1, b2);
  }

  /** A notification with only the keyboard's bit set. */
  const KeyboardOnly: u32 := 2

  /**
   * The prefix 0xE0 and a following byte, each read successfully by its own keyboard
   * interrupt, dispatch exactly one code, the two-byte `[0xE0, b]`, and leave `size` at 1.
   */
  lemma PrefixedKeyDispatchedOnce(g: LoopState, st: byte, b: byte, mo: ReadOutcome)
    requires g.Valid() && !g.kbdDiscard && b != ScancodePrefix
    ensures var (g1, c1) := Step(g, KeyboardOnly, mo, ReadOk(st, ScancodePrefix));
      var (g2, c2) := Step(g1, KeyboardOnly, mo, ReadOk(st, b));
      && c1 == [] && c2 == [KeyDispatch(!Bit(b, BreakBit), 2, [ScancodePrefix, b])]
      && g2.scan.size == 1 && !g2.kbdDiscard
  {
    assert Pending(KeyboardOnly, KeyboardHook) && !Pending(KeyboardOnly, TimerHook) && !Pending(KeyboardOnly, MouseHook);
    TwoByteCode(g.scan, b);
  }

  /**
   * One received notification: its interrupt mask, what the devices answer to the reads of
   * the handlers, and the state `get_state` reports once the dispatched handlers have run.
   */
  datatype Note = Note(mask: u32, mousePolls: seq<Inb>, mouseAnswer: Inb, kbdPolls: seq<Inb>, kbdAnswer: Inb, after: State)
  {
    predicate Valid()
    {
      MaxAttempts <= |mousePolls| && MaxAttempts <= |kbdPolls|
    }
  }

  /** The body on one notification, with the outcomes of the reads its handlers make. */
  function StepNote(g: LoopState, n: Note): (r: (LoopState, seq<Call>))
    requires g.Valid() && n.Valid()
    ensures r.0.Valid()
  {
    Step(g, n.mask, ReadObfSpec(n.mousePolls, n.mouseAnswer), ReadValueSpec(n.kbdPolls, n.kbdAnswer))
  }

  /** The body applied to each notification in turn, with the calls made in order. */
  function Run(g: LoopState, notes: seq<Note>): (r: (LoopState, seq<Call>))
    requires g.Valid() && forall i :: 0 <= i < |notes| ==> notes[i].Valid()
    ensures r.0.Valid()
    decreases |notes|
  {
    if notes == [] then (g, [])
    else
      var (g1, c1) := Run(g, notes[..|notes| - 1]);
      var (g2, c2) := StepNote(g1, notes[|notes| - 1]);
      (g2, c1 + c2)
  }

  /** Only the mouse branch touches the mouse count, and it keeps it in 0..2. */
  lemma StepKeepsMouseCount(g: LoopState, n: Note)
    requires g.Valid() && n.Valid() && g.mouseCount <= 2
    ensures StepNote(g, n).0.mouseCount <= 2
  {
    var mo := ReadObfSpec(n.mousePolls, n.mouseAnswer);
    MouseIrqEffect(g, mo);
  }

  /** No number of notifications takes the mouse count past 2, so a packet is never written past its end. */
  lemma {:induction false} RunKeepsMouseCount(g: LoopState, notes: seq<Note>)
    requires g.Valid() && g.mouseCount <= 2 && forall i :: 0 <= i < |notes| ==> notes[i].Valid()
    decreases |notes|
    ensures Run(g, notes).0.mouseCount <= 2
  {
    if notes != [] {
      RunKeepsMouseCount(g, notes[..|notes| - 1]);
      StepKeepsMouseCount(Run(g, notes[..|notes| - 1]).0, notes[|notes| - 1]);
    }
  }

  /**
   * How many notifications the loop has handled once it stops, having reached position `i`:
   * up to and including the first from `i` on after which the state is KILL, else all of them.
   */
  function HandledFrom(notes: seq<Note>, i: nat): (k: nat)
    requires i <= |notes|
    ensures i <= k <= |notes|
    decreases |notes| - i
  {
    if i == |notes| then i
    else if notes[i].after == Kill then i + 1
    else HandledFrom(notes, i + 1)
  }

  function Handled(notes: seq<Note>): nat
  {
    HandledFrom(notes, 0)
  }

  lemma {:induction false} HandledFromStopsAtKill(notes: seq<Note>, i: nat)
    requires i <= |notes|
    decreases |notes| - i
    ensures var k := HandledFrom(notes, i);
      && (forall j :: i <= j < k - 1 ==> notes[j].after != Kill)
      && (k < |notes| ==> k > i && notes[k - 1].after == Kill)
  {
    if i < |notes| && notes[i].after != Kill {
      HandledFromStopsAtKill(notes, i + 1);
    }
  }

  /**
   * The loop stops right after the first notification that leaves the game in KILL, and runs
   * through all notifications when none does.
   */
  lemma HandledIsFirstKill(notes: seq<Note>)
    ensures Handled(notes) <= |notes|
    ensures forall j :: 0 <= j < Handled(notes) - 1 ==> notes[j].after != Kill
    ensures Handled(notes) < |notes| ==> Handled(notes) > 0 && notes[Handled(notes) - 1].after == Kill
    ensures (exists j :: 0 <= j < |notes| && notes[j].after == Kill) ==> notes[Handled(notes) - 1].after == Kill
  {
    HandledFromStopsAtKill(notes, 0);
  }

  /** The globals and locals of `proj.c` that the body works on, with the device drivers holding the rest. */
  class MainLoop {
    const mouse: MouseDriver
    const kbd: KeyboardDriver
    const timer: TimerDevice
    const bytes: array<byte>
    var packet: Packet
    var size: byte
    var isMake: bool

    predicate Valid()
      reads this
    {
      bytes.Length == 2 && |packet.bytes| == 3
    }

    function Globals(): LoopState
      reads this, mouse, kbd, timer, bytes
    {
      LoopState(mouse.status, mouse.data, mouse.discard, mouse.count, packet, timer.counter,
              kbd.status, kbd.data, kbd.discard, Scan(isMake, size, bytes[..], kbd.skipPrint))
    }

    /** The loop's start: fresh drivers, `size` 1, a zeroed packet and code buffer. */
    constructor ()
      ensures Valid() && fresh(mouse) && fresh(kbd) && fresh(timer) && fresh(bytes)
      ensures Globals() == LoopState(0, 0, false, 0, Packet([0, 0, 0], false, false, false, false, false, 0, 0), 0,
                                   0, 0, false, Scan(false, 1, [0, 0], false))
    {
      mouse := new MouseDriver();
      kbd := new KeyboardDriver();
      timer := new TimerDevice();
      bytes := new byte[2](_ => 0);
      packet := Packet([0, 0, 0], false, false, false, false, false, 0, 0);
      size := 1;
      isMake := false;
    }

    /** The mouse branch of the body. */
    method OnMouse(polls: seq<Inb>, answer: Inb) returns (calls: seq<Call>)
      requires Valid() && MaxAttempts <= |polls|
      modifies this, mouse
      ensures Valid() && (Globals(), calls) == MouseIrq(old(Globals()), ReadObfSpec(polls, answer))
    {
      mouse.InterruptHandler(polls, answer);
      calls := [];
      if mouse.discard == false {
        var _, p := mouse.PacketHandler(packet);
        packet := p;
        if mouse.count == 3 {
          calls := [MouseDispatch(packet)];
          mouse.count := 0;
        }
      }
      mouse.discard := false;
    }

    /** The timer branch of the body. */
    method OnTimer() returns (calls: seq<Call>)
      requires Valid()
      modifies timer
      ensures Valid() && (Globals(), calls) == TimerIrq(old(Globals()))
    {
      timer.IntHandler();
      calls := if timer.counter % 2 == 0 then [GameTick] else [];
    }

    /** The keyboard branch of the body. */
    method OnKeyboard(polls: seq<Inb>, answer: Inb) returns (calls: seq<Call>)
      requires Valid() && MaxAttempts <= |polls|
      modifies this, kbd, timer, bytes
      ensures Valid() && (Globals(), calls) == KbdIrq(old(Globals()), ReadValueSpec(polls, answer))
    {
      ghost var g := Globals();
      ghost var o := ReadValueSpec(polls, answer);
      kbd.InterruptHandler(polls, answer);
      ghost var g1 := g.(kbdStatus := kbd.status, kbdData := kbd.data, kbdDiscard := false, counter := 0);
      ghost var r := g1;
      calls := [];
      if kbd.discard == false {
        assert Globals().(counter := 0) == g1;
        calls := TakeScancode();
        r := KbdScan(g1).0;
        assert Globals().(counter := 0) == r;
      }
      assert KbdIrq(g, o) == (r, calls);
      kbd.discard := false;
      timer.counter := 0;
      assert Globals() == r;
    }

    /** The scan-code part of the keyboard branch, once the byte read is kept. */
    method TakeScancode() returns (calls: seq<Call>)
      requires Valid()
      modifies this, kbd`skipPrint, bytes
      ensures Valid() && (Globals(), calls) == KbdScan(old(Globals()))
    {
      ghost var sc := ScanStep(Globals().scan, kbd.data);
      isMake, size := kbd.ProcessScancode(isMake, size, bytes);
      assert Scan(isMake, size, bytes[..], kbd.skipPrint) == sc;
      calls := [];
      if !kbd.skipPrint {
        calls := [KeyDispatch(isMake, size, bytes[..])];
        size := 1;
      }
    }

    /** The body of `proj_main_loop` for one hardware notification. */
    method HandleNotification(n: Note) returns (calls: seq<Call>)
      requires Valid() && n.Valid()
      modifies this, mouse, kbd, timer, bytes
      ensures Valid()
      ensures (Globals(), calls) == StepNote(old(Globals()), n)
    {
      ghost var mo, ko := ReadObfSpec(n.mousePolls, n.mouseAnswer), ReadValueSpec(n.kbdPolls, n.kbdAnswer);
      ghost var g0 := Globals();
      calls := [];
      if Pending(n.mask, MouseHook) {
        calls := OnMouse(n.mousePolls, n.mouseAnswer);
      }
      ghost var g1 := Globals();
      var c1 := calls;
      assert (g1, c1) == if Pending(n.mask, MouseHook) then MouseIrq(g0, mo) else (g0, []);
      var c2 := [];
      if Pending(n.mask, TimerHook) {
        c2 := OnTimer();
      }
      ghost var g2 := Globals();
      assert (g2, c2) == if Pending(n.mask, TimerHook) then TimerIrq(g1) else (g1, []);
      var c3 := [];
      if Pending(n.mask, KeyboardHook) {
        c3 := OnKeyboard(n.kbdPolls, n.kbdAnswer);
      }
      assert (Globals(), c3) == if Pending(n.mask, KeyboardHook) then KbdIrq(g2, ko) else (g2, []);
      calls := c1 + c2 + c3;
    }

    /** One pass of the loop: the run so far extended by notification `k`. */
    method Next(notes: seq<Note>, k: nat, ghost g0: LoopState, calls: seq<Call>) returns (calls': seq<Call>)
      requires Valid() && g0.Valid() && k < |notes| && forall i :: 0 <= i < |notes| ==> notes[i].Valid()
      requires (Globals(), calls) == Run(g0, notes[..k])
      modifies this, mouse, kbd, timer, bytes
      ensures Valid() && (Globals(), calls') == Run(g0, notes[..k + 1])
    {
      RunSnoc(g0, notes, k);
      var c := HandleNotification(notes[k]);
      calls' := calls + c;
    }

    /**
     * `proj_main_loop`'s `while (state != KILL)` from the state `init_game_state` returns:
     * notifications are handled one by one until one leaves the game in KILL (or none remain).
     */
    method Loop(notes: seq<Note>) returns (handled: nat, calls: seq<Call>)
      requires Valid() && forall i :: 0 <= i < |notes| ==> notes[i].Valid()
      modifies this, mouse, kbd, timer, bytes
      ensures Valid() && handled == Handled(notes)
      ensures (Globals(), calls) == Run(old(Globals()), notes[..handled])
    {
      ghost var g0 := Globals();
      var state := State.Initial;
      handled, calls := 0, [];
      while state != Kill && handled < |notes|
        invariant Valid() && handled <= |notes|
        invariant state != Kill ==> HandledFrom(notes, handled) == Handled(notes)
        invariant state == Kill ==> handled == Handled(notes)
        invariant g0 == old(Globals()) && (Globals(), calls) == Run(g0, notes[..handled])
      {
        calls := Next(notes, handled, g0, calls);
        state := notes[handled].after;
        handled := handled + 1;
      }
    }
  }

  /** Running one more notification is one more step after the run so far. */
  lemma RunSnoc(g: LoopState, notes: seq<Note>, k: nat)
    requires g.Valid() && k < |notes| && forall i :: 0 <= i < |notes| ==> notes[i].Valid()
    ensures var (g1, c1) := Run(g, notes[..k]);
      var (g2, c2) := StepNote(g1, notes[k]);
      Run(g, notes[..k + 1]) == (g2, c1 + c2)
  {
    assert notes[..k + 1][..k] == notes[..k];
  }

}

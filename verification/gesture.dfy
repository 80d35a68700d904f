/**
 * The two-stroke mouse gesture recogniser of `mouse.c`: a left-button stroke up and to the
 * right, a pause at the peak, then a right-button stroke down and to the right.
 */
module Gesture {
  import opened Common
  import Mouse

  datatype MouseState = Start | Drawing1 | Peak | Drawing2 | Complete

  /** The globals `currentState`, `x_sum` and `y_sum`. */
  datatype Gesture = Gesture(state: MouseState, xSum: int, ySum: int)

  /** `state_change`: the new state with both sums zeroed. */
  function Changed(s: MouseState): Gesture
  {
    Gesture(s, 0, 0)
  }

  predicate LeftOnly(p: Mouse.Packet)
  {
    p.lb && !(p.rb || p.mb)
  }

  predicate RightOnly(p: Mouse.Packet)
  {
    p.rb && !(p.lb || p.mb)
  }

  /** A delta against the stroke: negative with magnitude above the tolerance. */
  predicate Against(d: int, tol: byte)
  {
    d < 0 && Abs(d) > tol
  }

  function Max(a: int, b: int): int
  {
    if a < b then b else a
  }

  function Min(a: int, b: int): int
  {
    if a < b then a else b
  }

  /**
   * `mouse_state_machine` for one packet. The state switched on and the state written are the
   * same variable here.
   */
  function StateStep(g: Gesture, p: Mouse.Packet, xLen: byte, tol: byte): (r: Gesture)
    ensures r.state != g.state ==> r.xSum == 0 && r.ySum == 0
    ensures g.state == Complete ==> r == g
    ensures g.state == Start ==> (r.state == Drawing1 <==> LeftOnly(p)) && (r.state != Drawing1 ==> r == g)
    ensures g.state == Drawing1 && r.state == Peak ==> g.xSum >= xLen && g.ySum > g.xSum
    ensures g.state == Drawing2 && r.state == Complete ==> g.xSum >= xLen && -g.ySum > g.xSum
    ensures g.state == Peak && r.state == Drawing2 ==> p.rb && !p.lb && !p.mb && Abs(p.deltaX) <= tol && Abs(p.deltaY) <= tol
  {
    match g.state
    case Start =>
      if LeftOnly(p) then Changed(Drawing1) else g
    case Drawing1 =>
      if LeftOnly(p) then
        var x := g.xSum + p.deltaX;
        var y := g.ySum + p.deltaY;
        if Against(p.deltaX, tol) || Against(p.deltaY, tol) then Changed(Start)
        else Gesture(Drawing1, if x < 0 then 0 else x, if y < 0 then 0 else y)
      else if !p.rb && !(p.rb || p.mb) then
        if g.xSum >= xLen && g.ySum > g.xSum then Changed(Peak) else Changed(Start)
      else g
    case Peak =>
      if p.lb || p.mb || Abs(p.deltaX) > tol || Abs(p.deltaY) > tol then Changed(Start)
      else if p.rb then Changed(Drawing2)
      else g
    case Drawing2 =>
      if RightOnly(p) then
        var x := g.xSum + p.deltaX;
        var y := g.ySum + p.deltaY;
        if Against(p.deltaX, tol) || Against(-p.deltaY, tol) then Changed(Start)
        else Gesture(Drawing2, if x < 0 then 0 else x, if y > 0 then 0 else y)
      else if !p.rb && !(p.rb || p.mb) then
        if g.xSum >= xLen && -g.ySum > g.xSum then Changed(Complete) else Changed(Start)
      else g
    case Complete => g
  }

  /**
   * The sums each state can hold: none outside the strokes, a non-negative pair while drawing
   * up-right, a rightward and downward pair while drawing down-right.
   */
  predicate Inv(g: Gesture)
  {
    match g.state
    case Drawing1 => g.xSum >= 0 && g.ySum >= 0
    case Drawing2 => g.xSum >= 0 && g.ySum <= 0
    case _ => g.xSum == 0 && g.ySum == 0
  }

  /** Every packet keeps the sums within what the state allows. */
  lemma StepKeepsInv(g: Gesture, p: Mouse.Packet, xLen: byte, tol: byte)
    requires Inv(g)
    ensures Inv(StateStep(g, p, xLen, tol))
  {
  }

  /** A middle-button press during a stroke neither aborts nor advances the gesture. */
  lemma MiddleButtonHolds(g: Gesture, p: Mouse.Packet, xLen: byte, tol: byte)
    requires g.state == Drawing1 || g.state == Drawing2
    requires p.mb
    ensures StateStep(g, p, xLen, tol) == g
  {
  }

  /** A releasing packet at the end of the first stroke reaches the peak exactly when the stroke was long and steep enough. */
  lemma ReleaseAtPeak(g: Gesture, p: Mouse.Packet, xLen: byte, tol: byte)
    requires g.state == Drawing1 && !p.lb && !p.rb && !p.mb
    ensures var r := StateStep(g, p, xLen, tol);
      (r.state == Peak <==> g.xSum >= xLen && g.ySum > g.xSum) && (r.state != Peak ==> r == Changed(Start))
  {
  }

  /**
   * A packet without the right and the middle button ends the second stroke, whether or not
   * the left button is down; it completes the gesture exactly when the stroke was long and
   * steep enough.
   */
  lemma ReleaseAtComplete(g: Gesture, p: Mouse.Packet, xLen: byte, tol: byte)
    requires g.state == Drawing2 && !p.rb && !p.mb
    ensures var r := StateStep(g, p, xLen, tol);
      (r.state == Complete <==> g.xSum >= xLen && -g.ySum > g.xSum) && (r.state != Complete ==> r == Changed(Start))
  {
  }

  /**
   * At the peak, the left or middle button or any movement above the tolerance restarts the
   * gesture; otherwise the right button starts the second stroke, and no button keeps waiting.
   */
  lemma PeakRules(g: Gesture, p: Mouse.Packet, xLen: byte, tol: byte)
    requires g.state == Peak
    ensures var r := StateStep(g, p, xLen, tol);
      && (r == Changed(Start) <==> p.lb || p.mb || Abs(p.deltaX) > tol || Abs(p.deltaY) > tol)
      && (r.state == Drawing2 <==> p.rb && !p.lb && !p.mb && Abs(p.deltaX) <= tol && Abs(p.deltaY) <= tol)
      && (r.state == Drawing2 ==> r == Changed(Drawing2))
      && (!p.lb && !p.rb && !p.mb && Abs(p.deltaX) <= tol && Abs(p.deltaY) <= tol ==> r == g)
  {
  }

  /**
   * During the first stroke (left button alone), a delta that moves left or down by more than
   * the tolerance restarts the gesture; otherwise the deltas are added to the sums, each
   * clamped at 0 from below.
   */
  lemma FirstStrokeRules(g: Gesture, p: Mouse.Packet, xLen: byte, tol: byte)
    requires g.state == Drawing1 && LeftOnly(p)
    ensures var r := StateStep(g, p, xLen, tol);
      && ((p.deltaX < 0 && Abs(p.deltaX) > tol) || (p.deltaY < 0 && Abs(p.deltaY) > tol) ==> r == Changed(Start))
      && (!(p.deltaX < 0 && Abs(p.deltaX) > tol) && !(p.deltaY < 0 && Abs(p.deltaY) > tol) ==>
            r == Gesture(Drawing1, Max(0, g.xSum + p.deltaX), Max(0, g.ySum + p.deltaY)))
  {
  }

  /**
   * During the second stroke (right button alone), a delta that moves left or up by more than
   * the tolerance restarts the gesture; otherwise the deltas are added to the sums, the x sum
   * clamped at 0 from below and the y sum at 0 from above.
   */
  lemma SecondStrokeRules(g: Gesture, p: Mouse.Packet, xLen: byte, tol: byte)
    requires g.state == Drawing2 && RightOnly(p)
    ensures var r := StateStep(g, p, xLen, tol);
      && ((p.deltaX < 0 && Abs(p.deltaX) > tol) || (p.deltaY > 0 && Abs(p.deltaY) > tol) ==> r == Changed(Start))
      && (!(p.deltaX < 0 && Abs(p.deltaX) > tol) && !(p.deltaY > 0 && Abs(p.deltaY) > tol) ==>
            r == Gesture(Drawing2, Max(0, g.xSum + p.deltaX), Min(0, g.ySum + p.deltaY)))
  {
  }

  /** The machine fed a sequence of packets in order. */
  function Run(g: Gesture, ps: seq<Mouse.Packet>, xLen: byte, tol: byte): (r: Gesture)
    decreases |ps|
  {
    if ps == [] then g else Run(StateStep(g, ps[0], xLen, tol), ps[1..], xLen, tol)
  }

  /** Every run from a state within the invariant stays within it. */
  lemma {:induction false} RunKeepsInv(g: Gesture, ps: seq<Mouse.Packet>, xLen: byte, tol: byte)
    requires Inv(g)
    ensures Inv(Run(g, ps, xLen, tol))
    decreases |ps|
  {
    if ps != [] {
      StepKeepsInv(g, ps[0], xLen, tol);
      RunKeepsInv(StateStep(g, ps[0], xLen, tol), ps[1..], xLen, tol);
    }
  }

  /** Once complete, the gesture stays complete whatever follows. */
  lemma {:induction false} CompleteIsFinal(ps: seq<Mouse.Packet>, x: int, y: int, xLen: byte, tol: byte)
    ensures Run(Gesture(Complete, x, y), ps, xLen, tol) == Gesture(Complete, x, y)
    decreases |ps|
  {
    if ps != [] {
      CompleteIsFinal(ps[1..], x, y, xLen, tol);
    }
  }

  function Pkt(lb: bool, rb: bool, mb: bool, dx: int, dy: int): Mouse.Packet
  {
    Mouse.Packet([0, 0, 0], lb, rb, mb, false, false, dx, dy)
  }

  /** The whole gesture: press left, stroke up-right, release, press right, stroke down-right, release. */
  lemma RecognisesGesture()
    ensures Run(Changed(Start),
                [Pkt(true, false, false, 0, 0), Pkt(true, false, false, 12, 15), Pkt(false, false, false, 0, 0),
                 Pkt(false, true, false, 0, 0), Pkt(false, true, false, 12, -15), Pkt(false, false, false, 0, 0)],
                10, 2).state == Complete
  {
    var ps := [Pkt(true, false, false, 0, 0), Pkt(true, false, false, 12, 15), Pkt(false, false, false, 0, 0),
               Pkt(false, true, false, 0, 0), Pkt(false, true, false, 12, -15), Pkt(false, false, false, 0, 0)];
    var g1 := StateStep(Changed(Start), ps[0], 10, 2);
    assert g1 == Changed(Drawing1);
    var g2 := StateStep(g1, ps[1], 10, 2);
    assert g2 == Gesture(Drawing1, 12, 15);
    var g3 := StateStep(g2, ps[2], 10, 2);
    assert g3 == Changed(Peak);
    var g4 := StateStep(g3, ps[3], 10, 2);
    assert g4 == Changed(Drawing2);
    var g5 := StateStep(g4, ps[4], 10, 2);
    assert g5 == Gesture(Drawing2, 12, -15);
    var g6 := StateStep(g5, ps[5], 10, 2);
    assert g6 == Changed(Complete);
    assert ps[1..][1..][1..][1..][1..][1..] == [];
    CompleteIsFinal([], 0, 0, 10, 2);
  }

  /** The globals of the recogniser. */
  class GestureMachine {
    var state: MouseState  // currentState
    var xSum: int          // x_sum
    var ySum: int          // y_sum

    function Model(): Gesture
      reads this
    {
      Gesture(state, xSum, ySum)
    }

    constructor ()
      ensures Model() == Changed(Start)
    {
      state := Start;
      xSum := 0;
      ySum := 0;
    }

    /** `state_change`. */
    method StateChange(newState: MouseState)
      modifies this
      ensures Model() == Changed(newState)
    {
      xSum := 0;
      ySum := 0;
      state := newState;
    }

    /** `state_maintain`: adds the packet's deltas to the sums. */
    method StateMaintain(p: Mouse.Packet)
      modifies this
      ensures Model() == Gesture(old(state), old(xSum) + p.deltaX, old(ySum) + p.deltaY)
    {
      xSum := xSum + p.deltaX;
      ySum := ySum + p.deltaY;
    }

    /** `mouse_state_machine`. */
    method StateMachine(p: Mouse.Packet, xLen: byte, tol: byte)
      modifies this
      ensures Model() == StateStep(old(Model()), p, xLen, tol)
    {
      match state
      case Start =>
        if p.lb && !(p.rb || p.mb) {
          StateChange(Drawing1);
        }
      case Drawing1 =>
        if p.lb && !(p.rb || p.mb) {
          StateMaintain(p);
          if xSum < 0 { xSum := 0; }
          if ySum < 0 { ySum := 0; }
          if (p.deltaX < 0 && Abs(p.deltaX) > tol) || (p.deltaY < 0 && Abs(p.deltaY) > tol) {
            StateChange(Start);
          }
        } else if !p.rb && !(p.rb || p.mb) {
          if xSum >= xLen && ySum > xSum {
            StateChange(Peak);
          } else {
            StateChange(Start);
          }
        }
      case Peak =>
        if p.lb || p.mb || Abs(p.deltaX) > tol || Abs(p.deltaY) > tol {
          StateChange(Start);
        } else if p.rb {
          StateChange(Drawing2);
        }
      case Drawing2 =>
        if p.rb && !(p.lb || p.mb) {
          StateMaintain(p);
          if xSum < 0 { xSum := 0; }
          if ySum > 0 { ySum := 0; }
          if (p.deltaX < 0 && Abs(p.deltaX) > tol) || (p.deltaY > 0 && Abs(p.deltaY) > tol) {
            StateChange(Start);
          }
        } else if !p.rb && !(p.rb || p.mb) {
          if xSum >= xLen && -ySum > xSum {
            StateChange(Complete);
          } else {
            StateChange(Start);
          }
        }
      case Complete =>
    }
  }
}

/**
 * Game logic on sprites: rectangle overlap, the collision queries against the arena,
 * step-toward-target movement and the cursor clamp.
 */
module GameLogic {
  import opened Common
  import opened Sprites
  import opened Arenas

  /** `sprite_collision`: the two rectangles overlap strictly on both axes. */
  predicate SpriteCollision(s1: SpriteRec, s2: SpriteRec)
  {
    s1.x < s2.x + s2.width && s1.x + s1.width > s2.x &&
    s1.y < s2.y + s2.height && s1.y + s1.height > s2.y
  }

  /** Pixel (px, py) lies under the sprite. */
  predicate Covers(s: SpriteRec, px: int, py: int)
  {
    s.x <= px < s.x + s.width && s.y <= py < s.y + s.height
  }

  /**
   * Two sprites of non-zero size collide exactly when some pixel lies under both; so the
   * test is symmetric.
   */
  lemma CollisionIffSharedPixel(s1: SpriteRec, s2: SpriteRec)
    requires s1.width > 0 && s1.height > 0 && s2.width > 0 && s2.height > 0
    ensures SpriteCollision(s1, s2) <==> exists px, py :: Covers(s1, px, py) && Covers(s2, px, py)
    ensures SpriteCollision(s1, s2) == SpriteCollision(s2, s1)
  {
    if SpriteCollision(s1, s2) {
      var px := if s1.x < s2.x then s2.x else s1.x;
      var py := if s1.y < s2.y then s2.y else s1.y;
      assert Covers(s1, px, py) && Covers(s2, px, py);
    }
  }

  /** The rectangle `move_collision` scans: the sprite shifted by the move, in arena rows. */
  predicate MoveBlocked(a: Arena, s: SpriteRec, dx: int, dy: int)
    requires a.Valid()
    reads a.grid
  {
    RegionBlocked(a, s.x + dx, s.y - a.dims.headerHeight + dy, s.width, s.height)
  }

  /** `move_collision`: true iff some pixel of the shifted sprite is not walkable. */
  method MoveCollision(a: Arena, s: Sprite, dx: int, dy: int) returns (r: bool)
    requires a.Valid()
    ensures r == MoveBlocked(a, s.Rec(), dx, dy)
  {
    var x: int := s.x;
    var y: int := s.y - a.dims.headerHeight;
    r := ScanRegion(a, x + dx, y + dy, s.width, s.height);
  }

  /** The box at (x, y) overlaps the tank, with the box widened by the spawn offset on its far sides. */
  predicate NearTank(x: u16, y: u16, w: u16, h: u16, tank: SpriteRec, offset: nat)
  {
    x < tank.x + tank.width && x + w + offset > tank.x &&
    y < tank.y + tank.height && y + h + offset > tank.y
  }

  /** What `spawn_collision` reports: too near the tank, or some covered pixel not walkable. */
  predicate SpawnBlocked(a: Arena, x: u16, y: u16, w: u16, h: u16, tank: SpriteRec)
    requires a.Valid()
    reads a.grid
  {
    NearTank(x, y, w, h, tank, a.dims.spawnOffset)
    || RegionBlocked(a, x, Low16(y - a.dims.headerHeight), w, h)
  }

  /**
   * A position the `do … while` of `spawn_enemy` can stop at: drawn from
   * `[0, arenaWidth) × [0, arenaHeight)` and not `SpawnBlocked` for a `w` by `h` box.
   */
  predicate SpawnAccepted(a: Arena, p: (int, int), w: u16, h: u16, tank: SpriteRec)
    requires a.Valid()
    reads a.grid
  {
    0 <= p.0 < a.dims.arenaWidth && 0 <= p.1 < a.dims.arenaHeight &&
    !SpawnBlocked(a, Low16(p.0), Low16(p.1), w, h, tank)
  }

  /** The `count` positions of `ps` from index `from` on are all `SpawnAccepted`. */
  predicate SpawnsAccepted(a: Arena, ps: seq<(int, int)>, from: nat, count: nat, w: u16, h: u16, tank: SpriteRec)
    requires a.Valid()
    reads a.grid
  {
    forall k :: from <= k < from + count && k < |ps| ==> SpawnAccepted(a, ps[k], w, h, tank)
  }

  /** `spawn_collision`: the tank test first, then the scan of the covered pixels. */
  method SpawnCollision(a: Arena, x: u16, y: u16, w: u16, h: u16, tank: Sprite) returns (r: bool)
    requires a.Valid()
    ensures r == SpawnBlocked(a, x, y, w, h, tank.Rec())
  {
    if x < tank.x + tank.width && x + w + a.dims.spawnOffset > tank.x &&
       y < tank.y + tank.height && y + h + a.dims.spawnOffset > tank.y {
      return true;
    }
    var y': u16 := Low16(y - a.dims.headerHeight);
    r := ScanRegion(a, x, y', w, h);
  }

  /** A spawn position that is accepted never overlaps the tank and covers only walkable pixels. */
  lemma SpawnAcceptedIsClear(a: Arena, x: u16, y: u16, w: u16, h: u16, tank: SpriteRec, xs: int, ys: int)
    requires a.Valid() && !SpawnBlocked(a, x, y, w, h, tank)
    ensures !SpriteCollision(SpriteRec(x, y, w, h, xs, ys, 0), tank)
    ensures !Collides(a, SpriteRec(x, y, w, h, xs, ys, 0))
  {
  }

  /**
   * One axis of `move_sprite_to`: no move at the target; the whole distance when it is
   * within the speed; otherwise the speed, towards the target, stored as an `int16_t`.
   */
  function StepAxis(dist: int, speed: int): (m: int)
    requires -0x8000 <= dist < 0x8000
    ensures -0x8000 <= m < 0x8000
  {
    if dist == 0 then 0
    else if Abs(dist) <= speed then dist
    else if dist < 0 then ToInt16(-speed)
    else ToInt16(speed)
  }

  /**
   * A step never overshoots: it has the sign of the distance, is no longer than it or the
   * speed, covers the whole distance exactly when the speed allows, and is zero only at the
   * target (for a positive speed).
   */
  lemma StepNoOvershoot(dist: int, speed: int)
    requires -0x8000 <= dist < 0x8000 && 0 <= speed < 0x8000
    ensures dist >= 0 ==> 0 <= StepAxis(dist, speed) <= dist
    ensures dist <= 0 ==> dist <= StepAxis(dist, speed) <= 0
    ensures Abs(StepAxis(dist, speed)) <= speed
    ensures StepAxis(dist, speed) == dist <==> Abs(dist) <= speed
    ensures speed > 0 ==> (StepAxis(dist, speed) == 0 <==> dist == 0)
  {
  }

  /** The sprite moved by (dx, dy), each coordinate stored back into a `uint16_t`. */
  function Shifted(s: SpriteRec, dx: int, dy: int): (r: SpriteRec)
    ensures r.(x := s.x, y := s.y) == s
  {
    s.(x := Low16(s.x + dx), y := Low16(s.y + dy))
  }

  /**
   * `move_sprite_to`: both axes step towards (xf, yf). Without collision checks the step is
   * applied; with them, the first of the full step, the x step alone and the y step alone
   * that is not blocked is applied, and nothing moves when all three are blocked.
   */
  function MoveTo(a: Arena, s: SpriteRec, xf: u16, yf: u16, collision: bool): (r: SpriteRec)
    requires a.Valid()
    reads a.grid
    ensures r.(x := s.x, y := s.y) == s
    ensures var xm := StepAxis(ToInt16(xf - s.x), s.xspeed);
            var ym := StepAxis(ToInt16(yf - s.y), s.yspeed);
            r == s || r == Shifted(s, xm, ym) || r == Shifted(s, xm, 0) || r == Shifted(s, 0, ym)
  {
    var xm := StepAxis(ToInt16(xf - s.x), s.xspeed);
    var ym := StepAxis(ToInt16(yf - s.y), s.yspeed);
    if xm == 0 && ym == 0 then s
    else if !collision then Shifted(s, xm, ym)
    else Slide(a, s, xm, ym)
  }

  /**
   * The collision-checked step of `move_sprite_to`: the full step, else the x step alone,
   * else the y step alone, whichever is first not blocked; no move when all three are.
   */
  function Slide(a: Arena, s: SpriteRec, xm: int, ym: int): (r: SpriteRec)
    requires a.Valid()
    reads a.grid
  {
    if !MoveBlocked(a, s, xm, ym) then Shifted(s, xm, ym)
    else if !MoveBlocked(a, s, xm, 0) then Shifted(s, xm, 0)
    else if !MoveBlocked(a, s, 0, ym) then Shifted(s, 0, ym)
    else s
  }

  /** A move that is not blocked lands where the arena's own collision test finds nothing. */
  lemma UnblockedMoveIsClear(a: Arena, s: SpriteRec, mx: int, my: int)
    requires a.Valid() && s.width > 0 && s.height > 0
    requires a.dims.arenaWidth <= 0x1_0000 && a.dims.arenaHeight + a.dims.headerHeight <= 0x1_0000
    requires !MoveBlocked(a, s, mx, my)
    ensures !Collides(a, Shifted(s, mx, my))
  {
    var d := a.dims;
    assert WalkableAt(a, s.x + mx, s.y - d.headerHeight + my, 0, 0);
    var r := Shifted(s, mx, my);
    assert r.x == s.x + mx;
    assert Low16(r.y - d.headerHeight) == s.y - d.headerHeight + my;
  }

  /**
   * With collision checks on, a sprite clear of obstacles stays clear: every step
   * `move_sprite_to` takes lands on walkable pixels only.
   */
  lemma MoveKeepsClear(a: Arena, s: SpriteRec, xf: u16, yf: u16)
    requires a.Valid() && s.width > 0 && s.height > 0
    requires a.dims.arenaWidth <= 0x1_0000 && a.dims.arenaHeight + a.dims.headerHeight <= 0x1_0000
    requires !Collides(a, s)
    ensures !Collides(a, MoveTo(a, s, xf, yf, true))
  {
    var xm := StepAxis(ToInt16(xf - s.x), s.xspeed);
    var ym := StepAxis(ToInt16(yf - s.y), s.yspeed);
    if xm == 0 && ym == 0 {
    } else if !MoveBlocked(a, s, xm, ym) {
      UnblockedMoveIsClear(a, s, xm, ym);
    } else if !MoveBlocked(a, s, xm, 0) {
      UnblockedMoveIsClear(a, s, xm, 0);
    } else if !MoveBlocked(a, s, 0, ym) {
      UnblockedMoveIsClear(a, s, 0, ym);
    }
  }

  /**
   * Each coordinate ends between where it was and the target, so the sprite never moves away
   * from its target nor past it; at the target nothing moves; and without collision checks a
   * target within the speed is reached in one call.
   */
  lemma MoveTowardTarget(a: Arena, s: SpriteRec, xf: u16, yf: u16, collision: bool)
    requires a.Valid()
    requires 0 <= s.xspeed < 0x8000 && 0 <= s.yspeed < 0x8000
    requires Abs(xf - s.x) < 0x8000 && Abs(yf - s.y) < 0x8000
    ensures var r := MoveTo(a, s, xf, yf, collision);
      && (if s.x <= xf then s.x <= r.x <= xf else xf <= r.x <= s.x)
      && (if s.y <= yf then s.y <= r.y <= yf else yf <= r.y <= s.y)
    ensures s.x == xf && s.y == yf ==> MoveTo(a, s, xf, yf, collision) == s
    ensures !collision && Abs(xf - s.x) <= s.xspeed && Abs(yf - s.y) <= s.yspeed ==>
      MoveTo(a, s, xf, yf, collision).x == xf && MoveTo(a, s, xf, yf, collision).y == yf
  {
    var xm := StepAxis(ToInt16(xf - s.x), s.xspeed);
    var ym := StepAxis(ToInt16(yf - s.y), s.yspeed);
    AxisLands(s.x, xf, s.xspeed);
    AxisLands(s.y, yf, s.yspeed);
    MoveCandidates(a, s, xf, yf, collision);
    CandidatesBetween(s, MoveTo(a, s, xf, yf, collision), xm, ym, xf, yf);
  }

  /** Each of the four outcomes of `move_sprite_to` lies between the sprite and the target. */
  lemma CandidatesBetween(s: SpriteRec, r: SpriteRec, xm: int, ym: int, xf: u16, yf: u16)
    requires r == s || r == Shifted(s, xm, ym) || r == Shifted(s, xm, 0) || r == Shifted(s, 0, ym)
    requires Low16(s.x + xm) == s.x + xm && Low16(s.x + 0) == s.x
    requires Low16(s.y + ym) == s.y + ym && Low16(s.y + 0) == s.y
    requires if s.x <= xf then s.x <= s.x + xm <= xf else xf <= s.x + xm <= s.x
    requires if s.y <= yf then s.y <= s.y + ym <= yf else yf <= s.y + ym <= s.y
    ensures if s.x <= xf then s.x <= r.x <= xf else xf <= r.x <= s.x
    ensures if s.y <= yf then s.y <= r.y <= yf else yf <= r.y <= s.y
  {
  }

  /** Without collision checks, or with nothing to do, `move_sprite_to` takes the whole step. */
  lemma MoveCandidates(a: Arena, s: SpriteRec, xf: u16, yf: u16, collision: bool)
    requires a.Valid()
    ensures var xm := StepAxis(ToInt16(xf - s.x), s.xspeed);
      var ym := StepAxis(ToInt16(yf - s.y), s.yspeed);
      && (xm == 0 && ym == 0 ==> MoveTo(a, s, xf, yf, collision) == s)
      && (!collision && (xm != 0 || ym != 0) ==> MoveTo(a, s, xf, yf, collision) == Shifted(s, xm, ym))
  {
  }

  /** Along one axis the step lands between the coordinate and the target, and on the target when the speed allows. */
  lemma AxisLands(x: u16, xf: u16, speed: int)
    requires 0 <= speed < 0x8000 && Abs(xf - x) < 0x8000
    ensures var m := StepAxis(ToInt16(xf - x), speed);
      && Low16(x + m) == x + m && Low16(x + 0) == x
      && (if x <= xf then x <= x + m <= xf else xf <= x + m <= x)
      && (x == xf ==> m == 0)
      && (Abs(xf - x) <= speed ==> x + m == xf)
  {
    StepNoOvershoot(xf - x, speed);
  }

  /** The branches of `move_sprite_to` that pick the move along one axis. */
  method AxisMove(dist: int, speed: int) returns (m: int)
    requires -0x8000 <= dist < 0x8000
    ensures m == StepAxis(dist, speed)
  {
    m := 0;
    if dist != 0 {
      if Abs(dist) <= speed {
        m := dist;
      } else if dist < 0 {
        m := ToInt16(-speed);
      } else {
        m := ToInt16(speed);
      }
    }
  }

  /** `move_sprite_to` on a sprite in the heap; it always returns 0. */
  method MoveSpriteTo(a: Arena, sp: Sprite, xf: u16, yf: u16, collision: bool) returns (r: int)
    requires a.Valid()
    modifies sp
    ensures sp.Rec() == MoveTo(a, old(sp.Rec()), xf, yf, collision) && r == 0
  {
    ghost var s0 := sp.Rec();
    var xMove := AxisMove(ToInt16(xf - sp.x), sp.xspeed);
    var yMove := AxisMove(ToInt16(yf - sp.y), sp.yspeed);
    ghost var target := MoveTo(a, s0, xf, yf, collision);
    if xMove != 0 || yMove != 0 {
      if collision {
        assert target == Slide(a, s0, xMove, yMove);
        SlideSprite(a, sp, xMove, yMove);
      } else {
        assert target == Shifted(s0, xMove, yMove);
        sp.x, sp.y := Low16(sp.x + xMove), Low16(sp.y + yMove);
      }
    }
    return 0;
  }

  /** The collision-checked branch of `move_sprite_to`, on the sprite itself. */
  method SlideSprite(a: Arena, sp: Sprite, xMove: int, yMove: int)
    requires a.Valid()
    modifies sp
    ensures sp.Rec() == Slide(a, old(sp.Rec()), xMove, yMove)
  {
    ghost var s0 := sp.Rec();
    var full := MoveCollision(a, sp, xMove, yMove);
    if !full {
      sp.x, sp.y := Low16(sp.x + xMove), Low16(sp.y + yMove);
      assert sp.Rec() == Shifted(s0, xMove, yMove);
    } else {
      var alongX := MoveCollision(a, sp, xMove, 0);
      if !alongX {
        sp.x := Low16(sp.x + xMove);
        assert sp.Rec() == Shifted(s0, xMove, 0);
      } else {
        var alongY := MoveCollision(a, sp, 0, yMove);
        if !alongY {
          sp.y := Low16(sp.y + yMove);
          assert sp.Rec() == Shifted(s0, 0, yMove);
        }
      }
    }
  }

  /**
   * `move_cursor`: each coordinate moves by its delta, clamped instead of overshooting: x to
   * `799 - width` once the right edge would reach the arena width and to 0 below 0, y to
   * `579 - height` once the bottom edge would reach row 580 and to 20 above row 20.
   */
  function CursorMoved(s: SpriteRec, dx: int, dy: int, arenaWidth: nat): (r: SpriteRec)
    requires -0x8000 <= dx < 0x8000 && -0x8000 <= dy < 0x8000
    ensures r.(x := s.x, y := s.y) == s
    ensures 0 <= s.x + dx && s.x + s.width + dx < arenaWidth && s.x + dx < 0x1_0000 ==> r.x == s.x + dx
    ensures 20 <= s.y + dy && s.y + s.height + dy < 580 ==> r.y == s.y + dy
  {
    var x :=
      if dx >= 0 then (if s.x + s.width + dx >= arenaWidth then Low16(799 - s.width) else Low16(s.x + dx))
      else if s.x + dx < 0 then 0
      else Low16(s.x + dx);
    var y :=
      if dy >= 0 then (if s.y + s.height + dy >= 580 then Low16(579 - s.height) else Low16(s.y + dy))
      else if s.y + dy < 20 then 20
      else Low16(s.y + dy);
    s.(x := x, y := y)
  }

  /** The cursor lies on the visible play area: columns 0 .. 799 and rows 20 .. 579. */
  predicate CursorOnScreen(s: SpriteRec)
  {
    s.x + s.width <= 799 && 20 <= s.y && s.y + s.height <= 579
  }

  /** `move_cursor` keeps the cursor on the play area (for an arena at most 800 columns wide). */
  lemma CursorStaysOnScreen(s: SpriteRec, dx: int, dy: int, arenaWidth: nat)
    requires -0x8000 <= dx < 0x8000 && -0x8000 <= dy < 0x8000
    requires arenaWidth <= 800 && CursorOnScreen(s)
    ensures CursorOnScreen(CursorMoved(s, dx, dy, arenaWidth))
  {
  }

  /** `move_cursor` on the cursor sprite; it always returns 0. */
  method MoveCursor(cursor: Sprite, dx: int, dy: int, d: Dims) returns (r: int)
    requires -0x8000 <= dx < 0x8000 && -0x8000 <= dy < 0x8000
    modifies cursor
    ensures cursor.Rec() == CursorMoved(old(cursor.Rec()), dx, dy, d.arenaWidth) && r == 0
  {
    if dx >= 0 {
      if cursor.x + cursor.width + dx >= d.arenaWidth {
        cursor.x := Low16(799 - cursor.width);
      } else {
        cursor.x := Low16(cursor.x + dx);
      }
    } else if cursor.x + dx < 0 {
      cursor.x := 0;
    } else {
      cursor.x := Low16(cursor.x + dx);
    }
    if dy >= 0 {
      if cursor.y + cursor.height + dy >= 580 {
        cursor.y := Low16(579 - cursor.height);
      } else {
        cursor.y := Low16(cursor.y + dy);
      }
    } else if cursor.y + dy < 20 {
      cursor.y := 20;
    } else {
      cursor.y := Low16(cursor.y + dy);
    }
    return 0;
  }
}

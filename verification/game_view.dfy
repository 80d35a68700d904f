/**
 * The parts of the game view that keep state: the list of running explosions and the
 * commit/revert logic that decides which tank image is shown.
 */
module GameView {
  import opened Common
  import opened Sprites
  import opened AnimSprites
  import opened Arenas
  import opened Nodes

  /** The explosion `create_explosion` makes from the 20 created frames, placed at (x, y). */
  function NewExplosion(frames: seq<Frame>, x: int, y: int): (e: AnimRec)
    requires |frames| == 20 && frames[0].Loaded? && FramesAgree(frames)
    ensures ValidAnim(e) && |e.maps| == 20 && e.aspeed == 3 && e.curFig == 0 && e.curAspeed == 0
    ensures e.sp.x == Low16(x) && e.sp.y == Low16(y)
  {
    var anim := CreateAsprite(3, frames).value;
    anim.(sp := anim.sp.(x := Low16(x), y := Low16(y)))
  }

  /** Every explosion's animation is well formed. */
  predicate AllValid(es: seq<Node<AnimRec>>)
  {
    forall i :: 0 <= i < |es| ==> ValidAnim(es[i].item)
  }

  /**
   * What one frame of `draw_explosions` leaves of one explosion: it animates with `destroy`
   * set, and it is unlinked when the animation reports its last frame.
   */
  function Survivor(n: Node<AnimRec>): (r: seq<Node<AnimRec>>)
    requires ValidAnim(n.item)
    ensures |r| <= 1
    ensures r == [] <==> AnimateStep(n.item, true).1 == 1
    ensures r != [] ==> r[0] == Node(n.id, AnimateStep(n.item, true).0)
  {
    var (b, done) := AnimateStep(n.item, true);
    if done == 1 then [] else [Node(n.id, b)]
  }

  /** The explosion list after one `draw_explosions`. */
  function AfterDraw(es: seq<Node<AnimRec>>): (r: seq<Node<AnimRec>>)
    requires AllValid(es)
    ensures AllValid(r) && |r| <= |es|
  {
    if es == [] then [] else Survivor(es[0]) + AfterDraw(es[1..])
  }

  /** A frame over two lists one after the other is the frame over each of them. */
  lemma {:induction false} AfterDrawConcat(x: seq<Node<AnimRec>>, y: seq<Node<AnimRec>>)
    requires AllValid(x) && AllValid(y)
    ensures AllValid(x + y)
    ensures AfterDraw(x + y) == AfterDraw(x) + AfterDraw(y)
  {
    if x == [] {
      assert x + y == y;
    } else {
      assert (x + y)[0] == x[0] && (x + y)[1..] == x[1..] + y;
      AfterDrawConcat(x[1..], y);
      assert Survivor(x[0]) + (AfterDraw(x[1..]) + AfterDraw(y)) == (Survivor(x[0]) + AfterDraw(x[1..])) + AfterDraw(y);
    }
  }

  lemma HoldsConcat<T>(x: seq<Node<T>>, y: seq<Node<T>>, id: nat)
    ensures Holds(x + y, id) <==> Holds(x, id) || Holds(y, id)
  {
    if Holds(x + y, id) {
      var k :| 0 <= k < |x + y| && (x + y)[k].id == id;
      if k >= |x| {
        assert y[k - |x|].id == id;
      }
    }
    if Holds(x, id) {
      var k :| 0 <= k < |x| && x[k].id == id;
      assert (x + y)[k].id == id;
    }
    if Holds(y, id) {
      var k :| 0 <= k < |y| && y[k].id == id;
      assert (x + y)[|x| + k].id == id;
    }
  }

  /** The explosion at node `n` is kept by a frame: its animation does not report its last frame. */
  predicate Survives(n: Node<AnimRec>)
    requires ValidAnim(n.item)
  {
    AnimateStep(n.item, true).1 == 0
  }

  /** Some explosion of the list at address `id` is kept by a frame. */
  predicate SurvivorAt(es: seq<Node<AnimRec>>, id: nat)
    requires AllValid(es)
  {
    exists k :: 0 <= k < |es| && es[k].id == id && Survives(es[k])
  }

  lemma SurvivorAtCons(es: seq<Node<AnimRec>>, id: nat)
    requires AllValid(es) && es != []
    ensures AllValid(es[1..])
    ensures SurvivorAt(es, id) <==> (es[0].id == id && Survives(es[0])) || SurvivorAt(es[1..], id)
  {
    if SurvivorAt(es, id) {
      var k :| 0 <= k < |es| && es[k].id == id && Survives(es[k]);
      if k > 0 {
        assert es[1..][k - 1] == es[k];
      }
    }
    if SurvivorAt(es[1..], id) {
      var k :| 0 <= k < |es[1..]| && es[1..][k].id == id && Survives(es[1..][k]);
      assert es[k + 1] == es[1..][k];
    }
  }

  /**
   * An address is still in the list after a frame iff it held an explosion whose animation
   * did not report its last frame in that frame.
   */
  lemma {:induction false} AfterDrawKeepsExactly(es: seq<Node<AnimRec>>, id: nat)
    requires AllValid(es)
    ensures Holds(AfterDraw(es), id) <==> SurvivorAt(es, id)
  {
    if es != [] {
      AfterDrawKeepsExactly(es[1..], id);
      HoldsConcat(Survivor(es[0]), AfterDraw(es[1..]), id);
      SurvivorAtCons(es, id);
      assert Holds(Survivor(es[0]), id) <==> es[0].id == id && Survives(es[0]) by {
        if Holds(Survivor(es[0]), id) {
          var k :| 0 <= k < |Survivor(es[0])| && Survivor(es[0])[k].id == id;
        }
        if es[0].id == id && Survives(es[0]) {
          assert Survivor(es[0])[0].id == id;
        }
      }
    } else {
      assert !Holds(AfterDraw(es), id);
    }
  }

  /** Every node left after a frame is an explosion of the list, animated by one step. */
  lemma {:induction false} AfterDrawAnimates(es: seq<Node<AnimRec>>, j: nat)
    requires AllValid(es) && j < |AfterDraw(es)|
    ensures exists k :: 0 <= k < |es| && AfterDraw(es)[j] == Node(es[k].id, AnimateStep(es[k].item, true).0)
  {
    var s := Survivor(es[0]);
    if j < |s| {
      assert AfterDraw(es)[j] == Node(es[0].id, AnimateStep(es[0].item, true).0);
    } else {
      AfterDrawAnimates(es[1..], j - |s|);
      var k :| 0 <= k < |es[1..]| &&
        AfterDraw(es[1..])[j - |s|] == Node(es[1..][k].id, AnimateStep(es[1..][k].item, true).0);
      assert es[k + 1] == es[1..][k];
    }
  }

  /** Addresses stay unique and below the same bound through a frame. */
  lemma {:induction false} AfterDrawKeepsIds(es: seq<Node<AnimRec>>, bound: nat)
    requires AllValid(es) && UniqueIds(es) && IdsBelow(es, bound)
    ensures UniqueIds(AfterDraw(es)) && IdsBelow(AfterDraw(es), bound)
  {
    if es != [] {
      var t := AfterDraw(es[1..]);
      TailKeepsIds(es, bound);
      AfterDrawKeepsIds(es[1..], bound);
      var s := Survivor(es[0]);
      if s != [] {
        forall j | 0 <= j < |t|
          ensures t[j].id != es[0].id
        {
          AfterDrawAnimates(es[1..], j);
        }
        ConsKeepsIds(s[0], t, bound);
        assert AfterDraw(es) == [s[0]] + t;
      } else {
        assert AfterDraw(es) == t;
      }
    }
  }

  /** The frame over the first `k + 1` explosions is the frame over the first `k`, then the next one. */
  lemma AfterDrawSnoc(es: seq<Node<AnimRec>>, k: nat)
    requires AllValid(es) && k < |es|
    ensures AllValid(es[..k]) && AllValid(es[..k + 1])
    ensures AfterDraw(es[..k + 1]) == AfterDraw(es[..k]) + Survivor(es[k])
  {
    assert es[..k + 1] == es[..k] + [es[k]];
    AfterDrawConcat(es[..k], [es[k]]);
    assert AfterDraw([es[k]]) == Survivor(es[k]) by { assert [es[k]][1..] == []; }
  }

  lemma SplitAt<T>(s: seq<T>, k: nat)
    requires k < |s|
    ensures s[k..] == [s[k]] + s[k + 1..]
  {
  }

  lemma UpdateInMiddle<T>(d: seq<T>, x: T, y: T, rest: seq<T>)
    ensures (d + [x] + rest)[|d| := y] == d + [y] + rest
  {
  }

  lemma RemoveInMiddle<T>(d: seq<T>, y: T, rest: seq<T>)
    ensures (d + [y] + rest)[..|d|] + (d + [y] + rest)[|d| + 1..] == d + rest
  {
    assert (d + [y] + rest)[..|d|] == d;
    assert (d + [y] + rest)[|d| + 1..] == rest;
  }

  /** Removing the node at position `k` keeps every remaining animation well formed. */
  lemma RemoveAtValid(es: seq<Node<AnimRec>>, k: nat)
    requires AllValid(es) && k < |es|
    ensures AllValid(es[..k] + es[k + 1..])
  {
    var r := es[..k] + es[k + 1..];
    forall j | 0 <= j < |r|
      ensures ValidAnim(r[j].item)
    {
      RemoveAtIndex(es, k, j);
    }
  }

  /** The `explosion_list` of `game_view.c`; `nextId` is the next free address. */
  class ExplosionList {
    var explosions: seq<Node<AnimRec>>
    var nextId: nat

    predicate Valid()
      reads this
    {
      UniqueIds(explosions) && IdsBelow(explosions, nextId) && AllValid(explosions)
    }

    constructor ()
      ensures Valid() && explosions == []
    {
      explosions := [];
      nextId := 0;
    }

    /** `create_explosion`: the new explosion, placed at (x, y), is prepended. */
    method CreateExplosion(x: int, y: int, frames: seq<Frame>) returns (id: nat)
      requires Valid() && |frames| == 20 && frames[0].Loaded? && FramesAgree(frames)
      modifies this
      ensures Valid() && id == old(nextId) && nextId == old(nextId) + 1
      ensures explosions == [Node(id, NewExplosion(frames, x, y))] + old(explosions)
    {
      var e := NewExplosion(frames, x, y);
      PrependKeepsIds(Node(nextId, e), explosions, nextId);
      explosions := [Node(nextId, e)] + explosions;
      id := nextId;
      nextId := nextId + 1;
    }

    /**
     * `destroy_explosion`: walks the list from its head and unlinks the node at address
     * `id`; nothing changes when there is none.
     */
    method DestroyExplosion(id: nat)
      requires Valid()
      modifies this
      ensures Valid() && explosions == Unlink(old(explosions), id) && nextId == old(nextId)
    {
      UnlinkKeepsIds(explosions, id, nextId, id);
      var k := 0;
      while k < |explosions|
        invariant 0 <= k <= |explosions|
        invariant forall j :: 0 <= j < k ==> explosions[j].id != id
      {
        if explosions[k].id == id {
          UnlinkFirst(explosions, id, k);
          RemoveAtValid(explosions, k);
          explosions := explosions[..k] + explosions[k + 1..];
          return;
        }
        k := k + 1;
      }
    }

    /** `animate_asprite(current->explosion_asp, true)` on the explosion at position `i`. */
    method AnimateExplosion(i: nat) returns (done: int)
      requires Valid() && i < |explosions|
      modifies this
      ensures Valid() && nextId == old(nextId)
      ensures explosions == old(explosions)[i := Node(old(explosions)[i].id, AnimateStep(old(explosions)[i].item, true).0)]
      ensures done == AnimateStep(old(explosions)[i].item, true).1
    {
      var current := explosions[i];
      var b;
      b, done := AnimateStep(current.item, true).0, AnimateStep(current.item, true).1;
      ReplaceKeepsIds(explosions, i, b);
      explosions := explosions[i := Node(current.id, b)];
    }

    /**
     * One pass of the loop of `draw_explosions` over `current`, the `k`-th explosion of the
     * list `es` the walk started from, at position `i`: it animates with `destroy` set and is
     * destroyed when the animation reports its last frame; the walk goes on with `next`.
     */
    method VisitExplosion(i: nat, ghost es: seq<Node<AnimRec>>, ghost k: nat) returns (next: nat)
      requires Valid() && AllValid(es) && k < |es|
      requires explosions == AfterDraw(es[..k]) + es[k..] && i == |AfterDraw(es[..k])|
      modifies this
      ensures Valid() && nextId == old(nextId)
      ensures explosions == AfterDraw(es[..k + 1]) + es[k + 1..] && next == |AfterDraw(es[..k + 1])|
    {
      ghost var drawn := AfterDraw(es[..k]);
      ghost var rest := es[k + 1..];
      SplitAt(es, k);
      assert drawn + ([es[k]] + rest) == (drawn + [es[k]]) + rest;
      AfterDrawSnoc(es, k);
      assert explosions[i] == es[k];
      var id := explosions[i].id;
      var done := AnimateExplosion(i);
      ghost var b := AnimateStep(es[k].item, true).0;
      UpdateInMiddle(drawn, es[k], Node(id, b), rest);
      if done == 1 {
        UnlinkAt(explosions, i);
        DestroyExplosion(id);
        RemoveInMiddle(drawn, Node(id, b), rest);
        assert Survivor(es[k]) == [];
        assert drawn + [] == drawn;
        next := i;
      } else {
        assert Survivor(es[k]) == [Node(id, b)];
        next := i + 1;
      }
    }

    /**
     * The list walk of `draw_explosions`: each explosion animates with `destroy` set, and
     * the ones whose animation reports its last frame are destroyed, `next` having been
     * saved first.
     */
    method DrawExplosions()
      requires Valid()
      modifies this
      ensures Valid() && explosions == AfterDraw(old(explosions)) && nextId == old(nextId)
    {
      ghost var es := explosions;
      ghost var k := 0;
      var i := 0;
      while i < |explosions|
        invariant Valid() && nextId == old(nextId)
        invariant 0 <= k <= |es| && AllValid(es)
        invariant explosions == AfterDraw(es[..k]) + es[k..]
        invariant i == |AfterDraw(es[..k])|
        decreases |es| - k
      {
        i := VisitExplosion(i, es, k);
        k := k + 1;
      }
      assert es[..k] == es;
    }
  }

  /** One of the twelve tank images: `tank_sprites[d]` with the size from `tank_images[d]`. */
  datatype Look = Look(pixmap: PixMap, width: u16, height: u16)

  /** The statics of `draw_tank`: the last committed direction and position (-1 at start). */
  datatype TankMemo = TankMemo(lastDirection: int, lastX: int, lastY: int)

  function LookOf(s: SpriteRec): Look
  {
    Look(s.pixmap, s.width, s.height)
  }

  /** The sprite `s` showing image `l`. */
  function Showing(s: SpriteRec, l: Look): (r: SpriteRec)
    ensures LookOf(r) == l && r.x == s.x && r.y == s.y
  {
    s.(pixmap := l.pixmap, width := l.width, height := l.height)
  }

  /** The direction or the position differs from the last committed one. */
  predicate Changed(m: TankMemo, s: SpriteRec, dir: nat)
  {
    m.lastDirection != dir || m.lastX != s.x || m.lastY != s.y
  }

  /** The direction `draw_tank` may hold: a clock direction, or -1 before the first commit. */
  predicate MemoOk(m: TankMemo)
  {
    -1 <= m.lastDirection < 12
  }

  /**
   * `draw_tank` as written: on a change it shows the image of the new direction and commits
   * if the arena does not collide, otherwise it shows `tank_sprites[last_direction]` again.
   * `None` marks the revert before any commit, which reads `tank_sprites[-1]`.
   */
  function DrawTankAsWritten(a: Arena, m: TankMemo, s: SpriteRec, dir: nat, looks: seq<Look>): (r: Option<(TankMemo, SpriteRec)>)
    requires a.Valid() && MemoOk(m) && dir < |looks| == 12
    reads a.grid
    ensures r.None? <==> Changed(m, s, dir) && Collides(a, Showing(s, looks[dir])) && m.lastDirection < 0
  {
    if !Changed(m, s, dir) then Some((m, s))
    else
      var t := Showing(s, looks[dir]);
      if !Collides(a, t) then Some((TankMemo(dir, s.x, s.y), t))
      else if m.lastDirection < 0 then None
      else Some((m, Showing(t, looks[m.lastDirection])))
  }

  /** Before any commit, a first frame whose tank image collides reverts to index -1. */
  lemma FirstRevertReadsBeforeImages(a: Arena, s: SpriteRec, dir: nat, looks: seq<Look>)
    requires a.Valid() && dir < |looks| == 12
    requires Collides(a, Showing(s, looks[dir]))
    ensures DrawTankAsWritten(a, TankMemo(-1, -1, -1), s, dir, looks).None?
  {
  }

  /**
   * `draw_tank` with the revert restoring the image shown before the call: the new image
   * is shown, and the direction and position committed, only when it does not collide.
   */
  function DrawTankStep(a: Arena, m: TankMemo, s: SpriteRec, dir: nat, looks: seq<Look>): (r: (TankMemo, SpriteRec))
    requires a.Valid() && MemoOk(m) && dir < |looks| == 12
    reads a.grid
    ensures MemoOk(r.0)
    ensures r.1.x == s.x && r.1.y == s.y && r.1.xspeed == s.xspeed && r.1.yspeed == s.yspeed
    ensures r.0 == m || (r.0 == TankMemo(dir, s.x, s.y) && Changed(m, s, dir))
    ensures r.0 != m <==> Changed(m, s, dir) && !Collides(a, Showing(s, looks[dir]))
    ensures r.0 == m ==> r.1 == s
    ensures r.0 != m ==> r.1 == Showing(s, looks[dir])
  {
    if !Changed(m, s, dir) then (m, s)
    else
      var t := Showing(s, looks[dir]);
      if !Collides(a, t) then (TankMemo(dir, s.x, s.y), t) else (m, s)
  }

  /** The tank shows the image of the last committed direction (once one is committed). */
  predicate ShowsCommitted(m: TankMemo, s: SpriteRec, looks: seq<Look>)
    requires MemoOk(m) && |looks| == 12
  {
    m.lastDirection >= 0 ==> LookOf(s) == looks[m.lastDirection]
  }

  /**
   * Once a direction is committed, the code as written and the restoring revert agree: the
   * image of `last_direction` is the one that was shown before the call.
   */
  lemma DrawTankAgrees(a: Arena, m: TankMemo, s: SpriteRec, dir: nat, looks: seq<Look>)
    requires a.Valid() && MemoOk(m) && dir < |looks| == 12
    requires m.lastDirection >= 0 && ShowsCommitted(m, s, looks)
    ensures DrawTankAsWritten(a, m, s, dir, looks) == Some(DrawTankStep(a, m, s, dir, looks))
  {
    if Changed(m, s, dir) && Collides(a, Showing(s, looks[dir])) {
      assert Showing(Showing(s, looks[dir]), looks[m.lastDirection]) == s;
    }
  }

  /**
   * `draw_tank` keeps the shown image the one of the committed direction, and a committed
   * direction and position never collide with the arena.
   */
  lemma DrawTankKeepsCommitted(a: Arena, m: TankMemo, s: SpriteRec, dir: nat, looks: seq<Look>)
    requires a.Valid() && MemoOk(m) && dir < |looks| == 12
    requires ShowsCommitted(m, s, looks)
    ensures var r := DrawTankStep(a, m, s, dir, looks);
      ShowsCommitted(r.0, r.1, looks) &&
      (r.0 != m ==> r.0.lastDirection == dir && !Collides(a, r.1) && r.0.lastX == r.1.x && r.0.lastY == r.1.y)
  {
  }

  /** The statics of `draw_tank`. */
  class TankView {
    var lastDirection: int
    var lastX: int
    var lastY: int

    function Memo(): TankMemo
      reads this
    {
      TankMemo(lastDirection, lastX, lastY)
    }

    constructor ()
      ensures Memo() == TankMemo(-1, -1, -1)
    {
      lastDirection, lastX, lastY := -1, -1, -1;
    }

    /**
     * `draw_tank` for the tank's sprite and direction: the image of `dir` is tried and kept
     * only when `arena_collision` is false; otherwise the image shown before is restored.
     */
    method DrawTank(a: Arena, tank: Sprite, dir: nat, looks: seq<Look>) returns (r: int)
      requires a.Valid() && MemoOk(Memo()) && dir < |looks| == 12
      modifies this, tank
      ensures (Memo(), tank.Rec()) == DrawTankStep(a, old(Memo()), old(tank.Rec()), dir, looks)
      ensures r == 0
    {
      var currentX: int := tank.x;
      var currentY: int := tank.y;
      if lastDirection != dir || lastX != currentX || lastY != currentY {
        var saved := LookOf(tank.Rec());
        tank.pixmap := looks[dir].pixmap;
        tank.width := looks[dir].width;
        tank.height := looks[dir].height;
        var hit := ArenaCollision(a, tank);
        if !hit {
          lastDirection := dir;
          lastX := currentX;
          lastY := currentY;
        } else {
          tank.pixmap := saved.pixmap;
          tank.width := saved.width;
          tank.height := saved.height;
        }
      }
      return 0;
    }
  }
}

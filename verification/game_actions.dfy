/**
 * The player's actions in game, from `game_logic.c`: moving the tank with W/A/S/D, pausing
 * with the spacebar, and shooting at the crosshair.
 */
module GameActions {
  import opened Common
  import opened Sprites
  import opened AnimSprites
  import opened Arenas
  import opened GameLogic
  import opened Nodes
  import opened StateStore
  import opened GameModel
  import opened GameView
  import opened I8042
  import opened Keyboard

  /** The tank move a scan code asks for: ten pixels up, down, left or right, or none. */
  function KeyMove(code: byte): (m: (int, int))
    ensures m.0 == 0 || m.1 == 0
    ensures m != (0, 0) <==> code in {WMake, SMake, AMake, DMake}
    ensures m != (0, 0) ==> Abs(m.0) + Abs(m.1) == 10
  {
    if code == WMake then (0, -10)
    else if code == SMake then (0, 10)
    else if code == AMake then (-10, 0)
    else if code == DMake then (10, 0)
    else (0, 0)
  }

  /**
   * `handle_game_keyboard` on the tank's sprite and the game record: the move of the key is
   * applied when `move_collision` finds it clear, and the spacebar's break code pauses.
   */
  function GameKey(a: Arena, tank: SpriteRec, g: GameState, bytes: seq<byte>, size: byte): (r: (SpriteRec, GameState))
    requires a.Valid() && |bytes| == 2
    reads a.grid
    ensures r.1 == (if KeyCode(size, bytes) == SpacebarBreak then g.(state := LoadingPause) else g)
  {
    var code := KeyCode(size, bytes);
    var (dx, dy) := KeyMove(code);
    var moved := if !MoveBlocked(a, tank, dx, dy) then Shifted(tank, dx, dy) else tank;
    (moved, if code == SpacebarBreak then g.(state := LoadingPause) else g)
  }

  /**
   * A key moves the tank by ten pixels along one axis or not at all; it moves exactly when
   * the key is W, S, A or D and the shifted tank is clear, and then the tank does not
   * collide with the arena where it lands.
   */
  lemma GameKeyMove(a: Arena, tank: SpriteRec, g: GameState, bytes: seq<byte>, size: byte)
    requires a.Valid() && |bytes| == 2
    requires tank.width > 0 && tank.height > 0
    requires a.dims.arenaWidth <= 0x1_0000 && a.dims.arenaHeight + a.dims.headerHeight <= 0x1_0000
    ensures var r := GameKey(a, tank, g, bytes, size).0;
      var m := KeyMove(KeyCode(size, bytes));
      && r.(x := tank.x, y := tank.y) == tank
      && (r != tank <==> m != (0, 0) && !MoveBlocked(a, tank, m.0, m.1))
      && (r == tank || r == Shifted(tank, m.0, m.1))
      && (r != tank ==> !Collides(a, r))
  {
    var m := KeyMove(KeyCode(size, bytes));
    var r := GameKey(a, tank, g, bytes, size).0;
    if m != (0, 0) && !MoveBlocked(a, tank, m.0, m.1) {
      UnblockedMoveIsClear(a, tank, m.0, m.1);
      assert r.x != tank.x || r.y != tank.y by {
        if m.0 != 0 {
          assert Low16(tank.x + m.0) != tank.x;
        } else {
          assert Low16(tank.y + m.1) != tank.y;
        }
      }
    }
  }

  /** `handle_game_keyboard` (the tank's aim, which needs floating point, is not modelled). */
  method HandleGameKeyboard(a: Arena, tank: Sprite, store: GameStateStore, bytes: seq<byte>, size: byte)
    requires a.Valid() && |bytes| == 2
    modifies tank, store
    ensures (tank.Rec(), store.Model()) == GameKey(a, old(tank.Rec()), old(store.Model()), bytes, size)
  {
    var code: byte := if size == 2 then bytes[1] else bytes[0];
    var x := 0;
    var y := 0;
    if code == WMake {
      y := -10;
    } else if code == SMake {
      y := 10;
    } else if code == AMake {
      x := -10;
    } else if code == DMake {
      x := 10;
    } else if code == SpacebarBreak {
      store.SetState(LoadingPause);
    }
    var blocked := MoveCollision(a, tank, x, y);
    if !blocked {
      tank.x := Low16(tank.x + x);
      tank.y := Low16(tank.y + y);
    }
  }

  /** The point `shoot` aims at: the centre of the crosshair sprite. */
  function AimPoint(crosshair: SpriteRec): (int, int)
  {
    (crosshair.x + crosshair.width / 2, crosshair.y + crosshair.height / 2)
  }

  /** The enemy's sprite box, borders included, contains (px, py). */
  predicate Hit(e: Enemy, px: int, py: int)
  {
    var s := SpriteOf(e.model.sprite);
    s.x <= px <= s.x + s.width && s.y <= py <= s.y + s.height
  }

  /** The position of the first enemy, in list order, that the shot at (px, py) hits. */
  function FirstHit(es: seq<Node<Enemy>>, px: int, py: int, from: nat): (r: Option<nat>)
    requires from <= |es|
    decreases |es| - from
    ensures r.Some? ==> from <= r.value < |es| && Hit(es[r.value].item, px, py)
    ensures r.Some? ==> forall j :: from <= j < r.value ==> !Hit(es[j].item, px, py)
    ensures r.None? <==> forall j :: from <= j < |es| ==> !Hit(es[j].item, px, py)
  {
    if from == |es| then None
    else if Hit(es[from].item, px, py) then Some(from)
    else FirstHit(es, px, py, from + 1)
  }

  /** The enemy list after a shot at (px, py): the first enemy hit is unlinked, if any. */
  function AfterShot(es: seq<Node<Enemy>>, px: int, py: int): seq<Node<Enemy>>
  {
    match FirstHit(es, px, py, 0)
    case None => es
    case Some(k) => es[..k] + es[k + 1..]
  }

  /**
   * A shot destroys at most one enemy: with no enemy hit the list stays as it is; otherwise
   * exactly the first enemy hit is unlinked and every other enemy stays, in its order.
   */
  lemma ShotDestroysFirstHit(es: seq<Node<Enemy>>, px: int, py: int)
    requires UniqueIds(es)
    ensures (forall j :: 0 <= j < |es| ==> !Hit(es[j].item, px, py)) ==> AfterShot(es, px, py) == es
    ensures forall k ::
      (0 <= k < |es| && Hit(es[k].item, px, py) && forall j :: 0 <= j < k ==> !Hit(es[j].item, px, py)) ==>
      (AfterShot(es, px, py) == Unlink(es, es[k].id) && |AfterShot(es, px, py)| == |es| - 1)
  {
    forall k | 0 <= k < |es| && Hit(es[k].item, px, py) && (forall j :: 0 <= j < k ==> !Hit(es[j].item, px, py))
      ensures AfterShot(es, px, py) == Unlink(es, es[k].id) && |AfterShot(es, px, py)| == |es| - 1
    {
      FirstHitIs(es, px, py, k);
      UnlinkAt(es, k);
    }
  }

  /** The first enemy hit is the one at position `k` when it is hit and none before it is. */
  lemma FirstHitIs(es: seq<Node<Enemy>>, px: int, py: int, k: nat)
    requires k < |es| && Hit(es[k].item, px, py)
    requires forall j :: 0 <= j < k ==> !Hit(es[j].item, px, py)
    ensures FirstHit(es, px, py, 0) == Some(k)
  {
    var r := FirstHit(es, px, py, 0);
    if r != Some(k) {
      assert false;
    }
  }

  /**
   * `shoot`: an explosion is created 10 pixels right of and below the crosshair's corner,
   * then the enemies are walked from the head and the first one whose box contains the
   * crosshair's centre is destroyed and scores once.
   */
  method Shoot(crosshair: Sprite, model: Model, explosions: ExplosionList, store: GameStateStore, frames: seq<Frame>)
    requires model.Valid() && explosions.Valid()
    requires |frames| == 20 && frames[0].Loaded? && FramesAgree(frames)
    modifies model, explosions, store
    ensures model.Valid() && explosions.Valid()
    ensures explosions.explosions ==
      [Node(old(explosions.nextId), NewExplosion(frames, crosshair.x + 10, crosshair.y + 10))] + old(explosions.explosions)
    ensures explosions.nextId == old(explosions.nextId) + 1
    ensures var (px, py) := AimPoint(crosshair.Rec());
      && model.enemies == AfterShot(old(model.enemies), px, py)
      && store.Model() == (if FirstHit(old(model.enemies), px, py, 0).Some? then ScoreRaised(old(store.Model())) else old(store.Model()))
    ensures model.tankHp == old(model.tankHp) && model.tankDirection == old(model.tankDirection) && model.nextId == old(model.nextId)
  {
    var _ := explosions.CreateExplosion(crosshair.x + 10, crosshair.y + 10, frames);
    var px := crosshair.x + crosshair.width / 2;
    var py := crosshair.y + crosshair.height / 2;
    assert (px, py) == AimPoint(crosshair.Rec());
    DestroyFirstHit(model, store, px, py);
  }

  /** The loop of `shoot`: the enemies are walked from the head and the first one hit at (px, py) is destroyed and scores. */
  method DestroyFirstHit(model: Model, store: GameStateStore, px: int, py: int)
    requires model.Valid()
    modifies model, store
    ensures model.Valid()
    ensures model.enemies == AfterShot(old(model.enemies), px, py)
    ensures store.Model() == (if FirstHit(old(model.enemies), px, py, 0).Some? then ScoreRaised(old(store.Model())) else old(store.Model()))
    ensures model.tankHp == old(model.tankHp) && model.tankDirection == old(model.tankDirection) && model.nextId == old(model.nextId)
  {
    ghost var es := model.enemies;
    var i := 0;
    while i < |model.enemies|
      invariant 0 <= i <= |es| && model.enemies == es && model.Valid()
      invariant FirstHit(es, px, py, 0) == FirstHit(es, px, py, i)
      invariant store.Model() == old(store.Model())
    {
      if Hit(model.enemies[i].item, px, py) {
        assert FirstHit(es, px, py, 0) == Some(i);
        assert AfterShot(es, px, py) == es[..i] + es[i + 1..];
        UnlinkAt(model.enemies, i);
        model.DestroyEnemy(model.enemies[i].id);
        store.IncreaseScore();
        return;
      }
      i := i + 1;
    }
  }
}

/**
 * The game model: the tank and the list of enemies, their creation and destruction, the
 * enemy waves and the per-frame enemy update.
 */
module GameModel {
  import opened Common
  import opened Sprites
  import opened AnimSprites
  import opened Arenas
  import opened GameLogic
  import opened Nodes
  import opened StateStore

  datatype EnemyType = Virus1 | Virus2 | OtherType(code: int)

  /** The types `spawn_enemy` knows how to build. */
  type VirusType = k: EnemyType | !k.OtherType? witness Virus1

  /** The sprite of a unit: a plain sprite (`STATIC_SPRITE`) or an animated one (`ANIMATED_SPRITE`). */
  datatype UnitSprite = Static(sp: SpriteRec) | Animated(asp: AnimRec)

  /** A `GameUnit`; `direction` is the index of one of the twelve clock directions. */
  datatype GameUnit = GameUnit(hp: u16, sprite: UnitSprite, direction: nat)

  datatype Enemy = Enemy(model: GameUnit, kind: EnemyType)

  /** `DIRECTION_1` and `DIRECTION_3` of the clock-direction enumeration. */
  const Direction1: nat := 0
  const Direction3: nat := 2

  /** The sprite whose position a unit occupies. */
  function SpriteOf(u: UnitSprite): SpriteRec
  {
    if u.Static? then u.sp else u.asp.sp
  }

  /** The unit's sprite (the animated sprite's own sprite) replaced by `s`. */
  function WithSprite(u: UnitSprite, s: SpriteRec): (r: UnitSprite)
    ensures SpriteOf(r) == s && r.Static? == u.Static?
    ensures r.Animated? ==> r.asp == u.asp.(sp := s)
  {
    if u.Static? then Static(s) else Animated(u.asp.(sp := s))
  }

  /**
   * The enemy `create_enemy` builds: a VIRUS1 is a static unit with 1 hp, a VIRUS2 an
   * animated unit with 2 hp, either placed at (x, y) (stored as `uint16_t`); any other type
   * gives no enemy.
   */
  function NewEnemy(sprite: UnitSprite, direction: nat, x: int, y: int, kind: EnemyType): (e: Option<Enemy>)
    requires kind.Virus1? ==> sprite.Static?
    requires kind.Virus2? ==> sprite.Animated?
    ensures e.None? <==> kind.OtherType?
    ensures e.Some? ==>
      && e.value.kind == kind && e.value.model.direction == direction
      && e.value.model.hp == (if kind.Virus1? then 1 else 2)
      && e.value.model.sprite.Static? == kind.Virus1?
      && SpriteOf(e.value.model.sprite) == SpriteOf(sprite).(x := Low16(x), y := Low16(y))
  {
    match kind
    case Virus1 => Some(Enemy(GameUnit(1, WithSprite(sprite, SpriteOf(sprite).(x := Low16(x), y := Low16(y))), direction), kind))
    case Virus2 => Some(Enemy(GameUnit(2, WithSprite(sprite, SpriteOf(sprite).(x := Low16(x), y := Low16(y))), direction), kind))
    case OtherType(_) => None
  }

  /** Every enemy in the list has at least one hit point left. */
  predicate Alive(es: seq<Node<Enemy>>)
  {
    forall i :: 0 <= i < |es| ==> es[i].item.model.hp >= 1
  }

  /** The enemy after `move_sprite_to` towards the tank's position, collision checks on. */
  function MovedEnemy(a: Arena, e: Enemy, tank: SpriteRec): (r: Enemy)
    requires a.Valid()
    reads a.grid
    ensures r.kind == e.kind && r.model.hp == e.model.hp && r.model.direction == e.model.direction
    ensures SpriteOf(r.model.sprite) == MoveTo(a, SpriteOf(e.model.sprite), tank.x, tank.y, true)
  {
    e.(model := e.model.(sprite := WithSprite(e.model.sprite, MoveTo(a, SpriteOf(e.model.sprite), tank.x, tank.y, true))))
  }

  /** Removing the node at position `k` keeps every remaining enemy alive. */
  lemma RemoveAtAlive(es: seq<Node<Enemy>>, k: nat)
    requires Alive(es) && k < |es|
    ensures Alive(es[..k] + es[k + 1..])
  {
    var r := es[..k] + es[k + 1..];
    forall j | 0 <= j < |r|
      ensures r[j].item.model.hp >= 1
    {
      RemoveAtIndex(es, k, j);
    }
  }

  /**
   * The state of the walk of `update_enemies`: the list, the position of `current`, the
   * tank's hp and whether GAME_END has been set.
   */
  datatype Walk = Walk(enemies: seq<Node<Enemy>>, i: nat, tankHp: u16, ended: bool)

  predicate WalkOk(w: Walk)
  {
    w.i <= |w.enemies| && Alive(w.enemies)
  }

  /** The walk's termination measure: the nodes still ahead, then the current enemy's hp. */
  function Ahead(w: Walk): nat
    requires WalkOk(w)
  {
    |w.enemies| - w.i
  }

  function CurrentHp(w: Walk): nat
    requires WalkOk(w)
  {
    if w.i < |w.enemies| then w.enemies[w.i].item.model.hp else 0
  }

  /**
   * One iteration of `update_enemies` at `current`: the enemy moves towards the tank's
   * position; if it then overlaps the tank, it and the tank each lose one hp (the tank's
   * counter is a `uint16_t`), GAME_END is set when the tank's counter reads 0, and `current`
   * stays on the enemy unless its hp reached 0, in which case it is unlinked; otherwise
   * `current` moves on.
   */
  function Step(a: Arena, w: Walk, tank: SpriteRec): (r: Walk)
    requires a.Valid() && WalkOk(w) && w.i < |w.enemies|
    reads a.grid
    ensures WalkOk(r)
    ensures Ahead(r) < Ahead(w) || (Ahead(r) == Ahead(w) && CurrentHp(r) < CurrentHp(w))
    ensures forall bound :: UniqueIds(w.enemies) && IdsBelow(w.enemies, bound) ==>
      UniqueIds(r.enemies) && IdsBelow(r.enemies, bound)
    ensures w.ended ==> r.ended
  {
    var n := w.enemies[w.i];
    var e := MovedEnemy(a, n.item, tank);
    var es := w.enemies[w.i := Node(n.id, e)];
    ReplaceKeepsIds(w.enemies, w.i, e);
    if !SpriteCollision(SpriteOf(e.model.sprite), tank) then
      w.(enemies := es, i := w.i + 1)
    else
      Struck(w.(enemies := es))
  }

  /**
   * The current enemy has collided with the tank: both lose one hit point, the enemy is
   * unlinked when its hp reaches 0, and GAME_END is set when the tank's counter reads 0.
   */
  function Struck(w: Walk): (r: Walk)
    requires WalkOk(w) && w.i < |w.enemies|
    ensures WalkOk(r)
    ensures Ahead(r) < Ahead(w) || (Ahead(r) == Ahead(w) && CurrentHp(r) < CurrentHp(w))
    ensures forall bound :: UniqueIds(w.enemies) && IdsBelow(w.enemies, bound) ==>
      UniqueIds(r.enemies) && IdsBelow(r.enemies, bound)
    ensures w.ended ==> r.ended
  {
    var t := Low16(w.tankHp - 1);
    Walk(StruckEnemies(w.enemies, w.i), w.i, t, w.ended || t == 0)
  }

  /** The list after the enemy at position `i` loses one hit point: unlinked at 0, kept otherwise. */
  function StruckEnemies(es: seq<Node<Enemy>>, i: nat): (r: seq<Node<Enemy>>)
    requires Alive(es) && i < |es|
    ensures Alive(r)
    ensures |r| + 1 == |es| || (|r| == |es| && r[i].item.model.hp + 1 == es[i].item.model.hp)
    ensures forall bound :: UniqueIds(es) && IdsBelow(es, bound) ==> UniqueIds(r) && IdsBelow(r, bound)
  {
    var n := es[i];
    if n.item.model.hp - 1 == 0 then
      RemoveAtAlive(es, i);
      assert forall bound :: UniqueIds(es) && IdsBelow(es, bound) ==>
        UniqueIds(es[..i] + es[i + 1..]) && IdsBelow(es[..i] + es[i + 1..], bound) by {
        forall bound | UniqueIds(es) && IdsBelow(es, bound)
          ensures UniqueIds(es[..i] + es[i + 1..]) && IdsBelow(es[..i] + es[i + 1..], bound)
        {
          RemoveAtKeepsUnique(es, i, bound);
        }
      }
      es[..i] + es[i + 1..]
    else
      var e := n.item.(model := n.item.model.(hp := n.item.model.hp - 1));
      ReplaceKeepsIds(es, i, e);
      es[i := Node(n.id, e)]
  }

  /** The whole walk of `update_enemies` from `w` to the end of the list. */
  function UpdateFrom(a: Arena, w: Walk, tank: SpriteRec): (r: Walk)
    requires a.Valid() && WalkOk(w)
    reads a.grid
    ensures WalkOk(r) && r.i == |r.enemies|
    ensures forall bound :: UniqueIds(w.enemies) && IdsBelow(w.enemies, bound) ==>
      UniqueIds(r.enemies) && IdsBelow(r.enemies, bound)
    decreases Ahead(w), CurrentHp(w)
  {
    if w.i == |w.enemies| then w else UpdateFrom(a, Step(a, w, tank), tank)
  }

  /** The sum of the enemies' hit points. */
  function TotalHp(es: seq<Node<Enemy>>): nat
  {
    if es == [] then 0 else es[0].item.model.hp + TotalHp(es[1..])
  }

  lemma {:induction false} TotalHpConcat(x: seq<Node<Enemy>>, y: seq<Node<Enemy>>)
    ensures TotalHp(x + y) == TotalHp(x) + TotalHp(y)
  {
    if x == [] {
      assert x + y == y;
    } else {
      assert (x + y)[1..] == x[1..] + y;
      TotalHpConcat(x[1..], y);
    }
  }

  /** Replacing the node at position `i` changes the total by the difference of the two nodes' hp. */
  lemma TotalHpReplace(es: seq<Node<Enemy>>, i: nat, n: Node<Enemy>)
    requires i < |es|
    ensures TotalHp(es[i := n]) == TotalHp(es) - es[i].item.model.hp + n.item.model.hp
    ensures TotalHp(es[..i] + es[i + 1..]) == TotalHp(es) - es[i].item.model.hp
  {
    assert es == es[..i] + [es[i]] + es[i + 1..];
    assert es[i := n] == es[..i] + [n] + es[i + 1..];
    TotalHpConcat(es[..i] + [es[i]], es[i + 1..]);
    TotalHpConcat(es[..i], [es[i]]);
    TotalHpConcat(es[..i] + [n], es[i + 1..]);
    TotalHpConcat(es[..i], [n]);
    TotalHpConcat(es[..i], es[i + 1..]);
    assert TotalHp([n]) == n.item.model.hp by { assert [n][1..] == []; }
    assert TotalHp([es[i]]) == es[i].item.model.hp by { assert [es[i]][1..] == []; }
  }

  /** How many decrements a `uint16_t` counter at `t` takes to read 0. */
  function ZeroAfter(t: u16): nat
  {
    if t == 0 then 0x1_0000 else t
  }

  /** One decrement more reaches 0 iff the first one does or the rest reach 0 from there. */
  lemma ZeroAfterStep(t: u16, d: nat)
    ensures d + 1 >= ZeroAfter(t) <==> Low16(t - 1) == 0 || d >= ZeroAfter(Low16(t - 1))
  {
  }

  lemma Low16Sub(x: int, k: int)
    ensures Low16(Low16(x) - k) == Low16(x - k)
  {
  }

  /** From `w` to `r` the enemies together lost no hp and nothing else changed, or one hp that the tank lost too. */
  predicate StepBalanced(w: Walk, r: Walk)
  {
    || (TotalHp(r.enemies) == TotalHp(w.enemies) && r.tankHp == w.tankHp && r.ended == w.ended)
    || (TotalHp(r.enemies) + 1 == TotalHp(w.enemies) && r.tankHp == Low16(w.tankHp - 1)
        && r.ended == (w.ended || r.tankHp == 0))
  }

  /** One iteration costs the enemies together 0 or 1 hp, and the tank the same. */
  lemma StepAccounting(a: Arena, w: Walk, tank: SpriteRec)
    requires a.Valid() && WalkOk(w) && w.i < |w.enemies|
    ensures StepBalanced(w, Step(a, w, tank))
  {
    var e := MovedEnemy(a, w.enemies[w.i].item, tank);
    MovedAccounting(w, e, SpriteCollision(SpriteOf(e.model.sprite), tank));
  }

  /** The accounting of one iteration for any new state `e` of the current enemy that keeps its hp. */
  lemma MovedAccounting(w: Walk, e: Enemy, hit: bool)
    requires WalkOk(w) && w.i < |w.enemies| && e.model.hp == w.enemies[w.i].item.model.hp
    ensures var es := w.enemies[w.i := Node(w.enemies[w.i].id, e)];
      StepBalanced(w, if !hit then w.(enemies := es, i := w.i + 1) else Struck(w.(enemies := es)))
  {
    var es := w.enemies[w.i := Node(w.enemies[w.i].id, e)];
    TotalHpReplace(w.enemies, w.i, Node(w.enemies[w.i].id, e));
    if hit {
      StruckAccounting(w.(enemies := es));
    }
  }

  /** A collision costs the enemies together exactly one hp and the tank one decrement of its counter. */
  lemma StruckAccounting(w: Walk)
    requires WalkOk(w) && w.i < |w.enemies|
    ensures var r := Struck(w);
      TotalHp(r.enemies) + 1 == TotalHp(w.enemies) && r.tankHp == Low16(w.tankHp - 1) && r.ended == (w.ended || r.tankHp == 0)
  {
    var n := w.enemies[w.i];
    TotalHpReplace(w.enemies, w.i, Node(n.id, n.item.(model := n.item.model.(hp := n.item.model.hp - 1))));
  }

  /**
   * From walk state `w` to walk state `r` the tank lost (modulo 2^16) exactly as many hp as
   * the enemies lost together, and GAME_END got set iff it was set before or the tank's
   * counter read 0 after one of those hits.
   */
  predicate Balanced(w: Walk, r: Walk)
  {
    && TotalHp(r.enemies) <= TotalHp(w.enemies)
    && r.tankHp == Low16(w.tankHp - (TotalHp(w.enemies) - TotalHp(r.enemies)))
    && r.ended == (w.ended || TotalHp(w.enemies) - TotalHp(r.enemies) >= ZeroAfter(w.tankHp))
  }

  /**
   * The hits of one `update_enemies` balance: the tank loses (modulo 2^16) exactly as many hp
   * as the enemies lose together, and GAME_END is set iff the tank's counter reads 0 after
   * one of those hits.
   */
  lemma {:induction false} UpdateAccounting(a: Arena, w: Walk, tank: SpriteRec)
    requires a.Valid() && WalkOk(w)
    ensures Balanced(w, UpdateFrom(a, w, tank))
    decreases Ahead(w), CurrentHp(w)
  {
    if w.i < |w.enemies| {
      var s := Step(a, w, tank);
      UpdateAccounting(a, s, tank);
      StepAccounting(a, w, tank);
      AccountingStep(w, s, UpdateFrom(a, s, tank));
      assert UpdateFrom(a, w, tank) == UpdateFrom(a, s, tank);
    } else {
      assert UpdateFrom(a, w, tank) == w;
    }
  }

  /** The balance of the walk after one iteration, carried back over that iteration. */
  lemma AccountingStep(w: Walk, s: Walk, r: Walk)
    requires StepBalanced(w, s) && Balanced(s, r)
    ensures Balanced(w, r)
  {
    AccountingChain(w.tankHp, s.tankHp, r.tankHp, TotalHp(w.enemies), TotalHp(s.enemies), TotalHp(r.enemies),
                    w.ended, s.ended, r.ended);
  }

  /** The balance of one iteration followed by the balance of the rest is the balance of the walk. */
  lemma AccountingChain(t: u16, sHp: u16, rHp: u16, wTot: nat, sTot: nat, rTot: nat, wEnded: bool, sEnded: bool, rEnded: bool)
    requires || (sTot == wTot && sHp == t && sEnded == wEnded)
             || (sTot + 1 == wTot && sHp == Low16(t - 1) && sEnded == (wEnded || sHp == 0))
    requires rTot <= sTot && rHp == Low16(sHp - (sTot - rTot))
    requires rEnded == (sEnded || sTot - rTot >= ZeroAfter(sHp))
    ensures rTot <= wTot && rHp == Low16(t - (wTot - rTot))
    ensures rEnded == (wEnded || wTot - rTot >= ZeroAfter(t))
  {
    if sTot + 1 == wTot {
      Low16Sub(t - 1, sTot - rTot);
      ZeroAfterStep(t, sTot - rTot);
    }
  }

  /** The order in which `spawn_enemy_wave` spawns: `difficulty` VIRUS1, then `difficulty / 2` VIRUS2. */
  function WaveKinds(difficulty: byte): (ks: seq<VirusType>)
    ensures |ks| == difficulty + difficulty / 2
    ensures forall k :: 0 <= k < |ks| ==> ks[k] == (if k < difficulty then Virus1 else Virus2)
  {
    Repeat(Virus1, difficulty) + Repeat(Virus2, difficulty / 2)
  }

  /** `n` copies of `k`. */
  function Repeat(k: VirusType, n: nat): (r: seq<VirusType>)
    ensures |r| == n && forall i :: 0 <= i < n ==> r[i] == k
  {
    if n == 0 then [] else [k] + Repeat(k, n - 1)
  }

  /** How many entries of `ks` are `k`. */
  function Count(ks: seq<EnemyType>, k: EnemyType): nat
  {
    if ks == [] then 0 else (if ks[0] == k then 1 else 0) + Count(ks[1..], k)
  }

  lemma {:induction false} CountConcat(x: seq<EnemyType>, y: seq<EnemyType>, k: EnemyType)
    ensures Count(x + y, k) == Count(x, k) + Count(y, k)
  {
    if x == [] {
      assert x + y == y;
    } else {
      assert (x + y)[1..] == x[1..] + y;
      CountConcat(x[1..], y, k);
    }
  }

  lemma {:induction false} CountConstant(n: nat, k: VirusType, other: EnemyType)
    requires other != k
    ensures Count(Repeat(k, n), k) == n && Count(Repeat(k, n), other) == 0
  {
    if n > 0 {
      assert Repeat(k, n)[1..] == Repeat(k, n - 1);
      CountConstant(n - 1, k, other);
    }
  }

  /** A wave holds `difficulty` VIRUS1 and `difficulty / 2` VIRUS2, and no other type. */
  lemma WaveCounts(difficulty: byte)
    ensures Count(WaveKinds(difficulty), Virus1) == difficulty
    ensures Count(WaveKinds(difficulty), Virus2) == difficulty / 2
  {
    CountConcat(Repeat(Virus1, difficulty), Repeat(Virus2, difficulty / 2), Virus1);
    CountConcat(Repeat(Virus1, difficulty), Repeat(Virus2, difficulty / 2), Virus2);
    CountConstant(difficulty, Virus1, Virus2);
    CountConstant(difficulty / 2, Virus2, Virus1);
  }

  /**
   * The sprite `spawn_enemy` hands to `create_enemy` at (x, y): `create_virus1_sprite` (the
   * loaded image `v1`, speed 1) or `create_virus2_asprite` (the created animation `v2`,
   * speed 2).
   */
  function SpawnSprite(kind: EnemyType, x: int, y: int, v1: SpriteRec, v2: AnimRec): (u: UnitSprite)
    requires !kind.OtherType?
    ensures kind.Virus1? ==> u.Static?
    ensures kind.Virus2? ==> u.Animated?
  {
    if kind.Virus1? then Static(v1.(x := Low16(x), y := Low16(y), xspeed := 1, yspeed := 1))
    else Animated(v2.(sp := v2.sp.(xspeed := 2, yspeed := 2)))
  }

  /** The node `spawn_enemy` prepends for an enemy of type `kind` at (x, y), at address `id`. */
  function SpawnNode(kind: VirusType, x: int, y: int, v1: SpriteRec, v2: AnimRec, id: nat): (n: Node<Enemy>)
    ensures n.id == id && n.item.kind == kind
  {
    Node(id, NewEnemy(SpawnSprite(kind, x, y, v1, v2), Direction1, x, y, kind).value)
  }

  /**
   * The nodes spawned for the first `n` types of `ks` at the positions `ps`, addresses from
   * `id0` on; each new node is prepended, so the last one spawned is first.
   */
  function Spawned(ks: seq<VirusType>, n: nat, ps: seq<(int, int)>, v1: SpriteRec, v2: AnimRec, id0: nat): (r: seq<Node<Enemy>>)
    requires n <= |ks| <= |ps|
    ensures |r| == n
  {
    if n == 0 then []
    else [SpawnNode(ks[n - 1], ps[n - 1].0, ps[n - 1].1, v1, v2, id0 + n - 1)] + Spawned(ks, n - 1, ps, v1, v2, id0)
  }

  /**
   * The wave's list runs in reverse spawn order: its `j`-th node is the enemy spawned
   * `j`-th from last, of that type, at that position, at the address handed out at that point.
   */
  lemma {:induction false} SpawnedOrder(ks: seq<VirusType>, n: nat, ps: seq<(int, int)>, v1: SpriteRec, v2: AnimRec, id0: nat, j: nat)
    requires n <= |ks| <= |ps| && j < n
    ensures var k := n - 1 - j;
      Spawned(ks, n, ps, v1, v2, id0)[j] == SpawnNode(ks[k], ps[k].0, ps[k].1, v1, v2, id0 + k)
  {
    if j > 0 {
      SpawnedOrder(ks, n - 1, ps, v1, v2, id0, j - 1);
    }
  }

  /**
   * The nodes one loop of `spawn_enemy_wave` prepends: `count` enemies of type `kind`, spawned
   * at the positions `from` to `from + count - 1` of `ps` with the addresses handed out there.
   */
  function RunNodes(kind: VirusType, from: nat, count: nat, ps: seq<(int, int)>, v1: SpriteRec, v2: AnimRec, id0: nat): (r: seq<Node<Enemy>>)
    requires from + count <= |ps|
    ensures |r| == count
  {
    if count == 0 then []
    else
      var k := from + count - 1;
      [SpawnNode(kind, ps[k].0, ps[k].1, v1, v2, id0 + k)] + RunNodes(kind, from, count - 1, ps, v1, v2, id0)
  }

  /** A run of one type within a wave adds its nodes in front of the ones spawned before it. */
  lemma RunNodesStep(kind: VirusType, from: nat, i: nat, ps: seq<(int, int)>, v1: SpriteRec, v2: AnimRec, id0: nat,
                     rest: seq<Node<Enemy>>)
    requires from + i < |ps|
    ensures RunNodes(kind, from, i + 1, ps, v1, v2, id0)
         == [SpawnNode(kind, ps[from + i].0, ps[from + i].1, v1, v2, id0 + from + i)] + RunNodes(kind, from, i, ps, v1, v2, id0)
    ensures RunNodes(kind, from, i + 1, ps, v1, v2, id0) + rest
         == [SpawnNode(kind, ps[from + i].0, ps[from + i].1, v1, v2, id0 + from + i)] + (RunNodes(kind, from, i, ps, v1, v2, id0) + rest)
  {
  }

  lemma {:induction false} SpawnedRun(ks: seq<VirusType>, kind: VirusType, from: nat, count: nat, ps: seq<(int, int)>,
                                      v1: SpriteRec, v2: AnimRec, id0: nat)
    requires from + count <= |ks| <= |ps|
    requires forall k :: from <= k < from + count ==> ks[k] == kind
    ensures Spawned(ks, from + count, ps, v1, v2, id0) == RunNodes(kind, from, count, ps, v1, v2, id0) + Spawned(ks, from, ps, v1, v2, id0)
  {
    if count > 0 {
      var k := from + count - 1;
      SpawnedRun(ks, kind, from, count - 1, ps, v1, v2, id0);
      var head, run, tail := [SpawnNode(kind, ps[k].0, ps[k].1, v1, v2, id0 + k)], RunNodes(kind, from, count - 1, ps, v1, v2, id0),
                             Spawned(ks, from, ps, v1, v2, id0);
      assert head + (run + tail) == (head + run) + tail;
    }
  }

  /** A wave is the VIRUS2 run in front of the VIRUS1 run. */
  lemma WaveNodes(difficulty: byte, ps: seq<(int, int)>, v1: SpriteRec, v2: AnimRec, id0: nat, rest: seq<Node<Enemy>>)
    requires |ps| >= difficulty + difficulty / 2
    ensures Spawned(WaveKinds(difficulty), difficulty + difficulty / 2, ps, v1, v2, id0)
         == RunNodes(Virus2, difficulty, difficulty / 2, ps, v1, v2, id0) + RunNodes(Virus1, 0, difficulty, ps, v1, v2, id0)
    ensures Spawned(WaveKinds(difficulty), difficulty + difficulty / 2, ps, v1, v2, id0) + rest
         == RunNodes(Virus2, difficulty, difficulty / 2, ps, v1, v2, id0) + (RunNodes(Virus1, 0, difficulty, ps, v1, v2, id0) + rest)
  {
    var twos, ones := RunNodes(Virus2, difficulty, difficulty / 2, ps, v1, v2, id0), RunNodes(Virus1, 0, difficulty, ps, v1, v2, id0);
    assert Spawned(WaveKinds(difficulty), difficulty + difficulty / 2, ps, v1, v2, id0) == twos + ones by {
      TwoRuns(WaveKinds(difficulty), difficulty, difficulty / 2, ps, v1, v2, id0);
    }
    assert twos + (ones + rest) == (twos + ones) + rest;
  }

  /** Kinds made of a run of VIRUS1 followed by a run of VIRUS2 spawn as the two runs' nodes, the later run in front. */
  lemma TwoRuns(ks: seq<VirusType>, n1: nat, n2: nat, ps: seq<(int, int)>, v1: SpriteRec, v2: AnimRec, id0: nat)
    requires |ks| == n1 + n2 <= |ps|
    requires forall k :: 0 <= k < |ks| ==> ks[k] == (if k < n1 then Virus1 else Virus2)
    ensures Spawned(ks, n1 + n2, ps, v1, v2, id0)
         == RunNodes(Virus2, n1, n2, ps, v1, v2, id0) + RunNodes(Virus1, 0, n1, ps, v1, v2, id0)
  {
    var ones := RunNodes(Virus1, 0, n1, ps, v1, v2, id0);
    assert Spawned(ks, n1, ps, v1, v2, id0) == ones by {
      SpawnedRun(ks, Virus1, 0, n1, ps, v1, v2, id0);
      assert Spawned(ks, 0, ps, v1, v2, id0) == [];
      assert ones + [] == ones;
    }
    SpawnedRun(ks, Virus2, n1, n2, ps, v1, v2, id0);
  }

  /** The tank and the enemy list of `game_model.c`. */
  class Model {
    var enemies: seq<Node<Enemy>>
    var nextId: nat
    var tankHp: u16
    var tankDirection: nat
    const tankSprite: Sprite

    /** Addresses are unique and below `nextId`, and no enemy in the list is dead. */
    predicate Valid()
      reads this
    {
      UniqueIds(enemies) && IdsBelow(enemies, nextId) && Alive(enemies)
    }

    constructor (tank: Sprite)
      ensures Valid() && enemies == [] && tankSprite == tank
    {
      enemies := [];
      nextId := 0;
      tankHp := 0;
      tankDirection := Direction1;
      tankSprite := tank;
    }

    /** `create_game_elements`: a tank with 5 hp facing `DIRECTION_3`, on the tank sprite. */
    method CreateGameElements() returns (r: int)
      modifies this
      ensures tankHp == 5 && tankDirection == Direction3 && r == 0
      ensures enemies == old(enemies) && nextId == old(nextId)
    {
      tankHp := 5;
      tankDirection := Direction3;
      return 0;
    }

    /** `create_enemy`: the new enemy is prepended; an unknown type leaves the list as it is. */
    method CreateEnemy(sprite: UnitSprite, direction: nat, x: int, y: int, kind: EnemyType) returns (e: Option<nat>)
      requires Valid()
      requires kind.Virus1? ==> sprite.Static?
      requires kind.Virus2? ==> sprite.Animated?
      modifies this
      ensures Valid()
      ensures kind.OtherType? ==> e == None && enemies == old(enemies) && nextId == old(nextId)
      ensures !kind.OtherType? ==>
        && e == Some(old(nextId)) && nextId == old(nextId) + 1
        && enemies == [Node(old(nextId), NewEnemy(sprite, direction, x, y, kind).value)] + old(enemies)
      ensures tankHp == old(tankHp) && tankDirection == old(tankDirection)
    {
      var created := NewEnemy(sprite, direction, x, y, kind);
      if created.None? {
        return None;
      }
      PrependKeepsIds(Node(nextId, created.value), enemies, nextId);
      enemies := [Node(nextId, created.value)] + enemies;
      e := Some(nextId);
      nextId := nextId + 1;
    }

    /**
     * `destroy_enemy`: walks the list from its head and unlinks the node at address `id`;
     * nothing changes when there is none.
     */
    method DestroyEnemy(id: nat)
      requires Valid()
      modifies this
      ensures Valid()
      ensures enemies == Unlink(old(enemies), id) && nextId == old(nextId)
      ensures tankHp == old(tankHp) && tankDirection == old(tankDirection)
    {
      UnlinkKeepsIds(enemies, id, nextId, id);
      var k := 0;
      while k < |enemies|
        invariant 0 <= k <= |enemies|
        invariant forall j :: 0 <= j < k ==> enemies[j].id != id
      {
        if enemies[k].id == id {
          UnlinkFirst(enemies, id, k);
          RemoveAtAlive(enemies, k);
          enemies := enemies[..k] + enemies[k + 1..];
          return;
        }
        k := k + 1;
      }
    }

    /** `free_enemies`: the list is empty afterwards. */
    method FreeEnemies()
      requires Valid()
      modifies this
      ensures Valid() && enemies == [] && nextId == old(nextId)
      ensures tankHp == old(tankHp) && tankDirection == old(tankDirection)
    {
      enemies := [];
    }

    /**
     * `spawn_enemy` once its position (x, y) has been drawn: the sprite for the type is made
     * and `create_enemy` prepends the enemy.
     */
    method SpawnEnemy(kind: VirusType, x: int, y: int, v1: SpriteRec, v2: AnimRec,
                      ghost a: Arena, ghost virusWidth: u16, ghost virusHeight: u16)
      requires Valid() && a.Valid() && SpawnAccepted(a, (x, y), virusWidth, virusHeight, tankSprite.Rec())
      modifies this
      ensures Valid() && nextId == old(nextId) + 1
      ensures enemies == [SpawnNode(kind, x, y, v1, v2, old(nextId))] + old(enemies)
      ensures tankHp == old(tankHp) && tankDirection == old(tankDirection)
    {
      var _ := CreateEnemy(SpawnSprite(kind, x, y, v1, v2), Direction1, x, y, kind);
    }

    /** One loop of `spawn_enemy_wave`: `count` enemies of type `kind`, spawned at the positions `from` on of `ps`. */
    method SpawnRun(kind: VirusType, from: nat, count: nat, ps: seq<(int, int)>, v1: SpriteRec, v2: AnimRec, ghost id0: nat,
                    ghost a: Arena, ghost virusWidth: u16, ghost virusHeight: u16)
      requires Valid() && from + count <= |ps| && nextId == id0 + from && a.Valid()
      requires SpawnsAccepted(a, ps, from, count, virusWidth, virusHeight, tankSprite.Rec())
      modifies this
      ensures Valid() && nextId == id0 + from + count
      ensures enemies == RunNodes(kind, from, count, ps, v1, v2, id0) + old(enemies)
      ensures tankHp == old(tankHp) && tankDirection == old(tankDirection)
    {
      for i := 0 to count
        invariant Valid() && nextId == id0 + from + i
        invariant enemies == RunNodes(kind, from, i, ps, v1, v2, id0) + old(enemies)
        invariant tankHp == old(tankHp) && tankDirection == old(tankDirection)
      {
        SpawnEnemy(kind, ps[from + i].0, ps[from + i].1, v1, v2, a, virusWidth, virusHeight);
        RunNodesStep(kind, from, i, ps, v1, v2, id0, old(enemies));
      }
    }

    /**
     * `spawn_enemy_wave` at the store's difficulty, with the accepted spawn positions `ps`
     * in spawn order: `difficulty` VIRUS1 and then `difficulty / 2` VIRUS2 are prepended one
     * by one.
     */
    method SpawnEnemyWave(store: StateStore.GameStateStore, ps: seq<(int, int)>, v1: SpriteRec, v2: AnimRec,
                          ghost a: Arena, ghost virusWidth: u16, ghost virusHeight: u16)
      requires Valid() && |ps| >= store.difficulty + store.difficulty / 2 && a.Valid()
      requires SpawnsAccepted(a, ps, 0, store.difficulty + store.difficulty / 2, virusWidth, virusHeight, tankSprite.Rec())
      modifies this
      ensures Valid()
      ensures enemies == Spawned(WaveKinds(store.difficulty), store.difficulty + store.difficulty / 2, ps, v1, v2, old(nextId)) + old(enemies)
      ensures tankHp == old(tankHp) && tankDirection == old(tankDirection)
    {
      var difficulty := store.GetDifficulty();
      ghost var id0, before := nextId, enemies;
      SpawnRun(Virus1, 0, difficulty, ps, v1, v2, id0, a, virusWidth, virusHeight);
      SpawnRun(Virus2, difficulty, difficulty / 2, ps, v1, v2, id0, a, virusWidth, virusHeight);
      WaveNodes(difficulty, ps, v1, v2, id0, before);
    }

    /**
     * One pass of the loop of `update_enemies` over the enemy at position `i`, as `Step`
     * describes it; GAME_END is written to the store when the tank's counter reads 0.
     */
    method VisitEnemy(a: Arena, store: StateStore.GameStateStore, tank: SpriteRec, i: nat, ghost ended: bool)
      returns (next: nat, ghost endedNext: bool)
      requires Valid() && a.Valid() && i < |enemies|
      requires ended ==> store.Model().state == GameEnd
      modifies this, store
      ensures Valid() && nextId == old(nextId) && tankDirection == old(tankDirection)
      ensures Walk(enemies, next, tankHp, endedNext) == Step(a, Walk(old(enemies), i, old(tankHp), ended), tank)
      ensures store.Model() == (if endedNext then old(store.Model()).(state := GameEnd) else old(store.Model()))
    {
      ghost var w := Walk(enemies, i, tankHp, ended);
      ghost var step := Step(a, w, tank);
      endedNext := ended;
      var n := enemies[i];
      var e := MovedEnemy(a, n.item, tank);
      ReplaceKeepsIds(enemies, i, e);
      enemies := enemies[i := Node(n.id, e)];
      if SpriteCollision(SpriteOf(e.model.sprite), tank) {
        endedNext := StrikeCurrent(store, i, ended);
        next := i;
      } else {
        next := i + 1;
      }
    }

    /** The collision branch of the loop of `update_enemies`, as `Struck` describes it. */
    method StrikeCurrent(store: StateStore.GameStateStore, i: nat, ghost ended: bool) returns (ghost endedNext: bool)
      requires Valid() && i < |enemies|
      requires ended ==> store.Model().state == GameEnd
      modifies this, store
      ensures Valid() && nextId == old(nextId) && tankDirection == old(tankDirection)
      ensures Walk(enemies, i, tankHp, endedNext) == Struck(Walk(old(enemies), i, old(tankHp), ended))
      ensures store.Model() == (if endedNext then old(store.Model()).(state := GameEnd) else old(store.Model()))
    {
      endedNext := ended;
      HitEnemy(i);
      tankHp := Low16(tankHp - 1);
      if tankHp == 0 {
        store.SetState(GameEnd);
        endedNext := true;
      }
    }

    /** The enemy part of a collision: the current enemy loses one hit point and is destroyed at 0. */
    method HitEnemy(i: nat)
      requires Valid() && i < |enemies|
      modifies this
      ensures Valid() && nextId == old(nextId) && tankDirection == old(tankDirection) && tankHp == old(tankHp)
      ensures enemies == StruckEnemies(old(enemies), i)
    {
      var n := enemies[i];
      if n.item.model.hp - 1 == 0 {
        ghost var es := enemies;
        UnlinkAt(enemies, i);
        DestroyEnemy(n.id);
        assert enemies == es[..i] + es[i + 1..];
      } else {
        var e := n.item.(model := n.item.model.(hp := n.item.model.hp - 1));
        ReplaceKeepsIds(enemies, i, e);
        enemies := enemies[i := Node(n.id, e)];
      }
    }

    /**
     * `update_enemies`: every enemy moves towards the tank's position taken at the start,
     * and colliding enemies trade hit points with the tank as `Step` describes.
     */
    method UpdateEnemies(a: Arena, store: StateStore.GameStateStore)
      requires Valid() && a.Valid()
      modifies this, store
      ensures Valid()
      ensures var r := UpdateFrom(a, Walk(old(enemies), 0, old(tankHp), false), tankSprite.Rec());
        && enemies == r.enemies && tankHp == r.tankHp
        && store.Model() == (if r.ended then old(store.Model()).(state := GameEnd) else old(store.Model()))
      ensures nextId == old(nextId) && tankDirection == old(tankDirection)
    {
      var tank := tankSprite.Rec();
      ghost var ended := false;
      var i: nat := 0;
      while i < |enemies|
        invariant i <= |enemies| && Valid()
        invariant nextId == old(nextId) && tankDirection == old(tankDirection)
        invariant UpdateFrom(a, Walk(enemies, i, tankHp, ended), tank)
               == UpdateFrom(a, Walk(old(enemies), 0, old(tankHp), false), tank)
        invariant store.Model() == (if ended then old(store.Model()).(state := GameEnd) else old(store.Model()))
        decreases |enemies| - i, if i < |enemies| then enemies[i].item.model.hp else 0
      {
        ghost var w := Walk(enemies, i, tankHp, ended);
        assert UpdateFrom(a, w, tank) == UpdateFrom(a, Step(a, w, tank), tank);
        i, ended := VisitEnemy(a, store, tank, i, ended);
      }
    }
  }
}

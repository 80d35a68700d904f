/**
 * The screen dispatcher of `dispatcher.c`: the per-tick transition switch over the game state,
 * and the routing of keyboard and mouse input to the menu or the game. Loading, drawing and
 * freeing are recorded as effects and not modelled further, except for the GAME_END that the
 * enemy update run while drawing the game may write, which the in-game tick takes as input.
 */
module Dispatcher {
  import opened Common
  import opened StateStore
  import Mouse

  /** The menus the dispatcher can make current. */
  datatype MenuId = InitialMenuId | MainMenuId | HelpMenuId | HighscoresMenuId | PauseMenuId | GameOverMenuId

  /** Calls into rendering, loading and the game world that the transition switch makes. */
  datatype Effect =
    | LoadMenuFonts | LoadGameFonts | LoadGameSprites
    | DisplayMenu(menu: Option<MenuId>) | DrawCursor | FlipBuffers | FreeMenu(menu: Option<MenuId>)
    | CleanupElements | CreateGameElements | DrawArena | SpawnEnemyWave | DrawGame
    | DestroyArena | FreeMenuFonts | FreeGameFonts

  /** The game record together with the static `current_menu` (`None` is the null pointer). */
  datatype Screen = Screen(game: GameState, menu: Option<MenuId>)

  datatype Handled = Handled(screen: Screen, effects: seq<Effect>)

  /** The six screens that show a menu and take menu input. */
  predicate IsMenuState(s: State)
  {
    s in {InitialMenu, HighscoresMenu, MainMenu, GameOver, PauseMenu, HelpMenu}
  }

  /** The menu each menu screen shows. */
  function MenuFor(s: State): MenuId
    requires IsMenuState(s)
  {
    match s
    case InitialMenu => InitialMenuId
    case HighscoresMenu => HighscoresMenuId
    case MainMenu => MainMenuId
    case GameOver => GameOverMenuId
    case PauseMenu => PauseMenuId
    case HelpMenu => HelpMenuId
  }

  /** A menu screen is showing the menu made for it. */
  predicate Consistent(d: Screen)
  {
    IsMenuState(d.game.state) ==> d.menu == Some(MenuFor(d.game.state))
  }

  /** The difficulty rises on the ticks whose successor is a multiple of 150 (five seconds at 30 ticks per second). */
  predicate LevelUpTick(t: u32)
  {
    Low32(t + 1) % 150 == 0
  }

  /**
   * One in-game tick: level up and spawn when due, draw, count the tick, and count a second
   * every 30 ticks. Drawing runs `update_enemies`, which writes GAME_END when the tank's hp
   * counter reads 0; `ended` is that outcome of the enemy update (the `ended` result of
   * `GameModel.UpdateFrom`).
   */
  function IngameTick(d: Screen, ended: bool): Handled
  {
    var t := d.game.timer;
    var g1 := if LevelUpTick(t) then DifficultyRaised(d.game) else d.game;
    var g2 := if ended then g1.(state := GameEnd) else g1;
    var g3 := TimerRaised(g2);
    var g4 := if t % 30 == 0 then GameTimeRaised(g3) else g3;
    Handled(Screen(g4, d.menu), (if LevelUpTick(t) then [SpawnEnemyWave] else []) + [DrawGame, FlipBuffers])
  }

  /**
   * The transition switch of `game_state_handler`, one call per even timer tick; `ended` is
   * whether the enemy update run by `draw_game` ends the game, and only matters in game.
   */
  function Transition(d: Screen, ended: bool): (r: Handled)
    ensures d.game.state !in {Initial, LoadingMainMenu, LoadingHelp, LoadingHighscores, LoadingPause, GameEnd, LoadingGame, Ingame}
      ==> r.screen.game.state == d.game.state
    ensures d.game.state == Ingame ==> r.screen.game.state == (if ended then GameEnd else Ingame)
    ensures d.game.state != LoadingGame && d.game.state != Ingame ==> r.screen.game.(state := d.game.state) == d.game
    ensures r.screen.menu != d.menu ==> IsMenuState(r.screen.game.state) && r.screen.menu == Some(MenuFor(r.screen.game.state))
  {
    var g := d.game;
    match g.state
    case Initial =>
      Handled(Screen(g.(state := InitialMenu), Some(InitialMenuId)), [LoadMenuFonts, LoadGameFonts, LoadGameSprites])
    case InitialMenu | HighscoresMenu | MainMenu | GameOver | PauseMenu | HelpMenu =>
      Handled(d, [DisplayMenu(d.menu), DrawCursor, FlipBuffers])
    case LoadingMainMenu =>
      Handled(Screen(g.(state := MainMenu), Some(MainMenuId)), [FreeMenu(d.menu), DisplayMenu(Some(MainMenuId))])
    case LoadingHelp =>
      Handled(Screen(g.(state := HelpMenu), Some(HelpMenuId)), [FreeMenu(d.menu), DisplayMenu(Some(HelpMenuId))])
    case LoadingHighscores =>
      Handled(Screen(g.(state := HighscoresMenu), Some(HighscoresMenuId)), [FreeMenu(d.menu), DisplayMenu(Some(HighscoresMenuId))])
    case LoadingPause =>
      Handled(Screen(g.(state := PauseMenu), Some(PauseMenuId)), [DisplayMenu(Some(PauseMenuId))])
    case Waiting =>
      Handled(d, [])
    case LoadingGame =>
      Handled(Screen(StatsReset(g).(state := Ingame), d.menu), [FreeMenu(d.menu), CleanupElements, CreateGameElements, DrawArena])
    case Ingame =>
      IngameTick(d, ended)
    case GameEnd =>
      Handled(Screen(g.(state := GameOver), Some(GameOverMenuId)), [DestroyArena])
    case Kill =>
      Handled(d, [FreeMenuFonts, FreeGameFonts, FreeMenu(d.menu)])
    case NewHighscore =>
      Handled(d, [])
  }

  /** Every transition keeps a menu screen paired with its own menu. */
  lemma HandlerKeepsConsistent(d: Screen, ended: bool)
    requires Consistent(d)
    ensures Consistent(Transition(d, ended).screen)
  {
  }

  /** Each loading screen becomes the screen it loads, with that menu current and the counters untouched. */
  lemma LoadingScreens(d: Screen, ended: bool)
    requires d.game.state in {LoadingMainMenu, LoadingHelp, LoadingHighscores, LoadingPause, GameEnd, Initial}
    ensures var r := Transition(d, ended).screen;
      IsMenuState(r.game.state) && r.menu == Some(MenuFor(r.game.state)) && r.game.(state := d.game.state) == d.game
    ensures d.game.state == LoadingMainMenu ==> Transition(d, ended).screen.game.state == MainMenu
    ensures d.game.state == LoadingHelp ==> Transition(d, ended).screen.game.state == HelpMenu
    ensures d.game.state == LoadingHighscores ==> Transition(d, ended).screen.game.state == HighscoresMenu
    ensures d.game.state == LoadingPause ==> Transition(d, ended).screen.game.state == PauseMenu
    ensures d.game.state == GameEnd ==> Transition(d, ended).screen.game.state == GameOver
    ensures d.game.state == Initial ==> Transition(d, ended).screen.game.state == InitialMenu
  {
  }

  /** Starting a game enters the game screen with every counter at 0. */
  lemma StartGame(d: Screen, ended: bool)
    requires d.game.state == LoadingGame
    ensures Transition(d, ended).screen.game == GameState(0, 0, 0, 0, Ingame)
  {
  }

  /**
   * An in-game tick with old timer `t` (below the 32-bit limit): the timer rises by 1, the
   * difficulty rises iff `t+1` is a multiple of 150, the game time rises iff `t` is a
   * multiple of 30, the score stays, and the screen stays in game unless the enemy update
   * ended the game, when it becomes GAME_END with the same counters.
   */
  lemma IngameTickCounts(d: Screen, ended: bool)
    requires d.game.state == Ingame
    requires d.game.timer < 0xFFFF_FFFF && d.game.gameTime < 0xFFFF_FFFF
    ensures var g := Transition(d, ended).screen.game; var t := d.game.timer;
      g.state == (if ended then GameEnd else Ingame) && g.score == d.game.score && g.timer == t + 1 &&
      g.difficulty == (if (t + 1) % 150 == 0 then Low8(d.game.difficulty + 1) else d.game.difficulty) &&
      g.gameTime == d.game.gameTime + (if t % 30 == 0 then 1 else 0)
  {
  }

  /**
   * A tick whose enemy update ends the game counts exactly as one that does not and makes the
   * same calls, but leaves the screen in GAME_END; the next tick then shows the game-over menu.
   */
  lemma EndedTick(d: Screen, next: bool)
    requires d.game.state == Ingame
    ensures var e, k := Transition(d, true), Transition(d, false);
      e.screen == k.screen.(game := k.screen.game.(state := GameEnd)) && e.effects == k.effects
    ensures var d1 := Transition(d, true).screen;
      Transition(d1, next).screen.game == d1.game.(state := GameOver) && Transition(d1, next).screen.menu == Some(GameOverMenuId)
  {
  }

  /** `n` consecutive ticks of the game screen on which no enemy update ends the game. */
  function IngameTicks(d: Screen, n: nat): Screen
    decreases n
  {
    if n == 0 then d else IngameTicks(Transition(d, false).screen, n - 1)
  }

  /** The number of multiples of `m` in `[lo, hi)`. */
  function Multiples(lo: nat, hi: nat, m: nat): nat
    requires 0 < m && lo <= hi
    decreases hi - lo
  {
    if lo == hi then 0 else (if lo % m == 0 then 1 else 0) + Multiples(lo + 1, hi, m)
  }

  lemma MultiplesFirst(lo: nat, hi: nat, m: nat)
    requires 0 < m && lo < hi
    ensures Multiples(lo, hi, m) == (if lo % m == 0 then 1 else 0) + Multiples(lo + 1, hi, m)
  {
  }

  lemma {:induction false} MultiplesSplitLast(lo: nat, hi: nat, m: nat)
    requires 0 < m && lo <= hi
    ensures Multiples(lo, hi + 1, m) == Multiples(lo, hi, m) + (if hi % m == 0 then 1 else 0)
    decreases hi - lo
  {
    if lo < hi {
      MultiplesSplitLast(lo + 1, hi, m);
    }
  }

  lemma {:induction false} NoMultiplesBelow(lo: nat, m: nat)
    requires 0 < lo <= m
    ensures Multiples(lo, m, m) == 0
    decreases m - lo
  {
    if lo < m {
      NoMultiplesBelow(lo + 1, m);
    }
  }

  /** The two periods the game counts in: seconds (30 ticks) and levels (150 ticks). */
  predicate Period(m: nat)
  {
    m == 30 || m == 150
  }

  lemma ModShift(k: nat, m: nat)
    requires Period(m)
    ensures (k + m) % m == k % m
  {
    if m == 30 {
    } else {
    }
  }

  /** Any window of one period holds exactly one multiple of the period. */
  lemma {:induction false} OneMultiplePerWindow(lo: nat, m: nat)
    requires Period(m)
    ensures Multiples(lo, lo + m, m) == 1
    decreases lo
  {
    if lo == 0 {
      NoMultiplesBelow(1, m);
    } else {
      OneMultiplePerWindow(lo - 1, m);
      MultiplesSplitLast(lo, lo - 1 + m, m);
      ModShift(lo - 1, m);
    }
  }

  /**
   * Over `n` in-game ticks without 32-bit overflow the timer advances by `n`, the game time by
   * the number of multiples of 30 among the old timer values, and the difficulty (modulo 256)
   * by the number of multiples of 150 among the new ones.
   */
  lemma {:induction false} IngameTicksCount(d: Screen, n: nat)
    requires d.game.state == Ingame
    requires d.game.timer + n < 0xFFFF_FFFF && d.game.gameTime + n < 0xFFFF_FFFF
    ensures var g := IngameTicks(d, n).game; var t := d.game.timer;
      g.state == Ingame && g.score == d.game.score && g.timer == t + n &&
      g.gameTime == d.game.gameTime + Multiples(t, t + n, 30) &&
      g.difficulty == Low8(d.game.difficulty + Multiples(t + 1, t + 1 + n, 150))
  {
    TicksKeepPlaying(d, n);
    TicksCountSeconds(d, n);
    TicksCountLevels(d, n);
  }

  /** Over `n` in-game ticks the screen stays in game, the score stays and the timer advances by `n`. */
  lemma {:induction false} TicksKeepPlaying(d: Screen, n: nat)
    requires d.game.state == Ingame
    requires d.game.timer + n < 0xFFFF_FFFF && d.game.gameTime + n < 0xFFFF_FFFF
    ensures var g := IngameTicks(d, n).game;
      g.state == Ingame && g.score == d.game.score && g.timer == d.game.timer + n && g.gameTime <= d.game.gameTime + n
    decreases n
  {
    if n > 0 {
      IngameTickCounts(d, false);
      var d1 := Transition(d, false).screen;
      assert IngameTicks(d, n) == IngameTicks(d1, n - 1);
      TicksKeepPlaying(d1, n - 1);
    }
  }

  /** Over `n` in-game ticks the game time advances by the number of multiples of 30 among the old timer values. */
  lemma {:induction false} TicksCountSeconds(d: Screen, n: nat)
    requires d.game.state == Ingame
    requires d.game.timer + n < 0xFFFF_FFFF && d.game.gameTime + n < 0xFFFF_FFFF
    ensures IngameTicks(d, n).game.gameTime == d.game.gameTime + Multiples(d.game.timer, d.game.timer + n, 30)
    decreases n
  {
    if n > 0 {
      var t := d.game.timer;
      IngameTickCounts(d, false);
      var d1 := Transition(d, false).screen;
      assert IngameTicks(d, n) == IngameTicks(d1, n - 1);
      TicksCountSeconds(d1, n - 1);
      MultiplesFirst(t, t + n, 30);
    }
  }

  /** Over `n` in-game ticks the difficulty advances (modulo 256) by the number of multiples of 150 among the new timer values. */
  lemma TicksCountLevels(d: Screen, n: nat)
    requires d.game.state == Ingame && d.game.timer + n < 0xFFFF_FFFF
    ensures IngameTicks(d, n).game.difficulty == Low8(d.game.difficulty + Multiples(d.game.timer + 1, d.game.timer + 1 + n, 150))
  {
    TicksFollowLevels(d, n);
    LevelsCount(d.game.difficulty, d.game.timer, n);
  }

  /** The difficulty after `n` ticks from timer value `t`, one tick at a time. */
  function LevelAfter(level: byte, t: nat, n: nat): byte
    decreases n
  {
    if n == 0 then level
    else LevelAfter(if (t + 1) % 150 == 0 then Low8(level + 1) else level, t + 1, n - 1)
  }

  lemma {:induction false} TicksFollowLevels(d: Screen, n: nat)
    requires d.game.state == Ingame && d.game.timer + n < 0xFFFF_FFFF
    ensures IngameTicks(d, n).game.difficulty == LevelAfter(d.game.difficulty, d.game.timer, n)
    decreases n
  {
    if n > 0 {
      LevelTick(d, false);
      var d1 := Transition(d, false).screen;
      assert IngameTicks(d, n) == IngameTicks(d1, n - 1);
      TicksFollowLevels(d1, n - 1);
    }
  }

  lemma {:induction false} LevelsCount(level: byte, t: nat, n: nat)
    ensures LevelAfter(level, t, n) == Low8(level + Multiples(t + 1, t + 1 + n, 150))
    decreases n
  {
    if n > 0 {
      var up := if (t + 1) % 150 == 0 then 1 else 0;
      var next := if (t + 1) % 150 == 0 then Low8(level + 1) else level;
      LevelsCount(next, t + 1, n - 1);
      MultiplesFirst(t + 1, t + 1 + n, 150);
      Low8Add(level + up, Multiples(t + 2, t + 1 + n, 150));
    }
  }

  /**
   * An in-game tick below the 32-bit limit raises the timer by one, and the difficulty iff the
   * new timer is a multiple of 150; the game goes on exactly when the enemy update did not end it.
   */
  lemma LevelTick(d: Screen, ended: bool)
    requires d.game.state == Ingame && d.game.timer < 0xFFFF_FFFF
    ensures var g := Transition(d, ended).screen.game; var t := d.game.timer;
      (g.state == Ingame <==> !ended) && g.timer == t + 1 &&
      g.difficulty == (if (t + 1) % 150 == 0 then Low8(d.game.difficulty + 1) else d.game.difficulty)
  {
  }

  lemma Low8Add(x: nat, y: nat)
    ensures Low8(Low8(x) + y) == Low8(x + y)
  {
  }

  /** Five seconds of play (150 ticks) raise the difficulty exactly once and count five seconds of game time. */
  lemma FiveSecondsOneLevel(d: Screen)
    requires d.game.state == Ingame
    requires d.game.timer + 150 < 0xFFFF_FFFF && d.game.gameTime + 150 < 0xFFFF_FFFF
    ensures IngameTicks(d, 150).game.difficulty == Low8(d.game.difficulty + 1)
    ensures IngameTicks(d, 150).game.gameTime == d.game.gameTime + 5
  {
    IngameTicksCount(d, 150);
    OneMultiplePerWindow(d.game.timer + 1, 150);
    FiveSeconds(d.game.timer);
  }

  /** Any 150 consecutive ticks hold five multiples of 30. */
  lemma FiveSeconds(t: nat)
    ensures Multiples(t, t + 150, 30) == 5
  {
    OneMultiplePerWindow(t, 30);
    OneMultiplePerWindow(t + 30, 30);
    OneMultiplePerWindow(t + 60, 30);
    OneMultiplePerWindow(t + 90, 30);
    OneMultiplePerWindow(t + 120, 30);
    MultiplesConcat(t, t + 30, t + 150, 30);
    MultiplesConcat(t + 30, t + 60, t + 150, 30);
    MultiplesConcat(t + 60, t + 90, t + 150, 30);
    MultiplesConcat(t + 90, t + 120, t + 150, 30);
  }

  lemma {:induction false} MultiplesConcat(lo: nat, mid: nat, hi: nat, m: nat)
    requires 0 < m && lo <= mid <= hi
    ensures Multiples(lo, hi, m) == Multiples(lo, mid, m) + Multiples(mid, hi, m)
    decreases mid - lo
  {
    if lo < mid {
      MultiplesConcat(lo + 1, mid, hi, m);
    }
  }

  /** Where a keyboard event goes. */
  datatype KeyRoute = ToMenu | ToGame | Dropped

  /** `kbd_state_handler`: the menu handler on menu screens, the game handler in game, nothing elsewhere. */
  function KbdStateHandler(s: State): (r: KeyRoute)
    ensures r == ToMenu <==> IsMenuState(s)
    ensures r == ToGame <==> s == Ingame
  {
    match s
    case InitialMenu | HighscoresMenu | MainMenu | GameOver | PauseMenu | HelpMenu => ToMenu
    case Ingame => ToGame
    case _ => Dropped
  }

  /** What a mouse packet causes: a cursor move, and a menu hover, a menu click or a shot. */
  datatype MouseAction = MouseAction(dx: int, dy: int, hover: bool, click: bool, shoot: bool)

  /** `mouse_state_handler`: the cursor follows the packet (screen y grows downwards) on the screens that take input. */
  function MouseStateHandler(s: State, p: Mouse.Packet): (r: Option<MouseAction>)
    ensures r.Some? <==> KbdStateHandler(s) != Dropped
    ensures r.Some? ==> r.value.dx == p.deltaX && r.value.dy == -p.deltaY
    ensures r.Some? ==> (r.value.hover <==> IsMenuState(s)) && (r.value.click <==> IsMenuState(s) && p.lb)
    ensures r.Some? ==> (r.value.shoot <==> s == Ingame && p.lb)
  {
    match s
    case InitialMenu | HighscoresMenu | MainMenu | GameOver | PauseMenu | HelpMenu =>
      Some(MouseAction(p.deltaX, -p.deltaY, true, p.lb, false))
    case Ingame =>
      Some(MouseAction(p.deltaX, -p.deltaY, false, false, p.lb))
    case _ => None
  }

  /** The static `current_menu` of `dispatcher.c`, next to the game record it drives. */
  class ScreenDispatcher {
    var currentMenu: Option<MenuId>
    const store: GameStateStore

    constructor (store: GameStateStore)
      ensures this.store == store && currentMenu.None?
    {
      this.store := store;
      currentMenu := None;
    }

    /** `game_state_handler`, acting on the store through its accessors. */
    method GameStateHandler(ended: bool) returns (effects: seq<Effect>)
      modifies this, store
      ensures Handled(Screen(store.Model(), currentMenu), effects) == Transition(old(Screen(store.Model(), currentMenu)), ended)
    {
      var gameState := store.GetGameState();
      var state := gameState.state;
      var timer := gameState.timer;
      match state
      case Initial =>
        currentMenu := Some(InitialMenuId);
        store.SetState(InitialMenu);
        effects := [LoadMenuFonts, LoadGameFonts, LoadGameSprites];
      case InitialMenu | HighscoresMenu | MainMenu | GameOver | PauseMenu | HelpMenu =>
        effects := [DisplayMenu(currentMenu), DrawCursor, FlipBuffers];
      case LoadingMainMenu =>
        effects := [FreeMenu(currentMenu)];
        currentMenu := Some(MainMenuId);
        effects := effects + [DisplayMenu(currentMenu)];
        store.SetState(MainMenu);
      case LoadingHelp =>
        effects := [FreeMenu(currentMenu)];
        currentMenu := Some(HelpMenuId);
        effects := effects + [DisplayMenu(currentMenu)];
        store.SetState(HelpMenu);
      case LoadingHighscores =>
        effects := [FreeMenu(currentMenu)];
        currentMenu := Some(HighscoresMenuId);
        effects := effects + [DisplayMenu(currentMenu)];
        store.SetState(HighscoresMenu);
      case LoadingPause =>
        currentMenu := Some(PauseMenuId);
        effects := [DisplayMenu(currentMenu)];
        store.SetState(PauseMenu);
      case Waiting =>
        effects := [];
      case LoadingGame =>
        effects := [FreeMenu(currentMenu), CleanupElements, CreateGameElements];
        store.ResetGameStats(gameState);
        effects := effects + [DrawArena];
        store.SetState(Ingame);
      case Ingame =>
        effects := [];
        if Low32(timer + 1) % (5 * 30) == 0 {
          store.IncreaseDifficulty();
          effects := [SpawnEnemyWave];
        }
        effects := effects + [DrawGame, FlipBuffers];
        if ended {
          store.SetState(GameEnd);
        }
        store.IncreaseTimer();
        if timer % 30 == 0 {
          store.IncreaseGameTime();
        }
      case GameEnd =>
        effects := [DestroyArena];
        currentMenu := Some(GameOverMenuId);
        store.SetState(GameOver);
      case Kill =>
        effects := [FreeMenuFonts, FreeGameFonts, FreeMenu(currentMenu)];
      case NewHighscore =>
        effects := [];
    }
  }
}

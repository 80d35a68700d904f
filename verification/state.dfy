/** The game-wide record of `state.c`: score, timers, difficulty and the current screen. */
module StateStore {
  import opened Common

  datatype State =
    | Initial | InitialMenu | LoadingMainMenu | MainMenu | LoadingHelp | HelpMenu
    | LoadingHighscores | HighscoresMenu | Waiting | LoadingGame | Ingame | LoadingPause
    | PauseMenu | GameEnd | GameOver | NewHighscore | Kill

  /** The C `GameState` struct with its field widths. */
  datatype GameState = GameState(score: u32, timer: u32, gameTime: u32, difficulty: byte, state: State)

  /** The record `init_game_state` leaves behind. */
  function InitialGameState(): (g: GameState)
    ensures g.score == 0 && g.timer == 0 && g.gameTime == 0 && g.difficulty == 0 && g.state == Initial
  {
    GameState(0, 0, 0, 0, Initial)
  }

  /** `increase_score`: ten points per difficulty level, modulo 2^32; nothing else changes. */
  function ScoreRaised(g: GameState): (r: GameState)
    ensures (r.score - g.score) % 0x1_0000_0000 == (10 * g.difficulty) % 0x1_0000_0000
    ensures r.(score := g.score) == g
  {
    g.(score := Low32(g.score + 10 * g.difficulty))
  }

  /** `increase_timer`: one more tick, modulo 2^32; nothing else changes. */
  function TimerRaised(g: GameState): (r: GameState)
    ensures r.timer == if g.timer == 0xFFFF_FFFF then 0 else g.timer + 1
    ensures r.(timer := g.timer) == g
  {
    g.(timer := Low32(g.timer + 1))
  }

  /** `increase_game_time`: one more second, modulo 2^32; nothing else changes. */
  function GameTimeRaised(g: GameState): (r: GameState)
    ensures r.gameTime == if g.gameTime == 0xFFFF_FFFF then 0 else g.gameTime + 1
    ensures r.(gameTime := g.gameTime) == g
  {
    g.(gameTime := Low32(g.gameTime + 1))
  }

  /** `increase_difficulty`: one more level, modulo 2^8; nothing else changes. */
  function DifficultyRaised(g: GameState): (r: GameState)
    ensures r.difficulty == if g.difficulty == 0xFF then 0 else g.difficulty + 1
    ensures r.(difficulty := g.difficulty) == g
  {
    g.(difficulty := Low8(g.difficulty + 1))
  }

  /** `reset_game_stats`: all four counters back to 0, the screen kept. */
  function StatsReset(g: GameState): (r: GameState)
    ensures r.score == 0 && r.timer == 0 && r.gameTime == 0 && r.difficulty == 0
    ensures r.state == g.state
  {
    g.(score := 0, timer := 0, gameTime := 0, difficulty := 0)
  }

  /** The difficulty is a byte: the 256th level wraps back to 0, and the score then stops rising. */
  lemma DifficultyWraps(g: GameState)
    requires g.difficulty == 0xFF
    ensures DifficultyRaised(g).difficulty == 0
    ensures ScoreRaised(DifficultyRaised(g)).score == g.score
  {
  }

  /** The counters are independent: raising one never disturbs another, in either order. */
  lemma IncreasesCommute(g: GameState)
    ensures TimerRaised(GameTimeRaised(g)) == GameTimeRaised(TimerRaised(g))
    ensures TimerRaised(DifficultyRaised(g)) == DifficultyRaised(TimerRaised(g))
    ensures GameTimeRaised(DifficultyRaised(g)) == DifficultyRaised(GameTimeRaised(g))
  {
  }

  /** Resetting twice is resetting once, and a reset game starts from the initial counters. */
  lemma ResetIdempotent(g: GameState)
    ensures StatsReset(StatsReset(g)) == StatsReset(g)
    ensures StatsReset(g) == InitialGameState().(state := g.state)
  {
  }

  /** The static `game_state` record behind the accessors of `state.c`. */
  class GameStateStore {
    var score: u32
    var timer: u32
    var gameTime: u32
    var difficulty: byte
    var state: State

    function Model(): GameState
      reads this
    {
      GameState(score, timer, gameTime, difficulty, state)
    }

    constructor ()
      ensures Model() == GameState(0, 0, 0, 0, Initial)
    {
      score, timer, gameTime, difficulty, state := 0, 0, 0, 0, Initial;
    }

    /** `init_game_state`. */
    method Init() returns (s: State)
      modifies this
      ensures Model() == InitialGameState() && s == Initial
    {
      score := 0;
      timer := 0;
      gameTime := 0;
      difficulty := 0;
      state := Initial;
      s := state;
    }

    /** `get_score`. */
    method GetScore() returns (r: u32)
      ensures r == Model().score
    {
      r := score;
    }

    /** `set_score`. */
    method SetScore(newScore: u32)
      modifies this
      ensures Model() == old(Model()).(score := newScore)
    {
      score := newScore;
    }

    /** `increase_score`. */
    method IncreaseScore()
      modifies this
      ensures Model() == ScoreRaised(old(Model()))
    {
      score := Low32(score + 10 * difficulty);
    }

    /** `get_timer`. */
    method GetTimer() returns (r: u32)
      ensures r == Model().timer
    {
      r := timer;
    }

    /** `set_timer`. */
    method SetTimer(newTimer: u32)
      modifies this
      ensures Model() == old(Model()).(timer := newTimer)
    {
      timer := newTimer;
    }

    /** `increase_timer`. */
    method IncreaseTimer()
      modifies this
      ensures Model() == TimerRaised(old(Model()))
    {
      timer := Low32(timer + 1);
    }

    /** `get_game_time`. */
    method GetGameTime() returns (r: u32)
      ensures r == Model().gameTime
    {
      r := gameTime;
    }

    /** `set_game_time`. */
    method SetGameTime(newGameTime: u32)
      modifies this
      ensures Model() == old(Model()).(gameTime := newGameTime)
    {
      gameTime := newGameTime;
    }

    /** `increase_game_time`. */
    method IncreaseGameTime()
      modifies this
      ensures Model() == GameTimeRaised(old(Model()))
    {
      gameTime := Low32(gameTime + 1);
    }

    /** `get_difficulty`. */
    method GetDifficulty() returns (r: byte)
      ensures r == Model().difficulty
    {
      r := difficulty;
    }

    /** `set_difficulty`. */
    method SetDifficulty(newDifficulty: byte)
      modifies this
      ensures Model() == old(Model()).(difficulty := newDifficulty)
    {
      difficulty := newDifficulty;
    }

    /** `increase_difficulty`. */
    method IncreaseDifficulty()
      modifies this
      ensures Model() == DifficultyRaised(old(Model()))
    {
      difficulty := Low8(difficulty + 1);
    }

    /** `get_game_state`: a copy of the whole record. */
    method GetGameState() returns (r: GameState)
      ensures r == Model()
    {
      r := GameState(score, timer, gameTime, difficulty, state);
    }

    /** `set_game_state`: the whole record replaced, so a following `get_game_state` returns `g`. */
    method SetGameState(g: GameState)
      modifies this
      ensures Model() == g
    {
      score, timer, gameTime, difficulty, state := g.score, g.timer, g.gameTime, g.difficulty, g.state;
    }

    /** `get_state`. */
    method GetState() returns (r: State)
      ensures r == Model().state
    {
      r := state;
    }

    /** `set_state`: only the screen changes. */
    method SetState(newState: State)
      modifies this
      ensures Model() == old(Model()).(state := newState)
    {
      state := newState;
    }

    /** `reset_game_stats`: the record passed in is not used. */
    method ResetGameStats(ignored: GameState)
      modifies this
      ensures Model() == StatsReset(old(Model()))
    {
      score := 0;
      timer := 0;
      gameTime := 0;
      difficulty := 0;
    }
  }
}

# BattleBytes core, modelled in Dafny

BattleBytes is a small shooter for the MINIX LCOM framework. A tank in an arena shoots at
viruses that crawl towards it, and a menu system sits around the game. This project models
the integer and state-machine logic under the rendering, and proves properties of it:

- **i8042 controller drivers.** The bounded polls of at most ten attempts, the status
  checks and the reassembly of keyboard scan codes and mouse packets (`keyboard.c`,
  `mouse.c`). Port reads are sequences of `(code, 32-bit word)` answers, and port writes are
  returned as a list.
- **Other device helpers.** The byte-splitting helpers (`utils.c`) and the 8254
  control-word and status decoding (`timer.c`).
- **The mouse gesture state machine** (`mouse.c`).
- **The event loop.** The body of `proj_main_loop` for one hardware notification, and the
  loop over a sequence of notifications that stops at KILL (`proj.c`).
- **Game state and dispatch.** The `GameState` record (`state.c`) and the dispatcher's
  state transitions and input routing (`dispatcher.c`). Rendering, loading and freeing calls
  appear only as a list of named effects.
- **Menus.** Menu construction and the keyboard, hover and click selection logic
  (`menu.c`).
- **Game logic.** AABB collision, the walkability grid, movement towards a target with the
  collision fallback, cursor clamping, the tank's keyboard moves and shooting
  (`game_logic.c`, `arena.c`).
- **Linked lists.** The enemy list and the explosion list (`game_model.c`,
  `game_view.c`), with creation, destruction, waves, the per-frame update, the animation
  counter (`asprite.c`) and the commit/revert logic of `draw_tank`.

**How the model is built.**

- There is one module per source file. `game_logic.c` is split in two: `GameLogic` holds the
  queries and movement, and `GameActions` holds the keyboard handler and `shoot`.
- Each state-changing C function is a method of a class whose fields are the file's
  globals. The method's `ensures` ties the new state to a pure specification function.
- The lemmas state the properties on those functions.
- A linked list is a sequence of `Node(id, item)` values. The `id` stands for the node's
  address and is unique within the list.
- Constants from headers that are not part of this model are parameters. This covers
  `ARENA_WIDTH`, `ARENA_HEIGHT`, `HEADER_HEIGHT`, `FOOTER_HEIGHT`, `SPAWN_OFFSET` and
  `H_RES` (an `Arena`'s `Dims`), and `TIMER_FREQ`.
- The C integer widths are written out: `Low8`, `Low16` and `Low32` wrap a value, and
  `ToInt16` converts it to the signed type.

## Model

| member | source | states |
|---|---|---|
| `Utils.SplitRoundTrip` | proj/src/device/utils.c:18-36 | the high byte times 256 plus the low byte gives back every 16-bit value |
| `Utils.JoinRoundTrip` | proj/src/device/utils.c:18-36 | joining two bytes into a 16-bit value and splitting it gives the two bytes back |
| `Utils.UtilGetLsb` | proj/src/device/utils.c:18-22 | a null pointer gives 1 and stores nothing; otherwise 0 is returned and the stored byte is congruent to the value modulo 256 |
| `Utils.UtilGetMsb` | proj/src/device/utils.c:32-36 | a null pointer gives 1 and stores nothing; otherwise 0 is returned and the stored byte is the value's 256-block |
| `Utils.UtilSysInb` | proj/src/device/utils.c:46-52 | a null pointer gives 1 without a read; otherwise the kernel's code is passed through and the low byte of the word read is stored, even when the read failed |
| `Utils.GetBytesRoundTrip` | proj/src/device/utils.c:18-36 | the two helpers' outputs recombine to the original value |
| `Timer.ControlWordSpec` | proj/src/device/timer.c:36-38 | the control word keeps the low four status bits, sets both access bits and puts the timer number in bits 6-7 |
| `Timer.BitsValue` | proj/src/device/timer.c:34-38 | the 8-bit pattern the driver manipulates, read as a number, is the byte itself |
| `Timer.ControlWordAsInt` | proj/src/device/timer.c:36-38 | the three bitwise steps on the `uint8_t` status compute the arithmetic control word |
| `Timer.BuildControlWord` | proj/src/device/timer.c:34-38 | the byte built with OR, AND and shift is exactly the control word specification |
| `Timer.CounterWraps` | proj/src/device/timer.c:25-30 | as written, 18 Hz with a 1193182 Hz clock passes the range test but its divisor 66287 is truncated to 751 |
| `Timer.IntendedCounterExact` | proj/src/device/timer.c:25-30 | when the divisor fits 16 bits the stored counter is the exact quotient, at least 1, bracketing the clock between counter*freq and (counter+1)*freq |
| `Timer.SetFrequency` | proj/src/device/timer.c:24-42 | out of range: 1 and no port access; in range: read-back, control word from the status read, counter LSB then MSB, and the code of the last write |
| `Timer.InitModeOf` | proj/src/device/timer.c:113-118 | the access mode is decided by bits 5:4, each of the four values mapping to its own mode (both directions) |
| `Timer.CountModeOf` | proj/src/device/timer.c:120-127 | the counting mode is bits 3:1, with 6 and 7 folded onto 2 and 3, so it never exceeds 5 |
| `Timer.BaseOf` | proj/src/device/timer.c:129-131 | the intended base decoding: BCD exactly when bit 0 is set |
| `Timer.BaseAsWrittenMisreports` | proj/src/device/timer.c:129-131 | as written, the status 0x34 (binary, mode 2) is reported as BCD |
| `Timer.BaseSurvivesControlWord` | proj/src/device/timer.c:34-38 | programming a frequency keeps the counting base and always selects LSB-then-MSB access |
| `Timer.DisplayConf` | proj/src/device/timer.c:103-136 | an unknown field gives 1 and prints nothing; a known field gives the printer's code with the field's value: the whole status byte, the initialisation mode of bits 5-4, the counting mode of bits 3-1 (at most 5), or the BCD flag as `timer_display_conf` computes it |
| `Timer.TimerDevice.constructor` | proj/src/device/timer.c:14 | the tick counter starts at 0 |
| `Timer.TimerDevice.IntHandler` | proj/src/device/timer.c:73-75 | every timer interrupt adds one to the counter |
| `I8042.FirstStop` | proj/src/device/keyboard.c:50-62 | the first of the ten status polls that ends a wait: it ends it and no earlier poll does; none exactly when no poll does |
| `I8042.ReadLoop` | proj/src/device/keyboard.c:107-130 | the polled read gives -1, 0 or 1; 1 exactly when all ten polls are quiet, with nothing read; 0 only after a successful data read under a full, valid status |
| `I8042.ReadLoopByFirstStop` | proj/src/device/keyboard.c:107-130 | the outcome of the read loop is decided by the first poll that ends the wait: a failed status read, a failed data read or an invalid status gives -1, ten quiet polls give 1 |
| `Keyboard.ValidKbStIffTopBitsClear` | proj/src/device/keyboard.c:85-99 | a keyboard status is valid exactly when parity, timeout and AUX bits are all clear, i.e. it is below 0x20 |
| `Keyboard.ReadValueSpec` | proj/src/device/keyboard.c:107-130 | a 0 result carries a valid keyboard status and the byte of the data read; a timeout carries no data |
| `Keyboard.ScanStep` | proj/src/device/keyboard.c:151-175 | the prefix 0xE0 opens a two-byte code and suppresses dispatch; any other byte becomes the code handlers read, make exactly when below 0x80, and the second byte of a two-byte code re-enables dispatch |
| `Keyboard.TwoByteCode` | proj/src/device/keyboard.c:151-175 | 0xE0 followed by another byte assembles `[0xE0, b]` with size 2, ready for dispatch |
| `Keyboard.OneByteCode` | proj/src/device/keyboard.c:166-173 | a one-byte code is stored as the first byte and dispatched as itself |
| `Keyboard.KeyboardDriver.constructor` | proj/src/device/keyboard.c:10-14 | the driver's globals start cleared |
| `Keyboard.KeyboardDriver.IssueCmd` | proj/src/device/keyboard.c:50-63 | the first poll with the input buffer empty writes the command once and gives 0; ten busy polls give -1 and write nothing; the status global holds the last poll |
| `Keyboard.KeyboardDriver.ReadCmd` | proj/src/device/keyboard.c:71-76 | the command byte is whatever the data register yields; the read command is written only if the controller became ready, and the status kept is the one of the poll that stopped the wait, or of the last poll |
| `Keyboard.KeyboardDriver.ReadValue` | proj/src/device/keyboard.c:107-130 | the loop returns the outcome of the read-loop specification and changes the data byte only when the data register was read |
| `Keyboard.KeyboardDriver.InterruptHandler` | proj/src/device/keyboard.c:136-141 | a failed read raises the discard flag, a good one leaves it as it was |
| `Keyboard.KeyboardDriver.ProcessScancode` | proj/src/device/keyboard.c:151-175 | the pointers and `skip_print` end as the scan-code step prescribes |
| `Mouse.ValidMStIffAuxOnly` | proj/src/device/mouse.c:51-65 | a mouse status is valid exactly when parity and timeout are clear and AUX is set, i.e. it lies in 0x20..0x3F |
| `Mouse.NoStatusValidForBoth` | proj/src/device/mouse.c:51-65 | no status byte passes both the mouse and the keyboard validity checks |
| `Mouse.ReadObfSpec` | proj/src/device/mouse.c:73-96 | a 0 result carries a valid mouse status and the byte of the data read; a timeout carries no data |
| `Mouse.Delta` | proj/src/device/mouse.c:136-155 | the 16-bit delta built from the sign bit and a byte is the 9-bit two's complement number `b - 256` or `b`: in -256..255, negative exactly with the sign bit, low byte `b` |
| `Mouse.PacketStep` | proj/src/device/mouse.c:116-165 | an unsynchronised first byte is dropped with the count kept at 0; slot 0 stores the byte, the buttons and the overflow flags and leaves the deltas; slot 1 (2) stores the byte and the x (y) delta signed by bit 4 (5) of byte 0 and changes nothing else; a count of 3 or more resets to 0 with the packet untouched |
| `Mouse.AssemblePacket` | proj/src/device/mouse.c:116-165 | three bytes starting with a synchronised one give the packet `[b0, b1, b2]` with the buttons and overflow flags of b0 and deltas `b1 - 256*bit4(b0)`, `b2 - 256*bit5(b0)` |
| `Mouse.CountStaysInRange` | proj/src/device/mouse.c:116-165 | the packet count never leaves 0..3, so no byte is stored past the third slot |
| `Mouse.MouseCmdAsWritten` | proj/src/device/mouse.c:174-182 | as written, the command succeeds exactly when the data global holds 0xFA after the read, whatever the read returned |
| `Mouse.StaleAckReportsSuccess` | proj/src/device/mouse.c:174-182 | ten quiet polls time the read out, yet a 0xFA left from an earlier command is reported as success |
| `Mouse.MouseCmdChecked` | proj/src/device/mouse.c:174-182 | the intended result: success exactly when both writes and the read succeeded and the byte read is 0xFA |
| `Mouse.CheckedRejectsTimeout` | proj/src/device/mouse.c:174-182 | with the checks, a timed-out read is never taken for an acknowledgement |
| `Mouse.MouseDriver.constructor` | proj/src/device/mouse.c:12-15 | the driver's globals start cleared |
| `Mouse.MouseDriver.ReadObfByte` | proj/src/device/mouse.c:73-96 | the loop returns the outcome of the read-loop specification and changes the data byte only when the data register was read |
| `Mouse.MouseDriver.InterruptHandler` | proj/src/device/mouse.c:102-107 | a failed read raises the discard flag, a good one leaves it as it was |
| `Mouse.MouseDriver.PacketHandler` | proj/src/device/mouse.c:116-165 | the packet, count and discard flag end as the packet step prescribes, and 0 is always returned |
| `Mouse.MouseDriver.IssueMouseCmd` | proj/src/device/mouse.c:174-182 | writes 0xD4 and the command when the controller is ready, and reports what the as-written result says; the mouse status is the read's, the data byte is the one read or the old one after a timeout (so a stale ACK persists), and the keyboard status is that of the second write's wait |
| `Gesture.StateStep` | proj/src/device/mouse.c:193-242 | every state change zeroes the sums; Complete is final; Start moves to Drawing1 exactly on a left-only packet; Peak is reached only after a long, steep up-right stroke, Complete only after a long, steep down-right one, and Drawing2 only on a still, right-only packet at the peak |
| `Gesture.StepKeepsInv` | proj/src/device/mouse.c:193-254 | each packet keeps the sums within what the state allows: zero outside the strokes, non-negative while drawing up-right, rightward and downward while drawing down-right |
| `Gesture.MiddleButtonHolds` | proj/src/device/mouse.c:200-238 | a middle-button packet during either stroke leaves the machine unchanged |
| `Gesture.ReleaseAtPeak` | proj/src/device/mouse.c:209-214 | releasing all buttons in the first stroke reaches Peak exactly when x_sum >= x_len and y_sum > x_sum, and restarts otherwise |
| `Gesture.ReleaseAtComplete` | proj/src/device/mouse.c:230-235 | a packet without the right and middle buttons (left one included) ends the second stroke: Complete exactly when x_sum >= x_len and -y_sum > x_sum, a restart otherwise |
| `Gesture.PeakRules` | proj/src/device/mouse.c:216-221 | at the peak: a restart exactly on the left or middle button or movement above the tolerance; Drawing2 (with zeroed sums) exactly on a still packet with the right button alone; a still packet with no button keeps the state |
| `Gesture.FirstStrokeRules` | proj/src/device/mouse.c:200-207 | during the first stroke, a left or downward delta above the tolerance restarts; otherwise the sums become max(0, x_sum + dx) and max(0, y_sum + dy) |
| `Gesture.SecondStrokeRules` | proj/src/device/mouse.c:223-229 | during the second stroke, a left or upward delta above the tolerance restarts; otherwise the sums become max(0, x_sum + dx) and min(0, y_sum + dy) |
| `Gesture.RunKeepsInv` | proj/src/device/mouse.c:193-254 | the invariant on the sums holds after any sequence of packets |
| `Gesture.CompleteIsFinal` | proj/src/device/mouse.c:239-241 | once complete, no packet sequence leaves Complete |
| `Gesture.RecognisesGesture` | proj/src/device/mouse.c:193-242 | the six-packet gesture (press left, stroke up-right, release, press right, stroke down-right, release) is recognised |
| `Gesture.GestureMachine.constructor` | proj/src/device/mouse.c:16-18 | the machine starts in START with both sums zero |
| `Gesture.GestureMachine.StateChange` | proj/src/device/mouse.c:250-254 | the new state with both sums zeroed |
| `Gesture.GestureMachine.StateMaintain` | proj/src/device/mouse.c:262-265 | the packet's deltas are added to the sums, the state is kept |
| `Gesture.GestureMachine.StateMachine` | proj/src/device/mouse.c:193-242 | the globals end as the state step prescribes |
| `StateStore.InitialGameState` | proj/src/dispatcher/state.c:15-22 | every counter is 0 and the screen is INITIAL |
| `StateStore.ScoreRaised` | proj/src/dispatcher/state.c:46-48 | the score grows by ten points per difficulty level modulo 2^32, and nothing else changes |
| `StateStore.TimerRaised` | proj/src/dispatcher/state.c:72-74 | the tick counter grows by one, wrapping from 2^32-1 to 0, and nothing else changes |
| `StateStore.GameTimeRaised` | proj/src/dispatcher/state.c:98-100 | the seconds counter grows by one, wrapping from 2^32-1 to 0, and nothing else changes |
| `StateStore.DifficultyRaised` | proj/src/dispatcher/state.c:124-126 | the level grows by one, wrapping from 255 to 0, and nothing else changes |
| `StateStore.StatsReset` | proj/src/dispatcher/state.c:169-174 | the four counters become 0 and the screen is kept |
| `StateStore.DifficultyWraps` | proj/src/dispatcher/state.c:124-126 | raising level 255 wraps it to 0, after which a kill no longer raises the score |
| `StateStore.IncreasesCommute` | proj/src/dispatcher/state.c:72-126 | raising the tick counter, the seconds and the level commute pairwise |
| `StateStore.ResetIdempotent` | proj/src/dispatcher/state.c:169-174 | resetting twice is resetting once, and gives the initial counters with the screen kept |
| `StateStore.GameStateStore.constructor` | proj/src/dispatcher/state.c:7 | the static record starts zeroed, on the INITIAL screen |
| `StateStore.GameStateStore.Init` | proj/src/dispatcher/state.c:15-22 | the record becomes the initial one and INITIAL is returned |
| `StateStore.GameStateStore.GetScore` | proj/src/dispatcher/state.c:29-31 | returns the stored score |
| `StateStore.GameStateStore.SetScore` | proj/src/dispatcher/state.c:38-40 | only the score changes, to the value given |
| `StateStore.GameStateStore.IncreaseScore` | proj/src/dispatcher/state.c:46-48 | the record becomes its score-raised version |
| `StateStore.GameStateStore.GetTimer` | proj/src/dispatcher/state.c:55-57 | returns the stored tick counter |
| `StateStore.GameStateStore.SetTimer` | proj/src/dispatcher/state.c:64-66 | only the tick counter changes, to the value given |
| `StateStore.GameStateStore.IncreaseTimer` | proj/src/dispatcher/state.c:72-74 | the record becomes its timer-raised version |
| `StateStore.GameStateStore.GetGameTime` | proj/src/dispatcher/state.c:81-83 | returns the stored seconds counter |
| `StateStore.GameStateStore.SetGameTime` | proj/src/dispatcher/state.c:90-92 | only the seconds counter changes, to the value given |
| `StateStore.GameStateStore.IncreaseGameTime` | proj/src/dispatcher/state.c:98-100 | the record becomes its seconds-raised version |
| `StateStore.GameStateStore.GetDifficulty` | proj/src/dispatcher/state.c:107-109 | returns the stored level |
| `StateStore.GameStateStore.SetDifficulty` | proj/src/dispatcher/state.c:116-118 | only the level changes, to the value given |
| `StateStore.GameStateStore.IncreaseDifficulty` | proj/src/dispatcher/state.c:124-126 | the record becomes its level-raised version |
| `StateStore.GameStateStore.GetGameState` | proj/src/dispatcher/state.c:133-135 | returns a copy of the whole record |
| `StateStore.GameStateStore.SetGameState` | proj/src/dispatcher/state.c:142-144 | the whole record is replaced, so the next read returns what was written |
| `StateStore.GameStateStore.GetState` | proj/src/dispatcher/state.c:151-153 | returns the stored screen |
| `StateStore.GameStateStore.SetState` | proj/src/dispatcher/state.c:160-162 | only the screen changes, to the value given |
| `StateStore.GameStateStore.ResetGameStats` | proj/src/dispatcher/state.c:169-174 | the record becomes its reset version; the argument is ignored |
| `Dispatcher.Transition` | proj/src/dispatcher/dispatcher.c:19-104 | the loading screens, INITIAL and GAME_END change the screen, and an in-game tick moves to GAME_END exactly when the enemy update run by `draw_game` (game_view.c:325, game_model.c:230-232) ends the game; every other screen is kept; outside LOADING_GAME and INGAME the counters are untouched; the current menu only ever changes to the menu of the new menu screen |
| `Dispatcher.HandlerKeepsConsistent` | proj/src/dispatcher/dispatcher.c:19-104 | every transition keeps each menu screen paired with its own menu |
| `Dispatcher.LoadingScreens` | proj/src/dispatcher/dispatcher.c:26-65 | each loading screen (and INITIAL, GAME_END) becomes the screen it loads, with that menu current and the counters untouched |
| `Dispatcher.StartGame` | proj/src/dispatcher/dispatcher.c:68-75 | starting a game enters INGAME with every counter at 0 |
| `Dispatcher.IngameTickCounts` | proj/src/dispatcher/dispatcher.c:76-88 | an in-game tick raises the timer by one, the level exactly when the new timer is a multiple of 150, the seconds exactly when the old timer is a multiple of 30, keeps the score, and ends in GAME_END exactly when the enemy update ended the game, INGAME otherwise |
| `Dispatcher.IngameTicksCount` | proj/src/dispatcher/dispatcher.c:76-88 | over n ticks without 32-bit overflow on which no enemy update ends the game, the timer advances by n, the seconds by the multiples of 30 among the old timer values, and the level, modulo 256, by the multiples of 150 among the new ones |
| `Dispatcher.TicksKeepPlaying` | proj/src/dispatcher/dispatcher.c:76-88 | n in-game ticks on which no enemy update ends the game stay in game, keep the score and advance the timer by n |
| `Dispatcher.EndedTick` | proj/src/dispatcher/dispatcher.c:76-92 | a tick whose enemy update ends the game counts and calls exactly as one that does not, but leaves GAME_END, and the next tick shows the game-over menu with the counters kept |
| `Dispatcher.TicksCountSeconds` | proj/src/dispatcher/dispatcher.c:85-87 | n in-game ticks on which the game goes on advance the seconds by the multiples of 30 among the old timer values |
| `Dispatcher.TicksCountLevels` | proj/src/dispatcher/dispatcher.c:77-80 | n in-game ticks on which the game goes on advance the level, modulo 256, by the multiples of 150 among the new timer values |
| `Dispatcher.TicksFollowLevels` | proj/src/dispatcher/dispatcher.c:77-80 | the level after n ticks is the level stepped one tick at a time |
| `Dispatcher.LevelsCount` | proj/src/dispatcher/dispatcher.c:77-80 | stepping the level tick by tick equals adding the count of multiples of 150, modulo 256 |
| `Dispatcher.LevelTick` | proj/src/dispatcher/dispatcher.c:77-85 | a tick raises the timer by one and the level exactly when the new timer is a multiple of 150; the game goes on exactly when the enemy update did not end it |
| `Dispatcher.OneMultiplePerWindow` | proj/src/dispatcher/dispatcher.c:77-87 | any window of 30 or 150 consecutive ticks holds exactly one multiple of the period |
| `Dispatcher.FiveSeconds` | proj/src/dispatcher/dispatcher.c:77-87 | any 150 consecutive ticks hold five multiples of 30 |
| `Dispatcher.FiveSecondsOneLevel` | proj/src/dispatcher/dispatcher.c:76-88 | five seconds of play (150 ticks on which the game goes on) raise the level exactly once and count five seconds |
| `Dispatcher.KbdStateHandler` | proj/src/dispatcher/dispatcher.c:113-130 | keyboard input goes to the menu exactly on the six menu screens, to the game exactly in game, and is dropped elsewhere |
| `Dispatcher.MouseStateHandler` | proj/src/dispatcher/dispatcher.c:137-161 | a packet acts exactly on the screens that take input: the cursor follows the deltas with y inverted, menus get a hover and, with the left button, a click; in game the left button shoots |
| `Dispatcher.ScreenDispatcher.constructor` | proj/src/dispatcher/dispatcher.c:9 | no menu is current at start |
| `Dispatcher.ScreenDispatcher.GameStateHandler` | proj/src/dispatcher/dispatcher.c:19-104 | the record, the current menu and the calls made are those of the transition switch, including the GAME_END the enemy update writes during an in-game tick |
| `Menus.LastHit` | proj/src/menu/menu.c:399-427 | the largest option whose inclusive hitbox contains the point: it contains it and no later one does; none exactly when no option does |
| `Menus.SelectUp` | proj/src/menu/menu.c:444-449 | arrow-up moves one option up cyclically, and from no selection to the last option |
| `Menus.SelectDown` | proj/src/menu/menu.c:450-455 | arrow-down moves one option down cyclically, and from no selection to the first option |
| `Menus.UpDownInverse` | proj/src/menu/menu.c:444-455 | on a valid selection, arrow-up and arrow-down undo each other |
| `Menus.DownCycles` | proj/src/menu/menu.c:450-455 | k <= n presses of arrow-down advance the selection by k, wrapping once, so n presses return to the start |
| `Menus.MenuKeyEffect` | proj/src/menu/menu.c:437-464 | the arrows land on an option and keep the game record; the spacebar keeps the selection and enters the selected option's state, or does nothing with no selection; any other code changes nothing |
| `Menus.HoverFromAgrees` | proj/src/menu/menu.c:416-427 | the hover loop, from any option on, ends at the selection the last-hit description gives |
| `Menus.HoverSelectsLastHit` | proj/src/menu/menu.c:416-427 | after hovering, the selection is the last option under the cursor, and -1 exactly when no option is under it |
| `Menus.ClickFromAgrees` | proj/src/menu/menu.c:399-408 | the click loop, from any option on, ends at the state of the last option hit, or the state before |
| `Menus.ClickEntersLastHit` | proj/src/menu/menu.c:399-408 | a click enters the state of the last option under the cursor; with none the state is unchanged |
| `Menus.Menu.constructor` | proj/src/menu/menu.c:33-68 | the title and the first num_options entries of every per-option array are copied, and option 0 is selected |
| `Menus.Menu.HandleMenuKeyboard` | proj/src/menu/menu.c:437-464 | the selection and the game record end as the key step prescribes for the code read |
| `Menus.Menu.HandleMenuHover` | proj/src/menu/menu.c:416-427 | the selection ends as the hover loop prescribes |
| `Menus.Menu.HandleMenuClick` | proj/src/menu/menu.c:399-408 | only the screen of the record changes, to what the click loop prescribes |
| `Sprites.Sprite.constructor` | proj/src/graphics/sprite.h:24-29 | a sprite holds exactly the fields it was given |
| `Arenas.Arena.constructor` | proj/src/model/arena.c:19-60 | after clearing, a grid cell is marked exactly when it lies under a pixel of the image whose colour is not the ground colour |
| `Arenas.WalkableAsWritten` | proj/src/model/arena.c:70-76 | as written, the bounds test lets through exactly the rows from ARENA_HEIGHT into the footer, which lie past the grid; a point reported walkable is strictly inside the arena |
| `Arenas.WalkableAgrees` | proj/src/model/arena.c:70-76 | wherever the code as written stays in the grid it agrees with the bounded definition, and the rows it reads past the grid are not walkable there |
| `Arenas.WalkableReadsPastGrid` | proj/src/model/arena.c:70-76 | with a footer, the first row below the arena passes the bounds test and is read past the grid |
| `Arenas.ScanRegion` | proj/src/model/arena.c:90-97 | the row-by-row scan reports a block exactly when some pixel of the rectangle is not walkable |
| `Arenas.ArenaCollision` | proj/src/model/arena.c:85-98 | a sprite collides exactly when some pixel it covers, rows moved up by the header as a `uint16_t`, is not walkable |
| `Arenas.AboveHeaderCollides` | proj/src/model/arena.c:85-98 | a non-empty sprite whose top is inside the header always collides, because its row offset wraps past the arena |
| `Arenas.Registry.constructor` | proj/src/model/arena.c:9 | no arena is current at start |
| `Arenas.Registry.CreateArena` | proj/src/model/arena.c:19-60 | a fresh arena with the grid built from the image becomes the current one |
| `Arenas.Registry.DestroyArena` | proj/src/model/arena.c:106-110 | destroying an arena leaves the current-arena pointer as it was |
| `AnimSprites.MapsOf` | proj/src/graphics/asprite.c:30-47 | one pixmap per frame, in frame order |
| `AnimSprites.CreateAsprite` | proj/src/graphics/asprite.c:25-61 | no sprite exactly when a later frame fails to load or differs in size from the first; otherwise a sprite at (0,0) with zero speed showing frame 0, counter 0, the given speed and every frame's pixmap in order |
| `AnimSprites.AnimateStep` | proj/src/graphics/asprite.c:77-91 | below the animation speed only the counter rises; at it the counter restarts, the next frame cyclically is shown, and 1 is returned exactly when destruction is asked and that frame is the last; the sprite's other fields stay |
| `AnimSprites.NextFig` | proj/src/graphics/asprite.c:81 | the frame after `cur` of `n` is `cur + 1`, or 0 after the last |
| `AnimSprites.AnimateN` | proj/src/graphics/asprite.c:77-91 | repeated calls keep the sprite valid, with its frames, speed and geometry unchanged |
| `AnimSprites.FramePeriod` | proj/src/graphics/asprite.c:77-91 | after n calls the counter is `(cur_aspeed + n) mod (aspeed + 1)` and the frame has advanced by the number of completed periods, modulo the frame count |
| `AnimSprites.PeriodStep` | proj/src/graphics/asprite.c:79-89 | one call moves the counter and the frame from the k-call position to the (k+1)-call position |
| `AnimSprites.ExplosionLifetime` | proj/src/graphics/asprite.c:77-91 | a 20-frame explosion at speed 3 first asks to be destroyed on its 76th call |
| `AnimSprites.AnimSprite.constructor` | proj/src/graphics/asprite.c:25-37 | a fresh sprite holding exactly the given fields |
| `AnimSprites.AnimSprite.Animate` | proj/src/graphics/asprite.c:77-91 | the fields and the result are those of the animation step |
| `AnimSprites.NewAnimSprite` | proj/src/graphics/asprite.c:25-61 | null exactly when the specification gives no sprite; otherwise a fresh sprite equal to the one it describes |
| `GameLogic.CollisionIffSharedPixel` | proj/src/logic/game_logic.c:16-22 | two non-empty sprites collide exactly when some pixel lies under both, so the test is symmetric |
| `GameLogic.MoveCollision` | proj/src/logic/game_logic.c:59-74 | a move is reported blocked exactly when some pixel of the shifted sprite, in arena rows, is not walkable |
| `GameLogic.SpawnCollision` | proj/src/logic/game_logic.c:33-49 | a spawn box is rejected exactly when it comes within the spawn offset of the tank or covers a pixel that is not walkable |
| `GameLogic.SpawnAcceptedIsClear` | proj/src/logic/game_logic.c:33-49 | an accepted spawn box neither overlaps the tank nor collides with the arena |
| `GameLogic.StepAxis` | proj/src/logic/game_logic.c:86-111 | the move along one axis is a value of the `int16_t` it is stored in |
| `GameLogic.StepNoOvershoot` | proj/src/logic/game_logic.c:86-111 | a step has the sign of the distance, is no longer than it or the speed, covers the whole distance exactly when the speed allows, and is zero only at the target for a positive speed |
| `GameLogic.Shifted` | proj/src/logic/game_logic.c:115-116 | moving a sprite changes only its position |
| `GameLogic.MoveTo` | proj/src/logic/game_logic.c:85-127 | only the position changes, and the result is the sprite itself, the full step, or the x step or y step alone |
| `GameLogic.UnblockedMoveIsClear` | proj/src/logic/game_logic.c:59-74 | a move that passes the move test lands where the arena's own collision test finds nothing |
| `GameLogic.MoveKeepsClear` | proj/src/logic/game_logic.c:112-120 | with collision checks on, a sprite clear of obstacles stays clear after every move |
| `GameLogic.MoveTowardTarget` | proj/src/logic/game_logic.c:85-127 | each coordinate ends between where it was and the target; at the target nothing moves; without collision checks a target within the speed is reached in one call |
| `GameLogic.CandidatesBetween` | proj/src/logic/game_logic.c:112-125 | each of the four possible outcomes lies between the sprite and the target |
| `GameLogic.MoveCandidates` | proj/src/logic/game_logic.c:112-125 | with nothing to do the sprite stays; without collision checks it takes the whole step |
| `GameLogic.AxisLands` | proj/src/logic/game_logic.c:86-111 | along one axis the step lands between the coordinate and the target without 16-bit wrap, and on the target when the speed allows |
| `GameLogic.AxisMove` | proj/src/logic/game_logic.c:90-111 | the branches pick the step the axis specification gives |
| `GameLogic.MoveSpriteTo` | proj/src/logic/game_logic.c:85-127 | the sprite ends where the move specification puts it, and 0 is returned |
| `GameLogic.SlideSprite` | proj/src/logic/game_logic.c:113-120 | the full step, else the x step, else the y step, whichever is first unblocked, is applied to the sprite; nothing moves if all are blocked |
| `GameLogic.CursorMoved` | proj/src/logic/game_logic.c:173-194 | only the position changes; a move that stays inside the bounds is applied exactly |
| `GameLogic.CursorStaysOnScreen` | proj/src/logic/game_logic.c:173-194 | the cursor stays on columns 0..799 and rows 20..579 (for an arena at most 800 columns wide) |
| `GameLogic.MoveCursor` | proj/src/logic/game_logic.c:173-194 | the cursor ends where the clamp specification puts it, and 0 is returned |
| `GameActions.KeyMove` | proj/src/logic/game_logic.c:142-158 | W, S, A and D move ten pixels along one axis, any other code none |
| `GameActions.GameKey` | proj/src/logic/game_logic.c:135-164 | the spacebar break enters LOADING_PAUSE; nothing else touches the game record |
| `GameActions.GameKeyMove` | proj/src/logic/game_logic.c:135-164 | a key moves the tank by ten pixels along one axis exactly when it is W, S, A or D and the target is clear, and the tank then does not collide |
| `GameActions.HandleGameKeyboard` | proj/src/logic/game_logic.c:135-164 | the tank and the game record end as the key specification prescribes |
| `GameActions.FirstHit` | proj/src/logic/game_logic.c:236-249 | the first enemy in list order whose box contains the point: it is hit and none before it is; none exactly when no enemy is hit |
| `GameActions.ShotDestroysFirstHit` | proj/src/logic/game_logic.c:228-250 | with no enemy hit the list stays; otherwise exactly the first enemy hit is unlinked and the others stay in order |
| `GameActions.FirstHitIs` | proj/src/logic/game_logic.c:236-249 | the first hit is at position k when k is hit and none before it is |
| `GameActions.Shoot` | proj/src/logic/game_logic.c:228-250 | an explosion is pushed 10 pixels right of and below the crosshair's corner at the next explosion address; the first enemy under the crosshair's centre is destroyed and the score rises once, only then; the tank's hp and direction are kept |
| `GameActions.DestroyFirstHit` | proj/src/logic/game_logic.c:236-249 | the walk destroys the first enemy hit and raises the score once, or changes nothing; the tank's hp and direction are kept |
| `Nodes.Unlink` | proj/src/model/game_model.c:124-136 | the pointer-to-pointer walk leaves a list without the address unchanged, and otherwise removes exactly one node |
| `Nodes.UnlinkFirst` | proj/src/model/game_model.c:124-136 | the walk unlinks the first node at the address and keeps the nodes before and after it in order |
| `Nodes.UnlinkAt` | proj/src/model/game_model.c:124-136 | in a list with unique addresses, unlinking a node's address removes exactly that position |
| `Nodes.RemoveAtKeepsUnique` | proj/src/model/game_model.c:124-136 | removing a node keeps the addresses unique and below the same bound |
| `Nodes.RemoveAtKeepsOthers` | proj/src/model/game_model.c:124-136 | removing a node loses its address and no other |
| `Nodes.UnlinkKeepsIds` | proj/src/model/game_model.c:124-136 | unlinking keeps the addresses unique and bounded, drops the address unlinked, and keeps every other |
| `Nodes.PrependKeepsIds` | proj/src/model/game_model.c:94-98 | pushing a node at a fresh address keeps the addresses unique |
| `GameModel.WithSprite` | proj/src/model/game_model.c:214-221 | updating a unit's position goes to the sprite itself or to the animated sprite's sprite, and keeps the kind of sprite |
| `GameModel.NewEnemy` | proj/src/model/game_model.c:73-101 | an enemy exists exactly for VIRUS1 and VIRUS2: a static unit with 1 hp or an animated one with 2 hp, of that type and direction, placed at (x, y) truncated to 16 bits |
| `GameModel.MovedEnemy` | proj/src/model/game_model.c:214-221 | an enemy's move towards the tank changes only its sprite's position, as `move_sprite_to` with collision checks on places it |
| `GameModel.RemoveAtAlive` | proj/src/model/game_model.c:224-228 | unlinking a node keeps every remaining enemy at 1 hp or more |
| `GameModel.Step` | proj/src/model/game_model.c:213-237 | one iteration of the update loop keeps the list's enemies alive and its addresses unique, never clears GAME_END, and moves on or lowers the current enemy's hp, so the loop ends |
| `GameModel.Struck` | proj/src/model/game_model.c:222-233 | a collision keeps `current` on the list position and strictly lowers the walk's measure, keeps the enemies alive and the addresses unique, and never clears GAME_END |
| `GameModel.StruckEnemies` | proj/src/model/game_model.c:223-228 | after a hit the enemy at `current` is either unlinked or still there with exactly one hp less, every remaining enemy alive and the addresses unique |
| `GameModel.UpdateFrom` | proj/src/model/game_model.c:208-238 | the update walk reaches the end of the list with every enemy alive and the addresses unique and bounded |
| `GameModel.TotalHpConcat` | proj/src/model/game_model.c:208-238 | the enemies' total hp of two lists put together is the sum of their totals |
| `GameModel.TotalHpReplace` | proj/src/model/game_model.c:223-228 | changing or unlinking one enemy changes the total hp by exactly that enemy's difference |
| `GameModel.ZeroAfterStep` | proj/src/model/game_model.c:229-231 | a `uint16_t` counter reads 0 within d+1 decrements iff the first decrement or one of the d after it reaches 0 |
| `GameModel.StepAccounting` | proj/src/model/game_model.c:213-237 | one iteration costs the enemies together no hp and leaves the tank and GAME_END alone, or costs them one hp and the tank one decrement, setting GAME_END when the tank's counter reads 0 |
| `GameModel.MovedAccounting` | proj/src/model/game_model.c:221-236 | the same accounting holds whatever position the move gives the enemy, with or without a collision |
| `GameModel.StruckAccounting` | proj/src/model/game_model.c:222-233 | a collision costs the enemies together exactly one hp and the tank exactly one decrement, and sets GAME_END iff the tank's counter then reads 0 |
| `GameModel.UpdateAccounting` | proj/src/model/game_model.c:208-238 | over a whole update the tank loses, modulo 2^16, exactly the hp the enemies lose together, and GAME_END gets set iff the tank's counter reads 0 after one of those hits |
| `GameModel.AccountingStep` | proj/src/model/game_model.c:213-237 | the balance of one iteration followed by the balance of the rest of the walk is the balance of the whole walk |
| `GameModel.AccountingChain` | proj/src/model/game_model.c:229-231 | two successive runs of decrements of the tank's 16-bit counter compose, and the counter reads 0 during them iff it does during one of them |
| `GameModel.WaveKinds` | proj/src/model/game_model.c:194-202 | a wave spawns `difficulty` VIRUS1 first and then `difficulty / 2` VIRUS2, and nothing else |
| `GameModel.Repeat` | proj/src/model/game_model.c:196-201 | a loop of one type spawns exactly its count of that type |
| `GameModel.CountConcat` | proj/src/model/game_model.c:194-202 | counting a type over two runs put together adds the two counts |
| `GameModel.CountConstant` | proj/src/model/game_model.c:196-201 | a run of one type counts its length for that type and 0 for any other |
| `GameModel.WaveCounts` | proj/src/model/game_model.c:194-202 | a wave holds exactly `difficulty` VIRUS1 and `difficulty / 2` VIRUS2 |
| `GameModel.SpawnSprite` | proj/src/model/game_model.c:179-186 | a VIRUS1 is given a static sprite and a VIRUS2 an animated one |
| `GameModel.SpawnNode` | proj/src/model/game_model.c:172-188 | the node spawned has the address handed out and the type asked for |
| `GameModel.Spawned` | proj/src/model/game_model.c:194-202 | spawning n enemies puts n nodes in front of the list |
| `GameModel.SpawnedOrder` | proj/src/model/game_model.c:97-98 | because each enemy is prepended, the j-th node of a wave is the enemy spawned j-th from last, with its type, position and address |
| `GameModel.RunNodes` | proj/src/model/game_model.c:196-201 | one loop of the wave puts exactly its count of nodes in front of the list |
| `GameModel.RunNodesStep` | proj/src/model/game_model.c:196-201 | each pass of a wave loop puts the newly spawned enemy in front of the ones that loop spawned before |
| `GameModel.SpawnedRun` | proj/src/model/game_model.c:194-202 | a run of one type within the spawn order puts its nodes in front of everything spawned before it |
| `GameModel.WaveNodes` | proj/src/model/game_model.c:194-202 | a wave's list is the VIRUS2 loop's nodes in front of the VIRUS1 loop's nodes |
| `GameModel.TwoRuns` | proj/src/model/game_model.c:194-202 | any spawn order made of a run of VIRUS1 then a run of VIRUS2 yields the two runs' nodes, the later run in front |
| `GameModel.Model.constructor` | proj/src/model/game_model.c:8-12 | the game starts with an empty enemy list on the tank's sprite |
| `GameModel.Model.CreateGameElements` | proj/src/model/game_model.c:20-24 | the tank is created with 5 hp facing DIRECTION_3, and the enemy list is left alone |
| `GameModel.Model.CreateEnemy` | proj/src/model/game_model.c:73-101 | a known type is prepended at a fresh address with the enemy `NewEnemy` describes; an unknown type changes nothing and yields no enemy |
| `GameModel.Model.DestroyEnemy` | proj/src/model/game_model.c:124-136 | the walk unlinks the node at the address given, which leaves the rest in order, and changes nothing when no node is there |
| `GameModel.Model.FreeEnemies` | proj/src/model/game_model.c:142-155 | the enemy list is empty afterwards |
| `GameModel.Model.SpawnEnemy` | proj/src/model/game_model.c:172-188 | at a position the spawn loop accepts, an enemy of the type asked for is prepended at the next address |
| `GameModel.Model.SpawnRun` | proj/src/model/game_model.c:196-201 | one wave loop prepends exactly the nodes `RunNodes` describes |
| `GameModel.Model.SpawnEnemyWave` | proj/src/model/game_model.c:194-202 | given positions the spawn loop accepts, a wave at the stored difficulty prepends the nodes of `difficulty` VIRUS1 and then `difficulty / 2` VIRUS2, in reverse spawn order |
| `GameModel.Model.VisitEnemy` | proj/src/model/game_model.c:213-237 | one pass of the update loop leaves the list, tank hp and position as `Step` says, and writes GAME_END to the store exactly when the walk ends the game |
| `GameModel.Model.StrikeCurrent` | proj/src/model/game_model.c:222-233 | the collision branch updates the list and the tank's hp as `Struck` says and writes GAME_END when the tank's counter reads 0 |
| `GameModel.Model.HitEnemy` | proj/src/model/game_model.c:223-228 | the current enemy loses one hp and is destroyed at 0, as `StruckEnemies` says; nothing else changes |
| `GameModel.Model.UpdateEnemies` | proj/src/model/game_model.c:208-238 | the enemies and the tank's hp end as the walk `UpdateFrom` from the list's head says, with the tank's position taken at the start, and GAME_END is written iff the walk ends the game |
| `GameView.NewExplosion` | proj/src/view/game_view.c:99-107 | an explosion is a well-formed 20-frame animation at speed 3, starting at its first frame, placed at (x, y) truncated to 16 bits |
| `GameView.Survivor` | proj/src/view/game_view.c:196-202 | an explosion is dropped by a frame exactly when its animation with `destroy` set reports its last frame; otherwise it stays at its address, animated one step |
| `GameView.AfterDraw` | proj/src/view/game_view.c:194-205 | a frame keeps every remaining animation well formed and never lengthens the list |
| `GameView.AfterDrawConcat` | proj/src/view/game_view.c:194-205 | each explosion's fate depends on it alone, so a frame over two lists is the frame over each |
| `GameView.AfterDrawKeepsExactly` | proj/src/view/game_view.c:194-205 | an address is in the list after a frame iff it held an explosion whose animation did not report its last frame |
| `GameView.AfterDrawAnimates` | proj/src/view/game_view.c:196-202 | every node left after a frame is one of the explosions before it, at its address, animated one step |
| `GameView.AfterDrawKeepsIds` | proj/src/view/game_view.c:194-205 | the addresses stay unique and below the same bound through a frame |
| `GameView.AfterDrawSnoc` | proj/src/view/game_view.c:194-205 | the frame over the first k+1 explosions is the frame over the first k followed by the fate of the next one |
| `GameView.RemoveAtValid` | proj/src/view/game_view.c:118-130 | unlinking an explosion keeps every remaining animation well formed |
| `GameView.ExplosionList.constructor` | proj/src/view/game_view.c:10 | the explosion list starts empty |
| `GameView.ExplosionList.CreateExplosion` | proj/src/view/game_view.c:99-111 | the new explosion, placed at (x, y), is prepended at a fresh address, which is returned |
| `GameView.ExplosionList.DestroyExplosion` | proj/src/view/game_view.c:118-130 | the walk unlinks the node at the address given and keeps the others in order; nothing changes when there is none |
| `GameView.ExplosionList.AnimateExplosion` | proj/src/view/game_view.c:199 | only the explosion at the position given changes, by one step of its animation with `destroy` set, and the step's last-frame flag is returned |
| `GameView.ExplosionList.VisitExplosion` | proj/src/view/game_view.c:196-202 | one pass of the loop extends the processed prefix by the fate of the next explosion and moves to the node that was its `next` |
| `GameView.ExplosionList.DrawExplosions` | proj/src/view/game_view.c:194-205 | the list ends as `AfterDraw` of the list before, so exactly the explosions whose animation reported its last frame are gone |
| `GameView.Showing` | proj/src/view/game_view.c:147-149 | showing a tank image replaces the sprite's image and size and keeps its position |
| `GameView.DrawTankAsWritten` | proj/src/view/game_view.c:137-163 | the code as written has no image to restore exactly when a change collides before any direction was committed, where it reads `tank_sprites[-1]` |
| `GameView.FirstRevertReadsBeforeImages` | proj/src/view/game_view.c:138-161 | on the first call, a tank image that collides makes the revert read index -1 of the image arrays |
| `GameView.DrawTankStep` | proj/src/view/game_view.c:137-163 | the position and speeds never change; the direction and position are committed, and the new image shown, exactly when something changed and the new image does not collide; otherwise nothing changes |
| `GameView.DrawTankAgrees` | proj/src/view/game_view.c:145-163 | once a direction is committed and shown, the code as written and the restoring revert give the same result |
| `GameView.DrawTankKeepsCommitted` | proj/src/view/game_view.c:145-163 | the tank keeps showing the image of the committed direction, and a newly committed direction and position do not collide with the arena |
| `GameView.TankView.constructor` | proj/src/view/game_view.c:138-139 | the statics of `draw_tank` start at -1 |
| `GameView.TankView.DrawTank` | proj/src/view/game_view.c:137-167 | the statics and the tank's sprite end as `DrawTankStep` says, and 0 is returned |
| `EventLoop.MouseIrq` | proj/src/proj.c:81-93 | the mouse branch keeps the packet buffer three bytes long and the code buffer two |
| `EventLoop.MouseIrqEffect` | proj/src/proj.c:81-93 | a mouse interrupt leaves the discard flag down and the count in 0..2, dispatches at most one packet, exactly when an accepted byte completes one, and that packet is the one held, with the count back at 0; a discarded byte changes neither count nor packet |
| `EventLoop.KbdIrq` | proj/src/proj.c:103-115 | the keyboard branch keeps the buffers their sizes |
| `EventLoop.KbdScan` | proj/src/proj.c:106-111 | the scan-code step keeps the buffers their sizes |
| `EventLoop.KbdIrqEffect` | proj/src/proj.c:103-115 | a keyboard interrupt always lowers its discard flag and zeroes the timer count, dispatches at most one code, dispatches nothing for a lone 0xE0 but opens a two-byte code, leaves `size` at 1 after a dispatch, and changes nothing of the code when the byte is discarded |
| `EventLoop.Step` | proj/src/proj.c:80-116 | one notification keeps the buffers their sizes |
| `EventLoop.StepOrderAndTick` | proj/src/proj.c:80-116 | the calls of one notification come in the order mouse, timer, keyboard; the game ticks iff the timer interrupt makes the count even; the count ends at 0 after a keyboard interrupt, one higher after a timer interrupt alone, unchanged otherwise |
| `EventLoop.MouseIrqCalls` | proj/src/proj.c:81-93 | the mouse branch calls only the mouse handler and leaves the timer count alone |
| `EventLoop.KbdIrqCalls` | proj/src/proj.c:103-115 | the keyboard branch calls only the keyboard handler and zeroes the timer count |
| `EventLoop.TwoTicksOneFrame` | proj/src/proj.c:94-102 | two timer-only notifications in a row tick the game exactly once and advance the count by two, so the game runs at half the timer rate |
| `EventLoop.ThreeBytesOnePacket` | proj/src/proj.c:81-93 | three accepted mouse bytes from a count of 0, the first synchronised, dispatch exactly one packet made of those bytes with the sign-extended deltas, and leave the count at 0 |
| `EventLoop.PrefixedKeyDispatchedOnce` | proj/src/proj.c:103-115 | 0xE0 followed by another byte, each on its own keyboard interrupt, dispatch exactly one code, the two-byte `[0xE0, b]` with its make flag, and leave `size` at 1 |
| `EventLoop.StepNote` | proj/src/proj.c:78-124 | the body on one notification, with the reads its handlers make, keeps the buffers their sizes |
| `EventLoop.Run` | proj/src/proj.c:72-125 | the body over a sequence of notifications keeps the buffers their sizes |
| `EventLoop.StepKeepsMouseCount` | proj/src/proj.c:80-116 | a notification never takes the mouse count past 2 |
| `EventLoop.RunKeepsMouseCount` | proj/src/proj.c:72-125 | no sequence of notifications takes the mouse count past 2, so the packet is never written past its third byte |
| `EventLoop.HandledFrom` | proj/src/proj.c:72-125 | the loop stops between where it is and the end of the notifications |
| `EventLoop.HandledFromStopsAtKill` | proj/src/proj.c:72-125 | every notification handled before the last one left the game running, and stopping before the end means the last one handled left it in KILL |
| `EventLoop.HandledIsFirstKill` | proj/src/proj.c:72-125 | the loop stops right after the first notification that leaves the game in KILL, and handles all of them when none does |
| `EventLoop.RunSnoc` | proj/src/proj.c:72-125 | running one more notification is one more step after the run so far |
| `EventLoop.MainLoop.constructor` | proj/src/proj.c:60-70 | the loop starts with fresh drivers, `size` 1, and zeroed packet and code buffers |
| `EventLoop.MainLoop.OnMouse` | proj/src/proj.c:81-93 | the mouse branch changes the globals and makes the calls `MouseIrq` describes |
| `EventLoop.MainLoop.OnTimer` | proj/src/proj.c:94-102 | the timer branch changes the globals and makes the calls `TimerIrq` describes |
| `EventLoop.MainLoop.OnKeyboard` | proj/src/proj.c:103-115 | the keyboard branch changes the globals and makes the calls `KbdIrq` describes |
| `EventLoop.MainLoop.TakeScancode` | proj/src/proj.c:105-112 | the scan-code part changes the globals and makes the calls `KbdScan` describes |
| `EventLoop.MainLoop.HandleNotification` | proj/src/proj.c:78-124 | the body changes the globals and makes the calls `StepNote` describes |
| `EventLoop.MainLoop.Next` | proj/src/proj.c:72-125 | one pass of the loop extends the run by one notification |
| `EventLoop.MainLoop.Loop` | proj/src/proj.c:70-125 | the loop handles exactly the notifications up to and including the first that leaves the game in KILL, and the globals and calls are those of the run over them |

## Left out

- Port and IRQ plumbing is not modelled: `sys_inb`/`sys_outb` are sequences of answers and a list of writes. Also left out are `sys_irqsetpolicy`/`sys_irqrmpolicy`, the `*_subscribe_int`/`*_unsubscribe_int` functions and `tickdelay`.
- The message loop's `driver_receive`, IPC decoding, `main` and the LCF start-up are left out. A notification is a value: its interrupt mask, the devices' answers, and the state `get_state` reports afterwards.
- The handlers the loop calls (`mouse_state_handler`, `game_state_handler`, `kbd_state_handler`) are recorded as calls. Their effect on the game state is taken from each notification's `after` field, because the loop only reads it back through `get_state`.
- `mouse_state_machine` is never called by the event loop. It is modelled on its own, with a single state variable, because `state_change` writes the global `currentState` whatever pointer the function was given.
- All rendering is left out: `video_gr.c`, sprite blitting, the menus' `draw_*`, `display_menu` and `load_*`, and `draw_enemies`, `draw_header`, `draw_footer`, `draw_timer`, `draw_cursor`, `draw_arena`. The pixel copy into `arena_buffer` is also left out. Dispatcher effects name these calls without modelling them.
- `draw_crosshair` and `calculate_tank_direction` are left out because the tank's aim uses floating-point `atan2`. `HandleGameKeyboard` therefore leaves the tank's direction alone.
- `xpm_load`, `malloc`, `strdup`, `free` and `va_arg` are left out. An image is an abstract `PixMap`, `create_asprite`'s images are a list of frames, and allocation failures are not modelled. `AnimSprites.CreateAsprite` requires the first image to load, and models the rejection of a later image that fails to load or differs in size. Its cleanup loop frees `map[i]` repeatedly instead of `map[j]`; that memory error is not modelled.
- Freeing memory is left out: `destroy_asprite`, `destroy_game_element`, `cleanup_elements`, `free_game_sprites`, and the memory side of `free_enemies`, `destroy_enemy` and `destroy_explosion`. Only their effect on the lists is modelled.
- `create_static_game_element` and `create_animated_game_element` are part of `NewEnemy`: a `GameUnit` value holding the hp, the sprite and the direction.
- `get_tank_model` and `get_enemy_list` are plain accessors. The `Model` class's fields are read directly.
- `spawn_enemy`'s `rand()` positions are inputs. `SpawnEnemy`, `SpawnRun` and `SpawnEnemyWave` take the positions as parameters and require each to satisfy `GameLogic.SpawnAccepted` (through `GameLogic.SpawnsAccepted`): drawn within the arena and not rejected by `spawn_collision` for the VIRUS1 size against the tank. Which of the drawn positions the loop rejects is not modelled.
- `printf` logging, `timer_print_config`, `kbd_print_scancode` and `mouse_print_packet` are left out. `Timer.DisplayConf` returns the printer's code as a parameter together with the value it would print.
- `Timer.TimerDevice.IntHandler`: the `int` tick counter is unbounded in the model, so its 32-bit overflow after about a year of ticks is not modelled.
- `Dispatcher.IngameTickCounts` and the `IngameTicks*` lemmas assume no 32-bit overflow of the timer and the game time. They do not state what happens at the wrap.
- `Dispatcher.Transition` and `Dispatcher.ScreenDispatcher.GameStateHandler` take the outcome of the enemy update inside `draw_game` as the input `ended`. The dispatcher does not compute it from the enemy list (`GameModel.UpdateFrom` does), because drawing is recorded as the `DrawGame` effect. `Dispatcher.IngameTicks` and the lemmas over it count only ticks on which the game goes on; `Dispatcher.EndedTick` states the tick that ends it.
- `GameModel.Model.SpawnEnemy` accepts only VIRUS1 and VIRUS2 (`VirusType`), the two types `spawn_enemy_wave` passes. An unknown type would make `spawn_enemy` do nothing but draw positions.
- `AnimSprites.AnimateStep` and `GameView.NewExplosion` assume `create_asprite` succeeded. The source does not check its result in `create_explosion` or `create_virus2_asprite`.
- `Arenas.Registry.DestroyArena` changes nothing observable. Freeing the arena is not modelled, so `current_arena` still names it afterwards, where the source leaves a dangling pointer.
- `Keyboard.KeyboardDriver.ReadValue` and the other polled reads require at least ten answers to status polls, one per attempt the loop may make.
- `Menus.Menu.constructor` requires a non-negative option count, because `create_menu` passes it to `malloc` as a size.
- `Gesture.MiddleButtonHolds`: during either stroke, a packet with the middle button down matches neither branch of `mouse_state_machine` (`mouse.c:200-238`), so the state and the sums stay as they were; the lemma states exactly that.
- `Gesture.StateStep`: `x_sum` and `y_sum` are C `int`s; the sums of `Gesture.Gesture` are unbounded, so an overflow after about 2^31 / 255 packets of one stroke is not modelled.
- `Arenas.Arena.constructor` requires `img.height <= arenaHeight` and `img.width <= arenaWidth`. `create_arena` (`arena.c:41-48`) loops over the image's own size and would write `grid[i][j]` past the grid for a larger image; that out-of-bounds write is not modelled.
- `Arenas.ArenaCollision`, `GameLogic.MoveCollision`, `GameLogic.SpawnCollision`, `GameLogic.MoveTo`, `GameLogic.SlideSprite`, `GameActions.GameKeyMove` and `GameModel.Model.UpdateEnemies` use the bounded `Arenas.Walkable`. `arena_collision` (`arena.c:92`) calls `is_walkable` as written, which reads past `ARENA_HEIGHT` for rows in the footer; the model treats those rows as blocked.
- `GameView.TankView.DrawTank` restores the image shown before, not `tank_sprites[last_direction]` (`game_view.c:159`); it is the corrected version of the restore.
- `EventLoop.MainLoop.constructor` sets `bytes` and `is_make` to zero, which `proj.c:61-63` leaves uninitialised; the model does not represent indeterminate values.
- `EventLoop.MainLoop.constructor` starts the drivers cleared. The `kbc_issue_mouse_cmd(ENABLE_DATA_REPORT)` before the loop (`proj.c:65`) and the `DISABLE_DATA_REPORT` after it (`proj.c:131`) are not modelled, nor the status and data bytes the first leaves behind; every byte is overwritten by a successful read before it is used.

## Findings

| source | as written | input that shows it | evidently intended | confidence | as-written member | corrected member |
|---|---|---|---|---|---|---|
| proj/src/device/timer.c:25-30 | the lower bound is `TIMER_FREQ / 65535`, rounded down, and the divisor is stored in a `uint16_t` | `TIMER_FREQ` 1193182 and `freq` 18: the divisor 66287 passes the check and is stored as 751, so the timer runs at about 1589 Hz | reject every frequency whose divisor does not fit 16 bits | not executed | `Timer.CounterWraps` | `Timer.IntendedCounterExact` |
| proj/src/device/timer.c:129-131 | `bool bcd = st` is true for every non-zero status | status 0x34 (binary count, mode 2, LSB then MSB) is reported as BCD | BCD exactly when bit 0 is set | not executed | `Timer.BaseAsWrittenMisreports` | `Timer.BaseOf` |
| proj/src/device/mouse.c:174-182 | the result compares `mouse_data` with ACK after the read, ignoring the read's and the writes' codes | ten quiet polls after an earlier ACK: the read times out, `mouse_data` still holds 0xFA, and 0 is returned | success only when both writes succeed and the read returns ACK | not executed | `Mouse.StaleAckReportsSuccess` | `Mouse.CheckedRejectsTimeout` |
| proj/src/model/arena.c:70-76 | rows up to `ARENA_HEIGHT+FOOTER_HEIGHT-1` pass the bounds test, but `grid` has `ARENA_HEIGHT` rows | `x` 1, `y` `ARENA_HEIGHT` with a footer reads `grid[ARENA_HEIGHT][1]`, past the grid | rows up to `ARENA_HEIGHT-1` only | not executed | `Arenas.WalkableReadsPastGrid` | `Arenas.WalkableAgrees` |
| proj/src/view/game_view.c:137-163 | the revert reads `tank_sprites[last_direction]`, which starts at -1 | a first `draw_tank` whose new image collides with the arena reads `tank_sprites[-1]` and `tank_images[-1]` | restore the image shown before the call | not executed | `GameView.FirstRevertReadsBeforeImages` | `GameView.DrawTankAgrees` |

/**
 * The menus of `menu.c`: a menu is created once with its options, and afterwards only its
 * selected option changes, by the arrow keys and by hovering the cursor; the spacebar and a
 * click move the game to the state an option leads to.
 */
module Menus {
  import opened Common
  import opened Sprites
  import opened StateStore
  import opened I8042
  import opened Keyboard

  /** The per-option arrays the selection logic reads: hitbox corners and sizes, and target states. */
  datatype Layout = Layout(num: int, xHit: seq<int>, yHit: seq<int>, widths: seq<int>, heights: seq<int>, states: seq<State>)
  {
    /** Every array holds one entry per option. */
    predicate Valid()
    {
      0 <= num && |xHit| == num && |yHit| == num && |widths| == num && |heights| == num && |states| == num
    }

    /** The hitbox of option `i`, borders included, contains (px, py). */
    predicate Contains(i: nat, px: int, py: int)
      requires Valid() && i < num
    {
      xHit[i] <= px <= xHit[i] + widths[i] && yHit[i] <= py <= yHit[i] + heights[i]
    }
  }

  /** The largest option below `n` whose hitbox contains (px, py), if any. */
  function LastHit(l: Layout, px: int, py: int, n: nat): (r: Option<nat>)
    requires l.Valid() && n <= l.num
    ensures r.Some? ==> r.value < n && l.Contains(r.value, px, py)
    ensures r.Some? ==> forall j :: r.value < j < n ==> !l.Contains(j, px, py)
    ensures r.None? <==> forall j :: 0 <= j < n ==> !l.Contains(j, px, py)
  {
    if n == 0 then None
    else if l.Contains(n - 1, px, py) then Some(n - 1)
    else LastHit(l, px, py, n - 1)
  }

  // Keyboard navigation

  /** The arrow-up break code: one option up, from the first (or from none) to the last. */
  function SelectUp(sel: int, n: int): (r: int)
    ensures 0 <= sel < n ==> r == (sel - 1 + n) % n
    ensures sel == -1 ==> r == n - 1
  {
    if sel - 1 < 0 then n - 1 else sel - 1
  }

  /** The arrow-down break code: one option down, from the last to the first, and from none to the first. */
  function SelectDown(sel: int, n: int): (r: int)
    ensures 0 <= sel < n ==> r == (sel + 1) % n
    ensures sel == -1 && n > 0 ==> r == 0
  {
    if sel + 1 >= n then 0 else sel + 1
  }

  /** The two arrows undo each other on a menu's options. */
  lemma UpDownInverse(sel: int, n: int)
    requires 0 <= sel < n
    ensures SelectDown(SelectUp(sel, n), n) == sel
    ensures SelectUp(SelectDown(sel, n), n) == sel
  {
  }

  /** The selection after `k` presses of arrow-down. */
  function DownPresses(sel: int, n: int, k: nat): int
  {
    if k == 0 then sel else SelectDown(DownPresses(sel, n, k - 1), n)
  }

  /**
   * Arrow-down cycles through the options: up to `n` presses advance the selection by one
   * each, wrapping past the last option once, so `n` presses come back to where they started.
   */
  lemma {:induction false} DownCycles(sel: int, n: int, k: nat)
    requires 0 <= sel < n && k <= n
    ensures DownPresses(sel, n, k) == (if sel + k < n then sel + k else sel + k - n)
    ensures k == n ==> DownPresses(sel, n, k) == sel
  {
    if k > 0 {
      DownCycles(sel, n, k - 1);
    }
  }

  /** `handle_menu_keyboard` on the selected option and the game record, given the code read. */
  function MenuKey(l: Layout, sel: int, g: GameState, code: byte): (int, GameState)
    requires l.Valid()
  {
    if code == ArrowUpBreak then (SelectUp(sel, l.num), g)
    else if code == ArrowDownBreak then (SelectDown(sel, l.num), g)
    else if code == SpacebarBreak && 0 <= sel < l.num then (sel, g.(state := l.states[sel]))
    else (sel, g)
  }

  /**
   * On a menu with options and a selection in [-1, num): the arrows land on an option and
   * keep the game record; the spacebar keeps the selection and enters the selected option's
   * state, or does nothing when no option is selected; any other code changes nothing.
   */
  lemma MenuKeyEffect(l: Layout, sel: int, g: GameState, code: byte)
    requires l.Valid() && 1 <= l.num && -1 <= sel < l.num
    ensures var (s, g') := MenuKey(l, sel, g, code);
      && (code == ArrowUpBreak || code == ArrowDownBreak ==> 0 <= s < l.num && g' == g)
      && (code == SpacebarBreak ==> s == sel && g' == (if sel == -1 then g else g.(state := l.states[sel])))
      && (code !in {ArrowUpBreak, ArrowDownBreak, SpacebarBreak} ==> s == sel && g' == g)
  {
  }

  // Hovering

  /** `handle_menu_hover`'s loop from option `i` on, with `sel` selected so far. */
  function HoverFrom(l: Layout, px: int, py: int, i: nat, sel: int): int
    requires l.Valid() && i <= l.num
    decreases l.num - i
  {
    if i == l.num then sel
    else HoverFrom(l, px, py, i + 1, if l.Contains(i, px, py) then i else if sel == i then -1 else sel)
  }

  /**
   * The selection once options below `n` have been looked at, starting from `s0`: the last
   * option hovered, else none if `s0` was among them, else `s0`.
   */
  function Hovered(l: Layout, px: int, py: int, n: nat, s0: int): int
    requires l.Valid() && n <= l.num
  {
    match LastHit(l, px, py, n)
    case Some(k) => k
    case None => if 0 <= s0 < n then -1 else s0
  }

  lemma {:induction false} HoverFromAgrees(l: Layout, px: int, py: int, i: nat, s0: int)
    requires l.Valid() && i <= l.num
    decreases l.num - i
    ensures HoverFrom(l, px, py, i, Hovered(l, px, py, i, s0)) == Hovered(l, px, py, l.num, s0)
  {
    if i < l.num {
      var sel := Hovered(l, px, py, i, s0);
      var next := if l.Contains(i, px, py) then i else if sel == i then -1 else sel;
      assert next == Hovered(l, px, py, i + 1, s0);
      HoverFromAgrees(l, px, py, i + 1, s0);
    }
  }

  /**
   * After hovering, the selected option is the last one whose hitbox contains the cursor, and
   * -1 exactly when none does (for a selection in [-1, num) beforehand).
   */
  lemma HoverSelectsLastHit(l: Layout, px: int, py: int, s0: int)
    requires l.Valid() && -1 <= s0 < l.num
    ensures var r := HoverFrom(l, px, py, 0, s0);
      && (r == -1 <==> forall j :: 0 <= j < l.num ==> !l.Contains(j, px, py))
      && (r != -1 ==> 0 <= r < l.num && l.Contains(r, px, py) && forall j :: r < j < l.num ==> !l.Contains(j, px, py))
  {
    HoverFromAgrees(l, px, py, 0, s0);
  }

  // Clicking

  /** `handle_menu_click`'s loop from option `i` on, with the game in state `st` so far. */
  function ClickFrom(l: Layout, px: int, py: int, i: nat, st: State): State
    requires l.Valid() && i <= l.num
    decreases l.num - i
  {
    if i == l.num then st
    else ClickFrom(l, px, py, i + 1, if l.Contains(i, px, py) then l.states[i] else st)
  }

  lemma {:induction false} ClickFromAgrees(l: Layout, px: int, py: int, i: nat, st: State)
    requires l.Valid() && i <= l.num
    decreases l.num - i
    ensures var before := match LastHit(l, px, py, i) case Some(k) => l.states[k] case None => st;
      ClickFrom(l, px, py, i, before) == (match LastHit(l, px, py, l.num) case Some(k) => l.states[k] case None => st)
  {
    if i < l.num {
      ClickFromAgrees(l, px, py, i + 1, st);
    }
  }

  /**
   * A click leaves the game in the state of the last option whose hitbox contains the cursor;
   * with no such option the state is unchanged.
   */
  lemma ClickEntersLastHit(l: Layout, px: int, py: int, st: State)
    requires l.Valid()
    ensures (forall j :: 0 <= j < l.num ==> !l.Contains(j, px, py)) ==> ClickFrom(l, px, py, 0, st) == st
    ensures forall k :: 0 <= k < l.num && l.Contains(k, px, py) && (forall j :: k < j < l.num ==> !l.Contains(j, px, py)) ==>
      ClickFrom(l, px, py, 0, st) == l.states[k]
  {
    ClickFromAgrees(l, px, py, 0, st);
    forall k | 0 <= k < l.num && l.Contains(k, px, py) && (forall j :: k < j < l.num ==> !l.Contains(j, px, py))
      ensures ClickFrom(l, px, py, 0, st) == l.states[k]
    {
      assert LastHit(l, px, py, l.num) == Some(k);
    }
  }

  /** A `Menu`: everything but the selected option is fixed when the menu is created. */
  class Menu {
    const background: Sprite
    const title: string
    const titleX: int
    const titleY: int
    const numOptions: int
    const options: seq<string>
    const optionsX: seq<int>
    const optionsY: seq<int>
    const optionsXHitbox: seq<int>
    const optionsYHitbox: seq<int>
    const optionsHeight: seq<int>
    const optionsWidth: seq<int>
    const optionsState: seq<State>
    var selectedOption: int

    predicate Valid()
    {
      && 0 <= numOptions
      && |options| == |optionsX| == |optionsY| == numOptions
      && Options().Valid()
    }

    function Options(): Layout
    {
      Layout(numOptions, optionsXHitbox, optionsYHitbox, optionsWidth, optionsHeight, optionsState)
    }

    /**
     * `create_menu`: the title and the first `numOptions` entries of every per-option array
     * are copied, and the first option is selected.
     */
    constructor (background: Sprite, title: string, titleX: int, titleY: int, options: seq<string>,
                 optionsX: seq<int>, optionsY: seq<int>, optionsXHitbox: seq<int>, optionsYHitbox: seq<int>,
                 optionsHeight: seq<int>, optionsWidth: seq<int>, optionsState: seq<State>, numOptions: int)
      requires 0 <= numOptions
      requires numOptions <= |options| && numOptions <= |optionsX| && numOptions <= |optionsY|
      requires numOptions <= |optionsXHitbox| && numOptions <= |optionsYHitbox|
      requires numOptions <= |optionsHeight| && numOptions <= |optionsWidth| && numOptions <= |optionsState|
      ensures Valid() && selectedOption == 0
      ensures this.background == background && this.title == title && this.titleX == titleX && this.titleY == titleY
      ensures this.options == options[..numOptions] && this.optionsX == optionsX[..numOptions] && this.optionsY == optionsY[..numOptions]
      ensures Options() == Layout(numOptions, optionsXHitbox[..numOptions], optionsYHitbox[..numOptions],
                                  optionsWidth[..numOptions], optionsHeight[..numOptions], optionsState[..numOptions])
    {
      var os: seq<string>, xs: seq<int>, ys: seq<int>, xh: seq<int>, yh: seq<int> := [], [], [], [], [];
      var hs: seq<int>, ws: seq<int>, ss: seq<State> := [], [], [];
      for i := 0 to numOptions
        invariant os == options[..i] && xs == optionsX[..i] && ys == optionsY[..i]
        invariant xh == optionsXHitbox[..i] && yh == optionsYHitbox[..i]
        invariant hs == optionsHeight[..i] && ws == optionsWidth[..i] && ss == optionsState[..i]
      {
        os, xs, ys := os + [options[i]], xs + [optionsX[i]], ys + [optionsY[i]];
        xh, yh := xh + [optionsXHitbox[i]], yh + [optionsYHitbox[i]];
        hs, ws, ss := hs + [optionsHeight[i]], ws + [optionsWidth[i]], ss + [optionsState[i]];
      }
      this.background := background;
      this.title := title;
      this.titleX := titleX;
      this.titleY := titleY;
      this.numOptions := numOptions;
      this.selectedOption := 0;
      this.options, this.optionsX, this.optionsY := os, xs, ys;
      this.optionsXHitbox, this.optionsYHitbox := xh, yh;
      this.optionsHeight, this.optionsWidth, this.optionsState := hs, ws, ss;
    }

    /** `handle_menu_keyboard`: arrows move the selection, the spacebar enters the selected option's state. */
    method HandleMenuKeyboard(store: GameStateStore, bytes: seq<byte>, size: byte)
      requires Valid() && |bytes| == 2
      modifies this, store
      ensures (selectedOption, store.Model()) == MenuKey(Options(), old(selectedOption), old(store.Model()), KeyCode(size, bytes))
    {
      var breakcode: byte;
      if size == 2 {
        breakcode := bytes[1];
      } else {
        breakcode := bytes[0];
      }
      if breakcode == ArrowUpBreak {
        selectedOption := selectedOption - 1;
        if selectedOption < 0 {
          selectedOption := numOptions - 1;
        }
      } else if breakcode == ArrowDownBreak {
        selectedOption := selectedOption + 1;
        if selectedOption >= numOptions {
          selectedOption := 0;
        }
      } else if breakcode == SpacebarBreak {
        if selectedOption >= 0 && selectedOption < numOptions {
          store.SetState(optionsState[selectedOption]);
        }
      }
    }

    /** `handle_menu_hover`: each option under the cursor is selected in turn; one left by the cursor is deselected. */
    method HandleMenuHover(cursor: Sprite)
      requires Valid()
      modifies this
      ensures selectedOption == HoverFrom(Options(), cursor.x, cursor.y, 0, old(selectedOption))
    {
      var x: int := cursor.x;
      var y: int := cursor.y;
      for i := 0 to numOptions
        invariant HoverFrom(Options(), x, y, 0, old(selectedOption)) == HoverFrom(Options(), x, y, i, selectedOption)
      {
        if x >= optionsXHitbox[i] && x <= optionsXHitbox[i] + optionsWidth[i] &&
           y >= optionsYHitbox[i] && y <= optionsYHitbox[i] + optionsHeight[i] {
          selectedOption := i;
        } else if selectedOption == i {
          selectedOption := -1;
        }
      }
    }

    /** `handle_menu_click`: every option under the cursor sets the game state, in option order. */
    method HandleMenuClick(cursor: Sprite, store: GameStateStore)
      requires Valid()
      modifies store
      ensures store.Model() == old(store.Model()).(state := ClickFrom(Options(), cursor.x, cursor.y, 0, old(store.Model().state)))
    {
      var x: int := cursor.x;
      var y: int := cursor.y;
      for i := 0 to numOptions
        invariant store.Model() == old(store.Model()).(state := store.Model().state)
        invariant ClickFrom(Options(), x, y, 0, old(store.Model().state)) == ClickFrom(Options(), x, y, i, store.Model().state)
      {
        if x >= optionsXHitbox[i] && x <= optionsXHitbox[i] + optionsWidth[i] &&
           y >= optionsYHitbox[i] && y <= optionsYHitbox[i] + optionsHeight[i] {
          store.SetState(optionsState[i]);
        }
      }
    }
  }
}

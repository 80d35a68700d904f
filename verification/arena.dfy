/**
 * The arena: a walkability grid built from the arena image, and the queries that decide
 * whether a point or a rectangle of the screen is free.
 */
module Arenas {
  import opened Common
  import opened Sprites

  /** The screen layout constants the arena code is written against. */
  datatype Dims = Dims(arenaWidth: nat, arenaHeight: nat, headerHeight: nat, footerHeight: nat, spawnOffset: nat)

  /** A decoded arena image: `height` rows of `width` colours each. */
  datatype Image = Image(width: u16, height: u16, pixels: seq<seq<u32>>)

  predicate WellFormed(img: Image)
  {
    |img.pixels| == img.height && forall i :: 0 <= i < |img.pixels| ==> |img.pixels[i]| == img.width
  }

  /** Cell (i, j) is an obstacle: it lies inside the image and its colour is not the ground colour. */
  predicate Obstacle(img: Image, ground: u32, i: int, j: int)
    requires WellFormed(img)
  {
    0 <= i < img.height && 0 <= j < img.width && img.pixels[i][j] != ground
  }

  /** An `Arena`: `grid[i, j]` is true for an obstacle, row `i` counted from the top of the arena. */
  class Arena {
    const dims: Dims
    const grid: array2<bool>
    const groundColor: u32

    /** The grid has one row per arena row and one column per arena column. */
    predicate Valid()
    {
      grid.Length0 == dims.arenaHeight && grid.Length1 == dims.arenaWidth
    }

    /**
     * `create_arena` without the drawing into the arena buffer: every cell is cleared, then
     * the cells under a non-ground pixel of the image are marked.
     */
    constructor (d: Dims, img: Image, ground: u32)
      requires WellFormed(img) && img.height <= d.arenaHeight && img.width <= d.arenaWidth
      ensures Valid() && dims == d && groundColor == ground && fresh(grid)
      ensures forall i, j :: 0 <= i < d.arenaHeight && 0 <= j < d.arenaWidth ==>
        grid[i, j] == Obstacle(img, ground, i, j)
    {
      dims := d;
      groundColor := ground;
      var g := new bool[d.arenaHeight, d.arenaWidth];
      grid := g;
      var i := 0;
      while i < d.arenaHeight
        invariant 0 <= i <= d.arenaHeight
        invariant forall r, c :: 0 <= r < i && 0 <= c < d.arenaWidth ==> !g[r, c]
      {
        var j := 0;
        while j < d.arenaWidth
          invariant 0 <= j <= d.arenaWidth
          invariant forall r, c :: 0 <= r < i && 0 <= c < d.arenaWidth ==> !g[r, c]
          invariant forall c :: 0 <= c < j ==> !g[i, c]
        {
          g[i, j] := false;
          j := j + 1;
        }
        i := i + 1;
      }
      i := 0;
      while i < img.height
        invariant 0 <= i <= img.height
        invariant forall r, c :: 0 <= r < d.arenaHeight && 0 <= c < d.arenaWidth ==>
          g[r, c] == (r < i && Obstacle(img, ground, r, c))
      {
        var j := 0;
        while j < img.width
          invariant 0 <= j <= img.width
          invariant forall r, c :: 0 <= r < d.arenaHeight && 0 <= c < d.arenaWidth ==>
            g[r, c] == ((r < i || (r == i && c < j)) && Obstacle(img, ground, r, c))
        {
          if img.pixels[i][j] != ground {
            g[i, j] := true;
          }
          j := j + 1;
        }
        i := i + 1;
      }
    }
  }

  /**
   * `is_walkable` as written: false outside the columns `1 .. ARENA_WIDTH-1` and the rows
   * `HEADER_HEIGHT+1 .. ARENA_HEIGHT+FOOTER_HEIGHT-1`, otherwise the negated grid cell.
   * `None` stands for a row the bounds test lets through although the grid has no such row.
   */
  function WalkableAsWritten(a: Arena, x: int, y: int): (r: Option<bool>)
    requires a.Valid()
    reads a.grid
    ensures r.None? <==>
      0 < x < a.dims.arenaWidth && a.dims.headerHeight < y < a.dims.arenaHeight + a.dims.footerHeight
      && y >= a.dims.arenaHeight
    ensures r == Some(true) ==> 0 < x < a.dims.arenaWidth && a.dims.headerHeight < y < a.dims.arenaHeight
  {
    var d := a.dims;
    if x <= 0 || x >= d.arenaWidth || y <= d.headerHeight || y >= d.arenaHeight + d.footerHeight then Some(false)
    else if y >= d.arenaHeight then None
    else Some(!a.grid[y, x])
  }

  /**
   * `is_walkable` with its row bound at the last grid row: a point is walkable exactly when it
   * lies strictly inside the arena's columns, below the header rows, on a grid row, and is not
   * an obstacle.
   */
  predicate Walkable(a: Arena, x: int, y: int)
    requires a.Valid()
    reads a.grid
  {
    var d := a.dims;
    0 < x < d.arenaWidth && d.headerHeight < y < d.arenaHeight && !a.grid[y, x]
  }

  /** Wherever the code as written reads inside the grid, it agrees with `Walkable`. */
  lemma WalkableAgrees(a: Arena, x: int, y: int)
    requires a.Valid()
    ensures WalkableAsWritten(a, x, y).Some? ==> WalkableAsWritten(a, x, y).value == Walkable(a, x, y)
    ensures WalkableAsWritten(a, x, y).None? ==> !Walkable(a, x, y)
  {
  }

  /** With a footer, the first row below the arena passes the bounds test and is read past the grid. */
  lemma WalkableReadsPastGrid(a: Arena)
    requires a.Valid() && a.dims.footerHeight > 0 && a.dims.arenaWidth >= 2
    requires a.dims.headerHeight < a.dims.arenaHeight
    ensures WalkableAsWritten(a, 1, a.dims.arenaHeight).None?
  {
  }

  /** Some pixel of the `w` by `h` rectangle at (x0, y0), in arena rows, is not walkable. */
  predicate RegionBlocked(a: Arena, x0: int, y0: int, w: nat, h: nat)
    requires a.Valid()
    reads a.grid
  {
    exists i, j :: 0 <= i < h && 0 <= j < w && !WalkableAt(a, x0, y0, i, j)
  }

  /** Pixel (i, j) of the rectangle whose corner is (x0, y0) is walkable. */
  predicate WalkableAt(a: Arena, x0: int, y0: int, i: int, j: int)
    requires a.Valid()
    reads a.grid
  {
    Walkable(a, x0 + j, y0 + i)
  }

  /**
   * The row-by-row scan the collision queries share: it stops at the first pixel that is not
   * walkable.
   */
  method ScanRegion(a: Arena, x0: int, y0: int, w: nat, h: nat) returns (blocked: bool)
    requires a.Valid()
    ensures blocked == RegionBlocked(a, x0, y0, w, h)
  {
    var i := 0;
    while i < h
      invariant 0 <= i <= h
      invariant forall r, c :: 0 <= r < i && 0 <= c < w ==> WalkableAt(a, x0, y0, r, c)
    {
      var j := 0;
      while j < w
        invariant 0 <= j <= w
        invariant forall r, c :: 0 <= r < i && 0 <= c < w ==> WalkableAt(a, x0, y0, r, c)
        invariant forall c :: 0 <= c < j ==> WalkableAt(a, x0, y0, i, c)
      {
        if !WalkableAt(a, x0, y0, i, j) {
          return true;
        }
        j := j + 1;
      }
      i := i + 1;
    }
    return false;
  }

  /**
   * The rectangle `arena_collision` scans for a sprite: its screen position moved up by the
   * header, with the row offset taken as a `uint16_t`, so a sprite above the header wraps to
   * rows far below the arena.
   */
  predicate Collides(a: Arena, s: SpriteRec)
    requires a.Valid()
    reads a.grid
  {
    RegionBlocked(a, s.x, Low16(s.y - a.dims.headerHeight), s.width, s.height)
  }

  /** `arena_collision`: true iff some pixel covered by the sprite is not walkable. */
  method ArenaCollision(a: Arena, s: Sprite) returns (r: bool)
    requires a.Valid()
    ensures r == Collides(a, s.Rec())
  {
    var y: u16 := Low16(s.y - a.dims.headerHeight);
    r := ScanRegion(a, s.x, y, s.width, s.height);
  }

  /** A non-empty sprite whose top lies inside the header always collides: its rows wrap past the arena. */
  lemma AboveHeaderCollides(a: Arena, s: SpriteRec)
    requires a.Valid() && a.dims.arenaHeight + a.dims.headerHeight <= 0x1_0000
    requires s.y < a.dims.headerHeight && s.width > 0 && s.height > 0
    ensures Collides(a, s)
  {
    assert !WalkableAt(a, s.x, Low16(s.y - a.dims.headerHeight), 0, 0);
  }

  /** The `current_arena` pointer of the arena module. */
  class Registry {
    var current: Arena?

    constructor ()
      ensures current == null
    {
      current := null;
    }

    /** `create_arena`: builds the grid and makes the new arena the current one. */
    method CreateArena(d: Dims, img: Image, ground: u32) returns (a: Arena)
      requires WellFormed(img) && img.height <= d.arenaHeight && img.width <= d.arenaWidth
      modifies this
      ensures fresh(a) && fresh(a.grid) && a.Valid() && a.dims == d && a.groundColor == ground
      ensures forall i, j :: 0 <= i < d.arenaHeight && 0 <= j < d.arenaWidth ==>
        a.grid[i, j] == Obstacle(img, ground, i, j)
      ensures current == a
    {
      a := new Arena(d, img, ground);
      current := a;
    }

    /**
     * `destroy_arena`: releasing the memory is outside the model, so nothing observable
     * changes, whether `a` is null or not; in particular `current` keeps its value.
     */
    method DestroyArena(a: Arena?)
      ensures current == old(current)
    {
    }
  }
}

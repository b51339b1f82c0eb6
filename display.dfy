/**
 * The pixel grid the terminal front end draws into (src/terminal_io/screen.rs):
 * 32 rows of 64 booleans. Sprites are XORed in, most significant bit first,
 * and pixels that fall off the grid are clipped rather than wrapped.
 */
module Display {
  import opened Types
  import opened Geometry

  const WIDTH: nat := 64
  const HEIGHT: nat := 32

  /** A grid value: `g[y][x]` is the pixel in row `y`, column `x`. */
  type Grid = seq<seq<bool>>

  predicate IsGrid(g: Grid)
  {
    |g| == HEIGHT && forall y :: 0 <= y < HEIGHT ==> |g[y]| == WIDTH
  }

  /** The grid of `Screen::new`: every pixel off. */
  function Blank(): (g: Grid)
    ensures IsGrid(g)
    ensures forall y, x :: 0 <= y < HEIGHT && 0 <= x < WIDTH ==> !g[y][x]
  {
    seq(HEIGHT, _ => seq(WIDTH, _ => false))
  }

  /** `draw_sprite` returns whether any pixel it switched off was on. */
  datatype DrawSprite = NoCollision | Collision

  /**
   * Pixel `(x, y)` lies under a set bit of the sprite drawn at `topLeft`:
   * it is `topLeft + (dx, dy)` with `dx < 8`, `dy < |sprite|`, and bit
   * `7 - dx` of `sprite[dy]` is set.
   */
  predicate Covers(topLeft: Point, sprite: seq<u8>, x: int, y: int)
  {
    0 <= x - topLeft.x < 8 && 0 <= y - topLeft.y < |sprite| &&
    BitSet(sprite[y - topLeft.y], 7 - (x - topLeft.x))
  }

  /** The grid after drawing: every covered pixel on the grid toggled, nothing else changed. */
  function Drawn(g: Grid, topLeft: Point, sprite: seq<u8>): (r: Grid)
    requires IsGrid(g)
    ensures IsGrid(r)
    ensures forall y, x :: 0 <= y < HEIGHT && 0 <= x < WIDTH ==>
      (r[y][x] != g[y][x] <==> Covers(topLeft, sprite, x, y))
  {
    seq(HEIGHT, y requires 0 <= y < HEIGHT => seq(WIDTH, x requires 0 <= x < WIDTH => g[y][x] != Covers(topLeft, sprite, x, y)))
  }

  /** Some pixel the sprite toggles was on before. */
  predicate Collides(g: Grid, topLeft: Point, sprite: seq<u8>)
    requires IsGrid(g)
  {
    exists y, x :: 0 <= y < HEIGHT && 0 <= x < WIDTH && Covers(topLeft, sprite, x, y) && g[y][x]
  }

  /** `draw_sprite` adds `(dx, dy as i8)` to the origin, which panics if a sum leaves `i8`. */
  predicate DrawFits(topLeft: Point, sprite: seq<u8>)
  {
    |sprite| <= 0x80 && (sprite == [] || (topLeft.x + 7 < 0x80 && topLeft.y + |sprite| - 1 < 0x80))
  }

  /** Pixel `topLeft + (dx, dy)`, when it is on the grid, toggles exactly when bit `7 - dx` of `sprite[dy]` is set. */
  lemma DrawnAt(g: Grid, topLeft: Point, sprite: seq<u8>, dx: int, dy: int)
    requires IsGrid(g) && 0 <= dx < 8 && 0 <= dy < |sprite| && DrawFits(topLeft, sprite)
    requires InBounds(Add(topLeft, Point(dx, dy)))
    ensures var p := Add(topLeft, Point(dx, dy));
      Drawn(g, topLeft, sprite)[p.y][p.x] == (g[p.y][p.x] != BitSet(sprite[dy], 7 - dx))
  {
  }

  /** Drawing the same sprite at the same place twice gives back the grid. */
  lemma DrawTwice(g: Grid, topLeft: Point, sprite: seq<u8>)
    requires IsGrid(g)
    ensures Drawn(Drawn(g, topLeft, sprite), topLeft, sprite) == g
  {
    var twice := Drawn(Drawn(g, topLeft, sprite), topLeft, sprite);
    forall y | 0 <= y < HEIGHT
      ensures twice[y] == g[y]
    {
    }
  }

  /** Drawing again over a drawn sprite collides exactly when the first drawing lit a pixel that was off. */
  lemma RedrawCollides(g: Grid, topLeft: Point, sprite: seq<u8>)
    requires IsGrid(g)
    ensures Collides(Drawn(g, topLeft, sprite), topLeft, sprite) <==>
      exists y, x :: 0 <= y < HEIGHT && 0 <= x < WIDTH && Covers(topLeft, sprite, x, y) && !g[y][x]
  {
    var d := Drawn(g, topLeft, sprite);
    if Collides(d, topLeft, sprite) {
      var y, x :| 0 <= y < HEIGHT && 0 <= x < WIDTH && Covers(topLeft, sprite, x, y) && d[y][x];
      assert !g[y][x];
    }
    if exists y, x :: 0 <= y < HEIGHT && 0 <= x < WIDTH && Covers(topLeft, sprite, x, y) && !g[y][x] {
      var y, x :| 0 <= y < HEIGHT && 0 <= x < WIDTH && Covers(topLeft, sprite, x, y) && !g[y][x];
      assert d[y][x];
    }
  }

  /** Drawing on a blank grid never collides. */
  lemma BlankNeverCollides(topLeft: Point, sprite: seq<u8>)
    ensures !Collides(Blank(), topLeft, sprite)
  {
  }

  /**
   * Clipping, not wrapping: a full-width row drawn at column 60 lights columns
   * 60 to 63 of its row and leaves columns 0 to 3 dark.
   */
  lemma ClipAtRightEdge()
    ensures var d := Drawn(Blank(), Point(60, 0), [0xFF]);
      (forall x :: 60 <= x < WIDTH ==> d[0][x]) && (forall x :: 0 <= x < 60 ==> !d[0][x])
  {
    var d := Drawn(Blank(), Point(60, 0), [0xFF]);
    forall x | 60 <= x < WIDTH
      ensures d[0][x]
    {
      AllBitsOfFF(7 - (x - 60));
    }
  }

  lemma AllBitsOfFF(k: nat)
    requires k < 8
    ensures BitSet(0xFF, k)
  {
  }

  class Screen {
    var rows: array2<bool>
    /** The pixels as a grid value. */
    ghost var grid: Grid

    ghost predicate Valid()
      reads this, rows
    {
      rows.Length0 == HEIGHT && rows.Length1 == WIDTH && IsGrid(grid) &&
      forall y, x :: 0 <= y < HEIGHT && 0 <= x < WIDTH ==> rows[y, x] == grid[y][x]
    }

    /** `Screen::new`: every pixel off. */
    constructor ()
      ensures Valid() && fresh(rows)
      ensures grid == Blank()
    {
      rows := new bool[HEIGHT, WIDTH]((_, _) => false);
      grid := Blank();
    }

    /** `clear`: the screen is replaced by a new, blank one. */
    method Clear()
      modifies this
      ensures Valid() && fresh(rows)
      ensures grid == Blank()
    {
      rows := new bool[HEIGHT, WIDTH]((_, _) => false);
      grid := Blank();
    }

    /** `flip`: toggles the pixel at `p`, which must be on the grid, and returns its previous value. */
    method Flip(p: Point) returns (wasHigh: bool)
      requires Valid() && InBounds(p)
      modifies this, rows
      ensures Valid() && rows == old(rows)
      ensures wasHigh == old(grid)[p.y][p.x]
      ensures grid == old(grid)[p.y := old(grid)[p.y][p.x := !wasHigh]]
    {
      wasHigh := rows[p.y, p.x];
      rows[p.y, p.x] := !wasHigh;
      grid := grid[p.y := grid[p.y][p.x := !wasHigh]];
    }

    /** Pixel `(x, y)` is covered and comes before `(dx, dy)` in the drawing order. */
    ghost predicate CoveredBefore(topLeft: Point, sprite: seq<u8>, x: int, y: int, dy: int, dx: int)
    {
      Covers(topLeft, sprite, x, y) &&
      (y - topLeft.y < dy || (y - topLeft.y == dy && x - topLeft.x < dx))
    }

    /** A pixel covered before `(dx, dy)` was on before drawing began. */
    ghost predicate CollidedBefore(before: Grid, topLeft: Point, sprite: seq<u8>, dy: int, dx: int)
      requires IsGrid(before)
    {
      exists y, x :: 0 <= y < HEIGHT && 0 <= x < WIDTH && CoveredBefore(topLeft, sprite, x, y, dy, dx) && before[y][x]
    }

    /** `draw_sprite`: XORs the sprite in row by row, clipping at the edges, and reports a collision. */
    method DrawSprite(topLeft: Point, sprite: seq<u8>) returns (r: DrawSprite)
      requires Valid() && DrawFits(topLeft, sprite)
      modifies this, rows
      ensures Valid() && rows == old(rows)
      ensures grid == Drawn(old(grid), topLeft, sprite)
      ensures r == Collision <==> Collides(old(grid), topLeft, sprite)
    {
      ghost var before := grid;
      var collision := false;
      var dy := 0;
      while dy < |sprite|
        invariant 0 <= dy <= |sprite|
        invariant Valid() && rows == old(rows)
        invariant forall y, x :: 0 <= y < HEIGHT && 0 <= x < WIDTH ==>
          grid[y][x] == (before[y][x] != CoveredBefore(topLeft, sprite, x, y, dy, 0))
        invariant collision <==> CollidedBefore(before, topLeft, sprite, dy, 0)
      {
        var dx := 0;
        while dx < 8
          invariant 0 <= dx <= 8
          invariant Valid() && rows == old(rows)
          invariant forall y, x :: 0 <= y < HEIGHT && 0 <= x < WIDTH ==>
            grid[y][x] == (before[y][x] != CoveredBefore(topLeft, sprite, x, y, dy, dx))
          invariant collision <==> CollidedBefore(before, topLeft, sprite, dy, dx)
        {
          collision := DrawPixel(topLeft, sprite, dy, dx, collision, before);
          dx := dx + 1;
        }
        dy := dy + 1;
      }
      forall y | 0 <= y < HEIGHT
        ensures grid[y] == Drawn(before, topLeft, sprite)[y]
      {
      }
      r := if collision then Collision else NoCollision;
    }

    /** One pass of the inner loop of `draw_sprite`: pixel `topLeft + (dx, dy)`. */
    method DrawPixel(topLeft: Point, sprite: seq<u8>, dy: int, dx: int, collision: bool, ghost before: Grid)
      returns (collision': bool)
      requires Valid() && DrawFits(topLeft, sprite) && IsGrid(before)
      requires 0 <= dy < |sprite| && 0 <= dx < 8
      requires forall y, x :: 0 <= y < HEIGHT && 0 <= x < WIDTH ==>
        grid[y][x] == (before[y][x] != CoveredBefore(topLeft, sprite, x, y, dy, dx))
      requires collision <==> CollidedBefore(before, topLeft, sprite, dy, dx)
      modifies this, rows
      ensures Valid() && rows == old(rows)
      ensures forall y, x :: 0 <= y < HEIGHT && 0 <= x < WIDTH ==>
        grid[y][x] == (before[y][x] != CoveredBefore(topLeft, sprite, x, y, dy, dx + 1))
      ensures collision' <==> CollidedBefore(before, topLeft, sprite, dy, dx + 1)
    {
      collision' := collision;
      var pos := Add(topLeft, Point(dx, dy));
      if !InBounds(pos) {
        return;
      }
      var row := sprite[dy];
      if BitSet(row, 7 - dx) {
        assert Covers(topLeft, sprite, pos.x, pos.y);
        var wasHigh := Flip(pos);
        if wasHigh {
          collision' := true;
        }
      }
    }
  }
}

/**
 * The older screen model (src/screen.rs), which no module of the crate
 * declares: a 64 x 32 grid whose `flip` reports a collision, and a point type
 * whose `wrapping_add` wraps every pixel around the edges.
 */
module LegacyScreen {
  import opened Types

  const WIDTH: nat := 64
  const HEIGHT: nat := 32

  datatype Point = Point(x: i8, y: i8)

  /** `Screen::DIMS`. */
  const DIMS: Point := Point(WIDTH, HEIGHT)

  /** `Point::in_bounds`. */
  predicate InBounds(p: Point)
  {
    0 <= p.x < DIMS.x && 0 <= p.y < DIMS.y
  }

  /** The `i8` additions inside `wrapping_add` panic when a sum leaves `i8`. */
  predicate SumFits(p: Point, q: Point)
  {
    -0x80 <= p.x + q.x < 0x80 && -0x80 <= p.y + q.y < 0x80
  }

  /** `Point::wrapping_add`: the componentwise sum, each coordinate reduced with `rem_euclid`. */
  function WrappingAdd(p: Point, q: Point): (r: Point)
    requires SumFits(p, q)
    ensures InBounds(r)
    ensures (r.x - (p.x + q.x)) % DIMS.x == 0 && (r.y - (p.y + q.y)) % DIMS.y == 0
  {
    Point((p.x + q.x) % DIMS.x, (p.y + q.y) % DIMS.y)
  }

  /** Wrapping, not clipping: one step right of the last column is the first column. */
  lemma WrapsAroundRightEdge(y: i8)
    requires 0 <= y < HEIGHT
    ensures WrappingAdd(Point(63, y), Point(1, 0)) == Point(0, y)
  {
  }

  /** `wrapping_add` of an in-bounds offset to an in-bounds point is the plain sum when it stays on the grid. */
  lemma WrappingAddOnGrid(p: Point, q: Point)
    requires SumFits(p, q) && InBounds(Point(p.x + q.x, p.y + q.y))
    ensures WrappingAdd(p, q) == Point(p.x + q.x, p.y + q.y)
  {
  }

  /** Result of `flip`. */
  datatype Flip = NoCollision | Collision

  class Screen {
    var rows: array2<bool>

    ghost predicate Valid()
      reads this
    {
      rows.Length0 == HEIGHT && rows.Length1 == WIDTH
    }

    /** `Screen::new`: every pixel off. */
    constructor ()
      ensures Valid() && fresh(rows)
      ensures forall y, x :: 0 <= y < HEIGHT && 0 <= x < WIDTH ==> !rows[y, x]
    {
      rows := new bool[HEIGHT, WIDTH]((_, _) => false);
    }

    /** `Default for Screen`: the same as `new`. */
    static method Default() returns (s: Screen)
      ensures fresh(s) && s.Valid() && fresh(s.rows)
      ensures forall y, x :: 0 <= y < HEIGHT && 0 <= x < WIDTH ==> !s.rows[y, x]
    {
      s := new Screen();
    }

    /** `flip`: toggles the pixel at `p`, which must be on the grid; a collision if it was on. */
    method Flip(p: Point) returns (r: Flip)
      requires Valid() && InBounds(p)
      modifies rows
      ensures rows[p.y, p.x] == !old(rows[p.y, p.x])
      ensures r == Collision <==> old(rows[p.y, p.x])
      ensures forall y, x :: 0 <= y < HEIGHT && 0 <= x < WIDTH && (y, x) != (p.y, p.x) ==> rows[y, x] == old(rows[y, x])
    {
      var wasHigh := rows[p.y, p.x];
      rows[p.y, p.x] := !wasHigh;
      r := if wasHigh then Collision else NoCollision;
    }
  }
}

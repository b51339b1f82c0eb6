/**
 * Screen coordinates used by the interpreter (src/cpu/screen.rs): a point of
 * two `i8` coordinates on a 64 x 32 grid, wrapped with `rem_euclid`.
 */
module Geometry {
  import opened Types

  datatype Point = Point(x: i8, y: i8)

  /** The grid is `DIMS.x` columns wide and `DIMS.y` rows high. */
  const DIMS: Point := Point(64, 32)

  /** `Point::in_bounds`. */
  predicate InBounds(p: Point)
  {
    0 <= p.x < DIMS.x && 0 <= p.y < DIMS.y
  }

  /** `Point::wrap`: each coordinate reduced with `rem_euclid` by the grid size. */
  function Wrap(p: Point): (r: Point)
    ensures InBounds(r)
    ensures (r.x - p.x) % DIMS.x == 0 && (r.y - p.y) % DIMS.y == 0
  {
    Point(p.x % DIMS.x, p.y % DIMS.y)
  }

  /** An in-bounds point congruent to `p` is `Wrap(p)`: the two clauses above pin it down. */
  lemma WrapUnique(p: Point, q: Point)
    requires InBounds(q)
    requires (q.x - p.x) % DIMS.x == 0 && (q.y - p.y) % DIMS.y == 0
    ensures q == Wrap(p)
  {
  }

  /** `wrap` leaves an in-bounds point alone. */
  lemma WrapInBounds(p: Point)
    requires InBounds(p)
    ensures Wrap(p) == p
  {
  }

  /** `wrap` is idempotent. */
  lemma WrapIdempotent(p: Point)
    ensures Wrap(Wrap(p)) == Wrap(p)
  {
    WrapInBounds(Wrap(p));
  }

  /** Example from the grid's left edge: x = -1 wraps to the last column. */
  lemma WrapMinusOne()
    ensures Wrap(Point(-1, -1)) == Point(63, 31)
  {
  }

  /** `Add for Point` panics when a coordinate sum leaves the `i8` range. */
  predicate AddFits(p: Point, q: Point)
  {
    -0x80 <= p.x + q.x < 0x80 && -0x80 <= p.y + q.y < 0x80
  }

  /** `Add for Point`: componentwise `i8` addition. */
  function Add(p: Point, q: Point): (r: Point)
    requires AddFits(p, q)
    ensures r.x - q.x == p.x && r.y - q.y == p.y
  {
    Point(p.x + q.x, p.y + q.y)
  }

  /** A wrapped origin plus a sprite offset (`dx < 8`, `dy < 16`) never overflows `i8`. */
  lemma WrappedOriginAddFits(origin: Point, dx: int, dy: int)
    requires 0 <= dx < 8 && 0 <= dy < 16
    ensures AddFits(Wrap(origin), Point(dx, dy))
    ensures 0 <= Add(Wrap(origin), Point(dx, dy)).x < DIMS.x + 8
    ensures 0 <= Add(Wrap(origin), Point(dx, dy)).y < DIMS.y + 16
  {
  }

  /**
   * The origin of a `Dxyn` sprite, `Point::from((vx as i8, vy as i8)).wrap()`,
   * is the pair of register values reduced modulo the grid size: reading the
   * byte as signed does not change its residue, as 256 is a multiple of 64 and 32.
   */
  lemma WrapSignedBytes(a: u8, b: u8)
    ensures Wrap(Point(AsI8(a), AsI8(b))) == Point(a % DIMS.x, b % DIMS.y)
  {
  }
}

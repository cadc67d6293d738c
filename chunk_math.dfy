/**
 * Chunk coordinate arithmetic shared by both revisions of the chunk cache:
 * floor division of a position by a chunk size, the cells of a chunk, and
 * the inclusive square of chunk coordinates around the camera's chunk.
 */
module ChunkMath {

  /** A pair of signed integers: a chunk coordinate, a world cell or a pixel position. */
  type Coord = (int, int)

  /**
   * Floor division by a positive divisor. Dafny's `/` is Euclidean, which
   * rounds toward negative infinity when the divisor is positive, so
   * negative positions land in the chunk below them, as `.floor()` does.
   */
  function FloorDiv(p: int, d: int): (q: int)
    requires d > 0
    ensures d * q <= p < d * q + d
  {
    p / d
  }

  /** The only integer `q` with `d * q <= p < d * q + d` is `FloorDiv(p, d)`. */
  lemma FloorDivUnique(p: int, d: int, q: int)
    requires d > 0
    requires d * q <= p < d * q + d
    ensures FloorDiv(p, d) == q
  {
    var r := FloorDiv(p, d);
    if r < q {
      MulStep(d, r, q);
    } else if r > q {
      MulStep(d, q, r);
    }
  }

  /** Multiplication by a positive number is strictly monotone, in steps of at least `d`. */
  lemma MulStep(d: int, a: int, b: int)
    requires d > 0 && a < b
    ensures d * a + d <= d * b
  {
    assert d * b - d * a == d * (b - a);
    MulAtLeast(d, b - a);
  }

  lemma {:induction false} MulAtLeast(d: int, k: int)
    requires d > 0 && k >= 1
    ensures d * k >= d
  {
    if k > 1 {
      MulAtLeast(d, k - 1);
      assert d * k == d * (k - 1) + d;
    }
  }

  /** The chunk that holds position `p` when chunks are `size` units wide. */
  function ChunkOf(p: Coord, size: int): (c: Coord)
    requires size > 0
    ensures size * c.0 <= p.0 < size * c.0 + size
    ensures size * c.1 <= p.1 < size * c.1 + size
  {
    (FloorDiv(p.0, size), FloorDiv(p.1, size))
  }

  /** The half-open rectangle `[x0, x1) x [y0, y1)` of integer pairs. */
  function Rect(x0: int, x1: int, y0: int, y1: int): (r: set<Coord>)
    ensures forall p :: p in r <==> x0 <= p.0 < x1 && y0 <= p.1 < y1
  {
    set x, y | x0 <= x < x1 && y0 <= y < y1 :: (x, y)
  }

  /** A rectangle of integer pairs has exactly width times height elements. */
  lemma {:induction false} RectCard(x0: int, x1: int, y0: int, y1: int)
    requires x0 <= x1 && y0 <= y1
    ensures |Rect(x0, x1, y0, y1)| == (x1 - x0) * (y1 - y0)
    decreases x1 - x0
  {
    if x0 == x1 {
      assert Rect(x0, x1, y0, y1) == {};
    } else {
      RectCard(x0, x1 - 1, y0, y1);
      ColumnCard(x1 - 1, y0, y1);
      assert Rect(x0, x1, y0, y1) == Rect(x0, x1 - 1, y0, y1) + Rect(x1 - 1, x1, y0, y1);
      assert Rect(x0, x1 - 1, y0, y1) !! Rect(x1 - 1, x1, y0, y1);
      assert (x1 - x0) * (y1 - y0) == (x1 - 1 - x0) * (y1 - y0) + (y1 - y0);
    }
  }

  /** Extending a rectangle by one column. */
  lemma RectAddColumn(x0: int, x: int, y0: int, y1: int)
    requires x0 <= x
    ensures Rect(x0, x + 1, y0, y1) == Rect(x0, x, y0, y1) + Rect(x, x + 1, y0, y1)
  {
  }

  /** Extending a column by one cell. */
  lemma RectAddCell(x: int, y0: int, y: int)
    requires y0 <= y
    ensures Rect(x, x + 1, y0, y + 1) == Rect(x, x + 1, y0, y) + {(x, y)}
  {
  }

  /** A single column `{x} x [y0, y1)` has `y1 - y0` elements. */
  lemma {:induction false} ColumnCard(x: int, y0: int, y1: int)
    requires y0 <= y1
    ensures |Rect(x, x + 1, y0, y1)| == y1 - y0
    decreases y1 - y0
  {
    if y0 == y1 {
      assert Rect(x, x + 1, y0, y1) == {};
    } else {
      ColumnCard(x, y0, y1 - 1);
      assert Rect(x, x + 1, y0, y1) == Rect(x, x + 1, y0, y1 - 1) + {(x, y1 - 1)};
    }
  }

  /**
   * The chunk coordinates within Chebyshev distance `r` of `center`: the
   * inclusive square `(cx + i, cy + j)` for `i, j` in `[-r, r]`.
   */
  function Square(center: Coord, r: nat): (s: set<Coord>)
    ensures forall p :: p in s <==> center.0 - r <= p.0 <= center.0 + r && center.1 - r <= p.1 <= center.1 + r
  {
    Rect(center.0 - r, center.0 + r + 1, center.1 - r, center.1 + r + 1)
  }

  /** The square of radius `r` holds `(2r + 1)^2` chunk coordinates. */
  lemma SquareCard(center: Coord, r: nat)
    ensures |Square(center, r)| == (2 * r + 1) * (2 * r + 1)
  {
    RectCard(center.0 - r, center.0 + r + 1, center.1 - r, center.1 + r + 1);
  }

  /**
   * Builds the square of radius `r` around `center` with two nested loops,
   * inserting one coordinate at a time (the loop shared by both revisions'
   * `generate_new_chunk_data`).
   */
  method BuildSquare(center: Coord, r: nat) returns (s: set<Coord>)
    ensures s == Square(center, r)
  {
    s := {};
    var x := center.0 - r;
    while x <= center.0 + r
      invariant center.0 - r <= x <= center.0 + r + 1
      invariant s == Rect(center.0 - r, x, center.1 - r, center.1 + r + 1)
    {
      var y := center.1 - r;
      while y <= center.1 + r
        invariant center.1 - r <= y <= center.1 + r + 1
        invariant s == Rect(center.0 - r, x, center.1 - r, center.1 + r + 1) + Rect(x, x + 1, center.1 - r, y)
      {
        s := s + {(x, y)};
        y := y + 1;
      }
      x := x + 1;
    }
  }

  /** The world cells of chunk `c`: `(c.0 * size + lx, c.1 * size + ly)` for `lx, ly` in `[0, size)`. */
  function ChunkCells(c: Coord, size: nat): (cells: set<Coord>)
    ensures forall p :: p in cells <==> c.0 * size <= p.0 < c.0 * size + size && c.1 * size <= p.1 < c.1 * size + size
  {
    Rect(c.0 * size, c.0 * size + size, c.1 * size, c.1 * size + size)
  }

  /** A chunk of side `size` has `size * size` distinct cells. */
  lemma ChunkCellsCard(c: Coord, size: nat)
    ensures |ChunkCells(c, size)| == size * size
  {
    RectCard(c.0 * size, c.0 * size + size, c.1 * size, c.1 * size + size);
  }

  /** Every cell of chunk `c` lies in chunk `c`: cell enumeration and `ChunkOf` round-trip. */
  lemma ChunkCellsRoundTrip(c: Coord, size: nat, cell: Coord)
    requires size > 0 && cell in ChunkCells(c, size)
    ensures ChunkOf(cell, size) == c
  {
    FloorDivUnique(cell.0, size, c.0);
    FloorDivUnique(cell.1, size, c.1);
  }

  /** The image of a set under a function. */
  ghost function Image<A, B>(s: set<A>, f: A -> B): set<B>
  {
    set a | a in s :: f(a)
  }

  /** An injective function maps a finite set onto a set of the same size. */
  lemma {:induction false} InjectiveImageCard<A, B>(s: set<A>, f: A -> B)
    requires forall a, b :: a in s && b in s && f(a) == f(b) ==> a == b
    ensures |Image(s, f)| == |s|
  {
    if s != {} {
      var a :| a in s;
      var rest := s - {a};
      InjectiveImageCard(rest, f);
      assert Image(s, f) == Image(rest, f) + {f(a)};
      assert f(a) !in Image(rest, f);
    }
  }
}

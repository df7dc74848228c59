/**
 * Triangle addressing of the tessellation (src/logic/autotrixel/geometry.js).
 *
 * A cell is addressed by (row, column). Its orientation is never stored: it is derived from
 * the parities of the row and of the column's absolute value, using JavaScript's `%`, whose
 * remainder takes the sign of the dividend. Pixel coordinates are measured in units of
 * (W_half, triHeight), the half edge length and the triangle height, so that every vertex has
 * integer coordinates.
 */
module Geometry {

  datatype Cell = Cell(r: int, c: int)

  /** The grid bounds: `config.widthTriangles` columns and `config.heightTriangles` rows. */
  datatype Config = Config(widthTriangles: int, heightTriangles: int)

  predicate InBounds(cfg: Config, r: int, c: int)
  {
    0 <= r < cfg.heightTriangles && 0 <= c < cfg.widthTriangles
  }

  function Abs(x: int): (a: nat)
    ensures a == x || a == -x
  {
    if x < 0 then -x else x
  }

  /** JavaScript's `a % 2`: the remainder of the division truncated toward zero, so it
      carries the sign of `a` (the only divisor the source uses). */
  function JsRem2(a: int): (m: int)
    ensures (a - m) % 2 == 0
    ensures -2 < m < 2
    ensures a >= 0 ==> m >= 0
    ensures a < 0 ==> m <= 0
  {
    if a >= 0 then a % 2 else -((-a) % 2)
  }

  /** `r % 2 === Math.abs(c) % 2`: the cell points up (its apex is on top). */
  predicate IsUp(r: int, c: int)
  {
    JsRem2(r) == Abs(c) % 2
  }

  /** The orientation rule in closed form. On rows r >= 0 a cell is up exactly when r + c is
      even. On negative rows the truncating remainder is -1 for odd rows, which never equals a
      column parity, so every negative ODD row is down; a negative EVEN row has remainder -0,
      which JavaScript compares equal to 0, so it follows the column parity like row 0. */
  lemma OrientationRule(r: int, c: int)
    ensures IsUp(r, c) <==> (r >= 0 || r % 2 == 0) && (r + c) % 2 == 0
  {
    var m := JsRem2(r);
    if r >= 0 {
      assert m == r % 2;
    } else if r % 2 == 0 {
      assert m == 0;
    } else {
      assert m == -1;
    }
    if c < 0 {
      assert Abs(c) % 2 == (-c) % 2;
    }
  }

  /** Where the grid lives (rows >= 0), orientation alternates along a row and between
      vertically adjacent rows: this is what makes the tessellation seamless. */
  lemma OrientationAlternates(r: int, c: int)
    requires r >= 0
    ensures IsUp(r, c) != IsUp(r, c + 1)
    ensures IsUp(r, c) != IsUp(r + 1, c)
  {
    OrientationRule(r, c);
    OrientationRule(r, c + 1);
    OrientationRule(r + 1, c);
  }

  /** A vertex in units of (W_half, triHeight). */
  datatype Point = Point(x: int, y: int)

  /** The three vertices in the source's order: bottom-left, bottom-right, top-centre for an
      up cell; top-left, top-right, bottom-centre for a down cell. */
  datatype Triangle = Triangle(v0: Point, v1: Point, v2: Point)

  /** The vertices of a cell with a given orientation, from its base point (c, r). */
  function Corners(r: int, c: int, up: bool): (t: Triangle)
    ensures t.v0.x == c && t.v1.x == c + 2 && t.v2.x == c + 1
    ensures t.v0.y == t.v1.y
    ensures up ==> t.v0.y == r + 1 && t.v2.y == r
    ensures !up ==> t.v0.y == r && t.v2.y == r + 1
  {
    if up then
      Triangle(Point(c, r + 1), Point(c + 2, r + 1), Point(c + 1, r))
    else
      Triangle(Point(c, r), Point(c + 2, r), Point(c + 1, r + 1))
  }

  /** `getTriangleVertices(r, c, triHeight, W_half)` in (W_half, triHeight) units. */
  function Vertices(r: int, c: int): Triangle
  {
    Corners(r, c, IsUp(r, c))
  }

  /** Reflection in the horizontal line through the middle of row r (y = r + 1/2). */
  function MirrorRow(p: Point, r: int): Point
  {
    Point(p.x, 2 * r + 1 - p.y)
  }

  /** A down cell is the mirror image of the up cell at the same address: same base x-span,
      with the base and apex swapped between the top and the bottom of the row. */
  lemma DownIsMirrorOfUp(r: int, c: int)
    ensures var up := Corners(r, c, true);
            Corners(r, c, false) == Triangle(MirrorRow(up.v0, r), MirrorRow(up.v1, r), MirrorRow(up.v2, r))
  {
  }

  function VertexSet(r: int, c: int): set<Point>
  {
    var t := Vertices(r, c);
    {t.v0, t.v1, t.v2}
  }

  /** A set with two distinct members has two members. */
  lemma PairSize(p: Point, q: Point)
    requires p != q
    ensures |{p, q}| == 2
  {
  }

  /** Two horizontally adjacent cells of a row >= 0 have opposite orientation and share
      exactly two vertices: their common slanted edge. */
  lemma RowNeighboursShareEdge(r: int, c: int)
    requires r >= 0
    ensures IsUp(r, c) != IsUp(r, c + 1)
    ensures |VertexSet(r, c) * VertexSet(r, c + 1)| == 2
  {
    OrientationAlternates(r, c);
    if IsUp(r, c) {
      assert VertexSet(r, c) * VertexSet(r, c + 1) == {Point(c + 2, r + 1), Point(c + 1, r)};
      PairSize(Point(c + 2, r + 1), Point(c + 1, r));
    } else {
      assert VertexSet(r, c) * VertexSet(r, c + 1) == {Point(c + 2, r), Point(c + 1, r + 1)};
      PairSize(Point(c + 2, r), Point(c + 1, r + 1));
    }
  }

  /** An up cell of a row >= 0 and the cell below it share exactly two vertices: the up
      cell's base, which is the top edge of the (down) cell below. */
  lemma ColumnNeighboursShareEdge(r: int, c: int)
    requires r >= 0 && IsUp(r, c)
    ensures !IsUp(r + 1, c)
    ensures |VertexSet(r, c) * VertexSet(r + 1, c)| == 2
  {
    OrientationAlternates(r, c);
    assert VertexSet(r, c) * VertexSet(r + 1, c) == {Point(c, r + 1), Point(c + 2, r + 1)};
    PairSize(Point(c, r + 1), Point(c + 2, r + 1));
  }

  /** The three cells the bucket fill steps to from (r, c), in the order it enqueues them:
      left, right, then the cell across the horizontal edge (below an up cell, above a down
      one). */
  function NeighbourCandidates(x: Cell): (ns: seq<Cell>)
    ensures |ns| == 3
  {
    [Cell(x.r, x.c - 1), Cell(x.r, x.c + 1),
     if IsUp(x.r, x.c) then Cell(x.r + 1, x.c) else Cell(x.r - 1, x.c)]
  }

  /** Seamless tessellation: on rows >= 0, every cell shares exactly two vertices (one whole
      edge) with each of its three fill neighbours. */
  lemma NeighboursShareEdge(x: Cell, n: Cell)
    requires x.r >= 0 && n.r >= 0
    requires n in NeighbourCandidates(x)
    ensures |VertexSet(x.r, x.c) * VertexSet(n.r, n.c)| == 2
  {
    if n == Cell(x.r, x.c - 1) {
      RowNeighboursShareEdge(x.r, x.c - 1);
      assert VertexSet(x.r, x.c) * VertexSet(n.r, n.c) == VertexSet(x.r, x.c - 1) * VertexSet(x.r, x.c);
    } else if n == Cell(x.r, x.c + 1) {
      RowNeighboursShareEdge(x.r, x.c);
    } else if IsUp(x.r, x.c) {
      ColumnNeighboursShareEdge(x.r, x.c);
    } else {
      assert n == Cell(x.r - 1, x.c);
      OrientationAlternates(x.r - 1, x.c);
      ColumnNeighboursShareEdge(x.r - 1, x.c);
      assert VertexSet(x.r, x.c) * VertexSet(n.r, n.c) == VertexSet(x.r - 1, x.c) * VertexSet(x.r, x.c);
    }
  }
}

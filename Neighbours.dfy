/**
 * The two static coordinate generators of a player's grid: the orthogonal
 * neighbours of a cell, and every domino position touching a cell.
 */
module Neighbours {
  import opened Domain

  /**
   * The orthogonal neighbours of c, lower, left, right, upper, dropping a
   * step that would move below -4 or above 4 on its axis.
   */
  function Adj(c: Coord): (ns: seq<Coord>)
    ensures |ns| <= 4
    ensures InBounds(c) ==> forall n :: n in ns <==> InBounds(n) && Adjacent(c, n)
  {
    var (x, y) := c;
    (if y > -4 then [(x, y - 1)] else []) +
    (if x > -4 then [(x - 1, y)] else []) +
    (if x < 4 then [(x + 1, y)] else []) +
    (if y < 4 then [(x, y + 1)] else [])
  }

  /** Away from the edge all four neighbours are there, in the order lower, left, right, upper. */
  lemma AdjInterior(c: Coord)
    requires -4 < c.0 < 4 && -4 < c.1 < 4
    ensures Adj(c) == [(c.0, c.1 - 1), (c.0 - 1, c.1), (c.0 + 1, c.1), (c.0, c.1 + 1)]
  {
  }

  /** A cell of the grid has all four neighbours exactly when it is off the edge. */
  lemma AdjHasFour(c: Coord)
    requires InBounds(c)
    ensures |Adj(c)| == 4 <==> -4 < c.0 < 4 && -4 < c.1 < 4
  {
  }

  /** A domino position: two adjacent cells, one of them next to loc, neither on loc. */
  predicate TouchingPlacing(loc: Coord, p: Placing)
  {
    Adjacent(p.0, p.1) && (Adjacent(loc, p.0) || Adjacent(loc, p.1)) && p.0 != loc && p.1 != loc
  }

  /**
   * Every placing of a tile next to loc, on an unbounded empty grid: for the
   * row below and then the row above, for the column left and then the
   * column right, three domino positions each in both orientations.
   */
  function TileAdj(loc: Coord): (r: seq<Placing>)
    ensures |r| == 24
  {
    RowPlacings(loc, -1) + RowPlacings(loc, 1) + ColumnPlacings(loc, -1) + ColumnPlacings(loc, 1)
  }

  /**
   * The placings through the cell dy rows from loc: vertical, left and right,
   * each followed by its flip.
   */
  function RowPlacings(loc: Coord, dy: int): (r: seq<Placing>)
    ensures |r| == 6
  {
    var (x, y) := loc;
    [ ((x, y + dy), (x, y + 2 * dy)), ((x, y + 2 * dy), (x, y + dy)),
      ((x - 1, y + dy), (x, y + dy)), ((x, y + dy), (x - 1, y + dy)),
      ((x, y + dy), (x + 1, y + dy)), ((x + 1, y + dy), (x, y + dy)) ]
  }

  /**
   * The placings through the cell dx columns from loc: horizontal, up and
   * down, each followed by its flip.
   */
  function ColumnPlacings(loc: Coord, dx: int): (r: seq<Placing>)
    ensures |r| == 6
  {
    var (x, y) := loc;
    [ ((x + dx, y), (x + 2 * dx, y)), ((x + 2 * dx, y), (x + dx, y)),
      ((x + dx, y), (x + dx, y + 1)), ((x + dx, y + 1), (x + dx, y)),
      ((x + dx, y), (x + dx, y - 1)), ((x + dx, y - 1), (x + dx, y)) ]
  }

  /** Every placing through a row next to loc touches loc and comes with its flip; none is there twice. */
  lemma RowPlacingsTouch(loc: Coord, dy: int)
    requires dy == -1 || dy == 1
    ensures forall p <- RowPlacings(loc, dy) :: TouchingPlacing(loc, p) && (p.1, p.0) in RowPlacings(loc, dy)
    ensures NoDuplicates(RowPlacings(loc, dy))
  {
  }

  /** Every placing through a column next to loc touches loc and comes with its flip; none is there twice. */
  lemma ColumnPlacingsTouch(loc: Coord, dx: int)
    requires dx == -1 || dx == 1
    ensures forall p <- ColumnPlacings(loc, dx) :: TouchingPlacing(loc, p) && (p.1, p.0) in ColumnPlacings(loc, dx)
    ensures NoDuplicates(ColumnPlacings(loc, dx))
  {
  }

  /** The placings through a row leave loc's row, on the side of dy. */
  lemma RowPlacingsSide(loc: Coord, dy: int)
    requires dy == -1 || dy == 1
    ensures forall p <- RowPlacings(loc, dy) :: dy < 0 ==> p.0.1 < loc.1 && p.1.1 < loc.1
    ensures forall p <- RowPlacings(loc, dy) :: dy > 0 ==> p.0.1 > loc.1 && p.1.1 > loc.1
  {
  }

  /** The placings through a column keep a cell in loc's row, and lie on the side of dx. */
  lemma ColumnPlacingsSide(loc: Coord, dx: int)
    requires dx == -1 || dx == 1
    ensures forall p <- ColumnPlacings(loc, dx) :: p.0.1 == loc.1 || p.1.1 == loc.1
    ensures forall p <- ColumnPlacings(loc, dx) :: dx < 0 ==> p.0.0 < loc.0
    ensures forall p <- ColumnPlacings(loc, dx) :: dx > 0 ==> p.0.0 > loc.0
  {
  }

  /** The 24 placings around loc all touch it and come with their flips. */
  lemma TileAdjTouches(loc: Coord)
    ensures forall p <- TileAdj(loc) :: TouchingPlacing(loc, p) && (p.1, p.0) in TileAdj(loc)
  {
    RowPlacingsTouch(loc, -1);
    RowPlacingsTouch(loc, 1);
    ColumnPlacingsTouch(loc, -1);
    ColumnPlacingsTouch(loc, 1);
  }

  /** The 24 placings around loc are distinct: the four groups are, and lie apart. */
  lemma TileAdjDistinct(loc: Coord)
    ensures NoDuplicates(TileAdj(loc))
  {
    var below, above := RowPlacings(loc, -1), RowPlacings(loc, 1);
    var left, right := ColumnPlacings(loc, -1), ColumnPlacings(loc, 1);
    RowPlacingsTouch(loc, -1);
    RowPlacingsTouch(loc, 1);
    ColumnPlacingsTouch(loc, -1);
    ColumnPlacingsTouch(loc, 1);
    RowPlacingsSide(loc, -1);
    RowPlacingsSide(loc, 1);
    ColumnPlacingsSide(loc, -1);
    ColumnPlacingsSide(loc, 1);
    DistinctJoin(below, above);
    assert forall p: Placing <- below + above :: p.0.1 != loc.1 && p.1.1 != loc.1;
    DistinctJoin(below + above, left);
    assert forall p: Placing <- below + above + left :: p !in right;
    DistinctJoin(below + above + left, right);
  }

  /** A placing among the 24 around loc touches it. */
  lemma InTileAdjTouches(loc: Coord, p: Placing)
    requires p in TileAdj(loc)
    ensures TouchingPlacing(loc, p)
  {
    TileAdjTouches(loc);
  }

  /** Every placing touching loc is among the 24. */
  lemma TouchingIsInTileAdj(loc: Coord, p: Placing)
    requires TouchingPlacing(loc, p)
    ensures p in TileAdj(loc)
  {
  }

  /** The placings around loc are exactly those touching it, each with its flip, none twice. */
  lemma TileAdjIsTouching(loc: Coord)
    ensures NoDuplicates(TileAdj(loc))
    ensures forall p :: p in TileAdj(loc) <==> TouchingPlacing(loc, p)
    ensures forall p <- TileAdj(loc) :: (p.1, p.0) in TileAdj(loc)
  {
    TileAdjTouches(loc);
    TileAdjDistinct(loc);
    forall p | TouchingPlacing(loc, p)
      ensures p in TileAdj(loc)
    {
      TouchingIsInTileAdj(loc, p);
    }
  }

  /** Among the placings around the base: the domino right of it, in both orientations. */
  lemma PlacingsRightOfOrigin()
    ensures ((1, 0), (2, 0)) in TileAdj(Origin) && ((2, 0), (1, 0)) in TileAdj(Origin)
  {
    var right := ColumnPlacings(Origin, 1);
    assert right[0] == ((1, 0), (2, 0)) && right[1] == ((2, 0), (1, 0));
  }
}

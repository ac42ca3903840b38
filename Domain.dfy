/**
 * Values of the Kingdomino rules engine: environments, cells, tiles,
 * grid coordinates, and a value view of one player's 10x10 grid.
 */
module Domain {

  /** The closed set of environments a grid cell can hold. */
  datatype Environment = Empty | Ocean | Forest | Pasture | Swamp | Oil | Base

  /** One cell of a tile or of a player's grid; a default cell is Empty with no crowns. */
  datatype Cell = Cell(environment: Environment, crowns: nat)

  const EmptyCell: Cell := Cell(Empty, 0)

  /** A domino: its number and its two cells, in placing order. */
  datatype Tile = Tile(number: int, first: Cell, second: Cell)

  /** The i-th cell of a tile (0 or 1). */
  function TileCell(t: Tile, i: nat): Cell
    requires i < 2
  {
    if i == 0 then t.first else t.second
  }

  /** A grid coordinate (x, y); the base sits at the origin. */
  type Coord = (int, int)

  /** Where the two cells of a tile would land: tile cell 0 on .0, tile cell 1 on .1. */
  type Placing = (Coord, Coord)

  const Origin: Coord := (0, 0)

  /** The playable square of the grid: both coordinates in [-4, 4]. */
  predicate InBounds(c: Coord)
  {
    -4 <= c.0 <= 4 && -4 <= c.1 <= 4
  }

  /** Every playable coordinate. */
  function AllCoords(): (s: set<Coord>)
    ensures forall c :: c in s <==> InBounds(c)
  {
    set x: int, y: int | -4 <= x <= 4 && -4 <= y <= 4 :: (x, y)
  }

  /** Orthogonal neighbours: Manhattan distance exactly 1. */
  predicate Adjacent(a: Coord, c: Coord)
  {
    (a.0 == c.0 && (a.1 == c.1 + 1 || a.1 + 1 == c.1)) ||
    (a.1 == c.1 && (a.0 == c.0 + 1 || a.0 + 1 == c.0))
  }

  /**
   * A value view of a player's grid: 10 columns of 10 cells, where the cell
   * at (x, y) is stored at [x + 5][y + 5]; index 0 of either axis is never used.
   */
  type Board = seq<seq<Cell>>

  predicate IsBoard(b: Board)
  {
    |b| == 10 && forall i | 0 <= i < 10 :: |b[i]| == 10
  }

  function CellAt(b: Board, c: Coord): Cell
    requires IsBoard(b) && InBounds(c)
  {
    b[c.0 + 5][c.1 + 5]
  }

  function Env(b: Board, c: Coord): Environment
    requires IsBoard(b) && InBounds(c)
  {
    CellAt(b, c).environment
  }

  /** The occupied cells of a board. */
  function NonEmptyCells(b: Board): (s: set<Coord>)
    requires IsBoard(b)
    ensures forall c :: c in s <==> InBounds(c) && Env(b, c) != Empty
  {
    set c | c in AllCoords() && Env(b, c) != Empty
  }

  /** The cells of a board holding environment e. */
  function EnvCells(b: Board, e: Environment): (s: set<Coord>)
    requires IsBoard(b)
    ensures forall c :: c in s <==> InBounds(c) && Env(b, c) == e
  {
    set c | c in AllCoords() && Env(b, c) == e
  }

  /** A board holding the cells of m and Empty everywhere else. */
  function BoardOf(m: map<Coord, Cell>): (b: Board)
    ensures IsBoard(b)
    ensures forall c | InBounds(c) :: CellAt(b, c) == if c in m then m[c] else EmptyCell
  {
    seq(10, i => seq(10, j => if (i - 5, j - 5) in m then m[(i - 5, j - 5)] else EmptyCell))
  }

  /** The grid of a newly created player: the base at the origin, every other cell Empty. */
  function FreshBoard(): Board
  {
    BoardOf(map[Origin := Cell(Base, 0)])
  }

  /** A fresh grid holds a crownless base at the origin and nothing else. */
  lemma FreshBoardHoldsBaseAlone()
    ensures IsBoard(FreshBoard()) && CellAt(FreshBoard(), Origin) == Cell(Base, 0)
    ensures NonEmptyCells(FreshBoard()) == {Origin}
  {
    var b := FreshBoard();
    forall c
      ensures c in NonEmptyCells(b) <==> c == Origin
    {
      if InBounds(c) {
        assert CellAt(b, c) == if c == Origin then Cell(Base, 0) else EmptyCell;
      }
    }
  }

  /** Elements of a sequence are pairwise distinct. */
  predicate NoDuplicates<T(==)>(s: seq<T>)
  {
    forall i, j | 0 <= i < j < |s| :: s[i] != s[j]
  }

  /** Dropping the last element of a sequence without duplicates leaves one without it. */
  lemma DropLastDistinct<T>(s: seq<T>)
    requires s != [] && NoDuplicates(s)
    ensures NoDuplicates(s[..|s| - 1]) && s[|s| - 1] !in s[..|s| - 1]
  {
    var prev := s[..|s| - 1];
    forall i | 0 <= i < |prev|
      ensures prev[i] != s[|s| - 1]
    {
      assert prev[i] == s[i];
    }
  }

  /** Two sequences without duplicates and with no element in common join without duplicates. */
  lemma DistinctJoin<T>(s: seq<T>, t: seq<T>)
    requires NoDuplicates(s) && NoDuplicates(t)
    requires forall x <- s :: x !in t
    ensures NoDuplicates(s + t)
  {
    forall i, j | 0 <= i < j < |s + t|
      ensures (s + t)[i] != (s + t)[j]
    {
      if j < |s| {
        assert (s + t)[i] == s[i] && (s + t)[j] == s[j];
      } else if i < |s| {
        assert (s + t)[i] in s && (s + t)[j] == t[j - |s|];
      } else {
        assert (s + t)[i] == t[i - |s|] && (s + t)[j] == t[j - |s|];
      }
    }
  }

  function Elems<T(!new)>(s: seq<T>): (r: set<T>)
    ensures forall x :: x in r <==> x in s
  {
    set x | x in s
  }

  /** The elements of a sequence grown by one element. */
  lemma ElemsSnoc<T(!new)>(s: seq<T>, x: T)
    ensures Elems(s + [x]) == Elems(s) + {x}
  {
  }

  /** Concatenation is associative. */
  lemma AppendAssoc<T>(a: seq<T>, s: seq<T>, t: seq<T>)
    ensures a + (s + t) == (a + s) + t
  {
  }

  /** A non-empty sequence is its prefix followed by its last element. */
  lemma SplitLast<T>(s: seq<T>)
    requires s != []
    ensures s == s[..|s| - 1] + [s[|s| - 1]]
  {
  }

  /** A slice grown by the element that follows it. */
  lemma SliceSnoc<T>(s: seq<T>, i: nat, j: nat)
    requires i <= j < |s|
    ensures s[i..j] + [s[j]] == s[i..j + 1]
  {
  }

  /** Two adjacent slices joined. */
  lemma SliceJoin<T>(s: seq<T>, i: nat, j: nat)
    requires i <= j <= |s|
    ensures s[..i] + s[i..j] == s[..j]
  {
  }

  /** A prefix of s after a, grown by the next element of s. */
  lemma PrefixSnoc<T>(a: seq<T>, s: seq<T>, j: nat)
    requires j < |s|
    ensures a + s[..j + 1] == (a + s[..j]) + [s[j]]
  {
    assert s[..j + 1] == s[..j] + [s[j]];
  }

  /** A sequence without duplicates has as many distinct elements as positions. */
  lemma {:induction false} DistinctCardinality(s: seq<Coord>)
    requires NoDuplicates(s)
    ensures |Elems(s)| == |s|
  {
    if s != [] {
      var t := s[1..];
      assert forall k | 0 <= k < |t| :: t[k] == s[k + 1];
      DistinctCardinality(t);
      assert Elems(s) == {s[0]} + Elems(t);
      assert s[0] !in Elems(t);
    }
  }
}

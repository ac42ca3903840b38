/**
 * A player of Kingdomino: a 10x10 grid of cells updated in place, with the
 * base at the origin. Each query walks the grid as the game does and is
 * proved to compute the value-level definition over a snapshot of the grid.
 */
module Kingdomino {
  import opened Domain
  import opened Neighbours
  import opened Traversal
  import opened Scoring
  import opened Placement

  class Player {
    /** The cell at (x, y) is stored at grid[x + 5, y + 5]. */
    const grid: array2<Cell>

    ghost predicate Valid()
    {
      grid.Length0 == 10 && grid.Length1 == 10
    }

    /** The grid as a value. */
    ghost function Snapshot(): (b: Board)
      reads grid
      requires Valid()
      ensures IsBoard(b)
    {
      var g := grid;
      seq(10, i requires 0 <= i < 10 reads g =>
        seq(10, j requires 0 <= j < 10 reads g => g[i, j]))
    }

    /** A new player: every cell Empty and crownless except the base at the origin. */
    constructor()
      ensures Valid() && fresh(grid)
      ensures Snapshot() == FreshBoard()
    {
      grid := new Cell[10, 10]((i, j) => EmptyCell);
      new;
      grid[5, 5] := grid[5, 5].(environment := Base);
      ghost var b, start := Snapshot(), FreshBoard();
      forall i | 0 <= i < 10
        ensures b[i] == start[i]
      {
        assert forall j | 0 <= j < 10 :: b[i][j] == start[i][j];
      }
    }

    /** The cell at (x, y); the coordinates must lie in [-4, 4]. */
    function At(x: int, y: int): (cell: Cell)
      reads grid
      requires Valid() && InBounds((x, y))
      ensures cell == CellAt(Snapshot(), (x, y))
    {
      grid[x + 5, y + 5]
    }

    /**
     * The inner loop of the search for the cell loc: each neighbour not yet
     * seen and not Empty is marked seen and queued, at the front when it
     * shares loc's environment, at the back otherwise.
     */
    method QueueNeighbours(ghost b: Board, loc: Coord, q: seq<Coord>, hist: set<Coord>)
      returns (q': seq<Coord>, hist': set<Coord>)
      requires Valid() && b == Snapshot() && InBounds(loc) && forall c <- q :: InBounds(c)
      ensures (q', hist') == Expand(b, NonEmptyCells(b), loc, Adj(loc), q, hist)
    {
      ghost var S := NonEmptyCells(b);
      var ns := Adj(loc);
      q', hist' := q, hist;
      for i := 0 to |ns|
        invariant forall c <- q' :: InBounds(c)
        invariant Expand(b, S, loc, ns[i..], q', hist') == Expand(b, S, loc, ns, q, hist)
      {
        var c := ns[i];
        assert ns[i..][0] == c && ns[i..][1..] == ns[i + 1..];
        if c !in hist' && At(c.0, c.1).environment != Empty {
          hist' := hist' + {c};
          if At(c.0, c.1).environment == At(loc.0, loc.1).environment {
            q' := [c] + q';
          } else {
            q' := q' + [c];
          }
        }
      }
      assert ns[|ns|..] == [];
    }

    /**
     * The occupied cells connected to the base, base first, each cell's
     * same-environment neighbours queued at the front and the others at the back.
     */
    method Search() returns (order: seq<Coord>)
      requires Valid()
      ensures order == SearchOrder(Snapshot())
    {
      ghost var b := Snapshot();
      var q := [Origin];
      var hist := {Origin};
      order := [];
      ghost var goal := SearchOrder(b);
      PendingStart(b);
      while q != []
        invariant Pending(b, order, q, hist, goal)
        decreases Unseen(hist), |q|
      {
        PendingStep(b, order, q, hist, goal);
        ExpandCounts(b, NonEmptyCells(b), q, hist);
        var loc := q[0];
        order := order + [loc];
        q, hist := QueueNeighbours(b, loc, q[1..], hist);
      }
      PendingDone(b, order, hist, goal);
    }

    /**
     * The score of the cells at order: each maximal run of one environment
     * worth its crowns times its length.
     */
    method ScoreAlong(order: seq<Coord>) returns (score: nat)
      requires Valid() && forall c <- order :: InBounds(c)
      ensures score == RunValue(CellsAlong(Snapshot(), order))
    {
      ghost var cells := CellsAlong(Snapshot(), order);
      var env := Empty;
      var crowns: nat := 0;
      var contiguous: nat := 0;
      score := 0;
      ghost var start := 0;
      TallyStart(cells);
      for k := 0 to |order|
        invariant Tally(cells, k, start, env, crowns, contiguous, score)
      {
        var c := At(order[k].0, order[k].1);
        if c.environment != env {
          TallyOpen(cells, k, start, env, crowns, contiguous, score);
          score := score + Weighted(crowns, contiguous);
          crowns := 0;
          contiguous := 0;
          env := c.environment;
          start := k;
        } else {
          TallyExtend(cells, k, start, env, crowns, contiguous, score);
        }
        crowns := crowns + c.crowns;
        contiguous := contiguous + 1;
      }
      TallyDone(cells, start, env, crowns, contiguous, score);
      score := score + Weighted(crowns, contiguous);
    }

    /** The score of the grid, over the cells in search order. */
    method Score() returns (score: nat)
      requires Valid()
      ensures score == RunScore(Snapshot())
    {
      var order := Search();
      score := ScoreAlong(order);
    }

    /**
     * The box of the occupied cells, seeded with 0, found by scanning the grid
     * row by row from (-4, -4).
     */
    method BoundingBox() returns (box: Box)
      requires Valid()
      ensures IsBox(Snapshot(), box)
    {
      ghost var b := Snapshot();
      box := Box(0, 0, 0, 0);
      for y := -4 to 5
        invariant Bounds(box, Scanned(b, y, -4))
      {
        box := ScanRow(b, y, box);
        ScannedNextRow(b, y);
      }
      ScannedAll(b);
    }

    /** One row of the scan: box grown by every occupied cell of row y. */
    method ScanRow(ghost b: Board, y: int, box: Box) returns (box': Box)
      requires Valid() && b == Snapshot() && -4 <= y <= 4
      requires Bounds(box, Scanned(b, y, -4))
      ensures Bounds(box', Scanned(b, y, 5))
    {
      box' := box;
      for x := -4 to 5
        invariant Bounds(box', Scanned(b, y, x))
      {
        ScannedStep(b, y, x);
        if At(x, y).environment != Empty {
          GrowBounds(box', Scanned(b, y, x), (x, y));
          box' := Grow(box', (x, y));
        }
      }
    }

    /**
     * Whether some neighbour of a cell of p is the base or holds the
     * environment of the tile cell that lands there.
     */
    method HasMatchAt(ghost b: Board, tile: Tile, p: Placing) returns (found: bool)
      requires Valid() && b == Snapshot() && InBounds(p.0) && InBounds(p.1)
      ensures found == HasMatch(b, tile, p)
    {
      found := false;
      for i := 0 to 2
        invariant found == ((i > 0 && Matches(b, p.0, tile.first.environment)) ||
                            (i > 1 && Matches(b, p.1, tile.second.environment)))
      {
        var c := if i == 0 then p.0 else p.1;
        var m := AnyAccepts(b, Adj(c), TileCell(tile, i).environment);
        found := found || m;
      }
    }

    /** Whether some cell of ns is the base or holds e; the scan stops at the first. */
    method AnyAccepts(ghost b: Board, ns: seq<Coord>, e: Environment) returns (found: bool)
      requires Valid() && b == Snapshot() && forall n <- ns :: InBounds(n)
      ensures found == exists n <- ns :: Accepts(b, n, e)
    {
      found := false;
      var j := 0;
      while j < |ns|
        invariant 0 <= j <= |ns| && !found
        invariant forall k | 0 <= k < j :: !Accepts(b, ns[k], e)
      {
        var env := At(ns[j].0, ns[j].1).environment;
        if env == Base || env == e {
          found := true;
          break;
        }
        j := j + 1;
      }
    }

    /**
     * The filters valid_placings applies to a new placing, in its order: the
     * source's `> 5` box test on the box grown by p, both cells on the grid, both cells
     * Empty, and a match.
     */
    method PassesFilters(ghost b: Board, box: Box, tile: Tile, p: Placing) returns (ok: bool)
      requires Valid() && b == Snapshot() && IsBox(b, box)
      ensures ok == Admissible(b, tile, p)
    {
      BoxTestIsSpan(b, box, p);
      if !BoxTestPasses(box, p) {
        return false;
      }
      if !(InBounds(p.0) && InBounds(p.1)) {
        return false;
      }
      if At(p.0.0, p.0.1).environment != Empty || At(p.1.0, p.1.1).environment != Empty {
        return false;
      }
      ok := HasMatchAt(b, tile, p);
    }

    /**
     * One placing in the inner loop of valid_placings: a placing not
     * considered before is recorded, and kept when it passes the filters.
     */
    method ConsiderPlacing(ghost b: Board, box: Box, tile: Tile, ghost seen: seq<Placing>, p: Placing,
                           hist: set<Placing>, placings: seq<Placing>)
      returns (hist': set<Placing>, placings': seq<Placing>)
      requires Valid() && b == Snapshot() && IsBox(b, box)
      requires hist == Elems(seen) && placings == Sieve(b, tile, seen)
      ensures hist' == Elems(seen + [p]) && placings' == Sieve(b, tile, seen + [p])
    {
      SieveSnoc(b, tile, seen, p);
      ElemsSnoc(seen, p);
      hist', placings' := hist, placings;
      if p !in hist {
        hist' := hist + {p};
        var ok := PassesFilters(b, box, tile, p);
        if ok {
          placings' := placings + [p];
        }
      } else {
        assert placings + [] == placings;
      }
    }

    /** The inner loop of valid_placings over the placings around one searched cell. */
    method ConsiderAll(ghost b: Board, box: Box, tile: Tile, ghost done: seq<Placing>, around: seq<Placing>,
                       hist: set<Placing>, placings: seq<Placing>)
      returns (hist': set<Placing>, placings': seq<Placing>)
      requires Valid() && b == Snapshot() && IsBox(b, box)
      requires hist == Elems(done) && placings == Sieve(b, tile, done)
      ensures hist' == Elems(done + around) && placings' == Sieve(b, tile, done + around)
    {
      hist', placings' := hist, placings;
      assert done + around[..0] == done;
      for j := 0 to |around|
        invariant hist' == Elems(done + around[..j])
        invariant placings' == Sieve(b, tile, done + around[..j])
      {
        PrefixSnoc(done, around, j);
        hist', placings' := ConsiderPlacing(b, box, tile, done + around[..j], around[j], hist', placings');
      }
      assert around[..|around|] == around;
    }

    /**
     * Every placing of tile next to a searched cell, each the first time it
     * is generated, when it passes the source's `> 5` box test, lies on the grid, covers
     * two empty cells and has a match.
     */
    method ValidPlacings(tile: Tile) returns (placings: seq<Placing>)
      requires Valid()
      ensures placings == ValidPlacingsOf(Snapshot(), tile)
    {
      var box := BoundingBox();
      var order := Search();
      placings := PlacingsAlong(Snapshot(), box, tile, order);
    }

    /** The outer loop of valid_placings: the placings around each cell of order in turn. */
    method PlacingsAlong(ghost b: Board, box: Box, tile: Tile, order: seq<Coord>) returns (placings: seq<Placing>)
      requires Valid() && b == Snapshot() && IsBox(b, box)
      ensures placings == Sieve(b, tile, Candidates(order))
    {
      var hist: set<Placing> := {};
      placings := [];
      for k := 0 to |order|
        invariant hist == Elems(Candidates(order[..k]))
        invariant placings == Sieve(b, tile, Candidates(order[..k]))
      {
        hist, placings := ConsiderAll(b, box, tile, Candidates(order[..k]), TileAdj(order[k]), hist, placings);
        CandidatesStep(order, k);
      }
      assert order[..|order|] == order;
    }
  }
}

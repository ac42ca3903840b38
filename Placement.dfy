/**
 * What `Player.valid_placings` accepts: the candidates it generates from the
 * searched cells and the four filters it applies to each, as predicates on a
 * board, with the bounding-box filter also stated without min and max.
 */
module Placement {
  import opened Domain
  import opened Neighbours
  import opened Paths
  import opened Traversal

  /** An axis-aligned box: the least and greatest x and y. */
  datatype Box = Box(minX: int, maxX: int, minY: int, maxY: int)

  function Min3(a: int, b: int, c: int): (m: int)
    ensures m <= a && m <= b && m <= c && (m == a || m == b || m == c)
  {
    if a <= b && a <= c then a else if b <= c then b else c
  }

  function Max3(a: int, b: int, c: int): (m: int)
    ensures m >= a && m >= b && m >= c && (m == a || m == b || m == c)
  {
    if a >= b && a >= c then a else if b >= c then b else c
  }

  /**
   * A box for the cells D, seeded with 0 on both axes: it holds the origin
   * and every cell of D, and each side is 0 or touches a cell of D.
   */
  ghost predicate Bounds(box: Box, D: set<Coord>)
  {
    && box.minX <= 0 <= box.maxX && box.minY <= 0 <= box.maxY
    && (forall c | c in D :: box.minX <= c.0 <= box.maxX && box.minY <= c.1 <= box.maxY)
    && (box.minX == 0 || exists c | c in D :: c.0 == box.minX)
    && (box.maxX == 0 || exists c | c in D :: c.0 == box.maxX)
    && (box.minY == 0 || exists c | c in D :: c.1 == box.minY)
    && (box.maxY == 0 || exists c | c in D :: c.1 == box.maxY)
  }

  /** The box of the occupied cells of b, as valid_placings first computes it. */
  ghost predicate IsBox(b: Board, box: Box)
    requires IsBoard(b)
  {
    Bounds(box, NonEmptyCells(b))
  }

  /** The occupied cells a row-by-row scan from (-4, -4) has passed before reaching (x, y). */
  ghost function Scanned(b: Board, y: int, x: int): (D: set<Coord>)
    requires IsBoard(b)
    ensures forall c :: c in D <==> c in NonEmptyCells(b) && (c.1 < y || (c.1 == y && c.0 < x))
  {
    set c | c in NonEmptyCells(b) && (c.1 < y || (c.1 == y && c.0 < x))
  }

  /** Scanning one more cell of row y adds it when it is occupied. */
  lemma ScannedStep(b: Board, y: int, x: int)
    requires IsBoard(b) && InBounds((x, y))
    ensures Scanned(b, y, x + 1) == Scanned(b, y, x) + (if Env(b, (x, y)) != Empty then {(x, y)} else {})
  {
  }

  /** Scanning past the end of row y is scanning from the start of row y + 1. */
  lemma ScannedNextRow(b: Board, y: int)
    requires IsBoard(b)
    ensures Scanned(b, y, 5) == Scanned(b, y + 1, -4)
  {
  }

  /** The whole scan passes every occupied cell. */
  lemma ScannedAll(b: Board)
    requires IsBoard(b)
    ensures Scanned(b, 5, -4) == NonEmptyCells(b)
  {
  }

  function Min(a: int, b: int): int { if a <= b then a else b }

  function Max(a: int, b: int): int { if a >= b then a else b }

  /** One step of the bounding-box scan: the box widened to hold c. */
  function Grow(box: Box, c: Coord): Box
  {
    Box(Min(c.0, box.minX), Max(c.0, box.maxX), Min(c.1, box.minY), Max(c.1, box.maxY))
  }

  /** Widening a box for D by a cell c gives a box for D with c added. */
  lemma GrowBounds(box: Box, D: set<Coord>, c: Coord)
    requires Bounds(box, D)
    ensures Bounds(Grow(box, c), D + {c})
  {
    var g := Grow(box, c);
    if g.minX != 0 && g.minX != c.0 {
      var w :| w in D && w.0 == box.minX;
      assert w in D + {c};
    }
    if g.maxX != 0 && g.maxX != c.0 {
      var w :| w in D && w.0 == box.maxX;
      assert w in D + {c};
    }
    if g.minY != 0 && g.minY != c.1 {
      var w :| w in D && w.1 == box.minY;
      assert w in D + {c};
    }
    if g.maxY != 0 && g.maxY != c.1 {
      var w :| w in D && w.1 == box.maxY;
      assert w in D + {c};
    }
  }

  /** The box grown to hold both cells of a placing. */
  function Extend(box: Box, p: Placing): (e: Box)
    ensures e.minX <= box.minX && e.minX <= p.0.0 && e.minX <= p.1.0
    ensures e.maxX >= box.maxX && e.maxX >= p.0.0 && e.maxX >= p.1.0
    ensures e.minY <= box.minY && e.minY <= p.0.1 && e.minY <= p.1.1
    ensures e.maxY >= box.maxY && e.maxY >= p.0.1 && e.maxY >= p.1.1
  {
    Box(Min3(box.minX, p.0.0, p.1.0), Max3(box.maxX, p.0.0, p.1.0),
        Min3(box.minY, p.0.1, p.1.1), Max3(box.maxY, p.0.1, p.1.1))
  }

  /** The source's `> 5` box test: on each axis the grown box's max minus min is at most 5, so it spans up to six cells. */
  predicate BoxTestPasses(box: Box, p: Placing)
  {
    var e := Extend(box, p);
    !(e.maxX - e.minX > 5 || e.maxY - e.minY > 5)
  }

  /** The occupied cells, the origin, and the two cells of p. */
  function Footprint(b: Board, p: Placing): (f: set<Coord>)
    requires IsBoard(b)
    ensures forall c :: c in f <==> c in NonEmptyCells(b) || c == Origin || c == p.0 || c == p.1
  {
    NonEmptyCells(b) + {Origin, p.0, p.1}
  }

  /** The source's `> 5` box test stated without a box: no two footprint cells lie more than 5 apart on either axis. */
  predicate SpanFits(b: Board, p: Placing)
    requires IsBoard(b)
  {
    forall a, c | a in Footprint(b, p) && c in Footprint(b, p) :: a.0 - c.0 <= 5 && a.1 - c.1 <= 5
  }

  /** A neighbour n accepts a tile cell of environment e: it is the base, or it holds e. */
  predicate Accepts(b: Board, n: Coord, e: Environment)
    requires IsBoard(b) && InBounds(n)
  {
    Env(b, n) == Base || Env(b, n) == e
  }

  /** Some neighbour of c accepts a tile cell of environment e. */
  predicate Matches(b: Board, c: Coord, e: Environment)
    requires IsBoard(b) && InBounds(c)
  {
    exists n <- Adj(c) :: Accepts(b, n, e)
  }

  /** Some cell of the placing has a neighbour accepting the tile cell that lands on it. */
  predicate HasMatch(b: Board, tile: Tile, p: Placing)
    requires IsBoard(b) && InBounds(p.0) && InBounds(p.1)
  {
    Matches(b, p.0, tile.first.environment) || Matches(b, p.1, tile.second.environment)
  }

  /** The placing is generated next to some cell the search visits. */
  predicate Considered(b: Board, p: Placing)
    requires IsBoard(b)
  {
    exists loc <- SearchOrder(b) :: p in TileAdj(loc)
  }

  /**
   * The filters of valid_placings: the source's `> 5` box test, both cells on the grid (a
   * filter this model adds, see README), both cells empty, and a match.
   */
  predicate Admissible(b: Board, tile: Tile, p: Placing)
    requires IsBoard(b)
  {
    && SpanFits(b, p)
    && InBounds(p.0) && InBounds(p.1)
    && Env(b, p.0) == Empty && Env(b, p.1) == Empty
    && HasMatch(b, tile, p)
  }

  predicate IsValidPlacing(b: Board, tile: Tile, p: Placing)
    requires IsBoard(b)
  {
    Considered(b, p) && Admissible(b, tile, p)
  }

  /** Every cell of the footprint lies in the grown box. */
  lemma GrownBoxHoldsFootprint(b: Board, box: Box, p: Placing)
    requires IsBoard(b) && IsBox(b, box)
    ensures var e := Extend(box, p);
      forall c | c in Footprint(b, p) :: e.minX <= c.0 <= e.maxX && e.minY <= c.1 <= e.maxY
  {
  }

  /** A footprint cell on the left side of the grown box. */
  lemma LeftWitness(b: Board, box: Box, p: Placing) returns (w: Coord)
    requires IsBoard(b) && IsBox(b, box)
    ensures w in Footprint(b, p) && w.0 == Extend(box, p).minX
  {
    var e := Extend(box, p);
    if e.minX == p.0.0 { w := p.0; }
    else if e.minX == p.1.0 { w := p.1; }
    else if box.minX == 0 { w := Origin; }
    else { w :| w in NonEmptyCells(b) && w.0 == box.minX; }
  }

  /** A footprint cell on the right side of the grown box. */
  lemma RightWitness(b: Board, box: Box, p: Placing) returns (w: Coord)
    requires IsBoard(b) && IsBox(b, box)
    ensures w in Footprint(b, p) && w.0 == Extend(box, p).maxX
  {
    var e := Extend(box, p);
    if e.maxX == p.0.0 { w := p.0; }
    else if e.maxX == p.1.0 { w := p.1; }
    else if box.maxX == 0 { w := Origin; }
    else { w :| w in NonEmptyCells(b) && w.0 == box.maxX; }
  }

  /** A footprint cell on the bottom side of the grown box. */
  lemma BottomWitness(b: Board, box: Box, p: Placing) returns (w: Coord)
    requires IsBoard(b) && IsBox(b, box)
    ensures w in Footprint(b, p) && w.1 == Extend(box, p).minY
  {
    var e := Extend(box, p);
    if e.minY == p.0.1 { w := p.0; }
    else if e.minY == p.1.1 { w := p.1; }
    else if box.minY == 0 { w := Origin; }
    else { w :| w in NonEmptyCells(b) && w.1 == box.minY; }
  }

  /** A footprint cell on the top side of the grown box. */
  lemma TopWitness(b: Board, box: Box, p: Placing) returns (w: Coord)
    requires IsBoard(b) && IsBox(b, box)
    ensures w in Footprint(b, p) && w.1 == Extend(box, p).maxY
  {
    var e := Extend(box, p);
    if e.maxY == p.0.1 { w := p.0; }
    else if e.maxY == p.1.1 { w := p.1; }
    else if box.maxY == 0 { w := Origin; }
    else { w :| w in NonEmptyCells(b) && w.1 == box.maxY; }
  }

  /** The source's min/max box test and its pairwise reading agree. */
  lemma BoxTestIsSpan(b: Board, box: Box, p: Placing)
    requires IsBoard(b) && IsBox(b, box)
    ensures BoxTestPasses(box, p) <==> SpanFits(b, p)
  {
    GrownBoxHoldsFootprint(b, box, p);
    var left := LeftWitness(b, box, p);
    var right := RightWitness(b, box, p);
    var bottom := BottomWitness(b, box, p);
    var top := TopWitness(b, box, p);
    if SpanFits(b, p) {
      assert right.0 - left.0 <= 5;
      assert top.1 - bottom.1 <= 5;
    }
  }

  /** A considered placing is a domino touching a cell connected to the base. */
  lemma ConsideredTouchesKingdom(b: Board, p: Placing)
    requires IsBoard(b) && Env(b, Origin) != Empty
    requires Considered(b, p)
    ensures Adjacent(p.0, p.1)
    ensures exists c | c in Reach(NonEmptyCells(b), Origin) :: Adjacent(c, p.0) || Adjacent(c, p.1)
  {
    var loc :| loc in SearchOrder(b) && p in TileAdj(loc);
    InTileAdjTouches(loc, p);
    assert loc in Reach(NonEmptyCells(b), Origin) by {
      SearchVisitsConnectedOccupiedCells(b);
      assert loc in Elems(SearchOrder(b));
    }
  }

  /** A placing on empty cells next to a cell connected to the base is considered. */
  lemma TouchingKingdomIsConsidered(b: Board, p: Placing, c: Coord)
    requires IsBoard(b) && Env(b, Origin) != Empty
    requires InBounds(p.0) && InBounds(p.1)
    requires Adjacent(p.0, p.1) && Env(b, p.0) == Empty && Env(b, p.1) == Empty
    requires c in Reach(NonEmptyCells(b), Origin) && (Adjacent(c, p.0) || Adjacent(c, p.1))
    ensures Considered(b, p)
  {
    SearchVisitsConnectedOccupiedCells(b);
    assert c in Elems(SearchOrder(b));
    assert c in NonEmptyCells(b);
    TouchingIsInTileAdj(c, p);
  }

  /**
   * The rules of a move: a domino on the grid, on two empty cells, touching an
   * occupied cell connected to the base, within the source's `> 5` box test and
   * with a match.
   */
  ghost predicate IsLegalMove(b: Board, tile: Tile, p: Placing)
    requires IsBoard(b)
  {
    && InBounds(p.0) && InBounds(p.1) && Adjacent(p.0, p.1)
    && Env(b, p.0) == Empty && Env(b, p.1) == Empty
    && (exists c | c in Reach(NonEmptyCells(b), Origin) :: Adjacent(c, p.0) || Adjacent(c, p.1))
    && SpanFits(b, p) && HasMatch(b, tile, p)
  }

  /** A valid placing is a legal move. */
  lemma ValidPlacingIsLegal(b: Board, tile: Tile, p: Placing)
    requires IsBoard(b) && Env(b, Origin) != Empty
    requires IsValidPlacing(b, tile, p)
    ensures IsLegalMove(b, tile, p)
  {
    ConsideredTouchesKingdom(b, p);
  }

  /** A legal move is a valid placing. */
  lemma LegalMoveIsValid(b: Board, tile: Tile, p: Placing)
    requires IsBoard(b) && Env(b, Origin) != Empty
    requires IsLegalMove(b, tile, p)
    ensures IsValidPlacing(b, tile, p)
  {
    var c :| c in Reach(NonEmptyCells(b), Origin) && (Adjacent(c, p.0) || Adjacent(c, p.1));
    TouchingKingdomIsConsidered(b, p, c);
  }

  /** With the base occupied, a placing is valid exactly when it is a legal move. */
  lemma ValidPlacingIsLegalMove(b: Board, tile: Tile, p: Placing)
    requires IsBoard(b) && Env(b, Origin) != Empty
    ensures IsValidPlacing(b, tile, p) <==> IsLegalMove(b, tile, p)
  {
    if IsValidPlacing(b, tile, p) {
      ValidPlacingIsLegal(b, tile, p);
    }
    if IsLegalMove(b, tile, p) {
      LegalMoveIsValid(b, tile, p);
    }
  }

  /** Every placing generated next to the cells of order, in generation order. */
  function Candidates(order: seq<Coord>): (cands: seq<Placing>)
    ensures |cands| == 24 * |order|
  {
    if order == [] then [] else Candidates(order[..|order| - 1]) + TileAdj(order[|order| - 1])
  }

  /**
   * What valid_placings yields from the candidates: each placing the first time
   * it is generated, when it passes the filters.
   */
  function Sieve(b: Board, tile: Tile, cands: seq<Placing>): seq<Placing>
    requires IsBoard(b)
  {
    if cands == [] then []
    else
      var prev := cands[..|cands| - 1];
      var p := cands[|cands| - 1];
      Sieve(b, tile, prev) + (if p !in prev && Admissible(b, tile, p) then [p] else [])
  }

  /** The placings valid_placings yields for tile on b, in the order it yields them. */
  function ValidPlacingsOf(b: Board, tile: Tile): seq<Placing>
    requires IsBoard(b)
  {
    Sieve(b, tile, Candidates(SearchOrder(b)))
  }

  /** The candidates of a longer prefix of order: those of the shorter one, then the placings around the next cell. */
  lemma CandidatesStep(order: seq<Coord>, k: nat)
    requires k < |order|
    ensures Candidates(order[..k + 1]) == Candidates(order[..k]) + TileAdj(order[k])
  {
    assert order[..k + 1][..k] == order[..k];
  }

  /** The sieve over one more candidate yields it when it is new and admissible. */
  lemma SieveSnoc(b: Board, tile: Tile, seen: seq<Placing>, p: Placing)
    requires IsBoard(b)
    ensures Sieve(b, tile, seen + [p]) ==
      Sieve(b, tile, seen) + (if p !in seen && Admissible(b, tile, p) then [p] else [])
  {
    assert (seen + [p])[..|seen|] == seen;
  }

  /** A placing is a candidate exactly when it touches one of the cells of order. */
  lemma {:induction false} CandidatesTouch(order: seq<Coord>)
    ensures forall p :: p in Candidates(order) <==> exists loc <- order :: p in TileAdj(loc)
  {
    if order != [] {
      var prev := order[..|order| - 1];
      var last := order[|order| - 1];
      CandidatesTouch(prev);
      forall p
        ensures p in Candidates(order) <==> exists loc <- order :: p in TileAdj(loc)
      {
        assert p in Candidates(order) <==> p in Candidates(prev) || p in TileAdj(last);
        assert forall loc :: loc in order <==> loc in prev || loc == last;
      }
    }
  }

  /** The sieve yields each admissible candidate exactly once, and nothing else. */
  lemma {:induction false} SieveSelects(b: Board, tile: Tile, cands: seq<Placing>)
    requires IsBoard(b)
    ensures NoDuplicates(Sieve(b, tile, cands))
    ensures forall p :: p in Sieve(b, tile, cands) <==> p in cands && Admissible(b, tile, p)
  {
    if cands != [] {
      var prev := cands[..|cands| - 1];
      var p := cands[|cands| - 1];
      SieveSelects(b, tile, prev);
      assert cands == prev + [p];
    }
  }

  /** valid_placings yields every valid placing exactly once, and nothing else. */
  lemma ValidPlacingsAreValid(b: Board, tile: Tile)
    requires IsBoard(b)
    ensures NoDuplicates(ValidPlacingsOf(b, tile))
    ensures forall p :: p in ValidPlacingsOf(b, tile) <==> IsValidPlacing(b, tile, p)
  {
    SieveSelects(b, tile, Candidates(SearchOrder(b)));
    CandidatesTouch(SearchOrder(b));
  }

  /** A sieve over distinct admissible candidates keeps them all, in order. */
  lemma {:induction false} SieveKeepsAdmissible(b: Board, tile: Tile, cands: seq<Placing>)
    requires IsBoard(b) && NoDuplicates(cands)
    requires forall p <- cands :: Admissible(b, tile, p)
    ensures Sieve(b, tile, cands) == cands
  {
    if cands != [] {
      var prev := cands[..|cands| - 1];
      var p := cands[|cands| - 1];
      DropLastDistinct(cands);
      assert forall q <- prev :: q in cands;
      SieveKeepsAdmissible(b, tile, prev);
      SieveSnoc(b, tile, prev, p);
      SplitLast(cands);
    }
  }

  /** Both cells of a placing touching the base lie within two steps of it on each axis. */
  lemma TouchingBaseIsNear(p: Placing)
    requires TouchingPlacing(Origin, p)
    ensures -2 <= p.0.0 <= 2 && -2 <= p.0.1 <= 2 && -2 <= p.1.0 <= 2 && -2 <= p.1.1 <= 2
  {
  }

  /** With the base alone on the grid, a placing touching it passes the source's `> 5` box test. */
  lemma LoneBaseSpanFits(b: Board, p: Placing)
    requires IsBoard(b) && NonEmptyCells(b) == {Origin}
    requires TouchingPlacing(Origin, p)
    ensures SpanFits(b, p)
  {
    TouchingBaseIsNear(p);
    forall a, c | a in Footprint(b, p) && c in Footprint(b, p)
      ensures a.0 - c.0 <= 5 && a.1 - c.1 <= 5
    {
      assert a == Origin || a == p.0 || a == p.1;
      assert c == Origin || c == p.0 || c == p.1;
    }
  }

  /** With the base alone on the grid, a placing touching it has a match, whatever the tile. */
  lemma LoneBaseMatches(b: Board, tile: Tile, p: Placing)
    requires IsBoard(b) && Env(b, Origin) == Base
    requires TouchingPlacing(Origin, p) && InBounds(p.0) && InBounds(p.1)
    ensures HasMatch(b, tile, p)
  {
    if Adjacent(Origin, p.0) {
      assert Origin in Adj(p.0) && Accepts(b, Origin, tile.first.environment);
    } else {
      assert Origin in Adj(p.1) && Accepts(b, Origin, tile.second.environment);
    }
  }

  /** With the base alone on the grid, a placing touching it passes every filter, whatever the tile. */
  lemma LoneBaseAdmitsTouching(b: Board, tile: Tile, p: Placing)
    requires IsBoard(b) && Env(b, Origin) == Base && NonEmptyCells(b) == {Origin}
    requires TouchingPlacing(Origin, p)
    ensures Admissible(b, tile, p)
  {
    TouchingBaseIsNear(p);
    assert p.0 !in NonEmptyCells(b) && p.1 !in NonEmptyCells(b);
    LoneBaseSpanFits(b, p);
    LoneBaseMatches(b, tile, p);
  }

  /** On a fresh grid every placing around the base passes every filter, whatever the tile. */
  lemma FreshBoardAdmitsAround(tile: Tile)
    ensures IsBoard(FreshBoard())
    ensures forall p <- TileAdj(Origin) :: Admissible(FreshBoard(), tile, p)
  {
    var b := FreshBoard();
    FreshBoardHoldsBaseAlone();
    TileAdjIsTouching(Origin);
    forall p | p in TileAdj(Origin)
      ensures Admissible(b, tile, p)
    {
      LoneBaseAdmitsTouching(b, tile, p);
    }
  }

  /**
   * On a fresh grid every placing touching the base is valid, whatever the
   * tile: valid_placings yields the 24 placings around the origin in their
   * generation order, among them ((1, 0), (2, 0)) and ((2, 0), (1, 0)).
   */
  lemma FreshBoardPlacings(tile: Tile)
    ensures IsBoard(FreshBoard())
    ensures ValidPlacingsOf(FreshBoard(), tile) == TileAdj(Origin)
    ensures ((1, 0), (2, 0)) in ValidPlacingsOf(FreshBoard(), tile)
    ensures ((2, 0), (1, 0)) in ValidPlacingsOf(FreshBoard(), tile)
  {
    var b := FreshBoard();
    FreshBoardHoldsBaseAlone();
    LoneBaseIsVisitedAlone(b);
    assert Candidates([Origin]) == TileAdj(Origin) by {
      assert [Origin][..0] == [];
    }
    FreshBoardKeepsAround(tile);
    PlacingsRightOfOrigin();
  }

  /** On a fresh grid the sieve keeps all 24 placings around the base. */
  lemma FreshBoardKeepsAround(tile: Tile)
    ensures IsBoard(FreshBoard())
    ensures Sieve(FreshBoard(), tile, TileAdj(Origin)) == TileAdj(Origin)
  {
    FreshBoardAdmitsAround(tile);
    TileAdjDistinct(Origin);
    SieveKeepsAdmissible(FreshBoard(), tile, TileAdj(Origin));
  }
}

module Findings {
  import opened Domain
  import opened Neighbours
  import opened Paths
  import opened Traversal
  import opened Scoring
  import opened Placement

  /** Two one-cell Ocean regions on either side of the base; only the left one has a crown. */
  function MergeBoard(): Board
  {
    BoardOf(map[Origin := Cell(Base, 0), (-1, 0) := Cell(Ocean, 1), (1, 0) := Cell(Ocean, 0)])
  }

  /** What the lemmas below use of the merge board. */
  predicate MergeShape(b: Board)
  {
    && IsBoard(b)
    && NonEmptyCells(b) == {Origin, (-1, 0), (1, 0)}
    && EnvCells(b, Ocean) == {(-1, 0), (1, 0)}
    && CellAt(b, Origin) == Cell(Base, 0)
    && CellAt(b, (-1, 0)) == Cell(Ocean, 1)
    && CellAt(b, (1, 0)) == Cell(Ocean, 0)
  }

  lemma MergeBoardShape()
    ensures MergeShape(MergeBoard())
  {
    var b := MergeBoard();
    forall c | InBounds(c)
      ensures CellAt(b, c) == if c == Origin then Cell(Base, 0) else if c == (-1, 0) then Cell(Ocean, 1)
          else if c == (1, 0) then Cell(Ocean, 0) else EmptyCell
    {
    }
  }

  /** The occupied cells of the merge board all connect to the base. */
  lemma MergeReach(b: Board)
    requires MergeShape(b)
    ensures Reach(NonEmptyCells(b), Origin) == {Origin, (-1, 0), (1, 0)}
  {
    var S := NonEmptyCells(b);
    ConnectedToItself(S, Origin);
    ConnectedStep(S, Origin, Origin, (-1, 0));
    ConnectedStep(S, Origin, Origin, (1, 0));
    ReachIsClosedConnectedSet(S, S, Origin);
  }

  /** A sequence without duplicates, headed by a, holding exactly a, c and d. */
  lemma ThreeInOrder(s: seq<Coord>, a: Coord, c: Coord, d: Coord)
    requires NoDuplicates(s) && Elems(s) == {a, c, d} && s != [] && s[0] == a
    requires a != c && a != d && c != d
    ensures |s| == 3 && ((s[1] == c && s[2] == d) || (s[1] == d && s[2] == c))
  {
    DistinctCardinality(s);
    assert s[1] in Elems(s) && s[2] in Elems(s);
  }

  /** The search on the merge board visits the base and then the two Ocean cells, in some order. */
  lemma MergeOrder(b: Board)
    requires MergeShape(b)
    ensures var order := SearchOrder(b);
      |order| == 3 && order[0] == Origin &&
      ((order[1] == (-1, 0) && order[2] == (1, 0)) || (order[1] == (1, 0) && order[2] == (-1, 0)))
  {
    MergeReach(b);
    SearchVisitsConnectedOccupiedCells(b);
    ThreeInOrder(SearchOrder(b), Origin, (-1, 0), (1, 0));
  }

  /** The crowned Ocean cell of the merge board is a region on its own. */
  lemma MergeRegion(b: Board)
    requires MergeShape(b)
    ensures RegionOf(b, (-1, 0)) == {(-1, 0)} && (1, 0) !in Region(b, (-1, 0))
  {
    var S := EnvCells(b, Ocean);
    ConnectedToItself(S, (-1, 0));
    ReachIsClosedConnectedSet(S, {(-1, 0)}, (-1, 0));
    RegionOfIsRegion(b, (-1, 0));
  }

  /** A crownless cell followed by a run of two cells of another environment. */
  lemma RunValueOfPairAfterCrownless(x: Cell, y: Cell, z: Cell)
    requires x.crowns == 0 && x.environment != y.environment && y.environment == z.environment
    ensures RunValue([x, y, z]) == (y.crowns + z.crowns) * 2
  {
    LeadRunIs([x], 1);
    assert [x][..1] == [x] && [x][1..] == [];
    assert Crowns([x]) == 0 by {
      assert [x][..0] == [];
    }
    assert Crowns([y, z]) == y.crowns + z.crowns by {
      assert [y, z][..1] == [y] && [y][..0] == [];
    }
    RunValueAppendRun([x], [y, z]);
    assert [x] + [y, z] == [x, y, z];
  }

  /** The region value of a sequence grown by one cell. */
  lemma RegionValueSnoc(b: Board, order: seq<Coord>)
    requires IsBoard(b) && order != [] && forall c <- order :: InBounds(c)
    ensures var c := order[|order| - 1];
      RegionValue(b, order) == RegionValue(b, order[..|order| - 1]) + Weighted(CellAt(b, c).crowns, |RegionOf(b, c)|)
  {
  }

  /** The region value of three cells, one term each. */
  lemma RegionValueOfThree(b: Board, order: seq<Coord>)
    requires IsBoard(b) && |order| == 3 && forall c <- order :: InBounds(c)
    ensures RegionValue(b, order) ==
      Weighted(CellAt(b, order[0]).crowns, |RegionOf(b, order[0])|) +
      Weighted(CellAt(b, order[1]).crowns, |RegionOf(b, order[1])|) +
      Weighted(CellAt(b, order[2]).crowns, |RegionOf(b, order[2])|)
  {
    RegionValueSnoc(b, order);
    RegionValueSnoc(b, order[..2]);
    RegionValueSnoc(b, order[..1]);
    assert order[..2][..1] == order[..1] && order[..1][..0] == [];
  }

  /** `score` as written on the merge board: the two Ocean cells form one run of length 2 worth 2. */
  lemma MergeRunScore(b: Board)
    requires MergeShape(b)
    ensures RunScore(b) == 2
  {
    MergeOrder(b);
    var cells := CellsAlong(b, SearchOrder(b));
    assert cells == [cells[0], cells[1], cells[2]];
    RunValueOfPairAfterCrownless(cells[0], cells[1], cells[2]);
  }

  /** Scored by regions, the merge board is worth 1: one crown on a one-cell region. */
  lemma MergeRegionScore(b: Board)
    requires MergeShape(b)
    ensures RegionScore(b) == 1
  {
    MergeOrder(b);
    MergeRegion(b);
    var order := SearchOrder(b);
    RegionValueOfThree(b, order);
    WeightedTerms(b);
  }

  /** The terms the cells of the merge board add to its region value. */
  lemma WeightedTerms(b: Board)
    requires MergeShape(b)
    ensures Weighted(CellAt(b, Origin).crowns, |RegionOf(b, Origin)|) == 0
    ensures Weighted(CellAt(b, (1, 0)).crowns, |RegionOf(b, (1, 0))|) == 0
    ensures Weighted(CellAt(b, (-1, 0)).crowns, |RegionOf(b, (-1, 0))|) == 1
  {
    MergeRegion(b);
    WeightedOf(CellAt(b, Origin).crowns, |RegionOf(b, Origin)|);
    WeightedOf(CellAt(b, (1, 0)).crowns, |RegionOf(b, (1, 0))|);
    WeightedOf(CellAt(b, (-1, 0)).crowns, |RegionOf(b, (-1, 0))|);
  }

  lemma WeightedOf(crowns: nat, size: nat)
    ensures crowns == 0 ==> Weighted(crowns, size) == 0
    ensures crowns == 1 ==> Weighted(crowns, size) == size
  {
  }

  /**
   * `score` as written joins the two Ocean cells, which the search visits one
   * after the other, into one run worth 2, although they are two regions and
   * the only crowned one holds one cell, worth 1.
   */
  lemma ScoreMergesSeparateRegions()
    ensures IsBoard(MergeBoard()) && (1, 0) !in Region(MergeBoard(), (-1, 0))
    ensures RunScore(MergeBoard()) == 2 && RegionScore(MergeBoard()) == 1
  {
    MergeBoardShape();
    MergeRegion(MergeBoard());
    MergeRunScore(MergeBoard());
    MergeRegionScore(MergeBoard());
  }

  // ---------------------------------------------------------------------
  // The search as written

  /** How a run of the generator ends: it completes, or it raises after yielding some cells. */
  datatype SearchRun = Completed(order: seq<Coord>) | Raised(yielded: seq<Coord>)

  /**
   * The inner loop of `search` as written, for the base: the visited set holds
   * the integer 0 and never a coordinate, so every neighbour passes the first
   * test; the first occupied one is queued by calling insert or append on the
   * coordinate tuple loc, which raises.
   */
  function QueueAsWritten(b: Board, ns: seq<Coord>): (raises: bool)
    requires IsBoard(b) && forall n <- ns :: InBounds(n)
  {
    if ns == [] then false
    else if Env(b, ns[0]) == Empty then QueueAsWritten(b, ns[1..])
    else true
  }

  /**
   * `search` as written: it yields the base, then expands it; when that raises
   * nothing else is yielded, and otherwise the queue is empty and it stops.
   */
  function SearchAsWritten(b: Board): SearchRun
    requires IsBoard(b)
  {
    if QueueAsWritten(b, Adj(Origin)) then Raised([Origin]) else Completed([Origin])
  }

  /** The loop as written raises exactly when some neighbour is occupied. */
  lemma {:induction false} QueueAsWrittenRaises(b: Board, ns: seq<Coord>)
    requires IsBoard(b) && forall n <- ns :: InBounds(n)
    ensures QueueAsWritten(b, ns) <==> exists n <- ns :: Env(b, n) != Empty
  {
    if ns != [] {
      QueueAsWrittenRaises(b, ns[1..]);
      assert forall n <- ns[1..] :: n in ns;
      assert forall n <- ns :: n == ns[0] || n in ns[1..];
    }
  }

  /**
   * `search` as written completes only on a board whose base has no occupied
   * neighbour, and there it yields what the corrected search yields.
   */
  lemma SearchAsWrittenCompletesOnlyAlone(b: Board)
    requires IsBoard(b)
    ensures SearchAsWritten(b).Completed? <==> forall n <- Adj(Origin) :: Env(b, n) == Empty
    ensures SearchAsWritten(b).Completed? ==> SearchAsWritten(b).order == SearchOrder(b)
  {
    QueueAsWrittenRaises(b, Adj(Origin));
    if SearchAsWritten(b).Completed? {
      var S := NonEmptyCells(b);
      TraverseUnfold(b, S, [Origin], {Origin});
      assert [Origin][1..] == [];
      var r := Expand(b, S, Origin, Adj(Origin), [], {Origin});
      assert r.1 == {Origin};
    }
  }

  /** On the merge board `search` as written raises after the base, where the corrected one yields three cells. */
  lemma SearchAsWrittenRaisesOnMergeBoard()
    ensures IsBoard(MergeBoard())
    ensures SearchAsWritten(MergeBoard()) == Raised([Origin])
    ensures |SearchOrder(MergeBoard())| == 3
  {
    var b := MergeBoard();
    MergeBoardShape();
    MergeOrder(b);
    QueueAsWrittenRaises(b, Adj(Origin));
    assert (-1, 0) in Adj(Origin);
  }

  // ---------------------------------------------------------------------
  // The search splits a region

  /** A neighbour already seen, or not occupied, is passed over. */
  lemma ExpandSkips(b: Board, S: set<Coord>, loc: Coord, c: Coord, rest: seq<Coord>, q: seq<Coord>, seen: set<Coord>)
    requires IsBoard(b) && InBounds(loc) && InBounds(c) && forall n <- rest :: InBounds(n)
    requires c in seen || c !in S
    ensures Expand(b, S, loc, [c] + rest, q, seen) == Expand(b, S, loc, rest, q, seen)
  {
    assert ([c] + rest)[1..] == rest;
  }

  /** An unseen occupied neighbour of the same environment goes to the front of the queue. */
  lemma ExpandFronts(b: Board, S: set<Coord>, loc: Coord, c: Coord, rest: seq<Coord>, q: seq<Coord>, seen: set<Coord>)
    requires IsBoard(b) && InBounds(loc) && InBounds(c) && forall n <- rest :: InBounds(n)
    requires c !in seen && c in S && Env(b, c) == Env(b, loc)
    ensures Expand(b, S, loc, [c] + rest, q, seen) == Expand(b, S, loc, rest, [c] + q, seen + {c})
  {
    assert ([c] + rest)[1..] == rest;
  }

  /** An unseen occupied neighbour of another environment goes to the back of the queue. */
  lemma ExpandBacks(b: Board, S: set<Coord>, loc: Coord, c: Coord, rest: seq<Coord>, q: seq<Coord>, seen: set<Coord>)
    requires IsBoard(b) && InBounds(loc) && InBounds(c) && forall n <- rest :: InBounds(n)
    requires c !in seen && c in S && Env(b, c) != Env(b, loc)
    ensures Expand(b, S, loc, [c] + rest, q, seen) == Expand(b, S, loc, rest, q + [c], seen + {c})
  {
    assert ([c] + rest)[1..] == rest;
  }

  /** What the rounds below use of a board and its occupied cells S. */
  predicate SplitCells(b: Board, S: set<Coord>)
  {
    && IsBoard(b)
    && (0, -1) in S && (-1, 0) in S && (1, 0) in S && (1, -1) in S
    && (0, 1) !in S && (0, -2) !in S && (-1, -1) !in S
    && Env(b, Origin) == Base && Env(b, (0, -1)) == Ocean && Env(b, (-1, 0)) == Forest
    && Env(b, (1, 0)) == Ocean && Env(b, (1, -1)) == Ocean
  }

  /** The neighbours of the first two cells the search visits, first one apart. */
  lemma SplitAdjacency()
    ensures Adj(Origin) == [(0, -1)] + [(-1, 0), (1, 0), (0, 1)]
    ensures Adj((0, -1)) == [(0, -2)] + [(-1, -1), (1, -1), Origin]
    ensures [] + [(0, -1)] == [(0, -1)] && {Origin} + {(0, -1)} == {Origin, (0, -1)}
  {
    AdjInterior(Origin);
    AdjInterior((0, -1));
  }

  /** Expanding the base: the cell above it, (0, 1), is empty. */
  lemma BaseRoundAbove(b: Board, S: set<Coord>)
    requires SplitCells(b, S)
    ensures Expand(b, S, Origin, [(0, 1)], [(0, -1), (-1, 0), (1, 0)], {Origin, (0, -1), (-1, 0), (1, 0)})
      == ([(0, -1), (-1, 0), (1, 0)], {Origin, (0, -1), (-1, 0), (1, 0)})
  {
    ExpandSkips(b, S, Origin, (0, 1), [], [(0, -1), (-1, 0), (1, 0)], {Origin, (0, -1), (-1, 0), (1, 0)});
    assert [(0, 1)] + [] == [(0, 1)];
  }

  /** Expanding the base: the Ocean cell right of it goes to the back. */
  lemma BaseRoundRight(b: Board, S: set<Coord>)
    requires SplitCells(b, S)
    ensures Expand(b, S, Origin, [(1, 0), (0, 1)], [(0, -1), (-1, 0)], {Origin, (0, -1), (-1, 0)})
      == ([(0, -1), (-1, 0), (1, 0)], {Origin, (0, -1), (-1, 0), (1, 0)})
  {
    BaseRoundAbove(b, S);
    ExpandBacks(b, S, Origin, (1, 0), [(0, 1)], [(0, -1), (-1, 0)], {Origin, (0, -1), (-1, 0)});
    assert [(1, 0)] + [(0, 1)] == [(1, 0), (0, 1)];
    assert [(0, -1), (-1, 0)] + [(1, 0)] == [(0, -1), (-1, 0), (1, 0)];
    assert {Origin, (0, -1), (-1, 0)} + {(1, 0)} == {Origin, (0, -1), (-1, 0), (1, 0)};
  }

  /** Expanding the base: the Forest cell left of it goes to the back. */
  lemma BaseRoundLeft(b: Board, S: set<Coord>)
    requires SplitCells(b, S)
    ensures Expand(b, S, Origin, [(-1, 0), (1, 0), (0, 1)], [(0, -1)], {Origin, (0, -1)})
      == ([(0, -1), (-1, 0), (1, 0)], {Origin, (0, -1), (-1, 0), (1, 0)})
  {
    BaseRoundRight(b, S);
    ExpandBacks(b, S, Origin, (-1, 0), [(1, 0), (0, 1)], [(0, -1)], {Origin, (0, -1)});
    assert [(-1, 0)] + [(1, 0), (0, 1)] == [(-1, 0), (1, 0), (0, 1)];
    assert [(0, -1)] + [(-1, 0)] == [(0, -1), (-1, 0)];
    assert {Origin, (0, -1)} + {(-1, 0)} == {Origin, (0, -1), (-1, 0)};
  }

  /** Expanding the base queues its three occupied neighbours in the order of `adj`. */
  lemma BaseRound(b: Board, S: set<Coord>)
    requires SplitCells(b, S)
    ensures Expand(b, S, Origin, Adj(Origin), [], {Origin})
      == ([(0, -1), (-1, 0), (1, 0)], {Origin, (0, -1), (-1, 0), (1, 0)})
  {
    BaseRoundLeft(b, S);
    ExpandBacks(b, S, Origin, (0, -1), [(-1, 0), (1, 0), (0, 1)], [], {Origin});
    SplitAdjacency();
  }

  /** Expanding (0, -1): the base is already seen. */
  lemma OceanRoundBase(b: Board, S: set<Coord>)
    requires SplitCells(b, S)
    ensures Expand(b, S, (0, -1), [Origin], [(1, -1), (-1, 0), (1, 0)], {Origin, (0, -1), (-1, 0), (1, 0), (1, -1)})
      == ([(1, -1), (-1, 0), (1, 0)], {Origin, (0, -1), (-1, 0), (1, 0), (1, -1)})
  {
    ExpandSkips(b, S, (0, -1), Origin, [], [(1, -1), (-1, 0), (1, 0)], {Origin, (0, -1), (-1, 0), (1, 0), (1, -1)});
    assert [Origin] + [] == [Origin];
  }

  /** Expanding (0, -1): the Ocean cell (1, -1) goes to the front. */
  lemma OceanRoundRight(b: Board, S: set<Coord>)
    requires SplitCells(b, S)
    ensures Expand(b, S, (0, -1), [(1, -1), Origin], [(-1, 0), (1, 0)], {Origin, (0, -1), (-1, 0), (1, 0)})
      == ([(1, -1), (-1, 0), (1, 0)], {Origin, (0, -1), (-1, 0), (1, 0), (1, -1)})
  {
    OceanRoundBase(b, S);
    ExpandFronts(b, S, (0, -1), (1, -1), [Origin], [(-1, 0), (1, 0)], {Origin, (0, -1), (-1, 0), (1, 0)});
    assert [(1, -1)] + [Origin] == [(1, -1), Origin];
    assert [(1, -1)] + [(-1, 0), (1, 0)] == [(1, -1), (-1, 0), (1, 0)];
    assert {Origin, (0, -1), (-1, 0), (1, 0)} + {(1, -1)} == {Origin, (0, -1), (-1, 0), (1, 0), (1, -1)};
  }

  /** Expanding (0, -1): the cell (-1, -1) is empty. */
  lemma OceanRoundLeft(b: Board, S: set<Coord>)
    requires SplitCells(b, S)
    ensures Expand(b, S, (0, -1), [(-1, -1), (1, -1), Origin], [(-1, 0), (1, 0)], {Origin, (0, -1), (-1, 0), (1, 0)})
      == ([(1, -1), (-1, 0), (1, 0)], {Origin, (0, -1), (-1, 0), (1, 0), (1, -1)})
  {
    OceanRoundRight(b, S);
    ExpandSkips(b, S, (0, -1), (-1, -1), [(1, -1), Origin], [(-1, 0), (1, 0)], {Origin, (0, -1), (-1, 0), (1, 0)});
    assert [(-1, -1)] + [(1, -1), Origin] == [(-1, -1), (1, -1), Origin];
  }

  /** Expanding the crowned Ocean cell puts its Ocean neighbour (1, -1) in front of the Forest cell. */
  lemma OceanRound(b: Board, S: set<Coord>)
    requires SplitCells(b, S)
    ensures Expand(b, S, (0, -1), Adj((0, -1)), [(-1, 0), (1, 0)], {Origin, (0, -1), (-1, 0), (1, 0)})
      == ([(1, -1), (-1, 0), (1, 0)], {Origin, (0, -1), (-1, 0), (1, 0), (1, -1)})
  {
    OceanRoundLeft(b, S);
    ExpandSkips(b, S, (0, -1), (0, -2), [(-1, -1), (1, -1), Origin], [(-1, 0), (1, 0)], {Origin, (0, -1), (-1, 0), (1, 0)});
    SplitAdjacency();
  }

  /** Once every occupied cell is seen, the search yields the queue as it stands. */
  lemma {:induction false} SaturatedTraverse(b: Board, S: set<Coord>, q: seq<Coord>, seen: set<Coord>)
    requires IsBoard(b) && OnGrid(S) && OnGrid(seen) && forall c <- q :: InBounds(c)
    requires S <= seen
    ensures Traverse(b, S, q, seen) == q
    decreases |q|
  {
    if q != [] {
      var r := Expand(b, S, q[0], Adj(q[0]), q[1..], seen);
      assert r.1 == seen;
      TraverseUnfold(b, S, q, seen);
      SaturatedTraverse(b, S, q[1..], seen);
    }
  }

  /**
   * The base, a crowned Ocean cell below it, an Ocean cell right of that one
   * and another right of the base, and a Forest cell left of the base. The
   * three Ocean cells are one region.
   */
  function SplitBoard(): Board
  {
    BoardOf(map[Origin := Cell(Base, 0), (0, -1) := Cell(Ocean, 1), (1, -1) := Cell(Ocean, 0),
                (1, 0) := Cell(Ocean, 0), (-1, 0) := Cell(Forest, 0)])
  }

  /** What the lemmas below use of the split board. */
  predicate SplitShape(b: Board)
  {
    && IsBoard(b)
    && NonEmptyCells(b) == {Origin, (0, -1), (-1, 0), (1, 0), (1, -1)}
    && EnvCells(b, Ocean) == {(0, -1), (1, -1), (1, 0)}
    && CellAt(b, Origin) == Cell(Base, 0) && CellAt(b, (0, -1)) == Cell(Ocean, 1)
    && CellAt(b, (1, -1)) == Cell(Ocean, 0) && CellAt(b, (1, 0)) == Cell(Ocean, 0)
    && CellAt(b, (-1, 0)) == Cell(Forest, 0)
  }

  /** The split board has that shape. */
  lemma SplitBoardShape()
    ensures SplitShape(SplitBoard())
  {
    var b := SplitBoard();
    forall c | InBounds(c)
      ensures CellAt(b, c) ==
        if c == Origin then Cell(Base, 0) else if c == (0, -1) then Cell(Ocean, 1)
        else if c == (1, -1) || c == (1, 0) then Cell(Ocean, 0)
        else if c == (-1, 0) then Cell(Forest, 0) else EmptyCell
    {
    }
  }

  /** The split board's occupied cells meet what the rounds use. */
  lemma SplitShapeCells(b: Board)
    requires SplitShape(b)
    ensures SplitCells(b, NonEmptyCells(b)) && OnGrid(NonEmptyCells(b))
  {
  }

  /** The fronts and rests of the queues the search on the split board goes through. */
  lemma SplitQueues()
    ensures [Origin] + [] == [Origin]
    ensures [(0, -1)] + [(-1, 0), (1, 0)] == [(0, -1), (-1, 0), (1, 0)]
    ensures [Origin] + [(0, -1), (1, -1), (-1, 0), (1, 0)] == [Origin, (0, -1), (1, -1), (-1, 0), (1, 0)]
    ensures [(0, -1)] + [(1, -1), (-1, 0), (1, 0)] == [(0, -1), (1, -1), (-1, 0), (1, 0)]
  {
  }

  /** One round of the fill, at loc with rest queued behind it, leaves queue q' and seen set seen'. */
  predicate RoundGives(b: Board, S: set<Coord>, loc: Coord, rest: seq<Coord>, seen: set<Coord>, q': seq<Coord>, seen': set<Coord>)
  {
    && IsBoard(b) && OnGrid(S) && OnGrid(seen) && OnGrid(seen')
    && InBounds(loc) && (forall c <- rest :: InBounds(c)) && (forall c <- q' :: InBounds(c))
    && Expand(b, S, loc, Adj(loc), rest, seen) == (q', seen')
  }

  /** A round whose outcome is known yields loc and continues from that outcome. */
  lemma TraverseStep(b: Board, S: set<Coord>, loc: Coord, rest: seq<Coord>, seen: set<Coord>, q': seq<Coord>, seen': set<Coord>)
    requires RoundGives(b, S, loc, rest, seen, q', seen')
    ensures Traverse(b, S, [loc] + rest, seen) == [loc] + Traverse(b, S, q', seen')
  {
    var q := [loc] + rest;
    assert q[0] == loc && q[1..] == rest;
    TraverseUnfold(b, S, q, seen);
  }

  /** The queues and seen sets of the first two rounds lie on the grid. */
  lemma SplitOnGrid()
    ensures OnGrid({Origin}) && OnGrid({Origin, (0, -1), (-1, 0), (1, 0)})
    ensures OnGrid({Origin, (0, -1), (-1, 0), (1, 0), (1, -1)})
    ensures forall c <- [(0, -1), (-1, 0), (1, 0)] :: InBounds(c)
    ensures forall c <- [(-1, 0), (1, 0)] :: InBounds(c)
    ensures forall c <- [(1, -1), (-1, 0), (1, 0)] :: InBounds(c)
  {
  }

  /** The first round, at the base. */
  lemma SplitRoundOne(b: Board, S: set<Coord>)
    requires SplitCells(b, S) && OnGrid(S)
    ensures RoundGives(b, S, Origin, [], {Origin}, [(0, -1), (-1, 0), (1, 0)], {Origin, (0, -1), (-1, 0), (1, 0)})
  {
    SplitOnGrid();
    BaseRound(b, S);
  }

  /** The second round, at the crowned Ocean cell. */
  lemma SplitRoundTwo(b: Board, S: set<Coord>)
    requires SplitCells(b, S) && OnGrid(S)
    ensures RoundGives(b, S, (0, -1), [(-1, 0), (1, 0)], {Origin, (0, -1), (-1, 0), (1, 0)},
                       [(1, -1), (-1, 0), (1, 0)], {Origin, (0, -1), (-1, 0), (1, 0), (1, -1)})
  {
    SplitOnGrid();
    OceanRound(b, S);
  }

  /** The whole search over cells S that meet what the rounds use. */
  lemma SplitFromBase(b: Board, S: set<Coord>)
    requires SplitCells(b, S) && OnGrid(S) && S <= {Origin, (0, -1), (-1, 0), (1, 0), (1, -1)}
    ensures Traverse(b, S, [Origin], {Origin}) == [Origin, (0, -1), (1, -1), (-1, 0), (1, 0)]
  {
    SplitQueues();
    SplitRoundOne(b, S);
    TraverseStep(b, S, Origin, [], {Origin}, [(0, -1), (-1, 0), (1, 0)], {Origin, (0, -1), (-1, 0), (1, 0)});
    SplitRoundTwo(b, S);
    TraverseStep(b, S, (0, -1), [(-1, 0), (1, 0)], {Origin, (0, -1), (-1, 0), (1, 0)},
                 [(1, -1), (-1, 0), (1, 0)], {Origin, (0, -1), (-1, 0), (1, 0), (1, -1)});
    SplitSaturated(b, S);
  }

  /** Once the Ocean cell (1, -1) is queued, every occupied cell is seen, and the queue is yielded as it stands. */
  lemma SplitSaturated(b: Board, S: set<Coord>)
    requires IsBoard(b) && OnGrid(S) && S <= {Origin, (0, -1), (-1, 0), (1, 0), (1, -1)}
    ensures Traverse(b, S, [(1, -1), (-1, 0), (1, 0)], {Origin, (0, -1), (-1, 0), (1, 0), (1, -1)})
      == [(1, -1), (-1, 0), (1, 0)]
  {
    SaturatedTraverse(b, S, [(1, -1), (-1, 0), (1, 0)], {Origin, (0, -1), (-1, 0), (1, 0), (1, -1)});
  }

  /** The order in which `search` yields the split board's cells. */
  lemma SplitOrder(b: Board)
    requires SplitShape(b)
    ensures SearchOrder(b) == [Origin, (0, -1), (1, -1), (-1, 0), (1, 0)]
  {
    SplitShapeCells(b);
    SplitFromBase(b, NonEmptyCells(b));
  }

  /** The Ocean cells of the split board form one region of three cells. */
  lemma SplitRegion(b: Board)
    requires SplitShape(b)
    ensures Region(b, (0, -1)) == {(0, -1), (1, -1), (1, 0)}
    ensures RegionOf(b, (0, -1)) == {(0, -1), (1, -1), (1, 0)}
    ensures |RegionOf(b, (0, -1))| == 3
  {
    OceanRegionSize();
    var X := EnvCells(b, Ocean);
    ConnectedToItself(X, (0, -1));
    ConnectedStep(X, (0, -1), (0, -1), (1, -1));
    ConnectedStep(X, (0, -1), (1, -1), (1, 0));
    ReachIsClosedConnectedSet(X, X, (0, -1));
    RegionOfIsRegion(b, (0, -1));
  }

  /** The Ocean region holds three cells. */
  lemma OceanRegionSize()
    ensures |{(0, -1), (1, -1), (1, 0)}| == 3
  {
  }

  /** Cells without crowns at the end of the order add nothing to the region value. */
  lemma {:induction false} RegionValueCrownlessTail(b: Board, order: seq<Coord>, k: nat)
    requires IsBoard(b) && (forall c <- order :: InBounds(c)) && k <= |order|
    requires forall i | k <= i < |order| :: CellAt(b, order[i]).crowns == 0
    ensures RegionValue(b, order) == RegionValue(b, order[..k])
    decreases |order|
  {
    if |order| > k {
      var p := order[..|order| - 1];
      assert forall i | k <= i < |p| :: p[i] == order[i];
      RegionValueCrownlessTail(b, p, k);
      assert p[..k] == order[..k];
      var c := order[|order| - 1];
      WeightedOf(CellAt(b, c).crowns, |RegionOf(b, c)|);
    } else {
      assert order[..k] == order;
    }
  }

  /** The region value of two cells, the first without crowns. */
  lemma RegionValueOfTwo(b: Board, order: seq<Coord>, a: Coord, c: Coord)
    requires IsBoard(b) && InBounds(a) && InBounds(c) && order == [a, c] && CellAt(b, a).crowns == 0
    ensures RegionValue(b, order) == Weighted(CellAt(b, c).crowns, |RegionOf(b, c)|)
  {
    RegionValueSnoc(b, order);
    assert order[..1] == [a] && order[..1][..0] == [];
    RegionValueSnoc(b, order[..1]);
    WeightedOf(0, |RegionOf(b, a)|);
  }

  /** Past its second cell, the split board's search order reaches only cells without crowns. */
  lemma SplitOrderCrowns(b: Board, order: seq<Coord>)
    requires SplitShape(b) && order == [Origin, (0, -1), (1, -1), (-1, 0), (1, 0)]
    ensures |order| == 5 && (forall c <- order :: InBounds(c)) && order[..2] == [Origin, (0, -1)]
    ensures CellAt(b, Origin).crowns == 0 && CellAt(b, (0, -1)).crowns == 1
    ensures forall i | 2 <= i < |order| :: CellAt(b, order[i]).crowns == 0
  {
  }

  /** Scored by regions, the split board is worth 3: one crown on a region of three cells. */
  lemma SplitRegionScore(b: Board)
    requires SplitShape(b)
    ensures RegionScore(b) == 3
  {
    SplitOrder(b);
    var order := SearchOrder(b);
    SplitOrderCrowns(b, order);
    RegionValueCrownlessTail(b, order, 2);
    SplitRegion(b);
    RegionValueOfTwo(b, order[..2], Origin, (0, -1));
    WeightedOf(1, 3);
  }

  /** The cells along the split board's search order. */
  lemma SplitCellsAlong(b: Board, order: seq<Coord>)
    requires SplitShape(b) && order == [Origin, (0, -1), (1, -1), (-1, 0), (1, 0)]
    ensures CellsAlong(b, order) == [Cell(Base, 0), Cell(Ocean, 1), Cell(Ocean, 0)] + [Cell(Forest, 0)] + [Cell(Ocean, 0)]
  {
  }

  /** The run value of those cells: the crowned Ocean pair, then a Forest run and an Ocean run without crowns. */
  lemma SplitRunValue()
    ensures RunValue([Cell(Base, 0), Cell(Ocean, 1), Cell(Ocean, 0)] + [Cell(Forest, 0)] + [Cell(Ocean, 0)]) == 2
  {
    var x, y, z, f, w := Cell(Base, 0), Cell(Ocean, 1), Cell(Ocean, 0), Cell(Forest, 0), Cell(Ocean, 0);
    RunValueOfPairAfterCrownless(x, y, z);
    CrownsSnoc([], f);
    CrownsSnoc([], w);
    assert [] + [f] == [f] && [] + [w] == [w];
    RunValueAppendRun([x, y, z], [f]);
    RunValueAppendRun([x, y, z] + [f], [w]);
  }

  /** `score` on the split board: the crowned Ocean run is cut after two cells, worth 2. */
  lemma SplitRunScore(b: Board)
    requires SplitShape(b)
    ensures RunScore(b) == 2
  {
    SplitOrder(b);
    SplitCellsAlong(b, SearchOrder(b));
    SplitRunValue();
  }

  /**
   * The search does not keep a region together: on the split board it visits
   * the Forest cell between two cells of the one Ocean region, and `score`
   * counts the crowned region as 2 where its region is worth 3.
   */
  lemma SearchSplitsRegion()
    ensures IsBoard(SplitBoard())
    ensures SearchOrder(SplitBoard()) == [Origin, (0, -1), (1, -1), (-1, 0), (1, 0)]
    ensures (1, 0) in Region(SplitBoard(), (0, -1)) && Env(SplitBoard(), (-1, 0)) == Forest
    ensures RunScore(SplitBoard()) == 2 && RegionScore(SplitBoard()) == 3
  {
    SplitBoardShape();
    SplitOrder(SplitBoard());
    SplitRegion(SplitBoard());
    SplitRunScore(SplitBoard());
    SplitRegionScore(SplitBoard());
  }

  // ---------------------------------------------------------------------
  // The 5x5 rule

  /** The base and four Ocean cells in a row to its right. */
  function RowBoard(): Board
  {
    BoardOf(map[Origin := Cell(Base, 0), (1, 0) := Cell(Ocean, 0), (2, 0) := Cell(Ocean, 0),
                (3, 0) := Cell(Ocean, 0), (4, 0) := Cell(Ocean, 0)])
  }

  /** What the lemmas below use of the row board. */
  predicate RowShape(b: Board)
  {
    && IsBoard(b)
    && NonEmptyCells(b) == {Origin, (1, 0), (2, 0), (3, 0), (4, 0)}
    && Env(b, Origin) == Base
    && Env(b, (-1, 0)) == Empty && Env(b, (-1, 1)) == Empty
  }

  lemma RowBoardShape()
    ensures RowShape(RowBoard())
  {
    var b := RowBoard();
    forall c | InBounds(c)
      ensures Env(b, c) == if c == Origin then Base else if c.1 == 0 && 1 <= c.0 <= 4 then Ocean else Empty
    {
    }
  }

  /** The box of the row board. */
  lemma RowBox(b: Board)
    requires RowShape(b)
    ensures IsBox(b, Box(0, 4, 0, 0))
  {
    assert (4, 0) in NonEmptyCells(b);
  }

  /** The far end of the row connects to the base. */
  lemma RowReach(b: Board)
    requires RowShape(b)
    ensures (4, 0) in Reach(NonEmptyCells(b), Origin) && Origin in Reach(NonEmptyCells(b), Origin)
  {
    var S := NonEmptyCells(b);
    ConnectedToItself(S, Origin);
    ConnectedStep(S, Origin, Origin, (1, 0));
    ConnectedStep(S, Origin, (1, 0), (2, 0));
    ConnectedStep(S, Origin, (2, 0), (3, 0));
    ConnectedStep(S, Origin, (3, 0), (4, 0));
  }

  /** The collision test answers, or `at` fails its assertion on a cell off the grid. */
  datatype Collision = Answer(collides: bool) | OffGrid

  /**
   * The collision test of valid_placings as written: `at` is called on the
   * first cell and, when that one is Empty, on the second; `at` fails its
   * assertion on a cell off the grid.
   */
  function CollidesAsWritten(b: Board, p: Placing): Collision
    requires IsBoard(b)
  {
    if !InBounds(p.0) then OffGrid
    else if Env(b, p.0) != Empty then Answer(true)
    else if !InBounds(p.1) then OffGrid
    else Answer(Env(b, p.1) != Empty)
  }

  /** On the grid, the collision test as written is the model's: some cell is occupied. */
  lemma CollidesAsWrittenOnGrid(b: Board, p: Placing)
    requires IsBoard(b)
    ensures CollidesAsWritten(b, p).OffGrid? <==> !InBounds(p.0) || (Env(b, p.0) == Empty && !InBounds(p.1))
    ensures InBounds(p.0) && InBounds(p.1) ==>
      CollidesAsWritten(b, p) == Answer(Env(b, p.0) != Empty || Env(b, p.1) != Empty)
  {
  }

  /** The placing right of the far end of the row is considered and passes the box test as written. */
  lemma RowOffGrid(b: Board)
    requires RowShape(b)
    ensures var p := ((5, 0), (5, 1));
      Considered(b, p) && BoxTestPasses(Box(0, 4, 0, 0), p) && CollidesAsWritten(b, p).OffGrid?
  {
    var p := ((5, 0), (5, 1));
    RowReach(b);
    SearchVisitsConnectedOccupiedCells(b);
    assert (4, 0) in Elems(SearchOrder(b));
    TouchingIsInTileAdj((4, 0), p);
  }

  /**
   * On the row board the placing right of the far end is considered and passes
   * the box test as written, so valid_placings calls `at` on (5, 0), off the grid.
   */
  lemma OffGridPlacingReachesCollisionTest()
    ensures IsBoard(RowBoard()) && IsBox(RowBoard(), Box(0, 4, 0, 0))
    ensures var p := ((5, 0), (5, 1));
      Considered(RowBoard(), p) && BoxTestPasses(Box(0, 4, 0, 0), p) &&
      CollidesAsWritten(RowBoard(), p).OffGrid?
  {
    RowBoardShape();
    RowBox(RowBoard());
    RowOffGrid(RowBoard());
  }

  /** The 5x5 rule as the game states it: the grown box spans fewer than 5 on each axis. */
  predicate FitsFiveByFive(box: Box, p: Placing)
  {
    var e := Extend(box, p);
    e.maxX - e.minX < 5 && e.maxY - e.minY < 5
  }

  /** The footprint fits in 5 columns and 5 rows. */
  predicate SpanFitsFive(b: Board, p: Placing)
    requires IsBoard(b)
  {
    forall a, c | a in Footprint(b, p) && c in Footprint(b, p) :: a.0 - c.0 < 5 && a.1 - c.1 < 5
  }

  /** The corrected box test keeps the kingdom within 5 columns and 5 rows. */
  lemma FiveByFiveIsSpan(b: Board, box: Box, p: Placing)
    requires IsBoard(b) && IsBox(b, box)
    ensures FitsFiveByFive(box, p) <==> SpanFitsFive(b, p)
  {
    GrownBoxHoldsFootprint(b, box, p);
    var left := LeftWitness(b, box, p);
    var right := RightWitness(b, box, p);
    var bottom := BottomWitness(b, box, p);
    var top := TopWitness(b, box, p);
    if SpanFitsFive(b, p) {
      assert right.0 - left.0 < 5;
      assert top.1 - bottom.1 < 5;
    }
  }

  /** A placing passing the corrected test lies on the grid, since the box holds the base. */
  lemma FiveByFiveStaysOnGrid(box: Box, p: Placing)
    requires box.minX <= 0 <= box.maxX && box.minY <= 0 <= box.maxY
    requires FitsFiveByFive(box, p)
    ensures InBounds(p.0) && InBounds(p.1)
  {
  }

  /** The placing left of the base is considered on the row board. */
  lemma RowLeftConsidered(b: Board)
    requires RowShape(b)
    ensures Considered(b, ((-1, 0), (-1, 1)))
  {
    RowReach(b);
    TouchingKingdomIsConsidered(b, ((-1, 0), (-1, 1)), Origin);
  }

  /** The placing left of the base passes the box test as written on the row board, spanning 6 columns. */
  lemma RowLeftFits(b: Board)
    requires RowShape(b)
    ensures var p := ((-1, 0), (-1, 1));
      BoxTestPasses(Box(0, 4, 0, 0), p) && SpanFits(b, p) &&
      (-1, 0) in Footprint(b, p) && (4, 0) in Footprint(b, p)
  {
    var p := ((-1, 0), (-1, 1));
    RowBox(b);
    assert Extend(Box(0, 4, 0, 0), p) == Box(-1, 4, 0, 1);
    BoxTestIsSpan(b, Box(0, 4, 0, 0), p);
  }

  /** The placing left of the base passes the filters on the row board: it has a match, the base. */
  lemma RowLeftAdmissible(b: Board, tile: Tile)
    requires RowShape(b)
    ensures Admissible(b, tile, ((-1, 0), (-1, 1)))
  {
    RowLeftFits(b);
    assert Origin in Adj((-1, 0));
  }

  /** A considered placing passing the filters is yielded. */
  lemma ValidOfParts(b: Board, tile: Tile, p: Placing)
    requires IsBoard(b) && Considered(b, p) && Admissible(b, tile, p)
    ensures IsValidPlacing(b, tile, p)
  {
  }

  /** The placing left of the base is valid on the row board, and its kingdom spans 6 columns. */
  lemma RowSixColumns(b: Board, tile: Tile)
    requires RowShape(b)
    ensures var p := ((-1, 0), (-1, 1));
      IsValidPlacing(b, tile, p) && BoxTestPasses(Box(0, 4, 0, 0), p) &&
      (-1, 0) in Footprint(b, p) && (4, 0) in Footprint(b, p)
  {
    RowLeftConsidered(b);
    RowLeftAdmissible(b, tile);
    ValidOfParts(b, tile, ((-1, 0), (-1, 1)));
    RowLeftFits(b);
  }

  /**
   * On the row board the placing left of the base is valid as written, although
   * its kingdom would span 6 columns, from -1 to 4.
   */
  lemma SixColumnKingdomPasses(tile: Tile)
    ensures IsBoard(RowBoard()) && IsBox(RowBoard(), Box(0, 4, 0, 0))
    ensures var p := ((-1, 0), (-1, 1));
      IsValidPlacing(RowBoard(), tile, p) && BoxTestPasses(Box(0, 4, 0, 0), p) &&
      Extend(Box(0, 4, 0, 0), p) == Box(-1, 4, 0, 1)
  {
    RowBoardShape();
    RowBox(RowBoard());
    RowSixColumns(RowBoard(), tile);
  }

  /** The corrected test rejects both placings above on the row board's box. */
  lemma FiveByFiveRejectsWideKingdoms()
    ensures !FitsFiveByFive(Box(0, 4, 0, 0), ((-1, 0), (-1, 1)))
    ensures !FitsFiveByFive(Box(0, 4, 0, 0), ((5, 0), (5, 1)))
  {
  }
}

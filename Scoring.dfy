/**
 * What `Player.score` computes: the cells in search order, cut into maximal
 * runs of one environment, each run worth its crowns times its length. Also
 * the region score the game intends, where every region is worth its crowns
 * times its size.
 */
module Scoring {
  import opened Domain
  import opened Paths
  import opened Traversal

  /** Total crowns of a sequence of cells. */
  function Crowns(cells: seq<Cell>): nat
  {
    if cells == [] then 0 else Crowns(cells[..|cells| - 1]) + cells[|cells| - 1].crowns
  }

  /** Length of the leading run: the longest prefix sharing the first cell's environment. */
  function LeadRun(cells: seq<Cell>): (k: nat)
    requires cells != []
    ensures 1 <= k <= |cells|
    ensures forall i | 0 <= i < k :: cells[i].environment == cells[0].environment
    ensures k == |cells| || cells[k].environment != cells[0].environment
    decreases |cells|
  {
    if |cells| == 1 || cells[1].environment != cells[0].environment then 1
    else 1 + LeadRun(cells[1..])
  }

  /** The sum, over the maximal runs of one environment, of the run's crowns times its length. */
  function RunValue(cells: seq<Cell>): nat
    decreases |cells|
  {
    if cells == [] then 0
    else
      var k := LeadRun(cells);
      Crowns(cells[..k]) * k + RunValue(cells[k..])
  }

  /** The cells of b at the coordinates of order. */
  function CellsAlong(b: Board, order: seq<Coord>): (cells: seq<Cell>)
    requires IsBoard(b) && forall c <- order :: InBounds(c)
    ensures |cells| == |order|
    ensures forall i | 0 <= i < |order| :: cells[i] == CellAt(b, order[i])
  {
    seq(|order|, i requires 0 <= i < |order| => CellAt(b, order[i]))
  }

  /** The score of a board as `Player.score` computes it. */
  function RunScore(b: Board): nat
    requires IsBoard(b)
  {
    RunValue(CellsAlong(b, SearchOrder(b)))
  }

  /** A prefix of one environment that ends where the environment changes is the leading run. */
  lemma LeadRunIs(cells: seq<Cell>, k: nat)
    requires 1 <= k <= |cells|
    requires forall i | 0 <= i < k :: cells[i].environment == cells[0].environment
    requires k == |cells| || cells[k].environment != cells[0].environment
    ensures LeadRun(cells) == k
  {
  }

  /**
   * Appending a run of one environment after cells whose last environment
   * differs adds that run's crowns times its length.
   */
  lemma {:induction false} RunValueAppendRun(a: seq<Cell>, run: seq<Cell>)
    requires run != []
    requires forall i | 0 <= i < |run| :: run[i].environment == run[0].environment
    requires a == [] || a[|a| - 1].environment != run[0].environment
    ensures RunValue(a + run) == RunValue(a) + Crowns(run) * |run|
    decreases |a|
  {
    if a == [] {
      assert a + run == run;
      LeadRunIs(run, |run|);
      assert run[..|run|] == run;
      assert run[|run|..] == [];
    } else {
      var k := LeadRun(a);
      var s := a + run;
      if k < |a| {
        LeadRunIs(s, k);
        assert s[..k] == a[..k];
        assert s[k..] == a[k..] + run;
        RunValueAppendRun(a[k..], run);
      } else {
        assert a[|a| - 1].environment == a[0].environment;
        LeadRunIs(s, |a|);
        assert s[..|a|] == a;
        assert s[|a|..] == run;
        assert a[..k] == a && a[k..] == [];
        RunValueAppendRun([], run);
        assert [] + run == run;
      }
    }
  }

  /**
   * Closing the run cells[start..k] of one environment, which follows a cell of
   * another environment, adds its crowns weighted by its length.
   */
  lemma RunValueCloseRun(cells: seq<Cell>, start: nat, k: nat)
    requires start < k <= |cells|
    requires forall i | start <= i < k :: cells[i].environment == cells[start].environment
    requires start == 0 || cells[start - 1].environment != cells[start].environment
    ensures RunValue(cells[..k]) == RunValue(cells[..start]) + Weighted(Crowns(cells[start..k]), k - start)
  {
    var a, run := cells[..start], cells[start..k];
    assert forall i | 0 <= i < |run| :: run[i] == cells[start + i];
    assert a == [] || a[|a| - 1] == cells[start - 1];
    RunValueAppendRun(a, run);
    SliceJoin(cells, start, k);
  }

  /**
   * The state of the score loop after the first k cells: the open run
   * cells[start..k] holds one environment env, which differs from the cell
   * before it; crowns and contiguous describe that run, and score holds the
   * value of the runs already closed.
   */
  predicate Tally(cells: seq<Cell>, k: nat, start: nat, env: Environment, crowns: nat, contiguous: nat, score: nat)
  {
    && start <= k <= |cells|
    && contiguous == k - start
    && crowns == Crowns(cells[start..k])
    && (forall i | start <= i < k :: cells[i].environment == env)
    && (start > 0 ==> start < k && cells[start - 1].environment != cells[start].environment)
    && score == RunValue(cells[..start])
  }

  /** The loop starts with no open run, no crowns and no score. */
  lemma TallyStart(cells: seq<Cell>)
    ensures Tally(cells, 0, 0, Empty, 0, 0, 0)
  {
    assert cells[0..0] == [] && cells[..0] == [];
  }

  /**
   * A step of the score loop at a cell of another environment: the open run
   * closes, adding its crowns times its length, and a new run opens.
   */
  lemma TallyOpen(cells: seq<Cell>, k: nat, start: nat, env: Environment, crowns: nat, contiguous: nat, score: nat)
    requires Tally(cells, k, start, env, crowns, contiguous, score) && k < |cells|
    requires cells[k].environment != env
    ensures Tally(cells, k + 1, k, cells[k].environment, cells[k].crowns, 1, score + Weighted(crowns, contiguous))
  {
    if start < k {
      RunValueCloseRun(cells, start, k);
    } else {
      assert cells[..start] == cells[..k];
    }
    assert cells[k..k + 1] == [] + [cells[k]];
    CrownsSnoc([], cells[k]);
  }

  /** A step of the score loop at a cell of the open run's environment: the run grows by it. */
  lemma TallyExtend(cells: seq<Cell>, k: nat, start: nat, env: Environment, crowns: nat, contiguous: nat, score: nat)
    requires Tally(cells, k, start, env, crowns, contiguous, score) && k < |cells|
    requires cells[k].environment == env
    ensures Tally(cells, k + 1, start, env, crowns + cells[k].crowns, contiguous + 1, score)
  {
    CrownsSnoc(cells[start..k], cells[k]);
    SliceSnoc(cells, start, k);
  }

  /** Closing the open run at the end gives the score of the whole sequence. */
  lemma TallyDone(cells: seq<Cell>, start: nat, env: Environment, crowns: nat, contiguous: nat, score: nat)
    requires Tally(cells, |cells|, start, env, crowns, contiguous, score)
    ensures score + Weighted(crowns, contiguous) == RunValue(cells)
  {
    if start < |cells| {
      RunValueCloseRun(cells, start, |cells|);
    } else {
      assert cells[start..|cells|] == [];
    }
    assert cells[..|cells|] == cells;
  }

  /** Crowns of a sequence grown by one cell. */
  lemma CrownsSnoc(cells: seq<Cell>, c: Cell)
    ensures Crowns(cells + [c]) == Crowns(cells) + c.crowns
  {
    assert (cells + [c])[..|cells|] == cells;
  }

  /**
   * A board whose only occupied cell is a crownless base at the origin scores 0:
   * the search visits the base alone.
   */
  lemma BaseOnlyScoresZero(b: Board)
    requires IsBoard(b) && CellAt(b, Origin) == Cell(Base, 0)
    requires NonEmptyCells(b) == {Origin}
    ensures RunScore(b) == 0
  {
    LoneBaseIsVisitedAlone(b);
    var cells := CellsAlong(b, SearchOrder(b));
    assert cells == [Cell(Base, 0)];
    LeadRunIs(cells, 1);
    assert cells[..1] == [Cell(Base, 0)];
    assert Crowns([Cell(Base, 0)]) == Crowns([]) + 0;
  }

  /** A newly created grid scores 0. */
  lemma FreshBoardScoresZero()
    ensures RunScore(FreshBoard()) == 0
  {
    FreshBoardHoldsBaseAlone();
    BaseOnlyScoresZero(FreshBoard());
  }

  /**
   * The base forms a run of its own, worth nothing: when the origin is the only
   * Base cell and carries no crowns, the score is that of the cells visited after it.
   */
  lemma BaseRunStandsAlone(b: Board)
    requires IsBoard(b) && CellAt(b, Origin) == Cell(Base, 0)
    requires EnvCells(b, Base) == {Origin}
    ensures RunScore(b) == RunValue(CellsAlong(b, SearchOrder(b)[1..]))
  {
    var order := SearchOrder(b);
    SearchVisitsConnectedOccupiedCells(b);
    var cells := CellsAlong(b, order);
    if |order| > 1 {
      assert order[1] != Origin;
      assert order[1] !in EnvCells(b, Base);
    }
    LeadRunIs(cells, 1);
    assert cells[..1] == [Cell(Base, 0)];
    assert Crowns([Cell(Base, 0)]) == Crowns([]) + 0;
    assert cells[1..] == CellsAlong(b, order[1..]);
  }

  /** Crowns weighted by a region size. */
  function Weighted(crowns: nat, size: nat): nat
  {
    crowns * size
  }

  /** The score the game intends: every visited cell's crowns times the size of its whole region. */
  function RegionValue(b: Board, order: seq<Coord>): nat
    requires IsBoard(b) && forall c <- order :: InBounds(c)
  {
    if order == [] then 0
    else
      var c := order[|order| - 1];
      RegionValue(b, order[..|order| - 1]) + Weighted(CellAt(b, c).crowns, |RegionOf(b, c)|)
  }

  function RegionScore(b: Board): nat
    requires IsBoard(b)
  {
    RegionValue(b, SearchOrder(b))
  }

  /** The intended value stated by connectivity alone: crowns times the number of cells of the region. */
  ghost function RegionSum(b: Board, order: seq<Coord>): nat
    requires IsBoard(b) && forall c <- order :: InBounds(c)
  {
    if order == [] then 0
    else
      var c := order[|order| - 1];
      RegionSum(b, order[..|order| - 1]) + Weighted(CellAt(b, c).crowns, |Region(b, c)|)
  }

  /**
   * The corrected score credits every cell's crowns once per cell of its
   * maximal region, whatever order the search visits the regions in.
   */
  lemma {:induction false} RegionScoreCountsWholeRegions(b: Board, order: seq<Coord>)
    requires IsBoard(b) && forall c <- order :: InBounds(c)
    ensures RegionValue(b, order) == RegionSum(b, order)
  {
    if order != [] {
      var c := order[|order| - 1];
      RegionOfIsRegion(b, c);
      RegionScoreCountsWholeRegions(b, order[..|order| - 1]);
    }
  }
}

# Kingdomino player grid — a Dafny model

This project models the rules engine of a Kingdomino player (`kingdomino.py`).

Each player owns a 10x10 grid of cells. The base sits at the origin, and coordinates run from -4 to 4 on each axis. Every cell holds an environment (Empty, Ocean, Forest, Pasture, Swamp, Oil or Base) and a number of crowns. A tile (a domino) carries a number and two cells. The player can:

- look up a cell (`at`);
- list the neighbours of a coordinate (`adj`);
- walk the occupied cells connected to the base (`search`);
- score the grid (`score`);
- list the 24 domino positions around a cell (`tile_adj`);
- list the placings of a tile that obey the rules (`valid_placings`).

The model has two layers:

- **Values.** Modules `Domain`, `Neighbours`, `Paths`, `Traversal`, `Scoring` and `Placement` define the environments, cells, tiles and coordinates, plus a value view of the grid (`Board`, a sequence of columns). On that view, functions say what every operation computes. Lemmas prove what those functions mean:
  - the search visits exactly the occupied cells connected to the base, each once;
  - the score loop computes the sum over runs of one environment;
  - a placing is yielded exactly when it is a legal move;
  - ...and more, listed in the table below.
- **The player.** Module `Kingdomino` holds `class Player`. It keeps the grid in place in an `array2<Cell>` and runs the source's loops. Each method is proved against the value-level function, taken over a snapshot of the grid.

The search is a flood fill from the base. It is written once (`Traversal.Traverse`) for any set of cells it may enter:

- with the occupied cells, it is the search;
- with the cells of one environment, it collects a region. The corrected scorer uses this.

`search` as written cannot run past the base whenever the base has an occupied neighbour (see Findings). The model's search therefore carries the two evident intentions of that code:

- the visited set starts with the coordinate (0, 0);
- a new cell is pushed onto the queue, at the front when it shares the current cell's environment and at the back otherwise.

Two further defects surface only once those corrections are applied, because `search` as written raises before they are reached:

- with the corrected search, `valid_placings` calls `at` on cells off the grid, so the model adds a range filter before the collision test;
- the corrected search does not keep a region of one environment together, so `score` can cut a region into two runs.

See Findings for both.

## Model

| member | source | states |
|---|---|---|
| Domain.FreshBoardHoldsBaseAlone | kingdomino.py:50-53 | A new grid holds a crownless Base at the origin and no other occupied cell |
| Kingdomino.Player.constructor | kingdomino.py:50-53 | The new grid is 10x10, every cell Empty with no crowns, except the Base at (0, 0) |
| Kingdomino.Player.At | kingdomino.py:55-72 | For coordinates in [-4, 4], the cell returned is the grid's cell at (x, y), stored at [x+5][y+5]; the assertions become the precondition |
| Neighbours.Adj | kingdomino.py:74-91 | At most four neighbours; for a cell of the grid, n is listed exactly when n is on the grid and orthogonally adjacent |
| Neighbours.AdjInterior | kingdomino.py:80-91 | Away from the edge the neighbours come in the order lower, left, right, upper |
| Neighbours.AdjHasFour | kingdomino.py:80-91 | A grid cell has four neighbours exactly when it is not on the edge |
| Neighbours.TileAdj | kingdomino.py:135-170 | 24 placings are generated around a cell |
| Neighbours.TileAdjIsTouching | kingdomino.py:135-170 | The 24 placings are pairwise distinct; they are exactly the dominoes touching loc and not covering it; each comes with its flip |
| Neighbours.TileAdjTouches | kingdomino.py:144-170 | Every generated placing is two adjacent cells, one next to loc, and its flip is generated too |
| Neighbours.TileAdjDistinct | kingdomino.py:144-170 | No placing is generated twice around one cell |
| Neighbours.TouchingIsInTileAdj | kingdomino.py:137-141 | Every domino touching loc on an empty grid is generated |
| Neighbours.PlacingsRightOfOrigin | kingdomino.py:176-178 | The domino right of the base is generated in both orientations, ((1, 0), (2, 0)) and ((2, 0), (1, 0)) |
| Kingdomino.Player.QueueNeighbours | kingdomino.py:105-113 | The inner loop of the search yields the queue and visited set that `Traversal.Expand` defines |
| Kingdomino.Player.Search | kingdomino.py:93-113 | The cells yielded are `Traversal.SearchOrder` of the grid |
| Traversal.SearchVisitsConnectedOccupiedCells | kingdomino.py:93-113 | The search yields every occupied cell connected to the base, each exactly once, and no Empty cell |
| Traversal.FillYieldsReach | kingdomino.py:99-113 | A fill from a cell of S yields each cell it reaches within S once, and nothing else |
| Traversal.TraverseDistinct | kingdomino.py:99-113 | The fill never yields a cell twice, and yields only queued cells or new cells of S |
| Traversal.TraverseCloses | kingdomino.py:102-113 | The cells the fill finishes form a set closed under adjacency within S, all connected to the start |
| Traversal.PendingStep | kingdomino.py:102-113 | One round of the search loop (pop, yield, expand) keeps the loop's state consistent with the whole search |
| Traversal.ExpandFrontsKin | kingdomino.py:105-113 | After expanding loc, the queue's front holds loc's environment whenever a new neighbour of that environment was queued |
| Traversal.KinIsVisitedNext | kingdomino.py:109-113 | A cell with an unseen neighbour of its own environment is followed at once by a cell of that environment |
| Traversal.LoneBaseIsVisitedAlone | kingdomino.py:99-113 | With the base as the only occupied cell, the search yields exactly [(0, 0)] |
| Traversal.RegionOfIsRegion | kingdomino.py:94-97 | The same-environment fill from c collects exactly the cells of c's environment connected to c |
| Kingdomino.Player.ScoreAlong | kingdomino.py:119-133 | The loop's score is the sum over maximal runs of one environment of crowns times length (`Scoring.RunValue`) |
| Kingdomino.Player.Score | kingdomino.py:115-133 | The score is `Scoring.RunScore` of the grid: run values over the cells in search order |
| Scoring.TallyOpen | kingdomino.py:125-131 | A change of environment closes the open run, adding its crowns times its length, and opens a new run |
| Scoring.TallyExtend | kingdomino.py:130-131 | A cell of the open run's environment adds its crowns to the run and lengthens it by one |
| Scoring.TallyDone | kingdomino.py:132-133 | Closing the last run gives the run value of the whole sequence |
| Scoring.RunValueAppendRun | kingdomino.py:123-132 | Appending a run of one new environment adds that run's crowns times its length |
| Scoring.BaseOnlyScoresZero | kingdomino.py:115-133 | A grid whose only occupied cell is a crownless base scores 0 |
| Scoring.FreshBoardScoresZero | kingdomino.py:50-53 | A new player's grid scores 0 |
| Scoring.BaseRunStandsAlone | kingdomino.py:123-131 | With a single crownless Base cell, the score is that of the cells after it in search order |
| Scoring.RegionScoreCountsWholeRegions | kingdomino.py:94-97 | The corrected score credits each visited cell's crowns times the size of its whole connected region |
| Kingdomino.Player.BoundingBox | kingdomino.py:181-192 | The box found by the row-by-row scan is the least box holding the origin and every occupied cell |
| Kingdomino.Player.ScanRow | kingdomino.py:187-192 | One row of the scan grows the box to cover that row's occupied cells |
| Placement.ScannedAll | kingdomino.py:186-192 | After the last row, the scanned cells are exactly the occupied cells |
| Placement.GrowBounds | kingdomino.py:188-192 | Growing the least box by an occupied cell gives the least box of the larger set |
| Placement.BoxTestIsSpan | kingdomino.py:202-208 | The min/max box test passes exactly when no two cells of the new kingdom (occupied cells, origin, both placed cells) lie more than 5 apart on an axis |
| Kingdomino.Player.AnyAccepts | kingdomino.py:215-219 | Stopping at the first neighbour that is the Base or holds e, it answers whether such a neighbour exists |
| Kingdomino.Player.HasMatchAt | kingdomino.py:212-219 | The match flag is set exactly when a neighbour of either placed cell is the Base or holds that tile cell's environment |
| Kingdomino.Player.PassesFilters | kingdomino.py:202-219 | A placing passes exactly when it satisfies `Placement.Admissible`: the source's `> 5` box test, on the grid, both cells Empty, and a match |
| Kingdomino.Player.ConsiderPlacing | kingdomino.py:197-221 | A new placing is recorded and kept when it passes the filters; one seen before changes nothing |
| Kingdomino.Player.ConsiderAll | kingdomino.py:197-221 | The loop over the placings around one cell extends the seen set and the result by `Placement.Sieve` |
| Kingdomino.Player.PlacingsAlong | kingdomino.py:196-221 | The loop over the searched cells yields the sieve of every placing generated around them, in generation order |
| Kingdomino.Player.ValidPlacings | kingdomino.py:172-221 | The placings yielded are `Placement.ValidPlacingsOf` of the grid |
| Placement.CandidatesTouch | kingdomino.py:196-197 | A placing is generated exactly when it touches one of the searched cells |
| Placement.SieveSelects | kingdomino.py:198-221 | The sieve yields each admissible candidate exactly once, and nothing else |
| Placement.SieveKeepsAdmissible | kingdomino.py:198-221 | Distinct candidates that are all admissible are all yielded, in order |
| Placement.ValidPlacingsAreValid | kingdomino.py:172-221 | valid_placings yields no placing twice, and a placing exactly when it is considered and admissible |
| Placement.ConsideredTouchesKingdom | kingdomino.py:196-197 | A considered placing is a domino touching an occupied cell connected to the base |
| Placement.TouchingKingdomIsConsidered | kingdomino.py:196-197 | A domino on two Empty cells touching a cell connected to the base is considered |
| Placement.ValidPlacingIsLegalMove | kingdomino.py:172-221 | With the base occupied, a placing is yielded exactly when it is a legal move: a domino on the grid, on Empty cells, touching the kingdom, within the source's `> 5` box test, with a match |
| Placement.FreshBoardAdmitsAround | kingdomino.py:202-221 | On a new grid every placing around the base passes every filter, whatever the tile |
| Placement.FreshBoardPlacings | kingdomino.py:176-178 | On a new grid valid_placings yields the 24 placings around the base in generation order, among them ((1, 0), (2, 0)) and ((2, 0), (1, 0)) |
| Findings.QueueAsWrittenRaises | kingdomino.py:105-113 | The inner loop as written raises exactly when the base has an occupied neighbour |
| Findings.SearchAsWrittenCompletesOnlyAlone | kingdomino.py:99-113 | search as written completes exactly when no neighbour of the base is occupied, and then agrees with the corrected search |
| Findings.SearchAsWrittenRaisesOnMergeBoard | kingdomino.py:111 | With Ocean cells left and right of the base, search as written raises after the base; the corrected one yields three cells |
| Findings.ScoreMergesSeparateRegions | kingdomino.py:123-133 | Two one-cell Ocean regions on either side of the base are scored as one run, 2 points, where region scoring gives 1 |
| Findings.CollidesAsWrittenOnGrid | kingdomino.py:210 | The collision test as written reaches a cell off the grid exactly when the first cell is off, or is Empty while the second is off; on the grid it answers "some cell occupied" |
| Findings.OffGridPlacingReachesCollisionTest | kingdomino.py:203-210 | On a kingdom reaching x = 4, the placing ((5, 0), (5, 1)) is generated, passes the box test, and makes the collision test call `at` off the grid |
| Findings.SixColumnKingdomPasses | kingdomino.py:202-208 | On the same kingdom, the placing ((-1, 0), (-1, 1)) is valid although the kingdom would then span columns -1 to 4, six columns |
| Findings.SearchSplitsRegion | kingdomino.py:94-113 | With the corrected search, a board of three connected Ocean cells is visited with the Forest cell between them; `score` then counts the crowned region as 2 where its crowns times its size is 3 |
| Findings.FiveByFiveIsSpan | kingdomino.py:202-207 | The corrected test passes exactly when the new kingdom fits in 5 columns and 5 rows |
| Findings.FiveByFiveStaysOnGrid | kingdomino.py:202-210 | A placing passing the corrected test lies on the grid, so `at` never fails there |
| Findings.FiveByFiveRejectsWideKingdoms | kingdomino.py:202-207 | The corrected test rejects both placings shown above |

## Left out

- The `game` field and the game loop, rendering and entry point (`main.py`, `render.py`, `__main__`) are not part of this model. The same goes for `__repr__`, which only formats text.
- The integer codes of `Environment` (0 to 5 and 100) are not modelled. Only equality between environments is ever used.
- Generators are modelled as whole sequences in yield order. Laziness, and a consumer stopping early, are not captured.
- `At` returns the cell as a value. The source returns the mutable cell object itself, and the constructor writes the base through it. That aliasing is modelled only as the constructor's resulting grid.
- `Tile.cells` is modelled as the two fields `first` and `second`. A tile with another number of cells is not represented.
- Crowns are modelled as natural numbers. Negative crowns are not represented.
- Kingdomino.Player.At models only the two-argument form `at(x, y)`. The source also accepts one coordinate tuple, as in `self.at(c)`; the model passes its two components instead.
- Kingdomino.Player.At: the assertions on x and y are modelled as a precondition. An assertion failure is not a modelled outcome, except in `Findings.CollidesAsWritten`, which shows where the source reaches one.
- Traversal.SearchOrder (and everything built on it) models search with the two corrections above. search as written is modelled only in `Findings.SearchAsWritten`.
- Traversal.KinIsVisitedNext: the claim that the search visits each contiguous region of one environment before the next is proved only in this local form: a cell with an unseen neighbour of its own environment is followed by a cell of that environment. The whole-region form does not hold, even for the corrected algorithm; `Findings.SearchSplitsRegion` shows a board where it fails (see Findings).
- Placement.BoxTestPasses follows the code's `> 5` test. The 5x5 rule is stated separately in `Findings.FitsFiveByFive`, which `Kingdomino.Player` does not use (see Findings).
- Kingdomino.Player.Score follows the code's run-based score. The region score, `Scoring.RegionScore`, is proved beside it and is not what the player method computes (see Findings).

## Findings

| source | as written | input that shows it | evidently intended | confidence | as-written member | corrected member |
|---|---|---|---|---|---|---|
| kingdomino.py:100-113 | `hist = set(q[0])` builds the set {0}, not {(0, 0)}. Queuing calls `insert`/`append` on the coordinate tuple `loc` rather than on `q`, which raises on the first occupied neighbour of the base | Base at (0, 0), Ocean (1 crown) at (-1, 0), Ocean at (1, 0) | visited set seeded with (0, 0); new cells put at the front or back of `q` | high (not executed) | Findings.SearchAsWritten, Findings.SearchAsWrittenRaisesOnMergeBoard | Traversal.SearchOrder, Traversal.SearchVisitsConnectedOccupiedCells |
| kingdomino.py:123-133 | once row 1 is corrected: the score cuts the search order into runs of one environment, so two separate regions of one environment visited one after the other are scored as one | the same board: both Ocean cells follow the base, so they form one run, scored 1 crown x 2 cells = 2 | each region scored on its own (crowns x region size), here 1 x 1 + 0 x 1 = 1 | medium (not executed) | Scoring.RunScore, Findings.ScoreMergesSeparateRegions | Scoring.RegionScore, Scoring.RegionScoreCountsWholeRegions |
| kingdomino.py:94-113 | once row 1 is corrected: the search puts a same-environment neighbour at the front of the queue, but a cell queued earlier at the back can still be of that environment, so a region is not visited before the next environment as the documentation promises; `score` then cuts the region into two runs | Base at (0, 0); Ocean (1 crown) at (0, -1), Ocean at (1, -1) and (1, 0); Forest at (-1, 0). The order is (0, 0), (0, -1), (1, -1), (-1, 0), (1, 0), and the run score is 2 | each region visited as a whole, so its run is crowns x region size, here 1 x 3 = 3 | medium (not executed) | Traversal.SearchOrder, Findings.SearchSplitsRegion | Scoring.RegionScore, Scoring.RegionScoreCountsWholeRegions |
| kingdomino.py:203-210 | once row 1 is corrected: no range check before `at` in the collision test, so a placing one step past the grid that passes the box test makes `at` fail its assertion. As written the search yields only the base, whose placings all lie on the grid | Base at (0, 0), Ocean at (1, 0) to (4, 0); placing ((5, 0), (5, 1)) | placings off the grid are skipped | medium (not executed) | Findings.CollidesAsWritten, Findings.OffGridPlacingReachesCollisionTest | Kingdomino.Player.PassesFilters, Placement.Admissible |
| kingdomino.py:207 | `> 5` accepts a kingdom spanning 6 columns or rows | the same row board; placing ((-1, 0), (-1, 1)) is valid, and the kingdom then spans x = -1 to 4 | `>= 5`: the kingdom stays within 5x5 and therefore on the grid | medium (not executed) | Placement.BoxTestPasses, Findings.SixColumnKingdomPasses | Findings.FitsFiveByFive, Findings.FiveByFiveIsSpan, Findings.FiveByFiveStaysOnGrid |

The player methods keep the code's behaviour for rows 2, 3 and 5: the run-based score over the search order, and the `> 5` test. The corrected definitions are proved beside them. For rows 1 and 4, the methods use the corrected behaviour, since the code as written fails there.

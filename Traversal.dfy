/**
 * The flood fill behind `Player.search`, as a function of the board, and what
 * it visits. The fill is written once for an arbitrary set S of cells it may
 * enter: with S the occupied cells it is the search from the base; with S the
 * cells of one environment it collects one region.
 */
module Traversal {
  import opened Domain
  import opened Neighbours
  import opened Paths

  predicate OnGrid(s: set<Coord>)
  {
    forall c | c in s :: InBounds(c)
  }

  /**
   * The inner loop of the search for the cell loc: the neighbours ns are taken
   * in order; one already seen or outside S is skipped; any other is marked
   * seen and queued at the front when its environment is loc's, at the back
   * otherwise.
   */
  function Expand(b: Board, S: set<Coord>, loc: Coord, ns: seq<Coord>, q: seq<Coord>, seen: set<Coord>)
    : (r: (seq<Coord>, set<Coord>))
    requires IsBoard(b) && InBounds(loc) && forall n <- ns :: InBounds(n)
    ensures r.1 == seen + (set n | n in ns && n in S)
    ensures forall c :: c in r.0 <==> c in q || c in r.1 - seen
    ensures NoDuplicates(q) && (forall c <- q :: c in seen) ==> NoDuplicates(r.0)
    ensures r.1 == seen ==> r.0 == q
    decreases |ns|
  {
    if ns == [] then (q, seen)
    else
      var c := ns[0];
      if c in seen || c !in S then Expand(b, S, loc, ns[1..], q, seen)
      else if Env(b, c) == Env(b, loc) then Expand(b, S, loc, ns[1..], [c] + q, seen + {c})
      else Expand(b, S, loc, ns[1..], q + [c], seen + {c})
  }

  /**
   * The outer loop of the search: pop the front of the queue, yield it and
   * expand its neighbours, until the queue is empty.
   */
  function Traverse(b: Board, S: set<Coord>, q: seq<Coord>, seen: set<Coord>): (order: seq<Coord>)
    requires IsBoard(b) && OnGrid(S) && OnGrid(seen) && forall c <- q :: InBounds(c)
    ensures forall c <- order :: InBounds(c)
    decreases AllCoords() - seen, |q|
  {
    if q == [] then []
    else
      var loc := q[0];
      var r := Expand(b, S, loc, Adj(loc), q[1..], seen);
      assert r.1 != seen ==> exists c :: c in r.1 - seen && c in AllCoords();
      [loc] + Traverse(b, S, r.0, r.1)
  }

  /** The order in which `search` visits a board: a fill of the occupied cells from the base. */
  function SearchOrder(b: Board): (order: seq<Coord>)
    requires IsBoard(b)
    ensures |order| >= 1 && order[0] == Origin
    ensures forall c <- order :: InBounds(c)
  {
    Traverse(b, NonEmptyCells(b), [Origin], {Origin})
  }

  /** The cells the fill of c's environment collects from c. */
  function RegionOf(b: Board, c: Coord): (r: set<Coord>)
    requires IsBoard(b) && InBounds(c)
    ensures c in r
  {
    Elems(Traverse(b, EnvCells(b, Env(b, c)), [c], {c}))
  }

  /** The region of c: the cells of c's environment that c reaches by orthogonal steps within it. */
  ghost function Region(b: Board, c: Coord): set<Coord>
    requires IsBoard(b) && InBounds(c)
  {
    Reach(EnvCells(b, Env(b, c)), c)
  }

  /** One round of the fill either enters a new cell of the grid or shortens the queue. */
  lemma ExpandProgress(b: Board, S: set<Coord>, q: seq<Coord>, seen: set<Coord>)
    requires IsBoard(b) && OnGrid(S) && OnGrid(seen) && forall c <- q :: InBounds(c)
    requires q != []
    ensures var r := Expand(b, S, q[0], Adj(q[0]), q[1..], seen);
      r.1 == seen || AllCoords() - r.1 < AllCoords() - seen
  {
    var r := Expand(b, S, q[0], Adj(q[0]), q[1..], seen);
    if r.1 != seen {
      assert !(r.1 <= seen);
      var c :| c in r.1 && c !in seen;
      assert c in S;
      assert c in AllCoords() - seen && c !in AllCoords() - r.1;
    }
  }

  /** How many cells of the grid are not yet seen. */
  function Unseen(seen: set<Coord>): nat
  {
    |AllCoords() - seen|
  }

  /** One round of the fill either sees a new cell of the grid, leaving fewer unseen, or shortens the queue. */
  lemma ExpandCounts(b: Board, S: set<Coord>, q: seq<Coord>, seen: set<Coord>)
    requires IsBoard(b) && OnGrid(S) && OnGrid(seen) && forall c <- q :: InBounds(c)
    requires q != []
    ensures var r := Expand(b, S, q[0], Adj(q[0]), q[1..], seen);
      (r.1 == seen && |r.0| < |q|) || Unseen(r.1) < Unseen(seen)
  {
    ExpandProgress(b, S, q, seen);
    var r := Expand(b, S, q[0], Adj(q[0]), q[1..], seen);
    if r.1 != seen {
      var before, after := AllCoords() - seen, AllCoords() - r.1;
      assert after < before;
      assert before == after + (before - after);
      assert before - after != {};
    }
  }

  /**
   * After one round the cells that are seen but no longer queued are the
   * former ones plus the cell just yielded.
   */
  lemma ExpandRetires(b: Board, S: set<Coord>, q: seq<Coord>, seen: set<Coord>)
    requires IsBoard(b) && forall c <- q :: InBounds(c)
    requires q != [] && NoDuplicates(q) && forall c <- q :: c in seen
    ensures var r := Expand(b, S, q[0], Adj(q[0]), q[1..], seen);
      r.1 - Elems(r.0) == (seen - Elems(q)) + {q[0]}
  {
    var r := Expand(b, S, q[0], Adj(q[0]), q[1..], seen);
    assert forall k | 0 <= k < |q[1..]| :: q[1..][k] == q[k + 1];
    assert q[0] !in q[1..];
    assert forall c :: c in q <==> c == q[0] || c in q[1..];
  }

  /** One round of the fill, unfolded. */
  lemma TraverseUnfold(b: Board, S: set<Coord>, q: seq<Coord>, seen: set<Coord>)
    requires IsBoard(b) && OnGrid(S) && OnGrid(seen) && forall c <- q :: InBounds(c)
    requires q != []
    ensures var r := Expand(b, S, q[0], Adj(q[0]), q[1..], seen);
      Traverse(b, S, q, seen) == [q[0]] + Traverse(b, S, r.0, r.1)
  {
  }

  /**
   * After one round, the queue starts with a cell of loc's environment when a
   * neighbour of that environment was newly entered, or when it did so before.
   */
  lemma {:induction false} ExpandFrontsKin(b: Board, S: set<Coord>, loc: Coord, ns: seq<Coord>, q: seq<Coord>, seen: set<Coord>)
    requires IsBoard(b) && InBounds(loc) && (forall n <- ns :: InBounds(n)) && forall c <- q :: InBounds(c)
    requires (exists n <- ns :: n in S && n !in seen && Env(b, n) == Env(b, loc)) || (q != [] && Env(b, q[0]) == Env(b, loc))
    ensures var r := Expand(b, S, loc, ns, q, seen);
      r.0 != [] && InBounds(r.0[0]) && Env(b, r.0[0]) == Env(b, loc)
    decreases |ns|
  {
    if ns != [] {
      var c := ns[0];
      assert forall n <- ns[1..] :: n in ns;
      if c in seen || c !in S {
        ExpandFrontsKin(b, S, loc, ns[1..], q, seen);
      } else if Env(b, c) == Env(b, loc) {
        ExpandFrontsKin(b, S, loc, ns[1..], [c] + q, seen + {c});
      } else {
        if q != [] && Env(b, q[0]) == Env(b, loc) {
          assert (q + [c])[0] == q[0];
        } else {
          var n :| n in ns && n in S && n !in seen && Env(b, n) == Env(b, loc);
          assert n in ns[1..] && n !in seen + {c};
        }
        ExpandFrontsKin(b, S, loc, ns[1..], q + [c], seen + {c});
      }
    }
  }

  /**
   * A cell with a neighbour of its own environment in S that is not yet seen
   * is followed at once by a cell of that environment: the fill finishes the
   * local run before turning to the back of the queue.
   */
  lemma KinIsVisitedNext(b: Board, S: set<Coord>, q: seq<Coord>, seen: set<Coord>)
    requires IsBoard(b) && OnGrid(S) && OnGrid(seen) && forall c <- q :: InBounds(c)
    requires q != [] && exists n <- Adj(q[0]) :: n in S && n !in seen && Env(b, n) == Env(b, q[0])
    ensures var order := Traverse(b, S, q, seen);
      |order| >= 2 && order[0] == q[0] && Env(b, order[1]) == Env(b, q[0])
  {
    var r := Expand(b, S, q[0], Adj(q[0]), q[1..], seen);
    ExpandFrontsKin(b, S, q[0], Adj(q[0]), q[1..], seen);
    ExpandOnGrid(b, S, q, seen);
    TraverseUnfold(b, S, q, seen);
    TraverseUnfold(b, S, r.0, r.1);
  }

  lemma NoDuplicatesCons(x: Coord, s: seq<Coord>)
    requires x !in s && NoDuplicates(s)
    ensures NoDuplicates([x] + s)
  {
    var t := [x] + s;
    forall i, j | 0 <= i < j < |t|
      ensures t[i] != t[j]
    {
      assert t[j] == s[j - 1];
      if i > 0 {
        assert t[i] == s[i - 1];
      }
    }
  }

  lemma ElemsCons(x: Coord, s: seq<Coord>)
    ensures Elems([x] + s) == {x} + Elems(s)
  {
  }

  lemma RetiredUnion(before: set<Coord>, after: set<Coord>, x: Coord, rest: set<Coord>)
    requires after == before + {x}
    ensures before + ({x} + rest) == after + rest
  {
  }

  /** The fill never yields a cell twice, and yields only queued or newly entered cells of S. */
  lemma {:induction false} TraverseDistinct(b: Board, S: set<Coord>, q: seq<Coord>, seen: set<Coord>)
    requires IsBoard(b) && OnGrid(S) && OnGrid(seen) && forall c <- q :: InBounds(c)
    requires NoDuplicates(q) && forall c <- q :: c in seen
    ensures NoDuplicates(Traverse(b, S, q, seen))
    ensures forall c <- Traverse(b, S, q, seen) :: c in q || c in S - seen
    decreases AllCoords() - seen, |q|
  {
    if q != [] {
      var loc := q[0];
      var r := Expand(b, S, loc, Adj(loc), q[1..], seen);
      ExpandProgress(b, S, q, seen);
      ExpandRetires(b, S, q, seen);
      TraverseDistinct(b, S, r.0, r.1);
      TraverseUnfold(b, S, q, seen);
      var rest := Traverse(b, S, r.0, r.1);
      assert loc in r.1 - Elems(r.0);
      NoDuplicatesCons(loc, rest);
      assert r.1 - seen <= S;
      forall c | c in rest
        ensures c in q || c in S - seen
      {
        if c in r.0 {
          if c in q[1..] {
            assert c in q;
          }
        }
      }
    }
  }

  /** Cells entered in one round are connected to a through the cell just yielded. */
  lemma ExpandConnects(b: Board, S: set<Coord>, a: Coord, q: seq<Coord>, seen: set<Coord>)
    requires IsBoard(b) && forall c <- q :: InBounds(c)
    requires q != [] && q[0] in seen
    requires forall c | c in seen :: Connected(S, a, c)
    ensures forall c | c in Expand(b, S, q[0], Adj(q[0]), q[1..], seen).1 :: Connected(S, a, c)
  {
    var r := Expand(b, S, q[0], Adj(q[0]), q[1..], seen);
    forall c | c in r.1
      ensures Connected(S, a, c)
    {
      if c !in seen {
        ConnectedStep(S, a, q[0], c);
      }
    }
  }

  /** Every cell done after one round has all its neighbours in S seen. */
  lemma ExpandKeepsClosed(b: Board, S: set<Coord>, q: seq<Coord>, seen: set<Coord>)
    requires IsBoard(b) && OnGrid(S) && forall c <- q :: InBounds(c)
    requires q != [] && NoDuplicates(q) && forall c <- q :: c in seen
    requires forall v, n | v in seen && v !in q && n in S && Adjacent(v, n) :: n in seen
    ensures var r := Expand(b, S, q[0], Adj(q[0]), q[1..], seen);
      forall v, n | v in r.1 && v !in r.0 && n in S && Adjacent(v, n) :: n in r.1
  {
    var r := Expand(b, S, q[0], Adj(q[0]), q[1..], seen);
    ExpandRetires(b, S, q, seen);
    forall v, n | v in r.1 && v !in r.0 && n in S && Adjacent(v, n)
      ensures n in r.1
    {
      assert v in r.1 - Elems(r.0);
      if v != q[0] {
        assert v in seen && v !in q;
      } else {
        assert n in Adj(q[0]);
      }
    }
  }

  /**
   * The cells done before the fill resumes, together with those it yields,
   * form a closed set of cells connected to a: nothing reachable is missed.
   */
  lemma {:induction false} TraverseCloses(b: Board, S: set<Coord>, a: Coord, q: seq<Coord>, seen: set<Coord>)
    requires IsBoard(b) && OnGrid(S) && OnGrid(seen) && forall c <- q :: InBounds(c)
    requires NoDuplicates(q) && (forall c <- q :: c in seen) && seen <= S
    requires forall c | c in seen :: Connected(S, a, c)
    requires forall v, n | v in seen && v !in q && n in S && Adjacent(v, n) :: n in seen
    ensures var done := (seen - Elems(q)) + Elems(Traverse(b, S, q, seen));
      && seen <= done && done <= S && ClosedIn(S, done)
      && forall c | c in done :: Connected(S, a, c)
    decreases AllCoords() - seen, |q|
  {
    if q != [] {
      var loc := q[0];
      var r := Expand(b, S, loc, Adj(loc), q[1..], seen);
      ExpandProgress(b, S, q, seen);
      ExpandConnects(b, S, a, q, seen);
      ExpandKeepsClosed(b, S, q, seen);
      ExpandRetires(b, S, q, seen);
      TraverseCloses(b, S, a, r.0, r.1);
      TraverseUnfold(b, S, q, seen);
      var rest := Traverse(b, S, r.0, r.1);
      ElemsCons(loc, rest);
      RetiredUnion(seen - Elems(q), r.1 - Elems(r.0), loc, Elems(rest));
    }
  }

  /** A fill of S started from a cell of S yields every cell a reaches within S, each once, and nothing else. */
  lemma FillYieldsReach(b: Board, S: set<Coord>, a: Coord)
    requires IsBoard(b) && OnGrid(S) && a in S
    ensures NoDuplicates(Traverse(b, S, [a], {a}))
    ensures Elems(Traverse(b, S, [a], {a})) == Reach(S, a)
  {
    TraverseDistinct(b, S, [a], {a});
    ConnectedToItself(S, a);
    TraverseCloses(b, S, a, [a], {a});
    var order := Traverse(b, S, [a], {a});
    assert ({a} - Elems([a])) + Elems(order) == Elems(order);
    ReachIsClosedConnectedSet(S, Elems(order), a);
  }

  /**
   * With the base cell occupied, the search visits exactly the occupied cells
   * connected to the base, each once, starting with the base.
   */
  lemma SearchVisitsConnectedOccupiedCells(b: Board)
    requires IsBoard(b) && Env(b, Origin) != Empty
    ensures NoDuplicates(SearchOrder(b))
    ensures Elems(SearchOrder(b)) == Reach(NonEmptyCells(b), Origin)
    ensures forall c <- SearchOrder(b) :: Env(b, c) != Empty
  {
    FillYieldsReach(b, NonEmptyCells(b), Origin);
  }

  /** The fill of an environment from c collects exactly c's region. */
  lemma RegionOfIsRegion(b: Board, c: Coord)
    requires IsBoard(b) && InBounds(c)
    ensures RegionOf(b, c) == Region(b, c)
  {
    FillYieldsReach(b, EnvCells(b, Env(b, c)), c);
  }

  /**
   * The state of the search loop: order has been yielded, and the rest of the
   * fill from queue q with the cells seen so far completes goal.
   */
  predicate Pending(b: Board, order: seq<Coord>, q: seq<Coord>, seen: set<Coord>, goal: seq<Coord>)
  {
    && IsBoard(b) && OnGrid(seen) && (forall c <- q :: InBounds(c))
    && order + Traverse(b, NonEmptyCells(b), q, seen) == goal
  }

  /** The search loop starts with the base queued and seen. */
  lemma PendingStart(b: Board)
    requires IsBoard(b)
    ensures Pending(b, [], [Origin], {Origin}, SearchOrder(b))
  {
  }

  /** The inner loop keeps the queue on the grid and sees only cells of the grid. */
  lemma ExpandOnGrid(b: Board, S: set<Coord>, q: seq<Coord>, seen: set<Coord>)
    requires IsBoard(b) && OnGrid(S) && OnGrid(seen) && (forall c <- q :: InBounds(c)) && q != []
    ensures var r := Expand(b, S, q[0], Adj(q[0]), q[1..], seen);
      OnGrid(r.1) && forall c <- r.0 :: InBounds(c)
  {
  }

  /** One round of the search loop: yielding the front of the queue and expanding it keeps the state. */
  lemma PendingStep(b: Board, order: seq<Coord>, q: seq<Coord>, seen: set<Coord>, goal: seq<Coord>)
    requires Pending(b, order, q, seen, goal) && q != []
    ensures var r := Expand(b, NonEmptyCells(b), q[0], Adj(q[0]), q[1..], seen);
      Pending(b, order + [q[0]], r.0, r.1, goal)
  {
    var S := NonEmptyCells(b);
    var r := Expand(b, S, q[0], Adj(q[0]), q[1..], seen);
    ExpandOnGrid(b, S, q, seen);
    TraverseUnfold(b, S, q, seen);
    AppendAssoc(order, [q[0]], Traverse(b, S, r.0, r.1));
  }

  /** An empty queue ends the search with the whole goal yielded. */
  lemma PendingDone(b: Board, order: seq<Coord>, seen: set<Coord>, goal: seq<Coord>)
    requires Pending(b, order, [], seen, goal)
    ensures order == goal
  {
  }

  /** When the base is the only occupied cell, the search visits it alone. */
  lemma LoneBaseIsVisitedAlone(b: Board)
    requires IsBoard(b) && NonEmptyCells(b) == {Origin}
    ensures SearchOrder(b) == [Origin]
  {
    var order := SearchOrder(b);
    SearchVisitsConnectedOccupiedCells(b);
    assert Elems(order) == {Origin};
    DistinctCardinality(order);
    assert order == [order[0]];
  }
}

/**
 * Connectivity on the grid: walks of orthogonal steps that stay inside a set
 * of cells (the occupied cells, or the cells of one environment), and the
 * fact that a set closed under such steps holds everything a walk can reach.
 */
module Paths {
  import opened Domain

  /** p is a walk of orthogonal steps whose every cell lies in S. */
  ghost predicate IsWalkIn(S: set<Coord>, p: seq<Coord>)
  {
    && |p| >= 1
    && (forall i | 0 <= i < |p| :: p[i] in S)
    && (forall i | 0 <= i < |p| - 1 :: Adjacent(p[i], p[i + 1]))
  }

  /** Some walk inside S leads from a to c. */
  ghost predicate Connected(S: set<Coord>, a: Coord, c: Coord)
  {
    exists p :: IsWalkIn(S, p) && p[0] == a && p[|p| - 1] == c
  }

  /** The cells of S that a walk inside S reaches from a. */
  ghost function Reach(S: set<Coord>, a: Coord): (r: set<Coord>)
    ensures r <= S
  {
    set c | c in S && Connected(S, a, c)
  }

  /** X cannot be left by one orthogonal step into S. */
  ghost predicate ClosedIn(S: set<Coord>, X: set<Coord>)
  {
    forall c, n | c in X && n in S && Adjacent(c, n) :: n in X
  }

  lemma ConnectedToItself(S: set<Coord>, a: Coord)
    requires a in S
    ensures Connected(S, a, a)
  {
    assert IsWalkIn(S, [a]);
  }

  /** A walk to c extends by one step into S. */
  lemma ConnectedStep(S: set<Coord>, a: Coord, c: Coord, n: Coord)
    requires Connected(S, a, c) && n in S && Adjacent(c, n)
    ensures Connected(S, a, n)
  {
    var p :| IsWalkIn(S, p) && p[0] == a && p[|p| - 1] == c;
    var p' := p + [n];
    assert IsWalkIn(S, p');
    assert p'[0] == a && p'[|p'| - 1] == n;
  }

  /** A walk that starts in a set closed under steps into S never leaves that set. */
  lemma {:induction false} WalkStaysInClosed(S: set<Coord>, X: set<Coord>, p: seq<Coord>)
    requires IsWalkIn(S, p) && p[0] in X && ClosedIn(S, X)
    ensures forall i | 0 <= i < |p| :: p[i] in X
  {
    if |p| > 1 {
      var q := p[..|p| - 1];
      assert IsWalkIn(S, q);
      WalkStaysInClosed(S, X, q);
      assert p[|p| - 2] == q[|q| - 1];
      assert Adjacent(p[|p| - 2], p[|p| - 1]);
    }
  }

  /** Everything reachable from a inside S lies in any closed set holding a. */
  lemma ReachWithinClosed(S: set<Coord>, X: set<Coord>, a: Coord)
    requires a in X && ClosedIn(S, X)
    ensures Reach(S, a) <= X
  {
    forall c | c in Reach(S, a)
      ensures c in X
    {
      var p :| IsWalkIn(S, p) && p[0] == a && p[|p| - 1] == c;
      WalkStaysInClosed(S, X, p);
    }
  }

  /**
   * A subset of S that holds a, is closed under steps into S and whose every
   * cell is connected to a is exactly what a reaches.
   */
  lemma ReachIsClosedConnectedSet(S: set<Coord>, X: set<Coord>, a: Coord)
    requires a in X && X <= S && ClosedIn(S, X)
    requires forall c | c in X :: Connected(S, a, c)
    ensures Reach(S, a) == X
  {
    ReachWithinClosed(S, X, a);
  }
}

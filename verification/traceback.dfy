/** The traceback walk over a grid of tags, as a pure function: the tags that repeated
    traceback steps push, and the cell at which the walk stops. */
module Traceback {
  import opened States

  /** g is a rows-by-cols grid. */
  predicate Rect(g: seq<seq<State>>, rows: nat, cols: nat)
  {
    |g| == rows && forall i :: 0 <= i < rows ==> |g[i]| == cols
  }

  /** Every tag of g can be followed without stepping off the grid: no cell holds End,
      Diagonal and Left occur only below row 0, Diagonal and Up only right of column 0. */
  predicate Sound(g: seq<seq<State>>, rows: nat, cols: nat)
  {
    Rect(g, rows, cols) &&
    forall i, j :: 0 <= i < rows && 0 <= j < cols ==>
      g[i][j] != End && Dx(g[i][j]) <= i && Dy(g[i][j]) <= j
  }

  /** Every interior cell holds a productive tag, as after the matrix fill. */
  predicate Filled(g: seq<seq<State>>, rows: nat, cols: nat)
    requires Rect(g, rows, cols)
  {
    forall i, j :: 1 <= i < rows && 1 <= j < cols ==> Productive(g[i][j])
  }

  /** A traceback step from state s at cursor (i, j) stays inside a rows-by-cols grid. */
  predicate MoveOk(s: State, i: nat, j: nat, rows: nat, cols: nat)
  {
    s == Start || (Dx(s) <= i && Dy(s) <= j && i - Dx(s) < rows && j - Dy(s) < cols)
  }

  /** The tags pushed by traceback steps from state s at cursor (i, j) until a step
      finds the state Start: each step moves the cursor by the current state and pushes
      the tag of the cell it arrives at, which becomes the new state. */
  function Walk(g: seq<seq<State>>, rows: nat, cols: nat, s: State, i: nat, j: nat): seq<State>
    requires Sound(g, rows, cols) && MoveOk(s, i, j, rows, cols)
    decreases i + j
  {
    if s == Start then []
    else
      var i', j' := i - Dx(s), j - Dy(s);
      [g[i'][j']] + Walk(g, rows, cols, g[i'][j'], i', j')
  }

  /** The cursor at which the walk from state s at (i, j) stops. */
  function WalkEnd(g: seq<seq<State>>, rows: nat, cols: nat, s: State, i: nat, j: nat): (nat, nat)
    requires Sound(g, rows, cols) && MoveOk(s, i, j, rows, cols)
    decreases i + j
  {
    if s == Start then (i, j)
    else
      var i', j' := i - Dx(s), j - Dy(s);
      WalkEnd(g, rows, cols, g[i'][j'], i', j')
  }

  /** The tags the walk from state s at (i, j) meets, in the order the rebuild replays
      them: from the stopping cell forwards, s itself last, the final Start left out. */
  function Trail(g: seq<seq<State>>, rows: nat, cols: nat, s: State, i: nat, j: nat): seq<State>
    requires Sound(g, rows, cols) && MoveOk(s, i, j, rows, cols)
    decreases i + j
  {
    if s == Start then []
    else
      var i', j' := i - Dx(s), j - Dy(s);
      Trail(g, rows, cols, g[i'][j'], i', j') + [s]
  }

  /** The trail is the walk read backwards, without the Start it ends with, followed by s. */
  lemma {:induction false} TrailReversesWalk(g: seq<seq<State>>, rows: nat, cols: nat, s: State, i: nat, j: nat)
    requires Sound(g, rows, cols) && MoveOk(s, i, j, rows, cols) && s != Start
    ensures |Walk(g, rows, cols, s, i, j)| >= 1
    ensures Trail(g, rows, cols, s, i, j) == Reverse(Walk(g, rows, cols, s, i, j))[1..] + [s]
    decreases i + j
  {
    var i', j' := i - Dx(s), j - Dy(s);
    var t := g[i'][j'];
    var w, w' := Walk(g, rows, cols, s, i, j), Walk(g, rows, cols, t, i', j');
    assert w == [t] + w';
    assert w[1..] == w';
    assert Reverse(w) == Reverse(w') + [t];
    if t != Start {
      TrailReversesWalk(g, rows, cols, t, i', j');
      assert (Reverse(w') + [t])[1..] == Reverse(w')[1..] + [t];
    }
  }

  /** Along a diagonal of Diagonal tags ending in a Start at the origin, the walk from (k, k)
      stops at the origin after k Diagonal tags. */
  lemma {:induction false} DiagonalTrail(g: seq<seq<State>>, rows: nat, cols: nat, k: nat)
    requires Sound(g, rows, cols) && k < rows && k < cols
    requires g[0][0] == Start
    requires forall p :: 1 <= p <= k ==> g[p][p] == Diagonal
    ensures WalkEnd(g, rows, cols, g[k][k], k, k) == (0, 0)
    ensures var t := Trail(g, rows, cols, g[k][k], k, k);
      |t| == k && forall p :: 0 <= p < k ==> t[p] == Diagonal
  {
    if k > 0 {
      DiagonalTrail(g, rows, cols, k - 1);
    }
  }

  /** A walk that moves at all ends with one Start, pushed at its stopping cell, after
      productive tags only. On a filled grid the stopping cell is in row 0 or in column 0,
      not necessarily at the origin. */
  lemma {:induction false} WalkShape(g: seq<seq<State>>, rows: nat, cols: nat, s: State, i: nat, j: nat)
    requires Sound(g, rows, cols) && MoveOk(s, i, j, rows, cols) && s != Start
    ensures var w := Walk(g, rows, cols, s, i, j);
      |w| >= 1 && w[|w| - 1] == Start && forall k :: 0 <= k < |w| - 1 ==> Productive(w[k])
    ensures var e := WalkEnd(g, rows, cols, s, i, j);
      e.0 < rows && e.1 < cols && g[e.0][e.1] == Start &&
      (Filled(g, rows, cols) ==> e.0 == 0 || e.1 == 0)
    decreases i + j
  {
    var i', j' := i - Dx(s), j - Dy(s);
    var t := g[i'][j'];
    if t == Start {
      assert Walk(g, rows, cols, t, i', j') == [];
      assert WalkEnd(g, rows, cols, s, i, j) == (i', j');
    } else {
      WalkShape(g, rows, cols, t, i', j');
      assert Walk(g, rows, cols, s, i, j) == [t] + Walk(g, rows, cols, t, i', j');
    }
  }

  /** The stopping cell of a walk lies as many rows and columns back as its first move and
      its productive tags consume. */
  lemma {:induction false} WalkConsumes(g: seq<seq<State>>, rows: nat, cols: nat, s: State, i: nat, j: nat)
    requires Sound(g, rows, cols) && MoveOk(s, i, j, rows, cols) && s != Start
    ensures var w, e := Walk(g, rows, cols, s, i, j), WalkEnd(g, rows, cols, s, i, j);
      |w| >= 1 &&
      e.0 + Dx(s) + XUsed(w[..|w| - 1]) == i &&
      e.1 + Dy(s) + YUsed(w[..|w| - 1]) == j
    decreases i + j
  {
    var i', j' := i - Dx(s), j - Dy(s);
    var t := g[i'][j'];
    var w := Walk(g, rows, cols, s, i, j);
    if t == Start {
      assert Walk(g, rows, cols, t, i', j') == [];
      assert w[..|w| - 1] == [];
      assert WalkEnd(g, rows, cols, s, i, j) == (i', j');
    } else {
      WalkConsumes(g, rows, cols, t, i', j');
      var w' := Walk(g, rows, cols, t, i', j');
      assert w == [t] + w';
      ConsButLast(t, w');
      UsedCons(t, w'[..|w'| - 1]);
      assert WalkEnd(g, rows, cols, s, i, j) == WalkEnd(g, rows, cols, t, i', j');
    }
  }

  lemma UsedCons(t: State, rest: seq<State>)
    requires Productive(t)
    ensures XUsed([t] + rest) == Dx(t) + XUsed(rest)
    ensures YUsed([t] + rest) == Dy(t) + YUsed(rest)
  {
    UsedAppend([t], rest);
    assert [t][..0] == [];
  }
}

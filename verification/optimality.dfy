/** What the traceback recovers: no sequence of tags scores more than the recurrence's value,
    the step costs along a walk add up to that value, and an output reached from the origin
    scores it column by column, so no other alignment scores more. */
module Optimality {
  import opened States
  import opened Scoring
  import opened Traceback
  import opened Reconstruct
  import opened Engine
  import opened Pipeline

  /** Cost the recurrence charges for reaching cell (i, j) by tag t. */
  function StepCost(t: State, X: seq<char>, Y: seq<char>, i: nat, j: nat): int
    requires Productive(t) && Dx(t) <= i <= |X| && Dy(t) <= j <= |Y|
  {
    if t == Diagonal then Sub(X[i - 1], Y[j - 1]) else Gap
  }

  /** A (|X| + 1)-by-(|Y| + 1) table of scores, one per cell of the grid. */
  predicate Table(v: seq<seq<int>>, X: seq<char>, Y: seq<char>)
  {
    |v| == |X| + 1 && forall i :: 0 <= i <= |X| ==> |v[i]| == |Y| + 1
  }

  /** The optimal scores of the recurrence, laid out as a table. */
  function ScoreTable(X: seq<char>, Y: seq<char>): (v: seq<seq<int>>)
    ensures Table(v, X, Y)
    ensures forall i, j :: 0 <= i <= |X| && 0 <= j <= |Y| ==> v[i][j] == Score(X, Y, i, j)
  {
    seq(|X| + 1, i requires 0 <= i <= |X| =>
      seq(|Y| + 1, j requires 0 <= j <= |Y| => Score(X, Y, i, j)))
  }

  /** Reaching cell (i, j) by tag t, when t is productive, stays inside the grid and costs
      exactly the difference of the two table entries. */
  predicate StepOk(t: State, v: seq<seq<int>>, X: seq<char>, Y: seq<char>, i: nat, j: nat)
    requires Table(v, X, Y) && i <= |X| && j <= |Y|
  {
    Productive(t) ==>
      && Dx(t) <= i && Dy(t) <= j
      && v[i][j] == v[i - Dx(t)][j - Dy(t)] + StepCost(t, X, Y, i, j)
  }

  /** Every productive tag of g names a neighbour whose entry in v plus the step cost is the
      cell's entry; with v the score table, the tag names an optimal neighbour. */
  predicate Consistent(g: seq<seq<State>>, v: seq<seq<int>>, X: seq<char>, Y: seq<char>)
    requires Sound(g, |X| + 1, |Y| + 1) && Table(v, X, Y)
  {
    forall i, j {:trigger StepOk(g[i][j], v, X, Y, i, j)} :: 0 <= i <= |X| && 0 <= j <= |Y| ==> StepOk(g[i][j], v, X, Y, i, j)
  }

  /** The step from cell (i, j) of a consistent grid, spelled out for a productive tag. */
  lemma ConsistentAt(g: seq<seq<State>>, v: seq<seq<int>>, X: seq<char>, Y: seq<char>, i: nat, j: nat)
    requires Sound(g, |X| + 1, |Y| + 1) && Table(v, X, Y) && Consistent(g, v, X, Y)
    requires i <= |X| && j <= |Y| && Productive(g[i][j])
    ensures Dx(g[i][j]) <= i && Dy(g[i][j]) <= j
    ensures v[i][j] == v[i - Dx(g[i][j])][j - Dy(g[i][j])] +
      (if g[i][j] == Diagonal then Sub(X[i - 1], Y[j - 1]) else Gap)
  {
    assert StepOk(g[i][j], v, X, Y, i, j);
  }

  /** Score of the steps ops describe when the walk they come from stopped at (a, b): a
      Diagonal scores the pair of symbols it crosses, Up and Left a gap, End nothing. */
  function TagScore(ops: seq<State>, X: seq<char>, Y: seq<char>, a: nat, b: nat): int
    requires Replayable(ops) && a + XUsed(ops) <= |X| && b + YUsed(ops) <= |Y|
    decreases |ops|
  {
    if ops == [] then 0
    else
      var prefix, op := ops[..|ops| - 1], ops[|ops| - 1];
      assert ops == prefix + [op];
      TagScore(prefix, X, Y, a, b) +
        (match op
         case Diagonal => Sub(X[a + XUsed(prefix)], Y[b + YUsed(prefix)])
         case Up => Gap
         case Left => Gap
         case End => 0)
  }

  /** Score of one column of an alignment. */
  function PairScore(x: char, y: char): int
  {
    if x == GapSymbol || y == GapSymbol then Gap else Sub(x, y)
  }

  /** Score of an alignment, column by column. */
  function ColumnScore(s: seq<char>, t: seq<char>): int
    requires |s| == |t|
    decreases |s|
  {
    if s == [] then 0
    else ColumnScore(s[..|s| - 1], t[..|t| - 1]) + PairScore(s[|s| - 1], t[|t| - 1])
  }

  /** Appending one column adds its score. */
  lemma ColumnScoreLast(s: seq<char>, t: seq<char>, x: char, y: char)
    requires |s| == |t|
    ensures ColumnScore(s + [x], t + [y]) == ColumnScore(s, t) + PairScore(x, y)
  {
    assert (s + [x])[..|s|] == s && (t + [y])[..|t|] == t;
  }

  /** Appending one tag adds its step score. */
  lemma TagScoreLast(ops: seq<State>, t: State, X: seq<char>, Y: seq<char>, a: nat, b: nat)
    requires Replayable(ops + [t]) && a + XUsed(ops + [t]) <= |X| && b + YUsed(ops + [t]) <= |Y|
    ensures Replayable(ops) && a + XUsed(ops) + TakesX(t) <= |X| && b + YUsed(ops) + TakesY(t) <= |Y|
    ensures TagScore(ops + [t], X, Y, a, b) == TagScore(ops, X, Y, a, b) +
      (if t == Diagonal then Sub(X[a + XUsed(ops)], Y[b + YUsed(ops)]) else if t == End then 0 else Gap)
  {
    assert (ops + [t])[..|ops|] == ops;
    UsedLast(ops, t);
  }

  /** One more step on a trail that reached cell (i - Dx(s), j - Dy(s)) from (a, b). */
  lemma TrailStep(t: seq<State>, s: State, X: seq<char>, Y: seq<char>, a: nat, b: nat, i: nat, j: nat)
    requires Productive(s) && Dx(s) <= i <= |X| && Dy(s) <= j <= |Y|
    requires Replayable(t) && a + XUsed(t) == i - Dx(s) && b + YUsed(t) == j - Dy(s)
    ensures Replayable(t + [s]) && a + XUsed(t + [s]) == i && b + YUsed(t + [s]) == j
    ensures TagScore(t + [s], X, Y, a, b) == TagScore(t, X, Y, a, b) +
      (if s == Diagonal then Sub(X[i - 1], Y[j - 1]) else Gap)
  {
    UsedLast(t, s);
    assert forall k :: 0 <= k < |t| + 1 ==> (t + [s])[k] != Start;
    TagScoreLast(t, s, X, Y, a, b);
  }

  /** With gap-free inputs, the rebuilt alignment scores what its tags score from the origin. */
  lemma {:induction false} ReplayScore(ops: seq<State>, X: seq<char>, Y: seq<char>)
    requires Replayable(ops) && XUsed(ops) <= |X| && YUsed(ops) <= |Y|
    requires GapFree(X) && GapFree(Y)
    ensures ColumnScore(Replay(ops, X, Y).0, Replay(ops, X, Y).1) == TagScore(ops, X, Y, 0, 0)
    decreases |ops|
  {
    if ops != [] {
      var prefix, op := ops[..|ops| - 1], ops[|ops| - 1];
      assert ops == prefix + [op];
      UsedPrefix(ops, |ops| - 1);
      ReplayScore(prefix, X, Y);
      ReplayScoreStep(prefix, op, X, Y);
    }
  }

  /** Replaying one more tag adds to the alignment's score what the tag scores. */
  lemma ReplayScoreStep(prefix: seq<State>, op: State, X: seq<char>, Y: seq<char>)
    requires Replayable(prefix + [op]) && XUsed(prefix + [op]) <= |X| && YUsed(prefix + [op]) <= |Y|
    requires GapFree(X) && GapFree(Y)
    requires Replayable(prefix) && XUsed(prefix) <= |X| && YUsed(prefix) <= |Y|
    requires ColumnScore(Replay(prefix, X, Y).0, Replay(prefix, X, Y).1) == TagScore(prefix, X, Y, 0, 0)
    ensures ColumnScore(Replay(prefix + [op], X, Y).0, Replay(prefix + [op], X, Y).1) == TagScore(prefix + [op], X, Y, 0, 0)
  {
    UsedLast(prefix, op);
    TagScoreLast(prefix, op, X, Y, 0, 0);
    ReplayAppend(prefix, op, X, Y);
    var r := Replay(prefix, X, Y);
    if op == Diagonal {
      ColumnScoreLast(r.0, r.1, X[XUsed(prefix)], Y[YUsed(prefix)]);
    } else if op == Up {
      ColumnScoreLast(r.0, r.1, GapSymbol, Y[YUsed(prefix)]);
    } else if op == Left {
      ColumnScoreLast(r.0, r.1, X[XUsed(prefix)], GapSymbol);
    }
  }

  /** Along a walk over a consistent grid from cell (i, j) to its stopping cell (a, b), the
      step costs add up to the difference of the two table entries. */
  lemma {:induction false} TrailScore(g: seq<seq<State>>, v: seq<seq<int>>, X: seq<char>, Y: seq<char>, i: nat, j: nat, a: nat, b: nat)
    requires Sound(g, |X| + 1, |Y| + 1) && Table(v, X, Y) && Consistent(g, v, X, Y)
    requires i <= |X| && j <= |Y|
    requires WalkEnd(g, |X| + 1, |Y| + 1, g[i][j], i, j) == (a, b)
    ensures var t := Trail(g, |X| + 1, |Y| + 1, g[i][j], i, j);
      && Replayable(t) && a + XUsed(t) == i && b + YUsed(t) == j
      && v[i][j] == v[a][b] + TagScore(t, X, Y, a, b)
    decreases i + j
  {
    var rows, cols := |X| + 1, |Y| + 1;
    var s := g[i][j];
    if s == Start {
      assert (a, b) == (i, j);
    } else {
      ConsistentAt(g, v, X, Y, i, j);
      var i', j' := i - Dx(s), j - Dy(s);
      assert WalkEnd(g, rows, cols, g[i'][j'], i', j') == (a, b);
      TrailScore(g, v, X, Y, i', j', a, b);
      var t' := Trail(g, rows, cols, g[i'][j'], i', j');
      assert Trail(g, rows, cols, s, i, j) == t' + [s];
      TrailStep(t', s, X, Y, a, b, i, j);
    }
  }

  /** The tags the rebuild replays are the trail of the whole walk from past the corner. */
  lemma OpsTrail(g: seq<seq<State>>, X: seq<char>, Y: seq<char>)
    requires Sound(g, |X| + 1, |Y| + 1)
    ensures Ops(TracePath(g, X, Y)) == Trail(g, |X| + 1, |Y| + 1, End, |X| + 1, |Y| + 1)
  {
    var rows, cols := |X| + 1, |Y| + 1;
    var w := Walk(g, rows, cols, End, rows, cols);
    TrailReversesWalk(g, rows, cols, End, rows, cols);
    var path := [End] + w;
    assert path[1..] == w;
    assert Reverse(path) == Reverse(w) + [End];
    assert (Reverse(w) + [End])[1..] == Reverse(w)[1..] + [End];
  }

  /** The traceback of a consistent grid recovers an optimal path: when the walk reaches the
      origin, the rebuilt alignment of gap-free sequences scores Score(|X|, |Y|). */
  lemma AlignOnScore(g: seq<seq<State>>, X: seq<char>, Y: seq<char>)
    requires Sound(g, |X| + 1, |Y| + 1) && Consistent(g, ScoreTable(X, Y), X, Y)
    requires GapFree(X) && GapFree(Y)
    requires Stop(g, X, Y) == (0, 0)
    ensures ColumnScore(AlignOn(g, X, Y).0, AlignOn(g, X, Y).1) == Score(X, Y, |X|, |Y|)
  {
    var rows, cols := |X| + 1, |Y| + 1;
    var t := Trail(g, rows, cols, g[|X|][|Y|], |X|, |Y|);
    assert Replayable(t) && XUsed(t) == |X| && YUsed(t) == |Y| &&
      Score(X, Y, |X|, |Y|) == TagScore(t, X, Y, 0, 0) by {
      var v := ScoreTable(X, Y);
      assert WalkEnd(g, rows, cols, g[|X|][|Y|], |X|, |Y|) == Stop(g, X, Y);
      TrailScore(g, v, X, Y, |X|, |Y|, 0, 0);
      assert v[0][0] == Score(X, Y, 0, 0) == 0;
    }
    assert Ops(TracePath(g, X, Y)) == t + [End] by {
      OpsTrail(g, X, Y);
    }
    TrailEndScore(t, X, Y);
  }

  /** Closing a trail that consumes both sequences with End leaves its score unchanged. */
  lemma TrailEndScore(t: seq<State>, X: seq<char>, Y: seq<char>)
    requires Replayable(t) && XUsed(t) == |X| && YUsed(t) == |Y|
    requires GapFree(X) && GapFree(Y)
    ensures Replayable(t + [End]) && XUsed(t + [End]) == |X| && YUsed(t + [End]) == |Y|
    ensures ColumnScore(Replay(t + [End], X, Y).0, Replay(t + [End], X, Y).1) == TagScore(t, X, Y, 0, 0)
  {
    UsedLast(t, End);
    assert forall k :: 0 <= k < |t| + 1 ==> (t + [End])[k] != Start;
    TagScoreLast(t, End, X, Y, 0, 0);
    ReplayScore(t + [End], X, Y);
  }

  /** No sequence of tags scores more than the recurrence's value at the cell it leads to
      from the origin: each Diagonal, Up or Left step is one of the three candidates the
      recurrence maximises over, and along row 0 or column 0 the value is the gap sum. */
  lemma {:induction false} TagScoreAtMost(ops: seq<State>, X: seq<char>, Y: seq<char>)
    requires Replayable(ops) && XUsed(ops) <= |X| && YUsed(ops) <= |Y|
    ensures TagScore(ops, X, Y, 0, 0) <= Score(X, Y, XUsed(ops), YUsed(ops))
    decreases |ops|
  {
    if ops != [] {
      var prefix, op := ops[..|ops| - 1], ops[|ops| - 1];
      assert ops == prefix + [op];
      TagScoreLast(prefix, op, X, Y, 0, 0);
      TagScoreAtMost(prefix, X, Y);
      StepAtMost(op, X, Y, XUsed(prefix), YUsed(prefix));
    }
  }

  /** One step from cell (i, j) by tag op adds at most the difference of the recurrence's
      values at the cell it reaches and at (i, j). */
  lemma StepAtMost(op: State, X: seq<char>, Y: seq<char>, i: nat, j: nat)
    requires op != Start && i + TakesX(op) <= |X| && j + TakesY(op) <= |Y|
    ensures Score(X, Y, i, j) +
      (if op == Diagonal then Sub(X[i], Y[j]) else if op == End then 0 else Gap)
      <= Score(X, Y, i + TakesX(op), j + TakesY(op))
  {
  }

  /** With gap-free inputs, every alignment that a sequence of tags consuming all of X and Y
      replays to scores at most Score(|X|, |Y|). */
  lemma ReplayAtMost(ops: seq<State>, X: seq<char>, Y: seq<char>)
    requires Replayable(ops) && XUsed(ops) == |X| && YUsed(ops) == |Y|
    requires GapFree(X) && GapFree(Y)
    ensures ColumnScore(Replay(ops, X, Y).0, Replay(ops, X, Y).1) <= Score(X, Y, |X|, |Y|)
  {
    ReplayScore(ops, X, Y);
    TagScoreAtMost(ops, X, Y);
  }

  /** Whenever the engine's walk reaches the origin, no alignment of X and Y given by a
      sequence of tags scores more than the engine's output. */
  lemma AlignOptimal(X: seq<char>, Y: seq<char>, ops: seq<State>)
    requires GapFree(X) && GapFree(Y)
    requires Stop(NWGrid(X, Y), X, Y) == (0, 0)
    requires Replayable(ops) && XUsed(ops) == |X| && YUsed(ops) == |Y|
    ensures ColumnScore(Replay(ops, X, Y).0, Replay(ops, X, Y).1) <= ColumnScore(Align(X, Y).0, Align(X, Y).1)
  {
    AlignScore(X, Y);
    ReplayAtMost(ops, X, Y);
  }

  /** With the boundary seeded, no alignment of X and Y given by a sequence of tags scores
      more than the output. */
  lemma SeededOptimal(X: seq<char>, Y: seq<char>, ops: seq<State>)
    requires GapFree(X) && GapFree(Y)
    requires Replayable(ops) && XUsed(ops) == |X| && YUsed(ops) == |Y|
    ensures ColumnScore(Replay(ops, X, Y).0, Replay(ops, X, Y).1) <= ColumnScore(AlignSeeded(X, Y).0, AlignSeeded(X, Y).1)
  {
    SeededScore(X, Y);
    ReplayAtMost(ops, X, Y);
  }

  /** The tie-break tag of an interior cell is a consistent step. */
  lemma ChoiceCost(X: seq<char>, Y: seq<char>, i: nat, j: nat)
    requires 1 <= i <= |X| && 1 <= j <= |Y|
    ensures Productive(Choice(X, Y, i, j)) && StepOk(Choice(X, Y, i, j), ScoreTable(X, Y), X, Y, i, j)
  {
  }

  /** The engine's grid is consistent: inside, the tie-break tag names an optimal
      neighbour; row 0 and column 0 hold Start. */
  lemma NWGridConsistent(X: seq<char>, Y: seq<char>)
    ensures Consistent(NWGrid(X, Y), ScoreTable(X, Y), X, Y)
  {
    var g := NWGrid(X, Y);
    forall i, j | 0 <= i <= |X| && 0 <= j <= |Y|
      ensures StepOk(g[i][j], ScoreTable(X, Y), X, Y, i, j)
    {
      if i >= 1 && j >= 1 {
        ChoiceCost(X, Y, i, j);
        assert g[i][j] == Choice(X, Y, i, j);
      }
    }
  }

  /** The seeded grid is consistent: along row 0 and column 0 each step costs one gap. */
  lemma SeededConsistent(X: seq<char>, Y: seq<char>)
    ensures Consistent(SeededGrid(X, Y), ScoreTable(X, Y), X, Y)
  {
    var g := SeededGrid(X, Y);
    forall i, j | 0 <= i <= |X| && 0 <= j <= |Y|
      ensures StepOk(g[i][j], ScoreTable(X, Y), X, Y, i, j)
    {
      SeededCellCost(X, Y, i, j);
    }
  }

  /** Cell (i, j) of the seeded grid is a consistent step. */
  lemma SeededCellCost(X: seq<char>, Y: seq<char>, i: nat, j: nat)
    requires i <= |X| && j <= |Y|
    ensures StepOk(SeededGrid(X, Y)[i][j], ScoreTable(X, Y), X, Y, i, j)
  {
    var c := SeededGrid(X, Y)[i][j];
    if i >= 1 && j >= 1 {
      ChoiceCost(X, Y, i, j);
      assert c == Choice(X, Y, i, j);
    } else if i >= 1 {
      assert c == Left;
    } else if j >= 1 {
      assert c == Up;
    }
  }

  /** Whenever the engine's traceback reaches the origin, its output scores the optimum. */
  lemma AlignScore(X: seq<char>, Y: seq<char>)
    requires GapFree(X) && GapFree(Y)
    requires Stop(NWGrid(X, Y), X, Y) == (0, 0)
    ensures ColumnScore(Align(X, Y).0, Align(X, Y).1) == Score(X, Y, |X|, |Y|)
  {
    NWGridConsistent(X, Y);
    AlignOnScore(NWGrid(X, Y), X, Y);
  }

  /** With the boundary seeded, the output always covers both sequences and scores the
      optimum. */
  lemma SeededScore(X: seq<char>, Y: seq<char>)
    requires GapFree(X) && GapFree(Y)
    ensures ColumnScore(AlignSeeded(X, Y).0, AlignSeeded(X, Y).1) == Score(X, Y, |X|, |Y|)
  {
    SeededConsistent(X, Y);
    SeededRoundTrip(X, Y);
    AlignOnScore(SeededGrid(X, Y), X, Y);
  }

  /** A sequence aligned against itself: every diagonal cell holds Diagonal, the walk reaches
      the origin along the diagonal, and the output is the sequence twice, with no gap. */
  lemma IdentityAlign(X: seq<char>)
    ensures Stop(NWGrid(X, X), X, X) == (0, 0)
    ensures Align(X, X) == (X, X)
  {
    IdentityOps(X);
    var ops := Ops(TracePath(NWGrid(X, X), X, X));
    DiagonalsReplay(ops, X);
  }

  /** |X| Diagonal tags and End replay to X against itself. */
  lemma DiagonalsReplay(ops: seq<State>, X: seq<char>)
    requires |ops| == |X| + 1 && ops[|X|] == End
    requires forall p :: 0 <= p < |X| ==> ops[p] == Diagonal
    ensures Replayable(ops) && XUsed(ops) == |X| && YUsed(ops) == |X|
    ensures Replay(ops, X, X) == (X, X)
  {
    var n := |X|;
    var t := ops[..n];
    assert ops == t + [End];
    ReplayDiagonals(t, X, X);
    UsedLast(t, End);
    assert forall k :: 0 <= k < |ops| ==> ops[k] != Start;
    ReplayEnd(t, X, X);
    assert X[..n] == X;
  }

  /** Aligning a sequence with itself, the walk runs down the diagonal to the origin: the
      tags replayed are |X| Diagonal tags, then End. */
  lemma IdentityOps(X: seq<char>)
    ensures Stop(NWGrid(X, X), X, X) == (0, 0)
    ensures var ops := Ops(TracePath(NWGrid(X, X), X, X));
      |ops| == |X| + 1 && ops[|X|] == End && forall p :: 0 <= p < |X| ==> ops[p] == Diagonal
  {
    var g, n := NWGrid(X, X), |X|;
    forall p | 1 <= p <= n
      ensures g[p][p] == Diagonal
    {
      IdentityDiagonal(X, p);
    }
    DiagonalTrail(g, n + 1, n + 1, n);
    var t := Trail(g, n + 1, n + 1, g[n][n], n, n);
    OpsTrail(g, X, X);
    assert Ops(TracePath(g, X, X)) == t + [End];
  }
}

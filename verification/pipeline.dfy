/** The engine's whole run (allocate, fill, trace back from past the bottom-right corner
    until the walk stops, reconstruct) as pure functions over a traceback grid, with the
    round trip it achieves and the boundary-seeded variant that reaches the origin. */
module Pipeline {
  import opened States
  import opened Scoring
  import opened Traceback
  import opened Reconstruct
  import opened Engine

  /** The cell at which the traceback stops when it starts, as the engine does, in state End
      one cell past the bottom-right corner: a Start cell of the grid. */
  function Stop(g: seq<seq<State>>, X: seq<char>, Y: seq<char>): (e: (nat, nat))
    requires Sound(g, |X| + 1, |Y| + 1)
    ensures e.0 <= |X| && e.1 <= |Y| && g[e.0][e.1] == Start
  {
    WalkShape(g, |X| + 1, |Y| + 1, End, |X| + 1, |Y| + 1);
    WalkEnd(g, |X| + 1, |Y| + 1, End, |X| + 1, |Y| + 1)
  }

  /** The path the traceback leaves behind: the End sentinel, then one tag per step. */
  function TracePath(g: seq<seq<State>>, X: seq<char>, Y: seq<char>): seq<State>
    requires Sound(g, |X| + 1, |Y| + 1)
  {
    [End] + Walk(g, |X| + 1, |Y| + 1, End, |X| + 1, |Y| + 1)
  }

  /** The path ends with the Start of the stopping cell after productive tags only, and it
      consumes X and Y except the rows and columns before the stopping cell. */
  lemma TracePathShape(g: seq<seq<State>>, X: seq<char>, Y: seq<char>)
    requires Sound(g, |X| + 1, |Y| + 1)
    ensures var path := TracePath(g, X, Y);
      && |path| >= 2 && path[0] == End && path[|path| - 1] == Start
      && (forall k :: 1 <= k < |path| - 1 ==> Productive(path[k]))
      && XUsed(path) + Stop(g, X, Y).0 == |X| && YUsed(path) + Stop(g, X, Y).1 == |Y|
  {
    var rows, cols := |X| + 1, |Y| + 1;
    WalkShape(g, rows, cols, End, rows, cols);
    WalkConsumes(g, rows, cols, End, rows, cols);
    var w := Walk(g, rows, cols, End, rows, cols);
    SentinelsConsumeNothing(w[..|w| - 1]);
    assert [End] + w == [End] + w[..|w| - 1] + [Start];
  }

  lemma SentinelsConsumeNothing(w: seq<State>)
    ensures XUsed([End] + w + [Start]) == XUsed(w) && YUsed([End] + w + [Start]) == YUsed(w)
  {
    UsedAppend([End], w);
    UsedAppend([End] + w, [Start]);
    assert [End][..0] == [] && [Start][..0] == [];
  }

  /** The aligned pair reconstructed from the traceback of grid g. */
  function AlignOn(g: seq<seq<State>>, X: seq<char>, Y: seq<char>): (r: (seq<char>, seq<char>))
    requires Sound(g, |X| + 1, |Y| + 1)
    ensures |r.0| == |r.1|
  {
    var path := TracePath(g, X, Y);
    TracePathShape(g, X, Y);
    OpsFacts(path);
    Replay(Ops(path), X, Y)
  }

  /** When the walk stops at (a, b) it covers only X[a..] and Y[b..], but the rebuild reads
      both sequences from position 0: removing the gaps gives X[..|X| - a] and Y[..|Y| - b].
      The last a symbols of X and the last b of Y are lost, and the rest is shifted. */
  lemma AlignOnStrips(g: seq<seq<State>>, X: seq<char>, Y: seq<char>)
    requires Sound(g, |X| + 1, |Y| + 1) && GapFree(X) && GapFree(Y)
    ensures Strip(AlignOn(g, X, Y).0) == X[..|X| - Stop(g, X, Y).0]
    ensures Strip(AlignOn(g, X, Y).1) == Y[..|Y| - Stop(g, X, Y).1]
  {
    var path := TracePath(g, X, Y);
    var ops := Ops(path);
    assert Replayable(ops) && XUsed(ops) == |X| - Stop(g, X, Y).0 && YUsed(ops) == |Y| - Stop(g, X, Y).1 by {
      TracePathShape(g, X, Y);
      OpsFacts(path);
    }
    ReplayStripsX(ops, X, Y);
    ReplayStripsY(ops, X, Y);
    assert AlignOn(g, X, Y) == Replay(ops, X, Y);
  }

  /** The traceback grid after construction and fill: Start on row 0 and column 0, the
      tie-break tag of the recurrence inside. */
  function NWGrid(X: seq<char>, Y: seq<char>): (g: seq<seq<State>>)
    ensures Sound(g, |X| + 1, |Y| + 1) && Filled(g, |X| + 1, |Y| + 1)
    ensures forall i, j :: 0 <= i <= |X| && 0 <= j <= |Y| && (i == 0 || j == 0) ==> g[i][j] == Start
  {
    seq(|X| + 1, i requires 0 <= i <= |X| =>
      seq(|Y| + 1, j requires 0 <= j <= |Y| =>
        if i == 0 || j == 0 then Start else Choice(X, Y, i, j)))
  }

  /** The aligned pair the engine produces for X and Y. */
  function Align(X: seq<char>, Y: seq<char>): (r: (seq<char>, seq<char>))
    ensures |r.0| == |r.1|
  {
    AlignOn(NWGrid(X, Y), X, Y)
  }

  /** On a filled grid the traceback stops at some (a, b) in row 0 or column 0; stripping
      the gaps from the reconstruction gives X without its last a symbols and Y without its
      last b, hence X and Y themselves exactly when the walk reaches the origin. */
  lemma FilledStrips(g: seq<seq<State>>, X: seq<char>, Y: seq<char>)
    requires Sound(g, |X| + 1, |Y| + 1) && Filled(g, |X| + 1, |Y| + 1)
    requires GapFree(X) && GapFree(Y)
    ensures var (a, b) := Stop(g, X, Y);
      && (a == 0 || b == 0)
      && Strip(AlignOn(g, X, Y).0) == X[..|X| - a]
      && Strip(AlignOn(g, X, Y).1) == Y[..|Y| - b]
      && ((a, b) == (0, 0) <==> Strip(AlignOn(g, X, Y).0) == X && Strip(AlignOn(g, X, Y).1) == Y)
  {
    var rows, cols := |X| + 1, |Y| + 1;
    WalkShape(g, rows, cols, End, rows, cols);
    AlignOnStrips(g, X, Y);
    var (a, b) := Stop(g, X, Y);
    assert |X[..|X| - a]| == |X| - a && |Y[..|Y| - b]| == |Y| - b;
    if (a, b) == (0, 0) {
      assert X[..|X| - a] == X && Y[..|Y| - b] == Y;
    }
  }

  /** The engine's traceback stops at some (a, b) in row 0 or column 0; stripping the gaps
      from its output gives X without its last a symbols and Y without its last b, hence X
      and Y themselves exactly when the walk reaches the origin. */
  lemma AlignStrips(X: seq<char>, Y: seq<char>)
    requires GapFree(X) && GapFree(Y)
    ensures var (a, b) := Stop(NWGrid(X, Y), X, Y);
      && (a == 0 || b == 0)
      && Strip(Align(X, Y).0) == X[..|X| - a]
      && Strip(Align(X, Y).1) == Y[..|Y| - b]
      && ((a, b) == (0, 0) <==> Strip(Align(X, Y).0) == X && Strip(Align(X, Y).1) == Y)
  {
    FilledStrips(NWGrid(X, Y), X, Y);
  }

  /** The traceback grid with its boundary seeded so that the walk continues along row 0
      and column 0: Left on column 0 below the origin, Up on row 0 right of it. */
  function SeededGrid(X: seq<char>, Y: seq<char>): (g: seq<seq<State>>)
    ensures Sound(g, |X| + 1, |Y| + 1)
    ensures forall i, j :: 0 <= i <= |X| && 0 <= j <= |Y| ==> (g[i][j] == Start <==> i == 0 && j == 0)
    ensures forall i, j :: 1 <= i <= |X| && 1 <= j <= |Y| ==> g[i][j] == NWGrid(X, Y)[i][j]
  {
    seq(|X| + 1, i requires 0 <= i <= |X| =>
      seq(|Y| + 1, j requires 0 <= j <= |Y| =>
        if i == 0 && j == 0 then Start
        else if j == 0 then Left
        else if i == 0 then Up
        else Choice(X, Y, i, j)))
  }

  /** The aligned pair reconstructed from the seeded grid. */
  function AlignSeeded(X: seq<char>, Y: seq<char>): (r: (seq<char>, seq<char>))
    ensures |r.0| == |r.1|
  {
    AlignOn(SeededGrid(X, Y), X, Y)
  }

  /** A walk over a grid whose only Start is the origin ends there, so stripping the gaps
      from the reconstruction gives back X and Y. */
  lemma OriginOnlyRoundTrip(g: seq<seq<State>>, X: seq<char>, Y: seq<char>)
    requires Sound(g, |X| + 1, |Y| + 1) && GapFree(X) && GapFree(Y)
    requires forall i, j :: 0 <= i <= |X| && 0 <= j <= |Y| && g[i][j] == Start ==> i == 0 && j == 0
    ensures Stop(g, X, Y) == (0, 0)
    ensures Strip(AlignOn(g, X, Y).0) == X && Strip(AlignOn(g, X, Y).1) == Y
  {
    AlignOnStrips(g, X, Y);
    assert X[..|X|] == X && Y[..|Y|] == Y;
  }

  /** With the boundary seeded, the walk always ends at the origin, so stripping the gaps
      from the reconstruction gives back X and Y for every input. */
  lemma SeededRoundTrip(X: seq<char>, Y: seq<char>)
    requires GapFree(X) && GapFree(Y)
    ensures Stop(SeededGrid(X, Y), X, Y) == (0, 0)
    ensures Strip(AlignSeeded(X, Y).0) == X && Strip(AlignSeeded(X, Y).1) == Y
  {
    OriginOnlyRoundTrip(SeededGrid(X, Y), X, Y);
  }
}

/** The driver: allocate the engine for two sequences, fill the grids, step the traceback
    until it reports None, reconstruct; and the driver's own inputs. */
module Driver {
  import opened States
  import opened Scoring
  import opened Traceback
  import opened Reconstruct
  import opened Engine
  import opened Pipeline
  import opened Optimality

  /** Two grids of the same shape that agree on every cell are equal. */
  lemma GridsEqual(g: seq<seq<State>>, h: seq<seq<State>>, rows: nat, cols: nat)
    requires Rect(g, rows, cols) && Rect(h, rows, cols)
    requires forall i, j :: 0 <= i < rows && 0 <= j < cols ==> g[i][j] == h[i][j]
    ensures g == h
  {
    forall i | 0 <= i < rows
      ensures g[i] == h[i]
    {
      assert |g[i]| == |h[i]| == cols;
    }
  }

  /** One traceback step moves the first tag of the remaining walk onto the path. */
  lemma StepKeepsPath(g: seq<seq<State>>, rows: nat, cols: nat, path: seq<State>, s: State, i: nat, j: nat,
                      path': seq<State>, s': State, i': nat, j': nat)
    requires Sound(g, rows, cols) && MoveOk(s, i, j, rows, cols) && s != Start
    requires i' == i - Dx(s) && j' == j - Dy(s) && s' == g[i'][j'] && path' == path + [s']
    ensures MoveOk(s', i', j', rows, cols)
    ensures path' + Walk(g, rows, cols, s', i', j') == path + Walk(g, rows, cols, s, i, j)
    ensures WalkEnd(g, rows, cols, s', i', j') == WalkEnd(g, rows, cols, s, i, j)
  {
    WalkUnfold(g, rows, cols, s, i, j);
    Regroup(path, s', Walk(g, rows, cols, s', i', j'));
  }

  /** Moving one tag from the front of the rest to the end of the prefix keeps the whole. */
  lemma Regroup(path: seq<State>, t: State, rest: seq<State>)
    ensures (path + [t]) + rest == path + ([t] + rest)
  {
  }

  /** One traceback step: the walk from (i, j) is the tag of the cell it moves to, then
      the walk from there, and both walks stop at the same cell. */
  lemma WalkUnfold(g: seq<seq<State>>, rows: nat, cols: nat, s: State, i: nat, j: nat)
    requires Sound(g, rows, cols) && MoveOk(s, i, j, rows, cols) && s != Start
    ensures var i', j' := i - Dx(s), j - Dy(s);
      && MoveOk(g[i'][j'], i', j', rows, cols)
      && Walk(g, rows, cols, s, i, j) == [g[i'][j']] + Walk(g, rows, cols, g[i'][j'], i', j')
      && WalkEnd(g, rows, cols, g[i'][j'], i', j') == WalkEnd(g, rows, cols, s, i, j)
  {
  }

  /** The path the traceback loop leaves is one the rebuild accepts. */
  lemma TracePathReady(g: seq<seq<State>>, X: seq<char>, Y: seq<char>)
    requires Sound(g, |X| + 1, |Y| + 1)
    ensures var path := TracePath(g, X, Y);
      && |path| >= 1 && path[0] == End && path[|path| - 1] == Start
      && (forall k :: 1 <= k < |path| ==> path[k] != End)
      && (forall k :: 0 <= k < |path| - 1 ==> path[k] != Start)
      && XUsed(path) <= |X| && YUsed(path) <= |Y|
  {
    TracePathShape(g, X, Y);
  }

  /** The first two steps of the driver: allocate the engine for X and Y and fill both
      grids. The traceback grid is then the tag grid of X and Y, and the traceback is
      ready to start from End beyond the last cell. */
  method NewFilled(X: seq<char>, Y: seq<char>) returns (aln: Alignment)
    requires |Y| <= |X|
    ensures fresh(aln) && aln.Valid()
    ensures aln.trace.Length0 == |X| + 1 && aln.trace.Length1 == |Y| + 1
    ensures aln.TraceGrid() == NWGrid(X, Y)
    ensures aln.path == [End] && aln.curState == End && aln.curXi == |X| + 1 && aln.curYj == |Y| + 1
  {
    aln := new Alignment(|X|, |Y|);
    aln.FillWholeMatrix(X, Y);
    GridsEqual(aln.TraceGrid(), NWGrid(X, Y), |X| + 1, |Y| + 1);
  }

  /** The driver's traceback loop: starting from Some((xLen, yLen)), step until the engine
      reports None; the coordinates it reports are not used. The path then holds, after
      what it held before, the whole walk from the cursor the loop started at. */
  method TraceToStart(aln: Alignment, xLen: nat, yLen: nat, ghost g: seq<seq<State>>)
    requires aln.Valid() && aln.TraceGrid() == g
    requires Sound(g, aln.trace.Length0, aln.trace.Length1)
    modifies aln
    ensures aln.Valid() && aln.TraceGrid() == g && aln.curState == Start
    ensures aln.path == old(aln.path) + Walk(g, aln.trace.Length0, aln.trace.Length1, old(aln.curState), old(aln.curXi), old(aln.curYj))
    ensures (aln.curXi, aln.curYj) == WalkEnd(g, aln.trace.Length0, aln.trace.Length1, old(aln.curState), old(aln.curXi), old(aln.curYj))
  {
    ghost var rows, cols := aln.trace.Length0, aln.trace.Length1;
    ghost var full := aln.path + Walk(g, rows, cols, aln.curState, aln.curXi, aln.curYj);
    ghost var stop := WalkEnd(g, rows, cols, aln.curState, aln.curXi, aln.curYj);
    var idxs: Option<(nat, nat)> := Some((xLen, yLen));
    while idxs.Some?
      invariant aln.Valid() && aln.trace.Length0 == rows && aln.trace.Length1 == cols
      invariant aln.TraceGrid() == g
      invariant aln.path + Walk(g, rows, cols, aln.curState, aln.curXi, aln.curYj) == full
      invariant WalkEnd(g, rows, cols, aln.curState, aln.curXi, aln.curYj) == stop
      invariant idxs.None? ==> aln.curState == Start
      decreases (if aln.curState == Start then 0 else aln.curXi + aln.curYj + 1) + (if idxs.Some? then 1 else 0)
    {
      ghost var path, s, i, j := aln.path, aln.curState, aln.curXi, aln.curYj;
      idxs := aln.Traceback();
      if s != Start {
        assert aln.curState == g[aln.curXi][aln.curYj];
        StepKeepsPath(g, rows, cols, path, s, i, j, aln.path, aln.curState, aln.curXi, aln.curYj);
      }
    }
  }

  /** The driver: allocate and fill the engine for X and Y, step the traceback until it
      reports None, and rebuild the aligned pair from the path. The result is the pure
      alignment of X and Y. The fill reads the grid's rows along X, so X must be at least
      as long as Y. */
  method AlignSequences(X: seq<char>, Y: seq<char>) returns (outX: seq<char>, outY: seq<char>)
    requires |Y| <= |X|
    ensures (outX, outY) == Align(X, Y)
  {
    var aln := NewFilled(X, Y);
    ghost var g := NWGrid(X, Y);
    TraceToStart(aln, |X|, |Y|, g);
    assert aln.path == TracePath(g, X, Y);
    TracePathReady(g, X, Y);
    outX, outY := aln.GetAlignment(X, Y);
    assert Align(X, Y) == AlignOn(g, X, Y) == Replay(Ops(aln.path), X, Y);
  }

  /** The first and second rows of the score grid for the driver's inputs. */
  lemma ExampleScores1(X: seq<char>, Y: seq<char>)
    requires X == "GAATTC" && Y == "GATTA"
    ensures Score(X, Y, 1, 1) == 2 && Score(X, Y, 1, 2) == 0 && Score(X, Y, 1, 3) == -2 && Score(X, Y, 1, 4) == -4 && Score(X, Y, 1, 5) == -6
    ensures Score(X, Y, 2, 1) == 0 && Score(X, Y, 2, 2) == 4 && Score(X, Y, 2, 3) == 2 && Score(X, Y, 2, 4) == 0 && Score(X, Y, 2, 5) == -2
  {
    assert Score(X, Y, 1, 1) == 2 && Score(X, Y, 1, 2) == 0 && Score(X, Y, 1, 3) == -2 && Score(X, Y, 1, 4) == -4 && Score(X, Y, 1, 5) == -6;
  }

  /** The third and fourth rows of the score grid for the driver's inputs. */
  lemma ExampleScores3(X: seq<char>, Y: seq<char>)
    requires X == "GAATTC" && Y == "GATTA"
    requires Score(X, Y, 2, 1) == 0 && Score(X, Y, 2, 2) == 4 && Score(X, Y, 2, 3) == 2 && Score(X, Y, 2, 4) == 0 && Score(X, Y, 2, 5) == -2
    ensures Score(X, Y, 3, 1) == -2 && Score(X, Y, 3, 2) == 2 && Score(X, Y, 3, 3) == 3 && Score(X, Y, 3, 4) == 1 && Score(X, Y, 3, 5) == 2
    ensures Score(X, Y, 4, 1) == -4 && Score(X, Y, 4, 2) == 0 && Score(X, Y, 4, 3) == 4 && Score(X, Y, 4, 4) == 5 && Score(X, Y, 4, 5) == 3
  {
    assert Score(X, Y, 3, 1) == -2 && Score(X, Y, 3, 2) == 2 && Score(X, Y, 3, 3) == 3 && Score(X, Y, 3, 4) == 1 && Score(X, Y, 3, 5) == 2;
  }

  /** The fifth and sixth rows of the score grid for the driver's inputs. */
  lemma ExampleScores5(X: seq<char>, Y: seq<char>)
    requires X == "GAATTC" && Y == "GATTA"
    requires Score(X, Y, 4, 1) == -4 && Score(X, Y, 4, 2) == 0 && Score(X, Y, 4, 3) == 4 && Score(X, Y, 4, 4) == 5 && Score(X, Y, 4, 5) == 3
    ensures Score(X, Y, 5, 1) == -6 && Score(X, Y, 5, 2) == -2 && Score(X, Y, 5, 3) == 2 && Score(X, Y, 5, 4) == 6 && Score(X, Y, 5, 5) == 4
    ensures Score(X, Y, 6, 1) == -8 && Score(X, Y, 6, 2) == -4 && Score(X, Y, 6, 3) == 0 && Score(X, Y, 6, 4) == 4 && Score(X, Y, 6, 5) == 5
  {
    assert Score(X, Y, 5, 1) == -6 && Score(X, Y, 5, 2) == -2 && Score(X, Y, 5, 3) == 2 && Score(X, Y, 5, 4) == 6 && Score(X, Y, 5, 5) == 4;
  }

  /** The score grid the fill produces for the driver's inputs; the terminal cell holds 5. */
  lemma ExampleScores(X: seq<char>, Y: seq<char>)
    requires X == "GAATTC" && Y == "GATTA"
    ensures Score(X, Y, 1, 1) == 2 && Score(X, Y, 1, 2) == 0 && Score(X, Y, 1, 3) == -2 && Score(X, Y, 1, 4) == -4 && Score(X, Y, 1, 5) == -6
    ensures Score(X, Y, 2, 1) == 0 && Score(X, Y, 2, 2) == 4 && Score(X, Y, 2, 3) == 2 && Score(X, Y, 2, 4) == 0 && Score(X, Y, 2, 5) == -2
    ensures Score(X, Y, 3, 1) == -2 && Score(X, Y, 3, 2) == 2 && Score(X, Y, 3, 3) == 3 && Score(X, Y, 3, 4) == 1 && Score(X, Y, 3, 5) == 2
    ensures Score(X, Y, 4, 1) == -4 && Score(X, Y, 4, 2) == 0 && Score(X, Y, 4, 3) == 4 && Score(X, Y, 4, 4) == 5 && Score(X, Y, 4, 5) == 3
    ensures Score(X, Y, 5, 1) == -6 && Score(X, Y, 5, 2) == -2 && Score(X, Y, 5, 3) == 2 && Score(X, Y, 5, 4) == 6 && Score(X, Y, 5, 5) == 4
    ensures Score(X, Y, 6, 1) == -8 && Score(X, Y, 6, 2) == -4 && Score(X, Y, 6, 3) == 0 && Score(X, Y, 6, 4) == 4 && Score(X, Y, 6, 5) == 5
  {
    ExampleScores1(X, Y);
    ExampleScores3(X, Y);
    ExampleScores5(X, Y);
  }

  /** The tags the driver's walk meets, on any sound grid of its size. */
  predicate ExampleTagged(g: seq<seq<State>>)
  {
    Sound(g, 7, 6)
    && g[6][5] == Diagonal && g[5][4] == Diagonal && g[4][3] == Diagonal && g[3][2] == Diagonal
    && g[2][1] == Left && g[1][1] == Diagonal && g[0][0] == Start
  }

  /** The tags of the cells the traceback visits for the driver's inputs. */
  lemma ExampleTags(X: seq<char>, Y: seq<char>)
    requires X == "GAATTC" && Y == "GATTA"
    ensures ExampleTagged(NWGrid(X, Y))
  {
    ExampleScores(X, Y);
  }

  /** The last steps of the driver's walk, from (3, 2) to the origin. */
  lemma ExampleWalkEnd(g: seq<seq<State>>)
    requires ExampleTagged(g)
    ensures Walk(g, 7, 6, Diagonal, 3, 2) == [Left, Diagonal, Start]
    ensures WalkEnd(g, 7, 6, Diagonal, 3, 2) == (0, 0)
  {
    assert Walk(g, 7, 6, Start, 0, 0) == [] && WalkEnd(g, 7, 6, Start, 0, 0) == (0, 0);
    assert Walk(g, 7, 6, Diagonal, 1, 1) == [Start] && WalkEnd(g, 7, 6, Diagonal, 1, 1) == (0, 0);
    assert Walk(g, 7, 6, Left, 2, 1) == [Diagonal, Start] && WalkEnd(g, 7, 6, Left, 2, 1) == (0, 0);
  }

  /** The driver's whole walk, from past the corner to the origin. */
  lemma ExampleWalk(g: seq<seq<State>>)
    requires ExampleTagged(g)
    ensures Walk(g, 7, 6, End, 7, 6) == [Diagonal, Diagonal, Diagonal, Diagonal, Left, Diagonal, Start]
    ensures WalkEnd(g, 7, 6, End, 7, 6) == (0, 0)
  {
    ExampleWalkEnd(g);
    assert Walk(g, 7, 6, Diagonal, 4, 3) == [Diagonal, Left, Diagonal, Start] && WalkEnd(g, 7, 6, Diagonal, 4, 3) == (0, 0);
    assert Walk(g, 7, 6, Diagonal, 5, 4) == [Diagonal, Diagonal, Left, Diagonal, Start] && WalkEnd(g, 7, 6, Diagonal, 5, 4) == (0, 0);
    assert Walk(g, 7, 6, Diagonal, 6, 5) == [Diagonal, Diagonal, Diagonal, Left, Diagonal, Start] && WalkEnd(g, 7, 6, Diagonal, 6, 5) == (0, 0);
  }

  /** The path the traceback leaves on a grid with the driver's tags. */
  lemma ExamplePath(g: seq<seq<State>>, X: seq<char>, Y: seq<char>)
    requires |X| == 6 && |Y| == 5 && ExampleTagged(g)
    ensures Sound(g, |X| + 1, |Y| + 1)
    ensures TracePath(g, X, Y) == [End, Diagonal, Diagonal, Diagonal, Diagonal, Left, Diagonal, Start]
    ensures Stop(g, X, Y) == (0, 0)
  {
    ExampleWalk(g);
  }

  /** One more tag replayed after p, whose replay is (a, b) with cursors (i, j): the column
      it adds, spelled out. */
  lemma ReplayStep(p: seq<State>, t: State, X: seq<char>, Y: seq<char>, i: nat, j: nat,
                   a: seq<char>, b: seq<char>) returns (q: seq<State>, a': seq<char>, b': seq<char>)
    requires Replayable(p) && t != Start && XUsed(p) == i && YUsed(p) == j
    requires i + TakesX(t) <= |X| && j + TakesY(t) <= |Y|
    requires Replay(p, X, Y) == (a, b)
    ensures q == p + [t] && Replayable(q) && XUsed(q) == i + TakesX(t) && YUsed(q) == j + TakesY(t)
    ensures Replay(q, X, Y) == (a', b')
    ensures a' == a + (if t == Diagonal || t == Left then [X[i]] else if t == Up then [GapSymbol] else [])
    ensures b' == b + (if t == Diagonal || t == Up then [Y[j]] else if t == Left then [GapSymbol] else [])
  {
    UsedLast(p, t);
    ReplayAppend(p, t, X, Y);
    q := p + [t];
    a', b' := Replay(q, X, Y).0, Replay(q, X, Y).1;
  }

  /** The tags the driver's alignment is rebuilt from, origin first. */
  lemma ExampleOps(g: seq<seq<State>>, X: seq<char>, Y: seq<char>)
    requires |X| == 6 && |Y| == 5 && ExampleTagged(g)
    ensures Sound(g, |X| + 1, |Y| + 1)
    ensures Ops(TracePath(g, X, Y)) == [Diagonal, Left, Diagonal, Diagonal, Diagonal, Diagonal, End]
  {
    ExamplePath(g, X, Y);
  }

  /** The first four tags of the driver's path, origin first, replayed. */
  lemma ExampleReplayHead(X: seq<char>, Y: seq<char>) returns (q: seq<State>, a: seq<char>, b: seq<char>)
    requires |X| == 6 && |Y| == 5
    ensures q == [] + [Diagonal] + [Left] + [Diagonal] + [Diagonal]
    ensures Replayable(q) && XUsed(q) == 4 && YUsed(q) == 3 && Replay(q, X, Y) == (a, b)
    ensures a == [] + [X[0]] + [X[1]] + [X[2]] + [X[3]]
    ensures b == [] + [Y[0]] + [GapSymbol] + [Y[1]] + [Y[2]]
  {
    var q1, a1, b1 := ReplayStep([], Diagonal, X, Y, 0, 0, [], []);
    var q2, a2, b2 := ReplayStep(q1, Left, X, Y, 1, 1, a1, b1);
    var q3, a3, b3 := ReplayStep(q2, Diagonal, X, Y, 2, 1, a2, b2);
    q, a, b := ReplayStep(q3, Diagonal, X, Y, 3, 2, a3, b3);
  }

  /** The last three tags of the driver's path replayed after the first four. */
  lemma ExampleReplayTail(p: seq<State>, X: seq<char>, Y: seq<char>, a: seq<char>, b: seq<char>)
    returns (q: seq<State>, a': seq<char>, b': seq<char>)
    requires |X| == 6 && |Y| == 5
    requires Replayable(p) && XUsed(p) == 4 && YUsed(p) == 3 && Replay(p, X, Y) == (a, b)
    ensures q == p + [Diagonal] + [Diagonal] + [End]
    ensures Replayable(q) && XUsed(q) == 6 && YUsed(q) == 5 && Replay(q, X, Y) == (a', b')
    ensures a' == a + [X[4]] + [X[5]] && b' == b + [Y[3]] + [Y[4]]
  {
    var q5, a5, b5 := ReplayStep(p, Diagonal, X, Y, 4, 3, a, b);
    var q6, a6, b6 := ReplayStep(q5, Diagonal, X, Y, 5, 4, a5, b5);
    q, a', b' := ReplayStep(q6, End, X, Y, 6, 5, a6, b6);
    assert a' == a6;
  }

  /** Replaying the driver's tags, origin first, reads X in full and Y with one gap
      after its first symbol. */
  lemma ExampleReplay(ops: seq<State>, X: seq<char>, Y: seq<char>)
    requires |X| == 6 && |Y| == 5
    requires ops == [Diagonal, Left, Diagonal, Diagonal, Diagonal, Diagonal, End]
    ensures Replayable(ops) && XUsed(ops) <= |X| && YUsed(ops) <= |Y|
    ensures Replay(ops, X, Y).0 == [X[0], X[1], X[2], X[3], X[4], X[5]]
    ensures Replay(ops, X, Y).1 == [Y[0], GapSymbol, Y[1], Y[2], Y[3], Y[4]]
  {
    var p, a, b := ExampleReplayHead(X, Y);
    var q, a', b' := ExampleReplayTail(p, X, Y, a, b);
    assert q == ops;
  }

  /** The aligned pair the engine produces for the driver's inputs. */
  lemma ExampleAlignment(X: seq<char>, Y: seq<char>)
    requires X == "GAATTC" && Y == "GATTA"
    ensures Align(X, Y) == ("GAATTC", "G-ATTA")
  {
    var g := NWGrid(X, Y);
    ExampleTags(X, Y);
    ExampleOps(g, X, Y);
    var ops := Ops(TracePath(g, X, Y));
    ExampleReplay(ops, X, Y);
    assert Align(X, Y) == AlignOn(g, X, Y) == Replay(ops, X, Y);
  }

  /** The driver's output scores the optimum of the score grid, 5. */
  lemma ExampleOptimal(X: seq<char>, Y: seq<char>)
    requires X == "GAATTC" && Y == "GATTA"
    ensures ColumnScore(Align(X, Y).0, Align(X, Y).1) == Score(X, Y, |X|, |Y|) == 5
  {
    var r := Align(X, Y);
    assert r == ("GAATTC", "G-ATTA") by {
      ExampleAlignment(X, Y);
    }
    assert ColumnScore(r.0, r.1) == 5 by {
      ExampleColumns();
    }
    assert Score(X, Y, 6, 5) == 5 by {
      ExampleScores(X, Y);
    }
  }

  /** Column by column, G/G, A/-, A/A, T/T, T/T and C/A score 2, -2, 2, 2, 2 and -1. */
  lemma ExampleColumns()
    ensures ColumnScore("GAATTC", "G-ATTA") == 5
  {
    assert "GA"[..1] == "G" && "G-"[..1] == "G";
    assert ColumnScore("GA", "G-") == 0;
    assert "GAA"[..2] == "GA" && "G-A"[..2] == "G-";
    assert ColumnScore("GAA", "G-A") == 2;
    assert "GAAT"[..3] == "GAA" && "G-AT"[..3] == "G-A";
    assert ColumnScore("GAAT", "G-AT") == 4;
    assert "GAATT"[..4] == "GAAT" && "G-ATT"[..4] == "G-AT";
    assert ColumnScore("GAATT", "G-ATT") == 6;
    assert "GAATTC"[..5] == "GAATT" && "G-ATTA"[..5] == "G-ATT";
  }

  /** The driver's own run: "GAATTC" against "GATTA" prints "GAATTC" over "G-ATTA". */
  method RunExample() returns (outX: seq<char>, outY: seq<char>)
    ensures outX == "GAATTC" && outY == "G-ATTA"
  {
    var m := "GAATTC";
    var n := "GATTA";
    outX, outY := AlignSequences(m, n);
    ExampleAlignment(m, n);
  }

  /** When the traceback runs into column 0 at row 1, the walk covers only the last symbol
      of X, but the rebuild reads X from its first symbol: the last symbol of X is lost, and
      the column the walk matched ("B" with "B") is printed as "A" over "B". */
  lemma OriginMissed(X: seq<char>, Y: seq<char>)
    requires X == "AB" && Y == "B"
    ensures Stop(NWGrid(X, Y), X, Y) == (1, 0)
    ensures Align(X, Y) == ("A", "B")
    ensures Strip(Align(X, Y).0) != X
  {
    var g := NWGrid(X, Y);
    OriginMissedTags(X, Y);
    OriginMissedPath(g, X, Y);
    var ops := Ops(TracePath(g, X, Y));
    OriginMissedReplay(ops, X, Y);
    assert Align(X, Y) == AlignOn(g, X, Y) == Replay(ops, X, Y);
  }

  /** The engine's tags for "AB" against "B" on the cells the walk meets. */
  lemma OriginMissedTags(X: seq<char>, Y: seq<char>)
    requires X == "AB" && Y == "B"
    ensures var g := NWGrid(X, Y); Sound(g, 3, 2) && g[2][1] == Diagonal && g[1][0] == Start
  {
    assert Score(X, Y, 1, 1) == -1;
    assert Score(X, Y, 2, 1) == 0;
  }

  /** On a grid with those tags the walk takes one Diagonal step from past the corner to
      (2, 1), one more to (1, 0), which holds Start. */
  lemma OriginMissedPath(g: seq<seq<State>>, X: seq<char>, Y: seq<char>)
    requires |X| == 2 && |Y| == 1
    requires Sound(g, 3, 2) && g[2][1] == Diagonal && g[1][0] == Start
    ensures Sound(g, |X| + 1, |Y| + 1)
    ensures Stop(g, X, Y) == (1, 0)
    ensures Ops(TracePath(g, X, Y)) == [Diagonal, End]
  {
    assert WalkEnd(g, 3, 2, Diagonal, 2, 1) == (1, 0);
    assert Walk(g, 3, 2, Start, 1, 0) == [];
    assert Walk(g, 3, 2, Diagonal, 2, 1) == [Start];
    assert Walk(g, 3, 2, End, 3, 2) == [Diagonal, Start];
  }

  /** Replaying that walk's tags reads both inputs from their first symbol. */
  lemma OriginMissedReplay(ops: seq<State>, X: seq<char>, Y: seq<char>)
    requires |X| == 2 && |Y| == 1 && ops == [Diagonal, End]
    ensures Replayable(ops) && XUsed(ops) <= |X| && YUsed(ops) <= |Y|
    ensures Replay(ops, X, Y).0 == [X[0]] && Replay(ops, X, Y).1 == [Y[0]]
  {
    var q1, a1, b1 := ReplayStep([], Diagonal, X, Y, 0, 0, [], []);
    var q2, a2, b2 := ReplayStep(q1, End, X, Y, 1, 1, a1, b1);
    assert q2 == ops;
  }

  /** The seeded tags for "AB" against "B" on the cells the walk meets. */
  lemma OriginSeededTags(X: seq<char>, Y: seq<char>)
    requires X == "AB" && Y == "B"
    ensures var g := SeededGrid(X, Y);
      Sound(g, 3, 2) && g[2][1] == Diagonal && g[1][0] == Left && g[0][0] == Start
  {
    assert Score(X, Y, 1, 1) == -1;
    assert Score(X, Y, 2, 1) == 0;
    assert NWGrid(X, Y)[2][1] == Diagonal;
  }

  /** With the boundary seeded, the same walk continues from (1, 0) through column 0 to
      the origin. */
  lemma OriginSeededPath(g: seq<seq<State>>, X: seq<char>, Y: seq<char>)
    requires |X| == 2 && |Y| == 1
    requires Sound(g, 3, 2) && g[2][1] == Diagonal && g[1][0] == Left && g[0][0] == Start
    ensures Sound(g, |X| + 1, |Y| + 1)
    ensures Stop(g, X, Y) == (0, 0)
    ensures Ops(TracePath(g, X, Y)) == [Left, Diagonal, End]
  {
    assert WalkEnd(g, 3, 2, Left, 1, 0) == (0, 0);
    assert WalkEnd(g, 3, 2, Diagonal, 2, 1) == (0, 0);
    assert Walk(g, 3, 2, Start, 0, 0) == [];
    assert Walk(g, 3, 2, Left, 1, 0) == [Start];
    assert Walk(g, 3, 2, Diagonal, 2, 1) == [Left, Start];
    assert Walk(g, 3, 2, End, 3, 2) == [Diagonal, Left, Start];
  }

  /** Replaying the seeded walk's tags reads X whole and Y after one gap. */
  lemma OriginSeededReplay(ops: seq<State>, X: seq<char>, Y: seq<char>)
    requires |X| == 2 && |Y| == 1 && ops == [Left, Diagonal, End]
    ensures Replayable(ops) && XUsed(ops) <= |X| && YUsed(ops) <= |Y|
    ensures Replay(ops, X, Y).0 == [X[0], X[1]] && Replay(ops, X, Y).1 == [GapSymbol, Y[0]]
  {
    var q1, a1, b1 := ReplayStep([], Left, X, Y, 0, 0, [], []);
    var q2, a2, b2 := ReplayStep(q1, Diagonal, X, Y, 1, 0, a1, b1);
    var q3, a3, b3 := ReplayStep(q2, End, X, Y, 2, 1, a2, b2);
    assert q3 == ops;
  }

  /** With the boundary seeded, "AB" against "B" comes out whole: "AB" over "-B". */
  lemma OriginSeeded(X: seq<char>, Y: seq<char>)
    requires X == "AB" && Y == "B"
    ensures AlignSeeded(X, Y) == ("AB", "-B")
  {
    var g := SeededGrid(X, Y);
    OriginSeededTags(X, Y);
    OriginSeededPath(g, X, Y);
    var ops := Ops(TracePath(g, X, Y));
    OriginSeededReplay(ops, X, Y);
    assert AlignSeeded(X, Y) == AlignOn(g, X, Y) == Replay(ops, X, Y);
  }
}

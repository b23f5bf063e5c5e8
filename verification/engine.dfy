/** The alignment engine: score grid, traceback grid and traceback cursor, updated in place. */
module Engine {
  import opened States
  import opened Scoring
  import opened Traceback
  import opened Reconstruct

  /** The path in the order the reconstruction reads it: reversed, first tag skipped. */
  function Ops(path: seq<State>): (ops: seq<State>)
    requires |path| >= 1
    ensures |ops| == |path| - 1
    ensures forall k :: 0 <= k < |ops| ==> ops[k] == path[|path| - 2 - k]
  {
    Reverse(path)[1..]
  }

  /** Read backwards, a path that starts with its only End and ends with its only Start
      gives tags without Start whose only End is the last one, consuming what the path
      consumes. */
  lemma OpsFacts(path: seq<State>)
    requires |path| >= 2 && path[0] == End && path[|path| - 1] == Start
    requires forall k :: 1 <= k < |path| ==> path[k] != End
    requires forall k :: 0 <= k < |path| - 1 ==> path[k] != Start
    ensures Replayable(Ops(path))
    ensures forall k :: 0 <= k < |path| - 2 ==> Ops(path)[k] != End
    ensures XUsed(Ops(path)) == XUsed(path) && YUsed(Ops(path)) == YUsed(path)
  {
    OpsUsed(path);
  }

  /** Dropping the Start that the reversed path begins with consumes nothing. */
  lemma OpsUsed(path: seq<State>)
    requires |path| >= 1 && path[|path| - 1] == Start
    ensures XUsed(Ops(path)) == XUsed(path) && YUsed(Ops(path)) == YUsed(path)
  {
    var rev := Reverse(path);
    ReverseKeepsUsed(path);
    HeadTail(rev);
    assert rev[0] == Start && rev[1..] == Ops(path);
    UsedAppend([Start], rev[1..]);
    assert [Start][..0] == [];
  }

  /** A traceback path: the End sentinel first and nowhere else. */
  predicate EndFirst(path: seq<State>)
  {
    |path| >= 1 && path[0] == End && forall k :: 1 <= k < |path| ==> path[k] != End
  }

  /** Pushing a tag other than End keeps the sentinel first and only. */
  lemma PushKeepsEndFirst(path: seq<State>, t: State)
    requires EndFirst(path) && t != End
    ensures EndFirst(path + [t])
  {
    assert forall k :: 1 <= k < |path| ==> (path + [t])[k] == path[k];
  }

  class Alignment {
    /** Tags pushed by the traceback, the first one being the End sentinel. */
    var path: seq<State>
    var curState: State
    /** Score grid: row i is the prefix of X of length i, column j the prefix of Y of length j. */
    const matrix: array2<int>
    /** Traceback grid, of the same dimensions as the score grid. */
    const trace: array2<State>
    var curXi: nat
    var curYj: nat

    /** The grids have one row and one column more than the sequences, every traceback tag
        can be followed without leaving the grid, the path starts with its only End, and
        the next traceback step stays inside the grid. */
    ghost predicate Valid()
      reads this, trace
    {
      && matrix.Length0 == trace.Length0 >= 1
      && matrix.Length1 == trace.Length1 >= 1
      && (forall i, j :: 0 <= i < trace.Length0 && 0 <= j < trace.Length1 ==>
            trace[i, j] != End && Dx(trace[i, j]) <= i && Dy(trace[i, j]) <= j)
      && EndFirst(path)
      && MoveOk(curState, curXi, curYj, trace.Length0, trace.Length1)
    }

    /** The traceback grid as a sequence of rows. */
    ghost function TraceGrid(): (g: seq<seq<State>>)
      reads trace
      ensures Rect(g, trace.Length0, trace.Length1)
      ensures forall i, j :: 0 <= i < trace.Length0 && 0 <= j < trace.Length1 ==> g[i][j] == trace[i, j]
    {
      seq(trace.Length0, i requires 0 <= i < trace.Length0 reads trace =>
        seq(trace.Length1, j requires 0 <= j < trace.Length1 reads trace => trace[i, j]))
    }

    /** Grids of (xsSize + 1) x (ysSize + 1) cells, scores 0 and tags Start; the path holds
        the End sentinel and the cursor sits one cell past the bottom-right corner. */
    constructor (xsSize: nat, ysSize: nat)
      ensures Valid() && fresh(matrix) && fresh(trace)
      ensures matrix.Length0 == xsSize + 1 && matrix.Length1 == ysSize + 1
      ensures forall i, j :: 0 <= i <= xsSize && 0 <= j <= ysSize ==> matrix[i, j] == 0 && trace[i, j] == Start
      ensures path == [End] && curState == End
      ensures curXi == xsSize + 1 && curYj == ysSize + 1
    {
      matrix := new int[xsSize + 1, ysSize + 1]((i, j) => 0);
      trace := new State[xsSize + 1, ysSize + 1]((i, j) => Start);
      path := [End];
      curState := End;
      curXi := xsSize + 1;
      curYj := ysSize + 1;
    }

    /** Scores interior cell (i, j) from its three neighbours, records the tie-break in the
        traceback grid and returns the cell's score; no other cell changes. */
    method CalcScore(charXi: char, charYj: char, i: nat, j: nat) returns (r: int)
      requires Valid()
      requires 1 <= i < matrix.Length0 && 1 <= j < matrix.Length1
      modifies trace
      ensures Valid()
      ensures r == Max3(matrix[i - 1, j - 1] + Sub(charXi, charYj), matrix[i, j - 1] + Gap, matrix[i - 1, j] + Gap)
      ensures trace[i, j] == Pick(matrix[i - 1, j - 1] + Sub(charXi, charYj), matrix[i, j - 1] + Gap, matrix[i - 1, j] + Gap)
      ensures trace[i, j] == Diagonal ==> r == matrix[i - 1, j - 1] + Sub(charXi, charYj)
      ensures trace[i, j] == Up ==> r == matrix[i, j - 1] + Gap
      ensures trace[i, j] == Left ==> r == matrix[i - 1, j] + Gap
      ensures forall p, q :: 0 <= p < trace.Length0 && 0 <= q < trace.Length1 && (p != i || q != j) ==>
                trace[p, q] == old(trace[p, q])
    {
      var s := Sub(charXi, charYj);
      var diagonalScore := matrix[i - 1, j - 1] + s;
      var upScore := matrix[i, j - 1] - 2;
      var leftScore := matrix[i - 1, j] - 2;
      if diagonalScore >= upScore && diagonalScore >= leftScore {
        trace[i, j] := Diagonal;
      } else if diagonalScore < upScore && upScore >= leftScore {
        trace[i, j] := Up;
      } else {
        trace[i, j] := Left;
      }
      r := Max3(diagonalScore, upScore, leftScore);
    }

    /** Stores the score CalcScore computes for interior cell (row, col) of X = m and Y = n,
        whose three neighbours already hold their optimal scores: the cell then holds its
        own optimal score and tie-break tag, and no other cell of either grid changes. */
    method FillCell(m: seq<char>, n: seq<char>, row: nat, col: nat)
      requires Valid() && Seeded()
      requires 1 <= row < matrix.Length0 && 1 <= col < matrix.Length1 && row <= |m| && col <= |n|
      requires matrix[row - 1, col - 1] == Score(m, n, row - 1, col - 1)
      requires matrix[row, col - 1] == Score(m, n, row, col - 1)
      requires matrix[row - 1, col] == Score(m, n, row - 1, col)
      modifies matrix, trace
      ensures Valid() && Seeded()
      ensures matrix[row, col] == Score(m, n, row, col) && trace[row, col] == Choice(m, n, row, col)
      ensures forall a, b :: 0 <= a < matrix.Length0 && 0 <= b < matrix.Length1 && (a != row || b != col) ==>
                matrix[a, b] == old(matrix[a, b])
      ensures forall a, b :: 0 <= a < trace.Length0 && 0 <= b < trace.Length1 && (a != row || b != col) ==>
                trace[a, b] == old(trace[a, b])
    {
      ScoreStep(m, n, row, col, matrix[row - 1, col - 1], matrix[row, col - 1], matrix[row - 1, col]);
      var r := CalcScore(m[row - 1], n[col - 1], row, col);
      matrix[row, col] := r;
    }

    /** Row 0 and column 0 hold the cumulative gap cost. */
    ghost predicate Seeded()
      reads matrix
    {
      && (forall a :: 0 <= a < matrix.Length0 && 0 < matrix.Length1 ==> matrix[a, 0] == -2 * a)
      && (forall b :: 0 <= b < matrix.Length1 && 0 < matrix.Length0 ==> matrix[0, b] == -2 * b)
    }

    /** Seeds row 0 and column 0 with the cumulative gap cost, then fills the interior in
        square shells (for k = 1 .. cols - 1: column k above the diagonal, row k left of it,
        then cell (k, k)) and finally the rows below the square, row by row. Every interior
        cell ends up holding the optimal score of its prefix pair and the tie-break tag;
        boundary tags are left as they were. Each cell is scored after its three
        neighbours, so CalcScore reads finished scores only. */
    method FillWholeMatrix(m: seq<char>, n: seq<char>)
      requires Valid()
      requires matrix.Length1 <= matrix.Length0
      requires matrix.Length1 == 1 || matrix.Length0 <= |m| + 1
      requires matrix.Length1 <= |n| + 1
      modifies matrix, trace
      ensures Valid()
      ensures forall i :: 0 <= i < matrix.Length0 ==> matrix[i, 0] == -2 * i
      ensures forall j :: 0 <= j < matrix.Length1 ==> matrix[0, j] == -2 * j
      ensures forall i, j :: 1 <= i < matrix.Length0 && 1 <= j < matrix.Length1 ==>
                matrix[i, j] == Score(m, n, i, j) && trace[i, j] == Choice(m, n, i, j)
      ensures forall i, j :: 0 <= i < matrix.Length0 && 0 <= j < matrix.Length1 && (i == 0 || j == 0) ==>
                trace[i, j] == old(trace[i, j])
    {
      var xLen := matrix.Length0;
      var yLen := matrix.Length1;

      for xIdx := 0 to xLen
        modifies matrix
        invariant forall i :: 0 <= i < xIdx ==> matrix[i, 0] == -2 * i
      {
        matrix[xIdx, 0] := xIdx * -2;
      }

      for yIdx := 0 to yLen
        modifies matrix
        invariant forall i :: 0 <= i < xLen ==> matrix[i, 0] == -2 * i
        invariant forall j :: 0 <= j < yIdx ==> matrix[0, j] == -2 * j
      {
        matrix[0, yIdx] := yIdx * -2;
      }

      // Square shells along the main diagonal.
      for i := 0 to yLen - 1
        invariant Valid() && Seeded()
        invariant forall a, b :: 0 <= a < xLen && 0 <= b < yLen && (a == 0 || b == 0) ==> trace[a, b] == old(trace[a, b])
        invariant forall a, b {:trigger matrix[a, b]} {:trigger trace[a, b]} :: 1 <= a <= i && 1 <= b <= i ==>
                    matrix[a, b] == Score(m, n, a, b) && trace[a, b] == Choice(m, n, a, b)
      {
        FillShell(m, n, i);
      }

      // Rows below the square, when X is longer than Y.
      for c := yLen to xLen
        invariant Valid() && Seeded()
        invariant forall a, b :: 0 <= a < xLen && 0 <= b < yLen && (a == 0 || b == 0) ==> trace[a, b] == old(trace[a, b])
        invariant forall a, b {:trigger matrix[a, b]} {:trigger trace[a, b]} :: 1 <= a < c && 1 <= b < yLen ==>
                    matrix[a, b] == Score(m, n, a, b) && trace[a, b] == Choice(m, n, a, b)
      {
        FillRow(m, n, c);
      }
    }

    /** Shell i + 1 of the square fill: column i + 1 down to row i, row i + 1 up to
        column i, then the diagonal cell (i + 1, i + 1). */
    method FillShell(m: seq<char>, n: seq<char>, i: nat)
      requires Valid() && Seeded()
      requires i + 1 < matrix.Length1 <= matrix.Length0 <= |m| + 1 && matrix.Length1 <= |n| + 1
      requires forall a, b {:trigger matrix[a, b]} {:trigger trace[a, b]} :: 1 <= a <= i && 1 <= b <= i ==>
                 matrix[a, b] == Score(m, n, a, b) && trace[a, b] == Choice(m, n, a, b)
      modifies matrix, trace
      ensures Valid() && Seeded()
      ensures forall a, b :: 0 <= a < matrix.Length0 && 0 <= b < matrix.Length1 && !(1 <= a <= i + 1 && 1 <= b <= i + 1 && (a == i + 1 || b == i + 1)) ==>
                matrix[a, b] == old(matrix[a, b]) && trace[a, b] == old(trace[a, b])
      ensures forall a, b {:trigger matrix[a, b]} {:trigger trace[a, b]} :: 1 <= a <= i + 1 && 1 <= b <= i + 1 ==>
                matrix[a, b] == Score(m, n, a, b) && trace[a, b] == Choice(m, n, a, b)
    {
      var j := i;
      FillShellColumn(m, n, i);
      FillShellRow(m, n, i);
      FillCell(m, n, i + 1, j + 1);
    }

    /** Column i + 1 of shell i + 1, rows 1 to i, top to bottom. */
    method FillShellColumn(m: seq<char>, n: seq<char>, i: nat)
      requires Valid() && Seeded()
      requires i + 1 < matrix.Length1 <= matrix.Length0 <= |m| + 1 && matrix.Length1 <= |n| + 1
      requires forall a, b {:trigger matrix[a, b]} {:trigger trace[a, b]} :: 1 <= a <= i && 1 <= b <= i ==>
                 matrix[a, b] == Score(m, n, a, b) && trace[a, b] == Choice(m, n, a, b)
      modifies matrix, trace
      ensures Valid() && Seeded()
      ensures forall a, b :: 0 <= a < matrix.Length0 && 0 <= b < matrix.Length1 && !(1 <= a <= i && b == i + 1) ==>
                matrix[a, b] == old(matrix[a, b]) && trace[a, b] == old(trace[a, b])
      ensures forall a, b {:trigger matrix[a, b]} {:trigger trace[a, b]} :: 1 <= a <= i && 1 <= b <= i + 1 ==>
                matrix[a, b] == Score(m, n, a, b) && trace[a, b] == Choice(m, n, a, b)
    {
      var j := i;
      var col := j + 1;
      for xIdx := 1 to i + 1
        invariant Valid() && Seeded()
        invariant forall a, b :: 0 <= a < matrix.Length0 && 0 <= b < matrix.Length1 && !(1 <= a < xIdx && b == col) ==>
                    matrix[a, b] == old(matrix[a, b]) && trace[a, b] == old(trace[a, b])
        invariant forall a, b {:trigger matrix[a, b]} {:trigger trace[a, b]} :: 1 <= a <= i && 1 <= b <= i ==>
                    matrix[a, b] == Score(m, n, a, b) && trace[a, b] == Choice(m, n, a, b)
        invariant forall a {:trigger matrix[a, col]} {:trigger trace[a, col]} :: 1 <= a < xIdx ==>
                    matrix[a, col] == Score(m, n, a, col) && trace[a, col] == Choice(m, n, a, col)
      {
        FillCell(m, n, xIdx, col);
      }
    }

    /** Row i + 1 of shell i + 1, columns 1 to i, left to right. */
    method FillShellRow(m: seq<char>, n: seq<char>, i: nat)
      requires Valid() && Seeded()
      requires i + 1 < matrix.Length1 <= matrix.Length0 <= |m| + 1 && matrix.Length1 <= |n| + 1
      requires forall a, b {:trigger matrix[a, b]} {:trigger trace[a, b]} :: 1 <= a <= i && 1 <= b <= i + 1 ==>
                 matrix[a, b] == Score(m, n, a, b) && trace[a, b] == Choice(m, n, a, b)
      modifies matrix, trace
      ensures Valid() && Seeded()
      ensures forall a, b :: 0 <= a < matrix.Length0 && 0 <= b < matrix.Length1 && !(a == i + 1 && 1 <= b <= i) ==>
                matrix[a, b] == old(matrix[a, b]) && trace[a, b] == old(trace[a, b])
      ensures forall a, b {:trigger matrix[a, b]} {:trigger trace[a, b]} :: 1 <= a <= i + 1 && 1 <= b <= i + 1 && (a <= i || b <= i) ==>
                matrix[a, b] == Score(m, n, a, b) && trace[a, b] == Choice(m, n, a, b)
    {
      var j := i;
      var row := i + 1;
      for yIdx := 1 to j + 1
        invariant Valid() && Seeded()
        invariant forall a, b :: 0 <= a < matrix.Length0 && 0 <= b < matrix.Length1 && !(a == row && 1 <= b < yIdx) ==>
                    matrix[a, b] == old(matrix[a, b]) && trace[a, b] == old(trace[a, b])
        invariant forall a, b {:trigger matrix[a, b]} {:trigger trace[a, b]} :: 1 <= a <= i && 1 <= b <= i + 1 ==>
                    matrix[a, b] == Score(m, n, a, b) && trace[a, b] == Choice(m, n, a, b)
        invariant forall b {:trigger matrix[row, b]} {:trigger trace[row, b]} :: 1 <= b < yIdx ==>
                    matrix[row, b] == Score(m, n, row, b) && trace[row, b] == Choice(m, n, row, b)
      {
        FillCell(m, n, row, yIdx);
      }
    }

    /** Row c below the square, left to right. */
    method FillRow(m: seq<char>, n: seq<char>, c: nat)
      requires Valid() && Seeded()
      requires 1 <= c < matrix.Length0 && matrix.Length1 <= |n| + 1
      requires matrix.Length1 == 1 || matrix.Length0 <= |m| + 1
      requires forall a, b {:trigger matrix[a, b]} {:trigger trace[a, b]} :: 1 <= a < c && 1 <= b < matrix.Length1 ==>
                 matrix[a, b] == Score(m, n, a, b) && trace[a, b] == Choice(m, n, a, b)
      modifies matrix, trace
      ensures Valid() && Seeded()
      ensures forall a, b :: 0 <= a < matrix.Length0 && 0 <= b < matrix.Length1 && !(a == c && 1 <= b) ==>
                matrix[a, b] == old(matrix[a, b]) && trace[a, b] == old(trace[a, b])
      ensures forall a, b {:trigger matrix[a, b]} {:trigger trace[a, b]} :: 1 <= a <= c && 1 <= b < matrix.Length1 ==>
                matrix[a, b] == Score(m, n, a, b) && trace[a, b] == Choice(m, n, a, b)
    {
      for yIdx := 1 to matrix.Length1
        invariant Valid() && Seeded()
        invariant forall a, b :: 0 <= a < matrix.Length0 && 0 <= b < matrix.Length1 && !(a == c && 1 <= b < yIdx) ==>
                    matrix[a, b] == old(matrix[a, b]) && trace[a, b] == old(trace[a, b])
        invariant forall a, b {:trigger matrix[a, b]} {:trigger trace[a, b]} :: 1 <= a < c && 1 <= b < matrix.Length1 ==>
                    matrix[a, b] == Score(m, n, a, b) && trace[a, b] == Choice(m, n, a, b)
        invariant forall b {:trigger matrix[c, b]} {:trigger trace[c, b]} :: 1 <= b < yIdx ==>
                    matrix[c, b] == Score(m, n, c, b) && trace[c, b] == Choice(m, n, c, b)
      {
        FillCell(m, n, c, yIdx);
      }
    }

    /** One step of the traceback state machine. In state Start it reports None and changes
        nothing. Otherwise it steps the cursor back by the current state (End and Diagonal:
        both coordinates, Up: the column, Left: the row), pushes the tag of the cell it
        arrives at, makes that tag the new state and reports the new cursor. */
    method Traceback() returns (r: Option<(nat, nat)>)
      requires Valid()
      modifies this
      ensures Valid()
      ensures old(curState) == Start ==>
                r == None && curState == Start && path == old(path) &&
                curXi == old(curXi) && curYj == old(curYj)
      ensures old(curState) != Start ==>
                && curXi == old(curXi) - Dx(old(curState))
                && curYj == old(curYj) - Dy(old(curState))
                && curXi < trace.Length0 && curYj < trace.Length1
                && curState == trace[curXi, curYj]
                && path == old(path) + [curState]
                && r == Some((curXi, curYj))
    {
      match curState
      case Start =>
        r := None;
      case Diagonal =>
        curXi := curXi - 1;
        curYj := curYj - 1;
        PushKeepsEndFirst(path, trace[curXi, curYj]);
        path := path + [trace[curXi, curYj]];
        curState := trace[curXi, curYj];
        r := Some((curXi, curYj));
      case Up =>
        curXi := curXi + 0;
        curYj := curYj - 1;
        PushKeepsEndFirst(path, trace[curXi, curYj]);
        path := path + [trace[curXi, curYj]];
        curState := trace[curXi, curYj];
        r := Some((curXi, curYj));
      case Left =>
        curXi := curXi - 1;
        curYj := curYj + 0;
        PushKeepsEndFirst(path, trace[curXi, curYj]);
        path := path + [trace[curXi, curYj]];
        curState := trace[curXi, curYj];
        r := Some((curXi, curYj));
      case End =>
        curXi := curXi - 1;
        curYj := curYj - 1;
        PushKeepsEndFirst(path, trace[curXi, curYj]);
        path := path + [trace[curXi, curYj]];
        curState := trace[curXi, curYj];
        r := Some((curXi, curYj));
    }

    /** Reverses the path, checks that it then starts with Start, and replays the remaining
        tags with ReplayTags. The result is the replay of the path read backwards. */
    method GetAlignment(m: seq<char>, n: seq<char>) returns (outX: seq<char>, outY: seq<char>)
      requires EndFirst(path)
      requires path[|path| - 1] == Start
      requires forall k :: 0 <= k < |path| - 1 ==> path[k] != Start
      requires XUsed(path) <= |m| && YUsed(path) <= |n|
      ensures Replayable(Ops(path)) && XUsed(Ops(path)) <= |m| && YUsed(Ops(path)) <= |n|
      ensures (outX, outY) == Replay(Ops(path), m, n)
    {
      var rev := Reverse(path);
      assert rev[0] == Start;
      var ops := rev[1..];
      assert ops == Ops(path);
      OpsFacts(path);
      outX, outY := ReplayTags(ops, m, n);
    }
  }

  /** The replay loop of the rebuild: Diagonal takes the next symbol of each sequence, Up a
      gap and the next symbol of n, Left the next symbol of m and a gap, End nothing. The
      read positions are idx - cumXOffset and idx - cumYOffset, idx counting the replayed
      tags and the offsets the gaps written so far into each string; while no End has been
      replayed they are the counts of symbols consumed, so the loop computes Replay. */
  method ReplayTags(ops: seq<State>, m: seq<char>, n: seq<char>) returns (outX: seq<char>, outY: seq<char>)
    requires Replayable(ops) && XUsed(ops) <= |m| && YUsed(ops) <= |n|
    requires forall k :: 0 <= k < |ops| - 1 ==> ops[k] != End
    ensures (outX, outY) == Replay(ops, m, n)
  {
    outX, outY := [], [];
    var cumXOffset: nat, cumYOffset: nat := 0, 0;
    ghost var done: seq<State> := [];
    for idx := 0 to |ops|
      invariant done == ops[..idx]
      invariant Replayable(done) && XUsed(done) <= |m| && YUsed(done) <= |n|
      invariant (outX, outY) == Replay(done, m, n)
      invariant idx < |ops| ==> cumXOffset + XUsed(done) == idx && cumYOffset + YUsed(done) == idx
    {
      ReplayPrefixStep(ops, idx, m, n);
      match ops[idx] {
        case Start =>
          assert false;
        case Diagonal =>
          outX := outX + [m[idx - cumXOffset]];
          outY := outY + [n[idx - cumYOffset]];
        case Up =>
          outX := outX + [GapSymbol];
          cumXOffset := cumXOffset + 1;
          outY := outY + [n[idx - cumYOffset]];
        case Left =>
          outX := outX + [m[idx - cumXOffset]];
          outY := outY + [GapSymbol];
          cumYOffset := cumYOffset + 1;
        case End =>
      }
      done := ops[..idx + 1];
    }
    assert done == ops;
  }
}

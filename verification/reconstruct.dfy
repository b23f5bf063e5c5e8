/** Reconstruction of the two gapped strings from a traceback path, as pure functions. */
module Reconstruct {
  import opened States

  /** The gap marker written into an aligned string. */
  const GapSymbol: char := '-'

  /** Tags a reconstruction can replay: every tag except Start. */
  predicate Replayable(ops: seq<State>)
  {
    forall k :: 0 <= k < |ops| ==> ops[k] != Start
  }

  /** The aligned pair produced by replaying ops from the first tag on, with X and Y read
      at cursors that count the symbols consumed so far; End adds no column. */
  function Replay(ops: seq<State>, X: seq<char>, Y: seq<char>): (r: (seq<char>, seq<char>))
    requires Replayable(ops) && XUsed(ops) <= |X| && YUsed(ops) <= |Y|
    ensures |r.0| == Columns(ops) && |r.1| == Columns(ops)
    decreases |ops|
  {
    if ops == [] then ([], [])
    else
      var prefix, op := ops[..|ops| - 1], ops[|ops| - 1];
      assert ops == prefix + [op];
      var (px, py) := Replay(prefix, X, Y);
      match op
      case Diagonal => (px + [X[XUsed(prefix)]], py + [Y[YUsed(prefix)]])
      case Up => (px + [GapSymbol], py + [Y[YUsed(prefix)]])
      case Left => (px + [X[XUsed(prefix)]], py + [GapSymbol])
      case End => (px, py)
  }

  /** Replaying one more tag t extends the replay of ops by one column (none for End),
      read at the cursors ops leaves. */
  lemma ReplayAppend(ops: seq<State>, t: State, X: seq<char>, Y: seq<char>)
    requires Replayable(ops) && t != Start
    requires XUsed(ops) + TakesX(t) <= |X| && YUsed(ops) + TakesY(t) <= |Y|
    ensures Replayable(ops + [t]) && XUsed(ops + [t]) <= |X| && YUsed(ops + [t]) <= |Y|
    ensures var r, r' := Replay(ops, X, Y), Replay(ops + [t], X, Y);
      && (t == Diagonal ==> r'.0 == r.0 + [X[XUsed(ops)]] && r'.1 == r.1 + [Y[YUsed(ops)]])
      && (t == Up ==> r'.0 == r.0 + [GapSymbol] && r'.1 == r.1 + [Y[YUsed(ops)]])
      && (t == Left ==> r'.0 == r.0 + [X[XUsed(ops)]] && r'.1 == r.1 + [GapSymbol])
      && (t == End ==> r' == r)
  {
    UsedLast(ops, t);
    assert (ops + [t])[..|ops|] == ops;
  }

  /** A prefix of a sequence of tags consumes no more than the whole. */
  lemma UsedPrefix(ops: seq<State>, k: nat)
    requires k <= |ops|
    ensures XUsed(ops[..k]) <= XUsed(ops) && YUsed(ops[..k]) <= YUsed(ops)
  {
    assert ops == ops[..k] + ops[k..];
    UsedAppend(ops[..k], ops[k..]);
  }

  /** Extending the replayed prefix ops[..idx] by the next tag, stated for a loop that
      replays ops one tag at a time. */
  lemma ReplayPrefixStep(ops: seq<State>, idx: nat, X: seq<char>, Y: seq<char>)
    requires Replayable(ops) && XUsed(ops) <= |X| && YUsed(ops) <= |Y| && idx < |ops|
    ensures Replayable(ops[..idx]) && Replayable(ops[..idx + 1])
    ensures XUsed(ops[..idx + 1]) == XUsed(ops[..idx]) + TakesX(ops[idx]) <= |X|
    ensures YUsed(ops[..idx + 1]) == YUsed(ops[..idx]) + TakesY(ops[idx]) <= |Y|
    ensures var t, r, r' := ops[idx], Replay(ops[..idx], X, Y), Replay(ops[..idx + 1], X, Y);
      && (t == Diagonal ==> r'.0 == r.0 + [X[XUsed(ops[..idx])]] && r'.1 == r.1 + [Y[YUsed(ops[..idx])]])
      && (t == Up ==> r'.0 == r.0 + [GapSymbol] && r'.1 == r.1 + [Y[YUsed(ops[..idx])]])
      && (t == Left ==> r'.0 == r.0 + [X[XUsed(ops[..idx])]] && r'.1 == r.1 + [GapSymbol])
      && (t == End ==> r' == r)
  {
    PrefixSnoc(ops, idx);
    UsedPrefix(ops, idx + 1);
    UsedLast(ops[..idx], ops[idx]);
    ReplayAppend(ops[..idx], ops[idx], X, Y);
  }

  /** Replaying Diagonal tags only reads the two sequences in step, with no gap. */
  lemma {:induction false} ReplayDiagonals(ops: seq<State>, X: seq<char>, Y: seq<char>)
    requires |ops| <= |X| && |ops| <= |Y|
    requires forall k :: 0 <= k < |ops| ==> ops[k] == Diagonal
    ensures Replayable(ops) && XUsed(ops) == |ops| && YUsed(ops) == |ops|
    ensures Replay(ops, X, Y) == (X[..|ops|], Y[..|ops|])
    decreases |ops|
  {
    if ops != [] {
      var prefix := ops[..|ops| - 1];
      assert ops == prefix + [Diagonal];
      ReplayDiagonals(prefix, X, Y);
      UsedLast(prefix, Diagonal);
      ReplayAppend(prefix, Diagonal, X, Y);
      TextPrefixSnoc(X, |prefix|);
      TextPrefixSnoc(Y, |prefix|);
    }
  }

  /** s with every gap marker removed. */
  function Strip(s: seq<char>): (r: seq<char>)
    ensures |r| <= |s|
    ensures forall k :: 0 <= k < |r| ==> r[k] != GapSymbol
  {
    if s == [] then []
    else if s[|s| - 1] == GapSymbol then Strip(s[..|s| - 1])
    else Strip(s[..|s| - 1]) + [s[|s| - 1]]
  }

  predicate GapFree(s: seq<char>)
  {
    forall k :: 0 <= k < |s| ==> s[k] != GapSymbol
  }

  lemma StripAppend(s: seq<char>, c: char)
    ensures Strip(s + [c]) == if c == GapSymbol then Strip(s) else Strip(s) + [c]
  {
    assert (s + [c])[..|s|] == s;
  }

  /** The prefix of length k + 1 is the prefix of length k followed by s[k]. */
  lemma TextPrefixSnoc(s: seq<char>, k: nat)
    requires k < |s|
    ensures s[..k + 1] == s[..k] + [s[k]]
  {
  }

  /** Replaying prefix + [op] where the gap-free part of the prefix's X string is what the
      prefix consumes: the same holds after op. */
  lemma StripStepX(prefix: seq<State>, op: State, X: seq<char>, Y: seq<char>)
    requires Replayable(prefix + [op]) && XUsed(prefix + [op]) <= |X| && YUsed(prefix + [op]) <= |Y|
    requires GapFree(X)
    requires Replayable(prefix) && XUsed(prefix) <= |X| && YUsed(prefix) <= |Y|
    requires Strip(Replay(prefix, X, Y).0) == X[..XUsed(prefix)]
    ensures Strip(Replay(prefix + [op], X, Y).0) == X[..XUsed(prefix + [op])]
  {
    UsedLast(prefix, op);
    ReplayAppend(prefix, op, X, Y);
    var px := Replay(prefix, X, Y).0;
    if op == Diagonal || op == Left {
      StripAppend(px, X[XUsed(prefix)]);
      TextPrefixSnoc(X, XUsed(prefix));
    } else if op == Up {
      StripAppend(px, GapSymbol);
    }
  }

  /** The same step for the Y string. */
  lemma StripStepY(prefix: seq<State>, op: State, X: seq<char>, Y: seq<char>)
    requires Replayable(prefix + [op]) && XUsed(prefix + [op]) <= |X| && YUsed(prefix + [op]) <= |Y|
    requires GapFree(Y)
    requires Replayable(prefix) && XUsed(prefix) <= |X| && YUsed(prefix) <= |Y|
    requires Strip(Replay(prefix, X, Y).1) == Y[..YUsed(prefix)]
    ensures Strip(Replay(prefix + [op], X, Y).1) == Y[..YUsed(prefix + [op])]
  {
    UsedLast(prefix, op);
    ReplayAppend(prefix, op, X, Y);
    var py := Replay(prefix, X, Y).1;
    if op == Diagonal || op == Up {
      StripAppend(py, Y[YUsed(prefix)]);
      TextPrefixSnoc(Y, YUsed(prefix));
    } else if op == Left {
      StripAppend(py, GapSymbol);
    }
  }

  /** Removing the gaps from the replayed X string gives back exactly the prefix of X that
      the path consumes. */
  lemma {:induction false} ReplayStripsX(ops: seq<State>, X: seq<char>, Y: seq<char>)
    requires Replayable(ops) && XUsed(ops) <= |X| && YUsed(ops) <= |Y|
    requires GapFree(X)
    ensures Strip(Replay(ops, X, Y).0) == X[..XUsed(ops)]
    decreases |ops|
  {
    if ops != [] {
      var prefix, op := ops[..|ops| - 1], ops[|ops| - 1];
      assert ops == prefix + [op];
      UsedPrefix(ops, |ops| - 1);
      ReplayStripsX(prefix, X, Y);
      StripStepX(prefix, op, X, Y);
    }
  }

  /** Removing the gaps from the replayed Y string gives back exactly the prefix of Y that
      the path consumes. */
  lemma {:induction false} ReplayStripsY(ops: seq<State>, X: seq<char>, Y: seq<char>)
    requires Replayable(ops) && XUsed(ops) <= |X| && YUsed(ops) <= |Y|
    requires GapFree(Y)
    ensures Strip(Replay(ops, X, Y).1) == Y[..YUsed(ops)]
    decreases |ops|
  {
    if ops != [] {
      var prefix, op := ops[..|ops| - 1], ops[|ops| - 1];
      assert ops == prefix + [op];
      UsedPrefix(ops, |ops| - 1);
      ReplayStripsY(prefix, X, Y);
      StripStepY(prefix, op, X, Y);
    }
  }

  /** Column k of the replayed pair has a gap in the X string exactly when tag k is Up and
      a gap in the Y string exactly when tag k is Left. */
  lemma {:induction false} ReplayGaps(ops: seq<State>, X: seq<char>, Y: seq<char>)
    requires Replayable(ops) && XUsed(ops) <= |X| && YUsed(ops) <= |Y|
    requires GapFree(X) && GapFree(Y)
    requires forall k :: 0 <= k < |ops| ==> ops[k] != End
    ensures var r := Replay(ops, X, Y);
      |r.0| == |ops| && |r.1| == |ops| &&
      forall k :: 0 <= k < |ops| ==>
        (r.0[k] == GapSymbol <==> ops[k] == Up) && (r.1[k] == GapSymbol <==> ops[k] == Left)
    decreases |ops|
  {
    if ops != [] {
      var prefix, op := ops[..|ops| - 1], ops[|ops| - 1];
      assert ops == prefix + [op];
      UsedLast(prefix, op);
      ReplayAppend(prefix, op, X, Y);
      ReplayGaps(prefix, X, Y);
    }
  }

  /** A trailing End adds nothing to the replay. */
  lemma ReplayEnd(ops: seq<State>, X: seq<char>, Y: seq<char>)
    requires Replayable(ops + [End]) && XUsed(ops + [End]) <= |X| && YUsed(ops + [End]) <= |Y|
    ensures Replayable(ops) && XUsed(ops) <= |X| && YUsed(ops) <= |Y|
    ensures Replay(ops + [End], X, Y) == Replay(ops, X, Y)
  {
    UsedLast(ops, End);
    assert (ops + [End])[..|ops|] == ops;
  }
}

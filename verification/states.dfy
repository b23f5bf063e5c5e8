/** The traceback tags of the alignment engine and the cursor step each one makes. */
module States {

  /** Tag of a traceback cell, and state of the traceback walk.
      Start marks a cell the walk stops at, End the sentinel the walk starts from. */
  datatype State = Start | Diagonal | Up | Left | End

  datatype Option<T> = None | Some(value: T)

  /** Rows (symbols of X) the traceback cursor steps back when it leaves state s. */
  function Dx(s: State): nat
  {
    match s
    case End => 1
    case Diagonal => 1
    case Left => 1
    case Up => 0
    case Start => 0
  }

  /** Columns (symbols of Y) the traceback cursor steps back when it leaves state s. */
  function Dy(s: State): nat
  {
    match s
    case End => 1
    case Diagonal => 1
    case Up => 1
    case Left => 0
    case Start => 0
  }

  /** A tag that consumes symbols: what the matrix fill writes into interior cells. */
  predicate Productive(s: State)
  {
    s == Diagonal || s == Up || s == Left
  }

  /** Symbols of X tag t consumes: one for Diagonal and for Left. */
  function TakesX(t: State): nat
  {
    if t == Diagonal || t == Left then 1 else 0
  }

  /** Symbols of Y tag t consumes: one for Diagonal and for Up. */
  function TakesY(t: State): nat
  {
    if t == Diagonal || t == Up then 1 else 0
  }

  /** Symbols of X a sequence of tags consumes. */
  function XUsed(ops: seq<State>): nat
  {
    if ops == [] then 0 else XUsed(ops[..|ops| - 1]) + TakesX(ops[|ops| - 1])
  }

  /** Symbols of Y a sequence of tags consumes. */
  function YUsed(ops: seq<State>): nat
  {
    if ops == [] then 0 else YUsed(ops[..|ops| - 1]) + TakesY(ops[|ops| - 1])
  }

  /** Number of productive tags: the columns of the alignment they describe. */
  function Columns(ops: seq<State>): nat
  {
    if ops == [] then 0 else Columns(ops[..|ops| - 1]) + (if Productive(ops[|ops| - 1]) then 1 else 0)
  }

  /** The counts are additive over concatenation. */
  lemma {:induction false} UsedAppend(a: seq<State>, b: seq<State>)
    ensures XUsed(a + b) == XUsed(a) + XUsed(b)
    ensures YUsed(a + b) == YUsed(a) + YUsed(b)
    ensures Columns(a + b) == Columns(a) + Columns(b)
    decreases |b|
  {
    if b == [] {
      assert a + b == a;
    } else {
      var b' := b[..|b| - 1];
      UsedAppend(a, b');
      assert (a + b)[..|a + b| - 1] == a + b';
    }
  }

  /** The counts of ops followed by one more tag. */
  lemma UsedLast(ops: seq<State>, t: State)
    ensures XUsed(ops + [t]) == XUsed(ops) + TakesX(t) && YUsed(ops + [t]) == YUsed(ops) + TakesY(t)
    ensures Columns(ops + [t]) == Columns(ops) + (if Productive(t) then 1 else 0)
  {
    assert (ops + [t])[..|ops|] == ops;
  }

  /** The prefix of length idx + 1 is the prefix of length idx followed by s[idx]. */
  lemma PrefixSnoc(s: seq<State>, idx: nat)
    requires idx < |s|
    ensures s[..idx + 1] == s[..idx] + [s[idx]]
  {
  }

  /** A non-empty sequence is its first element followed by the rest. */
  lemma HeadTail(s: seq<State>)
    requires |s| >= 1
    ensures s == [s[0]] + s[1..]
  {
  }

  /** Dropping the last element of t followed by w drops the last element of w. */
  lemma ConsButLast(t: State, w: seq<State>)
    requires |w| >= 1
    ensures ([t] + w)[..|w|] == [t] + w[..|w| - 1]
  {
  }

  /** s in reverse order, as an iterator reversed with rev() yields it. */
  function Reverse(s: seq<State>): (r: seq<State>)
    ensures |r| == |s|
    ensures forall k :: 0 <= k < |s| ==> r[k] == s[|s| - 1 - k]
  {
    if s == [] then [] else Reverse(s[1..]) + [s[0]]
  }

  /** Reversing a sequence of tags keeps what it consumes. */
  lemma {:induction false} ReverseKeepsUsed(s: seq<State>)
    ensures XUsed(Reverse(s)) == XUsed(s) && YUsed(Reverse(s)) == YUsed(s)
    ensures Columns(Reverse(s)) == Columns(s)
  {
    if s != [] {
      ReverseKeepsUsed(s[1..]);
      UsedAppend(Reverse(s[1..]), [s[0]]);
      UsedAppend([s[0]], s[1..]);
      HeadTail(s);
      assert [s[0]][..0] == [];
    }
  }
}

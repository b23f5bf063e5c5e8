/** The Needleman-Wunsch recurrence of the engine: substitution rule, tie-break and
    the score of every prefix pair, as pure functions. */
module Scoring {
  import opened States

  /** Score of a matching pair of symbols. */
  const Match: int := 2
  /** Score of a mismatching pair of symbols. */
  const Mismatch: int := -1
  /** Linear gap penalty, charged once per gap column. */
  const Gap: int := -2

  /** Substitution score of aligning symbol a against symbol b. */
  function Sub(a: char, b: char): int
  {
    if a == b then Match else Mismatch
  }

  /** max(d, max(u, l)). */
  function Max3(d: int, u: int, l: int): (r: int)
    ensures r >= d && r >= u && r >= l
    ensures r == d || r == u || r == l
  {
    if d >= u && d >= l then d else if u >= l then u else l
  }

  /** The tie-break of the cell update, with its three comparisons as written in the engine:
      Diagonal when it is at least both others, else Up when it beats Diagonal and is at
      least Left, else Left. The contract states that this picks the first of
      Diagonal, Up, Left whose score is the maximum. */
  function Pick(d: int, u: int, l: int): (r: State)
    ensures Productive(r)
    ensures r == Diagonal <==> d == Max3(d, u, l)
    ensures r == Up <==> d != Max3(d, u, l) && u == Max3(d, u, l)
    ensures r == Left <==> d != Max3(d, u, l) && u != Max3(d, u, l) && l == Max3(d, u, l)
  {
    if d >= u && d >= l then Diagonal
    else if d < u && u >= l then Up
    else Left
  }

  /** Optimal score of aligning X[..i] against Y[..j]; row 0 and column 0 carry the
      cumulative gap cost. That no alignment scores more, and that one scores exactly this,
      is proved in module Optimality. */
  function Score(X: seq<char>, Y: seq<char>, i: nat, j: nat): int
    requires i <= |X| && j <= |Y|
    decreases i + j
  {
    if i == 0 then -2 * j
    else if j == 0 then -2 * i
    else Max3(Score(X, Y, i - 1, j - 1) + Sub(X[i - 1], Y[j - 1]),
              Score(X, Y, i, j - 1) + Gap,
              Score(X, Y, i - 1, j) + Gap)
  }

  function Min(a: int, b: int): int { if a <= b then a else b }

  function Dist(a: int, b: int): int { if a <= b then b - a else a - b }

  /** Every score lies between the all-gap alignment and an alignment that matches every
      symbol of the shorter prefix and pays a gap for each extra symbol of the longer one. */
  lemma {:induction false} ScoreBounds(X: seq<char>, Y: seq<char>, i: nat, j: nat)
    requires i <= |X| && j <= |Y|
    ensures -2 * (i + j) <= Score(X, Y, i, j)
    ensures Score(X, Y, i, j) <= 2 * Min(i, j) - 2 * Dist(i, j)
    decreases i + j
  {
    if i > 0 && j > 0 {
      ScoreBounds(X, Y, i - 1, j - 1);
      ScoreBounds(X, Y, i, j - 1);
      ScoreBounds(X, Y, i - 1, j);
    }
  }

  /** The tag the fill writes into interior cell (i, j); it names a neighbour whose score
      plus the step's cost is the cell's score. */
  function Choice(X: seq<char>, Y: seq<char>, i: nat, j: nat): (r: State)
    requires 1 <= i <= |X| && 1 <= j <= |Y|
    ensures Productive(r)
    ensures r == Diagonal ==> Score(X, Y, i, j) == Score(X, Y, i - 1, j - 1) + Sub(X[i - 1], Y[j - 1])
    ensures r == Up ==> Score(X, Y, i, j) == Score(X, Y, i, j - 1) + Gap
    ensures r == Left ==> Score(X, Y, i, j) == Score(X, Y, i - 1, j) + Gap
  {
    Pick(Score(X, Y, i - 1, j - 1) + Sub(X[i - 1], Y[j - 1]),
         Score(X, Y, i, j - 1) + Gap,
         Score(X, Y, i - 1, j) + Gap)
  }

  /** One step of the recurrence: given the scores of the three neighbours of interior cell
      (i, j), the cell's score is their maximum after the step costs, and the tie-break tag
      is the one Choice records. */
  lemma ScoreStep(X: seq<char>, Y: seq<char>, i: nat, j: nat, d: int, u: int, l: int)
    requires 1 <= i <= |X| && 1 <= j <= |Y|
    requires d == Score(X, Y, i - 1, j - 1) && u == Score(X, Y, i, j - 1) && l == Score(X, Y, i - 1, j)
    ensures Max3(d + Sub(X[i - 1], Y[j - 1]), u + Gap, l + Gap) == Score(X, Y, i, j)
    ensures Pick(d + Sub(X[i - 1], Y[j - 1]), u + Gap, l + Gap) == Choice(X, Y, i, j)
  {
  }

  /** Aligning a sequence with itself scores Match per symbol. */
  lemma {:induction false} IdentityScore(X: seq<char>, k: nat)
    requires k <= |X|
    ensures Score(X, X, k, k) == 2 * k
  {
    ScoreBounds(X, X, k, k);
    if k > 0 {
      IdentityScore(X, k - 1);
    }
  }

  /** Aligning a sequence with itself, every diagonal cell takes the Diagonal tag: the
      match beats both gaps by at least 6. */
  lemma IdentityDiagonal(X: seq<char>, k: nat)
    requires 1 <= k <= |X|
    ensures Choice(X, X, k, k) == Diagonal
  {
    IdentityScore(X, k - 1);
    ScoreBounds(X, X, k, k - 1);
    ScoreBounds(X, X, k - 1, k);
  }

  /** The optimal score does not depend on which sequence is called X. */
  lemma {:induction false} ScoreSymmetric(X: seq<char>, Y: seq<char>, i: nat, j: nat)
    requires i <= |X| && j <= |Y|
    ensures Score(X, Y, i, j) == Score(Y, X, j, i)
    decreases i + j
  {
    if i > 0 && j > 0 {
      ScoreSymmetric(X, Y, i - 1, j - 1);
      ScoreSymmetric(X, Y, i, j - 1);
      ScoreSymmetric(X, Y, i - 1, j);
      var d := Score(X, Y, i - 1, j - 1) + Sub(X[i - 1], Y[j - 1]);
      var u, l := Score(X, Y, i, j - 1) + Gap, Score(X, Y, i - 1, j) + Gap;
      assert Score(Y, X, j, i) == Max3(d, l, u);
      assert Max3(d, l, u) == Max3(d, u, l);
    }
  }
}

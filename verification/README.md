# Needleman-Wunsch global alignment engine

This project is a Dafny model of the global sequence-alignment program in `src/main.rs`.
The program aligns two sequences X and Y with the Needleman-Wunsch algorithm:

- a match scores +2, a mismatch -1 and a gap -2;
- it fills a score grid and a traceback grid of (|X| + 1) x (|Y| + 1) cells;
- it walks back from one cell past the bottom-right corner, pushing traceback tags onto a path;
- it rebuilds the two gapped strings from the path read backwards.

The model keeps the program's own form. `Alignment` is a class with the same fields. The two
grids are `array2`s, and the path is a `seq` that the traceback reassigns. The fill, the
traceback step and the rebuild loop are methods with loops and invariants. Each method is
proved against pure specification functions: the score recurrence, the traceback walk and
the replay of tags. Lemmas prove what the program promises about those functions.

Modules:

- `States` holds the tags (`Start`, `Diagonal`, `Up`, `Left`, `End`), the cursor step each tag
  makes, and the counts of symbols a sequence of tags consumes.
- `Scoring` holds the substitution rule, the tie-break, and the recurrence `Score` with its
  properties.
- `Traceback` holds the walk over a grid of tags as a function: the tags pushed and the cell
  where the walk stops.
- `Reconstruct` holds the replay of tags into two gapped strings, and what removing the gaps
  gives back.
- `Engine` holds the class `Alignment`: constructor, fill, cell update, traceback step and
  rebuild.
- `Pipeline` composes the whole run as functions. It proves the round trip and where the
  round trip fails. It also holds the boundary-seeded grid on which the round trip always
  holds.
- `Optimality` proves that the traceback recovers an optimal alignment. An alignment is
  given by a sequence of tags that consumes all of X and Y. No such sequence scores more than
  the recurrence's value Score(len(X), len(Y)). Each tag the fill writes names a neighbour that
  attains the cell's value, so the engine's output scores exactly that value whenever its
  walk reaches the origin.
- `Driver` holds the program's `main`: the method that runs the engine, and the concrete run
  on "GAATTC" against "GATTA".

Two behaviours of the program are modelled as written, not fixed:

- The traceback stops at the first `Start` cell. Row 0 and column 0 of the traceback grid hold
  `Start`, so the walk can stop in row 0 or column 0 short of the origin.
- The rebuild always reads from position 0 of each sequence.

When the walk stops at (a, b) it has covered only X[a..] and Y[b..], but the rebuild reads
X[..|X| - a] and Y[..|Y| - b]. Together these lose the last a symbols of X and the last b of
Y, and shift the rest (see "Findings").

## Model

| member | source | states |
|---|---|---|
| Engine.Alignment.constructor | src/main.rs:23-39 | Both grids have (xs_size + 1) x (ys_size + 1) cells, every score 0 and every tag Start. The path is [End], the state is End, and the cursor is one past the bottom-right corner. The class invariant holds. |
| Engine.Alignment.CalcScore | src/main.rs:228-244 | The result is the maximum of diagonal + substitution, up - 2 and left - 2. The tag written at (i, j) is the tie-break of those three scores, and it names a neighbour that attains the result. No other traceback cell changes. |
| Scoring.Max3 | src/main.rs:243 | The maximum is at least each of the three scores and is one of them. |
| Scoring.Pick | src/main.rs:235-241 | The three-way comparison gives Diagonal iff the diagonal score is the maximum. It gives Up iff the diagonal is not the maximum and up is. Otherwise it gives Left. The result is always a productive tag. |
| Scoring.Choice | src/main.rs:235-241 | The tag of an interior cell names a neighbour whose score plus the step cost equals the cell's optimal score. |
| Scoring.ScoreStep | src/main.rs:229-243 | Given the optimal scores of its three neighbours, one cell update yields the cell's optimal score and the tie-break tag of the recurrence. |
| Scoring.ScoreBounds | src/main.rs:229-233 | Every score lies between the all-gap cost -2(i + j) and 2·min(i, j) - 2·abs(i - j). |
| Scoring.IdentityScore | src/main.rs:314 | A sequence aligned against itself scores 2 per symbol. |
| Scoring.ScoreSymmetric | src/main.rs:229-243 | The optimal score does not depend on which sequence is X. |
| Engine.Alignment.FillCell | src/main.rs:85-90 | Storing calc_score's result at an interior cell whose three neighbours hold their optimal scores leaves that cell with its optimal score and tie-break tag. No other cell of either grid changes. |
| Engine.Alignment.FillWholeMatrix | src/main.rs:60-126 | Column 0 holds -2·i and row 0 holds -2·j. Every interior cell holds the optimal score of its prefix pair and the tie-break tag. Boundary tags are unchanged. The class invariant holds, which requires y_len <= x_len (the assert!) and prefixes long enough for every slice. |
| Engine.Alignment.FillShell | src/main.rs:75-109 | Shell i + 1 of the square fill extends the filled square from i x i to (i + 1) x (i + 1) cells, with optimal scores and tags. No other cell of either grid changes. |
| Engine.Alignment.FillShellColumn | src/main.rs:77-91 | Rows 1..i of column i + 1 receive their optimal scores and tags. No other cell of either grid changes. |
| Engine.Alignment.FillShellRow | src/main.rs:93-101 | Columns 1..i of row i + 1 receive their optimal scores and tags. No other cell of either grid changes. |
| Engine.Alignment.FillRow | src/main.rs:113-125 | Row c below the square receives its optimal scores and tags, left to right. No other cell of either grid changes. |
| Engine.Alignment.Traceback | src/main.rs:128-160 | In state Start the step returns None and changes nothing. Otherwise it moves the cursor back by the state: End and Diagonal move both coordinates, Up the column and Left the row. It pushes the tag of the new cell, makes that tag the state and returns the new cursor. It never leaves the grid. |
| Traceback.WalkShape | src/main.rs:128-160 | Repeated steps end with exactly one Start, pushed at the stopping cell, after productive tags only. On a filled grid the stopping cell is in row 0 or column 0, not necessarily the origin. |
| Traceback.WalkConsumes | src/main.rs:128-160 | The stopping cell lies as many rows and columns back as the first move and the productive tags consume. |
| Pipeline.Stop | src/main.rs:321-325 | The walk from End past the corner stops at a Start cell inside the grid. |
| Pipeline.TracePathShape | src/main.rs:321-325 | The path is End, then productive tags, then Start. It consumes all of X and Y except the rows and columns before the stopping cell. |
| Driver.TracePathReady | src/main.rs:321-334 | The path left by the traceback loop meets every requirement of get_alignment: End first and nowhere else, Start last and nowhere else, and it consumes no more of X and Y than they hold. |
| States.Reverse | src/main.rs:278 | The reversed path has the same length, and element k is element n - 1 - k of the original. |
| States.ReverseKeepsUsed | src/main.rs:278 | Reversing a path keeps the number of symbols of X and Y it consumes. |
| Engine.Ops | src/main.rs:278-287 | The tags the rebuild replays are the path reversed with its first element skipped: tag k is path[n - 2 - k]. |
| Engine.OpsFacts | src/main.rs:278-289 | For a path with End first and Start only last, the replayed tags contain no Start, End only last, and consume what the path consumes. |
| Reconstruct.Replay | src/main.rs:287-306 | The two rebuilt strings have one column per productive tag, so they have equal length. |
| Reconstruct.ReplayAppend | src/main.rs:290-304 | Diagonal appends the next unread symbol of each sequence. Up appends a gap and the next symbol of Y. Left appends the next symbol of X and a gap. End appends nothing. |
| Reconstruct.ReplayGaps | src/main.rs:294-302 | Column k of the X string is a gap iff tag k is Up. Column k of the Y string is a gap iff tag k is Left. |
| Reconstruct.ReplayEnd | src/main.rs:304 | A trailing End adds nothing to the rebuilt strings. |
| Reconstruct.ReplayStripsX | src/main.rs:290-303 | Removing the gaps from the rebuilt X string gives exactly the prefix of X the tags consume. |
| Reconstruct.ReplayStripsY | src/main.rs:290-303 | Removing the gaps from the rebuilt Y string gives exactly the prefix of Y the tags consume. |
| Engine.ReplayTags | src/main.rs:281-308 | The loop that reads m and n at idx - cum_x_offset and idx - cum_y_offset computes exactly the replay of the tags. |
| Engine.Alignment.GetAlignment | src/main.rs:277-309 | The path must end with Start (the assert_eq) and hold no other Start (the todo!). Then the result is the replay of the path read backwards, after its Start. |
| Pipeline.AlignOn | src/main.rs:277-309 | The rebuilt strings of any sound traceback grid have equal length. |
| Pipeline.AlignOnStrips | src/main.rs:277-309 | When the walk stops at (a, b) it covers only X[a..] and Y[b..], but the rebuild reads from position 0. Removing the gaps therefore gives the first len(X) - a symbols of X and the first len(Y) - b of Y: the last a and b symbols are lost and the rest is shifted. |
| Pipeline.NWGrid | src/main.rs:28 | The traceback grid after new and the fill holds Start on row 0 and column 0 and the tie-break tag inside. It is sound and filled. |
| Pipeline.Align | src/main.rs:317-334 | The engine's output strings have equal length. |
| Pipeline.FilledStrips | src/main.rs:128-160 | On any filled grid the walk stops in row 0 or column 0. Removing the gaps gives X without its last a symbols and Y without its last b, and gives exactly X and Y iff the walk stops at the origin. |
| Pipeline.AlignStrips | src/main.rs:317-334 | The same for the engine's own grid: stripped output equals the inputs iff the traceback reaches (0, 0). |
| Driver.NewFilled | src/main.rs:317-319 | After new and fill_wholematrix, the traceback grid is the engine's tag grid of X and Y and the cursor is ready past the corner. |
| Driver.TraceToStart | src/main.rs:321-325 | Stepping until None leaves the state Start, the path extended by the whole walk from where the loop started, and the cursor at the cell where that walk stops. The loop terminates. |
| Driver.AlignSequences | src/main.rs:312-340 | The driver's sequence of calls returns exactly the engine's alignment of X and Y. |
| Driver.ExampleScores | src/main.rs:313-319 | For "GAATTC" against "GATTA", every cell of the score grid has the value listed, and M[6][5] = 5. |
| Driver.ExampleTags | src/main.rs:313-319 | For the driver's inputs, the cells the walk visits hold the tags listed. |
| Driver.ExamplePath | src/main.rs:321-325 | For the driver's inputs the path is End, Diagonal x 4, Left, Diagonal, Start, and the walk stops at the origin (0, 0). |
| Driver.ExampleOps | src/main.rs:278-287 | Read backwards without its Start, that path is Diagonal, Left, Diagonal x 4, End. |
| Driver.ExampleReplay | src/main.rs:287-306 | Replaying those tags reads X in full and Y with one gap after its first symbol. |
| Driver.ExampleAlignment | src/main.rs:313-336 | The engine aligns "GAATTC" against "GATTA" as "GAATTC" over "G-ATTA". |
| Driver.ExampleOptimal | src/main.rs:313-336 | The driver's output "GAATTC" over "G-ATTA" scores 5 column by column, which is M[6][5], the optimal score. |
| Driver.RunExample | src/main.rs:312-340 | The driver's own run returns "GAATTC" and "G-ATTA". |
| Driver.OriginMissed | src/main.rs:128-160 | For "AB" against "B", the walk stops at (1, 0) and the output is "A" over "B". Removing the gaps does not give X back. |
| Traceback.TrailReversesWalk | src/main.rs:128-160 | The tags of a walk, read from its stopping cell forwards, are the walk reversed without its final Start, followed by the starting state. |
| Traceback.DiagonalTrail | src/main.rs:128-160 | When every diagonal cell up to (k, k) holds Diagonal and the origin holds Start, the walk from (k, k) stops at the origin after k Diagonal tags. |
| Optimality.ReplayScore | src/main.rs:287-306 | With gap-free inputs, the rebuilt strings score, column by column, what their tags score: a match or mismatch per Diagonal, a gap per Up or Left. |
| Optimality.TrailScore | src/main.rs:128-160 | Over a grid whose tags each name a neighbour whose table entry plus the step cost is the cell's entry, the walk from (i, j) to its stopping cell (a, b) consumes exactly i - a symbols of X and j - b of Y, and the step costs along it add up to the difference of the two entries. |
| Optimality.OpsTrail | src/main.rs:278-287 | The tags the rebuild replays are the walk's tags from its stopping cell forwards, followed by End. |
| Optimality.AlignOnScore | src/main.rs:277-309 | On such a grid with the optimal scores as the table, when the walk reaches the origin, the rebuilt alignment of gap-free inputs scores the optimum Score(len(X), len(Y)). |
| Optimality.NWGridConsistent | src/main.rs:235-243 | Every tag calc_score writes names a neighbour that attains the cell's optimal score. |
| Optimality.SeededConsistent | src/main.rs:235-243 | The same holds on the seeded grid, where each step along row 0 or column 0 costs one gap. |
| Optimality.TagScoreAtMost | src/main.rs:229-243 | Any sequence of tags scores at most the recurrence's value at the cell it reaches from the origin: each step is one of the candidates the recurrence maximises over. |
| Optimality.ReplayAtMost | src/main.rs:229-243 | With gap-free inputs, every alignment replayed from tags that consume all of X and Y scores at most Score(len(X), len(Y)). |
| Optimality.AlignOptimal | src/main.rs:312-336 | Whenever the engine's walk reaches the origin, no alignment of X and Y given by tags scores more than the engine's output. |
| Optimality.SeededOptimal | src/main.rs:277-309 | With the boundary seeded, no alignment of X and Y given by tags scores more than the output, for every pair of gap-free inputs. |
| Optimality.AlignScore | src/main.rs:312-336 | Whenever the engine's walk reaches the origin, its output scores the optimum. |
| Optimality.SeededScore | src/main.rs:277-309 | With the boundary seeded, the output scores the optimum for every pair of gap-free inputs. |
| Scoring.IdentityDiagonal | src/main.rs:314 | Aligning a sequence with itself, calc_score tags every diagonal cell Diagonal. |
| Reconstruct.ReplayDiagonals | src/main.rs:290-293 | Replaying k Diagonal tags gives the first k symbols of each sequence. |
| Optimality.IdentityOps | src/main.rs:314 | Aligning a sequence with itself, the walk reaches the origin and the replayed tags are one Diagonal per symbol, then End. |
| Optimality.IdentityAlign | src/main.rs:314 | Aligning a sequence with itself, the walk reaches the origin and the output is the sequence over itself, with no gap. |
| Pipeline.SeededGrid | src/main.rs:28 | With Left seeded on column 0 and Up on row 0, the origin is the only Start and the interior is unchanged. |
| Pipeline.OriginOnlyRoundTrip | src/main.rs:128-160 | On a grid whose only Start is the origin, the walk stops at (0, 0) and removing the gaps gives X and Y back. |
| Pipeline.SeededRoundTrip | src/main.rs:277-309 | On the seeded grid the round trip holds for every input. |
| Pipeline.AlignSeeded | src/main.rs:277-309 | The rebuilt strings from the seeded grid have equal length. |
| Driver.OriginSeeded | src/main.rs:277-309 | With the boundary seeded, "AB" against "B" comes out as "AB" over "-B". |

## Left out

- Printing is not modelled: `pretty` (src/main.rs:41-58) and every `println!`, including the ones inside the fill. Output to the terminal has no effect on the state.
- `align`, `fill_pairwisematrix` and `state_score` (src/main.rs:162-275) are not modelled. They are an unfinished incremental variant that `main` never calls, and three of `align`'s arms are `todo!()`.
- The `blosum62` import is not used by the code and is not part of this model, and neither is the library that provides it.
- Sequences are `seq<char>` and one character is one position. The program slices `&str` by byte, so for non-ASCII input it reads bytes or panics on a character boundary. That is not modelled.
- Scores are unbounded integers. The program's `i32` scores and its `x_idx as i32` casts cannot overflow for sequences shorter than about 10^9 symbols, so wrap-around is not modelled.
- Panics are modelled as preconditions:
  - the `assert!(y_len <= x_len)` of the fill;
  - out-of-range slices, which become the length requirements of the fill and the rebuild;
  - `assert_eq!` and `todo!()` on `Start` in `get_alignment`.
  The model proves these hold on the driver's path, but it does not model the panic itself.
- The `(x, y)` payload of `Some`, bound in the driver's `while let`, is not used by the program. The model returns it and ignores it in the same way.
- Engine.Alignment.GetAlignment: it requires the path invariant that the traceback maintains (End first and nowhere else). The program accepts any path, and with an End in the middle its read positions would shift by one. No traceback can produce such a path.
- Reconstruct.ReplayStripsX, Reconstruct.ReplayStripsY, Reconstruct.ReplayGaps, Pipeline.AlignOnStrips, Pipeline.FilledStrips, Pipeline.AlignStrips, Pipeline.OriginOnlyRoundTrip, Pipeline.SeededRoundTrip, Optimality.ReplayScore, Optimality.ReplayAtMost, Optimality.AlignOnScore, Optimality.AlignScore, Optimality.SeededScore, Optimality.AlignOptimal, Optimality.SeededOptimal: stated for inputs that do not contain the gap symbol `-`. A `-` in the input is removed along with the inserted gaps when the gaps are stripped, and the column score cannot tell it from an inserted gap, so neither the round trip nor the score claims hold for such inputs. Optimality.AlignScore also requires that the walk reach the origin; otherwise the output does not cover both inputs (see "Findings"), and no score claim is made for it.
- The empty `tests` module (src/main.rs:342-345) contains nothing to model.

## Findings

| source | as written | input that shows it | evidently intended | confidence | as-written member | corrected member |
|---|---|---|---|---|---|---|
| src/main.rs:128-160 | The traceback stops at the first `Start` cell it meets. Row 0 and column 0 of the traceback grid are left as `Start`, so the walk stops in row 0 or column 0 before the origin. `get_alignment` then reads both sequences from position 0, not from the stopping cell. | X = "AB", Y = "B": the walk goes (3,2) to (2,1) to (1,0), where it stops. The output is "A" over "B", which drops the "B" of X and pairs the wrong symbols. | A global alignment that covers both sequences: "AB" over "-B". Stripping the gaps gives X and Y back for every input. | not executed | Driver.OriginMissed | Pipeline.SeededRoundTrip |

The corrected model seeds the boundary of the traceback grid: `Left` on column 0 below the
origin and `Up` on row 0 right of it. The walk then continues to the origin, so the origin is
the only `Start` (Pipeline.SeededGrid). Pipeline.SeededRoundTrip proves the round trip for all
inputs, and Driver.OriginSeeded gives the corrected result for the same input. The class
`Alignment` keeps the program's behaviour as written. Pipeline.AlignStrips states exactly when
the engine's output still round-trips: when the walk reaches (0, 0), as it does for the
driver's own inputs.

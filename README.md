# Advent of Code 2024 puzzle solvers, modelled in Dafny

This project models the puzzle solvers of hasparus/aoc-2024 (Rust, plus a few
TypeScript days). Each solver parses text and runs a small exact algorithm:

- list distances;
- report safety with a problem dampener;
- word search;
- page ordering;
- operator search;
- antennas;
- disk compaction;
- stone blinking;
- garden regions;
- claw machines;
- robot quadrants;
- warehouse box pushing;
- a three-register virtual machine;
- towel decomposition;
- monkey secret numbers;
- network computers;
- logic gates;
- lock and key fitting.

Every module states, in Dafny, what the corresponding source file computes,
and proves the properties that the source, its tests and the puzzle promise.

There are three shared modules:

- `Wrappers` holds `Option` and `Result`.
- `Text` holds the standard-library string operations the solvers rely on:
  `trim`, `lines`, `split`, `split_once` (on a character and on a blank
  line), `split_whitespace`, and decimal `parse` and `to_string`.
- `Bits` holds powers of two and the bitwise exclusive or of naturals, which
  the virtual machine (day 17), the secret numbers (day 22) and the z wires
  (day 24) use.

The workspace library's `Board` is a class over a sequence of rows. The
day 8 `Grid` is a value.

Code that changes state step by step in the source is modelled by methods
with loops. Each such method is proved against a specification function, and
the properties of the specification are proved as lemmas. Panicking paths of
the source are error outcomes (`Option`/`Result`) where a caller can reach
them with ordinary input. Where a function indexes data that its callers
always supply in range, the panic becomes a precondition.

## Model

| member | source | states |
|---|---|---|
| Text.TrimStart | lib/src/board.rs:74-76 | `trim_start` drops exactly a whitespace prefix and leaves no leading whitespace |
| Text.Trim | lib/src/board.rs:74-76 | `trim` never lengthens a string |
| Text.TrimSlice | lib/src/board.rs:74-76 | `trim` yields a slice of the input with only whitespace outside it |
| Text.TrimEnds | lib/src/board.rs:74-76 | neither end of a trimmed string is whitespace |
| Text.TrimStartDrops | lib/src/board.rs:74-76 | what `trim_start` drops is whitespace |
| Text.TrimEndDrops | lib/src/board.rs:74-76 | what `trim_end` drops is whitespace |
| Text.TrimEmptyIff | lib/src/board.rs:74 | a line trims to empty exactly when it is all whitespace |
| Text.TrimIdempotent | lib/src/board.rs:74-76 | trimming twice is trimming once |
| Text.Split | 17/src/types.rs:35-58 | `split` yields at least one piece and no piece contains the separator |
| Text.Lines | lib/src/board.rs:98 | no line `lines` yields contains a newline |
| Text.SplitWhitespace | 1/src/main.rs:6 | every token of `split_whitespace` is non-empty and free of whitespace |
| Text.ParseNat | 1/src/main.rs:14-15 | an unsigned parse that succeeds is below the type's bound |
| Text.ParseInt | 2/src/main.rs:11 | a signed parse that succeeds lies inside the type's range |
| Text.JoinSplit | 17/src/types.rs:35-58 | splitting at a separator and joining with it gives the string back |
| Text.SplitJoin | 17/src/types.rs:35-58 | joining separator-free pieces and splitting again gives the pieces back |
| Text.SplitOnce | 7/src/main.rs:20 | `split_once` fails exactly when the separator is absent; otherwise the input is the prefix, the separator and the rest |
| Text.SplitAtBlank | 19/src/parser.rs:7-10 | there is no split exactly when the input has no blank line; otherwise the input is the part before the first blank line, the blank line, and the rest |
| Text.LinesUnlines | lib/src/board.rs:8-15 | reading back lines each written with a trailing newline gives the lines |
| Text.SplitWhitespaceDense | 1/src/main.rs:6 | the tokens of `split_whitespace` concatenate to the input's non-whitespace characters |
| Text.SplitWhitespaceJoin | 2/src/main.rs:9 | non-empty whitespace-free tokens joined by spaces split back into the same tokens |
| Text.ParseNatToString | 1/src/main.rs:14-15 | an unsigned decimal below the type's bound parses back to its value |
| Text.ParseIntToString | 2/src/main.rs:11 | a signed decimal inside the type's range parses back to its value |
| Text.ParseNatNeedsDigits | 1/src/main.rs:14-15 | a string containing a non-digit after the optional sign is not an unsigned number |
| Text.NonBlankTrimmedTrimmed | lib/src/board.rs:74-76 | the kept lines are the trimmed non-blank lines, each without surrounding whitespace |
| Board.Board.At | lib/src/board.rs:33-39 | `board[p]` is exactly the token in row `p.row`, column `p.col` |
| Board.Board.Set | lib/src/board.rs:41-45 | writing through `board[p]` changes exactly that cell and keeps the shape |
| Board.Board.Find | lib/src/board.rs:103-112 | the result is the first matching cell in row-major order; `None` (the panic) exactly when no cell matches |
| Board.First | lib/src/board.rs:103-112 | a cell the row-major search returns lies in one of the rows |
| Board.FirstAt | lib/src/board.rs:103-112 | a cell holding the token with no such cell before it in row-major order is the one the search returns |
| Board.FirstNone | lib/src/board.rs:103-112 | with no cell holding the token the search returns nothing, which is the panic |
| Board.FirstSound | lib/src/board.rs:103-112 | a returned cell is on the board and holds the token; when nothing is returned no cell holds it |
| Board.ParseRow | lib/src/board.rs:78-83 | a line parses exactly when each character parses, cell by cell; the error names a character that fails |
| Board.ParseRows | lib/src/board.rs:75-85 | the lines parse exactly when every line parses, and then row i is line i's parse |
| Board.FromLines | lib/src/board.rs:71-88 | blank lines are dropped, the others trimmed; the board parses exactly when every kept character parses, and then holds those tokens |
| Board.DisplayRoundTrip | lib/src/board.rs:6-17 | writing a board (each row's tokens, then a newline) and reading it back gives the same rows when every token prints as one visible character that parses back |
| Grid.New | 8/src/grid.rs:12-21 | height is the row count; width is the first row's length, or 0 with no rows |
| Grid.NewValid | 8/src/grid.rs:12-21 | a new grid is well formed exactly when all rows share the first row's length |
| Grid.InBoundsIff | 8/src/grid.rs:31-33 | on a well-formed new grid, in bounds exactly when 0 <= row < the row count and 0 <= col < the first row's length, so the cell exists |
| Grid.Grid.Get | 8/src/grid.rs:23-29 | the default outside the grid, negative coordinates included, and `data[row][col]` inside; day 4's `get` (4/src/main.rs:74-80) is the same read |
| Grid.Grid.RowCells | 8/src/grid.rs:36-38 | one row of `cells`: each column with its value, in order |
| Grid.Grid.Cells | 8/src/grid.rs:35-39 | `cells` yields height * width entries |
| Grid.CellsRowMajor | 8/src/grid.rs:35-39 | `cells` has height*width entries and position (r, c) sits at index r*width+c, so each position appears once, in row-major order |
| Day01.Distances | 1/src/main.rs:1-26 | the result is the error of the first line with a missing or unparsable number, else the total distance of the sorted columns |
| Day01.SumDistances | 1/src/main.rs:21-25 | the zipped sum of absolute differences |
| Day01.Sort | 1/src/main.rs:18-19 | sorting keeps the column's length (that it is the ascending permutation is `SortSorted`) |
| Day01.SortSorted | 1/src/main.rs:18-19 | sorting gives a sorted permutation |
| Day01.SortPermutation | 1/src/main.rs:18-19 | two columns holding the same values sort to the same sequence |
| Day01.DistanceOrderFree | 1/src/main.rs:18-25 | the distance depends only on the multisets of the columns, not on the line order |
| Day01.ColumnsLineCases | 1/src/main.rs:7-12 | a line without tokens is skipped; a line with one token gives the "No right number" error |
| Day01.ColumnsSameLength | 1/src/main.rs:14-15 | both columns always have the same length |
| Day01.DistanceExample | 1/src/main.rs:73 | the example columns have distance 11 |
| Day01.SimilarityScore | 1/src/main.rs:28-50 | the result is the first "No right number" error, else the sum of each left value times its count on the right |
| Day01.WeightedSum | 1/src/main.rs:46-49 | with the map holding the right column's counts, the sum is the similarity |
| Day01.CountSnoc | 1/src/main.rs:43 | adding a right value raises its count by exactly one |
| Day01.SimilaritySymmetric | 1/src/main.rs:43-49 | the similarity is symmetric in the two columns |
| Day01.SimilarityExample | 1/src/main.rs:78 | the example columns have similarity 31 |
| Day02.BeforeComment | 2/src/main.rs:10 | the tokens before the first "#" token |
| Day02.LevelsAppend | 2/src/main.rs:11 | the parsed levels of two token runs are the concatenation of their levels |
| Day02.LevelsOne | 2/src/main.rs:11 | a token that is an `i32` is kept with its value; any other token is dropped |
| Day02.CommentLine | 2/src/main.rs:9-12 | on a line of space-separated tokens, everything from a "#" token on is ignored |
| Day02.LevelsOfTokens | 2/src/main.rs:11 | `i32` levels printed in decimal parse back to the same report |
| Day02.IntTokenShape | 2/src/main.rs:9-10 | a printed level is one non-empty whitespace-free token, never "#" |
| Day02.CommentExample | 2/src/main.rs:174-179 | "1 2 3 4 5 # 6 7 8 9" parses to [1, 2, 3, 4, 5] |
| Day02.ParseReport | 2/src/main.rs:9-12 | a line gives no more levels than it has whitespace-separated tokens, and every level is an `i32` |
| Day02.ParseInput | 2/src/main.rs:4-15 | one report per line of the trimmed input, and every level of every report is an `i32` |
| Day02.ParseEmpty | 2/src/main.rs:4-15 | the empty input holds no reports |
| Day02.Safe | 2/src/main.rs:23-28 | a safe report steps by 1 to 3 at every pair, always in the direction of its first step |
| Day02.SafeIff | 2/src/main.rs:23-28 | a report is safe exactly when it rises or falls strictly by steps of 1 to 3 |
| Day02.DirectionAtAnyPair | 2/src/main.rs:23-28 | in a report whose steps all follow one direction, every pair shows that direction |
| Day02.EqualNeighboursUnsafe | 2/src/main.rs:292-302 | a report with two equal neighbouring levels is unsafe |
| Day02.TwoLevels | 2/src/main.rs:23-28 | a two-level report is safe exactly when its levels differ by 1 to 3 |
| Day02.CountSafe | 2/src/main.rs:19-31 | ex_1 counts at most one per report |
| Day02.CountSafeAppend | 2/src/main.rs:19-31 | the ex_1 count of two batches of reports is the sum of their counts |
| Day02.CountSafeExample | 2/src/main.rs:181-184 | two of the six sample reports are safe |
| Day02.Remove | 2/src/main.rs:41-44 | the derived report has one level fewer, the levels before k unchanged and the later ones shifted down |
| Day02.BruteSafe | 2/src/main.rs:39-55 | only a report of three or more levels can pass the brute force; one that is safe without its first level passes |
| Day02.DampenedSafe | 2/src/ex_2.rs:3-85 | an accepted report has at least two levels; with no quota left the dampener is plain safety |
| Day02.DampenedCount | 2/src/ex_2.rs:87-89 | at most one per report is counted |
| Day02.SafeWithoutLast | 2/src/ex_2.rs:27-79 | a safe report of three or more levels stays safe without its last level |
| Day02.FirstDirectionDecides | 2/src/ex_2.rs:35-79 | checking a report against the direction of its first step of size 1 to 3 decides its safety |
| Day02.AllDeltasOk | 2/src/ex_2.rs:14-22 | the windows loop accepts exactly when every step follows the direction |
| Day02.SkipDirection | 2/src/ex_2.rs:30-56 | the direction loop returns the direction of the first step of size 1 to 3 in the report without `skip` |
| Day02.SkipValid | 2/src/ex_2.rs:58-75 | the checking loop accepts exactly when every step of the report without `skip` follows the direction |
| Day02.IsSafe | 2/src/ex_2.rs:3-85 | shorter than 2 is unsafe; a valid report is safe; otherwise, with quota and at least three levels, safe exactly when some single removal leaves a safe report |
| Day02.DampenedMatchesBrute | 2/src/analyze.rs:9-17 | on reports of three or more levels the dampener agrees with the brute force |
| Day02.CountDampened | 2/src/ex_2.rs:87-89 | counts the reports the dampener accepts |
| Day02.DampenedCountMatchesBrute | 2/src/main.rs:34-58 | the dampened count equals the brute-force count when no report has one or two levels |
| Day02.DampenerExamples | 2/src/main.rs:335-365 | "3 1 2 4 5", "1 2 4 5 3", "4 5 3", "4 3 5 2" and "4 3 5 6" are safe with the dampener; "4 3 5 3" is not |
| Day02.InlineDampenedSafe | 2/src/main.rs:64-127 | every report the inlined dampener accepts is accepted by the library dampener |
| Day02.InlineSkipValid | 2/src/main.rs:104-118 | the inlined walk for removal index i never accepts i = 0, and for other i accepts exactly when the shortened report follows the direction |
| Day02.InlineIsSafe | 2/src/main.rs:64-127 | as written: safe as is, or made safe by removing some level other than the first |
| Day02.InlineDirection | 2/src/main.rs:95-102 | for a removal other than the first, the chosen direction is that of a pair of the shortened report, so it decides safety |
| Day02.InlineMissesFirstRemoval | 2/src/main.rs:335-340 | "3 1 2 4 5" is brute-force safe and safe with the library dampener but rejected by the inlined one |
| Day04.InputToGrid | 4/src/main.rs:104-114 | one row per non-blank line, each trimmed and non-empty; reads outside return the given default |
| Day04.InputOfOneLine | 4/src/main.rs:104-114 | a single line of visible characters is read as a one-row grid |
| Day04.WalkMas | 4/src/main.rs:124-136 | the letter walk in one direction counts one exactly when the next three cells read "MAS" |
| Day04.SolveEx1 | 4/src/main.rs:116-140 | the count is the number of (X cell, direction) pairs, over the eight directions, whose next three cells read "MAS" |
| Day04.SpellsInside | 4/src/main.rs:74-80 | with a default that is not a letter of "MAS", every counted word lies inside the grid |
| Day04.XmasCountBound | 4/src/main.rs:116-140 | at most eight words start at any cell |
| Day04.ExampleXmas | 4/src/main.rs:177-181 | "XMAS" holds one word |
| Day04.ExampleXmasSeparated | 4/src/main.rs:183-187 | "XMAS.XMAS" holds two words |
| Day04.ExampleXmasTwice | 4/src/main.rs:189-193 | "XMASXMAS" holds two words |
| Day04.XmasDiagonal | 4/src/main.rs:195-207 | the trimmed 4x4 diagonal grid holds one word |
| Day04.OverlappingCorner | 4/src/main.rs:210-221 | in the overlapping 4x5 grid, the X at (0, 0) starts exactly one word, on the diagonal |
| Day04.OverlappingColumn | 4/src/main.rs:210-221 | in the overlapping grid, the X at (0, 1) starts exactly one word, down its column |
| Day04.OverlappingLast | 4/src/main.rs:210-221 | in the overlapping grid, the X at (3, 4) starts exactly one word, up the last column |
| Day04.XmasOverlapping | 4/src/main.rs:210-221 | the overlapping 4x5 grid holds three words that share letters |
| Day04.CountXMas | 4/src/main.rs:145-158 | the filter keeps at most one entry per cell |
| Day04.SolveEx2 | 4/src/main.rs:142-159 | the part-two count never exceeds the number of cells |
| Day04.IsXMas | 4/src/main.rs:146-156 | a cell passes the filter exactly when it holds an A and both diagonals through it read "MAS" in one direction or the other |
| Day04.XMasInterior | 4/src/main.rs:146-156 | with a default that is neither M nor S, no cell on the border passes the filter |
| Day04.ExampleXMas | 4/src/main.rs:142-159 | the 3x3 grid "M.S / .A. / M.S" has one X-MAS |
| Day05.PageNumber | 5/index.ts:12 | a page token is a decimal integer below 2^53, surrounding whitespace ignored |
| Day05.RuleRoundTrip | 5/index.ts:11-12 | a rule written `a|b` reads back as the pair (a, b) |
| Day05.RuleNeedsBar | 5/index.ts:12 | a rule line without a '|' has no successor and is rejected |
| Day05.UpdateRoundTrip | 5/index.ts:24 | an update written with commas reads back as the same pages |
| Day05.FirstBlank | 5/index.ts:7 | the index of the first blank line: every earlier line has text, and the line there (if any) is blank |
| Day05.SectionsOf | 5/index.ts:7 | without a blank line there is no update part (the source throws); otherwise both parts hold only lines with text |
| Day05.SectionsLayout | 5/index.ts:7 | rule lines, a blank line and update lines split into exactly those rule lines and update lines |
| Day05.SuccessorsIff | 5/index.ts:13-15 | b is listed after a exactly when the rule a|b was read |
| Day05.BuildBeforeMap | 5/index.ts:9-16 | each predecessor maps to the successors of its rules, in rule order, and `isBefore(a, b)` holds exactly when the rule a|b was read |
| Day05.ParseRule | 5/index.ts:12 | a rule line parses exactly when it has at least two '|'-pieces and the first two are page numbers, and the rule is those two numbers |
| Day05.ParseUpdate | 5/index.ts:24 | on success one page per ','-piece, each the piece's number; on failure some piece is not a number |
| Day05.ParseSections | 5/index.ts:11-24 | on success one rule per rule line and one update per update line, each that line parsed; on failure some rule line or update line does not parse |
| Day05.ParseInput | 5/index.ts:6-24 | without a blank line there is nothing; on success the rules are the rule lines parsed one by one and the updates the trimmed non-blank update lines parsed one by one |
| Day05.Parse | 5/index.ts:6-31 | `parse` fails exactly when the input has no update part or a malformed number; otherwise `isBefore` is the rule relation and the updates are the trimmed non-blank lines of the update part |
| Day05.IsValidUpdate | 5/index.ts:33-43 | the backward scan accepts exactly when no later page of a neighbouring pair must come before the earlier one |
| Day05.FullyOrderedIsOrdered | 5/index.ts:33-43 | an update that respects every rule among its pages passes the check |
| Day05.NeighboursOnly | 5/index.ts:33-43 | the check looks at neighbours only: rule 3|1 and update 1,2,3 pass although 3 must come before 1 |
| Day05.Middle | 5/index.ts:47 | the middle number is a page of the update |
| Day05.MiddleCentred | 5/index.ts:45-50 | the middle of an odd update has as many pages on each side; of an even one, one more before |
| Day05.SumMiddlesAppend | 5/index.ts:45-50 | summing middles of two batches of updates adds their sums |
| Day05.ValidUpdates | 5/index.ts:58 | the kept updates are updates of the input that pass the check |
| Day05.SumValidMiddles | 5/index.ts:58-59 | the filter and reduce give the sum of the middles of the accepted updates |
| Day05.Solve1 | 5/index.ts:56-60 | `solve1` fails exactly when `parse` fails, and otherwise is the sum of the middle pages of the accepted updates |
| Day05.SolveExample | 5/index.ts:56-60 | with rules 1|2 and 2|3, updates 1,2,3 and 1,3 are accepted, 3,2,1 is not, and the middles sum to 5 |
| Day07.ParseU64 | 7/src/main.rs:25 | a `u64` token is what the unsigned decimal parse accepts, with that value |
| Day07.ParseEquation | 7/src/main.rs:19-32 | a line is rejected with "missing colon" exactly when it has no ':' |
| Day07.EquationRoundTrip | 7/src/main.rs:19-32 | an equation written as `target: n1 n2 ...` parses back to the same target and numbers |
| Day07.ParseExample | 7/src/main.rs:110-114 | "190: 10 19" parses to target 190 and numbers 10, 19 |
| Day07.Evaluate | 7/src/main.rs:57-66 | the running result is the left-to-right value of the operators, and it panics exactly when some intermediate value leaves `u64` |
| Day07.FitsIff | 7/src/main.rs:61-62 | the overflow condition is that every intermediate result, the first number included, is below 2^64 |
| Day07.EvaluateExamples | 7/src/main.rs:116-121 | `*` on 10, 19 gives 190 and `+` gives 29; 10 + 20 then * 2 gives 60, not 50 |
| Day07.OpsOfBits | 7/src/main.rs:40-48 | operator j is `*` exactly when bit j of the mask is set |
| Day07.MaskOfOps | 7/src/main.rs:39-48 | every choice of n operators is the image of one mask below 2^n |
| Day07.IsSolvable | 7/src/main.rs:36-55 | masks are tried in increasing order: true at the first hit, a panic at an earlier overflow or with no numbers, false when none hits |
| Day07.ScanMasks | 7/src/main.rs:39-52 | the `for i in 0..limit` loop returns exactly what the search over the masks below limit returns |
| Day07.Search | 7/src/main.rs:39-52 | trying masks i to limit - 1 in order: true only when some mask fits and hits the target, a panic only when some mask overflows, false only when every mask fits and misses |
| Day07.Solvable | 7/src/main.rs:36-54 | an accepted equation has operators that reach its target without overflow; a panic on a non-empty equation means some operators overflow |
| Day07.SearchWitness | 7/src/main.rs:39-48 | a hit or an overflow of the mask search is realised by a sequence of exactly n operators |
| Day07.SolvableAsWritten | 7/src/main.rs:37-39 | with at most 31 numbers the `i32` mask range agrees with the full search |
| Day07.SolvableComplete | 7/src/main.rs:36-55 | a rejected equation has no operators that reach its target |
| Day07.SolvableIff | 7/src/main.rs:36-55 | without overflow the search does not panic and accepts exactly when some operators reach the target |
| Day07.ThirtyTwoOnes | 7/src/main.rs:37-39 | thirty-two ones with target 32 are reported unsolvable by the `i32` mask range, though all `+` reaches 32 |
| Day07.ParsedEquations | 7/src/main.rs:71-72 | at most one equation per line, in line order |
| Day07.SkipsColonless | 7/src/main.rs:20-72 | a line without a colon is skipped |
| Day07.KeepsEquation | 7/src/main.rs:72 | a well-formed line contributes its equation |
| Day07.SolvedSumGrows | 7/src/main.rs:73-75 | the running sum never decreases, so an overflow anywhere means the total overflows |
| Day07.NoPanicIff | 7/src/main.rs:73 | no search panics exactly when every equation's search returns |
| Day07.SumSolvable | 7/src/main.rs:73-75 | the `u64` sum of the targets of the accepted equations, or a panic when a search panics or the sum overflows |
| Day07.Solve | 7/src/main.rs:69-76 | `solve` is that sum over the equations among the lines that parse |
| Day07.Unsolvable30 | 7/src/main.rs:103-104 | "30: 10 10" is not solvable, so it adds 0 |
| Day07.Solvable190 | 7/src/main.rs:99-100 | "190: 10 19" is solvable with `*` |
| Day07.Solvable20 | 7/src/main.rs:101-102 | "20: 10 10" is solvable with `+` |
| Day07.Solvable60 | 7/src/main.rs:105-106 | "60: 10 20 2" is solvable: the third mask, `+` then `*`, reaches 60 after the first two miss |
| Grid.CellsInside | 8/src/grid.rs:35-39 | every entry of `cells` is an in-bounds position with the value stored there |
| Day08.PositionsOf | 8/src/main.rs:12-18 | the listed positions are exactly those of the cells holding the character |
| Day08.FindAntennas | 8/src/main.rs:9-22 | each character other than '.' and ' ' that occurs maps to its positions in row-major order; no other character has an entry |
| Day08.AntennaPositions | 8/src/main.rs:9-22 | a position is listed for a character exactly when it is inside the grid and holds that character |
| Day08.AntinodesTwiceAsFar | 8/src/main.rs:27-31 | each antinode is twice as far from one antenna as from the other, along their line |
| Day08.AntinodesSymmetric | 8/src/main.rs:27-31 | swapping the antennas swaps the two antinodes |
| Day08.AddInside | 8/src/main.rs:47-55 | adds exactly the candidate points inside the grid |
| Day08.FrequencyAntinodes | 8/src/main.rs:38-57 | the inside antinodes of all pairs i < j of one frequency |
| Day08.FindAntinodes | 8/src/main.rs:33-61 | a point is in the part-one set exactly when it is inside the grid and an antinode of two antennas of one frequency |
| Day08.Gcd | 8/src/main.rs:67-76 | the result is non-negative, divides both inputs, is divided by every common divisor, and is 0 only for (0, 0) |
| Day08.GcdOfDivides | 8/src/main.rs:70-75 | Euclid's remainder loop ends at a common divisor |
| Day08.GcdOfGreatest | 8/src/main.rs:70-75 | every common divisor divides Euclid's result |
| Day08.QuotExact | 8/src/main.rs:87-88 | truncating division by an exact divisor gives back the dividend when multiplied |
| Day08.StepReaches | 8/src/main.rs:86-88 | the reduced step is not zero and gcd steps of it lead from one antenna to the other |
| Day08.OnLineCollinear | 8/src/main.rs:86-88 | every point reached by whole steps is collinear with the two antennas |
| Day08.Convex | 8/src/main.rs:96-114 | the grid is convex along a line, so the walks can stop at the first point outside |
| Day08.Walk | 8/src/main.rs:96-103 | each walk pushes the consecutive inside points of its direction and stops at the first one outside |
| Day08.LineCovered | 8/src/main.rs:93-116 | the two walks together give inside points of the line only, and every inside point of the line when the start is inside |
| Day08.PointsOnLine | 8/src/main.rs:78-117 | `[p1]` when the antennas coincide; otherwise only inside points of the line, and all of them when p1 is inside |
| Day08.LineSet | 8/src/main.rs:147-158 | the inside points returned for a pair are exactly the inside points of its line |
| Day08.AddPairLine | 8/src/main.rs:147-158 | adds exactly the inside points of the pair's line |
| Day08.AddRowLines | 8/src/main.rs:142-159 | antenna i with each later antenna of its frequency |
| Day08.FrequencyLinePoints | 8/src/main.rs:141-160 | the inside points of the lines of all pairs i < j of one frequency |
| Day08.FindLineAntinodes | 8/src/main.rs:134-164 | a point is in the part-two set exactly when it is inside the grid and on the line of two antennas of one frequency |
| Day08.PairEndsOnLine | 8/src/main.rs:93-106 | both antennas of a pair are on its line, so they count in part two |
| Day08.AntinodesOnLine | 8/src/main.rs:27-117 | the part-one antinodes of a pair lie on its part-two line |
| Day08.PartOneInPartTwo | 8/src/main.rs:33-164 | every part-one antinode is a part-two antinode |
| Day09.ParseDisk | 9/src/main.rs:61-76 | the trimmed input parses exactly when it is all digits (any other character panics on `unwrap`), one item per digit |
| Day09.ParsedWellFormed | 9/src/main.rs:67-74 | item i of a parse is `File { id: i / 2 }` for even i and free space for odd i, every size below 10 |
| Day09.ParseDiskMap | 9/src/main.rs:61-76 | every non-empty disk of that layout is parsed back from its digit string |
| Day09.ParseExample | 9/src/main.rs:156-167 | "12345" parses to files 0, 1, 2 of sizes 1, 3, 5 with free space 2 and 4 between them |
| Day09.Repeat | 9/src/main.rs:55 | `repeat(n)` has n times the characters of the string and no character outside it |
| Day09.Expand | 9/src/main.rs:52-59 | the expansion consists of digits and dots and takes at least one character per block |
| Day09.Piece | 9/src/main.rs:54-57 | one item expands to digits (a file) or dots (free space), at least its size in characters |
| Day09.ExpandLength | 9/src/main.rs:52-59 | with single-digit ids the expansion has one character per block |
| Day09.ExpandExample | 9/src/main.rs:184-187 | the expansion of the "12345" disk is "0", "..", "111", "....", "22222" in order |
| Day09.FileSizeUpdate | 9/src/main.rs:105-124 | overwriting one slot changes an id's total file size by exactly that slot's old and new share |
| Day09.CompressLoop | 9/src/main.rs:85-127 | the two-pointer loop keeps the number of items |
| Day09.CompressDisk | 9/src/main.rs:78-130 | panics exactly on an empty disk (`len() - 1`); otherwise the loop from both ends over a disk of the same length |
| Day09.CompressLoopFacts | 9/src/main.rs:85-127 | with files before `left` and free space after `right`, the loop ends with no file after a free item and every id's total file size unchanged |
| Day09.CompressFacts | 9/src/main.rs:78-130 | the result of `compress` leaves no file after a free item and keeps every id's total file size |
| Day09.Compress | 9/src/main.rs:78-130 | the in-place loop on a copy of the disk computes exactly `CompressDisk` |
| Day09.CompressExample | 9/src/main.rs:169-180 | the loop on the "12345" disk yields files 0, 2, 1, 2 of sizes 1, 2, 3, 3 followed by free space 3 |
| Day09.CompressTrivial | 9/src/main.rs:169-180 | `compress` on the "12345" disk returns those five items, not the four the unit test lists |
| Day09.Checksum | 9/src/main.rs:132-141 | a disk holding only free space and file 0 has checksum 0 |
| Day09.ChecksumIgnoresFree | 9/src/main.rs:132-141 | free items contribute nothing to the checksum |
| Day09.ChecksumExample | 9/src/main.rs:132-178 | the checksum of the test's compressed list is 0·0 + 2·1 + 1·2 + 2·3 = 10, and the trailing free slot `compress` leaves adds nothing |
| Day09.Solve | 9/src/main.rs:143-147 | fails exactly on a non-digit or an empty disk; otherwise the checksum of the compressed parsed disk |
| Day11.ParseStones | 11/src/main.rs:3-9 | a parse has at least one stone and every stone is a `u64` |
| Day11.ParseFormat | 11/src/main.rs:3-9 | a non-empty row of `u64` stones written with single spaces parses back to itself |
| Day11.DoubleSpaceFails | 11/src/main.rs:6-7 | two spaces in a row leave an empty piece, and the parse fails |
| Day11.NumDigits | 11/src/main.rs:11-16 | every number, 0 included, has at least one digit |
| Day11.NumDigitsString | 11/src/main.rs:11-132 | the digit count equals the length of the decimal string |
| Day11.NumDigitsBounds | 11/src/main.rs:11-16 | a number with d digits is below 10^d and, from 1 on, at least 10^(d-1) |
| Day11.NumDigitsOfRange | 11/src/main.rs:11-16 | a number in [10^(k-1), 10^k) has k digits |
| Day11.Transform | 11/src/main.rs:54-67 | every stone turns into one or two stones |
| Day11.ZeroBecomesOne | 11/src/main.rs:56-58 | 0 becomes 1 |
| Day11.SplitHalves | 11/src/main.rs:60-64 | a stone with 2k digits becomes its high half of exactly k digits and its low half below 10^k, and high · 10^k + low is the stone |
| Day11.OddMultiplies | 11/src/main.rs:66 | any other stone is multiplied by 2024 |
| Day11.TransformExamples | 11/src/main.rs:54-67 | 1, 10, 1000, 125 and 17 become 2024; 1, 0; 10, 0; 253000; 1, 7 |
| Day11.Blink | 11/src/main.rs:24-40 | a blink keeps at least as many stones as before and at most twice as many |
| Day11.IterateGrows | 11/src/main.rs:21-43 | the number of stones never decreases from one blink to the next |
| Day11.BlinkExample | 11/src/main.rs:24-40 | the row 125 17 becomes 253000 1 7 |
| Day11.BlinkOnce | 11/src/main.rs:22-42 | the new row is the stones each stone turns into, in order |
| Day11.SolveEx1 | 11/src/main.rs:18-46 | the length of the row after the given number of blinks |
| Day11.Count | 11/src/main.rs:84-96 | an entry popped with no blinks left counts once, so one stone is at least one stone after any number of blinks |
| Day11.CountAll | 11/src/main.rs:72-76 | a row counts at least as many stones as it holds |
| Day11.CountAllAppend | 11/src/main.rs:69-99 | the stone count of two rows side by side is the sum of their counts |
| Day11.CountAllBlink | 11/src/main.rs:89-95 | counting a row with t + 1 blinks left is counting its blinked row with t left |
| Day11.IterateCount | 11/src/main.rs:18-99 | the per-stone counts add up to the length of the row `solve_ex1` builds |
| Day11.PushChildren | 11/src/main.rs:89-95 | replacing an entry by its transformed stones with one blink less keeps the total still to be counted and lowers the termination measure |
| Day11.MemoSolve | 11/src/main.rs:69-150 | the stack count equals the per-stone count and therefore the `solve_ex1` count for the same blinks |
| Day12Regions.NeighboursAdjacent | 12/src/ex1.rs:55 | the four offsets reach exactly the cells at distance one |
| Day12Regions.Opposite | 12/src/ex1.rs:55 | stepping one way and then the opposite way returns to the start |
| Day12Regions.DistinctCard | 12/src/ex1.rs:19-31 | a list of cells without repeats has as many elements as entries |
| Day12Regions.RectCard | 12/src/ex1.rs:14-17 | a rows × cols map has rows · cols plots |
| Day12Ex1.NonEmptyLinesKeeps | 12/src/ex1.rs:9 | dropping empty lines changes nothing when no line is empty |
| Day12Ex1.Explore | 12/src/ex1.rs:36-79 | nothing is marked and (0, 0) returned off the map, on a visited plot or on another symbol; otherwise exactly the returned region is marked, once each: a connected list of the symbol's plots starting at the given one, closed under same-symbol neighbours, whose size is the area and whose fenced sides are the perimeter |
| Day12Ex1.ExploreFrom | 12/src/ex1.rs:51-78 | past the guard, the region found starts at the given plot |
| Day12Ex1.ExploreSides | 12/src/ex1.rs:52-76 | after the four directions, c and what its neighbours added are marked, and the perimeter is c's fenced sides plus theirs |
| Day12Ex1.ExploreSide | 12/src/ex1.rs:56-75 | a side off the map or facing another symbol adds one unit of fence and marks nothing; otherwise the neighbour's exploration is added |
| Day12Ex1.PartialExplore | 12/src/ex1.rs:70-74 | adding the cells a neighbour's exploration marked keeps the region connected, without repeats and closed |
| Day12Ex1.NewRegionMaximal | 12/src/ex1.rs:19-31 | a region explored from an unvisited plot has no same-symbol neighbour outside it, because every earlier region is already closed |
| Day12Ex1.FillStep | 12/src/ex1.rs:21-29 | recording the new region keeps the regions found so far a partition of the visited plots |
| Day12Ex1.FillCell | 12/src/ex1.rs:20-30 | after a plot of the scan it is visited, and the recorded regions still partition the visited plots |
| Day12Ex1.FillRow | 12/src/ex1.rs:19-31 | after a row of the scan every plot of it and of the rows above is visited |
| Day12Ex1.FloodFill | 12/src/ex1.rs:8-34 | no regions for a map without lines; otherwise every plot lies in exactly one region, and each region is a connected, maximal set of plots of its symbol with its area and its perimeter |
| Day12Ex1.PartitionArea | 12/src/ex1.rs:8-34 | the areas of the regions add up to rows · cols |
| Day12Ex1.OnePlot | 12/src/ex1.rs:8-84 | a one-plot map has the one region of area 1 and perimeter 4, and price 4 |
| Day12Ex1.Solve | 12/src/ex1.rs:81-84 | the sum of area · perimeter over a partition of the map into its regions |
| Day12Ex2.WindowCoords | 12/src/ex2.rs:3-5 | a window has four cells (which windows hold a cell is `InWindows`) |
| Day12Ex2.InWindows | 12/src/ex2.rs:3-5 | a cell lies in exactly four windows: the ones at itself and one step right, down, or both |
| Day12Ex2.GetWindow | 12/src/ex2.rs:7-9 | the window holds the four labels at the window's cells, the default for a cell outside the grid |
| Day12Ex2.CountZero | 12/src/ex2.rs:12 | a symbol is counted zero times exactly when the window does not hold it |
| Day12Ex2.CornerInWindow | 12/src/ex2.rs:11-33 | a region has at most two corners at one window's centre (the lemmas below tie the count rule to the window's shape) |
| Day12Ex2.AbsentNoCorner | 12/src/ex2.rs:11-33 | a region absent from a window has no corner there |
| Day12Ex2.CornerIsTurns | 12/src/ex2.rs:11-33 | the count rule agrees with a geometric count of how the boundary segments meeting at the window's centre turn |
| Day12Ex2.CornerSymmetric | 12/src/ex2.rs:11-33 | mirroring or transposing the window does not change its corners |
| Day12Ex2.CornerCases | 12/src/ex2.rs:11-33 | a window fully inside a region has no corner, one with a single cell of it has one, and two come exactly from a lone diagonal pair |
| Day12Ex2.RelabelSets | 12/src/ex2.rs:84 | labelling unlabelled cells with a fresh id gives the id exactly those cells, removes them from the unlabelled ones and leaves other labels alone |
| Day12Ex2.Label | 12/src/ex2.rs:84 | the label matrix afterwards is the old one with the one cell relabelled |
| Day12Ex2.Explore | 12/src/ex2.rs:72-104 | nothing changes and 0 is returned for a labelled plot or one of another symbol; otherwise exactly the returned region gets the id, and it is connected, without repeats, of the symbol and closed; the result is its size |
| Day12Ex2.ExploreFrom | 12/src/ex2.rs:84-103 | past the guard, the region found starts at the given plot |
| Day12Ex2.ExploreSides | 12/src/ex2.rs:85-103 | after the four directions, exactly the plot and what its neighbours added carry the id, and the size counts them |
| Day12Ex2.ExploreSide | 12/src/ex2.rs:88-100 | an off-grid neighbour adds nothing; an in-bounds one adds its exploration |
| Day12Ex2.FillCell | 12/src/ex2.rs:56-65 | after a plot of the scan it is labelled or blank, and the recorded regions still describe exactly the labelled plots |
| Day12Ex2.FillRow | 12/src/ex2.rs:55-66 | after a row of the scan every non-blank plot of it and of the rows above is labelled |
| Day12Ex2.FloodFill | 12/src/ex2.rs:49-70 | the label grid has the map's size and default -1; a plot is unlabelled exactly when blank; each region is a connected, maximal set of plots of one non-blank symbol, with its size as area and no corners yet, and its plots are exactly those carrying its index |
| Day12Ex2.CountWindow | 12/src/ex2.rs:121-134 | every region whose index is in the window gains that window's corners, except regions of a blank symbol; the others are unchanged |
| Day12Ex2.RowAddedStep | 12/src/ex2.rs:119-135 | one more window of a row adds exactly that window's corners |
| Day12Ex2.CountRow | 12/src/ex2.rs:119-135 | a window row adds to every region its corners in the windows (r, 0) .. (r, width) |
| Day12Ex2.GridAddedStep | 12/src/ex2.rs:118-136 | one more window row adds exactly that row's corners |
| Day12Ex2.CountCorners | 12/src/ex2.rs:118-136 | every region gains its corners over all windows (0, 0) .. (height, width) |
| Day12Ex2.RowsOf | 12/src/ex2.rs:107-114 | the map rows are the non-empty input lines, each trimmed |
| Day12Ex2.PriceCounted | 12/src/ex2.rs:139 | once the corners are counted, the sum of area · corners is the sum over the regions of area times their label's corners |
| Day12Ex2.Solve | 12/src/ex2.rs:106-140 | the sum of area · corners over a flood-fill labelling of the map |
| Day13.ZeroDeterminant | 13/src/ex1.rs:14-18 | a zero determinant gives no answer |
| Day13.SolveRound | 13/src/ex1.rs:3-37 | an answer is the cost a · 3 + b · 1 of non-negative presses a, b that land exactly on the prize, so it is never negative |
| Day13.QuotExact | 13/src/ex1.rs:28-29 | Rust's truncating division returns the factor of an exact multiple |
| Day13.CramerIdentities | 13/src/ex1.rs:11-26 | winning presses satisfy a · D = Da and b · D = Db |
| Day13.SolveRoundComplete | 13/src/ex1.rs:3-37 | with a non-zero determinant, any winning presses are found and their cost is returned |
| Day13.WinsUnique | 13/src/ex1.rs:3-37 | with a non-zero determinant at most one choice of presses wins |
| Day13.FirstExample | 13/src/ex1.rs:51-60 | the first example machine costs 280 tokens |
| Day13.ImpossibleExample | 13/src/ex1.rs:62-71 | the diagonal example machine has no answer |
| Day13.Solve | 13/src/ex1.rs:39-42 | the total of the answers is never negative |
| Day13.SolveAppend | 13/src/ex1.rs:39-42 | the total over two groups of rounds is the sum of their totals |
| Day14.MatchAt | 14/index.ts:12 | a match at the start of a text begins with "p=" |
| Day14.Search | 14/index.ts:12-13 | the unanchored match fails exactly when the pattern matches at no position of the line |
| Day14.SearchLeftmost | 14/index.ts:12 | a match found is the pattern matched at some position with no match at any earlier one |
| Day14.ParseLines | 14/index.ts:11-19 | every line yields the robot its leftmost pattern match describes, and a line without a match makes the whole parse fail |
| Day14.ParseInput | 14/index.ts:7-10 | a successful parse has one robot per line of the trimmed input |
| Day14.MatchIntShow | 14/index.ts:12-16 | a printed integer followed by a non-digit is read back as that integer |
| Day14.MatchAtShow | 14/index.ts:12-18 | the pattern read at the start of a robot's printed form gives the robot back |
| Day14.SearchShow | 14/index.ts:12-18 | searching a robot's printed form for the pattern gives the robot back |
| Day14.EmptyInputThrows | 14/index.ts:8-15 | an empty input is one empty line, which does not match and throws |
| Day14.Wrap | 14/index.ts:51-53 | one axis of a step is x + v up to a multiple of the size, and strictly between minus and plus the size |
| Day14.RemCongruent | 14/index.ts:51-53 | JavaScript's `%` lies strictly between minus and plus the modulus and is congruent to the dividend |
| Day14.Advance | 14/index.ts:49-55 | a robot keeps its velocity however many seconds it walks |
| Day14.StepRobot | 14/index.ts:50-54 | a step keeps the velocity |
| Day14.WrapInRange | 14/index.ts:51-53 | a step from a cell on the board, with a velocity no faster than one board length backwards, stays on the board and is addition modulo the size |
| Day14.WrapLeavesBoard | 14/index.ts:51-53 | a faster backward velocity leaves the board: x = 0, vx = -12 on a board 11 wide gives -1 |
| Day14.AdvanceClosedForm | 14/index.ts:49-55 | after n seconds a robot is at its start plus n times its velocity, modulo the size |
| Day14.Simulate | 14/index.ts:49-55 | the in-place loops leave every robot advanced the given number of seconds |
| Day14.QuadrantOf | 14/index.ts:72-87 | a counted robot is in one of the four quadrants |
| Day14.MiddleNotCounted | 14/index.ts:72-87 | a robot is counted in no quadrant exactly when it is on the middle column or row |
| Day14.CountsCover | 14/index.ts:75-87 | the four quadrant counts and the middle count add up to the number of robots |
| Day14.SafetyScore | 14/index.ts:61-90 | the counter loop returns the product of the four quadrant counts |
| Day14.Score | 14/index.ts:89 | the product of the four quadrant counts is 0 exactly when some quadrant has no robot |
| Day14.ProductZero | 14/index.ts:89 | a product of four counts is 0 exactly when one of them is |
| Day14.Run | 14/index.ts:46-58 | the robots moved in an array and scored give the score of the robots advanced that many seconds |
| Day14.Solve | 14/index.ts:45-59 | a line that does not match is the error; otherwise the result is the score of the robots after 100 seconds |
| Day14Game.TallyOnBoard | 14/part-2/src/game.rs:229-233 | the board can be filled exactly when every robot is on it; otherwise the `usize` index fails |
| Day14Game.TallyCount | 14/part-2/src/game.rs:229-233 | the cell counts of a filled board add up to the number of robots |
| Day14Game.ProcessTime | 14/part-2/src/game.rs:217-236 | the board is the tally of the robots advanced `time` seconds, and its counts add up to the number of robots |
| Day14Game.StaysOnBoard | 14/part-2/src/game.rs:221-227 | robots that start on the board, no faster than one board length backwards, are on the board at every time |
| Day14Game.Periodic | 14/part-2/src/game.rs:1-3 | after WIDTH * HEIGHT seconds every robot is back where it was, so the boards of times below UNIQUE_BOARDS are all the boards there are |
| Day14Game.QuadrantsAgree | 14/part-2/src/game.rs:79-100 | the quadrant of a cell is the one part one gives |
| Day14Game.TallyQuadrants | 14/part-2/src/game.rs:84-104 | each quadrant sum of a filled board is the number of robots in that quadrant |
| Day14Game.SafetyFactorAgrees | 14/part-2/src/game.rs:78-107 | the safety factor of the board at a time is part one's safety score of the robots at that time |
| Day14Game.ScanRow | 14/part-2/src/game.rs:85-103 | one row adds its robots to their quadrant's counter, skipping the middle column and row |
| Day14Game.Game.SafetyFactorForBoard | 14/part-2/src/game.rs:78-107 | the nested loops return the product of the four quadrant sums |
| Day14Game.Game.CurrentBoard | 14/part-2/src/game.rs:74-76 | the board of the robots at the current time |
| Day14Game.Game.CalculateSafetyFactor | 14/part-2/src/game.rs:109-111 | the factor of the current board, which is the part-one score of the robots at the current time |
| Day14Game.BinarySearchByEntropy | 14/part-2/src/game.rs:144-147 | `Ok` gives an index holding the key; `Err` gives the position with smaller keys before it and larger keys after it |
| Day14Game.SearchInsertionPoint | 14/part-2/src/game.rs:144-149 | either result is an insertion point, and for a list of at most MAX_STORED_BOARDS it is that large exactly when the list is full and every key is smaller |
| Day14Game.InsertSorted | 14/part-2/src/game.rs:150 | inserting at an insertion point keeps the list sorted |
| Day14Game.InsertedMembers | 14/part-2/src/game.rs:150 | inserting adds only the new state |
| Day14Game.PoppedKeeps | 14/part-2/src/game.rs:151-153 | dropping the last state keeps the list sorted and adds nothing |
| Day14Game.Game.UpdateLowestEntropyStates | 14/part-2/src/game.rs:143-155 | the list stays sorted and at most MAX_STORED_BOARDS long; it is unchanged when full of smaller keys and otherwise becomes the list with the state inserted, less its last state if it grew too long |
| Day14Game.Game.constructor | 14/part-2/src/game.rs:39-72 | every stored state is the board at its time, a time below UNIQUE_BOARDS, with its entropy at most the threshold, and the stored list is sorted and short enough |
| Day14Game.Game.SelectedState | 14/part-2/src/game.rs:123-127 | a selected state is a stored one, and there is one exactly when an index is selected |
| Day14Game.Game.SelectState | 14/part-2/src/game.rs:117-121 | an index inside the list is selected, and one outside it is ignored |
| Day14Game.Game.SelectNextState | 14/part-2/src/game.rs:129-134 | the selection moves one forward when that stays inside the list, counting from index 0 when nothing is selected |
| Day14Game.Game.SelectPrevState | 14/part-2/src/game.rs:136-141 | the selection moves one back unless it is at index 0 or empty |
| Day14Game.NextThenPrev | 14/part-2/src/game.rs:129-141 | moving forward and then back returns to the state that was selected |
| Day14Game.Game.IsCurrentSelected | 14/part-2/src/game.rs:157-159 | true exactly when no stored state is selected |
| Day14Game.Game.IsTimeSelected | 14/part-2/src/game.rs:161-164 | for a valid game, true exactly when a state is selected and that stored state's time is the given one; never while the live board is shown |
| Warehouse.CellInDirection | 15/src/ex_1.rs:49-58 | the neighbour one step along the direction; `None` (the `usize` underflow) exactly when stepping up from row 0 or left from column 0 |
| Warehouse.StepBack | 15/src/ex_1.rs:49-58 | a step and then a step in the opposite direction return to the start, without underflow |
| Warehouse.Put | 15/src/ex_1.rs:41-42 | writing through `map[p]` keeps the map's shape |
| Warehouse.CellsPut | 15/src/ex_1.rs:41-42 | writing a cell swaps one token of the map's contents for the written one |
| Warehouse.Interior | 15/src/ex_1.rs:37 | on a map walled all round, a cell that is not a wall has a neighbour on the map in every direction |
| Warehouse.PutOffRay | 15/src/ex_1.rs:40-43 | the two writes of a successful step keep every cell off the pushed ray |
| Warehouse.SameWallsEnclosed | 15/src/ex_1.rs:28-30 | a map with the same walls as a walled-in map is walled in |
| Warehouse.RowGpsPut | 15/src/ex_1.rs:60-70 | a box put on a row from the scanned column on adds exactly its coordinate to the row's sum |
| Warehouse.GpsFromPut | 15/src/ex_1.rs:60-70 | a box put on a scanned row adds exactly its coordinate to the sum from that row on |
| Warehouse.GpsPutBox | 15/src/ex_1.rs:60-70 | each box contributes 100 times its row plus its column: one more box adds exactly its coordinate |
| Warehouse.SumUpCoordinates | 15/src/ex_1.rs:60-70 | the nested loops return the GPS sum of the cells holding the box token |
| Day15.Move | 15/src/ex_1.rs:24-47 | the map keeps its shape, and only a start on the map avoids the panic |
| Day15.StuckUnchanged | 15/src/ex_1.rs:40-46 | a push that is blocked leaves the map unchanged |
| Day15.MovedVacates | 15/src/ex_1.rs:28-46 | after a move the start cell is empty; an empty start reports itself and writes nothing; otherwise the object is now one step along |
| Day15.MoveFrame | 15/src/ex_1.rs:24-47 | a push changes no cell off the ray from its start along the direction |
| Day15.MoveKeepsWalls | 15/src/ex_1.rs:28-30 | walls never move and nothing becomes a wall |
| Day15.MoveKeepsTokens | 15/src/ex_1.rs:24-47 | a push keeps the number of boxes, robots, walls and empty cells |
| Day15.EnclosedNeverPanics | 15/src/ex_1.rs:24-47 | on a map walled all round, a push from a cell on the map never underflows or indexes off the map |
| Day15.MoveObject | 15/src/ex_1.rs:24-47 | the in-place recursive writes leave the board and return the outcome of `Move` |
| Day15.Walk | 15/src/ex_1.rs:15-19 | a walk that does not panic leaves a map of the same shape |
| Day15.RunRobot | 15/src/ex_1.rs:11-22 | a walk that does not panic started from a robot `find` located and leaves a map of the same shape |
| Day15.WalkKeeps | 15/src/ex_1.rs:11-22 | the robot's walk keeps the map's contents and its walls |
| Day15.WalkEnclosed | 15/src/ex_1.rs:11-22 | on a map walled all round the walk never panics |
| Day15.RunRobotEnclosed | 15/src/ex_1.rs:11-22 | a walled-in map with a robot gives a final map with the same contents |
| Day15.MoveRobot | 15/src/ex_1.rs:11-22 | the loop leaves the board of the walk; `None` (the panic of `find` or of a move) exactly when the walk fails |
| Day15.Solve | 15/src/ex_1.rs:6-9 | the GPS sum of the boxes after the walk, failing exactly when the walk does |
| Day15.SumExample | 15/src/ex_1.rs:80-96 | the sample map with one box at row 1, column 4 sums to 104 |
| Day15.SingleMoveExample | 15/src/ex_1.rs:98-123 | one `>` moves the robot into the empty cell |
| Day15.PushingBoxExample | 15/src/ex_1.rs:125-150 | `>^>` pushes the box one cell right |
| Day15Wide.UpscaleRow | 15/src/ex2.rs:28-36 | a row becomes twice as wide, each token turning into its wide pair |
| Day15Wide.UpscaleMap | 15/src/ex2.rs:25-40 | every row of the map is upscaled |
| Day15Wide.DownscaleUpscale | 15/src/ex2.rs:25-40 | reading the left cell of each wide pair gives the original map back |
| Day15Wide.UpscaleIntegrity | 15/src/ex2.rs:25-40 | an upscaled map passes the box integrity check |
| Day15Wide.UpscaleRowIntegrity | 15/src/ex2.rs:28-36 | an upscaled row is made of whole boxes and does not start with a right half |
| Day15Wide.UpscaleEnclosed | 15/src/ex2.rs:25-40 | a map walled all round is still walled all round once upscaled |
| Day15Wide.CheckBoxIntegrity | 15/src/ex2.rs:62-79 | `Some(true)` exactly when every `[` has `]` after it and every `]` has `[` before it; `None` (an index panic) only for a half box on the row's edge |
| Day15Wide.MoveWide | 15/src/ex2.rs:81-152 | the map keeps its shape, and only a start on the map avoids the panic |
| Day15Wide.MoveBox | 15/src/ex2.rs:105-137 | the box push keeps the map's shape |
| Day15Wide.PushRight | 15/src/ex2.rs:113-121 | pushing a box right keeps the map's shape |
| Day15Wide.PushLeft | 15/src/ex2.rs:122-136 | pushing a box left keeps the map's shape |
| Day15Wide.LiftBox | 15/src/ex2.rs:122-136 | pushing a box up or down keeps the map's shape |
| Day15Wide.LiftRest | 15/src/ex2.rs:122-136 | the second half of a vertical push keeps the map's shape |
| Day15Wide.WideStuck | 15/src/ex2.rs:81-152 | with the atomic push, a blocked push leaves the map unchanged |
| Day15Wide.BoxStuck | 15/src/ex2.rs:105-137 | with the atomic push, a blocked box push leaves the map unchanged |
| Day15Wide.WideWalls | 15/src/ex2.rs:88-90 | walls never move and nothing becomes a wall, with either push; an object that moved was not a wall |
| Day15Wide.RobotWalls | 15/src/ex2.rs:96-104 | the robot's step keeps the walls |
| Day15Wide.BoxWalls | 15/src/ex2.rs:105-137 | a box push keeps the walls |
| Day15Wide.PushRightWalls | 15/src/ex2.rs:113-121 | a push to the right keeps the walls |
| Day15Wide.PushLeftWalls | 15/src/ex2.rs:122-136 | a push to the left keeps the walls |
| Day15Wide.LiftWalls | 15/src/ex2.rs:122-136 | a vertical push keeps the walls |
| Day15Wide.LiftRestWalls | 15/src/ex2.rs:122-136 | the second half of a vertical push keeps the walls |
| Day15Wide.ReplaceWalls | 15/src/ex2.rs:129-132 | taking a box off two non-wall cells and putting it on two others keeps the walls |
| Day15Wide.ShiftRightWalls | 15/src/ex2.rs:115-117 | shifting a box right over non-wall cells keeps the walls |
| Day15Wide.RowPutPlain | 15/src/ex2.rs:98-99 | writing a robot or empty cell where no half box is keeps a row of whole boxes whole |
| Day15Wide.PutPlain | 15/src/ex2.rs:98-99 | writing a robot or empty cell where no half box is keeps the map's boxes whole |
| Day15Wide.RowShiftRight | 15/src/ex2.rs:115-117 | shifting a whole box one cell right into an empty cell keeps the row's boxes whole |
| Day15Wide.ShiftRightIntegrity | 15/src/ex2.rs:115-117 | the same on the map |
| Day15Wide.RowShiftLeft | 15/src/ex2.rs:129-132 | moving a whole box one cell left into an empty cell keeps the row's boxes whole |
| Day15Wide.ShiftLeftIntegrity | 15/src/ex2.rs:129-132 | the same on the map |
| Day15Wide.RowClear | 15/src/ex2.rs:129-130 | emptying both halves of a whole box keeps the row's boxes whole |
| Day15Wide.RowPlace | 15/src/ex2.rs:131-132 | placing a whole box on two empty cells keeps the row's boxes whole |
| Day15Wide.LiftIntegrity | 15/src/ex2.rs:129-132 | moving a whole box to two empty cells of another row keeps the map's boxes whole |
| Day15Wide.WideFacts | 15/src/ex2.rs:81-152 | a successful atomic push on a map of whole boxes leaves whole boxes, changes no cell outside the pushed objects and the cells beyond them, and empties its start unless the start's own box moves onto it |
| Day15Wide.RobotFacts | 15/src/ex2.rs:96-104 | the robot's successful step keeps the boxes whole, changes only cells ahead of it and empties its start |
| Day15Wide.RobotStep | 15/src/ex2.rs:98-99 | the robot's two writes after the cell in front has moved keep the boxes whole and the frame |
| Day15Wide.BoxFacts | 15/src/ex2.rs:105-137 | a successful box push keeps the boxes whole, changes only the box and the cells beyond it, and empties the half it leaves |
| Day15Wide.PushRightFacts | 15/src/ex2.rs:113-121 | the same for a push right, which empties the left half's cell |
| Day15Wide.PushRightStep | 15/src/ex2.rs:115-117 | the writes of a push right after the cell in front has moved |
| Day15Wide.PushLeftFacts | 15/src/ex2.rs:122-136 | the same for a push left, which empties the right half's cell |
| Day15Wide.PushLeftStep | 15/src/ex2.rs:129-132 | the writes of a push left after the cell in front has moved |
| Day15Wide.LiftFacts | 15/src/ex2.rs:122-136 | the same for a vertical push, which empties both cells |
| Day15Wide.LiftRestFacts | 15/src/ex2.rs:122-136 | the second half of a vertical push, after the first moved |
| Day15Wide.LiftSecond | 15/src/ex2.rs:129-132 | the four writes of a vertical push after both pushes ahead of it moved |
| Day15Wide.WideNoPanic | 15/src/ex2.rs:81-152 | on a map walled all round and of whole boxes, an atomic push from a cell on the map never panics, and what moved is on the map |
| Day15Wide.BoxNoPanic | 15/src/ex2.rs:105-137 | the same for a box push |
| Day15Wide.LiftNoPanic | 15/src/ex2.rs:122-136 | the same for a vertical push |
| Day15Wide.LiftRestNoPanic | 15/src/ex2.rs:122-136 | the second half of a vertical push does not panic |
| Day15Wide.StillEnclosed | 15/src/ex2.rs:81-152 | after a successful atomic push the map is still walled all round and of whole boxes |
| Day15Wide.WalkWide | 15/src/ex2.rs:46-57 | a walk that does not fail leaves a map of the same shape, which passes the integrity check after any move |
| Day15Wide.RunRobotWide | 15/src/ex2.rs:42-60 | a walk that does not fail started from a robot `find` located on the upscaled map and keeps that map's shape |
| Day15Wide.WalkWideEnclosed | 15/src/ex2.rs:42-60 | on a walled-in map of whole boxes the walk never fails and keeps the walls |
| Day15Wide.RunRobotWideEnclosed | 15/src/ex2.rs:19-23 | a walled-in map with a robot, upscaled, gives a final map that passes the integrity check after every move |
| Day15Wide.WalkWideIntegrity | 15/src/ex2.rs:56 | a walk that succeeds ends on a map of whole boxes |
| Day15Wide.MoveObject | 15/src/ex2.rs:81-152 | the in-place recursive writes leave the board and return the outcome of the atomic `MoveWide` |
| Day15Wide.MoveBoxObject | 15/src/ex2.rs:105-137 | the same for the box arm |
| Day15Wide.LiftBoxObject | 15/src/ex2.rs:122-136 | the same for a vertical push, restoring the saved board when the second half is blocked |
| Day15Wide.SetBox | 15/src/ex2.rs:129-132 | the four writes take the box off its cells and put it on the new ones |
| Day15Wide.MoveRobot | 15/src/ex2.rs:42-60 | the loop leaves the board of the walk; `None` exactly when `find` panics, a move panics or an integrity check fails |
| Day15Wide.Solve | 15/src/ex2.rs:19-23 | the GPS sum over the `[` cells of the walked wide map, failing exactly when the walk does |
| Day15Wide.UpscaleExample | 15/src/ex2.rs:172-197 | the test map upscales to the expected wide map |
| Day15Wide.UpscaleRowExample | 15/src/ex2.rs:172-197 | a row of two tokens between walls upscales pair by pair |
| Day15Wide.PushBoxRightFirst | 15/src/ex2.rs:199-221 | the first `>` moves the robot into the empty cell |
| Day15Wide.PushBoxRightSecond | 15/src/ex2.rs:199-221 | the second `>` pushes the box |
| Day15Wide.PushBoxRightShift | 15/src/ex2.rs:115-117 | the shift writes of that push |
| Day15Wide.PushBoxRightExample | 15/src/ex2.rs:199-221 | `#@O.` with `>>` ends as `##..@[].` |
| Day15Wide.InterruptedSteps | 15/src/ex2.rs:422-464 | on the interrupted tree the upper box moves and then the lower box's right half is blocked, whichever push is used |
| Day15Wide.UpperBoxLifts | 15/src/ex2.rs:122-136 | the upper box of the interrupted tree has room and moves up |
| Day15Wide.InterruptedReplace | 15/src/ex2.rs:129-132 | the writes of that lift |
| Day15Wide.NonAtomicPush | 15/src/ex2.rs:122-136 | as written, pushing the interrupted tree up reports a block yet the upper box has moved |
| Day15Wide.AtomicPush | 15/src/ex2.rs:422-464 | with the atomic push that move is blocked and the map is unchanged, which the test expects |
| Day17Types.DecodeOpcode | 17/src/types.rs:60-77 | bytes 0 to 7 decode to adv, bxl, bst, jnz, bxc, out, bdv and cdv and to nothing else; a byte of 8 or more has no opcode |
| Day17Types.DecodeOpcodeCode | 17/src/types.rs:60-77 | decoding an opcode's `repr(u8)` value gives the opcode back |
| Day17Types.DecodeCombo | 17/src/types.rs:79-95 | bytes 0 to 7 decode to the eight combo operands, in order, and a larger byte to none |
| Day17Types.DecodeComboCode | 17/src/types.rs:79-95 | decoding a combo operand's value gives the operand back |
| Day17Types.ComboValue | 17/src/types.rs:97-109 | operands 0 to 3 are their own value, 4 to 6 read A, B and C, and only the reserved operand 7 has no value (the panic) |
| Day17Types.Shr | 17/src/ex1.rs:16 | the shifted value is never above the register |
| Day17Types.ShrDivides | 17/src/ex1.rs:16 | `a >> k` is A divided by 2^k, rounded down |
| Day17Types.XorWord | 17/src/ex1.rs:20 | the exclusive or of two `u64` values is a `u64` |
| Bits.XorTwice | 17/src/ex1.rs:20 | xor with the same value twice restores the register |
| Day17Types.ParseByte | 17/src/types.rs:53 | a piece parses exactly when it is a decimal number below 256 |
| Day17Types.ParseProgram | 17/src/types.rs:48-58 | on success there is one byte per comma-separated piece, each the piece's value; on failure some piece is not a `u8` |
| Day17Types.FormatProgram | 17/src/types.rs:35-47 | a non-empty program writes as exactly one piece per byte between ','s, each the byte in decimal, in order |
| Day17Types.ParseFormat | 17/src/types.rs:35-58 | a non-empty program written with commas parses back to itself |
| Day17Types.EmptyProgramDoesNotParse | 17/src/types.rs:35-58 | the empty program writes as the empty text, which does not parse |
| Day17.Combo | 17/src/ex1.rs:16-40 | a combo operand succeeds exactly below 7; a byte of 8 or more is an undecodable operand, and otherwise the value is that of `ComboOperand::value` |
| Day17.Divide | 17/src/ex1.rs:14-53 | adv, bdv and cdv succeed exactly when the combo operand has a value below 64; a larger one is the shift overflow; the quotient is at most A |
| Day17.Step | 17/src/ex1.rs:10-53 | a completed instruction keeps everything printed before and prints at most one more value |
| Day17.StepAdvances | 17/src/ex1.rs:13-53 | every instruction but jnz advances ip by 2 |
| Day17.StepJump | 17/src/ex1.rs:28-34 | jnz advances by 2 when A is 0 and otherwise sets ip to its operand, changing nothing else |
| Day17.StepDivisions | 17/src/ex1.rs:14-53 | adv, bdv and cdv store A divided by 2^combo, rounded down, into A, B and C respectively and keep the other two registers |
| Day17.StepOutput | 17/src/ex1.rs:39-43 | out appends exactly one value, below 8; every other instruction leaves the output unchanged |
| Day17.StepFaults | 17/src/ex1.rs:10-40 | an instruction fails for an undecodable opcode, for a missing operand, and otherwise only in the instructions that read a combo operand |
| Day17.Run | 17/src/ex1.rs:6-55 | the loop only appends to the output, at most one value per pass |
| Day17.RunHalts | 17/src/ex1.rs:9 | the loop halts exactly when ip is at or past the end of the program; a run that stops otherwise stops inside it |
| Day17.RunOutput | 17/src/ex1.rs:7-43 | a run only appends to the output, and every printed value is in 0..7 |
| Day17.RunMoreFuel | 17/src/ex1.rs:9-55 | a run that ended does not change with a larger step bound |
| Day17.Execute | 17/src/ex1.rs:3-55 | the fetch/execute loop over local registers, ip and output ends exactly as the step function's run does |
| Day17.Answer | 17/src/ex1.rs:9-61 | there is an answer exactly when the run halts, and with no passes allowed only for an empty program |
| Day17.Solve | 17/src/ex1.rs:3-62 | the answer is the printed values joined with ',' after a halted run, and there is one only when the run halts |
| Day17Example.ExampleRun | 17/src/ex1.rs:9-55 | the program adv 1, out 4, jnz 0 halts from any A with A zero, after three steps per halving, having printed the last three bits of every halved A |
| Day17Example.ProgramTextExample | 17/src/types.rs:48-58 | the text "0,1,5,4,3,0" parses to that program |
| Day17Example.SolveExample | 17/src/ex1.rs:90-95 | with A = 729 the example program prints "4,6,3,5,6,3,5,2,1,0", the answer the test expects |
| Day19Trie.Trie.constructor | 19/src/trie.rs:9-14 | a new trie is one root with no children and `is_end` false, and holds no pattern |
| Day19Trie.EmptyTrieMarksNothing | 19/src/trie.rs:9-14 | a lone root marks no path, not even the empty one |
| Day19Trie.Trie.Insert | 19/src/trie.rs:16-22 | after `insert(p)` the trie holds exactly its old patterns and `p`; the path spelling `p` exists and ends at a node with `is_end`; no `is_end` is cleared and no edge is lost; inserting a pattern already held leaves every node unchanged |
| Day19Trie.Trie.Child | 19/src/trie.rs:19 | `entry(ch).or_insert_with(TrieNode::new)` returns the child by `ch`; a missing child becomes a new node without children or flag, and an existing one leaves the trie unchanged |
| Day19Trie.WalkConcat | 19/src/trie.rs:18-20 | walking `a + b` walks `a` and then `b` from where `a` ends |
| Day19Trie.WalkExtends | 19/src/trie.rs:18-20 | adding nodes and edges never changes a walk that already exists |
| Day19Trie.WalkLabel | 19/src/trie.rs:16-22 | a walk ends at the node whose label it spells, so two different paths never reach the same node |
| Day19Trie.InsertFlag | 19/src/trie.rs:21 | setting `is_end` at the end of the walk of `p` adds `p` to the marked paths and nothing else |
| Day19Parser.ParseInput | 19/src/parser.rs:6-16 | an input without a blank line is an error; otherwise the towels are the trimmed ','-pieces of the first part and the designs the trimmed lines of the rest |
| Day19Parser.ParseFormat | 19/src/parser.rs:6-16 | towels joined by ',', a blank line and one design per line parse back to the same towels and designs |
| Day19Ex1.PossibleIffPieces | 19/src/ex1.rs:25-53 | a design is possible exactly when it is a concatenation of non-empty towels |
| Day19Ex1.IsDesignPossible | 19/src/ex1.rs:21-56 | `is_constructible` starts with `is_constructible[0]` true, holds at `j` exactly when `design[0..j]` is a concatenation of towels, and the result is its last entry |
| Day19Ex1.MarkEnds | 19/src/ex1.rs:33-52 | walking the trie from `i` sets exactly the entries `k > i` whose piece `design[i..k]` is a towel and clears none |
| Day19Ex1.DeadEnd | 19/src/ex1.rs:43-50 | once a character has no child, no longer piece from the same start is a towel, so the `break` loses nothing |
| Day19Ex1.PossibleCount | 19/src/ex1.rs:13-16 | the number of possible designs is never more than the number of designs |
| Day19Ex1.PossibleCountIndices | 19/src/ex1.rs:13-16 | the count is the number of positions that hold a possible design |
| Day19Ex1.BuildTrie | 19/src/ex1.rs:8-11 | the trie built from the towels holds exactly the towels |
| Day19Ex1.CountPossible | 19/src/ex1.rs:13-16 | the sum of `is_design_possible as u32` over the designs is the number of possible designs |
| Day19Ex1.Solve | 19/src/ex1.rs:5-19 | an input without a blank line is an error; otherwise the answer is the number of designs the towels make |
| Day19Ex2.WaysPositive | 19/src/ex2.rs:21-52 | a design has at least one way exactly when `is_design_possible` finds it possible |
| Day19Ex2.DecompositionsExact | 19/src/ex2.rs:26-49 | the decompositions counted are exactly the ways to split the design into non-empty towels, and `Ways` is their number |
| Day19Ex2.CountDesignCombinations | 19/src/ex2.rs:21-53 | `combinations[0]` is 1, `combinations[j]` is the number of ways to split `design[0..j]` into towels, and the result is its last entry |
| Day19Ex2.AddWays | 19/src/ex2.rs:33-49 | walking the trie from `i` adds `combinations[i]` to exactly the entries `k > i` whose piece `design[i..k]` is a towel |
| Day19Ex2.TotalCoversPossible | 19/src/ex2.rs:13-16 | the total number of ways is at least the part one count and is zero exactly when that count is |
| Day19Ex2.SumCombinations | 19/src/ex2.rs:13-16 | the total is the sum of the per-design counts |
| Day19Ex2.Solve | 19/src/ex2.rs:5-19 | an input without a blank line is an error; otherwise the answer is the number of ways summed over the designs |
| Day22.DivT | 22/src/main.rs:13 | `/` on an `i64` rounds toward zero: the quotient times the divisor lies between zero and the dividend, within one divisor of it |
| Day22.RemT | 22/src/main.rs:6 | `%` on an `i64` is the remainder that goes with the truncating quotient, smaller than the divisor and with the sign of the dividend |
| Day22.IntXor | 22/src/main.rs:12-14 | `^` on two's-complement integers is negative exactly when one operand is |
| Day22.IntXorTwice | 22/src/main.rs:12-14 | mixing the same value in twice gives back the secret |
| Day22.IntXorRange | 22/src/main.rs:12-14 | the exclusive or of two values of n+1 bits fits in n+1 bits, so `^` never overflows |
| Day22.MixAndPrune | 22/src/main.rs:5-7 | a non-negative secret lands in [0, 16777216), a negative one in (-16777216, 0], always congruent to the secret |
| Day22.NextSecret | 22/src/main.rs:9-17 | the three mix-and-prune stages (times 64, divided by 32, times 2048, in that order) give a secret below 16777216 in magnitude, non-negative for a non-negative secret |
| Day22.NextSecretNoOverflow | 22/src/main.rs:12-14 | for a secret whose product with 64 fits an `i64`, every intermediate value of the step fits an `i64` |
| Day22.NthSecret | 22/src/main.rs:19-25 | n steps of the secret; after at least one step it is below 16777216 in magnitude, and it is non-negative when the initial secret is |
| Day22.NthSecretAdd | 22/src/main.rs:19-25 | m steps followed by n steps are m + n steps; zero steps leave the secret |
| Day22.GenerateNthSecret | 22/src/main.rs:19-25 | the loop returns the secret after n steps |
| Day22.Solve1 | 22/src/main.rs:27-32 | the sum of the 2000th secrets is bounded by the number of buyers times 16777215, and non-negative for non-negative secrets |
| Day22.Solve1Append | 22/src/main.rs:27-32 | the sum over two lists of buyers is the sum of the two sums |
| Day22.Price | 22/src/main.rs:37 | a price is the secret's last decimal digit with its sign, between -9 and 9 |
| Day22.Prices | 22/src/main.rs:34-44 | the price list has count + 1 entries and entry k is the price of the secret after k steps |
| Day22.GeneratePriceSequence | 22/src/main.rs:34-44 | the loop returns exactly that price list |
| Day22.PricesSmallSteps | 22/src/main.rs:46-48 | neighbouring prices differ by less than an `i8` can hold, so the change computation never overflows |
| Day22.CalculateChanges | 22/src/main.rs:46-48 | there is one change fewer than prices (none for no prices), and change i is the price i + 1 minus price i |
| Day22.ChangesTelescope | 22/src/main.rs:46-48 | the first price plus the first k changes is the k-th price, so the changes and the first price give back the prices |
| Day22.ExampleChanges | 22/src/main.rs:150-152 | the prices 3,0,6,5,4,4,6,4,4,2 change by -3,6,-1,-1,0,2,-2,0,-2 |
| Day22.FirstMatch | 22/src/main.rs:51-54 | the found window equals the run and no earlier window does; no result means no window does |
| Day22.FindSequenceValue | 22/src/main.rs:50-56 | nothing exactly when no window of the changes equals the run; otherwise the price just after the first window that does |
| Day22.SellPrice | 22/src/main.rs:55 | on a price list's own changes, a matching window ends inside the list, at the price its changes add up to |
| Day22.FindOnOwnChanges | 22/src/main.rs:55 | on a price list's own changes, the index `prices[i + len]` is always in range |
| Day22.SellValue | 22/src/main.rs:61-64 | one buyer pays at most 9 bananas, and nothing negative for a non-negative secret |
| Day22.EvaluateSequence | 22/src/main.rs:58-67 | the bananas of all buyers are bounded by 9 per buyer, and non-negative for non-negative secrets |
| Day22.EvaluateAppend | 22/src/main.rs:58-67 | what two groups of buyers pay together is what each pays |
| Day22.BoundedStep | 22/src/main.rs:79-85 | trying one more run and keeping the larger sum bounds every run tried so far |
| Day22.RecordStep | 22/src/main.rs:82-85 | the kept sum is zero with the initial run or what the kept run earns |
| Day22.SearchD | 22/src/main.rs:78-89 | the loop over the last change bounds every run with the first three changes so far |
| Day22.SearchC | 22/src/main.rs:77-90 | the loops over the last two changes bound every run with the first two changes so far |
| Day22.Solve2 | 22/src/main.rs:69-95 | no run of four changes between -9 and 9 earns more than the answer, which is at least 0, and a positive answer is what the returned run earns |
| Day23.FromLeBytes | 23/src/parse_input.rs:9 | the first byte is the low byte of the `u16` and the second the high byte |
| Day23.ToLeBytes | 23/src/parse_input.rs:19 | `to_le_bytes` gives two bytes that pack back into the value |
| Day23.ToLeBytesFrom | 23/src/parse_input.rs:9-19 | unpacking the packed bytes gives them back in order |
| Day23.New | 23/src/parse_input.rs:7-10 | the computer's two bytes are the name's first two bytes; a name shorter than two bytes is excluded, because the index panics |
| Day23.NewSame | 23/src/parse_input.rs:7-10 | two names give the same computer exactly when their first two bytes agree |
| Day23.OrderOfNew | 23/src/parse_input.rs:3-4 | the derived order compares the second letter first and then the first |
| Day23.CanBeChiefHistorian | 23/src/parse_input.rs:12-14 | the low byte of the computer is 't' |
| Day23.ChiefIffStartsWithT | 23/src/parse_input.rs:12-14 | a computer can be the Chief Historian's exactly when its name starts with 't' |
| Day23.FromUtf8 | 23/src/parse_input.rs:19 | two bytes decode when both are ASCII (to those two characters) or form one two-byte character; otherwise decoding fails |
| Day23.Display | 23/src/parse_input.rs:17-21 | the text is the decoding of the computer's two bytes, and the `unwrap` panics exactly when they do not decode |
| Day23.AsBytes | 23/src/parse_input.rs:8 | an ASCII name's bytes are its characters' codes |
| Day23.DisplayNew | 23/src/parse_input.rs:7-21 | displaying the computer of a two-letter ASCII name gives the name back |
| Day23.ExampleNames | 23/src/parse_input.rs:40-44 | "tk" and "tj" display as themselves, and "tj" can be the Chief Historian's |
| Day24.Fire | 24/src/ex1.rs:11-22 | a gate fires exactly when both input wires carry a value; its output wire then gets the AND, OR or XOR of them, and no other wire changes |
| Day24.Run | 24/src/ex1.rs:10-28 | a finished run keeps every wire it started with and has set the output of every gate that was in the queue |
| Day24.Simulate | 24/src/ex1.rs:8-28 | the queue loop ends in exactly the state of the queue run for the same number of pops |
| Day24.RunMoreFuel | 24/src/ex1.rs:10 | a run that finishes within some number of pops finishes the same with more |
| Day24.Rotate | 24/src/ex1.rs:27 | putting the front gate at the back keeps the same gates in the queue |
| Day24.GoodFire | 24/src/ex1.rs:16-23 | on a circuit whose gates drive distinct unset wires, firing the front gate keeps every fired gate's equation and every earlier wire value |
| Day24.GoodRotate | 24/src/ex1.rs:27 | re-queuing a gate keeps those facts |
| Day24.RunConsistent | 24/src/ex1.rs:10-28 | a finished run makes every fired and queued gate's equation hold, keeps the values it started with, and sets only gate outputs |
| Day24.CircuitHolds | 24/src/ex1.rs:6-28 | when the loop finishes on a circuit whose gates drive distinct wires that start unset, every gate's output is its function of its inputs, and the initial wires keep their values |
| Day24.RunBlocked | 24/src/ex1.rs:10-28 | when every queued gate waits on a wire that is unset and that no queued gate drives, the loop never ends |
| Day24.ExampleBlocked | 24/src/ex1.rs:27 | a gate reading a wire nothing sets is re-queued forever |
| Day24.ExampleRequeue | 24/src/ex1.rs:10-28 | a gate whose input is not yet set goes to the back and fires after the gate that sets it |
| Day24.ZPosition | 24/src/ex1.rs:34-35 | the position of a z wire is its two decimal digits, and a position that would overflow the `u8` arithmetic or the shift panics |
| Day24.SetBitBits | 24/src/ex1.rs:35 | or-ing `1 << p` into the accumulator sets bit p and leaves every other bit |
| Day24.SameBits | 24/src/ex1.rs:32-39 | two numbers with the same bits are equal |
| Day24.AssembleZ | 24/src/ex1.rs:30-41 | bit k of the result is set exactly when a true z wire has position k; other wires are ignored; a bad z position panics |
| Day24.AssembleAnyOrder | 24/src/ex1.rs:32 | the order in which the map is iterated does not change the result |
| Day24.Solve | 24/src/ex1.rs:5-42 | after the run, the answer's bits are the true z wires by position; a run that never ends gives no answer |
| Day25.ColumnCount | 25/src/index.ts:11-14 | a column's count is never more than the number of lines |
| Day25.PinHeights | 25/src/index.ts:7-24 | a schematic with a character other than '#' or '.' is an error; otherwise it is a key exactly when its first line is "#####", with five column counts |
| Day25.HeightsBounded | 25/src/index.ts:11-19 | every column count is at most the number of lines of the schematic |
| Day25.LinesStep | 25/src/index.ts:11-19 | one more line adds its '#' characters to the column counts, and its stray or overwide characters to the flags |
| Day25.CountRow | 25/src/index.ts:12-18 | the inner loop fails exactly on a stray character; otherwise it adds one to each of the first five columns holding '#' and records a '#' further right |
| Day25.ConvertSchematic | 25/src/index.ts:7-24 | the nested loops compute exactly `PinHeights`: column i counts the '#' characters in column i of every line |
| Day25.ColumnsFit | 25/src/index.ts:45 | the remaining column pairs each add up to at most 7 |
| Day25.CanFit | 25/src/index.ts:44-46 | a lock fits a key exactly when no lock column overflows to the right and every column pair adds up to at most 7 |
| Day25.CanFitSymmetric | 25/src/index.ts:44-46 | for two schematics with the same number of columns, neither of them wide (a wide lock fits no key), a lock fits a key exactly when the key fits the lock |
| Day25.ExampleFits | 25/src/index.ts:44-46 | a lock and a key overlapping in one column do not fit, ones that sum to at most 7 everywhere do, and a lock with a '#' past the fifth column fits nothing |
| Day25.KeysFitting | 25/src/index.ts:54-58 | at most all the keys fit one lock |
| Day25.FitCount | 25/src/index.ts:53-59 | the number of fitting pairs is at most the number of locks times the number of keys |
| Day25.AllFit | 25/src/index.ts:53-59 | when every pair fits, the count is the number of pairs |
| Day25.NoneFit | 25/src/index.ts:53-59 | when no pair fits, the count is zero |
| Day25.AllKeysFit | 25/src/index.ts:54-58 | when every key fits a lock, they all count |
| Day25.NoKeysFit | 25/src/index.ts:54-58 | when no key fits a lock, none counts |
| Day25.CountFits | 25/src/index.ts:51-61 | the nested counting loops give exactly the number of fitting pairs |
| Day25.SplitBlocks | 25/src/index.ts:32 | splitting at blank lines gives at least one block |
| Day25.JoinSplitBlocks | 25/src/index.ts:32 | the blocks joined with a blank line give the input back |
| Day25.Classify | 25/src/index.ts:32-39 | the input is an error exactly when one of its blocks is; otherwise every block lands in exactly one of the locks and keys, each with five columns |
| Day25.ClassifyStep | 25/src/index.ts:33-38 | a valid schematic is pushed to the keys when it is a key and to the locks otherwise |
| Day25.ClassifyError | 25/src/index.ts:33 | one invalid schematic makes the whole input invalid |
| Day25.ClassifyAll | 25/src/index.ts:32-41 | the loop over the blocks computes exactly `Classify` |
| Day25.ParseInput | 25/src/index.ts:26-42 | trimming, splitting at blank lines and sorting the schematics gives `Classify` of the trimmed input's blocks |
| Day25.Solve | 25/src/index.ts:48-62 | the answer is the number of fitting lock and key pairs, at most their product; an invalid schematic is an error |

## Left out

- Reading `input.txt`, printing, argument handling and the `main` functions are not modelled.
- `Text.Lines` splits on '\n' only; a '\r' before it stays in the line. Every model that reads lines splits them on whitespace or trims them, so the difference does not reach a result, except Day12 part one, which keeps its lines untrimmed (see its line below).
- `Text.IsWhitespace` knows only space, tab, newline and carriage return, not the other Unicode whitespace that Rust's `trim` and `split_whitespace` accept.
- Day01.Distances: a token that is not a `u32` is an error outcome where the source panics in `unwrap`; the `u32` sum is unbounded, so its overflow (a panic in debug builds) is not modelled.
- Day01.SimilarityScore: the `u32` products and sum are unbounded, so their overflow is not modelled.
- Day02.Safe: the `i32` subtraction of two levels is exact, so its overflow is not modelled. The read of `report[1]` is a precondition (the callers' reports need two levels).
- Day02.BruteSafe: a report of one or two levels makes the brute force panic on a derived report; it is excluded by a precondition.
- Grid.Valid: every row must be exactly `width` long. `Grid::new` also accepts rows longer than the first, whose extra cells `get` and `cells` never read; the model leaves such grids out, so Day08 and Day12 part two take rectangular maps only.
- Day04.SolveEx1: a ragged grid (a row shorter than the first) makes `cells` panic on an index; every day 4 member takes a well-formed grid as a precondition.
- Day04: the 10x10 sample grid (18 words) is not restated; the four smaller test grids are.
- Day05.PageNumber: JavaScript's `Number` also reads an empty token as 0, and hexadecimal, exponent and fractional forms, and turns anything else into NaN without failing; here only decimal integers below 2^53 are pages and anything else makes the parse fail.
- Day05.ParseRule: a rule line without a '|' pushes `undefined` as a successor in the source; here it is a parse failure.
- Day05: `solve2` sorts with a comparator that is not a consistent order (it never returns 0), so its result depends on the engine's sort algorithm; it is not modelled. The repository's `example.txt` (expected 143) is not part of this model, so a small constructed example stands in.
- Day07: the sample file (3749) is not part of this model. The four equations of the unit test `test_simple_cases` are derived as search results (`Unsolvable30`, `Solvable190`, `Solvable20`, `Solvable60`), not through `solve` on the text.
- Day07.IsSolvable: the model searches all 2^(n-1) masks; the `i32` bound of the source is modelled separately by `Day07.SolvableAsWritten` (see Findings).
- Day08: `isize` overflow in point arithmetic and in `abs` of the most negative value is not modelled; coordinates are unbounded integers.
- Day08: `display_with_antinodes` (coloured terminal output) is not modelled; the sample file (14 and 34 antinodes) is not part of this model.
- Day08.FrequencyLinePoints: requires its positions to be inside the grid, which holds for every caller because they come from `find_antennas`.
- Day09: the unit test `compress_trivial` expects four items, but `compress` overwrites slots in place and never shortens the vector, so it returns five (the last is `FreeSpace(3)`); the model follows the code.
- Day09: the checksum weights a file item by its item index, not by block position, and a free item only partly filled loses its remainder; the model follows the code (the source's own sample-checksum test, 1928, is commented out).
- Day09: the sample file and its expansion are not part of this model; `usize` overflow of the checksum sum is not modelled.
- Day11 `count_digits`: the source takes `log10` of an `f64`; the model counts digits exactly. Above 2^53 the float form can be off by one: 10^18 − 1 rounds to 10^18 as an `f64`, which gives 19 digits. Floating point is not modelled.
- Day11: stones are unbounded naturals. The `u64` overflow of `stone * 2024` is not modelled; it panics in a debug build.
- Day11: the `#[memoize]` cache is not modelled (`transform` is pure, so the cache cannot change a result), and neither is the progress `println!`. `ex2_good::solve` returns 0 and is not modelled. The sample file (55312 after 25 blinks) is not part of this model, and a two-stone row stands in for it.
- Day12 part one: the map must be rectangular, because the source indexes every row with the width of the first and panics on a ragged map. Rust's `lines()` also strips a `\r` before `\n`, which the model does not. Bytes are modelled as characters. The `AAA/BBC/BBC` test (12/src/ex1.rs:90-114) is not derived, because the flood fill is specified by the partition it returns; a one-plot map is derived instead.
- Day12 part two: `Solve` requires every trimmed row to be as wide as the first. The source reads only the first row's width of each row, so a longer row loses its extra plots there and a shorter one panics; the model covers neither.
- Day12 part two: the source's test maps (32 for the snake, 8 for "C.\n.C", 436 for the checkerboard) are not derived; the answers of the other tests come from `inputs.md`, which is not part of this model. The `println!` of the regions is not modelled.
- Day12 part two: `isize` labels and `usize` areas and sums are unbounded integers; overflow is not modelled. The label matrix is a two-dimensional array where the source has a vector of row vectors.
- Day13: the rounds are taken already parsed. Parsing uses `parse_display` derive macros, which are not part of this model, and `Game::from_str` silently drops a round that fails to parse. The full example (480) reads `inputs.md`, which is not part of this model.
- Day13: `A_PRESS_COST` and `B_PRESS_COST` are not defined in the files of this model. They are 3 and 1, the costs the puzzle states; the 280-token example agrees with them (80 A presses and 40 B presses). `parse_input.rs` declares the offsets as `u32`, which does not fit the `i64` arithmetic of `solve_round`; the model uses unbounded signed integers, so neither the `u32` underflow of the determinant nor `i64` overflow is modelled.
- Day13.SolveRound: follows the code, so buttons that move in the same direction give no answer even when the prize lies on their line (A = (1, 1), B = (2, 2), prize (2, 2) is won by two A presses or one B press).
- Day14: positions and velocities are unbounded integers. JavaScript's `Number` reads a digit run above 2^53 inexactly, which is not modelled. `_stringifyBoard` (terminal output) and `main` are not modelled; the example (width 11, height 7) reads `example.txt`, which is not part of this model.
- Day14.Solve: the board size is a parameter. It must be positive, because `%` by zero gives NaN in the source.
- Day14Game: `parse_input` is not modelled; the game starts from parsed robots. It splits a line on 'p', 'v' and '=' and panics on a malformed one. Robots, their step and part one's quadrant counts are shared with `Day14`; the step has the same formula in both sources.
- Day14Game: `calculate_entropy` and `current_entropy` use floating point. The constructor takes the entropy as a function from a board to an integer key and the threshold `2.7` as a parameter. The source's entropy is the binary entropy of the occupied fraction, which is at most 1 bit, so its threshold admits every board.
- Day14Game.Game.constructor: requires the robots to start on the board, no faster than one board length backwards. That is enough, though not necessary, to keep `process_time` from panicking. The progress output and the screen clearing are not modelled.
- Day14Game: the `u32` cell counts and quadrant sums and the `i32` positions are unbounded; overflow is not modelled. The board is a value where the source has a vector of row vectors, and the selection `Cell` is a field that the selection methods modify.
- Day14Game.BinarySearchByEntropy: returns at the first probe with an equal key. Rust releases differ in which index among equal keys they return, so its contract states only what every release guarantees. `partial_cmp(...).unwrap()` cannot fail on an integer key.
- Day14Game: `ui.rs`, `main.rs` and the HTTP server are not modelled.
- Day15: `parse_input` (15/src/parse_input.rs) is not modelled; both parts start from the parsed map and moves. The samples of `inputs.md` (2028, 10092, 9021 and the rest) are not part of this model.
- Day15: `usize` coordinates are naturals. The underflow of `cell_in_direction` at row 0 or column 0 is the panic of a debug build and is modelled as one (`Panic`); a release build would wrap and then index off the map, which panics as well.
- Day15.Move: the push is specified by the recursive function; the in-place method `MoveObject` is proved to produce exactly its outcome. `move_robot` mutates a clone of the map, which the method models by a fresh board.
- Day15Wide: the `println!` of every move and map in a debug build and the `eprintln!` of `check_box_integrity` are not modelled. The `debug_assert!` after every move is modelled as a failure of the walk, as in a debug build; a release build does not check.
- Day15Wide.MoveRobot: takes the upscaled rows, as `move_robot` takes the upscaled map; `Solve` upscales first.
- Day15Wide.MoveWide: the `BoxRight` arm hands its box to the `BoxLeft` arm (`MoveBox`) directly instead of through a recursive call on the left cell; the left cell is a `[`, so the recursive call would go to the same arm.
- Day15Wide: the board-level tests other than the upscaling test, the two-move push right and the interrupted tree (into a wall, push left, up and down, the full tree and the cross) are not derived as examples; what they check is covered by `WideWalls`, `WideFacts` and `WideStuck`.
- Day15Wide: the walk, the methods and `Solve` use the atomic push (see Findings). The push as written is `MoveWide` with `atomic` false, for which walls and shape are proved, but not box integrity or the unchanged map after a block.
- Day17: `parse_input` and the `Registers` and `Program` formats are `parse_display` derive macros with `expect`, and are not modelled beyond the comma-separated program; the machine starts from parsed registers and bytes. `main.rs` is not modelled, and `ex2.rs` is unfinished (it returns an empty answer) and is not modelled either.
- Day17: `Opcode::from` and `ComboOperand::from` transmute the byte, which has no defined behaviour for a byte without a variant; the model makes that a fault (`BadOpcode`, `BadCombo`), as it does the panics of a missing operand and of the reserved operand.
- Day17: a shift by 64 or more panics in a debug build and is masked to its low six bits in a release build; the model takes the debug build's panic (`ShiftOverflow`).
- Day17.Execute: the source loop has no bound and need not end; the model stops after `fuel` passes (`OutOfFuel`), and `RunMoreFuel` shows the bound does not change a run that ends within it.
- Day17Example: the test reads its machine from `inputs.md`, which is not part of this model; the example machine here (A = 729, B = C = 0, program 0,1,5,4,3,0) is the puzzle's example, whose output the test expects.
- Day19Trie: the `HashMap` of child nodes is modelled as an arena of nodes addressed by index. Ownership makes the Rust trie a tree; for the arena, the ghost labels prove the same, because two paths never reach one node.
- Day19: `design.0.len()` counts bytes while `chars().nth(j)` counts characters. The model has one character per position, as in an ASCII design; for a design with wider characters the source's `expect` would panic.
- Day19: the `u32` count of part one and the `u64` combinations of part two are unbounded in the model; an overflow (a panic in a debug build) is not modelled.
- Day19: `main.rs` and the samples of `inputs.md` are not part of this model, and no sample answer is derived.
- Day22: `read_numbers` and `main` are file input and output; `solve2`'s `println!` of every run and sum is not modelled. `Solve2` also returns the best run, which the source only prints.
- Day22: the sample answers of the tests (8685429 and the rest after 2000 steps, 37327623, 23 bananas for -2,1,-1,3, and the ten prices of seed 123) are not derived, because they need the exclusive or of concrete numbers evaluated thousands of times; only the changes of the seed 123 prices are (`ExampleChanges`).
- Day22.NextSecret: requires the secret to satisfy `Fits` (below 2^57 in magnitude), because `secret * 64` overflows an `i64` beyond it, a panic in a debug build. Every later secret is below 2^24 in magnitude.
- Day22.Solve1: the `i64` sums of part one and of `evaluate_sequence` are unbounded; they could overflow only with more than 2^39 buyers, which is not modelled.
- Day22.CalculateChanges: requires neighbouring prices to differ by less than an `i8` can hold, because `w[1] - w[0]` panics on an overflow in a debug build; price lists always satisfy this (`PricesSmallSteps`).
- Day22.FindSequenceValue: requires a non-empty run, because `windows(0)` panics, and requires the price after the first matching window to exist, because `prices[i + len]` panics otherwise.
- Day23: `Computer::new` takes the UTF-8 bytes of a `&str`; the model takes the bytes, and text only through `AsBytes` for ASCII names. `FromStr` is `new` wrapped in `Ok`, and `Connection`'s `parse_display` format "{0}-{1}" is a derive macro; neither is modelled separately. `ex1.rs` and `ex2.rs` are not part of this model.
- Day23.FromUtf8: three- and four-byte characters cannot occur in two bytes, so the two-byte character is the only case beyond ASCII; the model gives it the code point `from_utf8` decodes.
- Day23.New: a name shorter than two bytes makes the source panic on the index; it is excluded by a precondition.
- Day24: `parse_input` (24/src/parse_input.rs) is not part of this model: `Solve` starts from the parsed wires and gates. `ex2.rs` and `main.rs` are not modelled either.
- Day24.Simulate: the source's queue loop has no bound and runs forever when a gate can never fire (`RunBlocked`); the model pops at most `fuel` gates and answers `None` after that, and `RunMoreFuel` shows that the bound does not change a run that ends within it. Termination of an acyclic circuit within a given number of pops is not proved.
- Day24.AssembleZ: the map's iteration order is unspecified, so the method takes the keys in an arbitrary order; the result is a natural number whose bits are all below 64, and the proof that it fits a `u64` is not carried out.
- Day25: JavaScript's `trim` also removes the other Unicode whitespace characters and the byte-order mark, which `Text.Trim` keeps; characters are UTF-16 code units in the source and Dafny characters here. Reading `input.txt` and printing the answer are not modelled.
- Day25.PinHeights: a '#' past the fifth column makes `heights[i]++` grow the array with `NaN`; the model keeps the five counts and records that case in `Heights.wide`, which makes the lock fit no key, as a `NaN` comparison does. A key's extra columns are never read.
- Day25: the source calls a schematic whose first line is "#####" a key, the reverse of the puzzle's naming; the model follows the code. Since every count includes the full top or bottom row, the limit of 7 still means the pins do not overlap.
- Day03 (3/src/main.rs) is regular-expression matching, and is not part of this model.
- The files that hand the search to the `pathfinding` library are not part of this model: 16/src/ex1.rs, 18/src/ex1.rs, 18/src/ex2.rs, 20/src/ex1.rs, 20/src/ex2.rs and 20/src/test_utils.rs.
- Files that repeat a modelled file are not modelled separately: 15/src/ex_2.rs is an older copy of 15/src/ex2.rs; 2/src/ex_1.rs, 2/src/ex_2_brute.rs and 2/src/lib.rs against 2/src/main.rs; 10/src/grid.rs and 12/src/grid.rs against 8/src/grid.rs. The point arithmetic of lib/src/point2.rs, 8/src/point.rs and 15/src/point2.rs is unbounded integer pairs.
- Day06 (6/index.ts, the guard walk and its cycle detection), Day10 (10/src/main.rs, the trail search), Day16 part two (16/src/ex2.rs, Dijkstra), Day20 `is_cheat`, Day21 (21/src/floydWarshall.ts, 21/src/index.ts, 21/src/createKeypadGraph.ts), Day23 `ex1.rs` and `ex2.rs`, and Day24 `ex2.rs` and `parse_input.rs` are not part of this model, to keep it to its size.
- 17/src/ex2.rs is unfinished and 13/src/ex2.rs does not match the types of 13/src/parse_input.rs; neither is modelled. The terminal UI 14/part-2/src/ui.rs, the server 14/part-2-server.ts, 12/src/input_reader.rs (a reader of markdown test inputs) and 21/src/readInput.ts are input and output and are not modelled.

## Findings

| source | as written | input that shows it | evidently intended | confidence | as-written member | corrected member |
|---|---|---|---|---|---|---|
| 2/src/main.rs:95-118 | for removal index 0 the walk starts with `prev = report[1]` and `j = 1`, so the first step is 0 and removing the first level is never accepted | "3 1 2 4 5" (its own test `ex_2_problem_at_the_start` expects 1) | a report that removing its first level makes safe is safe | high (not executed) | Day02.InlineMissesFirstRemoval | Day02.IsSafe |
| 7/src/main.rs:37-39 | the literals in `0..(1 << n)` default to `i32`, so with 32 numbers the bound `1 << 31` is negative and the range is empty, and with more a debug build panics on the shift (`Day07.SolvableAsWritten`) | "32: 1 1 ... 1" with thirty-two ones, which all `+` solves | every one of the 2^(n-1) operator choices is tried | medium (relies on the integer-literal default; not executed) | Day07.ThirtyTwoOnes | Day07.SolvableIff |
| 15/src/ex2.rs:122-136 | a vertical push of a `[` first pushes what is in front of the `[` and only then what is in front of the `]`; when the first succeeds and the second is blocked the move returns `None`, but the cells the first push moved stay moved | the interrupted tree of the test at 15/src/ex2.rs:422-464: pushing up moves the upper box into the free row although the lower box is blocked by a wall (`Day15Wide.NonAtomicPush`) | a blocked push leaves the map unchanged, as the test expects | high (not executed) | Day15Wide.NonAtomicPush | Day15Wide.WideStuck |

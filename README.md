# Knight's tour search, modelled in Dafny

This project models the search engine of a knight's-tour visualiser
(`src/knightTour.ts`), the types it works on (`src/types.ts`) and the
first version of the search (`src/discovery/main.js`).

The engine mirrors the source's structure:

- **Board and moves.** The board is a `width x height` grid. Each square holds either "not visited" or the 0-based index of its visit. There is a table of the eight knight moves, tagged 1..8.
- **Recursive backtracking search.** `calculateNextMove` extends a path square by square under a per-attempt iteration budget. It marks each square before it searches on, and clears the mark when that search fails.
- **Three move orders.**
  - `BRUTEFORCE`: table order.
  - `MOVE_ORDERING`: the digits of a configured number.
  - `WARNSDORF`: the candidates sorted by degree (the number of onward moves). Candidates that share the smallest degree are reordered by a tie-break: `FIRST`, `MOVE_ORDERING`, `RANDOM`, `POHL`, `CLOSEST_TO_CENTER` or `FURTHEST_FROM_CENTER`.
- **Closed tours.** A closed tour must come back to its first square on one more move.
- **The driver.** `solveKnightTour` rejects two parity cases outright, then runs up to `attemptLimit` searches from the start square.

What is proved:

- **Board numbering.** Every search keeps the board numbering its path exactly: square `path[i]` holds `i` and every other square holds "unvisited".
- **What a result means.**
  - A search that succeeds returns a knight's tour: every square once, plus the return step for a closed tour. The tour extends the path it was given, and the board records it.
  - A search that fails leaves the board exactly as it found it.
  - A search that fails without spending its budget is exhaustive: no tour the search could take extends the path. Under `MOVE_ORDERING` those are the tours whose moves all carry a tag among the ordering's digits.
  - Each move order is tried as stated: a success goes through the first choice whose earlier choices all led to no tour.
  - The iteration budget bounds every attempt. A successful attempt spent at least one call per square. So a tour can only be found when `iterationLimit + 1` is at least the number of squares.
- **Each move order and tie-break** is stated as an ordering of the candidates:
  - `FIRST` is the stable sort by degree: ascending degree, and table order among equal degrees.
  - `MOVE_ORDERING` orders the ties by their tag's position in the custom ordering. A tag missing from the ordering gets position -1 and comes first.
  - The random tie-breaks admit any rearrangement of the ties. When no two keys are equal, that rearrangement is sorted by the key.
  - For `POHL`, the model does what the source does. The probe leaves every tie with degree 0. Because the probe updates the candidate objects the sorted list shares, the ties appear a second time unless the smallest degree was 0.
- **The two early rejections are sound** (a colouring argument):
  - no tour of an odd board starts on a square with odd `x + y`;
  - no closed tour exists on an odd board.
- **The prototype:**
  - it counts the same degree as the engine;
  - its labels are one-to-one on boards of up to 10 x 10;
  - its unbudgeted search is exhaustive. It fails only when no open tour starts with the given path.

## Model

| member | source | states |
|---|---|---|
| Types.CellAt | src/knightTour.ts:100 | `board[x]?.[y]` is `undefined` exactly off the grid and `null` exactly on an unvisited square |
| Types.Chessboard.constructor | src/types.ts:21-25 | a new board has the given width and height, and every square is unvisited |
| Grid.IsValidSquare | src/knightTour.ts:95-105 | the validity test as written (upper bounds compared with `>`) accepts a square exactly when it is on the board and unvisited |
| Grid.NumberedDistinct | src/knightTour.ts:380 | a board numbering a path implies the path's squares are distinct and on the board |
| Grid.SquaresSize | src/knightTour.ts:131 | a `width x height` board has `width * height` squares |
| Grid.VisitedSize | src/knightTour.ts:131 | a path of distinct squares visits as many squares as it is long |
| Grid.PathFits | src/knightTour.ts:131 | a path of distinct squares on the board is no longer than the board's area, so the search's depth is bounded |
| Grid.FullPathCovers | src/knightTour.ts:131 | a path of distinct squares as long as the area visits every square |
| Sorting.SortByPermutes | src/knightTour.ts:226 | sorting only rearranges: same multiset and length |
| Sorting.SortBySorted | src/knightTour.ts:226 | the sorted list is in ascending key order |
| Sorting.SortByLex | src/knightTour.ts:226 | the sort is stable: equal keys keep their input order |
| Sorting.SortByIdentity | src/knightTour.ts:237 | sorting a list already in key order leaves it as it is |
| Sorting.SplitAtMinimum | src/knightTour.ts:227-228 | in a sorted list the elements with the smallest key form the front, followed by all the others |
| Sorting.SplitSorted | src/knightTour.ts:227-228 | the same, given only that the first key is at least the smallest |
| Sorting.WhereAppend | src/knightTour.ts:249 | filtering a concatenation filters each part |
| Sorting.WhereNotAppend | src/knightTour.ts:249 | the negative filter of a concatenation filters each part |
| Sorting.WhereKeys | src/knightTour.ts:228 | every element the filter keeps has the given key, and every element the negative filter keeps lacks it |
| Sorting.WhereComplete | src/knightTour.ts:228-249 | every element with the key is kept by the filter and every element without it by the negative filter; with the row above, the two filters keep exactly those |
| Sorting.SortBy | src/knightTour.ts:226 | `Array.prototype.sort` with a key comparator, as a stable insertion sort: the result is as long as the input (the lemmas above state the rest) |
| Sorting.Insert | src/knightTour.ts:226 | one insertion step of that sort, placing the element after every element of no larger key: the result is one longer |
| Sorting.Where | src/knightTour.ts:228 | `filter(c => key(c) === k)`: the result is no longer than the input (Sorting.WhereKeys and Sorting.WhereComplete state which elements it keeps) |
| Sorting.WhereNot | src/knightTour.ts:249 | `filter(c => key(c) !== k)`: the result is no longer than the input |
| Decimal.DigitsValue | src/knightTour.ts:84 | the digit list of `n` denotes `n` |
| Decimal.DecimalString | src/knightTour.ts:84 | `n.toString()`: a non-empty string of decimal digit characters |
| Decimal.ParseDigits | src/knightTour.ts:84 | `split('').map(Number)`: one number per character |
| Decimal.ParseDecimalString | src/knightTour.ts:84 | splitting `n.toString()` into characters and reading each as a number gives `n`'s digits |
| Decimal.DigitList | src/knightTour.ts:84 | the configured ordering number becomes its decimal digits, most significant first |
| KnightTour.KnightMoveTable | src/knightTour.ts:45-54 | the table has eight entries tagged 1..8 in order, every entry is a knight's jump and every knight's jump is in the table |
| KnightTour.DegreeIsFreeCount | src/knightTour.ts:107-121 | the degree counted over the table equals the sum of its eight per-move terms |
| KnightTour.FindMove | src/knightTour.ts:183 | `find` returns a table move with the requested tag, or nothing when no move has it |
| KnightTour.FindTableMove | src/knightTour.ts:183-186 | a digit names a move exactly when it is 1..8; 0 and 9 are skipped |
| KnightTour.IndexOf | src/knightTour.ts:239-240 | `indexOf` returns the first index holding the value, or -1 when it is absent |
| KnightTour.TableIndex | src/knightTour.ts:243 | in `[1, ..., 8]` tag `t` sits at index `t - 1` |
| KnightTour.Candidates | src/knightTour.ts:209-222 | the candidate list of the loop over the move table: each move onto a free square, in table order, with the degree of the square it reaches |
| KnightTour.TagNamesMove | src/knightTour.ts:183 | looking up a table move's own tag finds that move |
| KnightTour.CandidatesSound | src/knightTour.ts:209-222 | every candidate is a free square one move away, reached by that move and carrying its degree |
| KnightTour.CandidatesComplete | src/knightTour.ts:209-222 | every move onto a free square yields a candidate |
| KnightTour.CandidatesInTagOrder | src/knightTour.ts:211-221 | candidates come out in increasing tag order |
| KnightTour.CandidateFacts | src/knightTour.ts:209-222 | the table's candidates are knight steps onto free squares, in tag order, with their degrees |
| KnightTour.SortedMinimum | src/knightTour.ts:227 | the first degree of the sorted list is the smallest |
| KnightTour.TiesSplit | src/knightTour.ts:227-228 | the candidates with the smallest degree are a non-empty prefix, and all the others have larger degree |
| KnightTour.ReorderTies | src/knightTour.ts:236-250 | when more than one candidate has the smallest degree, those candidates re-sorted by the tie-break key come first, followed by all the others; a single tie leaves the list alone |
| KnightTour.DegreeOrder | src/knightTour.ts:226 | sorting by degree rearranges the candidates into ascending degree, with tag order among equal degrees |
| KnightTour.FirstTieBreakKeepsOrder | src/knightTour.ts:236-250 | re-sorting the ties by their index in `[1, ..., 8]` leaves the degree-sorted list unchanged |
| KnightTour.TableKeySorted | src/knightTour.ts:243-245 | ties in tag order are already sorted by table index |
| KnightTour.FirstTieBreak | src/knightTour.ts:232-250 | under FIRST the order is a rearrangement sorted by degree, then by tag |
| KnightTour.ReorderedReach | src/knightTour.ts:249 | reordering the ties keeps every candidate a reachable free square |
| KnightTour.TiesInTagOrder | src/knightTour.ts:228 | the ties of a degree-then-tag order are in tag order |
| KnightTour.ReorderTiesShape | src/knightTour.ts:236-250 | re-sorting the ties by any key rearranges the list, keeps degree order and leaves the non-ties in place |
| KnightTour.TieDegree | src/knightTour.ts:249 | after reordering, the front still holds exactly smallest-degree candidates |
| KnightTour.MoveOrderingTieBreakOrder | src/knightTour.ts:236-249 | under MOVE_ORDERING the ties are ordered by their tag's index in the custom ordering (ties of index keep tag order), the rest stays in place |
| KnightTour.ShuffleTies | src/knightTour.ts:306-340 | a sort whose comparator falls back on `Math.random()` yields some rearrangement, and one sorted by key when no two keys are equal |
| KnightTour.AllReachZeroed | src/knightTour.ts:280 | probing a tie changes only its degree, so it stays reachable |
| KnightTour.PohlTail | src/knightTour.ts:298 | the filter `degree !== smallestDegree` over the probed, shared objects keeps the zeroed ties unless the smallest degree was 0, then the rest |
| KnightTour.AllReachPermutation | src/knightTour.ts:346-350 | any rearrangement of reachable candidates is reachable |
| KnightTour.AllReachSlices | src/knightTour.ts:249 | the front and back of a reachable list are reachable |
| KnightTour.ShuffleCovers | src/knightTour.ts:253-260 | a reordering of the ties followed by the rest keeps every candidate of the sorted list |
| KnightTour.PohlCovers | src/knightTour.ts:262-300 | the POHL order, zeroed ties and rest, still holds every candidate's square |
| KnightTour.KnightTour.constructor | src/knightTour.ts:74-93 | the search takes its settings from the configuration, the move ordering as decimal digits, with counters at 0 |
| KnightTour.KnightTour.IsValidMove | src/knightTour.ts:95-105 | a square is valid exactly when it is on the board and unvisited |
| KnightTour.KnightTour.CalculateDegree | src/knightTour.ts:107-121 | the degree is the number of table moves onto free squares, between 0 and 8 |
| KnightTour.KnightTour.CollectCandidates | src/knightTour.ts:209-222 | the candidates are the free squares one move away in tag order, each with its degree |
| KnightTour.KnightTour.CloseTour | src/knightTour.ts:133-149 | a closed tour is completed by the first table move from the last square onto the first one, and fails exactly when no move does that |
| KnightTour.KnightTour.NextStep | src/knightTour.ts:155-205 | a tour extending the path continues with a move the search may take onto a free square |
| KnightTour.KnightTour.NoTourFromNext | src/knightTour.ts:155-205 | when every such move leads to a taken square or to no tour, no tour extends the path |
| KnightTour.KnightTour.NoTourFromOrder | src/knightTour.ts:207-357 | when an order holding every candidate leads to no tour, no tour extends the path |
| KnightTour.KnightTour.ClosingStep | src/knightTour.ts:133-149 | a closed tour ends with a table move from the last square back to the first |
| KnightTour.KnightTour.NoClosingMove | src/knightTour.ts:133-149 | so when no table move returns to the first square, no closed tour extends a full path |
| KnightTour.KnightTour.TryMove | src/knightTour.ts:166-174 | marking a square and searching on either finds a tour whose next square is that square, or leaves the board as it was; a spent budget fails; a failure within budget means no tour the search could take goes through that square |
| KnightTour.KnightTour.CalculateNextMove | src/knightTour.ts:123-363 | a spent budget fails at once; success is a tour extending the path and recorded on the board, costing one call per remaining square; short of the full length the next square follows the configured algorithm: under BRUTEFORCE the first table move whose target leads to a tour, every earlier target off the board, on the path or leading to none; under MOVE_ORDERING the same over the moves the ordering digits name, in digit order; under WARNSDORF the first success in an order the tie-break gives the candidates, one that covers every candidate; failure leaves the board unchanged and, when the budget was not spent, means no tour the search could take extends the path; the count never passes the budget |
| KnightTour.KnightTour.BruteForceStep | src/knightTour.ts:158-178 | the table moves are tried in tag order: a success goes through the target of move `j`, and the target of every earlier move was off the board, on the path, or led to no tour; a failure within budget means no tour extends the path; a failure leaves the board unchanged |
| KnightTour.KnightTour.MoveOrderingStep | src/knightTour.ts:180-205 | the moves the ordering digits name are tried in digit order: a success goes through the move of digit `j`, and every earlier digit named no move, a square off the board or on the path, or a square leading to no tour; a failure within budget means no tour whose moves are all named by digits extends the path |
| KnightTour.KnightTour.TryDigit | src/knightTour.ts:182-200 | one digit: a success goes through the move the digit names; a failure within budget means the digit names no move, a square off the board or on the path, or a square leading to no tour |
| KnightTour.KnightTour.NoTourFromDigits | src/knightTour.ts:180-205 | when every digit is such a dead end, no tour whose moves are all named by digits extends the path |
| KnightTour.KnightTour.WarnsdorfStep | src/knightTour.ts:207-360 | the candidates are tried in the order the tie-break prescribes, an order holding every candidate; a success goes through candidate `j` of it after every earlier candidate led to no tour; a failure within budget means no tour extends the path |
| KnightTour.KnightTour.TryInOrder | src/knightTour.ts:346-357 | the ordered candidates are tried in turn: a success goes through candidate `j` after every earlier one led to no tour; a failure within budget means none of them leads to a tour |
| KnightTour.KnightTour.WarnsdorfOrder | src/knightTour.ts:224-343 | the candidate order under each tie-break, as listed above, holding every candidate's square; the board is left as it was |
| KnightTour.KnightTour.KeyedTieOrder | src/knightTour.ts:224-251 | under FIRST and MOVE_ORDERING the order is the tie-break's order of the candidates (each candidate's square still reachable) and covers every candidate |
| KnightTour.KnightTour.RearrangedTieOrder | src/knightTour.ts:253-343 | under RANDOM, POHL and the centre rules the order is the tie-break's order of the candidates up to the rearrangement of the ties, covers every candidate, and the board is restored |
| KnightTour.KnightTour.ShuffleOrder | src/knightTour.ts:253-260 | RANDOM and the centre rules rearrange only the ties, and keep every candidate reachable |
| KnightTour.KnightTour.PohlOrder | src/knightTour.ts:262-300 | POHL yields the zeroed ties in some order, then the zeroed ties again unless the smallest degree was 0, then the rest; the board is restored |
| KnightTour.KnightTour.DecreaseByDegree | src/knightTour.ts:271-282 | the degree is decreased once per table move from the square onto a free square |
| KnightTour.KnightTour.ProbeOne | src/knightTour.ts:269-285 | probing a tie subtracts its square's own degree from its degree and restores the board |
| KnightTour.KnightTour.PohlProbe | src/knightTour.ts:267-286 | every tie is probed in place and the board is restored |
| KnightTour.KnightTour.OddBoardOddStartCase | src/knightTour.ts:367 | the first rejection: an odd number of squares and a start square with odd `x + y` |
| KnightTour.KnightTour.OddBoardClosedTourCase | src/knightTour.ts:371 | the second rejection: a closed tour asked for on an odd number of squares |
| KnightTour.KnightTour.SolveKnightTour | src/knightTour.ts:365-409 | the two parity rejections with their messages, leaving every counter as it was; otherwise the total is the sum of the attempts' counts and the reported iterations are the last attempt's; success is a tour from the start square, found within the attempt limit with a budget covering the area; failure reports `attemptLimit` attempts (0 if negative) and leaves only the start square marked, and when some attempt stayed within its budget no tour starts there |
| KnightTour.KnightTour.RunAttempts | src/knightTour.ts:383-409 | the attempt loop from the marked start square: the total is the sum of the attempts' counts, the first success is a tour reported with its attempt number and that attempt's count; after `attemptLimit` failures the board holds only the start square, and no tour starts there if any attempt stayed within its budget |
| KnightTour.KnightTour.Attempt | src/knightTour.ts:385-400 | one attempt with a fresh budget adds its count to the total and to the list of counts; a success is a tour from the start square, reported with this attempt's number and count; a failure leaves the board as it was and, within budget, shows that no tour starts there |
| Parity.StepFlipsColour | src/knightTour.ts:367 | a knight step changes the colour `(x + y) % 2` |
| Parity.WalkColour | src/knightTour.ts:367 | after `i` steps a walk is on the start colour exactly when `i` is even |
| Parity.ClosedWalkHasEvenArea | src/knightTour.ts:371 | a closed tour has an even number of squares |
| Parity.ClosedTourNeedsEvenArea | src/knightTour.ts:371-373 | on an odd board no walk is a complete closed tour, so the second rejection loses no solution |
| Parity.DarkColumnSize | src/knightTour.ts:367 | a column of height `h` holds `h / 2` or `(h + 1) / 2` odd squares, depending on its parity |
| Parity.DarkColumnStep | src/knightTour.ts:367 | one more row adds one odd square to a column exactly when that square is odd |
| Parity.AddColumn | src/knightTour.ts:367 | each column adds its own odd squares to the count |
| Parity.TwoMoreColumns | src/knightTour.ts:367 | two adjacent columns add `h` odd squares |
| Parity.OddBoardDarkSquares | src/knightTour.ts:367 | an odd board has `(w * h - 1) / 2` odd squares |
| Parity.ProductParity | src/knightTour.ts:367 | a product is odd exactly when both factors are |
| Parity.EvenStepsFit | src/knightTour.ts:367 | a walk starting on an odd square puts its `(n + 1) / 2` even steps on distinct odd squares |
| Parity.EvenStepsDistinct | src/knightTour.ts:367 | the even steps of a path of distinct squares are distinct |
| Parity.EvenStepsDark | src/knightTour.ts:367 | the even steps of a walk starting on an odd square lie on odd squares of the board |
| Parity.OddBoardTourStartsOnColourZero | src/knightTour.ts:367 | a tour of an odd board starts on an even square |
| Parity.NoTourFromOddStart | src/knightTour.ts:367-369 | on an odd board no tour starts from an odd square, so the first rejection loses no solution |
| Discovery.LabelOnBoard | src/discovery/main.js:1-6 | on a board up to 10 x 10 a label is the file letter followed by the rank `y + 1` in decimal |
| Discovery.GetLabel | src/discovery/main.js:1-6 | the file letter from `A`..`J` followed by the rank from `1`..`10`, each `undefined` outside its table |
| Discovery.DecimalStringInjective | src/discovery/main.js:3 | distinct rank numbers have distinct names |
| Discovery.LabelsDistinct | src/discovery/main.js:1-6 | on a board up to 10 x 10 two squares share a label exactly when they are the same square |
| Discovery.LabelOffBoard | src/discovery/main.js:5 | past the tenth file a label starts with `undefined` |
| Discovery.PrototypeJumps | src/discovery/main.js:10-19 | the prototype table holds exactly the knight's jumps |
| Discovery.PrototypeMoveTable | src/discovery/main.js:10-19 | the prototype table has eight distinct offsets, the same as the engine's without tags |
| Discovery.EngineWalkIsJumpWalk | src/discovery/main.js:10-19 | a walk of engine moves is a walk of knight's jumps |
| Discovery.StepIsJump | src/discovery/main.js:10-19 | one engine step moves by a knight's jump |
| Discovery.EngineTourIsOpenTour | src/knightTour.ts:131 | an engine tour without its closing step is an open tour that visits every square |
| Discovery.CountIsDegree | src/discovery/main.js:52-66 | the prototype's onward-move count equals the engine's degree |
| Discovery.CandidatesSound | src/discovery/main.js:105-118 | every prototype candidate is a free square reached by a table move, with its onward count |
| Discovery.CandidatesComplete | src/discovery/main.js:105-118 | every table move onto a free square yields a candidate |
| Discovery.CandidateFacts | src/discovery/main.js:105-118 | every candidate is a free square one knight's jump away |
| Discovery.SortedCandidateFacts | src/discovery/main.js:121-124 | so is every candidate of the sorted order |
| Discovery.KnightPathSearch.constructor | src/discovery/main.js:26-34 | the search works on the given board with its count at 0 |
| Discovery.KnightPathSearch.IsValidMove | src/discovery/main.js:40-50 | a square is valid exactly when it is on the board and unvisited |
| Discovery.KnightPathSearch.CalculateNumberOfValidMoves | src/discovery/main.js:52-66 | the count is the number of table moves onto free squares, which is the engine's degree, between 0 and 8 |
| Discovery.KnightPathSearch.CollectCandidates | src/discovery/main.js:105-118 | the candidates are the free squares one move away in table order, with their onward counts |
| Discovery.KnightPathSearch.CalculateNextMove | src/discovery/main.js:68-137 | success is a labelled open tour extending the path and recorded on the board, costing at least one call per remaining square; short of the full length, its next square is the first candidate, in the stable sort by onward count, whose square leads to a tour, and every candidate before it leads to none; failure leaves the board unchanged and means no open tour extends the path |
| Discovery.KnightPathSearch.TryCandidates | src/discovery/main.js:121-136 | the candidates are tried in the order of `sorted`: a success goes through `sorted[j]` and no open tour goes through any earlier candidate; a failure leaves the board unchanged and means no open tour extends the path |
| Discovery.KnightPathSearch.TryMove | src/discovery/main.js:124-133 | marking a square and searching on finds a tour whose next square is that square, or shows that none extends the path through it, restoring the board |
| Discovery.KnightPathSearch.CalculateKnightPath | src/discovery/main.js:26-32 | a solution is a labelled open tour from the start square; no solution means no open tour starts there, and the start square stays marked |
| Discovery.LabelledTour | src/discovery/main.js:70-76 | a path of jumps over every square, once labelled, is an open tour extending the path, recorded on the board, with every square carrying its label |
| Discovery.NoTourFromCandidates | src/discovery/main.js:123-136 | if no candidate extension of the path leads to a tour, no tour extends the path |
| Discovery.NextCandidate | src/discovery/main.js:105-136 | the square a tour visits after the path is the move of one of the ordered candidates |
| Discovery.CandidateFor | src/discovery/main.js:105-118 | a free square one jump away appears among the candidates |
| Discovery.NextSquareFree | src/discovery/main.js:114 | that square is a free knight's jump from the path's last square |
| Discovery.SearchFromD6 | src/discovery/main.js:146 | the script's search of a fresh 8 x 8 board from (3, 5) returns a labelled open tour from that square, or there is none |

## Left out

- `async`/`await`: the search is modelled as plain sequential recursion. Nothing else runs while it awaits, so the order of effects is the same.
- `console.log` output is not modelled.
- The `center` field is not stored. The centre rules compare the squared distance to `(width / 2, height / 2)` multiplied by 4, which is exact in integers and orders squares the same way.
- The `solution` and `error` fields are never read by the core and are not modelled.
- Messages are a `Message` datatype carrying the numbers the source interpolates, not the strings.
- Everything in `src/types.ts` beyond the core types is left out: the cell types, `CellType`, and the React components that draw the board.
- Numbers are unbounded integers. Counts beyond 2^53, where JavaScript numbers lose precision, are not modelled.
- The board's `null` is the value -1, which no visit index takes.
- KnightTour.KnightTour.constructor: `moveOrdering` is a natural number. A negative, fractional or very large (`>= 1e21`) number would spell a sign, a point or an exponent, and those cases are not modelled.
- KnightTour.ShuffleTies: a comparator that answers `Math.random() - 0.5` makes the sort's result implementation-defined. The model promises only a rearrangement, sorted by key when no two keys are equal, and not any distribution.
- KnightTour.KnightTour.WarnsdorfOrder: under RANDOM, POHL and the centre rules the order is stated up to that same rearrangement of the ties.
- KnightTour.KnightTour.CalculateNextMove: a search that ran out of budget says nothing about whether a tour exists, so exhaustiveness is stated only for a failure within budget. The same holds for the step methods, and for SolveKnightTour and RunAttempts when every attempt ran out.
- KnightTour.KnightTour.SolveKnightTour: requires a start square on the board, a fresh board and at least one row and one column. Off the board, the source's first write throws or writes outside the grid.
- KnightTour.KnightTour.CloseTour: `path.push` extends the caller's array. That array is always a fresh copy, except on a one-square board, where an odd area is rejected first. So the model returns the extended path as a value.
- Discovery.KnightPathSearch.CalculateKnightPath: requires a start square on the board and a fresh board, as the driver above does. The default arguments `(0, 0)` are not modelled, because the script always passes a start square. The source returns the object `{ board, path }`; the model returns the labelled path, and the board it would carry is the search's `board`, which the contract describes through `Numbered` on a solution.
- Discovery.KnightPathSearch.CalculateNextMove: labels are assigned to the shared position objects, so the caller's path objects are labelled too. The model returns a labelled copy of the path.
- The prototype's console output of the board (line 24) and of the result (line 146) is not modelled.

# Hexagon sums: a verified model of the board and the round

The game shows a hexagonal board of lettered cells, each holding a random number.
The player memorizes the numbers, is then given a target sum, and must find every
straight line of three cells whose numbers add up to it. Lines are picked by clicking
cells or by typing their letters.

This project models the two pieces that hold the game logic.

- **The board** (`src/hexagon.ts`):
  - `generateHexagon` lays out the cells row by row with `fillRow`, links each cell to its neighbours, and lists every straight line of three cells as a combination id.
  - `randomize` writes a number into every cell and fills three tables: `sums` (the sum of each combination), `rarity` (how many combinations have each sum) and `sortedByRarity` (the sums, most frequent first).
- **The round** (`src/app.tsx`, lines 10-117): the signals of `App` and the callbacks that change them.
  - The callbacks are `startGame`, `click`, `keyPress`, `giveUp`, `resetPoints` and `showResponseToUser`.
  - The two timers are explicit events: `Tick` for the one-second interval and `Revert` for the timeout `showResponseToUser` schedules.

Layout, one module per file:

- `wrappers.dfy`: `Option`.
- `topology.dfy`: the board's geometry.
  - The five rows `abc|defg|hijkl|mnop|qrs` give 19 cells `a` to `s`.
  - `FillLinks` is the `fillRow` linking rule; `Drawn` is the same adjacency written out by hand.
  - `LinesUpTo` is the line enumeration. The lines it finds toward each direction are proved equal to three literal lists of nine, and its members are exactly the 27 lines of those lists.
- `analysis.dfy`: the pure counting behind `randomize` and `giveUp`.
  - `LineSum`, `SumsMap`, `Tally` and `Keys` compute the sums, counts and occurring sums.
  - `SortByCount` is the sort by descending count; `Matching` is the `giveUp` filter.
  - `Tables` relates these tables to the numbers on the board.
- `hexagon.dfy`: the `Cell` and `Hexagon` classes and the imperative `generateHexagon`/`fillRow` and `randomize`. Each loop is proved against the functions above.
- `selection.dfy`: the selection string of `click`.
  - `Insert` and `Sort` model `Array.from(combo + letter).sort().join("")`.
  - `RemoveFirst` models `combo.replace(letter, "")`.
- `game.dfy`: the round as the class `App`.
  - The click events (`Click`, `KeyPress`, `MouseClick`, `JudgeSelection`) are proved against `ClickStep`/`Judge`, which state what a click does to the round. The other events state their new signals directly: `StartGame` through `DealBoard`, `Tables` and `Target`, `GiveUp` through `Matching`, and `Tick`, `Revert` and `ResetPoints` case by case.
  - The invariant `Valid` (through `Coherent`) is kept by every event.
  - The lemmas relate the round to the board's tables.

The board has 19 cells in rows of 3, 4, 5, 4 and 3.

`Judge` and `JudgeSelection` end a round with `RoundComplete`, the intended reading of src/app.tsx:72. `AllDoneAsWritten` is the test as written (see ## Findings).

The `rng` calls are replaced by their results, which are inputs to the model:

- `draws`: one number per cell, in letter order. Each must be a value `rng(min, max)` can return; `Between` accepts the bounds in either order.
- `pick`: the result of `rng(0, 2)`.

A target picked past the end of `sortedByRarity` is `parseInt(undefined)`, that is `NaN`, and is modelled as `None`. `NaN` never compares equal to anything, so no selection can hit it.

## Model

| member | source | states |
|---|---|---|
| Topology.LettersAreRows | src/hexagon.ts:80-82 | the rows `abc`, `defg`, `hijkl`, `mnop`, `qrs` read one after another give the 19 letters `a` to `s` |
| Topology.LettersIncrease | src/hexagon.ts:80-82 | the cell letters strictly increase in row-major order |
| Topology.LettersFromA | src/hexagon.ts:80-82 | the k-th cell in row-major order has letter `'a' + k` |
| Topology.IsLetter | src/hexagon.ts:80-82 | a character is one of the letters the rows hand out exactly when it is a cell letter, `a` to `s` |
| Topology.RowLetters | src/hexagon.ts:80-82 | the k-th letter of row r is `'a'` plus the number of cells in the rows before it, plus k |
| Topology.FillRowMatchesDrawing | src/hexagon.ts:61-72 | for every row and index, the links `fillRow` computes equal the drawn adjacency: `right` is the next letter, the down links use indices i and i+1 when the next row is longer and i-1 and i when it is shorter, and a link is unset out of range and on the last row |
| Topology.NeighbourIsLaterCell | src/hexagon.ts:69-71 | every link that is set names an existing cell, with a later letter |
| Topology.NeighboursDiffer | src/hexagon.ts:69-71 | two different directions of one cell never lead to the same neighbour |
| Topology.DrawnIsForward | src/hexagon.ts:69-71 | the drawn adjacency links cells only to later cells, and to different ones in different directions |
| Topology.LineShape | src/hexagon.ts:88-92 | a line found from cell l toward d is l, its neighbour toward d, and that neighbour's neighbour toward d; its three cell letters strictly increase |
| Topology.LinesAtMembers | src/hexagon.ts:87-92 | the ids pushed for one letter are exactly the lines found from it in the directions tried so far |
| Topology.LinesUpToMembers | src/hexagon.ts:86-92 | a triple is listed exactly when it is the line from one of the cells visited so far, in some direction |
| Topology.LinesAtDistinct | src/hexagon.ts:87-92 | the ids pushed for one letter are distinct and start with that letter |
| Topology.LineNotAmong | src/hexagon.ts:87-92 | the line toward a direction not yet tried is not among the ids already pushed for that letter |
| Topology.LinesUpToDistinct | src/hexagon.ts:84-93 | the enumeration lists no id twice |
| Topology.LinesTowardPrefix | src/hexagon.ts:86-92 | the lines found toward one direction depend only on the cells visited so far |
| Topology.LinesTowardConcat | src/hexagon.ts:86-92 | visiting the cells of two runs in turn lists the lines of the first run, then those of the second |
| Topology.TowardByRows | src/hexagon.ts:86-92 | the lines toward a direction are those of row `abc`, then `defg`, `hijkl`, `mnop` and `qrs` |
| Topology.DownLeftLinesDrawn | src/hexagon.ts:84-93 | the down-left lines, in enumeration order, are the nine of `DownLeftLines` |
| Topology.DownRightLinesDrawn | src/hexagon.ts:84-93 | the down-right lines, in enumeration order, are the nine of `DownRightLines` |
| Topology.RightLinesDrawn | src/hexagon.ts:84-93 | the rightward lines, in enumeration order, are the nine of `RightLines` |
| Topology.LinesUpToByDirection | src/hexagon.ts:86-92 | the number of ids listed is the sum of the lines found toward each of the three directions |
| Topology.LinesAtByDirection | src/hexagon.ts:87-92 | the ids pushed for one letter are its down-left, down-right and right lines, in that order |
| Topology.LinesUpToOfDirections | src/hexagon.ts:86-92 | an id is listed exactly when it is among the lines found toward one of the three directions |
| Topology.CombinationsAreTheLiterals | src/hexagon.ts:84-93 | a string is a combination exactly when it is one of the 27 lines of `DownLeftLines`, `DownRightLines` and `RightLines` |
| Topology.CombinationsCount | src/hexagon.ts:84-93 | there are 9 lines toward each direction and 27 combinations in all |
| Topology.CombinationsDistinct | src/hexagon.ts:84-93 | no combination id is listed twice |
| Topology.CombinationsAreLines | src/hexagon.ts:86-92 | a string is a combination exactly when it is a cell, its neighbour in some direction, and that neighbour's neighbour in the same direction |
| Topology.CombinationIdsIncrease | src/hexagon.ts:86-92 | every combination id is three cell letters in strictly increasing order, so it is its own sorted form |
| Topology.SameLinksSameLines | src/hexagon.ts:86-92 | boards with the same links list the same combinations |
| Hexagons.Cell.constructor | src/hexagon.ts:65-73 | a new cell has the given letter and links, and number 0 |
| Hexagons.Hexagon.constructor | src/hexagon.ts:7-11 | a new board holds the given cells, rows and combinations, and has empty tables |
| Hexagons.FillRow | src/hexagon.ts:61-78 | one row of fresh cells is appended, one per letter in order, each with the `fillRow` links and number 0, and each filed under its letter; the other cells stay as they were |
| Hexagons.FillRows | src/hexagon.ts:80-82 | after the five rows, `cells` holds exactly the letters `a` to `s`, each cell with the drawn links and number 0, and `rows[r][k]` is the cell filed under the k-th letter of row r |
| Hexagons.RowOfCells | src/hexagon.ts:80-82 | the letters of one row are distinct and form one contiguous range |
| Hexagons.RowStartGrows | src/hexagon.ts:80-82 | the rows do not overlap: each starts after the cells of the rows before it |
| Hexagons.LineOfCells | src/hexagon.ts:88-92 | `cells[letter]?.connection[dir]` followed by `cells[secondLetter]?.connection[dir]` finds a line exactly when both links are set, and then it is the three letters in order |
| Hexagons.PushLinesAt | src/hexagon.ts:87-93 | the inner loop appends to the list the lines from one letter, in direction order |
| Hexagons.ListCombinations | src/hexagon.ts:84-93 | the list built by the nested loops is the line enumeration over the cells' own links |
| Hexagons.LinksAreDrawn | src/hexagon.ts:84-93 | over the cells `fillRow` creates, the enumeration gives exactly the combinations |
| Hexagons.GenerateHexagon | src/hexagon.ts:57-96 | a fresh board: 19 cells filed by letter with the drawn links, rows as laid out, the 27 combinations in enumeration order, numbers 0 and empty tables |
| Hexagons.CombinationsValued | src/hexagon.ts:42-45 | once every cell has a number, every letter of every combination has one |
| Hexagons.Dealt | src/hexagon.ts:35-36 | the numbers by letter: each of the 19 letters gets its own draw, and every number is one of the draws |
| Hexagons.DrawNumbers | src/hexagon.ts:35-36 | after the first loop the cells show the draws, letter by letter |
| Hexagons.LineTotal | src/hexagon.ts:43-45 | the inner loop adds up the numbers of the line's cells |
| Hexagons.CountSums | src/hexagon.ts:42-50 | after the loop over the combinations, `sums` and `rarity` hold the sum of each combination and the count of each sum, and the occurring sums are listed once each |
| Hexagons.Tabulate | src/hexagon.ts:38-54 | the board's tables are the ones its numbers determine: `sums`, `rarity`, and `sortedByRarity` by non-increasing count |
| Hexagons.SumsWithinBounds | src/hexagon.ts:35-46 | once the tables are built from numbers between `min` and `max`, every entry of `sums` lies between `3*min` and `3*max` |
| Hexagons.Randomize | src/hexagon.ts:34-55 | every cell shows its draw and lies between `min` and `max`, the tables are those of these numbers, and every sum lies between `3*min` and `3*max` |
| Analysis.LineSums | src/hexagon.ts:42-46 | one sum per combination, in list order, each the sum of that combination's numbers |
| Analysis.SumsInOrder | src/hexagon.ts:42-46 | the `sums` entries read in combination order |
| Analysis.InsertByCount | src/hexagon.ts:52-54 | inserting a sum into a list ordered by non-increasing count keeps that order and adds exactly that sum |
| Analysis.SortByCount | src/hexagon.ts:52-54 | the sort gives a permutation of its input ordered by non-increasing count |
| Analysis.LineSumBounds | src/hexagon.ts:43-45 | a line whose numbers lie in [lo, hi] sums to between `\|c\|*lo` and `\|c\|*hi` |
| Analysis.SumsMapEntries | src/hexagon.ts:42-46 | the keys of `sums` are exactly the combinations, and each entry is its combination's sum |
| Analysis.SumsInOrderOfSumsMap | src/hexagon.ts:42-46 | reading `sums` in combination order gives the line sums |
| Analysis.NextCombination | src/hexagon.ts:42-46 | one iteration of the loop appends one sum and adds one entry to `sums` |
| Analysis.NextTally | src/hexagon.ts:48-49 | one more sum counts as `if (!rarity[sum]) rarity[sum] = 0; rarity[sum]++`, and joins the occurring sums if it is new |
| Analysis.TallyCounts | src/hexagon.ts:48-49 | `rarity` has a key exactly for each occurring sum, and its entry is how often that sum occurs |
| Analysis.KeysAreElements | src/hexagon.ts:52 | the occurring sums are listed once each, and they are exactly the sums that occur |
| Analysis.TallyAddsUp | src/hexagon.ts:48-49 | the counts of the occurring sums add up to the number of sums |
| Analysis.MatchingCount | src/app.tsx:91 | the number of combinations with sum t equals how often t occurs among the sums |
| Analysis.MatchingMembers | src/app.tsx:91 | the `giveUp` filter keeps exactly the combinations whose entry in `sums` is t |
| Analysis.MatchingDistinct | src/app.tsx:91 | the filter of a list without repeats has no repeats |
| Analysis.TablesAgree | src/hexagon.ts:38-54 | tables computed from the numbers are consistent with each other, whatever the numbers |
| Analysis.TabulateStep | src/hexagon.ts:42-49 | one loop iteration, with the line's sum, keeps the loop invariant |
| Analysis.TabulateDone | src/hexagon.ts:52-54 | when the loop ends, sorting the occurring sums by count completes the tables |
| Analysis.SumsOfTables | src/hexagon.ts:42-46 | after `randomize` the keys of `sums` are exactly the combinations, and each entry is the sum of its three cells |
| Analysis.RarityOfTables | src/hexagon.ts:48-49 | after `randomize` a sum is a key of `rarity` exactly when some combination has it, and its entry is the number of such combinations |
| Analysis.CountsAddUp | src/hexagon.ts:38-49 | after `randomize` the counts in `rarity` add up to the number of combinations |
| Analysis.SortedOfTables | src/hexagon.ts:52-54 | `sortedByRarity` lists each key of `rarity` once, by non-increasing count |
| Analysis.SumOfCountsPermutation | src/hexagon.ts:52-54 | reordering the keys does not change the total of their counts |
| Analysis.PermutationKeepsDistinct | src/hexagon.ts:52-54 | a permutation of a list without repeats has none, and has the same elements |
| Selection.InsertLetters | src/app.tsx:58-61 | inserting a letter adds exactly that letter to the selection |
| Selection.SortLetters | src/app.tsx:58-61 | sorting keeps exactly the letters it is given |
| Selection.SortAscends | src/app.tsx:58-61 | the sorted string is ascending |
| Selection.RemoveLetters | src/app.tsx:56-57 | `replace` removes one occurrence of a letter that occurs, and changes nothing otherwise |
| Selection.InsertAscends | src/app.tsx:58-61 | inserting keeps a string ascending |
| Selection.InsertIncreases | src/app.tsx:58-61 | inserting a new letter keeps a string strictly increasing |
| Selection.RemoveIncreases | src/app.tsx:56-57 | removing a letter keeps a string strictly increasing |
| Selection.SortKeepsSorted | src/app.tsx:58-61 | sorting an ascending string gives it back |
| Selection.AddToSelection | src/app.tsx:58-61 | sorting a sorted selection with one letter appended inserts that letter in its place |
| Selection.SameLettersSameString | src/app.tsx:58-61 | two ascending strings with the same letters are equal |
| Selection.RemoveThenAdd | src/app.tsx:56-61 | clicking a selected letter, then clicking it again, gives the selection back |
| Selection.AddThenRemove | src/app.tsx:56-61 | clicking a new letter, then clicking it again, gives the selection back |
| Selection.AddLetter | src/app.tsx:58-62 | a new letter makes the selection one longer and keeps it sorted and free of repeats; it holds that letter and the old ones |
| Selection.DropLetter | src/app.tsx:56-57 | removing a selected letter makes the selection one shorter and keeps it strictly increasing; the letter is gone and nothing new appears |
| Selection.SelectionIsId | src/app.tsx:58-61 | in whatever order the three cells of a line are clicked, the selection is that line's combination id |
| Game.DealBoard | src/app.tsx:44-45 | `generateHexagon()` then `randomize(h, min, max)`: a fresh board with the full `generateHexagon` layout (cells as drawn, the 27 combinations), showing the draws, with the tables of those numbers |
| Game.App.constructor | src/app.tsx:23-36 | the initial signal values: max 6, memorization time 30, no board, both scores 0, one-player mode, title screen, no target, empty selection and list |
| Game.App.StartGame | src/app.tsx:38-52 | memorization phase, empty selection and list, `time` set to `memoTime`, the mode taken from the setting, both scores zeroed exactly when the setting differed from the mode, a new board with the full `generateHexagon` layout showing the draws with its tables, and the target at index `pick` of `sortedByRarity` |
| Game.App.OpenRound | src/app.tsx:39-51 | the signal writes of `startGame` around the new board |
| Game.App.Click | src/app.tsx:54-83 | with no cell or no board nothing changes; otherwise the round moves exactly as `ClickStep` says; the round stays coherent |
| Game.App.JudgeSelection | src/app.tsx:62-80 | the three-letter selection is judged as `Judge` says: already called, hit or miss |
| Game.App.Score | src/app.tsx:65-77 | `pointSetter(p => p + delta)` changes the acting counter by delta, and nothing else |
| Game.App.ShowResponseToUser | src/app.tsx:94-99 | shows the given phase and schedules one more revert |
| Game.App.KeyPress | src/app.tsx:85-87 | a key that names a cell clicks it, scoring into `points2` in two-player mode and `points` otherwise; any other key changes nothing |
| Game.App.MouseClick | src/app.tsx:154 | a mouse click on a board cell is a click that scores into `points` |
| Game.App.GiveUp | src/app.tsx:89-92 | the phase becomes `giveUp`, and the list becomes every combination whose sum is the target, in the order of `sums`; with a `NaN` target the list is empty |
| Game.App.Revert | src/app.tsx:96-99 | a pending timeout fires: back to picking with an empty selection, whatever the phase |
| Game.App.Tick | src/app.tsx:102-113 | in memorization, counts `time` down while it is above 0 and otherwise starts the picking; after giving up, steps `comboLoop` cyclically through the list and shows that entry; otherwise nothing changes |
| Game.App.ResetPoints | src/app.tsx:115-117 | both counters become 0, and the round stays coherent |
| Game.FreshRound | src/app.tsx:39-41 | a round with an empty selection and nothing called is coherent |
| Game.ClickKeepsCoherent | src/app.tsx:54-83 | a click keeps the called list free of repeats and made of hits, and keeps the picking selection at most two sorted cell letters |
| Game.JudgeKeepsCoherent | src/app.tsx:62-80 | judging a selection keeps the round coherent: only a new hit joins the called list |
| Game.DeselectReselect | src/app.tsx:56-61 | clicking a selected cell twice leaves the whole round as it was |
| Game.SelectDeselect | src/app.tsx:56-62 | clicking a new cell twice, before the selection is full, leaves the whole round as it was |
| Game.JudgedAtThree | src/app.tsx:58-63 | a new letter always lengthens the selection by one; below three letters nothing else changes, and at three the round leaves the picking phase |
| Game.JudgedSelection | src/app.tsx:63-79 | a new hit gains a point and is appended to the called list, ending the round when complete and showing `correct` otherwise; a repeat (checked first) or a miss loses a point and leaves the list alone; the other counter never moves |
| Game.CoversWhenAsLong | src/app.tsx:72 | a repeat-free list drawn from another holds all of it exactly when it is as long |
| Game.RoundCompleteMeansAllFound | src/app.tsx:71-73 | the intended end-of-round test holds exactly when every combination with the target sum has been called |
| Game.AsWrittenEndsEarly | src/app.tsx:72 | whenever the test as written fires, a combination with the target sum has not been called yet |
| Game.AllDoneMeansAllFound | src/app.tsx:69-73 | a click that ends the round leaves every combination with the target sum in the called list |
| Game.TargetIsCommon | src/app.tsx:49 | a target that exists has at least one combination, and only sums placed before it in `sortedByRarity` are more frequent |
| Game.GiveUpListsAll | src/app.tsx:89-92 | the `giveUp` list has no repeats; it holds exactly the combinations hitting the target, as many as `rarity` counts, including every one called before |
| Game.ShapedFits | src/hexagon.ts:57-96 | the board `generateHexagon` lays out files each cell under its own letter and lists no combination twice |
| Game.SelectionFindsLine | src/app.tsx:58-69 | in whatever order a line's cells are clicked, the selection is a key of `sums`, the one `click` looks up |

## Left out

- Rendering is not modelled. This covers the JSX, the CSS module and `render` (src/app.tsx:119-215), along with the inputs that set `max`, `memoTime` and `twoPlayersSetting`. Those three stay plain fields.
- src/rng.ts is not part of this model. Its distribution and seeding are floating-point. Its results are inputs: `draws` for `randomize` and `pick` for the target. The only thing assumed about them is that each lies between its bounds.
- Real timers are not modelled, and neither are their delays (1000 and 2000 ms). `Tick` is the interval body. `Revert` is a `showResponseToUser` timeout; the ghost count `pendingReverts` records how many are still pending.
- `parseInt` of the `max` and memorization-time inputs is left out. Both are integers in the model, so `time` is never `NaN` once a round has started.
- `sortedByRarity` holds the keys of `rarity` as strings, which `startGame` turns back with `parseInt`. The model keeps them as integers.
- Analysis.SortByCount: states the permutation and the non-increasing counts. Among sums with equal counts, the model keeps the order in which they first occur over the combinations, the order `Keys` and `CountSums` build. The source sorts `Object.entries(rarity)`, which lists integer keys in ascending numeric order, with a comparator that never returns 0, so its tie order is whatever the engine's sort makes of that. The target `startGame` picks among sums with equal counts can therefore differ from the browser's. `Game.TargetIsCommon` assumes only that the sums are listed once each by non-increasing count, so it holds of the target under either order: the target occurs, and only sums placed before it occur more often.
- `Object.entries(directions)` also yields the enum's name keys, but no link is ever stored under them. The model enumerates the three directions only.
- The `Hexagon` constructor leaves `sums`, `rarity` and `sortedByRarity` undefined until `randomize` runs. The model starts them empty.
- When the list is empty, the giveUp tick sets `combo` to `undefined`. The model uses `""`.
- Game.App.KeyPress: before the first round `hexagon()` is `null`, and `keyPress` throws. The model treats that key press as a no-op.
- Game.App.GiveUp: requires the picking phase, because the button is rendered only there (src/app.tsx:193).
- Game.App.Valid: the invariant says the called list has no repeats and holds only hits. It also says that while memorizing or picking, the selection is at most two sorted cell letters. It does not restate that called entries are combination ids; Game.App.GiveUp and Game.GiveUpListsAll give that for the list `giveUp` builds.
- JavaScript numbers are doubles. All sums and counts here are small integers, so the model uses unbounded integers.

## Findings

| source | as written | input that shows it | evidently intended | confidence | as-written member | corrected member |
|---|---|---|---|---|---|---|
| src/app.tsx:72 | the round ends when `calledCombos().length == rarity[sum()] - 1`, read just after the new combination is appended | a target shared by two lines: the first correct line makes the list one long, which equals 2 - 1, so `allDone` shows with one line still unfound; a target with one line never ends the round | end the round when the list, after the append, is as long as `rarity[sum()]`, that is when every line with the target sum has been found | not executed | Game.AsWrittenEndsEarly | Game.RoundCompleteMeansAllFound |

# Advent of Code 2022 solvers, modelled in Dafny

This project models the implemented Advent of Code 2022 solvers of the
`advent_2022` crate: days 1, 2, 4, 5, 7, 8, 9 and 12. Each day is one
module. Each part of a puzzle (`one`, `two`) is a function or a method over
text that is already loaded (or over a grid, for day 8). The properties the
code and its tests promise are proved about those members.

Modules:

- `Wrappers` (`wrappers.dfy`): `Option`. A step that panics in the program
  (an `unwrap`/`expect` on bad input, an index past the end of a vector) is
  `None` here.
- `Text` (`text.dfy`): the parts of Rust's `str` API the solvers use:
  `lines`, `split`, `split_once`, `split_whitespace`, `trim`, `join` and
  unsigned `parse`. Each comes with the round trip or characterisation that
  pins it down.
- `CalorieCounting` (day 1): elf totals and the largest total.
- `RockPaperScissors` (day 2): shape tokens, round scores and the guide total.
- `CampCleanup` (day 4): section ranges, containment and overlap tests, and the two counts.
- `SupplyStacks` (day 5): the crate drawing parser, the move parser, the crane
  (`Process` works in place on an array of stacks) and the top crates.
- `NoSpaceLeft` (day 7): the `cd`/`ls` transcript interpreter, directory
  sizes and the two threshold queries. The program's `Rc<RefCell<..>>` nodes
  are an arena (a sequence of directories) plus a map from path to arena
  position. A node that is both a map value and a child is one position
  that appears twice.
- `TreetopTreeHouse` (day 8): digit heights, the four running-maximum scans
  and the visible-tree count.
- `RopeBridge` (day 9): `Direction` arithmetic, `follow`, the rope of two
  knots and the rope of ten knots, and the visited positions.
- `HillSearch` and `HillClimbing` (day 12): the height map parser, the
  neighbour rule, and the breadth-first search (named `dijkstra` in the
  program) proved sound and complete. Then the two readings of its result.

The day-7 interpreter follows the code where it differs from the obvious
intent. `cd ..` makes the current directory the popped-to directory's own
`parent` field, not the joined path. The root's parent field is `"/"`,
which is not a key. A listing line for a current directory that is not a
key is dropped. `NoSpaceLeft.CdUpLandsAboveRoot` and
`NoSpaceLeft.SelfChildTranscript` show the consequences: a file dropped
after returning to the root, and a directory that becomes its own child,
whose size has no value (the program recurses without end).

## Model

| member | source | states |
|---|---|---|
| `CalorieCounting.ParseElfOfNumbers` | advent_2022/src/day_01/mod.rs:5-10 | a block of numbers, one per line, totals their sum, with or without a final newline |
| `CalorieCounting.ParseElfOfEmpty` | advent_2022/src/day_01/mod.rs:5-10 | text with no lines totals 0 |
| `CalorieCounting.ParseElfSkipsMalformed` | advent_2022/src/day_01/mod.rs:8 | a line that is not a `usize` (an empty one included) adds 0 instead of failing |
| `CalorieCounting.One` | advent_2022/src/day_01/mod.rs:13-19 | the answer is the total of some block split at "\n\n" and at least every block's total |
| `RockPaperScissors.ShapeFrom` | advent_2022/src/day_02/mod.rs:12-21 | exactly the tokens A/B/C/X/Y/Z are shapes; A and X are Rock (1), B and Y Paper (2), C and Z Scissor (3); any other token panics |
| `RockPaperScissors.Value` | advent_2022/src/day_02/mod.rs:5-10 | a shape's discriminant lies in 1..3 |
| `Wrappers.All` | advent_2022/src/day_02/mod.rs:23-25 | collecting mapped results succeeds exactly when every element maps to a value, and then holds one result per element, in order (day 2 `parse_line`, the line scores of `one`; day 4 `parse_line`; day 5 `parse_instructions`) |
| `RockPaperScissors.ParseLineOfRound` | advent_2022/src/day_02/mod.rs:23-25 | the line "<opponent> <own>" parses back to those two shapes |
| `RockPaperScissors.Score` | advent_2022/src/day_02/mod.rs:27-39 | a round scores 1..9: own shape's value plus 0, 3 or 6 |
| `RockPaperScissors.OutcomeCases` | advent_2022/src/day_02/mod.rs:29-36 | the outcome is 3 exactly for a draw, 0 exactly for a value difference of -1 or 2, 6 exactly for 1 or -2 |
| `RockPaperScissors.ScoreFollowsRules` | advent_2022/src/day_02/mod.rs:27-39 | the discriminant arithmetic awards 3 for a draw, 6 for a win by the game's rules and 0 for a loss |
| `RockPaperScissors.LineScore` | advent_2022/src/day_02/mod.rs:45-46 | a line scores exactly when it parses to at least two shapes, and then scores 1..9 |
| `RockPaperScissors.OneBounds` | advent_2022/src/day_02/mod.rs:42-48 | a total lies between 1 and 9 per line |
| `RockPaperScissors.SumBounds` | advent_2022/src/day_02/mod.rs:47 | a sum of values each between lo and hi lies between lo and hi times their number |
| `RockPaperScissors.RoundLineScore` | advent_2022/src/day_02/mod.rs:23-39 | the line "<opponent> <own>" scores what the game's rules award for that round |
| `RockPaperScissors.SumOfScores` | advent_2022/src/day_02/mod.rs:47 | scores that are what the rules award for their rounds sum to what the rules award for all the rounds |
| `RockPaperScissors.OneOfGuide` | advent_2022/src/day_02/mod.rs:42-48 | a guide written out from rounds totals what the game's rules award for those rounds |
| `RockPaperScissors.ExampleOne` | advent_2022/src/day_02/mod.rs:55-59 | the example guide "A Y", "B X", "C Z" totals 15 |
| `CampCleanup.ParseLineOfText` | advent_2022/src/day_04/mod.rs:8-18 | "a-b,c-d" parses to [Range(a,b), Range(c,d)] for `u32` values |
| `CampCleanup.TestCases` | advent_2022/src/day_04/mod.rs:64-88 | the program's eight `is_contained` and `is_overlapping` test cases |
| `CampCleanup.ContainedIsSubset` | advent_2022/src/day_04/mod.rs:20-23 | for a range with lo <= hi, `is_contained(r0, r1)` holds exactly when every section of r0 is in r1 |
| `CampCleanup.OverlappingIsSharedSection` | advent_2022/src/day_04/mod.rs:40-43 | for ranges with lo <= hi, the two-way overlap test holds exactly when the ranges share a section |
| `CampCleanup.OverlappingSymmetric` | advent_2022/src/day_04/mod.rs:51 | the two-way overlap test does not depend on the order of the pair |
| `CampCleanup.ContainedImpliesOverlapping` | advent_2022/src/day_04/mod.rs:25-58 | for ranges with lo <= hi, containment either way implies the two-way overlap test |
| `CampCleanup.ContainedWithoutOverlap` | advent_2022/src/day_04/mod.rs:20-43 | without lo <= hi the implication fails: (5,3) is "contained" in (4,9) but does not overlap it |
| `CampCleanup.LinePair` | advent_2022/src/day_04/mod.rs:29-31 | a line yields a pair exactly when it parses to at least two ranges, and the pair is its first two ranges |
| `CampCleanup.LinePairOfText` | advent_2022/src/day_04/mod.rs:8-31 | the line written for a pair of `u32` ranges yields that pair |
| `CampCleanup.PairsOfText` | advent_2022/src/day_04/mod.rs:8-18 | the lines written from a list of `u32` pairs parse back to that list |
| `CampCleanup.CountContained` | advent_2022/src/day_04/mod.rs:25-38 | at most one count per pair |
| `CampCleanup.CountOverlapping` | advent_2022/src/day_04/mod.rs:45-58 | at most one count per pair |
| `CampCleanup.CountContainedAtMostOverlapping` | advent_2022/src/day_04/mod.rs:25-58 | over well-formed pairs the containment count is at most the overlap count |
| `CampCleanup.TwoAtLeastOne` | advent_2022/src/day_04/mod.rs:25-58 | `one` and `two` fail on the same inputs; with well-formed ranges `two` >= `one` |
| `CampCleanup.SolveText` | advent_2022/src/day_04/mod.rs:25-58 | the text written from a list of pairs makes `one` and `two` count those pairs |
| `CampCleanup.ExampleCounts` | advent_2022/src/day_04/mod.rs:73-96 | the example's six pairs hold 2 containments and 4 overlaps |
| `CampCleanup.Example` | advent_2022/src/day_04/mod.rs:73-96 | on the example, `one` gives 2 and `two` gives 4 |
| `SupplyStacks.OddTokens` | advent_2022/src/day_05/mod.rs:45-47 | `skip(1).step_by(2)` keeps the tokens at odd positions |
| `SupplyStacks.ParseEachOfPlan` | advent_2022/src/day_05/mod.rs:40-54 | the lines written for a plan of moves parse back to that plan, one instruction per line |
| `SupplyStacks.InstructionWords` | advent_2022/src/day_05/mod.rs:45 | "move n from a to b" splits into the six words move, n, from, a, to, b |
| `SupplyStacks.InstructionTokens` | advent_2022/src/day_05/mod.rs:45-47 | the odd-position words of a move line are its three numbers |
| `SupplyStacks.ParseInstructionLine` | advent_2022/src/day_05/mod.rs:40-54 | "move n from a to b" parses to Instruction(n, a-1, b-1), and panics when a or b is 0 |
| `SupplyStacks.ParsePlan` | advent_2022/src/day_05/mod.rs:40-54 | the text written from a plan of moves parses back to that plan |
| `SupplyStacks.Moved` | advent_2022/src/day_05/mod.rs:56-64 | min(count, height of `from`) crates leave the top of `from` and are added on top of `to`; other stacks are untouched; from == to or count 0 changes nothing |
| `SupplyStacks.MovedStep` | advent_2022/src/day_05/mod.rs:57-61 | each further iteration pops one crate from `from` and pushes it onto `to`, so the moved crates arrive in reverse order, and does nothing once `from` is empty |
| `SupplyStacks.MovedFirst` | advent_2022/src/day_05/mod.rs:57-61 | the first iteration moves the top crate of `from` onto `to` |
| `SupplyStacks.MovedFurther` | advent_2022/src/day_05/mod.rs:57-61 | every later iteration, while `from` has crates, moves its next crate onto `to` |
| `SupplyStacks.Process` | advent_2022/src/day_05/mod.rs:56-64 | the in-place crate loop on an array of stacks leaves exactly the stacks `Moved` describes |
| `SupplyStacks.MovedKeepsCrates` | advent_2022/src/day_05/mod.rs:56-64 | a move neither loses nor adds crates (the multiset of all crates is kept) |
| `SupplyStacks.RunKeepsCrates` | advent_2022/src/day_05/mod.rs:75-77 | a whole plan keeps the number of stacks and every crate |
| `SupplyStacks.Tops` | advent_2022/src/day_05/mod.rs:79-84 | at most one top crate per stack |
| `SupplyStacks.PushRow` | advent_2022/src/day_05/mod.rs:25-35 | a drawing row pushes the character at column 1 + 4k onto stack k unless it is a space, and panics for a crate beyond the last stack |
| `SupplyStacks.ParseTowers` | advent_2022/src/day_05/mod.rs:11-38 | the stack count is the last number of the bottom line, and each stack holds its column's crates read bottom-up |
| `SupplyStacks.ExampleColumns` | advent_2022/src/day_05/mod.rs:25-35 | the example drawing's rows give the stacks Z N / M C D / P |
| `SupplyStacks.ExampleCount` | advent_2022/src/day_05/mod.rs:12-18 | the example's label line " 1   2   3 " counts three stacks |
| `SupplyStacks.ExamplePlanParse` | advent_2022/src/day_05/mod.rs:40-54 | the example's four move lines parse to the example plan |
| `SupplyStacks.One` | advent_2022/src/day_05/mod.rs:66-85 | the input is cut at the first blank line, the moves are run in place, and the tops are read left to right and trimmed |
| `SupplyStacks.ExampleFirstMove` | advent_2022/src/day_05/mod.rs:56-64 | the example's first move, 1 from 2 to 1, gives Z N D / M C / P |
| `SupplyStacks.ExampleSecondMove` | advent_2022/src/day_05/mod.rs:56-64 | the second move, 3 from 1 to 3, gives (empty) / M C / P D N Z |
| `SupplyStacks.ExampleThirdMove` | advent_2022/src/day_05/mod.rs:56-64 | the third move, 2 from 2 to 1, gives C M / (empty) / P D N Z |
| `SupplyStacks.ExampleFourthMove` | advent_2022/src/day_05/mod.rs:56-64 | the fourth move, 1 from 1 to 2, gives C / M / P D N Z |
| `SupplyStacks.ExampleRun` | advent_2022/src/day_05/mod.rs:75-77 | the example's plan run from the example's stacks leaves C / M / P D N Z |
| `SupplyStacks.ExampleTops` | advent_2022/src/day_05/mod.rs:79-84 | those stacks' tops, trimmed, read "CMZ", as the program's test expects (mod.rs:90-97) |
| `NoSpaceLeft.Init` | advent_2022/src/day_07/mod.rs:30-35 | the root, whose parent field is "/", is stored under the key "" |
| `NoSpaceLeft.InitIsRoot` | advent_2022/src/day_07/mod.rs:31-35 | the initial path is [""] and the root's parent field is "/" |
| `NoSpaceLeft.CdHasTarget` | advent_2022/src/day_07/mod.rs:39-40 | a line whose second word is "cd" always has a last word, so the `unwrap` never fails |
| `NoSpaceLeft.Cd` | advent_2022/src/day_07/mod.rs:41-62 | `cd` never changes the directories; it panics exactly on ".." when the popped-to path is not a key |
| `NoSpaceLeft.Pop` | advent_2022/src/day_07/mod.rs:44 | `Vec::pop` removes the last component, and leaves an empty path as it is |
| `NoSpaceLeft.StepCases` | advent_2022/src/day_07/mod.rs:37-101 | a line is a `cd`, a "dir" listing or a file listing; the last is dropped when the current directory is not a key |
| `NoSpaceLeft.LsIgnored` | advent_2022/src/day_07/mod.rs:37 | "$ ls" lines change nothing |
| `NoSpaceLeft.StepCd` | advent_2022/src/day_07/mod.rs:41-62 | `cd /` resets the path to the root, `cd name` pushes name, `cd ..` pops and takes the landed-on directory's parent field |
| `NoSpaceLeft.AddDir` | advent_2022/src/day_07/mod.rs:69-85 | "dir" files a fresh empty directory under path + "/" + name, and appends it to the current directory only when that is a key |
| `NoSpaceLeft.StepDir` | advent_2022/src/day_07/mod.rs:69-85 | the line "dir name" adds the directory `name` under the current path |
| `NoSpaceLeft.AddFile` | advent_2022/src/day_07/mod.rs:86-99 | a file is appended to the current directory's children and nothing else changes |
| `NoSpaceLeft.StepFile` | advent_2022/src/day_07/mod.rs:86-99 | the line "<n> name" adds File(n) to the current directory, or is dropped when that is not a key |
| `NoSpaceLeft.StepFileMalformed` | advent_2022/src/day_07/mod.rs:93-95 | a listing whose first word is not a `u32` panics, unless the current directory is not a key |
| `NoSpaceLeft.Terminal` | advent_2022/src/day_07/mod.rs:29-106 | the replayed transcript always keeps the root under "" and every key naming a directory |
| `NoSpaceLeft.ParseTerminal` | advent_2022/src/day_07/mod.rs:29-106 | the imperative line loop over the map, path stack and current directory computes the replay; its body is `ReplayLine`, which runs the `cd` arm (`ChangeDir`) or the listing arms (`ReplayListing`, through `MakeDir` and `PushFile`) on the loop's variables |
| `NoSpaceLeft.CdUpLandsAboveRoot` | advent_2022/src/day_07/mod.rs:42-53 | after `cd a` and `cd ..` at the root the current directory is "/", not a key, and a file listed next is dropped |
| `NoSpaceLeft.SelfChildTranscript` | advent_2022/src/day_07/mod.rs:42-85 | `cd ..` at the root then "dir " makes a directory its own child, whose size has no value |
| `NoSpaceLeft.CdUpAtRoot` | advent_2022/src/day_07/mod.rs:42-53 | `cd ..` with the path [""] empties the path and lands on the root's parent field |
| `NoSpaceLeft.DirWithEmptyName` | advent_2022/src/day_07/mod.rs:69-85 | with an empty path, "dir " files a directory under the key "/" |
| `NoSpaceLeft.FiledUnderItself` | advent_2022/src/day_07/mod.rs:69-116 | a directory filed under "/" while "/" is the current directory becomes its own child and has no size |
| `NoSpaceLeft.SizeDefined` | advent_2022/src/day_07/mod.rs:108-116 | without a directory that is its own child, every size is defined |
| `NoSpaceLeft.SelfChildEndless` | advent_2022/src/day_07/mod.rs:108-116 | a directory that is its own child has no size |
| `NoSpaceLeft.SizeExample` | advent_2022/src/day_07/mod.rs:164-181 | the program's size test tree has size 84 |
| `NoSpaceLeft.SumSmall` | advent_2022/src/day_07/mod.rs:118-133 | the sum of the sizes <= 100000 exists exactly when every size does, and is at most 100000 per directory |
| `NoSpaceLeft.SumSmallRemove` | advent_2022/src/day_07/mod.rs:118-133 | the sum does not depend on the order the map is iterated in |
| `NoSpaceLeft.SampleSizes` | advent_2022/src/day_07/mod.rs:183-197 | the example's directories have sizes 584, 94853, 24933642 and 48381165 |
| `NoSpaceLeft.SumSmallOfFour` | advent_2022/src/day_07/mod.rs:118-133 | the sum over four distinct directories adds their sizes <= 100000 |
| `NoSpaceLeft.SampleOne` | advent_2022/src/day_07/mod.rs:183-189 | part one on the example's directories gives 95437 |
| `NoSpaceLeft.Two` | advent_2022/src/day_07/mod.rs:135-158 | with the root between 40000000 and 70000000, an answer exists exactly when every size is defined; it is the size of some directory, at least 30000000 - (70000000 - root size), and no larger than any directory size that frees enough |
| `NoSpaceLeft.SampleTwo` | advent_2022/src/day_07/mod.rs:191-197 | part two on the example's directories needs 8381165 and gives 24933642 |
| `TreetopTreeHouse.HeightFrom` | advent_2022/src/day_08/mod.rs:8-16 | exactly the decimal digits are heights, each its own value; anything else panics |
| `TreetopTreeHouse.IsVisible` | advent_2022/src/day_08/mod.rs:35-73 | the four running-maximum scans answer true exactly when, in some direction, every tree up to the edge is strictly shorter |
| `TreetopTreeHouse.RowCount` | advent_2022/src/day_08/mod.rs:31-74 | each interior tree of a row counts at most once |
| `TreetopTreeHouse.InteriorCount` | advent_2022/src/day_08/mod.rs:25-76 | at most one count per interior tree |
| `TreetopTreeHouse.One` | advent_2022/src/day_08/mod.rs:19-79 | it answers exactly when there are at least 2 rows and, when there is an interior row, at least 2 columns (otherwise `rows - 2` or `cols - 2` underflows); the count is then 2·(rows+cols) − 4 plus the visible interior trees |
| `TreetopTreeHouse.TwoSingleTrees` | advent_2022/src/day_08/mod.rs:21-29 | a grid of two one-tree rows is answered, with 2 visible trees |
| `TreetopTreeHouse.EdgeVisible` | advent_2022/src/day_08/mod.rs:23 | every edge tree is visible |
| `TreetopTreeHouse.EdgeCountIsBorder` | advent_2022/src/day_08/mod.rs:23 | 2·(rows+cols) − 4 is the number of trees on the border |
| `TreetopTreeHouse.OneBounds` | advent_2022/src/day_08/mod.rs:78 | the count lies between the edge count and rows·cols |
| `TreetopTreeHouse.FlatHidden` | advent_2022/src/day_08/mod.rs:35-73 | in a grid of equal heights no interior tree is visible |
| `TreetopTreeHouse.SampleRowOne` | advent_2022/src/day_08/mod.rs:31-74 | the example's row 1 has 2 visible interior trees |
| `TreetopTreeHouse.SampleRowTwo` | advent_2022/src/day_08/mod.rs:31-74 | the example's row 2 has 2 visible interior trees |
| `TreetopTreeHouse.SampleRowThree` | advent_2022/src/day_08/mod.rs:31-74 | the example's row 3 has 1 visible interior tree |
| `TreetopTreeHouse.SampleOne` | advent_2022/src/day_08/mod.rs:85-91 | the example grid gives 21 |
| `RopeBridge.Add` | advent_2022/src/day_09/mod.rs:14-20 | addition is componentwise |
| `RopeBridge.Sub` | advent_2022/src/day_09/mod.rs:22-28 | subtraction undoes addition |
| `RopeBridge.DirectionOf` | advent_2022/src/day_09/mod.rs:31-35 | exactly L, R, U and D are directions, each a unit step |
| `RopeBridge.Follow` | advent_2022/src/day_09/mod.rs:50-73 | a touching tail stays; otherwise it moves by the signs of the distance; either way each coordinate changes by at most 1 |
| `RopeBridge.FollowCloses` | advent_2022/src/day_09/mod.rs:56-72 | a tail that does not touch gets one step closer to the head |
| `RopeBridge.FollowTouches` | advent_2022/src/day_09/mod.rs:50-73 | a tail within 2 of the head on each axis touches it after following |
| `RopeBridge.FollowExample` | advent_2022/src/day_09/mod.rs:161-167 | follow((5,1), (3,0)) = (4,1) |
| `RopeBridge.Pull` | advent_2022/src/day_09/mod.rs:123-132 | the first knot follows the head |
| `RopeBridge.PullFollows` | advent_2022/src/day_09/mod.rs:126-128 | knot i follows knot i−1 as already moved |
| `RopeBridge.One` | advent_2022/src/day_09/mod.rs:75-100 | the count is the number of distinct tail positions, the origin included |
| `RopeBridge.Two` | advent_2022/src/day_09/mod.rs:102-139 | the count is the number of distinct positions of the ninth knot, the origin included |
| `RopeBridge.PullTaut` | advent_2022/src/day_09/mod.rs:120-135 | when the head moves by at most one per axis, pulling keeps every knot touching its leader |
| `RopeBridge.FinalTaut` | advent_2022/src/day_09/mod.rs:90-97 | every unit step keeps the rope taut |
| `RopeBridge.AlwaysTaut` | advent_2022/src/day_09/mod.rs:84-138 | after any motions in the letter directions, every knot touches its leader |
| `RopeBridge.VisitedBound` | advent_2022/src/day_09/mod.rs:84-99 | the visited set holds the origin and at most one new position per step |
| `HillClimbing.ParseChar` | advent_2022/src/day_12/mod.rs:10-28 | 'S' is the start at 'a''s height 1, 'E' the end at 'z''s height 26, others code − 96, and a code below 96 panics |
| `HillClimbing.ParseMap` | advent_2022/src/day_12/mod.rs:30-52 | the nested insert loop computes the cell-by-cell terrain |
| `HillClimbing.TerrainHolds` | advent_2022/src/day_12/mod.rs:30-52 | the map parses exactly when every character does; then every character, and nothing else, is keyed by (col,row) with its height, and the start (end) is the last 'S' ('E') in reading order, or the origin |
| `HillSearch.Neighbors` | advent_2022/src/day_12/mod.rs:54-66 | four cells, each adjacent to the current one |
| `HillSearch.NeighborsAdjacent` | advent_2022/src/day_12/mod.rs:59-66 | the neighbours are exactly the orthogonally adjacent cells |
| `HillSearch.PathOf` | advent_2022/src/day_12/mod.rs:82-96 | following recorded parents from a cell climbs to the target in exactly its recorded distance |
| `HillSearch.Record` | advent_2022/src/day_12/mod.rs:88-96 | recording a neighbour one farther than an expanded cell it can step onto keeps every distance backed by a parent |
| `HillSearch.SearchEnds` | advent_2022/src/day_12/mod.rs:76-100 | when the queue empties, the target is at 0, every distance is the length of a real climb, and the recorded cells are closed under allowed steps |
| `HillSearch.Complete` | advent_2022/src/day_12/mod.rs:84-96 | every cell that can climb to the target is recorded |
| `HillClimbing.ExpandNeighbor` | advent_2022/src/day_12/mod.rs:84-96 | recording one on-map, unexpanded neighbour that can step onto the current cell, and passing over any other, keeps the search invariant for the neighbours seen so far and leaves every expanded cell's distance as it was; it panics only when the current cell is off the map |
| `HillClimbing.Expand` | advent_2022/src/day_12/mod.rs:82-97 | after all four neighbours the search invariant holds: every recorded distance is backed by a chain of allowed steps to the target, and every expanded cell has its steppable neighbours recorded, and every already expanded cell keeps its distance; it panics only when the current cell is off the map |
| `HillClimbing.Bfs` | advent_2022/src/day_12/mod.rs:68-101 | the target gets distance 0, every recorded distance is the length of a real climb to the target, and the recorded cells are closed under allowed steps; a cell's distance never changes after it is expanded; it panics only when the target is off the map |
| `HillClimbing.One` | advent_2022/src/day_12/mod.rs:104-110 | a result is the length of a real climb from start to end; when the end is on the map, a start that can climb to it always gets one |
| `HillClimbing.Lowest` | advent_2022/src/day_12/mod.rs:119-129 | the least distance over the height-1 cells, unreached ones counted as `u32::MAX`; none when there is no such cell |
| `HillClimbing.Two` | advent_2022/src/day_12/mod.rs:114-130 | the answer is the distance of some height-1 cell, at most that of every other, over sound and complete distances; there is an answer whenever the map parses, the end is on it and some cell has height 1 |

## Left out

- The interactive day selector, timing and printing of `advent_2022/src/main.rs` are I/O.
- `read_file`, `load_terrain` and the `Solution` plumbing are not part of this model. Every solver starts from text that is already loaded. Day 8 starts from a grid of heights (`TreetopTreeHouse.HeightFrom` gives the per-character rule).
- Day 16 is `todo!()` apart from a regular-expression parser over an external crate. Days 3, 6, 10, 11, 14 and 15, and day 1 part two, are `todo!()` too, so there is nothing to model.
- Day 9 `parse_line` uses an external parser-combinator crate. Only its letter-to-direction rule is modelled (`RopeBridge.DirectionOf`). `RopeBridge.One` and `RopeBridge.Two` take the parsed motions.
- `LOWERCASE_OFFSET` is defined in day 3, which is not part of this model. It is the constant 96, the value that makes 'a' height 1 as day 12 `two` assumes.
- Integer width: the sums of day 1, day 2, day 7 (`size`, `one`) and day 8 are unbounded here, and so are the `isize` positions and motion counts of day 9 and the `u32` heights and distances and `isize` coordinates of day 12. The program's `u32`/`usize`/`isize` overflow is not modelled. The day 8 underflows `rows - 2` and `cols - 2` are a panic (`None`), as under debug-build overflow checks. The day 7 underflows `MAX_SPACE - root_size` and `REQUIRED_SPACE - available_space` are a precondition (`NoSpaceLeft.RootFits`).
- TreetopTreeHouse.One: requires that no row is narrower than the first. On a ragged grid, whether the program panics depends on which of the early-returning scans answers first for each tree, and that is not modelled.
- HashMap and HashSet iteration order: every consumer takes a sum, minimum, maximum or count. Day 7 `one` and `two` are ghost functions over the set of keys, and `NoSpaceLeft.SumSmallRemove` proves that the order does not matter.
- The `Rc`/`RefCell` sharing of day 7 is an arena with positions. A directory that is its own child (a reference cycle, where the program overflows its stack) has no size (`None`).
- HillClimbing.Bfs: proves that distances are sound (each one is the length of a real climb) and that the search is complete (every cell that can climb to the end is recorded). It does not prove that each distance is the shortest. The program overwrites the distance of a cell that is already queued, and exactness rests on the grid's parity.
- HillClimbing.One: states the soundness and completeness of the result but not that it is the shortest climb, for the same reason.
- HillClimbing.Two: states the minimum over the recorded distances but not that they are shortest, for the same reason.
- The examples of day 1 (24000), day 9 (13, 1 and 36) and day 12 (31 and 29) are not stated. Evaluating the model on those literal inputs is beyond what the verifier handles at this size.
- The day 5 example is stated in pieces: the drawing's rows and label line (`SupplyStacks.ExampleColumns`, `SupplyStacks.ExampleCount`), the move lines (`SupplyStacks.ExamplePlanParse`) and the run (`SupplyStacks.ExampleRun`). The whole input text is not evaluated in one piece.
- The day 7 examples are stated on the directories the example transcript builds (`NoSpaceLeft.SampleFs`). The transcript is not replayed from its text. The per-line rules it relies on are proved generically (`NoSpaceLeft.StepCd`, `NoSpaceLeft.StepDir`, `NoSpaceLeft.StepFile`).

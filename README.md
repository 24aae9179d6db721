# Advent of Code 2022, days 1 to 15, in Dafny

This project models the fifteen puzzle solvers of the Rust crate
`albmar/advent-of-code` (`src/days/day1.rs` … `src/days/day15.rs`). Each solver
reads its puzzle input (`parse`) and computes two answers (`part1`, `part2`). Each
day has its own module, `Day01` … `Day15`, in `day01.dfy` … `day15.dfy`. Three
modules stand in for the library code the solvers call:

- `Wrappers`: `Option`.
- `Text`: splitting strings at a separator, at most `n` times, or once; lines and
  words; trimming whitespace; decimal parsing of unsigned and signed numbers with
  a bound for the integer type; printing numbers.
- `Sorting`: a descending sort standing for `sort_unstable` followed by `reverse`.

The model keeps the source's form:

- Solvers written as loops over mutable state are methods with loop invariants.
  - They are proved against specification functions, and the properties are
    proved about those functions.
  - Day 5 crates, day 7 directory sizes, day 9 rope, day 10 CPU, day 11 troop,
    day 12 search, day 14 cave.
  - The crane yard of day 5 and the troop of day 11 are classes whose methods
    update their field in place. The cave of day 14 is a two-dimensional array.
- Solvers written as iterator chains are functions: days 2, 3, 4, 8, 15, and the
  parts of days 1, 6, 13 that are not loops.
- Input the source would panic on (an `unwrap` of `None`, a slice out of range,
  an index past the end) gives `None`. The model handles it explicitly rather
  than excluding it by a precondition. There are two exceptions. Day 11's round
  methods and `Day11.Part1` require `Valid`, that is, positive divisors and
  existing targets. Day 8's answers require a grid whose trees carry in-range
  coordinates, which ragged input breaks (see "Left out" for both).

## Model

| member | source | states |
|---|---|---|
| Day01.Parse | src/days/day1.rs:17-35 | the calories are the numbers of the lines that parse as `u32`, in order; the elf ends are, for each blank line, how many numbers precede it, followed by the number of all numbers |
| Day01.CountsAddUp | src/days/day1.rs:18-30 | blank and non-blank lines add up to all lines, and one end is recorded per blank line |
| Day01.WellFormedBoundaries | src/days/day1.rs:17-35 | when every non-blank line is a `u32`, the ends never decrease and never pass the number of calories, so every slice of the parts is in range |
| Day01.ValidEndsGroupSums | src/days/day1.rs:37-48 | with such ends there is one group total per elf and no slice fails |
| Day01.ElfTotals | src/days/day1.rs:38-45 | the loop that moves the start `i` to each end in turn sums exactly the consecutive slices, and fails exactly where a slice is out of range |
| Day01.Part1 | src/days/day1.rs:37-48 | an answer exists exactly when all slices are in range and there is an elf; it is one of the totals and no total is larger |
| Day01.Part2 | src/days/day1.rs:50-64 | an answer exists exactly when all slices are in range and there are at least three elves; it is the sum of the first three totals in descending order |
| Day01.TopThreeCoversMaximum | src/days/day1.rs:61-63 | the first of the descending totals is the largest total, part one's answer, and the three added are at least that |
| Day01.SampleTotals | src/days/day1.rs:71-92 | the example's five groups total 6000, 4000, 11000, 24000 and 10000 |
| Day01.SampleSorted | src/days/day1.rs:94-115 | sorted from largest to smallest these are 24000, 11000, 10000, 6000 and 4000, so the top three make 45000 |
| Sorting.SortDesc | src/days/day1.rs:61-62 | the result is sorted from largest to smallest and is a permutation of the input |
| Sorting.SortedDescUnique | src/days/day1.rs:61-62 | two descending permutations of the same values are equal, so the sort's result does not depend on how it is computed |
| Day02.ParseChoiceAccepts | src/days/day2.rs:12-23 | exactly the six one-letter codes `A`-`C` and `X`-`Z` parse, and the letters name the choices in discriminant order |
| Day02.Combine | src/days/day2.rs:25-27 | `a + 3 * b` is below 9 |
| Day02.CombineInjective | src/days/day2.rs:25-27 | the combined value determines both choices, so matching on it tells the pairs apart |
| Day02.ScoreMeaning | src/days/day2.rs:29-49 | a round scores the own choice's value plus one, plus 6 for a win and 3 for a draw under the game's rule, so from 1 to 9; a win is a difference of one modulo three |
| Day02.LineChoices | src/days/day2.rs:58 | a line yields at most two choices |
| Day02.ValidChoices | src/days/day2.rs:58 | `filter_map`: every kept choice comes from a piece that parses, every piece that parses gives its choice, and no more choices than pieces |
| Day02.ValidChoicesAppend | src/days/day2.rs:58 | filtering a concatenation is the concatenation of the filtered parts, so the choices keep the pieces' order |
| Day02.ValidChoicesOne | src/days/day2.rs:58 | one piece gives its choice when it parses and nothing when it does not |
| Day02.Pairs | src/days/day2.rs:59 | `array_chunks::<2>` pairs consecutive choices and drops an odd last one |
| Day02.Part1 | src/days/day2.rs:63-65 | the total lies between one and nine points per round |
| Day02.TotalBounds | src/days/day2.rs:63-65 | the same bound, proved by induction over the rounds |
| Day02.SamplePart1 | src/days/day2.rs:76-86 | the example's three rounds score 15 |
| Day02.SampleLine | src/days/day2.rs:55-61 | the line `A Y` reads as the pair Rock, Paper |
| Day02.ParseChoice | src/days/day2.rs:12-23 | `try_from`: `A`/`X` is rock, `B`/`Y` paper, `C`/`Z` scissors, anything else the error; `ParseChoiceAccepts` proves these are the only accepted tokens |
| Day02.Score | src/days/day2.rs:29-49 | `score`: the second choice's value plus the outcome found by matching `combine` against the winning and drawn pairs; `ScoreMeaning` proves it is the game's win/draw/loss rule |
| Day02.Parse | src/days/day2.rs:55-61 | `parse`: the lines' valid tokens, at most two per line, paired two by two; `ValidChoices`, `ValidChoicesAppend` and `ValidChoicesOne` state which tokens are kept and in what order, `Pairs` the pairing and the dropped odd choice |
| Day03.PriorityBijection | src/days/day3.rs:5-12 | lower-case letters get 1 to 26 and upper-case letters 27 to 52, and priority and letter are inverse to each other |
| Day03.LetterOf | src/days/day3.rs:5-12 | the letter for a priority from 1 to 52 is a lower-case or an upper-case letter |
| Day03.FirstCommon | src/days/day3.rs:26-30 | the first character of the first string found in the second: none exactly when no character is shared, otherwise shared and preceded by no shared one |
| Day03.FirstCommon3 | src/days/day3.rs:40-46 | the same for a character found in both other strings |
| Day03.RucksackPriority | src/days/day3.rs:24-32 | a rucksack has an answer exactly when some item of the first half (before `len / 2`) also occurs in the second half |
| Day03.Part1 | src/days/day3.rs:22-34 | the sum exists exactly when every rucksack has a common item, where the source's `unwrap` would otherwise panic |
| Day03.GroupShift | src/days/day3.rs:37-38 | group `g` of the lines is group `g - 1` once the first three lines are dropped |
| Day03.Part2 | src/days/day3.rs:36-49 | the sum over complete groups of three lines exists exactly when every group has a badge |
| Day03.SamplePriorities | src/days/day3.rs:56-62 | `a` scores 1, `z` 26, `A` 27 and `Z` 52, and the example's shared items score as the puzzle says |
| Day03.Priority | src/days/day3.rs:5-12 | `get_priority`: the code point shifted to 1-26 for lower case and 27-52 otherwise; `PriorityBijection` proves it a bijection on letters |
| Day03.Parse | src/days/day3.rs:18-20 | `parse`: the input split at every newline |
| Day03.BadgePriority | src/days/day3.rs:36-50 | one group's badge: the priority of the first item of the first line that the other two hold, none when there is none (`FirstCommon3`) |
| Day04.LineNumbers | src/days/day4.rs:14-17 | a line gives at most four numbers, each below 256 |
| Day04.ParseAll | src/days/day4.rs:16 | every piece parses as a `u8`, in order, or there is no result, where the `unwrap` panics |
| Day04.ToRanges | src/days/day4.rs:18-19 | consecutive numbers `a`, `b` become the range `a..=b`, an odd last number dropped |
| Day04.ContainmentIsInclusion | src/days/day4.rs:25-28 | for non-empty ranges the endpoint test of part one means that one range is a subset of the other |
| Day04.OverlapIsCommonSection | src/days/day4.rs:34-39 | for non-empty ranges the endpoint test of part two means that the ranges share a section |
| Day04.FiltersSymmetric | src/days/day4.rs:25-39 | both tests are symmetric in the two ranges, and containment implies overlap |
| Day04.Part1 | src/days/day4.rs:23-30 | the count of pairs where one range holds the other is at most the number of pairs and at most part two's count |
| Day04.Part2 | src/days/day4.rs:32-41 | the count of overlapping pairs is at most the number of pairs |
| Day04.CountsOrdered | src/days/day4.rs:23-41 | the same two bounds, proved by induction over the pairs |
| Day04.SampleAnswers | src/days/day4.rs:48-76 | the example's six pairs give 2 and 4 |
| Day04.Parse | src/days/day4.rs:11-21 | `parse`: every number of every line as `u8`, paired into inclusive ranges; `ParseAll` and `ToRanges` state each step |
| Seqs.Reverse | src/days/day5.rs:43 | `rev()`: the result has the same length and holds the input back to front; the same helper serves the `rev()` of `src/days/day8.rs:48` and the reversed path of `src/days/day12.rs:142-157` |
| Day05.Moved | src/days/day5.rs:39-53 | a move keeps the number of stacks and leaves every stack other than its two unchanged |
| Day05.MovedStacks | src/days/day5.rs:39-53 | the source stack loses its top `count` containers and the target gains them on top, reversed for the first crane and in order for the second; with equal stacks the block goes back on the shortened stack |
| Day05.MovePreservesTotal | src/days/day5.rs:39-53 | a move neither creates nor destroys containers |
| Day05.SingleMoveSameForBothCranes | src/days/day5.rs:39-53 | moving at most one container gives the same stacks with both cranes |
| Day05.Port.Execute | src/days/day5.rs:39-45 | `execute` drains the top `count` containers and pushes them last first: the new stacks are the first crane's move of the old ones |
| Day05.Port.Execute9001 | src/days/day5.rs:47-53 | `execute_9001` moves the block keeping its order: the new stacks are the second crane's move of the old ones |
| Day05.RunPreservesTotal | src/days/day5.rs:114-118 | a run of moves that all succeed keeps the number of stacks and the number of containers |
| Day05.Tops | src/days/day5.rs:119-123 | the top marks exist exactly when no stack is empty, and then there is one per stack, the last container of that stack |
| Day05.Run | src/days/day5.rs:114-138 | executing the moves one by one on the port fails exactly when some move cannot be carried out; otherwise the port holds the stacks after all moves and the answer is their top marks |
| Day05.Part1 | src/days/day5.rs:114-125 | the answer is the top marks after all moves with the first crane, and none where a move panics |
| Day05.Part2 | src/days/day5.rs:127-138 | the answer is the top marks after all moves with the CrateMover 9001, and none where a move panics |
| Day05.Cells | src/days/day5.rs:75-84 | after the separators are dropped, each chunk of three characters gives one cell: a container with the middle character's mark, or none when it is a space |
| Day05.Visited | src/days/day5.rs:88 | the fold skips the last `stack_count` cells, and nothing when there are fewer cells |
| Day05.BuildStacks | src/days/day5.rs:88-98 | the fold yields `stack_count` stacks, stack `j` holding the containers of the cells with index `i % stack_count == j`, from the lowest drawn row up |
| Day05.ParseMove | src/days/day5.rs:100-109 | a move line gives a count below 256 and 0-based stack numbers below 255; stack 0 or a number too large for `u8` gives none |
| Day05.ParseDigitsU8 | src/days/day5.rs:105-107 | a digit group parses to a value below 256 |
| Day05.ParseMoves | src/days/day5.rs:100-110 | every move line parses, giving one move per line, or there is no result |
| Day05.StacksFrom | src/days/day5.rs:87-98 | the stacks exist exactly when the last cell names a positive number of stacks, and then each stack holds its column of the drawing |
| Day05.Parse | src/days/day5.rs:66-112 | a result exists exactly when the input splits at its first blank line into a drawing that names a positive number of stacks and move lines that all parse; the result is those stacks and moves |
| Day05.SampleMove1 | src/days/day5.rs:146-179 | the example's first move puts `D` on the first stack, with both cranes |
| Day05.SampleMove2 | src/days/day5.rs:146-179 | the second move empties the first stack onto the third: `PDNZ` with the first crane, `PZND` with the second |
| Day05.SampleMove3 | src/days/day5.rs:146-179 | the third move moves two containers of the second stack onto the empty first one |
| Day05.SampleMove4 | src/days/day5.rs:146-179 | the fourth move moves one container back to the second stack |
| Day05.SampleFirstCrane | src/days/day5.rs:146-161 | the example's four moves with the first crane end with stacks `C`, `M`, `PDNZ` |
| Day05.SampleSecondCrane | src/days/day5.rs:164-179 | with the CrateMover 9001 they end with stacks `M`, `C`, `PZND` |
| Day05.SampleTops | src/days/day5.rs:146-179 | those stacks read `CMZ` and `MCD` |
| Day05.SampleStacks | src/days/day5.rs:146-161 | the example drawing's twelve cells name three stacks holding `ZN`, `MCD` and `P` |
| Day06.Elements | src/days/day6.rs:18-19 | the set collected from a window holds exactly the window's characters |
| Day06.DistinctSnoc | src/days/day6.rs:19-20 | a window with one more character has no repeats exactly when the shorter one has none and does not hold the new character |
| Day06.DistinctIffFullSet | src/days/day6.rs:18-20 | the collected set is never larger than the window, and it is as large as the window exactly when no character repeats |
| Day06.CollectSet | src/days/day6.rs:18-19 | clearing the set and adding the window's characters one by one gives the window's set |
| Day06.IsMarker | src/days/day6.rs:17-21 | the skip test fails exactly when the window ending at `i + n` holds `n` different characters |
| Day06.FirstMarker | src/days/day6.rs:15-24 | the answer is the end of the first window of `n` different characters, and there is none exactly when no window is a marker |
| Day06.Part1 | src/days/day6.rs:13-25 | the answer is the first position after four different characters, none exactly when there is no such run |
| Day06.Part2 | src/days/day6.rs:27-39 | the answer is the first position after fourteen different characters, none exactly when there is no such run |
| Day06.FirstMarkerUnique | src/days/day6.rs:15-24 | there is only one first marker |
| Day06.SamplePart1 | src/days/day6.rs:49-50 | in `mjqjpqmgbljsphdztnvjfqwrcgsmlb` the first marker of four ends at 7 |
| Day06.Parse | src/days/day6.rs:9-11 | `parse`: the input without surrounding whitespace |
| Day07.ParseLines | src/days/day7.rs:143-148 | every token kept from the lines has word names, and its entry is a directory exactly when it has no size, which is below the `usize` bound |
| Day07.Parse | src/days/day7.rs:143-148 | the same for the tokens of the whole input |
| Day07.WordsAreWords | src/days/day7.rs:17 | `split_whitespace` yields non-empty pieces without whitespace |
| Day07.FromStrOk | src/days/day7.rs:16-34 | a token that `from_str` produces is well formed |
| Day07.FromStrRender | src/days/day7.rs:16-34 | every well-formed token is read back from the terminal line that shows it |
| Day07.CdLine | src/days/day7.rs:18-23 | `$ cd X` reads as `Cd(X)` |
| Day07.LsLine | src/days/day7.rs:18-24 | `$ ls` reads as `Ls` |
| Day07.DirLine | src/days/day7.rs:28-32 | `dir X` reads as a directory entry named `X` without a size |
| Day07.FileLine | src/days/day7.rs:28-32 | `N X` reads as a file named `X` of size `N` |
| Day07.UnknownCommand | src/days/day7.rs:25 | a command other than `cd` and `ls` is an error naming it, which `parse`'s `flat_map` drops |
| Day07.ListingLine | src/days/day7.rs:28-32 | a listing line is a file exactly when its first word parses as a `usize` |
| Day07.WordsCons | src/days/day7.rs:17 | splitting a word, a space and more text gives the word followed by the words of the rest |
| Day07.DecimalIsWord | src/days/day7.rs:29 | a number printed in decimal is a word that parses back to the number |
| Day07.CwdStr | src/days/day7.rs:88-94 | the current path begins and ends with `/` |
| Day07.CwdStrAppend | src/days/day7.rs:88-94 | each directory entered adds its name and a `/` to the current path |
| Day07.EnterAndLeave | src/days/day7.rs:74-103 | entering a directory makes the current path that directory's key from `absolute_path`, and `..` undoes the step |
| Day07.CwdSample | src/days/day7.rs:219-230 | the file-system test's session: `/`, the key `/a/`, then `/a/` and `/` again |
| Day07.Lookup | src/days/day7.rs:62 | a key is found exactly when some entry has it, and then the entry found is that key's |
| Day07.Put | src/days/day7.rs:101-107 | `insert` keeps every other entry and keeps the keys distinct |
| Day07.PutLookup | src/days/day7.rs:101-107 | after an insert the key maps to the new information and every other key to what it mapped to before |
| Day07.Bump | src/days/day7.rs:119-126 | the range end is the directory key with its last `/` raised to `0` |
| Day07.RangeIsPrefix | src/days/day7.rs:127-129 | the keys in the range from a directory key to its raised key are exactly the keys that start with the directory key |
| Day07.RangeTotalIsPrefixTotal | src/days/day7.rs:127-132 | the sum over that range is the total size of the files below the directory |
| Day07.SameFilesRange | src/days/day7.rs:127-134 | changing only directory sizes leaves every range sum unchanged, so the order of the updates does not matter |
| Day07.Sized | src/days/day7.rs:110-136 | after the sizes are calculated the keys, kinds and files are unchanged and every directory has a size, the total of the files in its range |
| Day07.DirSizeIsFilesBelow | src/days/day7.rs:110-136 | each directory's calculated size is the total of the files whose keys it prefixes |
| Day07.Initial | src/days/day7.rs:67-72 | a new file system holds only the root directory and is consistent |
| Day07.PutConsistent | src/days/day7.rs:100-108 | writing an absolute key below the root, ending in `/` for a directory, keeps the entries consistent |
| Day07.StepConsistent | src/days/day7.rs:153-168 | each token of the fold keeps the file system consistent |
| Day07.BuildConsistent | src/days/day7.rs:151-169 | so does the whole fold over well-formed tokens |
| Day07.FileSystem.constructor | src/days/day7.rs:67-72 | the new file system is the initial state |
| Day07.FileSystem.ChangeDir | src/days/day7.rs:74-86 | `/` returns to the root, `..` leaves the current directory, any other name enters it; the entries are unchanged |
| Day07.FileSystem.AddDir | src/days/day7.rs:100-103 | the entry for the directory's absolute key, with a trailing `/`, is a new directory |
| Day07.FileSystem.AddFile | src/days/day7.rs:105-108 | the entry for the file's key under the current path is the file |
| Day07.FileSystem.RangeSize | src/days/day7.rs:127-132 | the loop adds exactly the sizes of the files in the key range |
| Day07.FileSystem.CalculateSizes | src/days/day7.rs:110-136 | the entries become their sized form and the current directory is unchanged |
| Day07.FileSystem.Apply | src/days/day7.rs:153-168 | one token updates the state as the fold's closure does |
| Day07.Session | src/days/day7.rs:151-170 | the fold over the tokens followed by `calculate_sizes` gives the sized entries of a consistent file system |
| Day07.SmallSuffix | src/days/day7.rs:171-176 | the sum over the sized entries equals the same sum taken over the files below each directory |
| Day07.Part1Meaning | src/days/day7.rs:171-176 | part one adds, over all directories, the total of the files below each one that is at most 100000 |
| Day07.SmallestAtLeast | src/days/day7.rs:204-210 | the minimum is the size of a directory, at least `required` and no larger than any such directory; none exactly when every directory is smaller |
| Day07.RootHoldsAll | src/days/day7.rs:202 | every key is absolute, so the root's files are all files |
| Day07.RootSize | src/days/day7.rs:199-202 | after the sizes are calculated the root is a directory whose size is the total of all files |
| Day07.Part2Fails | src/days/day7.rs:200-210 | part two fails exactly when the files exceed the 70000000 disk or leave more than the 30000000 needed free, where a `usize` subtraction underflows |
| Day07.Part2Meaning | src/days/day7.rs:200-210 | otherwise its answer is the smallest total of the files below a directory that frees enough space |
| Day07.Part1 | src/days/day7.rs:150-177 | the answer is the sum of the small directory sizes of the consistent file system the tokens build |
| Day07.Part2 | src/days/day7.rs:179-211 | the answer is the smallest large-enough directory of that file system, or none where the source panics |
| Day07.FromStr | src/days/day7.rs:16-36 | `Token::from_str`: a `$` line is `cd X`, `ls` or the not-a-command error; any other line is a listing; a missing word is the `unwrap` panic; `FromStrOk` and `FromStrRender` state its results and inverse |
| Day07.AbsolutePath | src/days/day7.rs:96-98 | `absolute_path`: the cwd string, the name and a trailing `/`; `EnterAndLeave` relates it to `cd` |
| Day07.Step | src/days/day7.rs:153-166 | one token of the parse fold: `cd` moves, `ls` keeps the state, a listing adds a directory or a file; `StepConsistent` proves it keeps the file system consistent |
| Day07.Build | src/days/day7.rs:151-167 | the fold over all tokens; `BuildConsistent` proves it consistent |
| Day08.MakeTree | src/days/day8.rs:87-95 | a tree is made exactly from a digit; its coordinates are truncated to `u8` and its height is below 10 |
| Day08.RowTrees | src/days/day8.rs:107 | a line gives one tree per character, each made from its character and position |
| Day08.Chunk | src/days/day8.rs:104-110 | `from_vec` cuts the trees into rows of the given width |
| Day08.ChunkOfRows | src/days/day8.rs:104-110 | cutting the concatenation of rows of that width gives the rows back |
| Day08.DigitRows | src/days/day8.rs:105-108 | lines of digits give one row of trees per line |
| Day08.FlatRows | src/days/day8.rs:105-108 | the `flat_map` over lines of digits is the concatenation of their rows |
| Day08.RowOfDigits | src/days/day8.rs:107 | a line of digits always gives its row |
| Day08.ParseWellFormed | src/days/day8.rs:101-111 | a rectangular input of digits at most 256 wide and high parses to a grid whose rows are the lines, each tree carrying its own position and its digit's height |
| Day08.Column | src/days/day8.rs:30-37 | `iter_col` yields the trees of one column from top to bottom |
| Day08.VisibleMeaning | src/days/day8.rs:15-38 | border trees are visible, and a tree is visible exactly when it is on the border or every tree between it and the edge in some direction is lower |
| Day08.LowerRun | src/days/day8.rs:49 | `take_while` keeps the longest front run of lower trees and stops at the first tree at least as tall |
| Day08.ViewDistance | src/days/day8.rs:45-82 | the intended distance counts the lower trees and the first tree that blocks, so it is at least 1 when the view is not empty |
| Day08.Product | src/days/day8.rs:83 | the score is zero exactly when one direction is zero |
| Day08.ViewLengths | src/days/day8.rs:45-82 | each view reaches the edge, so its length is the distance to that edge |
| Day08.ScenicBounds | src/days/day8.rs:40-84 | each intended distance is at most the distance to its edge, and a tree scores 0 exactly when it is on the border |
| Day08.AsWrittenAgreesUnlessBlocked | src/days/day8.rs:40-84 | each direction as written scores the intended distance, except that it scores 0 when the adjacent tree blocks the view |
| Day08.AgreesLeft | src/days/day8.rs:45-54 | the same for the view to the left |
| Day08.AgreesRight | src/days/day8.rs:55-63 | the same for the view to the right |
| Day08.AgreesUp | src/days/day8.rs:64-73 | the same for the view upwards |
| Day08.AgreesDown | src/days/day8.rs:74-82 | the same for the view downwards |
| Day08.Part1 | src/days/day8.rs:113-115 | the number of visible trees is at most the number of trees |
| Day08.CountRows | src/days/day8.rs:114 | the count over the first rows is at most their number of trees |
| Day08.CountInRow | src/days/day8.rs:114 | the count over a row is at most its width |
| Day08.Max | src/days/day8.rs:120 | `max` is one of the values and no value is larger |
| Day08.TableMax | src/days/day8.rs:118-121 | the maximum of a table is one of its entries and no entry is larger |
| Day08.Scores | src/days/day8.rs:118-119 | there is one score per tree, row by row |
| Day08.ScoresAt | src/days/day8.rs:118-119 | the table's entry at a place is the score of the tree there |
| Day08.Best | src/days/day8.rs:117-122 | the answer is the score of some tree and no tree scores more; the grid is never empty, so `unwrap` never fails |
| Day08.ScoresMax | src/days/day8.rs:118-121 | the maximum of the score table is a tree's score and no tree scores more |
| Day08.BestIsTableMax | src/days/day8.rs:117-122 | part two is the maximum of the table of scores |
| Day08.BorderScoresZero | src/days/day8.rs:40-84 | a border tree scores 0 as written and as intended |
| Day08.BlockedOnAllSides | src/days/day8.rs:40-84 | an interior tree whose four neighbours are at least as tall scores 1 as intended but 0 as written |
| Day08.PitCounterexample | src/days/day8.rs:40-84 | on the grid `999/919/999` part two answers 0 as written and 1 as intended |
| Day08.PitIntended | src/days/day8.rs:117-122 | on that grid the intended answer is 1 |
| Day08.PitAsWritten | src/days/day8.rs:117-122 | on that grid the source answers 0 |
| Day08.PitScores | src/days/day8.rs:40-84 | on that grid only the centre scores, 1, as intended, and every tree scores 0 as written |
| Day08.PitExists | src/days/day8.rs:101-111 | such a grid exists, with each tree at its own position |
| Day08.IsVisible | src/days/day8.rs:15-38 | `is_visible`: on the border, or only lower trees in one of the four directions; `VisibleMeaning` proves both directions of that reading |
| Day08.ScenicAsWritten | src/days/day8.rs:40-84 | `scenic_score` as written: the product of the four `map_or` values; `AsWrittenAgreesUnlessBlocked` relates it to the intended score |
| Day08.Scenic | src/days/day8.rs:40-84 | the intended scenic score, the product of the four viewing distances that count the blocking tree; `ScenicBounds` bounds it |
| Day08.Part2AsWritten | src/days/day8.rs:117-122 | `part2` as written: the largest as-written score; `PitAsWritten` gives 0 on the pit grid |
| Day08.Part2 | src/days/day8.rs:117-122 | the intended part two: the largest intended score; `BestIsTableMax` and `PitIntended` state its value |
| Day09.ParseDirection | src/days/day9.rs:17-29 | exactly the letters `R`, `U`, `L` and `D` name a direction |
| Day09.Vector | src/days/day9.rs:37-46 | a motion's vector lies along one axis and its length is the motion's amount |
| Day09.ParseLines | src/days/day9.rs:52-61 | at most one motion per line, the lines without a space being skipped |
| Day09.TouchingIffNear | src/days/day9.rs:77-78 | the test `diff.dot(&diff) > 2` holds exactly when the knots no longer touch |
| Day09.Step1KeepsTouching | src/days/day9.rs:74-82 | after each step of part one the tail touches the head, and jumping to the head's previous cell is the same as part two's clamped pull |
| Day09.Run1Touching | src/days/day9.rs:68-83 | after any steps the tail touches the head and its cell has been recorded |
| Day09.TailVisited | src/days/day9.rs:63-85 | every cell the tail occupies after some prefix of the steps is in the visited set |
| Day09.VisitedWasTail | src/days/day9.rs:63-85 | every cell in the visited set is where the tail stood after some prefix of the steps |
| Day09.Visited1Meaning | src/days/day9.rs:63-85 | the visited set holds the origin and is exactly the set of cells the tail occupies at some point |
| Day09.TailStep | src/days/day9.rs:74-82 | one unit step moves head and tail by part one's rule and inserts the tail's cell |
| Day09.Run1Snoc | src/days/day9.rs:68-83 | one more step updates the position and adds the new tail cell to the visited set |
| Day09.Part1 | src/days/day9.rs:63-85 | the answer is the number of different cells the tail visits over all unit steps of the motions |
| Day09.FollowFrom | src/days/day9.rs:99-107 | pulling the knots from one index on keeps the rope's length |
| Day09.FollowFromUnfold | src/days/day9.rs:99-107 | pulling from knot `i` is pulling knot `i + 1` and then the ones after it |
| Day09.Step2 | src/days/day9.rs:97-108 | part two's step keeps the ten knots |
| Day09.Run2 | src/days/day9.rs:88-109 | the rope always has ten knots |
| Day09.PullAfterKingMove | src/days/day9.rs:100-102 | a knot that touched its leader before the leader moved by at most one cell per axis touches it again after the pull, having moved at most one cell per axis |
| Day09.FollowFromKeepsTouching | src/days/day9.rs:99-107 | after the pulls every knot touches the one ahead |
| Day09.Run2Touching | src/days/day9.rs:91-109 | after any steps every knot touches the one ahead, and the last knot's cell has been recorded |
| Day09.StepRope | src/days/day9.rs:97-108 | one unit step pulls knots one to nine in turn and inserts the last knot's cell exactly when it moves |
| Day09.Run2Snoc | src/days/day9.rs:91-109 | one more step updates the rope and adds the last knot's new cell to the visited set |
| Day09.StepAfter | src/days/day9.rs:97-108 | a unit step brings rope and visited set to their values after one more step |
| Day09.Motion2 | src/days/day9.rs:92-108 | a motion brings rope and visited set to their values after `amount` more steps, none for a negative amount |
| Day09.Part2 | src/days/day9.rs:87-111 | the answer is the number of different cells the last knot visits over all unit steps |
| Day09.LastVisited | src/days/day9.rs:87-111 | every cell the last knot occupies after some prefix of the steps is in the visited set |
| Day09.VisitedWasLast | src/days/day9.rs:87-111 | every cell in the visited set is where the last knot stood after some prefix of the steps |
| Day09.Visited2Meaning | src/days/day9.rs:87-111 | the visited set holds the origin and is exactly the set of cells the last knot occupies at some point |
| Day09.Parse | src/days/day9.rs:52-61 | `parse`: each line with a space as a direction and `i32` amount, none where `unwrap` panics; `ParseLines` bounds the count |
| Day09.Steps | src/days/day9.rs:68-74 | the unit steps of the motions in order, a negative amount giving none |
| Day09.Step1 | src/days/day9.rs:74-82 | part one's step: the head moves, and a tail no longer touching it jumps to the head's previous cell; `Step1KeepsTouching` proves the tail touches afterwards |
| Day09.Visited1 | src/days/day9.rs:63-85 | every cell the tail occupies during part one; `Visited1Meaning` proves the set is exactly these |
| Day09.Pull | src/days/day9.rs:99-105 | part two's knot rule: a knot no longer touching its leader moves by the clamped difference; `PullAfterKingMove` proves it then touches |
| Day09.Visited2 | src/days/day9.rs:87-110 | every cell the last knot occupies during part two; `Visited2Meaning` proves the set is exactly these |
| Day10.ParseLine | src/days/day10.rs:26-35 | `noop` is a one-cycle instruction adding nothing; any other line that parses is a two-cycle instruction adding the `i32` after its first space |
| Day10.AddxParses | src/days/day10.rs:29-34 | `addx N` with an `i32` argument is a two-cycle instruction adding `N` |
| Day10.ParseLines | src/days/day10.rs:23-37 | every line parses, one instruction per line, or there is no result |
| Day10.Finished | src/days/day10.rs:49-55 | the number of instructions finished before a cycle is at most the number run |
| Day10.FoldMeaning | src/days/day10.rs:46-57 | after any prefix of short instructions the next checkpoint lies beyond the elapsed cycles, and every checkpoint 20, 60, … reached is recorded once, in order, with the register's value during that cycle |
| Day10.SignalSumIsCheckpointSum | src/days/day10.rs:58-60 | summing checkpoint times register over such records is the sum over the first checkpoints |
| Day10.StrengthMeaning | src/days/day10.rs:39-61 | the answer is the weighted sum over exactly the checkpoints the program reaches |
| Day10.Part1 | src/days/day10.rs:39-61 | the loop computes the fold's answer, which for short instructions is that checkpoint sum |
| Day10.SmallProgram | src/days/day10.rs:39-61 | `noop`, `addx 3`, `addx -5` runs five cycles, ends with register -1, holds 4 during cycle 4 and reaches no checkpoint |
| Day10.FirstCheckpoint | src/days/day10.rs:49-53 | twenty instructions adding one each reach cycle 20 with register 20, a strength of 400 |
| Day10.EndOfUnitSteps | src/days/day10.rs:49-55 | `k` one-cycle instructions adding one take `k` cycles and leave the register at `k + 1` |
| Day10.Parse | src/days/day10.rs:23-37 | `parse`: `noop` is one cycle, any other line two cycles with the `i32` after its space; `ParseLines` states each line's command |
| Day10.Fold | src/days/day10.rs:47-57 | the fold's next checkpoint and recorded states after `k` commands; `FoldMeaning` proves what it records |
| Day11.Operand | src/days/day11.rs:20-27 | `old` stands for the worry level and a number for itself |
| Day11.Execute | src/days/day11.rs:18-33 | the new worry level is the sum or the product of the two operands |
| Day11.Target | src/days/day11.rs:77-85 | an item goes to the true case exactly when its worry level is divisible by the test's number (when the two cases differ), and always to one of the two |
| Day11.ParseExp | src/days/day11.rs:41-50 | exactly `old` is the old value; any other text is a number that parses as a `u32` |
| Day11.ParseOp | src/days/day11.rs:58-68 | `+` is addition, `*` multiplication and anything else an error |
| Day11.ExpRoundTrip | src/days/day11.rs:41-50 | a printed operand is read back |
| Day11.OpRoundTrip | src/days/day11.rs:58-68 | a printed operator is read back |
| Day11.StripPrefix | src/days/day11.rs:118-122 | a line has a remainder exactly when it starts with the prefix, and prefix plus remainder is the line |
| Day11.Attributes | src/days/day11.rs:112-125 | the `filter_map` keeps at most one attribute per line |
| Day11.ParseNumbers | src/days/day11.rs:128-131 | the starting items are the pieces parsed as `u32`, in order, or there is no result |
| Day11.ParseBlock | src/days/day11.rs:111-148 | a block gives at most one monkey |
| Day11.ParseBlocks | src/days/day11.rs:108-151 | every parsed monkey starts with no item inspected, and there are no more monkeys than blocks |
| Day11.Throws | src/days/day11.rs:90-95 | a turn throws each item the monkey holds once |
| Day11.ThrowsAt | src/days/day11.rs:90-95 | item `k` is thrown with its worry level after the operation and the division by 3, to the monkey its test names |
| Day11.ThrowsTargets | src/days/day11.rs:94-100 | with usable rules every throw goes to an existing monkey |
| Day11.Give | src/days/day11.rs:100 | a throw changes no monkey's operation or test |
| Day11.GiveAt | src/days/day11.rs:100 | `push_back` adds the item at the back of the target's queue only and changes no count |
| Day11.Deliver | src/days/day11.rs:98-100 | delivering the throws changes no monkey's operation or test |
| Day11.DeliverAt | src/days/day11.rs:98-100 | each queue grows by exactly the items thrown to it, in the order thrown, and no count changes |
| Day11.Turn | src/days/day11.rs:89-100 | a turn keeps every operation and test, so the rules stay usable |
| Day11.Cleared | src/days/day11.rs:96-97 | counting and clearing the thrower keeps the rules, and its throws reach existing monkeys |
| Day11.Turns | src/days/day11.rs:88-101 | the turns of a round keep the number of monkeys and usable rules |
| Day11.TurnsUnfold | src/days/day11.rs:88 | the turns run in index order |
| Day11.Round | src/days/day11.rs:87-102 | a round keeps the number of monkeys and usable rules |
| Day11.Rounds | src/days/day11.rs:155 | so do any number of rounds |
| Day11.RoundsKeepRules | src/days/day11.rs:155 | rounds change queues and counts only: every monkey keeps its operation and test |
| Day11.TurnsKeepRules | src/days/day11.rs:88-101 | the same for the turns of a round |
| Day11.TurnPreservesTotal | src/days/day11.rs:89-100 | a turn moves items between queues and neither creates nor loses any |
| Day11.TurnsPreserveTotal | src/days/day11.rs:88-101 | so do the turns of a round |
| Day11.TurnsStepTotal | src/days/day11.rs:88-101 | each further turn keeps the number of items |
| Day11.RoundPreservesTotal | src/days/day11.rs:87-102 | a round preserves the number of items in play |
| Day11.DeliverTotal | src/days/day11.rs:98-100 | delivering adds one item per throw |
| Day11.TurnQueues | src/days/day11.rs:89-100 | in a turn every other queue grows by exactly the items thrown to it, in order, and the thrower keeps only what it throws to itself |
| Day11.TurnInspected | src/days/day11.rs:96 | a turn adds the thrower's number of items to its count and leaves the other counts alone |
| Day11.TurnsStep | src/days/day11.rs:88-101 | turn `n - 1` of a round adds what monkey `n - 1` holds then to its own count and leaves the other counts |
| Day11.TurnsInspected | src/days/day11.rs:88-101 | counts only grow during a round |
| Day11.TurnsLeaveLater | src/days/day11.rs:88-101 | the counts of monkeys yet to move do not change |
| Day11.RoundInspectedGrows | src/days/day11.rs:87-102 | a round never lowers a monkey's count |
| Day11.Inspected | src/days/day11.rs:156 | one count per monkey, in order |
| Day11.TopTwoMeaning | src/days/day11.rs:156-162 | the product's factors are the largest count and the largest of the rest once one copy of it is removed |
| Day11.SecondLargest | src/days/day11.rs:157-158 | the second entry of the descending permutation is the largest of the rest |
| Day11.Troop.constructor | src/days/day11.rs:154 | the troop holds the parsed monkeys |
| Day11.Troop.ThrowAll | src/days/day11.rs:98-100 | appending each throw in turn gives the delivered troop |
| Day11.Troop.TakeTurn | src/days/day11.rs:89-100 | inspecting, clearing and throwing gives the troop after monkey `i`'s turn |
| Day11.Troop.PlayRound | src/days/day11.rs:87-102 | `round` in place gives the troop after one round |
| Day11.Troop.PlayRounds | src/days/day11.rs:155 | `n` rounds in place give the troop after `n` rounds |
| Day11.Part1 | src/days/day11.rs:153-163 | the answer is the product of the two highest counts after twenty rounds, none where fewer than two monkeys make the slice panic |
| Day11.Parse | src/days/day11.rs:108-151 | `parse`: the input split at blank lines, each block parsed on its own; `ParseBlock` proves at most one monkey per block and `ParseBlocks` that every monkey starts with no item inspected |
| Day11.TopTwoProduct | src/days/day11.rs:156-162 | the two largest counts multiplied, none for fewer than two; `TopTwoMeaning` proves the factors are the largest and the largest of the rest |
| Day12.HeightValue | src/days/day12.rs:176-184 | `S` is as low as `a`, `E` as high as `z`, and every other character counts up from `a` |
| Day12.LetterHeights | src/days/day12.rs:176-184 | the letters climb from 0 to 25 in alphabetical order, and the start and end have the heights of `a` and `z` |
| Day12.DescendIsClimbBack | src/days/day12.rs:241-243 | part two's height test, `src/days/day12.rs:264-266`, allows a step exactly when part one's allows the step back |
| Day12.OffsetsAreAdjacent | src/days/day12.rs:113-122 | the four offsets give exactly the cells one axis step away |
| Day12.KeepHas | src/days/day12.rs:123-124 | the filters keep exactly the candidates on the map that pass the height test |
| Day12.NeighboursMeaning | src/days/day12.rs:110-125 | the neighbours are exactly the cells one axis step away that lie on the map and may be stepped to |
| Day12.HeuristicMeaning | src/days/day12.rs:138-140 | the estimate is zero exactly at the end and changes by one with each step |
| Day12.WalkBackwards | src/days/day12.rs:259-266 | read backwards, a walk of part two is a walk of part one, and the other way round |
| Day12.ReachableBack | src/days/day12.rs:259-266 | whatever climbs from one cell to another can be walked back down |
| Day12.Cost | src/days/day12.rs:134-136 | a pushed state costs more than the state it was pushed from |
| Day12.PopsFirstTotal | src/days/day12.rs:34-40 | the heap's field-by-field order compares any two states |
| Day12.PopsFirstTrans | src/days/day12.rs:34-40 | and it is transitive |
| Day12.MinExists | src/days/day12.rs:86-89 | a non-empty frontier has a state that pops first, so `pop().unwrap()` succeeds |
| Day12.ArenaLinked | src/days/day12.rs:94-106 | every parent link of the states created leads to an earlier state |
| Day12.Chain | src/days/day12.rs:142-156 | following the parent links from a state ends in that state |
| Day12.ChainFrom | src/days/day12.rs:142-156 | every state on the chain to a state was created no later than it |
| Day12.ChainOk | src/days/day12.rs:142-156 | the chain to any state created is a walk from the start state through states whose costs count the steps, never visiting a cell twice |
| Day12.PathSnoc | src/days/day12.rs:97-105 | a path extended by a state pushed from its last one, at an unvisited cell, is still such a path |
| Day12.Solution | src/days/day12.rs:142-156 | pushing the state and each parent in turn, then reversing, gives the chain from the start |
| Day12.WalkStaysIn | src/days/day12.rs:94-106 | in a set of cells closed under every allowed step, every walk from a cell in it stays in it |
| Day12.Exhausted | src/days/day12.rs:86-88 | when the frontier runs dry every pushed state has been expanded, so no goal can be reached from the start |
| Day12.AllClosed | src/days/day12.rs:86-88 | then every visited cell is closed |
| Day12.ShortestPath | src/days/day12.rs:80-108 | a returned path is a walk from the start whose last cell is a goal, never visiting a cell twice; none only when no goal can be reached |
| Day12.Expand | src/days/day12.rs:94-106 | expanding a popped state that is not a goal keeps the search's invariant, and either visits a new cell or only removes that state from the frontier, so the loop ends |
| Day12.Push | src/days/day12.rs:97-105 | `visited.insert` of a neighbour, with a new state pushed only when the cell was new, keeps the invariant of the expansion |
| Day12.PushKeeps | src/days/day12.rs:97-105 | the state pushed for a new neighbour keeps that invariant |
| Day12.PushShrinks | src/days/day12.rs:97 | a newly visited cell shrinks the set of unvisited cells |
| Day12.PushState | src/days/day12.rs:97-105 | pushing an unvisited neighbour keeps the created states sound and their cells the visited set |
| Day12.PushClosed | src/days/day12.rs:94-106 | a closed cell stays closed as more cells are visited |
| Day12.Chunks | src/days/day12.rs:215-218 | `from_vec` cuts the cells into rows of the width whose concatenation is the cells |
| Day12.ChunksOfLines | src/days/day12.rs:211-218 | when every line is as long as the first the rows are the lines |
| Day12.Find | src/days/day12.rs:219-228 | the cell found is the first holding the character, row by row; none when no cell holds it |
| Day12.Parse | src/days/day12.rs:210-236 | a parsed map is rectangular, with `S` at the start and `E` at the end |
| Day12.ParseLines | src/days/day12.rs:210-218 | a map whose lines are all as long as the first is parsed line for line |
| Day12.Part1 | src/days/day12.rs:238-257 | the answer is the number of steps of some climbing walk from `S` to `E`; none, where the source panics, only when `E` cannot be reached |
| Day12.Part2 | src/days/day12.rs:259-280 | the answer is the number of steps of some climbing walk from a lowest cell to `E`; none only when no lowest cell can climb to `E` |
| Day12.Height | src/days/day12.rs:127-132 | `height`: the cell's height value, `S` as `a` and `E` as `z`; `HeightValue` states the values |
| Day12.ValidStep | src/days/day12.rs:238-266 | the `valid_height` closures: part one climbs at most one, part two descends at most one; `DescendIsClimbBack` relates the two |
| Day12.Goal | src/days/day12.rs:238-266 | the `goal` closures: part one stops at `E`, part two at any lowest cell |
| Day12.Neighbours | src/days/day12.rs:110-125 | `get_neighbours`: the four axis offsets, kept when on the map and a valid step; `NeighboursMeaning` proves exactly these are kept |
| Day12.Heuristic | src/days/day12.rs:138-140 | `heuristic`: the Manhattan distance to the end; `HeuristicMeaning` proves it zero only at the end and changing by one per step |
| Day13.CmpNat | src/days/day13.rs:74 | integers compare as `Less`, `Equal` or `Greater` exactly when they are smaller, equal or larger |
| Day13.Size | src/days/day13.rs:16-20 | every packet has at least one constructor |
| Day13.SizeOf | src/days/day13.rs:16-20 | the first element of a list is smaller than the list |
| Day13.Items | src/days/day13.rs:84-101 | an integer stands for the list holding only it, and a list for its items |
| Day13.CmpAsLists | src/days/day13.rs:71-104 | every comparison is the list comparison of the operands seen as lists, so an integer against a list compares one element against the list's first and then the lengths |
| Day13.CmpFlip | src/days/day13.rs:71-104 | swapping the operands reverses the result |
| Day13.CmpListFlip | src/days/day13.rs:75-83 | the same for lists |
| Day13.CmpRefl | src/days/day13.rs:71-104 | every packet is `Equal` to itself |
| Day13.CmpListRefl | src/days/day13.rs:75-83 | every list is `Equal` to itself |
| Day13.CmpTrans | src/days/day13.rs:71-104 | the order is transitive, and `Equal` only when both steps are |
| Day13.CmpListTrans | src/days/day13.rs:75-83 | the same for lists |
| Day13.LessTrans | src/days/day13.rs:71-104 | `Less` followed by anything not `Greater` is `Less` |
| Day13.EqIffCmpEqual | src/days/day13.rs:54-63 | the hand-written equality holds exactly when `cmp` returns `Equal`, so `Eq` and `Ord` agree |
| Day13.EqListIffCmpEqual | src/days/day13.rs:58 | the same for lists |
| Day13.Compare | src/days/day13.rs:71-104 | the loop over the zipped lists returning the first comparison that is not `Equal`, and the length comparison after it, computes the order |
| Day13.Format | src/days/day13.rs:22-40 | an integer prints as digits and a list starts with `[` |
| Day13.Commas | src/days/day13.rs:32-35 | every later element is written after a comma |
| Day13.Write | src/days/day13.rs:22-40 | the loop writing the first element and then each further element after a comma prints the packet |
| Day13.CommasStep | src/days/day13.rs:32-35 | each iteration writes a comma and the element |
| Day13.ParsePacket | src/days/day13.rs:106-120 | a parsed packet holds only `u8` numbers and consumes input |
| Day13.ParseSeq | src/days/day13.rs:108 | `separated_list0` parses only `u8` packets and consumes no more than the input |
| Day13.ParseTail | src/days/day13.rs:108 | the same for the comma-led elements |
| Day13.PacketRoundTrip | src/days/day13.rs:22-40 | parsing a printed packet with `u8` numbers gives it back, with the rest of the input untouched (`src/days/day13.rs:106-120`) |
| Day13.JoinRoundTrip | src/days/day13.rs:106-111 | parsing printed elements before a `]` gives them back |
| Day13.CommasRoundTrip | src/days/day13.rs:106-111 | the same for the comma-led elements |
| Day13.CommasHead | src/days/day13.rs:108 | one parsed element followed by the rest of the list gives the list |
| Day13.CommasDelimited | src/days/day13.rs:108 | printed elements before a `]` never run into a following number |
| Day13.CommasSplit | src/days/day13.rs:32-35 | a non-empty comma part starts with the comma and then the first element |
| Day13.TailStep | src/days/day13.rs:108 | one comma-led element parsed, then the rest of the list |
| Day13.ParsePair | src/days/day13.rs:122-124 | a pair holds two `u8`-only packets and consumes input |
| Day13.Parse | src/days/day13.rs:126-136 | a parse gives at least one pair |
| Day13.Blanks | src/days/day13.rs:126-128 | the pairs after the first are each led by a newline |
| Day13.PairRoundTrip | src/days/day13.rs:122-124 | a printed pair parses back |
| Day13.BlanksRoundTrip | src/days/day13.rs:126-128 | pairs led by blank lines parse back |
| Day13.ParseRoundTrip | src/days/day13.rs:126-136 | parsing the printed pairs, a blank line between two, gives them back |
| Day13.RightOrdered | src/days/day13.rs:139-144 | the kept indices are exactly the 1-based ones of the pairs whose left packet is `Less`, in increasing order |
| Day13.SumAppend | src/days/day13.rs:145 | the sum of joined lists is the sum of their sums |
| Day13.RightOrderedAppend | src/days/day13.rs:139-144 | the kept indices of joined pairs are those of the first part followed by those of the second, shifted |
| Day13.Part1Append | src/days/day13.rs:138-146 | a further pair adds its 1-based index to part one exactly when it is in the right order |
| Day13.Insert | src/days/day13.rs:152-156 | `insert` adds the packet once, or changes nothing, and afterwards a key `Equal` to it is present |
| Day13.InsertIncreasing | src/days/day13.rs:152-156 | inserting keeps the set strictly increasing |
| Day13.InsertNew | src/days/day13.rs:155-156 | the key is added exactly when no `Equal` key is present |
| Day13.Fill | src/days/day13.rs:149-152 | collecting into a set keeps only packets that were there or given |
| Day13.FillIncreasing | src/days/day13.rs:149-152 | the collected set is strictly increasing and holds a key for every packet given |
| Day13.FillKeeps | src/days/day13.rs:149-152 | a key present stays present |
| Day13.Flatten | src/days/day13.rs:151 | the packets are the pairs' left and right packets in order |
| Day13.Position | src/days/day13.rs:157-158 | `position` finds the first key equal to the divider, none when no key is |
| Day13.CountPrefix | src/days/day13.rs:157-158 | in a sequence whose first `k` keys are below the divider and no later one is, `k` keys are below it |
| Day13.PositionCountsBelow | src/days/day13.rs:157-158 | in a strictly increasing set holding the divider, its position is the number of keys below it |
| Day13.PacketsSorted | src/days/day13.rs:149-156 | the set is strictly increasing and holds both dividers |
| Day13.PacketsMeaning | src/days/day13.rs:149-156 | it also holds a key for every packet and keeps nothing that is in neither a pair nor the dividers |
| Day13.DividerPositions | src/days/day13.rs:157-159 | in such a set the product is of one plus the number of keys below each divider |
| Day13.Part2Meaning | src/days/day13.rs:148-160 | part two never fails and multiplies one plus the number of keys below each divider |
| Day13.KeptRepresented | src/days/day13.rs:155-156 | keys present stay present through the two insertions |
| Day13.CmpSamples | src/days/day13.rs:169-245 | the comparisons of the unit tests, among them `0` against `[]` being `Greater` |
| Day13.Cmp | src/days/day13.rs:71-104 | `Ord for Packet`: integers numerically, lists lexicographically, an integer against a list by the first element and then the lengths; `CmpFlip`, `CmpRefl`, `CmpTrans` prove it a total order |
| Day13.CmpList | src/days/day13.rs:75-83 | the list arm: the first unequal elementwise comparison, else the lengths; `CmpListFlip`, `CmpListRefl`, `CmpListTrans` prove its order laws |
| Day13.Part1 | src/days/day13.rs:138-146 | `part1`: the sum of the 1-based indices of the pairs in the right order; `RightOrdered` and `Part1Append` state which indices are summed |
| Day13.Packets | src/days/day13.rs:149-156 | every packet of every pair collected into the ordered set, then both dividers; `PacketsSorted` and `PacketsMeaning` state its contents |
| Day13.Part2 | src/days/day13.rs:148-160 | `part2`: the product of the dividers' 1-based positions; `Part2Meaning` proves it never fails and is the product of their ranks |
| Day14.ParsePoint | src/days/day14.rs:22-23 | a point is two `u16`s separated by a comma, and parsing consumes input |
| Day14.MorePoints | src/days/day14.rs:19-25 | the later points of a path, each after ` -> `, are `u16` points |
| Day14.U16Cons | src/days/day14.rs:22 | a `u16` point in front of `u16` points gives `u16` points |
| Day14.ParsePath | src/days/day14.rs:19-25 | `separated_list1` gives a path of at least one `u16` point |
| Day14.MorePaths | src/days/day14.rs:17-18 | every later path is a valid path |
| Day14.Parse | src/days/day14.rs:16-35 | a parse gives at least one path, every one valid |
| Day14.PointRoundTrip | src/days/day14.rs:22-23 | a printed point parses back, the rest untouched |
| Day14.PointUnfold | src/days/day14.rs:22 | a point is its first number, the comma and its second number |
| Day14.MoreRoundTrip | src/days/day14.rs:19-25 | the printed later points of a path parse back |
| Day14.MoreStep | src/days/day14.rs:19-25 | one more printed point in front parses back as well |
| Day14.FormatMoreCons | src/days/day14.rs:20 | a later point prints as ` -> ` and the point |
| Day14.MoreUnfold | src/days/day14.rs:19-25 | a separator and a point, then the later points |
| Day14.NotDigitAfterPoint | src/days/day14.rs:20-22 | what follows a printed point never extends its last number |
| Day14.PathRoundTrip | src/days/day14.rs:19-25 | a printed path parses back |
| Day14.LinesRoundTrip | src/days/day14.rs:17-18 | printed paths, each on a new line, parse back |
| Day14.LinesCons | src/days/day14.rs:17-18 | a later path prints as a newline and the path |
| Day14.LinesUnfold | src/days/day14.rs:17-18 | a newline and a path, then the later paths |
| Day14.ParseUnfold | src/days/day14.rs:16-27 | the first path, then the later ones |
| Day14.ParseRoundTrip | src/days/day14.rs:16-35 | parsing the printed cave gives back its paths |
| Day14.ColumnHas | src/days/day14.rs:61 | a column holds exactly its points between the bounds |
| Day14.ColumnsHas | src/days/day14.rs:60-62 | the columns hold exactly the points of the rectangle |
| Day14.RectHas | src/days/day14.rs:53-62 | the points of a segment are exactly those of the rectangle its two corners span |
| Day14.PathHas | src/days/day14.rs:51-62 | a path's points are exactly those on the rectangle of some pair of consecutive corners |
| Day14.RockPointsAreRock | src/days/day14.rs:49-63 | the generated rock points are exactly the points on some segment |
| Day14.FlattenHas | src/days/day14.rs:38 | every corner of every path is among the flattened points |
| Day14.Lo | src/days/day14.rs:38-46 | the least coordinates are at most those of the source and of every point |
| Day14.Hi | src/days/day14.rs:38-46 | the greatest coordinates are at least those of the source and of every point |
| Day14.RockInBox | src/days/day14.rs:38-69 | every rock point lies in the bounding box |
| Day14.Run | src/days/day14.rs:85-90 | the count runs exactly over the free cells below the grain and stops at the first cell that is not free |
| Day14.GridDrop | src/days/day14.rs:77-114 | a grain at rest is in a free cell with no open cell below, below and left, or below and right; it is stuck exactly when it starts on a cell that is not free |
| Day14.MarkFree | src/days/day14.rs:109-111 | marking a grain takes exactly its cell out of the free cells |
| Day14.RowMark | src/days/day14.rs:109-111 | marking a free cell of a row leaves one free cell fewer |
| Day14.MarkCount | src/days/day14.rs:109-111 | marking a free cell of the grid leaves one free cell fewer |
| Day14.GridPour | src/days/day14.rs:74-123 | every grain at rest is in a cell free at the start, and no two rest in the same cell |
| Day14.StartGrid | src/days/day14.rs:47-73 | the starting grid spans the box, each cell showing the source, rock or air |
| Day14.StartFree | src/days/day14.rs:47-73 | a free cell of that grid is the source or not rock |
| Day14.Part1NotOnRock | src/days/day14.rs:37-124 | no grain comes to rest on rock |
| Day14.ColumnRun | src/days/day14.rs:85-90 | the `take_while(..).count()` down the array column is the run of free cells |
| Day14.IsOpen | src/days/day14.rs:92-94 | `get(..).map_or(true, ..)` holds outside the grid and on air or the source |
| Day14.DropGrain | src/days/day14.rs:76-116 | the inner loop over the array ends where the grain lands |
| Day14.Fall | src/days/day14.rs:77-114 | one pass of the loop body lands the grain, or goes on from a lower cell where it ends as it would have |
| Day14.DropLeft | src/days/day14.rs:92-99 | after falling, a grain goes on from the cell down and to the left when that is open |
| Day14.DropRight | src/days/day14.rs:100-107 | else from the cell down and to the right when that is open |
| Day14.DropDown | src/days/day14.rs:108-113 | else it rests when it did not fall, or starts over from the bottom of its fall |
| Day14.DrawRock | src/days/day14.rs:64-69 | every rock point is drawn as `#` relative to the corner and every other cell stays air |
| Day14.DrawCave | src/days/day14.rs:47-73 | the new array holds the starting grid |
| Day14.PourGrains | src/days/day14.rs:74-123 | marking each grain at rest until one leaves the grid counts the grains at rest |
| Day14.PourAbyss | src/days/day14.rs:117-123 | the count stops when a grain leaves the grid |
| Day14.PourStuck | src/days/day14.rs:85-90 | a grain starting on sand makes the `count() - 1` underflow |
| Day14.PourRest | src/days/day14.rs:108-113 | a grain at rest uses up a free cell and the later grains follow it |
| Day14.PourStep | src/days/day14.rs:74-123 | where a grain rests, the cells the later grains rest in follow it |
| Day14.RocksInBox | src/days/day14.rs:38-69 | every rock point lies in the box, so every `get_mut` in the drawing succeeds |
| Day14.Part1 | src/days/day14.rs:37-124 | the answer is the number of grains at rest when the first falls out of the grid |
| Day14.FloorDrop | src/days/day14.rs:153-188 | the grain rests above the floor, within its fall's diagonal, with all three cells below taken, in a cell not taken unless it never moved |
| Day14.InTriangle | src/days/day14.rs:153-188 | a cell below the source within the diagonal is in the triangle |
| Day14.FloorPour | src/days/day14.rs:150-193 | the grains rest in different cells of the triangle, free of rock and earlier sand, and the last rests at the source |
| Day14.DistinctWithin | src/days/day14.rs:150-193 | distinct cells of a set are at most its size |
| Day14.MaxY | src/days/day14.rs:149 | the maximum row is one of the rocks' and no rock's is larger |
| Day14.RockSetEmpty | src/days/day14.rs:127-149 | the rock set is empty exactly when there are no rock points |
| Day14.RockPointsU16 | src/days/day14.rs:144 | rock lies at non-negative rows |
| Day14.Part2Bound | src/days/day14.rs:126-194 | with some rock part two succeeds, its count at most the size of the triangle below the source |
| Day14.DropOnFloor | src/days/day14.rs:153-188 | the inner loop ends where the grain rests |
| Day14.CollectRock | src/days/day14.rs:144-149 | the set holds exactly the rock points and the greatest row is their maximum |
| Day14.PourOnFloor | src/days/day14.rs:150-193 | the count is the number of grains until one rests at the source, that one included |
| Day14.FloorLast | src/days/day14.rs:191-193 | a grain resting at the source is the last one counted |
| Day14.FloorStep | src/days/day14.rs:150-193 | a grain resting below the source leaves one grain fewer to pour |
| Day14.Part2 | src/days/day14.rs:126-194 | the answer is the count of grains until the source is covered, none where there is no rock |
| Day14.RockPoints | src/days/day14.rs:49-63 | every rock point of every path in the order the iterator chain yields them; `RockPointsAreRock` proves they are exactly the points on the segments |
| Day15.Tag | src/days/day15.rs:21-27 | a matched literal is the input's prefix, followed by the rest |
| Day15.ReportPrefix | src/days/day15.rs:18-32 | one report line, sensor then closest beacon, and parsing consumes input |
| Day15.Parse | src/days/day15.rs:15-42 | `separated_list1` over newlines gives at least one report |
| Day15.SignedParses | src/days/day15.rs:21-29 | `complete::i32` reads back a printed `i32`, sign included |
| Day15.NegativeParses | src/days/day15.rs:21-29 | a minus sign and digits read back as the negative number |
| Day15.NonNegativeParses | src/days/day15.rs:21-29 | digits alone read back as the number |
| Day15.TagOf | src/days/day15.rs:21-27 | a literal in front of a text is matched and the text remains |
| Day15.PointParses | src/days/day15.rs:19-31 | a printed point reads back after its lead-in |
| Day15.ReportRoundTrip | src/days/day15.rs:18-32 | a printed report line reads back, the rest untouched |
| Day15.HeadParses | src/days/day15.rs:16-32 | the printed reports begin with the first one |
| Day15.FormatAllHead | src/days/day15.rs:16-17 | the printed reports are the first and then newline-separated lines |
| Day15.TailParses | src/days/day15.rs:16-17 | the later lines read back as the later reports |
| Day15.MoreOfHead | src/days/day15.rs:16-17 | a newline and a report line give that report and then the later ones |
| Day15.ParseRoundTrip | src/days/day15.rs:15-42 | parsing the printed reports gives them back |
| Day15.ParseOfHead | src/days/day15.rs:15-42 | a parse is the first report and then the later ones |
| Day15.MinLeft | src/days/day15.rs:49 | the least `s.x - d` is attained by some report and is at most every report's |
| Day15.MaxRight | src/days/day15.rs:50 | the greatest `s.x + d` is attained by some report and is at least every report's |
| Day15.RowEmpty | src/days/day15.rs:56 | an empty range of columns holds no counted cell |
| Day15.RowStep | src/days/day15.rs:56-64 | a range counts its first column exactly when that cell is excluded, plus the rest |
| Day15.CountRow | src/days/day15.rs:56-64 | the count is the number of columns in the range whose cell is occupied by no sensor or beacon and lies within some sensor's radius |
| Day15.Part1 | src/days/day15.rs:44-65 | empty input panics; otherwise the answer is the number of excluded cells in the row between the least and greatest reach |
| Day15.CoveredWithinReach | src/days/day15.rs:49-56 | every covered cell has its column between the least and greatest reach, so the range leaves none out |
| Day15.Part1CountsRow | src/days/day15.rs:44-65 | the answer counts every excluded cell of the row, for no excluded cell lies outside the range |
| Day15.Ring | src/days/day15.rs:83-90 | the ring's steps give four points each, all at distance `d` from the sensor |
| Day15.RingUnfold | src/days/day15.rs:83-90 | a ring is its first step's four points and then the later steps |
| Day15.StepMeaning | src/days/day15.rs:83-90 | step `x` of the intended ring gives exactly the points at distance `d` on each of the four sides at offset `x` |
| Day15.RingIsDiamond | src/days/day15.rs:83-90 | steps from `x` on give exactly the points at distance `d` whose side offset is at least `x` |
| Day15.RingHasAllAtDistance | src/days/day15.rs:79-91 | the intended ring is exactly the set of points at distance `d` from the sensor |
| Day15.RingAsWrittenMisses | src/days/day15.rs:85-88 | the ring as written leaves out a point at distance 2, where both offsets are negative |
| Day15.Candidates | src/days/day15.rs:79-91 | every candidate is just outside some sensor's radius |
| Day15.LastFree | src/days/day15.rs:92-98 | the chosen candidate is free and no later candidate is; there is none exactly when no candidate is free |
| Day15.Search | src/days/day15.rs:67-100 | the answer is the tuning frequency of a free candidate, and `unwrap` panics exactly when no candidate is free |
| Day15.FreeNextToCoveredIsCandidate | src/days/day15.rs:79-100 | a free cell next to a covered cell is among the intended candidates, so the intended part two finds an answer |
| Day15.CandidatesContain | src/days/day15.rs:79-91 | every point just outside some sensor's radius is an intended candidate |
| Day15.FrequencyDecodes | src/days/day15.rs:99 | the frequency gives back both coordinates when `y` is below 4000000 |
| Day15.CornerCandidates | src/days/day15.rs:79-91 | for one sensor at (4000001, 4000001) with its beacon below, these are the source's eight candidates |
| Day15.CornerCounterexample | src/days/day15.rs:67-100 | on that input part two panics as written, while the intended rings find an answer |
| Day15.CornerNoneAsWritten | src/days/day15.rs:92-97 | on that input none of the source's candidates is free |
| Day15.Radius | src/days/day15.rs:45-48 | a sensor's radius, the Manhattan distance to its closest beacon |
| Day15.Part2 | src/days/day15.rs:67-100 | `part2` with the intended rings; `FreeNextToCoveredIsCandidate` proves it finds a free cell next to a covered one |
| Day15.Part2AsWritten | src/days/day15.rs:67-100 | `part2` as written; `CornerCounterexample` proves it fails on input where the intended one succeeds |

## Left out

- `main.rs`, `lib.rs` and the `Solver` trait: reading input files, timing, choosing a day and printing answers are I/O.
- The library code the solvers call (`nom`, `regex`, `grid`, `nalgebra`, `std`'s iterators and collections) is modelled only as far as the solvers use it. The `grid` crate's `Grid` is a sequence of rows or a two-dimensional array. `HashSet` is a `set`. `BTreeMap` is an association list with unique keys. `BinaryHeap` is a sequence from which a minimal element is chosen.
- Panics are modelled as `None`. The model does not distinguish a panic from an answer of `None` where the source returns `Option`.
- Integer widths: numbers are unbounded `int`/`nat`. Parsing enforces the `u32`, `i32`, `u16` or `u8` range where the source's parser does. Overflow of `u32`, `i16`, `i32` or `usize` arithmetic after parsing is not modelled, except two `usize` underflows the answers depend on: the free-space subtraction of day 7 part two (`Day07.Part2Fails`) and the `count() - 1` of day 14 part one (`Day14.PourStuck`).
- The second parts of days 2, 10 and 11 are stubs in the source (`0` or `todo!`) and are not modelled.
- Display impls, `print_grid`, `print_sets` and `dbg!` only print.
- Carriage returns: lines end at `'\n'` only. A `'\r'` stays in the line, except where the source trims whitespace.
- Text is modelled as ASCII, so the model is exact for ASCII input only. `Text.IsWhitespace` accepts the six ASCII whitespace characters, where Rust's `trim` and `split_whitespace` use Unicode White_Space. Lengths are counted in characters, where Rust counts bytes: the `split_at(len() / 2)` of day 3, the grid width `line.len()` of day 12 and the key bump `to.len() - 1` of day 7. On other input these differ, or the source panics at a split inside a character.
- Samples: the source's test inputs of days 1 to 7 and 13 are worked through as lemmas, some only in part. Those of days 8 to 12, 14 and 15 are not, day 10's 146-command program among them.
- Day05.Parse: the `move` regex is searched anywhere in a line in the source; the model accepts exactly the line form `move N from N to N`.
- Day07: the sizes of directories are computed over the association list; the `BTreeMap` range query is the interval of keys between a directory's path and its successor, shown equal to "has this path as prefix".
- Day09.Part1, Day09.Part2: the knots follow `Touching`, a linear test proved equivalent to the source's squared-distance test (`TouchingIffNear`). A motion with a negative count moves nothing.
- Day10.FoldMeaning: the lemmas about what the fold records assume every command takes at most 40 cycles (`ShortCommands`), which the two commands `noop` and `addx` always meet.
- Day11: each monkey keeps its operation and test beside its items. The round methods require `Valid`: every divisor positive and every target a monkey. The source would divide by zero or index out of range instead.
- Day11.Part1: requires `Valid` for the same reason.
- Day12: search details.
  - The goal and height-step closures are a `Mode` (climbing for part 1, descending for part 2).
  - The `Rc` parent links are indices into an arena of visited nodes.
  - Costs are natural numbers instead of `f32`; the start's infinite estimate is the top value `Infinite`.
  - The heap pops some element that is minimal by the derived order on cost and then estimate. The further tie-break on position and parent is not modelled.
  - The start and end cells are found by a row-by-row search rather than from the flat index.
  - The cosmetic uppercasing of the path is not modelled.
- Day12.ShortestPath: the path found is proved to be a valid climb from the start to a goal, and a `None` is proved to mean no goal is reachable. That the path is shortest is deliberately not proved, because the proof would need a frontier invariant over every cost level, which would be a second large development. Under the modelled order the lowest cost pops first and every step costs one, so the search is breadth-first and its path would be shortest.
- Day12.Part1: for the same reason, the step count is that of a valid climb from `S` to `E`, not proved to be the least.
- Day12.Part2: likewise, the step count is that of a valid descent from `E` to a lowest cell, not proved to be the least.
- Day14.Part1: the body of the grain loop is the method `Fall`, called once per pass.
- Day15.Part1, Day15.Part2: the row (10 or 2000000) and the bound (20 or 4000000) are parameters rather than chosen by looking at the first sensor's `x`.
- Day08.ParseWellFormed: requires at most 256 rows and columns, because the source stores coordinates as `u8`.
- Day08.Part1, Day08.Best, Day08.Part2, Day08.Part2AsWritten: require `Rect` and `InRange`, so they do not cover ragged input that `Parse` accepts. For `12\n3\n4`, `from_vec` with the first line's width gives the rows `[T(0,0,1), T(1,0,2)]` and `[T(0,1,3), T(0,2,4)]`, and the tree `4` keeps y=2 in a two-row grid. On such a grid the source's `part1` still answers, because `is_visible` returns early on `x == 0` or `x == cols - 1` before it looks up the row, and its `part2` panics in `iter_row`. The model gives no answer for either part there. `ParseWellFormed` states when `Parse` produces a grid that meets the precondition. The helpers `Day08.CountRows`, `Day08.CountInRow`, `Day08.Scores` and `Day08.ScoresAt` have the same precondition.

## Findings

| source | as written | input that shows it | evidently intended | confidence | as-written member | corrected member |
|---|---|---|---|---|---|---|
| src/days/day8.rs:40-84 | a direction whose adjacent tree is at least as tall scores 0, because the `take_while` is empty and `map_or(0, ..)` drops the `+ 1` for the blocking tree | the grid `999/919/999`: the centre tree scores 0 and part two answers 0 | the blocking tree is seen, so the direction scores 1 and part two answers 1 | not executed | Day08.PitCounterexample, Day08.AsWrittenAgreesUnlessBlocked, Day08.PitAsWritten | Day08.ScenicBounds, Day08.BlockedOnAllSides, Day08.PitIntended |
| src/days/day15.rs:85-88 | the fourth point of each ring step is `(-(d - x), x)`, which repeats a side; no point with both offsets negative is generated | one sensor at x=4000001, y=4000001 with its beacon at x=4000001, y=4000002, bound 4000000: the free cell (4000000, 4000000) lies next to a covered cell, but no candidate is free and `unwrap` panics. Under the puzzle's premise that exactly one cell of the square is free, the miss is narrower: a covered neighbour above the free cell puts it on a ring below that sensor, and a covered neighbour to its left puts it on a ring to that sensor's right, and both of those arms are generated, so only a free cell at (0, 0) can be missed | the fourth point is `(-(d - x), -x)`, so the ring is the whole diamond and the free cell is found | not executed | Day15.RingAsWrittenMisses, Day15.CornerNoneAsWritten, Day15.CornerCounterexample | Day15.RingHasAllAtDistance, Day15.CandidatesContain, Day15.FreeNextToCoveredIsCandidate |

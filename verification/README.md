# bitris-commands, modelled in Dafny

`bitris-commands` answers perfect-clear questions for a falling-block game
built on the `bitris` game library. Given a board and a pattern of piece
orders, it works out:

- whether a perfect clear (an empty board) can be reached from each order
  (`pc_possible`, in three generations of executors);
- which fraction of the orders succeed (the `pc_rate` command);
- every set of placed pieces that perfect-clears the board (`all_pcs`).

Its parts, and the module that models each:

- **Patterns** (`Patterns`, `PatternElements`, `HoldExpandedPatterns`).
  A pattern is a list of elements: a fixed shape, a wildcard, a permutation
  of a bag, or a factorial. It expands into shape sequences and shape
  counters.
- **Matchers** (`PatternShapeMatchers`, `HoldExpandedPatternShapeMatchers`).
  They feed shapes one at a time and say whether the sequence fits the
  pattern. The second one does this for a player who may hold one piece.
- **Order cursors and hold inference** (`ShapeOrders`, `ShapeSequences`,
  `FuzzyShapeOrders`). A cursor draws pieces from an order with or without
  the hold. The inference walk recovers every input order that could have
  produced a found sequence.
- **The search** (`PcSearches`, `VerticalParities`, `BoardValidation`,
  `Buffers`).
  - It is a depth-first search over the moves the game library offers.
  - Two cuts prune it: a wall check, which asks that the free cells between
    full columns come in fours, and a vertical-parity count of the free
    cells on even and odd columns.
- **Drivers** (`PcPossibleDrivers`, the `PcPossible*` executor modules,
  `PcResultTables`, `PcRates`). They run the search for every sequence of a
  pattern and record the verdicts.
- **The all-PCs pipeline** (`PredefinedPieces`, `AllPcsBuilders`,
  `AllPcsNodes`, `AllPcsVisits`, `AllPcsAggregators`, `AllPcsBulk*`,
  `AllPcs*Executors`).
  - It enumerates the placements of pieces per row band.
  - It links them into a DAG of index and item nodes, column by column.
  - It walks the DAG, checking for each set of pieces that a stacking order
    exists and that the shapes fit the pattern.

The game library's move generation, collision and line clearing are outside
the crate. They enter the model as parameters, and only the facts the model
needs of them are stated.

## Model

| member | source | states |
|---|---|---|
| Shapes.Ordinal | src/shape_counter.rs:69-75 | `shape as usize` indexes the seven slots: each shape has an ordinal below 7, and `FromOrdinal` inverts it |
| Shapes.FromOrdinal | src/shape_counter.rs:56-65 | the shape of an in-range ordinal, whose ordinal is that number |
| Shapes.AllShapesOnceEach | src/shape_counter.rs:56-65 | `Shape::all_into_iter` lists every shape exactly once, in ordinal order |
| Shapes.Pow7 | src/bit_shapes.rs:70-82 | `7^n`, the number of sequences of `n` shapes, is positive |
| ShapeCounters.Empty | src/shape_counter.rs:26-28 | every count of `empty` is zero and so is its total |
| ShapeCounters.OneOfEach | src/shape_counter.rs:38-40 | every count of `one_of_each` is one and its total is seven |
| ShapeCounters.OneOfEachIsAllShapes | src/shape_counter.rs:30-36 | the doc example: `one_of_each` equals the counter of `T, I, O, L, J, S, Z` |
| ShapeCounters.Of | src/shape_counter.rs:69-75 | the counter of a vector holds, for every shape, the number of times it occurs in the vector |
| ShapeCounters.FromShapes | src/shape_counter.rs:69-75 | the counting loop yields `Of(shapes)`, given that no `u8` slot overflows |
| ShapeCounters.TotalSizeOf | src/shape_counter.rs:43-47 | `total_size` of the counter of a vector is the vector's length |
| ShapeCounters.IncTotal | src/shape_counter.rs:43-47 | one more shape makes `total_size` one larger |
| ShapeCounters.OfSnoc | src/shape_counter.rs:69-75 | appending a shape bumps that shape's slot and no other |
| ShapeCounters.Extensional | src/shape_counter.rs:81-83 | counters that agree on every `index` are equal |
| ShapeCounters.ToPairs | src/shape_counter.rs:56-65 | the loop returns the pairs of every shape with a non-zero count, with that count, in ordinal order, and their counts add up to `total_size` |
| ShapeCounters.PairsUpToCounts | src/shape_counter.rs:56-65 | every pair collected has a non-zero count equal to the shape's count |
| ShapeCounters.PairsUpToSorted | src/shape_counter.rs:56-65 | the pairs are in strictly increasing ordinal order |
| ShapeCounters.PairsUpToComplete | src/shape_counter.rs:56-65 | a shape is collected exactly when its count is non-zero |
| ShapeCounters.PairsUpToTotal | src/shape_counter.rs:43-65 | the collected counts add up to the counts looked at |
| ShapeCounters.ContainsAllOf | src/pattern.rs:363 | `contains_all` on the counters of two vectors is multiset inclusion |
| ShapeCounters.OfEqual | src/pattern.rs:371 | the counters of two vectors are equal exactly when the vectors are permutations of each other |
| ShapeCounters.ContainsAllSameSize | src/pattern.rs:363-371 | a counter that holds another of the same total is equal to it |
| ShapeCounters.ContainsAllInc | src/pattern_shape_matcher.rs:139-185 | one more `t` still fits inside a counter exactly when some `t` is left over |
| ShapeCounters.Add | src/pattern.rs:260-289 | slot-wise sum, whose total is the sum of the totals |
| ShapeCounters.Sub | src/pattern_shape_matcher.rs:139-185 | slot-wise difference of a counter that fits inside the other, whose total is the difference |
| ShapeCounters.MergeByMax | src/all_pcs/executor_from_counters.rs:68-71 | the slot-wise maximum holds both counters |
| ShapeCounters.AddOf | src/pattern.rs:260-289 | `+` on the counters of two vectors is the counter of their concatenation |
| ShapeCounters.RepeatShape | src/pattern.rs:50-51 | `repeat_n(shape, count)` is `count` copies of the shape |
| ShapeCounters.FlattenOf | src/pattern.rs:48-59 | writing a counter out with `to_pairs` and `repeat_n` loses nothing: its counter is the counter again |
| ShapeCounters.ChoicesMembers | src/pattern.rs:98-106 | the picks of `pop` items from the slots are exactly the slot-wise bounded vectors summing to `pop` |
| ShapeCounters.Subsets | src/pattern.rs:103 | `subset(pop)` lists every counter inside `c` with `pop` shapes in all, each once |
| BitShapesModel.Unpacked | src/bit_shapes.rs:48-58 | `len` base-7 digits of a value, least significant first |
| BitShapesModel.PackedBound | src/bit_shapes.rs:70-82 | a packed value of `n` shapes stays below `7^n` |
| BitShapesModel.UnpackPacked | src/bit_shapes.rs:48-82 | reading back `|shapes|` digits of the packed value gives the shapes |
| BitShapesModel.PackUnpacked | src/bit_shapes.rs:48-82 | a value below `7^len` is exactly its `len` digits packed again |
| BitShapesModel.Empty | src/bit_shapes.rs:32-34 | `empty` holds no shapes |
| BitShapesModel.TryFrom | src/bit_shapes.rs:70-82 | 23 or more shapes are refused with their count; otherwise the shapes are packed into a value below `7^22`, which fits in a `u64` |
| BitShapesModel.ToVec | src/bit_shapes.rs:48-58 | the loop returns `Unpacked(value, len)` |
| BitShapesModel.TryFromRoundTrip | src/bit_shapes.rs:48-82 | `to_vec(try_from(s)) == s` whenever `try_from` succeeds |
| ShapeOrders.NewCursor | src/shape_order.rs:22-25 | a fresh cursor has its head at slot 0, the tail at 1, and every shape unused |
| ShapeOrders.UnusedShapes | src/shape_order.rs:41-50 | the head slot followed by the unread tail, `len_unused` of them |
| ShapeOrders.Pop | src/shape_order.rs:65-102 | `First` succeeds exactly when there is a next shape; a pop that yields nothing leaves the cursor as it was, one that yields a shape uses up one slot |
| ShapeOrders.PopUnused | src/shape_order.rs:65-102 | a pop takes one of the unused shapes and leaves exactly the rest unused |
| ShapeOrders.FirstNoneThenSecondNone | src/shape_order.rs:65-102 | when `First` yields nothing so does `Second`: the last shape always goes to `First` |
| ShapeOrders.Run | src/shape_order.rs:65-102 | a run of pops takes one shape per pop, keeps the sequence and lowers `len_unused` by the number of pops |
| ShapeOrders.RunUnused | src/shape_order.rs:41-102 | the popped shapes together with the shapes left unused are exactly the shapes unused before |
| ShapeOrders.RunExhaustsIsPermutation | src/shape_order.rs:22-102 | a run that exhausts a fresh cursor pops a permutation of the order |
| ShapeOrders.OnlyFirstReadsFront | src/shape_order.rs:65-102 | popping only `First` reads the order front to back, as play without a hold |
| ShapeOrders.OnlyFirstFromStart | src/shape_order.rs:22-102 | on a fresh cursor, `k` times `First` pops the first `k` shapes |
| ShapeSequences.ToShapeOrder | src/shape_sequence.rs:27-29 | the order holds the same shapes as the sequence |
| ShapeSequences.FromBitShapes | src/shape_sequence.rs:100-102 | the sequence of the unpacked shapes |
| ShapeSequences.WalkCount | src/shape_sequence.rs:62-96 | the walk visits `2^(n-1)` orders: one per choice of hold at every step but the last |
| ShapeSequences.WalkFrame | src/shape_sequence.rs:63-90 | every visited order has the requested length and leaves the slots already decided alone |
| ShapeSequences.ReplaysSecond | src/shape_sequence.rs:63-90 | taking the next input slot for a shape keeps the held slot |
| ShapeSequences.ReplaysFirst | src/shape_sequence.rs:63-90 | taking the held slot for a shape holds the next input slot instead |
| ShapeSequences.WalkReplays | src/shape_sequence.rs:62-96 | soundness: every visited input order, played with some choice of hold, yields the sequence |
| ShapeSequences.WalkComplete | src/shape_sequence.rs:62-96 | completeness: every way of using the hold that yields the sequence is visited |
| ShapeSequences.Rec | src/shape_sequence.rs:63-90 | the recursion visits exactly the walk, and every write to the buffer is undone before it returns |
| ShapeSequences.WalkFromStart | src/shape_sequence.rs:62-96 | from an all-`Unknown` buffer, the visited orders are exactly the input orders of that length from which some use of the hold yields the sequence |
| ShapeSequences.InferInputWalk | src/shape_sequence.rs:62-96 | the visitor receives the walk from an all-`Unknown` buffer, each order `infer_size` long |
| ShapeSequences.ReplaysIsPermutation | src/shape_sequence.rs:62-96 | an input order that replays to the sequence holds the same shapes, counted with multiplicity |
| ShapeSequences.WalkTSThree | src/shape_sequence.rs:116-138 | the source's test: `T S` inferred into three slots gives the four listed input orders, in that order |
| ShapeSequences.InferInput | src/shape_sequence.rs:37-59 | an empty sequence gives the single all-`Unknown` order; otherwise exactly the orders of the walk from an all-`Unknown` buffer, in its order, which `WalkFromStart` shows are the inputs from which the sequence can be drawn |
| Array4s.AsSlice | src/internals/array4.rs:40-52 | the first `len` items, in order |
| Array4s.TryFrom | src/internals/array4.rs:66-81 | more than four values are refused with `CapacityOver`; otherwise the slice is exactly the values and the unused slots hold the default |
| Array4s.Index | src/internals/array4.rs:87-90 | the `i`-th item of the slice, for `i` below `len` |
| FuzzyShapeOrders.ExpandFromSound | src/internals/fuzzy_shape_order.rs:31-59 | every visited order extends the prefix, has the fuzzy order's length and keeps every known slot |
| FuzzyShapeOrders.ExpandFromComplete | src/internals/fuzzy_shape_order.rs:31-59 | every concrete order that extends the prefix and keeps the known slots is visited |
| FuzzyShapeOrders.ExpandFromCount | src/internals/fuzzy_shape_order.rs:31-59 | every `Unknown` slot multiplies the number of visited orders by seven |
| FuzzyShapeOrders.Build | src/internals/fuzzy_shape_order.rs:32-54 | the recursion visits exactly the expansion of the remaining slots behind the buffer, known slots as given and unknown slots in ordinal order |
| FuzzyShapeOrders.ExpandAsWildcardWalk | src/internals/fuzzy_shape_order.rs:31-59 | exactly the concrete orders the fuzzy order stands for, `7^unknowns` of them |
| FuzzyShapeOrders.ExpandAsWildcard | src/internals/fuzzy_shape_order.rs:22-28 | the visited orders, collected as shape orders |
| FuzzyShapeOrders.ExpandTUnknownO | src/internals/fuzzy_shape_order.rs:89-103 | the test's order `T?O` expands to the seven orders `TxO`, in shape order |
| Buffers.Buffer.AsSlice | src/pc_possible/buffer.rs:30-32 | the shapes written so far |
| Buffers.Buffer.WithResized | src/pc_possible/buffer.rs:10-19 | `size` slots, none used yet |
| Buffers.Buffer.Increment | src/pc_possible/buffer.rs:21-24 | appends one shape to the slice; the slots not written keep their contents |
| Buffers.Buffer.Decrement | src/pc_possible/buffer.rs:26-28 | drops the last shape of the slice and keeps the array |
| Buffers.IncrementDecrement | src/pc_possible/buffer.rs:21-28 | `increment` followed by `decrement` restores the slice |
| Boards.Top | src/clipped_board.rs:63 | `well_top`: every row at or above it is empty and the row just below it is not |
| Boards.ClearLinesSound | src/clipped_board.rs:67-68 | `clear_lines` keeps a valid board, removes exactly ten blocks per cleared row, leaves no filled row, and lowers the well top by at least the number of rows cleared |
| Boards.BlocksBelowTop | src/clipped_board.rs:85-87 | a board holds at most ten blocks per row up to its well top |
| Boards.ColumnBlocksBelowTop | src/all_pcs/builder.rs:88-101 | a column holds no more blocks than the well top |
| Boards.ColumnsBlocksTotal | src/clipped_board.rs:85-87 | counting blocks column by column gives `count_blocks` |
| Boards.BlankIsEmpty | src/clipped_board.rs:29-31 | `Board64::blank()` has no blocks, well top 0, and nothing to clear |
| Boards.FreesColumns | src/clipped_board.rs:85-87 | the free cells of the first `n` columns below the height are `n * height` minus their blocks |
| ClippedBoards.TryNew | src/clipped_board.rs:57-76 | height 0 gives `HeightIsZero`, a height below the well top `NotHeightEnough`, clearing every row of the height `BoardFilledAlready`, each exactly in that case; otherwise the cleared board with the height lowered by the cleared rows and no filled row |
| ClippedBoards.SpacesDefined | src/clipped_board.rs:85-87 | on a clipped board `count_blocks` never exceeds `height * 10`, so `spaces` does not underflow |
| ClippedBoards.TryNewKeepsSpaces | src/clipped_board.rs:57-87 | clearing filled rows keeps the free cells: `spaces` of the result is `height * 10` minus the blocks of the input |
| ClippedBoards.SpacesByColumns | src/clipped_board.rs:85-87 | `spaces` is the sum of the free cells of the ten columns |
| ClippedBoards.BlankSpaces | src/clipped_board.rs:78-84 | the doc example: a blank board of height 4 is accepted as is and has 40 spaces |
| InternalClippedBoards.Spaces | src/internals/clipped_board.rs:18-21 | `spaces` and the blocks add up to `height * 10` |
| InternalClippedBoards.BlankSpaces | src/internals/clipped_board.rs:34-39 | the test: a blank board of height 4 has 40 spaces |
| PatternElements.FixedShapes | src/bit_shapes.rs:48-58 | the shapes of a `Fixed` element, as many as its length |
| PatternElements.Count | src/pattern.rs:66-78 | `count_shapes` of an expandable element is positive |
| PatternElements.CountAndDim | src/pattern.rs:42-95 | `count_shapes` is the number of vectors `to_shapes_vec` lists, and each has `dim_shapes` shapes |
| PatternElements.AcceptsIffListed | src/pattern.rs:342-376 | the element's check in `contains` accepts a slice of its dimension exactly when the element lists that slice |
| PatternElements.CounterVec | src/pattern.rs:98-106 | `to_shape_counter_vec` of an element, every counter well formed |
| PatternElements.CounterVecIsOfShapesVec | src/pattern.rs:42-106 | the counters listed are exactly the counters of the vectors listed |
| PatternElements.FactorialCounters | src/pattern.rs:58-61 | every ordering of a factorial's shapes has the factorial's counter, and the flattened counter is one of them |
| PatternElements.CountExamples | src/pattern.rs:408-429 | the tests' counts: `[I]p1` lists 1 vector, `[IOT]p1` 3, `[IOT]p2` 6, `[TIOLJSZ]p3` 210 and `[TIOLJSZ]p5` 2520 |
| Patterns.PermutationsValidFrom | src/pattern.rs:152-172 | no element from `i` on is a permutation that pops nothing or more than it holds |
| Patterns.TryNew | src/pattern.rs:152-172 | no elements gives `NoShapeSequences` and otherwise any invalid permutation gives `ContainsInvalidPermutation`, each exactly in that case; an accepted pattern keeps its elements |
| Patterns.TryNewExpandable | src/pattern.rs:152-172 | what `try_new` accepts, with non-empty factorial counters, can be expanded |
| Patterns.ShapesVecOfSpec | src/pattern.rs:215-257 | the pattern stands for `len_shapes_vec` vectors of `dim_shapes` shapes each, and a vector is among them exactly when it splits into slices the elements list |
| Patterns.ShapesWalker.Build | src/pattern.rs:182-198 | `build(index)` returns exactly the walk over the remaining elements behind the buffer, in order, and restores the buffer |
| Patterns.ToShapesVec | src/pattern.rs:215-225 | the collected vectors are the pattern's vectors: `len_shapes_vec` of them, each `dim_shapes` long |
| Patterns.ToSequences | src/pattern.rs:228-232 | one shape sequence per vector, in order |
| Patterns.ToOrders | src/pattern.rs:235-239 | one shape order per vector, in order |
| Patterns.Contains | src/pattern.rs:334-379 | `contains` is true exactly when the sequence has at least `dim_shapes` shapes and its first `dim_shapes` are one of the pattern's vectors; later shapes are ignored |
| Patterns.ElementsAccept | src/pattern.rs:341-378 | the loop over the elements accepts exactly when every element's check passes on its slice, in turn |
| Patterns.ElementAccepts | src/pattern.rs:343-375 | one element's check: the next index is past its slice, and the match goes on past the element exactly when its slice passes |
| Patterns.MatchesIffListed | src/pattern.rs:341-378 | passing every element's check in turn is being listed element by element |
| Patterns.ListedIffMatches | src/pattern.rs:215-379 | a vector is among the pattern's vectors exactly when `contains`' element checks accept it |
| Patterns.CounterVecs | src/pattern.rs:292-302 | one list of counters per element, each the element's `to_shape_counter_vec` |
| Patterns.CountersWalkComplete | src/pattern.rs:260-289 | every listed rest, counted and added to the buffer, is visited by the counter walk |
| Patterns.CountersWalkSound | src/pattern.rs:260-289 | every counter the walk visits is the buffer plus the counter of a listed rest |
| Patterns.ToShapeCounterVecSpec | src/pattern.rs:292-302 | `to_shape_counter_vec` lists exactly the counters of the pattern's vectors |
| Patterns.CountExamples | src/pattern.rs:114-126 | the documented sizes: `T**` stands for 49 vectors of 3 shapes, `[TIOLJSZ]p3` for 210 of 3, `[TIOLJSZ]p6,[TIOLJSZ]p3` for 5040 * 210 of 9, and no elements for none |
| Patterns.TryNewExamples | src/pattern.rs:439-462 | the tests' refusals: no elements, and permutations popping 8 of 7, 0 of 7, 0 of 0 and 1 of 0 |
| Patterns.DocPatternMatches | src/pattern.rs:310-333 | `T*[LLJ]p2` accepts exactly the four-shape vectors that start with `T` and whose last two fit in `LLJ` |
| Patterns.MatchesOneAnyPermutation | src/pattern.rs:341-378 | `s*[c]pN` accepts `N + 2` shapes exactly when they start with `s` and the last `N` fit in `c` |
| Patterns.ContainsExamples | src/pattern.rs:317-325 | the doc's accepted sequences `TTLJ`, `TILJ`, `TTLL` and `TTJL` |
| Patterns.NotContainsExamples | src/pattern.rs:330-332 | the doc's rejected sequences `ITLJ` and `TTLO` |
| PatternElements.PermutationCounters | src/pattern.rs:98-106 | the counters of a permutation's orderings are exactly `subset(pop)` of its counter |
| PatternShapeMatchers.FixedAt | src/pattern_shape_matcher.rs:139-185 | `BitShapes::get(i)`: a shape exactly when `i` is below the length, and then the `i`-th shape |
| PatternShapeMatchers.BufferMatch | src/pattern_shape_matcher.rs:18-67 | a rejected shape leaves no buffer, and a kept buffer has taken one more shape |
| PatternShapeMatchers.New | src/pattern_shape_matcher.rs:81-87 | a fresh matcher stands at the first element with an empty buffer, has a next shape to take, and has a next element exactly when there are two or more |
| PatternShapeMatchers.MatchShape | src/pattern_shape_matcher.rs:139-185 | the verdict is true exactly when the matcher has not failed; a failed matcher stays failed and one at the end accepts and stays there |
| PatternShapeMatchers.FeedFailed | src/pattern_shape_matcher.rs:139-185 | a failed matcher rejects whatever follows and stays as it is |
| PatternShapeMatchers.FeedExhausted | src/pattern_shape_matcher.rs:139-185 | a matcher past the last element accepts whatever follows and stays as it is |
| PatternShapeMatchers.PartialStep | src/pattern_shape_matcher.rs:18-67 | inside an element, the buffer accepts the next shape exactly when the shapes so far are still a start of a slice the element accepts, and keeps a buffer exactly while the element has room |
| PatternShapeMatchers.PartialFull | src/pattern_shape_matcher.rs:18-67 | a start as long as the element is exactly a slice `contains` accepts for the element |
| PatternShapeMatchers.MatchStep | src/pattern_shape_matcher.rs:139-185 | one step inside element `i` matches exactly when the element can take the shape, and then stays in the element, moves to the next with an empty buffer, or reaches the end |
| PatternShapeMatchers.FeedEnter | src/pattern_shape_matcher.rs:139-185 | a matcher entering element `j` accepts the rest of a sequence exactly when the elements from `j` on accept their slices, and then has nothing left |
| PatternShapeMatchers.FeedIsContains | src/pattern_shape_matcher.rs:81-185 | the matcher agrees with `contains`: fed a sequence at least `dim_shapes` long, every step matches exactly when the sequence starts with one of the pattern's vectors, and nothing is then left to take |
| PatternShapeMatchers.EmptyFixedDisagrees | src/pattern_shape_matcher.rs:36-39 | a pattern `try_new` accepts, an empty `Fixed` then `T`, on which `contains` lists `[T]` while the matcher fails on `T` |
| HoldExpandedPatterns.Copies | src/hold_expanded_pattern.rs:35-36 | `vec![x].repeat(n)`: `n` slots, each `x` |
| HoldExpandedPatterns.ToHoldElementsCounts | src/hold_expanded_pattern.rs:29-38 | an element expands to as many slots as it has shapes, and every shared slot names that element, as often as it takes shapes |
| HoldExpandedPatterns.FlattenCounts | src/hold_expanded_pattern.rs:40-45 | the flattened element sequence has one slot per shape of the pattern, and shares slot `j` exactly as often as element `j` takes shapes |
| HoldExpandedPatterns.SharedCountIsDim | src/hold_expanded_pattern.rs:34-36 | a wildcard, permutation or factorial contributes as many shared slots as its dimension |
| HoldExpandedPatterns.ExpansionsPermute | src/hold_expanded_pattern.rs:53-75 | every vector the recursion collects from a cursor is a permutation of the cursor's unused slots, of the same length |
| HoldExpandedPatterns.ExpansionRun | src/hold_expanded_pattern.rs:53-75 | every collected vector is what some sequence of first/second pops draws until the cursor runs dry |
| HoldExpandedPatterns.RunExpansion | src/hold_expanded_pattern.rs:53-75 | conversely, every sequence of pops that runs the cursor dry draws a collected vector |
| HoldExpandedPatterns.FrontIsExpansion | src/hold_expanded_pattern.rs:53-75 | always popping the front draws the rest of the sequence in order, which is collected |
| HoldExpandedPatterns.ExpansionsOfOrder | src/hold_expanded_pattern.rs:83 | from a fresh cursor the sequence itself is collected, and every collected vector is a permutation of it |
| HoldExpandedPatterns.Builder.constructor | src/hold_expanded_pattern.rs:78-81 | a fresh builder has no results and an empty buffer |
| HoldExpandedPatterns.Builder.Build | src/hold_expanded_pattern.rs:53-75 | `build` leaves the buffer as it found it and adds exactly the buffer followed by every expansion of the cursor to the results |
| HoldExpandedPatterns.ExpansionsUnfold | src/hold_expanded_pattern.rs:59-74 | a cursor's expansions are those after popping the first slot plus, when there is one, those after popping the second |
| HoldExpandedPatterns.ElementLessTotal | src/hold_expanded_pattern.rs:21-25 | the derived order on slots is irreflexive and total |
| HoldExpandedPatterns.SeqLessTransitive | src/hold_expanded_pattern.rs:87 | the lexicographic order on vectors is transitive |
| HoldExpandedPatterns.SeqLessTotal | src/hold_expanded_pattern.rs:87 | distinct vectors are ordered one way or the other |
| HoldExpandedPatterns.LeastExists | src/hold_expanded_pattern.rs:87 | every non-empty set of vectors has a least member |
| HoldExpandedPatterns.SortedVectors | src/hold_expanded_pattern.rs:87 | iterating the `BTreeSet` lists each member once, in strictly increasing order |
| HoldExpandedPatterns.FromPattern | src/hold_expanded_pattern.rs:28-89 | the hold-expanded pattern lists exactly the expansions of the flattened sequence, sorted without repeats; the sequence itself is among them and each is a permutation of it |
| HoldExpandedPatternShapeMatchers.New | src/hold_expanded_pattern_shape_matcher.rs:32-51 | a fresh matcher has one candidate per vector, each at its first slot with nothing stored, and a next shape to take |
| HoldExpandedPatternShapeMatchers.StoreIndex | src/hold_expanded_pattern_shape_matcher.rs:97-104 | finds the store entry of the element among the first two, or says that none of them is it |
| HoldExpandedPatternShapeMatchers.SharedStep | src/hold_expanded_pattern_shape_matcher.rs:93-135 | the store after a shared slot is still at most two entries for distinct elements |
| HoldExpandedPatternShapeMatchers.CandidateStep | src/hold_expanded_pattern_shape_matcher.rs:78-153 | a surviving candidate stays on its vector and moves to the next slot, or to none after the last |
| HoldExpandedPatternShapeMatchers.StepAll | src/hold_expanded_pattern_shape_matcher.rs:76-154 | the next candidates are no more than the current ones and each is valid |
| HoldExpandedPatternShapeMatchers.MatchShape | src/hold_expanded_pattern_shape_matcher.rs:67-167 | the loop over candidates computes the matching function: result and next matcher |
| HoldExpandedPatternShapeMatchers.MatchShapeProperties | src/hold_expanded_pattern_shape_matcher.rs:59-167 | a matcher that succeeds always answers `true` and stays; a failed match leaves no next shape; a matcher turned always-succeeding matched and has no next shape; one that matched otherwise has one |
| HoldExpandedMatching.Consumed | src/hold_expanded_pattern_shape_matcher.rs:115 | the shapes a vector's slots of one element have consumed so far, as many as those slots |
| HoldExpandedMatching.FitsSnoc | src/hold_expanded_pattern_shape_matcher.rs:85-127 | a longer prefix fits a vector exactly when the shorter one did and the new slot accepts its shape |
| HoldExpandedMatching.StartHasRoom | src/hold_expanded_pattern_shape_matcher.rs:106-113 | under the no-third-entry assumption, an element's first slot finds fewer than two entries stored |
| HoldExpandedMatching.FixedStepMeaning | src/hold_expanded_pattern_shape_matcher.rs:86-91 | a fixed slot accepts exactly its own shape and leaves the store as it was |
| HoldExpandedMatching.StoredStepMeaning | src/hold_expanded_pattern_shape_matcher.rs:92-135 | a shared slot whose element is stored accepts exactly the shapes that keep its consumed shapes within the element, and the store goes on describing the open elements |
| HoldExpandedMatching.StartStepMeaning | src/hold_expanded_pattern_shape_matcher.rs:106-135 | the same for an element's first slot, which pushes a fresh entry |
| HoldExpandedMatching.CandidateStepMeaning | src/hold_expanded_pattern_shape_matcher.rs:78-153 | a candidate that follows a prefix survives a shape exactly when its vector fits the longer prefix, and then follows that |
| HoldExpandedMatching.StepAllMeaning | src/hold_expanded_pattern_shape_matcher.rs:76-154 | the next candidates are exactly the current ones whose vector fits the longer prefix |
| HoldExpandedMatching.TracksStep | src/hold_expanded_pattern_shape_matcher.rs:67-167 | `match_shape` keeps the matcher describing the shapes fed so far, and answers `true` exactly when it was live and stays live |
| HoldExpandedMatching.NewTracks | src/hold_expanded_pattern_shape_matcher.rs:32-51 | a fresh matcher describes the empty prefix and is live |
| HoldExpandedMatching.FeedTracks | src/hold_expanded_pattern_shape_matcher.rs:59-67 | after any shapes the matcher describes them, and the last answer is `true` exactly when it is live |
| HoldExpandedMatching.FeedMatches | src/hold_expanded_pattern_shape_matcher.rs:59-67 | the shapes are accepted exactly when some vector is completed by a prefix of them or some longer vector fits them; a next shape remains exactly when none is completed and a longer one fits |
| HoldExpandedMatching.OccAtMost | src/hold_expanded_pattern_shape_matcher.rs:130 | an element's slots in a prefix are no more than in the vector |
| HoldExpandedMatching.SharedSlot | src/hold_expanded_pattern_shape_matcher.rs:118-123 | a shared slot of a permuted vector names a wildcard, permutation or factorial of the pattern, with as many slots as its dimension |
| HoldExpandedMatching.ExpandedValid | src/hold_expanded_pattern.rs:85-88 | vectors that permute the flattened sequence name only elements of the pattern, each with as many slots as it takes shapes |
| HoldExpandedMatching.OneSharedRoomy | src/hold_expanded_pattern_shape_matcher.rs:12-15 | a vector whose shared slots all name one element never needs a third store entry |
| HoldExpandedMatchingExamples.Case1WellFormed | src/hold_expanded_pattern_shape_matcher.rs:186-192 | the pattern `TI`, `*p2` of `LJ`, `O` expands into well-formed five-slot vectors, its own order among them |
| HoldExpandedMatchingExamples.HoldingTIsOrder | src/hold_expanded_pattern_shape_matcher.rs:194 | holding `T` makes `ILJOT` one of the pattern's vectors |
| HoldExpandedMatchingExamples.HoldingShareIsOrder | src/hold_expanded_pattern_shape_matcher.rs:194 | holding the shared slot makes `IJTOL` one of the pattern's vectors |
| HoldExpandedMatchingExamples.Case1Accepts | src/hold_expanded_pattern_shape_matcher.rs:194-210 | `TIJLO`, `ILJOT` and `IJTOL` are accepted shape by shape with a next shape before each and none after, and a further `S` is accepted |
| HoldExpandedMatchingExamples.Case1RejectsLeadingO | src/hold_expanded_pattern_shape_matcher.rs:211-222 | a leading `O` is refused and leaves no next shape, and so is a second one |
| Cartesian.ListedLength | src/pattern.rs:175-198 | a vector assembled from one vector of each remaining list is as long as their dimensions together |
| Cartesian.WalkMembers | src/pattern.rs:182-198 | the walk from a list visits exactly the buffer followed by one vector of each remaining list |
| Cartesian.WalkFromMembers | src/pattern.rs:182-198 | the loop from the `j`-th vector of a list visits exactly the buffer, one of the vectors from `j` on, and one vector of each later list |
| Cartesian.HeadMembers | src/pattern.rs:182-198 | one turn of the loop visits exactly the buffer, that vector, and one vector of each later list |
| Cartesian.WalkCount | src/pattern.rs:182-198 | the walk visits as many vectors as the product of the lists' lengths |
| Cartesian.WalkFromCount | src/pattern.rs:182-198 | the loop from the `j`-th vector visits the remaining vectors of that list times the product of the later lists' lengths |
| Permutations.CalculatePermutationSize | src/pattern.rs:9-12 | `len * (len - pop + 1) * ... * (len - 1)` is the number of ordered choices of `pop` of `len` positions |
| Permutations.CalculatePermutationSizeInclusive | src/patterns.rs:9-13 | the fold over `len - pop + 1 ..= len` gives that same number |
| Permutations.Remove | src/pattern.rs:46-53 | removing a position leaves one element fewer and the same multiset less that element |
| Permutations.PermsCount | src/pattern.rs:46-53 | `permutations(k)` yields as many vectors as there are ordered choices of `k` positions |
| Permutations.PermsSound | src/pattern.rs:46-53 | every vector yielded has `k` shapes drawn from the input, none more often than there |
| Permutations.PermsComplete | src/pattern.rs:46-53 | every vector of `k` shapes drawn from the input is yielded |
| Permutations.PermSizeExamples | src/pattern.rs:416-429 | the counts the pattern tests rely on: 6, 210, 2520 and 5040 |
| Masks.Xor | src/all_pcs/predefined_piece.rs:119-121 | `a ^ b` holds the bits set in exactly one of the two |
| Masks.XorOfRanges | src/all_pcs/predefined_piece.rs:119-121 | `((1 << hi) - 1) ^ ((1 << lo) - 1)` is exactly the bits from `lo` below `hi` |
| Masks.ShiftRight | src/all_pcs/builder.rs:124 | `a >> 1` holds bit `i` exactly when `a` holds bit `i + 1` |
| Masks.Lowest | src/all_pcs/aggregator.rs:44 | `trailing_zeros` of a non-zero mask is a set bit no larger than any other |
| Pieces.AllPieces | src/all_pcs/predefined_piece.rs:137 | `Piece::all_vec`: 28 pieces, each shape in each of four orientations |
| Pieces.AllPiecesOnceEach | src/all_pcs/predefined_piece.rs:137 | every piece occurs in that list, exactly once |
| PredefinedPieces.IndexedPieces.IsEmpty | src/all_pcs/predefined_piece.rs:20-22 | empty exactly when it has no pieces |
| PredefinedPieces.UsingRows | src/all_pcs/predefined_piece.rs:111-114 | the using-rows mask holds exactly the piece's rows |
| PredefinedPieces.InterceptedRows | src/all_pcs/predefined_piece.rs:116-124 | for increasing rows, the intercepted-rows mask holds exactly the rows strictly between consecutive rows |
| PredefinedPieces.RowsPartitionSpan | src/all_pcs/predefined_piece.rs:111-124 | using and intercepted rows are disjoint and together make the span from the lowest to the highest row |
| PredefinedPieces.CombinationsSound | src/all_pcs/predefined_piece.rs:97-101 | every combination of `k` rows below the height is increasing, of length `k` |
| PredefinedPieces.CombinationsComplete | src/all_pcs/predefined_piece.rs:97-101 | every increasing choice of `k` rows below the height is among the combinations |
| PredefinedPieces.Locations | src/all_pcs/predefined_piece.rs:103-109 | each block lands at its column relative to the bounding box and at the chosen row of its relative row |
| PredefinedPieces.LocationsDistinct | src/all_pcs/predefined_piece.rs:103-109 | on increasing rows the four blocks land on four distinct cells, each on one of the chosen rows |
| PredefinedPieces.MakeOne | src/all_pcs/predefined_piece.rs:102-133 | a predefined piece records the piece, its rows, its cells, its using and its intercepted rows |
| PredefinedPieces.Make | src/all_pcs/predefined_piece.rs:95-135 | `make` gives one predefined piece per combination of rows, in the combinations' order |
| PredefinedPieces.MakeAll | src/all_pcs/predefined_piece.rs:137-142 | everything made is a canonical piece made correctly for the height |
| PredefinedPieces.New | src/all_pcs/predefined_piece.rs:94-145 | the table has the height, ids counting from zero, and every entry made correctly |
| PredefinedPieces.NewComplete | src/all_pcs/predefined_piece.rs:94-145 | every canonical piece on every increasing choice of rows below the height is in the table |
| PredefinedPieces.BoardOf | src/all_pcs/predefined_piece.rs:75-79 | the board of the locations holds exactly those cells |
| PredefinedPieces.Shifted | src/all_pcs/predefined_piece.rs:68-73 | every location moves `lx` columns right |
| PredefinedPieces.ToAggregate | src/all_pcs/predefined_piece.rs:67-90 | the placed piece has the cells moved `lx` right, a board of exactly those cells, and the piece's rows and masks |
| PredefinedPieces.MinYAtX0 | src/all_pcs/predefined_piece.rs:151-156 | the lowest row of a block in column 0 |
| PredefinedPieces.RelativeBlocks | src/all_pcs/predefined_piece.rs:158-164 | the column-major mask of the blocks relative to that row has bit 0 set and fits in 64 bits |
| PredefinedPieces.RelativeBlocksCells | src/all_pcs/predefined_piece.rs:158-164 | bit `b` of the mask is set exactly when the cell `b` positions after the lowest column-0 block, column-major, is a block |
| PredefinedPieces.ToBuild | src/all_pcs/predefined_piece.rs:150-171 | the piece to build keeps the piece and records that row and that mask |
| PredefinedPieces.FromPredefined | src/all_pcs/predefined_piece.rs:149-180 | the converted table keeps the height, the ids and the order |
| AllPcsNodes.MinoIndex | src/all_pcs/nodes.rs:20-25 | the mino an item places, whichever kind of item it is |
| AllPcsNodes.Nodes.Empty | src/all_pcs/nodes.rs:34-36 | a fresh arena has no index and no item nodes |
| AllPcsNodes.Nodes.IndexSerial | src/all_pcs/nodes.rs:38-40 | the id the next index node gets is the number of index nodes |
| AllPcsNodes.Nodes.ItemSerial | src/all_pcs/nodes.rs:42-44 | the id the next item node gets is the number of item nodes |
| AllPcsNodes.Nodes.Jump | src/all_pcs/nodes.rs:46-48 | appends one jump index node and leaves the items alone |
| AllPcsNodes.Nodes.Skip | src/all_pcs/nodes.rs:50-52 | appends one skip index node and leaves the items alone |
| AllPcsNodes.Nodes.Complete2 | src/all_pcs/nodes.rs:54-56 | appends one terminal index node and leaves the items alone |
| AllPcsNodes.Nodes.Put | src/all_pcs/nodes.rs:58-60 | appends one item leading to an index node and leaves the indexes alone |
| AllPcsNodes.Nodes.Complete | src/all_pcs/nodes.rs:62-64 | appends one terminal item and leaves the indexes alone |
| AllPcsVisits.Refs | src/all_pcs/visit.rs:38 | the placed pieces a path of bit positions names, in order |
| AllPcsVisits.Search | src/all_pcs/visit.rs:23-67 | the path `build` finds uses only remaining pieces |
| AllPcsVisits.TakeSound | src/all_pcs/visit.rs:37-63 | a path found by taking a piece first starts with it, orders every remaining piece once, and every step matches a shape and places validly |
| AllPcsVisits.TryFromSound | src/all_pcs/visit.rs:30-64 | a path found by the loop starts with one of its candidates and is such an order |
| AllPcsVisits.SearchSound | src/all_pcs/visit.rs:23-67 | a path found orders every remaining piece once, and every step matches a shape and places validly |
| AllPcsVisits.TakeComplete | src/all_pcs/visit.rs:37-63 | when some accepted order starts with a piece, taking that piece first finds one |
| AllPcsVisits.TryFromComplete | src/all_pcs/visit.rs:30-64 | when some accepted order starts with a candidate, the loop finds one |
| AllPcsVisits.SearchComplete | src/all_pcs/visit.rs:23-67 | when any accepted order of the remaining pieces exists, `build` finds one |
| AllPcsVisits.Builder.constructor | src/all_pcs/visit.rs:70-74 | the builder starts with no results |
| AllPcsVisits.Builder.Build | src/all_pcs/visit.rs:23-67 | returns `true` exactly when the search finds a path, and then has appended its pieces to the results; otherwise the results are as before |
| AllPcsVisits.Builder.TakeCandidate | src/all_pcs/visit.rs:37-63 | the same for one candidate taken first |
| AllPcsVisits.VisitAllDyn | src/all_pcs/visit.rs:5-81 | no pieces gives none; otherwise a flow from the initial board through the pieces of the path found, exactly when one is found |
| AllPcsVisits.VisitAllDynMeaning | src/all_pcs/visit.rs:5-81 | a flow is found exactly when some order of all the pieces matches and places validly, and it uses every piece once |
| AllPcsAggregators.BlocksMap | src/all_pcs/aggregator.rs:122-126 | the map has exactly the given placed pieces as keys, each mapped to its blocks |
| AllPcsAggregators.New | src/all_pcs/aggregator.rs:116-131 | the aggregator keeps the board, the nodes and the spawn, and knows the blocks of exactly the given placed pieces |
| AllPcsAggregators.FirstOverlap | src/all_pcs/aggregator.rs:332-341 | the insertion point is the first placed piece whose straddled rows meet the new piece's rows, or the end when none does |
| AllPcsAggregators.FilledFrom | src/all_pcs/aggregator.rs:329-341 | the filled rows are exactly the rows used by placed pieces whose straddled rows meet the new piece's rows |
| AllPcsAggregators.InsertionPoint | src/all_pcs/aggregator.rs:329-341 | the downward loop computes that insertion point and those filled rows |
| AllPcsAggregators.Insert | src/all_pcs/aggregator.rs:348 | `insert` puts the piece at the index and shifts the rest up |
| AllPcsAggregators.RemoveInserted | src/all_pcs/aggregator.rs:348-350 | `remove` at the same index gives back the list as it was |
| AllPcsAggregators.DependentsUpTo | src/all_pcs/aggregator.rs:364-369 | the later pieces unset are exactly those whose straddled rows meet the current piece's rows |
| AllPcsAggregators.IsStackable | src/all_pcs/aggregator.rs:356-383 | the check at a complete node answers exactly the stackability predicate: every piece that has dependents lands once they and it are removed and its straddled rows are cleared |
| AllPcsAggregators.ShapesOf | src/all_pcs/aggregator.rs:149-151 | the shapes of the placed pieces, in order |
| AllPcsAggregators.PiecesOf | src/all_pcs/aggregator.rs:166 | the placed pieces of a flow, in order |
| AllPcsAggregators.SavedSound | src/all_pcs/aggregator.rs:147-168 | a saved solution's shapes fit one of the counters; with hold or without, it is the pieces in an order in which every piece matches the pattern and can be placed |
| AllPcsAggregators.CollectItemsStep | src/all_pcs/aggregator.rs:326-351 | the loop over an index node's items adds one item's solutions per turn |
| AllPcsAggregators.DepthItemsBound | src/all_pcs/aggregator.rs:322-351 | a node's depth bounds one more than the depth of every item's next node |
| AllPcsAggregators.Aggregation.constructor | src/all_pcs/aggregator.rs:171-179 | a fresh aggregation has its aggregator and checker and no placed pieces or solutions |
| AllPcsAggregators.Aggregation.SaveIfNeed | src/all_pcs/aggregator.rs:147-168 | appends what the checker saves of the placed pieces, and nothing else |
| AllPcsAggregators.Aggregation.AggregateRecursively | src/all_pcs/aggregator.rs:315-390 | restores the placed pieces and appends exactly the solutions collected from the node |
| AllPcsAggregators.Aggregation.AggregateItems | src/all_pcs/aggregator.rs:322-352 | the same for every item of an index node |
| AllPcsAggregators.Aggregation.AggregateItem | src/all_pcs/aggregator.rs:327-350 | the same for one item: skipped when its straddled rows meet the filled rows, otherwise inserted, recursed and removed |
| AllPcsAggregators.CollectSound | src/all_pcs/aggregator.rs:315-390 | every collected solution is what the checker saved of some non-empty stackable list of placed pieces |
| AllPcsAggregators.CollectWitness | src/all_pcs/aggregator.rs:315-390 | names that list for a collected solution |
| AllPcsAggregators.CollectUnfold | src/all_pcs/aggregator.rs:321-389 | one step of the recursion per kind of index node: items, a jump, a completion, an abort |
| AllPcsAggregators.AggregateWith | src/all_pcs/aggregator.rs:133-185 | no nodes gives the empty solutions; otherwise exactly the solutions collected from the head |
| AllPcsAggregators.AggregateWithShapeCounters | src/all_pcs/aggregator.rs:133-185 | the same with the counters' checker |
| AllPcsAggregators.PatternCounters | src/all_pcs/aggregator.rs:192 | the pattern's counters are exactly the counters of its shape vectors |
| AllPcsAggregators.AggregateWithPatternAllowsNoHold | src/all_pcs/aggregator.rs:251-313 | the same with the plain pattern matcher |
| AllPcsAggregators.FlattenSharesValid | src/hold_expanded_pattern.rs:40-43 | every shared slot of the flattened sequence names a shared element of the pattern |
| AllPcsAggregators.ExpandedValid | src/all_pcs/aggregator.rs:235 | a hold-expanded pattern built from the pattern has non-empty vectors that name only its elements |
| AllPcsAggregators.AggregateWithPatternAllowsHold | src/all_pcs/aggregator.rs:187-249 | the same with the matcher of the pattern's hold expansion |
| AllPcsBuilders.MinosAt | src/all_pcs/builder.rs:58-62 | every piece offered at a cell has its lowest column-0 block on that row, fits in the width, and carries the id `mino_index * width + lx` and its relative blocks |
| AllPcsBuilders.MinoIdDecodes | src/all_pcs/builder.rs:61 | the id gives back the piece's index and the column |
| AllPcsBuilders.BoardMaskFreeAtCell | src/all_pcs/builder.rs:88 | the board mask of a free cell has bit 0 clear, so the `assert_eq!(m & 1, 0)` holds |
| AllPcsBuilders.FillBlockMask | src/all_pcs/builder.rs:92-99 | when the rest of the board fits the mask, it holds exactly the cells from the current one to the last |
| AllPcsBuilders.ComputeBoardMask | src/all_pcs/builder.rs:70-90 | the column-major loop over the next `3 * height + 1` cells computes the board mask: bit `s` set exactly when the cell `s` steps ahead is occupied |
| AllPcsBuilders.MaskCell | src/all_pcs/builder.rs:75-86 | one turn of the loop keeps the walk position one cell further and the mask equal to the blocks among the cells walked |
| AllPcsBuilders.MaskUpToMember | src/all_pcs/builder.rs:75-87 | after `n` steps the mask holds exactly the occupied cells among the first `n` ahead |
| AllPcsBuilders.BlockAtCell | src/all_pcs/builder.rs:76 | the column-major position of a cell is occupied exactly when the cell is |
| AllPcsBuilders.WalkStep | src/all_pcs/builder.rs:75-87 | one turn of the loop moves up the column or to the next one and adds that cell's bit |
| AllPcsBuilders.CollectMinos | src/all_pcs/builder.rs:58-62 | the loop over the converted pieces collects exactly the pieces offered at the cell, in order |
| AllPcsBuilders.ShiftPending | src/all_pcs/builder.rs:52-54 | shifting the pending frontiers right by one and leaving the visited ones alone |
| AllPcsBuilders.ShiftTails | src/all_pcs/builder.rs:52-54 | the loop computes that shift |
| AllPcsBuilders.PlaceMinos | src/all_pcs/builder.rs:110-139 | placing pieces at a frontier adds items only, and the frontiers only grow |
| AllPcsBuilders.VisitTail | src/all_pcs/builder.rs:103-163 | one pending frontier gets exactly one index node |
| AllPcsBuilders.VisitTails | src/all_pcs/builder.rs:103-164 | each pending frontier gets exactly one index node |
| AllPcsBuilders.VisitFreeCell | src/all_pcs/builder.rs:101-164 | after a free cell every frontier has its index node |
| AllPcsBuilders.VisitCell | src/all_pcs/builder.rs:50-164 | a cell never leaves more index nodes than frontiers |
| AllPcsBuilders.VisitCellAsWritten | src/all_pcs/builder.rs:101 | the cell as written fails exactly when it is free, offers pieces and no frontier is pending, and otherwise agrees with the corrected cell |
| AllPcsBuilders.NoPendingNoChange | src/all_pcs/builder.rs:103-164 | with no pending frontier the corrected cell changes nothing |
| AllPcsBuilders.VisitOccupied | src/all_pcs/builder.rs:50-56 | an occupied cell only shifts the pending frontiers |
| AllPcsBuilders.Completed | src/all_pcs/builder.rs:168-172 | every frontier without an index node gets a terminal one, so the counts agree |
| AllPcsBuilders.ReachSound | src/all_pcs/builder.rs:124-137 | the hash map gives the frontier's existing id, or appends it as a new frontier; frontiers stay distinct |
| AllPcsBuilders.PlaceMinosSound | src/all_pcs/builder.rs:110-139 | one item per fitting piece, each finishing the board when it fills it and otherwise leading to the frontier with the piece's blocks added, shifted one cell |
| AllPcsBuilders.VisitTailSound | src/all_pcs/builder.rs:104-163 | the node of a pending frontier jumps to exactly the items of the pieces that fit, or skips to the frontier shifted one cell when the cell is filled |
| AllPcsBuilders.VisitTailsSound | src/all_pcs/builder.rs:103-164 | the same for every pending frontier |
| AllPcsBuilders.VisitFreeCellSound | src/all_pcs/builder.rs:101-164 | the same for a free cell, with the frontiers it adds all distinct |
| AllPcsBuilders.VisitFreeCellWellLinked | src/all_pcs/builder.rs:101-164 | a free cell keeps every node's items and successors inside the arenas and pointing forward |
| AllPcsBuilders.VisitCellWellLinked | src/all_pcs/builder.rs:50-164 | so does every cell |
| AllPcsBuilders.VisitColumnsWellLinked | src/all_pcs/builder.rs:48-166 | so do the columns visited so far |
| AllPcsBuilders.BuiltWellLinked | src/all_pcs/builder.rs:34-175 | the finished DAG has one index node per frontier and is linked forward |
| AllPcsBuilders.BuiltItemsNameEntries | src/all_pcs/builder.rs:61 | the DAG has a head, and every item's id names a piece of the table and a column |
| AllPcsBuilders.VisitCellStep | src/all_pcs/builder.rs:50-164 | the imperative cell reports a panic exactly when the check fails, and otherwise leaves the arenas and frontiers as the corrected cell |
| AllPcsBuilders.VisitPending | src/all_pcs/builder.rs:103-164 | the loop over pending frontiers appends to the arenas exactly what the function of the pending frontiers gives |
| AllPcsBuilders.Build | src/all_pcs/builder.rs:34-175 | the method panics exactly when the build as written does, and otherwise returns fresh arenas equal to the corrected build |
| AllPcsBuilders.BuiltAsWrittenPanicsExactly | src/all_pcs/builder.rs:101 | the build as written panics exactly when some cell is free, offers pieces and finds no pending frontier, and otherwise agrees with the corrected build |
| AllPcsBuilders.OHoleBoard | src/all_pcs/builder.rs:101 | a two-row board whose only free cells are a 2×2 hole in columns 7 and 8 |
| AllPcsBuilders.OHolePanics | src/all_pcs/builder.rs:101 | on that board with an O the build as written panics, while the corrected build is one jump to one terminal item |
| AllPcsBuilders.OHolePanicsAtSecondRow | src/all_pcs/builder.rs:101 | the panic happens at the hole's second row |
| AllPcsBulkPredefines.ToPiecePredefines | src/all_pcs/bulk_executor.rs:244-260 | the converted piece records the lowest row of a column-0 block, and a relative mask with bit 0 set that fits in 64 bits |
| AllPcsBulkPredefines.ToPiecePredefinesCells | src/all_pcs/bulk_executor.rs:252-257 | bit `b` of the relative mask is set exactly when the cell `b` positions after that block, column-major, is a block |
| AllPcsBulkPredefines.ToPiecePredefines3 | src/all_pcs/bulk_executor.rs:262-284 | the using-rows mask holds exactly the piece's rows, and for increasing rows the deleted-rows mask holds exactly the rows strictly between them |
| AllPcsBulkPredefines.ToPiecePredefines3Partition | src/all_pcs/bulk_executor.rs:262-284 | the two masks are disjoint and together span the lowest to the highest row |
| AllPcsBulkPredefines.MakeMinos2 | src/all_pcs/bulk_executor.rs:287-305 | every entry is the piece on an increasing choice of rows below the height, with the cells those rows give |
| AllPcsBulkPredefines.MakeMinos2AgreesWithMake | src/all_pcs/bulk_executor.rs:287-305 | `make_minos2` makes the same entries as the predefined-piece table's `make`, without the masks |
| AllPcsBulkPredefines.MakeMinos2Complete | src/all_pcs/bulk_executor.rs:287-305 | every increasing choice of rows of the piece's height below the height is among them |
| AllPcsBulkPredefines.MakeAll2AgreesWithMakeAll | src/all_pcs/bulk_executor.rs:327-336 | the same for all canonical pieces |
| AllPcsBulkPredefines.MakePredefines2 | src/all_pcs/bulk_executor.rs:327-336 | the entries are numbered from zero |
| AllPcsBulkPredefines.MakePredefines2Sound | src/all_pcs/bulk_executor.rs:327-336 | the list matches the predefined-piece table entry by entry, and every entry is a canonical piece on increasing rows below the height |
| AllPcsBulkPredefines.MakePredefines2Complete | src/all_pcs/bulk_executor.rs:327-336 | every canonical piece on every increasing choice of rows below the height is listed |
| AllPcsBulkExecutors.MinoRow | src/all_pcs/bulk_executor.rs:84-90 | a row of a piece's board moved `lx` right holds exactly its cells on that row |
| AllPcsBulkExecutors.MinoBoard | src/all_pcs/bulk_executor.rs:84-90 | the piece's board is made of those rows |
| AllPcsBulkExecutors.Merge | src/all_pcs/bulk_executor.rs:216 | `merge` is the row-wise union |
| AllPcsBulkExecutors.BoardForPlace | src/all_pcs/bulk_executor.rs:215-216 | taking a piece out of the rest adds exactly its board to the board of the placed pieces |
| AllPcsBulkExecutors.BoardForNone | src/all_pcs/bulk_executor.rs:175 | with every piece still to place, the board is the clipped board |
| AllPcsBulkExecutors.DeletedKey | src/all_pcs/bulk_executor.rs:180 | `clear_lines` reports exactly the full rows |
| AllPcsBulkExecutors.DeletedBelow | src/all_pcs/bulk_executor.rs:193-197 | the piece drops by no more rows than lie below it |
| AllPcsBulkExecutors.FitsIs | src/all_pcs/bulk_executor.rs:191-204 | a piece can go next exactly when its deleted rows are all cleared and the move rules reach it from the spawn above the well |
| AllPcsBulkExecutors.PlaceTestOn | src/all_pcs/bulk_executor.rs:179-204 | the test of a piece against a partial board is that fit on the cleared board |
| AllPcsBulkExecutors.AcceptanceAccepts | src/all_pcs/bulk_executor.rs:141-176 | the acceptance the counting uses is the `ok` search |
| AllPcsBulkExecutors.SolvableHasOrder | src/all_pcs/bulk_executor.rs:178-228 | a solvable rest is non-empty and has an order in which every piece fits in turn |
| AllPcsBulkExecutors.OrderSolvable | src/all_pcs/bulk_executor.rs:178-228 | conversely such an order makes the rest solvable |
| AllPcsBulkExecutors.AcceptedIffOrder | src/all_pcs/bulk_executor.rs:141-228 | a path's pieces are accepted exactly when there are some and they have an order in which each can be put in |
| AllPcsBulkExecutors.OkSearch.constructor | src/all_pcs/bulk_executor.rs:142-143 | the search starts with nothing visited |
| AllPcsBulkExecutors.OkSearch.Ok2 | src/all_pcs/bulk_executor.rs:178-228 | `ok2` answers exactly whether the rest is solvable; the visited set only grows, and only by unsolvable smaller rests when it fails |
| AllPcsBulkExecutors.OkSearch.TryPlace | src/all_pcs/bulk_executor.rs:192-221 | one candidate answers whether placing it leads to a solution, with the same visited invariant |
| AllPcsBulkExecutors.OkSearch.Descend | src/all_pcs/bulk_executor.rs:205-220 | the same after the piece is placed |
| AllPcsBulkExecutors.OkChosen | src/all_pcs/bulk_executor.rs:141-176 | `ok` answers exactly whether the path's pieces are accepted |
| AllPcsBulkExecutors.NextLevel | src/all_pcs/bulk_executor.rs:106-108 | the next level adds to each row the rows the piece keeps from being cleared first |
| AllPcsBulkExecutors.Ids | src/all_pcs/bulk_executor.rs:75 | the ids recorded along a path are the items' minos |
| AllPcsBulkExecutors.PrefixedCount | src/all_pcs/bulk_executor.rs:59-112 | taking an item first counts nothing when its deleted rows are blocked, and otherwise counts the rest with the level updated |
| AllPcsBulkExecutors.TallyCountsPaths | src/all_pcs/bulk_executor.rs:44-139 | the recursion counts exactly the complete paths from the node that survive and are accepted |
| AllPcsBulkExecutors.TallyItemsCountsPaths | src/all_pcs/bulk_executor.rs:59-113 | the same for a range of items |
| AllPcsBulkExecutors.TallyItemCountsPaths | src/all_pcs/bulk_executor.rs:60-112 | the same for one item |
| AllPcsBulkExecutors.AsWrittenAtMostCorrected | src/all_pcs/bulk_executor.rs:78-95 | the count as written never exceeds the count that also counts paths ending at an item |
| AllPcsBulkExecutors.ItemLeafExample | src/all_pcs/bulk_executor.rs:78-95 | a linked one-item DAG whose only item finishes the board |
| AllPcsBulkExecutors.AsWrittenSkipsItemLeaf | src/all_pcs/bulk_executor.rs:78-95 | on it the count as written is 0 and the corrected count is 1 |
| AllPcsBulkExecutors.FreedRun | src/all_pcs/bulk_executor.rs:32-36 | one piece's run of the table: its using rows on each row it deletes, nothing elsewhere |
| AllPcsBulkExecutors.FillRun | src/all_pcs/bulk_executor.rs:32-36 | the loop writes exactly that run and nothing else |
| AllPcsBulkExecutors.UsingRowsEachYOf | src/all_pcs/bulk_executor.rs:27-37 | the table holds every piece's run |
| AllPcsBulkExecutors.AggregateFrom | src/all_pcs/bulk_executor.rs:44-139 | the recursion over the `filled` and `results` buffers returns the count of the node for the level at its depth, and keeps the buffers below its depth |
| AllPcsBulkExecutors.AggregateJump | src/all_pcs/bulk_executor.rs:54-116 | the same for the items of a jump node |
| AllPcsBulkExecutors.AggregateItem | src/all_pcs/bulk_executor.rs:60-112 | the same for one item |
| AllPcsBulkExecutors.Join | src/all_pcs/bulk_executor.rs:107 | row-wise union of two levels |
| AllPcsBulkExecutors.WriteLevel | src/all_pcs/bulk_executor.rs:106-108 | the loop writes the next level and nothing below it |
| AllPcsBulkExecutors.NextLevelFromTable | src/all_pcs/bulk_executor.rs:99-108 | the level written from the table is the next level |
| AllPcsBulkExecutors.FollowIndex | src/all_pcs/bulk_executor.rs:96-111 | following an item counts the next node for the next level and the id recorded |
| AllPcsBulkExecutors.Pre3 | src/all_pcs/bulk_executor.rs:21-23 | each entry converted, in order |
| AllPcsBulkExecutors.EmptyLevel | src/all_pcs/bulk_executor.rs:39 | the zeroed buffer: no row blocked |
| AllPcsBulkExecutors.AggregateCounting | src/all_pcs/bulk_executor.rs:20-42 | the count of accepted complete paths from the head, counting or skipping paths that end at an item |
| AllPcsBulkExecutors.Aggregate | src/all_pcs/bulk_executor.rs:20-42 | as written: skips paths ending at an item |
| AllPcsBulkExecutors.AggregateCorrected | src/all_pcs/bulk_executor.rs:20-42 | counts them too, and is never below the count as written |
| AllPcsBulkExecutors.ToBuildAll | src/all_pcs/bulk_executor.rs:344-350 | every entry converted for the builder, ids kept |
| AllPcsBulkExecutors.SetupOf | src/all_pcs/bulk_executor.rs:344-350 | the builder works on the clipped board, its height and the full width, with one entry per predefined piece |
| AllPcsBulkExecutors.Build2 | src/all_pcs/bulk_executor.rs:338-342 | the predefined pieces of the height, and the DAG of the build, which panics exactly when the build as written does |
| AllPcsBulkExecutors.MadeEntriesRows | src/all_pcs/bulk_executor.rs:287-305 | every entry has at least one row and the converted entries are valid for the height |
| AllPcsBulkExecutors.Build2Linked | src/all_pcs/bulk_executor.rs:338-342 | the DAG built is linked and has a head |
| AllPcsBulkExecutors.TryNew | src/all_pcs/bulk_executor.rs:514-543 | a board above 20 rows, free cells not in fours and a pattern too short are refused, in that order; otherwise the executor keeps its inputs, spawns four rows above the height and has extra shapes exactly when the pattern has more than the pieces need |
| AllPcsBulkExecutors.Executed | src/all_pcs/bulk_executor.rs:546-549 | the DAG `execute` counts on is linked, has a head, and is for the executor's board |
| AllPcsBulkExecutors.Execute | src/all_pcs/bulk_executor.rs:546-549 | panics exactly when the build as written does, and otherwise returns the count as written |
| AllPcsExecutors.TryNew | src/all_pcs/executor.rs:30-56 | a board above 20 rows, free cells not in fours, and an order shorter than the pieces need are refused, in that order; otherwise the executor keeps its inputs and spawns four rows above the height |
| AllPcsExecutors.ExecuteCounter | src/all_pcs/executor.rs:59-66 | the counter built from the order holds exactly its shapes, enough for every piece, and the spawn lies above the well |
| AllPcsFromCountersExecutors.MinDimension | src/all_pcs/executor_from_counters.rs:48-53 | the smallest counter size: the size of one counter and no larger than any |
| AllPcsFromCountersExecutors.MaxCounter | src/all_pcs/executor_from_counters.rs:68-71 | the fold of `merge_by_max` holds every counter of the list |
| AllPcsFromCountersExecutors.MaxCounterLeast | src/all_pcs/executor_from_counters.rs:68-71 | and is the least counter that does |
| AllPcsFromCountersExecutors.TryNew | src/all_pcs/executor_from_counters.rs:31-64 | a board above 20 rows, free cells not in fours, no counter, and a counter with fewer shapes than the pieces need are refused, in that order; otherwise the executor keeps its inputs |
| AllPcsFromCountersExecutors.Execute | src/all_pcs/executor_from_counters.rs:67-77 | builds for the maximum counter; every solution is what the counters' checker kept of a non-empty stackable list of placed pieces |
| AllPcsFromPatternExecutors.TryNew | src/all_pcs/executor_from_pattern.rs:63-89 | a board above 20 rows, free cells not in fours, and a pattern with fewer shapes than the pieces need are refused, in that order; otherwise the executor keeps its inputs |
| AllPcsFromPatternExecutors.BuildCounter | src/all_pcs/executor_from_pattern.rs:93-97 | the counter built for holds the counter of every shape vector of the pattern |
| AllPcsFromPatternExecutors.ReadyPatternHasShapes | src/all_pcs/executor_from_pattern.rs:63-89 | an accepted pattern has elements and at least one slot |
| AllPcsFromPatternExecutors.HoldSolutionsKept | src/all_pcs/aggregator.rs:187-249 | what the hold aggregation collects is kept by the hold checker with a hold matcher of the pattern |
| AllPcsFromPatternExecutors.Execute | src/all_pcs/executor_from_pattern.rs:92-107 | with hold every solution is kept by the hold checker, without hold by the plain pattern checker, each of a non-empty stackable list of placed pieces |
| AllPcsFromPatternExecutors.AggregateHold | src/all_pcs/executor_from_pattern.rs:102-103 | the branch with hold: the board is kept, and every solution is kept by the hold checker with a hold matcher of the pattern |
| AllPcsFromPatternExecutors.AggregateNoHold | src/all_pcs/executor_from_pattern.rs:104-105 | the branch without hold: the board is kept, and every solution is kept by the plain pattern checker |
| PcSolutionSets.New | src/all_pcs/pc_solutions.rs:13-15 | keeps the board and the solutions in order |
| PcSolutionSets.Empty | src/all_pcs/pc_solutions.rs:18-20 | keeps the board and has no solution |
| PcSolutionSets.Len | src/all_pcs/pc_solutions.rs:23-25 | zero exactly when there is no solution |
| PcSolutionSets.IsEmpty | src/all_pcs/pc_solutions.rs:28-30 | empty exactly when the length is zero |
| PcSolutionSets.First | src/all_pcs/pc_solutions.rs:33-35 | none exactly when empty, and otherwise the first solution |
| VerticalParities.New | src/pc_possible/vertical_parity.rs:11-22 | the two counts are the free cells below the height in even and in odd columns |
| VerticalParities.NewCountsSpaces | src/pc_possible/vertical_parity.rs:11-22 | on a clipped board the even and odd counts add up to the board's free cells |
| VerticalParities.Place | src/pc_possible/vertical_parity.rs:24-30 | each count drops by the placed cells whose column has its parity |
| VerticalParities.PlaceLowersByFour | src/pc_possible/vertical_parity.rs:24-30 | placing a piece's four cells lowers the sum of the counts by exactly four |
| VerticalParities.OptionInFootprints | src/pc_possible/vertical_parity.rs:52-57 | every listed split of a shape, and its mirror, is a way the shape's four cells fall on even and odd columns |
| VerticalParities.FootprintFour | src/pc_possible/vertical_parity.rs:52-57 | every footprint splits exactly four cells, neither side negative |
| VerticalParities.PlanCovers | src/pc_possible/vertical_parity.rs:44-82 | a plan of footprints and at most one skip consumes four cells per used shape |
| VerticalParities.ValidatesSound | src/pc_possible/vertical_parity.rs:44-82 | a `true` verdict comes with a plan: each remaining shape used with one of its footprints, or skipped once with a hold, consuming both counts exactly |
| VerticalParities.ValidatesComplete | src/pc_possible/vertical_parity.rs:44-82 | any such plan makes the verdict `true` |
| VerticalParities.ValidatesIffSplits | src/pc_possible/vertical_parity.rs:44-82 | the verdict is `true` exactly when such a plan exists |
| VerticalParities.ValidatesNecessary | src/pc_possible/vertical_parity.rs:32-42 | a `true` verdict needs both counts non-negative and their sum a multiple of four |
| VerticalParities.HoldOnlyWidens | src/pc_possible/vertical_parity.rs:74-78 | allowing the hold never turns a `true` verdict into `false` |
| VerticalParities.ValidatesAsWrittenOutOfBounds | src/pc_possible/vertical_parity.rs:45-46 | the recursion as written reads past the last shape for one O, counts (1, 3) and a hold, which the debug assertion lets through |
| VerticalParities.ValidatesAsWrittenAgrees | src/pc_possible/vertical_parity.rs:44-82 | when the counts fit the shapes left (one fewer with a hold), the recursion as written stays in bounds and gives the verdict of `Validates` |
| BoardValidation.SegmentStart | src/pc_possible/executor.rs:31-50 | the wall opening the segment that ends at column `x` lies left of `x` |
| BoardValidation.SegmentsBeforeFit | src/pc_possible/executor.rs:31-50 | when every closed segment fits, the free cells left of any wall come in fours |
| BoardValidation.LastSegmentFits | src/pc_possible/executor.rs:31-50 | with all free cells in fours, the segment right of the last wall fits too |
| BoardValidation.ValidateBoard | src/pc_possible/executor.rs:31-50 | `true` exactly when the free cells between consecutive full-height columns come in fours (the same check is bulk_executor.rs:46-65 and executor_bulk.rs:27-46) |
| PcSearches.PeekFirst | src/pc_possible/executor.rs:267-289 | the shape `First` pops, present exactly when the cursor has one |
| PcSearches.DrawsWithinUnused | src/shape_order.rs:65 | a cursor never draws more shapes than it has unused |
| PcSearches.DrawsWithoutHold | src/shape_order.rs:65 | without a hold a fresh cursor draws exactly a prefix of the order |
| PcSearches.HoldDrawsMore | src/shape_order.rs:65 | whatever a cursor draws without a hold it also draws with one |
| PcSearches.DrawsStep | src/shape_order.rs:65 | a pop followed by a drawn rest draws the popped shape and the rest |
| PcSearches.PlacesLast | src/pc_possible/executor.rs:291-334 | a move below the height that empties the board places the one shape |
| PcSearches.PlacesStep | src/pc_possible/executor.rs:291-334 | a move below the height, then shapes that clear what is left under the lowered height, places all of them |
| PcSearches.Searcher.constructor | src/pc_possible/executor.rs:116-137 | the search keeps the move generator and its flags, with nothing visited |
| PcSearches.Searcher.ClearVisited | src/pc_possible/executor_bulk.rs:270-281 | the visited states are emptied before each order |
| PcSearches.Searcher.PopShape | src/pc_possible/executor.rs:267-289 | a result is the buffer's shapes followed by shapes that clear the board and that the cursor draws; without one the buffer is unchanged; visited states only grow |
| PcSearches.Searcher.Increment | src/pc_possible/executor.rs:291-334 | a result places the shape by one of its moves and completes the clear from there; without one the buffer is unchanged |
| PcSearches.Searcher.SearchPcOrder | src/pc_possible/executor.rs:255-265 | a found sequence is a perfect clear of the board that the order lets a player draw with the searcher's hold |
| PcSearches.RunTransfer | src/shape_sequence.rs:62-96 | what a fuzzy cursor run shows as known is drawn, with a hold, by a concrete cursor over a matching order |
| PcSearches.InferenceDraws | src/shape_sequence.rs:62-96 | every order the inference walk marks for a found sequence draws that sequence with a hold |
| PcPossibleDrivers.MarkInExpansion | src/pc_possible/executor.rs:15-18 | marking every expansion of a fuzzy order marks exactly the keys it matches |
| PcPossibleDrivers.MarkedAll | src/shape_sequence.rs:62-96 | marking each fuzzy order of the walk marks exactly the keys inferred from the found sequence |
| PcPossibleDrivers.VisitFuzzy | src/pc_possible/executor.rs:13-26 | the visitor accepts as succeeded exactly the keys matching the fuzzy order, keeping the key set |
| PcPossibleDrivers.MarkInferred | src/pc_possible/executor.rs:242-244 | the inference walk with the visitor marks succeeded exactly the keys inferred from the found sequence |
| PcPossibleDrivers.AcceptedSound | src/pc_possible/executor.rs:239-247 | recording the searched sequence's verdict keeps every success a clearable order and decides one more sequence |
| PcPossibleDrivers.MarkedSound | src/pc_possible/executor.rs:240-244 | marking the inferred keys keeps every success clearable for a player with a hold |
| PcPossibleDrivers.Record | src/pc_possible/executor.rs:237-248 | one step of the loop keeps the keys, keeps every success clearable, and decides the current sequence |
| PcPossibleDrivers.ExecuteWithEarlyStopping | src/pc_possible/executor.rs:221-253 | keys are the sequences; every success is clearable with the searcher's hold; the loop stops right after the callback first says stop, having decided every sequence it reached; without a stop nothing is pending |
| PcPossibleDrivers.DecidedVectors | src/pc_possible/executor.rs:221-253 | the sequences reached are the first vectors of the pattern, each with a verdict |
| PcPossibleDrivers.KeysOfVectors | src/pc_possible/executor.rs:223-226 | the keys are exactly the pattern's vectors as sequences |
| PcPossibleDrivers.AllDecided | src/pc_possible/pc_results.rs:234-264 | a table where every key has a verdict counts none pending and all accepted |
| PcPossibleExecutors.TryNew | src/pc_possible/executor.rs:116-137 | free cells not in fours, then too few shapes, are refused; the hold survives only when asked and the pattern has a shape to spare |
| PcPossibleExecutors.ExecuteWithEarlyStopping | src/pc_possible/executor.rs:221-253 | one key per vector of the pattern; successes are clearable with the executor's hold; early stop as the callback asks |
| PcPossibleExecutors.Execute | src/pc_possible/executor.rs:175-177 | every vector of the pattern is a key with a verdict, successes clearable |
| PcPossibleBulkExecutors.TryNew | src/pc_possible/bulk_executor.rs:133-158 | free cells not in fours, an empty pattern, then too few shapes, are refused in that order; hold as in the first generation |
| PcPossibleBulkExecutors.ExecuteWithEarlyStopping | src/pc_possible/bulk_executor.rs:238-274 | as the first generation, with visited states remembered per order |
| PcPossibleBulkExecutors.Execute | src/pc_possible/bulk_executor.rs:192-194 | every vector of the pattern is a key with a verdict, successes clearable |
| PcPossibleExecutorBulk.TryNew | src/pc_possible/executor_bulk.rs:126-164 | a board above 56 rows, free cells not in fours, then too few shapes, are refused in that order; the hold stays as asked and the spare-shape flag is recorded |
| PcPossibleExecutorBulk.NewSearcher | src/pc_possible/executor_bulk.rs:216-257 | the search uses the hold as asked, the parity hold only with a shape to spare, and remembers visited states |
| PcPossibleExecutorBulk.ExecuteWithEarlyStopping | src/pc_possible/executor_bulk.rs:216-257 | one key per vector of the pattern; successes clearable with the hold as asked; early stop as the callback asks |
| PcPossibleExecutorBulk.Execute | src/pc_possible/executor_bulk.rs:167-172 | every vector of the pattern is a key with a verdict, successes clearable |
| PcPossibleExecutorBulk.ExecuteSingle | src/pc_possible/executor_bulk.rs:261-268 | `true` only when the pattern's one sequence is clearable with the hold as asked |
| PcResultTables.Pending | src/pc_possible/pc_results.rs:22-29 | the keys are the given sequences, all pending |
| PcResultTables.GetIn | src/pc_possible/pc_results.rs:67-69 | a verdict exactly for decided keys, `None` for pending keys and strangers |
| PcResultTables.CountsAddUp | src/pc_possible/pc_results.rs:184-284 | succeeded plus failed is accepted, accepted plus pending is every key |
| PcResultTables.AcceptedKeepsKeys | src/pc_possible/pc_results.rs:32-39 | accepting keeps the keys, records the verdict for a key, leaves other verdicts alone and ignores strangers |
| PcResultTables.AcceptPendingCounts | src/pc_possible/pc_results.rs:32-39 | deciding a pending key moves one count from pending to its verdict |
| PcResultTables.PendingCounts | src/pc_possible/pc_results.rs:22-29 | a fresh table counts every key pending and none accepted |
| PcResultTables.PcResults.constructor | src/pc_possible/pc_results.rs:22-29 | the table holds every given sequence, pending |
| PcResultTables.PcResults.AcceptIfPresent | src/pc_possible/pc_results.rs:32-39 | answers whether the sequence is a key and records the verdict only then |
| PcResultTables.PcResults.AcceptedShapeSequences | src/pc_possible/pc_results.rs:97-102 | every decided key exactly once, as many as the accepted count |
| PcResultTables.TableExample | src/pc_possible/pc_results.rs:296-361 | the test table: counts after one success and one failure, a stranger refused, lookups |
| PcRates.AllFailed | src/commands/pc_rate.rs:230-237 | every given order is a key, failed |
| PcRates.IsSucceedIn | src/commands/pc_rate.rs:252-254 | a verdict exactly for keys, `Some(true)` exactly for successes |
| PcRates.IsFailedIn | src/commands/pc_rate.rs:257-259 | the opposite verdict for keys, `None` for strangers |
| PcRates.AddedCounts | src/commands/pc_rate.rs:240-244 | adding a success keeps the keys, changes only that order, and counts one more success only for a failed key |
| PcRates.AllFailedCounts | src/commands/pc_rate.rs:230-237 | a fresh table counts no success |
| PcRates.PcRateResult.constructor | src/commands/pc_rate.rs:230-237 | the table holds every given order, failed |
| PcRates.PcRateResult.AddSuccess | src/commands/pc_rate.rs:240-244 | the table becomes `Added` of the old one |
| PcRates.PcRateResult.Orders | src/commands/pc_rate.rs:262-264 | every key exactly once |
| PcRates.RateResultExample | src/commands/pc_rate.rs:295-319 | the test table: one order added, verdicts and counts as the test expects |
| PcRates.VisitFuzzy | src/commands/pc_rate.rs:44-55 | the visitor adds as successes exactly the keys matching the fuzzy order |
| PcRates.MarkInferred | src/commands/pc_rate.rs:214-216 | the inference walk marks exactly the keys inferred from the found sequence |
| PcRates.MarkedRateSound | src/commands/pc_rate.rs:214-216 | marking the inferred keys keeps every success clearable for a player with a hold |
| PcRates.ReducedHold | src/commands/pc_rate.rs:68 | the search holds only when asked and the pattern has a shape to spare |
| PcRates.SearchOrder | src/commands/pc_rate.rs:70-199 | a found sequence is a perfect clear that the order draws with the searcher's hold |
| PcRates.RecordAsWritten | src/commands/pc_rate.rs:206-217 | a found clear marks the inferred keys whatever the hold flag; successes stay clearable with a hold |
| PcRates.SuccessRatesAsWritten | src/commands/pc_rate.rs:59-220 | one key per vector of the pattern; every success clearable for a player with a hold, even when none was allowed |
| PcRates.Record | src/commands/pc_rate.rs:206-217 | the intended step: inferred keys only with a hold allowed, else the searched order alone |
| PcRates.SuccessRates | src/commands/pc_rate.rs:59-220 | one key per vector of the pattern; every success clearable with the hold the caller allowed |
| PcRates.PcSuccessRates | src/commands/pc_rate.rs:273-282 | runs the loop as written: keys are the pattern's vectors and successes are clearable with a hold |
| PcRates.InferenceIgnoresHoldFlag | src/commands/pc_rate.rs:206-217 | a clear found for T S marks the input S T, which a player without a hold cannot draw as T S |

## Left out

- The `bitris` game library is not part of this model: pieces, rotation systems and kicks, move rules and move generation, `Board64` operations and line clearing.
  - The search takes a move generator (`PcSearches.MoveGenerator`); `MovesValid` lists the only facts assumed of it.
  - The all-PCs code takes piece geometry and reachability as function parameters (`canonical`, `blocksOf`, `widthOf`, `canReach`, `BoardOps`).
- These are not modelled:
  - the binders (`binder*.rs`, `bulk_binder.rs`), `execute_instruction.rs` and the `mod.rs` re-exports;
  - the `Display`/`Debug` implementations and the iterators (`iter`, `into_iter`);
  - the unit tests and benches, except the ones restated as example lemmas.

  They are configuration, formatting and test plumbing around the modelled operations.
- Integer widths are not modelled.
  - u8 shape counts, u32 and u64 counters, i32 parity counts and usize indexes become unbounded `nat` or `int`.
  - u64 bit masks and boards become sets of cells.
  - No wrap-around is modelled. The counts involved stay far below these widths for boards of at most 64 rows.
- `PcRates.SuccessRatesAsWritten`, `PcRates.SuccessRates` and `PcRates.PcSuccessRates` require that the free cells come in fours and that `spaces / 4 <= dim_shapes`. In the source these are `assert_eq!`/`assert!` panics (pc_rate.rs:65-66), so the panic that the `fewer_patterns` test expects is not modelled.
- In every executor, `TryNew` turns `debug_assert!(0 < spaces)` into a requirement: a board that passes the other checks has a free cell.
- `AllPcsVisits.VisitAllDyn` requires fewer than 64 pieces, the bound its `u64` index set asserts.
- `AllPcsAggregators.AggregateWith` requires `Bounded`: a complete node is never reached with nothing placed, and no checker gets 64 pieces. The source's `len() - 1` would underflow in the first case, and that panic is not modelled.
- `AllPcsBulkExecutors.Execute` requires that the counted levels fit the fixed `[0; 100]` buffers and stay below 64. An index beyond the buffers would panic in the source, and that panic is not modelled.
- `HoldExpandedPatternShapeMatchers.MatchShape` does not model the `ArrayVec<_, 2>` store's panic on a third push.
  - `StoreValid` bounds the store at two entries.
  - `HoldExpandedMatching.FeedMatches` (through `WellFormed`) assumes `Roomy`: no expanded vector opens a third shared element while two are open. This is not derived from the pattern.
  - `OneSharedRoomy` proves `Roomy` for vectors with one shared group, as in the source's test.
- `AllPcsFromPatternExecutors.Execute` and `AllPcsFromCountersExecutors.Execute` do not model the builder of their generation (`Builder::new(clipped, counter, 10)`, `new_and_make_placed_pieces`). That builder is the parameter `build`.
  - Its results are assumed through the requirement `Built`, not proved: linked nodes, an item reachable from the head and, for patterns, depth below 64.
- `AllPcsExecutors.ExecuteCounter` states only the counter that `execute` builds from the order. `aggregate_with_sequence_order`, which it hands that counter to, belongs to another generation and is not part of this model.
- `PcSearches.Searcher.SearchPcOrder` and every `ExecuteWithEarlyStopping` prove only soundness: a success is a perfect clear that the order lets a player draw. A failed verdict is not proved to mean that no such clear exists. That would need the move generator (a parameter here) to be complete, and the wall, parity and visited-state cuts to be proved never to cut a clearable branch. The members below rest on the search and are sound only, for the same reason:
  - `PcPossibleExecutors.Execute`: a success is proved to come with a perfect clear; a failure is not proved to mean there is none.
  - `PcPossibleBulkExecutors.Execute`: a success is proved to come with a perfect clear; a failure is not proved to mean there is none.
  - `PcPossibleExecutorBulk.Execute`: a success is proved to come with a perfect clear; a failure is not proved to mean there is none.
  - `PcPossibleExecutorBulk.ExecuteSingle`: a success is proved to come with a perfect clear; a failure is not proved to mean there is none.
  - `PcRates.SuccessRatesAsWritten`: every order counted as a success has a perfect clear; an order not counted is not proved to have none, so the rate is a proved lower bound only.
  - `PcRates.SuccessRates`: every order counted as a success has a perfect clear; an order not counted is not proved to have none, so the rate is a proved lower bound only.
  - `PcRates.PcSuccessRates`: every order counted as a success has a perfect clear; an order not counted is not proved to have none, so the rate is a proved lower bound only.
- `PatternShapeMatchers.FeedIsContains` is proved only for `Matchable` patterns, where every element has at least one shape. `try_new` also accepts a `Fixed` of an empty `BitShapes`; on such an element the matcher fails where `contains` accepts (`EmptyFixedDisagrees`). The model does not say which of the two is meant.
- Several members turn a source `assert!` into a requirement, so the panic is not modelled:
  - `InternalClippedBoards.New` requires the board's top to be at most `height` (`assert!` in internals/clipped_board.rs:13);
  - `ShapeSequences.InferInput` requires the sequence to be no longer than `infer_size` (shape_sequence.rs:38);
  - `ShapeOrders.NewCursor` requires a non-empty order (shape_order.rs:23);
  - `PatternShapeMatchers.New` requires a non-empty pattern (pattern_shape_matcher.rs:82);
  - `AllPcsBuilders.Build` requires, through `Setup.Valid`, at least one indexed piece (all_pcs/builder.rs:35).
- `AllPcsBuilders.Built` is proved linked, with items that name arena entries (`BuiltWellLinked`, `BuiltItemsNameEntries`, `ReachSound`). It is not proved that the pieces along a path of items cover the free cells exactly once. The aggregator relies on that, and the model leaves it unproved.
- `PcSearches.ParityAllows` asks the parity cut only when the counts fit the shapes left (`Covered`). Outside that, the source would read past the last shape (see Findings) and the model does not cut. The executors and the rate command never leave `Covered`.
- `FuzzyShapeOrders.Build` passes the source's in-place `Vec` buffer as a value. The pushes and pops around each branch are implicit, so the reuse of one buffer is not modelled.
- `PcResultTables.PcResults.AcceptedShapeSequences` and `PcRates.PcRateResult.Orders` return each key once, in no particular order. The source uses `HashMap` iteration order, which is unspecified.

## Findings

| source | as written | input that shows it | evidently intended | confidence | as-written member | corrected member |
|---|---|---|---|---|---|---|
| src/all_pcs/bulk_executor.rs:78-95 | at an `ItemNode::ToHi` leaf, `self.ok(&x)` is called and its answer dropped, so a path ending at an item never adds to the count | `ItemLeafExample`, a one-item DAG whose item finishes the board: the count as written is 0 | count the path when its pieces can be put in (1 here) | medium, not executed | AllPcsBulkExecutors.AsWrittenSkipsItemLeaf | AllPcsBulkExecutors.AggregateCorrected |
| src/commands/pc_rate.rs:206-217 | a found perfect clear always goes through `infer_input_walk`, even when `allows_hold` is false | a pattern giving both `T S` and `S T`, no hold allowed: the clear found for `T S` also marks `S T`, from which a player without a hold draws `S` first | the inference walk only when the hold is allowed, otherwise mark the searched order alone | high, not executed | PcRates.InferenceIgnoresHoldFlag | PcRates.SuccessRates |
| src/all_pcs/builder.rs:101 | `assert!(index_serial < frontiers.len())` fails at a free cell that offers pieces when no frontier is pending (the same assert is at bulk_executor.rs:413) | a two-row board with a 2×2 hole in columns 7-8: the O at (7,0) completes the board, and at (7,1) pieces exist but nothing is pending | skip such a cell; the build is one jump to one terminal item | medium, not executed | AllPcsBuilders.OHolePanics | AllPcsBuilders.BuiltWellLinked |
| src/pc_possible/vertical_parity.rs:45-46 | the debug assertion bounds the counts by four per shape, but with a hold the skip branch recurses one index further, and `shapes[index]` reads past the end | one O, counts (1, 3), hold allowed: the O cannot be used, and the skip reaches index 1 of a one-shape list | bound the counts by four per shape after the hold's one, as all callers keep; then the verdict is `false` | low (callers never reach it), not executed | VerticalParities.ValidatesAsWrittenOutOfBounds | VerticalParities.ValidatesIffSplits |

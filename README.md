# Minesweeper probability engine, in Dafny

This project models the exact probability engine of the minesweeper
probability calculator's web page (`www/index.js`). The solver answers with
one record per independent subsystem of the board (a region of tiles tied
together by revealed numbers). Each record gives mine-frequency lists: how
many solutions put m mines in the subsystem, and, for each tile, how many of
those solutions have a mine on that tile. The page works in four steps:

1. It decodes those lists into `MineFrequencyGraph`s collected in an
   `MFGList`.
2. It convolves each subsystem's graphs with the global graphs of all the
   other subsystems (`convolve_all`).
3. `gm_probability` weighs every total mine count m by `comb(A, M - m)`. Here
   A is the number of free unknown tiles (those next to no number) and M is
   the mines left to place.
4. It shows an exact numerator over a shared denominator on every tile, or one
   of four error messages.

Also modelled: the undo ring `UndoQueue`, the `binary_search` dedup of the
flood fill, the arrow-key movement of the selection (`SelectedTile.shift`),
and the board geometry of `Play` (`to_i`, `to_xy`, `get_adj`).

The modules follow the page's structure:

- `Sums`: range sums and their algebra.
- `Binomial`: `C(n, k)` by Pascal's rule, the factorial form, and the
  iterative `comb`.
- `Distribution`: mine-count distributions as `map<nat, nat>`, their
  convolution, and the `MineFrequencyGraph` class.
- `Probability`: `gm_probability` stated on values, and lemmas saying what
  its numbers mean.
- `Aggregate`: the `MFGList` class, whose methods are proved against the
  value-level specification.
- `Regions`: the decoder `parse_probability_list`.
- `Undo`: the `UndoQueue` ring and `binary_search`.
- `Grid`: `Play.to_i`, `Play.to_xy` and `Play.get_adj`.
- `Selection`: `SelectedTile`.

### Notes on the code's formulas

- The combined distribution G is the global graph of subsystem 0 after
  `convolve_all`. `Aggregate.GlobalBecomesProduct` shows that every global
  graph then holds the product of all subsystems.
- The "too many mines" message quotes the largest mine count that is not
  above M (0 when there is none).
- The free tiles' numerator is `Σ gf · comb(A - 1, M - m - 1)`, over the
  shared denominator D. `Probability.FreeExpectation` proves this equals
  `Σ gf·(M - m)·comb(A, M - m)` divided by `A·D`: the expected number of the
  remaining mines that fall on one free tile.
- Without subsystems the free tiles show M over A, and M > A is reported as
  "too many mines".
- `parse_probability_list` and `gm_probability` never read the cancellation
  flag. `www/index.js:1231` sets it for the solver, which is left out.

## Model

| member | source | states |
|---|---|---|
| `Binomial.Comb` | www/index.js:1498-1509 | `comb(n, r)` equals the binomial coefficient `C(n, r)`: 0 outside `0..n`, and `res · r! · (n-r)! == n!` inside. The loop's running product stays exactly `C(n-r+i-1, i-1)`, so each division is exact. |
| `Binomial.CPositive` | www/index.js:1498-1500 | `C(n, k) > 0` exactly when `0 <= k <= n`: the zero cases of `comb` are exactly its guard. |
| `Binomial.Absorption` | www/index.js:1504-1507 | `k·C(n, k) == n·C(n-1, k-1)`: the identity behind the running product and the free-tile numerator. |
| `Binomial.FactorialForm` | www/index.js:1498-1509 | `C(n, k)·k!·(n-k)! == n!` for `0 <= k <= n`. |
| `Distribution.ConvolveMaps` | www/index.js:1322-1333 | The double loop over both maps, accumulating `sf·of` at key `sm + om` (missing entries read as 0), builds exactly the product polynomial `Conv(a, b)`. |
| `Distribution.AccumulateRow` | www/index.js:1325-1330 | The inner loop adds the row of one key `sm` to the map being built: the result is `Add(r0, Conv({sm: sf}, b))`. |
| `Distribution.AddAt` | www/index.js:1327-1328 | Adding `nf` at key `nm`, reading a missing entry as 0, is adding the one-entry map `{nm: nf}` to the accumulator. |
| `Distribution.CoefConv` | www/index.js:1322-1333 | The coefficient at k of a convolution is `Σ_{i<=k} a(i)·b(k-i)`. |
| `Distribution.ConvCommutes` | www/index.js:1322-1333 | Convolution is commutative, so the order of the other subsystems does not matter. |
| `Distribution.ConvAssociates` | www/index.js:1322-1333 | Convolution is associative, so folding the subsystems one at a time gives the full product. |
| `Distribution.ConvUnitRight` | www/index.js:1322-1333 | `{0: 1}` is the identity on the right. |
| `Distribution.ConvUnitLeft` | www/index.js:1322-1333 | `{0: 1}` is the identity on the left. |
| `Distribution.ConvAddLeft` | www/index.js:1322-1333 | Convolution distributes over adding distributions (left argument). |
| `Distribution.ConvAddRight` | www/index.js:1322-1333 | Convolution distributes over adding distributions (right argument). |
| `Distribution.ConvMonotone` | www/index.js:1322-1333 | Convolving with the same graph keeps the coefficient-wise order: a tile's graph stays below its subsystem's graph. |
| `Distribution.MineFrequencyGraph.constructor` | www/index.js:1309-1313 | A new graph belongs to the given subsystem, has no id (it is a global graph) and an empty map. |
| `Distribution.MineFrequencyGraph.AssignId` | www/index.js:1314-1318 | `assign_id` records the id and the tile position. |
| `Distribution.MineFrequencyGraph.AssignMf` | www/index.js:1319-1321 | `assign_mf` sets (or overwrites) the count of m mines. Nothing else changes. |
| `Distribution.MineFrequencyGraph.Convolve` | www/index.js:1322-1333 | `convolve` replaces the map by `Conv(old map, other)`. Only this graph's map changes, and `other` is a value, so it is left as it was. |
| `Aggregate.GlobalBecomesProduct` | www/index.js:1358-1364 | Folding every other subsystem into subsystem i's global graph gives the product of all subsystems, the same for every i. |
| `Aggregate.LocalBecomesProduct` | www/index.js:1358-1364 | A local graph ends up as its own graph times the product of the other subsystems' original graphs. |
| `Aggregate.LocalBelowProduct` | www/index.js:1358-1364 | A tile graph below its subsystem's graph stays below the combined global graph. |
| `Aggregate.FoldFactor` | www/index.js:1358-1364 | Folding the other subsystems into d is d times the fold into `{0: 1}`. |
| `Aggregate.MfgList.constructor` | www/index.js:1342-1345 | `new MFGList(len)` has len null global slots and len empty local lists. |
| `Aggregate.MfgList.SetGlobal` | www/index.js:1346-1348 | `set_global` fills one global slot. Nothing else changes, and no graph sits in two slots. |
| `Aggregate.MfgList.AddLocal` | www/index.js:1349-1351 | `add_local` appends one local graph to its subsystem. |
| `Aggregate.MfgList.ConvolveAll` | www/index.js:1352-1366 | Returns false, changing no graph, exactly when some global slot is null. Otherwise every global graph becomes the product of the snapshot taken first, and every local graph becomes its old graph times the product of the other subsystems' snapshots. |
| `Aggregate.MfgList.ConvolveSubsystem` | www/index.js:1359-1363 | The inner loop over j skips i and convolves subsystem i's global graph and all its local graphs with every other snapshot. |
| `Aggregate.MfgList.ConvolveEach` | www/index.js:1358-1364 | The second loop nest multiplies every global and every local graph of subsystem p by all the snapshots except p's own. |
| `Aggregate.MfgList.ConvolveRound` | www/index.js:1361-1362 | One step of the j loop multiplies subsystem i's global graph and each of its local graphs by the snapshot d. |
| `Aggregate.MfgList.ConvolveLocals` | www/index.js:1362 | The `forEach` multiplies every local graph of subsystem i by d. |
| `Aggregate.MfgList.Snapshot` | www/index.js:1353-1357 | The first loop gives up on a null slot and otherwise copies every global map. |
| `Aggregate.MfgList.CountAdjacent` | www/index.js:1373-1374 | `adjacent_tiles` is the total number of local graphs. |
| `Aggregate.MfgList.ShareAll` | www/index.js:1428-1458 | Every local graph gets the numerator `Σ_{gm<=M} gf·comb(A, M-gm)` and its shading against the denominator. |
| `Aggregate.MfgList.ShareRow` | www/index.js:1429-1457 | For the local graphs of one subsystem, each numerator is `Σ_{gm<=M} gf·comb(A, M-gm)` with its shade, in tile order. |
| `Aggregate.MfgList.GmProbability` | www/index.js:1368-1496 | `gm_probability` produces exactly `Probability.GlobalProbability` of the list's converged graphs: the same error, with the same quoted numbers, or the same numerators, denominator and shades. |
| `Probability.CountTiles` | www/index.js:1376-1384 | The board pass counts the unknown tiles, and the mines and flags when flags are included. |
| `Probability.CountPartition` | www/index.js:1376-1384 | Every tile has exactly one kind, so the counts add up to the board size. |
| `Probability.ScanGlobal` | www/index.js:1399-1410 | The loop over the global map gives D, the free numerator, `min_gm` over all keys, `max_gm` over keys within M (or 0), and the number of keys above M. |
| `Probability.ScanKey` | www/index.js:1401-1409 | One pass of the loop body keeps the scan's invariant: D, the free numerator, `min_gm`, `max_gm` and the skip count are those of the keys seen so far, now including gm. |
| `Probability.ScanMin` | www/index.js:1402 | `Math.min(min_gm, gm)` is the least key seen so far. |
| `Probability.ScanMax` | www/index.js:1409 | `Math.max(max_gm, gm)` for a key within M is the largest key seen so far that is not above M, or 0. |
| `Probability.TileNumerator` | www/index.js:1430-1434 | A tile's loop skips keys above M and sums `gf·comb(A, M-gm)`. |
| `Probability.WeightOf` | www/index.js:1407 | One term `gf·comb(n, r-gm)` of a sum. |
| `Probability.ShadeOf` | www/index.js:1444-1455 | The class is mine exactly when numerator equals denominator, and clear exactly when the numerator is 0 and differs from the denominator. |
| `Probability.NegativeCase` | www/index.js:1385-1392 | A negative budget is the first error, quoting the budget and the mines and flags placed. |
| `Probability.TooFewCase` | www/index.js:1411-1418 | A non-empty global map with every key above M is the "too little mines" error, quoting the least key. |
| `Probability.TooManyCase` | www/index.js:1419-1426 | Otherwise a zero denominator is the "too many mines" error, quoting `max_gm` and A. |
| `Probability.ShownCase` | www/index.js:1428-1495 | Otherwise the probabilities are shown over D, with the free numerator. |
| `Probability.NoRegionsCase` | www/index.js:1460-1471 | Without subsystems: M > A is an error, otherwise the free tiles show M over A. |
| `Probability.DenominatorPositive` | www/index.js:1407 | `D > 0` exactly when some solution with `gm <= M` mines leaves `M - gm` mines that fit on the A free tiles. |
| `Probability.TooFewHasNoDenominator` | www/index.js:1411-1418 | When every key is above M the denominator is 0, so the too-few check decides before the too-many check can. |
| `Probability.NumeratorBounded` | www/index.js:1430-1435 | A tile's numerator never exceeds the denominator when the tile's graph is below the global graph. |
| `Probability.CertainMine` | www/index.js:1444-1445 | `N == D` (shaded as a mine) exactly when, for every mine count that can be completed on the free tiles, every solution has a mine on the tile. |
| `Probability.CertainClear` | www/index.js:1446-1447 | `N == 0` (shaded clear) exactly when no solution that can be completed has a mine on the tile. |
| `Probability.FreeExpectation` | www/index.js:1408 | `A·na == Σ_m gf·(M-m)·comb(A, M-m)`: the free numerator over D is the expected share of the remaining mines on one free tile. |
| `Probability.SingleSolution` | www/index.js:1408 | With a single mine count m0 the free probability is `(M - m0) / A`. |
| `Probability.NoRegionsShortcut` | www/index.js:1459-1471 | Without subsystems the general formula with the graph `{0: 1}` gives `D = comb(A, M)`, which is 0 exactly when M > A. `A·na == M·D`, so the shortcut M / A is the same probability. |
| `Probability.AllSkipped` | www/index.js:1411 | The size test `gmfg.size == too_many_skip` holds exactly when the map is non-empty and every key is above M. |
| `Regions.LastWins` | www/index.js:1632-1637 | In a decoded graph, each mine count holds the value of the last list entry with that count. |
| `Regions.DistOfKeys` | www/index.js:1632-1637 | The keys of a decoded graph are exactly the mine counts the list mentions. |
| `Regions.DistinctList` | www/index.js:1632-1637 | A list without repeated mine counts decodes to the graph that has exactly its entries. |
| `Regions.AssignAll` | www/index.js:1667-1677 | The `assign_mf` loop leaves the graph that results from applying the list in order. |
| `Regions.DecodeLocation` | www/index.js:1627-1639 | Each tile gets a fresh local graph with its subsystem, id, position and decoded distribution, appended to its subsystem. |
| `Regions.DecodeGlobal` | www/index.js:1666-1678 | A solved subsystem gets a fresh global graph from its own list. |
| `Regions.DecodeRegion` | www/index.js:1613-1693 | A solved subsystem gets its local graphs in tile order and then its global graph. Outside the Global mode each tile shows count / total, shaded mine when count equals total and clear when count is 0. A failed subsystem only marks its tiles with its status. |
| `Regions.DecodeAll` | www/index.js:1605-1694 | Decoding fills every slot as its record says, in a fresh list whose graphs are all fresh. |
| `Regions.Converge` | www/index.js:1695 | `convolve_all` on the decoded list goes ahead exactly when every subsystem was solved. Then every global graph is the product of the decoded subsystems, and every local graph is its decoded graph times the others. |
| `Regions.ParseProbabilityList` | www/index.js:1586-1714 | The whole decoder returns the report `Expected` gives: the calculation's error, or per subsystem the local shares and error tiles, whether the graphs converged, the whole-system distribution summarised (only when recalculated with more than one subsystem), and, in the Global mode, `GlobalProbability` of the decoded and convolved values. |
| `Undo.PushThenPop` | www/index.js:71-80 | An undo right after an edit returns that edit and moves the queue back to where it was; only the used slot is left empty. |
| `Undo.PopThenPush` | www/index.js:71-80 | Storing again what an undo returned restores the queue. |
| `Undo.PopEmpty` | www/index.js:75-80 | Undoing with nothing stored returns null and keeps every slot empty. |
| `Undo.UndoReversesHistory` | www/index.js:65-80 | After at most 100 edits, as many undos return them newest first. |
| `Undo.UndoUntilEmpty` | www/index.js:67-80 | After fewer than 100 edits from a cleared queue, undoing them all returns them newest first and leaves the queue cleared. One more undo returns null, the value the key handler reports as "Unable to Undo", and every slot stays empty. |
| `Undo.PushAllLayout` | www/index.js:71-74 | After at most 100 edits from slot b, edit j sits in slot `(b + j) % 100` and the next slot is `(b + count) % 100`. |
| `Undo.PopManyReverse` | www/index.js:75-80 | Undos walk back through the slots and return what each one holds. |
| `Undo.Back` | www/index.js:76 | `(SIZE - 1 + next) % SIZE` is the slot before `next`, wrapping 0 to 99. |
| `Undo.UndoQueue.constructor` | www/index.js:67-70 | A new queue has 100 empty slots and next slot 0. |
| `Undo.UndoQueue.PushUndo` | www/index.js:71-74 | `push_undo` is `Push` on the ring held in the buffer. |
| `Undo.UndoQueue.PopUndo` | www/index.js:75-80 | `pop_undo` is `Pop` on the ring held in the buffer. |
| `Undo.UndoQueue.Clear` | www/index.js:81-84 | `clear` empties every slot and resets the next slot to 0. |
| `Undo.Ord` | www/index.js:1100-1102 | `undo_node_ord` is negative, zero or positive as the row-major keys compare. |
| `Undo.KeyInjective` | www/index.js:1100-1102 | On a board `columns` wide, two tiles share a key only when they are the same tile. |
| `Undo.BinarySearch` | www/index.js:1089-1099 | On a list sorted by key, the result is -1 exactly when no tile has the target's key, and otherwise an index of a tile with that key. |
| `Undo.InsertSorted` | www/index.js:1133-1136 | Pushing a tile with a new key and sorting again keeps the list strictly sorted. |
| `Undo.InsertElements` | www/index.js:1133-1136 | Pushing and sorting again adds exactly that tile to the list. |
| `Undo.AddUnique` | www/index.js:1133-1136 | The dedup keeps the list strictly sorted and leaves the tile's key present. A new key adds exactly that tile; a known key leaves the list unchanged. |
| `Grid.PositionRoundTrip` | www/index.js:2150-2155 | `to_xy(to_i(x, y)) == (x, y)` for `0 <= x < width`. |
| `Grid.IndexRoundTrip` | www/index.js:2150-2155 | `to_i(to_xy(i)) == i`, and the column is in `0..width-1`. |
| `Grid.IndexOnBoard` | www/index.js:2150-2152 | Indices below `width·height` are exactly the positions on the board. |
| `Grid.IndexInjective` | www/index.js:2153-2155 | Distinct tiles of the board have distinct indices. |
| `Grid.AdjacentStep` | www/index.js:2156-2184 | For a tile on the board, `get_adj` in a direction gives the index of the tile one step away when that tile is on the board, and null otherwise. |
| `Grid.NeighboursComplete` | www/index.js:2156-2184 | The eight directions reach exactly the board tiles that touch the tile. |
| `Grid.DirectionOf` | www/index.js:2130-2137 | Every non-zero offset of at most one step is one of the eight directions. |
| `Selection.ShiftStaysOnBoard` | www/index.js:812-865 | A selection on the board stays on the board after a shift. |
| `Selection.ShiftMovesWhenRoom` | www/index.js:812-865 | On the board, a shift moves the selection one step exactly when the moved selection still fits on the board, and otherwise leaves it. |
| `Selection.ShiftBack` | www/index.js:812-865 | A shift that moved the selection is undone by the opposite shift. |
| `Selection.ShiftKeepsShape` | www/index.js:812-865 | A shift keeps the kind and the size of the selection. |
| `Selection.OneIsUnitRectangle` | www/index.js:815-836 | A selection of one tile moves exactly as a 1 x 1 rectangle. |
| `Selection.SelectedTile.Shift` | www/index.js:812-865 | `shift` replaces the selection by `Shifted` and keeps it on the board. |
| `Selection.SelectedTile.SelectNone` | www/index.js:800-803 | `select_none` clears the selection. |
| `Selection.SelectedTile.SelectOne` | www/index.js:804-807 | `select_one` selects one tile. |
| `Selection.SelectedTile.SelectMany` | www/index.js:808-811 | `select_many` selects the w x h rectangle at (x, y). |

## Left out

- The DOM and KaTeX output is left out: text, classes, colours, flash messages and the results pane. Outcomes are returned as values that carry the numbers the messages quote.
- `format_percentage` and `color_lerp` are left out because they are floating point. The model keeps the exact numerator and denominator.
- Reading the solver's answer out of WebAssembly memory (`DataView`, pointers and offsets) is left out. The answer is taken as datatypes.
- The solver itself, its worker, `Atomics` and `www/calculate.js` are not part of this model.
- Cancelling a running calculation (`www/index.js:1231`) is left out with the solver. The decoder and `gm_probability` never read the flag.
- The `freq_a` and `freq_na` data attributes kept for the tooltip are left out.
- The "Whole System" text of the results pane, including its total of solutions, is left out. The model returns the distribution that text prints.
- `gm_count` comes from `parseInt` of a text field, so it may be NaN. It is modelled as an integer.
- Board tiles are reduced to the four kinds `gm_probability` tells apart.
- The 0/0 case is not reproduced. It arises with no subsystems and no unknown tiles at all, where the free shade has no tile to go to. The model then returns free count 0 with shade mine.
- `Aggregate.MfgList.GmProbability`: requires a non-null first global slot when there are subsystems. `parse_probability_list` only calls it after `convolve_all` succeeded.
- `Aggregate.MfgList.SetGlobal`: requires that the graph is in no slot yet. The decoder always passes a fresh graph, and the model relies on this to rule out aliasing.
- `Aggregate.MfgList.AddLocal`: requires that the graph is in no slot yet, for the same reason.
- The `Play` game loop, clipboard, OCR, the flood fill's walk over the board, and the rest of the editor are left out. Only its dedup step (`Undo.AddUnique`) is modelled.
- `Undo.AddUnique`: `Array.prototype.sort` is modelled by inserting the new tile into the sorted list. When keys are distinct this is the only strictly sorted result.
- `Selection.SelectedTile.Shift`: positions are unbounded integers and `rows`/`columns` are parameters. The `console.assert` on them is left out.
- The page's `mfg_list` global is modelled as the list `Regions.ParseProbabilityList` returns. On a failed calculation no list is returned, and the page keeps its old one.
- Iteration order over JavaScript `Map`s is not modelled. Every result is proved independent of it: sums and convolutions are over all keys.
- Numbers are unbounded integers. The source uses `BigInt` for counts and `Number` for positions, and no wrap-around is involved.

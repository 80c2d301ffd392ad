# PCISPH solver service: host-side bookkeeping

This project models the sequential host code of `SPHSolverService`, the Geppetto solver that
drives a predictive-corrective SPH (PCISPH) fluid simulation on an OpenCL device. The model
covers the integer and sequence logic the host runs around the device kernels and proves
properties of it. The kernels themselves are not modelled.

- **Work sizes** (`WorkSize`, `JavaInt`): each dispatch size is `((n - 1) / 256 + 1) * 256`
  in Java `int` arithmetic, with truncating division and 32-bit wrap-around. The model proves
  that it covers `n` with less than one group of slack, that it is 256 for `n = 0`, and that
  it wraps to `MinInt` above `MaxInt - 255`.
- **Scene loading** (`Scene`, `Grid`, `SolverService.Solver.SetBuffersFromModel`):
  - grid dimensions, and the buffer-size table of `allocateBuffers`;
  - the stride-4 layout of positions and velocities;
  - the tally of boundary, elastic and liquid type tags, and the consistency check behind
    `IllegalArgumentException`;
  - the packing of elastic connections, four floats each with a zero pad;
  - the activation buffer of at least one slot.
- **Sort of the particle index** (`ParticleSort`): `runSort` with `MyCompare`, modelled as a
  stable insertion sort by cell id. The model proves that the result is sorted, is a
  permutation and is stable. It also proves that every stable sort by cell id gives the same
  result, so the choice of algorithm does not matter.
- **Cell table post-pass** (`CellIndex`): the right-to-left fill-forward of `runIndexPostPass`,
  seeded with the cell count, as an in-place array method.
- **Step order** (`Orchestration`, `SolverService.Solver.Step`): one step is recorded as a
  trace of dispatches, host stages, waits and the queue drain. The model proves:
  - exactly three predictor-corrector rounds, each in order;
  - the elastic stage iff there are elastic particles;
  - host stages after a wait on their producer;
  - integration last;
  - every work size covering its domain.
- **Watch names** (`Watch`): cutting one `[N]` selector out of a name, `Integer.parseInt`,
  the bounds check, and the nested matching loops of `updateStateTreeForWatch`.

Device buffers are `seq` fields of the class `Solver`. The host algorithms copy a buffer
into an `array`, run an in-place method on it and write it back, as the source does with
`getInts`/`setInts`. Values that kernels compute enter `Step` as parameters:
- the hashed particle index;
- the indexed cell table;
- the integrated positions and velocities.

The solver constants (`NEIGHBOR_COUNT`, the three type tags, `NO_CELL_ID`) and the float
quotient `(int)((max - min) / H)` of each axis are parameters too.

Two details of the code are modelled as written:
- The post-pass is seeded with `_gridCellCount`, although the entries of the cell table are
  particle indices. The seed is read only for empty slots after the last filled one, and
  `CellIndex.PostPassSortedIff` states when it keeps the table in order.
- Each axis gets `(int)(span / H) + 1` cells: the truncated quotient plus one, not a ceiling.

## Model

| member | source | states |
|---|---|---|
| JavaInt.Wrap | src/main/java/org/geppetto/solver/sph/SPHSolverService.java:967-969 | the result is an `int`, equals the exact value when that fits, and differs from it by a multiple of 2^32 |
| JavaInt.Div | src/main/java/org/geppetto/solver/sph/SPHSolverService.java:967-969 | the quotient truncates toward zero: the remainder is smaller than the divisor in magnitude and has the dividend's sign or is zero |
| WorkSize.RoundedUpCovers | src/main/java/org/geppetto/solver/sph/SPHSolverService.java:967-969 | for `1 <= n <= MaxInt - 255` the work size is a multiple of 256 with `n <= size < n + 256` |
| WorkSize.RoundedUpOfZero | src/main/java/org/geppetto/solver/sph/SPHSolverService.java:968 | zero items give 256, because Java's `-1 / 256` is 0; the Euclidean formula would give 0 |
| WorkSize.RoundedUpPositive | src/main/java/org/geppetto/solver/sph/SPHSolverService.java:536 | every count from 0 to `MaxInt - 255` (cells at :536, elastic particles at :627) gets a positive multiple of 256 at least as large as itself |
| WorkSize.RoundedUpOverflows | src/main/java/org/geppetto/solver/sph/SPHSolverService.java:968 | above `MaxInt - 255` the product wraps and the work size is `MinInt` |
| Grid.GridNonEmpty | src/main/java/org/geppetto/solver/sph/SPHSolverService.java:354-359 | a box with non-negative extent has at least one cell per axis and a cell count at least each axis |
| Grid.CellsCoverSpan | src/main/java/org/geppetto/solver/sph/SPHSolverService.java:354-356 | over the reals, `floor(span / h) + 1` cells of width `h` give every point of the span an in-range cell index |
| Grid.SizeTableFitsAccesses | src/main/java/org/geppetto/solver/sph/SPHSolverService.java:280-295 | every table size is non-negative; the stride-4 layout fills position and velocity exactly; the flattened pairs fill the particle index; slot `cells` is in range of both cell tables |
| Grid.ConnectionsFit | src/main/java/org/geppetto/solver/sph/SPHSolverService.java:408-409 | the packed connections fit the connection buffer iff there are at most `NEIGHBOR_COUNT` per elastic particle; the load's precondition is stated per particle and this lemma carries it to the buffer |
| CellIndex.IndexPostPass | src/main/java/org/geppetto/solver/sph/SPHSolverService.java:511-518 | the descending loop leaves the array equal to `PostPass` of its old contents, seeded with `gridCellCount` |
| CellIndex.NextNonEmptyIsNearest | src/main/java/org/geppetto/solver/sph/SPHSolverService.java:511-517 | the running `recentNonEmptyCell` is the value of the nearest filled slot at or right of `j`, or the seed if there is none |
| CellIndex.EmptySlotTakesNearestRight | src/main/java/org/geppetto/solver/sph/SPHSolverService.java:512-514 | each former `NO_CELL_ID` slot holds the nearest filled value to its right, or `gridCellCount` when all slots to its right are empty |
| CellIndex.FilledSlotsUnchanged | src/main/java/org/geppetto/solver/sph/SPHSolverService.java:515-517 | the pass keeps the length and every slot that was not `NO_CELL_ID` |
| CellIndex.NextNonEmptyIsFilled | src/main/java/org/geppetto/solver/sph/SPHSolverService.java:511-516 | with a seed other than `NO_CELL_ID`, the running value is never `NO_CELL_ID` |
| CellIndex.NoEmptySlotLeft | src/main/java/org/geppetto/solver/sph/SPHSolverService.java:511-518 | with a seed other than `NO_CELL_ID`, no slot holds `NO_CELL_ID` afterwards |
| CellIndex.PostPassIdempotent | src/main/java/org/geppetto/solver/sph/SPHSolverService.java:511-518 | running the pass on its own output changes nothing |
| CellIndex.NextNonEmptyBounds | src/main/java/org/geppetto/solver/sph/SPHSolverService.java:511-517 | on a table whose filled slots ascend and stay at most the seed, the running value is at most the seed and at most every filled slot to its right |
| CellIndex.NextNonEmptyMonotone | src/main/java/org/geppetto/solver/sph/SPHSolverService.java:511-517 | on such a table the running value does not decrease as the start moves right |
| CellIndex.SeedUnusedWhenLastFilled | src/main/java/org/geppetto/solver/sph/SPHSolverService.java:511-518 | when the last slot is filled, the result does not depend on the seed |
| CellIndex.PostPassSortedIff | src/main/java/org/geppetto/solver/sph/SPHSolverService.java:511-518 | the table is non-decreasing afterwards iff its filled slots ascend and either its last slot is filled or no filled slot exceeds the seed `gridCellCount` |
| ParticleSort.Compare | src/main/java/org/geppetto/solver/sph/SPHSolverService.java:801-809 | negative iff the first cell id is smaller, positive iff it is larger; particle ids are ignored |
| ParticleSort.CompareIsTotalPreorder | src/main/java/org/geppetto/solver/sph/SPHSolverService.java:801-809 | the comparator is antisymmetric, transitive and consistent on ties, as `Collections.sort` requires |
| ParticleSort.UnflattenFlatten | src/main/java/org/geppetto/solver/sph/SPHSolverService.java:782-792 | reading pairs back from the flat buffer written from them gives the same pairs |
| ParticleSort.FlattenUnflatten | src/main/java/org/geppetto/solver/sph/SPHSolverService.java:782-792 | writing back the pairs read from an even-length buffer restores the buffer |
| ParticleSort.FlattenAt | src/main/java/org/geppetto/solver/sph/SPHSolverService.java:787-792 | pair `i` sits at flat positions `2i` (cell id) and `2i + 1` (particle id) |
| ParticleSort.SortByCellSorted | src/main/java/org/geppetto/solver/sph/SPHSolverService.java:786 | the sorted pairs have non-decreasing cell ids |
| ParticleSort.SortByCellPermutes | src/main/java/org/geppetto/solver/sph/SPHSolverService.java:786 | the sort is a permutation: same multiset of pairs |
| ParticleSort.SortByCellStable | src/main/java/org/geppetto/solver/sph/SPHSolverService.java:786 | for every cell id, the pairs with that id keep their original relative order |
| ParticleSort.StableSortUnique | src/main/java/org/geppetto/solver/sph/SPHSolverService.java:786 | two sequences sorted by cell id with the same per-cell order are equal |
| ParticleSort.StableSortIsSortByCell | src/main/java/org/geppetto/solver/sph/SPHSolverService.java:786 | any sorted, per-cell-order-preserving arrangement of the pairs is `SortByCell`'s result, so `Collections.sort` gives it too |
| ParticleSort.SortedIndexProperties | src/main/java/org/geppetto/solver/sph/SPHSolverService.java:782-792 | after the sort the even positions are non-decreasing, the pairs are a permutation of the old ones, and the ints past `2n` are untouched |
| ParticleSort.SortParticleIndex | src/main/java/org/geppetto/solver/sph/SPHSolverService.java:780-795 | the in-place sort leaves the array equal to `SortedIndex` of its old contents |
| ParticleSort.ReadPairs | src/main/java/org/geppetto/solver/sph/SPHSolverService.java:782-785 | the read loop yields exactly the pairs of the first `2n` ints |
| ParticleSort.WritePairs | src/main/java/org/geppetto/solver/sph/SPHSolverService.java:787-792 | the nested write loop stores the flattened pairs at the front and leaves the rest of the array as it was |
| Scene.Classify | src/main/java/org/geppetto/solver/sph/SPHSolverService.java:395-401 | boundary iff the tag is the boundary tag; elastic iff not boundary and elastic; liquid iff neither and liquid |
| Scene.CountsPartition | src/main/java/org/geppetto/solver/sph/SPHSolverService.java:395-401 | the boundary, elastic, liquid and untyped tallies sum to the particle count |
| Scene.CountZeroMeansNone | src/main/java/org/geppetto/solver/sph/SPHSolverService.java:395-401 | a tally is zero iff no particle is classified that way |
| Scene.CountsAddUpIffAllTyped | src/main/java/org/geppetto/solver/sph/SPHSolverService.java:446-449 | the three tallies add up to the count (no exception) iff every particle carries one of the three tags |
| Scene.LayoutAt | src/main/java/org/geppetto/solver/sph/SPHSolverService.java:381-388 | component `c` of vector `i` sits at slot `4i + c` |
| Scene.UnlayoutLayout | src/main/java/org/geppetto/solver/sph/SPHSolverService.java:381-388 | reading the stride-4 buffer back gives the vectors that were laid out |
| Scene.TypeTagSlot | src/main/java/org/geppetto/solver/sph/SPHSolverService.java:384 | the type tag of particle `i` is slot `4i + 3` of the position buffer |
| Scene.PackConnectionsAt | src/main/java/org/geppetto/solver/sph/SPHSolverService.java:417-424 | connection `k` occupies slots `4k` to `4k + 3`: partner, distance, third value, zero pad |
| Scene.UnpackPack | src/main/java/org/geppetto/solver/sph/SPHSolverService.java:417-424 | unpacking the connection buffer gives back the model's connections |
| Scene.ActivationSlots | src/main/java/org/geppetto/solver/sph/SPHSolverService.java:432-442 | at least one slot and at least the bundle count; exactly the bundle count when positive, else one |
| Orchestration.RoundsCount | src/main/java/org/geppetto/solver/sph/SPHSolverService.java:921-930 | `n` rounds dispatch each predictor-corrector kernel exactly `n` times |
| Orchestration.ThreeRoundsPerStep | src/main/java/org/geppetto/solver/sph/SPHSolverService.java:919-930 | in a step each of the four predictor-corrector kernels is dispatched exactly 3 times, whatever the fluid state |
| Orchestration.RoundsInOrder | src/main/java/org/geppetto/solver/sph/SPHSolverService.java:923-928 | every predict-positions dispatch is followed directly by predict density, correct pressure and pressure force |
| Orchestration.ElasticStageIffElasticParticles | src/main/java/org/geppetto/solver/sph/SPHSolverService.java:906-917 | the elastic kernel is dispatched in a step iff `numOfElasticP > 0` |
| Orchestration.ElasticStageBeforeRounds | src/main/java/org/geppetto/solver/sph/SPHSolverService.java:896-930 | an elastic dispatch comes after forces/init-pressure and before every predictor-corrector round |
| Orchestration.HostStagesWaitForTheirInput | src/main/java/org/geppetto/solver/sph/SPHSolverService.java:835-869 | each host stage comes directly after a wait on the kernel it reads, which comes directly after that kernel's dispatch |
| Orchestration.StepEndsWithIntegrate | src/main/java/org/geppetto/solver/sph/SPHSolverService.java:939-953 | a step ends with the integrate dispatch, a wait on it and the queue drain, and integrates nowhere earlier |
| Orchestration.DispatchesCoverTheirDomain | src/main/java/org/geppetto/solver/sph/SPHSolverService.java:536 | for counts up to `MaxInt - 255`, every dispatch size (particles, cells at :536, elastic particles at :627) is a positive multiple of 256 covering its domain |
| SolverService.StepEventsByStage | src/main/java/org/geppetto/solver/sph/SPHSolverService.java:817-953 | the step trace is the concatenation of the traces of its stages |
| SolverService.LoadParticles | src/main/java/org/geppetto/solver/sph/SPHSolverService.java:366-402 | the particle loop leaves both buffers as the stride-4 layout of the particles, and each tally equals the count of its class |
| SolverService.LoadConnections | src/main/java/org/geppetto/solver/sph/SPHSolverService.java:416-425 | the connection loop leaves the packed connections at the front of a buffer of the allocated size |
| SolverService.Solver.constructor | src/main/java/org/geppetto/solver/sph/SPHSolverService.java:100-192 | a new solver has zero counts, an empty size table, no elastic buffers, an empty watch list, is not watching and has an empty trace |
| SolverService.Solver.AllocateBuffers | src/main/java/org/geppetto/solver/sph/SPHSolverService.java:278-296 | the size table is overwritten with `SizeTable`'s entries, and each host buffer gets its table length |
| SolverService.Solver.EnterCounts | src/main/java/org/geppetto/solver/sph/SPHSolverService.java:340-359 | the bundle count (0 when absent), the particle count, zero tallies, `span + 1` cells per axis and their product, which is non-negative and an `int` |
| SolverService.Solver.EnterScene | src/main/java/org/geppetto/solver/sph/SPHSolverService.java:340-362 | the counts and grid as in `EnterCounts`, followed by `allocateBuffers` |
| SolverService.Solver.LoadElastic | src/main/java/org/geppetto/solver/sph/SPHSolverService.java:405-443 | with elastic particles and connections, the connection size is entered, the buffer holds the packed connections, and the activation buffer has `ActivationSlots` slots; otherwise nothing changes |
| SolverService.Solver.LoadScene | src/main/java/org/geppetto/solver/sph/SPHSolverService.java:364-449 | the layout, tallies and elastic buffers after the loops, and the result is true iff the tallies add up |
| SolverService.Solver.SetBuffersFromModel | src/main/java/org/geppetto/solver/sph/SPHSolverService.java:338-450 | the whole load: grid, size table, stride-4 buffers, type tallies, connection and activation buffers only with elastic particles and connections, and `countsAddUp` false exactly where the source throws |
| SolverService.Solver.RunSort | src/main/java/org/geppetto/solver/sph/SPHSolverService.java:772-799 | the particle index buffer becomes `SortedIndex` of itself, and a host sort stage is recorded |
| SolverService.Solver.RunIndexPostPass | src/main/java/org/geppetto/solver/sph/SPHSolverService.java:505-527 | the fixed-up buffer is `PostPass` of the cell table seeded with `gridCellCount`; the cell table is left as it is |
| SolverService.Solver.RunSortStage | src/main/java/org/geppetto/solver/sph/SPHSolverService.java:817-854 | clear, hash, wait on hash, sort, sort post-pass, with the sorted hashed index |
| SolverService.Solver.RunIndexStage | src/main/java/org/geppetto/solver/sph/SPHSolverService.java:856-904 | index, wait on index, post-pass, neighbours, density, forces/init-pressure, with the fixed-up table |
| SolverService.Solver.RunPredictorCorrector | src/main/java/org/geppetto/solver/sph/SPHSolverService.java:919-930 | the do-while loop appends exactly `MaxIterations` (3) rounds |
| SolverService.Solver.RunIntegrateStage | src/main/java/org/geppetto/solver/sph/SPHSolverService.java:939-953 | integrate, wait on it, drain the queue, with the integrated buffers |
| SolverService.Solver.Step | src/main/java/org/geppetto/solver/sph/SPHSolverService.java:811-961 | the trace grows by exactly `StepEvents`; the index is sorted and the table fixed up; the load invariant is kept |
| SolverService.Solver.AddWatchVariables | src/main/java/org/geppetto/solver/sph/SPHSolverService.java:1396-1398 | the names are appended to the watch list |
| SolverService.Solver.StartWatch | src/main/java/org/geppetto/solver/sph/SPHSolverService.java:1401-1403 | watching is on |
| SolverService.Solver.StopWatch | src/main/java/org/geppetto/solver/sph/SPHSolverService.java:1406-1408 | watching is off |
| SolverService.Solver.ClearWatchVariables | src/main/java/org/geppetto/solver/sph/SPHSolverService.java:1411-1413 | the watch list is empty |
| SolverService.Solver.ResolveWatches | src/main/java/org/geppetto/solver/sph/SPHSolverService.java:1070-1099 | resolving the watch list gives `MatchVariables` over the solver's list and particle count |
| Watch.IndexOf | src/main/java/org/geppetto/solver/sph/SPHSolverService.java:1081 | -1 iff the character is absent; otherwise the position of its first occurrence |
| Watch.SplitNameWithoutSelector | src/main/java/org/geppetto/solver/sph/SPHSolverService.java:1079-1081 | a name without `[` is kept whole, with no selector |
| Watch.SplitNameFails | src/main/java/org/geppetto/solver/sph/SPHSolverService.java:1083-1084 | cutting fails iff there is a `[` and the first `]` is missing or comes before it |
| Watch.SplitNameRoundTrip | src/main/java/org/geppetto/solver/sph/SPHSolverService.java:1081-1085 | `pre[sel]post` with a bracket-free `pre` and a `]`-free `sel` splits into path `pre + post` and selector `sel` |
| Watch.SplitNameParts | src/main/java/org/geppetto/solver/sph/SPHSolverService.java:1081-1085 | conversely, every split with a selector comes from such a name |
| Watch.ParseInt | src/main/java/org/geppetto/solver/sph/SPHSolverService.java:1095 | a parsed value is always an `int` |
| Watch.ParseDecimal | src/main/java/org/geppetto/solver/sph/SPHSolverService.java:1095 | every `int` printed in decimal parses back to itself |
| Watch.CheckRejects | src/main/java/org/geppetto/solver/sph/SPHSolverService.java:1093-1098 | the bounds check as written rejects iff the path matches and the selector parses to a value not below the count |
| Watch.CheckAccepts | src/main/java/org/geppetto/solver/sph/SPHSolverService.java:1088-1099 | the check as written yields a watch iff the path matches; the watch has the selector's parsed value |
| Watch.CheckInRange | src/main/java/org/geppetto/solver/sph/SPHSolverService.java:1093-1098 | the corrected check rejects iff the parsed selector is outside `0 .. count - 1`; an accepted particle is in range and is the parsed value |
| Watch.CheckInRangeAgrees | src/main/java/org/geppetto/solver/sph/SPHSolverService.java:1093-1098 | the corrected and the as-written checks differ only on selectors that parse to a negative number |
| Watch.MatchPathsSound | src/main/java/org/geppetto/solver/sph/SPHSolverService.java:1088-1099 | every resolved watch is of a path the variable offers, equal to the name without its selector, with an in-range particle |
| Watch.MatchPathsNone | src/main/java/org/geppetto/solver/sph/SPHSolverService.java:1088-1089 | a name matching none of the paths yields no watch |
| Watch.ResolvePaths | src/main/java/org/geppetto/solver/sph/SPHSolverService.java:1088-1099 | the loop over paths computes `MatchPaths`, stopping at the first exception of parsing or the bounds check |
| Watch.ResolveNames | src/main/java/org/geppetto/solver/sph/SPHSolverService.java:1073-1099 | the loop over names computes `MatchNames`, stopping at the first exception of cutting, parsing or the bounds check |
| Watch.ResolveWatchList | src/main/java/org/geppetto/solver/sph/SPHSolverService.java:1072-1099 | the loop over variables computes `MatchVariables`, stopping at the first exception of cutting, parsing or the bounds check |
| Watch.NegativeSelectorSplits | src/main/java/org/geppetto/solver/sph/SPHSolverService.java:1081-1084 | `particle[-1].x` splits into `particle.x` and the selector `-1` |
| Watch.NegativeSelectorAccepted | src/main/java/org/geppetto/solver/sph/SPHSolverService.java:1095-1098 | the as-written check accepts selector `-1` with one particle and watches particle -1 |
| Watch.LeafSlotAsWrittenMisreads | src/main/java/org/geppetto/solver/sph/SPHSolverService.java:1147-1156 | the as-written slot for particle 1's x is not `4 * 1 + 0` and reads particle 0's y |
| Watch.LeafSlotReadsComponent | src/main/java/org/geppetto/solver/sph/SPHSolverService.java:1147-1156 | the corrected slot `4 * id + axis` is in range and reads coordinate `axis` of particle `id` |

## Left out

- OpenCL context, program, kernel and buffer management, `setArg` and `enqueueNDRange`, map and unmap: these are foreign JavaCL calls. A dispatch is recorded in the trace with its work size, and a wait is recorded as an event.
- The kernel bodies (hash, sort post-pass, index, neighbours, density, pressure, integration): they are float code that runs on the device. Their outputs enter `Step` as parameters.
- The float grid computation `(int)((max - min) / H)`: each axis's truncated quotient is a parameter. `Grid.CellsCoverSpan` restates the covering over the reals.
- The contents of freshly allocated device buffers are unspecified. The model fills them with zeros, and no contract depends on that.
- SolverService.LoadConnections: the slots past the packed connections are not specified, because the source leaves them as the allocation leaves them.
- SolverService.Solver.SetBuffersFromModel: `_particleCount` above `|particles|` is a precondition. The source would throw `IndexOutOfBoundsException` from `List.get` after partial writes.
- SolverService.Solver.SetBuffersFromModel: the cell-count product, and a connection count exceeding `numOfElasticP * NEIGHBOR_COUNT`, are preconditions. The source would overflow the `int` or write past the buffer.
- SolverService.Solver.SetBuffersFromModel, SolverService.Solver.EnterCounts, SolverService.Solver.EnterScene: a negative cell count is a precondition. The product `CellCount(q_x + 1, q_y + 1, q_z + 1)` of the truncated quotients is negative when an odd number of axes have a quotient of -2 or less and none has -1; the source would then allocate cell tables of size `_gridCellCount + 1 <= 0`. Every other box is modelled: an axis inverted by less than `H` truncates to 0 and gets 1 cell, and a quotient of -1 gives an axis with 0 cells and a cell count of 0.
- SolverService.Solver.SetBuffersFromModel, Scene.Classify: the floats of positions, velocities, connections and type tags are `real`s compared with exact equality. Rounding and NaN are not modelled.
- Watch.Check, Watch.CheckInRange, Watch.MatchPaths, Watch.ResolvePaths, Watch.ResolveNames, Watch.ResolveWatchList: a name without a selector that matches a path ending in `x`, `y` or `z` yields a watch. The source, on building that leaf, unboxes the null `ID` in `_positionPtr.get(ID)` and throws `NullPointerException`. Leaf building depends on the state of the watch tree, which is not modelled.
- Grid.SizeTableFitsAccesses: the size products in the table are exact integers. The 32-bit wrap-around of `_particleCount * NEIGHBOR_COUNT * 2` and similar products is not modelled.
- Watch.ParseInt: only ASCII digits are accepted. `Integer.parseInt` also accepts other Unicode decimal digits.
- The watch and state trees: tree building, `containsNode`/`getNode`, the visitors and the values read into leaves. This is plumbing over an external tree library; only the slot arithmetic of the leaf read is modelled.
- Checkpoint recording, logging, timing and `_recordCheckPoints`: these are debug I/O with no effect on the buffers.
- The one-go and step-by-step runs and their no-NaN assertions: they depend on device float results.

## Findings

| source | as written | input that shows it | evidently intended | confidence | as-written member | corrected member |
|---|---|---|---|---|---|---|
| src/main/java/org/geppetto/solver/sph/SPHSolverService.java:1095-1098 | the selector is rejected only when `!(ID < _particleCount)`, so a negative index passes | watch name `particle[-1].x` with one particle: accepted as particle -1 | reject any index outside `0 .. _particleCount - 1` | not executed | Watch.NegativeSelectorAccepted | Watch.CheckInRange |
| src/main/java/org/geppetto/solver/sph/SPHSolverService.java:1147-1156 | the leaf reads `_positionPtr.get(ID + axis)`, although particles are stored at stride 4 | `particle[1].x`: reads slot 1, which is particle 0's y | read slot `4 * ID + axis` | not executed | Watch.LeafSlotAsWrittenMisreads | Watch.LeafSlotReadsComponent |

The watch resolution (`Watch.MatchPaths` and the loops over it) uses the corrected check.
The refresh visitor at :1171 is given the position buffer for both positions and velocities.
The visitor is not modelled, so that discrepancy is noted but has no member.

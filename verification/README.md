# Voxel tree tile pipeline: build/merge bookkeeping

This project models the bookkeeping core of `VoxelTree` from the voxelized-shadows
renderer. The tree splits the shadow domain into an N x N grid of tiles. It builds
at most `ConcurrentBuilds` tiles at a time, each in a background builder. A merge
thread appends each finished tile's subtree to one shared arena and records the
tile's root address. The per-frame driver republishes the root addresses whenever
more tiles have completed than the GPU has seen.

With OpenGL, matrix maths and threads taken away, what remains is a state machine:

- three counters: `startedTiles_`, `completedTiles_` and `tilesOnGPU_`;
- the list of active builder handles, each with a tile index and a `Building`/`Done` state;
- the per-tile root pointer table `treePointers_`;
- the root addresses of the last uploaded uniform buffer (stride 4).

The state is the immutable record `VoxelTree.Tree`. Each source operation is a pure
step function. The two threads are modelled as interleaved atomic steps (`VoxelTree.Step`):

- `AdmitTile` is the admission half of `updateBuild`: the cap gate, then `processFirstQueuedTile`.
- `BuilderDone(i)`: builder `i` reaches `Done`. The builder decides this, so the step is nondeterministic.
- `MergeTile(root)` is one iteration of the `mergeTiles` loop: find a finished builder and remove it, set its tile's root, count it as completed. `root` is the address `writeTree` returns.
- `PublishTiles(padding)` is the publish half of `updateBuild`.

Only the `push_back` in `processFirstQueuedTile` and the scan-and-remove in `findFinishedBuilder`
run under `activeTilesMutex_`. Every other step being atomic is a modelling assumption:
the cap check reads `activeTiles_.size()` without the lock, and the counter and root-table
updates have no lock and no atomics.

`TileSubdivisons` and `ConcurrentBuilds` are header constants. They are not part of this
model, so they become fields of the state, fixed at construction and required to be at least 1.

Three fields of the record are not fields of the program:

- `merged` lists each merge in order, as a (tile, root) pair. It lets the model state
  properties of the whole history: each tile is merged once, and its root is the address
  that merge returned.
- `dummyRoot` is the constructor's local `nodePtr`: the address `writeNode` gave the dummy node.
- `uniformRoots` is the `rootAddresses` array of the last `VoxelsUniformBuffer`. In the
  program that buffer is a local of `updateUniformBuffer`, handed to the uniform manager.

Modules:

- `SeqOps`: swap-and-pop removal and its multiset frame; the range `0..n-1`; distinctness from multiset counts.
- `Nodes`: the dummy root node's child mask.
- `TileGrid`: the tile resolution (C++ truncating division), the index-to-(x, y) split, and the stride-4 root-address layout with its packing loop.
- `Builders`: builder handles and the scan that removes the first finished builder.
- `VoxelTree`: the state, the step functions, the invariant and its preservation.
- `Pipeline`: consequences for the whole history, and a concrete 2 x 2 run.

## Model

| member | source | states |
|---|---|---|
| `SeqOps.SwapPop` | Source/Voxels/VoxelTree.cpp:150-152 | The removed slot gets the old last element (unless it was the last). The list is one shorter. Every other slot is unchanged. |
| `SeqOps.SwapPopMultiset` | Source/Voxels/VoxelTree.cpp:150-152 | Swap-and-pop removes exactly the chosen element from the multiset of the list. |
| `Nodes.DummyNode` | Source/Voxels/VoxelTree.cpp:23-26 | The dummy node's mask 21845 marks all eight children as unshadowed (two-bit code 01). |
| `Nodes.UnshadowedMaskUnique` | Source/Voxels/VoxelTree.cpp:25-26 | 21845 is the only 16-bit mask whose eight children are all unshadowed. |
| `TileGrid.TruncDiv` | Source/Voxels/VoxelTree.cpp:9 | `resolution / TileSubdivisons` rounds toward zero, as C++ integer division does, for negative resolutions too (with `TileSubdivisons` a signed `int`). |
| `TileGrid.TileCoords` | Source/Voxels/VoxelTree.cpp:243-244 | For `x = index / N` and `y = index % N`: `y < N`, `index == x*N + y`, and `x < N` when `index < N*N`. |
| `TileGrid.CoordsOfIndex` | Source/Voxels/VoxelTree.cpp:243-244 | Every grid cell (x, y) has index `x*N + y < N*N`, and splitting that index gives back (x, y). |
| `TileGrid.IndexOfCoords` | Source/Voxels/VoxelTree.cpp:243-244 | Every index below N*N splits into an in-grid cell, and recombining the cell gives the index. Together with `CoordsOfIndex`, the split is a bijection onto the grid. |
| `TileGrid.UnpackPack` | Source/Voxels/VoxelTree.cpp:181-184 | Reading every fourth slot of the packed buffer gives back exactly the per-tile roots. |
| `TileGrid.PackRootAddresses` | Source/Voxels/VoxelTree.cpp:181-184 | The packing loop puts `treePointers[i]` at slot `4*i`. It leaves every other slot of the uninitialised buffer as it was. |
| `Builders.FirstDone` | Source/Voxels/VoxelTree.cpp:142-156 | The scan returns the lowest index whose builder is `Done`. It returns nothing exactly when no builder is `Done`. |
| `Builders.FindFinished` | Source/Voxels/VoxelTree.cpp:139-160 | If a builder is `Done`, the lowest-indexed one is returned and removed by swap-and-pop. The multiset of the list loses exactly that builder. If none is `Done`, nothing is returned. |
| `Builders.FindFinishedBuilder` | Source/Voxels/VoxelTree.cpp:139-160 | The scanning loop returns the same builder and leaves the same list as `FindFinished`. When it returns NULL, the list is unchanged. |
| `Builders.TilesAfterFind` | Source/Voxels/VoxelTree.cpp:150-152 | Removing the found builder removes exactly its tile from the active tiles. |
| `VoxelTree.Create` | Source/Voxels/VoxelTree.cpp:6-46 | Construction fails exactly when the tile resolution is below 8 or above 16384. Otherwise the tree keeps the given N, cap and truncated tile resolution, every root is the address `writeNode` gives the dummy node (`Nodes.DummyNode`, all children unshadowed), the counters are 0, no builder is active, and the invariant holds. |
| `VoxelTree.ProcessFirstQueuedTile` | Source/Voxels/VoxelTree.cpp:79-105 | Once all N*N tiles are started, nothing changes. Otherwise the list becomes the old list followed by one `Building` builder for tile `startedTiles`, so every existing builder keeps its tile and state. `startedTiles` goes up by 1. Nothing else changes. |
| `VoxelTree.AdmitIfBelowCap` | Source/Voxels/VoxelTree.cpp:59-63 | At or above the cap, nothing changes. Below it, `processFirstQueuedTile` runs: while tiles remain, a `Building` builder for tile `startedTiles` is appended and `startedTiles` goes up by 1. The list never grows past `ConcurrentBuilds`. |
| `VoxelTree.MarkDone` | Source/Voxels/VoxelTree.cpp:145-148 | A builder finishing changes only its own slot's state, to `Done`: every other builder keeps its tile and state, and nothing outside the list changes. A slot past the end of the list changes nothing. |
| `VoxelTree.MergeFinished` | Source/Voxels/VoxelTree.cpp:110-135 | If all tiles are complete, or no builder is `Done`, nothing changes. Otherwise the found builder leaves the list, only its tile's root becomes the merged address, and `completedTiles` goes up by 1. |
| `VoxelTree.Publish` | Source/Voxels/VoxelTree.cpp:65-72 | Only when `tilesOnGPU < completedTiles`: `tilesOnGPU` catches up and the uploaded roots equal the root table. Otherwise nothing changes. |
| `VoxelTree.UpdateBuild` | Source/Voxels/VoxelTree.cpp:57-77 | After `updateBuild` with no merge in between, the invariant still holds and `tilesOnGPU == completedTiles`. The uploaded roots are current. The root table, the merge history and the configuration are unchanged. Below the cap, with tiles left, exactly one `Building` builder for tile `startedTiles` is appended and `startedTiles` goes up by 1. Otherwise no tile is started and the builder list is unchanged. |
| `VoxelTree.ActiveCount` | Source/Voxels/VoxelTree.cpp:99-104 | Every started tile that is not yet complete has exactly one active builder: `completedTiles + activeTiles.size() == startedTiles`. |
| `VoxelTree.AdmitPreservesInv` | Source/Voxels/VoxelTree.cpp:79-105 | Admission keeps the invariant, and no counter goes down. |
| `VoxelTree.MarkDonePreservesInv` | Source/Voxels/VoxelTree.cpp:145-148 | A builder finishing keeps the invariant. |
| `VoxelTree.MergePreservesInv` | Source/Voxels/VoxelTree.cpp:107-137 | A merge keeps the invariant, and no counter goes down. |
| `VoxelTree.MergeKeepsTilesAccounted` | Source/Voxels/VoxelTree.cpp:114-135 | After a merge, every started tile is still either active or merged, exactly once. The merged tile was not among the earlier merges. |
| `VoxelTree.MergeKeepsRoots` | Source/Voxels/VoxelTree.cpp:128-129 | After a merge, each merged tile's root is the address its merge returned. Every unmerged tile still points at the dummy node. |
| `VoxelTree.PublishPreservesInv` | Source/Voxels/VoxelTree.cpp:65-72 | Publishing keeps the invariant. |
| `VoxelTree.StepPreservesInv` | Source/Voxels/VoxelTree.cpp:57-137 | Every atomic step of either thread keeps `tilesOnGPU <= completedTiles <= startedTiles <= N*N` and the cap. It keeps each tile accounted for once, and no counter decreases. |
| `VoxelTree.Run` | Source/Voxels/VoxelTree.cpp:57-137 | Any interleaving of steps keeps the invariant, and the counters are non-decreasing from start to end. |
| `Pipeline.StartedExactlyOnce` | Source/Voxels/VoxelTree.cpp:82-104 | Tile `k` has been started exactly when `k < startedTiles`. It is then active or merged, exactly once in total. |
| `Pipeline.MergedAtMostOnce` | Source/Voxels/VoxelTree.cpp:123-135 | No tile is merged twice, and no tile has two active builders. |
| `Pipeline.AllTilesAdmitted` | Source/Voxels/VoxelTree.cpp:82-85 | Once `startedTiles == N*N`, every tile of the grid is in exactly one place: active, or merged. |
| `Pipeline.AllTilesMerged` | Source/Voxels/VoxelTree.cpp:110-135 | Once `completedTiles == N*N`, no builder is active. Every tile's root is the address its one merge returned. |
| `Pipeline.AdmissionWindow` | Source/Voxels/VoxelTree.cpp:60-63 | Every active tile index is below `completedTiles + ConcurrentBuilds`. |
| `Pipeline.ActiveTilesInGrid` | Source/Voxels/VoxelTree.cpp:88-89 | The index each builder's tile had when it was passed to `tileBounds` splits into an in-grid cell. |
| `Pipeline.ReachableCounters` | Source/Voxels/VoxelTree.cpp:57-137 | From a successful construction, every reachable state satisfies `tilesOnGPU <= completedTiles <= startedTiles <= N*N` and `activeTiles.size() <= ConcurrentBuilds`. |
| `Pipeline.ResolutionBoundaries` | Source/Voxels/VoxelTree.cpp:9-21 | With one tile per axis, resolutions 8 and 16384 are accepted and 4 and 32769 rejected. With two per axis, 16 is accepted and 15 rejected. |
| `Pipeline.TwoByTwoScenario` | Source/Voxels/VoxelTree.cpp:57-137 | With N = 2, tile resolution 8 and a cap of 2, all roots start at the dummy node. After tiles complete in the order 1, 0, 2, 3, each root is its merge's address and 4 tiles are complete and published. |

## Left out

- OpenGL work is not modelled: buffer and texture creation, `glBufferData` in `updateTreeBuffer`, depth read-back and cull-face changes in `computeDualShadowMaps`. This is GPU I/O.
- The arena contents the publish step uploads are not modelled: `updateTreeBuffer` uploads `voxelWriter_.data()`, and the arena writer is not part of this model.
- Floating-point geometry is not modelled: `sceneBoundsLightSpace`, the float bounds in `tileBounds`, and the world-to-voxel scaling and `log2` tree height in `updateUniformBuffer`. Only the integer index split of `tileBounds` is modelled.
- `VoxelWriter::writeNode` and `writeTree` are not part of this model. Their results are inputs: `writeNode` is a function passed to `Create` and applied to the dummy node, and `root` is given to each `MergeTile` step. The `0, 0` arguments of `writeNode` are dropped.
- VoxelTree.MergeFinished: does not state that `writeTree` relocates the subtree's pointers into the arena, because that code is not part of this model. The merged root is any address.
- `VoxelBuilder` internals are not modelled, including how and when a build reaches `Done`. That is the nondeterministic `BuilderDone` step.
- Real threading is not modelled: the mutex itself, the busy-polling `continue`, the loop's termination, and the never-joined `mergingThread_`. Also left out are the unsynchronised races that the atomic steps hide. They are on the counters and `treePointers_`, on the unlocked `activeTiles_.size()` read in the cap check of `updateBuild` (the merge thread may `pop_back` concurrently), and on each builder's state, which its own thread writes while `findFinishedBuilder` reads it.
- Memory ownership is not modelled: `new`/`delete` of builders and depth arrays, and the empty destructor.
- Integer width is not modelled. The counters and tile indices are C++ `int`. They never exceed N*N, so the model uses unbounded integers. VoxelPointer is an unbounded natural.
- The length of `rootAddresses` is set in a header that is not part of this model. It is assumed to be 4 * N*N. Its slots between roots are never written, and the `padding` input models them.
- TileGrid.TruncDiv: assumes the header constant `TileSubdivisons` is a signed `int`. That header is not part of this model. If the constant were unsigned, `resolution / TileSubdivisons` would convert a negative `resolution` to unsigned first, and the model's quotient would not apply.
- The construction check is a C `assert`. It is modelled as an error result, as in a build with assertions enabled. A build with `NDEBUG` would skip the check.

## Notes

- With N = 2 and a cap of 2, tile 2 can never be the first tile merged. Every active tile is below `completedTiles + ConcurrentBuilds` (`Pipeline.AdmissionWindow`), so tile 2 is admitted only after tile 0 or tile 1 has merged. `Pipeline.TwoByTwoScenario` runs the completion order 1, 0, 2, 3.

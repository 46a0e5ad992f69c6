/** The build/merge bookkeeping of the voxel tree as a state machine.

    The tree's two threads are modelled as interleaved atomic steps: the
    per-frame driver admits tiles and publishes; builders finish on their own;
    the merge thread takes finished builders out and records their roots.
    `TileSubdivisons` and `ConcurrentBuilds` are fields of the state fixed at
    construction. The arena writer is not modelled: the address `writeNode`
    gives the dummy node and the addresses `writeTree` returns are inputs. */
module VoxelTree {
  import opened Results
  import opened Nodes
  import opened SeqOps
  import opened TileGrid
  import opened Builders

  datatype ConfigError = TileResolutionTooSmall | TileResolutionTooLarge

  /** One tile merged into the arena and the root address it was given. */
  datatype MergeRecord = MergeRecord(tile: nat, root: VoxelPointer)

  /** The tree's bookkeeping. `merged` is not a field of the program: it
      records the merges in the order they happened, so that properties of
      the whole history can be stated. */
  datatype Tree = Tree(
    subdivisions: nat,               // TileSubdivisons (N)
    concurrentBuilds: nat,           // ConcurrentBuilds (the cap)
    tileResolution: int,
    dummyRoot: VoxelPointer,         // the shared, fully unshadowed node
    started: nat,                    // startedTiles_
    completed: nat,                  // completedTiles_
    onGpu: nat,                      // tilesOnGPU_
    active: seq<Builder>,            // activeTiles_
    roots: seq<VoxelPointer>,        // treePointers_
    uniformRoots: seq<VoxelPointer>, // rootAddresses of the last uploaded uniform buffer
    merged: seq<MergeRecord>)

  function TileCount(t: Tree): nat {
    t.subdivisions * t.subdivisions
  }

  function MergedTiles(m: seq<MergeRecord>): seq<nat> {
    seq(|m|, j requires 0 <= j < |m| => m[j].tile)
  }

  /** The counters are ordered and admission never exceeds the cap. */
  predicate CountersOk(t: Tree) {
    && t.subdivisions >= 1
    && t.concurrentBuilds >= 1
    && MinTileResolution <= t.tileResolution <= MaxTileResolution
    && |t.roots| == TileCount(t)
    && |t.uniformRoots| == RootStride * TileCount(t)
    && t.onGpu <= t.completed <= t.started <= TileCount(t)
    && |t.active| <= t.concurrentBuilds
    && t.completed == |t.merged|
  }

  /** Each started tile is either still active or merged, and only once;
      every active tile indexes the root table. */
  predicate TilesAccounted(t: Tree) {
    && multiset(Tiles(t.active)) + multiset(MergedTiles(t.merged)) == multiset(Range(t.started))
    && (forall i :: 0 <= i < |t.active| ==> t.active[i].tile < |t.roots|)
  }

  /** A merged tile's root is the address its merge returned; every other
      tile still points at the dummy node. */
  predicate RootsOk(t: Tree) {
    && (forall j :: 0 <= j < |t.merged| ==>
          t.merged[j].tile < |t.roots| && t.roots[t.merged[j].tile] == t.merged[j].root)
    && (forall i :: 0 <= i < |t.roots| && i !in MergedTiles(t.merged) ==> t.roots[i] == t.dummyRoot)
  }

  /** When the publish gate sees nothing new, the uploaded roots are current. */
  predicate UploadOk(t: Tree) {
    t.onGpu == t.completed ==> Unpack(t.uniformRoots) == t.roots
  }

  /** What every reachable state satisfies. */
  predicate Inv(t: Tree) {
    CountersOk(t) && TilesAccounted(t) && RootsOk(t) && UploadOk(t)
  }

  /** Counters never go back, and the configuration never changes. */
  predicate Monotone(t: Tree, u: Tree) {
    && u.subdivisions == t.subdivisions
    && u.concurrentBuilds == t.concurrentBuilds
    && u.tileResolution == t.tileResolution
    && u.dummyRoot == t.dummyRoot
    && t.started <= u.started
    && t.completed <= u.completed
    && t.onGpu <= u.onGpu
  }

  /** Construction: the tile resolution must lie in [8, 16384] (a failed
      assertion otherwise); the fully unshadowed dummy node is written once
      with `writeNode`, every tile's root starts at it, and the initial
      uniform buffer is uploaded. */
  function Create(subdivisions: nat, concurrentBuilds: nat, resolution: int,
                  writeNode: VoxelInnerNode -> VoxelPointer, padding: nat -> VoxelPointer): (r: Result<Tree, ConfigError>)
    requires subdivisions >= 1 && concurrentBuilds >= 1
    ensures r == Err(TileResolutionTooSmall) <==> TileResolution(resolution, subdivisions) < MinTileResolution
    ensures r == Err(TileResolutionTooLarge) <==>
      MinTileResolution <= TileResolution(resolution, subdivisions) && MaxTileResolution < TileResolution(resolution, subdivisions)
    ensures r.Ok? ==>
      && Inv(r.value)
      && r.value.subdivisions == subdivisions
      && r.value.concurrentBuilds == concurrentBuilds
      && r.value.tileResolution == TileResolution(resolution, subdivisions)
      && r.value.started == r.value.completed == r.value.onGpu == 0
      && r.value.active == []
      && |r.value.roots| == subdivisions * subdivisions
      && r.value.dummyRoot == writeNode(DummyNode())
      && (forall i :: 0 <= i < |r.value.roots| ==> r.value.roots[i] == writeNode(DummyNode()))
  {
    var tileResolution := TileResolution(resolution, subdivisions);
    if tileResolution < MinTileResolution then Err(TileResolutionTooSmall)
    else if tileResolution > MaxTileResolution then Err(TileResolutionTooLarge)
    else
      var dummyRoot := writeNode(DummyNode());
      var roots := seq(subdivisions * subdivisions, _ => dummyRoot);
      UnpackPack(roots, padding);
      Ok(Tree(subdivisions, concurrentBuilds, tileResolution, dummyRoot,
              0, 0, 0, [], roots, Pack(roots, padding), []))
  }

  /** `processFirstQueuedTile`: unless every tile has been started, start a
      builder for tile `startedTiles` and count it. */
  function ProcessFirstQueuedTile(t: Tree): (r: Tree)
    ensures t.started == TileCount(t) ==> r == t
    ensures t.started != TileCount(t) ==>
      && r.active == t.active + [Builder(t.started, Building)]
      && Tiles(r.active) == Tiles(t.active) + [t.started]
      && r.started == t.started + 1
      && r == t.(active := r.active, started := r.started)
  {
    if t.started == TileCount(t) then t
    else
      var b := Builder(t.started, Building);
      TilesAppend(t.active, b);
      t.(active := t.active + [b], started := t.started + 1)
  }

  /** The admission half of `updateBuild`: start a tile only while fewer
      than `ConcurrentBuilds` builders are active. */
  function AdmitIfBelowCap(t: Tree): (r: Tree)
    ensures |t.active| >= t.concurrentBuilds ==> r == t
    ensures |t.active| < t.concurrentBuilds ==> r == ProcessFirstQueuedTile(t)
    ensures |t.active| < t.concurrentBuilds && t.started < TileCount(t) ==>
      r.started == t.started + 1 && r.active == t.active + [Builder(t.started, Building)]
    ensures |t.active| <= t.concurrentBuilds ==> |r.active| <= t.concurrentBuilds
  {
    if |t.active| < t.concurrentBuilds then ProcessFirstQueuedTile(t) else t
  }

  /** A builder finishing on its own thread: active slot `i` turns Done. */
  function MarkDone(t: Tree, i: nat): (r: Tree)
    ensures Tiles(r.active) == Tiles(t.active)
    ensures r == t.(active := r.active)
    ensures i < |t.active| ==> r.active == t.active[i := Builder(t.active[i].tile, Done)]
    ensures i >= |t.active| ==> r == t
  {
    if i < |t.active| then
      TilesMarkDone(t.active, i);
      t.(active := t.active[i := Builder(t.active[i].tile, Done)])
    else t
  }

  /** One iteration of `mergeTiles`: once every tile is complete the loop
      has ended and nothing happens; otherwise, if the scan finds a finished
      builder, its tile's root becomes `root` (what `writeTree` returned)
      and one more tile is complete; if not, the loop polls again. */
  function MergeFinished(t: Tree, root: VoxelPointer): (r: Tree)
    requires forall i :: 0 <= i < |t.active| ==> t.active[i].tile < |t.roots|
    ensures !(t.completed < TileCount(t) && FindFinished(t.active).Some?) ==> r == t
    ensures t.completed < TileCount(t) && FindFinished(t.active).Some? ==>
      && var f := FindFinished(t.active).value;
      && r.active == f.rest
      && |r.roots| == |t.roots|
      && r.roots[f.builder.tile] == root
      && (forall i :: 0 <= i < |t.roots| && i != f.builder.tile ==> r.roots[i] == t.roots[i])
      && r.completed == t.completed + 1
      && r.merged == t.merged + [MergeRecord(f.builder.tile, root)]
      && r == t.(active := r.active, roots := r.roots, completed := r.completed, merged := r.merged)
  {
    if t.completed >= TileCount(t) then t
    else
      match FindFinished(t.active)
      case None => t
      case Some(f) =>
        var tile := f.builder.tile;
        t.(active := f.rest,
           roots := t.roots[tile := root],
           completed := t.completed + 1,
           merged := t.merged + [MergeRecord(tile, root)])
  }

  /** The publish half of `updateBuild`: when more tiles are complete than
      are on the GPU, catch up and upload a uniform buffer holding the
      current roots. */
  function Publish(t: Tree, padding: nat -> VoxelPointer): (r: Tree)
    ensures t.onGpu < t.completed ==>
      r.onGpu == t.completed && Unpack(r.uniformRoots) == t.roots
    ensures t.onGpu >= t.completed ==> r == t
    ensures r == t.(onGpu := r.onGpu, uniformRoots := r.uniformRoots)
  {
    if t.onGpu < t.completed then
      UnpackPack(t.roots, padding);
      t.(onGpu := t.completed, uniformRoots := Pack(t.roots, padding))
    else t
  }

  /** `updateBuild` run without a merge in between its two halves. */
  function UpdateBuild(t: Tree, padding: nat -> VoxelPointer): (r: Tree)
    requires Inv(t)
    ensures Inv(r) && Monotone(t, r)
    ensures r.onGpu == r.completed == t.completed
    ensures Unpack(r.uniformRoots) == r.roots
    ensures |t.active| >= t.concurrentBuilds || t.started == TileCount(t) ==> r.started == t.started
    ensures |t.active| < t.concurrentBuilds && t.started < TileCount(t) ==>
      r.started == t.started + 1 && r.active == t.active + [Builder(t.started, Building)]
    ensures |t.active| >= t.concurrentBuilds ==> r.active == t.active
    ensures |t.active| < t.concurrentBuilds && t.started == TileCount(t) ==> r.active == t.active
    ensures r == t.(active := r.active, started := r.started, onGpu := r.onGpu, uniformRoots := r.uniformRoots)
  {
    AdmitPreservesInv(t);
    Publish(AdmitIfBelowCap(t), padding)
  }

  /** The atomic steps the two threads and the builders interleave. */
  datatype Step =
    | AdmitTile
    | BuilderDone(index: nat)
    | MergeTile(root: VoxelPointer)
    | PublishTiles(padding: nat -> VoxelPointer)

  function Apply(t: Tree, step: Step): Tree
    requires Inv(t)
  {
    match step
    case AdmitTile => AdmitIfBelowCap(t)
    case BuilderDone(i) => MarkDone(t, i)
    case MergeTile(root) => MergeFinished(t, root)
    case PublishTiles(padding) => Publish(t, padding)
  }

  /** The state after a sequence of interleaved steps. */
  function Run(t: Tree, steps: seq<Step>): (r: Tree)
    requires Inv(t)
    ensures Inv(r)
    ensures Monotone(t, r)
    decreases |steps|
  {
    if |steps| == 0 then t
    else
      StepPreservesInv(t, steps[0]);
      Run(Apply(t, steps[0]), steps[1..])
  }

  /** Running a non-empty sequence applies its first step, then the rest. */
  lemma RunFirst(t: Tree, steps: seq<Step>)
    requires Inv(t) && |steps| > 0
    ensures Inv(Apply(t, steps[0]))
    ensures Run(t, steps) == Run(Apply(t, steps[0]), steps[1..])
  {
    StepPreservesInv(t, steps[0]);
  }

  /** Running two step sequences one after the other is running their
      concatenation. */
  lemma {:induction false} RunConcat(t: Tree, a: seq<Step>, b: seq<Step>)
    requires Inv(t)
    ensures Run(t, a + b) == Run(Run(t, a), b)
    decreases |a|
  {
    if |a| == 0 {
      assert a + b == b;
    } else {
      var c := a + b;
      assert c[0] == a[0] && c[1..] == a[1..] + b;
      StepPreservesInv(t, a[0]);
      var u := Apply(t, a[0]);
      assert Run(t, c) == Run(u, a[1..] + b);
      assert Run(t, a) == Run(u, a[1..]);
      RunConcat(u, a[1..], b);
    }
  }

  // ---------------------------------------------------------------------
  // Invariant preservation

  lemma AdmitPreservesInv(t: Tree)
    requires Inv(t)
    ensures Inv(AdmitIfBelowCap(t)) && Monotone(t, AdmitIfBelowCap(t))
  {
    if |t.active| < t.concurrentBuilds && t.started != TileCount(t) {
      AdmitKeepsTilesAccounted(t, AdmitIfBelowCap(t));
    }
  }

  /** The admitted tile is the next one in order, and it is in range. */
  lemma AdmitKeepsTilesAccounted(t: Tree, r: Tree)
    requires Inv(t) && |t.active| < t.concurrentBuilds && t.started != TileCount(t)
    requires r == AdmitIfBelowCap(t)
    ensures TilesAccounted(r)
  {
    assert Tiles(r.active) == Tiles(t.active) + [t.started];
    assert Range(t.started + 1) == Range(t.started) + [t.started];
    assert multiset(Tiles(r.active)) == multiset(Tiles(t.active)) + multiset{t.started};
    forall i | 0 <= i < |r.active|
      ensures r.active[i].tile < |r.roots|
    {
      if i < |t.active| {
        assert r.active[i] == t.active[i];
      } else {
        assert Tiles(r.active)[i] == t.started;
      }
    }
  }

  lemma MarkDonePreservesInv(t: Tree, i: nat)
    requires Inv(t)
    ensures Inv(MarkDone(t, i)) && Monotone(t, MarkDone(t, i))
  {
  }

  lemma MergePreservesInv(t: Tree, root: VoxelPointer)
    requires Inv(t)
    ensures Inv(MergeFinished(t, root)) && Monotone(t, MergeFinished(t, root))
  {
    if t.completed < TileCount(t) && FindFinished(t.active).Some? {
      var r := MergeFinished(t, root);
      var f := FindFinished(t.active).value;
      MergeKeepsTilesAccounted(t, f, r, root);
      MergeKeepsRoots(t, f, r, root);
      ActiveCount(t);
    }
  }

  /** Every started tile not yet merged has an active builder. */
  lemma ActiveCount(t: Tree)
    requires Inv(t)
    ensures t.completed + |t.active| == t.started
  {
    assert |multiset(Tiles(t.active))| == |t.active|;
    assert |multiset(MergedTiles(t.merged))| == |t.merged|;
    assert |multiset(Range(t.started))| == t.started;
  }

  /** The merged tile leaves the active tiles and joins the merged ones. */
  lemma MergeKeepsTilesAccounted(t: Tree, f: Found, r: Tree, root: VoxelPointer)
    requires Inv(t)
    requires t.completed < TileCount(t) && FindFinished(t.active) == Some(f)
    requires r == MergeFinished(t, root)
    ensures TilesAccounted(r)
    ensures multiset(MergedTiles(t.merged))[f.builder.tile] == 0
  {
    var tile := f.builder.tile;
    TilesAfterFind(t.active);
    assert Tiles(t.active)[f.index] == tile;
    assert tile in multiset(Tiles(t.active));
    RangeCount(t.started, tile);
    assert MergedTiles(r.merged) == MergedTiles(t.merged) + [tile];
    forall i | 0 <= i < |r.active|
      ensures r.active[i].tile < |r.roots|
    {
      if i != f.index {
        assert r.active[i] == t.active[i];
      } else {
        assert r.active[i] == t.active[|t.active| - 1];
      }
    }
  }

  /** Only the merged tile's root changes, and it had not been merged before. */
  lemma MergeKeepsRoots(t: Tree, f: Found, r: Tree, root: VoxelPointer)
    requires Inv(t)
    requires t.completed < TileCount(t) && FindFinished(t.active) == Some(f)
    requires r == MergeFinished(t, root)
    requires multiset(MergedTiles(t.merged))[f.builder.tile] == 0
    ensures RootsOk(r)
  {
    var tile := f.builder.tile;
    assert MergedTiles(r.merged) == MergedTiles(t.merged) + [tile];
    forall j | 0 <= j < |r.merged|
      ensures r.merged[j].tile < |r.roots| && r.roots[r.merged[j].tile] == r.merged[j].root
    {
      if j < |t.merged| {
        assert MergedTiles(t.merged)[j] == t.merged[j].tile;
        assert t.merged[j].tile != tile;
      }
    }
  }

  lemma PublishPreservesInv(t: Tree, padding: nat -> VoxelPointer)
    requires Inv(t)
    ensures Inv(Publish(t, padding)) && Monotone(t, Publish(t, padding))
  {
  }

  lemma StepPreservesInv(t: Tree, step: Step)
    requires Inv(t)
    ensures Inv(Apply(t, step)) && Monotone(t, Apply(t, step))
  {
    match step
    case AdmitTile => AdmitPreservesInv(t);
    case BuilderDone(i) => MarkDonePreservesInv(t, i);
    case MergeTile(root) => MergePreservesInv(t, root);
    case PublishTiles(padding) => PublishPreservesInv(t, padding);
  }
}


/** Consequences of the invariant for the pipeline's history. */
module Pipeline {
  import opened Results
  import opened Nodes
  import opened SeqOps
  import opened TileGrid
  import opened Builders
  import opened VoxelTree

  /** Tiles are started in order: tile `k` has been started exactly when
      `k < startedTiles`, and each started tile is either active or merged,
      never both and never twice. */
  lemma StartedExactlyOnce(t: Tree, tile: nat)
    requires Inv(t)
    ensures multiset(Tiles(t.active))[tile] + multiset(MergedTiles(t.merged))[tile]
      == (if tile < t.started then 1 else 0)
  {
    RangeCount(t.started, tile);
  }

  /** No tile is merged twice, and no tile has two builders. */
  lemma MergedAtMostOnce(t: Tree)
    requires Inv(t)
    ensures Distinct(MergedTiles(t.merged))
    ensures Distinct(Tiles(t.active))
  {
    forall x
      ensures multiset(MergedTiles(t.merged))[x] <= 1
      ensures multiset(Tiles(t.active))[x] <= 1
    {
      StartedExactlyOnce(t, x);
    }
    CountDistinct(MergedTiles(t.merged));
    CountDistinct(Tiles(t.active));
  }

  /** Once every tile has been admitted, each tile of the grid has been
      admitted exactly once. */
  lemma AllTilesAdmitted(t: Tree, tile: nat)
    requires Inv(t) && t.started == TileCount(t) && tile < TileCount(t)
    ensures (tile in Tiles(t.active)) != (tile in MergedTiles(t.merged))
  {
    StartedExactlyOnce(t, tile);
  }

  /** Once every tile is complete, no builder is active and every tile's
      root is the address its (single) merge returned. */
  lemma AllTilesMerged(t: Tree, tile: nat)
    requires Inv(t) && t.completed == TileCount(t) && tile < TileCount(t)
    ensures t.active == []
    ensures exists j :: 0 <= j < |t.merged| && t.merged[j] == MergeRecord(tile, t.roots[tile])
  {
    ActiveCount(t);
    StartedExactlyOnce(t, tile);
    assert tile in MergedTiles(t.merged);
    var j :| 0 <= j < |t.merged| && MergedTiles(t.merged)[j] == tile;
    assert t.merged[j] == MergeRecord(tile, t.roots[tile]);
  }

  /** Admission runs at most `ConcurrentBuilds` tiles ahead of the merges:
      every active tile is below `completedTiles + ConcurrentBuilds`. */
  lemma AdmissionWindow(t: Tree)
    requires Inv(t)
    ensures forall i :: 0 <= i < |t.active| ==> t.active[i].tile < t.completed + t.concurrentBuilds
  {
    ActiveCount(t);
    forall i | 0 <= i < |t.active|
      ensures t.active[i].tile < t.completed + t.concurrentBuilds
    {
      assert Tiles(t.active)[i] == t.active[i].tile;
      StartedExactlyOnce(t, t.active[i].tile);
    }
  }

  /** The index handed to `tileBounds` for every active builder names a
      cell of the N x N grid. */
  lemma ActiveTilesInGrid(t: Tree)
    requires Inv(t)
    ensures forall i :: 0 <= i < |t.active| ==>
      var xy := TileCoords(t.active[i].tile, t.subdivisions);
      xy.0 < t.subdivisions && xy.1 < t.subdivisions
  {
    forall i | 0 <= i < |t.active|
      ensures TileCoords(t.active[i].tile, t.subdivisions).0 < t.subdivisions
    {
      IndexOfCoords(t.active[i].tile, t.subdivisions);
    }
  }

  /** Every state reachable from a successful construction keeps the
      ordered counters and the cap. */
  lemma ReachableCounters(subdivisions: nat, concurrentBuilds: nat, resolution: int,
                          writeNode: VoxelInnerNode -> VoxelPointer, padding: nat -> VoxelPointer, steps: seq<Step>)
    requires subdivisions >= 1 && concurrentBuilds >= 1
    requires Create(subdivisions, concurrentBuilds, resolution, writeNode, padding).Ok?
    ensures var t := Run(Create(subdivisions, concurrentBuilds, resolution, writeNode, padding).value, steps);
      && t.onGpu <= t.completed <= t.started <= subdivisions * subdivisions
      && |t.active| <= concurrentBuilds
  {
  }

  /** Resolution boundaries with one tile per axis and with two. */
  lemma ResolutionBoundaries(padding: nat -> VoxelPointer)
    ensures Create(1, 1, 8, _ => 0, padding).Ok?
    ensures Create(1, 1, 4, _ => 0, padding) == Err(TileResolutionTooSmall)
    ensures Create(1, 1, 32769, _ => 0, padding) == Err(TileResolutionTooLarge)
    ensures Create(1, 1, 16384, _ => 0, padding).Ok?
    ensures Create(2, 1, 16, _ => 0, padding).Ok?
    ensures Create(2, 1, 15, _ => 0, padding) == Err(TileResolutionTooSmall)
    ensures Create(2, 1, 32769, _ => 0, padding).Ok?
  {
  }

  /** The tree of the two-by-two scenario right after construction:
      two tiles per axis, resolution 16 (tile resolution 8), two builds at a time. */
  function Scenario(padding: nat -> VoxelPointer): (t: Tree)
    ensures Create(2, 2, 16, _ => 7, padding) == Ok(t)
    ensures Inv(t)
  {
    var roots := [7, 7, 7, 7];
    assert seq(2 * 2, _ => 7) == roots;
    Tree(2, 2, 8, 7, 0, 0, 0, [], roots, Pack(roots, padding), [])
  }

  // The scenario's states, two steps apart.

  function Scenario1(padding: nat -> VoxelPointer): Tree {
    Scenario(padding).(started := 2, active := [Builder(0, Building), Builder(1, Building)])
  }

  function Scenario2(padding: nat -> VoxelPointer): Tree {
    Scenario(padding).(started := 2, active := [Builder(0, Building), Builder(1, Done)])
  }

  function Scenario3(padding: nat -> VoxelPointer): Tree {
    Scenario(padding).(started := 3, completed := 1, active := [Builder(0, Building), Builder(2, Building)],
                       roots := [7, 101, 7, 7], merged := [MergeRecord(1, 101)])
  }

  function Scenario4(padding: nat -> VoxelPointer): Tree {
    Scenario3(padding).(active := [Builder(0, Done), Builder(2, Done)])
  }

  function Scenario5(padding: nat -> VoxelPointer): Tree {
    Scenario3(padding).(started := 4, completed := 2, active := [Builder(2, Done), Builder(3, Building)],
                        roots := [100, 101, 7, 7], merged := [MergeRecord(1, 101), MergeRecord(0, 100)])
  }

  function Scenario6(padding: nat -> VoxelPointer): Tree {
    Scenario5(padding).(completed := 3, active := [Builder(3, Done)], roots := [100, 101, 102, 7],
                        merged := [MergeRecord(1, 101), MergeRecord(0, 100), MergeRecord(2, 102)])
  }

  function Scenario7(padding: nat -> VoxelPointer): Tree {
    Scenario6(padding).(completed := 4, onGpu := 4, active := [], roots := [100, 101, 102, 103],
                        merged := [MergeRecord(1, 101), MergeRecord(0, 100), MergeRecord(2, 102), MergeRecord(3, 103)],
                        uniformRoots := Pack([100, 101, 102, 103], padding))
  }

  /** A merge step that finds the builder in slot `k`. */
  lemma MergeAt(t: Tree, root: VoxelPointer, k: nat, rest: seq<Builder>)
    requires Inv(t) && t.completed < TileCount(t)
    requires FirstDone(t.active) == Some(k) && SwapPop(t.active, k) == rest
    ensures Apply(t, MergeTile(root)) == t.(active := rest, roots := t.roots[t.active[k].tile := root],
      completed := t.completed + 1, merged := t.merged + [MergeRecord(t.active[k].tile, root)])
  {
  }

  /** Two consecutive steps of the scenario. */
  lemma RunTwo(t: Tree, a: Step, b: Step)
    requires Inv(t)
    ensures Inv(Apply(t, a))
    ensures Run(t, [a, b]) == Apply(Apply(t, a), b)
  {
    RunFirst(t, [a, b]);
    StepPreservesInv(t, a);
    RunFirst(Apply(t, a), [b]);
    StepPreservesInv(Apply(t, a), b);
    assert [a, b][1..] == [b] && [b][1..] == [];
  }

  lemma ScenarioStep1(padding: nat -> VoxelPointer)
    ensures Run(Scenario(padding), [AdmitTile, AdmitTile]) == Scenario1(padding)
    ensures Inv(Scenario1(padding))
  {
    var t := Scenario(padding);
    RunTwo(t, AdmitTile, AdmitTile);
    var u := Apply(t, AdmitTile);
    assert u == t.(started := 1, active := [Builder(0, Building)]);
    assert Apply(u, AdmitTile).active == [Builder(0, Building), Builder(1, Building)];
  }

  lemma ScenarioStep2(padding: nat -> VoxelPointer)
    requires Inv(Scenario1(padding))
    ensures Run(Scenario1(padding), [AdmitTile, BuilderDone(1)]) == Scenario2(padding)
    ensures Inv(Scenario2(padding))
  {
    var t := Scenario1(padding);
    RunTwo(t, AdmitTile, BuilderDone(1));
    assert Apply(t, AdmitTile) == t;
  }

  lemma ScenarioStep3(padding: nat -> VoxelPointer)
    requires Inv(Scenario2(padding))
    ensures Run(Scenario2(padding), [MergeTile(101), AdmitTile]) == Scenario3(padding)
    ensures Inv(Scenario3(padding))
  {
    var t := Scenario2(padding);
    assert FirstDone(t.active) == Some(1);
    assert SwapPop(t.active, 1) == [Builder(0, Building)];
    MergeAt(t, 101, 1, [Builder(0, Building)]);
    var u := Apply(t, MergeTile(101));
    assert u.roots == [7, 101, 7, 7];
    assert u.active == [Builder(0, Building)];
    StepPreservesInv(t, MergeTile(101));
    var w := Apply(u, AdmitTile);
    assert w.active == [Builder(0, Building), Builder(2, Building)];
    assert w == Scenario3(padding);
    RunTwo(t, MergeTile(101), AdmitTile);
    StepPreservesInv(u, AdmitTile);
  }

  lemma ScenarioStep4(padding: nat -> VoxelPointer)
    requires Inv(Scenario3(padding))
    ensures Run(Scenario3(padding), [BuilderDone(1), BuilderDone(0)]) == Scenario4(padding)
    ensures Inv(Scenario4(padding))
  {
    RunTwo(Scenario3(padding), BuilderDone(1), BuilderDone(0));
  }

  lemma ScenarioStep5(padding: nat -> VoxelPointer)
    requires Inv(Scenario4(padding))
    ensures Run(Scenario4(padding), [MergeTile(100), AdmitTile]) == Scenario5(padding)
    ensures Inv(Scenario5(padding))
  {
    var t := Scenario4(padding);
    assert FirstDone(t.active) == Some(0);
    assert SwapPop(t.active, 0) == [Builder(2, Done)];
    MergeAt(t, 100, 0, [Builder(2, Done)]);
    var u := Apply(t, MergeTile(100));
    assert u.roots == [100, 101, 7, 7];
    assert u.active == [Builder(2, Done)];
    StepPreservesInv(t, MergeTile(100));
    var w := Apply(u, AdmitTile);
    assert w == u.(active := u.active + [Builder(3, Building)], started := 4);
    assert w.active == [Builder(2, Done), Builder(3, Building)];
    assert w == Scenario5(padding);
    RunTwo(t, MergeTile(100), AdmitTile);
    StepPreservesInv(u, AdmitTile);
  }

  lemma ScenarioStep6(padding: nat -> VoxelPointer)
    requires Inv(Scenario5(padding))
    ensures Run(Scenario5(padding), [MergeTile(102), BuilderDone(0)]) == Scenario6(padding)
    ensures Inv(Scenario6(padding))
  {
    var t := Scenario5(padding);
    assert FirstDone(t.active) == Some(0);
    assert SwapPop(t.active, 0) == [Builder(3, Building)];
    MergeAt(t, 102, 0, [Builder(3, Building)]);
    var u := Apply(t, MergeTile(102));
    assert u.roots == [100, 101, 102, 7];
    assert u.active == [Builder(3, Building)];
    StepPreservesInv(t, MergeTile(102));
    var w := Apply(u, BuilderDone(0));
    assert w.active == [Builder(3, Done)];
    assert w == Scenario6(padding);
    RunTwo(t, MergeTile(102), BuilderDone(0));
    StepPreservesInv(u, BuilderDone(0));
  }

  lemma ScenarioStep7(padding: nat -> VoxelPointer)
    requires Inv(Scenario6(padding))
    ensures Run(Scenario6(padding), [MergeTile(103), PublishTiles(padding)]) == Scenario7(padding)
  {
    var t := Scenario6(padding);
    assert FirstDone(t.active) == Some(0);
    assert SwapPop(t.active, 0) == [];
    MergeAt(t, 103, 0, []);
    var u := Apply(t, MergeTile(103));
    assert u.roots == [100, 101, 102, 103];
    assert u.active == [] && u.completed == 4;
    StepPreservesInv(t, MergeTile(103));
    var w := Apply(u, PublishTiles(padding));
    assert w.uniformRoots == Pack([100, 101, 102, 103], padding);
    assert w == Scenario7(padding);
    RunTwo(t, MergeTile(103), PublishTiles(padding));
  }

  /** The scenario's fourteen steps. */
  function ScenarioSteps(padding: nat -> VoxelPointer): seq<Step> {
    [AdmitTile, AdmitTile] + [AdmitTile, BuilderDone(1)] + [MergeTile(101), AdmitTile]
      + [BuilderDone(1), BuilderDone(0)] + [MergeTile(100), AdmitTile]
      + [MergeTile(102), BuilderDone(0)] + [MergeTile(103), PublishTiles(padding)]
  }

  /** Two tiles per axis, tile resolution 8, two builds at a time. Before any
      merge every root is the dummy node; the tiles then complete in the
      order 1, 0, 2, 3, and in the end every root is the address its merge
      returned, all four tiles are complete and published, and no builder
      is left. */
  lemma TwoByTwoScenario(padding: nat -> VoxelPointer)
    ensures Scenario(padding).roots == [7, 7, 7, 7]
    ensures var t := Run(Scenario(padding), ScenarioSteps(padding));
      && t.roots == [100, 101, 102, 103]
      && t.completed == t.onGpu == 4
      && t.active == []
  {
    var t0 := Scenario(padding);
    var s1, s2, s3 := [AdmitTile, AdmitTile], [AdmitTile, BuilderDone(1)], [MergeTile(101), AdmitTile];
    var s4, s5 := [BuilderDone(1), BuilderDone(0)], [MergeTile(100), AdmitTile];
    var s6, s7 := [MergeTile(102), BuilderDone(0)], [MergeTile(103), PublishTiles(padding)];
    ScenarioStep1(padding);
    ScenarioStep2(padding);
    ScenarioStep3(padding);
    ScenarioStep4(padding);
    ScenarioStep5(padding);
    ScenarioStep6(padding);
    ScenarioStep7(padding);
    RunConcat(t0, s1, s2);
    RunConcat(t0, s1 + s2, s3);
    RunConcat(t0, s1 + s2 + s3, s4);
    RunConcat(t0, s1 + s2 + s3 + s4, s5);
    RunConcat(t0, s1 + s2 + s3 + s4 + s5, s6);
    RunConcat(t0, s1 + s2 + s3 + s4 + s5 + s6, s7);
  }
}

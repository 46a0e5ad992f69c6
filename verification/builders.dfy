/** Builder handles as the tree sees them, and the scan that takes the first
    finished one out of the active list. */
module Builders {
  import opened Results
  import opened SeqOps

  /** The lifecycle a handle reports; a tile that is still queued has no handle. */
  datatype BuildState = Building | Done

  /** One asynchronous tile build: the tile it is for and its current state.
      The subtree buffer and its local root stay inside the builder. */
  datatype Builder = Builder(tile: nat, state: BuildState)

  /** The tile indices of a list of builders, slot by slot. */
  function Tiles(a: seq<Builder>): seq<nat> {
    seq(|a|, i requires 0 <= i < |a| => a[i].tile)
  }

  /** The position of the lowest-indexed finished builder, if there is one. */
  function FirstDone(a: seq<Builder>): (r: Option<nat>)
    ensures r.Some? ==> r.value < |a| && a[r.value].state == Done
    ensures r.Some? ==> forall j :: 0 <= j < r.value ==> a[j].state != Done
    ensures r.None? <==> forall j :: 0 <= j < |a| ==> a[j].state != Done
  {
    if |a| == 0 then None
    else if a[0].state == Done then Some(0)
    else
      match FirstDone(a[1..])
      case None => None
      case Some(k) => Some(k + 1)
  }

  /** What a successful scan hands back: the builder, the slot it held and
      the active list without it. */
  datatype Found = Found(builder: Builder, index: nat, rest: seq<Builder>)

  /** The scan of the active list: the lowest-indexed finished builder is
      taken out by swap-and-pop; when none is finished nothing is taken. */
  function FindFinished(active: seq<Builder>): (r: Option<Found>)
    ensures r.None? <==> forall j :: 0 <= j < |active| ==> active[j].state != Done
    ensures r.Some? ==>
      && r.value.index < |active|
      && r.value.builder == active[r.value.index]
      && r.value.builder.state == Done
      && (forall j :: 0 <= j < r.value.index ==> active[j].state != Done)
    ensures r.Some? ==>
      && |r.value.rest| == |active| - 1
      && (r.value.index < |active| - 1 ==> r.value.rest[r.value.index] == active[|active| - 1])
      && (forall j :: 0 <= j < |r.value.rest| && j != r.value.index ==> r.value.rest[j] == active[j])
    ensures r.Some? ==> multiset(r.value.rest) == multiset(active) - multiset{r.value.builder}
  {
    match FirstDone(active)
    case None => None
    case Some(k) =>
      SwapPopMultiset(active, k);
      Some(Found(active[k], k, SwapPop(active, k)))
  }

  /** The scanning loop itself: it returns the builder it removed (NULL when
      none is finished) together with the list as left behind. */
  method FindFinishedBuilder(active: seq<Builder>) returns (builder: Option<Builder>, remaining: seq<Builder>)
    ensures builder.None? ==> remaining == active
    ensures builder.None? <==> FindFinished(active).None?
    ensures builder.Some? ==>
      builder.value == FindFinished(active).value.builder && remaining == FindFinished(active).value.rest
  {
    var i := 0;
    while i < |active|
      invariant 0 <= i <= |active|
      invariant forall j :: 0 <= j < i ==> active[j].state != Done
    {
      var b := active[i];
      if b.state == Done {
        builder, remaining := Some(b), SwapPop(active, i);
        return;
      }
      i := i + 1;
    }
    builder, remaining := None, active;
  }

  /** Swap-and-pop commutes with reading off the tiles. */
  lemma TilesSwapPop(a: seq<Builder>, k: nat)
    requires k < |a|
    ensures Tiles(SwapPop(a, k)) == SwapPop(Tiles(a), k)
  {
  }

  /** Marking a builder finished does not change which tiles are active. */
  lemma TilesMarkDone(a: seq<Builder>, i: nat)
    requires i < |a|
    ensures Tiles(a[i := Builder(a[i].tile, Done)]) == Tiles(a)
  {
  }

  /** Appending a builder appends its tile. */
  lemma TilesAppend(a: seq<Builder>, b: Builder)
    ensures Tiles(a + [b]) == Tiles(a) + [b.tile]
  {
  }

  /** Removing the found builder removes exactly its tile from the active tiles. */
  lemma TilesAfterFind(active: seq<Builder>)
    requires FindFinished(active).Some?
    ensures multiset(Tiles(FindFinished(active).value.rest))
      == multiset(Tiles(active)) - multiset{FindFinished(active).value.builder.tile}
  {
    var f := FindFinished(active).value;
    TilesSwapPop(active, f.index);
    SwapPopMultiset(Tiles(active), f.index);
  }
}

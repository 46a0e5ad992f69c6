/** Integer arithmetic of the tile grid: the tile resolution derived from the
    overall resolution, the split of a tile index into grid coordinates, and
    the stride-4 layout of per-tile root addresses in the uniform buffer. */
module TileGrid {

  type VoxelPointer = nat

  const MinTileResolution: int := 8
  const MaxTileResolution: int := 16384

  /** C++ `int / int`: the quotient is truncated toward zero. */
  function TruncDiv(a: int, b: int): (q: int)
    requires b > 0
    ensures a >= 0 ==> 0 <= q * b <= a < q * b + b
    ensures a < 0 ==> q * b - b < a <= q * b <= 0
  {
    if a >= 0 then
      DivBounds(a, b);
      a / b
    else
      DivBounds(-a, b);
      var m := (-a) / b;
      assert (-m) * b == -(m * b);
      -m
  }

  /** Euclidean division of a non-negative number brackets it between
      consecutive multiples of the divisor. */
  lemma DivBounds(a: int, b: int)
    requires a >= 0 && b > 0
    ensures 0 <= (a / b) * b <= a < (a / b) * b + b
  {
    var q, m := a / b, a % b;
    assert a == b * q + m && 0 <= m < b;
    assert q >= 0;
    assert q * b == b * q;
  }

  /** The per-tile resolution `resolution / TileSubdivisons`. */
  function TileResolution(resolution: int, subdivisions: nat): int
    requires subdivisions >= 1
  {
    TruncDiv(resolution, subdivisions)
  }

  /** Grid coordinates of a tile: `x = index / N`, `y = index % N`. */
  function TileCoords(index: nat, n: nat): (xy: (nat, nat))
    requires n >= 1
    ensures xy.1 < n
    ensures index == xy.0 * n + xy.1
    ensures index < n * n ==> xy.0 < n
  {
    (index / n, index % n)
  }

  /** The row-major index of grid cell (x, y). */
  function TileIndex(x: nat, y: nat, n: nat): nat {
    x * n + y
  }

  /** A larger multiplier moves the product up by at least `n`. */
  lemma {:induction false} MulStep(a: nat, b: nat, n: nat)
    requires a < b
    ensures a * n + n <= b * n
  {
    if n > 0 {
      MulStep(a, b, n - 1);
      assert a * n == a * (n - 1) + a;
      assert b * n == b * (n - 1) + b;
    }
  }

  /** Division by `n` recovers the quotient and remainder it was built from. */
  lemma DivModUnique(q: nat, r: nat, n: nat)
    requires r < n
    ensures (q * n + r) / n == q && (q * n + r) % n == r
  {
    var i := q * n + r;
    var q', r' := i / n, i % n;
    assert i == q' * n + r';
    if q' < q {
      MulStep(q', q, n);
    } else if q' > q {
      MulStep(q, q', n);
    }
  }

  /** Splitting then recombining an in-grid cell gives the cell back, and
      every cell of the N x N grid has an index below N * N. */
  lemma CoordsOfIndex(x: nat, y: nat, n: nat)
    requires x < n && y < n
    ensures TileIndex(x, y, n) < n * n
    ensures TileCoords(TileIndex(x, y, n), n) == (x, y)
  {
    DivModUnique(x, y, n);
    MulStep(x, n, n);
  }

  /** Every tile index below N * N names a cell of the grid, and recombining
      its coordinates gives the index back. */
  lemma IndexOfCoords(index: nat, n: nat)
    requires n >= 1 && index < n * n
    ensures TileCoords(index, n).0 < n && TileCoords(index, n).1 < n
    ensures TileIndex(TileCoords(index, n).0, TileCoords(index, n).1, n) == index
  {
  }

  /** Distance between consecutive root addresses in the uniform buffer. */
  const RootStride: nat := 4

  /** The uniform buffer's root-address array after `rootAddresses[i * 4] =
      treePointers[i]` for every tile. Slots between roots are never written
      and keep whatever `padding` holds there. */
  function Pack(roots: seq<VoxelPointer>, padding: nat -> VoxelPointer): (buf: seq<VoxelPointer>)
    ensures |buf| == RootStride * |roots|
  {
    seq(RootStride * |roots|, k requires 0 <= k < RootStride * |roots| =>
      if k % RootStride == 0 then roots[k / RootStride] else padding(k))
  }

  /** The per-tile roots a reader of the stride-4 layout sees. */
  function Unpack(buf: seq<VoxelPointer>): (roots: seq<VoxelPointer>)
    ensures |roots| == |buf| / RootStride
  {
    seq(|buf| / RootStride, i requires 0 <= i < |buf| / RootStride => buf[RootStride * i])
  }

  /** Reading the packed buffer back yields exactly the tile roots. */
  lemma UnpackPack(roots: seq<VoxelPointer>, padding: nat -> VoxelPointer)
    ensures Unpack(Pack(roots, padding)) == roots
  {
    var buf := Pack(roots, padding);
    forall i | 0 <= i < |roots|
      ensures Unpack(buf)[i] == roots[i]
    {
      assert (RootStride * i) % RootStride == 0 && (RootStride * i) / RootStride == i;
    }
  }

  /** The packing loop of the uniform-buffer update: it starts from the
      uninitialised buffer and writes root `i` into slot `4 * i`. */
  method PackRootAddresses(roots: seq<VoxelPointer>, padding: nat -> VoxelPointer)
    returns (buf: seq<VoxelPointer>)
    ensures buf == Pack(roots, padding)
    ensures forall i :: 0 <= i < |roots| ==> buf[RootStride * i] == roots[i]
    ensures forall k :: 0 <= k < |buf| && k % RootStride != 0 ==> buf[k] == padding(k)
  {
    buf := seq(RootStride * |roots|, k requires 0 <= k < RootStride * |roots| => padding(k));
    var i := 0;
    while i < |roots|
      invariant 0 <= i <= |roots|
      invariant |buf| == RootStride * |roots|
      invariant forall k :: 0 <= k < |buf| ==>
        buf[k] == (if k % RootStride == 0 && k / RootStride < i then roots[k / RootStride] else padding(k))
    {
      buf := buf[RootStride * i := roots[i]];
      i := i + 1;
    }
  }
}

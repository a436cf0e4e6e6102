/** The grid `BoidManager.GenerateCells` lays over the simulation volume: the cell counts
    along the axes are the inspector's floating-point counts cast to `int`, while the
    spacing divides the volume's extent by the uncast counts. Cells are made in the order
    of three nested loops over x, y and z. */
module CellGrid {
  import opened Vectors
  import opened Boundary
  import opened Cells

  /** C#'s `(int)` cast, which truncates toward zero; for the non-negative counts here
      that is the floor. */
  function Truncate(r: real): (n: nat)
    requires 0.0 <= r
    ensures n as real <= r < n as real + 1.0
  {
    r.Floor
  }

  /** The counts along the three axes, as the loops use them. */
  predicate ValidCounts(numCells: Vec3)
  {
    0.0 < numCells.x && 0.0 < numCells.y && 0.0 < numCells.z
  }

  function CountX(numCells: Vec3): nat requires ValidCounts(numCells) { Truncate(numCells.x) }
  function CountY(numCells: Vec3): nat requires ValidCounts(numCells) { Truncate(numCells.y) }
  function CountZ(numCells: Vec3): nat requires ValidCounts(numCells) { Truncate(numCells.z) }

  /** The size of every cell: the extent of the volume over the uncast count, per axis. */
  function Interval(b: Bounds, numCells: Vec3): Vec3
    requires ValidCounts(numCells)
  {
    Vec3((b.max.x - b.min.x) / numCells.x, (b.max.y - b.min.y) / numCells.y, (b.max.z - b.min.z) / numCells.z)
  }

  /** The cell the loops make at position `(x, y, z)`: its minimum corner lies `x, y, z`
      intervals from the volume's minimum corner. */
  function CellBox(b: Bounds, numCells: Vec3, x: nat, y: nat, z: nat): Box
    requires ValidCounts(numCells)
  {
    var iv := Interval(b, numCells);
    Box(Vec3(b.min.x + Mul(x as real, iv.x), b.min.y + Mul(y as real, iv.y), b.min.z + Mul(z as real, iv.z)), iv)
  }

  /** Row-major slot `c` of row `a`, rows being `w` long. */
  function Slot(w: nat, a: nat, c: nat): nat
  {
    a * w + c
  }

  /** The slot of cell `(x, y, z)` in the flat array: `x * ny * nz + y * nz + z`. */
  function CellIndex(ny: nat, nz: nat, x: nat, y: nat, z: nat): nat
  {
    Slot(ny * nz, x, Slot(nz, y, z))
  }

  /** The cells of the innermost loop for `(x, y)`. */
  function Row(b: Bounds, numCells: Vec3, x: nat, y: nat, nz: nat): (r: seq<Box>)
    requires ValidCounts(numCells)
    ensures |r| == nz
  {
    seq(nz, z requires 0 <= z < nz => CellBox(b, numCells, x, y, z))
  }

  /** The cells of the middle loop for `x`, its first `ny` rows. */
  function Layer(b: Bounds, numCells: Vec3, x: nat, ny: nat, nz: nat): seq<Box>
    requires ValidCounts(numCells)
  {
    if ny == 0 then [] else Layer(b, numCells, x, ny - 1, nz) + Row(b, numCells, x, ny - 1, nz)
  }

  /** The cells of the outer loop, its first `nx` layers. */
  function Grid(b: Bounds, numCells: Vec3, nx: nat, ny: nat, nz: nat): seq<Box>
    requires ValidCounts(numCells)
  {
    if nx == 0 then [] else Grid(b, numCells, nx - 1, ny, nz) + Layer(b, numCells, nx - 1, ny, nz)
  }

  /** Everything `GenerateCells` makes. */
  function AllCells(b: Bounds, numCells: Vec3): seq<Box>
    requires ValidCounts(numCells)
  {
    Grid(b, numCells, CountX(numCells), CountY(numCells), CountZ(numCells))
  }

  /** A layer holds `ny * nz` cells. */
  lemma {:induction false} LayerSize(b: Bounds, numCells: Vec3, x: nat, ny: nat, nz: nat)
    requires ValidCounts(numCells)
    ensures |Layer(b, numCells, x, ny, nz)| == ny * nz
  {
    if ny > 0 {
      LayerSize(b, numCells, x, ny - 1, nz);
      assert (ny - 1) * nz + nz == ny * nz;
    }
  }

  /** The cell `(x, y, z)` sits at slot `y * nz + z` of layer `x`. */
  lemma {:induction false} LayerAt(b: Bounds, numCells: Vec3, x: nat, ny: nat, nz: nat, y: nat, z: nat)
    requires ValidCounts(numCells) && y < ny && z < nz
    ensures Slot(nz, y, z) < |Layer(b, numCells, x, ny, nz)|
    ensures Layer(b, numCells, x, ny, nz)[Slot(nz, y, z)] == CellBox(b, numCells, x, y, z)
  {
    LayerSize(b, numCells, x, ny - 1, nz);
    var below := (ny - 1) * nz;
    if y < ny - 1 {
      LayerAt(b, numCells, x, ny - 1, nz, y, z);
    } else {
      assert y * nz == below;
    }
  }

  /** The grid holds `nx * ny * nz` cells. */
  lemma {:induction false} GridSize(b: Bounds, numCells: Vec3, nx: nat, ny: nat, nz: nat)
    requires ValidCounts(numCells)
    ensures |Grid(b, numCells, nx, ny, nz)| == nx * (ny * nz)
  {
    if nx > 0 {
      GridSize(b, numCells, nx - 1, ny, nz);
      LayerSize(b, numCells, nx - 1, ny, nz);
      var layer := ny * nz;
      assert (nx - 1) * layer + layer == nx * layer;
    }
  }

  /** The cells fill an array of exactly `(int)x * (int)y * (int)z` slots. */
  lemma AllCellsSize(b: Bounds, numCells: Vec3)
    requires ValidCounts(numCells)
    ensures |AllCells(b, numCells)| == CountX(numCells) * CountY(numCells) * CountZ(numCells)
  {
    var nx, ny, nz := CountX(numCells), CountY(numCells), CountZ(numCells);
    GridSize(b, numCells, nx, ny, nz);
    Associative(nx, ny, nz);
  }

  lemma Associative(a: nat, c: nat, d: nat)
    ensures a * c * d == a * (c * d)
  {
  }

  /** The cell `(x, y, z)` sits at `CellIndex(ny, nz, x, y, z)` of the grid: the slot order
      is that of the nested loops. */
  lemma GridAt(b: Bounds, numCells: Vec3, nx: nat, ny: nat, nz: nat, x: nat, y: nat, z: nat)
    requires ValidCounts(numCells) && x < nx && y < ny && z < nz
    ensures CellIndex(ny, nz, x, y, z) < |Grid(b, numCells, nx, ny, nz)|
    ensures Grid(b, numCells, nx, ny, nz)[CellIndex(ny, nz, x, y, z)] == CellBox(b, numCells, x, y, z)
  {
    var g := Grid(b, numCells, x, ny, nz);
    var l := Layer(b, numCells, x, ny, nz);
    LayerAt(b, numCells, x, ny, nz, y, z);
    GridSize(b, numCells, x, ny, nz);
    assert Grid(b, numCells, x + 1, ny, nz) == g + l;
    AppendAt(g, l, Slot(nz, y, z));
    GridPrefixAt(b, numCells, x + 1, nx, ny, nz, CellIndex(ny, nz, x, y, z));
  }

  /** Running the outer loop further only appends: the first `m` layers stay in place. */
  lemma {:induction false} GridPrefixAt(b: Bounds, numCells: Vec3, m: nat, nx: nat, ny: nat, nz: nat, k: nat)
    requires ValidCounts(numCells) && m <= nx && k < |Grid(b, numCells, m, ny, nz)|
    ensures k < |Grid(b, numCells, nx, ny, nz)|
    ensures Grid(b, numCells, nx, ny, nz)[k] == Grid(b, numCells, m, ny, nz)[k]
  {
    if m < nx {
      GridPrefixAt(b, numCells, m, nx - 1, ny, nz, k);
      var g := Grid(b, numCells, nx - 1, ny, nz);
      assert Grid(b, numCells, nx, ny, nz) == g + Layer(b, numCells, nx - 1, ny, nz);
    }
  }

  lemma AppendAt<T>(a: seq<T>, c: seq<T>, k: nat)
    requires k < |c|
    ensures (a + c)[|a| + k] == c[k]
  {
  }

  /** Slot arithmetic: the row-major slot of `(a, c)` with rows of `w` lies below `h * w`
      when `a < h` and `c < w`. */
  lemma SlotBelow(a: nat, c: nat, h: nat, w: nat)
    requires a < h && c < w
    ensures Slot(w, a, c) < h * w
  {
    assert (a + 1) * w <= h * w;
  }

  /** Every slot the nested loops write lies inside the array of `nx * ny * nz` cells. */
  lemma SlotInGrid(nx: nat, ny: nat, nz: nat, x: nat, y: nat, z: nat)
    requires x < nx && y < ny && z < nz
    ensures CellIndex(ny, nz, x, y, z) < nx * ny * nz
  {
    SlotBelow(y, z, ny, nz);
    SlotBelow(x, Slot(nz, y, z), nx, ny * nz);
    assert nx * ny * nz == nx * (ny * nz);
  }

  /** The rows of a layer before row `y`, and row `y` itself, fit in the whole layer. */
  lemma RowFits(b: Bounds, numCells: Vec3, x: nat, y: nat, ny: nat, nz: nat)
    requires ValidCounts(numCells) && y < ny
    ensures |Layer(b, numCells, x, y, nz)| + nz <= |Layer(b, numCells, x, ny, nz)|
  {
    LayerSize(b, numCells, x, y + 1, nz);
    LayerSize(b, numCells, x, ny, nz);
    MulMono(y + 1, ny, nz);
  }

  /** The layers before layer `x`, and layer `x` itself, fit in the array of
      `nx * ny * nz` cells. */
  lemma LayerFits(b: Bounds, numCells: Vec3, x: nat, nx: nat, ny: nat, nz: nat)
    requires ValidCounts(numCells) && x < nx
    ensures |Grid(b, numCells, x, ny, nz)| + |Layer(b, numCells, x, ny, nz)| <= nx * ny * nz
  {
    GridSize(b, numCells, x + 1, ny, nz);
    assert Grid(b, numCells, x + 1, ny, nz) == Grid(b, numCells, x, ny, nz) + Layer(b, numCells, x, ny, nz);
    LayersBelow(x, nx, ny, nz);
  }

  lemma LayersBelow(x: nat, nx: nat, ny: nat, nz: nat)
    requires x < nx
    ensures (x + 1) * (ny * nz) <= nx * ny * nz
  {
    MulMono(x + 1, nx, ny * nz);
    assert nx * ny * nz == nx * (ny * nz);
  }

  lemma MulMono(a: nat, c: nat, w: nat)
    requires a <= c
    ensures a * w <= c * w
  {
    assert c * w == a * w + (c - a) * w;
  }

  /** Consecutive cells along an axis touch: each starts where the one before it ends. */
  lemma CellsTile(b: Bounds, numCells: Vec3, x: nat, y: nat, z: nat)
    requires ValidCounts(numCells)
    ensures CellBox(b, numCells, x + 1, y, z).minimum.x == MaxCorner(CellBox(b, numCells, x, y, z)).x
    ensures CellBox(b, numCells, x, y + 1, z).minimum.y == MaxCorner(CellBox(b, numCells, x, y, z)).y
    ensures CellBox(b, numCells, x, y, z + 1).minimum.z == MaxCorner(CellBox(b, numCells, x, y, z)).z
  {
    MulSucc(x, Interval(b, numCells).x);
    MulSucc(y, Interval(b, numCells).y);
    MulSucc(z, Interval(b, numCells).z);
  }

  lemma MulSucc(k: nat, a: real)
    ensures Mul((k + 1) as real, a) == Mul(k as real, a) + a
  {
  }

  /** Along x, the last cell ends at the volume's maximum exactly when the inspector's
      count is a whole number; a fractional count leaves a strip of the volume uncovered. */
  lemma GridReachesMaxX(b: Bounds, numCells: Vec3)
    requires ValidCounts(numCells) && b.min.x < b.max.x
    ensures b.min.x + Mul(CountX(numCells) as real, Interval(b, numCells).x) == b.max.x
      <==> CountX(numCells) as real == numCells.x
    ensures b.min.x + Mul(CountX(numCells) as real, Interval(b, numCells).x) <= b.max.x
  {
    var n := CountX(numCells) as real;
    var c := numCells.x;
    var e := b.max.x - b.min.x;
    assert Mul(n, e / c) == e * (n / c);
    assert n / c <= 1.0;
    assert n == c <==> n / c == 1.0;
    if n / c < 1.0 {
      assert e * (n / c) < e;
    }
  }
}

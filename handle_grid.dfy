/** The uniform grid over handle positions that initLa and initPBD build to answer
    "is this point strictly within the radius of some handle?". The cell size equals the
    radius, a handle sits in the cell floor(coordinate / radius) on each axis, and a query
    scans the 3x3x3 block of cells around the point's own cell. */
module HandleGrid {
  import opened Geometry

  datatype Cell = Cell(x: int, y: int, z: int)

  /** The grid cell of a point (the int3 of floor(pos / cell_size) per axis). */
  function CellOf(p: Vec3, cellSize: real): (r: Cell)
    requires cellSize > 0.0
    ensures r.x as real * cellSize <= p.x < (r.x + 1) as real * cellSize
    ensures r.y as real * cellSize <= p.y < (r.y + 1) as real * cellSize
    ensures r.z as real * cellSize <= p.z < (r.z + 1) as real * cellSize
  {
    FloorScaled(p.x, cellSize);
    FloorScaled(p.y, cellSize);
    FloorScaled(p.z, cellSize);

    Cell((p.x / cellSize).Floor, (p.y / cellSize).Floor, (p.z / cellSize).Floor)
  }

  /** The cell of coordinate v spans [floor(v / s) s, (floor(v / s) + 1) s). */
  lemma FloorScaled(v: real, s: real)
    requires s > 0.0
    ensures (v / s).Floor as real * s <= v
    ensures v < ((v / s).Floor + 1) as real * s
  {
    var q := v / s;
    assert q * s == v;
    assert q.Floor as real * s <= q * s;
    FloorScaledAbove(v, s);
  }

  /** The upper end of FloorScaled, kept apart so the solver sees it alone. */
  lemma FloorScaledAbove(v: real, s: real)
    requires s > 0.0
    ensures v < ((v / s).Floor + 1) as real * s
  {
    var q := v / s;
    assert q * s == v;
    var g := (q.Floor + 1) as real;
    assert q < g;
    assert q * s < g * s;
  }

  function Shift(c: Cell, dx: int, dy: int, dz: int): Cell {
    Cell(c.x + dx, c.y + dy, c.z + dz)
  }

  /** handle_grid: cell -> handle ids bucketed there, in insertion order. */
  type Grid = map<Cell, seq<nat>>

  /** The brute-force form of the query: some handle lies strictly within the radius. */
  ghost predicate NearSomeHandle(p: Vec3, positions: seq<Vec3>, handles: seq<nat>, radius: real)
  {
    exists h :: h in handles && h < |positions| && DistanceSquared(p, positions[h]) < radius * radius
  }

  /** `grid` buckets exactly the handles, each under its own cell. */
  ghost predicate IsGridOf(grid: Grid, positions: seq<Vec3>, handles: seq<nat>, cellSize: real)
    requires cellSize > 0.0
  {
    && (forall c, h :: c in grid && h in grid[c] ==>
          h in handles && h < |positions| && CellOf(positions[h], cellSize) == c)
    && (forall h :: h in handles ==>
          h < |positions| && CellOf(positions[h], cellSize) in grid && h in grid[CellOf(positions[h], cellSize)])
  }

  /** Buckets every handle under its cell (the first loop of initLa / initPBD). */
  method BuildGrid(positions: seq<Vec3>, handles: seq<nat>, cellSize: real) returns (grid: Grid)
    requires cellSize > 0.0
    requires forall h :: h in handles ==> h < |positions|
    ensures IsGridOf(grid, positions, handles, cellSize)
  {
    grid := map[];
    var i := 0;
    while i < |handles|
      invariant 0 <= i <= |handles|
      invariant IsGridOf(grid, positions, handles[..i], cellSize)
    {
      var h := handles[i];
      assert h in handles;
      var c := CellOf(positions[h], cellSize);
      var bucket := if c in grid then grid[c] else [];
      grid := grid[c := bucket + [h]];
      assert handles[..i + 1] == handles[..i] + [h];
      i := i + 1;
    }
    assert handles[..i] == handles;
  }

  /** If x and y differ by less than 1, their floors differ by at most 1. */
  lemma FloorsClose(x: real, y: real)
    requires -1.0 < x - y < 1.0
    ensures -1 <= x.Floor - y.Floor <= 1
  {
  }

  /** The reason the 3x3x3 scan is enough: a handle strictly within the radius of a point
      lies in one of the 27 cells around the point's cell. */
  lemma NearHandleInNeighbourCell(p: Vec3, q: Vec3, r: real)
    requires r > 0.0 && DistanceSquared(p, q) < r * r
    ensures var cp, cq := CellOf(p, r), CellOf(q, r);
      -1 <= cq.x - cp.x <= 1 && -1 <= cq.y - cp.y <= 1 && -1 <= cq.z - cp.z <= 1
  {
    AxisGapBelowRadius(p, q, r);
    ScaledGap(p.x, q.x, r);
    ScaledGap(p.y, q.y, r);
    ScaledGap(p.z, q.z, r);
    FloorsClose(q.x / r, p.x / r);
    FloorsClose(q.y / r, p.y / r);
    FloorsClose(q.z / r, p.z / r);
  }

  lemma ScaledGap(a: real, b: real, r: real)
    requires r > 0.0 && -r < a - b < r
    ensures -1.0 < b / r - a / r < 1.0
  {
    assert b / r - a / r == (b - a) / r;
    DivideBelow(b - a, r);
  }

  lemma DivideBelow(d: real, r: real)
    requires r > 0.0 && -r < d < r
    ensures -1.0 < d / r < 1.0
  {
    var t := d / r;
    assert t * r == d;
    MulLess(t, r);
  }

  lemma MulLess(t: real, r: real)
    requires r > 0.0 && -r < t * r < r
    ensures -1.0 < t < 1.0
  {
  }

  /** No handle bucketed in cell `c` lies within the radius of `p`. */
  ghost predicate CellClear(grid: Grid, c: Cell, p: Vec3, positions: seq<Vec3>, rsq: real)
  {
    c in grid ==> forall h :: h in grid[c] && h < |positions| ==> !(DistanceSquared(p, positions[h]) < rsq)
  }

  /** Scans one bucket for a handle strictly within the radius. */
  method ScanCell(bucket: seq<nat>, p: Vec3, positions: seq<Vec3>, rsq: real) returns (found: bool)
    requires forall j :: 0 <= j < |bucket| ==> bucket[j] < |positions|
    ensures found <==> exists h :: h in bucket && DistanceSquared(p, positions[h]) < rsq
  {
    found := false;
    var k := 0;
    while k < |bucket| && !found
      invariant 0 <= k <= |bucket|
      invariant !found ==> forall j :: 0 <= j < k ==> !(DistanceSquared(p, positions[bucket[j]]) < rsq)
      invariant found ==> exists h :: h in bucket && DistanceSquared(p, positions[h]) < rsq
    {
      if DistanceSquared(p, positions[bucket[k]]) < rsq {
        found := true;
      }
      k := k + 1;
    }
  }

  /** The innermost loop of the scan: the cells (x, y, -1..1) around `center`. */
  method ScanColumn(grid: Grid, center: Cell, x: int, y: int, p: Vec3, positions: seq<Vec3>,
                    handles: seq<nat>, radius: real) returns (found: bool)
    requires radius > 0.0
    requires IsGridOf(grid, positions, handles, radius)
    ensures found ==> NearSomeHandle(p, positions, handles, radius)
    ensures !found ==> forall dz :: -1 <= dz <= 1 ==>
      CellClear(grid, Shift(center, x, y, dz), p, positions, radius * radius)
  {
    found := false;
    var z := -1;
    while z <= 1 && !found
      invariant -1 <= z <= 2
      invariant !found ==> forall dz :: -1 <= dz < z ==>
        CellClear(grid, Shift(center, x, y, dz), p, positions, radius * radius)
      invariant found ==> NearSomeHandle(p, positions, handles, radius)
    {
      var c := Shift(center, x, y, z);
      if c in grid {
        forall j | 0 <= j < |grid[c]| ensures grid[c][j] < |positions| {
          var h := grid[c][j];
          assert c in grid && h in grid[c];
          BucketedInRange(grid, positions, handles, radius, c, h);
        }
        found := ScanCell(grid[c], p, positions, radius * radius);
      }
      z := z + 1;
    }
  }

  lemma BucketedInRange(grid: Grid, positions: seq<Vec3>, handles: seq<nat>, radius: real, c: Cell, h: nat)
    requires radius > 0.0 && IsGridOf(grid, positions, handles, radius)
    requires c in grid && h in grid[c]
    ensures h in handles && h < |positions|
  {
  }

  /** The middle loop of the scan: the cells (x, -1..1, -1..1) around `center`. */
  method ScanPlane(grid: Grid, center: Cell, x: int, p: Vec3, positions: seq<Vec3>,
                   handles: seq<nat>, radius: real) returns (found: bool)
    requires radius > 0.0
    requires IsGridOf(grid, positions, handles, radius)
    ensures found ==> NearSomeHandle(p, positions, handles, radius)
    ensures !found ==> forall dy, dz :: -1 <= dy <= 1 && -1 <= dz <= 1 ==>
      CellClear(grid, Shift(center, x, dy, dz), p, positions, radius * radius)
  {
    found := false;
    var y := -1;
    while y <= 1 && !found
      invariant -1 <= y <= 2
      invariant !found ==> forall dy, dz :: -1 <= dy < y && -1 <= dz <= 1 ==>
        CellClear(grid, Shift(center, x, dy, dz), p, positions, radius * radius)
      invariant found ==> NearSomeHandle(p, positions, handles, radius)
    {
      found := ScanColumn(grid, center, x, y, p, positions, handles, radius);
      y := y + 1;
    }
  }

  /** The 3x3x3 neighbourhood scan of initLa / initPBD, stopping at the first hit (the
      goto out of the nested loops). It answers exactly the brute-force question over all
      handles: the grid is only a faster form of it. */
  method Query(grid: Grid, p: Vec3, positions: seq<Vec3>, handles: seq<nat>, radius: real)
    returns (inside: bool)
    requires radius > 0.0
    requires IsGridOf(grid, positions, handles, radius)
    ensures inside <==> NearSomeHandle(p, positions, handles, radius)
  {
    var center := CellOf(p, radius);
    inside := false;
    var x := -1;
    while x <= 1 && !inside
      invariant -1 <= x <= 2
      invariant !inside ==> forall dx, dy, dz :: -1 <= dx < x && -1 <= dy <= 1 && -1 <= dz <= 1 ==>
        CellClear(grid, Shift(center, dx, dy, dz), p, positions, radius * radius)
      invariant inside ==> NearSomeHandle(p, positions, handles, radius)
    {
      inside := ScanPlane(grid, center, x, p, positions, handles, radius);
      x := x + 1;
    }
    if !inside {
      NoHandleOutsideScannedCells(grid, center, p, positions, handles, radius);
    }
  }

  /** When all 27 cells around the point's cell are clear, no handle is within the radius. */
  lemma NoHandleOutsideScannedCells(grid: Grid, center: Cell, p: Vec3, positions: seq<Vec3>,
                                    handles: seq<nat>, radius: real)
    requires radius > 0.0 && center == CellOf(p, radius)
    requires IsGridOf(grid, positions, handles, radius)
    requires forall dx, dy, dz :: -1 <= dx <= 1 && -1 <= dy <= 1 && -1 <= dz <= 1 ==>
      CellClear(grid, Shift(center, dx, dy, dz), p, positions, radius * radius)
    ensures !NearSomeHandle(p, positions, handles, radius)
  {
    if NearSomeHandle(p, positions, handles, radius) {
      var h :| h in handles && h < |positions| && DistanceSquared(p, positions[h]) < radius * radius;
      var ch := CellOf(positions[h], radius);
      NearHandleInNeighbourCell(p, positions[h], radius);
      ClearAt(grid, center, ch.x - center.x, ch.y - center.y, ch.z - center.z, p, positions, radius);
      assert false;
    }
  }

  lemma ClearAt(grid: Grid, center: Cell, dx: int, dy: int, dz: int, p: Vec3, positions: seq<Vec3>, radius: real)
    requires -1 <= dx <= 1 && -1 <= dy <= 1 && -1 <= dz <= 1
    requires forall dx, dy, dz :: -1 <= dx <= 1 && -1 <= dy <= 1 && -1 <= dz <= 1 ==>
      CellClear(grid, Shift(center, dx, dy, dz), p, positions, radius * radius)
    ensures CellClear(grid, Cell(center.x + dx, center.y + dy, center.z + dz), p, positions, radius * radius)
  {
    assert CellClear(grid, Shift(center, dx, dy, dz), p, positions, radius * radius);
  }
}

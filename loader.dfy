/** Loading a track from an image (internal/track/loader.go, `LoadTrackFromImage`):
    every pixel is classified into a cell with its friction, the start point is the
    integer centroid of the red Start cells (else the first Tarmac cell in scan order),
    and the centre-line mesh is generated from there.

    Opening and decoding the file are not modelled: the decoded image is the value
    `Image`, whose `width` and `height` are the bounds' `Max.X` and `Max.Y` and whose
    `at` answers `img.At(x, y)` with the colour channels the classifier reads. */
module Loader {
  import opened GoNumerics
  import opened Vector
  import opened Track
  import opened GridScan
  import opened Mesh
  import opened MeshGen

  datatype Image = Image(width: nat, height: nat, at: (int, int) -> Rgba)

  /** The friction a loaded cell gets: 0.4 on gravel, 0 in a wall, 1 everywhere else. */
  function FrictionOf(t: CellType): (f: real)
    ensures f == 0.0 <==> t == Wall
    ensures f == 0.4 <==> t == Gravel
    ensures t != Wall && t != Gravel <==> f == 1.0
  {
    match t
    case Gravel => 0.4
    case Wall => 0.0
    case _ => 1.0
  }

  /** The cell made from one pixel. */
  function CellFor(c: Rgba): Cell
  {
    var t := ColorToCellType(c);
    Cell(t, FrictionOf(t))
  }

  /** Column `x` of the loaded grid. */
  function ImageColumn(img: Image, x: int): seq<Cell>
  {
    seq(img.height, y => CellFor(img.at(x, y)))
  }

  /** The whole loaded grid: one cell per pixel, classified by its colour. */
  function ImageCells(img: Image): (cells: seq<seq<Cell>>)
    ensures Rectangular(cells, img.width, img.height)
    ensures forall x, y :: 0 <= x < img.width && 0 <= y < img.height ==>
      && cells[x][y].kind == ColorToCellType(img.at(x, y))
      && cells[x][y].friction == FrictionOf(cells[x][y].kind)
  {
    seq(img.width, x => ImageColumn(img, x))
  }

  /** A wall pixel is exactly a dark pixel, and it stops the car: its friction is 0. */
  lemma DarkPixelsAreWalls(img: Image, x: int, y: int)
    requires 0 <= x < img.width && 0 <= y < img.height
    ensures var c := img.at(x, y);
      ImageCells(img)[x][y].friction == 0.0 <==> IsDark(To8(c.r), To8(c.g), To8(c.b))
  {
  }

  // ---------------------------------------------------------------------------
  // Filling the grid

  /** The fill loop: x outer, y inner, each cell written in place, and the Start cells
      tallied on the way. */
  method FillGrid(grid: Grid, img: Image) returns (xSum: int, ySum: int, count: int)
    requires grid.Valid() && grid.width == img.width && grid.height == img.height
    modifies grid
    ensures grid.Valid() && grid.cells == ImageCells(img) && grid.scale == old(grid.scale)
    ensures count == Count(grid.cells, Start)
    ensures xSum == XSum(grid.cells, Start) && ySum == YSum(grid.cells, Start)
  {
    ghost var target := ImageCells(img);
    xSum, ySum, count := 0, 0, 0;
    var x := 0;
    assert Count(target[..x], Start) == XSum(target[..x], Start) == YSum(target[..x], Start) == 0;
    hide Count, XSum, YSum, ColCount, ColXSum, ColYSum, ImageCells;
    while x < img.width
      invariant 0 <= x <= img.width
      invariant grid.Valid() && grid.scale == old(grid.scale)
      invariant grid.cells[..x] == target[..x]
      invariant count == Count(target[..x], Start)
      invariant xSum == XSum(target[..x], Start) && ySum == YSum(target[..x], Start)
    {
      ghost var cellsBefore := grid.cells;
      var cx, cy, c := FillColumn(grid, img, x);
      xSum, ySum, count := xSum + cx, ySum + cy, count + c;
      assert target[x] == ImageColumn(img, x);
      PrefixGrows(cellsBefore, target, x);
      TallyStep(target, Start, x);
      x := x + 1;
    }
    assert grid.cells == grid.cells[..x];
    assert target == target[..x];
  }

  /** Writing column `x` of `t` into `s`, which agreed with `t` before `x`, extends the
      agreement past `x`. */
  lemma PrefixGrows<T>(s: seq<T>, t: seq<T>, x: int)
    requires 0 <= x < |s| == |t| && s[..x] == t[..x]
    ensures s[x := t[x]][..x + 1] == t[..x + 1]
  {
    assert forall i :: 0 <= i < x ==> s[..x][i] == t[..x][i];
  }

  /** The inner loop of the fill: column `x`, y ascending. */
  method FillColumn(grid: Grid, img: Image, x: int) returns (xSum: int, ySum: int, count: int)
    requires grid.Valid() && grid.width == img.width && grid.height == img.height
    requires 0 <= x < grid.width
    modifies grid
    ensures grid.Valid() && grid.scale == old(grid.scale)
    ensures grid.cells == old(grid.cells)[x := ImageColumn(img, x)]
    ensures count == ColCount(ImageColumn(img, x), Start)
    ensures xSum == ColXSum(ImageColumn(img, x), Start, x) && ySum == ColYSum(ImageColumn(img, x), Start)
  {
    ghost var col := ImageColumn(img, x);
    ghost var before := grid.cells[x];
    xSum, ySum, count := 0, 0, 0;
    var y := 0;
    assert col[..y] + before[y..] == before;
    assert old(grid.cells)[x := before] == grid.cells;
    assert ColCount(col[..y], Start) == ColXSum(col[..y], Start, x) == ColYSum(col[..y], Start) == 0;
    hide ColorToCellType, FrictionOf, ColCount, ColXSum, ColYSum;
    while y < img.height
      invariant 0 <= y <= img.height
      invariant grid.Valid() && grid.scale == old(grid.scale)
      invariant grid.cells == old(grid.cells)[x := col[..y] + before[y..]]
      invariant count == ColCount(col[..y], Start)
      invariant xSum == ColXSum(col[..y], Start, x) && ySum == ColYSum(col[..y], Start)
    {
      var cell := CellFor(img.at(x, y));
      assert cell == col[y];
      assert (col[..y] + before[y..])[y := cell] == col[..y + 1] + before[y + 1..];
      grid.cells := grid.cells[x := grid.cells[x][y := cell]];
      ColTallyStep(col, Start, x, y);
      if cell.kind == Start {
        xSum := xSum + x;
        ySum := ySum + y;
        count := count + 1;
      }
      y := y + 1;
    }
    assert col[..y] == col;
    assert col[..y] + before[y..] == col;
  }

  // ---------------------------------------------------------------------------
  // The start point

  /** The start point from the Start tally: its integer centroid when there are Start
      cells, else the first Tarmac cell in scan order, else (0, 0). */
  method FindStart(grid: Grid, xSum: int, ySum: int, count: int) returns (startX: int, startY: int)
    requires grid.Valid()
    requires count == Count(grid.cells, Start)
    requires xSum == XSum(grid.cells, Start) && ySum == YSum(grid.cells, Start)
    ensures (startX, startY) == StartPoint(grid.cells)
  {
    var cells := grid.cells;
    startX, startY := 0, 0;
    var foundStart := false;
    if count > 0 {
      startX := GoDiv(xSum, count);
      startY := GoDiv(ySum, count);
      foundStart := true;
    }
    if !foundStart {
      var x := 0;
      while x < grid.width
        invariant 0 <= x <= grid.width
        invariant !foundStart && startX == 0 && startY == 0
        invariant FirstFrom(cells, Tarmac, x) == FirstFrom(cells, Tarmac, 0)
      {
        var y := 0;
        while y < grid.height
          invariant 0 <= y <= grid.height
          invariant !foundStart && startX == 0 && startY == 0
          invariant FirstInColumn(cells[x], Tarmac, y) == FirstInColumn(cells[x], Tarmac, 0)
        {
          if cells[x][y].kind == Tarmac {
            startX, startY := x, y;
            foundStart := true;
            break;
          }
          y := y + 1;
        }
        if foundStart {
          assert FirstFrom(cells, Tarmac, x) == Some((startX, startY));
          break;
        }
        x := x + 1;
      }
    }
  }

  /** `LoadTrackFromImage` on a decoded image: a fresh grid filled from the pixels, the
      start point, and the mesh generated from it with the walker's `steer`. */
  method LoadTrackFromImage(img: Image, steer: (int, Vec2, Vec2, set<int>) -> Vec2, sqrt: real -> real)
    returns (grid: Grid, mesh: TrackMesh, ghost startX: int, ghost startY: int,
             ghost raw: seq<Waypoint>, ghost refined: seq<Waypoint>, ghost walk: WalkTrace)
    requires IsSqrt(sqrt)
    ensures fresh(grid) && grid.Valid()
    ensures grid.width == img.width && grid.height == img.height
    ensures grid.cells == ImageCells(img) && grid.scale == 1.0
    ensures (startX, startY) == StartPoint(grid.cells)
    ensures Count(grid.cells, Start) > 0 || FirstFrom(grid.cells, Tarmac, 0).Some? ==>
      0 <= startX < img.width && 0 <= startY < img.height
    ensures walk.dir0 == SeedDirection(XSum(grid.cells, Direction), YSum(grid.cells, Direction),
                                       Count(grid.cells, Direction), startX, startY, sqrt)
    ensures var start := Vec2(startX as real, startY as real);
      var left := WallDistance(WallScan(grid.cells, start, Perp(walk.dir0), 0, SeedRange));
      var right := WallDistance(WallScan(grid.cells, start, Neg(Perp(walk.dir0)), 0, SeedRange));
      && walk.width == SeedWidth(left, right)
      && walk.start == SeedCenter(start, Perp(walk.dir0), left, right)
    ensures IsWalk(img.width, img.height, steer, sqrt, walk, raw)
    ensures refined == Relaxations(grid.cells, raw, RelaxIterations, sqrt)
    ensures mesh.waypoints == Finished(refined, sqrt)
    ensures 1 <= |mesh.waypoints| <= MaxWaypoints
    ensures mesh.totalLen == |mesh.waypoints| as real * StepSize
    ensures forall k :: 0 <= k < |mesh.waypoints| ==> mesh.waypoints[k].id == k
    ensures forall k :: 0 <= k < |mesh.waypoints| ==> mesh.waypoints[k].width >= 2.0
    ensures forall k :: 0 <= k < |mesh.waypoints| ==> UnitOrZero(mesh.waypoints[k].normal)
    ensures forall j, k :: 0 <= j <= k < |mesh.waypoints| ==>
      0.0 <= mesh.waypoints[j].distance <= mesh.waypoints[k].distance
  {
    hide Relaxations, Finished, ImageCells, StartPoint, IsWalk, WallScan, SeedDirection, SeedWidth, SeedCenter;
    grid := new Grid(img.width, img.height);
    var xSum, ySum, count := FillGrid(grid, img);
    var sx, sy := FindStart(grid, xSum, ySum, count);
    startX, startY := sx, sy;
    StartPointSpec(grid.cells, img.width, img.height);
    mesh, raw, refined, walk := GenerateMesh(grid, sx, sy, steer, sqrt);
  }
}

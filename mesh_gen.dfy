/** The centre-line generator of the track loader (internal/track/loader.go,
    `GenerateMesh`): the seed direction and width at the start point, the walker that
    lays the raw waypoints, the elastic-band refinement that pulls each waypoint between
    the walls, and the smoothing passes over positions and normals.

    `math.Sqrt` is the parameter `sqrt`, constrained by `IsSqrt`. The walker's choice of
    the next direction (a ray-marched arc search over the grid with `math.Atan2`,
    `math.Cos` and `math.Sin`) is the parameter `steer`, which sees exactly what the
    search reads: the step number, the current point, the current direction and the set
    of visited cell keys. */
module MeshGen {
  import opened GoNumerics
  import opened Vector
  import opened Track
  import opened Mesh
  import opened GridScan

  /** Distance between successive raw waypoints, and the length the mesh reports per
      waypoint. */
  const StepSize := 6.0
  /** The walker lays at most this many waypoints. */
  const MaxWaypoints := 6000
  /** Loop closure is checked only after this step. */
  const ClosureAfter := 150
  /** Wall search range around the start point, and for the refinement rays. */
  const SeedRange := 100
  const RayRange := 80
  const RelaxIterations := 10

  const East := Vec2(1.0, 0.0)

  /** The vector turned a quarter to the left: `(-v.Y, v.X)`. */
  function Perp(v: Vec2): Vec2 { Vec2(-v.y, v.x) }

  function Neg(v: Vec2): Vec2 { Vec2(-v.x, -v.y) }

  /** The point `k` units from `o` along `d`. */
  function Ray(o: Vec2, d: Vec2, k: real): Vec2 { Vec2(o.x + d.x * k, o.y + d.y * k) }

  /** The ray point at a whole-number distance, as the source's float loop counters take. */
  function RayAt(o: Vec2, d: Vec2, k: int): Vec2 { Ray(o, d, k as real) }

  /** A unit vector, or the zero vector that stands for Go's NaN normal. */
  ghost predicate UnitOrZero(v: Vec2) { LenSq(v) == 1.0 || v == Zero }

  // ---------------------------------------------------------------------------
  // Tallying the cells of one kind

  /** The count and coordinate sums of the cells of `kind`, scanning x outer, y inner. */
  method TallyKind(grid: Grid, kind: CellType) returns (xSum: int, ySum: int, count: int)
    requires grid.Valid()
    ensures count == Count(grid.cells, kind)
    ensures xSum == XSum(grid.cells, kind) && ySum == YSum(grid.cells, kind)
  {
    var cells := grid.cells;
    xSum, ySum, count := 0, 0, 0;
    var x := 0;
    while x < grid.width
      invariant 0 <= x <= grid.width
      invariant count == Count(cells[..x], kind)
      invariant xSum == XSum(cells[..x], kind) && ySum == YSum(cells[..x], kind)
    {
      var cx, cy, c := TallyColumn(cells[x], kind, x);
      xSum, ySum, count := xSum + cx, ySum + cy, count + c;
      assert cells[..x + 1][..x] == cells[..x];
      x := x + 1;
    }
    assert cells[..x] == cells;
  }

  /** The inner loop of the tally: column `x`, y ascending. */
  method TallyColumn(col: seq<Cell>, kind: CellType, x: int) returns (xSum: int, ySum: int, count: int)
    ensures count == ColCount(col, kind)
    ensures xSum == ColXSum(col, kind, x) && ySum == ColYSum(col, kind)
  {
    xSum, ySum, count := 0, 0, 0;
    var y := 0;
    while y < |col|
      invariant 0 <= y <= |col|
      invariant count == ColCount(col[..y], kind)
      invariant xSum == ColXSum(col[..y], kind, x) && ySum == ColYSum(col[..y], kind)
    {
      assert col[..y + 1][..y] == col[..y];
      if col[y].kind == kind {
        xSum := xSum + x;
        ySum := ySum + y;
        count := count + 1;
      }
      y := y + 1;
    }
    assert col[..y] == col;
  }

  // ---------------------------------------------------------------------------
  // Seeding: direction, walls, width and centre at the start point

  /** The start direction: toward the mean of the Direction (yellow) cells when there
      are any and they are not at the start point itself, else east. */
  function SeedDirection(xSum: int, ySum: int, count: int, startX: int, startY: int,
                         sqrt: real -> real): Vec2
  {
    if count > 0 then
      var marker := Vec2(xSum as real / count as real, ySum as real / count as real);
      var d := Sub(marker, Vec2(startX as real, startY as real));
      if Len(d, sqrt) > 0.0 then Normalize(d, sqrt) else East
    else East
  }

  /** The start direction is a unit vector, and it is east when there is no marker. */
  lemma SeedDirectionUnit(xSum: int, ySum: int, count: int, startX: int, startY: int,
                          sqrt: real -> real)
    requires IsSqrt(sqrt)
    ensures LenSq(SeedDirection(xSum, ySum, count, startX, startY, sqrt)) == 1.0
    ensures count <= 0 ==> SeedDirection(xSum, ySum, count, startX, startY, sqrt) == East
  {
    if count > 0 {
      var marker := Vec2(xSum as real / count as real, ySum as real / count as real);
      var d := Sub(marker, Vec2(startX as real, startY as real));
      if Len(d, sqrt) > 0.0 {
        LenZeroIff(d, sqrt);
        NormalizeUnit(d, sqrt);
      }
    }
  }

  /** The first `k` in `[from, limit)` at which the ray from `o` along `d` meets a wall
      cell; the source steps a float `k` by 1.0 over the same whole numbers. */
  function WallScan(cells: seq<seq<Cell>>, o: Vec2, d: Vec2, from: int, limit: int): (r: Option<int>)
    ensures r.Some? ==> from <= r.value < limit && KindAt(cells, RayAt(o, d, r.value)) == Wall
    ensures r.Some? ==> forall k :: from <= k < r.value ==> KindAt(cells, RayAt(o, d, k)) != Wall
    ensures r.None? ==> forall k :: from <= k < limit ==> KindAt(cells, RayAt(o, d, k)) != Wall
    decreases limit - from
  {
    if from >= limit then None
    else if KindAt(cells, RayAt(o, d, from)) == Wall then Some(from)
    else WallScan(cells, o, d, from + 1, limit)
  }

  /** The ray loop: `found` says whether a wall was met, and `dist` is its distance, or
      0 as the source's variable keeps when none was. */
  method ScanRay(grid: Grid, o: Vec2, d: Vec2, from: int, limit: int) returns (found: bool, dist: int)
    requires grid.Valid()
    ensures found == WallScan(grid.cells, o, d, from, limit).Some?
    ensures found ==> dist == WallScan(grid.cells, o, d, from, limit).value
    ensures !found ==> dist == 0
  {
    found, dist := false, 0;
    var k := from;
    while k < limit
      invariant from <= k || limit <= from
      invariant WallScan(grid.cells, o, d, from, limit) == WallScan(grid.cells, o, d, k, limit)
      decreases limit - k
    {
      var p := RayAt(o, d, k);
      var cell := grid.Get(Trunc(p.x), Trunc(p.y));
      if cell.kind == Wall {
        found, dist := true, k;
        return;
      }
      k := k + 1;
    }
  }

  /** The distance a ray loop leaves behind: where the wall was met, or 0 without one. */
  function WallDistance(hit: Option<int>): real
  {
    if hit.Some? then hit.value as real else 0.0
  }

  /** The seed width: the distance between the walls, or 20 when they are under 2 apart. */
  function SeedWidth(left: real, right: real): (w: real)
    ensures w >= 2.0
    ensures w == left + right || w == 20.0
  {
    if left + right < 2.0 then 20.0 else left + right
  }

  /** The start point moved along the normal `n` by half the wall imbalance. */
  function SeedCenter(start: Vec2, n: Vec2, left: real, right: real): Vec2
  {
    Ray(start, n, (left - right) / 2.0)
  }

  /** The seed centre is the midpoint of the two wall points: each lies half the seed
      width `left + right` from it, on either side along `n`. */
  lemma SeedCenterMidway(start: Vec2, n: Vec2, left: real, right: real)
    ensures Ray(SeedCenter(start, n, left, right), n, (left + right) / 2.0) == Ray(start, n, left)
    ensures Ray(SeedCenter(start, n, left, right), Neg(n), (left + right) / 2.0) == Ray(start, Neg(n), right)
  {
    var h := (left + right) / 2.0;
    var m := (left - right) / 2.0;
    RayShift(start, n, m, h);
    assert m + h == left;
    RayReversed(start, n, m);
    RayShift(start, Neg(n), -m, h);
    assert -m + h == right;
  }

  /** Two moves along one direction add up. */
  lemma RayShift(o: Vec2, d: Vec2, s: real, t: real)
    ensures Ray(Ray(o, d, s), d, t) == Ray(o, d, s + t)
  {
    assert d.x * s + d.x * t == d.x * (s + t);
    assert d.y * s + d.y * t == d.y * (s + t);
  }

  /** Moving `s` along `d` is moving `-s` along the opposite direction. */
  lemma RayReversed(o: Vec2, d: Vec2, s: real)
    ensures Ray(o, d, s) == Ray(o, Neg(d), -s)
  {
    NegTimesNeg(d.x, s);
    NegTimesNeg(d.y, s);
    assert Neg(d).x * (-s) == d.x * s && Neg(d).y * (-s) == d.y * s;
  }

  lemma NegTimesNeg(a: real, b: real)
    ensures (-a) * (-b) == a * b
  {
  }

  // ---------------------------------------------------------------------------
  // The visited footprint

  /** The key of cell `(x, y)` in the visited set: `y*W + x`. */
  function Key(x: int, y: int, w: int): int { y * w + x }

  /** Keys of the in-bounds cells of the 5x5 square around `(cx, cy)` that come before
      `(a, b)` in the walker's vx-outer, vy-inner order. */
  ghost function Marked(cx: int, cy: int, w: int, h: int, a: int, b: int): set<int>
  {
    set x, y | cx - 2 <= x <= cx + 2 && cy - 2 <= y <= cy + 2
               && (x < a || (x == a && y < b)) && 0 <= x < w && 0 <= y < h :: Key(x, y, w)
  }

  /** Keys of all in-bounds cells of the 5x5 square around `(cx, cy)`. */
  ghost function Footprint(cx: int, cy: int, w: int, h: int): set<int>
  {
    set x, y | cx - 2 <= x <= cx + 2 && cy - 2 <= y <= cy + 2 && 0 <= x < w && 0 <= y < h :: Key(x, y, w)
  }

  lemma MarkedStep(cx: int, cy: int, w: int, h: int, a: int, b: int)
    requires cx - 2 <= a <= cx + 2 && cy - 2 <= b <= cy + 2
    ensures Marked(cx, cy, w, h, a, b + 1)
         == Marked(cx, cy, w, h, a, b) + (if 0 <= a < w && 0 <= b < h then {Key(a, b, w)} else {})
  {
  }

  lemma MarkedNextColumn(cx: int, cy: int, w: int, h: int, a: int)
    ensures Marked(cx, cy, w, h, a, cy + 3) == Marked(cx, cy, w, h, a + 1, cy - 2)
  {
  }

  lemma MarkedAll(cx: int, cy: int, w: int, h: int)
    ensures Marked(cx, cy, w, h, cx + 3, cy - 2) == Footprint(cx, cy, w, h)
    ensures Marked(cx, cy, w, h, cx - 2, cy - 2) == {}
  {
  }

  /** Every footprint key is the key of one cell of the grid: it lies in `[0, w*h)`. */
  lemma FootprintInGrid(cx: int, cy: int, w: int, h: int)
    ensures forall k :: k in Footprint(cx, cy, w, h) ==> 0 <= k < w * h
  {
    forall k | k in Footprint(cx, cy, w, h)
      ensures 0 <= k < w * h
    {
      var x, y :| cx - 2 <= x <= cx + 2 && cy - 2 <= y <= cy + 2 && 0 <= x < w && 0 <= y < h
                  && k == Key(x, y, w);
      MulLe(0, y, w);
      MulLe(y, h - 1, w);
      assert (h - 1) * w == h * w - w;
    }
  }

  lemma MulLe(a: int, b: int, c: int)
    requires a <= b && 0 <= c
    ensures a * c <= b * c
  {
    assert (b - a) * c >= 0;
    assert (b - a) * c == b * c - a * c;
  }

  /** The footprint loop: the in-bounds cells of the 5x5 square around `(cx, cy)` are
      added to `visited`, and nothing else is. */
  method MarkVisited(visited: set<int>, cx: int, cy: int, w: int, h: int) returns (v: set<int>)
    ensures v == visited + Footprint(cx, cy, w, h)
  {
    v := visited;
    MarkedAll(cx, cy, w, h);
    var vx := -2;
    while vx <= 2
      invariant -2 <= vx <= 3
      invariant v == visited + Marked(cx, cy, w, h, cx + vx, cy - 2)
    {
      var vy := -2;
      while vy <= 2
        invariant -2 <= vy <= 3
        invariant v == visited + Marked(cx, cy, w, h, cx + vx, cy + vy)
      {
        var x, y := cx + vx, cy + vy;
        MarkedStep(cx, cy, w, h, x, y);
        if 0 <= x < w && 0 <= y < h {
          v := v + {Key(x, y, w)};
        }
        vy := vy + 1;
      }
      MarkedNextColumn(cx, cy, w, h, cx + vx);
      vx := vx + 1;
    }
  }

  // ---------------------------------------------------------------------------
  // The walker

  /** What the walker saw on its way, besides the waypoints it laid: where it started,
      its first heading and the width it lays, and for each step the heading after it
      and the visited set that the step's direction choice was given. */
  datatype WalkTrace = WalkTrace(start: Vec2, dir0: Vec2, width: real,
                                 headings: seq<Vec2>, seen: seq<set<int>>)

  /** One step of `StepSize` along the unit direction `d`. */
  function Moved(p: Vec2, d: Vec2): Vec2
  {
    Vec2(p.x + d.x * StepSize, p.y + d.y * StepSize)
  }

  /** The heading blended 0.4 old to 0.6 new. */
  function Blended(d: Vec2, n: Vec2): Vec2
  {
    Vec2(d.x * 0.4 + n.x * 0.6, d.y * 0.4 + n.y * 0.6)
  }

  /** Step `k` of a walk: `steer` is asked with the step number, the previous point and
      heading and the visited set, which is the previous set plus the footprint of the
      previous point; the walker moves one step that way, blends its heading, and lays
      a waypoint numbered `k` with the normal of the blended heading, the seed width and
      the distance walked so far. */
  ghost predicate WalkStep(w: int, h: int, steer: (int, Vec2, Vec2, set<int>) -> Vec2,
                           sqrt: real -> real, t: WalkTrace, raw: seq<Waypoint>, k: int)
  {
    && 0 <= k < |raw| && k < |t.headings| && k < |t.seen|
    && var prevPos := if k == 0 then t.start else raw[k - 1].position;
       var prevDir := if k == 0 then t.dir0 else t.headings[k - 1];
       var prevDist := if k == 0 then 0.0 else raw[k - 1].distance;
       var s := steer(k, prevPos, prevDir, t.seen[k]);
       && t.seen[k] == (if k == 0 then {} else t.seen[k - 1] + Footprint(Trunc(prevPos.x), Trunc(prevPos.y), w, h))
       && t.headings[k] == Blended(prevDir, s)
       && raw[k] == Waypoint(k, Moved(prevPos, s), Normalize(Perp(t.headings[k]), sqrt), t.width,
                             prevDist + Len(Sub(Moved(prevPos, s), prevPos), sqrt))
  }

  /** `raw` is the walk `steer` makes in a `w` by `h` grid: every step as above, no stop
      before the path comes back within two steps of the start after step 150, and a
      stop as soon as it does, or after 6000 waypoints. */
  ghost predicate IsWalk(w: int, h: int, steer: (int, Vec2, Vec2, set<int>) -> Vec2,
                         sqrt: real -> real, t: WalkTrace, raw: seq<Waypoint>)
  {
    && 1 <= |raw| <= MaxWaypoints && |t.headings| == |raw| && |t.seen| == |raw|
    && (forall k :: 0 <= k < |raw| ==> WalkStep(w, h, steer, sqrt, t, raw, k))
    && (forall k :: ClosureAfter < k < |raw| - 1 ==>
          Len(Sub(raw[k].position, t.start), sqrt) >= 2.0 * StepSize)
    && (|raw| < MaxWaypoints ==>
          |raw| > ClosureAfter + 1 && Len(Sub(raw[|raw| - 1].position, t.start), sqrt) < 2.0 * StepSize)
  }

  /** Appending to a walk's waypoints and trace keeps its earlier steps. */
  lemma WalkStepsKept(w: int, h: int, steer: (int, Vec2, Vec2, set<int>) -> Vec2, sqrt: real -> real,
                      t: WalkTrace, raw: seq<Waypoint>, t2: WalkTrace, raw2: seq<Waypoint>)
    requires t2.start == t.start && t2.dir0 == t.dir0 && t2.width == t.width
    requires |raw| <= |raw2| && raw == raw2[..|raw|]
    requires |raw| <= |t.headings| <= |t2.headings| && t.headings == t2.headings[..|t.headings|]
    requires |raw| <= |t.seen| <= |t2.seen| && t.seen == t2.seen[..|t.seen|]
    requires forall k :: 0 <= k < |raw| ==> WalkStep(w, h, steer, sqrt, t, raw, k)
    ensures forall k :: 0 <= k < |raw| ==> WalkStep(w, h, steer, sqrt, t2, raw2, k)
  {
    forall k | 0 <= k < |raw|
      ensures WalkStep(w, h, steer, sqrt, t2, raw2, k)
    {
      assert WalkStep(w, h, steer, sqrt, t, raw, k);
      assert raw2[k] == raw[k] && t2.headings[k] == t.headings[k] && t2.seen[k] == t.seen[k];
      if k > 0 {
        assert raw2[k - 1] == raw[k - 1] && t2.headings[k - 1] == t.headings[k - 1];
        assert t2.seen[k - 1] == t.seen[k - 1];
      }
    }
  }

  /** Step `k` of a walk, from the values it was computed from. */
  lemma WalkStepFrom(w: int, h: int, steer: (int, Vec2, Vec2, set<int>) -> Vec2, sqrt: real -> real,
                     t: WalkTrace, raw: seq<Waypoint>, k: int, prevPos: Vec2, prevDir: Vec2, prevDist: real)
    requires 0 <= k < |raw| && k < |t.headings| && k < |t.seen|
    requires prevPos == (if k == 0 then t.start else raw[k - 1].position)
    requires prevDir == (if k == 0 then t.dir0 else t.headings[k - 1])
    requires prevDist == (if k == 0 then 0.0 else raw[k - 1].distance)
    requires t.seen[k] == (if k == 0 then {} else t.seen[k - 1] + Footprint(Trunc(prevPos.x), Trunc(prevPos.y), w, h))
    requires t.headings[k] == Blended(prevDir, steer(k, prevPos, prevDir, t.seen[k]))
    requires var s := steer(k, prevPos, prevDir, t.seen[k]);
      raw[k] == Waypoint(k, Moved(prevPos, s), Normalize(Perp(t.headings[k]), sqrt), t.width,
                         prevDist + Len(Sub(Moved(prevPos, s), prevPos), sqrt))
    ensures WalkStep(w, h, steer, sqrt, t, raw, k)
  {
  }

  /** The walker: from `center`, step `StepSize` along the direction `steer` picks,
      blend the heading 0.4 old to 0.6 new, accumulate the distance walked, mark the
      footprint visited and lay a waypoint whose normal is the blended heading turned
      left, until the path comes back within two steps of the centre after step 150, or
      6000 waypoints are laid. Go's NaN normal of a zero heading is the zero vector. */
  method Walk(grid: Grid, center: Vec2, dir0: Vec2, trackWidth: real,
              steer: (int, Vec2, Vec2, set<int>) -> Vec2, sqrt: real -> real)
    returns (raw: seq<Waypoint>, ghost trace: WalkTrace)
    requires grid.Valid() && IsSqrt(sqrt)
    ensures trace.start == center && trace.dir0 == dir0 && trace.width == trackWidth
    ensures IsWalk(grid.width, grid.height, steer, sqrt, trace, raw)
    ensures 1 <= |raw| <= MaxWaypoints
    ensures forall k :: 0 <= k < |raw| ==> raw[k].id == k && raw[k].width == trackWidth
    ensures forall k :: 0 <= k < |raw| ==> UnitOrZero(raw[k].normal)
    ensures raw[0].distance == Len(Sub(raw[0].position, center), sqrt)
    ensures forall k :: 0 < k < |raw| ==>
      raw[k].distance == raw[k - 1].distance + Len(Sub(raw[k].position, raw[k - 1].position), sqrt)
    ensures |raw| < MaxWaypoints ==>
      |raw| > ClosureAfter + 1 && Len(Sub(raw[|raw| - 1].position, center), sqrt) < 2.0 * StepSize
  {
    hide Normalize, Len, Footprint, Trunc, Perp, Sub, UnitOrZero, Moved, Blended, WalkStep, IsWalk;
    var curr := center;
    var dir := dir0;
    var totalDist := 0.0;
    var visited: set<int> := {};
    ghost var headings: seq<Vec2> := [];
    ghost var seen: seq<set<int>> := [];
    raw := [];
    var i := 0;
    while i < MaxWaypoints
      invariant 0 <= i <= MaxWaypoints && |raw| == i && |headings| == i && |seen| == i
      invariant i == 0 ==> curr == center && totalDist == 0.0 && dir == dir0 && visited == {}
      invariant i > 0 ==> curr == raw[i - 1].position && totalDist == raw[i - 1].distance
      invariant i > 0 ==> dir == headings[i - 1]
      invariant i > 0 ==> visited == seen[i - 1] + Footprint(Trunc(curr.x), Trunc(curr.y), grid.width, grid.height)
      invariant forall k :: 0 <= k < i ==>
        WalkStep(grid.width, grid.height, steer, sqrt, WalkTrace(center, dir0, trackWidth, headings, seen), raw, k)
      invariant forall k :: ClosureAfter < k < i ==> Len(Sub(raw[k].position, center), sqrt) >= 2.0 * StepSize
    {
      ghost var t0 := WalkTrace(center, dir0, trackWidth, headings, seen);
      ghost var raw0 := raw;
      seen := seen + [visited];
      var newDir := steer(i, curr, dir, visited);
      var prev, prevDir, prevDist := curr, dir, totalDist;
      curr := Moved(curr, newDir);
      dir := Blended(dir, newDir);
      headings := headings + [dir];
      var actualStep := Len(Sub(curr, prev), sqrt);
      totalDist := totalDist + actualStep;
      visited := MarkVisited(visited, Trunc(curr.x), Trunc(curr.y), grid.width, grid.height);
      var normal := Normalize(Perp(dir), sqrt);
      raw := raw + [Waypoint(i, curr, normal, trackWidth, totalDist)];
      ghost var t := WalkTrace(center, dir0, trackWidth, headings, seen);
      WalkStepsKept(grid.width, grid.height, steer, sqrt, t0, raw0, t, raw);
      WalkStepFrom(grid.width, grid.height, steer, sqrt, t, raw, i, prev, prevDir, prevDist);
      if i > ClosureAfter {
        var distToStart := Len(Sub(curr, center), sqrt);
        if distToStart < StepSize * 2.0 {
          trace := t;
          WalkIs(grid.width, grid.height, steer, sqrt, trace, raw);
          WalkFacts(grid.width, grid.height, steer, sqrt, trace, raw);
          return;
        }
      }
      i := i + 1;
    }
    trace := WalkTrace(center, dir0, trackWidth, headings, seen);
    WalkIs(grid.width, grid.height, steer, sqrt, trace, raw);
    WalkFacts(grid.width, grid.height, steer, sqrt, trace, raw);
  }

  /** What every walk lays: waypoints numbered 0, 1, 2, ... with the seed width and a
      unit (or zero) normal, whose distances add up the lengths of the steps. */
  lemma WalkFacts(w: int, h: int, steer: (int, Vec2, Vec2, set<int>) -> Vec2, sqrt: real -> real,
                  t: WalkTrace, raw: seq<Waypoint>)
    requires IsSqrt(sqrt) && IsWalk(w, h, steer, sqrt, t, raw)
    ensures forall k :: 0 <= k < |raw| ==> raw[k].id == k && raw[k].width == t.width
    ensures forall k :: 0 <= k < |raw| ==> UnitOrZero(raw[k].normal)
    ensures raw[0].distance == Len(Sub(raw[0].position, t.start), sqrt)
    ensures forall k :: 0 < k < |raw| ==>
      raw[k].distance == raw[k - 1].distance + Len(Sub(raw[k].position, raw[k - 1].position), sqrt)
  {
    forall k | 0 <= k < |raw|
      ensures raw[k].id == k && raw[k].width == t.width && UnitOrZero(raw[k].normal)
      ensures k == 0 ==> raw[k].distance == Len(Sub(raw[k].position, t.start), sqrt)
      ensures k > 0 ==>
        raw[k].distance == raw[k - 1].distance + Len(Sub(raw[k].position, raw[k - 1].position), sqrt)
    {
      assert WalkStep(w, h, steer, sqrt, t, raw, k);
      NormalUnitOrZero(Perp(t.headings[k]), sqrt);
    }
  }

  /** A walk, from its parts. */
  lemma WalkIs(w: int, h: int, steer: (int, Vec2, Vec2, set<int>) -> Vec2, sqrt: real -> real,
               t: WalkTrace, raw: seq<Waypoint>)
    requires 1 <= |raw| <= MaxWaypoints && |t.headings| == |raw| && |t.seen| == |raw|
    requires forall k :: 0 <= k < |raw| ==> WalkStep(w, h, steer, sqrt, t, raw, k)
    requires forall k :: ClosureAfter < k < |raw| - 1 ==> Len(Sub(raw[k].position, t.start), sqrt) >= 2.0 * StepSize
    requires |raw| < MaxWaypoints ==>
      |raw| > ClosureAfter + 1 && Len(Sub(raw[|raw| - 1].position, t.start), sqrt) < 2.0 * StepSize
    ensures IsWalk(w, h, steer, sqrt, t, raw)
  {
  }

  /** The walk is a function of the grid, `steer` and where it starts: two walks from the
      same start, heading and width lay the same waypoints and see the same things. */
  lemma WalkDetermined(w: int, h: int, steer: (int, Vec2, Vec2, set<int>) -> Vec2, sqrt: real -> real,
                       t1: WalkTrace, raw1: seq<Waypoint>, t2: WalkTrace, raw2: seq<Waypoint>)
    requires IsWalk(w, h, steer, sqrt, t1, raw1) && IsWalk(w, h, steer, sqrt, t2, raw2)
    requires t1.start == t2.start && t1.dir0 == t2.dir0 && t1.width == t2.width
    ensures raw1 == raw2 && t1 == t2
  {
    WalkStopsNoEarlier(w, h, steer, sqrt, t1, raw1, t2, raw2);
    WalkStopsNoEarlier(w, h, steer, sqrt, t2, raw2, t1, raw1);
    WalksAgree(w, h, steer, sqrt, t1, raw1, t2, raw2, |raw1|);
    assert raw1 == raw2;
    assert t1.headings == t2.headings && t1.seen == t2.seen;
  }

  /** A walk does not stop before another walk from the same start. */
  lemma WalkStopsNoEarlier(w: int, h: int, steer: (int, Vec2, Vec2, set<int>) -> Vec2, sqrt: real -> real,
                           t1: WalkTrace, raw1: seq<Waypoint>, t2: WalkTrace, raw2: seq<Waypoint>)
    requires IsWalk(w, h, steer, sqrt, t1, raw1) && IsWalk(w, h, steer, sqrt, t2, raw2)
    requires t1.start == t2.start && t1.dir0 == t2.dir0 && t1.width == t2.width
    ensures |raw1| >= |raw2|
  {
    if |raw1| < |raw2| {
      WalksAgree(w, h, steer, sqrt, t1, raw1, t2, raw2, |raw1|);
    }
  }

  /** Two walks from the same start agree on every step both have taken. */
  lemma {:induction false} WalksAgree(w: int, h: int, steer: (int, Vec2, Vec2, set<int>) -> Vec2,
                                      sqrt: real -> real, t1: WalkTrace, raw1: seq<Waypoint>,
                                      t2: WalkTrace, raw2: seq<Waypoint>, n: nat)
    requires IsWalk(w, h, steer, sqrt, t1, raw1) && IsWalk(w, h, steer, sqrt, t2, raw2)
    requires t1.start == t2.start && t1.dir0 == t2.dir0 && t1.width == t2.width
    requires n <= |raw1| && n <= |raw2|
    ensures forall k :: 0 <= k < n ==>
      raw1[k] == raw2[k] && t1.headings[k] == t2.headings[k] && t1.seen[k] == t2.seen[k]
  {
    if n > 0 {
      WalksAgree(w, h, steer, sqrt, t1, raw1, t2, raw2, n - 1);
      assert WalkStep(w, h, steer, sqrt, t1, raw1, n - 1);
      assert WalkStep(w, h, steer, sqrt, t2, raw2, n - 1);
    }
  }

  /** A normalised vector is a unit vector, or zero when the vector is zero. */
  lemma NormalUnitOrZero(v: Vec2, sqrt: real -> real)
    requires IsSqrt(sqrt)
    ensures UnitOrZero(Normalize(v, sqrt))
  {
    if v == Zero {
      NormalizeZero(sqrt);
    } else {
      NormalizeUnit(v, sqrt);
    }
  }

  /** The distances the walker records never decrease: each adds a length. */
  lemma {:induction false} WalkDistancesGrow(raw: seq<Waypoint>, center: Vec2, sqrt: real -> real)
    requires IsSqrt(sqrt) && |raw| > 0
    requires raw[0].distance == Len(Sub(raw[0].position, center), sqrt)
    requires forall k :: 0 < k < |raw| ==>
      raw[k].distance == raw[k - 1].distance + Len(Sub(raw[k].position, raw[k - 1].position), sqrt)
    ensures forall j, k :: 0 <= j <= k < |raw| ==> 0.0 <= raw[j].distance <= raw[k].distance
  {
    if |raw| > 1 {
      var p := raw[..|raw| - 1];
      WalkDistancesGrow(p, center, sqrt);
      var last := |raw| - 1;
      assert raw[last].distance >= raw[last - 1].distance;
      forall j, k | 0 <= j <= k < |raw|
        ensures 0.0 <= raw[j].distance <= raw[k].distance
      {
        if k < last {
          assert raw[j] == p[j] && raw[k] == p[k];
        } else if j < last {
          assert raw[j] == p[j] && raw[last - 1] == p[last - 1];
        }
      }
    }
  }

  // ---------------------------------------------------------------------------
  // Refinement: the elastic band

  /** The chord of waypoint `i`'s cyclic neighbours turned left: `(-ty, tx)`. */
  function ChordNormal(wps: seq<Waypoint>, i: int): Vec2
    requires 0 <= i < |wps|
  {
    var n := |wps|;
    Perp(Sub(wps[CyclicIndex(i, 1, n)].position, wps[CyclicIndex(i, -1, n)].position))
  }

  /** One waypoint of one refinement pass: with the unit normal from its neighbours,
      cast rays from distance 1 to 79 to either side and recentre on the hits. A
      waypoint whose neighbours coincide is skipped. */
  function Relaxed(cells: seq<seq<Cell>>, wps: seq<Waypoint>, i: int, sqrt: real -> real): (r: Waypoint)
    requires 0 <= i < |wps|
    ensures r.id == wps[i].id && r.normal == wps[i].normal && r.distance == wps[i].distance
    ensures r.width == wps[i].width || r.width >= 2.0
    ensures Len(ChordNormal(wps, i), sqrt) == 0.0 ==> r == wps[i]
  {
    var nrm := ChordNormal(wps, i);
    if Len(nrm, sqrt) == 0.0 then wps[i]
    else
      var u := Normalize(nrm, sqrt);
      var p := wps[i].position;
      Recentred(wps[i], u, WallScan(cells, p, u, 1, RayRange), WallScan(cells, p, Neg(u), 1, RayRange))
  }

  /** If both rays met a wall, the waypoint moves along `u` by half the correction
      `(left - right) / 2`, and its width becomes the distance between the hits. */
  function Recentred(wp: Waypoint, u: Vec2, left: Option<int>, right: Option<int>): (r: Waypoint)
    requires left.Some? ==> left.value >= 1
    requires right.Some? ==> right.value >= 1
    ensures r.id == wp.id && r.normal == wp.normal && r.distance == wp.distance
    ensures left.None? || right.None? ==> r == wp
    ensures left.Some? && right.Some? ==> r.width == (left.value + right.value) as real >= 2.0
  {
    if left.Some? && right.Some? then
      var correction := (left.value as real - right.value as real) / 2.0;
      wp.(position := Ray(wp.position, u, correction * 0.5), width := (left.value + right.value) as real)
    else wp
  }

  /** A recentred waypoint sees the same two wall points along its normal, at distances
      that still add up to its new width and whose difference is half what it was: the
      band moves each waypoint halfway toward the midpoint between the walls. */
  lemma RecentredMidway(wp: Waypoint, u: Vec2, left: int, right: int)
    requires left >= 1 && right >= 1
    ensures var r := Recentred(wp, u, Some(left), Some(right));
      var (dl, dr) := ((3 * left + right) as real / 4.0, (left + 3 * right) as real / 4.0);
      && Ray(r.position, u, dl) == Ray(wp.position, u, left as real)
      && Ray(r.position, Neg(u), dr) == Ray(wp.position, Neg(u), right as real)
      && dl + dr == r.width
      && dl - dr == (left - right) as real / 2.0
  {
    var c := (left as real - right as real) / 2.0 * 0.5;
    ShiftAlongRay(wp.position, u, c, left as real, right as real);
  }

  /** Moving a point by `c` along `u` keeps the two points `left` ahead and `right`
      behind at distances `left - c` and `right + c`. */
  lemma ShiftAlongRay(p: Vec2, u: Vec2, c: real, left: real, right: real)
    ensures Ray(Ray(p, u, c), u, left - c) == Ray(p, u, left)
    ensures Ray(Ray(p, u, c), Neg(u), right + c) == Ray(p, Neg(u), right)
  {
    RayShift(p, u, c, left - c);
    RayReversed(p, u, c);
    RayShift(p, Neg(u), -c, right + c);
  }

  /** A refinement pass over the first `k` waypoints, in order, each seeing the
      waypoints before it already moved in this pass. */
  function PassUpTo(cells: seq<seq<Cell>>, wps: seq<Waypoint>, k: nat, sqrt: real -> real): (r: seq<Waypoint>)
    requires k <= |wps|
    ensures |r| == |wps|
  {
    if k == 0 then wps
    else
      var w := PassUpTo(cells, wps, k - 1, sqrt);
      w[k - 1 := Relaxed(cells, w, k - 1, sqrt)]
  }

  /** Waypoints keep their id, normal and distance through a partial pass, those from `k`
      on are untouched, and every width is kept or is a wall-to-wall width of at least 2. */
  ghost predicate PassFrame(wps: seq<Waypoint>, r: seq<Waypoint>, k: nat)
  {
    && |r| == |wps|
    && (forall j {:trigger r[j]} :: 0 <= j < |wps| ==>
          && r[j].id == wps[j].id && r[j].normal == wps[j].normal && r[j].distance == wps[j].distance
          && (r[j].width == wps[j].width || r[j].width >= 2.0))
    && (forall j {:trigger r[j]} :: k <= j < |wps| ==> r[j] == wps[j])
  }

  lemma {:induction false} PassUpToFrame(cells: seq<seq<Cell>>, wps: seq<Waypoint>, k: nat, sqrt: real -> real)
    requires k <= |wps|
    ensures PassFrame(wps, PassUpTo(cells, wps, k, sqrt), k)
  {
    hide Relaxed, ChordNormal, Len, Normalize, WallScan, KindAt;
    if k > 0 {
      PassUpToFrame(cells, wps, k - 1, sqrt);
      var w := PassUpTo(cells, wps, k - 1, sqrt);
      var v := Relaxed(cells, w, k - 1, sqrt);
      assert PassUpTo(cells, wps, k, sqrt) == w[k - 1 := v];
    }
  }

  /** `iters` full refinement passes. */
  function Relaxations(cells: seq<seq<Cell>>, wps: seq<Waypoint>, iters: nat, sqrt: real -> real): (r: seq<Waypoint>)
    ensures |r| == |wps|
  {
    if iters == 0 then wps
    else
      var w := Relaxations(cells, wps, iters - 1, sqrt);
      PassUpTo(cells, w, |w|, sqrt)
  }

  /** Through any number of passes every waypoint keeps its id, normal and distance, and
      its width is kept or is a wall-to-wall width of at least 2. */
  lemma {:induction false} RelaxationsFrame(cells: seq<seq<Cell>>, wps: seq<Waypoint>, iters: nat, sqrt: real -> real)
    ensures PassFrame(wps, Relaxations(cells, wps, iters, sqrt), |wps|)
  {
    hide Relaxed, PassUpTo;
    if iters > 0 {
      RelaxationsFrame(cells, wps, iters - 1, sqrt);
      var w := Relaxations(cells, wps, iters - 1, sqrt);
      PassUpToFrame(cells, w, |w|, sqrt);
      assert Relaxations(cells, wps, iters, sqrt) == PassUpTo(cells, w, |w|, sqrt);
      var r := PassUpTo(cells, w, |w|, sqrt);
      forall j | 0 <= j < |wps|
        ensures && r[j].id == wps[j].id && r[j].normal == wps[j].normal && r[j].distance == wps[j].distance
                && (r[j].width == wps[j].width || r[j].width >= 2.0)
      {
        assert r[j].id == w[j].id;
      }
    }
  }

  /** A mesh of one waypoint is its own neighbour on both sides, so refinement never
      moves it. */
  lemma SingleWaypointStays(cells: seq<seq<Cell>>, wps: seq<Waypoint>, iters: nat, sqrt: real -> real)
    requires |wps| == 1 && IsSqrt(sqrt)
    ensures Relaxations(cells, wps, iters, sqrt) == wps
  {
    SinglePassStays(cells, wps, sqrt);
    FixedPointStays(cells, wps, iters, sqrt);
  }

  /** Waypoints that one refinement pass leaves as they are, any number of passes does. */
  lemma {:induction false} FixedPointStays(cells: seq<seq<Cell>>, wps: seq<Waypoint>, iters: nat, sqrt: real -> real)
    requires PassUpTo(cells, wps, |wps|, sqrt) == wps
    ensures Relaxations(cells, wps, iters, sqrt) == wps
  {
    hide Relaxed, PassUpTo;
    if iters > 0 {
      FixedPointStays(cells, wps, iters - 1, sqrt);
    }
  }

  lemma SinglePassStays(cells: seq<seq<Cell>>, wps: seq<Waypoint>, sqrt: real -> real)
    requires |wps| == 1 && IsSqrt(sqrt)
    ensures PassUpTo(cells, wps, 1, sqrt) == wps
  {
    SingleRelaxedStays(cells, wps, sqrt);
    assert PassUpTo(cells, wps, 1, sqrt) == wps[0 := Relaxed(cells, wps, 0, sqrt)];
  }

  lemma SingleRelaxedStays(cells: seq<seq<Cell>>, wps: seq<Waypoint>, sqrt: real -> real)
    requires |wps| == 1 && IsSqrt(sqrt)
    ensures Relaxed(cells, wps, 0, sqrt) == wps[0]
  {
    SingleChordZero(wps);
    LenZeroIff(Zero, sqrt);
  }

  lemma SingleChordZero(wps: seq<Waypoint>)
    requires |wps| == 1
    ensures ChordNormal(wps, 0) == Zero
  {
    var p := wps[0].position;
    assert ChordNormal(wps, 0) == Perp(Sub(p, p));
  }

  /** The refinement of one waypoint, with its two ray loops. */
  method RelaxAt(grid: Grid, wps: seq<Waypoint>, i: int, sqrt: real -> real) returns (w: Waypoint)
    requires grid.Valid() && 0 <= i < |wps|
    ensures w == Relaxed(grid.cells, wps, i, sqrt)
  {
    hide WallScan, KindAt, Trunc, Normalize, Len, Ray, RayAt, Neg, Perp, Sub;
    var n := |wps|;
    var prev := wps[CyclicIndex(i, -1, n)];
    var next := wps[CyclicIndex(i, 1, n)];
    var nrm := Perp(Sub(next.position, prev.position));
    var l := Len(nrm, sqrt);
    w := wps[i];
    if l == 0.0 {
      return;
    }
    var u := Normalize(nrm, sqrt);
    var foundLeft, dLeft := ScanRay(grid, w.position, u, 1, RayRange);
    var foundRight, dRight := ScanRay(grid, w.position, Neg(u), 1, RayRange);
    if foundLeft && foundRight {
      var correction := (dLeft as real - dRight as real) / 2.0;
      w := w.(position := Ray(w.position, u, correction * 0.5), width := (dLeft + dRight) as real);
    }
    assert w == Recentred(wps[i], u, WallScan(grid.cells, wps[i].position, u, 1, RayRange),
                          WallScan(grid.cells, wps[i].position, Neg(u), 1, RayRange));
  }

  /** One refinement pass, in place. */
  method RelaxPass(grid: Grid, a: array<Waypoint>, sqrt: real -> real)
    requires grid.Valid()
    modifies a
    ensures a[..] == PassUpTo(grid.cells, old(a[..]), a.Length, sqrt)
  {
    ghost var a0 := a[..];
    var i := 0;
    while i < a.Length
      invariant 0 <= i <= a.Length
      invariant a[..] == PassUpTo(grid.cells, a0, i, sqrt)
    {
      var w := RelaxAt(grid, a[..], i, sqrt);
      a[i] := w;
      i := i + 1;
    }
  }

  /** The ten refinement passes, in place. */
  method Refine(grid: Grid, a: array<Waypoint>, sqrt: real -> real)
    requires grid.Valid()
    modifies a
    ensures a[..] == Relaxations(grid.cells, old(a[..]), RelaxIterations, sqrt)
  {
    hide Relaxed, PassUpTo;
    ghost var a0 := a[..];
    var iter := 0;
    while iter < RelaxIterations
      invariant 0 <= iter <= RelaxIterations
      invariant a[..] == Relaxations(grid.cells, a0, iter, sqrt)
    {
      RelaxPass(grid, a, sqrt);
      assert a[..] == PassUpTo(grid.cells, Relaxations(grid.cells, a0, iter, sqrt), a.Length, sqrt);
      iter := iter + 1;
    }
  }

  // ---------------------------------------------------------------------------
  // Smoothing

  /** The positions of the cyclic neighbours `i + lo` to `i + hi - 1`, added in order. */
  function PositionSum(wps: seq<Waypoint>, i: int, lo: int, hi: int): Vec2
    requires 0 <= i < |wps| && -2 <= lo && hi <= 3
    decreases hi - lo
  {
    if hi <= lo then Zero
    else Add(PositionSum(wps, i, lo, hi - 1), wps[CyclicIndex(i, hi - 1, |wps|)].position)
  }

  /** The normals of the cyclic neighbours `i + lo` to `i + hi - 1`, added in order. */
  function NormalSum(wps: seq<Waypoint>, i: int, lo: int, hi: int): Vec2
    requires 0 <= i < |wps| && -2 <= lo && hi <= 3
    decreases hi - lo
  {
    if hi <= lo then Zero
    else Add(NormalSum(wps, i, lo, hi - 1), wps[CyclicIndex(i, hi - 1, |wps|)].normal)
  }

  /** One position-smoothing pass: every position becomes the mean of its window of
      three (`j` from `-3/2 = -1` to `3/2 = 1` in Go's truncating division) in the
      snapshot `wps`. Nothing but positions changes. */
  function SmoothedPositions(wps: seq<Waypoint>): (r: seq<Waypoint>)
    ensures |r| == |wps|
    ensures forall i {:trigger r[i]} :: 0 <= i < |wps| ==>
      r[i].id == wps[i].id && r[i].normal == wps[i].normal
      && r[i].width == wps[i].width && r[i].distance == wps[i].distance
  {
    seq(|wps|, i requires 0 <= i < |wps| => SmoothedPositionAt(wps, i))
  }

  function SmoothedPositionAt(wps: seq<Waypoint>, i: int): Waypoint
    requires 0 <= i < |wps|
  {
    var s := PositionSum(wps, i, -1, 2);
    wps[i].(position := Vec2(s.x / 3.0, s.y / 3.0))
  }

  /** Each smoothed position is the mean of the positions of waypoints `i - 1`, `i` and
      `i + 1`, cyclically, in the snapshot. */
  lemma SmoothedIsNeighbourMean(wps: seq<Waypoint>, i: int)
    requires 0 <= i < |wps|
    ensures var p := SmoothedPositions(wps)[i].position;
      var a := wps[CyclicIndex(i, -1, |wps|)].position;
      var b := wps[i].position;
      var c := wps[CyclicIndex(i, 1, |wps|)].position;
      p.x * 3.0 == a.x + b.x + c.x && p.y * 3.0 == a.y + b.y + c.y
  {
    assert CyclicIndex(i, 0, |wps|) == i by {
      QuotientIs(i + |wps|, |wps|, 1);
    }
  }

  /** Waypoints all at one point are left where they are by position smoothing. */
  lemma SmoothingKeepsPoint(wps: seq<Waypoint>, p: Vec2)
    requires forall i :: 0 <= i < |wps| ==> wps[i].position == p
    ensures SmoothedPositions(wps) == wps
  {
    var r := SmoothedPositions(wps);
    forall i | 0 <= i < |wps|
      ensures r[i] == wps[i]
    {
      assert PositionSum(wps, i, -1, 2) == Vec2(p.x + p.x + p.x, p.y + p.y + p.y);
    }
  }

  /** The normals from the smoothed positions: the chord of the neighbours turned left
      and normalised, kept as it was where that chord has length zero; every width is
      set back to the refined width. */
  function RecomputedNormals(wps: seq<Waypoint>, refined: seq<Waypoint>, sqrt: real -> real): (r: seq<Waypoint>)
    requires |refined| == |wps|
    ensures |r| == |wps|
    ensures forall i {:trigger r[i]} :: 0 <= i < |wps| ==>
      r[i].id == wps[i].id && r[i].position == wps[i].position
      && r[i].distance == wps[i].distance && r[i].width == refined[i].width
  {
    seq(|wps|, i requires 0 <= i < |wps| => RecomputedNormalAt(wps, refined, i, sqrt))
  }

  function RecomputedNormalAt(wps: seq<Waypoint>, refined: seq<Waypoint>, i: int, sqrt: real -> real): Waypoint
    requires 0 <= i < |wps| == |refined|
  {
    var nrm := ChordNormal(wps, i);
    wps[i].(normal := if Len(nrm, sqrt) > 0.0 then Normalize(nrm, sqrt) else wps[i].normal,
            width := refined[i].width)
  }

  /** One normal-smoothing pass: every normal becomes the normalised sum of the five
      normals of its window in the snapshot, and stays as it was when that sum has
      length zero. */
  function SmoothedNormals(wps: seq<Waypoint>, sqrt: real -> real): (r: seq<Waypoint>)
    ensures |r| == |wps|
    ensures forall i {:trigger r[i]} :: 0 <= i < |wps| ==>
      r[i].id == wps[i].id && r[i].position == wps[i].position
      && r[i].width == wps[i].width && r[i].distance == wps[i].distance
  {
    seq(|wps|, i requires 0 <= i < |wps| => SmoothedNormalAt(wps, i, sqrt))
  }

  function SmoothedNormalAt(wps: seq<Waypoint>, i: int, sqrt: real -> real): Waypoint
    requires 0 <= i < |wps|
  {
    var s := NormalSum(wps, i, -2, 3);
    if Len(s, sqrt) > 0.0 then wps[i].(normal := Normalize(s, sqrt)) else wps[i]
  }

  /** Every normal stays a unit vector or zero through recomputation. */
  lemma RecomputedNormalsUnit(wps: seq<Waypoint>, refined: seq<Waypoint>, sqrt: real -> real)
    requires |refined| == |wps| && IsSqrt(sqrt)
    requires forall i :: 0 <= i < |wps| ==> UnitOrZero(wps[i].normal)
    ensures forall i :: 0 <= i < |wps| ==> UnitOrZero(RecomputedNormals(wps, refined, sqrt)[i].normal)
  {
    forall i | 0 <= i < |wps|
      ensures UnitOrZero(RecomputedNormals(wps, refined, sqrt)[i].normal)
    {
      NormalUnitOrZero(ChordNormal(wps, i), sqrt);
    }
  }

  /** Every normal stays a unit vector or zero through normal smoothing. */
  lemma SmoothedNormalsUnit(wps: seq<Waypoint>, sqrt: real -> real)
    requires IsSqrt(sqrt)
    requires forall i :: 0 <= i < |wps| ==> UnitOrZero(wps[i].normal)
    ensures forall i :: 0 <= i < |wps| ==> UnitOrZero(SmoothedNormals(wps, sqrt)[i].normal)
  {
    forall i | 0 <= i < |wps|
      ensures UnitOrZero(SmoothedNormals(wps, sqrt)[i].normal)
    {
      NormalUnitOrZero(NormalSum(wps, i, -2, 3), sqrt);
    }
  }

  /** Everything after refinement: two position passes, the normal recomputation and
      two normal passes. */
  function Finished(refined: seq<Waypoint>, sqrt: real -> real): seq<Waypoint>
  {
    var smoothed := SmoothedPositions(SmoothedPositions(refined));
    var normals := RecomputedNormals(smoothed, refined, sqrt);
    SmoothedNormals(SmoothedNormals(normals, sqrt), sqrt)
  }

  /** Post-processing keeps the count, ids and distances, ends with the refined widths,
      and leaves every normal a unit vector or zero. */
  lemma FinishedSpec(refined: seq<Waypoint>, sqrt: real -> real)
    requires IsSqrt(sqrt)
    requires forall i :: 0 <= i < |refined| ==> UnitOrZero(refined[i].normal)
    ensures var r := Finished(refined, sqrt);
      && |r| == |refined|
      && (forall i :: 0 <= i < |r| ==>
            r[i].id == refined[i].id && r[i].distance == refined[i].distance
            && r[i].width == refined[i].width)
      && (forall i :: 0 <= i < |r| ==> UnitOrZero(r[i].normal))
  {
    var s1 := SmoothedPositions(refined);
    var s2 := SmoothedPositions(s1);
    var normals := RecomputedNormals(s2, refined, sqrt);
    var n1 := SmoothedNormals(normals, sqrt);
    RecomputedNormalsUnit(s2, refined, sqrt);
    SmoothedNormalsUnit(normals, sqrt);
    SmoothedNormalsUnit(n1, sqrt);
  }

  /** A position-smoothing pass in place, from a snapshot. */
  method SmoothPositionsPass(a: array<Waypoint>)
    modifies a
    ensures a[..] == SmoothedPositions(old(a[..]))
  {
    hide SmoothedPositionAt, PositionSum;
    var temp := a[..];
    var i := 0;
    while i < a.Length
      invariant 0 <= i <= a.Length
      invariant forall k {:trigger a[k]} :: 0 <= k < i ==> a[k] == SmoothedPositionAt(temp, k)
      invariant forall k {:trigger a[k]} :: i <= k < a.Length ==> a[k] == temp[k]
    {
      var w := SmoothPositionAt(temp, i);
      a[i] := w;
      i := i + 1;
    }
    assert a[..] == SmoothedPositions(temp);
  }

  /** One waypoint of a position-smoothing pass: the window loop, then the mean. */
  method SmoothPositionAt(temp: seq<Waypoint>, i: int) returns (w: Waypoint)
    requires 0 <= i < |temp|
    ensures w == SmoothedPositionAt(temp, i)
  {
    var sum := WindowSum(temp, i, -1, 1, true);
    w := temp[i].(position := Vec2(sum.x / 3.0, sum.y / 3.0));
  }

  /** The window loop: the positions (or the normals) of the cyclic neighbours `i + lo`
      to `i + hi`, added in order. */
  method WindowSum(wps: seq<Waypoint>, i: int, lo: int, hi: int, positions: bool) returns (sum: Vec2)
    requires 0 <= i < |wps| && -2 <= lo <= hi <= 2
    ensures positions ==> sum == PositionSum(wps, i, lo, hi + 1)
    ensures !positions ==> sum == NormalSum(wps, i, lo, hi + 1)
  {
    sum := Zero;
    var j := lo;
    while j <= hi
      invariant lo <= j <= hi + 1
      invariant positions ==> sum == PositionSum(wps, i, lo, j)
      invariant !positions ==> sum == NormalSum(wps, i, lo, j)
    {
      var w := wps[CyclicIndex(i, j, |wps|)];
      sum := Add(sum, if positions then w.position else w.normal);
      j := j + 1;
    }
  }

  /** The normal recomputation in place. It reads only positions, which it does not
      change, so neighbours already visited give the same chord as the snapshot. */
  method RecomputeNormalsPass(a: array<Waypoint>, refined: array<Waypoint>, sqrt: real -> real)
    requires a != refined && a.Length == refined.Length
    modifies a
    ensures a[..] == RecomputedNormals(old(a[..]), refined[..], sqrt)
  {
    hide ChordNormal, Normalize, Len;
    ghost var a0 := a[..];
    var i := 0;
    while i < a.Length
      invariant 0 <= i <= a.Length
      invariant forall k {:trigger a[k]} :: 0 <= k < a.Length ==> a[k].position == a0[k].position
      invariant forall k {:trigger a[k]} :: 0 <= k < i ==> a[k] == RecomputedNormalAt(a0, refined[..], k, sqrt)
      invariant forall k {:trigger a[k]} :: i <= k < a.Length ==> a[k] == a0[k]
    {
      var w := RecomputeNormalAt(a, a0, refined, i, sqrt);
      a[i] := w;
      i := i + 1;
    }
    assert a[..] == RecomputedNormals(a0, refined[..], sqrt);
  }

  /** One waypoint of the normal recomputation, reading its neighbours in the array
      being updated: their positions are still those of the snapshot `a0`. */
  method RecomputeNormalAt(a: array<Waypoint>, ghost a0: seq<Waypoint>, refined: array<Waypoint>,
                           i: int, sqrt: real -> real) returns (w: Waypoint)
    requires a.Length == |a0| == refined.Length && 0 <= i < a.Length && a[i] == a0[i]
    requires forall k {:trigger a[k]} :: 0 <= k < a.Length ==> a[k].position == a0[k].position
    ensures w == RecomputedNormalAt(a0, refined[..], i, sqrt)
  {
    var n := a.Length;
    var prev := a[CyclicIndex(i, -1, n)];
    var next := a[CyclicIndex(i, 1, n)];
    var nrm := Perp(Sub(next.position, prev.position));
    assert nrm == ChordNormal(a0, i);
    w := a[i];
    if Len(nrm, sqrt) > 0.0 {
      w := w.(normal := Normalize(nrm, sqrt));
    }
    w := w.(width := refined[i].width);
  }

  /** A normal-smoothing pass in place, from a snapshot. */
  method SmoothNormalsPass(a: array<Waypoint>, sqrt: real -> real)
    modifies a
    ensures a[..] == SmoothedNormals(old(a[..]), sqrt)
  {
    hide SmoothedNormalAt, NormalSum, Normalize, Len;
    var temp := a[..];
    var i := 0;
    while i < a.Length
      invariant 0 <= i <= a.Length
      invariant forall k {:trigger a[k]} :: 0 <= k < i ==> a[k] == SmoothedNormalAt(temp, k, sqrt)
      invariant forall k {:trigger a[k]} :: i <= k < a.Length ==> a[k] == temp[k]
    {
      var w := SmoothNormalAt(temp, i, sqrt);
      a[i] := w;
      i := i + 1;
    }
    assert a[..] == SmoothedNormals(temp, sqrt);
  }

  /** One waypoint of a normal-smoothing pass: the window loop, then the normalisation
      when the sum is not of length zero. */
  method SmoothNormalAt(temp: seq<Waypoint>, i: int, sqrt: real -> real) returns (w: Waypoint)
    requires 0 <= i < |temp|
    ensures w == SmoothedNormalAt(temp, i, sqrt)
  {
    var sum := WindowSum(temp, i, -2, 2, false);
    w := temp[i];
    if Len(sum, sqrt) > 0.0 {
      w := w.(normal := Normalize(sum, sqrt));
    }
  }

  // ---------------------------------------------------------------------------
  // The whole generator

  /** The seed: the start direction from the Direction cells, the walls found along
      its normal from the start point, the seed width and the centre between the walls. */
  method Seed(grid: Grid, startX: int, startY: int, sqrt: real -> real)
    returns (center: Vec2, dir: Vec2, trackWidth: real)
    requires grid.Valid() && IsSqrt(sqrt)
    ensures dir == SeedDirection(XSum(grid.cells, Direction), YSum(grid.cells, Direction),
                                 Count(grid.cells, Direction), startX, startY, sqrt)
    ensures LenSq(dir) == 1.0
    ensures var start := Vec2(startX as real, startY as real);
      var left := WallDistance(WallScan(grid.cells, start, Perp(dir), 0, SeedRange));
      var right := WallDistance(WallScan(grid.cells, start, Neg(Perp(dir)), 0, SeedRange));
      && trackWidth == SeedWidth(left, right) >= 2.0
      && center == SeedCenter(start, Perp(dir), left, right)
  {
    dir := StartDirection(grid, startX, startY, sqrt);
    var n := Perp(dir);
    var start := Vec2(startX as real, startY as real);
    var foundLeft, leftDist := ScanRay(grid, start, n, 0, SeedRange);
    var foundRight, rightDist := ScanRay(grid, start, Neg(n), 0, SeedRange);
    trackWidth := SeedWidth(leftDist as real, rightDist as real);
    center := SeedCenter(start, n, leftDist as real, rightDist as real);
  }

  /** The tally of the Direction cells and the start direction it gives. */
  method StartDirection(grid: Grid, startX: int, startY: int, sqrt: real -> real) returns (dir: Vec2)
    requires grid.Valid() && IsSqrt(sqrt)
    ensures dir == SeedDirection(XSum(grid.cells, Direction), YSum(grid.cells, Direction),
                                 Count(grid.cells, Direction), startX, startY, sqrt)
    ensures LenSq(dir) == 1.0
  {
    var xSum, ySum, count := TallyKind(grid, Direction);
    dir := SeedDirection(xSum, ySum, count, startX, startY, sqrt);
    SeedDirectionUnit(xSum, ySum, count, startX, startY, sqrt);
  }

  /** The smoothing passes on a copy of the refined waypoints: two over positions, the
      normal recomputation, then two over normals on a further copy. */
  method PostProcess(band: array<Waypoint>, sqrt: real -> real) returns (wps: seq<Waypoint>)
    ensures wps == Finished(band[..], sqrt)
  {
    hide SmoothedPositions, RecomputedNormals, SmoothedNormals;
    var smoothed := new Waypoint[band.Length](i requires 0 <= i < band.Length reads band => band[i]);
    assert smoothed[..] == band[..];
    SmoothPositionsPass(smoothed);
    SmoothPositionsPass(smoothed);
    RecomputeNormalsPass(smoothed, band, sqrt);
    var final := new Waypoint[smoothed.Length](i requires 0 <= i < smoothed.Length reads smoothed => smoothed[i]);
    assert final[..] == smoothed[..];
    SmoothNormalsPass(final, sqrt);
    SmoothNormalsPass(final, sqrt);
    wps := final[..];
  }

  /** `GenerateMesh`: seed, walk, ten refinement passes, then smoothing. The mesh is the
      finished refinement of the walk; it has between 1 and 6000 waypoints (more than
      151 unless the cap was reached), ids 0, 1, 2, ..., non-negative non-decreasing
      distances, the refined widths (each at least 2), unit or zero normals, and a total
      length of 6 per waypoint. */
  method GenerateMesh(grid: Grid, startX: int, startY: int,
                      steer: (int, Vec2, Vec2, set<int>) -> Vec2, sqrt: real -> real)
    returns (mesh: TrackMesh, ghost raw: seq<Waypoint>, ghost refined: seq<Waypoint>, ghost walk: WalkTrace)
    requires grid.Valid() && IsSqrt(sqrt)
    ensures walk.dir0 == SeedDirection(XSum(grid.cells, Direction), YSum(grid.cells, Direction),
                                       Count(grid.cells, Direction), startX, startY, sqrt)
    ensures var start := Vec2(startX as real, startY as real);
      var left := WallDistance(WallScan(grid.cells, start, Perp(walk.dir0), 0, SeedRange));
      var right := WallDistance(WallScan(grid.cells, start, Neg(Perp(walk.dir0)), 0, SeedRange));
      && walk.width == SeedWidth(left, right)
      && walk.start == SeedCenter(start, Perp(walk.dir0), left, right)
    ensures IsWalk(grid.width, grid.height, steer, sqrt, walk, raw)
    ensures refined == Relaxations(grid.cells, raw, RelaxIterations, sqrt)
    ensures mesh.waypoints == Finished(refined, sqrt)
    ensures 1 <= |mesh.waypoints| <= MaxWaypoints && |refined| == |raw| == |mesh.waypoints|
    ensures |mesh.waypoints| < MaxWaypoints ==> |mesh.waypoints| > ClosureAfter + 1
    ensures mesh.totalLen == |mesh.waypoints| as real * StepSize
    ensures forall k :: 0 <= k < |mesh.waypoints| ==> mesh.waypoints[k].id == k
    ensures forall k :: 0 <= k < |mesh.waypoints| ==> mesh.waypoints[k].width == refined[k].width >= 2.0
    ensures forall k :: 0 <= k < |mesh.waypoints| ==> UnitOrZero(mesh.waypoints[k].normal)
    ensures forall j, k :: 0 <= j <= k < |mesh.waypoints| ==>
      0.0 <= mesh.waypoints[j].distance <= mesh.waypoints[k].distance
  {
    hide Relaxations, PassUpTo, Relaxed, Finished, Len, Normalize, WallScan, WallDistance,
      SeedWidth, SeedCenter, SeedDirection, Count, XSum, YSum, IsWalk;
    var center, dir, trackWidth := Seed(grid, startX, startY, sqrt);
    var walked;
    walked, walk := Walk(grid, center, dir, trackWidth, steer, sqrt);
    raw := walked;
    WalkDistancesGrow(walked, center, sqrt);
    var band := new Waypoint[|walked|](i requires 0 <= i < |walked| => walked[i]);
    assert band[..] == walked;
    Refine(grid, band, sqrt);
    refined := band[..];
    RelaxationsFrame(grid.cells, walked, RelaxIterations, sqrt);
    var wps := PostProcess(band, sqrt);
    FinishedSpec(refined, sqrt);
    mesh := TrackMesh(wps, |wps| as real * StepSize);
  }
}

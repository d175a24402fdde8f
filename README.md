# racing-line-mapper, modelled in Dafny

racing-line-mapper learns a driving line around a race track drawn in an image. The
loader classifies every pixel into an occupancy grid of cells: wall, tarmac, gravel,
red start marker or yellow direction marker. It picks a start point and generates a
centre-line mesh of waypoints:

- a walker lays raw waypoints;
- ten elastic-band passes pull each waypoint between the walls;
- two passes smooth the positions and two smooth the normals.

A car with arcade physics drives on the grid. A tabular Q-learning agent picks one of
five actions per tick from a discretised state: track segment, lane, speed level and
relative heading. It learns from a reward for speed along the track, a crash penalty
and a gravel penalty. The application's `updatePhysics` runs one tick: lap clock,
trace sampling, lap bookkeeping and crash respawn.

The Dafny project has one module per source file, plus two helper modules:

| module | source | flavour |
|---|---|---|
| `GoNumerics` | Go's truncating `int()`, `/` and `%` | functions |
| `Vector` | internal/common/vector.go | functions and lemmas |
| `Track` | internal/track/track.go | datatypes, the `Grid` class, the classifier |
| `GridScan` | the scans of internal/track/loader.go | tally and first-cell functions, lemmas |
| `Loader` | `LoadTrackFromImage` in internal/track/loader.go | methods over the `Grid` |
| `MeshGen` | `GenerateMesh` in internal/track/loader.go | methods with loops, proved against functions |
| `Mesh` | internal/track/mesh.go | the closest-waypoint loop and the Frenet query |
| `Physics` | internal/physics/car.go | the `Car` class, with `Update` proved against `Step` |
| `Agent` | internal/agent/qlearning.go | buckets, the `AgentQTable` class, reward |
| `App` | `updatePhysics` and the spawn in cmd/app/main.go | the `Game` class |

Floating-point numbers are `real`. `math.Sqrt` is a parameter `sqrt` constrained by
`IsSqrt`: it gives the non-negative root of a non-negative number. `math.Atan2`,
`math.Cos` and `math.Sin` are unconstrained function parameters. The draws of
`math/rand` are parameters with the ranges `rand` promises. The walker's choice of
direction is the parameter `steer`. It receives what the ray-march search reads: the
step number, the current point, the direction and the visited set.

Go's two loops (internal/agent/qlearning.go:106-111) leave a heading of exactly -pi
unchanged, so `Agent.NormalizedHeading` lies in [-pi, pi].

Some comments in the source disagree with the code next to them, and the model follows the code:

- the comment on `Cell` gives gravel friction 0.5, but the loader sets 0.4;
- the comments on the state give lanes -3..3 and headings -2..2, but the buckets are -2..2 and -1..1.

## Model

| member | source | states |
|---|---|---|
| GoNumerics.Trunc | internal/track/loader.go:137 | Go's `int(f)` truncates toward zero: the result lies between 0 and `f` and is less than 1 away from `f` |
| GoNumerics.GoDiv | internal/track/loader.go:62-63 | Go's integer `/` truncates: the remainder has the dividend's sign and is smaller than the divisor |
| GoNumerics.GoRem | internal/track/loader.go:265 | Go's `%`: `a == (a/b)*b + a%b`, and the remainder has the dividend's sign |
| GoNumerics.CyclicIndex | internal/track/loader.go:335 | the cyclic neighbour index `(i + j + n) % n` always lies in `[0, n)` |
| GoNumerics.CyclicIndexIsGoRem | internal/track/loader.go:265-266 | the wrapped neighbour index equals Go's `(i + j + n) % n` |
| GoNumerics.QuotientIs | internal/agent/qlearning.go:123 | a non-negative quotient is pinned down by the interval the dividend falls in |
| GoNumerics.MaxReal | internal/agent/qlearning.go:133 | `math.Max` is one of its arguments and is at least both |
| Vector.SubThenAdd | internal/common/vector.go:11-18 | `v.Sub(w).Add(w) == v`, and adding then subtracting `w` also gives `v` back |
| Vector.LenZeroIff | internal/common/vector.go:26-28 | `Len` is never negative and is zero exactly for the zero vector |
| Vector.NormalizeZero | internal/common/vector.go:31-35 | normalising the zero vector gives the zero vector |
| Vector.NormalizeUnit | internal/common/vector.go:36 | normalising a non-zero vector gives a vector of length 1 |
| Vector.ScaleLenSq | internal/common/vector.go:21-23 | scaling by `k` scales the squared length by `k*k` |
| Track.To8 | internal/track/track.go:57 | `c >> 8` is the 8-bit value `v` with `v*256 <= c < (v+1)*256` |
| Track.ColorToCellType | internal/track/track.go:54-84 | for each kind, the exact colour region that yields it: bright is tarmac, red start, yellow direction, green-dominant gravel, dark wall, the rest tarmac; never Finish |
| Track.Grid.constructor | internal/track/track.go:31-42 | `width` columns of `height` zero cells (a wall with friction 0), scale 1 |
| Track.Grid.Get | internal/track/track.go:45-50 | outside the grid the answer is the wall cell with friction 0; inside it is `Cells[x][y]` |
| GridScan.ColXSumBound | internal/track/loader.go:51-55 | the x-sum of one column's cells of a kind is between 0 and the largest x times their count |
| GridScan.ColYSumBound | internal/track/loader.go:51-55 | the y-sum of a column's cells of a kind is between 0 and the largest y times their count |
| GridScan.XSumBound | internal/track/loader.go:51-55 | the grid's x-sum of a kind is between 0 and the largest x times the count |
| GridScan.YSumBound | internal/track/loader.go:51-55 | the grid's y-sum of a kind is between 0 and the largest y times the count |
| GridScan.MeanInRange | internal/track/loader.go:62-63 | the truncated mean of values in `[0, m]` lies in `[0, m]` |
| GridScan.CentroidInGrid | internal/track/loader.go:59-65 | when there are Start cells, their integer centroid is a cell of the grid |
| GridScan.FirstInColumn | internal/track/loader.go:69-76 | the found `y` is a cell of the kind with none before it; without a result no cell from `from` on has the kind |
| GridScan.FirstFrom | internal/track/loader.go:67-82 | the first cell of the kind in x-outer, y-inner order: of that kind, with none earlier; without a result there is none |
| GridScan.StartPointSpec | internal/track/loader.go:59-82 | the start point lies in the grid when there is a Start or a Tarmac cell; without Start cells it is the first Tarmac cell, or (0, 0) when there is none |
| Loader.FrictionOf | internal/track/loader.go:38-45 | friction is 0 exactly for walls, 0.4 exactly for gravel, and 1 exactly for the other kinds |
| Loader.ImageCells | internal/track/loader.go:33-50 | the loaded grid has the image's shape, and every cell holds its pixel's class and that class's friction |
| Loader.DarkPixelsAreWalls | internal/track/loader.go:36-45 | a loaded cell has friction 0 exactly when its pixel is dark |
| Loader.FillGrid | internal/track/loader.go:33-57 | after the fill loop the grid holds the classified image, and the start sums and count are those of the Start cells |
| Loader.FillColumn | internal/track/loader.go:34-56 | one pass of the inner loop writes exactly column `x` and tallies its Start cells |
| Loader.FindStart | internal/track/loader.go:59-82 | the centroid-or-first-tarmac search with its two `break`s finds the start point |
| Loader.LoadTrackFromImage | internal/track/loader.go:14-87 | a fresh grid holding the classified image with scale 1, the start point, and a mesh with all the guarantees of `GenerateMesh`, generated from that start point |
| MeshGen.TallyKind | internal/track/loader.go:98-107 | the yellow tally loop computes the count and coordinate sums of the Direction cells |
| MeshGen.TallyColumn | internal/track/loader.go:99-106 | the inner tally loop computes one column's count and sums |
| MeshGen.SeedDirectionUnit | internal/track/loader.go:109-128 | the start direction is a unit vector, and east when there is no yellow marker |
| MeshGen.StartDirection | internal/track/loader.go:96-128 | the start direction computed from the Direction tally is a unit vector |
| MeshGen.WallScan | internal/track/loader.go:136-141 | the first ray step that meets a wall, with none before it; without a result the ray meets no wall in range |
| MeshGen.ScanRay | internal/track/loader.go:142-147 | the ray loop with its `break` finds the first wall, and leaves the distance 0 when there is none |
| MeshGen.SeedWidth | internal/track/loader.go:149-152 | the seed width is the sum of the wall distances, or 20; it is never below 2 |
| MeshGen.SeedCenterMidway | internal/track/loader.go:154-159 | the seed centre lies half the seed span from each of the two wall points |
| MeshGen.Seed | internal/track/loader.go:130-159 | the seed direction is unit; the width and centre come from the first walls met along the normal and its reverse |
| MeshGen.FootprintInGrid | internal/track/loader.go:224-226 | every visited key `y*W + x` of the footprint is the key of a cell of the grid |
| MeshGen.MarkVisited | internal/track/loader.go:222-229 | the footprint loop adds exactly the keys of the in-bounds cells of the 5x5 square |
| MeshGen.Walk | internal/track/loader.go:161-251 | the waypoints are the walk `steer` makes from the centre (`IsWalk`): each step asks `steer` with the step number, the previous point and heading and the visited set, moves 6 that way, blends the heading 0.4/0.6, marks the footprint, and lays waypoint `k` with the normal of the blended heading, the seed width and the distance so far; the walk stops at the first step after 150 that comes within 12 of the centre, or after 6000 waypoints |
| MeshGen.WalkFacts | internal/track/loader.go:231-242 | every walk lays waypoints numbered 0, 1, 2, ... with the seed width and unit (or zero) normals, and its distances add up the step lengths |
| MeshGen.WalkDetermined | internal/track/loader.go:161-251 | the walk is a function of the grid, `steer`, the centre, the first heading and the width: two walks from the same start are equal, waypoints, headings and visited sets alike |
| MeshGen.WalkStopsNoEarlier | internal/track/loader.go:244-250 | because the walk stops at the first closure, a walk from the same start never stops before another |
| MeshGen.NormalUnitOrZero | internal/track/loader.go:232-238 | a waypoint normal is a unit vector, or zero where Go divides by a zero length |
| MeshGen.WalkDistancesGrow | internal/track/loader.go:217-219 | the recorded distances are non-negative and never decrease |
| MeshGen.Relaxed | internal/track/loader.go:262-318 | a refined waypoint keeps its id, normal and distance; its width stays or becomes at least 2; it stays put when its neighbour chord is zero |
| MeshGen.Recentred | internal/track/loader.go:305-318 | a waypoint moves, and takes width `dLeft + dRight`, only when both walls were found |
| MeshGen.RecentredMidway | internal/track/loader.go:305-317 | the moved waypoint sees the same wall points, and its wall distances differ by half the old imbalance |
| MeshGen.PassUpToFrame | internal/track/loader.go:261-319 | within a pass, every waypoint keeps its id, normal and distance, and those not yet visited are unchanged |
| MeshGen.RelaxationsFrame | internal/track/loader.go:256-320 | through all passes, the count, ids, normals and distances are kept, and widths stay or become at least 2 |
| MeshGen.SingleWaypointStays | internal/track/loader.go:265-276 | a one-waypoint mesh is its own neighbour on both sides, so refinement leaves it as it is |
| MeshGen.FixedPointStays | internal/track/loader.go:260-320 | waypoints that one pass leaves unchanged stay unchanged through every pass |
| MeshGen.RelaxAt | internal/track/loader.go:262-318 | the per-waypoint body, with its two ray loops, computes the refined waypoint |
| MeshGen.RelaxPass | internal/track/loader.go:261-319 | one in-place pass; later waypoints see the already-updated earlier ones |
| MeshGen.Refine | internal/track/loader.go:256-320 | the ten in-place passes compute the ten-fold relaxation |
| MeshGen.SmoothedPositions | internal/track/loader.go:331-341 | position smoothing keeps the count, the widths and the distances |
| MeshGen.SmoothedIsNeighbourMean | internal/track/loader.go:331-340 | each smoothed position is the mean of the cyclic neighbours `i-1`, `i` and `i+1` of the snapshot |
| MeshGen.SmoothingKeepsPoint | internal/track/loader.go:327-342 | waypoints all at one point are not moved by smoothing |
| MeshGen.RecomputedNormals | internal/track/loader.go:345-361 | the normal recomputation keeps the count and distances, and sets the widths to the refined widths |
| MeshGen.SmoothedNormals | internal/track/loader.go:371-385 | normal smoothing keeps the count, widths and distances |
| MeshGen.RecomputedNormalsUnit | internal/track/loader.go:354-358 | recomputed normals stay unit vectors or zero |
| MeshGen.SmoothedNormalsUnit | internal/track/loader.go:379-384 | smoothed normals stay unit vectors or zero |
| MeshGen.FinishedSpec | internal/track/loader.go:322-393 | post-processing keeps the count, ids and distances, ends with the refined widths, and leaves unit or zero normals |
| MeshGen.SmoothPositionsPass | internal/track/loader.go:327-342 | one in-place position pass reading a snapshot computes the smoothed positions |
| MeshGen.SmoothPositionAt | internal/track/loader.go:331-340 | the window loop and the division by 3 give the smoothed waypoint |
| MeshGen.WindowSum | internal/track/loader.go:334-338 | the window loop adds the cyclic neighbours' positions or normals in order |
| MeshGen.RecomputeNormalsPass | internal/track/loader.go:345-361 | the in-place normal recomputation equals the recomputation of the pre-pass waypoints |
| MeshGen.RecomputeNormalAt | internal/track/loader.go:347-360 | one recomputed waypoint depends only on positions, which the pass does not change |
| MeshGen.SmoothNormalsPass | internal/track/loader.go:367-386 | one in-place normal pass reading a snapshot computes the smoothed normals |
| MeshGen.SmoothNormalAt | internal/track/loader.go:371-384 | the five-neighbour sum, normalised when non-zero, gives the smoothed waypoint |
| MeshGen.PostProcess | internal/track/loader.go:322-388 | the array passes compute the post-processing function |
| MeshGen.GenerateMesh | internal/track/loader.go:89-394 | the raw waypoints are the walk `steer` makes from the seed centre, with the seed direction and width; the mesh is the finished ten-fold relaxation of them; 1 to 6000 waypoints with ids 0, 1, 2; the early stop only after step 150; widths at least 2 and equal to the refined widths; unit or zero normals; non-decreasing distances; `TotalLen` = count * 6 |
| Mesh.ClosestUpTo | internal/track/mesh.go:27-38 | after `k` waypoints the scan holds the nearest of them, strictly nearer than every earlier one; -1 before any |
| Mesh.ClosestUnique | internal/track/mesh.go:34 | with the strict `<`, at most one index is the answer |
| Mesh.ClosestSpec | internal/track/mesh.go:26-44 | an empty mesh gives the zero waypoint and -1; otherwise the first index of least squared distance, and its waypoint |
| Mesh.GetClosestWaypoint | internal/track/mesh.go:26-44 | the loop computes the closest waypoint and its index as specified |
| Mesh.WorldToFrenet | internal/track/mesh.go:49-66 | `s` is the matched waypoint's stored distance, and `d` the projection of the offset onto its normal |
| Mesh.ClosestNoFarther | internal/track/mesh.go:30-38 | the matched waypoint is no farther than any waypoint of the mesh |
| Mesh.MatchAtWaypoint | internal/track/mesh.go:30-38 | a query at a waypoint's position matches a waypoint at distance zero |
| Mesh.OffsetAtDistanceZero | internal/track/mesh.go:53-58 | the lateral offset from a waypoint at distance zero is zero |
| Mesh.OffsetZeroAtWaypoint | internal/track/mesh.go:49-58 | a query exactly at a waypoint has lateral offset 0 |
| Physics.ApplyFriction | internal/physics/car.go:65-76 | friction moves the speed 0.05 toward zero, never past it, and never flips its sign |
| Physics.ClampSpeed | internal/physics/car.go:148-151 | the clamp caps the speed at 10 and leaves a speed at or below 10 unchanged; there is no lower clamp |
| Physics.StepCrashed | internal/physics/car.go:53-55 | a tick changes nothing on a crashed car |
| Physics.StepIntoWall | internal/physics/car.go:119-132 | a wall under a corner crashes the car with speed 0; its position and velocity stay, and the tick's heading change persists |
| Physics.StepOnTrack | internal/physics/car.go:96-144 | without a wall the car moves by its old velocity, not the new one, is not crashed, and turns as steered |
| Physics.StepSpeedBound | internal/physics/car.go:138-151 | after a tick that does not crash, the speed is at most 10, and a speed at or below 10 after input and friction is kept or, on gravel, scaled by 0.8 |
| Physics.MovedOnGravel | internal/physics/car.go:138-146 | gravel scales the speed by 0.8 and blends the velocity with grip 0.5, otherwise grip is 0.9 |
| Physics.SteeringGate | internal/physics/car.go:78-82 | the heading changes by `steering * 0.05` exactly when the speed after friction exceeds 0.1 |
| Physics.ScanCorners | internal/physics/car.go:119-136 | the corner loop reports a wall exactly when some corner is on a wall, and otherwise gravel exactly when some corner is on gravel |
| Physics.Car.constructor | internal/physics/car.go:36-46 | a car at rest at `(x, y)` with checkpoint -1, zero lap times, width 10 and length 22.5 |
| Physics.Car.Update | internal/physics/car.go:52-152 | one tick changes the moving parts as `Step` says, and no other field |
| Physics.Car.Advance | internal/physics/car.go:89-152 | the second half of the tick: the move, the corner scan, gravel, grip and the clamp |
| Agent.LaneBucket | internal/agent/qlearning.go:74-85 | the lane is in `-2..2` |
| Agent.LaneIntervals | internal/agent/qlearning.go:74-85 | each lane is exactly a half-open interval of offsets, with strict `<` at -15, -5, 5 and 15 |
| Agent.LaneMonotone | internal/agent/qlearning.go:74-85 | the lane never decreases as the offset grows |
| Agent.LaneBoundaries | internal/agent/qlearning.go:75-81 | offsets -15, -5, 5 and 15 give lanes -1, 0, 1 and 2 |
| Agent.SpeedLevel | internal/agent/qlearning.go:88-95 | the speed level is in `0..3` |
| Agent.SpeedIntervals | internal/agent/qlearning.go:88-95 | each level is exactly an interval of speeds, with strict `>` at 0.5, 4 and 8 |
| Agent.SpeedMonotone | internal/agent/qlearning.go:88-95 | the level never decreases as the speed grows |
| Agent.SpeedBoundaries | internal/agent/qlearning.go:89-93 | speeds 0.5, 4 and 8 give levels 0, 1 and 2 |
| Agent.WrapDown | internal/agent/qlearning.go:106-108 | the first loop ends at most pi, above -pi when it ran, and leaves the heading alone otherwise |
| Agent.WrapUp | internal/agent/qlearning.go:109-111 | the second loop ends at least -pi, below pi when it ran, and leaves the heading alone otherwise |
| Agent.NormalizedHeading | internal/agent/qlearning.go:104-111 | the normalised heading lies in [-pi, pi], and a heading already there is unchanged |
| Agent.WrapDownTurns | internal/agent/qlearning.go:106-108 | the first loop subtracts a whole number of turns |
| Agent.WrapUpTurns | internal/agent/qlearning.go:109-111 | the second loop adds a whole number of turns |
| Agent.NormalizedByTurns | internal/agent/qlearning.go:104-111 | normalisation changes the heading by a whole number of turns |
| Agent.NormalizeHeading | internal/agent/qlearning.go:104-111 | the two `for` loops terminate with the normalised heading |
| Agent.HeadingBucket | internal/agent/qlearning.go:113-120 | -1 exactly below -pi/6, 1 exactly above pi/6, 0 otherwise, including both boundaries |
| Agent.SegmentIdx | internal/agent/qlearning.go:123 | a non-negative waypoint index falls in the segment of 5 indices that contains it |
| Agent.SegmentOfNoWaypoint | internal/agent/qlearning.go:123 | the index -1 of an empty mesh gives segment 0, because Go's `/` truncates |
| Agent.NormalizedUpToTurns | internal/agent/qlearning.go:104-111 | headings that differ by whole turns normalise to the same value, except that -pi and pi, which both loops leave alone, stay apart |
| Agent.DiscretizedPerTurn | internal/agent/qlearning.go:97-120 | adding whole turns to the car's heading leaves the discretised state unchanged, unless the relative heading normalises to exactly -pi or pi |
| Agent.DiscretizedRanges | internal/agent/qlearning.go:59-128 | every state component lies in its bucket range; the segment is 0 on an empty mesh; the lane is the bucket of the Frenet offset |
| Agent.DiscretizeState | internal/agent/qlearning.go:59-128 | the method, with its normalisation loops, computes the discretised state |
| Agent.DecayedEpsilon | internal/agent/qlearning.go:133 | one decay step never goes below 0.01, never rises above 1 from at most 1, and never increases from 0.01 or more |
| Agent.EpsilonAfterBounds | internal/agent/qlearning.go:29-133 | from 1.0, epsilon stays in [0.01, 1] and never increases |
| Agent.ScanAt | internal/agent/qlearning.go:150-151 | the scan examines a valid action at each step |
| Agent.ScanPos | internal/agent/qlearning.go:150-151 | the rotated scan examines every action, at exactly one step |
| Agent.GreedyUnique | internal/agent/qlearning.go:150-156 | the greedy choice is determined by the row and the start offset |
| Agent.ScanBest | internal/agent/qlearning.go:145-156 | after `k` steps the scan holds the largest value seen, first met, with strict `>` |
| Agent.ScanBestIsGreedy | internal/agent/qlearning.go:145-156 | a full scan returns a maximal action, the first such action from the start offset |
| Agent.GreedyAction | internal/agent/qlearning.go:145-158 | the greedy loop returns the greedy choice |
| Agent.RowOf | internal/agent/qlearning.go:164 | a map read gives the stored row, or zeros for an absent state |
| Agent.RowMax | internal/agent/qlearning.go:170-176 | the max loop returns a value of the row that is at least every value |
| Agent.MaxNext | internal/agent/qlearning.go:168-177 | the next state's best value, 0 when the next state has no row |
| Agent.Learned | internal/agent/qlearning.go:162-185 | the update writes only `t[state][action]`, with the Bellman value; every other entry and key stays, and `state` becomes a key |
| Agent.LearnedFirstVisit | internal/agent/qlearning.go:162-185 | a first visit with an unknown next state stores `Alpha * reward` |
| Agent.LearnedSelfLoopFirstVisit | internal/agent/qlearning.go:164-183 | on a self-transition the best next value is read before the write |
| Agent.EpsilonGreedy | internal/agent/qlearning.go:131-158 | explore with `pick` when the draw is below epsilon or the state is unknown, otherwise take the greedy choice |
| Agent.AgentQTable.constructor | internal/agent/qlearning.go:52-56 | an empty table, with epsilon at its initial 1.0 |
| Agent.AgentQTable.SelectAction | internal/agent/qlearning.go:131-159 | epsilon decays one step first; the action is valid and follows the epsilon-greedy rule; the table is unchanged |
| Agent.AgentQTable.Learn | internal/agent/qlearning.go:162-185 | the table becomes the one-entry Bellman update; epsilon is unchanged |
| Agent.RewardOfCrash | internal/agent/qlearning.go:193-195 | a crashed car gets exactly -100 |
| Agent.RewardOnTrack | internal/agent/qlearning.go:197-233 | otherwise the reward is twice the speed along the tangent, less 5 on gravel |
| Agent.GravelPenalty | internal/agent/qlearning.go:225-231 | gravel costs exactly 5 against any other kind of cell |
| Agent.RewardProgress | internal/agent/qlearning.go:206-208 | the reward grows by twice the extra velocity along the tangent |
| Agent.CalculateReward | internal/agent/qlearning.go:192-234 | the method computes the reward |
| App.ActionControls | cmd/app/main.go:129-141 | Throttle presses the throttle, Brake the brake, Left steers -1, Right +1; each control is 0 or full |
| App.Traced | cmd/app/main.go:121-124 | the trace gains the position exactly when the new lap time is a multiple of 5, and the old trace stays a prefix |
| App.TraceOverCount | cmd/app/main.go:119-124 | over consecutive ticks, the trace gains one point per multiple of 5 passed |
| App.NewBest | cmd/app/main.go:181-184 | the best lap becomes the last lap when there was none; otherwise it is the smaller of the two |
| App.PushLap | cmd/app/main.go:189-193 | the newest lap comes first, the older ones follow in order, and at most 4 are kept |
| App.RespawnPoint | cmd/app/main.go:159-164 | a crashed car respawns at the first waypoint, or at (400, 110) on an empty mesh |
| App.SpawnIndex | cmd/app/main.go:471-476 | the spawn index is 5 exactly when the mesh has more than 5 waypoints, else 0 |
| App.SpawnPoint | cmd/app/main.go:469-480 | the car spawns at waypoint 5, at waypoint 0 on a short mesh, or at (400, 110) on an empty mesh |
| App.SpawnOnShortMesh | cmd/app/main.go:471-488 | on a short mesh the car spawns at the first waypoint and faces the next |
| App.Game.constructor | cmd/app/main.go:469-506 | the car at the spawn point facing the next waypoint, at rest, 10 by 22.5, checkpoint -1 and zero lap times; a new agent; AI mode; no laps, trace or history yet |
| App.Game.Respawn | cmd/app/main.go:159-171 | a fresh car at the respawn point, at rest with checkpoint -1 and no laps; trace and lap counter cleared; nothing else changes |
| App.Game.CompleteLap | cmd/app/main.go:176-199 | the lap time is recorded; best lap and path follow the best-lap rule; the history gets the lap; trace and clock reset; one more lap counted |
| App.Game.UpdatePhysics | cmd/app/main.go:113-208 | one tick: clock and trace, epsilon-greedy action in AI mode, then either the crash branch (learn -100, respawn) or a physics step, the lap check and learning; every car field is stated in each case, and the size, checkpoint and laps stay unless the car respawns |
| App.Game.BeginTick | cmd/app/main.go:113-141 | the clock advances by 1; the trace is sampled; the state and action are chosen |
| App.Game.CrashTick | cmd/app/main.go:143-172 | in AI mode the crash is learned as a transition to the same state; with AI or R held, the car respawns as a fresh car with its whole state given; otherwise the car is untouched |
| App.Game.RunTick | cmd/app/main.go:173-207 | one physics step; the car's size, checkpoint and laps stay; the lap bookkeeping when laps exceed the counter, and the lap times unchanged otherwise; learning in AI mode |

## Left out

- Opening and decoding the image file, and its error returns (internal/track/loader.go:15-24). The model starts from the decoded image.
- The image's bounds are given by `Max.X` and `Max.Y`, as the source reads them. A negative `Max` (on which `NewGrid` would panic) is not modelled: the width and height are `nat`.
- The alpha channel: the classifier never reads it.
- MeshGen.Walk: the direction of each step is whatever `steer` answers. The ray-march scoring of candidate directions (internal/track/loader.go:168-211), with `math.Atan2`, `math.Cos` and `math.Sin`, is not modelled. So it is not proved that the path ever comes back to the start, nor that it keeps to the middle of the track or is smooth.
- `math.Pow(x, 2)` in the walker's step length is the square; `float64` rounding, NaN and infinities do not exist over `real`. A zero-length walker normal, which Go turns into NaN, is the zero vector.
- The `math.MaxFloat64` sentinels (internal/track/mesh.go:27, internal/agent/qlearning.go:146 and 171). In the model the scan takes the first element it examines, which is what the sentinel achieves for finite values.
- Integer widths: Go's 64-bit `int` sums and keys are unbounded integers here. No realistic image makes them overflow.
- The randomness of `math/rand` (internal/agent/qlearning.go:135-149). The three draws are parameters `coin`, `pick` and `start`, with the ranges `rand` promises.
- `CalculateReward` is defined with three arguments but called with four (cmd/app/main.go:152 and 204). The three-argument definition is modelled, and the extra `BestLapTime` argument is dropped.
- No code shown increments `Car.Laps` or moves `Checkpoint` except the resets. The lap-completion branch is modelled as written and is reached only if something else raises `Laps`.
- Agent.AgentQTable: Go keeps `Epsilon` in a package-level variable (internal/agent/qlearning.go:29) that `NewAgent` does not reset. The model makes it a field of the agent, set to 1.0 by the constructor. The two agree for the single agent the application creates; a second agent in Go would continue from the first one's epsilon.
- The `Agent` interface and `NewAgent` returning it: the one implementation, `AgentQTable`, is modelled directly.
- The edge-proximity penalty of the reward is commented out (internal/agent/qlearning.go:213-222), so it is not modelled.
- `DebugInfoStr` (internal/agent/qlearning.go:187-189) and the `fmt.Printf` logging (internal/track/loader.go:122-127): output only.
- Rendering and UI: `Draw`, `RenderGrid`, `Layout`, key handling other than the R key in the crash branch, the view scale and offsets, and `ebiten.RunGame` (cmd/app/main.go:88-111, 210-466, 508-510). `Game.Update` (cmd/app/main.go:88-111), which calls `updatePhysics` a number of times per frame, is not modelled. The R key is the parameter `respawnKey`.
- cmd/gen-track/main.go only writes a PNG asset, and cmd/debug-mesh/debug_preproc.go is entirely commented out. Neither is part of this model.
- `Grid.Scale` is set to 1 and never read by the modelled code. It is carried, but no property is stated about it beyond its initial value.

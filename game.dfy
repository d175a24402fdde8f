/** The per-tick game loop of the application (cmd/app/main.go): `updatePhysics`, with
    its action mapping, lap clock, trace sampling, lap bookkeeping and crash respawn, and
    the car's spawn in `main`. Key state, `math.Atan2`/`Cos`/`Sin` and the draws of
    `math/rand` are parameters. */
module App {
  import opened Vector
  import opened Track
  import opened Mesh
  import opened Physics
  import opened Agent

  /** `CarSpawnWaypointIndex`. */
  const CarSpawnWaypointIndex := 5

  /** Where the car starts when the mesh has no waypoints. */
  const DefaultStart := Vec2(400.0, 110.0)

  datatype Controls = Controls(throttle: real, brake: real, steering: real)

  /** The `switch` on the chosen action: each action presses one control fully, Coast
      (and any other value) none. */
  function ActionControls(action: int): (c: Controls)
    ensures c.throttle != 0.0 <==> action == ActionThrottle
    ensures c.brake != 0.0 <==> action == ActionBrake
    ensures c.steering < 0.0 <==> action == ActionLeft
    ensures c.steering > 0.0 <==> action == ActionRight
    ensures c.throttle in {0.0, 1.0} && c.brake in {0.0, 1.0} && c.steering in {-1.0, 0.0, 1.0}
  {
    if action == ActionThrottle then Controls(1.0, 0.0, 0.0)
    else if action == ActionBrake then Controls(0.0, 1.0, 0.0)
    else if action == ActionLeft then Controls(0.0, 0.0, -1.0)
    else if action == ActionRight then Controls(0.0, 0.0, 1.0)
    else Controls(0.0, 0.0, 0.0)
  }

  /** The trace after a tick whose new lap time is `tick`: the car's position is
      appended exactly when `tick` is a multiple of 5 (Go's `%` and Dafny's agree on
      whether the remainder is zero). */
  function Traced(path: seq<Vec2>, tick: int, pos: Vec2): (r: seq<Vec2>)
    ensures |r| == |path| || |r| == |path| + 1
    ensures |r| == |path| + 1 <==> tick % 5 == 0
    ensures r[..|path|] == path
    ensures |r| == |path| + 1 ==> r[|path|] == pos
  {
    if tick % 5 == 0 then path + [pos] else path
  }

  /** The trace over consecutive ticks, starting at lap time `time`, at the positions
      `poss`. */
  function TraceOver(path: seq<Vec2>, time: int, poss: seq<Vec2>): seq<Vec2>
    decreases |poss|
  {
    if |poss| == 0 then path
    else TraceOver(Traced(path, time + 1, poss[0]), time + 1, poss[1..])
  }

  /** Over consecutive ticks the trace gains one point per multiple of 5 passed: from a
      fresh lap, `k` ticks leave `k / 5` points. */
  lemma {:induction false} TraceOverCount(path: seq<Vec2>, time: nat, poss: seq<Vec2>)
    ensures |TraceOver(path, time, poss)| == |path| + (time + |poss|) / 5 - time / 5
    decreases |poss|
  {
    if |poss| > 0 {
      var next := Traced(path, time + 1, poss[0]);
      assert |next| == |path| + (time + 1) / 5 - time / 5;
      TraceOverCount(next, time + 1, poss[1..]);
    }
  }

  /** The best-lap rule: a finished lap is the new best when there was none (0) or it
      is strictly faster. */
  predicate Improves(best: int, last: int)
  {
    best == 0 || last < best
  }

  function NewBest(best: int, last: int): (r: int)
    ensures best == 0 ==> r == last
    ensures best != 0 ==> r <= best && r <= last && (r == best || r == last)
  {
    if Improves(best, last) then last else best
  }

  /** The lap history after a lap: the newest lap first, at most four laps kept. */
  function PushLap(history: seq<seq<Vec2>>, path: seq<Vec2>): (r: seq<seq<Vec2>>)
    ensures |r| == if |history| < 4 then |history| + 1 else 4
    ensures r[0] == path
    ensures forall i :: 1 <= i < |r| ==> r[i] == history[i - 1]
  {
    var h := [path] + history;
    if |h| > 4 then h[..4] else h
  }

  /** Where a crashed car respawns: the first waypoint, or the default start. */
  function RespawnPoint(mesh: TrackMesh): (p: Vec2)
    ensures |mesh.waypoints| > 0 ==> p == mesh.waypoints[0].position
    ensures |mesh.waypoints| == 0 ==> p == DefaultStart
  {
    if |mesh.waypoints| > 0 then mesh.waypoints[0].position else DefaultStart
  }

  /** The spawn waypoint: index 5 when the mesh has more than 5 waypoints, else 0. */
  function SpawnIndex(n: int): (i: int)
    requires n > 0
    ensures 0 <= i < n
    ensures i == 5 <==> n > 5
    ensures i == 0 <==> n <= 5
  {
    var startIdx := CarSpawnWaypointIndex;
    if startIdx >= n then 0 else startIdx
  }

  function SpawnPoint(mesh: TrackMesh): (p: Vec2)
    ensures |mesh.waypoints| == 0 ==> p == DefaultStart
    ensures |mesh.waypoints| > 5 ==> p == mesh.waypoints[5].position
    ensures 0 < |mesh.waypoints| <= 5 ==> p == mesh.waypoints[0].position
  {
    var n := |mesh.waypoints|;
    if n == 0 then DefaultStart else mesh.waypoints[SpawnIndex(n)].position
  }

  /** The spawn heading: towards the waypoint after the spawn waypoint (cyclically). */
  function SpawnHeading(mesh: TrackMesh, atan2: (real, real) -> real): real
  {
    var n := |mesh.waypoints|;
    if n == 0 then 0.0
    else
      var i := SpawnIndex(n);
      var d := Sub(mesh.waypoints[(i + 1) % n].position, mesh.waypoints[i].position);
      atan2(d.y, d.x)
  }

  /** On a mesh of at most five waypoints the car spawns at the first and faces the
      second (or, on a one-waypoint mesh, itself). */
  lemma SpawnOnShortMesh(mesh: TrackMesh, atan2: (real, real) -> real)
    requires 0 < |mesh.waypoints| <= 5
    ensures var wps := mesh.waypoints;
      var d := Sub(wps[1 % |wps|].position, wps[0].position);
      SpawnHeading(mesh, atan2) == atan2(d.y, d.x)
  {
  }

  class Game {
    var grid: Grid
    var mesh: TrackMesh
    var car: Car
    var agent: AgentQTable
    var aiMode: bool
    var numLaps: int
    var bestLapTime: int
    var bestLapPath: seq<Vec2>
    var currentLapPath: seq<Vec2>
    var lapHistory: seq<seq<Vec2>>
    var previousLaps: int

    ghost predicate Valid()
      reads this, grid, agent
    {
      grid.Valid() && agent.Valid()
    }

    /** `main` after loading: the car at the spawn waypoint facing the next one, a new
        agent, AI mode on, and empty lap records. */
    constructor (grid: Grid, mesh: TrackMesh, atan2: (real, real) -> real)
      requires grid.Valid()
      ensures Valid()
      ensures this.grid == grid && this.mesh == mesh && fresh(car) && fresh(agent)
      ensures car.position == SpawnPoint(mesh) && car.heading == SpawnHeading(mesh, atan2)
      ensures car.velocity == Zero && car.speed == 0.0 && !car.crashed
      ensures car.width == 10.0 && car.length == 22.5
      ensures car.checkpoint == -1 && car.laps == 0 && car.currentLapTime == 0 && car.lastLapTime == 0
      ensures agent.qTable == map[] && agent.epsilon == 1.0
      ensures aiMode && numLaps == 0 && bestLapTime == 0 && previousLaps == 0
      ensures bestLapPath == [] && currentLapPath == [] && lapHistory == []
    {
      var start := DefaultStart;
      var startHeading := 0.0;
      var n := |mesh.waypoints|;
      if n > 0 {
        var startIdx := CarSpawnWaypointIndex;
        if startIdx >= n {
          startIdx := 0;
        }
        var wp := mesh.waypoints[startIdx];
        start := wp.position;
        var nextWP := mesh.waypoints[(startIdx + 1) % n];
        var dx := nextWP.position.x - wp.position.x;
        var dy := nextWP.position.y - wp.position.y;
        startHeading := atan2(dy, dx);
      }
      var c := new Car(start.x, start.y);
      c.heading := startHeading;
      var ag := new AgentQTable();

      this.grid := grid;
      this.mesh := mesh;
      car := c;
      agent := ag;
      aiMode := true;
      numLaps := 0;
      bestLapTime := 0;
      bestLapPath := [];
      currentLapPath := [];
      lapHistory := [];
      previousLaps := 0;
    }

    /** A fresh car at the respawn point, and a fresh trace. */
    method Respawn()
      modifies this
      ensures fresh(car)
      ensures car.Moving() == Motion(RespawnPoint(mesh), Zero, 0.0, 0.0, false)
      ensures car.width == 10.0 && car.length == 22.5
      ensures car.checkpoint == -1 && car.laps == 0 && car.currentLapTime == 0 && car.lastLapTime == 0
      ensures currentLapPath == [] && previousLaps == 0
      ensures grid == old(grid) && mesh == old(mesh) && agent == old(agent) && aiMode == old(aiMode)
      ensures numLaps == old(numLaps) && bestLapTime == old(bestLapTime)
      ensures bestLapPath == old(bestLapPath) && lapHistory == old(lapHistory)
    {
      var startX, startY := 400.0, 110.0;
      if |mesh.waypoints| > 0 {
        startX := mesh.waypoints[0].position.x;
        startY := mesh.waypoints[0].position.y;
      }
      car := new Car(startX, startY);
      car.heading := 0.0;
      car.checkpoint := -1;
      car.laps := 0;
      currentLapPath := [];
      previousLaps := 0;
    }

    /** The lap-completion block: record the lap time, the best lap and the history,
        and start a new lap. */
    method CompleteLap()
      modifies this, car
      ensures car == old(car) && car.Moving() == old(car.Moving())
      ensures car.width == old(car.width) && car.length == old(car.length)
      ensures car.checkpoint == old(car.checkpoint) && car.laps == old(car.laps)
      ensures car.lastLapTime == old(car.currentLapTime) && car.currentLapTime == 0
      ensures bestLapTime == NewBest(old(bestLapTime), old(car.currentLapTime))
      ensures bestLapPath == if Improves(old(bestLapTime), old(car.currentLapTime))
                             then old(currentLapPath) else old(bestLapPath)
      ensures lapHistory == PushLap(old(lapHistory), old(currentLapPath))
      ensures currentLapPath == [] && previousLaps == car.laps && numLaps == old(numLaps) + 1
      ensures grid == old(grid) && mesh == old(mesh) && agent == old(agent) && aiMode == old(aiMode)
    {
      var lapTime := car.currentLapTime;
      car.lastLapTime := lapTime;

      if bestLapTime == 0 || lapTime < bestLapTime {
        bestLapTime := lapTime;
        bestLapPath := currentLapPath;
      }

      var history := [currentLapPath] + lapHistory;
      if |history| > 4 {
        history := history[..4];
      }
      lapHistory := history;

      currentLapPath := [];
      car.currentLapTime := 0;
      previousLaps := car.laps;
      numLaps := numLaps + 1;
    }

    /** One simulation tick, `updatePhysics`. `coin`, `pick` and `start` are the random
        draws of `SelectAction`; `respawnKey` is whether R is held. `action` is the
        chosen action (Coast outside AI mode); `state0` below is the state seen before
        the car moves. */
    method UpdatePhysics(coin: real, pick: int, start: int, respawnKey: bool,
                         atan2: (real, real) -> real, cos: real -> real, sin: real -> real)
        returns (action: int)
      requires Valid()
      requires 0.0 <= coin < 1.0 && 0 <= pick < ActionCount && 0 <= start < ActionCount
      modifies this, car, agent
      ensures Valid()
      ensures grid == old(grid) && mesh == old(mesh) && agent == old(agent) && aiMode == old(aiMode)
      ensures aiMode ==>
        && agent.epsilon == DecayedEpsilon(old(agent.epsilon))
        && action == EpsilonGreedy(old(agent.qTable), agent.epsilon,
                                   Discretized(old(car.position), old(car.speed), old(car.heading), mesh, atan2),
                                   coin, pick, start)
      ensures !aiMode ==> action == ActionCoast && agent.epsilon == old(agent.epsilon) && agent.qTable == old(agent.qTable)
      // A crashed car: the AI learns the crash as a self-transition; then the car
      // respawns (AI mode or R held) or stays put with the clock and trace advanced.
      ensures var state0 := Discretized(old(car.position), old(car.speed), old(car.heading), mesh, atan2);
        old(car.crashed) && aiMode ==> agent.qTable == Learned(old(agent.qTable), state0, action, -100.0, state0)
      ensures old(car.crashed) && (aiMode || respawnKey) ==>
        && fresh(car) && car.Moving() == Motion(RespawnPoint(mesh), Zero, 0.0, 0.0, false)
        && car.width == 10.0 && car.length == 22.5
        && car.checkpoint == -1 && car.laps == 0 && car.currentLapTime == 0 && car.lastLapTime == 0
        && currentLapPath == [] && previousLaps == 0
      ensures old(car.crashed) && !(aiMode || respawnKey) ==>
        && car == old(car) && car.Moving() == old(car.Moving())
        && car.width == old(car.width) && car.length == old(car.length)
        && car.checkpoint == old(car.checkpoint) && car.laps == old(car.laps)
        && car.lastLapTime == old(car.lastLapTime)
        && car.currentLapTime == old(car.currentLapTime) + 1
        && currentLapPath == Traced(old(currentLapPath), old(car.currentLapTime) + 1, old(car.position))
        && previousLaps == old(previousLaps)
      ensures old(car.crashed) ==>
        && numLaps == old(numLaps) && bestLapTime == old(bestLapTime)
        && bestLapPath == old(bestLapPath) && lapHistory == old(lapHistory)
      // A running car: one physics step with the action's controls, then the lap check.
      ensures !old(car.crashed) ==>
        && car == old(car)
        && car.Moving() == Step(old(car.Moving()), old(car.width), old(car.length), grid.cells,
                                ActionControls(action).throttle, ActionControls(action).brake,
                                ActionControls(action).steering, cos, sin)
        && car.width == old(car.width) && car.length == old(car.length)
        && car.checkpoint == old(car.checkpoint) && car.laps == old(car.laps)
      ensures !old(car.crashed) && old(car.laps) > old(previousLaps) ==>
        var lapTime := old(car.currentLapTime) + 1;
        var trace := Traced(old(currentLapPath), lapTime, old(car.position));
        && car.lastLapTime == lapTime && car.currentLapTime == 0
        && bestLapTime == NewBest(old(bestLapTime), lapTime)
        && bestLapPath == (if Improves(old(bestLapTime), lapTime) then trace else old(bestLapPath))
        && lapHistory == PushLap(old(lapHistory), trace)
        && currentLapPath == [] && previousLaps == old(car.laps) && numLaps == old(numLaps) + 1
      ensures !old(car.crashed) && old(car.laps) <= old(previousLaps) ==>
        && car.currentLapTime == old(car.currentLapTime) + 1 && car.lastLapTime == old(car.lastLapTime)
        && currentLapPath == Traced(old(currentLapPath), old(car.currentLapTime) + 1, old(car.position))
        && previousLaps == old(previousLaps) && numLaps == old(numLaps) && bestLapTime == old(bestLapTime)
        && bestLapPath == old(bestLapPath) && lapHistory == old(lapHistory)
      // The AI learns the transition to the state after the step, with its reward.
      ensures var state0 := Discretized(old(car.position), old(car.speed), old(car.heading), mesh, atan2);
        !old(car.crashed) && aiMode ==>
        agent.qTable == Learned(old(agent.qTable), state0, action,
                                Reward(car.crashed, car.position, car.velocity, mesh, grid.cells),
                                Discretized(car.position, car.speed, car.heading, mesh, atan2))
    {
      var state0, controls;
      action, state0, controls := BeginTick(coin, pick, start, atan2);
      if car.crashed {
        CrashTick(state0, action, respawnKey);
      } else {
        RunTick(state0, action, controls, atan2, cos, sin);
      }
    }

    /** The start of `updatePhysics`: the lap clock, the trace sample, the state before
        the move and, in AI mode, the action and its controls. */
    method BeginTick(coin: real, pick: int, start: int, atan2: (real, real) -> real)
        returns (action: int, state0: State, controls: Controls)
      requires Valid()
      requires 0.0 <= coin < 1.0 && 0 <= pick < ActionCount && 0 <= start < ActionCount
      modifies this, car, agent
      ensures Valid()
      ensures grid == old(grid) && mesh == old(mesh) && agent == old(agent) && aiMode == old(aiMode)
      ensures car == old(car) && car.Moving() == old(car.Moving())
      ensures car.width == old(car.width) && car.length == old(car.length)
      ensures car.checkpoint == old(car.checkpoint) && car.laps == old(car.laps)
      ensures car.lastLapTime == old(car.lastLapTime)
      ensures car.currentLapTime == old(car.currentLapTime) + 1
      ensures currentLapPath == Traced(old(currentLapPath), car.currentLapTime, car.position)
      ensures numLaps == old(numLaps) && bestLapTime == old(bestLapTime) && previousLaps == old(previousLaps)
      ensures bestLapPath == old(bestLapPath) && lapHistory == old(lapHistory)
      ensures state0 == Discretized(car.position, car.speed, car.heading, mesh, atan2)
      ensures 0 <= action < ActionCount && controls == ActionControls(action)
      ensures agent.qTable == old(agent.qTable)
      ensures aiMode ==>
        && agent.epsilon == DecayedEpsilon(old(agent.epsilon))
        && action == EpsilonGreedy(agent.qTable, agent.epsilon, state0, coin, pick, start)
      ensures !aiMode ==> action == ActionCoast && agent.epsilon == old(agent.epsilon)
    {
      var throttle := 0.0;
      var brake := 0.0;
      var steering := 0.0;

      car.currentLapTime := car.currentLapTime + 1;

      if car.currentLapTime % 5 == 0 {
        currentLapPath := currentLapPath + [car.position];
      }

      state0 := DiscretizeState(car, mesh, atan2);
      action := 0;

      if aiMode {
        action := agent.SelectAction(state0, coin, pick, start);
        if action == ActionThrottle {
          throttle := 1.0;
        } else if action == ActionBrake {
          brake := 1.0;
        } else if action == ActionLeft {
          steering := -1.0;
        } else if action == ActionRight {
          steering := 1.0;
        }
      }
      controls := Controls(throttle, brake, steering);
    }

    /** The crash branch: the AI learns the crash (its reward is -100) as a transition
        back to the same state; the car respawns in AI mode or when R is held. */
    method CrashTick(state0: State, action: int, respawnKey: bool)
      requires Valid() && car.crashed && 0 <= action < ActionCount
      modifies this, agent
      ensures Valid()
      ensures grid == old(grid) && mesh == old(mesh) && agent == old(agent) && aiMode == old(aiMode)
      ensures numLaps == old(numLaps) && bestLapTime == old(bestLapTime)
      ensures bestLapPath == old(bestLapPath) && lapHistory == old(lapHistory)
      ensures agent.epsilon == old(agent.epsilon)
      ensures aiMode ==> agent.qTable == Learned(old(agent.qTable), state0, action, -100.0, state0)
      ensures !aiMode ==> agent.qTable == old(agent.qTable)
      ensures aiMode || respawnKey ==>
        && fresh(car) && car.Moving() == Motion(RespawnPoint(mesh), Zero, 0.0, 0.0, false)
        && car.width == 10.0 && car.length == 22.5
        && car.checkpoint == -1 && car.laps == 0 && car.currentLapTime == 0 && car.lastLapTime == 0
        && currentLapPath == [] && previousLaps == 0
      ensures !(aiMode || respawnKey) ==>
        && car == old(car) && car.Moving() == old(car.Moving())
        && car.width == old(car.width) && car.length == old(car.length)
        && car.checkpoint == old(car.checkpoint) && car.laps == old(car.laps)
        && car.currentLapTime == old(car.currentLapTime) && car.lastLapTime == old(car.lastLapTime)
        && currentLapPath == old(currentLapPath) && previousLaps == old(previousLaps)
    {
      if aiMode {
        var reward := CalculateReward(car, grid, mesh);
        agent.Learn(state0, action, reward, state0);
      }
      if aiMode || respawnKey {
        Respawn();
      }
    }

    /** The running branch: one physics step, the lap check, and in AI mode the
        transition to the state after the step with its reward. */
    method RunTick(state0: State, action: int, controls: Controls,
                   atan2: (real, real) -> real, cos: real -> real, sin: real -> real)
      requires Valid() && !car.crashed && 0 <= action < ActionCount
      modifies this, car, agent
      ensures Valid()
      ensures grid == old(grid) && mesh == old(mesh) && agent == old(agent) && aiMode == old(aiMode)
      ensures car == old(car)
      ensures car.Moving() == Step(old(car.Moving()), old(car.width), old(car.length), grid.cells,
                                   controls.throttle, controls.brake, controls.steering, cos, sin)
      ensures car.width == old(car.width) && car.length == old(car.length)
      ensures car.checkpoint == old(car.checkpoint) && car.laps == old(car.laps)
      ensures old(car.laps) > old(previousLaps) ==>
        && car.lastLapTime == old(car.currentLapTime) && car.currentLapTime == 0
        && bestLapTime == NewBest(old(bestLapTime), old(car.currentLapTime))
        && bestLapPath == (if Improves(old(bestLapTime), old(car.currentLapTime))
                           then old(currentLapPath) else old(bestLapPath))
        && lapHistory == PushLap(old(lapHistory), old(currentLapPath))
        && currentLapPath == [] && previousLaps == old(car.laps) && numLaps == old(numLaps) + 1
      ensures old(car.laps) <= old(previousLaps) ==>
        && car.currentLapTime == old(car.currentLapTime) && car.lastLapTime == old(car.lastLapTime)
        && currentLapPath == old(currentLapPath)
        && previousLaps == old(previousLaps) && numLaps == old(numLaps) && bestLapTime == old(bestLapTime)
        && bestLapPath == old(bestLapPath) && lapHistory == old(lapHistory)
      ensures agent.epsilon == old(agent.epsilon)
      ensures aiMode ==>
        agent.qTable == Learned(old(agent.qTable), state0, action,
                                Reward(car.crashed, car.position, car.velocity, mesh, grid.cells),
                                Discretized(car.position, car.speed, car.heading, mesh, atan2))
      ensures !aiMode ==> agent.qTable == old(agent.qTable)
    {
      car.Update(grid, controls.throttle, controls.brake, controls.steering, cos, sin);

      if car.laps > previousLaps {
        CompleteLap();
      }

      if aiMode {
        var nextState := DiscretizeState(car, mesh, atan2);
        var reward := CalculateReward(car, grid, mesh);
        agent.Learn(state0, action, reward, nextState);
      }
    }
  }
}

/** The car and its per-tick physics (internal/physics/car.go). `math.Cos` and
    `math.Sin` are parameters. */
module Physics {
  import opened GoNumerics
  import opened Vector
  import opened Track

  const MaxSpeed: real := 10.0
  const Acceleration: real := 0.2
  const Braking: real := 0.4
  const Friction: real := 0.05
  const TurnSpeed: real := 0.05
  const OffTrackFriction: real := 0.2

  /** The fields of a car that one tick of `Update` can change. */
  datatype Motion = Motion(position: Vec2, velocity: Vec2, heading: real, speed: real, crashed: bool)

  /** Throttle adds, brake subtracts; each only when its pedal is pressed. */
  function AfterInput(speed: real, throttle: real, brake: real): real
  {
    var s := if throttle > 0.0 then speed + throttle * Acceleration else speed;
    if brake > 0.0 then s - brake * Braking else s
  }

  /** Rolling friction: the speed moves `Friction` toward zero and stops there. */
  function ApplyFriction(s: real): (r: real)
    ensures s >= 0.0 ==> 0.0 <= r <= s
    ensures s <= 0.0 ==> s <= r <= 0.0
    ensures Abs(r) == MaxReal(Abs(s) - Friction, 0.0)
  {
    if s > 0.0 then
      if s - Friction < 0.0 then 0.0 else s - Friction
    else if s < 0.0 then
      if s + Friction > 0.0 then 0.0 else s + Friction
    else s
  }

  /** Steering turns the car only while it moves faster than 0.1. */
  function Steered(heading: real, speed: real, steering: real): real
  {
    if Abs(speed) > 0.1 then heading + steering * TurnSpeed else heading
  }

  /** The four body corners in car coordinates: front right, front left, rear right,
      rear left. */
  function CornerOffsets(width: real, length: real): (offs: seq<Vec2>)
    ensures |offs| == 4
  {
    var halfW := width / 2.0;
    var halfL := length / 2.0;
    [Vec2(halfL, halfW), Vec2(halfL, -halfW), Vec2(-halfL, halfW), Vec2(-halfL, -halfW)]
  }

  /** A corner offset rotated by the heading and moved to `center`. */
  function CornerWorld(center: Vec2, off: Vec2, cosH: real, sinH: real): Vec2
  {
    Vec2(center.x + off.x * cosH - off.y * sinH, center.y + off.x * sinH + off.y * cosH)
  }

  /** The kinds of the cells under the four corners, in the order they are examined. */
  function CornerKinds(cells: seq<seq<Cell>>, center: Vec2, width: real, length: real, cosH: real, sinH: real): (ks: seq<CellType>)
    ensures |ks| == 4
  {
    var offs := CornerOffsets(width, length);
    seq(4, i requires 0 <= i < 4 => KindAt(cells, CornerWorld(center, offs[i], cosH, sinH)))
  }

  /** The new velocity: `grip` of the way from the old velocity to the target. */
  function Blend(v: Vec2, target: Vec2, grip: real): Vec2
  {
    Vec2(v.x * (1.0 - grip) + target.x * grip, v.y * (1.0 - grip) + target.y * grip)
  }

  /** The speed after input and friction. */
  function InputSpeed(speed: real, throttle: real, brake: real): real
  {
    ApplyFriction(AfterInput(speed, throttle, brake))
  }

  /** The upper clamp of `Update`; a speed at or below `MaxSpeed` passes unchanged. */
  function ClampSpeed(s: real): (r: real)
    ensures r <= MaxSpeed
    ensures r == s || r == MaxSpeed
    ensures s <= MaxSpeed ==> r == s
  {
    if s > MaxSpeed then MaxSpeed else s
  }

  /** The outcome of a tick in which no corner touched a wall. */
  function Moved(pos: Vec2, vel: Vec2, s1: real, h: real, onGravel: bool, cosH: real, sinH: real): Motion
  {
    Motion(Add(pos, vel),
           Blend(vel, Vec2(cosH * s1, sinH * s1), if onGravel then 0.5 else 0.9),
           h,
           ClampSpeed(if onGravel then s1 * (1.0 - OffTrackFriction) else s1),
           false)
  }

  /** The second half of a tick, once the speed `s1` and the heading `h` are known:
      move by the old velocity, probe the corners there, then crash or settle. */
  function Advanced(pos: Vec2, vel: Vec2, s1: real, h: real, width: real, length: real,
                    cells: seq<seq<Cell>>, cosH: real, sinH: real): Motion
  {
    var kinds := CornerKinds(cells, Add(pos, vel), width, length, cosH, sinH);
    if Wall in kinds then Motion(pos, vel, h, 0.0, true)
    else Moved(pos, vel, s1, h, Gravel in kinds, cosH, sinH)
  }

  /** One tick of `Update` on the moving parts of a car. */
  function Step(m: Motion, width: real, length: real, cells: seq<seq<Cell>>, throttle: real, brake: real,
                steering: real, cos: real -> real, sin: real -> real): Motion
  {
    if m.crashed then m
    else
      var s1 := InputSpeed(m.speed, throttle, brake);
      var h := Steered(m.heading, s1, steering);
      Advanced(m.position, m.velocity, s1, h, width, length, cells, cos(h), sin(h))
  }

  /** The kinds under the corners after a tick's move and turn. */
  function KindsAhead(m: Motion, width: real, length: real, cells: seq<seq<Cell>>, throttle: real, brake: real,
                      steering: real, cos: real -> real, sin: real -> real): seq<CellType>
  {
    var h := Steered(m.heading, InputSpeed(m.speed, throttle, brake), steering);
    CornerKinds(cells, Add(m.position, m.velocity), width, length, cos(h), sin(h))
  }

  /** A crashed car does not move, turn or change speed. */
  lemma StepCrashed(m: Motion, width: real, length: real, cells: seq<seq<Cell>>, throttle: real, brake: real,
                    steering: real, cos: real -> real, sin: real -> real)
    requires m.crashed
    ensures Step(m, width, length, cells, throttle, brake, steering, cos, sin) == m
  {
  }

  /** A wall under any corner crashes the car where it stood: speed 0, position and
      velocity as before the tick, and this tick's steering kept. */
  lemma StepIntoWall(m: Motion, width: real, length: real, cells: seq<seq<Cell>>, throttle: real, brake: real,
                     steering: real, cos: real -> real, sin: real -> real)
    requires !m.crashed
    requires Wall in KindsAhead(m, width, length, cells, throttle, brake, steering, cos, sin)
    ensures var m' := Step(m, width, length, cells, throttle, brake, steering, cos, sin);
      && m'.crashed && m'.speed == 0.0
      && m'.position == m.position && m'.velocity == m.velocity
      && m'.heading == Steered(m.heading, InputSpeed(m.speed, throttle, brake), steering)
  {
  }

  /** Without a wall the car moves by its old velocity (not the new one) and is not
      crashed. */
  lemma StepOnTrack(m: Motion, width: real, length: real, cells: seq<seq<Cell>>, throttle: real, brake: real,
                    steering: real, cos: real -> real, sin: real -> real)
    requires !m.crashed
    requires Wall !in KindsAhead(m, width, length, cells, throttle, brake, steering, cos, sin)
    ensures var m' := Step(m, width, length, cells, throttle, brake, steering, cos, sin);
      && !m'.crashed
      && m'.position == Add(m.position, m.velocity)
      && m'.heading == Steered(m.heading, InputSpeed(m.speed, throttle, brake), steering)
  {
  }

  /** After a tick that does not crash, the speed is at most `MaxSpeed`; there is no
      lower clamp, so a speed at or below `MaxSpeed` after input and friction is only
      cut by gravel. */
  lemma StepSpeedBound(m: Motion, width: real, length: real, cells: seq<seq<Cell>>, throttle: real, brake: real,
                       steering: real, cos: real -> real, sin: real -> real)
    ensures var m' := Step(m, width, length, cells, throttle, brake, steering, cos, sin);
      !m'.crashed ==> m'.speed <= MaxSpeed
    ensures var m' := Step(m, width, length, cells, throttle, brake, steering, cos, sin);
      var s1 := InputSpeed(m.speed, throttle, brake);
      !m'.crashed && s1 <= MaxSpeed ==> m'.speed == s1 || m'.speed == s1 * 0.8
  {
  }

  /** Gravel under a corner (and no wall) scales the speed by 0.8 before the clamp and
      lowers the grip from 0.9 to 0.5; the target velocity uses the speed before the cut. */
  lemma MovedOnGravel(pos: Vec2, vel: Vec2, s1: real, h: real, onGravel: bool, cosH: real, sinH: real)
    ensures var m' := Moved(pos, vel, s1, h, onGravel, cosH, sinH);
      var grip := if onGravel then 0.5 else 0.9;
      && m'.speed == ClampSpeed(if onGravel then s1 * 0.8 else s1)
      && m'.velocity.x == vel.x * (1.0 - grip) + cosH * s1 * grip
      && m'.velocity.y == vel.y * (1.0 - grip) + sinH * s1 * grip
  {
  }

  /** Steering changes the heading by `steering * TurnSpeed` exactly when the speed after
      friction exceeds 0.1 in magnitude. */
  lemma SteeringGate(heading: real, speed: real, steering: real)
    ensures Abs(speed) > 0.1 ==> Steered(heading, speed, steering) == heading + steering * 0.05
    ensures Abs(speed) <= 0.1 ==> Steered(heading, speed, steering) == heading
  {
  }

  /** The corner loop of `Update`: corners are examined in order and the scan stops at
      the first wall; `onGravel` records gravel under a corner examined before that. */
  method ScanCorners(grid: Grid, center: Vec2, width: real, length: real, cosH: real, sinH: real)
      returns (hitWall: bool, onGravel: bool)
    requires grid.Valid()
    ensures var kinds := CornerKinds(grid.cells, center, width, length, cosH, sinH);
      && (hitWall <==> Wall in kinds)
      && (!hitWall ==> (onGravel <==> Gravel in kinds))
  {
    ghost var kinds := CornerKinds(grid.cells, center, width, length, cosH, sinH);
    var offsets := CornerOffsets(width, length);
    onGravel := false;
    var j := 0;
    while j < 4
      invariant 0 <= j <= 4
      invariant Wall !in kinds[..j]
      invariant onGravel <==> Gravel in kinds[..j]
    {
      var worldX := center.x + offsets[j].x * cosH - offsets[j].y * sinH;
      var worldY := center.y + offsets[j].x * sinH + offsets[j].y * cosH;
      var cell := grid.Get(Trunc(worldX), Trunc(worldY));
      assert Vec2(worldX, worldY) == CornerWorld(center, offsets[j], cosH, sinH);
      assert cell.kind == kinds[j];
      if cell.kind == Wall {
        return true, onGravel;
      } else if cell.kind == Gravel {
        onGravel := true;
      }
      assert kinds[..j + 1] == kinds[..j] + [kinds[j]];
      j := j + 1;
    }
    assert kinds[..4] == kinds;
    hitWall := false;
  }

  class Car {
    var position: Vec2
    var velocity: Vec2
    var heading: real
    var speed: real
    var crashed: bool
    var width: real
    var length: real
    var checkpoint: int
    var laps: int
    var currentLapTime: int
    var lastLapTime: int

    /** `NewCar`: at rest at `(x, y)`, not yet past any checkpoint. */
    constructor (x: real, y: real)
      ensures position == Vec2(x, y) && velocity == Zero
      ensures heading == 0.0 && speed == 0.0 && !crashed
      ensures width == 10.0 && length == 22.5
      ensures checkpoint == -1 && laps == 0 && currentLapTime == 0 && lastLapTime == 0
    {
      position := Vec2(x, y);
      velocity := Zero;
      heading := 0.0;
      speed := 0.0;
      crashed := false;
      width := 10.0;
      length := 22.5;
      checkpoint := -1;
      laps := 0;
      currentLapTime := 0;
      lastLapTime := 0;
    }

    function Moving(): Motion
      reads this
    {
      Motion(position, velocity, heading, speed, crashed)
    }

    /** `Update`: one tick of `Step`; nothing but the moving parts changes. */
    method Update(grid: Grid, throttle: real, brake: real, steering: real,
                  cos: real -> real, sin: real -> real)
      requires grid.Valid()
      modifies this
      ensures Moving() == Step(old(Moving()), width, length, grid.cells, throttle, brake, steering, cos, sin)
      ensures width == old(width) && length == old(length)
      ensures checkpoint == old(checkpoint) && laps == old(laps)
      ensures currentLapTime == old(currentLapTime) && lastLapTime == old(lastLapTime)
    {
      if crashed {
        return;
      }

      if throttle > 0.0 {
        speed := speed + throttle * Acceleration;
      }
      if brake > 0.0 {
        speed := speed - brake * Braking;
      }

      if speed > 0.0 {
        speed := speed - Friction;
        if speed < 0.0 {
          speed := 0.0;
        }
      } else if speed < 0.0 {
        speed := speed + Friction;
        if speed > 0.0 {
          speed := 0.0;
        }
      }

      assert speed == InputSpeed(old(speed), throttle, brake);

      if Abs(speed) > 0.1 {
        heading := heading + steering * TurnSpeed;
      }
      assert heading == Steered(old(heading), speed, steering);

      Advance(grid, cos(heading), sin(heading));
    }

    /** The rest of `Update` once speed and heading are set: the target velocity, the
        move, the corner probe, and either the crash or grip, gravel and the clamp. */
    method Advance(grid: Grid, cosH: real, sinH: real)
      requires grid.Valid() && !crashed
      modifies this
      ensures Moving() == Advanced(old(position), old(velocity), old(speed), old(heading), width, length, grid.cells, cosH, sinH)
      ensures width == old(width) && length == old(length)
      ensures checkpoint == old(checkpoint) && laps == old(laps)
      ensures currentLapTime == old(currentLapTime) && lastLapTime == old(lastLapTime)
    {
      var targetV := Vec2(cosH * speed, sinH * speed);
      var grip := 0.9;
      var newPos := Vec2(position.x + velocity.x, position.y + velocity.y);

      var hitWall, onGravel := ScanCorners(grid, newPos, width, length, cosH, sinH);
      if hitWall {
        crashed := true;
        speed := 0.0;
        return;
      }

      if onGravel {
        grip := 0.5;
        speed := speed * (1.0 - OffTrackFriction);
      }

      position := newPos;
      velocity := Blend(velocity, targetV, grip);

      if speed > MaxSpeed {
        speed := MaxSpeed;
      }
      assert Moving() == Moved(old(position), old(velocity), old(speed), heading, onGravel, cosH, sinH);
    }
  }
}

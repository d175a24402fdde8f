/** The tabular Q-learning agent and its glue to the simulation
    (internal/agent/qlearning.go). `math.Atan2` and the draws of `math/rand` are
    parameters; the package-level `Epsilon` is a field of the agent. */
module Agent {
  import opened GoNumerics
  import opened Vector
  import opened Track
  import opened Mesh
  import opened Physics

  const ActionCoast := 0
  const ActionThrottle := 1
  const ActionBrake := 2
  const ActionLeft := 3
  const ActionRight := 4
  const ActionCount := 5

  const Alpha: real := 0.01
  const Gamma: real := 0.9998
  const MinEpsilon: real := 0.01
  const Decay: real := 0.9995

  /** `math.Pi` and `2 * math.Pi`, as the float64 constants they round to. */
  const Pi: real := 3.141592653589793
  const TwoPi: real := 6.283185307179586

  /** The discretised state: downsampled waypoint index, lane, speed level and
      heading relative to the track. */
  datatype State = State(segmentIdx: int, laneIdx: int, speedLevel: int, headingRel: int)

  // ---------------------------------------------------------------------------
  // Buckets of DiscretizeState

  /** Lateral offset to lane, with strict `<` at -15, -5, 5 and 15. */
  function LaneBucket(d: real): (lane: int)
    ensures -2 <= lane <= 2
  {
    if d < -15.0 then -2
    else if d < -5.0 then -1
    else if d < 5.0 then 0
    else if d < 15.0 then 1
    else 2
  }

  /** Each lane is a half-open interval, closed at its lower end. */
  lemma LaneIntervals(d: real)
    ensures LaneBucket(d) == -2 <==> d < -15.0
    ensures LaneBucket(d) == -1 <==> -15.0 <= d < -5.0
    ensures LaneBucket(d) == 0 <==> -5.0 <= d < 5.0
    ensures LaneBucket(d) == 1 <==> 5.0 <= d < 15.0
    ensures LaneBucket(d) == 2 <==> 15.0 <= d
  {
  }

  lemma LaneMonotone(d1: real, d2: real)
    requires d1 <= d2
    ensures LaneBucket(d1) <= LaneBucket(d2)
  {
  }

  lemma LaneBoundaries()
    ensures LaneBucket(-15.0) == -1 && LaneBucket(-5.0) == 0
    ensures LaneBucket(5.0) == 1 && LaneBucket(15.0) == 2
  {
  }

  /** Speed to level, with strict `>` at 0.5, 4 and 8; no negative level. */
  function SpeedLevel(speed: real): (level: int)
    ensures 0 <= level <= 3
  {
    if speed > 8.0 then 3
    else if speed > 4.0 then 2
    else if speed > 0.5 then 1
    else 0
  }

  lemma SpeedIntervals(speed: real)
    ensures SpeedLevel(speed) == 0 <==> speed <= 0.5
    ensures SpeedLevel(speed) == 1 <==> 0.5 < speed <= 4.0
    ensures SpeedLevel(speed) == 2 <==> 4.0 < speed <= 8.0
    ensures SpeedLevel(speed) == 3 <==> 8.0 < speed
  {
  }

  lemma SpeedMonotone(s1: real, s2: real)
    requires s1 <= s2
    ensures SpeedLevel(s1) <= SpeedLevel(s2)
  {
  }

  lemma SpeedBoundaries()
    ensures SpeedLevel(0.5) == 0 && SpeedLevel(4.0) == 1 && SpeedLevel(8.0) == 2
  {
  }

  /** The first normalisation loop: subtract whole turns while above pi. */
  function WrapDown(rel: real): (r: real)
    ensures r <= Pi
    ensures rel <= Pi ==> r == rel
    ensures rel > Pi ==> -Pi < r
    decreases if rel > Pi then (rel - Pi).Floor + 1 else 0
  {
    if rel > Pi then WrapDown(rel - TwoPi) else rel
  }

  /** The second normalisation loop: add whole turns while below -pi. */
  function WrapUp(rel: real): (r: real)
    ensures -Pi <= r
    ensures -Pi <= rel ==> r == rel
    ensures rel < -Pi ==> r < Pi
    decreases if rel < -Pi then (-Pi - rel).Floor + 1 else 0
  {
    if rel < -Pi then WrapUp(rel + TwoPi) else rel
  }

  /** The relative heading after both loops: in [-pi, pi], and left alone when it
      already was. */
  function NormalizedHeading(rel: real): (r: real)
    ensures -Pi <= r <= Pi
    ensures -Pi <= rel <= Pi ==> r == rel
  {
    WrapUp(WrapDown(rel))
  }

  /** How many turns the first loop subtracts. */
  function DownTurns(rel: real): nat
    decreases if rel > Pi then (rel - Pi).Floor + 1 else 0
  {
    if rel > Pi then DownTurns(rel - TwoPi) + 1 else 0
  }

  /** How many turns the second loop adds. */
  function UpTurns(rel: real): nat
    decreases if rel < -Pi then (-Pi - rel).Floor + 1 else 0
  {
    if rel < -Pi then UpTurns(rel + TwoPi) + 1 else 0
  }

  lemma {:induction false} WrapDownTurns(rel: real)
    ensures WrapDown(rel) == rel - (DownTurns(rel) as real) * TwoPi
    decreases if rel > Pi then (rel - Pi).Floor + 1 else 0
  {
    if rel > Pi {
      WrapDownTurns(rel - TwoPi);
    }
  }

  lemma {:induction false} WrapUpTurns(rel: real)
    ensures WrapUp(rel) == rel + (UpTurns(rel) as real) * TwoPi
    decreases if rel < -Pi then (-Pi - rel).Floor + 1 else 0
  {
    if rel < -Pi {
      WrapUpTurns(rel + TwoPi);
    }
  }

  /** Normalisation changes the heading by a whole number of turns. */
  lemma NormalizedByTurns(rel: real)
    ensures NormalizedHeading(rel) == rel + ((UpTurns(WrapDown(rel)) - DownTurns(rel)) as real) * TwoPi
  {
    WrapDownTurns(rel);
    WrapUpTurns(WrapDown(rel));
  }

  /** The two loops of `DiscretizeState` that bring the relative heading into [-pi, pi]. */
  method NormalizeHeading(rel0: real) returns (rel: real)
    ensures rel == NormalizedHeading(rel0)
  {
    rel := rel0;
    while rel > Pi
      invariant WrapDown(rel) == WrapDown(rel0)
      decreases if rel > Pi then (rel - Pi).Floor + 1 else 0
    {
      rel := rel - TwoPi;
    }
    while rel < -Pi
      invariant WrapUp(rel) == WrapUp(WrapDown(rel0))
      decreases if rel < -Pi then (-Pi - rel).Floor + 1 else 0
    {
      rel := rel + TwoPi;
    }
  }

  /** Relative heading to bucket: -1 below -pi/6, 1 above pi/6, 0 otherwise. */
  function HeadingBucket(rel: real): (h: int)
    ensures -1 <= h <= 1
    ensures h == -1 <==> rel < -(Pi / 6.0)
    ensures h == 1 <==> rel > Pi / 6.0
  {
    var deg30 := Pi / 6.0;
    if rel < -deg30 then -1 else if rel > deg30 then 1 else 0
  }

  /** The waypoint index downsampled by Go's truncating `/ 5`. */
  function SegmentIdx(wpIdx: int): (seg: int)
    ensures wpIdx >= 0 ==> 5 * seg <= wpIdx < 5 * seg + 5
  {
    GoDiv(wpIdx, 5)
  }

  /** The index -1 of an empty mesh lands in segment 0, not -1. */
  lemma SegmentOfNoWaypoint()
    ensures SegmentIdx(-1) == 0
  {
  }

  /** The track direction at a waypoint: its normal turned by -90 degrees. */
  function Tangent(normal: Vec2): Vec2
  {
    Vec2(normal.y, -normal.x)
  }

  /** The direction of the track at the waypoint closest to `pos`, as `math.Atan2`
      gives it for the tangent. */
  function TrackHeading(mesh: TrackMesh, pos: Vec2, atan2: (real, real) -> real): real
  {
    var t := Tangent(Closest(mesh, pos).0.normal);
    atan2(t.y, t.x)
  }

  /** Headings that differ by whole turns normalise to the same relative heading, except
      that -pi and pi, which the loops both leave alone, stay apart. */
  lemma NormalizedUpToTurns(rel: real, n: int)
    ensures var a, b := NormalizedHeading(rel), NormalizedHeading(rel + (n as real) * TwoPi);
      a == b || (a == -Pi && b == Pi) || (a == Pi && b == -Pi)
  {
    var a, b := NormalizedHeading(rel), NormalizedHeading(rel + (n as real) * TwoPi);
    NormalizedByTurns(rel);
    NormalizedByTurns(rel + (n as real) * TwoPi);
    var k := n + (UpTurns(WrapDown(rel + (n as real) * TwoPi)) - DownTurns(rel + (n as real) * TwoPi))
               - (UpTurns(WrapDown(rel)) - DownTurns(rel));
    assert b - a == (k as real) * TwoPi;
    assert k >= 2 ==> (k as real) * TwoPi >= 2.0 * TwoPi;
    assert k <= -2 ==> (k as real) * TwoPi <= -2.0 * TwoPi;
  }

  /** The discretised state depends on the car's heading only up to whole turns: adding
      `n` turns changes nothing unless the relative heading normalises to -pi or pi. */
  lemma DiscretizedPerTurn(pos: Vec2, speed: real, heading: real, mesh: TrackMesh,
                           atan2: (real, real) -> real, n: int)
    requires -Pi < NormalizedHeading(heading - TrackHeading(mesh, pos, atan2)) < Pi
    ensures Discretized(pos, speed, heading + (n as real) * TwoPi, mesh, atan2)
         == Discretized(pos, speed, heading, mesh, atan2)
  {
    var rel := heading - TrackHeading(mesh, pos, atan2);
    NormalizedUpToTurns(rel, n);
    assert heading + (n as real) * TwoPi - TrackHeading(mesh, pos, atan2) == rel + (n as real) * TwoPi;
  }

  /** What `DiscretizeState` answers for a car at `pos` with the given speed and heading. */
  function Discretized(pos: Vec2, speed: real, heading: real, mesh: TrackMesh,
                       atan2: (real, real) -> real): State
  {
    var (wp, idx) := Closest(mesh, pos);
    var d := Dot(Sub(pos, wp.position), wp.normal);
    State(SegmentIdx(idx), LaneBucket(d), SpeedLevel(speed),
          HeadingBucket(NormalizedHeading(heading - TrackHeading(mesh, pos, atan2))))
  }

  /** Every component of a discretised state lies in its bucket range, and the lane is
      the bucket of the Frenet lateral offset. */
  lemma DiscretizedRanges(pos: Vec2, speed: real, heading: real, mesh: TrackMesh,
                          atan2: (real, real) -> real)
    ensures var s := Discretized(pos, speed, heading, mesh, atan2);
      && s.segmentIdx >= 0
      && (|mesh.waypoints| == 0 ==> s.segmentIdx == 0)
      && -2 <= s.laneIdx <= 2 && 0 <= s.speedLevel <= 3 && -1 <= s.headingRel <= 1
      && s.laneIdx == LaneBucket(Frenet(mesh, pos).1)
  {
    ClosestSpec(mesh, pos);
  }

  method DiscretizeState(c: Car, mesh: TrackMesh, atan2: (real, real) -> real) returns (s: State)
    ensures s == Discretized(c.position, c.speed, c.heading, mesh, atan2)
  {
    var pos, speed, heading := c.position, c.speed, c.heading;
    var wp, wpIdx := GetClosestWaypoint(mesh, pos);

    var dx := pos.x - wp.position.x;
    var dy := pos.y - wp.position.y;
    var d := dx * wp.normal.x + dy * wp.normal.y;
    assert d == Dot(Sub(pos, wp.position), wp.normal);

    var lane := 0;
    if d < -15.0 {
      lane := -2;
    } else if d < -5.0 {
      lane := -1;
    } else if d < 5.0 {
      lane := 0;
    } else if d < 15.0 {
      lane := 1;
    } else {
      lane := 2;
    }
    assert lane == LaneBucket(d);

    var speedLevel := 0;
    if speed > 8.0 {
      speedLevel := 3;
    } else if speed > 4.0 {
      speedLevel := 2;
    } else if speed > 0.5 {
      speedLevel := 1;
    }
    assert speedLevel == SpeedLevel(speed);

    var tangentX := wp.normal.y;
    var tangentY := -wp.normal.x;
    var trackHeading := atan2(tangentY, tangentX);
    var relHeading := NormalizeHeading(heading - trackHeading);

    var h := 0;
    var deg30 := Pi / 6.0;
    if relHeading < -deg30 {
      h := -1;
    } else if relHeading > deg30 {
      h := 1;
    }
    assert h == HeadingBucket(relHeading);

    s := State(GoDiv(wpIdx, 5), lane, speedLevel, h);
  }

  // ---------------------------------------------------------------------------
  // Epsilon

  /** One decay step: multiply by 0.9995, never below 0.01. */
  function DecayedEpsilon(e: real): (r: real)
    ensures MinEpsilon <= r
    ensures e <= 1.0 ==> r <= 1.0
    ensures MinEpsilon <= e ==> r <= e
    ensures r == MinEpsilon || r == e * Decay
  {
    MaxReal(e * Decay, MinEpsilon)
  }

  /** Epsilon after `n` calls of `SelectAction`, starting from 1.0. */
  function EpsilonAfter(n: nat): real
  {
    if n == 0 then 1.0 else DecayedEpsilon(EpsilonAfter(n - 1))
  }

  /** From 1.0 epsilon stays in [0.01, 1] and never increases. */
  lemma {:induction false} EpsilonAfterBounds(n: nat)
    ensures MinEpsilon <= EpsilonAfter(n) <= 1.0
    ensures EpsilonAfter(n + 1) <= EpsilonAfter(n)
  {
    if n > 0 {
      EpsilonAfterBounds(n - 1);
    }
  }

  // ---------------------------------------------------------------------------
  // Greedy choice

  /** The action examined at step `i` of the scan that begins at `start`. */
  function ScanAt(start: int, i: int): (a: int)
    requires 0 <= start < ActionCount && 0 <= i < ActionCount
    ensures 0 <= a < ActionCount
  {
    (start + i) % ActionCount
  }

  /** The step at which the scan from `start` examines action `a`. */
  function ScanPos(start: int, a: int): (i: int)
    requires 0 <= start < ActionCount && 0 <= a < ActionCount
    ensures 0 <= i < ActionCount
    ensures ScanAt(start, i) == a
  {
    if a >= start then a - start else a - start + ActionCount
  }

  lemma ScanPosAt(start: int, i: int)
    requires 0 <= start < ActionCount && 0 <= i < ActionCount
    ensures ScanPos(start, ScanAt(start, i)) == i
  {
  }

  /** `a` holds the largest value of the row and is the first such action met by the
      scan from `start`. */
  ghost predicate IsGreedyChoice(row: seq<real>, start: int, a: int)
    requires |row| == ActionCount && 0 <= start < ActionCount
  {
    && 0 <= a < ActionCount
    && (forall j :: 0 <= j < ActionCount ==> row[j] <= row[a])
    && (forall i :: 0 <= i < ScanPos(start, a) ==> row[ScanAt(start, i)] < row[a])
  }

  /** The greedy choice is determined by the row and the start offset. */
  lemma GreedyUnique(row: seq<real>, start: int, a: int, b: int)
    requires |row| == ActionCount && 0 <= start < ActionCount
    requires IsGreedyChoice(row, start, a) && IsGreedyChoice(row, start, b)
    ensures a == b
  {
    assert ScanAt(start, ScanPos(start, a)) == a;
    assert ScanAt(start, ScanPos(start, b)) == b;
  }

  /** The action the scan holds after `k` steps: -1 before any, then replaced only by a
      strictly larger value. The source's `-math.MaxFloat64` bound is read as "the first
      action examined is always taken". */
  function ScanBest(row: seq<real>, start: int, k: nat): (b: int)
    requires |row| == ActionCount && 0 <= start < ActionCount && k <= ActionCount
    ensures k == 0 <==> b == -1
    ensures k > 0 ==> 0 <= b < ActionCount && ScanPos(start, b) < k
    ensures k > 0 ==> forall i :: 0 <= i < k ==> row[ScanAt(start, i)] <= row[b]
    ensures k > 0 ==> forall i :: 0 <= i < ScanPos(start, b) ==> row[ScanAt(start, i)] < row[b]
  {
    if k == 0 then -1
    else
      var b := ScanBest(row, start, k - 1);
      var idx := ScanAt(start, k - 1);
      ScanPosAt(start, k - 1);
      if b == -1 || row[idx] > row[b] then idx else b
  }

  /** A full scan makes the greedy choice. */
  lemma ScanBestIsGreedy(row: seq<real>, start: int)
    requires |row| == ActionCount && 0 <= start < ActionCount
    ensures IsGreedyChoice(row, start, ScanBest(row, start, ActionCount))
  {
    var b := ScanBest(row, start, ActionCount);
    forall j | 0 <= j < ActionCount
      ensures row[j] <= row[b]
    {
      assert ScanAt(start, ScanPos(start, j)) == j;
    }
  }

  /** The greedy loop of `SelectAction`. */
  method GreedyAction(qValues: seq<real>, start: int) returns (bestAction: int)
    requires |qValues| == ActionCount && 0 <= start < ActionCount
    ensures bestAction == ScanBest(qValues, start, ActionCount)
    ensures IsGreedyChoice(qValues, start, bestAction)
  {
    bestAction := 0;
    var maxQ := 0.0;
    var i := 0;
    while i < ActionCount
      invariant 0 <= i <= ActionCount
      invariant i > 0 ==> bestAction == ScanBest(qValues, start, i) && maxQ == qValues[bestAction]
    {
      var idx := (start + i) % ActionCount;
      if i == 0 || qValues[idx] > maxQ {
        maxQ := qValues[idx];
        bestAction := idx;
      }
      i := i + 1;
    }
    ScanBestIsGreedy(qValues, start);
  }

  // ---------------------------------------------------------------------------
  // The Q-table and the Bellman update

  /** Every row of the table holds one value per action. */
  predicate WellFormed(t: map<State, seq<real>>)
  {
    forall s :: s in t ==> |t[s]| == ActionCount
  }

  const ZeroRow: seq<real> := [0.0, 0.0, 0.0, 0.0, 0.0]

  /** Go's map read: an absent state reads as the zero array. */
  function RowOf(t: map<State, seq<real>>, s: State): (row: seq<real>)
    requires WellFormed(t)
    ensures |row| == ActionCount
    ensures s in t ==> row == t[s]
    ensures s !in t ==> forall a :: 0 <= a < ActionCount ==> row[a] == 0.0
  {
    if s in t then t[s] else ZeroRow
  }

  /** The largest value of a non-empty row, by the scan with strict `>`. */
  function RowMax(row: seq<real>): (m: real)
    requires |row| > 0
    ensures m in row
    ensures forall i :: 0 <= i < |row| ==> row[i] <= m
  {
    if |row| == 1 then row[0]
    else
      var m := RowMax(row[..|row| - 1]);
      assert forall i :: 0 <= i < |row| - 1 ==> row[..|row| - 1][i] == row[i];
      if row[|row| - 1] > m then row[|row| - 1] else m
  }

  /** The best value of the next state, 0 when the next state has no row yet. */
  function MaxNext(t: map<State, seq<real>>, s: State): (m: real)
    requires WellFormed(t)
    ensures s !in t ==> m == 0.0
    ensures s in t ==> m in t[s] && forall a :: 0 <= a < ActionCount ==> t[s][a] <= m
  {
    if s in t then RowMax(t[s]) else 0.0
  }

  /** Q(s,a) + Alpha * (R + Gamma * maxQ(s') - Q(s,a)). */
  function Bellman(q: real, reward: real, maxNext: real): real
  {
    q + Alpha * (reward + Gamma * maxNext - q)
  }

  /** The table after `Learn`: only `t[state][action]` changes, the next state's best
      value is read from the table before the write, and `state` becomes a key. */
  function Learned(t: map<State, seq<real>>, state: State, action: int, reward: real,
                   nextState: State): (t': map<State, seq<real>>)
    requires WellFormed(t) && 0 <= action < ActionCount
    ensures WellFormed(t')
    ensures t'.Keys == t.Keys + {state}
    ensures forall s :: s in t && s != state ==> t'[s] == t[s]
    ensures forall a :: 0 <= a < ActionCount && a != action ==> t'[state][a] == RowOf(t, state)[a]
    ensures t'[state][action] == Bellman(RowOf(t, state)[action], reward, MaxNext(t, nextState))
  {
    var row := RowOf(t, state);
    t[state := row[action := Bellman(row[action], reward, MaxNext(t, nextState))]]
  }

  /** A first visit to a state whose successor is unknown stores Alpha * reward. */
  lemma LearnedFirstVisit(t: map<State, seq<real>>, state: State, action: int, reward: real,
                          nextState: State)
    requires WellFormed(t) && 0 <= action < ActionCount
    requires state !in t && nextState !in t
    ensures Learned(t, state, action, reward, nextState)[state][action] == 0.01 * reward
  {
  }

  /** A self-transition reads the best value of the row as it was before the write: on
      a first visit it stores Alpha * reward, not a value that includes the new entry. */
  lemma LearnedSelfLoopFirstVisit(t: map<State, seq<real>>, state: State, action: int, reward: real)
    requires WellFormed(t) && 0 <= action < ActionCount && state !in t
    ensures Learned(t, state, action, reward, state)[state][action] == 0.01 * reward
  {
  }

  /** The decision of `SelectAction` once epsilon has decayed to `eps`: explore with
      `pick` when the coin falls below epsilon or the state has no row, otherwise take
      the greedy choice of the scan from `start`. */
  function EpsilonGreedy(t: map<State, seq<real>>, eps: real, state: State, coin: real,
                         pick: int, start: int): (a: int)
    requires WellFormed(t) && 0 <= pick < ActionCount && 0 <= start < ActionCount
    ensures 0 <= a < ActionCount
    ensures coin < eps || state !in t ==> a == pick
    ensures coin >= eps && state in t ==> IsGreedyChoice(t[state], start, a)
  {
    if coin < eps then pick
    else if state !in t then pick
    else
      ScanBestIsGreedy(t[state], start);
      ScanBest(t[state], start, ActionCount)
  }

  // ---------------------------------------------------------------------------
  // The agent

  class AgentQTable {
    var qTable: map<State, seq<real>>
    var epsilon: real

    ghost predicate Valid()
      reads this
    {
      WellFormed(qTable) && MinEpsilon <= epsilon <= 1.0
    }

    /** `NewAgent` with the package's initial `Epsilon = 1.0`. */
    constructor ()
      ensures Valid()
      ensures qTable == map[] && epsilon == 1.0
    {
      qTable := map[];
      epsilon := 1.0;
    }

    /** Epsilon-greedy choice. `coin` is the `rand.Float64()` draw; `pick` is the
        `rand.Intn(5)` draw of the exploring branches and `start` that of the greedy one. */
    method SelectAction(state: State, coin: real, pick: int, start: int) returns (action: int)
      requires Valid()
      requires 0.0 <= coin < 1.0 && 0 <= pick < ActionCount && 0 <= start < ActionCount
      modifies this
      ensures Valid()
      ensures epsilon == DecayedEpsilon(old(epsilon)) && epsilon <= old(epsilon)
      ensures qTable == old(qTable)
      ensures 0 <= action < ActionCount
      ensures coin < epsilon ==> action == pick
      ensures coin >= epsilon && state !in qTable ==> action == pick
      ensures coin >= epsilon && state in qTable ==> IsGreedyChoice(qTable[state], start, action)
      ensures action == EpsilonGreedy(qTable, epsilon, state, coin, pick, start)
    {
      epsilon := MaxReal(epsilon * Decay, MinEpsilon);

      if coin < epsilon {
        return pick;
      }

      if state !in qTable {
        return pick;
      }
      var qValues := qTable[state];
      action := GreedyAction(qValues, start);
    }

    /** The one-entry Bellman update. */
    method Learn(state: State, action: int, reward: real, nextState: State)
      requires Valid() && 0 <= action < ActionCount
      modifies this
      ensures Valid()
      ensures qTable == Learned(old(qTable), state, action, reward, nextState)
      ensures epsilon == old(epsilon)
    {
      var qValues := if state in qTable then qTable[state] else ZeroRow;
      var currentQ := qValues[action];

      var maxNextQ := 0.0;
      if nextState in qTable {
        var nextQValues := qTable[nextState];
        var i := 0;
        while i < |nextQValues|
          invariant 0 <= i <= |nextQValues|
          invariant i > 0 ==> maxNextQ == RowMax(nextQValues[..i])
        {
          if i == 0 || nextQValues[i] > maxNextQ {
            maxNextQ := nextQValues[i];
          }
          assert nextQValues[..i + 1][..i] == nextQValues[..i];
          i := i + 1;
        }
        assert nextQValues[..|nextQValues|] == nextQValues;
      }

      var newQ := currentQ + Alpha * (reward + Gamma * maxNextQ - currentQ);
      qValues := qValues[action := newQ];
      qTable := qTable[state := qValues];
    }
  }

  // ---------------------------------------------------------------------------
  // Reward

  /** `CalculateReward` on the fields it reads: -100 on a crash, else twice the speed
      along the matched waypoint's tangent, less 5 on a gravel cell. */
  function Reward(crashed: bool, pos: Vec2, vel: Vec2, mesh: TrackMesh, cells: seq<seq<Cell>>): real
  {
    if crashed then -100.0
    else
      var wp := Closest(mesh, pos).0;
      var reward := Dot(vel, Tangent(wp.normal)) * 2.0;
      if KindAt(cells, pos) == Gravel then reward - 5.0 else reward
  }

  lemma RewardOfCrash(pos: Vec2, vel: Vec2, mesh: TrackMesh, cells: seq<seq<Cell>>)
    ensures Reward(true, pos, vel, mesh, cells) == -100.0
  {
  }

  /** Without a crash, the reward is twice the speed along the track, minus exactly 5
      on gravel. */
  lemma RewardOnTrack(pos: Vec2, vel: Vec2, mesh: TrackMesh, cells: seq<seq<Cell>>)
    ensures var along := Dot(vel, Tangent(Closest(mesh, pos).0.normal));
      Reward(false, pos, vel, mesh, cells) == 2.0 * along - (if KindAt(cells, pos) == Gravel then 5.0 else 0.0)
  {
  }

  /** Gravel under the same position costs exactly 5 against any other kind of cell. */
  lemma GravelPenalty(pos: Vec2, vel: Vec2, mesh: TrackMesh, gravel: seq<seq<Cell>>, other: seq<seq<Cell>>)
    requires KindAt(gravel, pos) == Gravel && KindAt(other, pos) != Gravel
    ensures Reward(false, pos, vel, mesh, gravel) == Reward(false, pos, vel, mesh, other) - 5.0
  {
  }

  /** Going faster along the track pays: the reward grows by twice the extra velocity
      along the tangent. */
  lemma RewardProgress(pos: Vec2, v: Vec2, w: Vec2, mesh: TrackMesh, cells: seq<seq<Cell>>)
    ensures var t := Tangent(Closest(mesh, pos).0.normal);
      Reward(false, pos, v, mesh, cells) - Reward(false, pos, w, mesh, cells) == 2.0 * Dot(Sub(v, w), t)
  {
    var t := Tangent(Closest(mesh, pos).0.normal);
    calc {
      Dot(Sub(v, w), t);
      (v.x - w.x) * t.x + (v.y - w.y) * t.y;
      (v.x * t.x - w.x * t.x) + (v.y * t.y - w.y * t.y);
      Dot(v, t) - Dot(w, t);
    }
  }

  method CalculateReward(c: Car, grid: Grid, mesh: TrackMesh) returns (reward: real)
    requires grid.Valid()
    ensures reward == Reward(c.crashed, c.position, c.velocity, mesh, grid.cells)
  {
    if c.crashed {
      return -100.0;
    }
    var pos := c.position;
    var vel := c.velocity;

    var wp, _ := GetClosestWaypoint(mesh, pos);
    assert wp == Closest(mesh, pos).0;
    var tangentX := wp.normal.y;
    var tangentY := -wp.normal.x;
    var speedAlongTrack := vel.x * tangentX + vel.y * tangentY;
    assert speedAlongTrack == Dot(vel, Tangent(wp.normal));
    reward := speedAlongTrack * 2.0;

    var cellX := Trunc(pos.x);
    var cellY := Trunc(pos.y);
    var cell := grid.Get(cellX, cellY);
    assert cell.kind == KindAt(grid.cells, pos);

    if cell.kind == Gravel {
      reward := reward - 5.0;
    }
    assert reward == Reward(false, pos, vel, mesh, grid.cells);
  }
}

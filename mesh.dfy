/** The centre-line mesh and the Frenet query on it (internal/track/mesh.go). A mesh
    is a value: neither query can change it. */
module Mesh {
  import opened Vector

  datatype Waypoint = Waypoint(id: int, position: Vec2, normal: Vec2, width: real, distance: real)

  /** Go's zero `Waypoint{}`. */
  const ZeroWaypoint := Waypoint(0, Zero, Zero, 0.0, 0.0)

  datatype TrackMesh = TrackMesh(waypoints: seq<Waypoint>, totalLen: real)

  /** `dx*dx + dy*dy` between a query point and a waypoint. */
  function DistSq(pos: Vec2, wp: Waypoint): real
  {
    LenSq(Sub(pos, wp.position))
  }

  /** Waypoint `i` is nearest to `pos`, and strictly nearer than every earlier one. */
  ghost predicate IsClosest(wps: seq<Waypoint>, pos: Vec2, i: int)
  {
    && 0 <= i < |wps|
    && (forall j :: 0 <= j < |wps| ==> DistSq(pos, wps[i]) <= DistSq(pos, wps[j]))
    && (forall j :: 0 <= j < i ==> DistSq(pos, wps[i]) < DistSq(pos, wps[j]))
  }

  /** The index the linear scan holds after the first `k` waypoints: -1 before any, and
      afterwards replaced only by a strictly nearer waypoint. The source's initial
      `math.MaxFloat64` bound is read here as "the first waypoint is always taken". */
  function ClosestUpTo(wps: seq<Waypoint>, pos: Vec2, k: nat): (c: int)
    requires k <= |wps|
    ensures k == 0 <==> c == -1
    ensures k > 0 ==> IsClosest(wps[..k], pos, c)
  {
    if k == 0 then -1
    else
      var c := ClosestUpTo(wps, pos, k - 1);
      if c == -1 || DistSq(pos, wps[k - 1]) < DistSq(pos, wps[c]) then k - 1 else c
  }

  /** At most one index is the closest one. */
  lemma ClosestUnique(wps: seq<Waypoint>, pos: Vec2, i: int, j: int)
    requires IsClosest(wps, pos, i) && IsClosest(wps, pos, j)
    ensures i == j
  {
    assert DistSq(pos, wps[i]) == DistSq(pos, wps[j]);
  }

  /** What `GetClosestWaypoint` answers: the zero waypoint and -1 for an empty mesh. */
  function Closest(mesh: TrackMesh, pos: Vec2): (Waypoint, int)
  {
    var c := ClosestUpTo(mesh.waypoints, pos, |mesh.waypoints|);
    if c == -1 then (ZeroWaypoint, -1) else (mesh.waypoints[c], c)
  }

  /** The specification of `Closest`: empty mesh, or the unique closest index. */
  lemma ClosestSpec(mesh: TrackMesh, pos: Vec2)
    ensures var (wp, idx) := Closest(mesh, pos);
      && (|mesh.waypoints| == 0 ==> wp == ZeroWaypoint && idx == -1)
      && (|mesh.waypoints| > 0 ==> IsClosest(mesh.waypoints, pos, idx) && wp == mesh.waypoints[idx])
  {
    var wps := mesh.waypoints;
    assert wps[..|wps|] == wps;
  }

  method GetClosestWaypoint(mesh: TrackMesh, pos: Vec2) returns (wp: Waypoint, idx: int)
    ensures (wp, idx) == Closest(mesh, pos)
    ensures |mesh.waypoints| == 0 ==> wp == ZeroWaypoint && idx == -1
    ensures |mesh.waypoints| > 0 ==> IsClosest(mesh.waypoints, pos, idx) && wp == mesh.waypoints[idx]
  {
    var wps := mesh.waypoints;
    var minDistSq := 0.0;
    idx := -1;
    var i := 0;
    while i < |wps|
      invariant 0 <= i <= |wps|
      invariant idx == ClosestUpTo(wps, pos, i)
      invariant idx != -1 ==> minDistSq == DistSq(pos, wps[idx])
    {
      var dx := pos.x - wps[i].position.x;
      var dy := pos.y - wps[i].position.y;
      var distSq := Square(dx) + Square(dy);
      if idx == -1 || distSq < minDistSq {
        minDistSq := distSq;
        idx := i;
      }
      i := i + 1;
    }
    ClosestSpec(mesh, pos);
    if idx == -1 {
      return ZeroWaypoint, -1;
    }
    return wps[idx], idx;
  }

  /** The Frenet coordinates `(s, d)` of `pos`: the matched waypoint's stored distance,
      and the projection of the offset from it on its normal. */
  function Frenet(mesh: TrackMesh, pos: Vec2): (real, real)
  {
    var wp := Closest(mesh, pos).0;
    (wp.distance, Dot(Sub(pos, wp.position), wp.normal))
  }

  method WorldToFrenet(mesh: TrackMesh, pos: Vec2) returns (s: real, d: real)
    ensures (s, d) == Frenet(mesh, pos)
    ensures |mesh.waypoints| == 0 ==> s == 0.0 && d == Dot(pos, Zero)
    ensures |mesh.waypoints| > 0 ==>
      (exists i :: && IsClosest(mesh.waypoints, pos, i)
                   && s == mesh.waypoints[i].distance
                   && d == Dot(Sub(pos, mesh.waypoints[i].position), mesh.waypoints[i].normal))
  {
    var wp, idx := GetClosestWaypoint(mesh, pos);
    var dx := pos.x - wp.position.x;
    var dy := pos.y - wp.position.y;
    d := dx * wp.normal.x + dy * wp.normal.y;
    s := wp.distance;
    assert wp == Closest(mesh, pos).0;
    assert s == Frenet(mesh, pos).0;
    assert d == Dot(Sub(pos, wp.position), wp.normal);
    if idx != -1 {
      assert IsClosest(mesh.waypoints, pos, idx);
    }
  }

  /** The matched waypoint is no farther from `pos` than any waypoint of the mesh. */
  lemma ClosestNoFarther(mesh: TrackMesh, pos: Vec2, i: int)
    requires 0 <= i < |mesh.waypoints|
    ensures DistSq(pos, Closest(mesh, pos).0) <= DistSq(pos, mesh.waypoints[i])
  {
    ClosestSpec(mesh, pos);
  }

  lemma DistSqSelf(wp: Waypoint)
    ensures DistSq(wp.position, wp) == 0.0
  {
    assert Sub(wp.position, wp.position) == Zero;
    LenSqZero(Zero);
  }

  /** A query at a waypoint's position is matched to a waypoint at distance zero. */
  lemma MatchAtWaypoint(mesh: TrackMesh, i: int)
    requires 0 <= i < |mesh.waypoints|
    ensures DistSq(mesh.waypoints[i].position, Closest(mesh, mesh.waypoints[i].position).0) <= 0.0
  {
    ClosestNoFarther(mesh, mesh.waypoints[i].position, i);
    DistSqSelf(mesh.waypoints[i]);
  }

  /** The lateral offset from a waypoint at distance zero is zero. */
  lemma OffsetAtDistanceZero(pos: Vec2, wp: Waypoint)
    requires DistSq(pos, wp) <= 0.0
    ensures Dot(Sub(pos, wp.position), wp.normal) == 0.0
  {
    SamePoint(pos, wp.position);
    assert Sub(pos, wp.position) == Zero;
  }

  /** A query exactly at a waypoint's position has lateral offset 0, whichever waypoint
      the scan settles on. */
  lemma OffsetZeroAtWaypoint(mesh: TrackMesh, i: int)
    requires 0 <= i < |mesh.waypoints|
    ensures Frenet(mesh, mesh.waypoints[i].position).1 == 0.0
  {
    var pos := mesh.waypoints[i].position;
    MatchAtWaypoint(mesh, i);
    OffsetAtDistanceZero(pos, Closest(mesh, pos).0);
  }
}

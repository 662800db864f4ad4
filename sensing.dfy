/**
  Sensor readings and the collision test of Simulator.init and
  Simulator.update: scans over the obstacle list, in list order.
 */
module Sensing {
  import opened Wrappers
  import opened Geometry

  /** Squared distance from a ray's origin to a point. */
  function SquaredDistance(ray: Ray, p: Point): (d: real)
    ensures d >= 0.0
    ensures p == Point(ray.x1, ray.y1) ==> d == 0.0
  {
    (ray.x1 - p.x) * (ray.x1 - p.x) + (ray.y1 - p.y) * (ray.y1 - p.y)
  }

  /**
    What the scan of one sensor leaves in `minDistanceFound`: it starts at
    `saturated` and every obstacle the ray hits overwrites it with the squared
    distance to the hit, so the last obstacle hit in list order wins.
   */
  function LastHitDistance(hit: (Ray, Line) -> Option<Point>, ray: Ray, obstacles: seq<Line>, saturated: real): (d: real)
    ensures saturated >= 0.0 ==> d >= 0.0
  {
    if obstacles == [] then saturated
    else
      var n := |obstacles| - 1;
      match hit(ray, obstacles[n])
      case Some(p) => SquaredDistance(ray, p)
      case None => LastHitDistance(hit, ray, obstacles[..n], saturated)
  }

  /** Obstacle `k` is hit by the ray and no obstacle after it in the list is. */
  ghost predicate IsLastHit(hit: (Ray, Line) -> Option<Point>, ray: Ray, obstacles: seq<Line>, k: int)
  {
    && 0 <= k < |obstacles|
    && hit(ray, obstacles[k]).Some?
    && forall j :: k < j < |obstacles| ==> hit(ray, obstacles[j]).None?
  }

  /** A ray that hits nothing leaves the scan at its starting value. */
  lemma {:induction false} LastHitDistanceSaturates(hit: (Ray, Line) -> Option<Point>, ray: Ray, obstacles: seq<Line>, saturated: real)
    requires forall k :: 0 <= k < |obstacles| ==> hit(ray, obstacles[k]).None?
    ensures LastHitDistance(hit, ray, obstacles, saturated) == saturated
  {
    if obstacles != [] {
      var prefix := obstacles[..|obstacles| - 1];
      assert forall k :: 0 <= k < |prefix| ==> prefix[k] == obstacles[k];
      LastHitDistanceSaturates(hit, ray, prefix, saturated);
    }
  }

  /** Otherwise the scan reports the squared distance of the last obstacle hit. */
  lemma {:induction false} LastHitDistanceIsLastHit(hit: (Ray, Line) -> Option<Point>, ray: Ray, obstacles: seq<Line>, saturated: real, k: int)
    requires IsLastHit(hit, ray, obstacles, k)
    ensures LastHitDistance(hit, ray, obstacles, saturated) == SquaredDistance(ray, hit(ray, obstacles[k]).value)
  {
    var n := |obstacles| - 1;
    if k < n {
      var prefix := obstacles[..n];
      assert hit(ray, obstacles[n]).None?;
      assert forall j :: 0 <= j < |prefix| ==> prefix[j] == obstacles[j];
      LastHitDistanceIsLastHit(hit, ray, prefix, saturated, k);
    }
  }

  /** If the starting value and every hit are within `bound`, so is the scan's result. */
  lemma {:induction false} LastHitDistanceWithin(hit: (Ray, Line) -> Option<Point>, ray: Ray, obstacles: seq<Line>, saturated: real, bound: real)
    requires 0.0 <= saturated <= bound
    requires forall k :: 0 <= k < |obstacles| && hit(ray, obstacles[k]).Some? ==>
               SquaredDistance(ray, hit(ray, obstacles[k]).value) <= bound
    ensures 0.0 <= LastHitDistance(hit, ray, obstacles, saturated) <= bound
  {
    if obstacles != [] {
      var n := |obstacles| - 1;
      var prefix := obstacles[..n];
      assert forall k :: 0 <= k < |prefix| ==> prefix[k] == obstacles[k];
      LastHitDistanceWithin(hit, ray, prefix, saturated, bound);
    }
  }

  function Min(a: real, b: real): real
  {
    if a <= b then a else b
  }

  /**
    The reading a nearest-obstacle sensor would take: the least of `saturated`
    and the squared distances of all hits.
   */
  function NearestHitDistance(hit: (Ray, Line) -> Option<Point>, ray: Ray, obstacles: seq<Line>, saturated: real): real
  {
    if obstacles == [] then saturated
    else
      var n := |obstacles| - 1;
      var rest := NearestHitDistance(hit, ray, obstacles[..n], saturated);
      match hit(ray, obstacles[n])
      case Some(p) => Min(SquaredDistance(ray, p), rest)
      case None => rest
  }

  /** Keeping the last hit never reports an obstacle nearer than the nearest one. */
  lemma {:induction false} LastHitNotNearerThanNearest(hit: (Ray, Line) -> Option<Point>, ray: Ray, obstacles: seq<Line>, saturated: real)
    ensures NearestHitDistance(hit, ray, obstacles, saturated) <= LastHitDistance(hit, ray, obstacles, saturated)
    ensures NearestHitDistance(hit, ray, obstacles, saturated) <= saturated
  {
    if obstacles != [] {
      LastHitNotNearerThanNearest(hit, ray, obstacles[..|obstacles| - 1], saturated);
    }
  }

  /**
    With two obstacles on the ray, the farther one listed last, the scan
    reports the farther one while the nearest distance is the other.
   */
  lemma LastHitCanBeFarther()
    ensures var ray := Ray(0.0, 0.0, 10.0, 0.0);
            var near, far := Line(1.0, -1.0, 1.0, 1.0), Line(2.0, -1.0, 2.0, 1.0);
            var hit := (r: Ray, l: Line) => Some(Point(l.x1, 0.0));
            LastHitDistance(hit, ray, [near, far], 100.0) == 4.0 &&
            NearestHitDistance(hit, ray, [near, far], 100.0) == 1.0
  {
    var ray := Ray(0.0, 0.0, 10.0, 0.0);
    var near, far := Line(1.0, -1.0, 1.0, 1.0), Line(2.0, -1.0, 2.0, 1.0);
    var hit := (r: Ray, l: Line) => Some(Point(l.x1, 0.0));
    assert [near, far][..1] == [near];
    assert [near][..0] == [];
    assert NearestHitDistance(hit, ray, [near], 100.0) == 1.0;
  }

  /** The normalised reading of one sensor: the scan's result over the saturated value. */
  function Reading(hit: (Ray, Line) -> Option<Point>, ray: Ray, obstacles: seq<Line>, maxDistance: real): (value: real)
    requires maxDistance > 0.0
    ensures value >= 0.0
  {
    LastHitDistance(hit, ray, obstacles, maxDistance) / maxDistance
  }

  /** A sensor that hits nothing reads exactly 1. */
  lemma ReadingWhenNothingHit(hit: (Ray, Line) -> Option<Point>, ray: Ray, obstacles: seq<Line>, maxDistance: real)
    requires maxDistance > 0.0
    requires forall k :: 0 <= k < |obstacles| ==> hit(ray, obstacles[k]).None?
    ensures Reading(hit, ray, obstacles, maxDistance) == 1.0
  {
    LastHitDistanceSaturates(hit, ray, obstacles, maxDistance);
  }

  /** A sensor that hits something reads the squared distance of its last hit over the saturated value. */
  lemma ReadingOfLastHit(hit: (Ray, Line) -> Option<Point>, ray: Ray, obstacles: seq<Line>, maxDistance: real, k: int)
    requires maxDistance > 0.0
    requires IsLastHit(hit, ray, obstacles, k)
    ensures Reading(hit, ray, obstacles, maxDistance) == SquaredDistance(ray, hit(ray, obstacles[k]).value) / maxDistance
  {
    LastHitDistanceIsLastHit(hit, ray, obstacles, maxDistance, k);
  }

  /** When every hit lies within the sensor's reach, the reading lies in [0, 1]. */
  lemma ReadingInUnitRange(hit: (Ray, Line) -> Option<Point>, ray: Ray, obstacles: seq<Line>, maxDistance: real)
    requires maxDistance > 0.0
    requires forall k :: 0 <= k < |obstacles| && hit(ray, obstacles[k]).Some? ==>
               SquaredDistance(ray, hit(ray, obstacles[k]).value) <= maxDistance
    ensures 0.0 <= Reading(hit, ray, obstacles, maxDistance) <= 1.0
  {
    var d := LastHitDistance(hit, ray, obstacles, maxDistance);
    LastHitDistanceWithin(hit, ray, obstacles, maxDistance, maxDistance);
    RatioInUnitRange(d, maxDistance);
  }

  /** A ratio of a non-negative real to a larger positive one lies in [0, 1]. */
  lemma RatioInUnitRange(d: real, m: real)
    requires 0.0 <= d <= m && m > 0.0
    ensures 0.0 <= d / m <= 1.0
  {
    var q := d / m;
    assert q * m == d;
    if q > 1.0 {
      calc {
        d;
        == q * m;
        == m + (q - 1.0) * m;
        > m;
      }
    }
  }

  /** The inner loop of the sensor refresh: scans the obstacles in list order. */
  method ScanObstacles(hit: (Ray, Line) -> Option<Point>, ray: Ray, obstacles: seq<Line>, saturated: real)
    returns (distance: real)
    ensures distance == LastHitDistance(hit, ray, obstacles, saturated)
  {
    distance := saturated;
    for k := 0 to |obstacles|
      invariant distance == LastHitDistance(hit, ray, obstacles[..k], saturated)
    {
      assert obstacles[..k + 1][..k] == obstacles[..k];
      match hit(ray, obstacles[k]) {
        case Some(p) => distance := SquaredDistance(ray, p);
        case None =>
      }
    }
    assert obstacles[..|obstacles|] == obstacles;
  }

  /** Some obstacle touches the vehicle at `pose`. */
  ghost predicate Collides(touches: (Line, Pose) -> bool, obstacles: seq<Line>, pose: Pose)
  {
    exists k :: 0 <= k < |obstacles| && touches(obstacles[k], pose)
  }

  /** The collision loop of update: stops at the first obstacle that touches the vehicle. */
  method DetectCollision(touches: (Line, Pose) -> bool, obstacles: seq<Line>, pose: Pose)
    returns (collided: bool)
    ensures collided <==> Collides(touches, obstacles, pose)
  {
    collided := false;
    var k := 0;
    while k < |obstacles|
      invariant 0 <= k <= |obstacles|
      invariant forall j :: 0 <= j < k ==> !touches(obstacles[j], pose)
    {
      if touches(obstacles[k], pose) {
        collided := true;
        break;
      }
      k := k + 1;
    }
  }
}

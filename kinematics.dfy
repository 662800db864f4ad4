/**
  One step of differential-drive motion (Simulator.update, the block that
  computes newX, newY and newTheta). `r` is half the distance between the
  wheels, `sl` and `sr` the left and right wheel speeds, `delta` the step.
 */
module Kinematics {
  import opened Geometry

  /**
    The curvature radius exactly as the source computes it: the generic
    formula, then the opposite-speeds override, then the stopped-wheel
    override. Both overrides can never fire together when the speeds differ.
   */
  function CurvatureRadiusAsWritten(r: real, sl: real, sr: real): (radius: real)
    requires sl != sr
    ensures sl == 0.0 || sr == 0.0 ==> radius == r
    ensures sl != 0.0 && sr != 0.0 && sr == -sl ==> radius == 0.0
    ensures sl != 0.0 && sr != 0.0 && sr != -sl ==> radius * (sr - sl) == r * (sl + sr)
  {
    var generic := r * (sl + sr) / (sr - sl);
    var afterOpposite := if sr == -sl then 0.0 else generic;
    if sr == 0.0 || sl == 0.0 then r else afterOpposite
  }

  /**
    The curvature radius the vehicle's geometry calls for: the signed distance
    from the vehicle's centre to the instantaneous centre of curvature (ICC),
    positive to the left of the heading. It is the source's generic formula;
    the source's two overrides agree with it except when the right wheel is
    stopped, where the source's value is wrong (see CurvatureRadiusAsWritten).
   */
  function CurvatureRadius(r: real, sl: real, sr: real): (radius: real)
    requires sl != sr
    ensures radius * (sr - sl) == r * (sl + sr)
    ensures sr == -sl ==> radius == 0.0
    ensures sl == 0.0 ==> radius == r
    ensures sr == 0.0 ==> radius == -r
  {
    r * (sl + sr) / (sr - sl)
  }

  /** Angular velocity of the vehicle about the ICC. */
  function AngularVelocity(r: real, sl: real, sr: real): (omega: real)
    requires r > 0.0
    ensures omega * (2.0 * r) == sr - sl
    ensures omega == 0.0 <==> sl == sr
  {
    (sr - sl) / (2.0 * r)
  }

  /**
    The vehicle turns as a rigid body about the ICC: each wheel's speed is the
    angular velocity times its signed distance from the ICC, the left wheel
    sitting at distance r to the left of the centre and the right wheel at
    distance r to the right. The corrected radius makes both wheels agree.
   */
  lemma WheelsTurnAboutCentre(r: real, sl: real, sr: real)
    requires r > 0.0 && sl != sr
    ensures AngularVelocity(r, sl, sr) * (CurvatureRadius(r, sl, sr) - r) == sl
    ensures AngularVelocity(r, sl, sr) * (CurvatureRadius(r, sl, sr) + r) == sr
  {
  }

  /**
    The source's radius with the right wheel stopped puts the ICC at the left
    wheel, which is the one being driven: with r = 1, left speed 1 and right
    speed 0, the rigid-body wheel speeds come out as 0 on the left and -1 on
    the right, so the vehicle backs away instead of pivoting forward.
   */
  lemma StoppedRightWheelAsWritten()
    ensures CurvatureRadiusAsWritten(1.0, 1.0, 0.0) == 1.0
    ensures CurvatureRadius(1.0, 1.0, 0.0) == -1.0
    ensures AngularVelocity(1.0, 1.0, 0.0) * (CurvatureRadiusAsWritten(1.0, 1.0, 0.0) - 1.0) == 0.0
    ensures AngularVelocity(1.0, 1.0, 0.0) * (CurvatureRadiusAsWritten(1.0, 1.0, 0.0) + 1.0) == -1.0
  {
  }

  /**
    The pose after one step of length `delta`: straight ahead when the wheel
    speeds are equal, otherwise a rotation of the pose by omega * delta about
    the ICC. The new heading is passed through the heading remainder. The ICC
    is placed with the radius as the source computes it, overrides included,
    so a stopped right wheel turns the vehicle about its left wheel.
   */
  function Step(t: Trig, p: Pose, r: real, sl: real, sr: real, delta: real): (q: Pose)
    requires r > 0.0
    ensures sl == sr ==> q.theta == p.theta
    ensures sl == sr ==> q.x == p.x + delta * sl * t.cos(p.theta)
    ensures sl == sr ==> q.y == p.y + delta * sl * t.sin(p.theta)
    ensures sl != sr ==> q.theta == t.headingRemainder(p.theta + AngularVelocity(r, sl, sr) * delta)
    ensures sl != sr && CurvatureRadiusAsWritten(r, sl, sr) == 0.0 ==> q.x == p.x && q.y == p.y
  {
    if sl == sr then
      var speed := (sl + sr) / 2.0;
      assert speed == sl;
      Pose(p.x + delta * speed * t.cos(p.theta), p.y + delta * speed * t.sin(p.theta), p.theta)
    else
      var radius := CurvatureRadiusAsWritten(r, sl, sr);
      var iccX := p.x - radius * t.sin(p.theta);
      var iccY := p.y + radius * t.cos(p.theta);
      var omega := AngularVelocity(r, sl, sr);
      var turn := omega * delta;
      RotationAboutItself(t.cos(turn), t.sin(turn), p.x, p.y, iccX, iccY);
      Pose(t.cos(turn) * (p.x - iccX) - t.sin(turn) * (p.y - iccY) + iccX,
           t.sin(turn) * (p.x - iccX) + t.cos(turn) * (p.y - iccY) + iccY,
           t.headingRemainder(p.theta + AngularVelocity(r, sl, sr) * delta))
  }

  /** Rotating a point about itself leaves it where it is, whatever the rotation. */
  lemma RotationAboutItself(c: real, s: real, x: real, y: real, cx: real, cy: real)
    ensures cx == x && cy == y ==> c * (x - cx) - s * (y - cy) + cx == x
    ensures cx == x && cy == y ==> s * (x - cx) + c * (y - cy) + cy == y
  {
  }

  /** Wheels turning at opposite speeds spin the vehicle on the spot. */
  lemma OppositeSpeedsSpinInPlace(t: Trig, p: Pose, r: real, sl: real, delta: real)
    requires r > 0.0 && sl != 0.0
    ensures Step(t, p, r, sl, -sl, delta).x == p.x
    ensures Step(t, p, r, sl, -sl, delta).y == p.y
    ensures Step(t, p, r, sl, -sl, delta).theta == t.headingRemainder(p.theta - (sl / r) * delta)
  {
    var sr := -sl;
    var q := Step(t, p, r, sl, sr, delta);
    assert CurvatureRadiusAsWritten(r, sl, sr) == 0.0;
    var turned := p.theta + AngularVelocity(r, sl, sr) * delta;
    assert q.theta == t.headingRemainder(turned);
    SpinRate(r, sl, AngularVelocity(r, sl, sr));
    assert turned == p.theta - (sl / r) * delta;
    HeadingOfEqualAngles(t, turned, p.theta - (sl / r) * delta);
  }

  /** With opposite wheel speeds the vehicle turns at -sl/r. */
  lemma SpinRate(r: real, sl: real, omega: real)
    requires r > 0.0 && omega * (2.0 * r) == -sl - sl
    ensures omega == -(sl / r)
  {
    assert omega * r == -(sl / r) * r by {
      assert (sl / r) * r == sl;
    }
    CancelFactor(omega, -(sl / r), r);
  }

  lemma HeadingOfEqualAngles(t: Trig, a: real, b: real)
    requires a == b
    ensures t.headingRemainder(a) == t.headingRemainder(b)
  {
  }

  lemma CancelFactor(a: real, b: real, c: real)
    requires c != 0.0 && a * c == b * c
    ensures a == b
  {
    assert (a - b) * c == 0.0;
  }
}

/**
  The geometric vocabulary of the simulation. Coordinates and angles are
  doubles in Simulator.java; here they are mathematical reals.
 */
module Geometry {
  import opened Wrappers

  /** Position and heading (radians) of the vehicle. */
  datatype Pose = Pose(x: real, y: real, theta: real)

  datatype Point = Point(x: real, y: real)

  /** An obstacle: a line segment between two end points. */
  datatype Line = Line(x1: real, y1: real, x2: real, y2: real)

  /** A sensor ray as the vehicle places it, from its origin (x1, y1) to its far end (x2, y2). */
  datatype Ray = Ray(x1: real, y1: real, x2: real, y2: real)

  /**
    The library functions the kinematics needs. They are uninterpreted:
    `sin` and `cos` stand for Math.sin and Math.cos, and `headingRemainder`
    for the double remainder `theta % (2 * Math.PI)`, which keeps the sign of
    its dividend. Nothing is assumed about any of them.
   */
  datatype Trig = Trig(sin: real -> real, cos: real -> real, headingRemainder: real -> real)

  /**
    The collaborators whose source is not part of this model, as functions:
    `placeSensor(pose, offset)` is where Vehicle.updateSensors puts the ray of
    the sensor with angular offset `offset`; `sensorHit(ray, line)` is
    Sensor.intersects together with the intersection point it records;
    `touches(line, pose)` is Line.intersects(Vehicle) for a vehicle at `pose`.
   */
  datatype World = World(
    trig: Trig,
    placeSensor: (Pose, real) -> Ray,
    sensorHit: (Ray, Line) -> Option<Point>,
    touches: (Line, Pose) -> bool)
}

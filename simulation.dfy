/**
  The simulator of one individual (Simulator.java): a vehicle driven by a
  network through an environment of obstacles, recording which cells of the
  environment's grid it visits, and the fitness that coverage earns.
 */
module Simulation {
  import opened Wrappers
  import opened Geometry
  import Kinematics
  import Sensing
  import Coverage

  /** The number of sensors the simulator equips its vehicle with. */
  const SensorCount: nat := 12

  /** Simulated seconds per update. */
  const UpdateInterval: real := 0.005

  /** The controller: from the sensor readings to the activations of the left and right wheels. */
  type Network = seq<real> -> (real, real)

  /** The angular offsets of `n` sensors, sensor `i` at i * 2 * pi / n. */
  function SensorOffsets(pi: real, n: nat): (offsets: seq<real>)
    ensures |offsets| == n
    ensures n > 0 ==> offsets[0] == 0.0
  {
    seq(n, i requires 0 <= i < n => i as real * (pi * 2.0) / n as real)
  }

  /** The sensors are spaced equally around the vehicle, the first straight ahead, closing the circle. */
  lemma SensorOffsetsEquallySpaced(pi: real, n: nat)
    requires n > 0
    ensures |SensorOffsets(pi, n)| == n && SensorOffsets(pi, n)[0] == 0.0
    ensures forall i :: 0 < i < n ==> SensorOffsets(pi, n)[i] - SensorOffsets(pi, n)[i - 1] == 2.0 * pi / n as real
    ensures SensorOffsets(pi, n)[n - 1] + 2.0 * pi / n as real == 2.0 * pi
  {
    var offsets, step := SensorOffsets(pi, n), 2.0 * pi / n as real;
    forall i | 0 <= i < n ensures offsets[i] == i as real * step {
      ScaleThenDivide(i as real, pi * 2.0, n as real);
    }
    forall i | 0 < i < n ensures offsets[i] - offsets[i - 1] == step {
      NextMultiple(i as real - 1.0, step);
    }
    NextMultiple((n - 1) as real, step);
    assert n as real * step == 2.0 * pi;
  }

  lemma NextMultiple(k: real, step: real)
    ensures (k + 1.0) * step - k * step == step
  {
  }

  lemma ScaleThenDivide(a: real, b: real, c: real)
    requires c > 0.0
    ensures a * b / c == a * (b / c)
  {
  }

  /** Where each sensor points for a vehicle at `pose`. */
  function PlaceSensors(place: (Pose, real) -> Ray, pose: Pose, offsets: seq<real>): seq<Ray>
  {
    seq(|offsets|, i requires 0 <= i < |offsets| => place(pose, offsets[i]))
  }

  /** The reading of every sensor, in sensor order. */
  function Readings(hit: (Ray, Line) -> Option<Point>, rays: seq<Ray>, obstacles: seq<Line>, maxDistance: real): seq<real>
    requires maxDistance > 0.0
  {
    seq(|rays|, i requires 0 <= i < |rays| => Sensing.Reading(hit, rays[i], obstacles, maxDistance))
  }

  /**
    The wheel speeds the network sets from `inputs`: each of its two output
    activations scaled by the vehicle's maximum speed.
   */
  function WheelSpeeds(network: Network, inputs: seq<real>, maxSpeed: real): (speeds: (real, real))
    ensures network(inputs).0 == network(inputs).1 ==> speeds.0 == speeds.1
    ensures maxSpeed >= 0.0 && 0.0 <= network(inputs).0 <= 1.0 ==> 0.0 <= speeds.0 <= maxSpeed
    ensures maxSpeed >= 0.0 && 0.0 <= network(inputs).1 <= 1.0 ==> 0.0 <= speeds.1 <= maxSpeed
  {
    var activations := network(inputs);
    ScaledFraction(activations.0, maxSpeed);
    ScaledFraction(activations.1, maxSpeed);
    (activations.0 * maxSpeed, activations.1 * maxSpeed)
  }

  /** A fraction in [0, 1] of a non-negative bound stays within [0, bound]. */
  lemma ScaledFraction(fraction: real, bound: real)
    ensures bound >= 0.0 && 0.0 <= fraction <= 1.0 ==> 0.0 <= fraction * bound <= bound
  {
    if bound >= 0.0 && 0.0 <= fraction <= 1.0 {
      assert bound - fraction * bound == (1.0 - fraction) * bound;
    }
  }

  /** The vehicle state the simulator reads and writes. */
  class Vehicle {
    var x: real
    var y: real
    var theta: real
    var speedLeft: real
    var speedRight: real
    const r: real
    const maxSpeed: real
    const sensorRange: real
    /** The angular offset of each sensor from the heading. */
    const offsets: seq<real>
    /** Where each sensor currently points. */
    var rays: seq<Ray>
    /** The value each sensor holds. */
    const sensorValue: array<real>
    /** The first row of the network's input. */
    const networkInput: array<real>

    ghost predicate Valid()
      reads this
    {
      && r > 0.0
      && sensorRange >= 0.0
      && |rays| == |offsets| == sensorValue.Length == networkInput.Length
      && sensorValue != networkInput
    }

    function CurrentPose(): Pose
      reads this
    {
      Pose(x, y, theta)
    }

    /** The squared reach of a sensor, measured from the vehicle's centre. */
    function MaxDistance(): (d: real)
      requires Valid()
      reads this
      ensures d > 0.0
      ensures d >= r * r
    {
      assert (sensorRange + r) * (sensorRange + r) == sensorRange * (sensorRange + 2.0 * r) + r * r;
      (sensorRange + r) * (sensorRange + r)
    }

    /** A vehicle at rest at `pose`, its sensors placed at `rays` and reading `values`. */
    constructor (pose: Pose, r: real, maxSpeed: real, sensorRange: real, offsets: seq<real>, rays: seq<Ray>, values: seq<real>)
      requires r > 0.0 && sensorRange >= 0.0
      requires |rays| == |offsets| == |values|
      ensures Valid() && fresh(sensorValue) && fresh(networkInput)
      ensures CurrentPose() == pose && speedLeft == 0.0 && speedRight == 0.0
      ensures this.r == r && this.maxSpeed == maxSpeed && this.sensorRange == sensorRange
      ensures this.offsets == offsets && this.rays == rays
      ensures sensorValue[..] == values && networkInput[..] == values
    {
      x, y, theta := pose.x, pose.y, pose.theta;
      speedLeft, speedRight := 0.0, 0.0;
      this.r, this.maxSpeed, this.sensorRange := r, maxSpeed, sensorRange;
      this.offsets, this.rays := offsets, rays;
      sensorValue := new real[|values|](i requires 0 <= i < |values| => values[i]);
      networkInput := new real[|values|](i requires 0 <= i < |values| => values[i]);
    }
  }

  /** The obstacles and the coverage grid the vehicle explores. */
  class Environment {
    const obstacles: seq<Line>
    const subdivisionSize: real
    /** Visit counts, indexed [column, row]. */
    const grid: array2<int>

    ghost predicate Valid()
    {
      subdivisionSize > 0.0
    }

    /** An environment with a fresh, all-zero grid. */
    constructor (obstacles: seq<Line>, subdivisionSize: real, columns: nat, rows: nat)
      requires subdivisionSize > 0.0
      ensures Valid() && fresh(grid)
      ensures this.obstacles == obstacles && this.subdivisionSize == subdivisionSize
      ensures grid.Length0 == columns && grid.Length1 == rows
      ensures forall i, j :: 0 <= i < columns && 0 <= j < rows ==> grid[i, j] == 0
    {
      this.obstacles, this.subdivisionSize := obstacles, subdivisionSize;
      grid := new int[columns, rows]((i, j) => 0);
    }
  }

  class Simulator {
    var running: bool
    var environment: Environment?
    var network: Option<Network>
    const vehicle: Vehicle
    /** The length of a run, in whole simulated seconds. */
    var simulationTime: int
    var id: int
    /** The grid cell where the last visit was recorded. */
    var previousX: int
    var previousY: int
    /** How many updates have been performed, for stating what a run does. */
    ghost var updates: nat

    /** Initialised: an environment and a network are in place. */
    ghost predicate Ready()
      reads this, vehicle
    {
      vehicle.Valid() && environment != null && environment.Valid() && network.Some?
    }

    /** A new simulator for `vehicle`, whose sensors are spaced equally around it. */
    constructor (id: int, vehicle: Vehicle, ghost pi: real)
      requires vehicle.Valid() && vehicle.offsets == SensorOffsets(pi, SensorCount)
      ensures this.id == id && this.vehicle == vehicle
      ensures !running && environment == null && network == None
      ensures simulationTime == 0 && previousX == 0 && previousY == 0
      ensures updates == 0
    {
      this.id := id;
      this.vehicle := vehicle;
      running := false;
      environment := null;
      network := None;
      simulationTime := 0;
      previousX, previousY := 0, 0;
      updates := 0;
    }

    /** Recomputes every sensor's reading from where it points; both copies get the same value. */
    method RefreshSensors(hit: (Ray, Line) -> Option<Point>)
      requires vehicle.Valid() && environment != null
      modifies vehicle.sensorValue, vehicle.networkInput
      ensures vehicle.sensorValue[..] == Readings(hit, vehicle.rays, environment.obstacles, vehicle.MaxDistance())
      ensures vehicle.networkInput[..] == vehicle.sensorValue[..]
    {
      var maxDistance := vehicle.MaxDistance();
      var rays, obstacles := vehicle.rays, environment.obstacles;
      for i := 0 to |rays|
        invariant forall k :: 0 <= k < i ==> vehicle.sensorValue[k] == Sensing.Reading(hit, rays[k], obstacles, maxDistance)
        invariant forall k :: 0 <= k < i ==> vehicle.networkInput[k] == vehicle.sensorValue[k]
      {
        var distance := Sensing.ScanObstacles(hit, rays[i], obstacles, maxDistance);
        vehicle.sensorValue[i] := distance / maxDistance;
        vehicle.networkInput[i] := vehicle.sensorValue[i];
      }
    }

    /**
      Prepares a run: installs the network and the environment, puts the
      vehicle at the start position (its heading and speeds are kept), resets
      the visit trackers and takes a first reading with the sensors where
      they currently point.
     */
    method Init(network: Network, environment: Environment, startX: real, startY: real, simulationTime: int,
                world: World)
      requires vehicle.Valid() && environment.Valid()
      modifies this, vehicle, vehicle.sensorValue, vehicle.networkInput
      ensures Ready()
      ensures this.network == Some(network) && this.environment == environment
      ensures this.simulationTime == simulationTime && running == old(running) && id == old(id)
      ensures vehicle.x == startX && vehicle.y == startY && vehicle.theta == old(vehicle.theta)
      ensures vehicle.speedLeft == old(vehicle.speedLeft) && vehicle.speedRight == old(vehicle.speedRight)
      ensures vehicle.rays == old(vehicle.rays)
      ensures previousX == -1 && previousY == -1
      ensures forall cellX, cellY :: 0 <= cellX && 0 <= cellY ==> Coverage.ShouldMark(cellX, cellY, previousX, previousY)
      ensures vehicle.sensorValue[..] == Readings(world.sensorHit, vehicle.rays, environment.obstacles, vehicle.MaxDistance())
      ensures vehicle.networkInput[..] == vehicle.sensorValue[..]
    {
      this.network := Some(network);
      vehicle.x := startX;
      vehicle.y := startY;
      previousX, previousY := -1, -1;
      this.environment := environment;
      this.simulationTime := simulationTime;
      RefreshSensors(world.sensorHit);
    }

    /** The grid cell the vehicle is in. */
    function Cell(): (cell: (int, int))
      requires Ready()
      reads this, vehicle
      ensures 0 <= cell.0 <==> -environment.subdivisionSize < vehicle.x
      ensures 0 <= cell.1 <==> -environment.subdivisionSize < vehicle.y
    {
      (Coverage.CellIndex(vehicle.x, environment.subdivisionSize),
       Coverage.CellIndex(vehicle.y, environment.subdivisionSize))
    }

    /**
      One tick of `delta` seconds: the network sets the wheel speeds from the
      sensor values, the vehicle moves (see Move), then a visit to its cell is
      recorded (see MarkVisit). A cell outside the grid
      is an error (`ok` is false) that leaves grid and trackers as they were.
     */
    method Update(world: World, delta: real) returns (ok: bool)
      requires Ready()
      modifies this`updates, this`previousX, this`previousY, vehicle, vehicle.sensorValue, vehicle.networkInput, environment.grid
      ensures Ready()
      ensures environment == old(environment) && network == old(network)
      ensures running == old(running) && simulationTime == old(simulationTime) && id == old(id)
      ensures updates == old(updates) + 1
      ensures (vehicle.speedLeft, vehicle.speedRight) == WheelSpeeds(network.value, old(vehicle.networkInput[..]), vehicle.maxSpeed)
      ensures Moved(world, delta, old(vehicle.CurrentPose()), environment.obstacles)
      ensures Coverage.VisitRecorded(old(Coverage.Cells(environment.grid)), Coverage.Cells(environment.grid),
                                     (old(previousX), old(previousY)), (previousX, previousY), Cell(), ok)
      ensures forall i, j :: 0 <= i < environment.grid.Length0 && 0 <= j < environment.grid.Length1 ==>
                old(environment.grid[i, j]) <= environment.grid[i, j]
    {
      updates := updates + 1;
      Steer();
      Move(world, delta);
      ok := MarkVisit();
    }

    /**
      The vehicle has made one move of `delta` from `before` among
      `obstacles`, at its current wheel speeds: the sensors are placed at the
      stepped position with the heading of `before` and read from there; the
      position is the stepped one unless an obstacle touches the vehicle
      there, when it stays at `before`'s; the heading is the stepped one
      either way.
     */
    ghost predicate Moved(world: World, delta: real, before: Pose, obstacles: seq<Line>)
      requires vehicle.Valid()
      reads vehicle, vehicle.sensorValue, vehicle.networkInput
    {
      var moved := Kinematics.Step(world.trig, before, vehicle.r, vehicle.speedLeft, vehicle.speedRight, delta);
      var probe := Pose(moved.x, moved.y, before.theta);
      && vehicle.rays == PlaceSensors(world.placeSensor, probe, vehicle.offsets)
      && vehicle.theta == moved.theta
      && (if Sensing.Collides(world.touches, obstacles, probe)
          then vehicle.x == before.x && vehicle.y == before.y
          else vehicle.x == moved.x && vehicle.y == moved.y)
      && vehicle.sensorValue[..] == Readings(world.sensorHit, vehicle.rays, obstacles, vehicle.MaxDistance())
      && vehicle.networkInput[..] == vehicle.sensorValue[..]
    }

    /** The network turns the current network inputs into the two wheel speeds. */
    method Steer()
      requires Ready()
      modifies vehicle`speedLeft, vehicle`speedRight
      ensures Ready()
      ensures (vehicle.speedLeft, vehicle.speedRight) == WheelSpeeds(network.value, vehicle.networkInput[..], vehicle.maxSpeed)
    {
      var speeds := WheelSpeeds(network.value, vehicle.networkInput[..], vehicle.maxSpeed);
      vehicle.speedLeft, vehicle.speedRight := speeds.0, speeds.1;
    }

    /**
      The vehicle moves at the wheel speeds set; the sensors are placed at the
      new position (with the old heading) and read; if an obstacle touches
      the vehicle there, the position is put back, but the new heading is kept
      either way.
     */
    method Move(world: World, delta: real)
      requires Ready()
      modifies vehicle`x, vehicle`y, vehicle`theta, vehicle`rays, vehicle.sensorValue, vehicle.networkInput
      ensures Ready()
      ensures Moved(world, delta, old(vehicle.CurrentPose()), environment.obstacles)
    {
      var moved := Kinematics.Step(world.trig, vehicle.CurrentPose(), vehicle.r, vehicle.speedLeft, vehicle.speedRight, delta);
      var oldX, oldY := vehicle.x, vehicle.y;
      vehicle.x, vehicle.y := moved.x, moved.y;

      vehicle.rays := PlaceSensors(world.placeSensor, vehicle.CurrentPose(), vehicle.offsets);
      RefreshSensors(world.sensorHit);

      var collided := Sensing.DetectCollision(world.touches, environment.obstacles, vehicle.CurrentPose());
      if collided {
        vehicle.x, vehicle.y := oldX, oldY;
      }
      vehicle.theta := moved.theta;
    }

    /**
      Records a visit to the vehicle's cell when both of its indices differ
      from the last recorded ones; a cell outside the grid is an error (`ok`
      is false) that leaves grid and trackers as they were.
     */
    method MarkVisit() returns (ok: bool)
      requires Ready()
      modifies this`previousX, this`previousY, environment.grid
      ensures Coverage.VisitRecorded(old(Coverage.Cells(environment.grid)), Coverage.Cells(environment.grid),
                                     (old(previousX), old(previousY)), (previousX, previousY), Cell(), ok)
      ensures forall i, j :: 0 <= i < environment.grid.Length0 && 0 <= j < environment.grid.Length1 ==>
                old(environment.grid[i, j]) <= environment.grid[i, j]
    {
      var grid := environment.grid;
      ghost var before := Coverage.Cells(grid);
      var cellX := Coverage.CellIndex(vehicle.x, environment.subdivisionSize);
      var cellY := Coverage.CellIndex(vehicle.y, environment.subdivisionSize);
      ok := true;
      if Coverage.ShouldMark(cellX, cellY, previousX, previousY) {
        if 0 <= cellX < grid.Length0 && 0 <= cellY < grid.Length1 {
          grid[cellX, cellY] := grid[cellX, cellY] + 1;
          previousX, previousY := cellX, cellY;
          Coverage.GridExtensionality(Coverage.Cells(grid), Coverage.Bump(before, cellX, cellY));
        } else {
          ok := false;
        }
      }
    }

    /**
      Runs updates of UpdateInterval seconds while the simulated time passed
      is below the run's length; `ticks` counts the updates that succeeded,
      and a failing one is the last performed. The running flag is set for the duration of
      the run and cleared when it completes; an update that fails ends the
      run early with the flag still set.
     */
    method Run(world: World) returns (ok: bool, ghost ticks: nat)
      requires Ready()
      modifies this, vehicle, vehicle.sensorValue, vehicle.networkInput, environment.grid
      ensures Ready()
      ensures environment == old(environment) && network == old(network)
      ensures simulationTime == old(simulationTime) && id == old(id)
      ensures running == !ok
      ensures updates == old(updates) + ticks + (if ok then 0 else 1)
      ensures ok ==> simulationTime as real <= ticks as real * UpdateInterval
      ensures 0 < ticks ==> (ticks - 1) as real * UpdateInterval < simulationTime as real
      ensures !ok ==> ticks as real * UpdateInterval < simulationTime as real
      ensures forall i, j :: 0 <= i < environment.grid.Length0 && 0 <= j < environment.grid.Length1 ==>
                old(environment.grid[i, j]) <= environment.grid[i, j]
    {
      var timePassed := 0.0;
      running := true;
      ticks := 0;
      while timePassed < simulationTime as real
        invariant Ready() && running
        invariant environment == old(environment) && network == old(network)
        invariant simulationTime == old(simulationTime) && id == old(id)
        invariant timePassed == ticks as real * UpdateInterval
        invariant updates == old(updates) + ticks
        invariant 0 < ticks ==> (ticks - 1) as real * UpdateInterval < simulationTime as real
        invariant forall i, j :: 0 <= i < environment.grid.Length0 && 0 <= j < environment.grid.Length1 ==>
                    old(environment.grid[i, j]) <= environment.grid[i, j]
        decreases simulationTime * 200 - ticks
      {
        ok := Update(world, UpdateInterval);
        if !ok {
          return;
        }
        timePassed := timePassed + UpdateInterval;
        ticks := ticks + 1;
      }
      running := false;
      ok := true;
    }

    /** Whether a run is in progress. */
    method IsRunning() returns (b: bool)
      ensures b == running
    {
      b := running;
    }

    /**
      Runs the simulation and reduces the grid to the fitness score; a run
      that fails gives no score. `ticks` is the run's count of successful
      updates.
     */
    method Call(world: World) returns (fitness: Option<int>, ghost ticks: nat)
      requires Ready()
      modifies this, vehicle, vehicle.sensorValue, vehicle.networkInput, environment.grid
      ensures Ready() && environment == old(environment)
      ensures fitness.Some? <==> !running
      ensures fitness.Some? ==> fitness.value == Coverage.GridScore(Coverage.Cells(environment.grid))
      ensures updates == old(updates) + ticks + (if fitness.Some? then 0 else 1)
      ensures fitness.Some? ==> simulationTime as real <= ticks as real * UpdateInterval
      ensures 0 < ticks ==> (ticks - 1) as real * UpdateInterval < simulationTime as real
      ensures fitness.None? ==> ticks as real * UpdateInterval < simulationTime as real
      ensures forall i, j :: 0 <= i < environment.grid.Length0 && 0 <= j < environment.grid.Length1 ==>
                old(environment.grid[i, j]) <= environment.grid[i, j]
    {
      var ok;
      ok, ticks := Run(world);
      if !ok {
        fitness := None;
        return;
      }
      var score := Coverage.Fitness(environment.grid);
      fitness := Some(score);
    }
  }
}

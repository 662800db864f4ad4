# Simulator of one individual: a Dafny model

This project models `Simulator`. The simulator evaluates one individual of a genetic algorithm. The individual is a neural network that drives a differential-drive vehicle through an environment of line-segment obstacles. The simulator records which cells of the environment's coverage grid the vehicle visits, and it reduces that grid to a fitness score.

The model follows the source's own form:

- `Kinematics` (kinematics.dfy) holds the pure motion block of `update` as functions: straight-line motion, the curvature radius, the angular velocity, and the rotation about the instantaneous centre of curvature (ICC).
- `Sensing` (sensing.dfy) holds the two obstacle scans of `init`/`update`. The first scan reads the sensors. It starts at the saturated value `(sensorRange + r)^2`, and every obstacle the ray hits overwrites the value, so the last hit in list order wins, not the nearest. The second scan is the collision test, which stops at the first obstacle that touches the vehicle. Each scan is a loop method proved against a specification function, with lemmas about that function.
- `Coverage` (coverage.dfy) holds:
  - the grid index, which Java's `(int)` cast truncates toward zero;
  - the both-indices-changed test that decides whether a visit is recorded;
  - the fitness fold (`+v` for a count `v <= 1`, `-v` above);
  - the lemmas about that fold: order independence, 0/1 grids, and one more visit.
- `Simulation` (simulation.dfy) holds classes `Vehicle`, `Environment` and `Simulator`. Their methods update fields and arrays in place, as the source does:
  - `Init` resets the start position and sets both trackers to -1. It leaves the heading alone and primes the sensor readings.
  - `Update` steers, moves, re-reads the sensors and rolls the position back on a collision. The heading is kept even then. It then records the visit.
  - `Run` repeats updates while the simulated time is below the run's length, with the `running` flag set.
  - `Call` runs and then folds the grid into the fitness.
- `Geometry` (geometry.dfy) holds the value types and the collaborators, which are passed as functions.

Doubles are modelled as reals. `Math.sin`, `Math.cos` and the heading remainder `% (2 * Math.PI)` are uninterpreted functions. So are `Sensor.intersects`, `Line.intersects(Vehicle)` and `Vehicle.updateSensors`. The network is a pure function from the sensor values to two activations.

Three behaviours of the code differ from what its names and structure suggest; the model follows the code:

- A sensor reports its last hit, not its nearest, although the variable holding it is called `minDistanceFound` (Simulator.java:54 and :116): every hit overwrites it, whatever its distance. `LastHitNotNearerThanNearest` and `LastHitCanBeFarther` relate the two.
- The grid index truncates toward zero instead of flooring, so a coordinate in `(-size, 0)` falls in cell 0.
- Sensors and the collision test see the new position with the old heading, because `theta` is only assigned after both.

The curvature radius follows the code as well; its stopped-right-wheel case is listed under Findings.

## Model

| member | source | states |
|---|---|---|
| `Kinematics.CurvatureRadiusAsWritten` | src/com/project/simulation/Simulator.java:96-98 | as the source computes it: a stopped wheel gives R = r; otherwise opposite speeds give R = 0; otherwise R * (sR - sL) = r * (sL + sR), a denominator that is non-zero because the speeds differ |
| `Kinematics.CurvatureRadius` | src/com/project/simulation/Simulator.java:96 | corrected radius (see Findings): R * (sR - sL) = r * (sL + sR); opposite speeds give R = 0, a stopped left wheel R = r, a stopped right wheel R = -r |
| `Kinematics.AngularVelocity` | src/com/project/simulation/Simulator.java:102 | omega * 2r = sR - sL, and omega is zero exactly when the speeds are equal |
| `Kinematics.WheelsTurnAboutCentre` | src/com/project/simulation/Simulator.java:96-102 | with the corrected radius, each wheel's speed equals omega times its signed distance from the ICC: omega * (R - r) = sL and omega * (R + r) = sR |
| `Kinematics.StoppedRightWheelAsWritten` | src/com/project/simulation/Simulator.java:98 | for r = 1, sL = 1, sR = 0 the source's radius is 1 where the geometry needs -1, and the rigid-body wheel speeds come out as 0 and -1 instead of 1 and 0 |
| `Kinematics.Step` | src/com/project/simulation/Simulator.java:89-108 | equal speeds keep the heading and move by delta * sL along (cos theta, sin theta), since (sL + sR) / 2 = sL; unequal speeds rotate about the ICC placed with the source's radius, overrides included, and set the heading to the remainder of theta + omega * delta; when that radius is zero the position stays fixed for any omega |
| `Kinematics.OppositeSpeedsSpinInPlace` | src/com/project/simulation/Simulator.java:97-107 | wheels at opposite non-zero speeds leave x and y unchanged and turn the heading by -(sL / r) * delta before the remainder |
| `Sensing.SquaredDistance` | src/com/project/simulation/Simulator.java:124 | the squared distance from the ray's origin to the intersection point (the same expression is at line 62); it is never negative and is zero at the origin itself |
| `Sensing.LastHitDistance` | src/com/project/simulation/Simulator.java:121-126 | the scan's value, defined back to front: the squared distance of the last listed obstacle the ray hits, else of the one before, down to the saturated value; it is never negative when the saturated value is not |
| `Sensing.Reading` | src/com/project/simulation/Simulator.java:127 | the normalised reading, LastHitDistance over (sensorRange + r)^2; it is never negative |
| `Sensing.ScanObstacles` | src/com/project/simulation/Simulator.java:121-126 | the inner scan loop returns exactly LastHitDistance: start from the saturated value, each hit overwrites it |
| `Sensing.LastHitDistanceSaturates` | src/com/project/simulation/Simulator.java:121-126 | a ray that hits no obstacle leaves the saturated value |
| `Sensing.LastHitDistanceIsLastHit` | src/com/project/simulation/Simulator.java:122-126 | otherwise the scan gives the squared origin-to-intersection distance of the last obstacle in list order that the ray hits |
| `Sensing.LastHitNotNearerThanNearest` | src/com/project/simulation/Simulator.java:121-126 | the last-hit result is never below the nearest-hit distance, and the nearest-hit distance never exceeds the saturated value |
| `Sensing.LastHitCanBeFarther` | src/com/project/simulation/Simulator.java:122-126 | with two obstacles on the ray, the farther one listed last, the scan reports the farther one (4) while the nearest distance is 1 |
| `Sensing.ReadingWhenNothingHit` | src/com/project/simulation/Simulator.java:117-127 | a sensor that hits nothing reads exactly 1 |
| `Sensing.ReadingOfLastHit` | src/com/project/simulation/Simulator.java:124-127 | a sensor that hits something reads the last hit's squared distance divided by (sensorRange + r)^2 |
| `Sensing.ReadingInUnitRange` | src/com/project/simulation/Simulator.java:117-127 | when every hit lies within the sensor's reach, the reading is in [0, 1] |
| `Sensing.DetectCollision` | src/com/project/simulation/Simulator.java:131-137 | the collision flag is true exactly when some obstacle touches the vehicle |
| `Coverage.TruncateToInt` | src/com/project/simulation/Simulator.java:146 | the cast drops the fraction toward zero: for v >= 0, i <= v < i + 1; for v < 0, i - 1 < v <= i; i >= 0 exactly when v > -1 |
| `Coverage.CellIndex` | src/com/project/simulation/Simulator.java:146-147 | the cell index is non-negative exactly when the coordinate is above -subdivisionSize |
| `Coverage.ShouldMark` | src/com/project/simulation/Simulator.java:148 | a visit is recorded only when both indices differ from the trackers: a recorded cell is never the tracked one, and a cell sharing either index with it is never recorded |
| `Coverage.VisitRecorded` | src/com/project/simulation/Simulator.java:148-151 | the grid keeps its number of columns; a failed visit changes neither grid nor trackers; the trackers move only to the vehicle's cell, and only when that cell is inside the grid |
| `Coverage.Bump` | src/com/project/simulation/Simulator.java:149 | exactly cell [i][j] goes up by one; every other cell and the shape are unchanged |
| `Coverage.CellScore` | src/com/project/simulation/Simulator.java:166 | a count v contributes v when v <= 1 and -v otherwise |
| `Coverage.Fitness` | src/com/project/simulation/Simulator.java:163-168 | the nested fitness loop returns GridScore of the grid's cells, summed column by column |
| `Coverage.GridScoreIsFlatScore` | src/com/project/simulation/Simulator.java:164-166 | the fitness equals the score of all cells taken as one sequence, column after column |
| `Coverage.ColumnScoreOrderFree` | src/com/project/simulation/Simulator.java:165-166 | any two sequences with the same counts (equal multisets) score the same |
| `Coverage.GridScoreOrderFree` | src/com/project/simulation/Simulator.java:164-166 | two grids whose cells hold the same multiset of counts have the same fitness, whatever the arrangement or iteration order |
| `Coverage.ColumnScoreOfZerosAndOnes` | src/com/project/simulation/Simulator.java:165-166 | a column of 0s and 1s scores the number of 1s |
| `Coverage.GridScoreOfZerosAndOnes` | src/com/project/simulation/Simulator.java:163-168 | a grid of 0s and 1s scores the number of 1-cells |
| `Coverage.GridScoreOfZeros` | src/com/project/simulation/Simulator.java:163-168 | an all-zero grid scores 0 |
| `Coverage.BumpChangesFitness` | src/com/project/simulation/Simulator.java:164-166 | one more visit to a cell changes the fitness by CellScore(v + 1) - CellScore(v): +1 from 0 to 1, -3 from 1 to 2, -1 for each later visit |
| `Coverage.Cells` | src/com/project/simulation/Simulator.java:164-165 | the grid array viewed as columns: same dimensions, cell [i][j] is grid[i, j] |
| `Simulation.SensorOffsets` | src/com/project/simulation/Simulator.java:33-35 | one offset per sensor, the first one straight ahead (0) |
| `Simulation.SensorOffsetsEquallySpaced` | src/com/project/simulation/Simulator.java:31-35 | the 2 * pi * i / n offsets start at 0, are 2 * pi / n apart and close the circle |
| `Simulation.WheelSpeeds` | src/com/project/simulation/Simulator.java:85-87 | each activation times maxSpeed: equal activations give equal wheel speeds, and an activation in [0, 1] gives a speed in [0, maxSpeed] |
| `Simulation.Vehicle.MaxDistance` | src/com/project/simulation/Simulator.java:117 | the saturated value (sensorRange + r)^2 (also at line 55): positive, and at least r^2, the reach of the vehicle's own body |
| `Simulation.Simulator.constructor` | src/com/project/simulation/Simulator.java:30-39 | a new simulator keeps its id and its vehicle with equally spaced sensor offsets; it is not running, has no environment or network, and both trackers are at Java's default of 0 |
| `Simulation.Simulator.RefreshSensors` | src/com/project/simulation/Simulator.java:116-129 | every sensor value is the Reading of its ray against the obstacles, and the network's input row holds the same values (the same loop appears at lines 53-67) |
| `Simulation.Simulator.Init` | src/com/project/simulation/Simulator.java:41-68 | sets the network, environment and run length; puts the vehicle at (startX, startY); leaves theta, the wheel speeds and the sensor rays unchanged; sets both trackers to -1, so the next visit to a non-negative cell is recorded; primes the readings |
| `Simulation.Simulator.Cell` | src/com/project/simulation/Simulator.java:146-147 | the vehicle's cell; each index is non-negative exactly when its coordinate is above -subdivisionSize |
| `Simulation.Simulator.Steer` | src/com/project/simulation/Simulator.java:85-87 | the wheel speeds become the network's two activations for the current inputs, times maxSpeed |
| `Simulation.Simulator.Update` | src/com/project/simulation/Simulator.java:84-153 | one more update is counted; the speeds are the activations of the pre-tick inputs times maxSpeed; the vehicle has Moved from its pre-tick pose (`Kinematics.Step` with the source's radius): the heading is always the stepped heading, the position is the stepped one unless an obstacle touches the vehicle there, in which case it is exactly the pre-tick one, and the sensors are read at the stepped position with the old heading; the grid changes as VisitRecorded says; no cell decreases |
| `Simulation.Simulator.Move` | src/com/project/simulation/Simulator.java:89-143 | the movement part of Update, stated as the predicate Moved: stepped heading (source's radius) always committed, position rolled back exactly on collision, sensors placed and read at the stepped position with the old heading |
| `Simulation.Simulator.MarkVisit` | src/com/project/simulation/Simulator.java:145-152 | when both indices differ from the trackers, exactly the vehicle's cell goes up by one and the trackers move to it, or the update fails if the cell is outside the grid; otherwise grid and trackers are unchanged; no cell decreases |
| `Simulation.Simulator.Run` | src/com/project/simulation/Simulator.java:70-82 | the run performs exactly `ticks` successful updates, plus the failing one if an update fails (the ghost `updates` counter grows by that much); a completed run has ticks * 0.005 at least the run's length and (ticks - 1) * 0.005 below it; a failing update happens only while ticks * 0.005 is still below the run's length, so a run of length 0 performs no update; afterwards the flag is clear when the run completed and still set when an update failed; no grid cell decreases |
| `Simulation.Simulator.IsRunning` | src/com/project/simulation/Simulator.java:155-157 | reports the running flag |
| `Simulation.Simulator.Call` | src/com/project/simulation/Simulator.java:159-171 | runs first, with the same tie between `ticks` and the updates performed as Run (so a result always follows a completed run of the full length); a completed run gives GridScore of the grid; a failed run, whose failing update came while time was left, gives no result; no cell decreases |

## Findings

| source | as written | input that shows it | evidently intended | confidence | as-written member | corrected member |
|---|---|---|---|---|---|---|
| src/com/project/simulation/Simulator.java:98 | when `speedRight == 0`, R is forced to `r`, which puts the ICC at the left wheel, the one that is driven | r = 1, speedLeft = 1, speedRight = 0: R = 1 and omega = -1/2, so the rigid-body wheel speeds are 0 (left) and -1 (right) instead of 1 and 0, and the vehicle backs away | R = -r, the ICC at the stopped right wheel; this is what the generic formula on line 96 already gives (the formula also gives r for a stopped left wheel and 0 for opposite speeds) | high; not executed | `Kinematics.StoppedRightWheelAsWritten` | `Kinematics.CurvatureRadius` |

`Kinematics.Step`, and through it `Move`, `Update`, `Run` and `Call`, places the ICC with `Kinematics.CurvatureRadiusAsWritten`, so the model moves the vehicle as the program does, stopped right wheel included. `Kinematics.CurvatureRadius` is the intended radius, and `Kinematics.WheelsTurnAboutCentre` proves it consistent with both wheel speeds for all inputs.

## Left out

- Floating point: doubles are reals, so rounding, infinities and NaN are not modelled. The model requires `r > 0`, `sensorRange >= 0` (`Vehicle.Valid`) and `subdivisionSize > 0` (`Environment.Valid`). A zero `r` or `subdivisionSize`, or `sensorRange = -r`, would make the source divide by zero. The model also excludes negative values of these settings, which the source would accept and compute with.
- `Math.sin`, `Math.cos` and the heading remainder are uninterpreted. No trigonometric identity is used, and no [0, 2π) range is promised: Java's `%` keeps the sign of a negative heading.
- `NeuralNetwork` is not part of this model. It is a pure function from the sensor values to two activations. Any state it keeps between calls, such as its recurrent weights, is not captured. `Init` takes this function instead of an `Individual`.
- `Sensor.intersects`, `Line.intersects(Vehicle)` and `Vehicle.updateSensors` are not part of this model; they are the function-valued fields of `World`. A sensor's placement is taken to depend only on the vehicle's pose and the sensor's angular offset.
- The `Vehicle` and `Environment` classes are not part of this model beyond the fields the simulator uses. Their constructors here are stand-ins: the vehicle starts at rest with given rays and values, and the environment starts with an all-zero rectangular grid (`int[][]` could be jagged). The arguments of `Vehicle(0.5, 0.5, 0.17, 0.5, ...)` are not interpreted; the simulator's constructor receives the vehicle ready-made.
- `Sensing.ReadingInUnitRange` needs the hypothesis that every hit lies within `(sensorRange + r)^2`. The hit geometry belongs to `Sensor.intersects`, so the model cannot promise a reading in [0, 1] without it.
- `Simulation.Simulator.Run` does not promise the exact number of ticks the source performs. `timePassed` accumulates 0.005 as a double in the source, while the model counts over reals.
- `Simulation.Simulator.IsRunning` only reports the flag. That the flag is set during a run is a loop invariant inside `Run`, not visible in any contract.
- Exceptions: an index outside the grid throws `ArrayIndexOutOfBoundsException` in the source. Here `Update` returns `ok = false`, `Run` stops at once (leaving `running` set), and `Call` returns `None`.
- Fitness is accumulated in a `double` in the source and as an integer here; the two agree while the sum stays below 2^53. Overflow of a cell count past 2^31 - 1 is not modelled.
- `Callable<Double>`, thread pools and any concurrent use of one grid by several simulators are not modelled.

# Grid cleaning robot: a Dafny model

This project models the core of a small simulator of a cleaning robot on a
rectangular grid. The room is a `width x height` grid of squares. Each square
has three independent flags: obstacle, cleaned and charger. The robot plans
routes with A* over the 4-connected grid, using the Manhattan heuristic. A step
onto a square costs 1, plus 1 more when the square is already cleaned, so
routes prefer dirty squares. Three ray-casting proximity sensors (front, left,
right, range 3) and a battery sensor report readings to the robot. The robot
is driven by a state machine (Idle, Cleaning, Recalculating, Returning,
Charging, Moving) and announces its own events (state changed, position
changed, path calculated, battery low, obstacle detected) to its observers.
Obstacles behave according to a strategy. Fixed obstacles and the charger
never move. The cat moves on every third robot move to a random free
neighbour, and it dirties the square it leaves.

The model is purely functional. Each mutating operation of the source becomes
a function or method that returns the new value. Operations on the robot
return a `Transition`: the new robot together with the events it announced,
in announcement order. One notification reaching every observer in list order
is `Subjects.Broadcast`. The source's `null` becomes `Option.None`. Integers
are unbounded.

Modules, one per file:

- `Wrappers`: `Option`.
- `Geometry`: positions, Manhattan distance and adjacency.
- `Rooms`: `Cell`, `Room`, neighbours and the cleanable squares.
- `Pathfinding`: A*. The main results are soundness, completeness, termination, and that path reconstruction terminates.
- `Obstacles`: the strategies and `DynamicObstacle`.
- `Subjects`: observer lists (register, remove, add-unique, broadcast).
- `Battery`: clamped battery arithmetic.
- `Sensors`: proximity scans, the battery sensor and `BatteryReading`.
- `Robots`: robot data, move step, path recalculation, proximity handling.
- `States`: `setState`, each state's tick, the dispatching `tick`, `handleSensor`.
- `Manager`: `RobotManager`.

Some facts the model makes explicit:

- A move step treats a square that is both an obstacle and a charger as
  enterable.
- A* never routes onto any obstacle square, because neighbours exclude
  obstacles. So a charger square that also carries an obstacle flag is
  unreachable for the battery sensor (`FindPath` returns `None` for an obstacle
  goal). The robot walking the path could still step onto it.
- `src/robot/Robot.java:199` calls `room.hasChargerAt`, but `Room` defines
  only `hasCharger`. The model reads the call as `hasCharger`.

## Model

| member | source | states |
|---|---|---|
| Rooms.NewCell | src/model/Cell.java:7-9 | a new square is no obstacle, not cleaned and has no charger |
| Rooms.Cell.WithObstacle | src/model/Cell.java:12 | the obstacle flag takes the given value and the other two flags are kept |
| Rooms.Cell.WithCleaned | src/model/Cell.java:15 | the cleaned flag takes the given value and the other two flags are kept |
| Rooms.Cell.WithCharger | src/model/Cell.java:18 | the charger flag takes the given value and the other two flags are kept |
| Rooms.CellFlagsIndependent | src/model/Cell.java:11-17 | setting one flag never changes the others, so a square can be obstacle and charger at once, in either order |
| Rooms.NewRoom | src/model/Room.java:15-24 | a new room has the given size, every in-bounds square is a fresh cell, and no square is an obstacle, cleaned or charger |
| Rooms.InBoundsIsStored | src/model/Room.java:29-31 | in a well-formed room the bounds test on width and height accepts exactly the positions the cell array holds |
| Rooms.Room.GetCell | src/model/Room.java:33-36 | a cell is returned exactly for in-bounds positions (None, the source's null, otherwise) |
| Rooms.Room.IsObstacle | src/model/Room.java:38-41 | false outside the grid; inside, the obstacle flag of the stored cell |
| Rooms.Room.IsCleaned | src/model/Room.java:48-51 | false outside the grid; inside, the cleaned flag of the stored cell |
| Rooms.Room.HasCharger | src/model/Room.java:63-66 | false outside the grid; inside, the charger flag of the stored cell |
| Rooms.Room.SetObstacle | src/model/Room.java:43-46 | only the obstacle flag of the given square changes; out of bounds nothing changes; the other flags and squares keep their values |
| Rooms.Room.SetCleaned | src/model/Room.java:53-56 | only the cleaned flag of the given square changes; out of bounds nothing changes |
| Rooms.Room.SetCharger | src/model/Room.java:58-61 | only the charger flag of the given square changes; out of bounds nothing changes |
| Rooms.Room.OpenFrom | src/model/Room.java:70-76 | from direction k on, exactly the passable orthogonal neighbours, in strictly increasing direction order |
| Rooms.Room.Neighbors | src/model/Room.java:68-77 | empty outside the grid; otherwise exactly the in-bounds non-obstacle orthogonal neighbours, at most four, in the order +x, -x, +y, -y |
| Rooms.CleanablePositions | src/model/Room.java:79-88 | exactly the in-bounds non-obstacle squares, in strict x-major order (so without duplicates) |
| Pathfinding.StepCost | src/pathfinding/AStar.java:30 | stepping onto a square costs 1 or 2, and 2 exactly when it is already cleaned |
| Pathfinding.Heuristic | src/pathfinding/AStar.java:53-55 | the Manhattan distance is zero exactly at the goal |
| Pathfinding.HeuristicConsistent | src/pathfinding/AStar.java:30-34 | the heuristic never drops across a step by more than that step's cost |
| Pathfinding.WalkIsPassable | src/model/Room.java:68-77 | every square of a walk over neighbours is in bounds and obstacle-free, and so is its start |
| Pathfinding.WalkAtLeastManhattan | src/sensors/BatterySensor.java:75-80 | a route is never shorter than the Manhattan distance it covers |
| Pathfinding.MinIndex | src/pathfinding/AStar.java:15-24 | the entry taken from the open list has the least f-score |
| Pathfinding.Relax | src/pathfinding/AStar.java:30-36 | with t the current square's score plus the step cost: when the neighbour is unscored or t is below its score, its score becomes t, its parent the current square and (neighbour, t, t + heuristic) is appended to the open list, nothing else changing; otherwise score, parent and open list are untouched; the search-tree invariants hold throughout |
| Pathfinding.RelaxEach | src/pathfinding/AStar.java:29-37 | relaxing the neighbours one after another scores every one of them, loses no score, closes nothing that was open, and lowers the termination measure unless nothing changes |
| Pathfinding.ExpandNode | src/pathfinding/AStar.java:29-37 | after the loop every neighbour of the expanded square is scored, so the square counts as expanded; the search-tree invariants hold and the termination measure falls unless nothing changes |
| Pathfinding.ExhaustedMeansUnreachable | src/pathfinding/AStar.java:23-39 | when the open list runs dry without reaching the goal, no walk leads from start to goal |
| Pathfinding.ReconstructPath | src/pathfinding/AStar.java:42-51 | following parent links from the goal back to the start terminates and yields a walk from start (excluded) to goal (included) |
| Pathfinding.FindPath | src/pathfinding/AStar.java:13-40 | empty route when start equals goal; otherwise a route is a walk to the goal not revisiting the start, and None is returned exactly when no walk exists (in particular for an out-of-bounds or obstacle goal) |
| Obstacles.NewCat | src/model/CatObstacleStrategy.java:14 | a new cat is a cat-type strategy that dirties squares and has seen no move count yet |
| Obstacles.StrategyTraits | src/model/CatObstacleStrategy.java:49-57 | only the cat dirties squares; fixed obstacles and chargers report their own types and do not dirty |
| Obstacles.StrategyUpdate | src/model/CatObstacleStrategy.java:17-47 | fixed obstacles and chargers never move; the cat reacts only to a positive new multiple of 3, then records it, moves to a free adjacent square and dirties the one it left, or stays only when no neighbour is free |
| Obstacles.CatReactsOncePerCount | src/model/CatObstacleStrategy.java:19-20 | a second update with the same move count never moves and changes nothing |
| Obstacles.CatMayChooseAnyFreeNeighbour | src/model/CatObstacleStrategy.java:33-35 | every free neighbour is the cat's destination for some random choice |
| Obstacles.UpdateObstacle | src/model/DynamicObstacle.java:35-42 | the obstacle reports a move exactly when its strategy returns a position, takes that position, keeps its type, and never carries obstacle or charger flags along; the room and the strategy's recorded move count are those the strategy's update leaves, so a cat dirties the square it vacates |
| Obstacles.ObstacleReactsOncePerCount | src/model/CatObstacleStrategy.java:19-20 | an obstacle updated a second time with the same move count stays where it is, and the room is unchanged |
| Subjects.Broadcast | src/sensors/SimulatedProximitySensor.java:30-34 | one notification reaches each observer once, in registration order |
| Subjects.Register | src/sensors/SimulatedProximitySensor.java:24 | registering appends, duplicates allowed |
| Subjects.RegisteredIsNotifiedLast | src/sensors/BatterySensor.java:26-40 | a newly registered observer receives a notification after all earlier ones |
| Subjects.RemoveFirst | src/sensors/BatterySensor.java:31-34 | unregistering removes the first occurrence only, keeps the others in order, and does nothing for an absent observer |
| Subjects.RegisterThenUnregister | src/sensors/SimulatedProximitySensor.java:23-27 | unregistering right after registering restores the list for a new observer and the multiset of observers always |
| Subjects.AddUnique | src/robot/Robot.java:46-50 | a robot observer is added only when absent, so the list stays duplicate-free |
| Subjects.RemoveFromDistinct | src/robot/Robot.java:52-54 | on a duplicate-free list the removed observer is gone and the list stays duplicate-free |
| Battery.Consume | src/sensors/BatterySensor.java:46-48 | consumption lowers the level by the amount but never below zero |
| Battery.Charge | src/sensors/BatterySensor.java:53-55 | charging raises the level by the amount but never above the capacity |
| Battery.ClampKeepsRange | src/robot/Robot.java:146-152 | with a non-negative amount, both operations keep a level inside [0, capacity] and move it the right way |
| Battery.ConsumeEachIsClampedDifference | src/robot/Robot.java:211 | n one-unit consumptions from level b leave max(0, b - n) |
| Sensors.BatteryReadingAsSensorReading | src/sensors/BatteryReading.java:17-34 | seen as a plain reading, a battery reading faces front, detects no obstacle and reports its real distance to the charger |
| Sensors.Offset | src/sensors/SimulatedProximitySensor.java:41-46 | each direction's offset is a unit step |
| Sensors.Scan | src/sensors/SimulatedProximitySensor.java:39-58 | an obstacle is detected exactly when some square within range is out of bounds or an obstacle, at the least such distance, else distance -1; the reading goes to every observer in order |
| Sensors.NewBatterySensor | src/sensors/BatterySensor.java:21-24 | a new battery sensor starts full with no observers |
| Sensors.ConsumeSensorBattery | src/sensors/BatterySensor.java:46-48 | the sensor's level is consumed with the shared clamping |
| Sensors.ChargeSensorBattery | src/sensors/BatterySensor.java:53-55 | the sensor's level is charged with the shared clamping |
| Sensors.CheckBattery | src/sensors/BatterySensor.java:64-107 | the level is synchronised; distance 0 on the charger or without charger or room; otherwise reachable exactly when a walk exists, the distance being a route length plus 5 (at least Manhattan plus 5), and 999 when unreachable; needs charging iff level < distance; critical iff level <= 0 or unreachable; one reading to all observers |
| Robots.NewRobot | src/robot/Robot.java:34-43 | a new robot stands at the start with a full battery, no path, charger, state or observers |
| Robots.Robot.IsBatteryFull | src/robot/Robot.java:154-156 | for a robot whose level lies in [0, capacity], full means exactly at capacity |
| Robots.Robot.IsBatteryEmpty | src/robot/Robot.java:158-160 | for a robot whose level lies in [0, capacity], empty means exactly zero |
| Robots.PathPending | src/robot/Robot.java:177 | a path is set exactly when some square is still to be visited |
| Robots.AddObserver | src/robot/Robot.java:46-50 | an absent observer is appended at the end with the old list kept in front; a present one leaves the list unchanged |
| Robots.RemoveObserver | src/robot/Robot.java:52-54 | the observer is absent afterwards and the multiset lost exactly it; reinserting it at one position gives back the old list, so the others keep their order; an absent observer leaves the list unchanged |
| Robots.SetCurrent | src/robot/Robot.java:69-78 | a missing, out-of-bounds or obstacle square is ignored; otherwise the robot moves there, cleans it, drops its path and announces the position |
| Robots.SetCharger | src/robot/Robot.java:80-84 | the room keeps its size; the old charger square loses its flag and the new square gains it when in bounds, no other flag changes, and a room whose only charger was the robot's ends with at most one charger square, at p when p is in bounds |
| Robots.SetPath | src/robot/Robot.java:183-185 | a null path is stored as empty, any other as given |
| Robots.ConsumeBattery | src/robot/Robot.java:146-148 | the battery becomes max(0, b - amount), the shared clamped consumption; nothing else changes |
| Robots.ChargeBattery | src/robot/Robot.java:150-152 | the battery becomes min(capacity, b + amount), the shared clamped charge; nothing else changes |
| Robots.SwitchState | src/robot/Robot.java:162-171 | the state is replaced; entering Cleaning cleans the current square; a non-null state is announced once, a null state not at all |
| Robots.PerformMoveStep | src/robot/Robot.java:187-215 | no path: nothing; empty battery: Idle; blocked head (off the grid, or an obstacle that is not the charger): dropped, announced, Recalculating; otherwise the robot enters the head, cleans it, spends one unit and announces it |
| Robots.OneClearStep | src/robot/Robot.java:197-211 | a step onto a clear square walks one square along the path and keeps the rest of it clear |
| Robots.MoveStepsDrainBattery | src/robot/Robot.java:187-211 | along a clear path n move steps leave battery max(0, b - n), the last ones with an empty battery costing nothing |
| Robots.MoveStepsWalkPath | src/robot/Robot.java:197-214 | while the battery lasts, n move steps along a clear path walk its first n squares, keep the rest of the path and keep the state |
| Robots.EmptyBatteryStep | src/robot/Robot.java:190-195 | with an empty battery a move step leaves position, path, room and battery alone |
| Robots.MoveStepFollowsWalk | src/robot/Robot.java:197-208 | along an A* walk the next square is never blocked, the robot moves to an adjacent square, and the rest is still a walk |
| Robots.RecalculatePathTo | src/robot/Robot.java:217-228 | the path becomes a route to the goal when one exists and is empty otherwise (or at the goal), and its length is announced |
| Robots.HandleProximity | src/robot/Robot.java:124-129 | an obstacle is announced exactly for a front reading detecting at distance 1; the robot never changes |
| States.SetState | src/robot/state/ReturningState.java:10-16 | entering Returning with a charger searches a route to it, announcing the search before the state; every other change is a plain switch |
| States.CleaningTick | src/robot/state/CleaningState.java:15-25 | the current square is cleaned; with a path set the robot then takes one move step, and without one nothing else changes and nothing is announced |
| States.ChargingTick | src/robot/state/ChargingState.java:22-31 | the battery becomes min(capacity, b + 5) and the capacity and observers are kept; when full the robot enters Cleaning with the current square cleaned and nothing else changed, otherwise only the battery changes |
| States.ChargingEndsInCleaning | src/robot/state/ChargingState.java:10-31 | enough charging ticks to cover the missing charge leave a full battery and a Cleaning robot on the same square |
| States.ReturningTick | src/robot/state/ReturningState.java:23-40 | on the charger: Charging; else with a path: one move step; else with a charger: a new route to it; else nothing |
| States.Tick | src/robot/Robot.java:173-175 | dispatches on the state (none, Idle, Recalculating: nothing); only Charging raises the battery and the others spend at most one unit; a move lands on the path's head, unblocked and cleaned; the state follows the allowed transitions |
| States.HandleSensor | src/robot/Robot.java:91-130 | a battery reading that needs charging outside Returning/Charging announces low battery and enters Returning; then a critical or unreachable reading stops a robot not already Idle; proximity readings as HandleProximity; position, battery and room never change |
| Manager.NewManager | src/robot/RobotManager.java:24-35 | the robot starts at the start square of the room with battery and capacity 100, no path, state, charger or observers, and each of the three range-3 sensors has the robot as its only observer |
| Manager.Deliver | src/robot/Robot.java:86-89 | each proximity reading delivered to the robot is handled in order without changing the robot |
| Manager.OnlyRobotListens | src/robot/RobotManager.java:31-34 | with the robot as a sensor's only subscriber, a scan's announcements are exactly the robot's handling of the reading |
| Manager.ScanAll | src/robot/RobotManager.java:40-43 | of the three scans only the front one can cause an announcement, exactly when the square right ahead blocks |
| Manager.Tick | src/robot/RobotManager.java:39-47 | scans first, then the robot's tick; sensors and the inaccessible list are untouched; with no state the robot does not change |
| Manager.RequestPathTo | src/robot/RobotManager.java:51-55 | the goal is appended to the inaccessible list exactly when the robot stands on it or no walk reaches it |
| Manager.SetCharger | src/robot/RobotManager.java:49 | the robot's charger becomes p and every other robot field except the room is kept; the room keeps its size and its obstacle and cleaned flags; the room flags p exactly when p is in bounds, the old charger square loses its flag and every other square keeps it, so a room whose only charger was the robot's ends with at most one charger square, at p when p is in bounds |

## Left out

- Graphical interface, the program's entry point, the demo and the logging, statistics and alert observers. They are callers of the core, not part of it. Robot observers are plain identifiers.
- Console output, including every `onEnter` and `onExit` that only prints, and the cat's message.
- The event timestamp of `RobotEvent`. Events carry their type and payload only.
- `getBatteryPercentage` of the robot, the battery sensor and the reading. It uses floating-point division and no decision in the core depends on it.
- Randomness. The cat's `Random.nextInt` is the parameter `pick`, reduced modulo the number of free neighbours.
- Java's 32-bit integer overflow. Levels, scores and move counts are unbounded. A* uses `Integer.MAX_VALUE` as a default twice. The default for the expanded square (`src/pathfinding/AStar.java:30`) is never read, because that square is always scored. The default for a neighbour (`src/pathfinding/AStar.java:31`) is read whenever the neighbour is unscored, and there it acts as infinity; the model writes that case as `nb !in g`.
- Pathfinding.FindPath: the route is not proved shortest. Ties in the priority queue are broken by the earliest entry, while Java's `PriorityQueue` leaves that order unspecified. The contract holds for every tie-break.
- Robots.SetCharger: takes a position. `setCharger(null)` is not modelled, because `Room.getCell` would dereference null.
- Rooms.NewRoom: dimensions are natural numbers. A negative size makes the source throw while allocating the grid.
- `recalculatePathToNextTarget` and the choice of the next target square in the manager: both are empty placeholders in the source.
- `notifyBatteryLow`, `notifyCleaningCompleted` and `notifyReturnedToCharger`: nothing in the core calls them. Each only broadcasts one event.
- The Moving and Idle states' `onEnter` hooks: they are empty, and the model's state switch treats them that way.
- Object aliasing: the room is shared by the manager, the robot and the sensors. Here it is a value inside the robot, and the manager scans that room.
- Robots.NewRobot: requires a non-negative capacity, because the model keeps the level inside [0, capacity] as an invariant. The core always passes 100.

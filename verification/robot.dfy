/**
 * The robot: position, optional charger, the room it cleans, the planned
 * path (front = next step), the current state, its observers and a battery
 * clamped to [0, maxBattery]. Every operation returns the new robot together
 * with the events it announced, in announcement order; each event reaches
 * every observer in list order (see `Subjects.Broadcast`).
 */
module Robots {
  import opened Wrappers
  import opened Geometry
  import opened Rooms
  import opened Pathfinding
  import opened Subjects
  import opened Sensors
  import Battery

  /** The state objects of the source, by class. */
  datatype StateKind = Idle | Cleaning | Recalculating | Returning | Charging | Moving

  datatype EventType =
    | StateChanged | PositionChanged | PathCalculated | BatteryLow
    | CleaningCompleted | ObstacleDetected | ReturnedToCharger

  /** The event payload; the source's timestamp is not modelled. */
  datatype Payload =
    | NoData
    | AtPosition(pos: Position)
    | Count(n: int)
    | StateName(state: StateKind)
    | Reading(reading: SensorReading)

  datatype RobotEvent = RobotEvent(kind: EventType, data: Payload)

  /** Identity of a robot observer (the logging and statistics collaborators). */
  type ObserverId = nat

  datatype Robot = Robot(
    current: Position,
    charger: Option<Position>,
    room: Room,
    path: seq<Position>,
    state: Option<StateKind>,
    observers: seq<ObserverId>,
    battery: int,
    maxBattery: int)
  {
    predicate Valid() {
      && room.Valid()
      && 0 <= battery <= maxBattery
      && NoDuplicates(observers)
    }

    predicate HasPath() {
      path != []
    }

    /** Within the battery invariant, full means exactly at capacity. */
    predicate IsBatteryFull(): (r: bool)
      ensures Valid() ==> (r <==> battery == maxBattery)
    {
      battery >= maxBattery
    }

    /** Within the battery invariant, empty means exactly zero. */
    predicate IsBatteryEmpty(): (r: bool)
      ensures Valid() ==> (r <==> battery == 0)
    {
      battery <= 0
    }
  }

  /** A robot after an operation, with the events the operation announced. */
  datatype Transition = Transition(robot: Robot, events: seq<RobotEvent>)

  const BatteryPerMove: int := 1
  const DefaultMaxBattery: int := 100

  function StateChangedTo(k: StateKind): RobotEvent {
    RobotEvent(StateChanged, StateName(k))
  }

  /** A new robot at `start`: full battery, no path, no charger, no state, no observers. */
  function NewRobot(room: Room, start: Position, maxBattery: int): (r: Robot)
    requires room.Valid() && maxBattery >= 0
    ensures r.Valid()
    ensures r.current == start && r.room == room
    ensures r.battery == r.maxBattery == maxBattery && r.IsBatteryFull()
    ensures r.path == [] && r.charger.None? && r.state.None? && r.observers == []
  {
    Robot(start, None, room, [], None, [], maxBattery, maxBattery)
  }

  /** `addRobotObserver`: no observer is ever registered twice. */
  function AddObserver(r: Robot, o: ObserverId): (r': Robot)
    requires r.Valid()
    ensures r'.Valid()
    ensures o in r'.observers
    ensures |r'.observers| == if o in r.observers then |r.observers| else |r.observers| + 1
    ensures o in r.observers ==> r'.observers == r.observers
    ensures o !in r.observers ==> r'.observers == r.observers + [o]
    ensures r' == r.(observers := r'.observers)
  {
    r.(observers := AddUnique(r.observers, o))
  }

  /** `removeRobotObserver`: the observer is gone and the others keep their order. */
  function RemoveObserver(r: Robot, o: ObserverId): (r': Robot)
    requires r.Valid()
    ensures r'.Valid()
    ensures o !in r'.observers
    ensures multiset(r'.observers) == multiset(r.observers) - multiset{o}
    ensures o !in r.observers ==> r'.observers == r.observers
    ensures o in r.observers ==>
      exists i :: 0 <= i <= |r'.observers| && r.observers == r'.observers[..i] + [o] + r'.observers[i..]
    ensures r' == r.(observers := r'.observers)
  {
    RemoveFromDistinct(r.observers, o);
    var rest := RemoveFirst(r.observers, o);
    if o in r.observers then
      var i := FirstIndex(r.observers, o);
      assert r.observers == rest[..i] + [o] + rest[i..];
      r.(observers := rest)
    else
      r.(observers := rest)
  }

  /**
   * `setCurrent`: a missing, out-of-bounds or obstacle position is ignored.
   * Otherwise the robot stands there, the square is cleaned, the old path is
   * dropped and the move is announced.
   */
  function SetCurrent(r: Robot, p: Option<Position>): (t: Transition)
    requires r.Valid()
    ensures t.robot.Valid()
    ensures p.None? || !r.room.InBounds(p.value) || r.room.IsObstacle(p.value) ==> t == Transition(r, [])
    ensures p.Some? && r.room.InBounds(p.value) && !r.room.IsObstacle(p.value) ==>
      && t.robot == r.(current := p.value, room := r.room.SetCleaned(p.value, true), path := [])
      && t.events == [RobotEvent(PositionChanged, AtPosition(p.value))]
    ensures t.robot.current != r.current ==>
      t.robot.room.InBounds(t.robot.current) && !t.robot.room.IsObstacle(t.robot.current) && t.robot.room.IsCleaned(t.robot.current)
  {
    match p
    case None => Transition(r, [])
    case Some(q) =>
      if !r.room.InBounds(q) || r.room.IsObstacle(q) then Transition(r, [])
      else Transition(r.(current := q, room := r.room.SetCleaned(q, true), path := []),
                      [RobotEvent(PositionChanged, AtPosition(q))])
  }

  /**
   * `setCharger`: the previous charger square (if any) loses its charger
   * flag and the new one gains it; no other flag or square changes.
   */
  function SetCharger(r: Robot, p: Position): (r': Robot)
    requires r.Valid()
    ensures r'.Valid()
    ensures r'.charger == Some(p)
    ensures r' == r.(charger := Some(p), room := r'.room)
    ensures r'.room.width == r.room.width && r'.room.height == r.room.height
    ensures forall q ::
              r'.room.HasCharger(q) ==
                if q == p then r.room.InBounds(p)
                else if r.charger == Some(q) then false
                else r.room.HasCharger(q)
    ensures forall q :: r'.room.IsObstacle(q) == r.room.IsObstacle(q) && r'.room.IsCleaned(q) == r.room.IsCleaned(q)
    ensures (forall q :: r.room.HasCharger(q) ==> r.charger == Some(q)) ==>
              forall q :: r'.room.HasCharger(q) ==> q == p
  {
    var room := if r.charger.Some? then r.room.SetCharger(r.charger.value, false) else r.room;
    r.(charger := Some(p), room := room.SetCharger(p, true))
  }

  /** `setPath`: a null path is stored as the empty path. */
  function SetPath(r: Robot, p: Option<seq<Position>>): (r': Robot)
    ensures p.None? ==> !r'.HasPath()
    ensures p.Some? ==> r'.path == p.value
    ensures r' == r.(path := r'.path)
  {
    r.(path := p.GetOr([]))
  }

  /** `consumeBattery`: the level drops by `amount` but not below zero. */
  function ConsumeBattery(r: Robot, amount: int): (r': Robot)
    requires r.Valid()
    ensures amount >= 0 ==> r'.Valid() && r'.battery <= r.battery
    ensures r'.battery >= 0
    ensures r'.battery == 0 || r'.battery == r.battery - amount
    ensures r'.battery == Battery.Consume(r.battery, amount)
    ensures r' == r.(battery := r'.battery)
  {
    r.(battery := Battery.Consume(r.battery, amount))
  }

  /** `chargeBattery`: the level rises by `amount` but not above the capacity. */
  function ChargeBattery(r: Robot, amount: int): (r': Robot)
    requires r.Valid()
    ensures amount >= 0 ==> r'.Valid() && r'.battery >= r.battery
    ensures r'.battery <= r.maxBattery
    ensures r'.battery == r.maxBattery || r'.battery == r.battery + amount
    ensures r'.battery == Battery.Charge(r.battery, r.maxBattery, amount)
    ensures r' == r.(battery := r'.battery)
  {
    r.(battery := Battery.Charge(r.battery, r.maxBattery, amount))
  }

  /**
   * `setState` for every target whose `onEnter` does not search a path, that
   * is all but Returning with a known charger. Every `onExit` only prints.
   * Entering Cleaning cleans the current square; a non-null state is
   * announced after its `onEnter`; `setState(null)` announces nothing.
   */
  function SwitchState(r: Robot, s: Option<StateKind>): (t: Transition)
    requires r.Valid()
    requires !(s == Some(Returning) && r.charger.Some?)
    ensures t.robot.Valid()
    ensures t.robot.state == s
    ensures s.None? ==> t == Transition(r.(state := None), [])
    ensures s == Some(Cleaning) ==>
      t.robot == r.(state := s, room := r.room.SetCleaned(r.current, true))
    ensures s.Some? && s != Some(Cleaning) ==> t.robot == r.(state := s)
    ensures s.Some? ==> t.events == [StateChangedTo(s.value)]
  {
    match s
    case None => Transition(r.(state := None), [])
    case Some(k) =>
      var entered := if k == Cleaning then r.(state := s, room := r.room.SetCleaned(r.current, true)) else r.(state := s);
      Transition(entered, [StateChangedTo(k)])
  }

  /**
   * What stops a move onto `q`: leaving the grid, or an obstacle that is not
   * also the charger (the source calls `hasChargerAt`, read here as
   * `hasCharger`).
   */
  predicate Blocked(room: Room, q: Position)
    requires room.Valid()
  {
    !room.InBounds(q) || (room.IsObstacle(q) && !room.HasCharger(q))
  }

  /**
   * `performMoveStep`. Without a path nothing happens; with an empty battery
   * the robot goes Idle and stays put; a blocked next square is dropped from
   * the path, announced, and sends the robot to Recalculating; otherwise the
   * robot enters the square, cleans it, spends one unit and announces it.
   */
  function PerformMoveStep(r: Robot): (t: Transition)
    requires r.Valid()
    ensures t.robot.Valid()
    ensures t.robot.maxBattery == r.maxBattery && t.robot.charger == r.charger && t.robot.observers == r.observers
    ensures !r.HasPath() ==> t == Transition(r, [])
    ensures r.HasPath() && r.battery <= 0 ==>
      t == Transition(r.(state := Some(Idle)), [StateChangedTo(Idle)])
    ensures r.HasPath() && r.battery > 0 && Blocked(r.room, r.path[0]) ==>
      && t.robot == r.(path := r.path[1..], state := Some(Recalculating))
      && t.events == [RobotEvent(ObstacleDetected, AtPosition(r.path[0])), StateChangedTo(Recalculating)]
    ensures r.HasPath() && r.battery > 0 && !Blocked(r.room, r.path[0]) ==>
      && t.robot == r.(current := r.path[0], path := r.path[1..],
                      room := r.room.SetCleaned(r.path[0], true), battery := r.battery - BatteryPerMove)
      && t.events == [RobotEvent(PositionChanged, AtPosition(r.path[0]))]
    ensures t.robot.current != r.current ==>
      !Blocked(t.robot.room, t.robot.current) && t.robot.room.IsCleaned(t.robot.current)
    ensures t.robot.battery == r.battery || t.robot.battery == r.battery - BatteryPerMove
  {
    if !r.HasPath() then Transition(r, [])
    else if r.battery <= 0 then SwitchState(r, Some(Idle))
    else
      var next := r.path[0];
      var rest := r.(path := r.path[1..]);
      if Blocked(r.room, next) then
        var stopped := SwitchState(rest, Some(Recalculating));
        Transition(stopped.robot, [RobotEvent(ObstacleDetected, AtPosition(next))] + stopped.events)
      else
        var moved := ConsumeBattery(rest.(current := next, room := r.room.SetCleaned(next, true)), BatteryPerMove);
        Transition(moved, [RobotEvent(PositionChanged, AtPosition(next))])
  }

  /** A path is set exactly when some square is still to be visited. */
  lemma PathPending(r: Robot)
    ensures r.HasPath() <==> exists q :: q in r.path
  {
    if r.path != [] {
      assert r.path[0] in r.path;
    }
  }

  /** The robot after `n` successive move steps. */
  ghost function MoveSteps(r: Robot, n: nat): Robot
    requires r.Valid()
    decreases n
  {
    if n == 0 then r else MoveSteps(PerformMoveStep(r).robot, n - 1)
  }

  /**
   * Along a path none of whose squares is blocked, `n` move steps leave the
   * battery at max(0, b - n).
   */
  lemma {:induction false} MoveStepsDrainBattery(r: Robot, n: nat)
    requires r.Valid()
    requires n <= |r.path|
    requires forall q :: q in r.path ==> !Blocked(r.room, q)
    ensures MoveSteps(r, n).battery == if r.battery - n < 0 then 0 else r.battery - n
    decreases n
  {
    if n > 0 {
      var r' := PerformMoveStep(r).robot;
      assert MoveSteps(r, n) == MoveSteps(r', n - 1);
      if r.battery > 0 {
        OneClearStep(r);
        MoveStepsDrainBattery(r', n - 1);
      } else {
        EmptyBatteryStep(r);
        MoveStepsDrainBattery(r', n - 1);
      }
    }
  }

  /**
   * While the battery lasts, `n` move steps along a clear path walk its
   * first `n` squares, leave the rest of it, and keep the state.
   */
  lemma {:induction false} MoveStepsWalkPath(r: Robot, n: nat)
    requires r.Valid()
    requires n <= |r.path| && n <= r.battery
    requires forall q :: q in r.path ==> !Blocked(r.room, q)
    ensures MoveSteps(r, n).path == r.path[n..]
    ensures MoveSteps(r, n).state == r.state
    ensures n > 0 ==> MoveSteps(r, n).current == r.path[n - 1]
    decreases n
  {
    if n > 0 {
      var p := r.path;
      var r' := PerformMoveStep(r).robot;
      assert MoveSteps(r, n) == MoveSteps(r', n - 1);
      OneClearStep(r);
      MoveStepsWalkPath(r', n - 1);
      assert p[1..][n - 1..] == p[n..];
      if n > 1 {
        assert p[1..][n - 2] == p[n - 1];
      }
    }
  }

  /** With an empty battery a move step only changes the state. */
  lemma EmptyBatteryStep(r: Robot)
    requires r.Valid() && r.battery <= 0
    ensures PerformMoveStep(r).robot.Valid()
    ensures PerformMoveStep(r).robot.path == r.path && PerformMoveStep(r).robot.room == r.room
    ensures PerformMoveStep(r).robot.battery == r.battery
  {
  }

  /** One step onto a clear square keeps the rest of the path clear. */
  lemma OneClearStep(r: Robot)
    requires r.Valid() && r.HasPath() && r.battery > 0
    requires forall q :: q in r.path ==> !Blocked(r.room, q)
    ensures PerformMoveStep(r).robot.Valid()
    ensures PerformMoveStep(r).robot.path == r.path[1..]
    ensures PerformMoveStep(r).robot.current == r.path[0]
    ensures PerformMoveStep(r).robot.battery == r.battery - 1
    ensures PerformMoveStep(r).robot.state == r.state
    ensures forall q :: q in r.path[1..] ==> !Blocked(PerformMoveStep(r).robot.room, q)
  {
    assert r.path[0] in r.path;
    var room' := PerformMoveStep(r).robot.room;
    assert room' == r.room.SetCleaned(r.path[0], true);
    forall q | q in r.path[1..] ensures !Blocked(room', q) {
      assert q in r.path;
    }
  }

  /**
   * Along a walk from the current square the next square is never blocked:
   * a step with battery left enters it, and the rest of the path is still a
   * walk from the new square.
   */
  lemma MoveStepFollowsWalk(r: Robot)
    requires r.Valid() && r.HasPath() && r.battery > 0
    requires IsWalk(r.room, r.current, r.path)
    ensures !Blocked(r.room, r.path[0])
    ensures Adjacent(r.current, PerformMoveStep(r).robot.current)
    ensures IsWalk(PerformMoveStep(r).robot.room, PerformMoveStep(r).robot.current, PerformMoveStep(r).robot.path)
  {
    var t := PerformMoveStep(r).robot;
    assert t.room == r.room.SetCleaned(r.path[0], true);
    assert forall i :: 1 <= i < |t.path| ==> t.path[i - 1] == r.path[i] && t.path[i] == r.path[i + 1];
  }

  /**
   * `after` is `before` with its path replaced by an A* route to `goal`, or
   * by the empty path when there is none (or the robot is already there).
   */
  ghost predicate Rerouted(before: Robot, after: Robot, goal: Position)
    requires before.Valid()
  {
    && after == before.(path := after.path)
    && (after.HasPath() ==> Leads(before.room, before.current, after.path, goal) && before.current !in after.path)
    && (before.current == goal ==> !after.HasPath())
    && (before.current != goal ==> (after.HasPath() <==> Reachable(before.room, before.current, goal)))
  }

  /**
   * `recalculatePathTo`: the path becomes the A* route from the current
   * square to `goal`, or empty when there is none, and the route's length
   * (0 for none) is announced.
   */
  method RecalculatePathTo(r: Robot, goal: Position) returns (t: Transition)
    requires r.Valid()
    ensures t.robot.Valid()
    ensures Rerouted(r, t.robot, goal)
    ensures t.events == [RobotEvent(PathCalculated, Count(|t.robot.path|))]
  {
    var found := FindPath(r.current, goal, r.room);
    var path := found.GetOr([]);
    t := Transition(r.(path := path), [RobotEvent(PathCalculated, Count(|path|))]);
  }

  /**
   * The proximity branch of `handleSensor`: an obstacle right in front is
   * announced; the robot itself never changes.
   */
  function HandleProximity(r: Robot, reading: SensorReading): (t: Transition)
    ensures t.robot == r
    ensures |t.events| <= 1
    ensures t.events != [] <==> reading.Type() == Front && reading.IsObstacleDetected() && reading.Distance() == 1
    ensures forall e :: e in t.events ==> e == RobotEvent(ObstacleDetected, Reading(reading))
  {
    if reading.Type() == Front && reading.IsObstacleDetected() && reading.Distance() == 1 then
      Transition(r, [RobotEvent(ObstacleDetected, Reading(reading))])
    else
      Transition(r, [])
  }
}

/**
 * The simulation driver: one robot, three proximity sensors (front, left,
 * right, range 3) with the robot as their only observer, and the list of
 * goals found inaccessible.
 */
module Manager {
  import opened Wrappers
  import opened Geometry
  import opened Rooms
  import opened Pathfinding
  import opened Subjects
  import opened Sensors
  import opened Robots
  import opened States

  const SensorRange: int := 3

  /** A sensor of the manager: the given direction, range 3, the robot registered once. */
  function Wired(d: Direction): ProximitySensor {
    ProximitySensor(d, SensorRange, [RobotSubscriber])
  }

  /** The room is the robot's own room; the manager keeps no second copy of it. */
  datatype RobotManager = RobotManager(
    robot: Robot,
    front: ProximitySensor,
    left: ProximitySensor,
    right: ProximitySensor,
    inaccessible: seq<Position>)
  {
    predicate Valid() {
      && robot.Valid()
      && front == Wired(Front)
      && left == Wired(Left)
      && right == Wired(Right)
    }
  }

  /** The constructor: a robot with the default battery at `start`, and the robot registered with each sensor. */
  function NewManager(room: Room, start: Position): (m: RobotManager)
    requires room.Valid()
    ensures m.Valid()
    ensures m.robot.current == start && m.robot.room == room && !m.robot.HasPath() && m.robot.state.None?
    ensures m.robot.charger.None? && m.robot.observers == []
    ensures m.robot.battery == m.robot.maxBattery == DefaultMaxBattery
    ensures m.inaccessible == []
    ensures forall s :: s in [m.front, m.left, m.right] ==> s.observers == [RobotSubscriber] && s.range == SensorRange
  {
    var front := NewProximitySensor(Front, SensorRange);
    var left := NewProximitySensor(Left, SensorRange);
    var right := NewProximitySensor(Right, SensorRange);
    RobotManager(
      NewRobot(room, start, DefaultMaxBattery),
      front.(observers := Register(front.observers, RobotSubscriber)),
      left.(observers := Register(left.observers, RobotSubscriber)),
      right.(observers := Register(right.observers, RobotSubscriber)),
      [])
  }

  /** The events the robot announces while handling the proximity deliveries addressed to it, in order. */
  function ProximityEvents(r: Robot, deliveries: seq<Delivery<Subscriber, SensorReading>>): seq<RobotEvent> {
    if deliveries == [] then []
    else
      var d := deliveries[0];
      (if d.observer == RobotSubscriber then HandleProximity(r, d.event).events else [])
      + ProximityEvents(r, deliveries[1..])
  }

  /**
   * Hands each delivery addressed to the robot to its `update`; deliveries
   * to other observers leave this model. Proximity readings never change the
   * robot, so only their announcements remain.
   */
  method Deliver(r: Robot, deliveries: seq<Delivery<Subscriber, SensorReading>>) returns (t: Transition)
    requires r.Valid()
    requires forall i :: 0 <= i < |deliveries| ==> deliveries[i].event.ProximityReading?
    ensures t.robot == r
    ensures t.events == ProximityEvents(r, deliveries)
  {
    var events: seq<RobotEvent> := [];
    var i := 0;
    while i < |deliveries|
      invariant 0 <= i <= |deliveries|
      invariant events + ProximityEvents(r, deliveries[i..]) == ProximityEvents(r, deliveries)
    {
      var d := deliveries[i];
      assert deliveries[i..] == [d] + deliveries[i + 1..];
      if d.observer == RobotSubscriber {
        var handled := HandleSensor(r, d.event);
        events := events + handled.events;
      }
      i := i + 1;
    }
    t := Transition(r, events);
  }

  /** With the robot as the only subscriber, a scan's announcements are those of the robot handling the reading. */
  lemma OnlyRobotListens(r: Robot, reading: SensorReading)
    ensures ProximityEvents(r, Broadcast([RobotSubscriber], reading)) == HandleProximity(r, reading).events
  {
    var ds := Broadcast([RobotSubscriber], reading);
    assert ds == [Delivery(RobotSubscriber, reading)];
    assert ds[1..] == [];
  }

  /** The square right in front of the robot stops the front ray. */
  predicate FrontBlocked(m: RobotManager)
    requires m.robot.Valid()
  {
    Blocks(m.robot.room, RayPoint(m.robot.current, Front, 1))
  }

  /**
   * The three sensors scan from the robot's square, front, then left, then
   * right. Only the front sensor can trigger an announcement: an obstacle
   * (or the grid's edge) right ahead.
   */
  method ScanAll(m: RobotManager) returns (events: seq<RobotEvent>)
    requires m.Valid()
    ensures events ==
      if FrontBlocked(m) then [RobotEvent(ObstacleDetected, Reading(ProximityReading(Front, 1, true, m.robot.current)))]
      else []
  {
    var r := m.robot;
    var fr, fd := Scan(m.front, r.room, r.current);
    var lr, ld := Scan(m.left, r.room, r.current);
    var rr, rd := Scan(m.right, r.room, r.current);
    var t1 := Deliver(r, fd);
    var t2 := Deliver(r, ld);
    var t3 := Deliver(r, rd);
    OnlyRobotListens(r, fr);
    OnlyRobotListens(r, lr);
    OnlyRobotListens(r, rr);
    assert HandleProximity(r, lr).events == [] && HandleProximity(r, rr).events == [] by {
      assert lr.Type() == Left && rr.Type() == Right;
    }
    if FrontBlocked(m) {
      assert fr.obstacleDetected by {
        assert Blocks(r.room, RayPoint(r.current, Front, 1));
      }
      assert fr.distance == 1;
    } else {
      assert !(fr.obstacleDetected && fr.distance == 1);
    }
    events := t1.events + t2.events + t3.events;
  }

  /**
   * `tick`: scan, then let the robot act in its state. The sensors and the
   * inaccessible list never change, and the robot changes only as its own
   * tick says.
   */
  method Tick(m: RobotManager) returns (m': RobotManager, scanEvents: seq<RobotEvent>, tickEvents: seq<RobotEvent>)
    requires m.Valid()
    ensures m'.Valid()
    ensures m' == m.(robot := m'.robot)
    ensures scanEvents ==
      if FrontBlocked(m) then [RobotEvent(ObstacleDetected, Reading(ProximityReading(Front, 1, true, m.robot.current)))]
      else []
    ensures TickOutcome(m.robot, Transition(m'.robot, tickEvents))
    ensures TickMayLead(m.robot.state, m'.robot.state)
    ensures m.robot.state.None? ==> m' == m && tickEvents == []
  {
    scanEvents := ScanAll(m);
    var t := States.Tick(m.robot);
    m' := m.(robot := t.robot);
    tickEvents := t.events;
  }

  /**
   * `requestPathTo`: the robot searches a route to `goal`; a goal it gets no
   * route to (because there is none, or because it is already there) is
   * appended to the inaccessible list.
   */
  method RequestPathTo(m: RobotManager, goal: Position) returns (m': RobotManager, events: seq<RobotEvent>)
    requires m.Valid()
    ensures m'.Valid()
    ensures Rerouted(m.robot, m'.robot, goal)
    ensures events == [RobotEvent(PathCalculated, Count(|m'.robot.path|))]
    ensures m'.front == m.front && m'.left == m.left && m'.right == m.right
    ensures goal == m.robot.current || !Reachable(m.robot.room, m.robot.current, goal) ==>
      m'.inaccessible == m.inaccessible + [goal]
    ensures goal != m.robot.current && Reachable(m.robot.room, m.robot.current, goal) ==>
      m'.inaccessible == m.inaccessible
  {
    var t := RecalculatePathTo(m.robot, goal);
    m' := m.(robot := t.robot);
    if !t.robot.HasPath() {
      m' := m'.(inaccessible := m'.inaccessible + [goal]);
    }
    events := t.events;
  }

  /** `setCharger`, delegated to the robot: the charger moves to `p`, which is flagged only when in bounds. */
  function SetCharger(m: RobotManager, p: Position): (m': RobotManager)
    requires m.Valid()
    ensures m'.Valid()
    ensures m' == m.(robot := m'.robot)
    ensures m'.robot.charger == Some(p)
    ensures m'.robot == m.robot.(charger := Some(p), room := m'.robot.room)
    ensures m'.robot.room.width == m.robot.room.width && m'.robot.room.height == m.robot.room.height
    ensures forall q :: m'.robot.room.IsObstacle(q) == m.robot.room.IsObstacle(q) && m'.robot.room.IsCleaned(q) == m.robot.room.IsCleaned(q)
    ensures forall q :: m'.robot.room.HasCharger(q) <==> (q == p && m.robot.room.InBounds(p)) || (q != p && Some(q) != m.robot.charger && m.robot.room.HasCharger(q))
  {
    m.(robot := Robots.SetCharger(m.robot, p))
  }
}

/**
 * The sensor subsystem: directional ray-cast proximity sensors and the
 * battery sensor, whose notion of distance to the charger is the length of an
 * A* route plus a safety margin.
 */
module Sensors {
  import opened Wrappers
  import opened Geometry
  import opened Rooms
  import opened Pathfinding
  import opened Subjects
  import Battery

  /** The direction tag every reading carries. */
  datatype Direction = Front | Left | Right

  /**
   * A reading. Both variants are immutable values; a battery reading is a
   * subclass of the plain reading in the source, see `Type`, `Distance` and
   * `IsObstacleDetected` for that view.
   */
  datatype SensorReading =
    | ProximityReading(kind: Direction, distance: int, obstacleDetected: bool, origin: Position)
    | BatteryReading(currentBattery: int, maxBattery: int, realDistanceToCharger: int,
                     needsCharging: bool, critical: bool, origin: Position, canReachCharger: bool)
  {
    function Type(): Direction {
      if ProximityReading? then kind else Front
    }

    function Distance(): int {
      if ProximityReading? then distance else realDistanceToCharger
    }

    predicate IsObstacleDetected() {
      ProximityReading? && obstacleDetected
    }

    function DistanceToCharger(): int
      requires BatteryReading?
    {
      realDistanceToCharger
    }
  }

  /** Seen as a plain reading, a battery reading faces front, reports its real distance and no obstacle. */
  lemma BatteryReadingAsSensorReading(r: SensorReading)
    requires r.BatteryReading?
    ensures r.Type() == Front && !r.IsObstacleDetected()
    ensures r.Distance() == r.realDistanceToCharger && r.DistanceToCharger() == r.realDistanceToCharger
  {
  }

  /** Who listens to a sensor: the robot, or some collaborator outside this model. */
  datatype Subscriber = RobotSubscriber | OtherSubscriber(id: nat)

  /** The unit step of each direction: front is (0, -1), left (-1, 0), right (1, 0). */
  function Offset(d: Direction): (v: Position)
    ensures Manhattan(Position(0, 0), v) == 1
  {
    match d
    case Front => Position(0, -1)
    case Left => Position(-1, 0)
    case Right => Position(1, 0)
  }

  /** The square `k` steps from `origin` along `d`. */
  function RayPoint(origin: Position, d: Direction, k: int): Position {
    Position(origin.x + Offset(d).x * k, origin.y + Offset(d).y * k)
  }

  /** What stops the ray: the grid's edge or an obstacle. */
  predicate Blocks(room: Room, p: Position)
    requires room.Valid()
  {
    !room.InBounds(p) || room.IsObstacle(p)
  }

  datatype ProximitySensor = ProximitySensor(kind: Direction, range: int, observers: seq<Subscriber>)

  function NewProximitySensor(kind: Direction, range: int): ProximitySensor {
    ProximitySensor(kind, range, [])
  }

  /**
   * Walks the ray one square at a time up to `range`, stopping at the first
   * blocking square. The reading is sent once to each registered observer,
   * in registration order.
   */
  method Scan(sensor: ProximitySensor, room: Room, origin: Position)
    returns (reading: SensorReading, deliveries: seq<Delivery<Subscriber, SensorReading>>)
    requires room.Valid()
    ensures reading.ProximityReading? && reading.kind == sensor.kind && reading.origin == origin
    ensures reading.obstacleDetected <==> exists k :: 1 <= k <= sensor.range && Blocks(room, RayPoint(origin, sensor.kind, k))
    ensures reading.obstacleDetected ==>
      && 1 <= reading.distance <= sensor.range
      && Blocks(room, RayPoint(origin, sensor.kind, reading.distance))
      && forall k :: 1 <= k < reading.distance ==> !Blocks(room, RayPoint(origin, sensor.kind, k))
    ensures !reading.obstacleDetected ==> reading.distance == -1
    ensures deliveries == Broadcast(sensor.observers, reading)
  {
    var found := false;
    var foundDist := -1;
    var d := 1;
    while d <= sensor.range
      invariant 1 <= d
      invariant sensor.range >= 1 ==> d <= sensor.range + 1
      invariant forall k :: 1 <= k < d ==> !Blocks(room, RayPoint(origin, sensor.kind, k))
      invariant !found && foundDist == -1
    {
      var p := RayPoint(origin, sensor.kind, d);
      if !room.InBounds(p) || room.IsObstacle(p) {
        foundDist := d;
        found := true;
        break;
      }
      d := d + 1;
    }
    reading := ProximityReading(sensor.kind, if found then foundDist else -1, found, origin);
    deliveries := Broadcast(sensor.observers, reading);
  }

  /** The battery sensor keeps its own copy of the level, synchronised on each check. */
  datatype BatterySensor = BatterySensor(level: int, maxBattery: int, observers: seq<Subscriber>)

  function NewBatterySensor(maxBattery: int): (s: BatterySensor)
    ensures s.level == s.maxBattery == maxBattery && s.observers == []
  {
    BatterySensor(maxBattery, maxBattery, [])
  }

  function ConsumeSensorBattery(s: BatterySensor, amount: int): (r: BatterySensor)
    ensures r.maxBattery == s.maxBattery && r.observers == s.observers
    ensures r.level == Battery.Consume(s.level, amount)
  {
    s.(level := Battery.Consume(s.level, amount))
  }

  function ChargeSensorBattery(s: BatterySensor, amount: int): (r: BatterySensor)
    ensures r.maxBattery == s.maxBattery && r.observers == s.observers
    ensures r.level == Battery.Charge(s.level, s.maxBattery, amount)
  {
    s.(level := Battery.Charge(s.level, s.maxBattery, amount))
  }

  /** Safety margin added to the route length. */
  const SafetyMargin: int := 5

  /** The distance reported when no route to the charger exists. */
  const NoRouteDistance: int := 999

  /** Whether a check runs the pathfinder: a known charger, a room, and not already on the charger. */
  predicate Searches(current: Position, charger: Option<Position>, room: Option<Room>) {
    charger.Some? && room.Some? && current != charger.value
  }

  /**
   * Synchronises the level, measures the real distance to the charger (0 at
   * the charger or without a charger or room; route length plus the margin
   * when A* finds a route; the sentinel and "unreachable" otherwise), derives
   * the two alarms, and sends the one reading to every observer.
   */
  method CheckBattery(sensor: BatterySensor, current: Position, charger: Option<Position>,
                      level: int, room: Option<Room>)
    returns (sensor': BatterySensor, reading: SensorReading,
             deliveries: seq<Delivery<Subscriber, SensorReading>>)
    requires room.Some? ==> room.value.Valid()
    ensures sensor' == sensor.(level := level)
    ensures reading.BatteryReading? && reading.origin == current
    ensures reading.currentBattery == level && reading.maxBattery == sensor.maxBattery
    ensures !Searches(current, charger, room) ==> reading.realDistanceToCharger == 0 && reading.canReachCharger
    ensures Searches(current, charger, room) ==>
      (reading.canReachCharger <==> Reachable(room.value, current, charger.value))
    ensures Searches(current, charger, room) && reading.canReachCharger ==>
      && (exists path :: Leads(room.value, current, path, charger.value) && reading.realDistanceToCharger == |path| + SafetyMargin)
      && reading.realDistanceToCharger >= Manhattan(current, charger.value) + SafetyMargin
    ensures Searches(current, charger, room) && !reading.canReachCharger ==>
      reading.realDistanceToCharger == NoRouteDistance
    ensures reading.needsCharging <==> level < reading.realDistanceToCharger
    ensures reading.critical <==> level <= 0 || !reading.canReachCharger
    ensures deliveries == Broadcast(sensor.observers, reading)
  {
    sensor' := sensor.(level := level);
    var realDistance := 0;
    var canReach := true;
    if charger.Some? && current == charger.value {
      realDistance := 0;
    } else if charger.Some? && room.Some? {
      var found := FindPath(current, charger.value, room.value);
      if found.Some? && found.value != [] {
        WalkAtLeastManhattan(room.value, current, found.value, charger.value);
        realDistance := |found.value| + SafetyMargin;
      } else {
        canReach := false;
        realDistance := NoRouteDistance;
      }
    }
    var needsCharging := sensor'.level < realDistance;
    var critical := sensor'.level <= 0 || !canReach;
    reading := BatteryReading(sensor'.level, sensor'.maxBattery, realDistance, needsCharging, critical, current, canReach);
    deliveries := Broadcast(sensor'.observers, reading);
  }
}

/**
 * The robot's state machine: `setState` (with the Returning state's path
 * search), each state's `tick`, the dispatching `tick`, and the robot's
 * reaction to sensor readings.
 */
module States {
  import opened Wrappers
  import opened Geometry
  import opened Rooms
  import opened Pathfinding
  import opened Sensors
  import opened Robots
  import Battery

  /** Battery units the charger restores per tick. */
  const ChargeRate: int := 5

  /**
   * `setState`. Entering Returning with a known charger first searches a
   * route to it (announcing the search) and then announces the new state;
   * every other target behaves as `SwitchState`.
   */
  method SetState(r: Robot, s: Option<StateKind>) returns (t: Transition)
    requires r.Valid()
    ensures t.robot.Valid()
    ensures t.robot.state == s
    ensures !(s == Some(Returning) && r.charger.Some?) ==> t == SwitchState(r, s)
    ensures s == Some(Returning) && r.charger.Some? ==>
      && Rerouted(r.(state := s), t.robot, r.charger.value)
      && t.events == [RobotEvent(PathCalculated, Count(|t.robot.path|)), StateChangedTo(Returning)]
  {
    if s == Some(Returning) && r.charger.Some? {
      var routed := RecalculatePathTo(r.(state := s), r.charger.value);
      t := Transition(routed.robot, routed.events + [StateChangedTo(Returning)]);
    } else {
      t := SwitchState(r, s);
    }
  }

  /**
   * The Cleaning state's tick: the current square is cleaned and, when a
   * path is set, the robot takes one move step.
   */
  function CleaningTick(r: Robot): (t: Transition)
    requires r.Valid()
    ensures t.robot.Valid()
    ensures r.room.InBounds(r.current) ==> t.robot.room.IsCleaned(r.current)
    ensures !r.HasPath() ==>
      && t.events == []
      && t.robot == r.(room := t.robot.room)
      && forall q :: t.robot.room.IsCleaned(q) == ((q == r.current && r.room.InBounds(q)) || r.room.IsCleaned(q))
    ensures r.HasPath() ==> t == PerformMoveStep(r.(room := r.room.SetCleaned(r.current, true)))
    ensures !r.HasPath() ==> t == Transition(r.(room := r.room.SetCleaned(r.current, true)), [])
  {
    var swept := r.(room := r.room.SetCleaned(r.current, true));
    if swept.HasPath() then PerformMoveStep(swept) else Transition(swept, [])
  }

  /**
   * The Charging state's tick: the battery gains `ChargeRate` up to its
   * capacity; once full the robot resumes cleaning.
   */
  function ChargingTick(r: Robot): (t: Transition)
    requires r.Valid()
    ensures t.robot.Valid()
    ensures r.battery <= t.robot.battery <= r.maxBattery
    ensures t.robot.battery == r.maxBattery || t.robot.battery == r.battery + ChargeRate
    ensures t.robot.battery == Battery.Charge(r.battery, r.maxBattery, ChargeRate)
    ensures t.robot.current == r.current && t.robot.path == r.path && t.robot.charger == r.charger
    ensures t.robot.IsBatteryFull() ==>
      && t.robot.state == Some(Cleaning)
      && t.robot.room == r.room.SetCleaned(r.current, true)
      && t.events == [StateChangedTo(Cleaning)]
    ensures t.robot.IsBatteryFull() ==>
      t.robot == r.(battery := t.robot.battery, state := Some(Cleaning), room := r.room.SetCleaned(r.current, true))
    ensures t.robot.maxBattery == r.maxBattery && t.robot.observers == r.observers
    ensures !t.robot.IsBatteryFull() ==> t.robot == r.(battery := t.robot.battery) && t.events == []
  {
    var charged := ChargeBattery(r, ChargeRate);
    if charged.IsBatteryFull() then SwitchState(charged, Some(Cleaning)) else Transition(charged, [])
  }

  /** The robot after at most `n` Charging ticks, stopping as soon as it leaves Charging. */
  ghost function ChargeFor(r: Robot, n: nat): Robot
    requires r.Valid()
    decreases n
  {
    if n == 0 || r.state != Some(Charging) then r
    else ChargeFor(ChargingTick(r).robot, n - 1)
  }

  /**
   * Charging always ends: enough ticks to cover the missing charge (and at
   * least one) leave the battery full and the robot Cleaning again.
   */
  lemma {:induction false} ChargingEndsInCleaning(r: Robot, n: nat)
    requires r.Valid() && r.state == Some(Charging)
    requires n >= 1 && n * ChargeRate >= r.maxBattery - r.battery
    ensures ChargeFor(r, n).state == Some(Cleaning)
    ensures ChargeFor(r, n).IsBatteryFull()
    ensures ChargeFor(r, n).current == r.current
    decreases n
  {
    var r' := ChargingTick(r).robot;
    assert ChargeFor(r, n) == ChargeFor(r', n - 1);
    if !r'.IsBatteryFull() {
      assert r'.battery == r.battery + ChargeRate;
      ChargingEndsInCleaning(r', n - 1);
    }
  }

  /**
   * The Returning state's tick: at the charger the robot starts Charging;
   * otherwise it follows its path, or searches a new route to the charger
   * when it has none.
   */
  method ReturningTick(r: Robot) returns (t: Transition)
    requires r.Valid()
    ensures t.robot.Valid()
    ensures r.charger == Some(r.current) ==> t == SwitchState(r, Some(Charging))
    ensures r.charger != Some(r.current) && r.HasPath() ==> t == PerformMoveStep(r)
    ensures r.charger != Some(r.current) && !r.HasPath() && r.charger.Some? ==>
      Rerouted(r, t.robot, r.charger.value) && t.events == [RobotEvent(PathCalculated, Count(|t.robot.path|))]
    ensures r.charger.None? && !r.HasPath() ==> t == Transition(r, [])
  {
    if r.charger.Some? && r.current == r.charger.value {
      t := SwitchState(r, Some(Charging));
    } else if r.HasPath() {
      t := PerformMoveStep(r);
    } else if r.charger.Some? {
      t := RecalculatePathTo(r, r.charger.value);
    } else {
      t := Transition(r, []);
    }
  }

  /** The states a single tick may lead to from `from`. */
  predicate TickMayLead(from: Option<StateKind>, to: Option<StateKind>) {
    || from == to
    || (from == Some(Cleaning) && (to == Some(Idle) || to == Some(Recalculating)))
    || (from == Some(Moving) && (to == Some(Idle) || to == Some(Recalculating)))
    || (from == Some(Returning) && (to == Some(Charging) || to == Some(Idle) || to == Some(Recalculating)))
    || (from == Some(Charging) && to == Some(Cleaning))
  }

  /**
   * What `tick` does in each state: nothing without a state or in Idle and
   * Recalculating; one move step in Moving; the state's own tick otherwise.
   */
  ghost predicate TickOutcome(r: Robot, t: Transition)
    requires r.Valid()
  {
    match r.state
    case None => t == Transition(r, [])
    case Some(Idle) => t == Transition(r, [])
    case Some(Recalculating) => t == Transition(r, [])
    case Some(Moving) => t == PerformMoveStep(r)
    case Some(Cleaning) => t == CleaningTick(r)
    case Some(Charging) => t == ChargingTick(r)
    case Some(Returning) =>
      if r.charger == Some(r.current) then t == SwitchState(r, Some(Charging))
      else if r.HasPath() then t == PerformMoveStep(r)
      else if r.charger.Some? then
        Rerouted(r, t.robot, r.charger.value) && t.events == [RobotEvent(PathCalculated, Count(|t.robot.path|))]
      else t == Transition(r, [])
  }

  /**
   * `tick`. Only the Charging state ever raises the battery, and every
   * other state spends at most one unit; a robot that moves lands on the
   * head of its path, which is in bounds, not blocked and now cleaned.
   */
  method Tick(r: Robot) returns (t: Transition)
    requires r.Valid()
    ensures t.robot.Valid()
    ensures TickOutcome(r, t)
    ensures TickMayLead(r.state, t.robot.state)
    ensures t.robot.maxBattery == r.maxBattery && t.robot.charger == r.charger && t.robot.observers == r.observers
    ensures r.state != Some(Charging) ==> t.robot.battery == r.battery || t.robot.battery == r.battery - BatteryPerMove
    ensures r.state == Some(Charging) ==> t.robot.battery >= r.battery
    ensures t.robot.current != r.current ==>
      r.HasPath() && t.robot.current == r.path[0] && !Blocked(t.robot.room, t.robot.current) && t.robot.room.IsCleaned(t.robot.current)
  {
    match r.state
    case None =>
      t := Transition(r, []);
    case Some(Idle) =>
      t := Transition(r, []);
    case Some(Recalculating) =>
      t := Transition(r, []);
    case Some(Moving) =>
      t := PerformMoveStep(r);
    case Some(Cleaning) =>
      t := CleaningTick(r);
    case Some(Charging) =>
      t := ChargingTick(r);
    case Some(Returning) =>
      t := ReturningTick(r);
  }

  /** A battery reading sends the robot home when it needs charging and is not already heading there or charging. */
  predicate GoesHome(r: Robot, reading: SensorReading) {
    && reading.BatteryReading?
    && reading.needsCharging
    && r.state != Some(Returning)
    && r.state != Some(Charging)
  }

  /** The state after the first decision of a battery reading. */
  function StateAfterLow(r: Robot, reading: SensorReading): Option<StateKind> {
    if GoesHome(r, reading) then Some(Returning) else r.state
  }

  /** A critical reading, or one with no route to the charger, stops a robot that is not already Idle. */
  predicate Halts(r: Robot, reading: SensorReading) {
    && reading.BatteryReading?
    && (reading.critical || !reading.canReachCharger)
    && StateAfterLow(r, reading) != Some(Idle)
  }

  /**
   * `handleSensor`. A battery reading may first send the robot home
   * (announcing the low battery, then entering Returning) and may then stop
   * it; the second decision sees the state the first one left. A proximity
   * reading is handled by `HandleProximity`. Position, battery, room and
   * observers never change.
   */
  method HandleSensor(r: Robot, reading: SensorReading) returns (t: Transition)
    requires r.Valid()
    ensures t.robot.Valid()
    ensures reading.ProximityReading? ==> t == HandleProximity(r, reading)
    ensures reading.BatteryReading? ==>
      t.robot.state == if Halts(r, reading) then Some(Idle) else StateAfterLow(r, reading)
    ensures t.robot == r.(state := t.robot.state, path := t.robot.path)
    ensures GoesHome(r, reading) && r.charger.Some? ==> Rerouted(r, t.robot.(state := r.state), r.charger.value)
    ensures !(GoesHome(r, reading) && r.charger.Some?) ==> t.robot.path == r.path
    ensures reading.BatteryReading? ==>
      t.events ==
        (if GoesHome(r, reading) then
           [RobotEvent(BatteryLow, Reading(reading))]
           + (if r.charger.Some? then [RobotEvent(PathCalculated, Count(|t.robot.path|))] else [])
           + [StateChangedTo(Returning)]
         else [])
        + (if Halts(r, reading) then [StateChangedTo(Idle)] else [])
  {
    if reading.ProximityReading? {
      t := HandleProximity(r, reading);
      return;
    }
    var events: seq<RobotEvent> := [];
    var cur := r;
    if GoesHome(r, reading) {
      events := [RobotEvent(BatteryLow, Reading(reading))];
      var home := SetState(cur, Some(Returning));
      cur := home.robot;
      events := events + home.events;
    }
    if (reading.critical || !reading.canReachCharger) && cur.state != Some(Idle) {
      var stop := SwitchState(cur, Some(Idle));
      cur := stop.robot;
      events := events + stop.events;
    }
    t := Transition(cur, events);
  }
}

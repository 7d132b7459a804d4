/**
 * Obstacle behaviours as a tagged variant (the source's strategy objects):
 * fixed obstacles and the charger never move; the cat moves on every third
 * robot move to a random free neighbour and dirties the square it leaves.
 */
module Obstacles {
  import opened Wrappers
  import opened Geometry
  import opened Rooms

  datatype ObstacleType = FixedObstacle | CatObstacle | ChargerObstacle

  /** The cat reacts to every third robot move. */
  const MovesToTrigger: int := 3

  /** A strategy with the only state any of them keeps: the cat's last reacted-to move count. */
  datatype Strategy = FixedStrategy | ChargerStrategy | CatStrategy(lastMoveCount: int) {

    function Type(): ObstacleType {
      match this
      case FixedStrategy => FixedObstacle
      case ChargerStrategy => ChargerObstacle
      case CatStrategy(_) => CatObstacle
    }

    predicate DirtiesCell() {
      CatStrategy?
    }
  }

  /** A freshly created cat has reacted to no move count but 0. */
  function NewCat(): (s: Strategy)
    ensures s.Type() == CatObstacle && s.DirtiesCell()
    ensures s.CatStrategy? && s.lastMoveCount == 0
  {
    CatStrategy(0)
  }

  /** Only the cat dirties squares, and each variant reports its own type. */
  lemma StrategyTraits(s: Strategy)
    ensures s.DirtiesCell() <==> s.Type() == CatObstacle
    ensures s.FixedStrategy? ==> s.Type() == FixedObstacle && !s.DirtiesCell()
    ensures s.ChargerStrategy? ==> s.Type() == ChargerObstacle && !s.DirtiesCell()
  {
  }

  /** The cat's trigger: a positive multiple of three that it has not reacted to yet. */
  predicate CatTriggers(lastMoveCount: int, moveCount: int) {
    moveCount > 0 && moveCount % MovesToTrigger == 0 && moveCount != lastMoveCount
  }

  /** What one strategy update produces: the strategy's new state, the room, and the move (None = stay). */
  datatype StrategyStep = StrategyStep(strategy: Strategy, room: Room, moved: Option<Position>)

  /**
   * One update of an obstacle standing at `at`, given the robot's move count.
   * The source's random choice among the cat's free neighbours is the
   * parameter `pick`, reduced modulo the number of candidates.
   */
  function StrategyUpdate(s: Strategy, room: Room, at: Position, moveCount: int, pick: nat): (u: StrategyStep)
    requires room.Valid()
    ensures u.room.Valid()
    ensures u.strategy.Type() == s.Type()
    ensures !s.CatStrategy? ==> u == StrategyStep(s, room, None)
    ensures s.CatStrategy? && !CatTriggers(s.lastMoveCount, moveCount) ==> u == StrategyStep(s, room, None)
    ensures s.CatStrategy? && CatTriggers(s.lastMoveCount, moveCount) ==> u.strategy == CatStrategy(moveCount)
    ensures u.moved.Some? ==>
      && s.CatStrategy? && CatTriggers(s.lastMoveCount, moveCount)
      && Adjacent(at, u.moved.value) && room.InBounds(u.moved.value) && !room.IsObstacle(u.moved.value)
      && u.room == room.SetCleaned(at, false)
    ensures u.moved.None? ==> u.room == room
    ensures u.moved.None? && s.CatStrategy? && CatTriggers(s.lastMoveCount, moveCount) ==>
      forall q :: Adjacent(at, q) ==> !room.InBounds(q) || room.IsObstacle(q)
  {
    match s
    case FixedStrategy => StrategyStep(s, room, None)
    case ChargerStrategy => StrategyStep(s, room, None)
    case CatStrategy(last) =>
      if CatTriggers(last, moveCount) then
        var valid := room.OpenAdjacent(at);
        if valid != [] then
          StrategyStep(CatStrategy(moveCount), room.SetCleaned(at, false), Some(valid[pick % |valid|]))
        else
          StrategyStep(CatStrategy(moveCount), room, None)
      else
        StrategyStep(s, room, None)
  }

  /** Updating twice with the same move count: the second update never moves and changes nothing. */
  lemma CatReactsOncePerCount(s: Strategy, room: Room, at: Position, at': Position, moveCount: int, pick: nat, pick': nat)
    requires room.Valid()
    ensures var u := StrategyUpdate(s, room, at, moveCount, pick);
            StrategyUpdate(u.strategy, u.room, at', moveCount, pick') == StrategyStep(u.strategy, u.room, None)
  {
  }

  /** Every free neighbour is a possible destination: some choice of `pick` selects it. */
  lemma CatMayChooseAnyFreeNeighbour(last: int, room: Room, at: Position, moveCount: int, q: Position)
    requires room.Valid()
    requires CatTriggers(last, moveCount)
    requires Adjacent(at, q) && room.InBounds(q) && !room.IsObstacle(q)
    ensures exists pick: nat :: StrategyUpdate(CatStrategy(last), room, at, moveCount, pick).moved == Some(q)
  {
    var valid := room.OpenAdjacent(at);
    var k :| 0 <= k < |valid| && valid[k] == q;
    SmallModulus(k, |valid|);
    assert StrategyUpdate(CatStrategy(last), room, at, moveCount, k).moved == Some(q);
  }

  lemma SmallModulus(k: nat, n: nat)
    requires k < n
    ensures k % n == k
  {
  }

  /** A dynamic obstacle: a position bound to one strategy for its whole life. */
  datatype DynamicObstacle = DynamicObstacle(position: Position, strategy: Strategy) {
    function Type(): ObstacleType {
      strategy.Type()
    }
  }

  datatype ObstacleStep = ObstacleStep(obstacle: DynamicObstacle, room: Room, moved: bool)

  /**
   * Updates the obstacle through its strategy. It reports whether it moved,
   * takes the returned position when it did, and touches no room flag itself:
   * in particular obstacle flags are not carried along to the new position.
   */
  function UpdateObstacle(ob: DynamicObstacle, room: Room, moveCount: int, pick: nat): (r: ObstacleStep)
    requires room.Valid()
    ensures r.room.Valid()
    ensures r.obstacle.Type() == ob.Type()
    ensures r.moved <==> StrategyUpdate(ob.strategy, room, ob.position, moveCount, pick).moved.Some?
    ensures r.moved ==> r.obstacle.position == StrategyUpdate(ob.strategy, room, ob.position, moveCount, pick).moved.value
    ensures !r.moved ==> r.obstacle.position == ob.position && r.room == room
    ensures forall q :: r.room.IsObstacle(q) == room.IsObstacle(q) && r.room.HasCharger(q) == room.HasCharger(q)
    ensures forall q :: q != ob.position ==> r.room.GetCell(q) == room.GetCell(q)
    ensures var u := StrategyUpdate(ob.strategy, room, ob.position, moveCount, pick);
      r.room == u.room && r.obstacle.strategy == u.strategy
  {
    var u := StrategyUpdate(ob.strategy, room, ob.position, moveCount, pick);
    match u.moved
    case Some(p) => ObstacleStep(DynamicObstacle(p, u.strategy), u.room, true)
    case None => ObstacleStep(DynamicObstacle(ob.position, u.strategy), u.room, false)
  }

  /** A dynamic obstacle updated twice with the same move count stays put the second time, with the room unchanged. */
  lemma ObstacleReactsOncePerCount(ob: DynamicObstacle, room: Room, moveCount: int, pick: nat, pick': nat)
    requires room.Valid()
    ensures var r := UpdateObstacle(ob, room, moveCount, pick);
            var r' := UpdateObstacle(r.obstacle, r.room, moveCount, pick');
            !r'.moved && r'.obstacle == r.obstacle && r'.room == r.room
  {
  }
}

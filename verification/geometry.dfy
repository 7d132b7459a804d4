/** Grid coordinates. `Position` is a value type: equality is by coordinates. */
module Geometry {

  datatype Position = Position(x: int, y: int)

  function Abs(n: int): (r: nat)
    ensures r == n || r == -n
  {
    if n < 0 then -n else n
  }

  /** Manhattan distance |dx| + |dy| between two positions. */
  function Manhattan(a: Position, b: Position): (r: nat)
    ensures r == 0 <==> a == b
  {
    Abs(a.x - b.x) + Abs(a.y - b.y)
  }

  /** Two positions are orthogonal neighbours of each other. */
  predicate Adjacent(a: Position, b: Position) {
    Manhattan(a, b) == 1
  }

  /** Manhattan distance changes by exactly one across an orthogonal step. */
  lemma AdjacentShiftsDistanceByOne(a: Position, b: Position, goal: Position)
    requires Adjacent(a, b)
    ensures Manhattan(a, goal) == Manhattan(b, goal) + 1 || Manhattan(b, goal) == Manhattan(a, goal) + 1
  {
  }
}

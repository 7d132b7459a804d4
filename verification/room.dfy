/**
 * The room: a width x height grid of cells, each carrying three independent
 * flags (obstacle, cleaned, charger). Reads outside the grid answer false and
 * writes outside the grid do nothing.
 */
module Rooms {
  import opened Wrappers
  import opened Geometry

  /** The per-square state. The three flags are independent of one another. */
  datatype Cell = Cell(obstacle: bool, cleaned: bool, charger: bool) {

    function WithObstacle(b: bool): (c: Cell)
      ensures c.obstacle == b
      ensures c.cleaned == cleaned && c.charger == charger
    {
      this.(obstacle := b)
    }

    function WithCleaned(b: bool): (c: Cell)
      ensures c.cleaned == b
      ensures c.obstacle == obstacle && c.charger == charger
    {
      this.(cleaned := b)
    }

    function WithCharger(b: bool): (c: Cell)
      ensures c.charger == b
      ensures c.obstacle == obstacle && c.cleaned == cleaned
    {
      this.(charger := b)
    }
  }

  /** A freshly constructed cell: no obstacle, not cleaned, no charger. */
  function NewCell(): (c: Cell)
    ensures !c.obstacle && !c.cleaned && !c.charger
  {
    Cell(false, false, false)
  }

  /** Setting one flag never disturbs another, so a cell may be both an obstacle and a charger. */
  lemma CellFlagsIndependent(c: Cell, o: bool, k: bool)
    ensures c.WithObstacle(o).WithCharger(k).obstacle == o
    ensures c.WithObstacle(o).WithCharger(k).charger == k
    ensures c.WithObstacle(o).WithCharger(k) == c.WithCharger(k).WithObstacle(o)
  {
  }

  /** The grid, stored column-major as `cells[x][y]`. */
  datatype Room = Room(width: nat, height: nat, cells: seq<seq<Cell>>) {

    predicate Valid() {
      && |cells| == width
      && forall x :: 0 <= x < width ==> |cells[x]| == height
    }

    predicate InBounds(p: Position) {
      0 <= p.x < width && 0 <= p.y < height
    }

    /** The cell at `p`, or None (the source's null) outside the grid. */
    function GetCell(p: Position): (r: Option<Cell>)
      requires Valid()
      ensures r.Some? <==> InBounds(p)
    {
      if InBounds(p) then Some(cells[p.x][p.y]) else None
    }

    /** False outside the grid; inside, the square's obstacle flag. */
    predicate IsObstacle(p: Position): (r: bool)
      requires Valid()
      ensures r ==> InBounds(p)
      ensures InBounds(p) ==> (r <==> cells[p.x][p.y].obstacle)
    {
      match GetCell(p)
      case Some(c) => c.obstacle
      case None => false
    }

    /** False outside the grid; inside, the square's cleaned flag. */
    predicate IsCleaned(p: Position): (r: bool)
      requires Valid()
      ensures r ==> InBounds(p)
      ensures InBounds(p) ==> (r <==> cells[p.x][p.y].cleaned)
    {
      match GetCell(p)
      case Some(c) => c.cleaned
      case None => false
    }

    /** False outside the grid; inside, the square's charger flag. */
    predicate HasCharger(p: Position): (r: bool)
      requires Valid()
      ensures r ==> InBounds(p)
      ensures InBounds(p) ==> (r <==> cells[p.x][p.y].charger)
    {
      match GetCell(p)
      case Some(c) => c.charger
      case None => false
    }

    /** Replaces the cell at an in-bounds position; every other cell is kept. */
    function PutCell(p: Position, c: Cell): (r: Room)
      requires Valid() && InBounds(p)
      ensures r.Valid() && r.width == width && r.height == height
      ensures r.GetCell(p) == Some(c)
      ensures forall q :: q != p ==> r.GetCell(q) == GetCell(q)
    {
      Room(width, height, cells[p.x := cells[p.x][p.y := c]])
    }

    function SetObstacle(p: Position, b: bool): (r: Room)
      requires Valid()
      ensures r.Valid() && r.width == width && r.height == height
      ensures !InBounds(p) ==> r == this
      ensures forall q :: q != p ==> r.GetCell(q) == GetCell(q)
      ensures forall q :: r.IsObstacle(q) == (if q == p && InBounds(p) then b else IsObstacle(q))
      ensures forall q :: r.IsCleaned(q) == IsCleaned(q) && r.HasCharger(q) == HasCharger(q)
    {
      if InBounds(p) then PutCell(p, cells[p.x][p.y].WithObstacle(b)) else this
    }

    function SetCleaned(p: Position, b: bool): (r: Room)
      requires Valid()
      ensures r.Valid() && r.width == width && r.height == height
      ensures !InBounds(p) ==> r == this
      ensures forall q :: q != p ==> r.GetCell(q) == GetCell(q)
      ensures forall q :: r.IsCleaned(q) == (if q == p && InBounds(p) then b else IsCleaned(q))
      ensures forall q :: r.IsObstacle(q) == IsObstacle(q) && r.HasCharger(q) == HasCharger(q)
    {
      if InBounds(p) then PutCell(p, cells[p.x][p.y].WithCleaned(b)) else this
    }

    function SetCharger(p: Position, b: bool): (r: Room)
      requires Valid()
      ensures r.Valid() && r.width == width && r.height == height
      ensures !InBounds(p) ==> r == this
      ensures forall q :: q != p ==> r.GetCell(q) == GetCell(q)
      ensures forall q :: r.HasCharger(q) == (if q == p && InBounds(p) then b else HasCharger(q))
      ensures forall q :: r.IsObstacle(q) == IsObstacle(q) && r.IsCleaned(q) == IsCleaned(q)
    {
      if InBounds(p) then PutCell(p, cells[p.x][p.y].WithCharger(b)) else this
    }

    /** A square an obstacle-free move may enter. */
    predicate Passable(q: Position)
      requires Valid()
    {
      InBounds(q) && !IsObstacle(q)
    }

    /**
     * The passable squares among the four orthogonal neighbours of `p`, in
     * the order +x, -x, +y, -y; `p` itself need not be in bounds.
     */
    function OpenAdjacent(p: Position): (r: seq<Position>)
      requires Valid()
      ensures |r| <= 4
      ensures forall q :: q in r <==> Adjacent(p, q) && Passable(q)
      ensures forall i, j :: 0 <= i < j < |r| ==> Direction(p, r[i]) < Direction(p, r[j])
    {
      OpenFrom(p, 0)
    }

    /** The passable candidates of `p` from direction `k` on, in direction order. */
    function OpenFrom(p: Position, k: nat): (r: seq<Position>)
      requires Valid() && k <= 4
      ensures |r| <= 4 - k
      ensures forall q :: q in r <==> Adjacent(p, q) && Passable(q) && k <= Direction(p, q)
      ensures forall i, j :: 0 <= i < j < |r| ==> Direction(p, r[i]) < Direction(p, r[j])
      decreases 4 - k
    {
      if k == 4 then
        assert forall q :: Adjacent(p, q) ==> Direction(p, q) < 4 by {
          forall q | Adjacent(p, q) { AdjacentIsCandidate(p, q); }
        }
        []
      else
        var q := Candidates(p)[k];
        var rest := OpenFrom(p, k + 1);
        assert forall x :: Direction(p, x) == k ==> x == q;
        if Passable(q) then [q] + rest else rest
    }

    /**
     * The 4-connected neighbours of `p` a path may step to: empty when `p` is
     * outside the grid, otherwise the in-bounds non-obstacle orthogonal
     * squares in the order +x, -x, +y, -y. The charger flag plays no part.
     */
    function Neighbors(p: Position): (r: seq<Position>)
      requires Valid()
      ensures !InBounds(p) ==> r == []
      ensures |r| <= 4
      ensures forall q :: q in r <==> InBounds(p) && Adjacent(p, q) && InBounds(q) && !IsObstacle(q)
      ensures forall i, j :: 0 <= i < j < |r| ==> Direction(p, r[i]) < Direction(p, r[j])
    {
      if !InBounds(p) then [] else OpenAdjacent(p)
    }

    /** Every in-bounds position, as a ghost enumeration used for counting arguments. */
    ghost function Positions(): (r: seq<Position>)
      ensures forall q :: q in r <==> InBounds(q)
    {
      Columns(width, height)
    }
  }

  /**
   * The bounds test uses the stored width and height, and in a well-formed
   * room these are exactly the positions the cell array holds.
   */
  lemma InBoundsIsStored(room: Room, p: Position)
    requires room.Valid()
    ensures room.InBounds(p) <==> 0 <= p.x < |room.cells| && 0 <= p.y < |room.cells[p.x]|
  {
  }

  /** The four orthogonal neighbours in the source's delta order +x, -x, +y, -y. */
  function Candidates(p: Position): (r: seq<Position>)
    ensures |r| == 4
    ensures forall i :: 0 <= i < 4 ==> Adjacent(p, r[i]) && Direction(p, r[i]) == i
  {
    [Position(p.x + 1, p.y), Position(p.x - 1, p.y), Position(p.x, p.y + 1), Position(p.x, p.y - 1)]
  }

  /** The index of the delta leading from `p` to `q` (4 when `q` is not a neighbour). */
  function Direction(p: Position, q: Position): nat {
    if q == Position(p.x + 1, p.y) then 0
    else if q == Position(p.x - 1, p.y) then 1
    else if q == Position(p.x, p.y + 1) then 2
    else if q == Position(p.x, p.y - 1) then 3
    else 4
  }

  /** Every orthogonal neighbour is one of the four candidates. */
  lemma AdjacentIsCandidate(p: Position, q: Position)
    requires Adjacent(p, q)
    ensures q in Candidates(p)
  {
    assert q == Candidates(p)[Direction(p, q)];
  }

  ghost function Columns(w: nat, h: nat): (r: seq<Position>)
    ensures forall q :: q in r <==> 0 <= q.x < w && 0 <= q.y < h
  {
    if w == 0 then []
    else
      var col := seq(h, y => Position(w - 1, y));
      assert forall q :: q in col <==> q.x == w - 1 && 0 <= q.y < h by {
        forall q: Position | q.x == w - 1 && 0 <= q.y < h ensures q in col {
          assert col[q.y] == q;
        }
      }
      Columns(w - 1, h) + col
  }

  /** A freshly constructed room: every cell has all three flags false. */
  function NewRoom(width: nat, height: nat): (r: Room)
    ensures r.Valid() && r.width == width && r.height == height
    ensures forall q :: r.GetCell(q) == if r.InBounds(q) then Some(NewCell()) else None
    ensures forall q :: !r.IsObstacle(q) && !r.IsCleaned(q) && !r.HasCharger(q)
  {
    Room(width, height, seq(width, x => seq(height, y => NewCell())))
  }

  /** x-major order on positions: by column, then by row. */
  predicate ColumnMajorBefore(a: Position, b: Position) {
    a.x < b.x || (a.x == b.x && a.y < b.y)
  }

  /**
   * All in-bounds non-obstacle positions, scanning x outermost and y inner;
   * the strict ordering also rules out duplicates.
   */
  method CleanablePositions(room: Room) returns (res: seq<Position>)
    requires room.Valid()
    ensures forall q :: q in res <==> room.InBounds(q) && !room.IsObstacle(q)
    ensures forall i, j :: 0 <= i < j < |res| ==> ColumnMajorBefore(res[i], res[j])
  {
    res := [];
    var x := 0;
    while x < room.width
      invariant 0 <= x <= room.width
      invariant forall q :: q in res <==> q.x < x && room.InBounds(q) && !room.IsObstacle(q)
      invariant forall i, j :: 0 <= i < j < |res| ==> ColumnMajorBefore(res[i], res[j])
    {
      var y := 0;
      while y < room.height
        invariant 0 <= y <= room.height
        invariant forall q :: q in res <==> (q.x < x || (q.x == x && q.y < y)) && room.InBounds(q) && !room.IsObstacle(q)
        invariant forall i, j :: 0 <= i < j < |res| ==> ColumnMajorBefore(res[i], res[j])
        invariant forall i :: 0 <= i < |res| ==> ColumnMajorBefore(res[i], Position(x, y))
      {
        var p := Position(x, y);
        if !room.IsObstacle(p) {
          res := res + [p];
        }
        y := y + 1;
      }
      x := x + 1;
    }
  }
}

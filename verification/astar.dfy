/**
 * A* search over the room's 4-connected grid with the Manhattan heuristic.
 * Entering a square costs 1, plus 1 more when that square is already
 * cleaned, which steers routes through dirty squares. The result runs from
 * the start (excluded) to the goal (included); None stands for the source's
 * null "no path".
 */
module Pathfinding {
  import opened Wrappers
  import opened Geometry
  import opened Rooms

  /** The cost of stepping onto `q`. */
  function StepCost(room: Room, q: Position): (c: nat)
    requires room.Valid()
    ensures 1 <= c <= 2
    ensures c == 2 <==> room.IsCleaned(q)
  {
    1 + (if room.IsCleaned(q) then 1 else 0)
  }

  /** The Manhattan heuristic |dx| + |dy|. */
  function Heuristic(a: Position, b: Position): (h: nat)
    ensures h == 0 <==> a == b
  {
    Manhattan(a, b)
  }

  /**
   * The heuristic is consistent: across one step it never drops by more than
   * the step costs, since it changes by one and every step costs at least one.
   */
  lemma HeuristicConsistent(room: Room, a: Position, b: Position, goal: Position)
    requires room.Valid()
    requires Step(room, a, b)
    ensures Heuristic(a, goal) <= StepCost(room, b) + Heuristic(b, goal)
  {
    AdjacentShiftsDistanceByOne(a, b, goal);
  }

  /** One move of a route: from an in-bounds `a` onto a passable orthogonal neighbour. */
  predicate Step(room: Room, a: Position, b: Position)
    requires room.Valid()
  {
    room.InBounds(a) && Adjacent(a, b) && room.Passable(b)
  }

  /** The moves the search takes are exactly the room's neighbour lists. */
  lemma NeighborsAreSteps(room: Room, a: Position)
    requires room.Valid()
    ensures forall b :: b in room.Neighbors(a) <==> Step(room, a, b)
  {
  }

  /** `path` is a chain of steps starting next to `from`. */
  predicate IsWalk(room: Room, from: Position, path: seq<Position>)
    requires room.Valid()
  {
    && (|path| > 0 ==> Step(room, from, path[0]))
    && forall i :: 1 <= i < |path| ==> Step(room, path[i - 1], path[i])
  }

  /** `path` is a non-empty walk from `from` that ends at `goal`. */
  predicate Leads(room: Room, from: Position, path: seq<Position>, goal: Position)
    requires room.Valid()
  {
    IsWalk(room, from, path) && |path| > 0 && path[|path| - 1] == goal
  }

  /** Some walk leads from `from` to `goal`. */
  ghost predicate Reachable(room: Room, from: Position, goal: Position)
    requires room.Valid()
  {
    exists path :: Leads(room, from, path, goal)
  }

  /** Every square a walk enters is in bounds and free of obstacles, so in particular its goal is. */
  lemma {:induction false} WalkIsPassable(room: Room, from: Position, path: seq<Position>)
    requires room.Valid()
    requires IsWalk(room, from, path)
    ensures forall q :: q in path ==> room.InBounds(q) && !room.IsObstacle(q)
    ensures |path| > 0 ==> room.InBounds(from)
  {
    forall q | q in path
      ensures room.InBounds(q) && !room.IsObstacle(q)
    {
      var i :| 0 <= i < |path| && path[i] == q;
      if i == 0 {
        assert Step(room, from, path[0]);
      } else {
        assert Step(room, path[i - 1], path[i]);
      }
    }
    if |path| > 0 {
      assert Step(room, from, path[0]);
    }
  }

  /** A route can be no shorter than the Manhattan distance it covers. */
  lemma {:induction false} WalkAtLeastManhattan(room: Room, from: Position, path: seq<Position>, goal: Position)
    requires room.Valid()
    requires Leads(room, from, path, goal)
    ensures |path| >= Manhattan(from, goal)
    decreases |path|
  {
    assert Step(room, from, path[0]);
    if |path| > 1 {
      var rest := path[1..];
      assert Leads(room, path[0], rest, goal) by {
        forall i | 1 <= i < |rest|
          ensures Step(room, rest[i - 1], rest[i])
        {
          assert Step(room, path[i], path[i + 1]);
        }
      }
      WalkAtLeastManhattan(room, path[0], rest, goal);
      AdjacentShiftsDistanceByOne(from, path[0], goal);
    } else {
      AdjacentShiftsDistanceByOne(from, path[0], goal);
    }
  }

  /** An entry of the open list: a position, its g-score when pushed and its f-score. */
  datatype Node = Node(pos: Position, g: nat, f: nat)

  /** The index of an entry of least f-score; ties go to the earliest entry. */
  function MinIndex(open: seq<Node>): (i: nat)
    requires |open| > 0
    ensures i < |open|
    ensures forall j :: 0 <= j < |open| ==> open[i].f <= open[j].f
  {
    if |open| == 1 then 0
    else
      var k := MinIndex(open[1..]) + 1;
      if open[0].f <= open[k].f then 0 else k
  }

  predicate InOpen(open: seq<Node>, n: Position) {
    exists k :: 0 <= k < |open| && open[k].pos == n
  }

  /** The open list with entry `i` polled. */
  function Without(open: seq<Node>, i: nat): (r: seq<Node>)
    requires i < |open|
    ensures |r| == |open| - 1
    ensures forall k :: 0 <= k < |r| ==> r[k] == if k < i then open[k] else open[k + 1]
  {
    open[..i] + open[i + 1..]
  }

  /** Removing one entry keeps every position that had another entry. */
  lemma RemoveKeepsOthers(open: seq<Node>, i: nat, n: Position)
    requires i < |open| && open[i].pos != n
    requires InOpen(open, n)
    ensures InOpen(Without(open, i), n)
  {
    var k :| 0 <= k < |open| && open[k].pos == n;
    var rest := Without(open, i);
    if k < i {
      assert rest[k] == open[k];
    } else {
      assert rest[k - 1] == open[k];
    }
  }

  /** The number of entries of `u` that have no g-score yet. */
  ghost function Missing(g: map<Position, nat>, u: seq<Position>): nat {
    if u == [] then 0
    else Missing(g, u[1..]) + (if u[0] in g then 0 else 1)
  }

  /** The sum of the g-scores of the entries of `u` that have one. */
  ghost function Total(g: map<Position, nat>, u: seq<Position>): nat {
    if u == [] then 0
    else Total(g, u[1..]) + (if u[0] in g then g[u[0]] else 0)
  }

  /** Lexicographic order on (missing, total): the search's progress measure. */
  ghost predicate Below(m1: nat, t1: nat, m0: nat, t0: nat) {
    m1 < m0 || (m1 == m0 && t1 < t0)
  }

  /** Scoring a position for the first time lowers the count of unscored squares. */
  lemma {:induction false} AddKeyProgress(g: map<Position, nat>, u: seq<Position>, k: Position, v: nat)
    requires k !in g
    ensures Missing(g[k := v], u) <= Missing(g, u)
    ensures k in u ==> Missing(g[k := v], u) < Missing(g, u)
  {
    if u != [] {
      AddKeyProgress(g, u[1..], k, v);
      if u[0] != k {
        assert k in u ==> k in u[1..];
      }
    }
  }

  /** Lowering an existing score keeps the count and lowers the total. */
  lemma {:induction false} LowerKeyProgress(g: map<Position, nat>, u: seq<Position>, k: Position, v: nat)
    requires k in g && v < g[k]
    ensures Missing(g[k := v], u) == Missing(g, u)
    ensures Total(g[k := v], u) <= Total(g, u)
    ensures k in u ==> Total(g[k := v], u) < Total(g, u)
  {
    if u != [] {
      LowerKeyProgress(g, u[1..], k, v);
      if u[0] != k {
        assert k in u ==> k in u[1..];
      }
    }
  }

  /**
   * The bookkeeping A* maintains: the start is scored 0 and never gets a
   * parent; every other scored position has a parent it is one step from,
   * with a strictly smaller score; open entries are scored.
   */
  ghost predicate Tree(room: Room, start: Position, open: seq<Node>,
                       g: map<Position, nat>, cameFrom: map<Position, Position>)
    requires room.Valid()
  {
    && start in g && g[start] == 0
    && (forall n :: n in cameFrom ==> n in g && cameFrom[n] in g && g[cameFrom[n]] < g[n])
    && (forall n :: n in cameFrom ==> Step(room, cameFrom[n], n))
    && (forall n :: n in g ==> n == start || n in cameFrom)
    && (forall k :: 0 <= k < |open| ==> open[k].pos in g)
  }

  /** Every neighbour of `n` has a score: `n` has been fully expanded. */
  ghost predicate Expanded(room: Room, g: map<Position, nat>, n: Position)
    requires room.Valid()
  {
    forall m :: Step(room, n, m) ==> m in g
  }

  /**
   * What makes "no path" sound: a scored position with no open entry has
   * been expanded and is not the goal.
   */
  ghost predicate Frontier(room: Room, goal: Position, open: seq<Node>, g: map<Position, nat>)
    requires room.Valid()
  {
    forall n :: n in g && !InOpen(open, n) ==> n != goal && Expanded(room, g, n)
  }

  /** A set of positions closed under steps contains every walk from its members. */
  lemma {:induction false} ClosedContainsWalk(room: Room, g: map<Position, nat>, from: Position, path: seq<Position>)
    requires room.Valid()
    requires from in g
    requires forall n :: n in g ==> Expanded(room, g, n)
    requires IsWalk(room, from, path)
    ensures forall q :: q in path ==> q in g
    decreases |path|
  {
    if |path| > 0 {
      assert Step(room, from, path[0]);
      assert Expanded(room, g, from);
      var rest := path[1..];
      assert IsWalk(room, path[0], rest) by {
        forall i | 1 <= i < |rest|
          ensures Step(room, rest[i - 1], rest[i])
        {
          assert Step(room, path[i], path[i + 1]);
        }
      }
      ClosedContainsWalk(room, g, path[0], rest);
    }
  }

  /**
   * Polling entry `i` keeps the bookkeeping, and keeps the frontier property
   * for every position other than the polled one.
   */
  lemma PopKeepsInvariants(room: Room, start: Position, goal: Position, open: seq<Node>, i: nat,
                           g: map<Position, nat>, cameFrom: map<Position, Position>)
    requires room.Valid() && i < |open|
    requires Tree(room, start, open, g, cameFrom)
    requires Frontier(room, goal, open, g)
    ensures Tree(room, start, Without(open, i), g, cameFrom)
    ensures open[i].pos in g
    ensures forall n :: n in g && !InOpen(Without(open, i), n) && n != open[i].pos ==> n != goal && Expanded(room, g, n)
  {
    forall n | n in g && !InOpen(Without(open, i), n) && n != open[i].pos
      ensures n != goal && Expanded(room, g, n)
    {
      if InOpen(open, n) {
        RemoveKeepsOthers(open, i, n);
      }
    }
  }

  /** Once every scored position is expanded and none is the goal, no walk reaches the goal. */
  lemma ExhaustedMeansUnreachable(room: Room, start: Position, goal: Position, g: map<Position, nat>)
    requires room.Valid()
    requires start in g
    requires forall n :: n in g ==> n != goal && Expanded(room, g, n)
    ensures !Reachable(room, start, goal)
  {
    if Reachable(room, start, goal) {
      var path :| Leads(room, start, path, goal);
      assert goal in path;
      ClosedContainsWalk(room, g, start, path);
    }
  }

  /**
   * A* from `start` to `goal`. Equal start and goal give the empty route; a
   * route found leads from the start, one step at a time over in-bounds
   * non-obstacle squares, to the goal and never revisits the start; None
   * comes back exactly when no such route exists. The open list is a plain
   * sequence from which an entry of least f-score is taken.
   */
  method FindPath(start: Position, goal: Position, room: Room) returns (r: Option<seq<Position>>)
    requires room.Valid()
    ensures start == goal ==> r == Some([])
    ensures r.Some? && start != goal ==> Leads(room, start, r.value, goal) && start !in r.value
    ensures r.None? <==> start != goal && !Reachable(room, start, goal)
    ensures start != goal && (room.IsObstacle(goal) || !room.InBounds(goal)) ==> r.None?
  {
    if start == goal {
      return Some([]);
    }
    var open := [Node(start, 0, Heuristic(start, goal))];
    var g: map<Position, nat> := map[start := 0];
    var cameFrom: map<Position, Position> := map[];
    ghost var u := room.Positions();
    assert InOpen(open, start) by {
      assert open[0].pos == start;
    }

    while |open| > 0
      invariant Tree(room, start, open, g, cameFrom)
      invariant Frontier(room, goal, open, g)
      decreases Missing(g, u), Total(g, u), |open|
    {
      var i := MinIndex(open);
      var current := open[i].pos;
      PopKeepsInvariants(room, start, goal, open, i, g, cameFrom);
      open := Without(open, i);
      if current == goal {
        var path := ReconstructPath(room, start, goal, cameFrom, g);
        return Some(path);
      }

      open, g, cameFrom := ExpandNode(room, start, goal, current, open, g, cameFrom, u);
    }

    assert forall n :: n in g ==> !InOpen(open, n);
    ExhaustedMeansUnreachable(room, start, goal, g);
    return None;
  }

  /**
   * Relaxes every neighbour of `current`: a neighbour reached more cheaply
   * than before (or for the first time) gets `current` as parent, the new
   * score, and a fresh open entry. Afterwards `current` is expanded, and
   * either the progress measure has fallen or nothing changed at all.
   */
  method ExpandNode(room: Room, ghost start: Position, goal: Position, current: Position,
                    open: seq<Node>, g: map<Position, nat>, cameFrom: map<Position, Position>,
                    ghost u: seq<Position>)
    returns (open': seq<Node>, g': map<Position, nat>, cameFrom': map<Position, Position>)
    requires room.Valid()
    requires forall q :: room.InBounds(q) ==> q in u
    requires Tree(room, start, open, g, cameFrom)
    requires current in g && current != goal
    requires forall n :: n in g && !InOpen(open, n) && n != current ==> n != goal && Expanded(room, g, n)
    ensures Tree(room, start, open', g', cameFrom')
    ensures Frontier(room, goal, open', g')
    ensures Below(Missing(g', u), Total(g', u), Missing(g, u), Total(g, u)) || (g' == g && open' == open)
    ensures Expanded(room, g', current)
  {
    var ns := room.Neighbors(current);
    NeighborsAreSteps(room, current);
    open', g', cameFrom' := RelaxEach(room, start, goal, current, ns, open, g, cameFrom, u);
    forall m | Step(room, current, m)
      ensures m in g'
    {
      assert m in ns;
    }
    assert forall n :: n in g && Expanded(room, g, n) ==> Expanded(room, g', n);
  }

  /**
   * Relaxes the neighbours in `ns` one after another. Every one of them ends
   * up scored, no score is lost, nothing is closed that was open, and either
   * the progress measure has fallen or nothing changed at all.
   */
  method RelaxEach(room: Room, ghost start: Position, goal: Position, current: Position, ns: seq<Position>,
                   open: seq<Node>, g: map<Position, nat>, cameFrom: map<Position, Position>,
                   ghost u: seq<Position>)
    returns (open': seq<Node>, g': map<Position, nat>, cameFrom': map<Position, Position>)
    requires room.Valid()
    requires Tree(room, start, open, g, cameFrom)
    requires current in g
    requires forall q :: q in ns ==> Step(room, current, q) && q in u
    ensures Tree(room, start, open', g', cameFrom')
    ensures forall q :: q in ns ==> q in g'
    ensures forall n :: n in g ==> n in g'
    ensures forall n :: n in g' && !InOpen(open', n) ==> n in g && !InOpen(open, n)
    ensures Below(Missing(g', u), Total(g', u), Missing(g, u), Total(g, u)) || (g' == g && open' == open)
    decreases |ns|
  {
    if ns == [] {
      return open, g, cameFrom;
    }
    var open1, g1, cameFrom1 := Relax(room, start, goal, current, ns[0], open, g, cameFrom, u);
    open', g', cameFrom' := RelaxEach(room, start, goal, current, ns[1..], open1, g1, cameFrom1, u);
    assert forall q :: q in ns ==> q == ns[0] || q in ns[1..];
  }

  /**
   * One relaxation: when reaching `nb` through `current` is cheaper than its
   * score (or `nb` has none), `nb` gets `current` as parent, the new score and
   * a new open entry; otherwise nothing changes.
   */
  method Relax(room: Room, ghost start: Position, goal: Position, current: Position, nb: Position,
               open: seq<Node>, g: map<Position, nat>, cameFrom: map<Position, Position>,
               ghost u: seq<Position>)
    returns (open': seq<Node>, g': map<Position, nat>, cameFrom': map<Position, Position>)
    requires room.Valid()
    requires Tree(room, start, open, g, cameFrom)
    requires current in g && Step(room, current, nb) && nb in u
    ensures Tree(room, start, open', g', cameFrom')
    ensures nb in g' && current in g' && g'[current] == g[current]
    ensures forall n :: n in g ==> n in g'
    ensures forall n :: InOpen(open, n) ==> InOpen(open', n)
    ensures forall n :: n in g' && !InOpen(open', n) ==> n in g && !InOpen(open, n)
    ensures Below(Missing(g', u), Total(g', u), Missing(g, u), Total(g, u)) || (g' == g && open' == open)
    ensures nb !in g || g[current] + StepCost(room, nb) < g[nb] ==>
      && g'[nb] == g[current] + StepCost(room, nb)
      && g' == g[nb := g'[nb]]
      && cameFrom' == cameFrom[nb := current]
      && open' == open + [Node(nb, g'[nb], g'[nb] + Heuristic(nb, goal))]
    ensures nb in g && g[nb] <= g[current] + StepCost(room, nb) ==>
      g' == g && cameFrom' == cameFrom && open' == open
  {
    var t := g[current] + StepCost(room, nb);
    if nb !in g || t < g[nb] {
      var e := Node(nb, t, t + Heuristic(nb, goal));
      open', g', cameFrom' := open + [e], g[nb := t], cameFrom[nb := current];
      Improvement(room, start, current, nb, e, open, g, cameFrom, u, t);
    } else {
      open', g', cameFrom' := open, g, cameFrom;
    }
  }

  /**
   * What the improving case of a relaxation keeps: the bookkeeping, every
   * open position, the frontier, and a fall of the progress measure.
   */
  lemma Improvement(room: Room, start: Position, current: Position, nb: Position, e: Node,
                    open: seq<Node>, g: map<Position, nat>, cameFrom: map<Position, Position>,
                    u: seq<Position>, t: nat)
    requires room.Valid()
    requires Tree(room, start, open, g, cameFrom)
    requires current in g && Step(room, current, nb) && nb in u
    requires t == g[current] + StepCost(room, nb) && e.pos == nb
    requires nb !in g || t < g[nb]
    ensures Tree(room, start, open + [e], g[nb := t], cameFrom[nb := current])
    ensures forall n :: InOpen(open, n) ==> InOpen(open + [e], n)
    ensures forall n :: n in g[nb := t] && !InOpen(open + [e], n) ==> n in g && !InOpen(open, n)
    ensures Below(Missing(g[nb := t], u), Total(g[nb := t], u), Missing(g, u), Total(g, u))
  {
    RelaxedKeepsTree(room, start, current, nb, e, open, g, cameFrom, t);
    AppendKeepsOpen(open, e);
    RelaxedProgress(g, u, nb, t);
  }

  /**
   * Giving `nb` the parent `current`, the score `t` and a new open entry keeps
   * the bookkeeping.
   */
  lemma RelaxedKeepsTree(room: Room, start: Position, current: Position, nb: Position, e: Node,
                         open: seq<Node>, g: map<Position, nat>, cameFrom: map<Position, Position>, t: nat)
    requires room.Valid()
    requires Tree(room, start, open, g, cameFrom)
    requires current in g && Step(room, current, nb)
    requires g[current] < t && e.pos == nb
    requires nb !in g || t < g[nb]
    ensures Tree(room, start, open + [e], g[nb := t], cameFrom[nb := current])
  {
    var open', g', cameFrom' := open + [e], g[nb := t], cameFrom[nb := current];
    assert nb != start;
    forall n | n in cameFrom'
      ensures n in g' && cameFrom'[n] in g' && g'[cameFrom'[n]] < g'[n]
      ensures Step(room, cameFrom'[n], n)
    {
      if n == nb {
        assert current != nb && g'[current] == g[current];
      } else {
        var p := cameFrom[n];
        assert cameFrom'[n] == p && g'[n] == g[n];
        assert p in g && g[p] < g[n];
        if p == nb {
          assert g'[p] == t < g[p];
        } else {
          assert g'[p] == g[p];
        }
      }
    }
    forall n | n in g'
      ensures n == start || n in cameFrom'
    {
      if n != nb {
        assert n in g;
      }
    }
    forall k | 0 <= k < |open'|
      ensures open'[k].pos in g'
    {
      if k < |open| {
        assert open'[k] == open[k];
      }
    }
    // The parts of Tree for the new bookkeeping, one at a time.
    assert start in g' && g'[start] == 0;
    assert forall n :: n in cameFrom' ==> n in g' && cameFrom'[n] in g' && g'[cameFrom'[n]] < g'[n];
    assert forall n :: n in cameFrom' ==> Step(room, cameFrom'[n], n);
    assert forall n :: n in g' ==> n == start || n in cameFrom';
    assert forall k :: 0 <= k < |open'| ==> open'[k].pos in g';
  }

  /** Appending an entry for `nb` keeps every open position open and opens `nb`. */
  lemma AppendKeepsOpen(open: seq<Node>, e: Node)
    ensures forall n :: InOpen(open, n) ==> InOpen(open + [e], n)
    ensures InOpen(open + [e], e.pos)
  {
    var open' := open + [e];
    forall n | InOpen(open, n)
      ensures InOpen(open', n)
    {
      var k :| 0 <= k < |open| && open[k].pos == n;
      assert open'[k].pos == n;
    }
    assert open'[|open'| - 1].pos == e.pos;
  }

  /** Scoring `nb` for the first time, or lowering its score, lowers the progress measure. */
  lemma RelaxedProgress(g: map<Position, nat>, u: seq<Position>, nb: Position, t: nat)
    requires nb in u
    requires nb !in g || t < g[nb]
    ensures Below(Missing(g[nb := t], u), Total(g[nb := t], u), Missing(g, u), Total(g, u))
  {
    if nb !in g {
      AddKeyProgress(g, u, nb, t);
    } else {
      LowerKeyProgress(g, u, nb, t);
    }
  }

  /**
   * Follows parents back from the goal until reaching a position without
   * one, which the bookkeeping guarantees is the start. Scores fall strictly
   * along parent links, so the walk back always ends.
   */
  method ReconstructPath(room: Room, start: Position, goal: Position,
                         cameFrom: map<Position, Position>, ghost g: map<Position, nat>)
    returns (path: seq<Position>)
    requires room.Valid()
    requires Tree(room, start, [], g, cameFrom)
    requires goal in g && goal != start
    ensures Leads(room, start, path, goal)
    ensures start !in path
  {
    path := [];
    var cur := goal;
    while cur in cameFrom
      invariant cur in g
      invariant path == [] ==> cur == goal
      invariant path != [] ==> path[|path| - 1] == goal && Step(room, cur, path[0])
      invariant forall i :: 1 <= i < |path| ==> Step(room, path[i - 1], path[i])
      invariant forall q :: q in path ==> q in cameFrom
      decreases g[cur]
    {
      path := [cur] + path;
      cur := cameFrom[cur];
    }
    assert start !in cameFrom;
  }
}

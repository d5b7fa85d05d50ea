/** The breadth-first search of day 12 in the terms of the climb it
    explores: neighbouring cells, allowed steps, routes, and the state the
    search keeps between two turns. */
module HillSearch {
  import opened RopeBridge

  const North: Direction := Direction(0, 1)
  const South: Direction := Direction(0, -1)
  const East: Direction := Direction(1, 0)
  const West: Direction := Direction(-1, 0)

  /** The two cells are one step apart along a row or a column. */
  predicate Adjacent(a: Direction, b: Direction) {
    Abs(a.x - b.x) + Abs(a.y - b.y) == 1
  }

  /** `get_neighbors`: the four cells around `current`. */
  function Neighbors(current: Direction): (r: seq<Direction>)
    ensures |r| == 4
    ensures forall k :: 0 <= k < 4 ==> Adjacent(r[k], current)
  {
    [Add(current, North), Add(current, South), Add(current, East), Add(current, West)]
  }

  /** The four neighbours are exactly the adjacent cells. */
  lemma NeighborsAdjacent(current: Direction, p: Direction)
    ensures p in Neighbors(current) <==> Adjacent(p, current)
  {
    if Adjacent(p, current) {
      var d := Sub(p, current);
      assert d == North || d == South || d == East || d == West;
    }
  }

  /** A climber on `from` may step onto `to`: both are on the map and `to`
      is at most one higher.  `dijkstra` skips a neighbour when the current
      cell is more than one higher than it, which is this step taken
      backwards. */
  predicate CanStep(heights: map<Direction, nat>, from: Direction, to: Direction) {
    from in heights && to in heights && heights[to] <= heights[from] + 1
  }

  /** A climb from `from` to `to` along the cells of `path`, one allowed
      step at a time. */
  predicate Route(heights: map<Direction, nat>, path: seq<Direction>, from: Direction, to: Direction) {
    && |path| > 0 && path[0] == from && path[|path| - 1] == to
    && forall k :: 0 <= k < |path| - 1 ==> Adjacent(path[k], path[k + 1]) && CanStep(heights, path[k], path[k + 1])
  }

  /** Every cell in `dist` other than the target records the neighbour it
      was reached from, in `parent`: a cell one nearer the target that it
      can step onto. */
  ghost predicate Tree(heights: map<Direction, nat>, target: Direction,
                       dist: map<Direction, nat>, parent: map<Direction, Direction>) {
    && target in dist && dist[target] == 0
    && forall p :: p in dist && p != target ==>
         && p in parent && parent[p] in dist
         && Adjacent(p, parent[p]) && CanStep(heights, p, parent[p])
         && dist[p] == dist[parent[p]] + 1
  }

  /** Following the parents from `p` climbs to the target in `dist[p]`
      steps. */
  ghost function PathOf(heights: map<Direction, nat>, target: Direction,
                        dist: map<Direction, nat>, parent: map<Direction, Direction>, p: Direction): (path: seq<Direction>)
    requires Tree(heights, target, dist, parent) && p in dist
    ensures Route(heights, path, p, target) && |path| == dist[p] + 1
    decreases dist[p]
  {
    if p == target then [p]
    else
      var rest := PathOf(heights, target, dist, parent, parent[p]);
      assert forall k :: 1 <= k < |rest| ==> ([p] + rest)[k] == rest[k - 1];
      [p] + rest
  }

  /** The climber on `from` reaches `to` in exactly `n` allowed steps. */
  ghost predicate ClimbsIn(heights: map<Direction, nat>, from: Direction, to: Direction, n: nat) {
    exists path :: Route(heights, path, from, to) && |path| == n + 1
  }

  /** Every recorded cell's distance is the length of a climb to the
      target. */
  ghost predicate Sound(heights: map<Direction, nat>, target: Direction, dist: map<Direction, nat>) {
    forall p :: p in dist ==> ClimbsIn(heights, p, target, dist[p])
  }

  /** Every cell that can step onto a recorded cell is recorded too. */
  ghost predicate Closed(heights: map<Direction, nat>, dist: map<Direction, nat>) {
    forall p, q :: q in dist && Adjacent(p, q) && CanStep(heights, p, q) ==> p in dist
  }

  /** The first `n` neighbours of `q` that can step onto it are
      recorded. */
  ghost predicate ExpandedUpTo(heights: map<Direction, nat>, dist: map<Direction, nat>, q: Direction, n: nat)
    requires n <= 4
  {
    forall k :: 0 <= k < n && CanStep(heights, Neighbors(q)[k], q) ==> Neighbors(q)[k] in dist
  }

  /** The neighbours of the expanded cell `q` that can step onto it are
      recorded. */
  ghost predicate Expanded(heights: map<Direction, nat>, dist: map<Direction, nat>, q: Direction) {
    ExpandedUpTo(heights, dist, q, 4)
  }

  /** One more neighbour looked at, with more cells recorded. */
  lemma ExpandedStep(heights: map<Direction, nat>, dist: map<Direction, nat>, dist': map<Direction, nat>,
                     q: Direction, n: nat)
    requires n < 4 && ExpandedUpTo(heights, dist, q, n) && dist.Keys <= dist'.Keys
    requires CanStep(heights, Neighbors(q)[n], q) ==> Neighbors(q)[n] in dist'
    ensures ExpandedUpTo(heights, dist', q, n + 1)
  {
  }

  /** What holds between two turns of the search: the queued cells are
      recorded, the recorded ones are expanded or queued, every recorded
      cell but the target hangs from an expanded parent, and every expanded
      cell has its climbable neighbours recorded. */
  ghost predicate Searching(heights: map<Direction, nat>, target: Direction, dist: map<Direction, nat>,
                            visited: set<Direction>, queue: seq<Direction>, parent: map<Direction, Direction>) {
    && Recorded(heights, target, dist, visited, queue, parent)
    && Started(target, visited, queue)
    && AllExpanded(heights, dist, visited)
  }

  /** The target is the first cell taken from the queue. */
  predicate Started(target: Direction, visited: set<Direction>, queue: seq<Direction>) {
    && (visited == {} ==> queue == [target])
    && (visited != {} ==> target in visited)
  }

  /** Every expanded cell has its climbable neighbours recorded. */
  ghost predicate AllExpanded(heights: map<Direction, nat>, dist: map<Direction, nat>, visited: set<Direction>) {
    forall q :: q in visited ==> Expanded(heights, dist, q)
  }

  /** The part of the search state that holds at every point of a turn. */
  ghost predicate Recorded(heights: map<Direction, nat>, target: Direction, dist: map<Direction, nat>,
                           visited: set<Direction>, queue: seq<Direction>, parent: map<Direction, Direction>) {
    && visited <= heights.Keys + {target} && dist.Keys <= heights.Keys + {target}
    && visited <= dist.Keys
    && (forall p :: p in queue ==> p in dist)
    && (forall p :: p in dist ==> p in visited || p in queue)
    && Tree(heights, target, dist, parent)
    && (forall p :: p in dist && p != target ==> parent[p] in visited)
  }

  /** The same while `current` is expanded and its first `n` neighbours
      have been looked at. */
  ghost predicate Expanding(heights: map<Direction, nat>, target: Direction, dist: map<Direction, nat>,
                            visited: set<Direction>, queue: seq<Direction>, parent: map<Direction, Direction>,
                            current: Direction, n: nat)
    requires n <= 4
  {
    && Recorded(heights, target, dist, visited, queue, parent)
    && target in visited && current in visited
    && (forall q :: q in visited && q != current ==> Expanded(heights, dist, q))
    && ExpandedUpTo(heights, dist, current, n)
  }

  /** The search starts with the target alone, at distance 0. */
  lemma SearchStarts(heights: map<Direction, nat>, target: Direction)
    ensures Searching(heights, target, map[target := 0], {}, [target], map[])
  {
  }

  /** Taking an expanded cell from the queue changes nothing else. */
  lemma SearchSkips(heights: map<Direction, nat>, target: Direction, dist: map<Direction, nat>,
                    visited: set<Direction>, queue: seq<Direction>, parent: map<Direction, Direction>)
    requires Searching(heights, target, dist, visited, queue, parent)
    requires queue != [] && queue[0] in visited
    ensures Searching(heights, target, dist, visited, queue[1..], parent)
  {
    forall p | p in dist
      ensures p in visited || p in queue[1..]
    {
      if p !in visited {
        assert p in queue && p != queue[0];
        var k :| 0 <= k < |queue| && queue[k] == p;
        assert queue[1..][k - 1] == p;
      }
    }
  }

  /** Taking a new cell from the queue starts its expansion. */
  lemma SearchVisits(heights: map<Direction, nat>, target: Direction, dist: map<Direction, nat>,
                     visited: set<Direction>, queue: seq<Direction>, parent: map<Direction, Direction>)
    requires Searching(heights, target, dist, visited, queue, parent)
    requires queue != [] && queue[0] !in visited
    ensures queue[0] in dist && queue[0] in heights.Keys + {target}
    ensures Expanding(heights, target, dist, visited + {queue[0]}, queue[1..], parent, queue[0], 0)
  {
    var current := queue[0];
    forall p | p in dist
      ensures p in visited + {current} || p in queue[1..]
    {
      if p !in visited && p != current {
        var k :| 0 <= k < |queue| && queue[k] == p;
        assert queue[1..][k - 1] == p;
      }
    }
  }

  /** A neighbour passed over (off the map, expanded already, or too low
      to climb from) needs nothing recorded. */
  lemma ExpandingSkips(heights: map<Direction, nat>, target: Direction, dist: map<Direction, nat>,
                       visited: set<Direction>, queue: seq<Direction>, parent: map<Direction, Direction>,
                       current: Direction, n: nat)
    requires n < 4 && Expanding(heights, target, dist, visited, queue, parent, current, n)
    requires var neighbor := Neighbors(current)[n];
      neighbor !in heights || neighbor in visited || !CanStep(heights, neighbor, current)
    ensures Expanding(heights, target, dist, visited, queue, parent, current, n + 1)
  {
    ExpandedStep(heights, dist, dist, current, n);
  }

  /** A neighbour recorded one farther than `current` and queued. */
  lemma ExpandingRecords(heights: map<Direction, nat>, target: Direction, dist: map<Direction, nat>,
                         visited: set<Direction>, queue: seq<Direction>, parent: map<Direction, Direction>,
                         current: Direction, n: nat,
                         dist': map<Direction, nat>, queue': seq<Direction>, parent': map<Direction, Direction>)
    requires n < 4 && Expanding(heights, target, dist, visited, queue, parent, current, n)
    requires var neighbor := Neighbors(current)[n];
      && neighbor !in visited && CanStep(heights, neighbor, current)
      && dist' == dist[neighbor := dist[current] + 1] && queue' == queue + [neighbor]
      && parent' == parent[neighbor := current]
    ensures Expanding(heights, target, dist', visited, queue', parent', current, n + 1)
    ensures current in dist' && dist'[current] == dist[current]
  {
    var neighbor := Neighbors(current)[n];
    Record(heights, target, dist, parent, visited, current, neighbor, dist[current] + 1, dist', parent');
    ExpandedKept(heights, visited, current, dist, dist');
    ExpandedStep(heights, dist, dist', current, n);
  }

  /** All four neighbours looked at: `current` is expanded. */
  lemma ExpandingEnds(heights: map<Direction, nat>, target: Direction, dist: map<Direction, nat>,
                      visited: set<Direction>, queue: seq<Direction>, parent: map<Direction, Direction>,
                      current: Direction)
    requires Expanding(heights, target, dist, visited, queue, parent, current, 4)
    ensures Searching(heights, target, dist, visited, queue, parent)
  {
  }

  /** An empty queue: every recorded cell is expanded, so the distances
      are sound and the recorded cells closed under climbable steps. */
  lemma SearchEnds(heights: map<Direction, nat>, target: Direction, dist: map<Direction, nat>,
                   visited: set<Direction>, parent: map<Direction, Direction>)
    requires Searching(heights, target, dist, visited, [], parent)
    ensures target in dist && dist[target] == 0
    ensures forall p :: p in dist ==> p == target || p in heights
    ensures Sound(heights, target, dist)
    ensures Closed(heights, dist)
  {
    forall p | p in dist
      ensures ClimbsIn(heights, p, target, dist[p])
    {
      var path := PathOf(heights, target, dist, parent, p);
    }
    forall p, q | q in dist && Adjacent(p, q) && CanStep(heights, p, q)
      ensures p in dist
    {
      NeighborsAdjacent(q, p);
      var k :| 0 <= k < 4 && Neighbors(q)[k] == p;
    }
  }

  /** Recording a neighbour that can step onto an expanded cell, one
      farther than it, keeps the tree of parents. */
  lemma Record(heights: map<Direction, nat>, target: Direction,
               dist: map<Direction, nat>, parent: map<Direction, Direction>, visited: set<Direction>,
               current: Direction, neighbor: Direction, distance: nat,
               dist': map<Direction, nat>, parent': map<Direction, Direction>)
    requires dist' == dist[neighbor := distance] && parent' == parent[neighbor := current]
    requires Tree(heights, target, dist, parent) && target in visited
    requires forall p :: p in dist && p != target ==> parent[p] in visited
    requires current in visited && current in dist && dist[current] + 1 == distance
    requires neighbor !in visited && Adjacent(neighbor, current) && CanStep(heights, neighbor, current)
    ensures Tree(heights, target, dist', parent')
    ensures forall p :: p in dist' && p != target ==> parent'[p] in visited
  {
    forall p | p in dist' && p != target
      ensures p in parent' && parent'[p] in dist'
      ensures Adjacent(p, parent'[p]) && CanStep(heights, p, parent'[p])
      ensures dist'[p] == dist'[parent'[p]] + 1
    {
      if p != neighbor {
        assert parent[p] != neighbor;
      }
    }
  }

  /** Recording more cells keeps every expanded cell's neighbours
      recorded. */
  lemma ExpandedKept(heights: map<Direction, nat>, visited: set<Direction>, current: Direction,
                     dist: map<Direction, nat>, dist': map<Direction, nat>)
    requires forall q :: q in visited && q != current ==> Expanded(heights, dist, q)
    requires dist.Keys <= dist'.Keys
    ensures forall q :: q in visited && q != current ==> Expanded(heights, dist', q)
  {
  }

  /** Every cell that can climb to the target is recorded: the search
      misses no reachable cell. */
  lemma {:induction false} Complete(heights: map<Direction, nat>, target: Direction,
                                    dist: map<Direction, nat>, path: seq<Direction>, p: Direction)
    requires target in dist && Closed(heights, dist) && Route(heights, path, p, target)
    ensures p in dist
    decreases |path|
  {
    if |path| > 1 {
      Complete(heights, target, dist, path[1..], path[1]);
    }
  }
}

/** Day 12, Hill Climbing Algorithm.  A grid of letters gives the height
    of each cell ('a' lowest, 'z' highest, 'S' the start at the height of
    'a', 'E' the end at the height of 'z').  A climber may step to an
    orthogonal neighbour at most one higher.  A breadth-first search from
    the end, walking the steps backwards, records a distance for every cell
    that can climb to the end; part one reads the start's distance, part
    two the least distance over the cells of height 1. */
module HillClimbing {
  import opened Wrappers
  import opened Text
  import opened RopeBridge
  import opened HillSearch

  /** The code point just below 'a', so that 'a' is height 1. */
  const LOWERCASE_OFFSET: nat := 96

  /** `u32::MAX`, the distance `two` gives a cell the search never
      reached. */
  const U32_MAX: nat := 0xFFFF_FFFF

  /** What `parse_char` makes of one character. */
  datatype Cell = Cell(height: nat, isStart: bool, isEnd: bool)

  /** `parse_char`: 'S' is the start at the height of 'a', 'E' the end at
      the height of 'z', and any other character is its code point less the
      offset; a code point below the offset makes the program panic
      (`None`). */
  function ParseChar(c: char): (r: Option<Cell>)
    ensures r.Some? <==> c == 'S' || c == 'E' || c as int >= LOWERCASE_OFFSET
    ensures r.Some? ==> (r.value.isStart <==> c == 'S') && (r.value.isEnd <==> c == 'E')
    ensures 'a' <= c <= 'z' ==> r.Some? && 1 <= r.value.height <= 26 && r.value.height == (c - 'a') as int + 1
    ensures c == 'S' ==> r.value.height == 1
    ensures c == 'E' ==> r.value.height == 26
  {
    if c == 'S' then Some(Cell('a' as int - LOWERCASE_OFFSET, true, false))
    else if c == 'E' then Some(Cell('z' as int - LOWERCASE_OFFSET, false, true))
    else if c as int >= LOWERCASE_OFFSET then Some(Cell(c as int - LOWERCASE_OFFSET, false, false))
    else None
  }

  // ------------------------------------------------------- parsing the map

  /** The parsed map: the height of every cell, keyed by `Direction(col,
      row)`, and the start and end cells, which stay at the origin
      (`Default::default()`) when the map has no 'S' or no 'E'. */
  datatype Terrain = Terrain(heights: map<Direction, nat>, start: Direction, end: Direction)

  /** `result.insert` and the two flags for the character at `p`. */
  function Place(t: Terrain, c: char, p: Direction): Option<Terrain> {
    match ParseChar(c)
    case None => None
    case Some(cell) =>
      Some(Terrain(t.heights[p := cell.height],
                   if cell.isStart then p else t.start,
                   if cell.isEnd then p else t.end))
  }

  /** The terrain after the first `n` characters of the line at `row`. */
  function PlaceRow(t: Terrain, line: string, row: nat, n: nat): Option<Terrain>
    requires n <= |line|
  {
    if n == 0 then Some(t)
    else match PlaceRow(t, line, row, n - 1)
      case None => None
      case Some(t') => Place(t', line[n - 1], Direction(n - 1, row))
  }

  /** The terrain after the first `n` lines. */
  function PlaceRows(lines: seq<string>, n: nat): Option<Terrain>
    requires n <= |lines|
  {
    if n == 0 then Some(Terrain(map[], Origin, Origin))
    else match PlaceRows(lines, n - 1)
      case None => None
      case Some(t) => PlaceRow(t, lines[n - 1], n - 1, |lines[n - 1]|)
  }

  /** What `parse_map` computes, cell by cell in reading order. */
  function TerrainOf(lines: seq<string>): Option<Terrain> {
    PlaceRows(lines, |lines|)
  }

  /** A panic on one character stops the rest of the line. */
  lemma {:induction false} PlaceRowStops(t: Terrain, line: string, row: nat, n: nat, m: nat)
    requires n <= m <= |line| && PlaceRow(t, line, row, n).None?
    ensures PlaceRow(t, line, row, m).None?
    decreases m
  {
    if m > n {
      PlaceRowStops(t, line, row, n, m - 1);
    }
  }

  /** A panic on one line stops the rest of the map. */
  lemma {:induction false} PlaceRowsStops(lines: seq<string>, n: nat, m: nat)
    requires n <= m <= |lines| && PlaceRows(lines, n).None?
    ensures PlaceRows(lines, m).None?
    decreases m
  {
    if m > n {
      PlaceRowsStops(lines, n, m - 1);
    }
  }

  /** `parse_map`: every character of every line is parsed and inserted
      under its column and row, and the last 'S' and the last 'E' seen are
      kept. */
  method ParseMap(input: string) returns (r: Option<Terrain>)
    ensures r == TerrainOf(Lines(input))
  {
    var lines := Lines(input);
    var heights: map<Direction, nat> := map[];
    var start := Origin;
    var end := Origin;
    for row := 0 to |lines|
      invariant PlaceRows(lines, row) == Some(Terrain(heights, start, end))
    {
      var line := lines[row];
      ghost var before := Terrain(heights, start, end);
      for col := 0 to |line|
        invariant PlaceRow(before, line, row, col) == Some(Terrain(heights, start, end))
      {
        var cell := ParseChar(line[col]);
        if cell.None? {
          PlaceRowStops(before, line, row, col + 1, |line|);
          PlaceRowsStops(lines, row + 1, |lines|);
          return None;
        }
        var p := Direction(col, row);
        heights := heights[p := cell.value.height];
        if cell.value.isStart {
          start := p;
        }
        if cell.value.isEnd {
          end := p;
        }
      }
    }
    return Some(Terrain(heights, start, end));
  }

  // ---------------------------------------------------- what the map holds

  /** The position is a character of the input. */
  predicate OnMap(lines: seq<string>, p: Direction) {
    0 <= p.y < |lines| && 0 <= p.x < |lines[p.y]|
  }

  /** Every character of the input is one `parse_char` accepts. */
  ghost predicate AllParse(lines: seq<string>) {
    forall p :: OnMap(lines, p) ==> ParseChar(lines[p.y][p.x]).Some?
  }

  /** Cell (col, row) comes before cell (col', row') in reading order. */
  predicate Before(a: Direction, b: Direction) {
    a.y < b.y || (a.y == b.y && a.x < b.x)
  }

  /** Which cell the marker character sets: 'S' the start, 'E' the end. */
  function Marked(t: Terrain, mark: char): Direction {
    if mark == 'S' then t.start else t.end
  }

  /** Placing the first `n` characters of a line succeeds exactly when
      each of them parses. */
  lemma {:induction false} PlaceRowParses(t: Terrain, line: string, row: nat, n: nat)
    requires n <= |line|
    ensures PlaceRow(t, line, row, n).Some? <==> forall k :: 0 <= k < n ==> ParseChar(line[k]).Some?
    decreases n
  {
    if n > 0 {
      PlaceRowParses(t, line, row, n - 1);
    }
  }

  /** Then the line's cells among them are keyed under their column and
      that row and hold their heights, and the other keys keep theirs. */
  lemma {:induction false} PlaceRowKeys(t: Terrain, line: string, row: nat, n: nat)
    requires n <= |line| && PlaceRow(t, line, row, n).Some?
    ensures forall k :: 0 <= k < n ==> ParseChar(line[k]).Some?
    ensures var r := PlaceRow(t, line, row, n).value;
      && (forall p :: p in r.heights <==> p in t.heights || (p.y == row && 0 <= p.x < n))
      && (forall p :: p in r.heights ==>
            r.heights[p] == if p.y == row && 0 <= p.x < n then ParseChar(line[p.x]).value.height else t.heights[p])
    decreases n
  {
    PlaceRowParses(t, line, row, n);
    if n > 0 {
      PlaceRowKeys(t, line, row, n - 1);
    }
  }

  /** And the marked cell moves to the last marker among them, if any. */
  lemma {:induction false} PlaceRowMark(t: Terrain, line: string, row: nat, n: nat, mark: char)
    requires n <= |line| && PlaceRow(t, line, row, n).Some? && (mark == 'S' || mark == 'E')
    ensures var m := Marked(PlaceRow(t, line, row, n).value, mark);
      && ((forall k :: 0 <= k < n ==> line[k] != mark) ==> m == Marked(t, mark))
      && ((exists k :: 0 <= k < n && line[k] == mark) ==>
            m.y == row && 0 <= m.x < n && line[m.x] == mark && forall k :: m.x < k < n ==> line[k] != mark)
    decreases n
  {
    if n > 0 {
      var prior := PlaceRow(t, line, row, n - 1);
      PlaceRowMark(t, line, row, n - 1, mark);
      var m := Marked(PlaceRow(t, line, row, n).value, mark);
      if line[n - 1] == mark {
        assert m == Direction(n - 1, row);
      } else {
        assert m == Marked(prior.value, mark);
      }
    }
  }

  /** The first `n` lines parse exactly when each of their characters
      does. */
  lemma {:induction false} PlaceRowsParses(lines: seq<string>, n: nat)
    requires n <= |lines|
    ensures PlaceRows(lines, n).Some? <==> forall p :: OnMap(lines, p) && p.y < n ==> ParseChar(lines[p.y][p.x]).Some?
    decreases n
  {
    if n > 0 {
      PlaceRowsParses(lines, n - 1);
      var prior := PlaceRows(lines, n - 1);
      var line := lines[n - 1];
      if prior.Some? {
        PlaceRowParses(prior.value, line, n - 1, |line|);
        if PlaceRows(lines, n).None? {
          var k :| 0 <= k < |line| && ParseChar(line[k]).None?;
          assert OnMap(lines, Direction(k, n - 1));
        } else {
          forall p | OnMap(lines, p) && p.y < n
            ensures ParseChar(lines[p.y][p.x]).Some?
          {
            if p.y == n - 1 {
              assert lines[p.y][p.x] == line[p.x];
            }
          }
        }
      } else {
        var p :| OnMap(lines, p) && p.y < n - 1 && ParseChar(lines[p.y][p.x]).None?;
      }
    }
  }

  /** Then the characters of the first `n` lines, and nothing else, are
      keys holding their heights. */
  lemma {:induction false} PlaceRowsKeys(lines: seq<string>, n: nat)
    requires n <= |lines| && PlaceRows(lines, n).Some?
    ensures forall p :: OnMap(lines, p) && p.y < n ==> ParseChar(lines[p.y][p.x]).Some?
    ensures var r := PlaceRows(lines, n).value;
      && (forall p :: p in r.heights <==> OnMap(lines, p) && p.y < n)
      && (forall p :: p in r.heights ==> r.heights[p] == ParseChar(lines[p.y][p.x]).value.height)
    decreases n
  {
    PlaceRowsParses(lines, n);
    if n > 0 {
      var prior := PlaceRows(lines, n - 1);
      var line := lines[n - 1];
      PlaceRowsKeys(lines, n - 1);
      PlaceRowKeys(prior.value, line, n - 1, |line|);
      var r := PlaceRows(lines, n).value;
      assert r == PlaceRow(prior.value, line, n - 1, |line|).value;
      forall p
        ensures p in r.heights <==> OnMap(lines, p) && p.y < n
      {
        assert p.y == n - 1 ==> (OnMap(lines, p) <==> 0 <= p.x < |line|);
      }
      forall p | p in r.heights
        ensures r.heights[p] == ParseChar(lines[p.y][p.x]).value.height
      {
        assert p.y == n - 1 ==> lines[p.y] == line;
      }
    }
  }

  /** And the marked cell is the last marker of the first `n` lines in
      reading order, or the origin when they hold none. */
  lemma {:induction false} PlaceRowsMark(lines: seq<string>, n: nat, mark: char)
    requires n <= |lines| && PlaceRows(lines, n).Some? && (mark == 'S' || mark == 'E')
    ensures var m := Marked(PlaceRows(lines, n).value, mark);
      && ((forall p :: OnMap(lines, p) && p.y < n ==> lines[p.y][p.x] != mark) ==> m == Origin)
      && ((exists p :: OnMap(lines, p) && p.y < n && lines[p.y][p.x] == mark) ==>
            OnMap(lines, m) && m.y < n && lines[m.y][m.x] == mark
            && forall p :: OnMap(lines, p) && p.y < n && Before(m, p) ==> lines[p.y][p.x] != mark)
    decreases n
  {
    if n > 0 {
      var prior := PlaceRows(lines, n - 1);
      var line := lines[n - 1];
      PlaceRowsMark(lines, n - 1, mark);
      PlaceRowMark(prior.value, line, n - 1, |line|, mark);
      var m := Marked(PlaceRows(lines, n).value, mark);
      if exists k :: 0 <= k < |line| && line[k] == mark {
        forall p | OnMap(lines, p) && p.y < n && Before(m, p)
          ensures lines[p.y][p.x] != mark
        {
          assert p.y == n - 1;
        }
      } else {
        assert m == Marked(prior.value, mark);
        if exists p :: OnMap(lines, p) && p.y < n && lines[p.y][p.x] == mark {
          var p :| OnMap(lines, p) && p.y < n && lines[p.y][p.x] == mark;
          assert p.y < n - 1;
        } else {
          forall p | OnMap(lines, p) && p.y < n - 1
            ensures lines[p.y][p.x] != mark
          {
          }
        }
      }
    }
  }

  /** `parse_map` succeeds exactly when every character parses; then every
      character of the input, and nothing else, is a key holding its height,
      and the start (the end) is the last 'S' ('E') in reading order, or the
      origin when there is none. */
  lemma TerrainHolds(lines: seq<string>, mark: char)
    requires mark == 'S' || mark == 'E'
    ensures TerrainOf(lines).Some? <==> AllParse(lines)
    ensures TerrainOf(lines).Some? ==>
      var t := TerrainOf(lines).value;
      && (forall p :: p in t.heights <==> OnMap(lines, p))
      && (forall p :: p in t.heights ==> t.heights[p] == ParseChar(lines[p.y][p.x]).value.height)
      && ((forall p :: OnMap(lines, p) ==> lines[p.y][p.x] != mark) ==> Marked(t, mark) == Origin)
      && ((exists p :: OnMap(lines, p) && lines[p.y][p.x] == mark) ==>
            var m := Marked(t, mark);
            OnMap(lines, m) && lines[m.y][m.x] == mark
            && forall p :: OnMap(lines, p) && Before(m, p) ==> lines[p.y][p.x] != mark)
  {
    PlaceRowsParses(lines, |lines|);
    if TerrainOf(lines).Some? {
      PlaceRowsKeys(lines, |lines|);
      PlaceRowsMark(lines, |lines|, mark);
    }
  }

  // ------------------------------------------------------------ the search

  /** The loop of `dijkstra` over the neighbours of the cell it has just
      taken from the queue. */
  method Expand(heights: map<Direction, nat>, target: Direction, visited: set<Direction>,
                current: Direction, distance: nat,
                dist: map<Direction, nat>, queue: seq<Direction>, ghost parent: map<Direction, Direction>)
    returns (ok: bool, dist': map<Direction, nat>, queue': seq<Direction>, ghost parent': map<Direction, Direction>)
    requires Expanding(heights, target, dist, visited, queue, parent, current, 0)
    requires dist[current] + 1 == distance
    ensures ok ==> Searching(heights, target, dist', visited, queue', parent')
    ensures ok ==> forall p :: p in visited ==> p in dist' && dist'[p] == dist[p]
    ensures !ok ==> current !in heights
  {
    dist', queue', parent' := dist, queue, parent;
    for k := 0 to 4
      invariant Expanding(heights, target, dist', visited, queue', parent', current, k)
      invariant dist'[current] + 1 == distance
      invariant forall p :: p in visited ==> p in dist' && dist'[p] == dist[p]
    {
      ok, dist', queue', parent' := ExpandNeighbor(heights, target, visited, current, distance, dist', queue', parent', k);
      if !ok {
        return;
      }
    }
    ExpandingEnds(heights, target, dist', visited, queue', parent', current);
    ok := true;
  }

  /** One pass of that loop, on neighbour `k`: a neighbour on the map, not
      yet expanded, and able to step onto `current` is recorded at
      `distance` (over any distance it had) and queued.  Reading the height
      of a `current` that is not on the map panics (`ok` false). */
  method ExpandNeighbor(heights: map<Direction, nat>, target: Direction, visited: set<Direction>,
                        current: Direction, distance: nat,
                        dist: map<Direction, nat>, queue: seq<Direction>, ghost parent: map<Direction, Direction>,
                        k: nat)
    returns (ok: bool, dist': map<Direction, nat>, queue': seq<Direction>, ghost parent': map<Direction, Direction>)
    requires k < 4 && Expanding(heights, target, dist, visited, queue, parent, current, k)
    requires dist[current] + 1 == distance
    ensures ok ==> Expanding(heights, target, dist', visited, queue', parent', current, k + 1)
    ensures ok ==> dist'[current] + 1 == distance
    ensures ok ==> forall p :: p in visited ==> p in dist' && dist'[p] == dist[p]
    ensures !ok ==> current !in heights
  {
    dist', queue', parent' := dist, queue, parent;
    var neighbor := Neighbors(current)[k];
    if neighbor !in heights || neighbor in visited {
      ExpandingSkips(heights, target, dist, visited, queue, parent, current, k);
      return true, dist', queue', parent';
    }
    if current !in heights {
      return false, dist', queue', parent';
    }
    if heights[current] > heights[neighbor] && heights[current] - heights[neighbor] > 1 {
      ExpandingSkips(heights, target, dist, visited, queue, parent, current, k);
      return true, dist', queue', parent';
    }
    dist' := dist[neighbor := distance];
    parent' := parent[neighbor := current];
    queue' := queue + [neighbor];
    ExpandingRecords(heights, target, dist, visited, queue, parent, current, k, dist', queue', parent');
    ok := true;
  }

  /** Every expanded cell still has the distance it was expanded with. */
  ghost predicate Settled(dist: map<Direction, nat>, visited: set<Direction>, settled: map<Direction, nat>) {
    settled.Keys == visited && forall p :: p in visited ==> p in dist && dist[p] == settled[p]
  }

  lemma FewerUnvisited(cells: set<Direction>, visited: set<Direction>, current: Direction)
    requires current in cells && current !in visited
    ensures |cells - (visited + {current})| < |cells - visited|
  {
    assert cells - (visited + {current}) == (cells - visited) - {current};
  }

  lemma SettledGrows(dist: map<Direction, nat>, visited: set<Direction>, settled: map<Direction, nat>,
                     current: Direction)
    requires Settled(dist, visited, settled) && current in dist
    ensures Settled(dist, visited + {current}, settled[current := dist[current]])
  {
  }

  lemma SettledKept(dist: map<Direction, nat>, dist': map<Direction, nat>, visited: set<Direction>,
                    settled: map<Direction, nat>)
    requires Settled(dist, visited, settled)
    requires forall p :: p in visited ==> p in dist' && dist'[p] == dist[p]
    ensures Settled(dist', visited, settled)
  {
  }

  /** `dijkstra`: a breadth-first search from the target over the steps
      taken backwards.  A cell taken from the queue a second time is
      skipped; a neighbour is recorded (over any distance it had) and queued
      when it is on the map, not yet expanded, and able to step onto the
      current cell.  The program panics (`None`) when it must read the
      height of a target that is not on the map. */
  method Bfs(heights: map<Direction, nat>, target: Direction) returns (r: Option<map<Direction, nat>>)
    ensures r.None? ==> target !in heights
    ensures target in heights ==> r.Some?
    ensures r.Some? ==> var dist := r.value;
      && target in dist && dist[target] == 0
      && (forall p :: p in dist ==> p == target || p in heights)
      && Sound(heights, target, dist)
      && Closed(heights, dist)
  {
    var result: map<Direction, nat> := map[target := 0];
    var visited: set<Direction> := {};
    var queue: seq<Direction> := [target];
    ghost var parent: map<Direction, Direction> := map[];
    ghost var cells := heights.Keys + {target};
    // the distance each expanded cell had when it was expanded
    ghost var settled: map<Direction, nat> := map[];
    SearchStarts(heights, target);
    while queue != []
      invariant Searching(heights, target, result, visited, queue, parent)
      invariant Settled(result, visited, settled)
      decreases |cells - visited|, |queue|
    {
      if queue[0] in visited {
        SearchSkips(heights, target, result, visited, queue, parent);
        queue := queue[1..];
        continue;
      }
      SearchVisits(heights, target, result, visited, queue, parent);
      var current := queue[0];
      queue := queue[1..];
      FewerUnvisited(cells, visited, current);
      SettledGrows(result, visited, settled, current);
      settled := settled[current := result[current]];
      visited := visited + {current};
      var distance := result[current] + 1;
      var ok;
      ghost var before := result;
      ok, result, queue, parent := Expand(heights, target, visited, current, distance, result, queue, parent);
      if !ok {
        return None;
      }
      SettledKept(before, result, visited, settled);
    }
    SearchEnds(heights, target, result, visited, parent);
    return Some(result);
  }

  // ---------------------------------------------------------- the two parts

  /** `one`: the search from the end, read at the start.  The program
      panics (`None`) when a character does not parse, when the end is not
      on the map, or when the start was never reached.  A result is the
      length of a real climb from the start to the end, and a start that
      can climb to the end always gets one. */
  method One(input: string) returns (r: Option<nat>)
    ensures TerrainOf(Lines(input)).None? ==> r.None?
    ensures r.Some? ==> var t := TerrainOf(Lines(input)).value;
      ClimbsIn(t.heights, t.start, t.end, r.value)
    ensures TerrainOf(Lines(input)).Some? ==> var t := TerrainOf(Lines(input)).value;
      t.end in t.heights && (exists path :: Route(t.heights, path, t.start, t.end)) ==> r.Some?
  {
    var terrain := ParseMap(input);
    if terrain.None? {
      return None;
    }
    var t := terrain.value;
    var dist := Bfs(t.heights, t.end);
    if dist.None? || t.start !in dist.value {
      if dist.Some? && exists path :: Route(t.heights, path, t.start, t.end) {
        var path :| Route(t.heights, path, t.start, t.end);
        Complete(t.heights, t.end, dist.value, path, t.start);
      }
      return None;
    }
    return Some(dist.value[t.start]);
  }

  /** The distance `two` reads for a cell: its recorded one, or `u32::MAX`
      when the search never reached it. */
  function DistanceOr(dist: map<Direction, nat>, p: Direction): nat {
    if p in dist then dist[p] else U32_MAX
  }

  /** The `filter_map(..).min()` of `two`: the least distance over the cells
      of height 1, or `None` when there is no such cell (where the program's
      `unwrap` panics). */
  method Lowest(heights: map<Direction, nat>, dist: map<Direction, nat>) returns (r: Option<nat>)
    ensures r.None? <==> forall p :: p in heights ==> heights[p] != 1
    ensures r.Some? ==> exists p :: p in heights && heights[p] == 1 && r.value == DistanceOr(dist, p)
    ensures r.Some? ==> forall p :: p in heights && heights[p] == 1 ==> r.value <= DistanceOr(dist, p)
  {
    var rest := heights.Keys;
    r := None;
    while rest != {}
      invariant rest <= heights.Keys
      invariant r.None? <==> forall p :: p in heights && p !in rest ==> heights[p] != 1
      invariant r.Some? ==> exists p :: p in heights && heights[p] == 1 && r.value == DistanceOr(dist, p)
      invariant r.Some? ==> forall p :: p in heights && p !in rest && heights[p] == 1 ==> r.value <= DistanceOr(dist, p)
      decreases |rest|
    {
      var p :| p in rest;
      rest := rest - {p};
      if heights[p] == 1 {
        var d := DistanceOr(dist, p);
        if r.None? || d < r.value {
          r := Some(d);
        }
      }
    }
  }

  /** `two`: the search from the end, read at the lowest cells.  A result
      is the distance of some cell of height 1, no greater than that of any
      other, and every such cell that can climb to the end has a real climb
      of its recorded length. */
  method Two(input: string) returns (r: Option<nat>, ghost dist: map<Direction, nat>)
    ensures TerrainOf(Lines(input)).None? ==> r.None?
    ensures r.Some? ==> var t := TerrainOf(Lines(input)).value;
      && (exists p :: p in t.heights && t.heights[p] == 1 && r.value == DistanceOr(dist, p))
      && (forall p :: p in t.heights && t.heights[p] == 1 ==> r.value <= DistanceOr(dist, p))
      && Sound(t.heights, t.end, dist)
      && (forall p, path :: p in t.heights && Route(t.heights, path, p, t.end) ==> p in dist)
    ensures TerrainOf(Lines(input)).Some? ==> var t := TerrainOf(Lines(input)).value;
      t.end in t.heights && (exists p :: p in t.heights && t.heights[p] == 1) ==> r.Some?
  {
    dist := map[];
    var terrain := ParseMap(input);
    if terrain.None? {
      return None, dist;
    }
    var t := terrain.value;
    var found := Bfs(t.heights, t.end);
    if found.None? {
      return None, dist;
    }
    var recorded := found.value;
    dist := recorded;
    forall p, path | p in t.heights && Route(t.heights, path, p, t.end)
      ensures p in dist
    {
      Complete(t.heights, t.end, dist, path, p);
    }
    r := Lowest(t.heights, recorded);
  }
}

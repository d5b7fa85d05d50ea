/** Day 9, Rope Bridge.  A rope's head moves one grid step at a time
    through a list of motions; every other knot follows the knot ahead of
    it.  Part one counts the positions the tail of a two-knot rope visits,
    part two those of the last knot of a ten-knot rope. */
module RopeBridge {
  import opened Wrappers

  /** `Direction`: a grid position or offset, x to the right, y up. */
  datatype Direction = Direction(x: int, y: int)

  /** `Direction + Direction`, componentwise. */
  function Add(a: Direction, b: Direction): (r: Direction)
    ensures r.x - a.x == b.x && r.y - a.y == b.y
  {
    Direction(a.x + b.x, a.y + b.y)
  }

  /** `Direction - Direction`, componentwise. */
  function Sub(a: Direction, b: Direction): (r: Direction)
    ensures Add(r, b) == a
  {
    Direction(a.x - b.x, a.y - b.y)
  }

  const Origin: Direction := Direction(0, 0)

  function Abs(n: int): (r: nat)
    ensures r == n || r == -n
  {
    if n < 0 then -n else n
  }

  /** `isize::signum`. */
  function Signum(n: int): int {
    if n > 0 then 1 else if n < 0 then -1 else 0
  }

  /** The letter of a motion: L, R, U and D are the four unit steps; the
      parser rejects any other letter. */
  function DirectionOf(c: char): (r: Option<Direction>)
    ensures r.Some? <==> c in "LRUD"
    ensures r.Some? ==> Abs(r.value.x) + Abs(r.value.y) == 1
  {
    match c
    case 'L' => Some(Direction(-1, 0))
    case 'R' => Some(Direction(1, 0))
    case 'U' => Some(Direction(0, 1))
    case 'D' => Some(Direction(0, -1))
    case _ => None
  }

  /** Two knots touch when they are at most one step apart on each axis. */
  predicate Touching(a: Direction, b: Direction) {
    var d := Sub(a, b);
    Abs(d.x) < 2 && Abs(d.y) < 2
  }

  /** A move of at most one step on each axis. */
  predicate Unit(d: Direction) {
    Abs(d.x) <= 1 && Abs(d.y) <= 1
  }

  /** `follow`: a knot touching its leader stays; otherwise it takes a step
      toward the leader along the row, along the column or diagonally.  The
      three cases all come down to one step by the signs of the distance. */
  function Follow(head: Direction, tail: Direction): (r: Direction)
    ensures Touching(head, tail) ==> r == tail
    ensures !Touching(head, tail) ==>
      r == Add(tail, Direction(Signum(head.x - tail.x), Signum(head.y - tail.y)))
    ensures Unit(Sub(r, tail))
  {
    var dist := Sub(head, tail);
    if Abs(dist.x) < 2 && Abs(dist.y) < 2 then tail
    else
      var xStep, yStep := Signum(dist.x), Signum(dist.y);
      if Abs(dist.y) == 0 then Direction(tail.x + xStep, tail.y)
      else if Abs(dist.x) == 0 then Direction(tail.x, tail.y + yStep)
      else Direction(tail.x + xStep, tail.y + yStep)
  }

  /** The greater of the distances along the two axes. */
  function Chebyshev(d: Direction): nat {
    if Abs(d.x) >= Abs(d.y) then Abs(d.x) else Abs(d.y)
  }

  /** A knot that does not touch its leader gets one step closer to it. */
  lemma FollowCloses(head: Direction, tail: Direction)
    requires !Touching(head, tail)
    ensures Chebyshev(Sub(head, Follow(head, tail))) == Chebyshev(Sub(head, tail)) - 1
  {
  }

  /** A knot at most two steps from its leader on each axis touches it after
      following. */
  lemma FollowTouches(head: Direction, tail: Direction)
    requires Abs(head.x - tail.x) <= 2 && Abs(head.y - tail.y) <= 2
    ensures Touching(head, Follow(head, tail))
  {
  }

  /** The program's own check: (3, 0) following (5, 1) goes to (4, 1). */
  lemma FollowExample()
    ensures Follow(Direction(5, 1), Direction(3, 0)) == Direction(4, 1)
  {
  }

  // ------------------------------------------------------------ the rope

  /** The knots after the head, nearest first. */
  datatype Rope = Rope(head: Direction, knots: seq<Direction>)

  /** The fold of `two`: each knot follows the knot ahead of it as already
      moved, the first one following the head. */
  function Pull(lead: Direction, knots: seq<Direction>): (r: seq<Direction>)
    ensures |r| == |knots|
    ensures |knots| > 0 ==> r[0] == Follow(lead, knots[0])
    decreases |knots|
  {
    if knots == [] then []
    else
      var first := Follow(lead, knots[0]);
      [first] + Pull(first, knots[1..])
  }

  /** Each knot after the first follows the knot ahead of it as already
      moved. */
  lemma {:induction false} PullFollows(lead: Direction, knots: seq<Direction>, i: nat)
    requires 0 < i < |knots|
    ensures Pull(lead, knots)[i] == Follow(Pull(lead, knots)[i - 1], knots[i])
    decreases |knots|
  {
    var first := Follow(lead, knots[0]);
    assert Pull(lead, knots) == [first] + Pull(first, knots[1..]);
    if i > 1 {
      PullFollows(first, knots[1..], i - 1);
    }
  }

  /** One step of the head, and the knots pulled after it. */
  function Move(rope: Rope, dir: Direction): Rope {
    var head := Add(rope.head, dir);
    Rope(head, Pull(head, rope.knots))
  }

  /** The rope after a list of unit steps. */
  function Final(rope: Rope, moves: seq<Direction>): (r: Rope)
    ensures |r.knots| == |rope.knots|
    decreases |moves|
  {
    if moves == [] then rope else Final(Move(rope, moves[0]), moves[1..])
  }

  /** The last knot of a rope. */
  function Last(rope: Rope): Direction
    requires |rope.knots| > 0
  {
    rope.knots[|rope.knots| - 1]
  }

  /** The positions of the last knot after each of the steps. */
  function Trail(rope: Rope, moves: seq<Direction>): (r: seq<Direction>)
    requires |rope.knots| > 0
    ensures |r| == |moves|
    decreases |moves|
  {
    if moves == [] then []
    else
      var next := Move(rope, moves[0]);
      [Last(next)] + Trail(next, moves[1..])
  }

  /** A motion: a direction and a count of steps; `for _ in 0..count` takes
      no step for a count below one. */
  datatype Motion = Motion(dir: Direction, count: int)

  function Repeat(d: Direction, n: int): (r: seq<Direction>)
    ensures |r| == if n > 0 then n else 0
    decreases n
  {
    if n <= 0 then [] else Repeat(d, n - 1) + [d]
  }

  /** The unit steps of the motions, in order. */
  function Steps(motions: seq<Motion>): (r: seq<Direction>)
    decreases |motions|
  {
    if motions == [] then []
    else Steps(motions[..|motions| - 1]) + Repeat(motions[|motions| - 1].dir, motions[|motions| - 1].count)
  }

  /** A rope of `n` knots after the head, all at the origin. */
  function Start(n: nat): Rope {
    Rope(Origin, Repeat(Origin, n))
  }

  function Elements(s: seq<Direction>): set<Direction> {
    set p | p in s
  }

  /** The positions the last of `n` knots visits: the origin and every
      position after a step. */
  function Visited(n: nat, motions: seq<Motion>): set<Direction>
    requires n > 0
  {
    {Origin} + Elements(Trail(Start(n), Steps(motions)))
  }

  // ------------------------------------------------------ trail lemmas

  lemma {:induction false} FinalSnoc(rope: Rope, moves: seq<Direction>, d: Direction)
    ensures Final(rope, moves + [d]) == Move(Final(rope, moves), d)
    decreases |moves|
  {
    if moves == [] {
      assert [d][1..] == [];
    } else {
      assert (moves + [d])[1..] == moves[1..] + [d];
      FinalSnoc(Move(rope, moves[0]), moves[1..], d);
    }
  }

  lemma {:induction false} TrailSnoc(rope: Rope, moves: seq<Direction>, d: Direction)
    requires |rope.knots| > 0
    ensures Trail(rope, moves + [d]) == Trail(rope, moves) + [Last(Move(Final(rope, moves), d))]
    decreases |moves|
  {
    if moves == [] {
      assert [d][1..] == [];
    } else {
      var next := Move(rope, moves[0]);
      var rest := moves[1..];
      assert (moves + [d])[0] == moves[0];
      assert (moves + [d])[1..] == rest + [d];
      TrailSnoc(next, rest, d);
    }
  }

  lemma StepsSnoc(motions: seq<Motion>, i: nat)
    requires i < |motions|
    ensures Steps(motions[..i + 1]) == Steps(motions[..i]) + Repeat(motions[i].dir, motions[i].count)
  {
    assert motions[..i + 1][..i] == motions[..i];
  }

  lemma ElementsSnoc(s: seq<Direction>, p: Direction)
    ensures Elements(s + [p]) == Elements(s) + {p}
  {
  }

  lemma RepeatSnoc(done: seq<Direction>, d: Direction, n: int)
    requires n >= 0
    ensures done + Repeat(d, n + 1) == (done + Repeat(d, n)) + [d]
  {
    assert Repeat(d, n + 1) == Repeat(d, n) + [d];
  }

  /** One more step of the current motion, for the loop of `two`: the
      head steps, the knots are pulled after it, and the new position of
      the last knot joins the visited ones. */
  lemma StepFurther(start: Rope, done: seq<Direction>, dir: Direction, j: int,
                    head: Direction, tail: seq<Direction>)
    requires |start.knots| > 0 && j >= 0
    requires Final(start, done + Repeat(dir, j)) == Rope(head, tail)
    ensures |tail| == |start.knots|
    ensures Final(start, done + Repeat(dir, j + 1)) == Rope(Add(head, dir), Pull(Add(head, dir), tail))
    ensures Elements(Trail(start, done + Repeat(dir, j + 1))) ==
      Elements(Trail(start, done + Repeat(dir, j))) + {Pull(Add(head, dir), tail)[|tail| - 1]}
  {
    var before := done + Repeat(dir, j);
    RepeatSnoc(done, dir, j);
    FinalSnoc(start, before, dir);
    TrailSnoc(start, before, dir);
    ElementsSnoc(Trail(start, before), Pull(Add(head, dir), tail)[|tail| - 1]);
  }

  /** The same for the single tail of `one`. */
  lemma StepFurtherOne(start: Rope, done: seq<Direction>, dir: Direction, j: int,
                       head: Direction, tail: Direction)
    requires |start.knots| > 0 && j >= 0
    requires Final(start, done + Repeat(dir, j)) == Rope(head, [tail])
    ensures Final(start, done + Repeat(dir, j + 1)) == Rope(Add(head, dir), [Follow(Add(head, dir), tail)])
    ensures Elements(Trail(start, done + Repeat(dir, j + 1))) ==
      Elements(Trail(start, done + Repeat(dir, j))) + {Follow(Add(head, dir), tail)}
  {
    StepFurther(start, done, dir, j, head, [tail]);
    assert Pull(Add(head, dir), [tail]) == [Follow(Add(head, dir), tail)] by {
      assert [tail][1..] == [];
    }
  }

  /** The current motion is over: its steps are those of the motion. */
  lemma MotionDone(motions: seq<Motion>, i: nat, j: int)
    requires i < |motions|
    requires 0 <= j && (j == 0 || j <= motions[i].count) && !(j < motions[i].count)
    ensures Steps(motions[..i + 1]) == Steps(motions[..i]) + Repeat(motions[i].dir, j)
  {
    StepsSnoc(motions, i);
  }

  /** `one`: the tail follows the head step by step, and every position it
      takes is put in a set. */
  method One(motions: seq<Motion>) returns (count: nat)
    ensures count == |Visited(1, motions)|
  {
    var visited: set<Direction> := {};
    var head := Origin;
    var tail := Origin;
    visited := visited + {tail};
    ghost var start := Start(1);
    assert start == Rope(head, [tail]);
    for i := 0 to |motions|
      invariant Final(start, Steps(motions[..i])) == Rope(head, [tail])
      invariant visited == {Origin} + Elements(Trail(start, Steps(motions[..i])))
    {
      var dir, n := motions[i].dir, motions[i].count;
      ghost var done := Steps(motions[..i]);
      var j := 0;
      assert done + Repeat(dir, 0) == done;
      while j < n
        invariant 0 <= j && (j == 0 || j <= n)
        invariant Final(start, done + Repeat(dir, j)) == Rope(head, [tail])
        invariant visited == {Origin} + Elements(Trail(start, done + Repeat(dir, j)))
      {
        StepFurtherOne(start, done, dir, j, head, tail);
        head := Add(head, dir);
        tail := Follow(head, tail);
        visited := visited + {tail};
        j := j + 1;
      }
      MotionDone(motions, i, j);
    }
    assert motions[..|motions|] == motions;
    count := |visited|;
  }

  /** `two`: nine knots after the head, each following the one ahead of it
      as already moved, and the positions of the last one put in a set. */
  method Two(motions: seq<Motion>) returns (count: nat)
    ensures count == |Visited(9, motions)|
  {
    var visited: set<Direction> := {};
    var head := Origin;
    var tail: seq<Direction> := [];
    for k := 0 to 9
      invariant tail == Repeat(Origin, k)
    {
      assert Repeat(Origin, k + 1) == Repeat(Origin, k) + [Origin];
      tail := tail + [Origin];
    }
    visited := visited + {tail[8]};
    ghost var start := Start(9);
    assert start == Rope(head, tail);
    for i := 0 to |motions|
      invariant |tail| == 9
      invariant Final(start, Steps(motions[..i])) == Rope(head, tail)
      invariant visited == {Origin} + Elements(Trail(start, Steps(motions[..i])))
    {
      var dir, n := motions[i].dir, motions[i].count;
      ghost var done := Steps(motions[..i]);
      var j := 0;
      assert done + Repeat(dir, 0) == done;
      while j < n
        invariant 0 <= j && (j == 0 || j <= n)
        invariant |tail| == 9
        invariant Final(start, done + Repeat(dir, j)) == Rope(head, tail)
        invariant visited == {Origin} + Elements(Trail(start, done + Repeat(dir, j)))
      {
        StepFurther(start, done, dir, j, head, tail);
        head := Add(head, dir);
        tail := Pull(head, tail);
        visited := visited + {tail[8]};
        j := j + 1;
      }
      MotionDone(motions, i, j);
    }
    assert motions[..|motions|] == motions;
    count := |visited|;
  }

  // ------------------------------------------------------ the rope stays taut

  /** Every knot touches the knot ahead of it, the first one the head. */
  predicate Taut(rope: Rope) {
    && (|rope.knots| > 0 ==> Touching(rope.head, rope.knots[0]))
    && forall i :: 0 < i < |rope.knots| ==> Touching(rope.knots[i - 1], rope.knots[i])
  }

  /** When the leader of a taut chain moves by at most one step per axis,
      the pulled chain is taut again and each knot moves by at most one step
      per axis. */
  lemma {:induction false} PullTaut(lead: Direction, moved: Direction, knots: seq<Direction>)
    requires Taut(Rope(lead, knots)) && Unit(Sub(moved, lead))
    ensures Taut(Rope(moved, Pull(moved, knots)))
    decreases |knots|
  {
    if knots != [] {
      var first := Follow(moved, knots[0]);
      FollowTouches(moved, knots[0]);
      var rest := knots[1..];
      assert Taut(Rope(knots[0], rest)) by {
        forall i | 0 < i < |rest|
          ensures Touching(rest[i - 1], rest[i])
        {
          assert rest[i - 1] == knots[i] && rest[i] == knots[i + 1];
        }
      }
      PullTaut(knots[0], first, rest);
      var r := Pull(moved, knots);
      assert r == [first] + Pull(first, rest);
      forall i | 0 < i < |r|
        ensures Touching(r[i - 1], r[i])
      {
        if i > 1 {
          assert r[i - 1] == Pull(first, rest)[i - 2] && r[i] == Pull(first, rest)[i - 1];
        }
      }
    }
  }

  /** Every unit step of the head keeps the rope taut. */
  lemma {:induction false} FinalTaut(rope: Rope, moves: seq<Direction>)
    requires Taut(rope)
    requires forall k :: 0 <= k < |moves| ==> Unit(moves[k])
    ensures Taut(Final(rope, moves))
    decreases |moves|
  {
    if moves != [] {
      var head := Add(rope.head, moves[0]);
      PullTaut(rope.head, head, rope.knots);
      FinalTaut(Move(rope, moves[0]), moves[1..]);
    }
  }

  /** A rope gathered at one point is taut. */
  lemma GatheredTaut(p: Direction, knots: seq<Direction>)
    requires forall i :: 0 <= i < |knots| ==> knots[i] == p
    ensures Taut(Rope(p, knots))
  {
  }

  lemma StartTaut(n: nat)
    ensures Taut(Start(n))
  {
    RepeatAll(Origin, n);
    GatheredTaut(Origin, Repeat(Origin, n));
  }

  /** Motions in the four letter directions expand to unit steps. */
  lemma {:induction false} StepsUnit(motions: seq<Motion>)
    requires forall k :: 0 <= k < |motions| ==> Unit(motions[k].dir)
    ensures forall k :: 0 <= k < |Steps(motions)| ==> Unit(Steps(motions)[k])
    decreases |motions|
  {
    if motions != [] {
      var m := motions[|motions| - 1];
      StepsUnit(motions[..|motions| - 1]);
      var r := Repeat(m.dir, m.count);
      assert forall k :: 0 <= k < |r| ==> r[k] == m.dir by {
        RepeatAll(m.dir, m.count);
      }
    }
  }

  lemma {:induction false} RepeatAll(d: Direction, n: int)
    ensures forall k :: 0 <= k < |Repeat(d, n)| ==> Repeat(d, n)[k] == d
    decreases n
  {
    if n > 0 {
      RepeatAll(d, n - 1);
    }
  }

  /** After any list of motions in the letter directions, every knot of a
      rope that started gathered at the origin touches the knot ahead of
      it. */
  lemma AlwaysTaut(n: nat, motions: seq<Motion>)
    requires forall k :: 0 <= k < |motions| ==> exists c :: DirectionOf(c) == Some(motions[k].dir)
    ensures Taut(Final(Start(n), Steps(motions)))
  {
    forall k | 0 <= k < |motions|
      ensures Unit(motions[k].dir)
    {
      var c :| DirectionOf(c) == Some(motions[k].dir);
    }
    StartTaut(n);
    StepsUnit(motions);
    FinalTaut(Start(n), Steps(motions));
  }

  // ------------------------------------------------------ visited positions

  lemma {:induction false} ElementsBound(s: seq<Direction>)
    ensures |Elements(s)| <= |s|
  {
    if s != [] {
      var init := s[..|s| - 1];
      ElementsBound(init);
      assert s == init + [s[|s| - 1]];
      ElementsSnoc(init, s[|s| - 1]);
    }
  }

  /** The last knot visits at least the origin and at most one new position
      per step. */
  lemma VisitedBound(n: nat, motions: seq<Motion>)
    requires n > 0
    ensures Origin in Visited(n, motions)
    ensures 1 <= |Visited(n, motions)| <= |Steps(motions)| + 1
  {
    ElementsBound(Trail(Start(n), Steps(motions)));
  }
}

/** Day 8, Treetop Tree House.  A grid of tree heights; a tree is visible
    from outside when every tree between it and an edge, in one of the four
    directions, is strictly shorter.  Part one counts the visible trees:
    every edge tree, plus the interior trees found visible by four running
    maximum scans. */
module TreetopTreeHouse {
  import opened Wrappers
  import opened Text

  /** `Height::from`: the value of a decimal digit; any other character
      makes the program panic (`None`). */
  function HeightFrom(c: char): (r: Option<nat>)
    ensures r.Some? <==> IsDigit(c)
    ensures r.Some? ==> r.value <= 9 && DigitChar(r.value) == c
  {
    if IsDigit(c) then Some(DigitValue(c)) else None
  }

  /** The rows of heights, top to bottom. */
  type Grid = seq<seq<nat>>

  /** No row is narrower than the first.  The scans index every row up to
      the first row's width; wider rows are allowed, their extra trees are
      never looked at. */
  predicate NoNarrowRow(g: Grid) {
    forall r :: 0 <= r < |g| ==> |g[r]| >= |g[0]|
  }

  /** The grids `one` answers without panicking, among those with no narrow
      row: at least two rows (`map[0]` fails on none, `rows - 2` underflows
      on one), and a first row of at least two trees once there is an
      interior row (`cols - 2` is evaluated inside the closure, which runs
      only for interior rows).  With exactly two rows any width is
      answered. */
  predicate Answers(g: Grid) {
    |g| >= 2 && (|g| > 2 ==> |g[0]| >= 2)
  }

  predicate WellShaped(g: Grid) {
    Answers(g) && NoNarrowRow(g)
  }

  /** A tree position inside the first row's width. */
  predicate InGrid(g: Grid, r: nat, c: nat) {
    WellShaped(g) && r < |g| && c < |g[0]|
  }

  /** Every tree above the one at (r, c) is strictly shorter. */
  predicate ClearUp(g: Grid, r: nat, c: nat)
    requires InGrid(g, r, c)
  {
    forall k :: 0 <= k < r ==> g[k][c] < g[r][c]
  }

  predicate ClearDown(g: Grid, r: nat, c: nat)
    requires InGrid(g, r, c)
  {
    forall k :: r < k < |g| ==> g[k][c] < g[r][c]
  }

  predicate ClearRight(g: Grid, r: nat, c: nat)
    requires InGrid(g, r, c)
  {
    forall k :: c < k < |g[0]| ==> g[r][k] < g[r][c]
  }

  predicate ClearLeft(g: Grid, r: nat, c: nat)
    requires InGrid(g, r, c)
  {
    forall k :: 0 <= k < c ==> g[r][k] < g[r][c]
  }

  /** The tree can be seen from outside the grid along some direction. */
  predicate Visible(g: Grid, r: nat, c: nat)
    requires InGrid(g, r, c)
  {
    ClearUp(g, r, c) || ClearDown(g, r, c) || ClearRight(g, r, c) || ClearLeft(g, r, c)
  }

  function Max(a: nat, b: nat): (m: nat)
    ensures m >= a && m >= b && (m == a || m == b)
  {
    if a >= b then a else b
  }

  /** The closure of `one` for an interior tree: four scans, up, down,
      right and left, each computing the largest height between the tree
      and the edge starting from 0, and answering as soon as one maximum is
      below the tree's height. */
  method IsVisible(g: Grid, r: nat, c: nat) returns (b: bool)
    requires InGrid(g, r, c) && 0 < r < |g| - 1 && 0 < c < |g[0]| - 1
    ensures b == Visible(g, r, c)
  {
    var height := g[r][c];
    var max := 0;
    for k := r downto 0
      invariant forall j :: k <= j < r ==> g[j][c] <= max
      invariant max == 0 || exists j :: k <= j < r && g[j][c] == max
    {
      max := Max(max, g[k][c]);
    }
    if max < height {
      return true;
    }
    assert !ClearUp(g, r, c) by {
      if max > 0 {
        var j :| 0 <= j < r && g[j][c] == max;
      } else {
        assert g[0][c] >= height;
      }
    }

    max := 0;
    for k := r + 1 to |g|
      invariant forall j :: r < j < k ==> g[j][c] <= max
      invariant max == 0 || exists j :: r < j < k && g[j][c] == max
    {
      max := Max(max, g[k][c]);
    }
    if max < height {
      return true;
    }
    assert !ClearDown(g, r, c) by {
      if max > 0 {
        var j :| r < j < |g| && g[j][c] == max;
      } else {
        assert g[|g| - 1][c] >= height;
      }
    }

    max := 0;
    for k := c + 1 to |g[0]|
      invariant forall j :: c < j < k ==> g[r][j] <= max
      invariant max == 0 || exists j :: c < j < k && g[r][j] == max
    {
      max := Max(max, g[r][k]);
    }
    if max < height {
      return true;
    }
    assert !ClearRight(g, r, c) by {
      if max > 0 {
        var j :| c < j < |g[0]| && g[r][j] == max;
      } else {
        assert g[r][|g[0]| - 1] >= height;
      }
    }

    max := 0;
    for k := c downto 0
      invariant forall j :: k <= j < c ==> g[r][j] <= max
      invariant max == 0 || exists j :: k <= j < c && g[r][j] == max
    {
      max := Max(max, g[r][k]);
    }
    if max < height {
      return true;
    }
    assert !ClearLeft(g, r, c) by {
      if max > 0 {
        var j :| 0 <= j < c && g[r][j] == max;
      } else {
        assert g[r][0] >= height;
      }
    }
    return false;
  }

  /** The trees on the border: 2 * (rows + cols) - 4. */
  function EdgeCount(g: Grid): nat
    requires WellShaped(g)
  {
    2 * (|g| + |g[0]|) - 4
  }

  /** The visible interior trees of row r from column c up to the last
      interior column. */
  function RowCount(g: Grid, r: nat, c: nat): (n: nat)
    requires WellShaped(g) && 0 < r < |g| - 1 && 0 < c <= |g[0]| - 1
    ensures n <= |g[0]| - 1 - c
    decreases |g[0]| - c
  {
    if c == |g[0]| - 1 then 0
    else (if Visible(g, r, c) then 1 else 0) + RowCount(g, r, c + 1)
  }

  /** The visible interior trees of rows r up to the last interior row. */
  function InteriorCount(g: Grid, r: nat): (n: nat)
    requires WellShaped(g) && 0 < r <= |g| - 1
    ensures n <= (|g| - 1 - r) * (|g[0]| - 2)
    decreases |g| - r
  {
    if r == |g| - 1 then 0
    else RowCount(g, r, 1) + InteriorCount(g, r + 1)
  }

  /** `one`: the edge trees plus the visible interior trees, row by row;
      `None` where the program panics. */
  method One(g: Grid) returns (count: Option<nat>)
    requires NoNarrowRow(g)
    ensures count.Some? <==> Answers(g)
    ensures count.Some? ==> count.value == EdgeCount(g) + InteriorCount(g, 1)
  {
    if |g| < 2 {
      return None;
    }
    var rows, cols := |g|, |g[0]|;
    if rows > 2 && cols < 2 {
      // `cols - 2` underflows in the closure for the first interior row
      return None;
    }
    var interior := 0;
    for r := 1 to rows - 1
      invariant interior + InteriorCount(g, r) == InteriorCount(g, 1)
    {
      var inRow := 0;
      for c := 1 to cols - 1
        invariant inRow + RowCount(g, r, c) == RowCount(g, r, 1)
      {
        var seen := IsVisible(g, r, c);
        if seen {
          inRow := inRow + 1;
        }
      }
      interior := interior + inRow;
    }
    count := Some(2 * (rows + cols) - 4 + interior);
  }

  // ------------------------------------------------------------ lemmas

  /** A tree on the border is visible: nothing stands between it and the
      edge it lies on.  This is why `one` counts every edge tree. */
  lemma EdgeVisible(g: Grid, r: nat, c: nat)
    requires InGrid(g, r, c)
    requires r == 0 || r == |g| - 1 || c == 0 || c == |g[0]| - 1
    ensures Visible(g, r, c)
  {
    if r == 0 {
      assert ClearUp(g, r, c);
    } else if r == |g| - 1 {
      assert ClearDown(g, r, c);
    } else if c == 0 {
      assert ClearLeft(g, r, c);
    } else {
      assert ClearRight(g, r, c);
    }
  }

  /** The border holds 2 * (rows + cols) - 4 trees: two full rows and the
      two columns without their corners. */
  lemma EdgeCountIsBorder(g: Grid)
    requires WellShaped(g)
    ensures EdgeCount(g) == |g| * |g[0]| - (|g| - 2) * (|g[0]| - 2)
  {
  }

  /** The count lies between the number of edge trees and the number of
      trees. */
  lemma OneBounds(g: Grid)
    requires WellShaped(g)
    ensures EdgeCount(g) <= EdgeCount(g) + InteriorCount(g, 1) <= |g| * |g[0]|
  {
    EdgeCountIsBorder(g);
  }

  /** A grid in which every tree has the same height shows only its
      border. */
  lemma {:induction false} FlatRowHidden(g: Grid, r: nat, c: nat)
    requires WellShaped(g) && 0 < r < |g| - 1 && 0 < c <= |g[0]| - 1
    requires forall i, j :: 0 <= i < |g| && 0 <= j < |g[0]| ==> g[i][j] == g[0][0]
    ensures RowCount(g, r, c) == 0
    decreases |g[0]| - c
  {
    if c < |g[0]| - 1 {
      assert !Visible(g, r, c) by {
        assert g[0][c] == g[r][c] && g[|g| - 1][c] == g[r][c];
        assert g[r][0] == g[r][c] && g[r][|g[0]| - 1] == g[r][c];
      }
      FlatRowHidden(g, r, c + 1);
    }
  }

  lemma {:induction false} FlatHidden(g: Grid, r: nat)
    requires WellShaped(g) && 0 < r <= |g| - 1
    requires forall i, j :: 0 <= i < |g| && 0 <= j < |g[0]| ==> g[i][j] == g[0][0]
    ensures InteriorCount(g, r) == 0
    decreases |g| - r
  {
    if r < |g| - 1 {
      FlatRowHidden(g, r, 1);
      FlatHidden(g, r + 1);
    }
  }

  /** Two rows of one tree each: no interior row, so the closure that
      computes `cols - 2` never runs, and both trees are edge trees. */
  lemma TwoSingleTrees()
    ensures WellShaped([[5], [5]]) && EdgeCount([[5], [5]]) + InteriorCount([[5], [5]], 1) == 2
  {
  }

  /** The example grid of the program's test. */
  function Sample(): Grid {
    [[3, 0, 3, 7, 3],
     [2, 5, 5, 1, 2],
     [6, 5, 3, 3, 2],
     [3, 3, 5, 4, 9],
     [3, 5, 3, 9, 0]]
  }

  /** On the example 16 edge trees and 5 interior trees are visible: 21, as
      the program's test expects. */
  lemma SampleOne()
    ensures WellShaped(Sample()) && EdgeCount(Sample()) + InteriorCount(Sample(), 1) == 21
  {
    SampleRowOne();
    SampleRowTwo();
    SampleRowThree();
  }

  /** Row 1: the two 5s are visible from above, the 1 from nowhere. */
  lemma SampleRowOne()
    ensures WellShaped(Sample()) && RowCount(Sample(), 1, 1) == 2
  {
    var g := Sample();
    assert ClearUp(g, 1, 1) && ClearUp(g, 1, 2);
    assert !Visible(g, 1, 3) by {
      assert g[0][3] >= g[1][3] && g[2][3] >= g[1][3] && g[1][4] >= g[1][3] && g[1][0] >= g[1][3];
    }
  }

  /** Row 2: the 5 in column 1 and the 3 in column 3 are visible from the
      right, the 3 in column 2 from nowhere. */
  lemma SampleRowTwo()
    ensures WellShaped(Sample()) && RowCount(Sample(), 2, 1) == 2
  {
    var g := Sample();
    assert ClearRight(g, 2, 1);
    assert !Visible(g, 2, 2) by {
      assert g[1][2] >= g[2][2] && g[3][2] >= g[2][2] && g[2][3] >= g[2][2] && g[2][1] >= g[2][2];
    }
    assert ClearRight(g, 2, 3);
  }

  /** Row 3: only the middle 5 is visible, from the left. */
  lemma SampleRowThree()
    ensures WellShaped(Sample()) && RowCount(Sample(), 3, 1) == 1
  {
    var g := Sample();
    assert !Visible(g, 3, 1) by {
      assert g[2][1] >= g[3][1] && g[4][1] >= g[3][1] && g[3][2] >= g[3][1] && g[3][0] >= g[3][1];
    }
    assert ClearLeft(g, 3, 2);
    assert !Visible(g, 3, 3) by {
      assert g[0][3] >= g[3][3] && g[4][3] >= g[3][3] && g[3][4] >= g[3][3] && g[3][2] >= g[3][3];
    }
  }
}

/**
 * Position scoring: the three-part breakdown of how good it is to put a
 * rectangle of a given size at a given top-left corner of a stock grid.
 * All three parts use the grid's raw shape, not its usable size.
 */
module Scoring {
  import opened Stock

  /** The score breakdown the policy computes for one position. */
  datatype Breakdown = Breakdown(edge: int, cornerDist: int, adjacent: int)

  /** The policy's combined score `10 * edge + 5 * adjacent - 0.1 * cornerDist`,
      in exact arithmetic. */
  ghost function ExactTotal(b: Breakdown): real {
    (b.edge * 10) as real + (b.adjacent * 5) as real - (b.cornerDist as real) * 0.1
  }

  /** The combined score, scaled by ten so that it stays an integer. */
  function Total(b: Breakdown): (r: int)
    ensures r as real == 10.0 * ExactTotal(b)
  {
    100 * b.edge + 50 * b.adjacent - b.cornerDist
  }

  /** Scaling by ten keeps every comparison between exact totals, so strict
      `>` on scaled totals decides as it would on exact ones. */
  lemma TotalComparesAsExact(b1: Breakdown, b2: Breakdown)
    ensures Total(b1) > Total(b2) <==> ExactTotal(b1) > ExactTotal(b2)
    ensures Total(b1) == Total(b2) <==> ExactTotal(b1) == ExactTotal(b2)
  {
  }

  // ---------------------------------------------------------------------
  // Edge alignment

  /** One point for lying flush with the top or the bottom edge of the
      grid, one for lying flush with its left or right edge. */
  function EdgeScore(height: int, width: int, p: Pos, sz: Size): (e: int)
    ensures 0 <= e <= 2
  {
    (if p.i == 0 || p.i + sz.h == height then 1 else 0) +
    (if p.j == 0 || p.j + sz.w == width then 1 else 0)
  }

  /** Cell (r, c) lies on the outer frame of a `height` x `width` grid. */
  predicate OnFrame(height: int, width: int, r: int, c: int) {
    r == 0 || r == height - 1 || c == 0 || c == width - 1
  }

  /** Cell (r, c) is one of the four corner cells of the grid. */
  predicate IsCornerCell(height: int, width: int, r: int, c: int) {
    (r == 0 || r == height - 1) && (c == 0 || c == width - 1)
  }

  /** A rectangle that fits the grid earns an edge point exactly when it
      covers a cell of the grid's outer frame. */
  lemma EdgeScorePositiveIffOnFrame(g: Grid, p: Pos, sz: Size)
    requires InBounds(g, p, sz) && sz.h > 0 && sz.w > 0
    ensures EdgeScore(g.height, g.width, p, sz) >= 1 <==>
      exists r, c :: Covers(p, sz, r, c) && OnFrame(g.height, g.width, r, c)
  {
    if EdgeScore(g.height, g.width, p, sz) >= 1 {
      if p.i == 0 || p.i + sz.h == g.height {
        var r := if p.i == 0 then 0 else g.height - 1;
        assert Covers(p, sz, r, p.j) && OnFrame(g.height, g.width, r, p.j);
      } else {
        var c := if p.j == 0 then 0 else g.width - 1;
        assert Covers(p, sz, p.i, c) && OnFrame(g.height, g.width, p.i, c);
      }
    }
  }

  /** A rectangle that fits the grid earns both edge points exactly when it
      covers one of the grid's four corner cells. */
  lemma EdgeScoreTwoIffCorner(g: Grid, p: Pos, sz: Size)
    requires InBounds(g, p, sz) && sz.h > 0 && sz.w > 0
    ensures EdgeScore(g.height, g.width, p, sz) == 2 <==>
      exists r, c :: Covers(p, sz, r, c) && IsCornerCell(g.height, g.width, r, c)
  {
    if EdgeScore(g.height, g.width, p, sz) == 2 {
      var r := if p.i == 0 then 0 else g.height - 1;
      var c := if p.j == 0 then 0 else g.width - 1;
      assert Covers(p, sz, r, c) && IsCornerCell(g.height, g.width, r, c);
    }
  }

  // ---------------------------------------------------------------------
  // Corner proximity

  /** The four corners of the raw shape, in the order the policy lists them. */
  function Corner(height: int, width: int, k: int): Pos
    requires 0 <= k < 4
  {
    [Pos(0, 0), Pos(0, width - 1), Pos(height - 1, 0), Pos(height - 1, width - 1)][k]
  }

  function Abs(x: int): int {
    if x < 0 then -x else x
  }

  function Manhattan(p: Pos, q: Pos): (d: int)
    ensures d >= 0
  {
    Abs(p.i - q.i) + Abs(p.j - q.j)
  }

  lemma ManhattanZero(p: Pos, q: Pos)
    ensures Manhattan(p, q) == 0 <==> p == q
  {
  }

  function Min(a: int, b: int): int {
    if a <= b then a else b
  }

  /** The Manhattan distance from `p` to the nearest corner of the raw
      shape: the minimum over the four corners. */
  function CornerDist(height: int, width: int, p: Pos): (d: int)
    ensures d >= 0
  {
    Min(Min(Manhattan(p, Corner(height, width, 0)), Manhattan(p, Corner(height, width, 1))),
        Min(Manhattan(p, Corner(height, width, 2)), Manhattan(p, Corner(height, width, 3))))
  }

  /** The corner distance is the distance to one of the corners and to no
      corner is the distance smaller. */
  lemma CornerDistIsNearest(height: int, width: int, p: Pos)
    ensures forall k :: 0 <= k < 4 ==> CornerDist(height, width, p) <= Manhattan(p, Corner(height, width, k))
    ensures exists k :: 0 <= k < 4 && CornerDist(height, width, p) == Manhattan(p, Corner(height, width, k))
  {
    var d := CornerDist(height, width, p);
    var k := if d == Manhattan(p, Corner(height, width, 0)) then 0
             else if d == Manhattan(p, Corner(height, width, 1)) then 1
             else if d == Manhattan(p, Corner(height, width, 2)) then 2
             else 3;
    assert d == Manhattan(p, Corner(height, width, k));
  }

  /** The corner distance is zero exactly at the four corners. */
  lemma CornerDistZeroIffCorner(height: int, width: int, p: Pos)
    ensures CornerDist(height, width, p) == 0 <==> exists k :: 0 <= k < 4 && p == Corner(height, width, k)
  {
    var d := CornerDist(height, width, p);
    CornerDistIsNearest(height, width, p);
    if d == 0 {
      var k :| 0 <= k < 4 && d == Manhattan(p, Corner(height, width, k));
      ManhattanZero(p, Corner(height, width, k));
    } else {
      forall k | 0 <= k < 4 ensures p != Corner(height, width, k) {
        ManhattanZero(p, Corner(height, width, k));
      }
    }
  }

  // ---------------------------------------------------------------------
  // Adjacent occupied cells

  /** Cell (r, c) lies outside the rectangle and shares a side with one of
      its cells: it is in the row just above or just below the rectangle's
      columns, or in the column just left or just right of its rows. */
  predicate Borders(p: Pos, sz: Size, r: int, c: int) {
    ((r == p.i - 1 || r == p.i + sz.h) && p.j <= c < p.j + sz.w) ||
    ((c == p.j - 1 || c == p.j + sz.w) && p.i <= r < p.i + sz.h)
  }

  /** The occupied cells of the grid that border the rectangle. */
  ghost function OccupiedNeighbours(g: Grid, p: Pos, sz: Size): set<(int, int)> {
    set r: int, c: int | 0 <= r < g.height && 0 <= c < g.width && Borders(p, sz, r, c) && Occupied(g.cells[r][c]) :: (r, c)
  }

  /** The reference meaning of the adjacency bonus: how many occupied cells
      of the grid border the rectangle. */
  ghost function AdjacentFilled(g: Grid, p: Pos, sz: Size): int {
    |OccupiedNeighbours(g, p, sz)|
  }

  /** The number of occupied cells in columns c0 .. c1-1 of row r: the
      policy's sum of the `>= 0` test over a slice of that row. */
  function CountRow(g: Grid, r: int, c0: int, c1: int): (n: int)
    requires 0 <= r < g.height && 0 <= c0 <= c1 <= g.width
    ensures 0 <= n <= c1 - c0
    decreases c1 - c0
  {
    if c1 == c0 then 0
    else CountRow(g, r, c0, c1 - 1) + (if Occupied(g.cells[r][c1 - 1]) then 1 else 0)
  }

  /** The number of occupied cells in rows r0 .. r1-1 of column c: the same
      sum over a slice of that column. */
  function CountCol(g: Grid, c: int, r0: int, r1: int): (n: int)
    requires 0 <= c < g.width && 0 <= r0 <= r1 <= g.height
    ensures 0 <= n <= r1 - r0
    decreases r1 - r0
  {
    if r1 == r0 then 0
    else CountCol(g, c, r0, r1 - 1) + (if Occupied(g.cells[r1 - 1][c]) then 1 else 0)
  }

  /** The occupied cells in columns c0 .. c1-1 of row r. */
  ghost function RowRun(g: Grid, r: int, c0: int, c1: int): set<(int, int)>
    requires 0 <= r < g.height && 0 <= c0 <= c1 <= g.width
  {
    set c: int | c0 <= c < c1 && Occupied(g.cells[r][c]) :: (r, c)
  }

  /** The occupied cells in rows r0 .. r1-1 of column c. */
  ghost function ColRun(g: Grid, c: int, r0: int, r1: int): set<(int, int)>
    requires 0 <= c < g.width && 0 <= r0 <= r1 <= g.height
  {
    set r: int | r0 <= r < r1 && Occupied(g.cells[r][c]) :: (r, c)
  }

  lemma {:induction false} RowRunCount(g: Grid, r: int, c0: int, c1: int)
    requires 0 <= r < g.height && 0 <= c0 <= c1 <= g.width
    ensures |RowRun(g, r, c0, c1)| == CountRow(g, r, c0, c1)
    decreases c1 - c0
  {
    if c1 == c0 {
      assert RowRun(g, r, c0, c1) == {};
    } else {
      RowRunCount(g, r, c0, c1 - 1);
      var last := if Occupied(g.cells[r][c1 - 1]) then {(r, c1 - 1)} else {};
      var shorter := RowRun(g, r, c0, c1 - 1);
      assert (r, c1 - 1) !in shorter;
      forall x | x in RowRun(g, r, c0, c1) ensures x in shorter + last {
        var c :| c0 <= c < c1 && Occupied(g.cells[r][c]) && x == (r, c);
        if c < c1 - 1 { assert x in shorter; }
      }
      assert RowRun(g, r, c0, c1) == shorter + last;
    }
  }

  lemma {:induction false} ColRunCount(g: Grid, c: int, r0: int, r1: int)
    requires 0 <= c < g.width && 0 <= r0 <= r1 <= g.height
    ensures |ColRun(g, c, r0, r1)| == CountCol(g, c, r0, r1)
    decreases r1 - r0
  {
    if r1 == r0 {
      assert ColRun(g, c, r0, r1) == {};
    } else {
      ColRunCount(g, c, r0, r1 - 1);
      var last := if Occupied(g.cells[r1 - 1][c]) then {(r1 - 1, c)} else {};
      var shorter := ColRun(g, c, r0, r1 - 1);
      assert (r1 - 1, c) !in shorter;
      forall x | x in ColRun(g, c, r0, r1) ensures x in shorter + last {
        var r :| r0 <= r < r1 && Occupied(g.cells[r][c]) && x == (r, c);
        if r < r1 - 1 { assert x in shorter; }
      }
      assert ColRun(g, c, r0, r1) == shorter + last;
    }
  }

  /** The side counts, each taken only when that side lies inside the grid. */
  ghost function AboveRun(g: Grid, p: Pos, sz: Size): set<(int, int)>
    requires InBounds(g, p, sz)
  {
    if p.i > 0 then RowRun(g, p.i - 1, p.j, p.j + sz.w) else {}
  }

  ghost function BelowRun(g: Grid, p: Pos, sz: Size): set<(int, int)>
    requires InBounds(g, p, sz)
  {
    if p.i + sz.h < g.height then RowRun(g, p.i + sz.h, p.j, p.j + sz.w) else {}
  }

  ghost function LeftRun(g: Grid, p: Pos, sz: Size): set<(int, int)>
    requires InBounds(g, p, sz)
  {
    if p.j > 0 then ColRun(g, p.j - 1, p.i, p.i + sz.h) else {}
  }

  ghost function RightRun(g: Grid, p: Pos, sz: Size): set<(int, int)>
    requires InBounds(g, p, sz)
  {
    if p.j + sz.w < g.width then ColRun(g, p.j + sz.w, p.i, p.i + sz.h) else {}
  }

  /** Every element of a row run lies in that row, within its columns. */
  lemma RowRunShape(g: Grid, r: int, c0: int, c1: int)
    requires 0 <= r < g.height && 0 <= c0 <= c1 <= g.width
    ensures forall x :: x in RowRun(g, r, c0, c1) ==> x.0 == r && c0 <= x.1 < c1
  {
  }

  /** Every element of a column run lies in that column, within its rows. */
  lemma ColRunShape(g: Grid, c: int, r0: int, r1: int)
    requires 0 <= c < g.width && 0 <= r0 <= r1 <= g.height
    ensures forall x :: x in ColRun(g, c, r0, r1) ==> x.1 == c && r0 <= x.0 < r1
  {
  }

  /** The bordering occupied cells are the union of the four sides. */
  lemma NeighboursAreSides(g: Grid, p: Pos, sz: Size)
    requires InBounds(g, p, sz)
    ensures OccupiedNeighbours(g, p, sz) ==
      AboveRun(g, p, sz) + BelowRun(g, p, sz) + LeftRun(g, p, sz) + RightRun(g, p, sz)
  {
    var a, b, l, rt := AboveRun(g, p, sz), BelowRun(g, p, sz), LeftRun(g, p, sz), RightRun(g, p, sz);
    var all := OccupiedNeighbours(g, p, sz);
    forall x | x in all ensures x in a + b + l + rt {
      var (r, c) := x;
      if r == p.i - 1 && p.j <= c < p.j + sz.w {
        assert x in a;
      } else if r == p.i + sz.h && p.j <= c < p.j + sz.w {
        assert x in b;
      } else if c == p.j - 1 {
        assert x in l;
      } else {
        assert x in rt;
      }
    }
    forall x | x in a + b + l + rt ensures x in all {
      if x in a {
        RowRunShape(g, p.i - 1, p.j, p.j + sz.w);
      } else if x in b {
        RowRunShape(g, p.i + sz.h, p.j, p.j + sz.w);
      } else if x in l {
        ColRunShape(g, p.j - 1, p.i, p.i + sz.h);
      } else {
        ColRunShape(g, p.j + sz.w, p.i, p.i + sz.h);
      }
    }
  }

  /** The rows above and below the rectangle are different rows. */
  lemma AboveBelowDisjoint(g: Grid, p: Pos, sz: Size)
    requires InBounds(g, p, sz)
    ensures AboveRun(g, p, sz) * BelowRun(g, p, sz) == {}
  {
    if p.i > 0 { RowRunShape(g, p.i - 1, p.j, p.j + sz.w); }
    if p.i + sz.h < g.height { RowRunShape(g, p.i + sz.h, p.j, p.j + sz.w); }
  }

  /** The column left of the rectangle shares no cell with the rows above
      and below it. */
  lemma LeftDisjoint(g: Grid, p: Pos, sz: Size)
    requires InBounds(g, p, sz)
    ensures (AboveRun(g, p, sz) + BelowRun(g, p, sz)) * LeftRun(g, p, sz) == {}
  {
    if p.i > 0 { RowRunShape(g, p.i - 1, p.j, p.j + sz.w); }
    if p.i + sz.h < g.height { RowRunShape(g, p.i + sz.h, p.j, p.j + sz.w); }
    if p.j > 0 { ColRunShape(g, p.j - 1, p.i, p.i + sz.h); }
  }

  /** The column right of the rectangle shares no cell with the other three
      sides. */
  lemma RightDisjoint(g: Grid, p: Pos, sz: Size)
    requires InBounds(g, p, sz)
    ensures (AboveRun(g, p, sz) + BelowRun(g, p, sz) + LeftRun(g, p, sz)) * RightRun(g, p, sz) == {}
  {
    if p.i > 0 { RowRunShape(g, p.i - 1, p.j, p.j + sz.w); }
    if p.i + sz.h < g.height { RowRunShape(g, p.i + sz.h, p.j, p.j + sz.w); }
    if p.j > 0 { ColRunShape(g, p.j - 1, p.i, p.i + sz.h); }
    if p.j + sz.w < g.width { ColRunShape(g, p.j + sz.w, p.i, p.i + sz.h); }
  }

  /** The four sides share no cell, so their sizes add up. */
  lemma SidesDisjoint(g: Grid, p: Pos, sz: Size)
    requires InBounds(g, p, sz)
    ensures |AboveRun(g, p, sz) + BelowRun(g, p, sz) + LeftRun(g, p, sz) + RightRun(g, p, sz)| ==
      |AboveRun(g, p, sz)| + |BelowRun(g, p, sz)| + |LeftRun(g, p, sz)| + |RightRun(g, p, sz)|
  {
    AboveBelowDisjoint(g, p, sz);
    LeftDisjoint(g, p, sz);
    RightDisjoint(g, p, sz);
  }

  /** The number of bordering occupied cells is the sum over the sides. */
  lemma NeighboursBySide(g: Grid, p: Pos, sz: Size)
    requires InBounds(g, p, sz)
    ensures AdjacentFilled(g, p, sz) ==
      |AboveRun(g, p, sz)| + |BelowRun(g, p, sz)| + |LeftRun(g, p, sz)| + |RightRun(g, p, sz)|
  {
    NeighboursAreSides(g, p, sz);
    SidesDisjoint(g, p, sz);
  }

  /** The policy's count for the row above the rectangle. */
  function AboveCount(g: Grid, p: Pos, sz: Size): int
    requires InBounds(g, p, sz)
  {
    if p.i > 0 then CountRow(g, p.i - 1, p.j, p.j + sz.w) else 0
  }

  /** The policy's count for the row below the rectangle. */
  function BelowCount(g: Grid, p: Pos, sz: Size): int
    requires InBounds(g, p, sz)
  {
    if p.i + sz.h < g.height then CountRow(g, p.i + sz.h, p.j, p.j + sz.w) else 0
  }

  /** The policy's count for the column left of the rectangle. */
  function LeftCount(g: Grid, p: Pos, sz: Size): int
    requires InBounds(g, p, sz)
  {
    if p.j > 0 then CountCol(g, p.j - 1, p.i, p.i + sz.h) else 0
  }

  /** The policy's count for the column right of the rectangle. */
  function RightCount(g: Grid, p: Pos, sz: Size): int
    requires InBounds(g, p, sz)
  {
    if p.j + sz.w < g.width then CountCol(g, p.j + sz.w, p.i, p.i + sz.h) else 0
  }

  lemma AboveRunCount(g: Grid, p: Pos, sz: Size)
    requires InBounds(g, p, sz)
    ensures |AboveRun(g, p, sz)| == AboveCount(g, p, sz)
  {
    if p.i > 0 { RowRunCount(g, p.i - 1, p.j, p.j + sz.w); }
  }

  lemma BelowRunCount(g: Grid, p: Pos, sz: Size)
    requires InBounds(g, p, sz)
    ensures |BelowRun(g, p, sz)| == BelowCount(g, p, sz)
  {
    if p.i + sz.h < g.height { RowRunCount(g, p.i + sz.h, p.j, p.j + sz.w); }
  }

  lemma LeftRunCount(g: Grid, p: Pos, sz: Size)
    requires InBounds(g, p, sz)
    ensures |LeftRun(g, p, sz)| == LeftCount(g, p, sz)
  {
    if p.j > 0 { ColRunCount(g, p.j - 1, p.i, p.i + sz.h); }
  }

  lemma RightRunCount(g: Grid, p: Pos, sz: Size)
    requires InBounds(g, p, sz)
    ensures |RightRun(g, p, sz)| == RightCount(g, p, sz)
  {
    if p.j + sz.w < g.width { ColRunCount(g, p.j + sz.w, p.i, p.i + sz.h); }
  }

  /** The adjacency bonus of the policy, counted side by side over slices,
      is the number of occupied bordering cells. */
  lemma AdjacentFilledBySide(g: Grid, p: Pos, sz: Size)
    requires InBounds(g, p, sz)
    ensures AdjacentFilled(g, p, sz) ==
      AboveCount(g, p, sz) + BelowCount(g, p, sz) + LeftCount(g, p, sz) + RightCount(g, p, sz)
  {
    NeighboursBySide(g, p, sz);
    AboveRunCount(g, p, sz);
    BelowRunCount(g, p, sz);
    LeftRunCount(g, p, sz);
    RightRunCount(g, p, sz);
  }

  /** At most the whole perimeter of the rectangle can be occupied. */
  lemma AdjacentFilledBounds(g: Grid, p: Pos, sz: Size)
    requires InBounds(g, p, sz)
    ensures 0 <= AdjacentFilled(g, p, sz) <= 2 * sz.w + 2 * sz.h
  {
    AdjacentFilledBySide(g, p, sz);
  }

  /** A grid with no occupied cell gives no adjacency bonus anywhere. */
  lemma AdjacentFilledOnEmptyGrid(g: Grid, p: Pos, sz: Size)
    requires forall r, c :: 0 <= r < g.height && 0 <= c < g.width ==> !Occupied(g.cells[r][c])
    ensures AdjacentFilled(g, p, sz) == 0
  {
    assert OccupiedNeighbours(g, p, sz) == {};
  }

  /** The reference meaning of the combined score of a position. */
  ghost function TotalScore(g: Grid, p: Pos, sz: Size): int {
    Total(Breakdown(EdgeScore(g.height, g.width, p, sz), CornerDist(g.height, g.width, p), AdjacentFilled(g, p, sz)))
  }

  /** The policy's adjacency bonus, accumulated side by side: the row
      above, the row below, the column to the left and the column to the
      right, each only when it lies inside the grid. */
  method CountAdjacent(g: Grid, p: Pos, sz: Size) returns (adjacent: int)
    requires InBounds(g, p, sz)
    ensures adjacent == AdjacentFilled(g, p, sz)
  {
    adjacent := 0;
    if p.i > 0 {
      adjacent := adjacent + CountRow(g, p.i - 1, p.j, p.j + sz.w);
    }
    if p.i + sz.h < g.height {
      adjacent := adjacent + CountRow(g, p.i + sz.h, p.j, p.j + sz.w);
    }
    if p.j > 0 {
      adjacent := adjacent + CountCol(g, p.j - 1, p.i, p.i + sz.h);
    }
    if p.j + sz.w < g.width {
      adjacent := adjacent + CountCol(g, p.j + sz.w, p.i, p.i + sz.h);
    }
    AdjacentFilledBySide(g, p, sz);
  }

  /** The policy's scorer: each part accumulated as the policy does, and
      each equal to its reference meaning. */
  method ScorePosition(g: Grid, p: Pos, sz: Size) returns (b: Breakdown)
    requires InBounds(g, p, sz)
    ensures b.edge == EdgeScore(g.height, g.width, p, sz)
    ensures b.cornerDist == CornerDist(g.height, g.width, p)
    ensures b.adjacent == AdjacentFilled(g, p, sz)
    ensures Total(b) == TotalScore(g, p, sz)
  {
    var edge := 0;
    if p.i == 0 || p.i + sz.h == g.height {
      edge := edge + 1;
    }
    if p.j == 0 || p.j + sz.w == g.width {
      edge := edge + 1;
    }
    var cornerDist := CornerDist(g.height, g.width, p);
    var adjacent := CountAdjacent(g, p, sz);
    b := Breakdown(edge, cornerDist, adjacent);
  }
}

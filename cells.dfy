/** The storage shared by both labyrinth classes: a list of rows of integer
    masks, addressed by column `x` and row `y`, with the counts and the grid
    geometry that the proofs about carving need. */
module Cells {
  import opened Wrappers

  datatype Pos = Pos(x: int, y: int)

  /** How many entries `[v] * n` has: none when `n` is not positive. */
  function Extent(n: int): nat { if n < 0 then 0 else n }

  /** `height` rows of `width` entries each. */
  predicate Shaped(rows: seq<seq<int>>, width: int, height: int) {
    && |rows| == Extent(height)
    && forall y :: 0 <= y < |rows| ==> |rows[y]| == Extent(width)
  }

  predicate Inside(width: int, height: int, p: Pos) {
    0 <= p.x < width && 0 <= p.y < height
  }

  predicate Indexes(rows: seq<seq<int>>, p: Pos) {
    0 <= p.y < |rows| && 0 <= p.x < |rows[p.y]|
  }

  function At(rows: seq<seq<int>>, p: Pos): int
    requires Indexes(rows, p)
  {
    rows[p.y][p.x]
  }

  /** `rows[p.y][p.x] = v`. */
  function Put(rows: seq<seq<int>>, p: Pos, v: int): (r: seq<seq<int>>)
    requires Indexes(rows, p)
    ensures |r| == |rows| && forall y {:trigger r[y]} :: 0 <= y < |r| ==> |r[y]| == |rows[y]|
    ensures forall q {:trigger At(r, q)} :: Indexes(rows, q) ==> At(r, q) == if q == p then v else At(rows, q)
  {
    rows[p.y := rows[p.y][p.x := v]]
  }

  /** Python's `xs[i]` on a list of length `n`: indices from `-n` up to `n - 1`
      are accepted, and a negative one counts from the end, which is the index
      taken modulo `n`. */
  function ListIndex(i: int, n: nat): (r: Option<nat>)
    ensures r.Some? <==> -(n as int) <= i < n
    ensures r.Some? ==> r.value < n && r.value == i % n
  {
    if 0 <= i < n then Some(i)
    else if -(n as int) <= i < 0 then ModWrap(i, n); Some(i + n)
    else None
  }

  /** A negative index from `-n` on is congruent to the index `n` further on. */
  lemma {:induction false} ModWrap(i: int, n: int)
    requires -n <= i < 0
    ensures i % n == i + n
  {
    assert (i + n) % n == i % n;
  }

  lemma {:induction false} ShapedInside(rows: seq<seq<int>>, width: int, height: int, p: Pos)
    requires Shaped(rows, width, height) && Inside(width, height, p)
    ensures Indexes(rows, p)
  {
  }

  // ----- Counting cells -----

  /** 1 for true, 0 for false. */
  function Flag(b: bool): nat { if b then 1 else 0 }

  function RowCount(row: seq<int>, f: int -> nat): nat {
    if row == [] then 0 else f(row[0]) + RowCount(row[1..], f)
  }

  function GridCount(rows: seq<seq<int>>, f: int -> nat): nat {
    if rows == [] then 0 else RowCount(rows[0], f) + GridCount(rows[1..], f)
  }

  lemma {:induction false} RowCountUpdate(row: seq<int>, x: int, v: int, f: int -> nat)
    requires 0 <= x < |row|
    ensures RowCount(row[x := v], f) == RowCount(row, f) - f(row[x]) + f(v)
  {
    if x > 0 {
      assert row[x := v][1..] == row[1..][x - 1 := v];
      RowCountUpdate(row[1..], x - 1, v, f);
    }
  }

  /** Changing one cell changes a count by that cell's contribution only. */
  lemma {:induction false} GridCountUpdate(rows: seq<seq<int>>, p: Pos, v: int, f: int -> nat)
    requires Indexes(rows, p)
    ensures GridCount(Put(rows, p, v), f) == GridCount(rows, f) - f(At(rows, p)) + f(v)
  {
    if p.y == 0 {
      RowCountUpdate(rows[0], p.x, v, f);
      assert Put(rows, p, v)[1..] == rows[1..];
    } else {
      assert Put(rows, p, v)[1..] == Put(rows[1..], Pos(p.x, p.y - 1), v);
      GridCountUpdate(rows[1..], Pos(p.x, p.y - 1), v, f);
    }
  }

  function IsZero(m: int): nat { if m == 0 then 1 else 0 }

  /** Number of cells without any passage. */
  function ZeroCount(rows: seq<seq<int>>): nat { GridCount(rows, IsZero) }

  lemma {:induction false} RowCountNone(row: seq<int>, f: int -> nat)
    requires forall x :: 0 <= x < |row| ==> f(row[x]) == 0
    ensures RowCount(row, f) == 0
  {
    if row != [] { RowCountNone(row[1..], f); }
  }

  /** A count is zero when no cell contributes to it. */
  lemma {:induction false} GridCountNone(rows: seq<seq<int>>, f: int -> nat)
    requires forall p :: Indexes(rows, p) ==> f(At(rows, p)) == 0
    ensures GridCount(rows, f) == 0
  {
    if rows != [] {
      forall x | 0 <= x < |rows[0]| ensures f(rows[0][x]) == 0 {
        assert Indexes(rows, Pos(x, 0));
      }
      RowCountNone(rows[0], f);
      forall p | Indexes(rows[1..], p) ensures f(At(rows[1..], p)) == 0 {
        assert Indexes(rows, Pos(p.x, p.y + 1));
      }
      GridCountNone(rows[1..], f);
    }
  }

  lemma {:induction false} ZeroCountNone(rows: seq<seq<int>>)
    requires forall p :: Indexes(rows, p) ==> At(rows, p) != 0
    ensures ZeroCount(rows) == 0
  {
    GridCountNone(rows, IsZero);
  }

  lemma {:induction false} RowCountBound(row: seq<int>, f: int -> nat, all: bool)
    requires forall m :: f(m) <= 1
    requires all ==> forall x :: 0 <= x < |row| ==> f(row[x]) == 1
    ensures RowCount(row, f) <= |row|
    ensures all ==> RowCount(row, f) == |row|
  {
    if row != [] { RowCountBound(row[1..], f, all); }
  }

  lemma {:induction false} ZeroCountRows(rows: seq<seq<int>>, width: nat, all: bool)
    requires forall y :: 0 <= y < |rows| ==> |rows[y]| == width
    requires all ==> forall p :: Indexes(rows, p) ==> At(rows, p) == 0
    ensures ZeroCount(rows) <= |rows| * width
    ensures all ==> ZeroCount(rows) == |rows| * width
  {
    if rows != [] {
      forall x | all && 0 <= x < |rows[0]| ensures IsZero(rows[0][x]) == 1 {
        assert Indexes(rows, Pos(x, 0));
      }
      RowCountBound(rows[0], IsZero, all);
      forall p | all && Indexes(rows[1..], p) ensures At(rows[1..], p) == 0 {
        assert Indexes(rows, Pos(p.x, p.y + 1));
      }
      ZeroCountRows(rows[1..], width, all);
      assert |rows| * width == width + (|rows| - 1) * width;
    }
  }

  /** A grid has at most as many empty cells as cells, and an all-zero grid has
      exactly that many. */
  lemma {:induction false} ZeroCountShaped(rows: seq<seq<int>>, width: int, height: int, all: bool)
    requires Shaped(rows, width, height)
    requires all ==> forall p :: Indexes(rows, p) ==> At(rows, p) == 0
    ensures ZeroCount(rows) <= Extent(width) * Extent(height)
    ensures all ==> ZeroCount(rows) == Extent(width) * Extent(height)
  {
    ZeroCountRows(rows, Extent(width), all);
  }

  // ----- Geometry: the grid graph is connected -----

  /** `p` and `q` are orthogonal neighbours. */
  predicate Adjacent(p: Pos, q: Pos) {
    || (p.x == q.x && (p.y == q.y + 1 || q.y == p.y + 1))
    || (p.y == q.y && (p.x == q.x + 1 || q.x == p.x + 1))
  }

  /** No non-zero cell inside the grid has a zero neighbour inside the grid. */
  ghost predicate Closed(rows: seq<seq<int>>, width: int, height: int)
    requires Shaped(rows, width, height)
  {
    forall p, q ::
      Inside(width, height, p) && Inside(width, height, q) && Adjacent(p, q) && At(rows, p) != 0
      ==> At(rows, q) != 0
  }

  lemma {:induction false} SpreadAlongRow(rows: seq<seq<int>>, width: int, height: int, y: int, x0: int, x: int)
    requires Shaped(rows, width, height) && Closed(rows, width, height)
    requires Inside(width, height, Pos(x0, y)) && Inside(width, height, Pos(x, y))
    requires At(rows, Pos(x0, y)) != 0
    ensures At(rows, Pos(x, y)) != 0
    decreases if x < x0 then x0 - x else x - x0
  {
    if x != x0 {
      var x' := if x < x0 then x + 1 else x - 1;
      SpreadAlongRow(rows, width, height, y, x0, x');
      assert Adjacent(Pos(x', y), Pos(x, y));
    }
  }

  lemma {:induction false} SpreadAlongColumn(rows: seq<seq<int>>, width: int, height: int, x: int, y0: int, y: int)
    requires Shaped(rows, width, height) && Closed(rows, width, height)
    requires Inside(width, height, Pos(x, y0)) && Inside(width, height, Pos(x, y))
    requires At(rows, Pos(x, y0)) != 0
    ensures At(rows, Pos(x, y)) != 0
    decreases if y < y0 then y0 - y else y - y0
  {
    if y != y0 {
      var y' := if y < y0 then y + 1 else y - 1;
      SpreadAlongColumn(rows, width, height, x, y0, y');
      assert Adjacent(Pos(x, y'), Pos(x, y));
    }
  }

  /** A closed set of non-zero cells that contains one cell of the grid contains
      all of them: the grid graph is connected. */
  lemma {:induction false} ClosedCoversAll(rows: seq<seq<int>>, width: int, height: int, s: Pos)
    requires Shaped(rows, width, height) && Closed(rows, width, height)
    requires Inside(width, height, s) && At(rows, s) != 0
    ensures forall p :: Inside(width, height, p) ==> At(rows, p) != 0
  {
    forall p | Inside(width, height, p) ensures At(rows, p) != 0 {
      SpreadAlongRow(rows, width, height, s.y, s.x, p.x);
      SpreadAlongColumn(rows, width, height, p.x, s.y, p.y);
    }
  }

  /** In a grid of at least two cells every cell has a neighbour. */
  lemma {:induction false} HasNeighbour(width: int, height: int, p: Pos) returns (q: Pos)
    requires Inside(width, height, p) && width * height >= 2
    ensures Inside(width, height, q) && Adjacent(p, q)
  {
    if width >= 2 {
      q := if p.x + 1 < width then Pos(p.x + 1, p.y) else Pos(p.x - 1, p.y);
    } else {
      assert height >= 2;
      q := if p.y + 1 < height then Pos(p.x, p.y + 1) else Pos(p.x, p.y - 1);
    }
  }
}

/** The `Labyrinth` object: its fixed dimensions and the list of rows of
    passage masks that its methods update in place. The pure parts of the
    class (the direction tables, `position_valid`, `step`,
    `can_make_passage`) are the functions of `Grids` applied to `View()`. */
module Labyrinths {
  import opened Wrappers
  import opened Bits
  import opened Cells
  import opened Grids
  import opened Randomness

  class Labyrinth {
    const width: int
    const height: int
    var grid: seq<seq<int>>

    /** The labyrinth as a value. */
    function View(): Grid
      reads this
    {
      Grid(width, height, grid)
    }

    ghost predicate Valid()
      reads this
    {
      WellShaped(View())
    }

    /** `Labyrinth(width, height)`, ten by ten by default: `height` rows of `width` zeros, built row by
        row; a non-positive dimension gives no rows or empty rows, as
        Python's `[x] * n` does. */
    constructor (width: int := 10, height: int := 10)
      ensures this.width == width && this.height == height
      ensures Valid() && Fresh(View())
    {
      this.width := width;
      this.height := height;
      var rows: seq<seq<int>> := seq(Extent(height), _ => []);
      var y := 0;
      while y < height
        invariant 0 <= y && (height >= 0 ==> y <= height)
        invariant |rows| == Extent(height)
        invariant forall i :: 0 <= i < y && i < |rows| ==> rows[i] == seq(Extent(width), _ => 0)
      {
        rows := rows[y := seq(Extent(width), _ => 0)];
        y := y + 1;
      }
      grid := rows;
    }

    /** `self[p]`: row `p.y`, column `p.x`, with Python's list indexing, so a
        negative coordinate counts from the far edge and anything else off the
        grid raises `IndexError`. */
    function Get(p: Pos): (r: Result<int>)
      reads this
      requires Valid()
      ensures r.Ok? <==> ListIndex(p.y, Extent(height)).Some? && ListIndex(p.x, Extent(width)).Some?
      ensures r.Ok? ==> r.value == Cell(View(), Pos(p.x % Extent(width), p.y % Extent(height)))
      ensures r.Err? ==> r.error == IndexError
      ensures PositionValid(View(), p) ==> r == Ok(Cell(View(), p))
    {
      match ListIndex(p.y, |grid|)
      case None => Err(IndexError)
      case Some(y) =>
        match ListIndex(p.x, |grid[y]|)
        case None => Err(IndexError)
        case Some(x) => Ok(grid[y][x])
    }

    /** `self[p] = v`, with the same indexing as `Get`; only that one cell
        changes, and an index off the grid raises before anything changes. */
    method Set(p: Pos, v: int) returns (r: Result<()>)
      requires Valid()
      modifies this
      ensures Valid()
      ensures r.Ok? <==> old(Get(p)).Ok?
      ensures r.Ok? ==> grid == Cells.Put(old(grid), Pos(p.x % Extent(width), p.y % Extent(height)), v)
      ensures r.Ok? ==> Get(p) == Ok(v)
      ensures r.Err? ==> grid == old(grid) && r.error == IndexError
    {
      match ListIndex(p.y, |grid|)
      case None =>
        r := Err(IndexError);
      case Some(y) =>
        match ListIndex(p.x, |grid[y]|)
        case None =>
          r := Err(IndexError);
        case Some(x) =>
          grid := grid[y := grid[y][x := v]];
          r := Ok(());
    }

    /** `random_directions()`: the four directions in some order. */
    method RandomDirections() returns (ds: seq<Dir>)
      ensures multiset(ds) == multiset(Directions())
      ensures |ds| == 4 && forall d :: d in ds
      ensures forall i, j :: 0 <= i < j < |ds| ==> ds[i] != ds[j]
    {
      var a := new Dir[4][N, E, S, W];
      assert a[..] == Directions();
      Shuffle(a);
      ds := a[..];
      PermutedDirections(ds);
    }

    /** `make_passage(p, d)`: the two `|=` updates, on `p` and then on the
        cell one step away, after the same checks as `Grids.MakePassage`; a
        call that raises changes nothing. */
    method MakePassage(p: Pos, d: Dir) returns (r: Result<()>)
      requires Valid()
      modifies this
      ensures Valid()
      ensures r.Err? <==> Grids.MakePassage(old(View()), p, d).Err?
      ensures r.Err? ==> r.error == Grids.MakePassage(old(View()), p, d).error && grid == old(grid)
      ensures r.Ok? ==> View() == Grids.MakePassage(old(View()), p, d).value
    {
      if !PositionValid(View(), p) {
        return Err(InvalidPosition);
      }
      var s := Step(View(), p, d);
      if s.Err? {
        return Err(s.error);
      }
      var np := s.value;
      var c := Get(p);
      var _ := Set(p, Or(c.value, Bit(d)));
      var c' := Get(np);
      var _ := Set(np, Or(c'.value, Bit(Opposite(d))));
      r := Ok(());
    }
  }
}

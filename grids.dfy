/** The labyrinth of `src/labyrinth.py` as a value: a `width` x `height` grid of
    4-bit passage masks (N=1, E=2, S=4, W=8), the direction tables, and the pure
    operations of class `Labyrinth` (`position_valid`, `direction_valid`,
    `directions`, `step`, `can_make_passage`, and the effect of `make_passage`). */
module Grids {
  import opened Wrappers
  import opened Bits
  import opened Cells

  datatype Dir = N | E | S | W

  /** The keys of the `_directions` table, in its order. */
  function Directions(): (ds: seq<Dir>)
    ensures |ds| == 4
    ensures forall i, j :: 0 <= i < j < |ds| ==> ds[i] != ds[j]
  {
    [N, E, S, W]
  }

  /** Every direction is listed. */
  lemma {:induction false} DirectionsComplete(d: Dir)
    ensures d in Directions()
  {
    match d
    case N => assert Directions()[0] == N;
    case E => assert Directions()[1] == E;
    case S => assert Directions()[2] == S;
    case W => assert Directions()[3] == W;
  }

  /** Any rearrangement of the four directions lists each exactly once. */
  lemma {:induction false} PermutedDirections(ds: seq<Dir>)
    requires multiset(ds) == multiset(Directions())
    ensures |ds| == 4 && forall d :: d in ds
    ensures forall i, j :: 0 <= i < j < |ds| ==> ds[i] != ds[j]
  {
    assert |ds| == |multiset(ds)| == 4;
    forall d ensures d in ds {
      DirectionsComplete(d);
      assert d in multiset(Directions());
    }
    forall i, j | 0 <= i < j < |ds| ensures ds[i] != ds[j] {
      RepeatCounted(ds, i, j);
    }
  }

  /** An entry that occurs at two indices occurs twice in the multiset. */
  lemma {:induction false} RepeatCounted(ds: seq<Dir>, i: int, j: int)
    requires 0 <= i < j < |ds|
    ensures ds[i] == ds[j] ==> multiset(ds)[ds[i]] >= 2
  {
    if ds[i] == ds[j] {
      assert ds == ds[..i] + [ds[i]] + ds[i + 1..j] + [ds[j]] + ds[j + 1..];
    }
  }

  /** `_directions[d]`: the flag of `d` in a cell's mask. */
  function Bit(d: Dir): (b: int)
    ensures IsFlag(b)
  {
    match d
    case N => 1
    case E => 2
    case S => 4
    case W => 8
  }

  /** `dx[d]`: the change of column of a step. */
  function Dx(d: Dir): int {
    match d
    case N => 0
    case S => 0
    case E => 1
    case W => -1
  }

  /** `dy[d]`: the change of row of a step; North is up, towards row 0. */
  function Dy(d: Dir): int {
    match d
    case N => -1
    case S => 1
    case E => 0
    case W => 0
  }

  /** Every direction moves one cell along exactly one axis: only East and
      West change the column, only North and South the row. */
  lemma {:induction false} UnitStep(d: Dir)
    ensures -1 <= Dx(d) <= 1 && -1 <= Dy(d) <= 1
    ensures Dx(d) != 0 <==> d == E || d == W
    ensures Dy(d) != 0 <==> d == N || d == S
  {
  }

  /** `opposite[d]`: the direction that leads back. */
  function Opposite(d: Dir): (o: Dir)
    ensures o != d && Bit(o) != Bit(d)
    ensures Dx(o) == -Dx(d) && Dy(o) == -Dy(d)
  {
    match d
    case N => S
    case S => N
    case W => E
    case E => W
  }

  lemma {:induction false} OppositeInvolution(d: Dir)
    ensures Opposite(Opposite(d)) == d
  {
  }

  /** Different directions have different flags. */
  lemma {:induction false} BitInjective(d: Dir, e: Dir)
    ensures Bit(d) == Bit(e) <==> d == e
  {
  }

  // ----- Direction tokens -----

  /** The string a direction stands for in the source (`Direction("N")`, ...). */
  function Token(d: Dir): (t: string)
    ensures |t| == 1 && t[0] in {'N', 'E', 'S', 'W'}
  {
    match d
    case N => "N"
    case E => "E"
    case S => "S"
    case W => "W"
  }

  /** `direction_valid(t)`: the token is one of the keys of `_directions`. */
  predicate DirectionValid(t: string): (b: bool)
    ensures b <==> t == Token(N) || t == Token(E) || t == Token(S) || t == Token(W)
  {
    t in ["N", "E", "S", "W"]
  }

  function ParseDirection(t: string): (r: Option<Dir>)
    ensures r.Some? <==> DirectionValid(t)
    ensures r.Some? ==> Token(r.value) == t
  {
    if t == "N" then Some(N)
    else if t == "E" then Some(E)
    else if t == "S" then Some(S)
    else if t == "W" then Some(W)
    else None
  }

  lemma {:induction false} TokenRoundTrip(d: Dir)
    ensures DirectionValid(Token(d))
    ensures ParseDirection(Token(d)) == Some(d)
  {
    match d
    case N =>
    case E =>
    case S =>
    case W =>
  }

  // ----- The grid -----

  datatype Grid = Grid(width: int, height: int, cells: seq<seq<int>>)

  predicate WellShaped(g: Grid) {
    Shaped(g.cells, g.width, g.height)
  }

  /** `position_valid(p)`. */
  predicate PositionValid(g: Grid, p: Pos) {
    Inside(g.width, g.height, p)
  }

  /** `self[p]` for a position on the grid. */
  function Cell(g: Grid, p: Pos): int
    requires WellShaped(g) && PositionValid(g, p)
  {
    At(g.cells, p)
  }

  /** The state `__init__` creates: every cell without passages. */
  ghost predicate Fresh(g: Grid) {
    WellShaped(g) && forall p :: PositionValid(g, p) ==> Cell(g, p) == 0
  }

  /** The cell `step(p, d)` aims at: `p` moved by `dx[d]` and `dy[d]`. */
  function Neighbour(p: Pos, d: Dir): Pos {
    Pos(p.x + Dx(d), p.y + Dy(d))
  }

  /** `step(p, d)`. */
  function Step(g: Grid, p: Pos, d: Dir): (r: Result<Pos>)
    ensures r.Ok? ==> PositionValid(g, r.value) && Adjacent(p, r.value)
    ensures r.Ok? ==> r.value == Neighbour(p, d)
  {
    if !PositionValid(g, p) then Err(InvalidPosition)
    else if !PositionValid(g, Neighbour(p, d)) then Err(LeavesGrid)
    else Ok(Neighbour(p, d))
  }

  /** `step` fails exactly when the position or its neighbour is off the grid,
      and a step that succeeds can be walked back. */
  lemma {:induction false} StepSpec(g: Grid, p: Pos, d: Dir)
    ensures Step(g, p, d).Ok? <==> PositionValid(g, p) && PositionValid(g, Neighbour(p, d))
    ensures !PositionValid(g, p) ==> Step(g, p, d) == Err(InvalidPosition)
    ensures Step(g, p, d).Ok? ==> Step(g, Step(g, p, d).value, Opposite(d)) == Ok(p)
  {
  }

  /** Every neighbour on the grid is one step away in some direction. */
  lemma {:induction false} DirectionTo(g: Grid, p: Pos, q: Pos) returns (d: Dir)
    requires PositionValid(g, p) && PositionValid(g, q) && Adjacent(p, q)
    ensures Step(g, p, d) == Ok(q)
  {
    if q.y == p.y - 1 { d := N; }
    else if q.y == p.y + 1 { d := S; }
    else if q.x == p.x + 1 { d := E; }
    else { d := W; }
  }

  /** `can_make_passage(p, d)`. */
  function CanMakePassage(g: Grid, p: Pos, d: Dir): (r: Result<bool>)
    requires WellShaped(g)
    ensures r.Err? <==> !PositionValid(g, p)
    ensures r.Ok? ==> (r.value <==> Step(g, p, d).Ok? && !HasBit(Cell(g, p), Bit(d)))
  {
    if !PositionValid(g, p) then Err(InvalidPosition)
    else match Step(g, p, d)
      case Err(_) => Ok(false)
      case Ok(_) =>
        var pre := Cell(g, p);
        Ok(pre != Or(pre, Bit(d)))
  }

  /** The state `make_passage(p, d)` leaves behind, or the error it raises. */
  function MakePassage(g: Grid, p: Pos, d: Dir): (r: Result<Grid>)
    requires WellShaped(g)
    ensures r.Err? <==> Step(g, p, d).Err?
    ensures r.Err? ==> r.error == Step(g, p, d).error
    ensures r.Ok? ==> WellShaped(r.value) && r.value.width == g.width && r.value.height == g.height
    ensures r.Ok? ==> forall q {:trigger Cell(r.value, q)} :: PositionValid(g, q) ==>
      Cell(r.value, q) ==
        if q == p then Or(Cell(g, p), Bit(d))
        else if q == Neighbour(p, d) then Or(Cell(g, q), Bit(Opposite(d)))
        else Cell(g, q)
  {
    match Step(g, p, d)
    case Err(e) => Err(e)
    case Ok(np) =>
      var g1 := g.(cells := Put(g.cells, p, Or(Cell(g, p), Bit(d))));
      Ok(g1.(cells := Put(g1.cells, np, Or(Cell(g1, np), Bit(Opposite(d))))))
  }

  // ----- The consistency invariant -----

  ghost predicate InRange(g: Grid)
    requires WellShaped(g)
  {
    forall p :: PositionValid(g, p) ==> 0 <= Cell(g, p) < 16
  }

  /** A passage bit at `p` towards `d` is matched by the opposite bit at the
      neighbour, which is therefore on the grid. */
  ghost predicate Symmetric(g: Grid)
    requires WellShaped(g)
  {
    forall p, d :: PositionValid(g, p) && HasBit(Cell(g, p), Bit(d)) ==>
      PositionValid(g, Neighbour(p, d)) && HasBit(Cell(g, Neighbour(p, d)), Bit(Opposite(d)))
  }

  ghost predicate Consistent(g: Grid) {
    WellShaped(g) && InRange(g) && Symmetric(g)
  }

  lemma {:induction false} FreshIsConsistent(g: Grid)
    requires Fresh(g)
    ensures Consistent(g)
  {
  }

  /** On a consistent grid a passage is seen the same from both of its ends. */
  lemma {:induction false} SymmetricBothWays(g: Grid, p: Pos, d: Dir)
    requires Consistent(g) && Step(g, p, d).Ok?
    ensures HasBit(Cell(g, p), Bit(d)) <==> HasBit(Cell(g, Neighbour(p, d)), Bit(Opposite(d)))
  {
    var np := Neighbour(p, d);
    OppositeInvolution(d);
    assert Neighbour(np, Opposite(d)) == p;
  }

  lemma {:induction false} OrKeeps(m: int, b: int, c: int)
    requires IsFlag(b) && IsFlag(c)
    ensures HasBit(m, c) ==> HasBit(Or(m, b), c)
    ensures c != b ==> (HasBit(Or(m, b), c) <==> HasBit(m, c))
  {
    if c != b { OrKeepsOtherBits(m, b, c); }
  }

  /** `make_passage` keeps every mask in [0, 15] and the passages symmetric. */
  lemma {:induction false} MakePassageConsistent(g: Grid, p: Pos, d: Dir)
    requires Consistent(g) && Step(g, p, d).Ok?
    ensures Consistent(MakePassage(g, p, d).value)
  {
    var g' := MakePassage(g, p, d).value;
    var np := Neighbour(p, d);
    forall q, e | PositionValid(g', q) && HasBit(Cell(g', q), Bit(e))
      ensures PositionValid(g', Neighbour(q, e)) && HasBit(Cell(g', Neighbour(q, e)), Bit(Opposite(e)))
    {
      var r := Neighbour(q, e);
      if q == p && e == d {
        OrKeeps(Cell(g, np), Bit(Opposite(d)), Bit(Opposite(d)));
      } else if q == np && e == Opposite(d) {
        OppositeInvolution(d);
        OrKeeps(Cell(g, p), Bit(d), Bit(d));
      } else {
        KeptPassage(g, p, d, q, e);
      }
    }
  }

  /** A passage of the grid after `make_passage(p, d)` other than the new one
      was there before, so its partner was there too, and still is. */
  lemma {:induction false} KeptPassage(g: Grid, p: Pos, d: Dir, q: Pos, e: Dir)
    requires Consistent(g) && Step(g, p, d).Ok?
    requires PositionValid(g, q) && HasBit(Cell(MakePassage(g, p, d).value, q), Bit(e))
    requires !(q == p && e == d) && !(q == Neighbour(p, d) && e == Opposite(d))
    ensures PositionValid(g, Neighbour(q, e))
    ensures HasBit(Cell(MakePassage(g, p, d).value, Neighbour(q, e)), Bit(Opposite(e)))
  {
    var np, r := Neighbour(p, d), Neighbour(q, e);
    if q == p {
      OrKeeps(Cell(g, p), Bit(d), Bit(e));
      BitInjective(d, e);
    } else if q == np {
      OrKeeps(Cell(g, np), Bit(Opposite(d)), Bit(e));
      BitInjective(Opposite(d), e);
    }
    assert HasBit(Cell(g, q), Bit(e));
    assert PositionValid(g, r) && HasBit(Cell(g, r), Bit(Opposite(e)));
    if r == p {
      OrKeeps(Cell(g, p), Bit(d), Bit(Opposite(e)));
    } else if r == np {
      OrKeeps(Cell(g, np), Bit(Opposite(d)), Bit(Opposite(e)));
    }
  }

  /** Making the same passage a second time changes nothing. */
  lemma {:induction false} MakePassageIdempotent(g: Grid, p: Pos, d: Dir)
    requires WellShaped(g) && Step(g, p, d).Ok?
    ensures MakePassage(MakePassage(g, p, d).value, p, d) == MakePassage(g, p, d)
  {
    var g' := MakePassage(g, p, d).value;
    var g'' := MakePassage(g', p, d).value;
    OrIdempotent(Cell(g, p), Bit(d));
    OrIdempotent(Cell(g, Neighbour(p, d)), Bit(Opposite(d)));
    assert forall y :: 0 <= y < |g''.cells| ==> g''.cells[y] == g'.cells[y] by {
      forall y | 0 <= y < |g''.cells| ensures g''.cells[y] == g'.cells[y] {
        forall x | 0 <= x < |g''.cells[y]| ensures g''.cells[y][x] == g'.cells[y][x] {
          assert PositionValid(g, Pos(x, y));
        }
      }
    }
    assert g''.cells == g'.cells;
  }

  /** When `can_make_passage` says no for a step on the grid, the passage is
      already there and making it again is a no-op. */
  lemma {:induction false} CannotMakeIsNoOp(g: Grid, p: Pos, d: Dir)
    requires Consistent(g) && CanMakePassage(g, p, d) == Ok(false)
    ensures MakePassage(g, p, d).Err? || MakePassage(g, p, d) == Ok(g)
  {
    if Step(g, p, d).Ok? {
      var g' := MakePassage(g, p, d).value;
      var np := Neighbour(p, d);
      SymmetricBothWays(g, p, d);
      assert Cell(g', p) == Cell(g, p);
      assert Cell(g', np) == Cell(g, np);
      assert forall y :: 0 <= y < |g'.cells| ==> g'.cells[y] == g.cells[y] by {
        forall y | 0 <= y < |g'.cells| ensures g'.cells[y] == g.cells[y] {
          forall x | 0 <= x < |g'.cells[y]| ensures g'.cells[y][x] == g.cells[y][x] {
            assert PositionValid(g, Pos(x, y));
          }
        }
      }
      assert g'.cells == g.cells;
    }
  }

  // ----- Counting -----

  /** A cell's share of the passages: each passage is counted once, at the end
      from which it leads East or South. */
  function EastSouth(m: int): nat {
    Flag(HasBit(m, Bit(E))) + Flag(HasBit(m, Bit(S)))
  }

  /** Number of passages of a consistent grid. */
  function PassageCount(g: Grid): nat {
    GridCount(g.cells, EastSouth)
  }

  /** Number of cells without any passage. */
  function Unvisited(g: Grid): nat {
    ZeroCount(g.cells)
  }

  /** A `make_passage` that `can_make_passage` allows adds exactly one passage. */
  lemma {:induction false} MakePassageCount(g: Grid, p: Pos, d: Dir)
    requires Consistent(g) && CanMakePassage(g, p, d) == Ok(true)
    ensures PassageCount(MakePassage(g, p, d).value) == PassageCount(g) + 1
  {
    var np := Neighbour(p, d);
    var c, c' := Cell(g, p), Cell(g, np);
    SymmetricBothWays(g, p, d);
    var g1 := g.(cells := Put(g.cells, p, Or(c, Bit(d))));
    GridCountUpdate(g.cells, p, Or(c, Bit(d)), EastSouth);
    assert Cell(g1, np) == c';
    GridCountUpdate(g1.cells, np, Or(c', Bit(Opposite(d))), EastSouth);
    OrKeeps(c, Bit(d), Bit(E));
    OrKeeps(c, Bit(d), Bit(S));
    OrKeeps(c', Bit(Opposite(d)), Bit(E));
    OrKeeps(c', Bit(Opposite(d)), Bit(S));
    assert EastSouth(Or(c, Bit(d))) == EastSouth(c) + Flag(d == E || d == S);
    assert EastSouth(Or(c', Bit(Opposite(d)))) == EastSouth(c') + Flag(d == W || d == N);
  }

  /** `make_passage` fills its two cells, whatever masks they held. */
  lemma {:induction false} MakePassageUnvisited(g: Grid, p: Pos, d: Dir)
    requires WellShaped(g) && Step(g, p, d).Ok?
    ensures Unvisited(MakePassage(g, p, d).value)
      == Unvisited(g) - IsZero(Cell(g, p)) - IsZero(Cell(g, Neighbour(p, d)))
  {
    var np := Neighbour(p, d);
    var c, c' := Cell(g, p), Cell(g, np);
    var g1 := g.(cells := Put(g.cells, p, Or(c, Bit(d))));
    GridCountUpdate(g.cells, p, Or(c, Bit(d)), IsZero);
    assert Cell(g1, np) == c';
    GridCountUpdate(g1.cells, np, Or(c', Bit(Opposite(d))), IsZero);
  }

  /** A fresh grid has no passages and every one of its cells is unvisited. */
  lemma {:induction false} FreshCounts(g: Grid)
    requires Fresh(g)
    ensures PassageCount(g) == 0
    ensures Unvisited(g) == Extent(g.width) * Extent(g.height)
  {
    forall p | Indexes(g.cells, p) ensures At(g.cells, p) == 0 {
      assert PositionValid(g, p);
    }
    GridCountNone(g.cells, EastSouth);
    ZeroCountShaped(g.cells, g.width, g.height, true);
  }

  /** A grid whose every cell has a passage has no unvisited cell. */
  lemma {:induction false} FilledCounts(g: Grid)
    requires WellShaped(g) && forall p :: PositionValid(g, p) ==> Cell(g, p) != 0
    ensures Unvisited(g) == 0
  {
    forall p | Indexes(g.cells, p) ensures At(g.cells, p) != 0 {
      assert PositionValid(g, p);
    }
    ZeroCountNone(g.cells);
  }
}

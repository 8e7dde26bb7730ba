/** What the two row-by-row carvers (`BinaryTree.carve` and
    `Sidewinder.carve`) have in common: they visit the cells row by row, top
    to bottom and left to right, and only open North or East. On a fresh grid
    a cell not yet visited therefore has at most its West passage, which
    decides what `can_make_passage` answers there. */
module RowScan {
  import opened Wrappers
  import opened Bits
  import opened Cells
  import opened Grids
  import opened Traces

  /** `p` comes before `q` in row-major order. */
  predicate Before(p: Pos, q: Pos) {
    p.y < q.y || (p.y == q.y && p.x < q.x)
  }

  /** The cells the calls were made from. */
  function Origins(ps: seq<Passage>): set<Pos> {
    set x | x in ps :: x.from
  }

  /** The cells the calls were made from, in the order they were made. */
  function Froms(ps: seq<Passage>): seq<Pos> {
    if ps == [] then [] else Froms(Init(ps)) + [Last(ps).from]
  }

  lemma {:induction false} FromsIndex(ps: seq<Passage>)
    ensures |Froms(ps)| == |ps|
    ensures forall i :: 0 <= i < |ps| ==> Froms(ps)[i] == ps[i].from
    decreases |ps|
  {
    if ps != [] {
      FromsIndex(Init(ps));
    }
  }

  lemma {:induction false} FromsOrigins(ps: seq<Passage>)
    ensures forall q :: q in Origins(ps) <==> q in Froms(ps)
  {
    FromsIndex(ps);
    forall q | q in Froms(ps)
      ensures q in Origins(ps)
    {
      var i :| 0 <= i < |ps| && Froms(ps)[i] == q;
      assert ps[i] in ps;
    }
  }

  /** The calls that open the top row into one chain, left to right. */
  function EastChain(n: nat): seq<Passage> {
    seq(n, i => Passage(Pos(i, 0), E))
  }

  /** The top-right cell: the one cell of a fresh grid that opens nothing. */
  function TopRight(g: Grid): Pos {
    Pos(g.width - 1, 0)
  }

  /** The cells a scan of a grid `w` wide passes before it reaches
      `Pos(x, y)`, in row-major order, with the top-right cell left out: on a
      fresh grid, where each cell but the top-right one makes one call, these
      are the cells the calls are made from. */
  function Callers(w: int, x: nat, y: nat): seq<Pos>
    decreases y, x
  {
    if x > 0 then
      var p := Pos(x - 1, y);
      Callers(w, x - 1, y) + (if p == Pos(w - 1, 0) then [] else [p])
    else if y > 0 then Callers(w, Extent(w), y - 1)
    else []
  }

  /** There are as many callers as cells passed, less the top-right one once
      it has been passed. */
  lemma {:induction false} CallersLength(w: int, x: nat, y: nat)
    requires x <= Extent(w)
    ensures |Callers(w, x, y)| + Flag(Extent(w) > 0 && (y > 0 || x == Extent(w))) == y * Extent(w) + x
    decreases y, x
  {
    if x > 0 {
      CallersLength(w, x - 1, y);
    } else if y > 0 {
      CallersLength(w, Extent(w), y - 1);
      assert (y - 1) * Extent(w) + Extent(w) == y * Extent(w);
    }
  }

  /** The callers are exactly the cells of the grid's width passed so far,
      less the top-right one. */
  lemma {:induction false} CallersMembers(w: int, x: nat, y: nat, q: Pos)
    requires x <= Extent(w)
    ensures q in Callers(w, x, y) <==>
      0 <= q.x < Extent(w) && 0 <= q.y && Before(q, Pos(x, y)) && q != Pos(w - 1, 0)
    decreases y, x
  {
    if x > 0 {
      CallersMembers(w, x - 1, y, q);
    } else if y > 0 {
      CallersMembers(w, Extent(w), y - 1, q);
    }
  }

  /** Along the top row, the callers are the cells from the left edge on. */
  lemma {:induction false} CallersTopRow(w: int, x: nat)
    requires x < Extent(w)
    ensures Callers(w, x, 0) == seq(x, i => Pos(i, 0))
  {
    if x > 0 {
      CallersTopRow(w, x - 1);
      assert Callers(w, x, 0) == seq(x - 1, i => Pos(i, 0)) + [Pos(x - 1, 0)];
    }
  }

  /** The callers so far are a prefix of the callers at any later point. */
  lemma {:induction false} CallersGrow(w: int, x: nat, y: nat, x': nat, y': nat)
    requires x <= Extent(w) && x' <= Extent(w) && (y < y' || (y == y' && x <= x'))
    ensures Callers(w, x, y) <= Callers(w, x', y')
    decreases y', x'
  {
    if y == y' && x == x' {
    } else if x' > 0 {
      CallersGrow(w, x, y, x' - 1, y');
    } else {
      CallersGrow(w, x, y, Extent(w), y' - 1);
    }
  }

  /** Once the top row is done, the callers start with its first `w - 1`
      cells, left to right. */
  lemma {:induction false} TopRowFirst(w: int, y: nat)
    requires w >= 1 && y >= 1
    ensures seq(w - 1, i => Pos(i, 0)) <= Callers(w, 0, y)
  {
    CallersTopRow(w, w - 1);
    assert Callers(w, w, 0) == Callers(w, w - 1, 0);
    CallersGrow(w, w, 0, 0, y);
  }

  /** Calls made from the callers of a scan past the top row, each an
      opening, start with the top row's East chain: below the top row is the
      only place North may be opened. */
  lemma {:induction false} TopRowChain(g0: Grid, ps: seq<Passage>, at: Pos, w: int, h: nat)
    requires w >= 1 && h >= 1 && Froms(ps) == Callers(w, 0, h)
    requires forall i :: 0 <= i < |ps| ==> Opening(g0, ps[i], at)
    ensures EastChain(w - 1) <= ps
  {
    FromsIndex(ps);
    TopRowFirst(w, h);
    forall i | 0 <= i < w - 1
      ensures ps[i] == EastChain(w - 1)[i]
    {
      assert Froms(ps)[i] == Pos(i, 0);
    }
  }

  /** A mask with no passage, or only the West one. */
  predicate Untouched(m: int) {
    m == 0 || m == Bit(W)
  }

  /** Every cell the scan has not visited yet is untouched. */
  ghost predicate AheadUntouched(g: Grid, at: Pos)
    requires WellShaped(g)
  {
    forall q {:trigger Cell(g, q)} :: PositionValid(g, q) && !Before(q, at) ==> Untouched(Cell(g, q))
  }

  /** On an untouched cell, North can be opened exactly below the top row and
      East exactly left of the last column. */
  lemma {:induction false} UntouchedChoices(g: Grid, p: Pos)
    requires WellShaped(g) && PositionValid(g, p) && Untouched(Cell(g, p))
    ensures CanMakePassage(g, p, N) == Ok(p.y > 0)
    ensures CanMakePassage(g, p, E) == Ok(p.x + 1 < g.width)
  {
  }

  /** A call a row-by-row scan makes: North or East, North only below the
      top row, from a cell of the grid before `at`. */
  predicate Opening(g0: Grid, x: Passage, at: Pos) {
    && (x.dir == N || x.dir == E)
    && (x.dir == N ==> x.from.y > 0)
    && PositionValid(g0, x.from)
    && Before(x.from, at)
  }

  /** Calls that open North or East from cells before `at` reach a cell that
      is not before `at` only as the East neighbour of its West neighbour, so
      at most its West passage is added there. */
  lemma {:induction false} AheadOf(g0: Grid, ps: seq<Passage>, at: Pos, q: Pos)
    requires WellShaped(g0) && PositionValid(g0, q) && !Before(q, at)
    requires forall i :: 0 <= i < |ps| ==> Opening(g0, ps[i], at)
    ensures Cell(Carved(g0, ps), q) == Cell(g0, q) || Cell(Carved(g0, ps), q) == Or(Cell(g0, q), Bit(W))
    decreases |ps|
  {
    if ps != [] {
      AheadOf(g0, Init(ps), at, q);
      OrIdempotent(Cell(g0, q), Bit(W));
    }
  }

  /** On a fresh grid, every cell a scan has not reached is untouched. */
  lemma {:induction false} FreshAhead(g0: Grid, ps: seq<Passage>, at: Pos)
    requires Fresh(g0)
    requires forall i :: 0 <= i < |ps| ==> Opening(g0, ps[i], at)
    ensures AheadUntouched(Carved(g0, ps), at)
  {
    forall q | PositionValid(g0, q) && !Before(q, at)
      ensures Untouched(Cell(Carved(g0, ps), q))
    {
      AheadOf(g0, ps, at, q);
    }
  }

  /** The calls were made one each from the callers of `Pos(x, y)`, in
      order: the last call from the last caller, and so on back. */
  predicate CalledFrom(ps: seq<Passage>, w: int, x: nat, y: nat)
    decreases y, x
  {
    if x > 0 then
      if x == w && y == 0 then CalledFrom(ps, w, x - 1, y)
      else ps != [] && Last(ps).from == Pos(x - 1, y) && CalledFrom(Init(ps), w, x - 1, y)
    else if y > 0 then CalledFrom(ps, w, Extent(w), y - 1)
    else ps == []
  }

  lemma {:induction false} CalledFromFroms(ps: seq<Passage>, w: int, x: nat, y: nat)
    requires CalledFrom(ps, w, x, y)
    ensures Froms(ps) == Callers(w, x, y)
    decreases y, x
  {
    if x > 0 {
      if x == w && y == 0 {
        CalledFromFroms(ps, w, x - 1, y);
      } else {
        CalledFromFroms(Init(ps), w, x - 1, y);
      }
    } else if y > 0 {
      CalledFromFroms(ps, w, Extent(w), y - 1);
    }
  }
}

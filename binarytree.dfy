/** The `BinaryTree` labyrinth: every cell, row by row, opens North or East,
    whichever `can_make_passage` allows, choosing at random when both do. */
module BinaryTree {
  import opened Wrappers
  import opened Cells
  import opened Grids
  import opened Traces
  import opened RowScan
  import opened Labyrinths
  import opened Randomness

  /** The calls are openings in row-major order: the last one from a cell
      before `at`, and each earlier one from a cell before the next one's. */
  predicate InOrder(g0: Grid, ps: seq<Passage>, at: Pos)
    decreases |ps|
  {
    ps == [] || (Opening(g0, Last(ps), at) && InOrder(g0, Init(ps), Last(ps).from))
  }

  lemma {:induction false} InOrderAll(g0: Grid, ps: seq<Passage>, at: Pos)
    requires InOrder(g0, ps, at)
    ensures forall i :: 0 <= i < |ps| ==> Opening(g0, ps[i], at)
    ensures forall i, j :: 0 <= i < j < |ps| ==> Before(ps[i].from, ps[j].from)
    decreases |ps|
  {
    if ps != [] {
      InOrderAll(g0, Init(ps), Last(ps).from);
    }
  }

  /** The calls so far are the decisions of the cells before `(x, y)`, one
      cell at a time in row-major order: a cell for which `can_make_passage`
      allowed North or East, on the grid as the cells before it left it, made
      one call, towards one of the directions allowed; a cell for which it
      allowed neither made none. */
  ghost predicate Decided(g0: Grid, ps: seq<Passage>, x: int, y: int)
    requires WellShaped(g0)
    decreases y, x
  {
    if x > 0 then
      var p := Pos(x - 1, y);
      || (&& ps != [] && Last(ps).from == p && (Last(ps).dir == N || Last(ps).dir == E)
          && CanMakePassage(Carved(g0, Init(ps)), p, Last(ps).dir) == Ok(true)
          && Decided(g0, Init(ps), x - 1, y))
      || (&& CanMakePassage(Carved(g0, ps), p, N) != Ok(true)
          && CanMakePassage(Carved(g0, ps), p, E) != Ok(true)
          && Decided(g0, ps, x - 1, y))
    else if y > 0 then Decided(g0, ps, Extent(g0.width), y - 1)
    else ps == []
  }

  /** What cell `pos` adds to the calls `ps`, on grid `g`: nothing exactly when
      `can_make_passage` allows neither North nor East, and otherwise one
      call towards a direction it allows. */
  ghost predicate Decision(g: Grid, pos: Pos, ps: seq<Passage>, ps': seq<Passage>)
    requires WellShaped(g)
  {
    && (ps' == ps <==> CanMakePassage(g, pos, N) != Ok(true) && CanMakePassage(g, pos, E) != Ok(true))
    && (ps' != ps ==> exists d ::
         && (d == N || d == E) && CanMakePassage(g, pos, d) == Ok(true)
         && ps' == ps + [Passage(pos, d)])
  }

  /** One more cell decided: the grid it saw is the one the calls so far
      left. */
  lemma {:induction false} DecidedStep(g0: Grid, ps: seq<Passage>, ps': seq<Passage>, at: Pos)
    requires WellShaped(g0) && 0 <= at.x && Decided(g0, ps, at.x, at.y)
    requires Decision(Carved(g0, ps), at, ps, ps')
    ensures Decided(g0, ps', at.x + 1, at.y)
  {
    if ps' != ps {
      var d :| (d == N || d == E) && CanMakePassage(Carved(g0, ps), at, d) == Ok(true) && ps' == ps + [Passage(at, d)];
      InitSnoc(ps, Passage(at, d));
    }
  }

  /** The scan has reached `at`: the calls so far were allowed by
      `can_make_passage`, are openings made one cell at a time in row-major
      order; on a fresh grid they were made from exactly the cells passed, the
      top-right one left out. */
  ghost predicate Scanned(g0: Grid, g: Grid, ps: seq<Passage>, at: Pos)
    requires WellShaped(g0)
  {
    && 0 <= at.x && 0 <= at.y
    && g == Carved(g0, ps) && AllNew(g0, ps)
    && InOrder(g0, ps, at)
    && (Fresh(g0) ==> CalledFrom(ps, g0.width, at.x, at.y))
  }

  lemma {:induction false} ScanStart(g0: Grid)
    requires WellShaped(g0)
    ensures Scanned(g0, g0, [], Pos(0, 0))
  {
  }

  /** A cell with no candidate is skipped; on a fresh grid that is only the
      top-right cell. */
  lemma {:induction false} ScanSkip(g0: Grid, g: Grid, ps: seq<Passage>, at: Pos)
    requires WellShaped(g0) && Scanned(g0, g, ps, at) && PositionValid(g0, at)
    requires CanMakePassage(g, at, N) != Ok(true) && CanMakePassage(g, at, E) != Ok(true)
    ensures Scanned(g0, g, ps, Pos(at.x + 1, at.y))
  {
    if Fresh(g0) {
      InOrderAll(g0, ps, at);
      FreshAhead(g0, ps, at);
      UntouchedChoices(g, at);
      assert at == Pos(g0.width - 1, 0);
    }
  }

  /** A cell with a candidate opens it; `g'` is the grid after the call. */
  lemma {:induction false} ScanTake(g0: Grid, g: Grid, g': Grid, ps: seq<Passage>, at: Pos, d: Dir)
    requires WellShaped(g0) && Scanned(g0, g, ps, at) && PositionValid(g0, at)
    requires (d == N || d == E) && CanMakePassage(g, at, d) == Ok(true)
    requires MakePassage(g, at, d).Ok? && g' == MakePassage(g, at, d).value
    ensures Scanned(g0, g', ps + [Passage(at, d)], Pos(at.x + 1, at.y))
  {
    var ps' := ps + [Passage(at, d)];
    InitSnoc(ps, Passage(at, d));
    if Fresh(g0) {
      InOrderAll(g0, ps, at);
      FreshAhead(g0, ps, at);
      UntouchedChoices(g, at);
      assert at != Pos(g0.width - 1, 0);
    }
  }

  /** The end of a row is the start of the next. */
  lemma {:induction false} ScanNextRow(g0: Grid, g: Grid, ps: seq<Passage>, y: int)
    requires WellShaped(g0) && Scanned(g0, g, ps, Pos(Extent(g0.width), y))
    ensures Scanned(g0, g, ps, Pos(0, y + 1))
  {
  }

  /** What a finished scan promises: the kind of every call and their order,
      the passage count on a consistent grid, and on a fresh grid one call
      from every cell but the top-right one, in row-major order, starting with
      the top row's East chain. */
  lemma {:induction false} ScanDone(g0: Grid, g: Grid, ps: seq<Passage>)
    requires WellShaped(g0) && Scanned(g0, g, ps, Pos(0, Extent(g0.height)))
    ensures forall i :: 0 <= i < |ps| ==> Opening(g0, ps[i], Pos(0, Extent(g0.height)))
    ensures forall i, j :: 0 <= i < j < |ps| ==> Before(ps[i].from, ps[j].from)
    ensures Consistent(g0) ==> Consistent(g) && PassageCount(g) == PassageCount(g0) + |ps|
    ensures Fresh(g0) ==> Froms(ps) == Callers(g0.width, 0, Extent(g0.height))
    ensures Fresh(g0) ==> forall q :: PositionValid(g, q) ==> (q in Origins(ps) <==> q != TopRight(g))
    ensures Fresh(g0) && g0.width >= 1 && g0.height >= 1 ==>
      && |ps| == g0.width * g0.height - 1
      && EastChain(g0.width - 1) <= ps
      && PassageCount(g) == g0.width * g0.height - 1
  {
    InOrderAll(g0, ps, Pos(0, Extent(g0.height)));
    if Consistent(g0) {
      AllNewCount(g0, ps);
    }
    if Fresh(g0) {
      var w, h := g0.width, Extent(g0.height);
      FreshCounts(g0);
      FreshIsConsistent(g0);
      AllNewCount(g0, ps);
      CalledFromFroms(ps, w, 0, h);
      FromsOrigins(ps);
      forall q | PositionValid(g, q)
        ensures q in Origins(ps) <==> q != TopRight(g)
      {
        CallersMembers(w, 0, h, q);
      }
      if w >= 1 && h >= 1 {
        FromsIndex(ps);
        CallersLength(w, 0, h);
        TopRowChain(g0, ps, Pos(0, h), w, h);
      }
    }
  }

  /** One pass of the inner loop of `carve()`, for the cell `(x, y)`: collect North and then East
      when `can_make_passage` allows them and open one of them chosen at
      random; a cell with no candidate is skipped. */
  method Visit(lab: Labyrinth, x: int, y: int, ghost g0: Grid, ghost ps: seq<Passage>) returns (ghost ps': seq<Passage>)
    requires lab.Valid() && WellShaped(g0) && PositionValid(g0, Pos(x, y))
    requires Scanned(g0, lab.View(), ps, Pos(x, y)) && Decided(g0, ps, x, y)
    modifies lab
    ensures Scanned(g0, lab.View(), ps', Pos(x + 1, y)) && Decided(g0, ps', x + 1, y)
    ensures Decision(old(lab.View()), Pos(x, y), ps, ps')
  {
    var pos := Pos(x, y);
    var candidates := [];
    if CanMakePassage(lab.View(), pos, N) == Ok(true) {
      candidates := candidates + [N];
    }
    if CanMakePassage(lab.View(), pos, E) == Ok(true) {
      candidates := candidates + [E];
    }
    var c := Choice(candidates);
    if c.None? {
      ScanSkip(g0, lab.View(), ps, pos);
      DecidedStep(g0, ps, ps, pos);
      return ps;
    }
    var d := c.value;
    ghost var g := lab.View();
    assert (d == N || d == E) && CanMakePassage(g, pos, d) == Ok(true);
    var _ := lab.MakePassage(pos, d);
    ScanTake(g0, g, lab.View(), ps, pos, d);
    ps' := ps + [Passage(pos, d)];
    assert ps' != ps by { assert |ps'| == |ps| + 1; }
    DecidedStep(g0, ps, ps', pos);
  }

  /** The inner loop of `carve()`: the cells of row `y`, left to right. */
  method CarveRow(lab: Labyrinth, y: int, ghost g0: Grid, ghost ps: seq<Passage>) returns (ghost ps': seq<Passage>)
    requires lab.Valid() && WellShaped(g0) && 0 <= y < Extent(lab.height)
    requires Scanned(g0, lab.View(), ps, Pos(0, y)) && Decided(g0, ps, 0, y)
    modifies lab
    ensures lab.Valid()
    ensures Scanned(g0, lab.View(), ps', Pos(Extent(lab.width), y)) && Decided(g0, ps', Extent(lab.width), y)
  {
    ps' := ps;
    var x := 0;
    while x < lab.width
      invariant 0 <= x <= Extent(lab.width)
      invariant Scanned(g0, lab.View(), ps', Pos(x, y)) && Decided(g0, ps', x, y)
    {
      ps' := Visit(lab, x, y, g0, ps');
      x := x + 1;
    }
    assert x == Extent(lab.width);
  }

  /** `carve()`: for every cell, row by row, collect North and then East when
      `can_make_passage` allows them, and open one of them chosen at random;
      a cell with no candidate is skipped. `carved` are the `make_passage`
      calls made: the decisions of every cell, on any grid. */
  method Carve(lab: Labyrinth) returns (ghost carved: seq<Passage>)
    requires lab.Valid()
    modifies lab
    ensures lab.Valid()
    ensures lab.View() == Carved(old(lab.View()), carved) && AllNew(old(lab.View()), carved)
    ensures forall i :: 0 <= i < |carved| ==> Opening(old(lab.View()), carved[i], Pos(0, Extent(lab.height)))
    ensures forall i, j :: 0 <= i < j < |carved| ==> Before(carved[i].from, carved[j].from)
    ensures Consistent(old(lab.View())) ==>
      Consistent(lab.View()) && PassageCount(lab.View()) == PassageCount(old(lab.View())) + |carved|
    ensures Fresh(old(lab.View())) ==> Froms(carved) == Callers(lab.width, 0, Extent(lab.height))
    ensures Fresh(old(lab.View())) ==>
      forall q :: PositionValid(lab.View(), q) ==> (q in Origins(carved) <==> q != TopRight(lab.View()))
    ensures Fresh(old(lab.View())) && lab.width >= 1 && lab.height >= 1 ==>
      && |carved| == lab.width * lab.height - 1
      && EastChain(lab.width - 1) <= carved
      && PassageCount(lab.View()) == lab.width * lab.height - 1
    ensures Decided(old(lab.View()), carved, 0, Extent(lab.height))
  {
    ghost var g0 := lab.View();
    carved := [];
    ScanStart(g0);
    var y := 0;
    while y < lab.height
      invariant 0 <= y <= Extent(lab.height)
      invariant Scanned(g0, lab.View(), carved, Pos(0, y)) && Decided(g0, carved, 0, y)
    {
      carved := CarveRow(lab, y, g0, carved);
      ScanNextRow(g0, lab.View(), carved, y);
      assert Decided(g0, carved, 0, y + 1);
      y := y + 1;
    }
    ScanDone(g0, lab.View(), carved);
  }
}

/** The `Sidewinder` labyrinth: row by row, each cell joins the current run
    and either opens East, or closes the run by opening North from one of its
    cells chosen at random. The last cell of a row always closes its run; in
    the top row only the last cell does. */
module Sidewinder {
  import opened Wrappers
  import opened Bits
  import opened Cells
  import opened Grids
  import opened Traces
  import opened RowScan
  import opened Labyrinths
  import opened Randomness

  /** Every call is an opening from a cell before `at`. */
  ghost predicate Openings(g0: Grid, ps: seq<Passage>, at: Pos) {
    forall i :: 0 <= i < |ps| ==> Opening(g0, ps[i], at)
  }

  /** The cells of the open run: cells of the row of `at`, left of it. */
  ghost predicate RunBehind(g0: Grid, run: seq<Pos>, at: Pos) {
    forall i :: 0 <= i < |run| ==> PositionValid(g0, run[i]) && run[i].y == at.y && run[i].x < at.x
  }

  /** `run` is the cells just left of `at`, left to right. */
  ghost predicate RunTo(run: seq<Pos>, at: Pos) {
    && |run| <= at.x
    && forall i :: 0 <= i < |run| ==> run[i] == Pos(at.x - |run| + i, at.y)
  }

  /** A run that reaches up to `at` grows by `at` into a run that reaches up
      to the next cell. */
  lemma {:induction false} RunGrows(run: seq<Pos>, at: Pos)
    requires RunTo(run, at)
    ensures RunTo(run + [at], Pos(at.x + 1, at.y))
  {
  }

  /** The last `b - a` calls of `qs` are East calls from the cells `a` to
      `b - 1` of row `y`, in order. */
  ghost predicate EastRun(qs: seq<Passage>, a: int, b: int, y: int) {
    && 0 <= a <= b && b - a <= |qs|
    && forall k :: a <= k < b ==> qs[|qs| - (b - k)] == Passage(Pos(k, y), E)
  }

  /** A shorter stretch of an East run is one too. */
  lemma {:induction false} EastRunFrom(qs: seq<Passage>, a: int, a': int, b: int, y: int)
    requires EastRun(qs, a, b, y) && a <= a' <= b
    ensures EastRun(qs, a', b, y)
  {
  }

  /** One more East call extends an East run by one cell. */
  lemma {:induction false} EastRunGrows(qs: seq<Passage>, a: int, p: Pos)
    requires EastRun(qs, a, p.x, p.y)
    ensures EastRun(qs + [Passage(p, E)], a, p.x + 1, p.y)
  {
    var qs' := qs + [Passage(p, E)];
    forall k | a <= k < p.x + 1 ensures qs'[|qs'| - (p.x + 1 - k)] == Passage(Pos(k, p.y), E) {
      if k < p.x {
        assert qs'[|qs'| - (p.x + 1 - k)] == qs[|qs| - (p.x - k)];
      }
    }
  }

  /** What a scan of a fresh grid `w` wide has called by the time it reaches
      `Pos(x, y)`: one call for each cell passed but the top-right one, the
      last call for the last such cell, and so on back. In the top row, where
      no run is closed before its last cell, each is an East call from the
      cell itself. Below it, each is an East call from the cell short of the
      eastern boundary, or the one North call that closes the run: from a
      cell of the row at or left of this one, whose cells up to this one made
      the East calls just before it. */
  ghost predicate FreshCalls(w: int, ps: seq<Passage>, x: nat, y: nat)
    decreases y, x
  {
    if x > 0 then
      if x == w && y == 0 then FreshCalls(w, ps, x - 1, y)
      else && ps != []
           && (y == 0 ==> Last(ps) == Passage(Pos(x - 1, y), E))
           && (y != 0 ==> FreshCall(w, ps, x, y))
           && FreshCalls(w, Init(ps), x - 1, y)
    else if y > 0 then FreshCalls(w, ps, Extent(w), y - 1)
    else ps == []
  }

  /** The last call, made at `Pos(x - 1, y)` below the top row of a fresh
      grid: East short of the boundary, or North from a member of the run
      ending there. */
  ghost predicate FreshCall(w: int, ps: seq<Passage>, x: int, y: int)
    requires ps != []
  {
    || (Last(ps) == Passage(Pos(x - 1, y), E) && x != w)
    || (&& Last(ps).dir == N && Last(ps).from.y == y
        && EastRun(Init(ps), Last(ps).from.x, x - 1, y))
  }

  /** No cell of the open run has a North passage yet. */
  ghost predicate RunUnopened(g: Grid, run: seq<Pos>)
    requires WellShaped(g)
  {
    forall i :: 0 <= i < |run| && PositionValid(g, run[i]) ==> !HasBit(Cell(g, run[i]), Bit(N))
  }

  /** The scan has reached `at` with the open run `run`: the calls so far were
      allowed by `can_make_passage` and are openings from cells already
      passed; the run is the cells just left of `at`; on a fresh grid,
      besides, `FreshCalls` and `RunUnopened` hold and the run's cells made
      the last calls, East ones. */
  ghost predicate Winding(g0: Grid, g: Grid, ps: seq<Passage>, run: seq<Pos>, at: Pos)
    requires WellShaped(g0)
  {
    && 0 <= at.x && 0 <= at.y
    && g == Carved(g0, ps) && AllNew(g0, ps)
    && Openings(g0, ps, at)
    && RunBehind(g0, run, at)
    && RunTo(run, at)
    && (Fresh(g0) ==>
          && FreshCalls(g0.width, ps, at.x, at.y) && RunUnopened(g, run)
          && EastRun(ps, at.x - |run|, at.x, at.y))
  }

  // ----- Each cell's move, on any grid -----

  /** What a cell does with the run: extend it East, or close it by a North
      passage from `member`. */
  datatype Move = Extend | Close(member: Pos)

  /** The call a move asks `can_make_passage` about at cell `p`. */
  function Call(mv: Move, p: Pos): Passage {
    match mv
    case Extend => Passage(p, E)
    case Close(m) => Passage(m, N)
  }

  /** The moves at the end of `moves` that extended the run: its length. */
  function Trailing(moves: seq<Move>): nat
    decreases |moves|
  {
    if moves == [] || moves[|moves| - 1].Close? then 0 else 1 + Trailing(moves[..|moves| - 1])
  }

  /** The move of cell `p` after the moves `before` is one the loop makes:
      East only short of the eastern boundary; a close at the boundary or,
      below the top row, anywhere, from a cell of the open run or `p`
      itself. */
  predicate Moved(w: int, before: seq<Move>, mv: Move, p: Pos) {
    match mv
    case Extend => p.x + 1 != w
    case Close(m) => (p.x + 1 == w || p.y != 0) && m.y == p.y && p.x - Trailing(before) <= m.x <= p.x
  }

  /** How the move `mv` of cell `(x, y)`, in a row `w` wide, changes the open
      run: a close empties it, and is made at the eastern boundary or below
      the top row, from a cell of the run or `(x, y)` itself; an extension
      adds the cell, short of the eastern boundary. */
  predicate Stepped(w: int, run: seq<Pos>, run': seq<Pos>, x: int, y: int, mv: Move) {
    && (mv.Close? ==> run' == [] && (x + 1 == w || y != 0) && mv.member in run + [Pos(x, y)])
    && (mv.Extend? ==> run' == run + [Pos(x, y)] && x + 1 != w)
  }

  /** A call is made exactly when `can_make_passage` allows it on `g`. */
  ghost predicate Attempted(g: Grid, ps: seq<Passage>, c: Passage, ps': seq<Passage>)
    requires WellShaped(g)
  {
    ps' == if CanMakePassage(g, c.from, c.dir) == Ok(true) then ps + [c] else ps
  }

  /** The scan of the cells before `(x, y)`, one at a time in row-major
      order: each made a move the loop makes, `moves` being the moves in
      order, and the calls `ps` are those moves' calls that
      `can_make_passage` allowed on the grid as the cells before left it. */
  ghost predicate Wound(g0: Grid, moves: seq<Move>, ps: seq<Passage>, x: int, y: int)
    requires WellShaped(g0)
    decreases y, x
  {
    if x > 0 then
      && moves != []
      && Moved(g0.width, moves[..|moves| - 1], moves[|moves| - 1], Pos(x - 1, y))
      && var c := Call(moves[|moves| - 1], Pos(x - 1, y));
         || (&& ps != [] && Last(ps) == c
             && CanMakePassage(Carved(g0, Init(ps)), c.from, c.dir) == Ok(true)
             && Wound(g0, moves[..|moves| - 1], Init(ps), x - 1, y))
         || (&& CanMakePassage(Carved(g0, ps), c.from, c.dir) != Ok(true)
             && Wound(g0, moves[..|moves| - 1], ps, x - 1, y))
    else if y > 0 then Wound(g0, moves, ps, Extent(g0.width), y - 1)
    else moves == [] && ps == []
  }

  /** The moves so far account for the calls and for the open run. */
  ghost predicate Tracked(g0: Grid, moves: seq<Move>, ps: seq<Passage>, run: seq<Pos>, at: Pos)
    requires WellShaped(g0)
  {
    Trailing(moves) == |run| && Wound(g0, moves, ps, at.x, at.y)
  }

  /** The state of the inner loop of `carve()` before the cell `at`: both
      `Winding` and `Tracked`. The two are bound to one name, so that the
      loop carries them as one fact rather than conjunct by conjunct. */
  ghost predicate Scanning(g0: Grid, g: Grid, moves: seq<Move>, ps: seq<Passage>, run: seq<Pos>, at: Pos)
    requires WellShaped(g0)
  {
    var scanned := Winding(g0, g, ps, run, at) && Tracked(g0, moves, ps, run, at);
    scanned
  }

  /** One more cell, `(x, y)`, moved. */
  lemma {:induction false} TrackStep(g0: Grid, moves: seq<Move>, ps: seq<Passage>, ps': seq<Passage>,
                                     run: seq<Pos>, run': seq<Pos>, x: int, y: int, mv: Move)
    requires WellShaped(g0) && 0 <= x && Tracked(g0, moves, ps, run, Pos(x, y)) && RunTo(run, Pos(x, y))
    requires Stepped(g0.width, run, run', x, y, mv)
    requires Attempted(Carved(g0, ps), ps, Call(mv, Pos(x, y)), ps')
    ensures Tracked(g0, moves + [mv], ps', run', Pos(x + 1, y))
  {
    var at := Pos(x, y);
    var moves' := moves + [mv];
    if mv.Close? {
      MemberOfRun(run, at, mv.member);
    }
    assert moves'[..|moves'| - 1] == moves;
    var c := Call(mv, at);
    if ps' != ps {
      InitSnoc(ps, c);
    }
  }

  /** A row ends with its run closed; its end is the start of the next. */
  lemma {:induction false} TrackNextRow(g0: Grid, moves: seq<Move>, ps: seq<Passage>, y: int)
    requires WellShaped(g0) && 0 <= y && Tracked(g0, moves, ps, [], Pos(Extent(g0.width), y))
    ensures Tracked(g0, moves, ps, [], Pos(0, y + 1))
  {
  }

  // ----- The calls of a fresh scan -----

  /** One call per caller. */
  lemma {:induction false} FreshCallsCount(w: int, ps: seq<Passage>, x: nat, y: nat)
    requires x <= Extent(w) && FreshCalls(w, ps, x, y)
    ensures |ps| == |Callers(w, x, y)|
    decreases y, x
  {
    if x > 0 {
      if x == w && y == 0 {
        FreshCallsCount(w, ps, x - 1, y);
      } else {
        FreshCallsCount(w, Init(ps), x - 1, y);
      }
    } else if y > 0 {
      FreshCallsCount(w, ps, Extent(w), y - 1);
    }
  }

  /** Along the top row, the calls are its East chain. */
  lemma {:induction false} FreshCallsTopRow(w: int, ps: seq<Passage>, x: nat)
    requires x <= Extent(w) && FreshCalls(w, ps, x, 0)
    ensures ps == EastChain(|ps|)
    ensures |ps| == if x == Extent(w) && x > 0 then x - 1 else x
  {
    if x > 0 {
      if x == w {
        FreshCallsTopRow(w, ps, x - 1);
      } else {
        FreshCallsTopRow(w, Init(ps), x - 1);
        assert ps == Init(ps) + [Last(ps)];
      }
    }
  }

  /** Past the top row, the calls start with its East chain. */
  lemma {:induction false} FreshCallsBelow(w: int, ps: seq<Passage>, x: nat, y: nat)
    requires w >= 1 && y >= 1 && x <= Extent(w) && FreshCalls(w, ps, x, y)
    ensures EastChain(w - 1) <= ps
    decreases y, x
  {
    if x > 0 {
      FreshCallsBelow(w, Init(ps), x - 1, y);
    } else if y > 1 {
      FreshCallsBelow(w, ps, w, y - 1);
    } else {
      FreshCallsTopRow(w, ps, w);
    }
  }

  // ----- The scan, cell by cell -----

  /** Openings from cells before `at` are openings from cells before any
      later position. */
  lemma {:induction false} OpeningsLater(g0: Grid, ps: seq<Passage>, at: Pos, at': Pos)
    requires Openings(g0, ps, at) && !Before(at', at)
    ensures Openings(g0, ps, at')
  {
  }

  lemma {:induction false} WindStart(g0: Grid)
    requires WellShaped(g0)
    ensures Winding(g0, g0, [], [], Pos(0, 0))
  {
  }

  /** What a fresh scan knows at `pos`: the grid is consistent, `pos` and every
      cell after it still untouched. */
  lemma {:induction false} FreshAt(g0: Grid, g: Grid, ps: seq<Passage>, run: seq<Pos>, pos: Pos)
    requires WellShaped(g0) && Winding(g0, g, ps, run, pos) && PositionValid(g0, pos) && Fresh(g0)
    ensures Consistent(g) && Untouched(Cell(g, pos))
    ensures CanMakePassage(g, pos, E) == Ok(pos.x + 1 < g.width)
    ensures CanMakePassage(g, pos, N) == Ok(pos.y > 0)
    ensures !HasBit(Cell(g, pos), Bit(N))
  {
    FreshIsConsistent(g0);
    AllNewCount(g0, ps);
    FreshAhead(g0, ps, pos);
    UntouchedChoices(g, pos);
  }

  /** The run is closed by a North passage from `m`, one of its cells. */
  lemma {:induction false} WindNorth(g0: Grid, g: Grid, g': Grid, ps: seq<Passage>, run: seq<Pos>, pos: Pos, m: Pos)
    requires WellShaped(g0) && Winding(g0, g, ps, run, pos) && PositionValid(g0, pos)
    requires m in run + [pos] && CanMakePassage(g, m, N) == Ok(true)
    requires MakePassage(g, m, N).Ok? && g' == MakePassage(g, m, N).value
    ensures Winding(g0, g', ps + [Passage(m, N)], [], Pos(pos.x + 1, pos.y))
  {
    var ps' := ps + [Passage(m, N)];
    InitSnoc(ps, Passage(m, N));
    OpeningsLater(g0, ps, pos, Pos(pos.x + 1, pos.y));
    assert Opening(g0, ps'[|ps|], Pos(pos.x + 1, pos.y));
    if Fresh(g0) {
      MemberOfRun(run, pos, m);
      EastRunFrom(ps, pos.x - |run|, m.x, pos.x, pos.y);
      assert FreshCall(g0.width, ps', pos.x + 1, pos.y);
    }
  }

  /** A member of the run or `pos` is a cell of its row, at or left of it. */
  lemma {:induction false} MemberOfRun(run: seq<Pos>, pos: Pos, m: Pos)
    requires RunTo(run, pos) && m in run + [pos]
    ensures m.y == pos.y && pos.x - |run| <= m.x <= pos.x
  {
    var i :| 0 <= i < |run + [pos]| && (run + [pos])[i] == m;
    if i < |run| {
      assert m == run[i];
    }
  }

  /** The run is closed without a passage: `can_make_passage` refused North
      from the chosen cell. On a fresh grid that is only the top-right cell. */
  lemma {:induction false} WindNoNorth(g0: Grid, g: Grid, ps: seq<Passage>, run: seq<Pos>, pos: Pos, m: Pos)
    requires WellShaped(g0) && Winding(g0, g, ps, run, pos) && PositionValid(g0, pos)
    requires pos.x + 1 == g0.width || pos.y != 0
    requires m in run + [pos] && CanMakePassage(g, m, N) != Ok(true)
    ensures Winding(g0, g, ps, [], Pos(pos.x + 1, pos.y))
  {
    OpeningsLater(g0, ps, pos, Pos(pos.x + 1, pos.y));
    if Fresh(g0) {
      RefusedAtTopRight(g0, g, ps, run, pos, m);
      assert FreshCalls(g0.width, ps, pos.x + 1, pos.y);
    }
  }

  /** On a fresh grid a North passage is refused only in the top row, so a
      close without a passage is the top-right cell's. */
  lemma {:induction false} RefusedAtTopRight(g0: Grid, g: Grid, ps: seq<Passage>, run: seq<Pos>, pos: Pos, m: Pos)
    requires WellShaped(g0) && Winding(g0, g, ps, run, pos) && PositionValid(g0, pos) && Fresh(g0)
    requires pos.x + 1 == g0.width || pos.y != 0
    requires m in run + [pos] && CanMakePassage(g, m, N) != Ok(true)
    ensures pos.x + 1 == g0.width && pos.y == 0
  {
    MemberOfRun(run, pos, m);
    if m == pos {
      FreshAt(g0, g, ps, run, pos);
    } else {
      assert m in run && !HasBit(Cell(g, m), Bit(N));
    }
  }

  /** The run goes on with an East passage from `pos`. */
  lemma {:induction false} WindEast(g0: Grid, g: Grid, g': Grid, ps: seq<Passage>, run: seq<Pos>, pos: Pos)
    requires WellShaped(g0) && Winding(g0, g, ps, run, pos) && PositionValid(g0, pos)
    requires pos.x + 1 != g0.width && CanMakePassage(g, pos, E) == Ok(true)
    requires MakePassage(g, pos, E).Ok? && g' == MakePassage(g, pos, E).value
    ensures Winding(g0, g', ps + [Passage(pos, E)], run + [pos], Pos(pos.x + 1, pos.y))
  {
    var ps', next := ps + [Passage(pos, E)], Pos(pos.x + 1, pos.y);
    InitSnoc(ps, Passage(pos, E));
    OpeningsLater(g0, ps, pos, next);
    assert Opening(g0, ps'[|ps|], next);
    RunGrows(run, pos);
    if Fresh(g0) {
      WindEastFresh(g0, g, g', ps, run, pos);
    }
  }

  /** On a fresh grid, the East passage is the call of `pos` and extends the
      run's East calls, and the run still has no North passage. */
  lemma {:induction false} WindEastFresh(g0: Grid, g: Grid, g': Grid, ps: seq<Passage>, run: seq<Pos>, pos: Pos)
    requires WellShaped(g0) && Winding(g0, g, ps, run, pos) && PositionValid(g0, pos) && Fresh(g0)
    requires pos.x + 1 != g0.width && CanMakePassage(g, pos, E) == Ok(true)
    requires MakePassage(g, pos, E).Ok? && g' == MakePassage(g, pos, E).value
    ensures FreshCalls(g0.width, ps + [Passage(pos, E)], pos.x + 1, pos.y)
    ensures RunUnopened(g', run + [pos])
    ensures EastRun(ps + [Passage(pos, E)], pos.x - |run|, pos.x + 1, pos.y)
  {
    InitSnoc(ps, Passage(pos, E));
    FreshAt(g0, g, ps, run, pos);
    RunStaysUnopened(g, g', run, pos);
    EastRunGrows(ps, pos.x - |run|, pos);
  }

  /** An East passage from `pos` opens North in no cell of the run. */
  lemma {:induction false} RunStaysUnopened(g: Grid, g': Grid, run: seq<Pos>, pos: Pos)
    requires WellShaped(g) && RunUnopened(g, run) && PositionValid(g, pos)
    requires !HasBit(Cell(g, pos), Bit(N)) && 0 <= Cell(g, pos) < 16
    requires forall i :: 0 <= i < |run| ==> run[i].y == pos.y && run[i].x < pos.x
    requires MakePassage(g, pos, E).Ok? && g' == MakePassage(g, pos, E).value
    ensures RunUnopened(g', run + [pos])
  {
    var run' := run + [pos];
    forall i | 0 <= i < |run'| && PositionValid(g', run'[i])
      ensures !HasBit(Cell(g', run'[i]), Bit(N))
    {
      assert run'[i] != Neighbour(pos, E);
      if i == |run| {
        OrKeeps(Cell(g, pos), Bit(E), Bit(N));
      }
    }
  }

  /** The run goes on without a passage: `can_make_passage` refused East.
      This does not happen on a fresh grid. */
  lemma {:induction false} WindNoEast(g0: Grid, g: Grid, ps: seq<Passage>, run: seq<Pos>, pos: Pos)
    requires WellShaped(g0) && Winding(g0, g, ps, run, pos) && PositionValid(g0, pos)
    requires pos.x + 1 != g0.width && CanMakePassage(g, pos, E) != Ok(true)
    ensures Winding(g0, g, ps, run + [pos], Pos(pos.x + 1, pos.y))
    ensures !Fresh(g0)
  {
    OpeningsLater(g0, ps, pos, Pos(pos.x + 1, pos.y));
    RunGrows(run, pos);
    if Fresh(g0) {
      FreshAt(g0, g, ps, run, pos);
      assert false;
    }
  }

  /** The end of a row, where the run is always closed, is the start of the
      next. */
  lemma {:induction false} WindNextRow(g0: Grid, g: Grid, ps: seq<Passage>, y: int)
    requires WellShaped(g0) && Winding(g0, g, ps, [], Pos(Extent(g0.width), y))
    ensures Winding(g0, g, ps, [], Pos(0, y + 1))
  {
    OpeningsLater(g0, ps, Pos(Extent(g0.width), y), Pos(0, y + 1));
  }

  /** What a finished scan promises: the kind of every call, the passage count
      on a consistent grid, and on a fresh grid one call from every cell but
      the top-right one, starting with the top row's East chain. */
  lemma {:induction false} WindDone(g0: Grid, g: Grid, ps: seq<Passage>)
    requires WellShaped(g0) && Winding(g0, g, ps, [], Pos(0, Extent(g0.height)))
    ensures forall i :: 0 <= i < |ps| ==> Opening(g0, ps[i], Pos(0, Extent(g0.height)))
    ensures Consistent(g0) ==> Consistent(g) && PassageCount(g) == PassageCount(g0) + |ps|
    ensures Fresh(g0) ==> FreshCalls(g0.width, ps, 0, Extent(g0.height))
    ensures Fresh(g0) && g0.width >= 1 && g0.height >= 1 ==>
      && |ps| == g0.width * g0.height - 1
      && EastChain(g0.width - 1) <= ps
      && PassageCount(g) == g0.width * g0.height - 1
  {
    if Consistent(g0) {
      AllNewCount(g0, ps);
    }
    if Fresh(g0) {
      FreshCounts(g0);
      FreshIsConsistent(g0);
      AllNewCount(g0, ps);
      if g0.width >= 1 && g0.height >= 1 {
        FreshCallsCount(g0.width, ps, 0, g0.height);
        CallersLength(g0.width, 0, g0.height);
        FreshCallsBelow(g0.width, ps, 0, g0.height);
      }
    }
  }

  /** The run, ending at `(x, y)`, is closed by opening North from its cell
      `m`, if `can_make_passage` allows it. */
  method CloseRun(lab: Labyrinth, x: int, y: int, run: seq<Pos>, m: Pos, ghost g0: Grid, ghost ps: seq<Passage>, ghost moves: seq<Move>)
    returns (ghost ps': seq<Passage>)
    requires lab.Valid() && WellShaped(g0) && PositionValid(g0, Pos(x, y)) && g0.width == lab.width
    requires Scanning(g0, lab.View(), moves, ps, run, Pos(x, y))
    requires (x + 1 == lab.width || y != 0) && m in run + [Pos(x, y)]
    modifies lab
    ensures lab.Valid()
    ensures Scanning(g0, lab.View(), moves + [Close(m)], ps', [], Pos(x + 1, y))
    ensures Attempted(old(lab.View()), ps, Passage(m, N), ps')
  {
    var pos := Pos(x, y);
    ghost var g := lab.View();
    if CanMakePassage(lab.View(), m, N) == Ok(true) {
      var _ := lab.MakePassage(m, N);
      WindNorth(g0, g, lab.View(), ps, run, pos, m);
      ps' := ps + [Passage(m, N)];
    } else {
      WindNoNorth(g0, g, ps, run, pos, m);
      ps' := ps;
    }
    TrackStep(g0, moves, ps, ps', run, [], x, y, Close(m));
  }

  /** The run is extended by `(x, y)`, opening East from it if
      `can_make_passage` allows it. */
  method ExtendRun(lab: Labyrinth, x: int, y: int, run: seq<Pos>, ghost g0: Grid, ghost ps: seq<Passage>, ghost moves: seq<Move>)
    returns (ghost ps': seq<Passage>)
    requires lab.Valid() && WellShaped(g0) && PositionValid(g0, Pos(x, y)) && g0.width == lab.width
    requires Scanning(g0, lab.View(), moves, ps, run, Pos(x, y))
    requires x + 1 != lab.width
    modifies lab
    ensures lab.Valid()
    ensures Scanning(g0, lab.View(), moves + [Extend], ps', run + [Pos(x, y)], Pos(x + 1, y))
    ensures Attempted(old(lab.View()), ps, Passage(Pos(x, y), E), ps')
  {
    var pos := Pos(x, y);
    ghost var g := lab.View();
    if CanMakePassage(lab.View(), pos, E) == Ok(true) {
      var _ := lab.MakePassage(pos, E);
      WindEast(g0, g, lab.View(), ps, run, pos);
      ps' := ps + [Passage(pos, E)];
    } else {
      WindNoEast(g0, g, ps, run, pos);
      ps' := ps;
    }
    assert Winding(g0, lab.View(), ps', run + [pos], Pos(x + 1, y));
    TrackStep(g0, moves, ps, ps', run, run + [pos], x, y, Extend);
  }

  /** One pass of the inner loop of `carve()`: `pos`, the cell `(x, y)`, joins the run; at the
      eastern boundary, or below the top row when `randrange(2)` gives 0, the
      run is closed by opening North from one of its cells chosen at random,
      if `can_make_passage` allows it; otherwise East is opened from `pos`, if
      `can_make_passage` allows it. `mv` is the move made. */
  method Visit(lab: Labyrinth, x: int, y: int, run: seq<Pos>, ghost g0: Grid, ghost ps: seq<Passage>, ghost moves: seq<Move>)
    returns (run': seq<Pos>, ghost ps': seq<Passage>, ghost mv: Move)
    requires lab.Valid() && WellShaped(g0) && PositionValid(g0, Pos(x, y)) && g0.width == lab.width
    requires Scanning(g0, lab.View(), moves, ps, run, Pos(x, y))
    modifies lab
    ensures lab.Valid()
    ensures Scanning(g0, lab.View(), moves + [mv], ps', run', Pos(x + 1, y))
    ensures Stepped(lab.width, run, run', x, y, mv)
    ensures Attempted(old(lab.View()), ps, Call(mv, Pos(x, y)), ps')
  {
    var pos := Pos(x, y);
    var members := run + [pos];
    var close := pos.x + 1 == lab.width;
    if !close && pos.y != 0 {
      var r := RandRange(2);
      close := r == 0;
    }
    if close {
      var member := Choice(members);
      var m := member.value;
      mv := Close(m);
      ps' := CloseRun(lab, x, y, run, m, g0, ps, moves);
      run' := [];
    } else {
      mv := Extend;
      ps' := ExtendRun(lab, x, y, run, g0, ps, moves);
      run' := members;
    }
  }

  /** The inner loop of `carve()`: the cells of row `y`, left to right, with
      a run that starts empty. */
  method CarveRow(lab: Labyrinth, y: int, ghost g0: Grid, ghost ps: seq<Passage>, ghost moves: seq<Move>)
    returns (ghost ps': seq<Passage>, ghost moves': seq<Move>)
    requires lab.Valid() && WellShaped(g0) && 0 <= y < Extent(lab.height)
    requires g0.width == lab.width && g0.height == lab.height
    requires Scanning(g0, lab.View(), moves, ps, [], Pos(0, y))
    modifies lab
    ensures lab.Valid()
    ensures Scanning(g0, lab.View(), moves', ps', [], Pos(Extent(lab.width), y))
  {
    ps', moves' := ps, moves;
    var run := [];
    var x := 0;
    while x < lab.width
      invariant 0 <= x <= Extent(lab.width)
      invariant lab.Valid() && g0.width == lab.width && g0.height == lab.height
      invariant Scanning(g0, lab.View(), moves', ps', run, Pos(x, y))
      invariant x == Extent(lab.width) ==> run == []
    {
      ghost var mv;
      run, ps', mv := Visit(lab, x, y, run, g0, ps', moves');
      moves' := moves' + [mv];
      x := x + 1;
    }
    assert x == Extent(lab.width);
  }

  /** `carve()`: for every row, top to bottom, run the inner loop. `carved`
      are the `make_passage` calls made and `moves` the moves of the cells,
      in row-major order. */
  method Carve(lab: Labyrinth) returns (ghost carved: seq<Passage>, ghost moves: seq<Move>)
    requires lab.Valid()
    modifies lab
    ensures lab.Valid()
    ensures lab.View() == Carved(old(lab.View()), carved) && AllNew(old(lab.View()), carved)
    ensures forall i :: 0 <= i < |carved| ==> Opening(old(lab.View()), carved[i], Pos(0, Extent(lab.height)))
    ensures Consistent(old(lab.View())) ==>
      Consistent(lab.View()) && PassageCount(lab.View()) == PassageCount(old(lab.View())) + |carved|
    ensures Fresh(old(lab.View())) && lab.width >= 1 && lab.height >= 1 ==>
      && |carved| == lab.width * lab.height - 1
      && EastChain(lab.width - 1) <= carved
      && PassageCount(lab.View()) == lab.width * lab.height - 1
    ensures Fresh(old(lab.View())) ==> FreshCalls(lab.width, carved, 0, Extent(lab.height))
    ensures Wound(old(lab.View()), moves, carved, 0, Extent(lab.height))
  {
    ghost var g0 := lab.View();
    carved, moves := [], [];
    WindStart(g0);
    var y := 0;
    while y < lab.height
      invariant 0 <= y <= Extent(lab.height)
      invariant lab.Valid() && g0.width == lab.width && g0.height == lab.height
      invariant Winding(g0, lab.View(), carved, [], Pos(0, y)) && Tracked(g0, moves, carved, [], Pos(0, y))
    {
      carved, moves := CarveRow(lab, y, g0, carved, moves);
      WindNextRow(g0, lab.View(), carved, y);
      TrackNextRow(g0, moves, carved, y);
      y := y + 1;
    }
    assert y == Extent(lab.height);
    WindDone(g0, lab.View(), carved);
  }
}

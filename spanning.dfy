/** The outcome the two depth-first carvers (recursive `Backtracking.carve` and
    the explicit-stack `DepthFirst.carve`) share, and why it is a perfect maze
    when the grid starts without passages. */
module Spanning {
  import opened Wrappers
  import opened Cells
  import opened Grids
  import opened Traces

  /** Every neighbour of `q` on the grid has a passage. */
  ghost predicate NeighboursVisited(g: Grid, q: Pos)
    requires WellShaped(g)
  {
    forall d :: Step(g, q, d).Ok? ==> Cell(g, Step(g, q, d).value) != 0
  }

  /** `g` is `g0` after a depth-first carve from `start` that made the calls
      `ps`: each call entered an all-walled cell from a cell already reached,
      and when the carve is over no reached cell has an all-walled neighbour. */
  ghost predicate Explored(g0: Grid, g: Grid, start: Pos, ps: seq<Passage>)
    requires WellShaped(g0)
  {
    && g == Carved(g0, ps)
    && IntoUnvisited(g0, ps)
    && Tree(start, ps)
    && forall q :: q in Reached(start, ps) ==> NeighboursVisited(g, q)
  }

  /** On a fresh grid of at least two cells the start has a neighbour, so the
      carve made at least one call. */
  lemma {:induction false} ExploredNonEmpty(g0: Grid, g: Grid, start: Pos, ps: seq<Passage>)
    requires Fresh(g0) && Explored(g0, g, start, ps)
    requires PositionValid(g0, start) && g0.width * g0.height >= 2
    ensures ps != []
  {
    var q := HasNeighbour(g0.width, g0.height, start);
    var d := DirectionTo(g0, start, q);
    RootReached(start, ps);
    assert NeighboursVisited(g, start);
    assert Step(g, start, d) == Ok(q);
    assert Cell(g, q) != 0;
  }

  /** On a fresh grid the cells with passages are the reached ones, and none of
      those has an all-walled neighbour. */
  lemma {:induction false} ExploredClosed(g0: Grid, g: Grid, start: Pos, ps: seq<Passage>)
    requires Fresh(g0) && Explored(g0, g, start, ps)
    ensures Closed(g.cells, g.width, g.height)
  {
    forall p, p' | Inside(g.width, g.height, p) && Inside(g.width, g.height, p') && Adjacent(p, p') && At(g.cells, p) != 0
      ensures At(g.cells, p') != 0
    {
      VisitedReached(g0, start, ps, p);
      var e := DirectionTo(g, p, p');
    }
  }

  /** Every cell ends up with a passage and reached from the start. */
  lemma {:induction false} ExploredCovers(g0: Grid, g: Grid, start: Pos, ps: seq<Passage>)
    requires Fresh(g0) && Explored(g0, g, start, ps)
    requires PositionValid(g0, start) && g0.width * g0.height >= 2
    ensures forall p :: PositionValid(g, p) ==> Cell(g, p) != 0 && p in Reached(start, ps)
  {
    ExploredNonEmpty(g0, g, start, ps);
    ExploredClosed(g0, g, start, ps);
    RootReached(start, ps);
    ReachedVisited(g0, start, ps, start);
    ClosedCoversAll(g.cells, g.width, g.height, start);
    forall p | PositionValid(g, p) ensures p in Reached(start, ps) {
      VisitedReached(g0, start, ps, p);
    }
  }

  /** One call per cell but the start. */
  lemma {:induction false} ExploredCalls(g0: Grid, g: Grid, start: Pos, ps: seq<Passage>)
    requires Fresh(g0) && Explored(g0, g, start, ps) && ps != []
    requires PositionValid(g0, start)
    requires forall p :: PositionValid(g, p) ==> Cell(g, p) != 0
    ensures |ps| == g0.width * g0.height - 1
  {
    FilledCounts(g);
    FreshCounts(g0);
    TreeUnvisited(g0, start, ps);
  }

  /** Each call added one passage to a grid that had none. */
  lemma {:induction false} ExploredPassages(g0: Grid, g: Grid, start: Pos, ps: seq<Passage>)
    requires Fresh(g0) && Explored(g0, g, start, ps)
    ensures Consistent(g) && PassageCount(g) == |ps|
  {
    FreshIsConsistent(g0);
    UnvisitedIsNew(g0, ps);
    AllNewCount(g0, ps);
    FreshCounts(g0);
  }

  /** Every cell has a passage and can be reached from `start`, the passages
      are two-sided, and there is one fewer of them than cells, so no cycle:
      a perfect maze. */
  ghost predicate PerfectMaze(g: Grid, start: Pos)
    requires WellShaped(g)
  {
    && (forall p :: PositionValid(g, p) ==> Cell(g, p) != 0 && Connected(g, start, p))
    && Consistent(g)
    && PassageCount(g) == g.width * g.height - 1
  }

  /** What a depth-first carve promises when it starts on a fresh grid of at
      least two cells from a cell of the grid: a perfect maze, made with one
      call per cell but the start. */
  ghost predicate FromFresh(g0: Grid, g: Grid, start: Pos, ps: seq<Passage>)
    requires WellShaped(g)
  {
    Fresh(g0) && PositionValid(g0, start) && g0.width * g0.height >= 2 ==>
      PerfectMaze(g, start) && |ps| == g0.width * g0.height - 1
  }

  /** A depth-first carve of a fresh grid of at least two cells, started on the
      grid, leaves a perfect maze: every cell has a passage and can be reached
      from the start, the carve made one call per cell but the start, and the
      grid holds exactly `width * height - 1` passages. */
  lemma {:induction false} ExploredFromFresh(g0: Grid, g: Grid, start: Pos, ps: seq<Passage>)
    requires Fresh(g0) && Explored(g0, g, start, ps)
    requires PositionValid(g0, start) && g0.width * g0.height >= 2
    ensures forall p :: PositionValid(g, p) ==> p in Reached(start, ps)
    ensures |ps| == g0.width * g0.height - 1
    ensures PerfectMaze(g, start)
  {
    ExploredCovers(g0, g, start, ps);
    ExploredNonEmpty(g0, g, start, ps);
    ExploredCalls(g0, g, start, ps);
    ExploredPassages(g0, g, start, ps);
    FreshIsConsistent(g0);
    UnvisitedIsNew(g0, ps);
    forall p | PositionValid(g, p) ensures Connected(g, start, p) {
      TreeConnects(g0, start, ps, p);
    }
  }

  // ----- The recursive carver's loop over the directions of one cell -----

  /** Cells only gain passages, so a cell whose neighbours all had one keeps
      that. */
  lemma {:induction false} NeighboursStayVisited(g: Grid, ps: seq<Passage>, q: Pos)
    requires WellShaped(g) && NeighboursVisited(g, q)
    ensures NeighboursVisited(Carved(g, ps), q)
  {
    forall d | Step(Carved(g, ps), q, d).Ok?
      ensures Cell(Carved(g, ps), Step(Carved(g, ps), q, d).value) != 0
    {
      CarvedGrows(g, ps, Step(g, q, d).value);
    }
  }

  /** Part way through the loop over the directions of `start`: the carve so
      far is a tree of calls into unvisited cells, every reached cell but
      `start` is finished, and every direction of `start` probed so far leads
      off the grid or to a cell with a passage. */
  ghost predicate Probing(g0: Grid, g: Grid, start: Pos, ps: seq<Passage>, done: seq<Dir>)
    requires WellShaped(g0)
  {
    && g == Carved(g0, ps)
    && IntoUnvisited(g0, ps)
    && Tree(start, ps)
    && (forall q :: q in Reached(start, ps) && q != start ==> NeighboursVisited(g, q))
    && (forall d :: d in done && Step(g, start, d).Ok? ==> Cell(g, Step(g, start, d).value) != 0)
  }

  lemma {:induction false} ProbingStart(g0: Grid, start: Pos)
    requires WellShaped(g0)
    ensures Probing(g0, g0, start, [], [])
  {
  }

  /** A direction that leads off the grid or into a cell with a passage is
      skipped. */
  lemma {:induction false} ProbingSkip(g0: Grid, g: Grid, start: Pos, ps: seq<Passage>, done: seq<Dir>, d: Dir)
    requires WellShaped(g0) && Probing(g0, g, start, ps, done)
    requires Step(g, start, d).Ok? ==> Cell(g, Step(g, start, d).value) != 0
    ensures Probing(g0, g, start, ps, done + [d])
  {
  }

  /** A call `make_passage(from, d)` from a reached cell into an all-walled
      neighbour extends the carve by one cell. */
  lemma {:induction false} CarveOne(g0: Grid, root: Pos, ps: seq<Passage>, from: Pos, d: Dir)
    requires WellShaped(g0) && IntoUnvisited(g0, ps) && Tree(root, ps)
    requires from in Reached(root, ps)
    requires Step(Carved(g0, ps), from, d).Ok?
    requires Cell(Carved(g0, ps), Neighbour(from, d)) == 0
    ensures Carved(g0, ps + [Passage(from, d)]) == MakePassage(Carved(g0, ps), from, d).value
    ensures IntoUnvisited(g0, ps + [Passage(from, d)]) && Tree(root, ps + [Passage(from, d)])
    ensures Reached(root, ps + [Passage(from, d)]) == Reached(root, ps) + {Neighbour(from, d)}
  {
    InitSnoc(ps, Passage(from, d));
  }

  /** A direction into an all-walled cell is carved, and the carve that
      recursion makes from there leaves every cell it reached finished. */
  lemma {:induction false} ProbingCarve(g0: Grid, g: Grid, start: Pos, ps: seq<Passage>, done: seq<Dir>, d: Dir,
                     g2: Grid, sub: seq<Passage>)
    requires WellShaped(g0) && Probing(g0, g, start, ps, done)
    requires Step(g, start, d).Ok? && Cell(g, Step(g, start, d).value) == 0
    requires Explored(MakePassage(g, start, d).value, g2, Step(g, start, d).value, sub)
    ensures Probing(g0, g2, start, ps + [Passage(start, d)] + sub, done + [d])
  {
    var np := Step(g, start, d).value;
    var x := Passage(start, d);
    var g1 := MakePassage(g, start, d).value;
    var ps1 := ps + [x];
    RootReached(start, ps);
    CarveOne(g0, start, ps, start, d);
    CarvedAppend(g0, ps1, sub);
    IntoUnvisitedAppend(g0, ps1, sub);
    TreeAppend(start, ps1, np, sub);
    ProbingFinished(g0, g, g1, g2, start, ps, done, d, sub);
  }

  lemma {:induction false} ProbingFinished(g0: Grid, g: Grid, g1: Grid, g2: Grid, start: Pos, ps: seq<Passage>,
                        done: seq<Dir>, d: Dir, sub: seq<Passage>)
    requires WellShaped(g0) && Probing(g0, g, start, ps, done)
    requires Step(g, start, d).Ok? && Cell(g, Step(g, start, d).value) == 0
    requires g1 == MakePassage(g, start, d).value
    requires Explored(g1, g2, Step(g, start, d).value, sub)
    requires Reached(start, ps + [Passage(start, d)] + sub)
      == Reached(start, ps) + {Step(g, start, d).value} + Reached(Step(g, start, d).value, sub)
    ensures forall q :: q in Reached(start, ps + [Passage(start, d)] + sub) && q != start ==>
      NeighboursVisited(g2, q)
    ensures forall e :: e in done + [d] && Step(g2, start, e).Ok? ==>
      Cell(g2, Step(g2, start, e).value) != 0
  {
    var np := Step(g, start, d).value;
    var x := Passage(start, d);
    assert [x][..0] == [] && Carved(g, [x]) == g1;
    CarvedAppend(g, [x], sub);
    RootReached(np, sub);
    forall q | q in Reached(start, ps + [x] + sub) && q != start ensures NeighboursVisited(g2, q) {
      if q !in Reached(np, sub) {
        NeighboursStayVisited(g, [x] + sub, q);
      }
    }
    forall e | e in done + [d] && Step(g2, start, e).Ok?
      ensures Cell(g2, Step(g2, start, e).value) != 0
    {
      if e == d {
        CarvedGrows(g1, sub, np);
      } else {
        CarvedGrows(g, [x] + sub, Step(g, start, e).value);
      }
    }
  }

  /** Once every direction of `start` is probed, the carve is explored. */
  lemma {:induction false} ProbingDone(g0: Grid, g: Grid, start: Pos, ps: seq<Passage>, done: seq<Dir>)
    requires WellShaped(g0) && Probing(g0, g, start, ps, done)
    requires forall d :: d in done
    ensures Explored(g0, g, start, ps)
  {
  }

  /** Any explored carve keeps the promise `FromFresh` makes. */
  lemma {:induction false} ExploredKeepsPromise(g0: Grid, g: Grid, start: Pos, ps: seq<Passage>)
    requires WellShaped(g0) && Explored(g0, g, start, ps)
    ensures FromFresh(g0, g, start, ps)
  {
    if Fresh(g0) && PositionValid(g0, start) && g0.width * g0.height >= 2 {
      ExploredFromFresh(g0, g, start, ps);
    }
  }
}

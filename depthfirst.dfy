/** The `DepthFirst` labyrinth: the same depth-first carve as `Backtracking`,
    with the recursion replaced by an explicit stack of frames. */
module DepthFirst {
  import opened Wrappers
  import opened Cells
  import opened Grids
  import opened Traces
  import opened Spanning
  import opened Labyrinths

  /** One stack entry: a cell and the directions still to probe from it. */
  datatype Frame = Frame(pos: Pos, dirs: seq<Dir>)

  /** The probes a frame still has to make. */
  function Pairs(f: Frame): set<(Pos, Dir)> {
    set e | e in f.dirs :: (f.pos, e)
  }

  /** The probes the whole stack still has to make. */
  function Pending(stack: seq<Frame>): set<(Pos, Dir)>
    decreases |stack|
  {
    if stack == [] then {} else Pending(stack[..|stack| - 1]) + Pairs(stack[|stack| - 1])
  }

  /** Frames plus directions left on the stack: what the loops consume while
      no passage is made. */
  function Weight(stack: seq<Frame>): nat
    decreases |stack|
  {
    if stack == [] then 0 else Weight(stack[..|stack| - 1]) + |stack[|stack| - 1].dirs| + 1
  }

  lemma {:induction false} PendingPush(stack: seq<Frame>, f: Frame)
    ensures Pending(stack + [f]) == Pending(stack) + Pairs(f)
    ensures Weight(stack + [f]) == Weight(stack) + |f.dirs| + 1
  {
    assert (stack + [f])[..|stack|] == stack;
  }

  predicate NoDup(ds: seq<Dir>) {
    forall i, j :: 0 <= i < j < |ds| ==> ds[i] != ds[j]
  }

  /** From `q`, direction `e` leads to a cell of the grid with no passage. */
  ghost predicate Open(g: Grid, q: Pos, e: Dir)
    requires WellShaped(g)
  {
    Step(g, q, e).Ok? && Cell(g, Step(g, q, e).value) == 0
  }

  /** Every open direction of a reached cell is still to be probed. */
  ghost predicate Covered(g: Grid, reached: set<Pos>, stack: seq<Frame>)
    requires WellShaped(g)
  {
    forall q, e :: q in reached && Open(g, q, e) ==> (q, e) in Pending(stack)
  }

  /** Every frame is at a reached cell and lists each direction at most once. */
  ghost predicate FramesOk(stack: seq<Frame>, reached: set<Pos>) {
    forall i :: 0 <= i < |stack| ==> stack[i].pos in reached && NoDup(stack[i].dirs)
  }

  /** Pushing a frame at a reached cell keeps the frames in order, also once
      more cells are reached. */
  lemma {:induction false} FramesPush(stack: seq<Frame>, f: Frame, reached: set<Pos>, reached': set<Pos>)
    requires FramesOk(stack, reached) && reached <= reached'
    requires f.pos in reached' && NoDup(f.dirs)
    ensures FramesOk(stack, reached') && FramesOk(stack + [f], reached')
  {
    forall i | 0 <= i < |stack| + 1
      ensures (stack + [f])[i].pos in reached' && NoDup((stack + [f])[i].dirs)
    {
      if i < |stack| {
        assert (stack + [f])[i] == stack[i];
      }
    }
  }

  /** The stack after a passage from `here`: the frame goes back only when it
      has directions left. */
  function Resume(stack: seq<Frame>, here: Pos, rest: seq<Dir>): seq<Frame> {
    if rest == [] then stack else stack + [Frame(here, rest)]
  }

  /** A probe that is not open needs no frame. */
  lemma {:induction false} CoveredSkip(g: Grid, reached: set<Pos>, stack: seq<Frame>, here: Pos, dirs: seq<Dir>)
    requires WellShaped(g) && dirs != []
    requires Covered(g, reached, stack + [Frame(here, dirs)])
    requires !Open(g, here, dirs[|dirs| - 1])
    ensures Covered(g, reached, stack + [Frame(here, dirs[..|dirs| - 1])])
  {
    var rest := dirs[..|dirs| - 1];
    PendingPush(stack, Frame(here, dirs));
    PendingPush(stack, Frame(here, rest));
    forall q, e | q in reached && Open(g, q, e)
      ensures (q, e) in Pending(stack + [Frame(here, rest)])
    {
      if (q, e) !in Pending(stack) {
        assert e in dirs && e != dirs[|dirs| - 1];
        assert dirs == rest + [dirs[|dirs| - 1]];
      }
    }
  }

  /** After a passage from `here` into `np`, the resumed frame and a frame for
      `np` holding every direction cover every open probe. */
  lemma {:induction false} CoveredCarve(g: Grid, reached: set<Pos>, stack: seq<Frame>, here: Pos, dirs: seq<Dir>,
                     ds: seq<Dir>)
    requires WellShaped(g) && dirs != []
    requires Covered(g, reached, stack + [Frame(here, dirs)])
    requires Step(g, here, dirs[|dirs| - 1]).Ok?
    requires forall e :: e in ds
    ensures Covered(MakePassage(g, here, dirs[|dirs| - 1]).value,
                    reached + {Step(g, here, dirs[|dirs| - 1]).value},
                    Resume(stack, here, dirs[..|dirs| - 1]) + [Frame(Step(g, here, dirs[|dirs| - 1]).value, ds)])
  {
    var d := dirs[|dirs| - 1];
    var rest := dirs[..|dirs| - 1];
    var np := Step(g, here, d).value;
    var g1 := MakePassage(g, here, d).value;
    var resumed := Resume(stack, here, rest);
    PendingPush(resumed, Frame(np, ds));
    forall q, e | q in reached + {np} && Open(g1, q, e)
      ensures (q, e) in Pending(resumed + [Frame(np, ds)])
    {
      if q != np {
        CarveKeepsOpen(g, here, d, q, e);
        ResumeKeeps(stack, here, dirs, q, e);
      }
    }
  }

  /** A probe still open after a passage from `here` towards `d` was open
      before, and is not that passage. */
  lemma {:induction false} CarveKeepsOpen(g: Grid, here: Pos, d: Dir, q: Pos, e: Dir)
    requires WellShaped(g) && Step(g, here, d).Ok?
    requires Open(MakePassage(g, here, d).value, q, e)
    ensures Open(g, q, e) && !(q == here && e == d)
  {
    var g1 := MakePassage(g, here, d).value;
    var t := Step(g1, q, e).value;
    assert Cell(g1, t) == 0;
  }

  /** Every probe of the stack with the frame `(here, dirs)` on top but the
      last direction of the frame is still on the stack `Resume` leaves. */
  lemma {:induction false} ResumeKeeps(stack: seq<Frame>, here: Pos, dirs: seq<Dir>, q: Pos, e: Dir)
    requires dirs != [] && (q, e) in Pending(stack + [Frame(here, dirs)])
    requires !(q == here && e == dirs[|dirs| - 1])
    ensures (q, e) in Pending(Resume(stack, here, dirs[..|dirs| - 1]))
  {
    var rest := dirs[..|dirs| - 1];
    PendingPush(stack, Frame(here, dirs));
    PendingPush(stack, Frame(here, rest));
    if (q, e) !in Pending(stack) {
      assert e in dirs && e != dirs[|dirs| - 1];
      assert dirs == rest + [dirs[|dirs| - 1]];
    }
  }

  /** With nothing left to probe, every reached cell is finished. */
  lemma {:induction false} CoveredDone(g: Grid, reached: set<Pos>)
    requires WellShaped(g) && Covered(g, reached, [])
    ensures forall q :: q in reached ==> NeighboursVisited(g, q)
  {
    forall q, e | q in reached && Step(g, q, e).Ok? ensures Cell(g, Step(g, q, e).value) != 0 {
      assert !Open(g, q, e);
    }
  }

  /** The state at the head of the outer loop: the carve so far is a tree of
      calls into unvisited cells, every frame sits at a reached cell, every
      open probe of a reached cell is on the stack, the stack never held more
      frames than one more than the calls made, and each call filled a cell. */
  ghost predicate Searching(g0: Grid, g: Grid, root: Pos, ps: seq<Passage>, stack: seq<Frame>, peak: nat)
    requires WellShaped(g0)
  {
    && g == Carved(g0, ps) && IntoUnvisited(g0, ps) && Tree(root, ps)
    && FramesOk(stack, Reached(root, ps))
    && Covered(g, Reached(root, ps), stack)
    && |stack| <= peak <= |ps| + 1
    && Unvisited(g) + |ps| <= Unvisited(g0)
  }

  /** The state inside the inner loop, with the popped frame `(here, dirs)`
      counted as if it were still on the stack. */
  ghost predicate Probing(g0: Grid, g: Grid, root: Pos, ps: seq<Passage>, stack: seq<Frame>,
                          here: Pos, dirs: seq<Dir>, peak: nat)
    requires WellShaped(g0)
  {
    && g == Carved(g0, ps) && IntoUnvisited(g0, ps) && Tree(root, ps)
    && here in Reached(root, ps) && NoDup(dirs)
    && FramesOk(stack, Reached(root, ps))
    && Covered(g, Reached(root, ps), stack + [Frame(here, dirs)])
    && |stack| + 1 <= peak <= |ps| + 1
    && Unvisited(g) + |ps| <= Unvisited(g0)
  }

  lemma {:induction false} Pop(g0: Grid, g: Grid, root: Pos, ps: seq<Passage>, stack: seq<Frame>, peak: nat)
    requires WellShaped(g0) && Searching(g0, g, root, ps, stack, peak) && stack != []
    ensures Probing(g0, g, root, ps, stack[..|stack| - 1], stack[|stack| - 1].pos, stack[|stack| - 1].dirs, peak)
    ensures Weight(stack) == Weight(stack[..|stack| - 1]) + |stack[|stack| - 1].dirs| + 1
  {
    var rest, f := stack[..|stack| - 1], stack[|stack| - 1];
    assert stack == rest + [Frame(f.pos, f.dirs)];
    assert f.pos in Reached(root, ps) && NoDup(f.dirs);
    assert FramesOk(rest, Reached(root, ps));
  }

  lemma {:induction false} Skip(g0: Grid, g: Grid, root: Pos, ps: seq<Passage>, stack: seq<Frame>,
             here: Pos, dirs: seq<Dir>, peak: nat)
    requires WellShaped(g0) && Probing(g0, g, root, ps, stack, here, dirs, peak) && dirs != []
    requires !Open(g, here, dirs[|dirs| - 1])
    ensures Probing(g0, g, root, ps, stack, here, dirs[..|dirs| - 1], peak)
  {
    CoveredSkip(g, Reached(root, ps), stack, here, dirs);
  }

  lemma {:induction false} Exhausted(g0: Grid, g: Grid, root: Pos, ps: seq<Passage>, stack: seq<Frame>,
                  here: Pos, peak: nat)
    requires WellShaped(g0) && Probing(g0, g, root, ps, stack, here, [], peak)
    ensures Searching(g0, g, root, ps, stack, peak)
  {
    PendingPush(stack, Frame(here, []));
  }

  /** The passage from `here` into an all-walled neighbour: the state after the
      frame is resumed and the new cell's frame pushed, with one cell fewer
      unvisited. */
  lemma {:induction false} Advance(g0: Grid, g: Grid, root: Pos, ps: seq<Passage>, stack: seq<Frame>,
                here: Pos, dirs: seq<Dir>, peak: nat, ds: seq<Dir>)
    requires WellShaped(g0) && Probing(g0, g, root, ps, stack, here, dirs, peak) && dirs != []
    requires Open(g, here, dirs[|dirs| - 1])
    requires NoDup(ds) && forall e :: e in ds
    ensures var d := dirs[|dirs| - 1];
            var stack' := Resume(stack, here, dirs[..|dirs| - 1]) + [Frame(Neighbour(here, d), ds)];
            && Searching(g0, MakePassage(g, here, d).value, root, ps + [Passage(here, d)], stack',
                         if |stack'| > peak then |stack'| else peak)
            && Unvisited(MakePassage(g, here, d).value) < Unvisited(g)
  {
    var d := dirs[|dirs| - 1];
    var np := Neighbour(here, d);
    var rest := dirs[..|dirs| - 1];
    var ps1 := ps + [Passage(here, d)];
    var resumed := Resume(stack, here, rest);
    MakePassageUnvisited(g, here, d);
    CarveOne(g0, root, ps, here, d);
    CoveredCarve(g, Reached(root, ps), stack, here, dirs, ds);
    assert NoDup(rest);
    var reached := Reached(root, ps1);
    FramesPush(stack, Frame(here, rest), Reached(root, ps), reached);
    FramesPush(resumed, Frame(np, ds), reached, reached);
  }

  /** The inner loop of `carve()` on the frame `(here, dirs)` just popped:
      probe its directions from the end of the list, skipping steps off the
      grid and cells already visited; on reaching a cell with no passage, open
      the wall, push the frame back if it has directions left, push a frame
      for the new cell and stop. Either a cell fewer is unvisited, or nothing
      changed and the stack lost the popped frame. */
  method Probe(lab: Labyrinth, here: Pos, dirs: seq<Dir>, stack: seq<Frame>,
               ghost g0: Grid, ghost root: Pos, ghost ps: seq<Passage>, ghost peak: nat)
    returns (stack': seq<Frame>, ghost ps': seq<Passage>, ghost peak': nat)
    requires lab.Valid() && WellShaped(g0)
    requires Probing(g0, lab.View(), root, ps, stack, here, dirs, peak)
    modifies lab
    ensures lab.Valid()
    ensures Searching(g0, lab.View(), root, ps', stack', peak')
    ensures || Unvisited(lab.View()) < old(Unvisited(lab.View()))
            || (lab.View() == old(lab.View()) && Weight(stack') < Weight(stack) + |dirs| + 1)
  {
    ghost var g := lab.View();
    var directions := dirs;
    while directions != []
      invariant lab.Valid() && lab.View() == g
      invariant Probing(g0, g, root, ps, stack, here, directions, peak)
      decreases |directions|
    {
      ghost var before := directions;
      var d := directions[|directions| - 1];
      directions := directions[..|directions| - 1];
      var s := Step(lab.View(), here, d);
      if s.Err? {
        Skip(g0, g, root, ps, stack, here, before, peak);
        continue;
      }
      var np := s.value;
      if lab.Get(np) == Ok(0) {
        var _ := lab.MakePassage(here, d);
        var ds := lab.RandomDirections();
        Advance(g0, g, root, ps, stack, here, before, peak, ds);
        stack' := stack;
        if directions != [] {
          stack' := stack' + [Frame(here, directions)];
        }
        stack' := stack' + [Frame(np, ds)];
        ps' := ps + [Passage(here, d)];
        peak' := if |stack'| > peak then |stack'| else peak;
        return;
      }
      Skip(g0, g, root, ps, stack, here, before, peak);
    }
    Exhausted(g0, g, root, ps, stack, here, peak);
    stack', ps', peak' := stack, ps, peak;
  }

  /** `carve(pos)`: seed the stack with the start (the top-left cell when none
      is given) and all four directions in random order; repeatedly pop a
      frame and probe its directions from the end of its list, skipping steps
      off the grid; on reaching a cell with no passage, open the wall, push
      the frame back if it has directions left, push a frame for the new cell
      and continue from there. `carved` are the `make_passage` calls made and
      `peak` the largest number of frames on the stack at once. */
  method Carve(lab: Labyrinth, pos: Option<Pos> := None)
    returns (ghost start: Pos, ghost carved: seq<Passage>, ghost peak: nat)
    requires lab.Valid()
    modifies lab
    ensures lab.Valid()
    ensures start == if pos.Some? then pos.value else Pos(0, 0)
    ensures Explored(old(lab.View()), lab.View(), start, carved)
    ensures FromFresh(old(lab.View()), lab.View(), start, carved)
    ensures peak <= 1 + Extent(lab.width) * Extent(lab.height)
  {
    var p := if pos.Some? then pos.value else Pos(0, 0);
    start := p;
    ghost var g0 := lab.View();
    var ds0 := lab.RandomDirections();
    var stack := [Frame(p, ds0)];
    carved := [];
    peak := 1;
    ZeroCountShaped(g0.cells, g0.width, g0.height, false);
    PendingPush([], Frame(p, ds0));
    assert Searching(g0, lab.View(), p, carved, stack, peak);
    while stack != []
      invariant lab.Valid()
      invariant Searching(g0, lab.View(), p, carved, stack, peak)
      decreases Unvisited(lab.View()), Weight(stack)
    {
      Pop(g0, lab.View(), p, carved, stack, peak);
      var f := stack[|stack| - 1];
      stack := stack[..|stack| - 1];
      stack, carved, peak := Probe(lab, f.pos, f.dirs, stack, g0, p, carved, peak);
    }
    CoveredDone(lab.View(), Reached(p, carved));
    ExploredKeepsPromise(g0, lab.View(), p, carved);
  }
}

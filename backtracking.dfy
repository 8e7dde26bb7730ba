/** The `Backtracking` labyrinth: a recursive depth-first carve, and a pass
    that removes further walls at random. */
module Backtracking {
  import opened Wrappers
  import opened Cells
  import opened Grids
  import opened Traces
  import opened Spanning
  import opened Labyrinths
  import opened Randomness

  /** `carve(pos)`: from `pos` (the top-left cell when none is given) probe
      the four directions in random order; skip a step off the grid, and
      where the neighbour has no passage yet, open the wall and carve on
      from there. `start` is the cell the carve began at and `carved` the
      `make_passage` calls it made, in order. */
  method Carve(lab: Labyrinth, pos: Option<Pos> := None) returns (ghost start: Pos, ghost carved: seq<Passage>)
    requires lab.Valid()
    modifies lab
    decreases Unvisited(lab.View()), 1
    ensures lab.Valid()
    ensures start == if pos.Some? then pos.value else Pos(0, 0)
    ensures Explored(old(lab.View()), lab.View(), start, carved)
    ensures Unvisited(lab.View()) <= Unvisited(old(lab.View()))
    ensures FromFresh(old(lab.View()), lab.View(), start, carved)
  {
    var p := if pos.Some? then pos.value else Pos(0, 0);
    start := p;
    ghost var g0 := lab.View();
    var ds := lab.RandomDirections();
    carved := [];
    ProbingStart(g0, p);
    var i := 0;
    while i < |ds|
      invariant 0 <= i <= |ds|
      invariant lab.Valid()
      invariant Probing(g0, lab.View(), p, carved, ds[..i])
      invariant Unvisited(lab.View()) <= Unvisited(g0)
    {
      assert ds[..i + 1] == ds[..i] + [ds[i]];
      carved := Probe(lab, p, ds[i], g0, ds[..i], carved);
      i := i + 1;
    }
    assert ds[..i] == ds;
    ProbingDone(g0, lab.View(), p, carved, ds);
    ExploredKeepsPromise(g0, lab.View(), p, carved);
  }

  /** One pass of the loop over the directions in `carve(pos)`: step from
      `pos` towards `d`, and when that stays on the grid and reaches a cell
      with no passage, open the wall and carve on from there. `done` are the
      directions probed before `d` and `carved` the calls made so far. */
  method Probe(lab: Labyrinth, pos: Pos, d: Dir, ghost g0: Grid, ghost done: seq<Dir>, ghost carved: seq<Passage>)
    returns (ghost carved': seq<Passage>)
    requires lab.Valid() && WellShaped(g0)
    requires Probing(g0, lab.View(), pos, carved, done)
    modifies lab
    decreases Unvisited(lab.View()), 0
    ensures lab.Valid()
    ensures Probing(g0, lab.View(), pos, carved', done + [d])
    ensures Unvisited(lab.View()) <= old(Unvisited(lab.View()))
  {
    var s := Step(lab.View(), pos, d);
    if s.Err? {
      ProbingSkip(g0, lab.View(), pos, carved, done, d);
      return carved;
    }
    var np := s.value;
    if lab.Get(np) != Ok(0) {
      ProbingSkip(g0, lab.View(), pos, carved, done, d);
      return carved;
    }
    ghost var g := lab.View();
    var _ := lab.MakePassage(pos, d);
    MakePassageUnvisited(g, pos, d);
    ghost var _, sub := Carve(lab, Some(np));
    ProbingCarve(g0, g, pos, carved, done, d, lab.View(), sub);
    carved' := carved + [Passage(pos, d)] + sub;
  }

  /** `carve_more(walls_to_remove)`: pick a random cell and a random
      direction until `walls_to_remove` walls that `can_make_passage` allows
      have been opened, none by default. The source retries without bound; here at most `fuel`
      picks are made, and `toGo` is the count still to remove when they run
      out. `added` are the `make_passage` calls made, in order. */
  method CarveMore(lab: Labyrinth, fuel: nat, wallsToRemove: int := 0)
    returns (toGo: int, tries: nat, ghost added: seq<Passage>)
    requires lab.Valid()
    requires wallsToRemove != 0 ==> lab.width > 0 && lab.height > 0
    modifies lab
    ensures lab.Valid()
    ensures lab.View() == Carved(old(lab.View()), added)
    ensures AllNew(old(lab.View()), added)
    ensures |added| == wallsToRemove - toGo
    ensures toGo == 0 || tries == fuel
    ensures wallsToRemove == 0 ==> toGo == 0 && added == [] && lab.grid == old(lab.grid)
    ensures Consistent(old(lab.View())) ==>
      Consistent(lab.View()) && PassageCount(lab.View()) == PassageCount(old(lab.View())) + |added|
  {
    ghost var g0 := lab.View();
    toGo := wallsToRemove;
    tries := 0;
    added := [];
    while toGo != 0 && tries < fuel
      invariant tries <= fuel
      invariant lab.Valid()
      invariant lab.View() == Carved(g0, added)
      invariant AllNew(g0, added)
      invariant |added| == wallsToRemove - toGo
      invariant wallsToRemove == 0 ==> toGo == 0 && added == []
      decreases fuel - tries
    {
      var x := RandRange(lab.width);
      var y := RandRange(lab.height);
      var p := Pos(x, y);
      var ds := lab.RandomDirections();
      var d := ds[0];
      var can := CanMakePassage(lab.View(), p, d);
      assert can.Ok?;
      if can.value {
        ghost var g := lab.View();
        var _ := lab.MakePassage(p, d);
        InitSnoc(added, Passage(p, d));
        added := added + [Passage(p, d)];
        toGo := toGo - 1;
      }
      tries := tries + 1;
    }
    if Consistent(g0) {
      AllNewCount(g0, added);
    }
  }
}

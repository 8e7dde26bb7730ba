/** What the carving algorithms do to a grid, recorded as the sequence of
    `make_passage` calls they make (the calls their `show` observer is told
    about): the grid they leave, whether each call opened a new passage or
    entered an all-walled cell, and the tree the calls form. */
module Traces {
  import opened Wrappers
  import opened Bits
  import opened Cells
  import opened Grids

  /** One call `make_passage(from, dir)`. */
  datatype Passage = Passage(from: Pos, dir: Dir)

  function Target(x: Passage): Pos {
    Neighbour(x.from, x.dir)
  }

  function Init(ps: seq<Passage>): seq<Passage>
    requires ps != []
  {
    ps[..|ps| - 1]
  }

  function Last(ps: seq<Passage>): Passage
    requires ps != []
  {
    ps[|ps| - 1]
  }

  /** Dropping the last call of `a + b` drops the last call of `b`. */
  lemma {:induction false} InitAppend(a: seq<Passage>, b: seq<Passage>)
    requires b != []
    ensures Init(a + b) == a + Init(b) && Last(a + b) == Last(b)
  {
    assert (a + b)[..|a + b| - 1] == a + b[..|b| - 1];
  }

  /** Dropping the last call of `ps + [x]` gives back `ps`. */
  lemma {:induction false} InitSnoc(ps: seq<Passage>, x: Passage)
    ensures Init(ps + [x]) == ps && Last(ps + [x]) == x
  {
    assert (ps + [x])[..|ps|] == ps;
  }

  /** The grid after one call; a call that raises leaves it unchanged. */
  function Apply(g: Grid, x: Passage): (r: Grid)
    requires WellShaped(g)
    ensures WellShaped(r) && r.width == g.width && r.height == g.height
  {
    match MakePassage(g, x.from, x.dir)
    case Ok(g') => g'
    case Err(_) => g
  }

  /** The grid after a sequence of calls, made in order. */
  function Carved(g: Grid, ps: seq<Passage>): (r: Grid)
    requires WellShaped(g)
    ensures WellShaped(r) && r.width == g.width && r.height == g.height
    decreases |ps|
  {
    if ps == [] then g else Apply(Carved(g, Init(ps)), Last(ps))
  }

  lemma {:induction false} CarvedAppend(g: Grid, a: seq<Passage>, b: seq<Passage>)
    requires WellShaped(g)
    ensures Carved(g, a + b) == Carved(Carved(g, a), b)
    decreases |b|
  {
    if b == [] {
      assert a + b == a;
    } else {
      InitAppend(a, b);
      CarvedAppend(g, a, Init(b));
    }
  }

  /** Each call was one `can_make_passage` allows: on the grid, and opening a
      wall that was still there. */
  ghost predicate AllNew(g: Grid, ps: seq<Passage>)
    requires WellShaped(g)
    decreases |ps|
  {
    ps == [] ||
    (AllNew(g, Init(ps)) && CanMakePassage(Carved(g, Init(ps)), Last(ps).from, Last(ps).dir) == Ok(true))
  }

  /** Each call stepped on the grid into a cell that had no passage yet. */
  ghost predicate IntoUnvisited(g: Grid, ps: seq<Passage>)
    requires WellShaped(g)
    decreases |ps|
  {
    ps == [] ||
    (&& IntoUnvisited(g, Init(ps))
     && Step(Carved(g, Init(ps)), Last(ps).from, Last(ps).dir).Ok?
     && Cell(Carved(g, Init(ps)), Target(Last(ps))) == 0)
  }

  lemma {:induction false} AllNewAppend(g: Grid, a: seq<Passage>, b: seq<Passage>)
    requires WellShaped(g) && AllNew(g, a) && AllNew(Carved(g, a), b)
    ensures AllNew(g, a + b)
    decreases |b|
  {
    if b == [] {
      assert a + b == a;
    } else {
      var b' := Init(b);
      InitAppend(a, b);
      AllNewAppend(g, a, b');
      CarvedAppend(g, a, b');
      assert Carved(g, a + b') == Carved(Carved(g, a), b');
    }
  }

  lemma {:induction false} IntoUnvisitedAppend(g: Grid, a: seq<Passage>, b: seq<Passage>)
    requires WellShaped(g) && IntoUnvisited(g, a) && IntoUnvisited(Carved(g, a), b)
    ensures IntoUnvisited(g, a + b)
    decreases |b|
  {
    if b == [] {
      assert a + b == a;
    } else {
      var b' := Init(b);
      InitAppend(a, b);
      IntoUnvisitedAppend(g, a, b');
      CarvedAppend(g, a, b');
      assert Carved(g, a + b') == Carved(Carved(g, a), b');
    }
  }

  /** Calls into all-walled cells of a consistent grid open new passages, and
      new passages keep the grid consistent and add one passage each. */
  lemma {:induction false} UnvisitedIsNew(g: Grid, ps: seq<Passage>)
    requires Consistent(g) && IntoUnvisited(g, ps)
    ensures AllNew(g, ps)
    decreases |ps|
  {
    if ps != [] {
      UnvisitedIsNew(g, Init(ps));
      AllNewCount(g, Init(ps));
      IntoUnvisitedIsNew(Carved(g, Init(ps)), Last(ps));
    }
  }

  /** On a consistent grid, a step into a cell with no passage crosses a wall
      that is still there. */
  lemma {:induction false} IntoUnvisitedIsNew(h: Grid, x: Passage)
    requires Consistent(h) && Step(h, x.from, x.dir).Ok? && Cell(h, Target(x)) == 0
    ensures CanMakePassage(h, x.from, x.dir) == Ok(true)
  {
    SymmetricBothWays(h, x.from, x.dir);
  }

  lemma {:induction false} AllNewCount(g: Grid, ps: seq<Passage>)
    requires Consistent(g) && AllNew(g, ps)
    ensures Consistent(Carved(g, ps))
    ensures PassageCount(Carved(g, ps)) == PassageCount(g) + |ps|
    decreases |ps|
  {
    if ps != [] {
      AllNewCount(g, Init(ps));
      var h, x := Carved(g, Init(ps)), Last(ps);
      MakePassageConsistent(h, x.from, x.dir);
      MakePassageCount(h, x.from, x.dir);
    }
  }

  /** Any sequence of calls keeps a consistent grid consistent. */
  lemma {:induction false} CarvedConsistent(g: Grid, ps: seq<Passage>)
    requires Consistent(g)
    ensures Consistent(Carved(g, ps))
    decreases |ps|
  {
    if ps != [] {
      CarvedConsistent(g, Init(ps));
      var h, x := Carved(g, Init(ps)), Last(ps);
      if Step(h, x.from, x.dir).Ok? {
        MakePassageConsistent(h, x.from, x.dir);
      }
    }
  }

  /** A cell with a passage keeps one: masks only gain bits. */
  lemma {:induction false} CarvedGrows(g: Grid, ps: seq<Passage>, q: Pos)
    requires WellShaped(g) && PositionValid(g, q) && Cell(g, q) != 0
    ensures Cell(Carved(g, ps), q) != 0
    decreases |ps|
  {
    if ps != [] {
      CarvedGrows(g, Init(ps), q);
    }
  }

  /** On a consistent grid a passage, once made, stays. */
  lemma {:induction false} CarvedKeepsBits(g: Grid, ps: seq<Passage>, q: Pos, d: Dir)
    requires Consistent(g) && PositionValid(g, q) && HasBit(Cell(g, q), Bit(d))
    ensures HasBit(Cell(Carved(g, ps), q), Bit(d))
    decreases |ps|
  {
    if ps != [] {
      CarvedKeepsBits(g, Init(ps), q, d);
      CarvedConsistent(g, Init(ps));
      var h, x := Carved(g, Init(ps)), Last(ps);
      if Step(h, x.from, x.dir).Ok? {
        OrKeeps(Cell(h, q), Bit(x.dir), Bit(d));
        OrKeeps(Cell(h, q), Bit(Opposite(x.dir)), Bit(d));
      }
    }
  }

  // ----- The tree the calls form -----

  /** The start cell and every cell a call led into. */
  function Reached(root: Pos, ps: seq<Passage>): set<Pos>
    decreases |ps|
  {
    if ps == [] then {root} else Reached(root, Init(ps)) + {Target(Last(ps))}
  }

  lemma {:induction false} RootReached(root: Pos, ps: seq<Passage>)
    ensures root in Reached(root, ps)
    decreases |ps|
  {
    if ps != [] { RootReached(root, Init(ps)); }
  }

  /** Every call starts from a cell already reached: the calls grow one tree
      from `root`. */
  ghost predicate Tree(root: Pos, ps: seq<Passage>)
    decreases |ps|
  {
    ps == [] || (Tree(root, Init(ps)) && Last(ps).from in Reached(root, Init(ps)))
  }

  /** A tree grown from a cell of another tree extends it. */
  lemma {:induction false} TreeAppend(root: Pos, a: seq<Passage>, root': Pos, b: seq<Passage>)
    requires Tree(root, a) && Tree(root', b) && root' in Reached(root, a)
    ensures Tree(root, a + b)
    ensures Reached(root, a + b) == Reached(root, a) + Reached(root', b)
    decreases |b|
  {
    if b == [] {
      assert a + b == a;
    } else {
      InitAppend(a, b);
      TreeAppend(root, a, root', Init(b));
    }
  }

  /** Once a tree has a call in it, every cell it reached has a passage. */
  lemma {:induction false} ReachedVisited(g: Grid, root: Pos, ps: seq<Passage>, q: Pos)
    requires WellShaped(g) && IntoUnvisited(g, ps) && Tree(root, ps) && ps != []
    requires q in Reached(root, ps)
    ensures PositionValid(g, q) && Cell(Carved(g, ps), q) != 0
    decreases |ps|
  {
    var h, x := Carved(g, Init(ps)), Last(ps);
    if q == Target(x) {
    } else if Init(ps) == [] {
      assert q == root == x.from;
    } else {
      ReachedVisited(g, root, Init(ps), q);
      CarvedGrows(h, [x], q);
    }
  }

  /** A grid with no passages gains a passage exactly where a tree reached. */
  lemma {:induction false} VisitedReached(g: Grid, root: Pos, ps: seq<Passage>, q: Pos)
    requires Fresh(g) && Tree(root, ps)
    requires PositionValid(g, q) && Cell(Carved(g, ps), q) != 0
    ensures q in Reached(root, ps)
    decreases |ps|
  {
    if ps != [] {
      var h, x := Carved(g, Init(ps)), Last(ps);
      if q != x.from && q != Target(x) {
        VisitedReached(g, root, Init(ps), q);
      } else if q == x.from {
        assert x.from in Reached(root, Init(ps));
      }
    }
  }

  /** Starting from a cell with no passage, a tree of calls into unvisited cells
      fills one cell per call plus its root. */
  lemma {:induction false} TreeUnvisited(g: Grid, root: Pos, ps: seq<Passage>)
    requires WellShaped(g) && IntoUnvisited(g, ps) && Tree(root, ps) && ps != []
    requires PositionValid(g, root) && Cell(g, root) == 0
    ensures Unvisited(Carved(g, ps)) + |ps| + 1 == Unvisited(g)
    decreases |ps|
  {
    var h, x := Carved(g, Init(ps)), Last(ps);
    MakePassageUnvisited(h, x.from, x.dir);
    if Init(ps) == [] {
      assert x.from == root;
    } else {
      TreeUnvisited(g, root, Init(ps));
      ReachedVisited(g, root, Init(ps), x.from);
    }
  }

  // ----- Paths through passages -----

  /** An open passage leads from `p` to its neighbour `q`. */
  ghost predicate Linked(g: Grid, p: Pos, q: Pos)
    requires WellShaped(g)
  {
    PositionValid(g, p) && exists d :: Step(g, p, d) == Ok(q) && HasBit(Cell(g, p), Bit(d))
  }

  ghost predicate IsPath(g: Grid, path: seq<Pos>)
    requires WellShaped(g)
  {
    |path| >= 1 && forall i :: 0 <= i < |path| - 1 ==> Linked(g, path[i], path[i + 1])
  }

  /** `b` can be reached from `a` by walking through passages. */
  ghost predicate Connected(g: Grid, a: Pos, b: Pos)
    requires WellShaped(g)
  {
    exists path :: IsPath(g, path) && path[0] == a && path[|path| - 1] == b
  }

  lemma {:induction false} PathPersists(g: Grid, ps: seq<Passage>, path: seq<Pos>)
    requires Consistent(g) && IsPath(g, path)
    ensures IsPath(Carved(g, ps), path)
  {
    forall i | 0 <= i < |path| - 1 ensures Linked(Carved(g, ps), path[i], path[i + 1]) {
      var d :| Step(g, path[i], d) == Ok(path[i + 1]) && HasBit(Cell(g, path[i]), Bit(d));
      CarvedKeepsBits(g, ps, path[i], d);
      assert Step(Carved(g, ps), path[i], d) == Ok(path[i + 1]);
    }
  }

  lemma {:induction false} PathExtend(g: Grid, path: seq<Pos>, q: Pos)
    requires WellShaped(g) && IsPath(g, path) && Linked(g, path[|path| - 1], q)
    ensures IsPath(g, path + [q])
  {
    var path' := path + [q];
    forall i | 0 <= i < |path'| - 1 ensures Linked(g, path'[i], path'[i + 1]) {
      if i < |path| - 1 {
        assert path'[i] == path[i] && path'[i + 1] == path[i + 1];
      }
    }
  }

  /** The call just made is an open passage. */
  lemma {:induction false} LastLinked(g: Grid, ps: seq<Passage>)
    requires WellShaped(g) && ps != [] && Step(Carved(g, Init(ps)), Last(ps).from, Last(ps).dir).Ok?
    ensures Linked(Carved(g, ps), Last(ps).from, Target(Last(ps)))
  {
    var x := Last(ps);
    var g' := Carved(g, ps);
    assert Step(g', x.from, x.dir) == Ok(Target(x)) && HasBit(Cell(g', x.from), Bit(x.dir));
  }

  /** A walk through passages from the root of a tree of new passages to any
      cell the tree reached. */
  lemma {:induction false} TreePath(g: Grid, root: Pos, ps: seq<Passage>, q: Pos) returns (path: seq<Pos>)
    requires Consistent(g) && AllNew(g, ps) && Tree(root, ps) && q in Reached(root, ps)
    ensures IsPath(Carved(g, ps), path) && path[0] == root && path[|path| - 1] == q
    decreases |ps|
  {
    if ps == [] {
      path := [root];
    } else {
      var h, x := Carved(g, Init(ps)), Last(ps);
      var g' := Carved(g, ps);
      AllNewCount(g, Init(ps));
      var from := if q in Reached(root, Init(ps)) then q else x.from;
      path := TreePath(g, root, Init(ps), from);
      PathPersists(h, [x], path);
      assert Carved(h, [x]) == g' by { assert Init([x]) == []; }
      if from != q {
        LastLinked(g, ps);
        PathExtend(g', path, q);
        path := path + [q];
      }
    }
  }

  /** Every cell a tree of new passages reached is connected to its root. */
  lemma {:induction false} TreeConnects(g: Grid, root: Pos, ps: seq<Passage>, q: Pos)
    requires Consistent(g) && AllNew(g, ps) && Tree(root, ps) && q in Reached(root, ps)
    ensures Connected(Carved(g, ps), root, q)
  {
    var path := TreePath(g, root, ps, q);
  }
}

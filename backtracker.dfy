/** `src/backtracker.py`: an earlier, self-contained labyrinth class that
    carves itself with a recursive backtracker and draws itself as text. Its
    direction table gives South the flag 2 and East the flag 4, the other way
    round from `Grids`, so it has its own directions, its own passage
    invariant and its own counts; the cell storage and the grid geometry are
    those of `Cells`. */
module Backtracker {
  import opened Wrappers
  import opened Bits
  import opened Cells
  import opened Randomness

  datatype Dir = N | S | E | W

  /** The keys of the `directions` table, in its order. */
  function Directions(): (ds: seq<Dir>)
    ensures |ds| == 4
  {
    [N, S, E, W]
  }

  /** Any rearrangement of the four directions still lists each of them. */
  lemma {:induction false} ShuffledDirections(ds: seq<Dir>)
    requires multiset(ds) == multiset(Directions())
    ensures forall d :: d in ds
  {
    forall d ensures d in ds {
      assert d == Directions()[0] || d == Directions()[1] || d == Directions()[2] || d == Directions()[3];
      assert d in multiset(Directions());
    }
  }

  /** `directions[d]`: the flag of `d` in a cell's mask. */
  function Bit(d: Dir): (b: int)
    ensures IsFlag(b)
  {
    match d
    case N => 1
    case S => 2
    case E => 4
    case W => 8
  }

  /** `dx[d]`: a step moves at most one column, and only East and West
      move at all. */
  function Dx(d: Dir): (r: int)
    ensures -1 <= r <= 1
    ensures r != 0 <==> d == E || d == W
  {
    match d
    case N => 0
    case S => 0
    case E => 1
    case W => -1
  }

  /** `dy[d]`: a step moves at most one row, and only North and South move
      at all; North is up, towards row 0. */
  function Dy(d: Dir): (r: int)
    ensures -1 <= r <= 1
    ensures r != 0 <==> d == N || d == S
  {
    match d
    case N => -1
    case S => 1
    case E => 0
    case W => 0
  }

  /** `opposite[d]`: the direction that undoes the move `d`. */
  function Opposite(d: Dir): (o: Dir)
    ensures Dx(o) == -Dx(d) && Dy(o) == -Dy(d)
  {
    match d
    case N => S
    case S => N
    case E => W
    case W => E
  }

  /** `(x + dx[d], y + dy[d])`. */
  function Neighbour(p: Pos, d: Dir): (q: Pos)
    ensures Adjacent(p, q)
  {
    Pos(p.x + Dx(d), p.y + Dy(d))
  }

  /** Going back the opposite way returns to the start. */
  lemma {:induction false} NeighbourBack(p: Pos, d: Dir)
    ensures Opposite(Opposite(d)) == d
    ensures Neighbour(Neighbour(p, d), Opposite(d)) == p
  {
  }

  /** Different directions have different flags. */
  lemma {:induction false} BitInjective(d: Dir, e: Dir)
    ensures Bit(d) == Bit(e) ==> d == e
  {
  }

  /** Every neighbour is one step away in some direction. */
  lemma {:induction false} DirectionTo(p: Pos, q: Pos) returns (d: Dir)
    requires Adjacent(p, q)
    ensures Neighbour(p, d) == q
  {
    if q.y == p.y - 1 { d := N; }
    else if q.y == p.y + 1 { d := S; }
    else if q.x == p.x + 1 { d := E; }
    else { d := W; }
  }

  // ----- The grid and its invariant -----

  /** What `__init__` builds: every mask zero. */
  ghost predicate Fresh(rows: seq<seq<int>>, w: int, h: int) {
    Shaped(rows, w, h) && forall p :: Inside(w, h, p) ==> At(rows, p) == 0
  }

  ghost predicate InRange(rows: seq<seq<int>>, w: int, h: int)
    requires Shaped(rows, w, h)
  {
    forall p :: Inside(w, h, p) ==> 0 <= At(rows, p) < 16
  }

  /** A flag at `p` towards `d` is matched by the opposite flag at the
      neighbour, which is therefore on the grid. */
  ghost predicate Symmetric(rows: seq<seq<int>>, w: int, h: int)
    requires Shaped(rows, w, h)
  {
    forall p, d :: Inside(w, h, p) && HasBit(At(rows, p), Bit(d)) ==>
      Inside(w, h, Neighbour(p, d)) && HasBit(At(rows, Neighbour(p, d)), Bit(Opposite(d)))
  }

  ghost predicate Consistent(rows: seq<seq<int>>, w: int, h: int) {
    Shaped(rows, w, h) && InRange(rows, w, h) && Symmetric(rows, w, h)
  }

  lemma {:induction false} FreshIsConsistent(rows: seq<seq<int>>, w: int, h: int)
    requires Fresh(rows, w, h)
    ensures Consistent(rows, w, h)
  {
  }

  /** A cell's share of the passages: each passage is counted once, at the end
      from which it leads South or East. */
  function SouthEast(m: int): nat {
    Flag(HasBit(m, Bit(S))) + Flag(HasBit(m, Bit(E)))
  }

  /** Number of passages of a consistent grid. */
  function PassageCount(rows: seq<seq<int>>): nat {
    GridCount(rows, SouthEast)
  }

  // ----- One step of `carve_from` -----

  /** `grid[y][x] |= directions[d]` and then `grid[ny][nx] |= directions[opposite[d]]`:
      the two cells of the step gain their flags and no other cell changes. */
  function Dig(rows: seq<seq<int>>, p: Pos, d: Dir): (r: seq<seq<int>>)
    requires Indexes(rows, p) && Indexes(rows, Neighbour(p, d))
    ensures |r| == |rows| && forall y {:trigger r[y]} :: 0 <= y < |r| ==> |r[y]| == |rows[y]|
    ensures forall q {:trigger At(r, q)} :: Indexes(rows, q) ==>
      At(r, q) ==
        if q == p then Or(At(rows, p), Bit(d))
        else if q == Neighbour(p, d) then Or(At(rows, q), Bit(Opposite(d)))
        else At(rows, q)
  {
    var n := Neighbour(p, d);
    var r1 := Put(rows, p, Or(At(rows, p), Bit(d)));
    Put(r1, n, Or(At(r1, n), Bit(Opposite(d))))
  }

  lemma {:induction false} OrKeeps(m: int, b: int, c: int)
    requires IsFlag(b) && IsFlag(c)
    ensures HasBit(m, c) ==> HasBit(Or(m, b), c)
    ensures c != b ==> (HasBit(Or(m, b), c) <==> HasBit(m, c))
  {
    if c != b { OrKeepsOtherBits(m, b, c); }
  }

  /** A step into an all-walled cell keeps the grid consistent. */
  lemma {:induction false} DigConsistent(rows: seq<seq<int>>, w: int, h: int, p: Pos, d: Dir)
    requires Consistent(rows, w, h) && Inside(w, h, p) && Inside(w, h, Neighbour(p, d))
    requires At(rows, Neighbour(p, d)) == 0
    ensures Consistent(Dig(rows, p, d), w, h)
  {
    var r := Dig(rows, p, d);
    var n := Neighbour(p, d);
    NeighbourBack(p, d);
    forall q, e | Inside(w, h, q) && HasBit(At(r, q), Bit(e))
      ensures Inside(w, h, Neighbour(q, e)) && HasBit(At(r, Neighbour(q, e)), Bit(Opposite(e)))
    {
      if q == p && e == d {
        OrKeeps(At(rows, n), Bit(Opposite(d)), Bit(Opposite(d)));
      } else if q == n && e == Opposite(d) {
        OrKeeps(At(rows, p), Bit(d), Bit(d));
      } else {
        DugKept(rows, w, h, p, d, q, e);
      }
    }
  }

  /** A flag of the grid after a step other than the two new ones was there
      before, so its partner was there too, and still is. */
  lemma {:induction false} DugKept(rows: seq<seq<int>>, w: int, h: int, p: Pos, d: Dir, q: Pos, e: Dir)
    requires Consistent(rows, w, h) && Inside(w, h, p) && Inside(w, h, Neighbour(p, d))
    requires At(rows, Neighbour(p, d)) == 0
    requires Inside(w, h, q) && HasBit(At(Dig(rows, p, d), q), Bit(e))
    requires !(q == p && e == d) && !(q == Neighbour(p, d) && e == Opposite(d))
    ensures Inside(w, h, Neighbour(q, e))
    ensures HasBit(At(Dig(rows, p, d), Neighbour(q, e)), Bit(Opposite(e)))
  {
    var r := Neighbour(q, e);
    DugWasThere(rows, w, h, p, d, q, e);
    assert Inside(w, h, r) && HasBit(At(rows, r), Bit(Opposite(e)));
    DigKeepsFlag(rows, w, h, p, d, r, Opposite(e));
  }

  /** A flag after a step other than the two new ones was there before. */
  lemma {:induction false} DugWasThere(rows: seq<seq<int>>, w: int, h: int, p: Pos, d: Dir, q: Pos, e: Dir)
    requires Consistent(rows, w, h) && Inside(w, h, p) && Inside(w, h, Neighbour(p, d))
    requires At(rows, Neighbour(p, d)) == 0
    requires Inside(w, h, q) && HasBit(At(Dig(rows, p, d), q), Bit(e))
    requires !(q == p && e == d) && !(q == Neighbour(p, d) && e == Opposite(d))
    ensures HasBit(At(rows, q), Bit(e))
  {
    OnlyFlag(d, e);
    if q == p {
      OrKeeps(At(rows, p), Bit(d), Bit(e));
      BitInjective(d, e);
    }
  }

  /** A step keeps every flag already set. */
  lemma {:induction false} DigKeepsFlag(rows: seq<seq<int>>, w: int, h: int, p: Pos, d: Dir, r: Pos, f: Dir)
    requires Shaped(rows, w, h) && Inside(w, h, p) && Inside(w, h, Neighbour(p, d))
    requires Inside(w, h, r) && HasBit(At(rows, r), Bit(f))
    ensures HasBit(At(Dig(rows, p, d), r), Bit(f))
  {
    if r == p {
      OrKeeps(At(rows, p), Bit(d), Bit(f));
    } else if r == Neighbour(p, d) {
      OrKeeps(At(rows, r), Bit(Opposite(d)), Bit(f));
    }
  }

  /** An all-walled cell that gains the flag of `Opposite(d)` has no other. */
  lemma {:induction false} OnlyFlag(d: Dir, e: Dir)
    ensures HasBit(Or(0, Bit(Opposite(d))), Bit(e)) ==> e == Opposite(d)
  {
  }

  /** A step into an all-walled cell of a consistent grid adds exactly one
      passage: the neighbour has no flag, so by symmetry `p` had no flag
      towards it either. */
  lemma {:induction false} DigCount(rows: seq<seq<int>>, w: int, h: int, p: Pos, d: Dir)
    requires Consistent(rows, w, h) && Inside(w, h, p) && Inside(w, h, Neighbour(p, d))
    requires At(rows, Neighbour(p, d)) == 0
    ensures PassageCount(Dig(rows, p, d)) == PassageCount(rows) + 1
  {
    var n := Neighbour(p, d);
    var c := At(rows, p);
    NoFlagTowardsEmpty(rows, w, h, p, d);
    var r1 := Put(rows, p, Or(c, Bit(d)));
    GridCountUpdate(rows, p, Or(c, Bit(d)), SouthEast);
    assert At(r1, n) == 0;
    GridCountUpdate(r1, n, Or(0, Bit(Opposite(d))), SouthEast);
    SouthEastOr(c, d);
  }

  /** On a consistent grid, a cell has no flag towards an all-walled
      neighbour. */
  lemma {:induction false} NoFlagTowardsEmpty(rows: seq<seq<int>>, w: int, h: int, p: Pos, d: Dir)
    requires Consistent(rows, w, h) && Inside(w, h, p) && Inside(w, h, Neighbour(p, d))
    requires At(rows, Neighbour(p, d)) == 0
    ensures !HasBit(At(rows, p), Bit(d)) && 0 <= At(rows, p) < 16
  {
  }

  /** Opening `d` adds a South or East flag to `p` exactly when `d` is South
      or East, and to the all-walled neighbour exactly when it is not. */
  lemma {:induction false} SouthEastOr(c: int, d: Dir)
    requires 0 <= c < 16 && !HasBit(c, Bit(d))
    ensures SouthEast(Or(c, Bit(d))) == SouthEast(c) + Flag(d == S || d == E)
    ensures SouthEast(Or(0, Bit(Opposite(d)))) == Flag(d == N || d == W)
  {
    OrKeeps(c, Bit(d), Bit(S));
    OrKeeps(c, Bit(d), Bit(E));
  }

  /** A step into an all-walled cell fills that cell, and `p` with it if `p`
      was all-walled too. */
  lemma {:induction false} DigFills(rows: seq<seq<int>>, p: Pos, d: Dir)
    requires Indexes(rows, p) && Indexes(rows, Neighbour(p, d)) && At(rows, Neighbour(p, d)) == 0
    ensures ZeroCount(Dig(rows, p, d)) == ZeroCount(rows) - IsZero(At(rows, p)) - 1
  {
    var n := Neighbour(p, d);
    var c := At(rows, p);
    var r1 := Put(rows, p, Or(c, Bit(d)));
    GridCountUpdate(rows, p, Or(c, Bit(d)), IsZero);
    assert At(r1, n) == 0;
    GridCountUpdate(r1, n, Or(0, Bit(Opposite(d))), IsZero);
  }

  // ----- What a call of `carve_from` leaves behind -----

  /** Every flag already set stays set: carving only opens walls. */
  ghost predicate KeepsFlags(before: seq<seq<int>>, after: seq<seq<int>>, w: int, h: int)
    requires Shaped(before, w, h) && Shaped(after, w, h)
  {
    forall p, d :: Inside(w, h, p) && HasBit(At(before, p), Bit(d)) ==> HasBit(At(after, p), Bit(d))
  }

  /** A step keeps every flag already set. */
  lemma {:induction false} DigKeepsFlags(rows: seq<seq<int>>, w: int, h: int, p: Pos, d: Dir)
    requires Shaped(rows, w, h) && Inside(w, h, p) && Inside(w, h, Neighbour(p, d))
    ensures Shaped(Dig(rows, p, d), w, h) && KeepsFlags(rows, Dig(rows, p, d), w, h)
  {
    forall q, f | Inside(w, h, q) && HasBit(At(rows, q), Bit(f))
      ensures HasBit(At(Dig(rows, p, d), q), Bit(f))
    {
      DigKeepsFlag(rows, w, h, p, d, q, f);
    }
  }

  /** A cell with a passage keeps one. */
  ghost predicate KeepsFilled(before: seq<seq<int>>, after: seq<seq<int>>, w: int, h: int)
    requires Shaped(before, w, h) && Shaped(after, w, h)
  {
    forall p :: Inside(w, h, p) && At(before, p) != 0 ==> At(after, p) != 0
  }

  /** Every neighbour of `p` on the grid has a passage. */
  ghost predicate NeighboursFilled(rows: seq<seq<int>>, w: int, h: int, p: Pos)
    requires Shaped(rows, w, h)
  {
    forall d :: NeighbourFilled(rows, w, h, p, d)
  }

  /** The neighbour of `p` towards `d` is off the grid or has a passage. */
  ghost predicate NeighbourFilled(rows: seq<seq<int>>, w: int, h: int, p: Pos, d: Dir)
    requires Shaped(rows, w, h)
  {
    Inside(w, h, Neighbour(p, d)) ==> At(rows, Neighbour(p, d)) != 0
  }

  /** Every cell but `start` that the call entered, all-walled before and with
      a passage after, has no all-walled neighbour left. */
  ghost predicate FilledBehind(before: seq<seq<int>>, after: seq<seq<int>>, w: int, h: int, start: Pos)
    requires Shaped(before, w, h) && Shaped(after, w, h)
  {
    forall p :: Inside(w, h, p) && p != start && At(before, p) == 0 && At(after, p) != 0 ==>
      NeighboursFilled(after, w, h, p)
  }

  /** 1 when the call filled its own start cell (it was all-walled and a step
      was taken from it), else 0. */
  function StartFilled(before: seq<seq<int>>, w: int, h: int, start: Pos, steps: nat): nat
    requires Shaped(before, w, h)
  {
    Flag(Inside(w, h, start) && At(before, start) == 0 && steps > 0)
  }

  /** Every cell has a passage. */
  ghost predicate Filled(rows: seq<seq<int>>, w: int, h: int)
    requires Shaped(rows, w, h)
  {
    forall p :: Inside(w, h, p) ==> At(rows, p) != 0
  }

  /** Two stretches of carving, each keeping cells filled and leaving no
      all-walled neighbour behind, make one such stretch. */
  lemma {:induction false} FilledCompose(g0: seq<seq<int>>, g1: seq<seq<int>>, g2: seq<seq<int>>, w: int, h: int, start: Pos)
    requires Shaped(g0, w, h) && Shaped(g1, w, h) && Shaped(g2, w, h)
    requires KeepsFilled(g0, g1, w, h) && FilledBehind(g0, g1, w, h, start)
    requires KeepsFilled(g1, g2, w, h) && FilledBehind(g1, g2, w, h, start)
    ensures KeepsFilled(g0, g2, w, h) && FilledBehind(g0, g2, w, h, start)
  {
    forall p | Inside(w, h, p) && p != start && At(g0, p) == 0 && At(g2, p) != 0
      ensures NeighboursFilled(g2, w, h, p)
    {
      if At(g1, p) != 0 {
        forall d ensures NeighbourFilled(g2, w, h, p, d) {
          assert NeighbourFilled(g1, w, h, p, d);
        }
      }
    }
  }

  /** What carving from `start` in `steps` steps leaves behind, `g0` before
      and `g` after: cells keep their passages; every cell but `start` that
      was entered has no all-walled neighbour left; every flag set before is
      still set; the cells entered are
      one per step, plus `start` if it was all-walled and a step was taken;
      nothing changes without a step and `start` has a passage after one; a
      consistent grid stays consistent and gains one passage per step. */
  ghost predicate Carving(g0: seq<seq<int>>, g: seq<seq<int>>, w: int, h: int, start: Pos, steps: nat) {
    && Shaped(g0, w, h) && Shaped(g, w, h)
    && KeepsFilled(g0, g, w, h) && FilledBehind(g0, g, w, h, start)
    && KeepsFlags(g0, g, w, h)
    && ZeroCount(g) == ZeroCount(g0) - steps - StartFilled(g0, w, h, start, steps)
    && (steps == 0 ==> g == g0)
    && (Inside(w, h, start) && steps > 0 ==> At(g, start) != 0)
    && (Consistent(g0, w, h) ==> Consistent(g, w, h) && PassageCount(g) == PassageCount(g0) + steps)
  }

  /** A neighbour with a passage keeps it. */
  lemma {:induction false} StaysFilled(g1: seq<seq<int>>, g2: seq<seq<int>>, w: int, h: int, p: Pos, d: Dir)
    requires Shaped(g1, w, h) && Shaped(g2, w, h) && KeepsFilled(g1, g2, w, h)
    requires NeighbourFilled(g1, w, h, p, d)
    ensures NeighbourFilled(g2, w, h, p, d)
  {
  }

  /** Carving one stretch and then another from the same start is carving
      from it in as many steps as both took. */
  lemma {:induction false} CarvingCompose(g0: seq<seq<int>>, g1: seq<seq<int>>, g2: seq<seq<int>>, w: int, h: int, start: Pos, s1: nat, s2: nat)
    requires Carving(g0, g1, w, h, start, s1) && Carving(g1, g2, w, h, start, s2)
    ensures Carving(g0, g2, w, h, start, s1 + s2)
  {
    FilledCompose(g0, g1, g2, w, h, start);
  }

  /** Part way through the loop of `carve_from(start)`: carving so far took
      `steps` steps, and the neighbours towards the directions `done` are off
      the grid or have a passage. */
  ghost predicate Probing(g0: seq<seq<int>>, g: seq<seq<int>>, w: int, h: int, start: Pos, steps: nat, done: seq<Dir>) {
    && Carving(g0, g, w, h, start, steps)
    && forall d :: d in done ==> NeighbourFilled(g, w, h, start, d)
  }

  /** One more direction probed. */
  lemma {:induction false} ProbingStep(g0: seq<seq<int>>, g1: seq<seq<int>>, g2: seq<seq<int>>, w: int, h: int, start: Pos, steps: nat, more: nat, done: seq<Dir>, d: Dir)
    requires Probing(g0, g1, w, h, start, steps, done)
    requires Carving(g1, g2, w, h, start, more) && NeighbourFilled(g2, w, h, start, d)
    ensures Probing(g0, g2, w, h, start, steps + more, done + [d])
  {
    CarvingCompose(g0, g1, g2, w, h, start, steps, more);
    forall e | e in done + [d] ensures NeighbourFilled(g2, w, h, start, e) {
      if e != d {
        StaysFilled(g1, g2, w, h, start, e);
      }
    }
  }

  /** All four directions probed. */
  lemma {:induction false} ProbingDone(g0: seq<seq<int>>, g: seq<seq<int>>, w: int, h: int, start: Pos, steps: nat, done: seq<Dir>)
    requires Probing(g0, g, w, h, start, steps, done) && forall d :: d in done
    ensures Carving(g0, g, w, h, start, steps) && NeighboursFilled(g, w, h, start)
  {
  }

  /** A step from `p` into an all-walled neighbour followed by a call from
      there that left no all-walled neighbour of it is carving from `p` in
      one more step than the call took. */
  lemma {:induction false} ProbeCarving(g0: seq<seq<int>>, g2: seq<seq<int>>, w: int, h: int, p: Pos, d: Dir, sub: nat)
    requires Shaped(g0, w, h) && Inside(w, h, p) && Inside(w, h, Neighbour(p, d))
    requires At(g0, Neighbour(p, d)) == 0
    requires Carving(Dig(g0, p, d), g2, w, h, Neighbour(p, d), sub)
    requires NeighboursFilled(g2, w, h, Neighbour(p, d))
    ensures Carving(g0, g2, w, h, p, sub + 1)
    ensures NeighbourFilled(g2, w, h, p, d)
    ensures HasBit(At(g2, p), Bit(d)) && HasBit(At(g2, Neighbour(p, d)), Bit(Opposite(d)))
  {
    var g1 := Dig(g0, p, d);
    DigFills(g0, p, d);
    DigKeepsFlags(g0, w, h, p, d);
    if Consistent(g0, w, h) {
      DigConsistent(g0, w, h, p, d);
      DigCount(g0, w, h, p, d);
    }
    forall q | Inside(w, h, q) && At(g0, q) != 0 ensures At(g2, q) != 0 {
      assert At(g1, q) != 0;
    }
    assert At(g1, p) != 0;
    OrKeeps(At(g0, p), Bit(d), Bit(d));
    OrKeeps(At(g0, Neighbour(p, d)), Bit(Opposite(d)), Bit(Opposite(d)));
  }

  /** A grid whose cells with passages, `start` among them, have no all-walled
      neighbour has a passage in every cell: the grid graph is connected. */
  lemma {:induction false} FilledEverywhere(rows: seq<seq<int>>, w: int, h: int, start: Pos)
    requires Shaped(rows, w, h) && Inside(w, h, start) && w * h >= 2
    requires NeighboursFilled(rows, w, h, start)
    requires forall p :: Inside(w, h, p) && At(rows, p) != 0 ==> NeighboursFilled(rows, w, h, p)
    ensures Filled(rows, w, h)
  {
    forall p, q | Inside(w, h, p) && Inside(w, h, q) && Adjacent(p, q) && At(rows, p) != 0
      ensures At(rows, q) != 0
    {
      var d := DirectionTo(p, q);
      assert NeighbourFilled(rows, w, h, p, d);
    }
    var q := HasNeighbour(w, h, start);
    var d := DirectionTo(start, q);
    assert NeighbourFilled(rows, w, h, start, d);
    ClosedCoversAll(rows, w, h, q);
  }

  /** A call of `carve_from` from a cell of a fresh grid of at least two cells
      gives every cell a passage, in one step per cell but the start, and so
      leaves `width * height - 1` passages: a spanning tree of the grid. */
  lemma {:induction false} FreshCarveSpans(g0: seq<seq<int>>, g: seq<seq<int>>, w: int, h: int, start: Pos, steps: nat)
    requires Fresh(g0, w, h) && Inside(w, h, start) && w * h >= 2
    requires Carving(g0, g, w, h, start, steps) && NeighboursFilled(g, w, h, start)
    ensures Filled(g, w, h)
    ensures steps == w * h - 1
    ensures PassageCount(g) == w * h - 1
  {
    forall p | Inside(w, h, p) && At(g, p) != 0 ensures NeighboursFilled(g, w, h, p) {
    }
    FilledEverywhere(g, w, h, start);
    ZeroCountShaped(g0, w, h, true);
    forall p | Indexes(g, p) ensures At(g, p) != 0 {
      assert Inside(w, h, p);
    }
    ZeroCountNone(g);
    FreshIsConsistent(g0, w, h);
    forall p | Indexes(g0, p) ensures SouthEast(At(g0, p)) == 0 {
      assert Inside(w, h, p);
    }
    GridCountNone(g0, SouthEast);
  }

  // ----- The class -----

  class Labyrinth {
    const width: int
    const height: int
    var grid: seq<seq<int>>

    ghost predicate Valid()
      reads this
    {
      Shaped(grid, width, height)
    }

    /** `Labyrinth(width, height)`: `height` rows of `width` zeros, built row by
        row; a non-positive dimension gives no rows or empty rows, as Python's
        `[x] * n` does. */
    constructor (width: int := 10, height: int := 10)
      ensures this.width == width && this.height == height
      ensures Valid() && Fresh(grid, width, height)
    {
      this.width := width;
      this.height := height;
      var rows: seq<seq<int>> := seq(Extent(height), _ => []);
      var y := 0;
      while y < height
        invariant 0 <= y && (height >= 0 ==> y <= height)
        invariant |rows| == Extent(height)
        invariant forall i :: 0 <= i < y && i < |rows| ==> rows[i] == seq(Extent(width), _ => 0)
      {
        rows := rows[y := seq(Extent(width), _ => 0)];
        y := y + 1;
      }
      grid := rows;
    }

    /** `carve_from(x, y)`: try the four directions in random order, and for
        each neighbour on the grid that is still all-walled, open the passage
        to it and carry on from there. `steps` counts the passages opened,
        in this call and the calls it makes. The call must start on the grid,
        as the default `(0, 0)` does on a grid with cells. */
    method CarveFrom(x: int := 0, y: int := 0) returns (ghost steps: nat)
      requires Valid() && (Inside(width, height, Pos(x, y)) || width <= 0 || height <= 0)
      modifies this
      decreases ZeroCount(grid), 1
      ensures Valid()
      ensures Carving(old(grid), grid, width, height, Pos(x, y), steps)
      ensures NeighboursFilled(grid, width, height, Pos(x, y))
      ensures Fresh(old(grid), width, height) && Inside(width, height, Pos(x, y)) && width * height >= 2 ==>
        && Filled(grid, width, height)
        && steps == width * height - 1
        && PassageCount(grid) == width * height - 1
    {
      var a := new Dir[4][N, S, E, W];
      assert a[..] == Directions();
      Shuffle(a);
      var ds := a[..];
      ShuffledDirections(ds);
      ghost var g0 := grid;
      steps := 0;
      var i := 0;
      while i < 4
        invariant 0 <= i <= 4 && Valid() && |ds| == 4
        invariant Probing(g0, grid, width, height, Pos(x, y), steps, ds[..i])
      {
        ghost var g1 := grid;
        var more := Probe(Pos(x, y), ds[i]);
        ProbingStep(g0, g1, grid, width, height, Pos(x, y), steps, more, ds[..i], ds[i]);
        assert ds[..i + 1] == ds[..i] + [ds[i]];
        steps := steps + more;
        i := i + 1;
      }
      assert ds[..4] == ds;
      ProbingDone(g0, grid, width, height, Pos(x, y), steps, ds);
      if Fresh(g0, width, height) && Inside(width, height, Pos(x, y)) && width * height >= 2 {
        FreshCarveSpans(g0, grid, width, height, Pos(x, y), steps);
      }
    }

    /** One pass of the loop of `carve_from(p.x, p.y)`, for direction `d`. */
    method Probe(p: Pos, d: Dir) returns (ghost steps: nat)
      requires Valid() && (Inside(width, height, p) || width <= 0 || height <= 0)
      modifies this
      decreases ZeroCount(grid), 0
      ensures Valid()
      ensures Carving(old(grid), grid, width, height, p, steps)
      ensures NeighbourFilled(grid, width, height, p, d)
      ensures steps > 0 <==> Inside(width, height, Neighbour(p, d)) && At(old(grid), Neighbour(p, d)) == 0
      ensures steps > 0 ==>
        && HasBit(At(grid, p), Bit(d))
        && HasBit(At(grid, Neighbour(p, d)), Bit(Opposite(d)))
    {
      var n := Neighbour(p, d);
      if !(0 <= n.x < width && 0 <= n.y < height) || grid[n.y][n.x] != 0 {
        return 0;
      }
      ghost var g0 := grid;
      DigFills(grid, p, d);
      grid := Put(grid, p, Or(At(grid, p), Bit(d)));
      grid := Put(grid, n, Or(At(grid, n), Bit(Opposite(d))));
      assert grid == Dig(g0, p, d);
      var more := CarveFrom(n.x, n.y);
      ProbeCarving(g0, grid, width, height, p, d, more);
      steps := 1 + more;
    }

    /** `str(self)`: the labyrinth drawn as text, or the `IndexError` raised
        on a cell of the last column that has its East flag. */
    method Show() returns (r: Result<string>)
      requires Valid()
      ensures r == Render(width, height, grid)
    {
      var s := Border(width);
      var y := 0;
      while y < height
        invariant 0 <= y <= Extent(height)
        invariant Lines(grid, y).Ok? && s == Border(width) + Lines(grid, y).value
      {
        var cells := DrawRow(grid[y]);
        if cells.Err? {
          LinesErr(grid, y + 1, |grid|);
          return Err(IndexError);
        }
        ghost var before := Lines(grid, y).value;
        var line := Decimal(y) + "|" + cells.value + "\n";
        assert Lines(grid, y + 1) == Ok(before + line);
        s := s + line;
        assert s == Border(width) + (before + line);
        y := y + 1;
      }
      r := Ok(s + Border(width));
    }
  }

  // ----- Drawing -----

  /** The inner loop of `__str__`: the two characters of each cell of a row,
      left to right, or the `IndexError` of an East flag on the last cell. */
  method DrawRow(row: seq<int>) returns (r: Result<string>)
    ensures r == Walls(row, |row|)
  {
    var t := "";
    var x := 0;
    while x < |row|
      invariant 0 <= x <= |row|
      invariant Walls(row, x) == Ok(t)
    {
      var el := row[x];
      var floor := if HasBit(el, Bit(S)) then " " else "-";
      var side := "|";
      if HasBit(el, Bit(E)) {
        if x + 1 >= |row| {
          return Err(IndexError);
        }
        side := if HasBit(el, Bit(S)) || HasBit(row[x + 1], Bit(S)) then " " else "-";
      }
      t := t + (floor + side);
      x := x + 1;
    }
    r := Ok(t);
  }

  /** `"-" * n`. */
  function Dashes(n: int): (s: string)
    ensures |s| == Extent(n) && forall i :: 0 <= i < |s| ==> s[i] == '-'
  {
    seq(Extent(n), _ => '-')
  }

  /** The top and bottom line: two dashes for the row numbers' column, then
      one per cell side. */
  function Border(width: int): (b: string)
    ensures |b| == Extent(2 * width + 1) + 3 && b[|b| - 1] == '\n'
    ensures forall i :: 0 <= i < |b| - 1 ==> b[i] == '-'
  {
    "--" + Dashes(width * 2 + 1) + "\n"
  }

  function Digit(k: nat): (c: char)
    requires k < 10
    ensures '0' <= c <= '9'
  {
    ('0' as int + k) as char
  }

  /** `str(n)` for a natural number: its decimal digits, without leading
      zeros. */
  function Decimal(n: nat): (s: string)
    ensures |s| >= 1 && forall i :: 0 <= i < |s| ==> '0' <= s[i] <= '9'
    ensures s[0] == '0' <==> n == 0
    decreases n
  {
    if n < 10 then [Digit(n)] else Decimal(n / 10) + [Digit(n % 10)]
  }

  /** The number a string of decimal digits stands for. */
  function DecimalValue(s: string): int
    requires forall i :: 0 <= i < |s| ==> '0' <= s[i] <= '9'
    decreases |s|
  {
    if s == [] then 0 else DecimalValue(s[..|s| - 1]) * 10 + (s[|s| - 1] as int - '0' as int)
  }

  /** Reading back the digits `str(n)` writes gives `n`. */
  lemma {:induction false} DecimalRoundTrip(n: nat)
    ensures DecimalValue(Decimal(n)) == n
    decreases n
  {
    if n >= 10 {
      DecimalRoundTrip(n / 10);
      var s := Decimal(n);
      assert s[..|s| - 1] == Decimal(n / 10);
    }
  }

  /** The two characters of cell `x`: its floor, open when the South flag is
      set, then its East side, a wall unless the East flag is set; an open
      East side is drawn open at the bottom when either of the two cells has
      its South flag, which is what `(el | grid[y][x + 1]) & directions["S"]`
      tests. Reading the next cell raises `IndexError` on the last column. */
  function CellText(row: seq<int>, x: nat): (r: Result<string>)
    requires x < |row|
    ensures r.Err? <==> HasBit(row[x], Bit(E)) && x + 1 == |row|
    ensures r.Err? ==> r.error == IndexError
    ensures r.Ok? ==> |r.value| == 2 && (r.value[1] == '|' <==> !HasBit(row[x], Bit(E)))
  {
    var el := row[x];
    var floor := if HasBit(el, Bit(S)) then " " else "-";
    if !HasBit(el, Bit(E)) then Ok(floor + "|")
    else if x + 1 >= |row| then Err(IndexError)
    else Ok(floor + if HasBit(el, Bit(S)) || HasBit(row[x + 1], Bit(S)) then " " else "-")
  }

  /** The characters of the first `n` cells of a row. */
  function Walls(row: seq<int>, n: nat): (r: Result<string>)
    requires n <= |row|
    ensures r.Err? ==> r.error == IndexError
  {
    if n == 0 then Ok("")
    else match Walls(row, n - 1)
      case Err(e) => Err(e)
      case Ok(t) =>
        match CellText(row, n - 1)
        case Err(e) => Err(e)
        case Ok(c) => Ok(t + c)
  }

  /** The line of row `y`: its number, a bar for the West edge, its cells. */
  function Line(row: seq<int>, y: nat): (r: Result<string>)
    ensures r.Err? ==> r.error == IndexError
  {
    match Walls(row, |row|)
    case Err(e) => Err(e)
    case Ok(t) => Ok(Decimal(y) + "|" + t + "\n")
  }

  /** The lines of the first `n` rows. */
  function Lines(grid: seq<seq<int>>, n: nat): (r: Result<string>)
    requires n <= |grid|
    ensures r.Err? ==> r.error == IndexError
  {
    if n == 0 then Ok("")
    else match Lines(grid, n - 1)
      case Err(e) => Err(e)
      case Ok(s) =>
        match Line(grid[n - 1], n - 1)
        case Err(e) => Err(e)
        case Ok(l) => Ok(s + l)
  }

  /** What `__str__` returns: a border, one line per row, a border. */
  function Render(width: int, height: int, grid: seq<seq<int>>): (r: Result<string>)
    requires Shaped(grid, width, height)
    ensures r.Err? ==> r.error == IndexError
  {
    match Lines(grid, |grid|)
    case Err(e) => Err(e)
    case Ok(s) => Ok(Border(width) + s + Border(width))
  }

  lemma {:induction false} LinesErr(grid: seq<seq<int>>, k: nat, n: nat)
    requires 0 < k <= n <= |grid| && Line(grid[k - 1], k - 1).Err?
    ensures Lines(grid, n).Err?
    decreases n
  {
    if n > k {
      LinesErr(grid, k, n - 1);
    }
  }

  /** The last cell of a row has its East flag, which makes `__str__` read
      past the end of the row. */
  predicate EastEdgeOpen(row: seq<int>) {
    |row| > 0 && HasBit(row[|row| - 1], Bit(E))
  }

  lemma {:induction false} WallsOk(row: seq<int>, n: nat)
    requires n <= |row|
    ensures Walls(row, n).Ok? <==> !(n == |row| && EastEdgeOpen(row))
    decreases n
  {
    if n > 0 {
      WallsOk(row, n - 1);
    }
  }

  lemma {:induction false} LinesOk(grid: seq<seq<int>>, n: nat)
    requires n <= |grid|
    ensures Lines(grid, n).Ok? <==> forall y :: 0 <= y < n ==> !EastEdgeOpen(grid[y])
    decreases n
  {
    if n > 0 {
      LinesOk(grid, n - 1);
      WallsOk(grid[n - 1], |grid[n - 1]|);
    }
  }

  /** `__str__` raises `IndexError` exactly when some row has the East flag
      set on its last cell, and otherwise returns the drawing. */
  lemma {:induction false} RenderOk(width: int, height: int, grid: seq<seq<int>>)
    requires Shaped(grid, width, height)
    ensures Render(width, height, grid).Ok? <==> forall y :: 0 <= y < |grid| ==> !EastEdgeOpen(grid[y])
  {
    LinesOk(grid, |grid|);
  }

  /** On a consistent grid an East flag always has a cell to the East, so
      `__str__` never raises, in particular not after `carve_from`. */
  lemma {:induction false} ConsistentRenders(width: int, height: int, grid: seq<seq<int>>)
    requires Consistent(grid, width, height)
    ensures Render(width, height, grid).Ok?
  {
    forall y | 0 <= y < |grid| ensures !EastEdgeOpen(grid[y]) {
      if |grid[y]| > 0 {
        EastHasNeighbour(grid, width, height, Pos(|grid[y]| - 1, y));
      }
    }
    RenderOk(width, height, grid);
  }

  lemma {:induction false} EastHasNeighbour(grid: seq<seq<int>>, w: int, h: int, p: Pos)
    requires Consistent(grid, w, h) && Inside(w, h, p)
    ensures HasBit(At(grid, p), Bit(E)) ==> p.x + 1 < w
  {
    if HasBit(At(grid, p), Bit(E)) {
      assert Inside(w, h, Neighbour(p, E));
    }
  }

  /** Each cell is drawn as two characters: its floor, open (a space)
      exactly when the South flag is set and a dash otherwise, then its East
      side, a bar exactly when the East flag is clear and otherwise open (a
      space) exactly when this cell or the next has its South flag; no
      character is a line break. */
  lemma {:induction false} WallsText(row: seq<int>, n: nat)
    requires n <= |row| && Walls(row, n).Ok?
    ensures |Walls(row, n).value| == 2 * n
    ensures forall x :: 0 <= x < n ==>
      && Walls(row, n).value[2 * x] == (if HasBit(row[x], Bit(S)) then ' ' else '-')
      && (Walls(row, n).value[2 * x + 1] == '|' <==> !HasBit(row[x], Bit(E)))
    ensures forall x :: 0 <= x < n && HasBit(row[x], Bit(E)) ==>
      && x + 1 < |row|
      && Walls(row, n).value[2 * x + 1] == (if HasBit(row[x], Bit(S)) || HasBit(row[x + 1], Bit(S)) then ' ' else '-')
    ensures forall i :: 0 <= i < |Walls(row, n).value| ==> Walls(row, n).value[i] != '\n'
    decreases n
  {
    if n > 0 {
      WallsText(row, n - 1);
      var t := Walls(row, n - 1).value;
      assert Walls(row, n).value == t + CellText(row, n - 1).value;
    }
  }

  /** Number of line breaks. */
  function Newlines(s: string): nat
    decreases |s|
  {
    if s == [] then 0 else Newlines(s[..|s| - 1]) + Flag(s[|s| - 1] == '\n')
  }

  lemma {:induction false} NewlinesAppend(a: string, b: string)
    ensures Newlines(a + b) == Newlines(a) + Newlines(b)
    decreases |b|
  {
    if b != [] {
      assert (a + b)[..|a + b| - 1] == a + b[..|b| - 1];
      assert (a + b)[|a + b| - 1] == b[|b| - 1];
      assert Newlines(a + b) == Newlines(a + b[..|b| - 1]) + Flag(b[|b| - 1] == '\n');
      NewlinesAppend(a, b[..|b| - 1]);
    } else {
      assert a + b == a;
    }
  }

  lemma {:induction false} NoNewlines(s: string)
    requires forall i :: 0 <= i < |s| ==> s[i] != '\n'
    ensures Newlines(s) == 0
    decreases |s|
  {
    if s != [] {
      NoNewlines(s[..|s| - 1]);
    }
  }

  /** A row is drawn as one line. */
  lemma {:induction false} LineNewlines(row: seq<int>, y: nat)
    requires Line(row, y).Ok?
    ensures Newlines(Line(row, y).value) == 1
  {
    var t := Walls(row, |row|).value;
    WallsText(row, |row|);
    NoNewlines(Decimal(y) + "|" + t);
    NewlinesAppend(Decimal(y) + "|" + t, "\n");
  }

  lemma {:induction false} LinesNewlines(grid: seq<seq<int>>, n: nat)
    requires n <= |grid| && Lines(grid, n).Ok?
    ensures Newlines(Lines(grid, n).value) == n
    decreases n
  {
    if n > 0 {
      LinesNewlines(grid, n - 1);
      LineNewlines(grid[n - 1], n - 1);
      NewlinesAppend(Lines(grid, n - 1).value, Line(grid[n - 1], n - 1).value);
    }
  }

  /** The drawing has `height + 2` lines: the top border, one per row, the
      bottom border; it starts and ends with the border, `2 * width + 3`
      dashes long. */
  lemma {:induction false} RenderLines(width: int, height: int, grid: seq<seq<int>>)
    requires Shaped(grid, width, height) && Render(width, height, grid).Ok?
    ensures Newlines(Render(width, height, grid).value) == Extent(height) + 2
    ensures |Border(width)| == Extent(2 * width + 1) + 3
    ensures Render(width, height, grid).value[..|Border(width)|] == Border(width)
    ensures |Render(width, height, grid).value| >= 2 * |Border(width)|
    ensures Render(width, height, grid).value[|Render(width, height, grid).value| - |Border(width)|..] == Border(width)
  {
    var b := Border(width);
    var body := Lines(grid, |grid|).value;
    LinesNewlines(grid, |grid|);
    NoNewlines("--" + Dashes(width * 2 + 1));
    NewlinesAppend("--" + Dashes(width * 2 + 1), "\n");
    NewlinesAppend(b, body);
    NewlinesAppend(b + body, b);
    var r := b + body + b;
    assert Render(width, height, grid).value == r;
    assert r[|r| - |b|..] == b;
  }
}

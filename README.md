# Labyrinths in Dafny

A model of the maze generator `labyrinths`. A labyrinth is a `height` x `width`
grid of 4-bit passage masks. A set flag says the wall towards that neighbour
has been removed. `src/labyrinth.py` encodes N=1, E=2, S=4 and W=8. Four
carving strategies remove walls from a fresh, all-walled grid:

- recursive backtracking, plus the `carve_more` pass that removes extra walls;
- an iterative depth-first search over an explicit stack of frames;
- the binary-tree algorithm;
- the sidewinder algorithm.

An older, self-contained draft, `src/backtracker.py`, carves with a recursive
backtracker in its own encoding (N=1, S=2, E=4, W=8) and draws the result as
ASCII art.

The model has these modules:

- `Wrappers`: `Option`, `Result` and the error kinds the source raises.
- `Bits`: masks as unbounded integers, a flag test and OR with one flag.
- `Cells`: positions and row lists. It provides shape, indexing, in-place
  update, cell counts and adjacency.
- `Grids`: the grid as a value, with the direction tables, `step`,
  `can_make_passage` and the effect of `make_passage`. It also holds the
  passage invariant and the passage and unvisited counts.
- `Labyrinths`: the class `Labyrinth`. Its methods update the row list in
  place.
- `Randomness`: `randrange`, `choice` and `shuffle`. Each result is
  constrained only to be legal.
- `Traces`: a carve's `make_passage` calls as a ghost list of `Passage`
  values, replayed by `Carved`. It also holds the tree those calls grow and
  paths through it.
- `Spanning`: what a depth-first carve from one cell leaves behind, and why
  that is a perfect maze on a fresh grid.
- `Backtracking`, `DepthFirst`, `BinaryTree`, `Sidewinder`: the four
  carvers, as methods on a `Labyrinth`.
- `RowScan`: what the two row-by-row carvers have in common.
- `Backtracker`: the draft, with its own directions and invariant. Its
  renderer is a pure function, and the loops of `__str__` are proved
  against it.

The four carvers of `src/` return a ghost list of the `make_passage` calls
they made. Each is proved to leave the old grid with that list replayed on
it. The row-by-row carvers also return the decision each cell took, on any
grid, not only a fresh one. The draft's `carve_from` works on its own row
list and is proved against `Carving`, a relation between the rows before and
after that counts its steps and keeps every flag already set. On a fresh grid
of at least two cells, each carver is proved to make exactly
`width * height - 1` passages. `Backtracking.Carve` and
`DepthFirst.Carve` are also proved to reach every cell from the start,
through open passages.

## Model

| member | source | states |
|---|---|---|
| Bits.Or | src/labyrinth.py:264-265 | `m \| flag` sets the flag; it changes `m` exactly when the flag was clear; the result is never 0; a 4-bit mask stays 4-bit |
| Bits.OrKeepsOtherBits | src/labyrinth.py:264-265 | OR with one flag leaves every other flag of any mask as it was |
| Bits.OrIdempotent | src/labyrinth.py:264-265 | OR with the same flag twice is the same as once |
| Cells.Put | src/labyrinth.py:181-184 | assigning one cell keeps the shape of every row and changes that cell only |
| Cells.ListIndex | src/labyrinth.py:176-179 | a Python list index is accepted exactly in `-n <= i < n` and reaches element `i mod n` |
| Grids.Directions | src/labyrinth.py:197-198 | the direction keys are four distinct directions |
| Grids.DirectionsComplete | src/labyrinth.py:193-198 | every direction is among the keys, so `direction_valid` holds for every `Dir` |
| Grids.PermutedDirections | src/labyrinth.py:200-205 | any rearrangement of the keys still lists each direction exactly once |
| Grids.Bit | src/labyrinth.py:121-126 | every direction's mask value is a single flag |
| Grids.BitInjective | src/labyrinth.py:121-126 | different directions have different flags |
| Grids.Dx | src/labyrinth.py:135-140 | the `dx` table: 0 for N and S, 1 for E, -1 for W (its definition) |
| Grids.Dy | src/labyrinth.py:141-146 | the `dy` table: -1 for N, 1 for S, 0 for E and W (its definition) |
| Grids.UnitStep | src/labyrinth.py:135-146 | every direction moves by at most one in each coordinate; only E and W change `x`, only N and S change `y` |
| Grids.Opposite | src/labyrinth.py:128-146 | the opposite differs from the direction, in flag too, and negates its `dx` and `dy` |
| Grids.OppositeInvolution | src/labyrinth.py:128-133 | the opposite of the opposite is the direction itself |
| Grids.Token | src/labyrinth.py:121-126 | the key of each direction is a one-letter string, one of `N`, `E`, `S`, `W` |
| Grids.DirectionValid | src/labyrinth.py:193-195 | a token is valid exactly when it is the token of one of the four directions, N, E, S or W |
| Grids.ParseDirection | src/labyrinth.py:193-195 | a token is accepted exactly when `direction_valid` holds, and reads back as itself |
| Grids.TokenRoundTrip | src/labyrinth.py:193-198 | every direction's token is valid and parses back to that direction |
| Grids.PositionValid | src/labyrinth.py:186-191 | holds exactly when `0 <= x < width && 0 <= y < height` (its definition, through `Inside`) |
| Grids.Neighbour | src/labyrinth.py:222 | the cell `step` aims at, `(x + dx[d], y + dy[d])` (its definition); `Grids.Step` states that it is adjacent |
| Grids.Fresh | src/labyrinth.py:148-162 | the state `__init__` builds: a well-shaped grid whose every cell is 0 (its definition); `Grids.FreshCounts` and `Grids.FreshIsConsistent` state what follows from it |
| Grids.Step | src/labyrinth.py:207-229 | a successful step lands on the grid, on the neighbour of the start in direction `d` |
| Grids.StepSpec | src/labyrinth.py:207-229 | `step` succeeds exactly when both the start and the neighbour are on the grid; an invalid start is `InvalidPosition`; stepping back the opposite way returns the start |
| Grids.DirectionTo | src/labyrinth.py:207-229 | every neighbour on the grid is one `step` away in some direction |
| Grids.CanMakePassage | src/labyrinth.py:231-248 | it errs exactly on an invalid position; otherwise it is true exactly when the step stays on the grid and the flag is not yet set |
| Grids.MakePassage | src/labyrinth.py:250-267 | it fails exactly when `step` fails, with the same error; otherwise it ORs the flag into `p` and the opposite flag into the neighbour, and leaves every other cell unchanged |
| Grids.FreshIsConsistent | src/labyrinth.py:148-162 | an all-zero grid satisfies the passage invariant |
| Grids.SymmetricBothWays | src/labyrinth.py:264-265 | under the invariant, a flag at `p` towards `d` exists exactly when the opposite flag exists at the neighbour |
| Grids.OrKeeps | src/labyrinth.py:264-265 | OR never clears a flag and changes no flag but its own |
| Grids.MakePassageConsistent | src/labyrinth.py:250-267 | `make_passage` preserves the invariant: masks stay in 0..15 and flags stay paired across neighbours |
| Grids.KeptPassage | src/labyrinth.py:264-265 | every flag after `make_passage` other than the two new ones still has its partner |
| Grids.MakePassageIdempotent | src/labyrinth.py:264-265 | repeating `make_passage(p, d)` leaves the grid as the first call left it |
| Grids.CannotMakeIsNoOp | src/labyrinth.py:231-267 | when `can_make_passage` is false, `make_passage` either raises or changes nothing |
| Grids.MakePassageCount | src/labyrinth.py:245-265 | opening a wall that `can_make_passage` allows adds exactly one passage to the grid's count |
| Grids.MakePassageUnvisited | src/labyrinth.py:264-265 | `make_passage` lowers the count of all-walled cells by the number of its two cells that were all-walled |
| Grids.FreshCounts | src/labyrinth.py:148-162 | a fresh grid has no passages and `width * height` all-walled cells |
| Grids.FilledCounts | src/backtracking.py:31-33 | a grid with no all-walled cell has an all-walled count of 0 |
| Labyrinths.Labyrinth.constructor | src/labyrinth.py:148-162 | it keeps the dimensions, defaulting to 10 x 10, and builds `height` rows of `width` zeros |
| Labyrinths.Labyrinth.View | src/labyrinth.py:115-118 | the object's `width`, `height` and `grid` as one `Grid` value (its definition); every method's contract is stated on it |
| Labyrinths.Labyrinth.Get | src/labyrinth.py:176-179 | `self[p]` follows Python list indexing and raises `IndexError` off the lists; on the grid it is the cell |
| Labyrinths.Labyrinth.Set | src/labyrinth.py:181-184 | `self[p] = v` changes that one cell, which then reads `v`; an index error changes nothing |
| Labyrinths.Labyrinth.RandomDirections | src/labyrinth.py:200-205 | the result is a permutation of the four directions |
| Labyrinths.Labyrinth.MakePassage | src/labyrinth.py:250-267 | the two in-place ORs leave the grid equal to `Grids.MakePassage`; a call that raises changes nothing |
| Randomness.RandRange | src/backtracking.py:47 | `randrange(n)` lies in `0..n-1` |
| Randomness.Choice | src/binarytree.py:21-24 | `choice` gives a member of the list, and fails exactly on an empty list |
| Randomness.Shuffle | src/labyrinth.py:203 | `shuffle` permutes the list in place |
| Traces.Apply | src/labyrinth.py:250-267 | one `make_passage` call, raising or not, keeps the grid's shape |
| Traces.Carved | src/labyrinth.py:250-267 | replaying a list of calls keeps the grid's shape |
| Traces.CarvedAppend | src/labyrinth.py:250-267 | replaying two lists of calls one after the other is replaying their concatenation |
| Traces.UnvisitedIsNew | src/backtracking.py:31-32 | calls made only into all-walled cells each open a wall that was closed |
| Traces.IntoUnvisitedIsNew | src/backtracking.py:31-32 | a step into an all-walled neighbour is one `can_make_passage` allows |
| Traces.AllNewCount | src/backtracking.py:50-54 | calls that each open a closed wall keep the invariant and add one passage each |
| Traces.CarvedConsistent | src/labyrinth.py:250-267 | any list of calls keeps the invariant |
| Traces.CarvedGrows | src/labyrinth.py:264-265 | a cell with a passage keeps having one |
| Traces.CarvedKeepsBits | src/labyrinth.py:264-265 | a flag once set stays set |
| Traces.TreeUnvisited | src/backtracking.py:31-33 | a tree of calls into all-walled cells fills the root and one cell per call |
| Traces.ReachedVisited | src/backtracking.py:31-33 | every cell the tree reaches is on the grid and has a passage |
| Traces.VisitedReached | src/backtracking.py:20-33 | on a fresh grid, every cell with a passage after a tree of calls is reached by the tree |
| Traces.TreePath | src/backtracking.py:20-33 | every cell the tree reaches is joined to the root by a path through open passages |
| Traces.TreeConnects | src/backtracking.py:20-33 | every cell the tree reaches is connected to the root |
| Spanning.ExploredNonEmpty | src/backtracking.py:20-33 | from a cell of a fresh grid of two or more cells, the carve makes at least one call |
| Spanning.ExploredClosed | src/backtracking.py:20-33 | after a carve from a fresh grid, no cell with a passage has an all-walled neighbour |
| Spanning.ExploredCovers | src/backtracking.py:20-33 | on a fresh grid of two or more cells, every cell has a passage and is reached from the start |
| Spanning.ExploredCalls | src/backtracking.py:20-33 | such a carve makes exactly `width * height - 1` calls |
| Spanning.ExploredPassages | src/backtracking.py:20-33 | from a fresh grid, the carve keeps the invariant and leaves one passage per call |
| Spanning.ExploredFromFresh | src/backtracking.py:20-33 | the result is a perfect maze: every cell is connected to the start, and there are `width * height - 1` passages |
| Spanning.ProbingSkip | src/backtracking.py:24-31 | an off-grid direction or a visited neighbour is skipped without a call |
| Spanning.CarveOne | src/backtracking.py:31-33 | a passage into an all-walled neighbour of a reached cell grows the tree by exactly that neighbour |
| Spanning.ProbingCarve | src/backtracking.py:31-33 | a passage followed by a complete carve from the neighbour extends the exploration of the start |
| Spanning.ProbingDone | src/backtracking.py:22-33 | once all four directions are probed, every reached cell has no all-walled neighbour |
| Spanning.ExploredKeepsPromise | src/backtracking.py:9-33 | a complete exploration gives a perfect maze whenever it started from a cell of a fresh grid |
| Backtracking.Carve | src/backtracking.py:9-33 | `carve(pos)` starts at `(0, 0)` when no position is given, explores from the start, and never raises the count of all-walled cells; from a fresh grid it leaves a perfect maze |
| Backtracking.Probe | src/backtracking.py:22-33 | one direction of the loop adds that direction to the probed ones without breaking the exploration invariant |
| Backtracking.CarveMore | src/backtracking.py:35-54 | every call opens a closed wall; `walls_to_remove - to_go` are opened; the loop stops with `to_go == 0` unless the fuel runs out; `walls_to_remove` defaults to 0, and `carve_more(0)` changes nothing; the count grows by the number opened |
| DepthFirst.PendingPush | src/depthfirst.py:46-50 | pushing a frame adds its (position, direction) pairs to those pending, and its size to the measure |
| DepthFirst.FramesPush | src/depthfirst.py:22-50 | every frame on the stack is at a reached cell and has no repeated direction |
| DepthFirst.CoveredSkip | src/depthfirst.py:28-36 | dropping a direction that leads off the grid or to a visited cell loses no open direction |
| DepthFirst.CoveredCarve | src/depthfirst.py:42-50 | after a carve, with the rest of the frame pushed back and the new cell's frame on top, every open direction is still pending |
| DepthFirst.CarveKeepsOpen | src/depthfirst.py:42-44 | a direction open after a carve was open before it, and is not the one just carved |
| DepthFirst.ResumeKeeps | src/depthfirst.py:46-47 | pushing back the rest of the frame keeps every pending pair except the one just consumed |
| DepthFirst.CoveredDone | src/depthfirst.py:24-50 | an empty stack means every reached cell has no all-walled neighbour |
| DepthFirst.Pop | src/depthfirst.py:24-26 | popping a frame keeps the search invariant and removes the frame's size from the measure |
| DepthFirst.Skip | src/depthfirst.py:28-36 | skipping a closed direction keeps the invariant |
| DepthFirst.Exhausted | src/depthfirst.py:28 | a frame with no directions left returns to the outer loop with the invariant intact |
| DepthFirst.Advance | src/depthfirst.py:42-50 | a carve into an all-walled neighbour keeps the invariant and lowers the count of all-walled cells |
| DepthFirst.Probe | src/depthfirst.py:28-50 | the inner loop returns to the outer loop with the invariant; it either carved or left the grid unchanged with a smaller stack measure |
| DepthFirst.Carve | src/depthfirst.py:9-50 | the start defaults to `(0, 0)`; the carve explores from the start, and from a fresh grid leaves a perfect maze. The ghost `peak` is at most `1 + width * height`; the loop invariant `Searching` bounds the real stack by `peak` at every pass, which is where the stack bound is proved |
| RowScan.FromsOrigins | src/binarytree.py:12-25 | the cells the calls came from, as a set and as a list, agree |
| RowScan.CallersLength | src/binarytree.py:12-25 | a scan passes one caller per cell, less the top-right cell once it is passed |
| RowScan.CallersMembers | src/binarytree.py:12-25 | the callers are exactly the cells passed, except the top-right one |
| RowScan.CallersTopRow | src/binarytree.py:12-13 | in the top row the callers are the cells from the left edge on |
| RowScan.CallersGrow | src/binarytree.py:12-13 | the callers so far are a prefix of the callers at any later point of the scan |
| RowScan.TopRowFirst | src/binarytree.py:12-13 | past the top row, the callers start with its first `width - 1` cells |
| RowScan.TopRowChain | src/binarytree.py:15-25 | one North-or-East call from each caller starts with the top row's East chain |
| RowScan.UntouchedChoices | src/binarytree.py:15-19 | on a cell with no flag but West, North is allowed exactly below the top row, and East exactly left of the last column |
| RowScan.AheadOf | src/binarytree.py:15-25 | North and East calls from earlier cells add at most the West flag to a cell not yet reached |
| RowScan.FreshAhead | src/binarytree.py:12-25 | on a fresh grid, every cell the scan has not reached carries at most its West flag |
| RowScan.CalledFromFroms | src/binarytree.py:12-25 | one call from each cell passed, in order, lists exactly the callers |
| BinaryTree.InOrderAll | src/binarytree.py:12-13 | the calls are North-or-East openings, made in row-major order |
| BinaryTree.ScanStart | src/binarytree.py:12-13 | the scan starts at `(0, 0)` with no calls made |
| BinaryTree.ScanSkip | src/binarytree.py:21-24 | a cell with no candidate is skipped with the grid unchanged; on a fresh grid that is only the top-right cell |
| BinaryTree.ScanTake | src/binarytree.py:15-25 | a cell with a candidate makes exactly one call in that direction, and never from the top-right cell of a fresh grid |
| BinaryTree.ScanNextRow | src/binarytree.py:12-13 | the end of one row is the start of the next |
| BinaryTree.ScanDone | src/binarytree.py:12-25 | after the scan, the calls are row-major North-or-East openings, each adding one passage. On a fresh grid every cell but the top-right one called once, `width * height - 1` in all, starting with the top row's East chain |
| BinaryTree.DecidedStep | src/binarytree.py:15-25 | a cell's decision, taken on the grid the earlier calls left, extends the record of decisions by one cell |
| BinaryTree.Visit | src/binarytree.py:14-25 | one cell, on any grid: no call exactly when neither North nor East is allowed; otherwise one call, North or East, that `can_make_passage` allows. The scan invariant and the record of decisions move one cell on |
| BinaryTree.CarveRow | src/binarytree.py:13-25 | one row, left to right, keeps the scan invariant and the record of decisions |
| BinaryTree.Carve | src/binarytree.py:9-29 | the whole scan: the grid is the old one with the calls replayed, each opening a closed wall. On a fresh grid the calls come one from every cell but the top-right, giving `width * height - 1` passages, the top row one East chain. On any grid, `Decided` holds: each cell in row-major order made no call exactly when neither North nor East was allowed, and otherwise one allowed North or East call, on the grid the earlier calls left |
| Sidewinder.FreshCallsCount | src/sidewinder.py:11-32 | on a fresh grid the scan makes one call per cell passed, less the top-right one |
| Sidewinder.FreshCallsTopRow | src/sidewinder.py:17-32 | along the top row the calls are East calls from each cell, left to right |
| Sidewinder.FreshCallsBelow | src/sidewinder.py:17-32 | past the top row, the calls start with the top row's East chain |
| Sidewinder.OpeningsLater | src/sidewinder.py:11-13 | openings from cells before one point are openings from cells before any later point |
| Sidewinder.WindStart | src/sidewinder.py:11-12 | the scan starts at `(0, 0)` with an empty run and no calls |
| Sidewinder.FreshAt | src/sidewinder.py:18-24 | on a fresh grid, North is allowed exactly below the top row and East exactly left of the last column |
| Sidewinder.WindNorth | src/sidewinder.py:23-26 | closing the run with a North passage from one of its cells keeps the invariant, with an empty run |
| Sidewinder.WindNoNorth | src/sidewinder.py:23-26 | closing the run when North is refused makes no call and empties the run |
| Sidewinder.WindEast | src/sidewinder.py:30-32 | an East passage from the current cell extends the run by that cell |
| Sidewinder.RunStaysUnopened | src/sidewinder.py:30-32 | an East passage opens North in no cell of the run |
| Sidewinder.WindNoEast | src/sidewinder.py:30 | East refused extends the run with no call, which never happens on a fresh grid |
| Sidewinder.WindNextRow | src/sidewinder.py:11-12 | the end of one row is the start of the next |
| Sidewinder.WindDone | src/sidewinder.py:11-34 | after the scan, the calls are North-or-East openings, each adding one passage. On a fresh grid there are `width * height - 1` calls, starting with the top row's East chain |
| Sidewinder.WindEastFresh | src/sidewinder.py:30-32 | on a fresh grid, the East call extends the run's East calls, and no run cell has a North passage |
| Sidewinder.RefusedAtTopRight | src/sidewinder.py:22-24 | on a fresh grid, closing a run is refused North only at the top-right cell |
| Sidewinder.MemberOfRun | src/sidewinder.py:15-23 | the chosen member is a cell of the current row, from the run's first cell to the current one |
| Sidewinder.TrackStep | src/sidewinder.py:14-32 | one more cell's move and its call, made exactly when `can_make_passage` allowed it, extend the record of moves; the run's length is the count of trailing East moves |
| Sidewinder.TrackNextRow | src/sidewinder.py:11-12 | the record of moves carries over from the end of a row to the start of the next |
| Sidewinder.CloseRun | src/sidewinder.py:22-26 | North is opened from the chosen member exactly when `can_make_passage` allows it; the run is emptied, and the scan invariant and the record move one cell on |
| Sidewinder.ExtendRun | src/sidewinder.py:29-32 | East is opened from the cell exactly when `can_make_passage` allows it; the cell joins the run, and the scan invariant and the record move one cell on |
| Sidewinder.Visit | src/sidewinder.py:14-34 | one cell, on any grid: a close is taken only at the last column or below the top row, from a member of the run including the cell, and empties the run; an East move is taken only short of the last column and adds the cell to the run. The call is made exactly when `can_make_passage` allows it |
| Sidewinder.CarveRow | src/sidewinder.py:12-34 | one row, starting with an empty run, keeps the scan invariant and the record of moves, and ends with an empty run |
| Sidewinder.Carve | src/sidewinder.py:9-34 | the whole scan: the calls replayed on the old grid each open a closed wall, North only below the top row. On a fresh grid there are `width * height - 1` passages, with the top row one East chain, and below it each run's cells make East calls up to the one North call that closes it (`FreshCalls`). On any grid, `Wound` holds: each cell in row-major order made a move the loop makes, and its call exactly when `can_make_passage` allowed it on the grid the earlier calls left |
| Backtracker.Directions | src/backtracker.py:12 | the draft lists four directions |
| Backtracker.ShuffledDirections | src/backtracker.py:70-71 | any rearrangement of the four keys still lists every direction |
| Backtracker.Bit | src/backtracker.py:12 | every value of the draft's direction table is a single flag |
| Backtracker.BitInjective | src/backtracker.py:12 | different directions have different flags |
| Backtracker.Dx | src/backtracker.py:15 | the draft's `dx`: at most one column, and non-zero exactly for E and W |
| Backtracker.Dy | src/backtracker.py:16 | the draft's `dy`: at most one row, and non-zero exactly for N and S |
| Backtracker.Opposite | src/backtracker.py:13-16 | the opposite negates `dx` and `dy` |
| Backtracker.Neighbour | src/backtracker.py:76 | `(x + dx[d], y + dy[d])` is adjacent to `(x, y)` |
| Backtracker.NeighbourBack | src/backtracker.py:13-16 | the opposite is an involution, and stepping back returns to the start |
| Backtracker.DirectionTo | src/backtracker.py:15-16 | every adjacent cell is one step away in some direction |
| Backtracker.FreshIsConsistent | src/backtracker.py:52-66 | an all-zero grid satisfies the draft's passage invariant |
| Backtracker.Dig | src/backtracker.py:83-85 | the two ORs set the flag at the cell and the opposite flag at the neighbour, and change nothing else |
| Backtracker.DigConsistent | src/backtracker.py:79-85 | the two ORs into an all-walled neighbour on the grid preserve the invariant |
| Backtracker.DugKept | src/backtracker.py:83-85 | every flag after the ORs has its partner across the neighbour |
| Backtracker.DigCount | src/backtracker.py:79-85 | the two ORs into an all-walled neighbour add exactly one passage |
| Backtracker.DigFills | src/backtracker.py:81-85 | the two ORs fill the all-walled neighbour, and the cell itself if it was all-walled |
| Backtracker.FilledCompose | src/backtracker.py:74-88 | cells left with no all-walled neighbour stay so as the carve goes on |
| Backtracker.StaysFilled | src/backtracker.py:74-88 | a neighbour filled before a later carve stays filled |
| Backtracker.CarvingCompose | src/backtracker.py:74-88 | two carves from the same cell, one after the other, form one carve whose step counts add |
| Backtracker.ProbingStep | src/backtracker.py:74-88 | each pass of the loop keeps the carve invariant and fills the probed neighbour |
| Backtracker.ProbingDone | src/backtracker.py:74-88 | after the four directions, no neighbour of the start is all-walled |
| Backtracker.ProbeCarving | src/backtracker.py:79-88 | the ORs followed by a complete recursive carve from the neighbour are one carve from the cell, one step longer, which sets the flag towards the neighbour at the cell and the opposite flag at the neighbour |
| Backtracker.FilledEverywhere | src/backtracker.py:68-88 | when no filled cell has an all-walled neighbour and the start is filled, every cell is filled |
| Backtracker.FreshCarveSpans | src/backtracker.py:68-88 | from a cell of a fresh grid of two or more cells, the carve fills every cell with `width * height - 1` steps and passages |
| Backtracker.Labyrinth.constructor | src/backtracker.py:52-66 | it keeps the dimensions, defaulting to 10 x 10, and builds `height` rows of `width` zeros |
| Backtracker.DigKeepsFlags | src/backtracker.py:83-85 | the two ORs keep every flag already set |
| Backtracker.Labyrinth.CarveFrom | src/backtracker.py:68-88 | `carve_from`, from `(0, 0)` by default, fills only all-walled cells, one per step, keeps every flag already set, and keeps the invariant. It leaves no all-walled neighbour of the start. From a fresh grid it fills every cell with `width * height - 1` passages |
| Backtracker.Labyrinth.Probe | src/backtracker.py:74-88 | one direction: it carves exactly when the neighbour is on the grid and all-walled, and then sets the flag towards it at the cell and the opposite flag at the neighbour; either way that neighbour is left filled and every earlier flag stays set |
| Backtracker.Labyrinth.Show | src/backtracker.py:18-50 | `str(self)` is the rendering function: the border, one numbered line per row, the border again, or the `IndexError` |
| Backtracker.DrawRow | src/backtracker.py:36-47 | the cell loop builds exactly the two characters per cell that `Walls` defines |
| Backtracker.Dashes | src/backtracker.py:31 | `"-" * n` is `max(n, 0)` dashes |
| Backtracker.Digit | src/backtracker.py:33 | a digit below 10 is a decimal digit character |
| Backtracker.Decimal | src/backtracker.py:33 | `str(y)` is a non-empty string of digits, with a leading `0` only for 0 |
| Backtracker.DecimalRoundTrip | src/backtracker.py:33 | reading the digits of `str(y)` back gives `y` |
| Backtracker.Border | src/backtracker.py:31 | the top and bottom line: `2 * width + 3` dashes (two for a non-positive width) and a newline |
| Backtracker.CellText | src/backtracker.py:37-47 | one cell: it fails, with `IndexError`, exactly when the last cell of the row has the East flag; otherwise two characters, the second `\|` exactly when the East flag is clear |
| Backtracker.Walls | src/backtracker.py:36-47 | the only failure of a row is `IndexError` |
| Backtracker.Line | src/backtracker.py:33-48 | a row line fails only with `IndexError` |
| Backtracker.Lines | src/backtracker.py:32-48 | the row lines fail only with `IndexError` |
| Backtracker.Render | src/backtracker.py:18-50 | `__str__` fails only with `IndexError` |
| Backtracker.LinesErr | src/backtracker.py:32-48 | once one row fails, all later prefixes fail too |
| Backtracker.WallsOk | src/backtracker.py:43-47 | a row draws exactly when its last cell has no East flag |
| Backtracker.LinesOk | src/backtracker.py:32-48 | the rows draw exactly when no last cell has an East flag |
| Backtracker.RenderOk | src/backtracker.py:43-44 | `__str__` succeeds exactly when no row's last cell has an East flag |
| Backtracker.EastHasNeighbour | src/backtracker.py:43-45 | under the invariant, an East flag has a cell to its East |
| Backtracker.ConsistentRenders | src/backtracker.py:43-45 | under the invariant, and so after any carve, `__str__` never raises |
| Backtracker.WallsText | src/backtracker.py:36-47 | a row's text has two characters per cell: the first is ` ` when the South flag is set and `-` otherwise; the second is `\|` exactly when the East flag is clear, and otherwise ` ` when the cell or its East neighbour has the South flag and `-` when neither has; there is no newline |
| Backtracker.NewlinesAppend | src/backtracker.py:31-49 | the newlines of a concatenation add up |
| Backtracker.LineNewlines | src/backtracker.py:33-48 | each row line holds exactly one newline |
| Backtracker.LinesNewlines | src/backtracker.py:32-48 | the row lines hold one newline per row |
| Backtracker.RenderLines | src/backtracker.py:31-49 | the output has `height + 2` lines; it starts and ends with the border, which is `"--"` plus `2 * width + 1` dashes and a newline |

## Left out

- `src/labyrinth.py`: the `__repr__` dump (lines 164-174) is not modelled. Neither is the commented-out pygame drawing code (lines 4-104).
- The `show` observer callbacks of the depth-first, sidewinder and binary-tree carvers are rendering hooks. The model treats them as absent.
- The `if __name__ == "__main__"` blocks, `src/labyrinth_painter.py` and `demo.py` are only I/O and wiring.
- `shuffle`, `choice` and `randrange` are constrained only to legal results. Their probabilities are not modelled.
- Python's recursion depth limit on large grids is not modelled.
- `step`, `can_make_passage` and `make_passage` raise `ValueError` for an invalid direction. Directions are a datatype, so that branch cannot be reached in the model. The token check of `direction_valid` is modelled separately, as `Grids.ParseDirection`.
- `Backtracking.CarveMore`: the source retries forever, and never stops for a negative count or when too few walls remain. The model takes a `fuel` bound on the number of tries and proves what holds when it stops.
- `Backtracking.CarveMore`: requires a grid with cells whenever walls are to be removed, where Python's `randrange(0)` would raise `ValueError`.
- `Backtracking.Carve` and `DepthFirst.Carve` take the start as an `Option`. Python's `if not pos` also resets an empty tuple to `(0, 0)`; the model does not cover that case.
- Nested loops are split into methods: `BinaryTree.Visit` and `BinaryTree.CarveRow`, `Sidewinder.Visit`, `Sidewinder.CloseRun`, `Sidewinder.ExtendRun` and `Sidewinder.CarveRow`, `DepthFirst.Probe`, `Backtracking.Probe`, `Backtracker.Labyrinth.Probe` and `Backtracker.DrawRow`. Each one is one body of the source's loop.
- `BinaryTree.Carve` and `Sidewinder.Carve` prove the passage count and the top-row chain on a fresh grid. They do not prove that every cell is reachable.
- `Backtracker.Labyrinth.CarveFrom`: requires a start on the grid, or a grid with no cells. Python's behaviour from a cell off the grid is not modelled: negative indices wrap, or `IndexError` is raised.
- `Backtracker.CellText` tests the South flag of `el | grid[y][x + 1]` as the OR of the flag in each of the two masks. The two are equal for a single flag.
- `Backtracker.Labyrinth.Show` builds each row line, then appends it, where the source appends piece by piece. The resulting string is the same.
- Masks are unbounded integers, as Python's are. The invariant keeps them in 0..15.

# PathFinder search engine, modelled in Dafny

This project models the grid path finder in `api/PathFinder.py`: a map is a
list of text rows with a border of `+`, `-` and `|`, a start `S`, a goal `G`,
walls `X` and open cells ` `. The model covers:

- **the `SearchMap` state** (module `SearchMap`, with `Grids` and `Python`): locating the
  first `S` and `G` in row-major order, replaying a direction path onto the
  grid (each cell stepped onto becomes `.`), the cost (path length) and the
  straight-line heuristic, kept as a squared distance;
- **`buildMap`** (module `BuildMap`): the argument checks with their messages,
  the blank bordered map and the `S`, `G`, `X` stamps with Python's slice
  semantics, including out-of-range coordinates;
- **`validateMap`** (module `Validator`): corners, then edges, then markers,
  with the message of the first failing check;
- **`expand`** (module `Expander`): the four `# check` blocks in the order
  north, south, west, east, with their asymmetric bounds tests and the
  IndexError a block can raise;
- **`findPath`** (modules `PathFinder`, `StableSort`, `Sequences`): the
  strategy check, validation, the frontier as a queue (breadth-first,
  best-first, a-star) or a stack (depth-first), the visited cells, the
  stable re-sort for a-star and best-first, and writing `G` back into the
  solved map.

Module `Reach` relates the engine to the map as a graph. A `Board` is a
validated rectangular map with its start and goal. A move is allowed when
`expand`'s test passes with nothing visited, and the goal is `Reachable` when
some path of allowed moves leads there. The main results are:

- `FindPath` returns a `Solution` exactly when the goal is reachable, and
  returns no path exactly when it is not.
- A `Solution` is a non-empty path of allowed moves from the start to the
  goal. It never revisits a cell or the start. It is drawn as `.` on every
  cell crossed before the goal, with `G` restored and every other cell as on
  the map.
- The loop terminates, because unvisited cells plus frontier states drop by
  one each round.

## Model

| member | source | states |
|---|---|---|
| Grids.Find | api/PathFinder.py:56-57 | `str.find`: -1 exactly when the character is absent, otherwise the index of its first occurrence |
| Grids.Locate | api/PathFinder.py:49-71 | `__start`/`__goal`: no position (the `[-1]` sentinel) exactly when no row holds the marker, otherwise the first occurrence in the first row holding it |
| Grids.LocateFirst | api/PathFinder.py:54-59 | any position that is the first occurrence in row-major order is the one located |
| Grids.WalkDisplacement | api/PathFinder.py:40-44 | replaying a path moves the row by the count of south minus north steps and the column by east minus west, per the `directions` table |
| Python.SpliceInside | api/PathFinder.py:45-46 | rewriting one character through slices of a row, at an index inside the row, changes exactly that character and keeps the length |
| SearchMap.Draw | api/PathFinder.py:36-47 | the replay raises IndexError exactly when a stepped row index is out of Python's range; otherwise the row count is kept and the position ends at the walk's end |
| SearchMap.DrawInside | api/PathFinder.py:36-47 | on a rectangular map with every step inside, the replayed map keeps its shape and holds `.` exactly on the stepped cells, every other cell unchanged |
| SearchMap.MakeState | api/PathFinder.py:17-26 | the constructor fails exactly when the replay raises; otherwise path as given, cost = path length, start and goal located, current position = end of walk (none without a start), heuristic from it |
| SearchMap.HeuristicAdmissible | api/PathFinder.py:77-86 | the squared straight-line distance covered by a path is at most the square of its length: a straight line is never longer than a walk of unit moves |
| SearchMap.StateAdmissible | api/PathFinder.py:24-26 | a constructed state's heuristic never exceeds the length of any path from its current cell to the goal (both squared); it is not bounded by the cost already paid, which is 0 for the initial state |
| BuildMap.Build | api/PathFinder.py:100-132 | the four ValueErrors in the Python code's order and with its messages, exactly when an argument check fails; a built state has an empty path, cost 0, current position = start, and start and goal located on the built map |
| BuildMap.BlankCells | api/PathFinder.py:111-118 | the blank map is `height` rows of `width` characters, `+`/`-` on the top and bottom rows, `|`/` ` elsewhere |
| BuildMap.PutAllInside | api/PathFinder.py:122-123 | stamping in-range walls changes exactly the walled cells to `X` and keeps the shape |
| BuildMap.BuildInside | api/PathFinder.py:111-123 | for in-range coordinates, building succeeds, and each cell is `X` if walled, else `G` at the end, else `S` at the start, else the frame: later stamps win |
| BuildMap.BuildMarkers | api/PathFinder.py:119-127 | with distinct, uncovered start and end, the state's start and goal are the given `[x, y]` turned into (row, column) |
| BuildMap.BuildValid | api/PathFinder.py:100-132 | a map built with every stamp strictly inside the border and both markers uncovered passes `validateMap` |
| Validator.CheckEdges | api/PathFinder.py:171-179 | the edge loop passes exactly when no row is bad, and otherwise reports the message of the first bad row |
| Validator.DashesOnlyAt | api/PathFinder.py:174-176 | the inner loop over a top or bottom row passes exactly when every character between the corners is `-` |
| Validator.Validate | api/PathFinder.py:160-183 | valid exactly when the corners are `+`, no row is bad and both markers are found; otherwise the message of the first failing check, corners before edges before markers |
| Expander.TryCell | api/PathFinder.py:138-157 | one `# check` block, when the parent's row and the target cell exist: the test never raises, and a child is built exactly when the target is outside row 0 (north) or column 0 (west), unvisited, and blank or `G`; the block raises only if that child's own replay does |
| Expander.ExpandFails | api/PathFinder.py:134-158 | `expand` raises exactly when there is no current position or some block raises |
| Expander.ExpandChildren | api/PathFinder.py:134-158 | at most four children, each extending the parent's path by one admitted direction, in north, south, west, east order |
| Expander.ExpandComplete | api/PathFinder.py:134-158 | every admitted direction yields a child |
| Reach.AdmitDotted | api/PathFinder.py:139-154 | on a searched state's drawn map, `expand`'s test never raises and passes exactly when the move is allowed on the original map and the target is not visited |
| Reach.LocateDotted | api/PathFinder.py:21-22 | a child locates its start and goal on the parent's drawn map, which still shows them at their original cells |
| Reach.ChildSolution | api/PathFinder.py:211-215 | a child standing on the goal, with `G` written back, is a solution |
| Reach.Restore | api/PathFinder.py:213-215 | writing `G` back changes only the grid, and in it only the goal row, which becomes the old row with `G` at the goal's column |
| Reach.ExpandOk | api/PathFinder.py:134-158 | `expand` never raises on a state of the search |
| Reach.ExpandKids | api/PathFinder.py:134-158 | every child is on an unvisited cell of the board and is either a state of the search or, with `G` restored, a solution |
| Reach.ExpandDistinct | api/PathFinder.py:134-158 | sibling children stand on pairwise different cells |
| Reach.ExpandCovers | api/PathFinder.py:134-158 | every allowed move to an unvisited cell yields a child on that cell |
| Reach.InitialGood | api/PathFinder.py:17-26 | the map's own state, with an empty path, is a state of the search |
| Reach.Unreachable | api/PathFinder.py:203-233 | if the start is visited, the goal is not, every visited cell was expanded, and every allowed move out of an expanded cell is visited, then the goal is unreachable |
| Reach.SolutionReaches | api/PathFinder.py:209-214 | a solution is a witness that the goal is reachable |
| StableSort.SortBySorted | api/PathFinder.py:228-231 | `sorted` returns its keys in ascending order |
| StableSort.SortByPermutes | api/PathFinder.py:228-231 | `sorted` returns a permutation of its input |
| StableSort.SortByStable | api/PathFinder.py:228-231 | `sorted` keeps the input order among elements of equal key |
| StableSort.SortByMonotone | api/PathFinder.py:230-231 | sorting by a strictly increasing function of a key gives the same list as sorting by the key |
| PathFinder.ParseStrategy | api/PathFinder.py:190-192 | a name is accepted exactly when it is one of the four search types, and then names that type |
| PathFinder.ParseName | api/PathFinder.py:190-192 | each of the four search types is accepted under its own name |
| PathFinder.Reorder | api/PathFinder.py:228-231 | a-star and best-first reorder the frontier into a permutation sorted by their key; the others leave it as is |
| PathFinder.ReorderStable | api/PathFinder.py:228-231 | the reorder keeps frontier states of equal key in the order they joined |
| PathFinder.BestFirstRoot | api/PathFinder.py:230-231 | sorting best-first on the square root of the squared distance gives the same frontier as sorting on the squared distance |
| PathFinder.Absorb | api/PathFinder.py:210-226 | the inner loop stops exactly when some child stands on the goal, and returns the first such child with `G` restored |
| PathFinder.AbsorbQueue | api/PathFinder.py:221-223 | without a goal child, the queue-based types append the children in order behind the frontier |
| PathFinder.AbsorbStack | api/PathFinder.py:224-225 | without a goal child, depth-first leaves the children reversed in front of the frontier |
| PathFinder.AbsorbVisits | api/PathFinder.py:226 | without a goal child, the visited cells grow by exactly the children's cells |
| PathFinder.AbsorbSolves | api/PathFinder.py:209-214 | what the inner loop returns on the goal is a solution |
| PathFinder.AbsorbFrontier | api/PathFinder.py:221-226 | the frontier grows by one state per child, and its cells grow by exactly the newly visited cells |
| PathFinder.AbsorbCells | api/PathFinder.py:226 | each child visits one new cell of the board |
| PathFinder.RoundKeeps | api/PathFinder.py:203-231 | a round without a goal child keeps the search invariant and lowers unvisited cells plus frontier states |
| PathFinder.Round | api/PathFinder.py:203-231 | one round either returns a solution or restores the invariant with a smaller measure |
| PathFinder.SearchEnds | api/PathFinder.py:233 | when the frontier runs dry, the goal is unreachable |
| PathFinder.Search | api/PathFinder.py:198-233 | the loop returns a solution, or nothing only when the goal is unreachable |
| PathFinder.FindPath | api/PathFinder.py:185-233 | unknown search type raises with its message, before validation; an invalid map raises with the validator's message; otherwise the result is a solution when the goal is reachable and `None` when it is not |

## Left out

- `readMap` and `main` are left out. They read a file and the command line, which is I/O. `FindPath` takes the map as rows, with an empty path, which is what `readMap` and `buildMap` produce.
- `__str__` and every `print` are left out. This includes the debug progress output and the stray `print('bottom')`. They only write to the console.
- The expansion counter `num_expansions` is left out; it is only ever printed.
- `api/app.py` is not part of this model. It is an HTTP wrapper around `buildMap` and `findPath`.
- The floating-point heuristic `sqrt(...)` is not modelled. The state keeps the squared distance instead.
  - Best-first sorts on the squared distance; `PathFinder.BestFirstRoot` shows that this gives the same order as sorting on any strictly increasing root.
  - The a-star key `cost + sqrt(h)` is a parameter `combine(cost, h)` of the search. Its floating-point rounding is not modelled.
- Aliasing is not modelled. `__drawPath` binds `pos` to `self.start` and moves it, so a state built with a non-empty path has its `start` attribute aliased to `curr_pos`. The model keeps positions as values: every state's `start` is the located start. This is visible only in the `start` attribute of a returned solution, and no part of `findPath` reads it.
- The constructor's shared mutable default arguments are not modelled, for the same reason.
- Ragged and empty maps are not modelled. `Validator.Validate` and `PathFinder.FindPath` require a non-empty map whose rows all have the same length. `validateMap` does not check this, and on such maps the Python code's indexing depends on row lengths the model does not track.
- Path entries other than the four direction names cannot be written. They raise KeyError in the Python code; the model's `Dir` type has exactly those four values.
- PathFinder.FindPath: states that a returned path is a solution and that `None` means the goal is unreachable. It does not state which solution each search type returns (for example that breadth-first finds a shortest one). The per-type frontier discipline is stated separately by `Reorder`, `AbsorbQueue` and `AbsorbStack`.

/** What the search explores: moves on the undrawn map, the paths they
    form, and the shape every state on the frontier keeps. These are the
    notions `findPath`'s result is stated in. */
module Reach {
  import opened Wrappers
  import opened Grids
  import opened SearchMap
  import opened Expander
  import Python

  /** A validated map with its dimensions and the start and goal that
      `__start` and `__goal` located on it. */
  datatype Board = Board(plan: Grid, height: nat, width: nat, start: Pos, goal: Pos)

  predicate Ready(b: Board)
  {
    b.height > 0 && b.width > 0 && Rectangular(b.plan, b.height, b.width)
    && Locate(b.plan, 'S') == Some(b.start) && Locate(b.plan, 'G') == Some(b.goal)
  }

  /** A move from `p` that `expand`'s test for `d` allows on the undrawn
      map when nothing has been visited yet. */
  predicate Move(g: Grid, p: Pos, d: Dir)
  {
    Admit(g, {}, p, d) == Some(true)
  }

  /** Every move of `path`, replayed from `p`, is allowed. */
  predicate Walkable(g: Grid, p: Pos, path: seq<Dir>)
    decreases |path|
  {
    |path| == 0 ||
    (Walkable(g, p, path[..|path| - 1]) && Move(g, Walk(p, path[..|path| - 1]), path[|path| - 1]))
  }

  /** Some sequence of allowed moves leads from the start to the goal. */
  ghost predicate Reachable(b: Board)
  {
    exists path :: Walkable(b.plan, b.start, path) && Walk(b.start, path) == b.goal
  }

  /** `g` is the map with exactly the cells of `t` overwritten by '.'. */
  ghost predicate Dotted(b: Board, g: Grid, t: seq<Pos>)
  {
    Rectangular(b.plan, b.height, b.width) && Rectangular(g, b.height, b.width) &&
    forall r, c :: 0 <= r < b.height && 0 <= c < b.width ==>
      g[r][c] == if Pos(r, c) in t then '.' else b.plan[r][c]
  }

  predicate Distinct(t: seq<Pos>)
  {
    forall i, j :: 0 <= i < j < |t| ==> t[i] != t[j]
  }

  predicate AllInside(b: Board, t: seq<Pos>)
  {
    forall i :: 0 <= i < |t| ==> Inside(t[i], b.height, b.width)
  }

  predicate Covered(t: seq<Pos>, visited: set<Pos>)
  {
    forall i :: 0 <= i < |t| ==> t[i] in visited
  }

  /** The shape of every state the search creates before reaching the
      goal: located on the board's start and goal, standing where its path
      leads, a path of allowed moves that never revisits a cell nor the
      start and has not touched the goal, drawn onto its own copy of the map. */
  ghost predicate Good(b: Board, s: State)
  {
    var t := Trace(b.start, s.path);
    s.start == Some(b.start) && s.goal == Some(b.goal) && s.curr == Some(Walk(b.start, s.path))
    && s.cost == |s.path| && Walkable(b.plan, b.start, s.path)
    && Dotted(b, s.grid, t) && AllInside(b, t) && Distinct(t) && b.start !in t && b.goal !in t
  }

  /** The goal written back into a state's map, as `findPath` does before
      returning it. */
  function Restore(m: State, goal: Pos): (r: State)
    requires 0 <= goal.row < |m.grid|
    ensures r == m.(grid := r.grid)
    ensures |r.grid| == |m.grid| && forall i :: 0 <= i < |m.grid| && i != goal.row ==> r.grid[i] == m.grid[i]
    ensures 0 <= goal.col < |m.grid[goal.row]| ==> r.grid[goal.row] == m.grid[goal.row][goal.col := 'G']
  {
    var line := m.grid[goal.row];
    var r := m.(grid := m.grid[goal.row := Python.Splice(line, goal.col, 'G', |line|)]);
    assert 0 <= goal.col < |line| ==> r.grid[goal.row] == line[goal.col := 'G'] by {
      if 0 <= goal.col < |line| {
        Python.SpliceInside(line, goal.col, 'G', |line|);
      }
    }
    r
  }

  /** What `findPath` returns on success: a non-empty path of allowed moves
      from the start to the goal that never revisits a cell nor the start,
      drawn as '.' on every cell it crossed before the goal, with the goal
      and every other cell as on the map. */
  ghost predicate Solution(b: Board, m: State)
  {
    var t := Trace(b.start, m.path);
    |m.path| > 0 && m.curr == Some(b.goal) && Walk(b.start, m.path) == b.goal
    && Walkable(b.plan, b.start, m.path) && Distinct(t) && b.start !in t
    && m.start == Some(b.start) && m.cost == |m.path|
    && Dotted(b, m.grid, t[..|t| - 1])
  }

  lemma ReadyInside(b: Board)
    requires Ready(b)
    ensures Inside(b.start, b.height, b.width) && Inside(b.goal, b.height, b.width)
    ensures b.start != b.goal
    ensures b.plan[b.start.row][b.start.col] == 'S' && b.plan[b.goal.row][b.goal.col] == 'G'
  {
    assert HasAt(b.plan, 'S', b.start) && HasAt(b.plan, 'G', b.goal);
  }

  /** On a map drawn with cells that are all visited, `expand`'s test from a
      cell inside the map never raises, and passes exactly for an allowed
      move to an unvisited cell, which lies inside the map. */
  lemma AdmitDotted(b: Board, g: Grid, t: seq<Pos>, v: set<Pos>, p: Pos, d: Dir)
    requires Ready(b) && Dotted(b, g, t) && Covered(t, v) && Inside(p, b.height, b.width)
    ensures Admit(g, v, p, d).Some? && Admit(b.plan, {}, p, d).Some?
    ensures Admit(g, v, p, d) == Some(true) <==> Move(b.plan, p, d) && Step(p, d) !in v
    ensures Move(b.plan, p, d) ==> Inside(Step(p, d), b.height, b.width)
  {
    var q := Step(p, d);
    assert |g[p.row]| == |b.plan[p.row]| == b.width;
    assert BoundOk(g, p, d) == BoundOk(b.plan, p, d);
    if BoundOk(g, p, d) == Some(true) {
      StepInside(b, p, d);
      if q !in v {
        DottedCell(b, g, t, q);
        CellAdmit(g, v, p, d);
        CellAdmit(b.plan, {}, p, d);
      } else {
        CellAdmit(b.plan, {}, p, d);
      }
    }
  }

  /** Once the bounds test passes and the target cell exists, `expand`'s test
      is whether the cell is open and unvisited. */
  lemma CellAdmit(g: Grid, v: set<Pos>, p: Pos, d: Dir)
    requires BoundOk(g, p, d) == Some(true)
    requires 0 <= Step(p, d).row < |g| && 0 <= Step(p, d).col < |g[Step(p, d).row]|
    ensures Admit(g, v, p, d) == Some(Step(p, d) !in v && Open(g[Step(p, d).row][Step(p, d).col]))
  {
  }

  /** A move whose bounds test passes from inside the map stays inside. */
  lemma StepInside(b: Board, p: Pos, d: Dir)
    requires Ready(b) && Inside(p, b.height, b.width) && BoundOk(b.plan, p, d) == Some(true)
    ensures Inside(Step(p, d), b.height, b.width)
  {
    assert |b.plan[p.row]| == b.width;
  }

  /** A cell off the drawn trace holds what the map holds. */
  lemma DottedCell(b: Board, g: Grid, t: seq<Pos>, q: Pos)
    requires Dotted(b, g, t) && Inside(q, b.height, b.width) && q !in t
    ensures g[q.row][q.col] == b.plan[q.row][q.col]
  {
  }

  /** Extending a path by one move: the walk takes one more step, the trace
      gains the cell it lands on, and the path stays allowed exactly when
      that move is. */
  lemma WalkSnoc(g: Grid, p: Pos, path: seq<Dir>, d: Dir)
    ensures Walk(p, path + [d]) == Step(Walk(p, path), d)
    ensures Trace(p, path + [d]) == Trace(p, path) + [Step(Walk(p, path), d)]
    ensures Walkable(g, p, path + [d]) <==> Walkable(g, p, path) && Move(g, Walk(p, path), d)
  {
    assert (path + [d])[..|path|] == path;
  }

  /** The current position is the start or the last cell of the trace. */
  lemma WalkInTrace(p: Pos, path: seq<Dir>)
    requires |path| > 0
    ensures Walk(p, path) == Trace(p, path)[|path| - 1]
  {
  }

  lemma CurrInside(b: Board, s: State)
    requires Ready(b) && Good(b, s)
    ensures Inside(Walk(b.start, s.path), b.height, b.width)
    ensures Walk(b.start, s.path) == b.start || Walk(b.start, s.path) in Trace(b.start, s.path)
  {
    ReadyInside(b);
    if |s.path| > 0 {
      WalkInTrace(b.start, s.path);
    }
  }

  lemma CoveredSnoc(t: seq<Pos>, q: Pos, v: set<Pos>)
    requires Covered(t, v)
    ensures Covered(t + [q], v + {q})
  {
  }

  lemma DistinctSnoc(t: seq<Pos>, q: Pos)
    requires Distinct(t) && q !in t
    ensures Distinct(t + [q])
  {
  }

  /** Drawing cells never moves the first occurrence of a character other
      than '.' while that occurrence is not drawn over. */
  lemma LocateDotted(b: Board, g: Grid, t: seq<Pos>, ch: char)
    requires Dotted(b, g, t) && ch != '.'
    requires Locate(b.plan, ch).Some? && Locate(b.plan, ch).value !in t
    ensures Locate(g, ch) == Locate(b.plan, ch)
  {
    var l := Locate(b.plan, ch).value;
    assert HasAt(b.plan, ch, l);
    forall q | HasAt(g, ch, q) ensures HasAt(b.plan, ch, q) {
      assert Pos(q.row, q.col) == q;
    }
    LocateKept(b.plan, g, ch);
  }

  /** A child `expand` spawns from a state of the search: one allowed move
      further, onto an unvisited cell inside the map, with the start and
      the goal still where they were (both are located on the parent's map,
      before the child's own path is drawn). */
  lemma ChildStep(b: Board, s: State, v: set<Pos>, d: Dir, k: State)
    requires Ready(b) && Good(b, s) && Covered(Trace(b.start, s.path), v) && b.start in v
    requires Spawned(s, v, d, k)
    ensures var P := Walk(b.start, s.path); var q := Step(P, d);
      k.path == s.path + [d] && k.curr == Some(q) && q !in v && Inside(q, b.height, b.width)
      && Move(b.plan, P, d) && k.start == Some(b.start) && k.cost == |k.path|
      && Walkable(b.plan, b.start, k.path) && Trace(b.start, k.path) == Trace(b.start, s.path) + [q]
      && k.goal == Some(b.goal)
  {
    var t := Trace(b.start, s.path);
    var P := Walk(b.start, s.path);
    CurrInside(b, s);
    AdmitDotted(b, s.grid, t, v, P, d);
    WalkSnoc(b.plan, b.start, s.path, d);
    LocateDotted(b, s.grid, t, 'S');
    LocateDotted(b, s.grid, t, 'G');
  }

  /** Drawing a path one move longer onto a map already drawn with the
      shorter path draws exactly the longer path's cells. */
  lemma DrawnAgain(b: Board, g: Grid, p: Pos, path: seq<Dir>, d: Dir)
    requires Dotted(b, g, Trace(p, path)) && AllInside(b, Trace(p, path + [d]))
    ensures Draw(g, p, path + [d]).Some?
    ensures Dotted(b, Draw(g, p, path + [d]).value.0, Trace(p, path + [d]))
  {
    var t' := Trace(p, path + [d]);
    WalkSnoc(b.plan, p, path, d);
    DrawInside(g, b.height, b.width, p, path + [d]);
    var g' := Draw(g, p, path + [d]).value.0;
    forall r, c | 0 <= r < b.height && 0 <= c < b.width
      ensures g'[r][c] == if Pos(r, c) in t' then '.' else b.plan[r][c]
    {
      assert Pos(r, c) in t' <==> Pos(r, c) in Trace(p, path) || Pos(r, c) == t'[|path|];
    }
  }

  /** Together: the child is drawn with its whole trace, which stays inside
      the map, never repeats a cell and never returns to the start. */
  lemma ChildShape(b: Board, s: State, v: set<Pos>, d: Dir, k: State)
    requires Ready(b) && Good(b, s) && Covered(Trace(b.start, s.path), v) && b.start in v
    requires Spawned(s, v, d, k)
    ensures Dotted(b, k.grid, Trace(b.start, k.path)) && AllInside(b, Trace(b.start, k.path))
    ensures Distinct(Trace(b.start, k.path)) && b.start !in Trace(b.start, k.path)
  {
    ChildStep(b, s, v, d, k);
    var t := Trace(b.start, s.path);
    var q := Step(Walk(b.start, s.path), d);
    assert AllInside(b, t + [q]);
    DrawnAgain(b, s.grid, b.start, s.path, d);
    DistinctSnoc(t, q);
  }

  /** A child that has not reached the goal has the shape of a search state. */
  lemma ChildGood(b: Board, s: State, v: set<Pos>, d: Dir, k: State)
    requires Ready(b) && Good(b, s) && Covered(Trace(b.start, s.path), v) && b.start in v
    requires Spawned(s, v, d, k) && k.curr != Some(b.goal)
    ensures Good(b, k)
  {
    ChildStep(b, s, v, d, k);
    ChildShape(b, s, v, d, k);
  }

  /** A child that has reached the goal, with the goal written back, is a
      solution. */
  lemma ChildSolution(b: Board, s: State, v: set<Pos>, d: Dir, k: State)
    requires Ready(b) && Good(b, s) && Covered(Trace(b.start, s.path), v) && b.start in v
    requires Spawned(s, v, d, k) && k.curr == Some(b.goal)
    ensures 0 <= b.goal.row < |k.grid| && Solution(b, Restore(k, b.goal))
  {
    ChildStep(b, s, v, d, k);
    ChildShape(b, s, v, d, k);
    var t' := Trace(b.start, k.path);
    assert t' == t'[..|t'| - 1] + [b.goal];
    RestoreDotted(b, k, t'[..|t'| - 1]);
  }

  /** Writing the goal back onto a map drawn up to and including the goal
      leaves it drawn with the cells before the goal. */
  lemma RestoreDotted(b: Board, m: State, t: seq<Pos>)
    requires Ready(b) && Dotted(b, m.grid, t + [b.goal]) && b.goal !in t
    ensures 0 <= b.goal.row < |m.grid| && Dotted(b, Restore(m, b.goal).grid, t)
  {
    ReadyInside(b);
    var line := m.grid[b.goal.row];
    Python.SpliceInside(line, b.goal.col, 'G', |line|);
    var g := Restore(m, b.goal).grid;
    assert g == m.grid[b.goal.row := line[b.goal.col := 'G']];
    forall r, c | 0 <= r < b.height && 0 <= c < b.width
      ensures g[r][c] == if Pos(r, c) in t then '.' else b.plan[r][c]
    {
      assert Pos(r, c) in t + [b.goal] <==> Pos(r, c) in t || Pos(r, c) == b.goal;
    }
  }

  /** Each child `expand` spawns from a state of the search is a fresh cell,
      and either a state of the search or a solution. */
  lemma SpawnedChild(b: Board, s: State, v: set<Pos>, d: Dir, k: State)
    requires Ready(b) && Good(b, s) && Covered(Trace(b.start, s.path), v) && b.start in v
    requires Spawned(s, v, d, k)
    ensures Child(b, v, k)
  {
    ChildStep(b, s, v, d, k);
    ChildShape(b, s, v, d, k);
    var q := k.curr.value;
    CoveredSnoc(Trace(b.start, s.path), q, v);
    if k.curr == Some(b.goal) {
      ChildSolution(b, s, v, d, k);
    } else {
      ChildGood(b, s, v, d, k);
    }
  }

  /** What the search needs to know of each child `expand` returns. */
  ghost predicate Child(b: Board, v: set<Pos>, k: State)
  {
    k.curr.Some? && k.curr.value !in v && Inside(k.curr.value, b.height, b.width)
    && |k.grid| == b.height && Covered(Trace(b.start, k.path), v + {k.curr.value})
    && (k.curr != Some(b.goal) ==> Good(b, k))
    && (k.curr == Some(b.goal) ==> 0 <= b.goal.row < |k.grid| && Solution(b, Restore(k, b.goal)))
  }

  /** `expand` never raises on a state of the search. */
  lemma ExpandOk(b: Board, s: State, v: set<Pos>)
    requires Ready(b) && Good(b, s) && Covered(Trace(b.start, s.path), v)
    ensures Expand(s, v).Some?
  {
    ExpandFails(s, v);
    forall d ensures !Fails(s, v, d) {
      TryOk(b, s, v, d);
    }
  }

  /** No `# check` block raises on a state of the search. */
  lemma TryOk(b: Board, s: State, v: set<Pos>, d: Dir)
    requires Ready(b) && Good(b, s) && Covered(Trace(b.start, s.path), v)
    ensures !Fails(s, v, d)
  {
    CurrInside(b, s);
    AdmitDotted(b, s.grid, Trace(b.start, s.path), v, Walk(b.start, s.path), d);
    if Admit(s.grid, v, Walk(b.start, s.path), d) == Some(true) {
      GrowOk(b, s, v, d);
    }
  }

  /** An admitted move from a state of the search yields a state: every
      cell of the longer path is on the map. */
  lemma GrowOk(b: Board, s: State, v: set<Pos>, d: Dir)
    requires Ready(b) && Good(b, s) && Covered(Trace(b.start, s.path), v)
    requires Admit(s.grid, v, Walk(b.start, s.path), d) == Some(true)
    ensures MakeState(s.grid, s.path + [d]).Some?
  {
    var t := Trace(b.start, s.path);
    var P := Walk(b.start, s.path);
    CurrInside(b, s);
    AdmitDotted(b, s.grid, t, v, P, d);
    LocateDotted(b, s.grid, t, 'S');
    WalkSnoc(b.plan, b.start, s.path, d);
    var t' := t + [Step(P, d)];
    assert RowsValid(|s.grid|, t') by {
      assert AllInside(b, t');
    }
  }

  /** Every child `expand` returns from a state of the search is a fresh
      cell, and either a state of the search or a solution. */
  lemma ExpandKids(b: Board, s: State, v: set<Pos>)
    requires Ready(b) && Good(b, s) && Covered(Trace(b.start, s.path), v) && b.start in v
    requires Expand(s, v).Some?
    ensures forall i :: 0 <= i < |Expand(s, v).value| ==> ChildAt(b, v, Expand(s, v).value, i)
  {
    var kids := Expand(s, v).value;
    ExpandChildren(s, v);
    forall i | 0 <= i < |kids| ensures ChildAt(b, v, kids, i) {
      SpawnedChild(b, s, v, kids[i].path[|s.path|], kids[i]);
    }
  }

  /** The child at index `i` of `kids` is what the search needs. Stated per
      index so that the (large) facts about one child are only brought in
      where that child is handled. */
  ghost predicate ChildAt(b: Board, v: set<Pos>, kids: seq<State>, i: int)
  {
    0 <= i < |kids| && Child(b, v, kids[i])
  }

  lemma StepInjective(p: Pos, d: Dir, e: Dir)
    requires d != e
    ensures Step(p, d) != Step(p, e)
  {
  }

  /** The children of one expansion stand on pairwise different cells. */
  lemma ExpandDistinct(b: Board, s: State, v: set<Pos>)
    requires Ready(b) && Good(b, s) && Covered(Trace(b.start, s.path), v) && b.start in v
    requires Expand(s, v).Some?
    ensures forall i, j :: 0 <= i < j < |Expand(s, v).value| ==>
      Expand(s, v).value[i].curr != Expand(s, v).value[j].curr
  {
    var kids := Expand(s, v).value;
    var P := Walk(b.start, s.path);
    ExpandChildren(s, v);
    forall i, j | 0 <= i < j < |kids| ensures kids[i].curr != kids[j].curr {
      var d := kids[i].path[|s.path|];
      var e := kids[j].path[|s.path|];
      ChildStep(b, s, v, d, kids[i]);
      ChildStep(b, s, v, e, kids[j]);
      assert Rank(d) < Rank(e);
      StepInjective(P, d, e);
    }
  }

  /** Every allowed move from the expanded cell to an unvisited cell has a
      child standing on that cell. */
  lemma ExpandCovers(b: Board, s: State, v: set<Pos>, d: Dir)
    requires Ready(b) && Good(b, s) && Covered(Trace(b.start, s.path), v) && b.start in v
    requires Expand(s, v).Some?
    requires Move(b.plan, Walk(b.start, s.path), d) && Step(Walk(b.start, s.path), d) !in v
    ensures exists i :: (0 <= i < |Expand(s, v).value| &&
      Expand(s, v).value[i].curr == Some(Step(Walk(b.start, s.path), d)))
  {
    var kids := Expand(s, v).value;
    var P := Walk(b.start, s.path);
    CurrInside(b, s);
    AdmitDotted(b, s.grid, Trace(b.start, s.path), v, P, d);
    ExpandComplete(s, v, d);
    ExpandChildren(s, v);
    var i :| 0 <= i < |kids| && kids[i].path == s.path + [d];
    assert kids[i].path[|s.path|] == d;
    ChildStep(b, s, v, d, kids[i]);
  }

  /** The state the search starts from, the map with an empty path, has the
      shape of a search state. */
  lemma InitialGood(b: Board)
    requires Ready(b)
    ensures MakeState(b.plan, []).Some? && Good(b, MakeState(b.plan, []).value)
  {
    ReadyInside(b);
    DrawInside(b.plan, b.height, b.width, b.start, []);
  }

  /** Every allowed move from an expanded cell lands on a visited cell. */
  ghost predicate Closed(b: Board, expanded: set<Pos>, visited: set<Pos>)
  {
    forall p, d :: p in expanded && Move(b.plan, p, d) ==> Step(p, d) in visited
  }

  /** When every visited cell has been expanded and expansion is closed,
      every walk from a visited start ends on a visited cell. */
  lemma {:induction false} WalkVisited(b: Board, expanded: set<Pos>, visited: set<Pos>, path: seq<Dir>)
    requires b.start in visited && visited <= expanded && Closed(b, expanded, visited)
    requires Walkable(b.plan, b.start, path)
    ensures Walk(b.start, path) in visited
    decreases |path|
  {
    if |path| > 0 {
      WalkVisited(b, expanded, visited, path[..|path| - 1]);
    }
  }

  /** Exhausting the frontier without meeting the goal proves that no walk
      reaches it. */
  lemma Unreachable(b: Board, expanded: set<Pos>, visited: set<Pos>)
    requires b.start in visited && b.goal !in visited && visited <= expanded
    requires Closed(b, expanded, visited)
    ensures !Reachable(b)
  {
    forall path | Walkable(b.plan, b.start, path) ensures Walk(b.start, path) != b.goal {
      WalkVisited(b, expanded, visited, path);
    }
  }

  /** A solution's path is a witness that the goal is reachable. */
  lemma SolutionReaches(b: Board, m: State)
    requires Solution(b, m)
    ensures Reachable(b)
  {
  }
}

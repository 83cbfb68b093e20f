/** `SearchMap`: a grid together with a path replayed onto it, and the
    values derived from them (start, goal, current position, cost and
    heuristic). */
module SearchMap {
  import opened Wrappers
  import opened Grids
  import Python

  /** One search state. `grid` is the state's own copy of the map with the
      cells its path stepped onto overwritten by '.'; `start` and `goal` are
      located on the map before the path is drawn; `curr` is `None` (the
      Python code's empty `curr_pos`) when there is no start. `heuristic` is the
      SQUARED straight-line distance to the goal: the Python code stores its
      square root, a strictly monotone function of it. */
  datatype State = State(
    grid: Grid,
    path: seq<Dir>,
    start: Option<Pos>,
    goal: Option<Pos>,
    curr: Option<Pos>,
    cost: nat,
    heuristic: nat)

  /** Squared straight-line distance between two positions. */
  function Dist2(a: Pos, b: Pos): nat
  {
    var dr := a.row - b.row;
    var dc := a.col - b.col;
    dr * dr + dc * dc
  }

  /** `__heuristic`: the distance from the current position to the goal,
      and 0 when either of them is missing. */
  function Heuristic(goal: Option<Pos>, curr: Option<Pos>): nat
  {
    if goal.Some? && curr.Some? then Dist2(curr.value, goal.value) else 0
  }

  /** Every row index in `t` is a valid Python subscript of `n` rows. */
  predicate RowsValid(n: nat, t: seq<Pos>)
  {
    forall k :: 0 <= k < |t| ==> 0 <= t[k].row + n && t[k].row < n
  }

  lemma RowsValidSnoc(n: nat, t: seq<Pos>, q: Pos)
    ensures RowsValid(n, t + [q]) <==> RowsValid(n, t) && 0 <= q.row + n && q.row < n
  {
    var t' := t + [q];
    assert t'[|t|] == q;
    if RowsValid(n, t') {
      forall k | 0 <= k < |t| ensures 0 <= t[k].row + n && t[k].row < n {
        assert t'[k] == t[k];
      }
    }
  }

  /** `__drawPath` from position `p`: each move updates the position and
      writes '.' into the cell it lands on, with Python's subscript (the row)
      and slice (the column) semantics. `None` when a row subscript raises
      IndexError. */
  function Draw(g: Grid, p: Pos, path: seq<Dir>): (r: Option<(Grid, Pos)>)
    ensures r.Some? <==> RowsValid(|g|, Trace(p, path))
    ensures r.Some? ==> |r.value.0| == |g| && r.value.1 == Walk(p, path)
    decreases |path|
  {
    if |path| == 0 then Some((g, p))
    else
      assert Trace(p, path) == Trace(p, path[..|path| - 1]) + [Walk(p, path)];
      RowsValidSnoc(|g|, Trace(p, path[..|path| - 1]), Walk(p, path));
      var prev :- Draw(g, p, path[..|path| - 1]);
      var q := Step(prev.1, path[|path| - 1]);
      var i :- Python.Index(|prev.0|, q.row);
      var line := prev.0[i];
      Some((prev.0[i := Python.Splice(line, q.col, '.', |line|)], q))
  }

  /** The constructor `SearchMap(search_map, path)`: locate start and goal,
      replay the path, and derive cost and heuristic. `None` when the replay
      raises IndexError. */
  function MakeState(g: Grid, path: seq<Dir>): (r: Option<State>)
    ensures r.None? <==> Locate(g, 'S').Some? && !RowsValid(|g|, Trace(Locate(g, 'S').value, path))
    ensures r.Some? ==> r.value.path == path && r.value.cost == |path|
    ensures r.Some? ==> r.value.start == Locate(g, 'S') && r.value.goal == Locate(g, 'G')
    ensures r.Some? ==> r.value.curr == (if Locate(g, 'S').None? then None else Some(Walk(Locate(g, 'S').value, path)))
    ensures r.Some? ==> r.value.heuristic == Heuristic(r.value.goal, r.value.curr)
  {
    var start := Locate(g, 'S');
    var goal := Locate(g, 'G');
    if start.None? then
      Some(State(g, path, start, goal, None, |path|, Heuristic(goal, None)))
    else
      var drawn :- Draw(g, start.value, path);
      Some(State(drawn.0, path, start, goal, Some(drawn.1), |path|, Heuristic(goal, Some(drawn.1))))
  }

  /** Replaying a path that stays inside a rectangular grid never fails;
      it keeps the row count and every row length, writes '.' into exactly
      the cells the path stepped onto and leaves every other cell as it was. */
  lemma {:induction false} DrawInside(g: Grid, h: nat, w: nat, p: Pos, path: seq<Dir>)
    requires Rectangular(g, h, w)
    requires forall k :: 0 <= k < |path| ==> Inside(Trace(p, path)[k], h, w)
    ensures Draw(g, p, path).Some?
    ensures Rectangular(Draw(g, p, path).value.0, h, w)
    ensures forall r, c :: 0 <= r < h && 0 <= c < w ==>
      Draw(g, p, path).value.0[r][c] == if Pos(r, c) in Trace(p, path) then '.' else g[r][c]
    decreases |path|
  {
    if |path| > 0 {
      var init := path[..|path| - 1];
      var t := Trace(p, path);
      assert t == Trace(p, init) + [Walk(p, path)];
      forall k | 0 <= k < |init| ensures Inside(Trace(p, init)[k], h, w) {
        assert Trace(p, init)[k] == t[k];
      }
      DrawInside(g, h, w, p, init);
      var prev := Draw(g, p, init).value;
      var q := Walk(p, path);
      assert q == t[|path| - 1];
      var line := prev.0[q.row];
      Python.SpliceInside(line, q.col, '.', |line|);
      var g' := Draw(g, p, path).value.0;
      assert g' == prev.0[q.row := line[q.col := '.']];
      forall r, c | 0 <= r < h && 0 <= c < w
        ensures g'[r][c] == if Pos(r, c) in t then '.' else g[r][c]
      {
        assert Pos(r, c) in t <==> Pos(r, c) in Trace(p, init) || Pos(r, c) == q;
      }
    }
  }

  /** The heuristic never overestimates: after any path the squared
      straight-line distance back to its origin is at most the squared
      number of steps, so the distance is at most the step count. */
  lemma HeuristicAdmissible(p: Pos, path: seq<Dir>)
    ensures Dist2(p, Walk(p, path)) <= |path| * |path|
  {
    WalkDisplacement(p, path);
    CountsBound(path);
    var dr := p.row - Walk(p, path).row;
    var dc := p.col - Walk(p, path).col;
    var ar: nat := if dr < 0 then -dr else dr;
    var ac: nat := if dc < 0 then -dc else dc;
    assert ar + ac <= |path|;
    SquareOfAbs(dr, ar);
    SquareOfAbs(dc, ac);
    SumSquaresBound(ar, ac, |path|);
  }

  /** For a constructed state, the heuristic never exceeds (squared) the
      length of any path that leads from its current position to its goal. */
  lemma StateAdmissible(g: Grid, path: seq<Dir>, rest: seq<Dir>)
    requires MakeState(g, path).Some?
    ensures var s := MakeState(g, path).value;
      s.curr.Some? && s.goal.Some? && Walk(s.curr.value, rest) == s.goal.value ==>
      s.heuristic <= |rest| * |rest|
  {
    var s := MakeState(g, path).value;
    if s.curr.Some? && s.goal.Some? {
      HeuristicAdmissible(s.curr.value, rest);
    }
  }

  lemma SquareOfAbs(x: int, a: nat)
    requires a == x || a == -x
    ensures x * x == a * a
  {
  }

  lemma SumSquaresBound(a: nat, b: nat, n: nat)
    requires a + b <= n
    ensures a * a + b * b <= n * n
  {
    assert (a + b) * (a + b) == a * a + 2 * (a * b) + b * b;
    assert a * b >= 0;
    MulMono(a + b, n);
  }

  /** The four move counts add up to the path length. */
  lemma {:induction false} CountsBound(path: seq<Dir>)
    ensures multiset(path)[North] + multiset(path)[South] + multiset(path)[East] + multiset(path)[West] == |path|
    decreases |path|
  {
    if |path| > 0 {
      var init := path[..|path| - 1];
      CountsBound(init);
      var d := path[|path| - 1];
      assert path == init + [d];
      assert multiset(path) == multiset(init) + multiset{d};
      assert multiset{d}[North] + multiset{d}[South] + multiset{d}[East] + multiset{d}[West] == 1 by {
        match d
        case North =>
        case South =>
        case East =>
        case West =>
      }
    }
  }

  lemma MulMono(a: nat, b: nat)
    requires a <= b
    ensures a * a <= b * b
  {
    assert a * a <= a * b <= b * b;
  }
}

/** `findPath`: the search driver. It checks the search type and the map,
    then repeatedly expands the front of the frontier until a child stands
    on the goal or the frontier runs dry. */
module PathFinder {
  import opened Wrappers
  import opened Grids
  import opened SearchMap
  import opened Expander
  import opened Reach
  import opened StableSort
  import opened Sequences
  import Validator

  /** The four search types `findPath` accepts. */
  datatype Strategy = AStar | BestFirst | BreadthFirst | DepthFirst

  /** The name a caller passes for each search type. */
  function Name(t: Strategy): string
  {
    match t
    case AStar => "a-star"
    case BestFirst => "best-first"
    case BreadthFirst => "breadth-first"
    case DepthFirst => "depth-first"
  }

  /** The membership test against the list of accepted names. */
  function ParseStrategy(name: string): (r: Option<Strategy>)
    ensures r.Some? ==> Name(r.value) == name
    ensures r.None? <==> forall t :: Name(t) != name
  {
    if name == "a-star" then Some(AStar)
    else if name == "best-first" then Some(BestFirst)
    else if name == "breadth-first" then Some(BreadthFirst)
    else if name == "depth-first" then Some(DepthFirst)
    else
      NamesListed();
      None
  }

  /** The names are exactly the four listed ones. */
  lemma NamesListed()
    ensures forall t :: Name(t) in ["a-star", "best-first", "breadth-first", "depth-first"]
  {
  }

  /** Every search type is recognised by its own name. */
  lemma ParseName(t: Strategy)
    ensures ParseStrategy(Name(t)) == Some(t)
  {
  }

  /** The message of the ValueError for an unknown search type. */
  function StrategyError(name: string): string
  {
    "Search type " + name + " is not a valid search type."
  }

  /** How `findPath` ends: the solved state, `None` when the frontier runs
      dry, or the ValueError it raises with its message. */
  datatype Outcome =
    | Found(state: State)
    | NoPath
    | InvalidStrategy(message: string)
    | InvalidMap(message: string)

  /** Where a new child joins the frontier: at the front for depth-first
      (a stack), at the back for the others (a queue, before sorting). */
  function Enqueue(t: Strategy, frontier: seq<State>, m: State): (r: seq<State>)
    ensures multiset(r) == multiset(frontier) + multiset{m}
    ensures t == DepthFirst ==> r[0] == m && r[1..] == frontier
    ensures t != DepthFirst ==> r[|frontier|] == m && r[..|frontier|] == frontier
  {
    if t == DepthFirst then [m] + frontier else frontier + [m]
  }

  /** The sort key of the informed search types: cost plus heuristic for
      a-star, the heuristic for best-first. `combine` stands for the
      floating-point `cost + sqrt(h)` of the squared heuristic `h`. The
      uninformed types never sort. */
  function Key(t: Strategy, combine: (nat, nat) -> real): State -> real
  {
    match t
    case AStar => (s: State) => combine(s.cost, s.heuristic)
    case _ => (s: State) => s.heuristic as real
  }

  /** The frontier after an expansion: stably sorted by the key for a-star
      and best-first, untouched for breadth- and depth-first. */
  function Reorder(t: Strategy, frontier: seq<State>, combine: (nat, nat) -> real): (r: seq<State>)
    ensures |r| == |frontier| && multiset(r) == multiset(frontier)
    ensures t in {AStar, BestFirst} ==> Sorted(r, Key(t, combine))
    ensures t in {BreadthFirst, DepthFirst} ==> r == frontier
  {
    if t in {AStar, BestFirst} then
      SortBySorted(frontier, Key(t, combine));
      SortByPermutes(frontier, Key(t, combine));
      SortBy(frontier, Key(t, combine))
    else frontier
  }

  /** Sorting keeps states of equal key in the order they joined. */
  lemma ReorderStable(t: Strategy, frontier: seq<State>, combine: (nat, nat) -> real, k: real)
    ensures Select(Reorder(t, frontier, combine), Key(t, combine), k) == Select(frontier, Key(t, combine), k)
  {
    if t in {AStar, BestFirst} {
      SortByStable(frontier, Key(t, combine), k);
    }
  }

  /** Best-first sorts on the square root of the squared distance; any
      strictly increasing function of the key gives the same frontier. */
  lemma BestFirstRoot(frontier: seq<State>, combine: (nat, nat) -> real, root: real -> real)
    requires forall a, b :: a < b ==> root(a) < root(b)
    ensures SortBy(frontier, Compose(root, Key(BestFirst, combine))) == Reorder(BestFirst, frontier, combine)
  {
    SortByMonotone(frontier, Key(BestFirst, combine), root);
  }

  /** The state `findPath` is handed: the map with an empty path. */
  function Initial(g: Grid): (s: State)
    ensures s.grid == g && s.path == [] && s.start == Locate(g, 'S') && s.goal == Locate(g, 'G')
  {
    assert RowsValid(|g|, []);
    MakeState(g, []).value
  }

  /** The board a map with a start and a goal describes. */
  function BoardOf(g: Grid): (b: Board)
    requires IsRectangular(g) && Locate(g, 'S').Some? && Locate(g, 'G').Some?
    ensures Ready(b) && b.plan == g
  {
    Board(g, |g|, |g[0]|, Locate(g, 'S').value, Locate(g, 'G').value)
  }

  /** `cells` holds every cell of the board. */
  ghost predicate Spans(b: Board, cells: set<Pos>)
  {
    forall q :: Inside(q, b.height, b.width) ==> q in cells
  }

  /** The cells of a board form a finite set. */
  lemma CellsExist(b: Board)
    ensures exists cells :: Spans(b, cells)
  {
    var cells := set r, c | 0 <= r < b.height && 0 <= c < b.width :: Pos(r, c);
    forall q | Inside(q, b.height, b.width) ensures q in cells {
      assert q == Pos(q.row, q.col);
    }
    assert Spans(b, cells);
  }

  /** The cells the states of the frontier stand on. */
  ghost function CurrSet(frontier: seq<State>): set<Pos>
  {
    set k | k in frontier && k.curr.Some? :: k.curr.value
  }

  /** Every state of the frontier has the shape of a search state, with its
      trace and current cell visited. */
  ghost predicate FrontierOk(b: Board, frontier: seq<State>, visited: set<Pos>)
  {
    forall k :: k in frontier ==>
      Good(b, k) && Covered(Trace(b.start, k.path), visited) && k.curr.value in visited
  }

  /** What stays true across the rounds of `findPath`: the frontier is
      well-formed, the start is visited and the goal is not, every visited
      cell has been expanded or is the cell of a frontier state, and every
      allowed move out of an expanded cell reaches a visited cell. */
  ghost predicate Searching(b: Board, cells: set<Pos>, expanded: set<Pos>, frontier: seq<State>, visited: set<Pos>)
  {
    FrontierOk(b, frontier, visited) && b.start in visited && b.goal !in visited && visited <= cells
    && expanded <= visited && visited <= expanded + CurrSet(frontier) && Closed(b, expanded, visited)
  }

  /** `findPath`. An unknown search type and an invalid map raise ValueError
      with the Python code's messages. Otherwise the result is a solution exactly
      when the goal is reachable by allowed moves, and `None` exactly when it
      is not. */
  method FindPath(g: Grid, name: string, combine: (nat, nat) -> real) returns (r: Outcome)
    requires IsRectangular(g)
    ensures r.InvalidStrategy? <==> ParseStrategy(name).None?
    ensures r.InvalidStrategy? ==> r.message == StrategyError(name)
    ensures r.InvalidMap? <==> ParseStrategy(name).Some? && !Validator.Validate(Initial(g)).0
    ensures r.InvalidMap? ==> r.message == Validator.Validate(Initial(g)).1
    ensures r.Found? || r.NoPath? ==> Locate(g, 'S').Some? && Locate(g, 'G').Some?
    ensures r.Found? ==> Solution(BoardOf(g), r.state) && Reachable(BoardOf(g))
    ensures r.NoPath? ==> !Reachable(BoardOf(g))
  {
    var strategy := ParseStrategy(name);
    if strategy.None? {
      return InvalidStrategy(StrategyError(name));
    }
    var t := strategy.value;
    var s0 := Initial(g);
    var (ok, message) := Validator.Validate(s0);
    if !ok {
      return InvalidMap(message);
    }
    ghost var b := BoardOf(g);
    var found := Search(b, t, s0, combine);
    if found.Some? {
      SolutionReaches(b, found.value);
      return Found(found.value);
    }
    return NoPath;
  }

  /** The loop of `findPath` on a validated map: pop the front state, expand
      it, absorb its children, reorder. It returns a solution if a child
      lands on the goal, and nothing only when the goal is unreachable. */
  method Search(ghost b: Board, t: Strategy, s0: State, combine: (nat, nat) -> real) returns (r: Option<State>)
    requires Ready(b) && s0 == Initial(b.plan)
    ensures r.Some? ==> Solution(b, r.value)
    ensures r.None? ==> !Reachable(b)
  {
    var goal := s0.goal.value;
    var frontier := [s0];
    var visited := {s0.start.value};
    ghost var expanded: set<Pos> := {};
    CellsExist(b);
    ghost var cells :| Spans(b, cells);
    SearchBegins(b, cells);
    while |frontier| > 0
      invariant Searching(b, cells, expanded, frontier, visited)
      decreases |cells - visited| + |frontier|
    {
      var found;
      found, frontier, visited, expanded := Round(b, cells, expanded, t, goal, frontier, visited, combine);
      if found.Some? {
        return found;
      }
    }
    SearchEnds(b, cells, expanded, visited);
    return None;
  }

  /** One round of the loop of `findPath`: pop the front state, expand it,
      absorb its children and reorder the frontier. Either a child lands on
      the goal and the round returns the solution, or the search invariant
      holds again with fewer unvisited cells plus frontier states. */
  method Round(ghost b: Board, ghost cells: set<Pos>, ghost expanded: set<Pos>, t: Strategy, goal: Pos,
               frontier: seq<State>, visited: set<Pos>, combine: (nat, nat) -> real)
    returns (found: Option<State>, frontier': seq<State>, visited': set<Pos>, ghost expanded': set<Pos>)
    requires Ready(b) && Spans(b, cells) && goal == b.goal && |frontier| > 0
    requires Searching(b, cells, expanded, frontier, visited)
    ensures found.Some? ==> Solution(b, found.value)
    ensures found.None? ==> Searching(b, cells, expanded', frontier', visited')
    ensures found.None? ==> |cells - visited'| + |frontier'| < |cells - visited| + |frontier|
  {
    var s := frontier[0];
    var rest := frontier[1..];
    RoundStart(b, cells, expanded, frontier, visited);
    var kids := Expand(s, visited).value;
    var a := Absorb(goal, t, kids, rest, visited);
    if a.found.Some? {
      AbsorbSolves(b, visited, t, kids, rest, visited);
      return a.found, rest, visited, expanded;
    }
    RoundKeeps(b, cells, expanded, t, frontier, visited);
    expanded' := expanded + {s.curr.value};
    frontier' := Reorder(t, a.frontier, combine);
    ReorderSearching(b, cells, expanded', a.frontier, a.visited, frontier');
    return None, frontier', a.visited, expanded';
  }

  /** A search whose frontier ran dry has expanded every visited cell, so
      the goal is out of reach. */
  lemma SearchEnds(b: Board, cells: set<Pos>, expanded: set<Pos>, visited: set<Pos>)
    requires Searching(b, cells, expanded, [], visited)
    ensures !Reachable(b)
  {
    assert CurrSet([]) == {};
    Unreachable(b, expanded, visited);
  }

  /** The first round starts from the validated map alone on the frontier
      with its start visited. */
  lemma SearchBegins(b: Board, cells: set<Pos>)
    requires Ready(b) && Spans(b, cells)
    ensures Searching(b, cells, {}, [Initial(b.plan)], {b.start})
  {
    InitialGood(b);
    ReadyInside(b);
    var s0 := Initial(b.plan);
    assert Trace(b.start, s0.path) == [];
    assert CurrSet([s0]) == {b.start} by {
      assert s0 in [s0];
    }
  }

  /** The front state of the frontier can be expanded, and its children are
      what the inner loop expects. */
  lemma RoundStart(b: Board, cells: set<Pos>, expanded: set<Pos>, frontier: seq<State>, visited: set<Pos>)
    requires Ready(b) && |frontier| > 0 && Searching(b, cells, expanded, frontier, visited)
    ensures frontier[0].curr.Some? && Expand(frontier[0], visited).Some?
    ensures Fresh(b, visited, Expand(frontier[0], visited).value, visited)
  {
    var s, rest := frontier[0], frontier[1..];
    PopCurr(b, frontier, visited);
    ReadyInside(b);
    ExpandOk(b, s, visited);
    var kids := Expand(s, visited).value;
    ExpandKids(b, s, visited);
    ExpandDistinct(b, s, visited);
    forall i | 0 <= i < |kids|
      ensures kids[i].curr.Some? && kids[i].curr.value !in visited && 0 <= b.goal.row < |kids[i].grid|
    {
      assert ChildAt(b, visited, kids, i);
    }
  }

  /** A round that finds no child on the goal keeps the search invariant,
      and visits one unvisited cell per child while popping one state, so
      that unvisited cells plus frontier states drop. */
  lemma RoundKeeps(b: Board, cells: set<Pos>, expanded: set<Pos>, t: Strategy, frontier: seq<State>,
                   visited: set<Pos>)
    requires Ready(b) && Spans(b, cells) && |frontier| > 0 && Searching(b, cells, expanded, frontier, visited)
    requires frontier[0].curr.Some? && Expand(frontier[0], visited).Some?
    requires Fresh(b, visited, Expand(frontier[0], visited).value, visited)
    requires Absorb(b.goal, t, Expand(frontier[0], visited).value, frontier[1..], visited).found.None?
    ensures var a := Absorb(b.goal, t, Expand(frontier[0], visited).value, frontier[1..], visited);
      Searching(b, cells, expanded + {frontier[0].curr.value}, a.frontier, a.visited)
      && |cells - a.visited| + |a.frontier| < |cells - visited| + |frontier|
  {
    var s, rest := frontier[0], frontier[1..];
    var a := Absorb(b.goal, t, Expand(s, visited).value, rest, visited);
    RoundCount(b, cells, expanded, t, frontier, visited);
    RoundGoal(b, cells, expanded, t, frontier, visited);
    PopCurr(b, frontier, visited);
    assert a.visited <= expanded + {s.curr.value} + CurrSet(a.frontier);
  }

  /** The frontier part of a round: the frontier stays well-formed, the
      newly visited cells are the new frontier cells, and the measure drops. */
  lemma RoundCount(b: Board, cells: set<Pos>, expanded: set<Pos>, t: Strategy, frontier: seq<State>,
                   visited: set<Pos>)
    requires Ready(b) && Spans(b, cells) && |frontier| > 0 && Searching(b, cells, expanded, frontier, visited)
    requires frontier[0].curr.Some? && Expand(frontier[0], visited).Some?
    requires Fresh(b, visited, Expand(frontier[0], visited).value, visited)
    ensures var a := Absorb(b.goal, t, Expand(frontier[0], visited).value, frontier[1..], visited);
      a.found.None? ==>
        FrontierOk(b, a.frontier, a.visited) && visited <= a.visited && a.visited <= cells
        && CurrSet(a.frontier) == CurrSet(frontier[1..]) + (a.visited - visited)
        && |cells - a.visited| + |a.frontier| < |cells - visited| + |frontier|
  {
    var s, rest := frontier[0], frontier[1..];
    var kids := Expand(s, visited).value;
    PopCurr(b, frontier, visited);
    AbsorbKeeps(b, visited, t, kids, rest, visited);
    forall i | 0 <= i < |kids| ensures kids[i].curr.value in cells {
      assert ChildAt(b, visited, kids, i);
    }
    AbsorbFrontier(b.goal, t, kids, rest, visited);
    AbsorbCells(b.goal, cells, t, kids, rest, visited);
  }

  /** The closure part of a round: the goal stays unvisited and every
      allowed move out of the expanded cell reaches a visited cell. */
  lemma RoundGoal(b: Board, cells: set<Pos>, expanded: set<Pos>, t: Strategy, frontier: seq<State>,
                  visited: set<Pos>)
    requires Ready(b) && |frontier| > 0 && Searching(b, cells, expanded, frontier, visited)
    requires frontier[0].curr.Some? && Expand(frontier[0], visited).Some?
    requires Fresh(b, visited, Expand(frontier[0], visited).value, visited)
    requires Absorb(b.goal, t, Expand(frontier[0], visited).value, frontier[1..], visited).found.None?
    ensures var a := Absorb(b.goal, t, Expand(frontier[0], visited).value, frontier[1..], visited);
      b.goal !in a.visited && visited <= a.visited && Closed(b, expanded + {frontier[0].curr.value}, a.visited)
  {
    var s, rest := frontier[0], frontier[1..];
    var kids := Expand(s, visited).value;
    var a := Absorb(b.goal, t, kids, rest, visited);
    PopCurr(b, frontier, visited);
    AbsorbVisits(b.goal, t, kids, rest, visited);
    RoundCloses(b, expanded, s, visited, a.visited);
  }

  /** Reordering the frontier keeps the search invariant. */
  lemma ReorderSearching(b: Board, cells: set<Pos>, expanded: set<Pos>, frontier: seq<State>, visited: set<Pos>,
                         frontier': seq<State>)
    requires Searching(b, cells, expanded, frontier, visited)
    requires multiset(frontier') == multiset(frontier)
    ensures Searching(b, cells, expanded, frontier', visited)
  {
    ReorderKeeps(b, frontier, visited, frontier');
  }

  /** Once the children of a state are visited, every allowed move out of
      its cell reaches a visited cell. */
  lemma RoundCloses(b: Board, expanded: set<Pos>, s: State, visited: set<Pos>, visited': set<Pos>)
    requires Ready(b) && Good(b, s) && Covered(Trace(b.start, s.path), visited) && b.start in visited
    requires Closed(b, expanded, visited) && visited <= visited'
    requires Expand(s, visited).Some?
    requires forall p :: CurrOf(Expand(s, visited).value, p) ==> p in visited'
    ensures Closed(b, expanded + {s.curr.value}, visited')
  {
    var P := Walk(b.start, s.path);
    forall d | Move(b.plan, P, d) ensures Step(P, d) in visited' {
      if Step(P, d) !in visited {
        ExpandCovers(b, s, visited, d);
      }
    }
  }

  /** What the inner loop of `findPath` leaves: the solved state if a child
      stood on the goal, and the frontier and visited cells after it. */
  datatype Absorbed = Absorbed(found: Option<State>, frontier: seq<State>, visited: set<Pos>)

  /** Every child stands on a cell, and writing the goal back into its map
      is a valid index. */
  predicate Placed(goal: Pos, kids: seq<State>)
  {
    forall i :: 0 <= i < |kids| ==> kids[i].curr.Some? && 0 <= goal.row < |kids[i].grid|
  }

  /** The cell `p` is the cell of one of `kids`. */
  ghost predicate CurrOf(kids: seq<State>, p: Pos)
  {
    exists i :: 0 <= i < |kids| && kids[i].curr == Some(p)
  }

  /** The inner loop of `findPath` over the children of one expansion, in
      order: the first child standing on the goal is returned with the goal
      written back; until then every child joins the frontier (appended, or
      pushed in front for depth-first) and its cell is visited. */
  function Absorb(goal: Pos, t: Strategy, kids: seq<State>, frontier: seq<State>, visited: set<Pos>): (r: Absorbed)
    requires Placed(goal, kids)
    ensures r.found.Some? <==> exists i :: 0 <= i < |kids| && kids[i].curr == Some(goal)
    ensures r.found.Some? ==>
      exists i :: 0 <= i < |kids| && kids[i].curr == Some(goal) && r.found.value == Restore(kids[i], goal)
        && forall j :: 0 <= j < i ==> kids[j].curr != Some(goal)
    decreases |kids|
  {
    if |kids| == 0 then Absorbed(None, frontier, visited)
    else
      var m := kids[0];
      if m.curr == Some(goal) then Absorbed(Some(Restore(m, goal)), frontier, visited)
      else
        assert forall i :: 1 <= i < |kids| ==> kids[1..][i - 1] == kids[i];
        Absorb(goal, t, kids[1..], Enqueue(t, frontier, m), visited + {m.curr.value})
  }

  /** Without a child on the goal, the children join the frontier in order
      behind it for the queue-based search types. */
  lemma {:induction false} AbsorbQueue(goal: Pos, t: Strategy, kids: seq<State>, frontier: seq<State>, visited: set<Pos>)
    requires Placed(goal, kids) && t != DepthFirst
    ensures var r := Absorb(goal, t, kids, frontier, visited);
      r.found.None? ==> r.frontier == frontier + kids
    decreases |kids|
  {
    if |kids| > 0 && kids[0].curr != Some(goal) {
      var m := kids[0];
      PlacedTail(goal, kids);
      assert Absorb(goal, t, kids, frontier, visited)
          == Absorb(goal, t, kids[1..], frontier + [m], visited + {m.curr.value});
      AbsorbQueue(goal, t, kids[1..], frontier + [m], visited + {m.curr.value});
      AppendHead(kids, frontier);
    }
  }

  lemma AppendHead<T>(s: seq<T>, front: seq<T>)
    requires |s| > 0
    ensures (front + [s[0]]) + s[1..] == front + s
  {
    assert s == [s[0]] + s[1..];
  }

  lemma PlacedTail(goal: Pos, kids: seq<State>)
    requires |kids| > 0 && Placed(goal, kids)
    ensures Placed(goal, kids[1..])
  {
    assert forall i :: 0 <= i < |kids| - 1 ==> kids[1..][i] == kids[i + 1];
  }

  /** Without a child on the goal, depth-first pushes the children in front
      of the frontier one by one, which leaves them in reverse order. */
  lemma {:induction false} AbsorbStack(goal: Pos, kids: seq<State>, frontier: seq<State>, visited: set<Pos>)
    requires Placed(goal, kids)
    ensures var r := Absorb(goal, DepthFirst, kids, frontier, visited);
      r.found.None? ==> r.frontier == Reversed(kids) + frontier
    decreases |kids|
  {
    if |kids| > 0 && kids[0].curr != Some(goal) {
      var m := kids[0];
      PlacedTail(goal, kids);
      assert Absorb(goal, DepthFirst, kids, frontier, visited)
          == Absorb(goal, DepthFirst, kids[1..], [m] + frontier, visited + {m.curr.value});
      AbsorbStack(goal, kids[1..], [m] + frontier, visited + {m.curr.value});
      PushReversed(kids, frontier);
    }
  }

  /** Without a child on the goal, the visited cells grow by exactly the
      children's cells. */
  lemma {:induction false} AbsorbVisits(goal: Pos, t: Strategy, kids: seq<State>, frontier: seq<State>, visited: set<Pos>)
    requires Placed(goal, kids)
    ensures var r := Absorb(goal, t, kids, frontier, visited);
      r.found.None? ==> forall p :: p in r.visited <==> p in visited || CurrOf(kids, p)
    decreases |kids|
  {
    if |kids| > 0 && kids[0].curr != Some(goal) {
      var m := kids[0];
      assert forall i :: 0 <= i < |kids| - 1 ==> kids[1..][i] == kids[i + 1];
      AbsorbVisits(goal, t, kids[1..], Enqueue(t, frontier, m), visited + {m.curr.value});
      var r := Absorb(goal, t, kids, frontier, visited);
      forall p ensures CurrOf(kids, p) <==> p == m.curr.value || CurrOf(kids[1..], p) {
        if CurrOf(kids, p) && p != m.curr.value {
          var i :| 0 <= i < |kids| && kids[i].curr == Some(p);
          assert kids[1..][i - 1] == kids[i];
        }
      }
    }
  }

  /** The children's cells are all unvisited and pairwise different. */
  ghost predicate Apart(kids: seq<State>, visited: set<Pos>)
  {
    (forall i :: 0 <= i < |kids| ==> kids[i].curr.Some? && kids[i].curr.value !in visited)
    && (forall i, j :: 0 <= i < j < |kids| ==> kids[i].curr != kids[j].curr)
  }

  /** The kids `Expand` hands to the inner loop: each a child of the state
      expanded against the cells `v0` visited then, placed, and apart. */
  ghost predicate Fresh(b: Board, v0: set<Pos>, kids: seq<State>, visited: set<Pos>)
  {
    (forall i :: 0 <= i < |kids| ==> ChildAt(b, v0, kids, i)) && Placed(b.goal, kids) && Apart(kids, visited)
  }

  lemma ApartTail(kids: seq<State>, visited: set<Pos>)
    requires |kids| > 0 && Apart(kids, visited)
    ensures Apart(kids[1..], visited + {kids[0].curr.value})
  {
    forall i | 0 <= i < |kids| - 1
      ensures kids[1..][i].curr.Some? && kids[1..][i].curr.value !in visited + {kids[0].curr.value}
    {
      assert kids[1..][i] == kids[i + 1];
    }
  }

  lemma FreshTail(b: Board, v0: set<Pos>, kids: seq<State>, visited: set<Pos>)
    requires |kids| > 0 && Fresh(b, v0, kids, visited)
    ensures Fresh(b, v0, kids[1..], visited + {kids[0].curr.value})
  {
    forall i | 0 <= i < |kids| - 1 ensures ChildAt(b, v0, kids[1..], i) && kids[1..][i] == kids[i + 1] {
      assert ChildAt(b, v0, kids, i + 1);
    }
    ApartTail(kids, visited);
  }

  /** When the inner loop stops at a child on the goal, what it returns is a
      solution. */
  lemma {:induction false} AbsorbSolves(b: Board, v0: set<Pos>, t: Strategy, kids: seq<State>,
                                        frontier: seq<State>, visited: set<Pos>)
    requires Ready(b) && Fresh(b, v0, kids, visited)
    ensures Absorb(b.goal, t, kids, frontier, visited).found.Some? ==>
      Solution(b, Absorb(b.goal, t, kids, frontier, visited).found.value)
    decreases |kids|
  {
    if |kids| > 0 {
      var m := kids[0];
      assert ChildAt(b, v0, kids, 0);
      if m.curr != Some(b.goal) {
        FreshTail(b, v0, kids, visited);
        AbsorbSolves(b, v0, t, kids[1..], Enqueue(t, frontier, m), visited + {m.curr.value});
      }
    }
  }

  /** When no child is on the goal, the inner loop keeps the frontier
      well-formed. */
  lemma {:induction false} AbsorbKeeps(b: Board, v0: set<Pos>, t: Strategy,
                                       kids: seq<State>, frontier: seq<State>, visited: set<Pos>)
    requires Ready(b) && Fresh(b, v0, kids, visited) && v0 <= visited && FrontierOk(b, frontier, visited)
    ensures var r := Absorb(b.goal, t, kids, frontier, visited);
      r.found.None? ==> FrontierOk(b, r.frontier, r.visited)
    decreases |kids|
  {
    if |kids| > 0 {
      var m := kids[0];
      assert ChildAt(b, v0, kids, 0);
      if m.curr != Some(b.goal) {
        var f := Enqueue(t, frontier, m);
        AddChild(b, frontier, visited, v0, m, f);
        FreshTail(b, v0, kids, visited);
        AbsorbKeeps(b, v0, t, kids[1..], f, visited + {m.curr.value});
      }
    }
  }

  /** When no child is on the goal, the frontier grows by one state per
      child and its cells by exactly the newly visited cells. */
  lemma {:induction false} AbsorbFrontier(goal: Pos, t: Strategy, kids: seq<State>, frontier: seq<State>,
                                          visited: set<Pos>)
    requires Placed(goal, kids) && Apart(kids, visited)
    ensures var r := Absorb(goal, t, kids, frontier, visited);
      r.found.None? ==>
        visited <= r.visited && |r.frontier| == |frontier| + |kids|
        && CurrSet(r.frontier) == CurrSet(frontier) + (r.visited - visited)
    decreases |kids|
  {
    if |kids| > 0 && kids[0].curr != Some(goal) {
      var m := kids[0];
      var q := m.curr.value;
      var f := Enqueue(t, frontier, m);
      assert Absorb(goal, t, kids, frontier, visited) == Absorb(goal, t, kids[1..], f, visited + {q});
      CurrSetAdd(frontier, m, f);
      ApartTail(kids, visited);
      PlacedTail(goal, kids);
      AbsorbFrontier(goal, t, kids[1..], f, visited + {q});
      var r := Absorb(goal, t, kids[1..], f, visited + {q});
      if r.found.None? {
        assert CurrSet(r.frontier) == CurrSet(frontier) + {q} + (r.visited - (visited + {q}));
      }
    }
  }

  /** When no child is on the goal, the inner loop visits only cells of the
      board, one new cell per child. */
  lemma {:induction false} AbsorbCells(goal: Pos, cells: set<Pos>, t: Strategy, kids: seq<State>,
                                       frontier: seq<State>, visited: set<Pos>)
    requires Placed(goal, kids) && Apart(kids, visited) && visited <= cells
    requires forall i :: 0 <= i < |kids| ==> kids[i].curr.value in cells
    ensures var r := Absorb(goal, t, kids, frontier, visited);
      r.found.None? ==> r.visited <= cells && |cells - r.visited| + |kids| == |cells - visited|
    decreases |kids|
  {
    if |kids| > 0 && kids[0].curr != Some(goal) {
      var m := kids[0];
      var q := m.curr.value;
      var f := Enqueue(t, frontier, m);
      assert Absorb(goal, t, kids, frontier, visited) == Absorb(goal, t, kids[1..], f, visited + {q});
      ApartTail(kids, visited);
      PlacedTail(goal, kids);
      assert forall i :: 0 <= i < |kids| - 1 ==> kids[1..][i] == kids[i + 1];
      AbsorbCells(goal, cells, t, kids[1..], f, visited + {q});
      CellsShrink(cells, visited, q);
    }
  }

  lemma CellsShrink(cells: set<Pos>, visited: set<Pos>, q: Pos)
    requires q in cells && q !in visited
    ensures |cells - (visited + {q})| == |cells - visited| - 1
  {
    assert cells - visited == (cells - (visited + {q})) + {q};
  }

  /** Popping the front state leaves a well-formed rest, and its cell and
      those of the rest. */
  lemma PopCurr(b: Board, frontier: seq<State>, visited: set<Pos>)
    requires |frontier| > 0 && FrontierOk(b, frontier, visited)
    ensures FrontierOk(b, frontier[1..], visited)
    ensures Good(b, frontier[0]) && Covered(Trace(b.start, frontier[0].path), visited)
    ensures frontier[0].curr.Some? && frontier[0].curr.value in visited
    ensures CurrSet(frontier) == {frontier[0].curr.value} + CurrSet(frontier[1..])
  {
    assert frontier[0] in frontier;
    assert frontier == [frontier[0]] + frontier[1..];
    forall k | k in frontier[1..] ensures k in frontier {
    }
  }

  /** A child joining the frontier keeps it well-formed once its cell is
      visited. */
  lemma AddChild(b: Board, frontier: seq<State>, visited: set<Pos>, v0: set<Pos>, m: State, frontier': seq<State>)
    requires FrontierOk(b, frontier, visited) && v0 <= visited && Child(b, v0, m) && m.curr != Some(b.goal)
    requires multiset(frontier') == multiset(frontier) + multiset{m}
    ensures FrontierOk(b, frontier', visited + {m.curr.value})
  {
    var v := visited + {m.curr.value};
    forall k | k in frontier'
      ensures Good(b, k) && Covered(Trace(b.start, k.path), v) && k.curr.value in v
    {
      assert k in multiset(frontier');
      if k != m {
        assert k in multiset(frontier);
      }
    }
  }

  /** A state joining the frontier adds its cell to the frontier's. */
  lemma CurrSetAdd(frontier: seq<State>, m: State, frontier': seq<State>)
    requires m.curr.Some? && multiset(frontier') == multiset(frontier) + multiset{m}
    ensures CurrSet(frontier') == CurrSet(frontier) + {m.curr.value}
  {
    forall p | p in CurrSet(frontier') ensures p in CurrSet(frontier) + {m.curr.value} {
      var k :| k in frontier' && k.curr.Some? && k.curr.value == p;
      assert k in multiset(frontier');
      if k != m {
        assert k in multiset(frontier);
      }
    }
    forall p | p in CurrSet(frontier) + {m.curr.value} ensures p in CurrSet(frontier') {
      if p == m.curr.value {
        assert m in multiset(frontier');
      } else {
        var k :| k in frontier && k.curr.Some? && k.curr.value == p;
        assert k in multiset(frontier);
        assert k in multiset(frontier');
      }
    }
  }

  /** Reordering the frontier keeps it well-formed and keeps its cells. */
  lemma ReorderKeeps(b: Board, frontier: seq<State>, visited: set<Pos>, frontier': seq<State>)
    requires FrontierOk(b, frontier, visited)
    requires multiset(frontier') == multiset(frontier)
    ensures FrontierOk(b, frontier', visited)
    ensures CurrSet(frontier') == CurrSet(frontier)
  {
    forall k ensures k in frontier' <==> k in frontier {
      assert k in frontier' <==> k in multiset(frontier');
    }
  }
}

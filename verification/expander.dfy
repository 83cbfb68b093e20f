/** `expand`: the successor states of one search state. */
module Expander {
  import opened Wrappers
  import opened Grids
  import opened SearchMap
  import Python

  /** The place of a direction in the fixed order north, south, west, east
      in which `expand` tries them. */
  function Rank(d: Dir): nat
  {
    match d
    case North => 0
    case South => 1
    case West => 2
    case East => 3
  }

  /** The bounds test `expand` makes before moving from `p` in direction
      `d`. North and west reject index 0 (`> 0`); south and east only test
      `< len` and leave the last row and column to the border characters.
      The east test reads the length of row `p.row`, an IndexError when that
      row does not exist. */
  function BoundOk(g: Grid, p: Pos, d: Dir): Option<bool>
  {
    match d
    case North => Some(p.row - 1 > 0)
    case South => Some(p.row + 1 < |g|)
    case West => Some(p.col - 1 > 0)
    case East =>
      var line :- Python.At(g, p.row);
      Some(p.col + 1 < |line|)
  }

  /** A cell a move may enter: blank or the goal. */
  predicate Open(ch: char)
  {
    ch == ' ' || ch == 'G'
  }

  /** The whole test for direction `d`, evaluated left to right with
      short-circuit as the Python code does: bounds, then not yet visited, then
      an open target cell. `None` when a subscript raises IndexError. */
  function Admit(g: Grid, visited: set<Pos>, p: Pos, d: Dir): Option<bool>
  {
    var inBounds :- BoundOk(g, p, d);
    var q := Step(p, d);
    if !inBounds || q in visited then Some(false)
    else
      var line :- Python.At(g, q.row);
      var ch :- Python.At(line, q.col);
      Some(Open(ch))
  }

  /** The test for `d` admits the move from the state's current position. */
  predicate Admitted(s: State, visited: set<Pos>, d: Dir)
  {
    s.curr.Some? && Admit(s.grid, visited, s.curr.value, d) == Some(true)
  }

  /** `k` is the child `expand` builds for direction `d`: a fresh state of
      the parent's grid with the parent's path extended by `d`. */
  predicate Spawned(s: State, visited: set<Pos>, d: Dir, k: State)
  {
    Admitted(s, visited, d) && k.path == s.path + [d] && MakeState(s.grid, s.path + [d]) == Some(k)
  }

  /** Trying direction `d` raises IndexError: in the test, or while building
      the admitted child. */
  predicate Fails(s: State, visited: set<Pos>, d: Dir)
  {
    s.curr.Some? &&
    (Admit(s.grid, visited, s.curr.value, d).None? ||
     (Admit(s.grid, visited, s.curr.value, d) == Some(true) && MakeState(s.grid, s.path + [d]).None?))
  }

  /** One `# check <direction>` block: no child, or the one child for `d`. */
  function Try(s: State, visited: set<Pos>, d: Dir): (r: Option<seq<State>>)
    requires s.curr.Some?
    ensures r.None? <==> Fails(s, visited, d)
    ensures r.Some? ==> |r.value| <= 1 && (|r.value| == 1 <==> Admitted(s, visited, d))
    ensures r.Some? && |r.value| == 1 ==> Spawned(s, visited, d, r.value[0])
  {
    var ok :- Admit(s.grid, visited, s.curr.value, d);
    if !ok then Some([])
    else
      var child :- MakeState(s.grid, s.path + [d]);
      Some([child])
  }

  /** One block, stated cell by cell: when the parent's row and the target
      cell exist, the test never raises, and the block yields a child
      exactly when the target is not in row 0 (north) or column 0 (west),
      is unvisited and is blank or the goal. The only other outcome is the
      IndexError of the child's own replay. */
  lemma TryCell(s: State, visited: set<Pos>, d: Dir)
    requires s.curr.Some? && 0 <= s.curr.value.row < |s.grid|
    requires var q := Step(s.curr.value, d); 0 <= q.row < |s.grid| && 0 <= q.col < |s.grid[q.row]|
    ensures var q := Step(s.curr.value, d);
      var passes := (d == North ==> q.row > 0) && (d == West ==> q.col > 0)
        && q !in visited && Open(s.grid[q.row][q.col]);
      && (Try(s, visited, d).None? <==> passes && MakeState(s.grid, s.path + [d]).None?)
      && (Try(s, visited, d).Some? ==> (|Try(s, visited, d).value| == 1 <==> passes))
  {
  }

  /** Directions listed in strictly increasing enumeration order. */
  predicate Ordered(ds: seq<Dir>)
  {
    forall i, j :: 0 <= i < j < |ds| ==> Rank(ds[i]) < Rank(ds[j])
  }

  /** The `# check` blocks for the directions `ds`, one after the other. */
  function TryAll(s: State, visited: set<Pos>, ds: seq<Dir>): Option<seq<State>>
    requires s.curr.Some?
    decreases |ds|
  {
    if |ds| == 0 then Some([])
    else
      var first :- Try(s, visited, ds[0]);
      var rest :- TryAll(s, visited, ds[1..]);
      Some(first + rest)
  }

  /** `TryAll` raises exactly when one of its blocks raises. */
  lemma {:induction false} TryAllFails(s: State, visited: set<Pos>, ds: seq<Dir>)
    requires s.curr.Some?
    ensures TryAll(s, visited, ds).None? <==> exists i :: 0 <= i < |ds| && Fails(s, visited, ds[i])
    decreases |ds|
  {
    if |ds| > 0 {
      var tail := ds[1..];
      TryAllFails(s, visited, tail);
      if Try(s, visited, ds[0]).Some? && TryAll(s, visited, tail).None? {
        var i :| 0 <= i < |tail| && Fails(s, visited, tail[i]);
        assert Fails(s, visited, ds[i + 1]);
      }
    }
  }

  /** Every child of `TryAll` is the one spawned by a direction of `ds`. */
  lemma {:induction false} TryAllSpawned(s: State, visited: set<Pos>, ds: seq<Dir>)
    requires s.curr.Some?
    ensures TryAll(s, visited, ds).Some? ==> Spawns(s, visited, ds, TryAll(s, visited, ds).value)
    decreases |ds|
  {
    if |ds| > 0 {
      var tail := ds[1..];
      TryAllSpawned(s, visited, tail);
      var t := Try(s, visited, ds[0]);
      if t.Some? && TryAll(s, visited, tail).Some? {
        var first := t.value;
        var rest := TryAll(s, visited, tail).value;
        var kids := first + rest;
        assert TryAll(s, visited, ds) == Some(kids);
        forall i | 0 <= i < |kids|
          ensures |kids[i].path| == |s.path| + 1 && kids[i].path[|s.path|] in ds
          ensures Spawned(s, visited, kids[i].path[|s.path|], kids[i])
        {
          if i < |first| {
            assert kids[i] == first[0];
          } else {
            assert kids[i] == rest[i - |first|];
          }
        }
      }
    }
  }

  /** Every child of `TryAll` extends the parent's path by one direction of
      `ds`. */
  lemma {:induction false} TryAllDirs(s: State, visited: set<Pos>, ds: seq<Dir>)
    requires s.curr.Some?
    ensures TryAll(s, visited, ds).Some? ==> DirsFrom(s, ds, TryAll(s, visited, ds).value)
    decreases |ds|
  {
    if |ds| > 0 {
      var tail := ds[1..];
      TryAllDirs(s, visited, tail);
      var t := Try(s, visited, ds[0]);
      if t.Some? && TryAll(s, visited, tail).Some? {
        var first := t.value;
        var rest := TryAll(s, visited, tail).value;
        var kids := first + rest;
        assert TryAll(s, visited, ds) == Some(kids);
        assert |first| == 1 ==> first[0].path == s.path + [ds[0]];
        forall i | 0 <= i < |kids|
          ensures |kids[i].path| == |s.path| + 1 && kids[i].path[..|s.path|] == s.path && kids[i].path[|s.path|] in ds
        {
          if i < |first| {
            assert kids[i] == first[0];
          } else {
            assert kids[i] == rest[i - |first|];
          }
        }
      }
    }
  }

  /** Each child extends the parent's path by one direction of `ds`. */
  ghost predicate DirsFrom(s: State, ds: seq<Dir>, kids: seq<State>)
  {
    forall i :: 0 <= i < |kids| ==>
      |kids[i].path| == |s.path| + 1 && kids[i].path[..|s.path|] == s.path && kids[i].path[|s.path|] in ds
  }

  /** For ordered directions, the children of `TryAll` come in the order of
      their directions, so there is at most one per direction. */
  lemma {:induction false} TryAllOrdered(s: State, visited: set<Pos>, ds: seq<Dir>)
    requires s.curr.Some? && Ordered(ds)
    ensures TryAll(s, visited, ds).Some? ==> |TryAll(s, visited, ds).value| <= |ds|
    ensures TryAll(s, visited, ds).Some? ==> InOrder(s, TryAll(s, visited, ds).value)
    decreases |ds|
  {
    if |ds| > 0 {
      var tail := ds[1..];
      TryAllOrdered(s, visited, tail);
      TryAllDirs(s, visited, tail);
      var t := Try(s, visited, ds[0]);
      if t.Some? && TryAll(s, visited, tail).Some? {
        assert TryAll(s, visited, ds) == Some(t.value + TryAll(s, visited, tail).value);
        forall e | e in tail ensures Rank(ds[0]) < Rank(e) {
          OrderedTail(ds, e);
        }
        InOrderCons(s, ds[0], t.value, tail, TryAll(s, visited, tail).value);
      }
    }
  }

  /** Putting at most one child for a direction before children of strictly
      later directions keeps them in order. */
  lemma InOrderCons(s: State, d: Dir, first: seq<State>, tail: seq<Dir>, rest: seq<State>)
    requires |first| <= 1 && (|first| == 1 ==> first[0].path == s.path + [d])
    requires DirsFrom(s, tail, rest) && InOrder(s, rest)
    requires forall e :: e in tail ==> Rank(d) < Rank(e)
    ensures InOrder(s, first + rest)
  {
    var kids := first + rest;
    forall i, j | 0 <= i < j < |kids|
      ensures Rank(kids[i].path[|s.path|]) < Rank(kids[j].path[|s.path|])
    {
      if i < |first| {
        assert kids[i] == first[0];
        assert kids[j] == rest[j - |first|];
      } else {
        assert kids[i] == rest[i - |first|] && kids[j] == rest[j - |first|];
      }
    }
  }

  lemma OrderedTail(ds: seq<Dir>, e: Dir)
    requires Ordered(ds) && |ds| > 0 && e in ds[1..]
    ensures Rank(ds[0]) < Rank(e)
  {
    var k :| 0 <= k < |ds| - 1 && ds[1..][k] == e;
    assert ds[k + 1] == e;
  }

  /** Every admitted direction of `ds` has its child among those of `TryAll`. */
  lemma {:induction false} TryAllComplete(s: State, visited: set<Pos>, ds: seq<Dir>, d: Dir)
    requires s.curr.Some? && d in ds && Admitted(s, visited, d) && TryAll(s, visited, ds).Some?
    ensures exists i :: 0 <= i < |TryAll(s, visited, ds).value| && TryAll(s, visited, ds).value[i].path == s.path + [d]
    decreases |ds|
  {
    var tail := ds[1..];
    var first := Try(s, visited, ds[0]).value;
    var rest := TryAll(s, visited, tail).value;
    var kids := first + rest;
    assert TryAll(s, visited, ds) == Some(kids);
    if ds[0] == d {
      assert kids[0] == first[0];
    } else {
      assert d in tail;
      TryAllComplete(s, visited, tail, d);
      var i :| 0 <= i < |rest| && rest[i].path == s.path + [d];
      assert kids[|first| + i] == rest[i];
    }
  }

  /** Each child was spawned by a direction of `ds`. */
  ghost predicate Spawns(s: State, visited: set<Pos>, ds: seq<Dir>, kids: seq<State>)
  {
    forall i :: 0 <= i < |kids| ==>
      |kids[i].path| == |s.path| + 1 && kids[i].path[|s.path|] in ds
      && Spawned(s, visited, kids[i].path[|s.path|], kids[i])
  }

  /** The children's directions strictly increase in enumeration order. */
  ghost predicate InOrder(s: State, kids: seq<State>)
  {
    forall i, j :: 0 <= i < j < |kids| ==>
      |kids[i].path| > |s.path| && |kids[j].path| > |s.path| &&
      Rank(kids[i].path[|s.path|]) < Rank(kids[j].path[|s.path|])
  }

  /** `expand`: the `# check` blocks for north, south, west and east. `None`
      when the Python code raises IndexError: the state has no current position,
      or a test or a child's replay reads outside the map. */
  function Expand(s: State, visited: set<Pos>): Option<seq<State>>
  {
    if s.curr.None? then None else TryAll(s, visited, Directions)
  }

  /** The enumeration order of `expand`. */
  const Directions: seq<Dir> := [North, South, West, East]

  lemma EveryDirectionListed()
    ensures Ordered(Directions)
    ensures forall d :: Directions[Rank(d)] == d
  {
  }

  /** `expand` raises exactly when there is no current position or the
      block of some direction raises. */
  lemma ExpandFails(s: State, visited: set<Pos>)
    ensures Expand(s, visited).None? <==> s.curr.None? || exists d :: Fails(s, visited, d)
  {
    if s.curr.Some? {
      EveryDirectionListed();
      TryAllFails(s, visited, Directions);
      if Expand(s, visited).Some? {
        forall d ensures !Fails(s, visited, d) {
          assert Directions[Rank(d)] == d;
        }
      } else {
        var i :| 0 <= i < |Directions| && Fails(s, visited, Directions[i]);
      }
    }
  }

  /** When `expand` returns, it returns at most four children, in the order
      north, south, west, east, each a fresh state of the parent's grid whose
      path is the parent's plus an admitted direction. */
  lemma ExpandChildren(s: State, visited: set<Pos>)
    ensures Expand(s, visited).Some? ==> |Expand(s, visited).value| <= 4
    ensures Expand(s, visited).Some? ==> Spawns(s, visited, Directions, Expand(s, visited).value)
    ensures Expand(s, visited).Some? ==> InOrder(s, Expand(s, visited).value)
  {
    if s.curr.Some? {
      EveryDirectionListed();
      TryAllSpawned(s, visited, Directions);
      TryAllOrdered(s, visited, Directions);
    }
  }

  /** When `expand` returns, every direction whose test passes has its child. */
  lemma ExpandComplete(s: State, visited: set<Pos>, d: Dir)
    requires Admitted(s, visited, d) && Expand(s, visited).Some?
    ensures exists i :: 0 <= i < |Expand(s, visited).value| && Expand(s, visited).value[i].path == s.path + [d]
  {
    EveryDirectionListed();
    assert Directions[Rank(d)] == d;
    TryAllComplete(s, visited, Directions, d);
  }
}

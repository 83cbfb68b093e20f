/** `SearchMap.buildMap`: synthesise a bordered map from its width, height,
    start, goal and wall coordinates. Coordinates here are `[x, y]`, that is
    (column, row), unlike every other position in the engine. */
module BuildMap {
  import opened Wrappers
  import opened Grids
  import opened SearchMap
  import Python
  import Validator

  /** `ValueError` raised by the argument checks, or an `IndexError` raised
      while stamping a coordinate that is outside the map. */
  datatype BuildError = ValueError(message: string) | IndexError

  const WidthMessage: string := "Width must be a value greater than 2"
  const HeightMessage: string := "Height must be a value greater than 2"
  const StartMessage: string := "Start must be an array with containing with only x,y values"
  const EndMessage: string := "End must be an array with containing with only x,y values"

  /** `ch * n` */
  function Repeat(ch: char, n: nat): (r: string)
    ensures |r| == n && forall i :: 0 <= i < n ==> r[i] == ch
  {
    seq(n, _ => ch)
  }

  /** Row `y` of the blank map: '+', '-' fill, '+' for the top and bottom
      rows, and '|', blank fill, '|' for the others. */
  function BlankRow(width: int, height: int, y: nat): string
    requires width > 2
  {
    if y == 0 || y == height - 1 then "+" + Repeat('-', width - 2) + "+"
    else "|" + Repeat(' ', width - 2) + "|"
  }

  /** The blank bordered map of `height` rows. */
  function Blank(width: int, height: int): Grid
    requires width > 2 && height > 2
  {
    seq(height, y requires 0 <= y => BlankRow(width, height, y))
  }

  /** `m[y] = m[y][0:x] + ch + m[y][x+1:width]`, with Python's subscript on
      the row list and slices on the row. `None` for an IndexError. */
  function Put(m: Grid, x: int, y: int, ch: char, width: int): Option<Grid>
  {
    var i :- Python.Index(|m|, y);
    Some(m[i := Python.Splice(m[i], x, ch, width)])
  }

  /** The wall loop: stamp 'X' at every `[x, y]` of `land`, in order. An
      entry with fewer than two elements raises IndexError. */
  function PutAll(m: Grid, land: seq<seq<int>>, width: int): Option<Grid>
    decreases |land|
  {
    if |land| == 0 then Some(m)
    else if |land[0]| < 2 then None
    else
      var m' :- Put(m, land[0][0], land[0][1], 'X', width);
      PutAll(m', land[1..], width)
  }

  /** `buildMap`: the argument checks in the order the Python code makes them,
      then the blank map with 'S', 'G' and each 'X' stamped in turn, then the
      state of that map with an empty path. */
  function Build(width: int, height: int, start: seq<int>, end: seq<int>, land: seq<seq<int>>)
    : (r: Result<State, BuildError>)
    ensures width <= 2 ==> r == Err(ValueError(WidthMessage))
    ensures width > 2 && height <= 2 ==> r == Err(ValueError(HeightMessage))
    ensures width > 2 && height > 2 && |start| != 2 ==> r == Err(ValueError(StartMessage))
    ensures width > 2 && height > 2 && |start| == 2 && |end| != 2 ==> r == Err(ValueError(EndMessage))
    ensures (r.Err? && r.error.ValueError?) <==> width <= 2 || height <= 2 || |start| != 2 || |end| != 2
    ensures r.Ok? ==> r.value.path == [] && r.value.cost == 0 && r.value.curr == r.value.start
    ensures r.Ok? ==> r.value.start == Locate(r.value.grid, 'S') && r.value.goal == Locate(r.value.grid, 'G')
  {
    if width <= 2 then Err(ValueError(WidthMessage))
    else if height <= 2 then Err(ValueError(HeightMessage))
    else if |start| != 2 then Err(ValueError(StartMessage))
    else if |end| != 2 then Err(ValueError(EndMessage))
    else
      match Synthesise(width, height, start, end, land)
      case None => Err(IndexError)
      case Some(m) =>
        var s := MakeState(m, []);
        assert Locate(m, 'S').Some? ==> Trace(Locate(m, 'S').value, []) == [];
        assert s.Some?;
        Ok(s.value)
  }

  /** The map `buildMap` draws, before any state is made from it. */
  function Synthesise(width: int, height: int, start: seq<int>, end: seq<int>, land: seq<seq<int>>)
    : Option<Grid>
    requires width > 2 && height > 2 && |start| == 2 && |end| == 2
  {
    var m0 := Blank(width, height);
    var m1 :- Put(m0, start[0], start[1], 'S', width);
    var m2 :- Put(m1, end[0], end[1], 'G', width);
    PutAll(m2, land, width)
  }

  // ---------------------------------------------------------------------
  // The map built from in-range coordinates, cell by cell.

  /** `[x, y]` is a cell of a `width` by `height` map. */
  predicate Fits(xy: seq<int>, width: int, height: int)
  {
    |xy| == 2 && 0 <= xy[0] < width && 0 <= xy[1] < height
  }

  /** Some wall entry is `[x, y]`. */
  predicate Walled(land: seq<seq<int>>, x: int, y: int)
  {
    exists i :: 0 <= i < |land| && |land[i]| >= 2 && land[i][0] == x && land[i][1] == y
  }

  /** The border character of the blank map at row `y`, column `x`. */
  function Frame(width: int, height: int, y: int, x: int): char
  {
    if y == 0 || y == height - 1 then (if x == 0 || x == width - 1 then '+' else '-')
    else (if x == 0 || x == width - 1 then '|' else ' ')
  }

  /** What the built map holds at row `y`, column `x`: a wall wins over the
      goal, the goal over the start, and the start over the blank map,
      because each is stamped after the one before. */
  function BuiltCell(width: int, height: int, start: seq<int>, end: seq<int>, land: seq<seq<int>>, y: int, x: int)
    : char
  {
    if Walled(land, x, y) then 'X'
    else if end == [x, y] then 'G'
    else if start == [x, y] then 'S'
    else Frame(width, height, y, x)
  }

  lemma BlankCells(width: int, height: int)
    requires width > 2 && height > 2
    ensures Rectangular(Blank(width, height), height, width)
    ensures forall y, x :: 0 <= y < height && 0 <= x < width ==> Blank(width, height)[y][x] == Frame(width, height, y, x)
  {
    var m := Blank(width, height);
    forall y, x | 0 <= y < height && 0 <= x < width
      ensures |m[y]| == width && m[y][x] == Frame(width, height, y, x)
    {
      assert m[y] == BlankRow(width, height, y);
    }
  }

  lemma PutInside(m: Grid, x: int, y: int, ch: char, width: nat, height: nat)
    requires Rectangular(m, height, width) && 0 <= x < width && 0 <= y < height
    ensures Put(m, x, y, ch, width) == Some(m[y := m[y][x := ch]])
  {
    Python.SpliceInside(m[y], x, ch, width);
  }

  lemma {:induction false} PutAllInside(m: Grid, land: seq<seq<int>>, width: nat, height: nat)
    requires Rectangular(m, height, width)
    requires forall i :: 0 <= i < |land| ==> Fits(land[i], width, height)
    ensures PutAll(m, land, width).Some?
    ensures Rectangular(PutAll(m, land, width).value, height, width)
    ensures forall y, x :: 0 <= y < height && 0 <= x < width ==>
      PutAll(m, land, width).value[y][x] == if Walled(land, x, y) then 'X' else m[y][x]
    decreases |land|
  {
    if |land| > 0 {
      var l := land[0];
      PutInside(m, l[0], l[1], 'X', width, height);
      var m' := m[l[1] := m[l[1]][l[0] := 'X']];
      PutAllInside(m', land[1..], width, height);
      forall y, x | 0 <= y < height && 0 <= x < width
        ensures Walled(land, x, y) <==> (x == l[0] && y == l[1]) || Walled(land[1..], x, y)
      {
        if Walled(land, x, y) {
          var i :| 0 <= i < |land| && |land[i]| >= 2 && land[i][0] == x && land[i][1] == y;
          if i > 0 {
            assert land[1..][i - 1] == land[i];
          }
        }
        if Walled(land[1..], x, y) {
          var i :| 0 <= i < |land[1..]| && |land[1..][i]| >= 2 && land[1..][i][0] == x && land[1..][i][1] == y;
          assert land[i + 1] == land[1..][i];
        }
      }
    }
  }

  /** For in-range coordinates, `buildMap` succeeds with `height` rows of
      length `width` whose cells are the blank bordered map with 'S', then
      'G', then every 'X' stamped over it. */
  lemma BuildInside(width: int, height: int, start: seq<int>, end: seq<int>, land: seq<seq<int>>)
    requires width > 2 && height > 2
    requires Fits(start, width, height) && Fits(end, width, height)
    requires forall i :: 0 <= i < |land| ==> Fits(land[i], width, height)
    ensures Build(width, height, start, end, land).Ok?
    ensures BuiltGrid(Build(width, height, start, end, land).value.grid, width, height, start, end, land)
  {
    SynthesiseInside(width, height, start, end, land);
  }

  lemma SynthesiseInside(width: int, height: int, start: seq<int>, end: seq<int>, land: seq<seq<int>>)
    requires width > 2 && height > 2
    requires Fits(start, width, height) && Fits(end, width, height)
    requires forall i :: 0 <= i < |land| ==> Fits(land[i], width, height)
    ensures Synthesise(width, height, start, end, land).Some?
    ensures BuiltGrid(Synthesise(width, height, start, end, land).value, width, height, start, end, land)
  {
    var m0 := Blank(width, height);
    BlankCells(width, height);
    PutInside(m0, start[0], start[1], 'S', width, height);
    var m1 := m0[start[1] := m0[start[1]][start[0] := 'S']];
    PutInside(m1, end[0], end[1], 'G', width, height);
    var m2 := m1[end[1] := m1[end[1]][end[0] := 'G']];
    StampCells(width, height, start, end, m0, m1, m2);
    PutAllInside(m2, land, width, height);
    var m := Synthesise(width, height, start, end, land).value;
    assert m == PutAll(m2, land, width).value;
  }

  /** The blank map with 'S' and then 'G' stamped: the goal wins over the
      start, the start over the frame. */
  lemma StampCells(width: int, height: int, start: seq<int>, end: seq<int>, m0: Grid, m1: Grid, m2: Grid)
    requires width > 2 && height > 2
    requires Fits(start, width, height) && Fits(end, width, height)
    requires m0 == Blank(width, height)
    requires m1 == m0[start[1] := m0[start[1]][start[0] := 'S']]
    requires m2 == m1[end[1] := m1[end[1]][end[0] := 'G']]
    ensures Rectangular(m2, height, width)
    ensures forall y, x :: 0 <= y < height && 0 <= x < width ==>
      m2[y][x] == BuiltCell(width, height, start, end, [], y, x)
  {
    BlankCells(width, height);
    forall y, x | 0 <= y < height && 0 <= x < width
      ensures m2[y][x] == BuiltCell(width, height, start, end, [], y, x)
    {
      assert start == [start[0], start[1]] && end == [end[0], end[1]];
    }
  }

  /** The grid cells of a map built from in-range coordinates. */
  ghost predicate BuiltGrid(g: Grid, width: nat, height: nat, start: seq<int>, end: seq<int>, land: seq<seq<int>>)
  {
    Rectangular(g, height, width)
    && forall y, x :: 0 <= y < height && 0 <= x < width ==> g[y][x] == BuiltCell(width, height, start, end, land, y, x)
  }

  lemma OnlyCell(g: Grid, ch: char, p: Pos)
    requires HasAt(g, ch, p) && forall q :: HasAt(g, ch, q) ==> q == p
    ensures Locate(g, ch) == Some(p)
  {
    LocateFirst(g, ch, p);
  }

  lemma BuiltMarkers(g: Grid, width: nat, height: nat, start: seq<int>, end: seq<int>, land: seq<seq<int>>)
    requires BuiltGrid(g, width, height, start, end, land)
    requires Fits(start, width, height) && Fits(end, width, height)
    requires start != end && !Walled(land, start[0], start[1]) && !Walled(land, end[0], end[1])
    ensures Locate(g, 'S') == Some(Pos(start[1], start[0]))
    ensures Locate(g, 'G') == Some(Pos(end[1], end[0]))
  {
    assert start == [start[0], start[1]] && end == [end[0], end[1]];
    forall q | HasAt(g, 'S', q) ensures q == Pos(start[1], start[0]) {
      assert g[q.row][q.col] == BuiltCell(width, height, start, end, land, q.row, q.col);
    }
    assert g[start[1]][start[0]] == BuiltCell(width, height, start, end, land, start[1], start[0]);
    OnlyCell(g, 'S', Pos(start[1], start[0]));
    forall q | HasAt(g, 'G', q) ensures q == Pos(end[1], end[0]) {
      assert g[q.row][q.col] == BuiltCell(width, height, start, end, land, q.row, q.col);
    }
    assert g[end[1]][end[0]] == BuiltCell(width, height, start, end, land, end[1], end[0]);
    OnlyCell(g, 'G', Pos(end[1], end[0]));
  }

  /** The only 'S' of the built map is at the start and the only 'G' at the
      goal, unless a later stamp covered them, so the state's start and goal
      are the `start` and `end` coordinates turned into (row, column). */
  lemma BuildMarkers(width: int, height: int, start: seq<int>, end: seq<int>, land: seq<seq<int>>)
    requires width > 2 && height > 2
    requires Fits(start, width, height) && Fits(end, width, height)
    requires forall i :: 0 <= i < |land| ==> Fits(land[i], width, height)
    requires start != end && !Walled(land, start[0], start[1]) && !Walled(land, end[0], end[1])
    ensures Build(width, height, start, end, land).Ok?
    ensures Build(width, height, start, end, land).value.start == Some(Pos(start[1], start[0]))
    ensures Build(width, height, start, end, land).value.goal == Some(Pos(end[1], end[0]))
  {
    BuildInside(width, height, start, end, land);
    BuiltMarkers(Build(width, height, start, end, land).value.grid, width, height, start, end, land);
  }

  lemma BuiltBorders(g: Grid, width: nat, height: nat, start: seq<int>, end: seq<int>, land: seq<seq<int>>)
    requires width > 2 && height > 2
    requires BuiltGrid(g, width, height, start, end, land)
    requires Fits(start, width - 1, height - 1) && Fits(end, width - 1, height - 1)
    requires 0 < start[0] && 0 < start[1] && 0 < end[0] && 0 < end[1]
    requires forall i :: 0 <= i < |land| ==> Fits(land[i], width - 1, height - 1) && 0 < land[i][0] && 0 < land[i][1]
    ensures IsRectangular(g) && Validator.CornersOk(g)
    ensures forall i :: 0 <= i < |g| ==> !Validator.BadRow(g, i)
  {
    forall y, x | 0 <= y < height && 0 <= x < width && (y == 0 || y == height - 1 || x == 0 || x == width - 1)
      ensures g[y][x] == Frame(width, height, y, x)
    {
      assert g[y][x] == BuiltCell(width, height, start, end, land, y, x);
      assert start != [x, y] && end != [x, y];
    }
    forall i | 0 <= i < |g| ensures !Validator.BadRow(g, i) {
      Validator.DashesOnlyAt(g[i]);
    }
  }

  /** A map built with every stamp strictly inside the border, and with
      neither marker covered, passes `validateMap`. */
  lemma BuildValid(width: int, height: int, start: seq<int>, end: seq<int>, land: seq<seq<int>>)
    requires width > 2 && height > 2
    requires Fits(start, width - 1, height - 1) && Fits(end, width - 1, height - 1)
    requires 0 < start[0] && 0 < start[1] && 0 < end[0] && 0 < end[1]
    requires forall i :: 0 <= i < |land| ==> Fits(land[i], width - 1, height - 1) && 0 < land[i][0] && 0 < land[i][1]
    requires start != end && !Walled(land, start[0], start[1]) && !Walled(land, end[0], end[1])
    ensures Build(width, height, start, end, land).Ok?
    ensures IsRectangular(Build(width, height, start, end, land).value.grid)
    ensures Validator.Validate(Build(width, height, start, end, land).value) == (true, Validator.ValidMessage)
  {
    BuildInside(width, height, start, end, land);
    BuildMarkers(width, height, start, end, land);
    BuiltBorders(Build(width, height, start, end, land).value.grid, width, height, start, end, land);
  }
}

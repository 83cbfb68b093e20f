/** `validateMap`: structural checks run before a search starts. */
module Validator {
  import opened Wrappers
  import opened Grids
  import opened SearchMap
  import Python

  const CornerMessage: string := "The corners must be a '+' character"
  const TopEdgeMessage: string := "The top edges must consist of '-' characters"
  const SideEdgeMessage: string := "The corner edges must consist of '|' characters."
  const MarkerMessage: string := "A start ('S') and a goal ('G') must be included in the map."
  const ValidMessage: string := "The map is valid."

  /** The four corners are '+'. The right-hand corners are read at the width
      of the first row, for the bottom row too. */
  predicate CornersOk(g: Grid)
    requires IsRectangular(g)
  {
    var w := |g[0]|;
    g[0][0] == '+' && g[0][w - 1] == '+' && g[|g| - 1][0] == '+' && g[|g| - 1][w - 1] == '+'
  }

  /** Row `i` is the top or the bottom row. */
  predicate IsEdgeRow(g: Grid, i: nat)
  {
    i == 0 || i == |g| - 1
  }

  /** Row `i` fails the edge checks: a top or bottom row with a character
      other than '-' strictly between its ends, or any other row that does
      not start and end with '|'. */
  predicate BadRow(g: Grid, i: nat)
    requires IsRectangular(g) && i < |g|
  {
    if IsEdgeRow(g, i) then exists j :: 1 <= j < |g[i]| - 1 && g[i][j] != '-'
    else g[i][0] != '|' || g[i][|g[i]| - 1] != '|'
  }

  /** The message the edge loop reports for a failing row `i`. */
  function RowMessage(g: Grid, i: nat): string
  {
    if IsEdgeRow(g, i) then TopEdgeMessage else SideEdgeMessage
  }

  /** `line[1:len(line)-1]`: the row without its two end characters. */
  function Inner(line: string): string
  {
    Python.Slice(line, 1, |line| - 1)
  }

  /** The inner loop over `line[1:len(line)-1]`: every character is '-'. */
  predicate DashesOnly(line: string)
  {
    forall m :: m in Inner(line) ==> m == '-'
  }

  lemma DashesOnlyAt(line: string)
    ensures DashesOnly(line) <==> forall j :: 1 <= j < |line| - 1 ==> line[j] == '-'
  {
    var inner := Inner(line);
    if |line| >= 3 {
      assert inner == line[1..|line| - 1];
      if DashesOnly(line) {
        forall j | 1 <= j < |line| - 1 ensures line[j] == '-' {
          assert inner[j - 1] in inner;
        }
      }
    } else {
      assert inner == [];
    }
  }

  /** Row `j` is the first failing row from row `i` on. */
  predicate FirstBad(g: Grid, i: nat, j: nat)
    requires IsRectangular(g)
  {
    i <= j < |g| && BadRow(g, j) && forall k :: i <= k < j ==> !BadRow(g, k)
  }

  /** The edge loop of `validateMap` from row `i` on: the message of the
      first failing row, or `None` when every row passes. */
  function CheckEdges(g: Grid, i: nat): (r: Option<string>)
    requires IsRectangular(g) && i <= |g|
    ensures r.None? <==> forall j :: i <= j < |g| ==> !BadRow(g, j)
    ensures forall j :: FirstBad(g, i, j) ==> r == Some(RowMessage(g, j))
    decreases |g| - i
  {
    if i == |g| then None
    else
      var bad := if IsEdgeRow(g, i) then !DashesOnly(g[i]) else g[i][0] != '|' || g[i][|g[i]| - 1] != '|';
      DashesOnlyAt(g[i]);
      assert bad == BadRow(g, i);
      if bad then
        assert forall j :: FirstBad(g, i, j) ==> j == i;
        Some(RowMessage(g, i))
      else
        var r := CheckEdges(g, i + 1);
        assert forall j :: FirstBad(g, i, j) ==> FirstBad(g, i + 1, j);
        r
  }

  /** `validateMap`: corners, then edges row by row, then the markers; the
      first failing check decides the message. */
  function Validate(s: State): (r: (bool, string))
    requires IsRectangular(s.grid)
    ensures r.0 <==> CornersOk(s.grid) && (forall i :: 0 <= i < |s.grid| ==> !BadRow(s.grid, i))
                     && s.start.Some? && s.goal.Some?
    ensures r.0 ==> r.1 == ValidMessage
    ensures !CornersOk(s.grid) ==> r == (false, CornerMessage)
    ensures CornersOk(s.grid) ==> forall i :: FirstBad(s.grid, 0, i) ==> r == (false, RowMessage(s.grid, i))
    ensures (CornersOk(s.grid) && (forall i :: 0 <= i < |s.grid| ==> !BadRow(s.grid, i))
             && (s.start.None? || s.goal.None?)) ==> r == (false, MarkerMessage)
  {
    var g := s.grid;
    var w := |g[0]|;
    if g[0][0] != '+' || g[0][w - 1] != '+' then (false, CornerMessage)
    else if g[|g| - 1][0] != '+' || g[|g| - 1][w - 1] != '+' then (false, CornerMessage)
    else match CheckEdges(g, 0)
      case Some(message) => (false, message)
      case None =>
        if s.start.None? || s.goal.None? then (false, MarkerMessage)
        else (true, ValidMessage)
  }
}

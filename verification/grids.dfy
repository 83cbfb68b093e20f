/** Grids, positions and moves: the vocabulary shared by every part of the
    search engine (`PathFinder.py`). */
module Grids {
  import opened Wrappers

  /** A map as one string per row. */
  type Grid = seq<string>

  /** A position as (row, column), the Python code's two-element `[row, col]`
      list. The one-element sentinel `[-1]` is modelled as `None`. */
  datatype Pos = Pos(row: int, col: int)

  /** The four moves of the `directions` table. */
  datatype Dir = North | South | West | East

  /** One move: north and south change the row by -1 and +1, west and east
      change the column by -1 and +1. */
  function Step(p: Pos, d: Dir): Pos
  {
    match d
    case North => Pos(p.row - 1, p.col)
    case South => Pos(p.row + 1, p.col)
    case West => Pos(p.row, p.col - 1)
    case East => Pos(p.row, p.col + 1)
  }

  /** The position reached by replaying `path` from `p`, one move at a time. */
  function Walk(p: Pos, path: seq<Dir>): Pos
    decreases |path|
  {
    if |path| == 0 then p else Step(Walk(p, path[..|path| - 1]), path[|path| - 1])
  }

  /** The positions stepped onto by `path` from `p`, one per move, in order:
      the trace of the shorter path followed by where the last move lands. */
  function Trace(p: Pos, path: seq<Dir>): (t: seq<Pos>)
    ensures |t| == |path|
    decreases |path|
  {
    if |path| == 0 then []
    else
      var init := path[..|path| - 1];
      Trace(p, init) + [Walk(p, path)]
  }

  /** The final position is the start plus the summed deltas: one row down
      per south move, up per north move, one column right per east move and
      left per west move. */
  lemma {:induction false} WalkDisplacement(p: Pos, path: seq<Dir>)
    ensures Walk(p, path).row == p.row + multiset(path)[South] - multiset(path)[North]
    ensures Walk(p, path).col == p.col + multiset(path)[East] - multiset(path)[West]
    decreases |path|
  {
    if |path| > 0 {
      var init := path[..|path| - 1];
      WalkDisplacement(p, init);
      assert path == init + [path[|path| - 1]];
      assert multiset(path) == multiset(init) + multiset{path[|path| - 1]};
    }
  }

  /** `line.find(ch)`: the first index holding `ch`, or -1 when none does. */
  function Find(line: string, ch: char): (r: int)
    ensures -1 <= r < |line|
    ensures r == -1 <==> ch !in line
    ensures 0 <= r ==> line[r] == ch && ch !in line[..r]
    decreases |line|
  {
    if |line| == 0 then -1
    else if line[0] == ch then 0
    else
      var k := Find(line[1..], ch);
      assert line == [line[0]] + line[1..];
      if k == -1 then -1
      else
        assert line[..k + 1] == [line[0]] + line[1..][..k];
        k + 1
  }

  /** `ch` is at `p` in `g`. */
  predicate HasAt(g: Grid, ch: char, p: Pos)
  {
    0 <= p.row < |g| && 0 <= p.col < |g[p.row]| && g[p.row][p.col] == ch
  }

  /** `a` comes before `b` in row-major (top-down, left-to-right) order. */
  predicate Earlier(a: Pos, b: Pos)
  {
    a.row < b.row || (a.row == b.row && a.col < b.col)
  }

  /** `p` is the first cell holding `ch` in row-major order. */
  ghost predicate IsFirst(g: Grid, ch: char, p: Pos)
  {
    HasAt(g, ch, p) && forall q :: HasAt(g, ch, q) ==> !Earlier(q, p)
  }

  /** The row scan of `__start`/`__goal`, from row `i` on. */
  function LocateFrom(g: Grid, ch: char, i: nat): (r: Option<Pos>)
    requires i <= |g|
    ensures r.None? <==> forall q :: HasAt(g, ch, q) ==> q.row < i
    ensures r.Some? ==> HasAt(g, ch, r.value) && i <= r.value.row
    ensures r.Some? ==> forall q :: HasAt(g, ch, q) && i <= q.row ==> !Earlier(q, r.value)
    decreases |g| - i
  {
    if i == |g| then None
    else
      var k := Find(g[i], ch);
      if k >= 0 then
        assert forall c :: 0 <= c < k ==> g[i][..k][c] == g[i][c];
        Some(Pos(i, k))
      else
        LocateFrom(g, ch, i + 1)
  }

  /** `__start` (for 'S') and `__goal` (for 'G'): the first row, top-down,
      containing `ch` and the first occurrence within that row; `None` (the
      Python code's `[-1]`) when no row contains it. */
  function Locate(g: Grid, ch: char): (r: Option<Pos>)
    ensures r.None? <==> forall q :: !HasAt(g, ch, q)
    ensures r.Some? ==> IsFirst(g, ch, r.value)
  {
    LocateFrom(g, ch, 0)
  }

  /** Conversely, the first cell holding `ch` is what `Locate` returns. */
  lemma LocateFirst(g: Grid, ch: char, p: Pos)
    requires IsFirst(g, ch, p)
    ensures Locate(g, ch) == Some(p)
  {
    var l := Locate(g, ch).value;
    assert !Earlier(l, p) && !Earlier(p, l);
  }

  /** If a grid only loses cells holding `ch` (never gains one), and still
      holds `ch` where `Locate` found it, `Locate` finds the same cell. This
      is why dotting visited cells never moves the start or the goal. */
  lemma LocateKept(g: Grid, g': Grid, ch: char)
    requires Locate(g, ch).Some? && HasAt(g', ch, Locate(g, ch).value)
    requires forall q :: HasAt(g', ch, q) ==> HasAt(g, ch, q)
    ensures Locate(g', ch) == Locate(g, ch)
  {
    LocateFirst(g', ch, Locate(g, ch).value);
  }

  /** Every row of `g` has length `w` and there are `h` rows. */
  predicate Rectangular(g: Grid, h: nat, w: nat)
  {
    |g| == h && forall i :: 0 <= i < |g| ==> |g[i]| == w
  }

  /** A non-empty rectangular grid whose rows are non-empty. */
  predicate IsRectangular(g: Grid)
  {
    |g| > 0 && |g[0]| > 0 && Rectangular(g, |g|, |g[0]|)
  }

  /** `p` lies within an `h` by `w` rectangle. */
  predicate Inside(p: Pos, h: nat, w: nat)
  {
    0 <= p.row < h && 0 <= p.col < w
  }
}

/** The parts of Python's sequence semantics the search engine relies on:
    subscripts with negative indices and clamped slices. */
module Python {
  import opened Wrappers

  /** The position `s[i]` reads in a sequence of length `n`: negative
      indices count from the end; `None` where Python raises IndexError. */
  function Index(n: nat, i: int): (r: Option<nat>)
    ensures r.Some? <==> 0 <= i + n && i < n
    ensures r.Some? ==> r.value < n && (r.value == i || r.value == i + n)
  {
    if 0 <= i < n then Some(i)
    else if 0 <= i + n && i < 0 then Some(i + n)
    else None
  }

  /** `s[i]`, or `None` for an IndexError. */
  function At<T>(s: seq<T>, i: int): (r: Option<T>)
    ensures r.Some? <==> 0 <= i + |s| && i < |s|
    ensures 0 <= i < |s| ==> r == Some(s[i])
  {
    match Index(|s|, i)
    case None => None
    case Some(k) => Some(s[k])
  }

  /** A slice bound normalised the way Python does: negative bounds count
      from the end, and the result is clamped into `[0, n]`. */
  function Bound(n: nat, i: int): (b: nat)
    ensures b <= n
    ensures 0 <= i <= n ==> b == i
  {
    if i < 0 then (if i + n < 0 then 0 else i + n)
    else if i > n then n
    else i
  }

  /** `s[i:j]`; never fails, empty when the normalised bounds cross. */
  function Slice<T>(s: seq<T>, i: int, j: int): seq<T>
  {
    var a := Bound(|s|, i);
    var b := Bound(|s|, j);
    if a < b then s[a..b] else []
  }

  /** `line[0:c] + ch + line[c+1:end]`, the idiom the Python code uses to write
      one character into a string. */
  function Splice(line: string, c: int, ch: char, end: int): string
  {
    Slice(line, 0, c) + [ch] + Slice(line, c + 1, end)
  }

  /** Inside the line, and with `end` at or past its length, the idiom is a
      plain one-character update that keeps the length. */
  lemma SpliceInside(line: string, c: int, ch: char, end: int)
    requires 0 <= c < |line| <= end
    ensures Splice(line, c, ch, end) == line[c := ch]
    ensures |Splice(line, c, ch, end)| == |line|
  {
    assert Slice(line, 0, c) == line[..c];
    assert Slice(line, c + 1, end) == line[c + 1..];
    assert line[c := ch] == line[..c] + [ch] + line[c + 1..];
  }
}

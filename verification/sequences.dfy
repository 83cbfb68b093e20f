/** Sequence reversal, the order in which depth-first search leaves the
    children it pushes one by one onto the front of its frontier. */
module Sequences {

  /** The elements of `s` last to first. */
  function Reversed<T>(s: seq<T>): (r: seq<T>)
    ensures |r| == |s| && forall i :: 0 <= i < |s| ==> r[i] == s[|s| - 1 - i]
  {
    if |s| == 0 then []
    else
      var back := Reversed(s[1..]);
      assert forall i :: 0 <= i < |s| - 1 ==> back[i] == s[|s| - 1 - i];
      back + [s[0]]
  }

  /** Pushing the head of `s` in front of the reversed tail. */
  lemma PushReversed<T>(s: seq<T>, tail: seq<T>)
    requires |s| > 0
    ensures Reversed(s[1..]) + ([s[0]] + tail) == Reversed(s) + tail
  {
    assert Reversed(s) == Reversed(s[1..]) + [s[0]];
    Regroup(Reversed(s[1..]), s[0], tail);
  }

  lemma Regroup<T>(front: seq<T>, x: T, tail: seq<T>)
    ensures front + ([x] + tail) == (front + [x]) + tail
  {
  }
}

/** Python's `sorted(s, key=...)`: an ascending sort that keeps elements with
    equal keys in their original order. The search uses it to reorder the
    frontier for the informed strategies. */
module StableSort {

  /** Keys never decrease along `s`. */
  predicate Sorted<T>(s: seq<T>, key: T -> real)
  {
    forall i, j :: 0 <= i < j < |s| ==> key(s[i]) <= key(s[j])
  }

  /** The elements of `s` whose key is `k`, in their order in `s`. */
  function Select<T>(s: seq<T>, key: T -> real, k: real): seq<T>
  {
    if |s| == 0 then []
    else (if key(s[0]) == k then [s[0]] else []) + Select(s[1..], key, k)
  }

  /** `x` placed before the first element whose key is not smaller. */
  function Insert<T>(x: T, s: seq<T>, key: T -> real): (r: seq<T>)
    ensures |r| == |s| + 1
  {
    if |s| == 0 || key(x) <= key(s[0]) then [x] + s
    else [s[0]] + Insert(x, s[1..], key)
  }

  /** Insertion sort, inserting the earliest element last so that it lands
      before every later element of equal key. */
  function SortBy<T>(s: seq<T>, key: T -> real): (r: seq<T>)
    ensures |r| == |s|
  {
    if |s| == 0 then [] else Insert(s[0], SortBy(s[1..], key), key)
  }

  lemma {:induction false} InsertSorted<T>(x: T, s: seq<T>, key: T -> real)
    requires Sorted(s, key)
    ensures Sorted(Insert(x, s, key), key)
    decreases |s|
  {
    if |s| > 0 && key(s[0]) < key(x) {
      var t := s[1..];
      InsertSorted(x, t, key);
      var r := Insert(x, s, key);
      var u := Insert(x, t, key);
      assert r == [s[0]] + u;
      InsertMembers(x, t, key);
      forall j | 0 < j < |r| ensures key(s[0]) <= key(r[j]) {
        assert r[j] == u[j - 1];
        assert u[j - 1] in multiset(u);
        if r[j] != x {
          var m :| 0 <= m < |t| && t[m] == r[j];
          assert t[m] == s[m + 1];
        }
      }
    }
  }

  lemma {:induction false} InsertMembers<T>(x: T, s: seq<T>, key: T -> real)
    ensures multiset(Insert(x, s, key)) == multiset(s) + multiset{x}
    decreases |s|
  {
    if |s| > 0 && key(s[0]) < key(x) {
      InsertMembers(x, s[1..], key);
      assert s == [s[0]] + s[1..];
    }
  }

  /** The sort returns its keys in ascending order. */
  lemma {:induction false} SortBySorted<T>(s: seq<T>, key: T -> real)
    ensures Sorted(SortBy(s, key), key)
    decreases |s|
  {
    if |s| > 0 {
      SortBySorted(s[1..], key);
      InsertSorted(s[0], SortBy(s[1..], key), key);
    }
  }

  /** The sort returns the same elements, each as often as before. */
  lemma {:induction false} SortByPermutes<T>(s: seq<T>, key: T -> real)
    ensures multiset(SortBy(s, key)) == multiset(s)
    decreases |s|
  {
    if |s| > 0 {
      SortByPermutes(s[1..], key);
      InsertMembers(s[0], SortBy(s[1..], key), key);
      assert s == [s[0]] + s[1..];
    }
  }

  lemma {:induction false} InsertSelect<T>(x: T, s: seq<T>, key: T -> real, k: real)
    ensures Select(Insert(x, s, key), key, k) ==
      (if key(x) == k then [x] else []) + Select(s, key, k)
    decreases |s|
  {
    var r := Insert(x, s, key);
    if |s| == 0 || key(x) <= key(s[0]) {
      assert r[1..] == s;
    } else {
      var t := s[1..];
      InsertSelect(x, t, key, k);
      assert r[0] == s[0] && r[1..] == Insert(x, t, key);
      var head := if key(s[0]) == k then [s[0]] else [];
      var mine := if key(x) == k then [x] else [];
      assert head == [] || mine == [];
      calc {
        Select(r, key, k);
        head + Select(Insert(x, t, key), key, k);
        head + (mine + Select(t, key, k));
        mine + (head + Select(t, key, k));
        mine + Select(s, key, k);
      }
    }
  }

  /** Stability: for every key, the elements carrying it keep their order. */
  lemma {:induction false} SortByStable<T>(s: seq<T>, key: T -> real, k: real)
    ensures Select(SortBy(s, key), key, k) == Select(s, key, k)
    decreases |s|
  {
    if |s| > 0 {
      SortByStable(s[1..], key, k);
      InsertSelect(s[0], SortBy(s[1..], key), key, k);
    }
  }

  /** Sorting by a strictly increasing function of the key gives the same
      order as sorting by the key itself. */
  lemma {:induction false} SortByMonotone<T>(s: seq<T>, key: T -> real, f: real -> real)
    requires forall a, b :: a < b ==> f(a) < f(b)
    ensures SortBy(s, Compose(f, key)) == SortBy(s, key)
    decreases |s|
  {
    if |s| > 0 {
      SortByMonotone(s[1..], key, f);
      InsertMonotone(s[0], SortBy(s[1..], key), key, f);
    }
  }

  /** The key `f` applied after `key`. */
  function Compose<T>(f: real -> real, key: T -> real): T -> real
  {
    x => f(key(x))
  }

  lemma {:induction false} InsertMonotone<T>(x: T, s: seq<T>, key: T -> real, f: real -> real)
    requires forall a, b :: a < b ==> f(a) < f(b)
    ensures Insert(x, s, Compose(f, key)) == Insert(x, s, key)
    decreases |s|
  {
    if |s| > 0 {
      InsertMonotone(x, s[1..], key, f);
      if key(x) <= key(s[0]) {
        assert !(f(key(s[0])) < f(key(x)));
      } else {
        assert f(key(s[0])) < f(key(x));
      }
    }
  }
}

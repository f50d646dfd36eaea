/** Sequence helpers standing in for the Python list/bisect/sorted built-ins the core relies on. */
module Seqs {

  function Abs(x: real): real
  {
    if x < 0.0 then -x else x
  }

  function Last<T>(s: seq<T>): T
    requires |s| > 0
  {
    s[|s| - 1]
  }

  function Sum(s: seq<real>): real
  {
    if s == [] then 0.0 else Sum(s[..|s| - 1]) + s[|s| - 1]
  }

  lemma {:induction false} SumAppend(a: seq<real>, b: seq<real>)
    ensures Sum(a + b) == Sum(a) + Sum(b)
  {
    if b == [] {
      assert a + b == a;
    } else {
      assert (a + b)[..|a + b| - 1] == a + b[..|b| - 1];
      SumAppend(a, b[..|b| - 1]);
    }
  }

  lemma {:induction false} SumCons(x: real, xs: seq<real>)
    ensures Sum([x] + xs) == x + Sum(xs)
  {
    SumAppend([x], xs);
    assert [x][..0] == [];
  }

  /** Concatenation of a list of lists, in order. */
  function Concat<T>(ls: seq<seq<T>>): seq<T>
  {
    if ls == [] then [] else Concat(ls[..|ls| - 1]) + ls[|ls| - 1]
  }

  lemma {:induction false} ConcatAppend<T>(a: seq<seq<T>>, b: seq<seq<T>>)
    ensures Concat(a + b) == Concat(a) + Concat(b)
  {
    if b == [] {
      assert a + b == a;
    } else {
      assert (a + b)[..|a + b| - 1] == a + b[..|b| - 1];
      ConcatAppend(a, b[..|b| - 1]);
    }
  }

  /** Replacing one list of `ls` changes the multiset of all elements by exactly that list's change. */
  lemma {:induction false} ConcatUpdate<T>(ls: seq<seq<T>>, i: nat, l: seq<T>)
    requires i < |ls|
    ensures multiset(Concat(ls[i := l])) == multiset(Concat(ls)) - multiset(ls[i]) + multiset(l)
  {
    assert ls == ls[..i] + [ls[i]] + ls[i + 1..];
    assert ls[i := l] == ls[..i] + [l] + ls[i + 1..];
    ConcatAppend(ls[..i] + [ls[i]], ls[i + 1..]);
    ConcatAppend(ls[..i], [ls[i]]);
    ConcatAppend(ls[..i] + [l], ls[i + 1..]);
    ConcatAppend(ls[..i], [l]);
    assert Concat([ls[i]]) == ls[i] by { assert [ls[i]][..0] == []; }
    assert Concat([l]) == l by { assert [l][..0] == []; }
  }

  function Reverse<T>(s: seq<T>): (r: seq<T>)
    ensures |r| == |s|
  {
    if s == [] then [] else [s[|s| - 1]] + Reverse(s[..|s| - 1])
  }

  lemma {:induction false} ReverseMultiset<T>(s: seq<T>)
    ensures multiset(Reverse(s)) == multiset(s)
  {
    if s != [] {
      ReverseMultiset(s[..|s| - 1]);
      assert s == s[..|s| - 1] + [s[|s| - 1]];
    }
  }

  predicate StrictlyIncreasing(s: seq<real>)
  {
    forall i, j :: 0 <= i < j < |s| ==> s[i] < s[j]
  }

  predicate NonDecreasing(s: seq<real>)
  {
    forall i, j :: 0 <= i < j < |s| ==> s[i] <= s[j]
  }

  /** Python's `bisect.bisect_left`: the first position whose element is not below `x`. */
  function BisectLeft(s: seq<real>, x: real): (i: nat)
    ensures i <= |s|
    ensures forall j :: 0 <= j < i ==> s[j] < x
    ensures i < |s| ==> x <= s[i]
  {
    if s == [] || x <= s[0] then 0 else 1 + BisectLeft(s[1..], x)
  }

  /** Python's `bisect.bisect_right` (alias `bisect.bisect`): the first position whose element exceeds `x`. */
  function BisectRight(s: seq<real>, x: real): (i: nat)
    ensures i <= |s|
    ensures forall j :: 0 <= j < i ==> s[j] <= x
    ensures i < |s| ==> x < s[i]
  {
    if s == [] || x < s[0] then 0 else 1 + BisectRight(s[1..], x)
  }

  /** Python's `list.index(x)`: position of the first element equal to `x`. */
  function IndexOf<T(==)>(s: seq<T>, x: T): (i: nat)
    requires x in s
    ensures i < |s| && s[i] == x && x !in s[..i]
  {
    if s[0] == x then 0 else 1 + IndexOf(s[1..], x)
  }

  /** Python's `list.remove(x)`: drops the first element equal to `x`. */
  function RemoveFirst<T(==)>(s: seq<T>, x: T): (r: seq<T>)
    requires x in s
    ensures |r| == |s| - 1
    ensures multiset(r) == multiset(s) - multiset{x}
  {
    var i := IndexOf(s, x);
    assert s == s[..i] + [s[i]] + s[i + 1..];
    s[..i] + s[i + 1..]
  }

  /** Stable insertion of `x` after every element whose key is not above its own. */
  function InsertBy<T>(sorted: seq<T>, x: T, key: T -> real): (r: seq<T>)
    ensures multiset(r) == multiset(sorted) + multiset{x}
    ensures |r| == |sorted| + 1
  {
    if sorted == [] || key(x) < key(sorted[|sorted| - 1]) then
      if sorted == [] then [x]
      else
        var r := InsertBy(sorted[..|sorted| - 1], x, key) + [sorted[|sorted| - 1]];
        assert sorted == sorted[..|sorted| - 1] + [sorted[|sorted| - 1]];
        r
    else sorted + [x]
  }

  predicate SortedBy<T>(s: seq<T>, key: T -> real)
  {
    forall i, j :: 0 <= i < j < |s| ==> key(s[i]) <= key(s[j])
  }

  lemma {:induction false} InsertByBounded<T>(sorted: seq<T>, x: T, key: T -> real, b: real)
    requires forall i :: 0 <= i < |sorted| ==> key(sorted[i]) <= b
    requires key(x) <= b
    ensures forall i :: 0 <= i < |InsertBy(sorted, x, key)| ==> key(InsertBy(sorted, x, key)[i]) <= b
  {
    if sorted != [] && key(x) < key(sorted[|sorted| - 1]) {
      var init := sorted[..|sorted| - 1];
      InsertByBounded(init, x, key, b);
      var r := InsertBy(sorted, x, key);
      var r' := InsertBy(init, x, key);
      assert r == r' + [sorted[|sorted| - 1]];
      forall i | 0 <= i < |r| ensures key(r[i]) <= b {
        if i < |r'| {
          assert r[i] == r'[i];
        } else {
          assert r[i] == sorted[|sorted| - 1];
        }
      }
    }
  }

  lemma {:induction false} InsertBySorted<T>(sorted: seq<T>, x: T, key: T -> real)
    requires SortedBy(sorted, key)
    ensures SortedBy(InsertBy(sorted, x, key), key)
  {
    var r := InsertBy(sorted, x, key);
    if sorted != [] {
      var init := sorted[..|sorted| - 1];
      var l := sorted[|sorted| - 1];
      if key(x) < key(l) {
        InsertBySorted(init, x, key);
        InsertByBounded(init, x, key, key(l));
        var r' := InsertBy(init, x, key);
        assert r == r' + [l];
        forall i, j | 0 <= i < j < |r| ensures key(r[i]) <= key(r[j]) {
          assert r[i] == r'[i];
          if j < |r'| {
            assert r[j] == r'[j];
          } else {
            assert r[j] == l;
            assert key(r'[i]) <= key(l);
          }
        }
      } else {
        assert r == sorted + [x];
        forall i, j | 0 <= i < j < |r| ensures key(r[i]) <= key(r[j]) {
          if j == |sorted| && i < |sorted| - 1 {
            assert key(sorted[i]) <= key(l);
          }
        }
      }
    }
  }

  /** Python's stable `list.sort(key=...)`, as insertion sort. */
  function SortBy<T>(s: seq<T>, key: T -> real): (r: seq<T>)
    ensures multiset(r) == multiset(s)
    ensures |r| == |s|
  {
    if s == [] then []
    else
      assert s == s[..|s| - 1] + [s[|s| - 1]];
      InsertBy(SortBy(s[..|s| - 1], key), s[|s| - 1], key)
  }

  lemma {:induction false} SortBySorted<T>(s: seq<T>, key: T -> real)
    ensures SortedBy(SortBy(s, key), key)
  {
    if s != [] {
      SortBySorted(s[..|s| - 1], key);
      InsertBySorted(SortBy(s[..|s| - 1], key), s[|s| - 1], key);
    }
  }

  /** The elements of `s` whose key is `c`, in their order in `s`. */
  function WithKey<T>(s: seq<T>, key: T -> real, c: real): (r: seq<T>)
    ensures |r| <= |s|
  {
    if s == [] then []
    else WithKey(s[..|s| - 1], key, c) + (if key(s[|s| - 1]) == c then [s[|s| - 1]] else [])
  }

  /** Inserting `x` adds it to the end of its own key's run and leaves every other run alone. */
  lemma {:induction false} InsertByWithKey<T>(sorted: seq<T>, x: T, key: T -> real, c: real)
    ensures WithKey(InsertBy(sorted, x, key), key, c) == WithKey(sorted, key, c) + (if key(x) == c then [x] else [])
  {
    var r := InsertBy(sorted, x, key);
    if sorted != [] && key(x) < key(sorted[|sorted| - 1]) {
      var init, l := sorted[..|sorted| - 1], sorted[|sorted| - 1];
      InsertByWithKey(init, x, key, c);
      var r' := InsertBy(init, x, key);
      assert r == r' + [l];
      assert r[..|r| - 1] == r';
    } else {
      assert r == sorted + [x];
      assert r[..|r| - 1] == sorted;
    }
  }

  /** The sort is stable: elements with equal keys keep their relative order. */
  lemma {:induction false} SortByStable<T>(s: seq<T>, key: T -> real, c: real)
    ensures WithKey(SortBy(s, key), key, c) == WithKey(s, key, c)
  {
    if s != [] {
      SortByStable(s[..|s| - 1], key, c);
      InsertByWithKey(SortBy(s[..|s| - 1], key), s[|s| - 1], key, c);
    }
  }

  /** `bisect.bisect_right` over integer keys. */
  function BisectRightInt(s: seq<int>, x: int): (i: nat)
    ensures i <= |s|
    ensures forall j :: 0 <= j < i ==> s[j] <= x
    ensures i < |s| ==> x < s[i]
  {
    if s == [] || x < s[0] then 0 else 1 + BisectRightInt(s[1..], x)
  }
}

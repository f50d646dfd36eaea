/**
 * Dictionaries with integer keys, kept as association lists sorted by key:
 * the shape `sorted(dict(pairs).items())` produces in Python.
 */
module Dicts {
  import opened Wrappers

  predicate KeysIncreasing<V>(al: seq<(int, V)>)
  {
    forall i, j :: 0 <= i < j < |al| ==> al[i].0 < al[j].0
  }

  function Keys<V>(al: seq<(int, V)>): (ks: seq<int>)
    ensures |ks| == |al|
    ensures forall i :: 0 <= i < |al| ==> ks[i] == al[i].0
  {
    if al == [] then [] else [al[0].0] + Keys(al[1..])
  }

  /** The value stored under `k`, if any. */
  function Get<V>(al: seq<(int, V)>, k: int): Option<V>
  {
    if al == [] then None
    else if al[0].0 == k then Some(al[0].1)
    else Get(al[1..], k)
  }

  /** `d[k] = v`: overwrite the entry for `k`, or insert it in key order. */
  function Put<V>(al: seq<(int, V)>, k: int, v: V): (r: seq<(int, V)>)
    requires KeysIncreasing(al)
    ensures KeysIncreasing(r)
    ensures forall i :: 0 <= i < |r| ==> r[i].0 == k || exists j :: 0 <= j < |al| && al[j].0 == r[i].0
    ensures |r| > 0 && (r[0].0 == k || r[0].0 == al[0].0)
  {
    if al == [] then [(k, v)]
    else if k < al[0].0 then [(k, v)] + al
    else if k == al[0].0 then [(k, v)] + al[1..]
    else
      var rest := Put(al[1..], k, v);
      var r := [al[0]] + rest;
      assert forall i :: 0 <= i < |rest| ==> al[0].0 < rest[i].0 by {
        forall i | 0 <= i < |rest| ensures al[0].0 < rest[i].0 {
          if rest[i].0 != k {
            var j :| 0 <= j < |al[1..]| && al[1..][j].0 == rest[i].0;
            assert al[j + 1].0 == rest[i].0;
          }
        }
      }
      forall i | 0 <= i < |r| ensures r[i].0 == k || exists j :: 0 <= j < |al| && al[j].0 == r[i].0 {
        if i == 0 {
          assert al[0].0 == r[0].0;
        } else if r[i].0 != k {
          assert r[i] == rest[i - 1];
          var j :| 0 <= j < |al[1..]| && al[1..][j].0 == rest[i - 1].0;
          assert al[j + 1].0 == r[i].0;
        }
      }
      r
  }

  lemma {:induction false} GetPut<V>(al: seq<(int, V)>, k: int, v: V, k': int)
    requires KeysIncreasing(al)
    ensures Get(Put(al, k, v), k') == if k' == k then Some(v) else Get(al, k')
  {
    if al != [] && k > al[0].0 {
      GetPut(al[1..], k, v, k');
      assert Put(al, k, v)[1..] == Put(al[1..], k, v);
    } else if al != [] && k == al[0].0 && k' != k {
      assert Put(al, k, v)[1..] == al[1..];
    }
  }

  /** `dict(pairs)`, sorted by key: later pairs overwrite earlier ones with the same key. */
  function FromPairs<V>(pairs: seq<(int, V)>): (al: seq<(int, V)>)
    ensures KeysIncreasing(al)
  {
    if pairs == [] then []
    else Put(FromPairs(pairs[..|pairs| - 1]), pairs[|pairs| - 1].0, pairs[|pairs| - 1].1)
  }

  /** Reference definition: the value of the last pair whose key is `k`. */
  function LastValue<V>(pairs: seq<(int, V)>, k: int): Option<V>
  {
    if pairs == [] then None
    else if pairs[|pairs| - 1].0 == k then Some(pairs[|pairs| - 1].1)
    else LastValue(pairs[..|pairs| - 1], k)
  }

  /** Building the dictionary keeps the last value given for every key and invents no key. */
  lemma {:induction false} FromPairsLastWins<V>(pairs: seq<(int, V)>, k: int)
    ensures Get(FromPairs(pairs), k) == LastValue(pairs, k)
  {
    if pairs != [] {
      var init := pairs[..|pairs| - 1];
      FromPairsLastWins(init, k);
      GetPut(FromPairs(init), pairs[|pairs| - 1].0, pairs[|pairs| - 1].1, k);
    }
  }
}

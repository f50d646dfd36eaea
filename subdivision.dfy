/**
 * What `subdivide_leaves` does to a grid's proxy lists, stated against the grid
 * before the call. With the lists `L` and offsets `O` of the leaves before the
 * call and the leaf indices `ts` subdivided so far (ascending, none of them the
 * next downbeat), every original leaf `j` turns into
 *   - one empty list per ratio when `j` was subdivided,
 *   - its proxies from its own start offset on when leaf `j - 1` was subdivided,
 *   - its own list otherwise;
 * and the call returns, target by target, the target's list followed by the
 * proxies of the next leaf lying before that leaf's start.
 */
module Subdivisions {
  import opened Seqs
  import opened QEventProxies

  /** `QGridLeaf.preceding_q_event_proxies`: the proxies lying before the leaf's start offset, in order. */
  function Preceding(ps: seq<Proxy>, start: real): (r: seq<Proxy>)
    ensures forall i :: 0 <= i < |r| ==> r[i].offset < start
  {
    if ps == [] then []
    else Preceding(ps[..|ps| - 1], start) + (if Last(ps).offset < start then [Last(ps)] else [])
  }

  /** `QGridLeaf.succeeding_q_event_proxies`: the proxies at or after the leaf's start offset, in order. */
  function Succeeding(ps: seq<Proxy>, start: real): (r: seq<Proxy>)
    ensures forall i :: 0 <= i < |r| ==> start <= r[i].offset
  {
    if ps == [] then []
    else Succeeding(ps[..|ps| - 1], start) + (if start <= Last(ps).offset then [Last(ps)] else [])
  }

  /** Preceding and succeeding proxies split the leaf's list: together they are exactly its proxies. */
  lemma {:induction false} PartitionConserves(ps: seq<Proxy>, start: real)
    ensures multiset(Preceding(ps, start)) + multiset(Succeeding(ps, start)) == multiset(ps)
  {
    if ps != [] {
      PartitionConserves(ps[..|ps| - 1], start);
      assert ps == ps[..|ps| - 1] + [Last(ps)];
    }
  }

  /** The lists of the fresh leaves of a subdivision: one empty list per ratio. */
  function Empties(k: nat): (r: seq<seq<Proxy>>)
    ensures |r| == k && forall i :: 0 <= i < k ==> r[i] == []
  {
    seq(k, i => [])
  }

  lemma {:induction false} ConcatEmpties(k: nat)
    ensures Concat(Empties(k)) == []
  {
    if k > 0 {
      ConcatEmpties(k - 1);
      assert Empties(k)[..k - 1] == Empties(k - 1);
    }
  }

  predicate Ascending(ts: seq<int>)
  {
    forall i, j :: 0 <= i < j < |ts| ==> ts[i] < ts[j]
  }

  /** Every target is a leaf of the tree, not the next downbeat (the last of `n` leaves). */
  predicate InnerTargets(ts: seq<int>, n: nat)
  {
    forall i :: 0 <= i < |ts| ==> 0 <= ts[i] && ts[i] + 1 < n
  }

  /** What original leaf `j` has turned into once the targets `ts` (with ratios `rs`) are subdivided. */
  function Kept(L: seq<seq<Proxy>>, O: seq<real>, ts: seq<int>, rs: seq<seq<real>>, j: nat): seq<seq<Proxy>>
    requires |L| == |O| && j < |L| && |ts| == |rs|
  {
    if ts == [] then [L[j]]
    else if j == Last(ts) then Empties(|Last(rs)|)
    else if j == Last(ts) + 1 then [Succeeding(L[j], O[j])]
    else Kept(L, O, ts[..|ts| - 1], rs[..|rs| - 1], j)
  }

  function KeptAll(L: seq<seq<Proxy>>, O: seq<real>, ts: seq<int>, rs: seq<seq<real>>): (k: seq<seq<seq<Proxy>>>)
    requires |L| == |O| && |ts| == |rs|
    ensures |k| == |L| && forall j :: 0 <= j < |L| ==> k[j] == Kept(L, O, ts, rs, j)
  {
    seq(|L|, j requires 0 <= j < |L| => Kept(L, O, ts, rs, j))
  }

  /** The grid's proxy lists, in leaf order, after the targets `ts` are subdivided. */
  function NewLists(L: seq<seq<Proxy>>, O: seq<real>, ts: seq<int>, rs: seq<seq<real>>): seq<seq<Proxy>>
    requires |L| == |O| && |ts| == |rs|
  {
    Concat(KeptAll(L, O, ts, rs))
  }

  /** The list target `t` holds when its turn comes, the targets `ts` before it being done. */
  function Current(L: seq<seq<Proxy>>, O: seq<real>, ts: seq<int>, t: int): seq<Proxy>
    requires |L| == |O| && 0 <= t < |L|
  {
    if ts != [] && Last(ts) == t - 1 then Succeeding(L[t], O[t]) else L[t]
  }

  /**
   * What the call returns: per target, its list, then the next leaf's proxies lying before
   * that leaf's start. (A target that is no inner leaf would add nothing; none reaches here.)
   */
  function Returned(L: seq<seq<Proxy>>, O: seq<real>, ts: seq<int>): seq<Proxy>
    requires |L| == |O|
  {
    if ts == [] then []
    else
      var init, t := ts[..|ts| - 1], Last(ts);
      if 0 <= t && t + 1 < |L| then Returned(L, O, init) + Current(L, O, init, t) + Preceding(L[t + 1], O[t + 1])
      else Returned(L, O, init)
  }

  /** How many positions the leaves after all targets have moved right: each target adds its ratio count less one. */
  function Shift(rs: seq<seq<real>>): int
  {
    if rs == [] then 0 else Shift(rs[..|rs| - 1]) + |Last(rs)| - 1
  }

  /**
   * Every original leaf from `a` on (and the end, `|L|`) starts at its own index moved
   * right by `shift` among the lists after the targets `ts` are subdivided.
   */
  ghost predicate Positioned(L: seq<seq<Proxy>>, O: seq<real>, ts: seq<int>, rs: seq<seq<real>>, a: int, shift: int)
    requires |L| == |O| && |ts| == |rs|
  {
    forall j :: 0 <= a <= j <= |L| ==> |Concat(KeptAll(L, O, ts, rs)[..j])| == j + shift
  }

  /** A leaf that is neither a target nor right after one keeps its list. */
  lemma {:induction false} KeptUntouched(L: seq<seq<Proxy>>, O: seq<real>, ts: seq<int>, rs: seq<seq<real>>, j: nat)
    requires |L| == |O| && j < |L| && |ts| == |rs|
    requires forall i :: 0 <= i < |ts| ==> ts[i] != j && ts[i] + 1 != j
    ensures Kept(L, O, ts, rs, j) == [L[j]]
  {
    if ts != [] {
      KeptUntouched(L, O, ts[..|ts| - 1], rs[..|rs| - 1], j);
    }
  }

  /** A target turns into one empty list per ratio. */
  lemma {:induction false} KeptTarget(L: seq<seq<Proxy>>, O: seq<real>, ts: seq<int>, rs: seq<seq<real>>, i: nat)
    requires |L| == |O| && |ts| == |rs| && Ascending(ts) && InnerTargets(ts, |L|) && i < |ts|
    ensures Kept(L, O, ts, rs, ts[i]) == Empties(|rs[i]|)
  {
    if i < |ts| - 1 {
      assert ts[i] < Last(ts);
      KeptTarget(L, O, ts[..|ts| - 1], rs[..|rs| - 1], i);
    }
  }

  /** The leaf after a target, when not a target itself, keeps only its proxies from its start offset on. */
  lemma {:induction false} KeptFollower(L: seq<seq<Proxy>>, O: seq<real>, ts: seq<int>, rs: seq<seq<real>>, i: nat)
    requires |L| == |O| && |ts| == |rs| && Ascending(ts) && InnerTargets(ts, |L|) && i < |ts|
    requires i == |ts| - 1 || ts[i + 1] != ts[i] + 1
    ensures Kept(L, O, ts, rs, ts[i] + 1) == [Succeeding(L[ts[i] + 1], O[ts[i] + 1])]
  {
    if i < |ts| - 1 {
      assert ts[i + 1] <= Last(ts);
      KeptFollower(L, O, ts[..|ts| - 1], rs[..|rs| - 1], i);
    }
  }

  /**
   * Subdividing one more target `t`, past all earlier ones: the target's entry becomes
   * the empty lists, the next leaf's entry its succeeding proxies, and nothing else changes.
   */
  lemma {:induction false} KeptStep(L: seq<seq<Proxy>>, O: seq<real>, ts: seq<int>, rs: seq<seq<real>>, t: int, r: seq<real>)
    requires |L| == |O| && |ts| == |rs| && 0 <= t && t + 1 < |L| && Ascending(ts)
    requires forall i :: 0 <= i < |ts| ==> ts[i] < t
    ensures var K, K' := KeptAll(L, O, ts, rs), KeptAll(L, O, ts + [t], rs + [r]);
      && K[t] == [Current(L, O, ts, t)]
      && K[t + 1] == [L[t + 1]]
      && K' == K[t := Empties(|r|)][t + 1 := [Succeeding(L[t + 1], O[t + 1])]]
  {
    var K, K' := KeptAll(L, O, ts, rs), KeptAll(L, O, ts + [t], rs + [r]);
    assert (ts + [t])[..|ts|] == ts && (rs + [r])[..|rs|] == rs;
    KeptUntouched(L, O, ts, rs, t + 1);
    if ts != [] && Last(ts) == t - 1 {
      assert K[t] == [Succeeding(L[t], O[t])];
    } else {
      assert forall i :: 0 <= i < |ts| ==> ts[i] <= Last(ts);
      KeptUntouched(L, O, ts, rs, t);
    }
  }

  lemma {:induction false} ConcatSplit<T>(ls: seq<seq<T>>, k: nat)
    requires k < |ls|
    ensures Concat(ls) == Concat(ls[..k]) + ls[k] + Concat(ls[k + 1..])
  {
    var a, x, b := ls[..k], ls[k], ls[k + 1..];
    assert ls == a + [x] + b;
    ConcatAppend(a + [x], b);
    ConcatAppend(a, [x]);
    ConcatSingle(x);
  }

  lemma {:induction false} ConcatSingle<T>(x: seq<T>)
    ensures Concat([x]) == x
  {
    assert [x][..0] == [];
  }

  /** Both sides of the two entries a step rewrites, written out around a common head and tail. */
  lemma {:induction false} ConcatSplitTwo<T>(K: seq<seq<T>>, t: nat, a: seq<T>, b: seq<T>)
    requires t + 1 < |K|
    ensures Concat(K) == Concat(K[..t]) + K[t] + K[t + 1] + Concat(K[t + 2..])
    ensures Concat(K[t := a][t + 1 := b]) == Concat(K[..t]) + a + b + Concat(K[t + 2..])
  {
    var K' := K[t := a][t + 1 := b];
    ConcatSplitNext(K, t);
    ConcatSplitNext(K', t);
    assert K'[..t] == K[..t] && K'[t + 2..] == K[t + 2..] && K'[t] == a && K'[t + 1] == b;
  }

  lemma {:induction false} ConcatSplitNext<T>(K: seq<seq<T>>, t: nat)
    requires t + 1 < |K|
    ensures Concat(K) == Concat(K[..t]) + K[t] + K[t + 1] + Concat(K[t + 2..])
  {
    ConcatSplit(K, t);
    ConcatSplit(K[t + 1..], 0);
    assert K[t + 1..][1..] == K[t + 2..] && K[t + 1..][..0] == [] && K[t + 1..][0] == K[t + 1];
  }

  /**
   * Where leaves sit after a step: every original leaf after target `t` moves right by
   * the target's ratio count less one, given where it sat before.
   */
  lemma {:induction false} PositionsStep(L: seq<seq<Proxy>>, O: seq<real>, ts: seq<int>, rs: seq<seq<real>>, t: int, r: seq<real>, shift: int)
    requires |L| == |O| && |ts| == |rs| && 0 <= t && t + 1 < |L| && Ascending(ts)
    requires forall i :: 0 <= i < |ts| ==> ts[i] < t
    requires Positioned(L, O, ts, rs, t, shift)
    ensures Positioned(L, O, ts + [t], rs + [r], t + 1, shift + |r| - 1)
  {
    var K, K' := KeptAll(L, O, ts, rs), KeptAll(L, O, ts + [t], rs + [r]);
    KeptStep(L, O, ts, rs, t, r);
    forall j | t + 1 <= j <= |L| ensures |Concat(K'[..j])| == j + shift + |r| - 1 {
      PrefixStep(K, K', t, j, Empties(|r|), [Succeeding(L[t + 1], O[t + 1])]);
    }
  }

  /** Leaves sitting at their positions from `a` on stay so from any later `b` on. */
  lemma {:induction false} PositionedFrom(L: seq<seq<Proxy>>, O: seq<real>, ts: seq<int>, rs: seq<seq<real>>, a: int, b: int, shift: int)
    requires |L| == |O| && |ts| == |rs| && 0 <= a <= b && Positioned(L, O, ts, rs, a, shift)
    ensures Positioned(L, O, ts, rs, b, shift)
  {
  }

  /** Before any subdivision every leaf sits at its own index. */
  lemma {:induction false} PositionsInitial(L: seq<seq<Proxy>>, O: seq<real>)
    requires |L| == |O|
    ensures Positioned(L, O, [], [], 0, 0)
  {
    forall j | 0 <= j <= |L| ensures |Concat(KeptAll(L, O, [], [])[..j])| == j {
      var h := L[..j];
      assert KeptAll(L, O, [], [])[..j] == seq(|h|, i requires 0 <= i < |h| => [h[i]]);
      ConcatSingletons(h);
    }
  }

  /** After any ascending targets, every leaf past the last of them sits `Shift(rs)` places right of its original index. */
  lemma {:induction false} PositionedAfter(L: seq<seq<Proxy>>, O: seq<real>, ts: seq<int>, rs: seq<seq<real>>)
    requires |L| == |O| && |ts| == |rs| && Ascending(ts) && InnerTargets(ts, |L|)
    ensures Positioned(L, O, ts, rs, if ts == [] then 0 else Last(ts) + 1, Shift(rs))
  {
    if ts == [] {
      PositionsInitial(L, O);
    } else {
      var init, rinit := ts[..|ts| - 1], rs[..|rs| - 1];
      var t := Last(ts);
      assert forall i :: 0 <= i < |init| ==> init[i] < t;
      PositionedAfter(L, O, init, rinit);
      PositionedFrom(L, O, init, rinit, if init == [] then 0 else Last(init) + 1, t, Shift(rinit));
      PositionsStep(L, O, init, rinit, t, Last(rs), Shift(rinit));
      assert init + [t] == ts && rinit + [Last(rs)] == rs;
    }
  }

  /** The lists before and after one step, around the untouched head and tail of kept lists. */
  lemma {:induction false} StepShape(L: seq<seq<Proxy>>, O: seq<real>, ts: seq<int>, rs: seq<seq<real>>, t: int, r: seq<real>)
    requires |L| == |O| && |ts| == |rs| && 0 <= t && t + 1 < |L| && Ascending(ts)
    requires forall i :: 0 <= i < |ts| ==> ts[i] < t
    ensures var K := KeptAll(L, O, ts, rs);
      && NewLists(L, O, ts, rs) == Concat(K[..t]) + [Current(L, O, ts, t)] + [L[t + 1]] + Concat(K[t + 2..])
      && NewLists(L, O, ts + [t], rs + [r])
         == Concat(K[..t]) + Empties(|r|) + [Succeeding(L[t + 1], O[t + 1])] + Concat(K[t + 2..])
  {
    var K := KeptAll(L, O, ts, rs);
    KeptStep(L, O, ts, rs, t, r);
    ConcatSplitTwo(K, t, Empties(|r|), [Succeeding(L[t + 1], O[t + 1])]);
  }

  /**
   * One step on the lists themselves: target `t` sits at `pos`, the next leaf right after it;
   * putting the fresh empty lists in place of the target and keeping only the next leaf's
   * succeeding proxies gives the lists of the longer target sequence.
   */
  lemma {:induction false} ListsStep(L: seq<seq<Proxy>>, O: seq<real>, ts: seq<int>, rs: seq<seq<real>>, t: int, r: seq<real>,
                                     shift: int, P: seq<seq<Proxy>>, pos: int)
    requires |L| == |O| && |ts| == |rs| && 0 <= t && t + 1 < |L| && Ascending(ts)
    requires forall i :: 0 <= i < |ts| ==> ts[i] < t
    requires Positioned(L, O, ts, rs, t, shift)
    requires P == NewLists(L, O, ts, rs) && pos == t + shift
    ensures 0 <= pos && pos + 1 < |P| && P[pos] == Current(L, O, ts, t) && P[pos + 1] == L[t + 1]
    ensures (P[..pos] + Empties(|r|) + P[pos + 1..])[pos + |r| := Succeeding(L[t + 1], O[t + 1])]
            == NewLists(L, O, ts + [t], rs + [r])
  {
    var K := KeptAll(L, O, ts, rs);
    assert |Concat(K[..t])| == pos;
    StepShape(L, O, ts, rs, t, r);
    SpliceAt(P, Concat(K[..t]), Current(L, O, ts, t), L[t + 1], Concat(K[t + 2..]),
             Empties(|r|), Succeeding(L[t + 1], O[t + 1]), pos);
  }

  lemma {:induction false} SpliceAt<T>(P: seq<T>, head: seq<T>, cur: T, next: T, tail: seq<T>, e: seq<T>, suc: T, pos: int)
    requires P == head + [cur] + [next] + tail && pos == |head|
    ensures 0 <= pos && pos + 1 < |P| && P[pos] == cur && P[pos + 1] == next
    ensures (P[..pos] + e + P[pos + 1..])[pos + |e| := suc] == head + e + [suc] + tail
  {
    assert P[..pos] == head && P[pos + 1..] == [next] + tail;
  }

  lemma {:induction false} PrefixStep<T>(K: seq<seq<T>>, K': seq<seq<T>>, t: nat, j: nat, a: seq<T>, b: seq<T>)
    requires t < j <= |K| && t + 1 < |K| && K' == K[t := a][t + 1 := b] && |K[t + 1]| == |b|
    ensures |Concat(K'[..j])| == |Concat(K[..j])| - |K[t]| + |a|
  {
    ConcatSplit(K[..j], t);
    ConcatSplit(K'[..j], t);
    assert K'[..j][..t] == K[..j][..t];
    var x, x' := K[..j][t + 1..], K'[..j][t + 1..];
    if j > t + 1 {
      ConcatSplit(x, 0);
      ConcatSplit(x', 0);
      assert x[1..] == x'[1..] && x[..0] == x'[..0];
    } else {
      assert x == [] && x' == [];
    }
  }

  /**
   * One subdivision step keeps the grid's proxies: the new lists plus what was returned
   * hold, as a multiset, what the old lists plus what was returned held.
   */
  lemma {:induction false} StepConserves(L: seq<seq<Proxy>>, O: seq<real>, ts: seq<int>, rs: seq<seq<real>>, t: int, r: seq<real>)
    requires |L| == |O| && |ts| == |rs| && InnerTargets(ts + [t], |L|) && Ascending(ts)
    requires forall i :: 0 <= i < |ts| ==> ts[i] < t
    ensures multiset(Concat(NewLists(L, O, ts + [t], rs + [r]))) + multiset(Returned(L, O, ts + [t]))
         == multiset(Concat(NewLists(L, O, ts, rs))) + multiset(Returned(L, O, ts))
  {
    assert (ts + [t])[|ts|] == t;
    var K := KeptAll(L, O, ts, rs);
    var cur, next := Current(L, O, ts, t), L[t + 1];
    var pre, suc := Preceding(next, O[t + 1]), Succeeding(next, O[t + 1]);
    StepShape(L, O, ts, rs, t, r);
    var head, tail := Concat(K[..t]), Concat(K[t + 2..]);
    ReturnedStep(L, O, ts, t);
    ConcatEmpties(|r|);
    PartitionConserves(next, O[t + 1]);
    SpliceConserves(head, tail, cur, next, pre, suc, Empties(|r|));
  }

  /** A further inner target returns its list and the next leaf's preceding proxies after what came before. */
  lemma {:induction false} ReturnedStep(L: seq<seq<Proxy>>, O: seq<real>, ts: seq<int>, t: int)
    requires |L| == |O| && 0 <= t && t + 1 < |L|
    ensures Returned(L, O, ts + [t]) == Returned(L, O, ts) + Current(L, O, ts, t) + Preceding(L[t + 1], O[t + 1])
  {
    var ts' := ts + [t];
    var init, last := ts'[..|ts'| - 1], Last(ts');
    assert Returned(L, O, ts') == Returned(L, O, init) + Current(L, O, init, last) + Preceding(L[last + 1], O[last + 1]);
    assert init == ts && last == t;
  }

  /** Swapping `[cur] + [next]` for `e + [suc]`, where `e` holds nothing and `pre` and `suc` split `next`, loses just `cur` and `pre`. */
  lemma {:induction false} SpliceConserves<T>(head: seq<seq<T>>, tail: seq<seq<T>>, cur: seq<T>, next: seq<T>, pre: seq<T>, suc: seq<T>, e: seq<seq<T>>)
    requires Concat(e) == [] && multiset(pre) + multiset(suc) == multiset(next)
    ensures multiset(Concat(head + e + [suc] + tail)) + multiset(cur) + multiset(pre)
         == multiset(Concat(head + [cur] + [next] + tail))
  {
    ConcatAppend(head + [cur] + [next], tail);
    ConcatAppend(head + [cur], [next]);
    ConcatAppend(head, [cur]);
    ConcatAppend(head + e + [suc], tail);
    ConcatAppend(head + e, [suc]);
    ConcatAppend(head, e);
    ConcatSingle(cur);
    ConcatSingle(next);
    ConcatSingle(suc);
  }

  /**
   * Proxy conservation: what the grid holds after subdividing the targets, together with
   * what the call returned, is exactly what the grid held before.
   */
  lemma {:induction false} SubdivisionConserves(L: seq<seq<Proxy>>, O: seq<real>, ts: seq<int>, rs: seq<seq<real>>)
    requires |L| == |O| && |ts| == |rs| && Ascending(ts) && InnerTargets(ts, |L|)
    ensures multiset(Concat(NewLists(L, O, ts, rs))) + multiset(Returned(L, O, ts)) == multiset(Concat(L))
  {
    if ts == [] {
      var K := KeptAll(L, O, ts, rs);
      assert K == seq(|L|, j requires 0 <= j < |L| => [L[j]]);
      ConcatSingletons(L);
    } else {
      var init, rinit := ts[..|ts| - 1], rs[..|rs| - 1];
      var t, r := Last(ts), Last(rs);
      assert init + [t] == ts && rinit + [r] == rs;
      SubdivisionConserves(L, O, init, rinit);
      StepConserves(L, O, init, rinit, t, r);
    }
  }

  lemma {:induction false} ConcatSingletons<T>(L: seq<T>)
    ensures Concat(seq(|L|, j requires 0 <= j < |L| => [L[j]])) == L
  {
    if L != [] {
      var init := L[..|L| - 1];
      ConcatSingletons(init);
      assert seq(|L|, j requires 0 <= j < |L| => [L[j]])[..|L| - 1] == seq(|init|, j requires 0 <= j < |init| => [init[j]]);
    }
  }
}

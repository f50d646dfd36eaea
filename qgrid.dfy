/**
 * The Q-grid: a rhythm tree laid out over the beat [0, 1], plus a separate
 * "next downbeat" leaf pinned at offset 1. Every leaf owns a list of event
 * proxies; the lists are kept here in leaf order, the next downbeat's last.
 */
module QGrids {
  import opened Wrappers
  import opened Seqs
  import opened Dicts
  import opened QEvents
  import opened QEventProxies
  import opened RhythmTrees
  import opened Subdivisions

  /** The leaf offsets of a grid whose tree is `root`: each tree leaf's start, then 1 for the next downbeat. */
  function GridOffsets(root: Node): (offs: seq<real>)
    ensures |offs| > 0 && Last(offs) == 1.0
  {
    Starts(Slots(root, 0.0, root.duration)) + [1.0]
  }

  /** One offset per leaf, the first 0 and the last 1, strictly increasing: what the nearest-leaf search relies on. */
  lemma {:induction false} GridOffsetsShape(root: Node)
    requires WellFormed(root) && root.duration == 1.0
    ensures var offs := GridOffsets(root);
      && |offs| == |Leaves(root)| + 1
      && offs[0] == 0.0
      && StrictlyIncreasing(offs)
      && forall i :: 0 <= i < |offs| ==> 0.0 <= offs[i] <= 1.0
  {
    var sl := Slots(root, 0.0, 1.0);
    SlotsTile(root, 0.0, 1.0);
    TilesOrdered(sl, 0.0, 1.0);
    var st := Starts(sl);
    var offs := GridOffsets(root);
    assert offs == st + [1.0];
    forall i, j | 0 <= i < j < |offs| ensures offs[i] < offs[j] {
      if j < |st| {
        assert offs[i] == st[i] && offs[j] == st[j];
      } else {
        assert offs[i] == sl[i].start;
      }
    }
  }

  /**
   * The leaf a proxy at offset `x` is fitted to: `bisect_left` finds the first
   * offset not below `x`; an exact hit takes that leaf, otherwise the right
   * neighbour wins only when strictly closer. Left of the first offset the
   * left neighbour is Python's `offsets[-1]`.
   */
  function NearestLeaf(offsets: seq<real>, x: real): (k: nat)
    requires |offsets| > 0 && x <= Last(offsets)
    ensures k < |offsets|
  {
    var i := BisectLeft(offsets, x);
    if x == offsets[i] then i
    else
      var left := if i == 0 then |offsets| - 1 else i - 1;
      if Abs(offsets[i] - x) < Abs(offsets[left] - x) then i else left
  }

  /** The chosen leaf is a nearest one, and no leaf to its left is as near: ties go to the earlier leaf. */
  lemma {:induction false} NearestLeafIsLeftmostNearest(offsets: seq<real>, x: real)
    requires |offsets| > 1 && StrictlyIncreasing(offsets) && x <= Last(offsets)
    ensures var k := NearestLeaf(offsets, x);
      && (forall j :: 0 <= j < |offsets| ==> Abs(offsets[k] - x) <= Abs(offsets[j] - x))
      && (forall j :: 0 <= j < k ==> Abs(offsets[k] - x) < Abs(offsets[j] - x))
  {
    var i := BisectLeft(offsets, x);
    var k := NearestLeaf(offsets, x);
    if x != offsets[i] && i == 0 {
      assert offsets[0] < offsets[|offsets| - 1];
      assert k == 0;
    }
    forall j | 0 <= j < |offsets| ensures Abs(offsets[k] - x) <= Abs(offsets[j] - x) {
      if j + 1 < i {
        assert offsets[j] < offsets[i - 1];
      } else if j > i {
        assert offsets[i] < offsets[j];
      }
    }
    forall j | 0 <= j < k ensures Abs(offsets[k] - x) < Abs(offsets[j] - x) {
      if j + 1 < i {
        assert offsets[j] < offsets[i - 1];
      }
    }
  }

  /** Every proxy of `ps` can be placed: none lies past the last offset. */
  predicate Placeable(ps: seq<Proxy>, offsets: seq<real>)
    requires |offsets| > 0
  {
    forall i :: 0 <= i < |ps| ==> ps[i].offset <= Last(offsets)
  }

  /** The proxy lists after appending each proxy of `ps`, in order, to its nearest leaf's list. */
  function Fit(lists: seq<seq<Proxy>>, offsets: seq<real>, ps: seq<Proxy>): (r: seq<seq<Proxy>>)
    requires |lists| == |offsets| > 0 && Placeable(ps, offsets)
    ensures |r| == |lists|
  {
    if ps == [] then lists
    else
      var r := Fit(lists, offsets, ps[..|ps| - 1]);
      var k := NearestLeaf(offsets, ps[|ps| - 1].offset);
      r[k := r[k] + [ps[|ps| - 1]]]
  }

  /** Fitting one more proxy appends it to its nearest leaf's list. */
  lemma {:induction false} FitStep(lists: seq<seq<Proxy>>, offsets: seq<real>, ps: seq<Proxy>, i: nat, next: nat)
    requires |lists| == |offsets| > 0 && Placeable(ps, offsets) && i < |ps| && next == i + 1
    ensures Placeable(ps[..i], offsets) && Placeable(ps[..next], offsets)
    ensures var k := NearestLeaf(offsets, ps[i].offset);
      Fit(lists, offsets, ps[..next]) == Fit(lists, offsets, ps[..i])[k := Fit(lists, offsets, ps[..i])[k] + [ps[i]]]
  {
    assert ps[..next][..i] == ps[..i];
  }

  /** The fitting loop of `fit_q_events` on the leaves' lists: append each proxy, in order, to its nearest leaf's list. */
  method FitLists(lists: seq<seq<Proxy>>, offsets: seq<real>, ps: seq<Proxy>) returns (r: seq<seq<Proxy>>)
    requires |lists| == |offsets| > 0 && Placeable(ps, offsets)
    ensures r == Fit(lists, offsets, ps)
  {
    r := lists;
    var i := 0;
    assert ps[..0] == [];
    while i < |ps|
      invariant 0 <= i <= |ps| && Placeable(ps[..i], offsets)
      invariant r == Fit(lists, offsets, ps[..i])
    {
      var next := i + 1;
      FitStep(lists, offsets, ps, i, next);
      var k := NearestLeaf(offsets, ps[i].offset);
      r := r[k := r[k] + [ps[i]]];
      i := next;
    }
    assert ps[..i] == ps;
  }

  /** The proxies of `ps`, in order, whose nearest leaf is `k`. */
  function FittedTo(ps: seq<Proxy>, offsets: seq<real>, k: nat): seq<Proxy>
    requires |offsets| > 0 && Placeable(ps, offsets)
  {
    if ps == [] then []
    else
      var rest := FittedTo(ps[..|ps| - 1], offsets, k);
      if NearestLeaf(offsets, ps[|ps| - 1].offset) == k then rest + [ps[|ps| - 1]] else rest
  }

  /** Fitting only appends: every leaf keeps what it held and gains exactly the proxies nearest to it, in input order. */
  lemma {:induction false} FitAppends(lists: seq<seq<Proxy>>, offsets: seq<real>, ps: seq<Proxy>, k: nat)
    requires |lists| == |offsets| > 0 && Placeable(ps, offsets) && k < |lists|
    ensures Fit(lists, offsets, ps)[k] == lists[k] + FittedTo(ps, offsets, k)
  {
    if ps != [] {
      FitAppends(lists, offsets, ps[..|ps| - 1], k);
    }
  }

  /** Fitting adds exactly the fitted proxies to the grid's contents. */
  lemma {:induction false} FitConserves(lists: seq<seq<Proxy>>, offsets: seq<real>, ps: seq<Proxy>)
    requires |lists| == |offsets| > 0 && Placeable(ps, offsets)
    ensures multiset(Concat(Fit(lists, offsets, ps))) == multiset(Concat(lists)) + multiset(ps)
  {
    if ps != [] {
      var init := ps[..|ps| - 1];
      var x := ps[|ps| - 1];
      assert ps == init + [x];
      FitConserves(lists, offsets, init);
      var r := Fit(lists, offsets, init);
      var k := NearestLeaf(offsets, x.offset);
      assert Fit(lists, offsets, ps) == r[k := r[k] + [x]];
      AppendToOne(r, k, x);
    }
  }

  lemma {:induction false} AppendToOne<T>(ls: seq<seq<T>>, k: nat, x: T)
    requires k < |ls|
    ensures multiset(Concat(ls[k := ls[k] + [x]])) == multiset(Concat(ls)) + multiset{x}
  {
    var l := ls[k] + [x];
    assert ls == ls[..k] + [ls[k]] + ls[k + 1..];
    assert ls[k := l] == ls[..k] + [l] + ls[k + 1..];
    ConcatAppend(ls[..k] + [ls[k]], ls[k + 1..]);
    ConcatAppend(ls[..k], [ls[k]]);
    ConcatAppend(ls[..k] + [l], ls[k + 1..]);
    ConcatAppend(ls[..k], [l]);
    assert Concat([ls[k]]) == ls[k] by { assert [ls[k]][..0] == []; }
    assert Concat([l]) == l by { assert [l][..0] == []; }
  }

  /** The summed distance of the proxies of `ps` from the offset `at`. */
  function ListError(ps: seq<Proxy>, at: real): real
  {
    if ps == [] then 0.0 else ListError(ps[..|ps| - 1], at) + Abs(ps[|ps| - 1].offset - at)
  }

  /** The summed distance of every proxy from the offset of the leaf holding it. */
  function TotalError(lists: seq<seq<Proxy>>, offsets: seq<real>): real
    requires |lists| <= |offsets|
  {
    if lists == [] then 0.0
    else TotalError(lists[..|lists| - 1], offsets) + ListError(lists[|lists| - 1], offsets[|lists| - 1])
  }

  /** The mean distance of the proxies from their leaves, or nothing when the grid holds no proxy. */
  function MeanError(lists: seq<seq<Proxy>>, offsets: seq<real>): Option<real>
    requires |lists| <= |offsets|
  {
    var count := |Concat(lists)|;
    if count == 0 then None else Some(TotalError(lists, offsets) / count as real)
  }

  lemma {:induction false} ConcatEmpty<T>(ls: seq<seq<T>>)
    ensures |Concat(ls)| == 0 <==> forall k :: 0 <= k < |ls| ==> ls[k] == []
  {
    if ls != [] {
      ConcatEmpty(ls[..|ls| - 1]);
      assert forall k :: 0 <= k < |ls| - 1 ==> ls[..|ls| - 1][k] == ls[k];
    }
  }

  lemma {:induction false} ListErrorBounds(ps: seq<Proxy>, at: real)
    requires 0.0 <= at <= 1.0 && forall i :: 0 <= i < |ps| ==> 0.0 <= ps[i].offset <= 1.0
    ensures 0.0 <= ListError(ps, at) <= |ps| as real
  {
    if ps != [] {
      ListErrorBounds(ps[..|ps| - 1], at);
    }
  }

  lemma {:induction false} TotalErrorBounds(lists: seq<seq<Proxy>>, offsets: seq<real>)
    requires |lists| <= |offsets|
    requires forall k :: 0 <= k < |offsets| ==> 0.0 <= offsets[k] <= 1.0
    requires forall k, i :: 0 <= k < |lists| && 0 <= i < |lists[k]| ==> 0.0 <= lists[k][i].offset <= 1.0
    ensures 0.0 <= TotalError(lists, offsets) <= |Concat(lists)| as real
  {
    if lists != [] {
      var init := lists[..|lists| - 1];
      assert forall k :: 0 <= k < |init| ==> init[k] == lists[k];
      TotalErrorBounds(init, offsets);
      ListErrorBounds(lists[|lists| - 1], offsets[|lists| - 1]);
    }
  }

  lemma {:induction false} QuotientInUnit(a: real, b: real)
    requires 0.0 <= a <= b && 0.0 < b
    ensures 0.0 <= a / b <= 1.0
  {
  }

  /**
   * The distance is missing exactly when no leaf holds a proxy; otherwise, with proxies and
   * leaves inside the beat, it is a mean distance between 0 and 1.
   */
  lemma {:induction false} MeanErrorSpec(lists: seq<seq<Proxy>>, offsets: seq<real>)
    requires |lists| <= |offsets|
    requires forall k :: 0 <= k < |offsets| ==> 0.0 <= offsets[k] <= 1.0
    requires forall k, i :: 0 <= k < |lists| && 0 <= i < |lists[k]| ==> 0.0 <= lists[k][i].offset <= 1.0
    ensures MeanError(lists, offsets).None? <==> forall k :: 0 <= k < |lists| ==> lists[k] == []
    ensures MeanError(lists, offsets).Some? ==> 0.0 <= MeanError(lists, offsets).value <= 1.0
  {
    ConcatEmpty(lists);
    TotalErrorBounds(lists, offsets);
    if |Concat(lists)| > 0 {
      QuotientInUnit(TotalError(lists, offsets), |Concat(lists)| as real);
    }
  }

  /** A proxy wrapping a silence at offset `o` that carries one named attachment. */
  function Marked(name: string, o: real): Proxy
  {
    Proxy(Some(Silent(o, [Attachment(name)], None)), o)
  }

  /**
   * Seven proxies fitted to an unsubdivided grid: the proxy at 1/2 lies exactly
   * between the two leaves and goes to the first.
   */
  lemma {:induction false} FitExample()
    ensures var a, b, c, d := Marked("A", 0.0), Marked("B", 0.05), Marked("C", 0.45), Marked("D", 0.5);
            var e, f, g := Marked("E", 0.55), Marked("F", 0.95), Marked("G", 1.0);
            Fit([[], []], [0.0, 1.0], [a, b, c, d, e, f, g]) == [[a, b, c, d], [e, f, g]]
  {
    var a, b, c, d := Marked("A", 0.0), Marked("B", 0.05), Marked("C", 0.45), Marked("D", 0.5);
    var e, f, g := Marked("E", 0.55), Marked("F", 0.95), Marked("G", 1.0);
    var ps := [a, b, c, d, e, f, g];
    var offs := [0.0, 1.0];
    assert NearestLeaf(offs, 0.0) == 0;
    assert NearestLeaf(offs, 0.05) == 0;
    assert NearestLeaf(offs, 0.45) == 0;
    assert NearestLeaf(offs, 0.5) == 0;
    assert NearestLeaf(offs, 0.55) == 1;
    assert NearestLeaf(offs, 0.95) == 1;
    assert NearestLeaf(offs, 1.0) == 1;
    var L: seq<seq<Proxy>> := [[], []];
    var nil: seq<Proxy> := [];
    assert [a][..0] == nil && nil + [a] == [a];
    assert Fit(L, offs, [a]) == [[a], []];
    assert [a, b][..1] == [a] && [a] + [b] == [a, b];
    assert Fit(L, offs, [a, b]) == [[a, b], []];
    assert [a, b, c][..2] == [a, b] && [a, b] + [c] == [a, b, c];
    assert Fit(L, offs, [a, b, c]) == [[a, b, c], []];
    assert [a, b, c, d][..3] == [a, b, c] && [a, b, c] + [d] == [a, b, c, d];
    assert Fit(L, offs, [a, b, c, d]) == [[a, b, c, d], []];
    assert [a, b, c, d, e][..4] == [a, b, c, d] && nil + [e] == [e];
    assert Fit(L, offs, [a, b, c, d, e]) == [[a, b, c, d], [e]];
    assert [a, b, c, d, e, f][..5] == [a, b, c, d, e] && [e] + [f] == [e, f];
    assert Fit(L, offs, [a, b, c, d, e, f]) == [[a, b, c, d], [e, f]];
    assert ps[..6] == [a, b, c, d, e, f] && [e, f] + [g] == [e, f, g];
  }

  /** The same seven proxies lie 3/14 of a beat from their leaves on average. */
  lemma {:induction false} DistanceExample()
    ensures var a, b, c, d := Marked("A", 0.0), Marked("B", 0.05), Marked("C", 0.45), Marked("D", 0.5);
            var e, f, g := Marked("E", 0.55), Marked("F", 0.95), Marked("G", 1.0);
            MeanError([[a, b, c, d], [e, f, g]], [0.0, 1.0]) == Some(3.0 / 14.0)
  {
    var a, b, c, d := Marked("A", 0.0), Marked("B", 0.05), Marked("C", 0.45), Marked("D", 0.5);
    var e, f, g := Marked("E", 0.55), Marked("F", 0.95), Marked("G", 1.0);
    var l0, l1 := [a, b, c, d], [e, f, g];
    assert [a][..0] == [] && ListError([a], 0.0) == 0.0;
    assert [a, b][..1] == [a] && ListError([a, b], 0.0) == 0.05;
    assert [a, b, c][..2] == [a, b] && ListError([a, b, c], 0.0) == 0.5;
    assert l0[..3] == [a, b, c] && ListError(l0, 0.0) == 1.0;
    assert [e][..0] == [] && ListError([e], 1.0) == 0.45;
    assert [e, f][..1] == [e] && ListError([e, f], 1.0) == 0.5;
    assert l1[..2] == [e, f] && ListError(l1, 1.0) == 0.5;
    var empty: seq<seq<Proxy>> := [];
    assert [l0, l1][..1] == [l0] && [l0][..0] == empty;
    assert TotalError([l0], [0.0, 1.0]) == 1.0;
    assert TotalError([l0, l1], [0.0, 1.0]) == 1.5;
    assert Concat([l0]) == l0;
    assert Concat([l0, l1]) == l0 + l1;
  }

  /** Subdivision ratios the model accepts: at least one, all positive. */
  predicate ValidRatios(ratios: seq<real>)
  {
    |ratios| > 0 && forall i :: 0 <= i < |ratios| ==> 0.0 < ratios[i]
  }

  /**
   * Subdividing a leaf of the tree moves no other leaf: the leaves before it keep their
   * offsets, those after it keep theirs at positions shifted by the ratio count less one,
   * and the fresh leaves start where the old leaf started and lie inside its span.
   */
  lemma {:induction false} SubdivisionKeepsOffsets(root: Node, k: nat, ratios: seq<real>)
    requires WellFormed(root) && root.duration == 1.0 && k < |Leaves(root)| && ValidRatios(ratios)
    ensures var O, O' := GridOffsets(root), GridOffsets(Replace(root, k, Subdivided(Leaves(root)[k].duration, ratios)));
      && |O'| == |O| + |ratios| - 1
      && (forall i :: 0 <= i <= k ==> O'[i] == O[i])
      && (forall i :: k < i < |O| ==> O'[i + |ratios| - 1] == O[i])
      && (forall i :: k <= i < k + |ratios| ==> O[k] <= O'[i] < O[k + 1])
  {
    var m := Subdivided(Leaves(root)[k].duration, ratios);
    var sl := Slots(root, 0.0, 1.0);
    SubdividedSlots(root, k, ratios);
    SlotEnd(root, k);
    var end := if k + 1 < |sl| then sl[k + 1].start else 1.0;
    InnerSlots(m, sl[k].start, sl[k].span, end);
    StartsSplice(sl, Slots(m, sl[k].start, sl[k].span), k, end);
  }

  lemma {:induction false} SubdividedSlots(root: Node, k: nat, ratios: seq<real>)
    requires WellFormed(root) && root.duration == 1.0 && k < |Leaves(root)| && ValidRatios(ratios)
    ensures var m := Subdivided(Leaves(root)[k].duration, ratios); var sl := Slots(root, 0.0, 1.0);
      && WellFormed(m) && |Leaves(m)| == |ratios|
      && GridOffsets(Replace(root, k, m)) == Starts(sl[..k] + Slots(m, sl[k].start, sl[k].span) + sl[k + 1..]) + [1.0]
  {
    var m := Subdivided(Leaves(root)[k].duration, ratios);
    LeavesWellFormed(root);
    WellFormedSubdivided(Leaves(root)[k].duration, ratios);
    LeavesSubdivided(Leaves(root)[k].duration, ratios);
    ReplaceDuration(root, k, m);
    SlotsReplace(root, k, m, 0.0, 1.0);
  }

  /** In the grid's layout a tree leaf's span ends where the next leaf starts, the last at 1. */
  lemma {:induction false} SlotEnd(root: Node, k: nat)
    requires WellFormed(root) && root.duration == 1.0 && k < |Leaves(root)|
    ensures var sl := Slots(root, 0.0, 1.0);
      && 0.0 < sl[k].span
      && sl[k].start + sl[k].span == if k + 1 < |sl| then sl[k + 1].start else 1.0
  {
    var sl := Slots(root, 0.0, 1.0);
    SlotsTile(root, 0.0, 1.0);
    if k + 1 < |sl| {
      assert sl[k].start + sl[k].span == sl[k + 1].start;
    }
  }

  lemma {:induction false} InnerSlots(m: Node, start: real, span: real, end: real)
    requires WellFormed(m) && 0.0 < span && start + span == end
    ensures var inner := Slots(m, start, span);
      |inner| > 0 && inner[0].start == start && forall i :: 0 <= i < |inner| ==> start <= inner[i].start < end
  {
    SlotsTile(m, start, span);
    TilesOrdered(Slots(m, start, span), start, end);
  }

  lemma {:induction false} StartsSplice(sl: seq<Slot>, inner: seq<Slot>, k: nat, end: real)
    requires k < |sl| && |inner| > 0 && inner[0].start == sl[k].start
    requires forall i :: 0 <= i < |inner| ==> sl[k].start <= inner[i].start < end
    requires end == if k + 1 < |sl| then sl[k + 1].start else 1.0
    ensures var O, O' := Starts(sl) + [1.0], Starts(sl[..k] + inner + sl[k + 1..]) + [1.0];
      && |O'| == |O| + |inner| - 1
      && (forall i :: 0 <= i <= k ==> O'[i] == O[i])
      && (forall i :: k < i < |O| ==> O'[i + |inner| - 1] == O[i])
      && (forall i :: k <= i < k + |inner| ==> O[k] <= O'[i] < O[k + 1])
  {
    var sl' := sl[..k] + inner + sl[k + 1..];
    assert forall i :: 0 <= i < k ==> sl'[i] == sl[i];
    assert forall i :: k <= i < k + |inner| ==> sl'[i] == inner[i - k];
    assert forall i :: k < i < |sl| ==> sl'[i + |inner| - 1] == sl[i];
  }

  /** The next downbeat is the last leaf, pinned at offset 1. */
  function Normalise(key: int, n: nat): int
  {
    if key < 0 then key + n else key
  }

  /** Every requested leaf index exists: Python's `all_leaves[idx]` accepts -n <= idx < n. */
  predicate InRange(table: seq<(int, seq<real>)>, n: nat)
  {
    forall i :: 0 <= i < |table| ==> -(n as int) <= table[i].0 < n
  }

  /** The requested leaf indices, negative ones counted from the end, in the order they are processed. */
  function Targets(table: seq<(int, seq<real>)>, n: nat): (ts: seq<int>)
    ensures |ts| == |table| && forall i :: 0 <= i < |table| ==> ts[i] == Normalise(table[i].0, n)
  {
    seq(|table|, i requires 0 <= i < |table| => Normalise(table[i].0, n))
  }

  function RatiosOf(table: seq<(int, seq<real>)>): (rs: seq<seq<real>>)
    ensures |rs| == |table| && forall i :: 0 <= i < |table| ==> rs[i] == table[i].1
  {
    seq(|table|, i requires 0 <= i < |table| => table[i].1)
  }

  /** The targets processed before the next downbeat, which can only come last, stops the call. */
  function BeforeDownbeat(ts: seq<int>, n: nat): seq<int>
  {
    if ts != [] && Last(ts) == n - 1 then ts[..|ts| - 1] else ts
  }

  /** The tree after subdividing the targets `ts` in turn, each at its current position. */
  function TreeAfter(root: Node, ts: seq<int>, rs: seq<seq<real>>): Node
    requires |ts| == |rs|
  {
    if ts == [] then root
    else
      var tree := TreeAfter(root, ts[..|ts| - 1], rs[..|rs| - 1]);
      var pos := Last(ts) + Shift(rs[..|rs| - 1]);
      if 0 <= pos < |Leaves(tree)| then Replace(tree, pos, Subdivided(Leaves(tree)[pos].duration, Last(rs))) else tree
  }

  /** `subdivide_leaf` on a tree leaf keeps the proxies: the new lists plus the returned ones are the old lists. */
  lemma {:induction false} SubdivideLeafConserves(P: seq<seq<Proxy>>, k: nat, count: nat)
    requires k < |P|
    ensures multiset(Concat(P[..k] + Empties(count) + P[k + 1..])) + multiset(P[k]) == multiset(Concat(P))
  {
    var e := Empties(count);
    ConcatEmpties(count);
    ConcatSplit(P, k);
    ConcatAppend(P[..k] + e, P[k + 1..]);
    ConcatAppend(P[..k], e);
  }

  /** One more proxy of the snapshot: it joins the preceding or the succeeding ones by its offset. */
  lemma {:induction false} PartitionStep(snapshot: seq<Proxy>, i: nat, start: real)
    requires i < |snapshot|
    ensures snapshot[i..] == [snapshot[i]] + snapshot[i + 1..]
    ensures snapshot[i].offset < start ==>
      && Preceding(snapshot[..i + 1], start) == Preceding(snapshot[..i], start) + [snapshot[i]]
      && Succeeding(snapshot[..i + 1], start) == Succeeding(snapshot[..i], start)
    ensures start <= snapshot[i].offset ==>
      && Preceding(snapshot[..i + 1], start) == Preceding(snapshot[..i], start)
      && Succeeding(snapshot[..i + 1], start) + snapshot[i + 1..] == Succeeding(snapshot[..i], start) + snapshot[i..]
  {
    assert snapshot[..i + 1][..i] == snapshot[..i];
  }

  /** The list of a leaf after the reclaiming loop has looked at the first `i` proxies of its snapshot. */
  function Reclaimed(snapshot: seq<Proxy>, i: nat, start: real): seq<Proxy>
    requires i <= |snapshot|
  {
    Succeeding(snapshot[..i], start) + snapshot[i..]
  }

  /** What the reclaiming loop keeps after looking at the first `i` proxies of its snapshot. */
  ghost predicate Reclaiming(snapshot: seq<Proxy>, i: int, start: real, list: seq<Proxy>, popped: seq<Proxy>)
  {
    0 <= i <= |snapshot| && list == Reclaimed(snapshot, i, start) && popped == Preceding(snapshot[..i], start)
  }

  lemma {:induction false} ReclaimStart(snapshot: seq<Proxy>, start: real)
    ensures Reclaiming(snapshot, 0, start, snapshot, [])
  {
    assert snapshot[..0] == [] && snapshot[0..] == snapshot;
  }

  lemma {:induction false} ReclaimDone(snapshot: seq<Proxy>, start: real, list: seq<Proxy>, popped: seq<Proxy>)
    requires Reclaiming(snapshot, |snapshot|, start, list, popped)
    ensures list == Succeeding(snapshot, start) && popped == Preceding(snapshot, start)
  {
    assert snapshot[..|snapshot|] == snapshot && snapshot[|snapshot|..] == [];
  }

  lemma {:induction false} ReclaimPop(snapshot: seq<Proxy>, i: nat, next: nat, start: real, list: seq<Proxy>, popped: seq<Proxy>)
    requires i < |snapshot| && next == i + 1 && snapshot[i].offset < start
    requires Reclaiming(snapshot, i, start, list, popped)
    ensures snapshot[i] in list
    ensures Reclaiming(snapshot, next, start, list[..IndexOf(list, snapshot[i])] + list[IndexOf(list, snapshot[i]) + 1..],
                       popped + [snapshot[i]])
  {
    PartitionStep(snapshot, i, start);
    PopFirst(Succeeding(snapshot[..i], start), snapshot[i..], start);
  }

  lemma {:induction false} ReclaimKeep(snapshot: seq<Proxy>, i: nat, next: nat, start: real, list: seq<Proxy>, popped: seq<Proxy>)
    requires i < |snapshot| && next == i + 1 && start <= snapshot[i].offset
    requires Reclaiming(snapshot, i, start, list, popped)
    ensures Reclaiming(snapshot, next, start, list, popped)
  {
    PartitionStep(snapshot, i, start);
  }

  /**
   * The reclaiming loop of `subdivide_leaves` on one leaf's list: walk a snapshot of the list
   * and pop, by `list.index`, every proxy lying before `start`; the list keeps the others.
   */
  method ReclaimList(snapshot: seq<Proxy>, start: real) returns (list: seq<Proxy>, popped: seq<Proxy>)
    ensures list == Succeeding(snapshot, start) && popped == Preceding(snapshot, start)
  {
    list := snapshot;
    popped := [];
    var i := 0;
    ReclaimStart(snapshot, start);
    while i < |snapshot|
      invariant Reclaiming(snapshot, i, start, list, popped)
    {
      var p, next := snapshot[i], i + 1;
      if p.offset < start {
        ReclaimPop(snapshot, i, next, start, list, popped);
        var idx := IndexOf(list, p);
        list := list[..idx] + list[idx + 1..];
        popped := popped + [p];
      } else {
        ReclaimKeep(snapshot, i, next, start, list, popped);
      }
      i := next;
    }
    ReclaimDone(snapshot, start, list, popped);
  }

  lemma {:induction false} PopFirst(kept: seq<Proxy>, rest: seq<Proxy>, start: real)
    requires rest != [] && rest[0].offset < start
    requires forall i :: 0 <= i < |kept| ==> start <= kept[i].offset
    ensures rest[0] in kept + rest
    ensures IndexOf(kept + rest, rest[0]) == |kept|
    ensures (kept + rest)[..|kept|] + (kept + rest)[|kept| + 1..] == kept + rest[1..]
  {
    var list, p := kept + rest, rest[0];
    assert list[|kept|] == p;
  }

  lemma {:induction false} NewListsInitial(L: seq<seq<Proxy>>, O: seq<real>)
    requires |L| == |O|
    ensures NewLists(L, O, [], []) == L
  {
    assert KeptAll(L, O, [], []) == seq(|L|, j requires 0 <= j < |L| => [L[j]]);
    ConcatSingletons(L);
  }

  /** One subdivision extends the tree closed form by the next target. */
  lemma {:induction false} TreeStep(root0: Node, ts: seq<int>, rs: seq<seq<real>>, t: int, ratios: seq<real>, tree: Node, pos: int)
    requires |ts| == |rs| && tree == TreeAfter(root0, ts, rs)
    requires pos == t + Shift(rs) && 0 <= pos < |Leaves(tree)|
    ensures TreeAfter(root0, ts + [t], rs + [ratios]) == Replace(tree, pos, Subdivided(Leaves(tree)[pos].duration, ratios))
  {
    assert (ts + [t])[..|ts|] == ts && (rs + [ratios])[..|rs|] == rs;
  }

  /** In ascending leaf indices, the next downbeat (the last of `n` leaves) can only come last. */
  lemma {:induction false} DownbeatLast(ts: seq<int>, n: int, m: nat)
    requires Ascending(ts) && (forall i :: 0 <= i < |ts| ==> ts[i] < n) && m < |ts| && ts[m] == n - 1
    ensures m == |ts| - 1
  {
    assert forall i {:trigger ts[i]} :: 0 <= i < |ts| - 1 ==> ts[i] < ts[i + 1] < n;
  }

  /** What the `subdivide_leaves` loop carries between turns: the leaves' lists, the proxies returned so far and how far the leaves have moved. */
  datatype Subdivision = Subdivision(lists: seq<seq<Proxy>>, out: seq<Proxy>, shift: int)

  /**
   * One turn of the `subdivide_leaves` loop, on the proxy lists: the original leaf `t` now
   * sits at `t + shift`; its list gives way to fresh empty lists, one per ratio, its proxies
   * are returned, and so are the proxies of the leaf after it that lie before that leaf's
   * start offset `O[t + 1]`. Positions outside the grid change nothing.
   */
  function Turn(st: Subdivision, O: seq<real>, t: int, r: seq<real>): Subdivision
  {
    var pos := t + st.shift;
    if 0 <= t && t + 1 < |O| && 0 <= pos && pos + 1 < |st.lists| then
      var lists := st.lists[..pos] + Empties(|r|) + st.lists[pos + 1..];
      Subdivision(lists[pos + |r| := Succeeding(st.lists[pos + 1], O[t + 1])],
                  st.out + (st.lists[pos] + Preceding(st.lists[pos + 1], O[t + 1])), st.shift + |r| - 1)
    else
      Subdivision(st.lists, st.out, st.shift + |r| - 1)
  }

  /** The loop's state after the targets `ts` (with ratios `rs`), turn by turn, from the lists `L`. */
  function Run(L: seq<seq<Proxy>>, O: seq<real>, ts: seq<int>, rs: seq<seq<real>>): Subdivision
    requires |ts| == |rs|
  {
    if ts == [] then Subdivision(L, [], 0)
    else Turn(Run(L, O, ts[..|ts| - 1], rs[..|rs| - 1]), O, Last(ts), Last(rs))
  }

  /** The turns move the leaves past each target by its ratio count less one. */
  lemma {:induction false} RunShift(L: seq<seq<Proxy>>, O: seq<real>, ts: seq<int>, rs: seq<seq<real>>)
    requires |ts| == |rs|
    ensures Run(L, O, ts, rs).shift == Shift(rs)
  {
    if ts != [] {
      RunShift(L, O, ts[..|ts| - 1], rs[..|rs| - 1]);
    }
  }

  /**
   * For ascending targets that are tree leaves, the turns produce exactly the closed-form
   * lists and returned proxies.
   */
  lemma {:induction false} RunLists(L: seq<seq<Proxy>>, O: seq<real>, ts: seq<int>, rs: seq<seq<real>>)
    requires |L| == |O| && |ts| == |rs| && Ascending(ts) && InnerTargets(ts, |L|)
    ensures Run(L, O, ts, rs).lists == NewLists(L, O, ts, rs)
    ensures Run(L, O, ts, rs).out == Returned(L, O, ts)
  {
    if ts == [] {
      NewListsInitial(L, O);
    } else {
      var init, rinit := ts[..|ts| - 1], rs[..|rs| - 1];
      var t, r := Last(ts), Last(rs);
      assert init + [t] == ts && rinit + [r] == rs;
      assert forall i :: 0 <= i < |init| ==> init[i] < t;
      RunLists(L, O, init, rinit);
      RunShift(L, O, init, rinit);
      TurnLists(L, O, init, rinit, t, r, Run(L, O, init, rinit));
      TurnOut(L, O, init, rinit, t, r, Run(L, O, init, rinit));
    }
  }

  /** One turn past the targets `ts` takes their closed-form lists to those of `ts + [t]`. */
  lemma {:induction false} TurnLists(L: seq<seq<Proxy>>, O: seq<real>, ts: seq<int>, rs: seq<seq<real>>, t: int, r: seq<real>, st: Subdivision)
    requires |L| == |O| && |ts| == |rs| && Ascending(ts) && InnerTargets(ts, |L|) && 0 <= t && t + 1 < |L|
    requires forall i :: 0 <= i < |ts| ==> ts[i] < t
    requires st.lists == NewLists(L, O, ts, rs) && st.shift == Shift(rs)
    ensures Turn(st, O, t, r).lists == NewLists(L, O, ts + [t], rs + [r])
  {
    TurnPosition(L, O, ts, rs, t, r, st);
    TurnAt(st, O, t, r, t + st.shift);
  }

  /** One turn past the targets `ts` adds to their returned proxies exactly those `ts + [t]` returns. */
  lemma {:induction false} TurnOut(L: seq<seq<Proxy>>, O: seq<real>, ts: seq<int>, rs: seq<seq<real>>, t: int, r: seq<real>, st: Subdivision)
    requires |L| == |O| && |ts| == |rs| && Ascending(ts) && InnerTargets(ts, |L|) && 0 <= t && t + 1 < |L|
    requires forall i :: 0 <= i < |ts| ==> ts[i] < t
    requires st.lists == NewLists(L, O, ts, rs) && st.out == Returned(L, O, ts) && st.shift == Shift(rs)
    ensures Turn(st, O, t, r).out == Returned(L, O, ts + [t])
  {
    TurnPosition(L, O, ts, rs, t, r, st);
    TurnAt(st, O, t, r, t + st.shift);
    ReturnedStep(L, O, ts, t);
  }

  /** One more target and ratio list: one more turn, and the leaves after it move by the ratio count less one. */
  lemma {:induction false} RunStep(L: seq<seq<Proxy>>, O: seq<real>, ts: seq<int>, rs: seq<seq<real>>, t: int, r: seq<real>)
    requires |ts| == |rs|
    ensures Run(L, O, ts + [t], rs + [r]) == Turn(Run(L, O, ts, rs), O, t, r)
    ensures Shift(rs + [r]) == Shift(rs) + |r| - 1
  {
    assert (ts + [t])[..|ts|] == ts && (rs + [r])[..|rs|] == rs;
  }

  /** Taking one more target into the prefix of those already subdivided. */
  lemma {:induction false} NextPrefixes(ts: seq<int>, rs: seq<seq<real>>, m: nat, next: nat, n: nat)
    requires |ts| == |rs| && m < |ts| && next == m + 1
    ensures ts[..next] == ts[..m] + [ts[m]] && rs[..next] == rs[..m] + [rs[m]]
    ensures InnerTargets(ts[..m], n) && 0 <= ts[m] && ts[m] + 1 < n ==> InnerTargets(ts[..next], n)
  {
    assert ts[..next] == ts[..m] + [ts[m]];
  }

  /** A turn at a leaf of the grid that has a leaf after it. */
  lemma {:induction false} TurnAt(st: Subdivision, O: seq<real>, t: int, r: seq<real>, pos: int)
    requires pos == t + st.shift && 0 <= t && t + 1 < |O| && 0 <= pos && pos + 1 < |st.lists|
    ensures Turn(st, O, t, r).lists == (st.lists[..pos] + Empties(|r|) + st.lists[pos + 1..])[pos + |r| := Succeeding(st.lists[pos + 1], O[t + 1])]
    ensures Turn(st, O, t, r).out == st.out + (st.lists[pos] + Preceding(st.lists[pos + 1], O[t + 1]))
    ensures Turn(st, O, t, r).shift == st.shift + |r| - 1
  {
  }

  /** Where target `t` and the leaf after it sit among the closed-form lists, and what the splice there gives. */
  lemma {:induction false} TurnPosition(L: seq<seq<Proxy>>, O: seq<real>, ts: seq<int>, rs: seq<seq<real>>, t: int, r: seq<real>, st: Subdivision)
    requires |L| == |O| && |ts| == |rs| && Ascending(ts) && InnerTargets(ts, |L|) && 0 <= t && t + 1 < |L|
    requires forall i :: 0 <= i < |ts| ==> ts[i] < t
    requires st.lists == NewLists(L, O, ts, rs) && st.shift == Shift(rs)
    ensures var pos := t + st.shift;
      && 0 <= pos && pos + 1 < |st.lists| && st.lists[pos] == Current(L, O, ts, t) && st.lists[pos + 1] == L[t + 1]
      && (st.lists[..pos] + Empties(|r|) + st.lists[pos + 1..])[pos + |r| := Succeeding(L[t + 1], O[t + 1])]
         == NewLists(L, O, ts + [t], rs + [r])
  {
    PositionedAfter(L, O, ts, rs);
    PositionedFrom(L, O, ts, rs, if ts == [] then 0 else Last(ts) + 1, t, st.shift);
    ListsStep(L, O, ts, rs, t, r, st.shift, st.lists, t + st.shift);
  }

  /** Stand-in for a tree node's object identity, which is all grid equality compares. */
  class NodeRef {
    constructor ()
    {
    }
  }

  /** The key `sort_q_events_by_index` sorts a leaf's proxies by: the wrapped event's index. */
  function IndexKey(p: Proxy): real
  {
    if p.event.Some? && p.event.value.Index().Some? then p.event.value.Index().value as real else 0.0
  }

  /**
   * What sorting one leaf's list by `x.index` raises. Python computes the key of every
   * proxy first, and a proxy without an event fails its `index` assertion. Then a list
   * of two or more proxies compares keys, and None is not comparable, so any event
   * without an index raises TypeError. A list of one proxy is never compared.
   */
  function SortError(ps: seq<Proxy>): (r: Option<Error>)
    ensures r == Some(AssertionError) <==> exists i :: 0 <= i < |ps| && ps[i].event.None?
    ensures r == Some(TypeError) <==>
      (forall i :: 0 <= i < |ps| ==> ps[i].event.Some?) &&
      |ps| >= 2 && exists i :: 0 <= i < |ps| && ps[i].event.value.Index().None?
    ensures r.None? ==> |ps| < 2 || forall i :: 0 <= i < |ps| ==> ps[i].event.value.Index().Some?
    ensures r.None? || r == Some(AssertionError) || r == Some(TypeError)
  {
    if exists i :: 0 <= i < |ps| && ps[i].event.None? then Some(AssertionError)
    else if |ps| >= 2 && exists i :: 0 <= i < |ps| && ps[i].event.value.Index().None? then Some(TypeError)
    else None
  }

  /** The first leaf whose list cannot be sorted, or `|lists|` when every list can. */
  function FirstUnsortable(lists: seq<seq<Proxy>>): (m: nat)
    ensures m <= |lists|
    ensures forall k :: 0 <= k < m ==> SortError(lists[k]).None?
    ensures m < |lists| ==> SortError(lists[m]).Some?
    decreases |lists|
  {
    if |lists| == 0 then 0
    else if SortError(lists[0]).Some? then 0
    else 1 + FirstUnsortable(lists[1..])
  }

  /** The lists with those before `m` sorted by index and the others as they were. */
  function SortedBefore(lists: seq<seq<Proxy>>, m: nat): (out: seq<seq<Proxy>>)
    ensures |out| == |lists|
    ensures forall k :: m <= k < |lists| ==> out[k] == lists[k]
  {
    seq(|lists|, k requires 0 <= k < |lists| =>
      if k < m then SortBy(lists[k], IndexKey) else lists[k])
  }

  /**
   * What `sort_q_events_by_index` leaves behind: every leaf keeps exactly its own
   * proxies, and each leaf sorted before the loop stopped is in index order, where
   * every proxy of a list of two or more carries a real index.
   */
  lemma {:induction false} SortedBeforeSpec(lists: seq<seq<Proxy>>)
    ensures var m, out := FirstUnsortable(lists), SortedBefore(lists, FirstUnsortable(lists));
      && (forall k :: 0 <= k < |lists| ==> multiset(out[k]) == multiset(lists[k]))
      && (forall k :: 0 <= k < m ==> SortedBy(out[k], IndexKey))
      && (forall k, i :: 0 <= k < m && |lists[k]| >= 2 && 0 <= i < |out[k]| ==>
            out[k][i].event.Some? && out[k][i].event.value.Index().Some?)
  {
    var m, out := FirstUnsortable(lists), SortedBefore(lists, FirstUnsortable(lists));
    forall k | 0 <= k < |lists|
      ensures multiset(out[k]) == multiset(lists[k])
      ensures k < m ==> SortedBy(out[k], IndexKey)
      ensures k < m && |lists[k]| >= 2 ==> forall i :: 0 <= i < |out[k]| ==>
        out[k][i].event.Some? && out[k][i].event.value.Index().Some?
    {
      if k < m {
        SortedByIndex(lists[k]);
        assert out[k] == SortBy(lists[k], IndexKey);
        forall i | 0 <= i < |out[k]|
          ensures out[k][i] in multiset(lists[k])
        {
          assert out[k][i] in multiset(out[k]);
        }
      }
    }
  }

  /** The loop of `sort_q_events_by_index` over the leaves' lists. */
  method SortLists(lists: seq<seq<Proxy>>) returns (out: seq<seq<Proxy>>, r: Result<()>)
    ensures out == SortedBefore(lists, FirstUnsortable(lists))
    ensures r.Ok? <==> FirstUnsortable(lists) == |lists|
    ensures r.Err? ==> Some(r.error) == SortError(lists[FirstUnsortable(lists)])
  {
    ghost var m := FirstUnsortable(lists);
    out := lists;
    var k := 0;
    while k < |out|
      invariant 0 <= k <= m && |out| == |lists|
      invariant forall j :: 0 <= j < k ==> out[j] == SortBy(lists[j], IndexKey)
      invariant forall j :: k <= j < |out| ==> out[j] == lists[j]
    {
      var e := SortError(out[k]);
      if e.Some? {
        assert k == m;
        assert out == SortedBefore(lists, m);
        return out, Err(e.value);
      }
      out := out[k := SortBy(out[k], IndexKey)];
      k := k + 1;
    }
    assert k == m;
    assert out == SortedBefore(lists, m);
    r := Ok(());
  }

  class QGrid {
    var root: Node
    var downbeat: Node
    var proxies: seq<seq<Proxy>>
    var rootId: NodeRef
    var downbeatId: NodeRef

    /** A well-formed tree of weight 1, a next-downbeat leaf of weight 1, and one proxy list per leaf. */
    predicate Valid()
      reads this
    {
      && WellFormed(root) && root.duration == 1.0
      && downbeat.Leaf? && downbeat.duration == 1.0
      && |proxies| == |Leaves(root)| + 1
    }

    /** `leaves`: the tree's leaves depth first (the root alone when it is a leaf), then the next downbeat. */
    function GridLeaves(): (ls: seq<Node>)
      reads this
      requires Valid()
      ensures |ls| == |proxies| && ls[|ls| - 1] == downbeat
      ensures forall i :: 0 <= i < |ls| ==> ls[i].Leaf?
    {
      LeavesAreLeaves(root);
      Leaves(root) + [downbeat]
    }

    /** `offsets`: one per leaf, the next downbeat's pinned at 1. */
    function Offsets(): (offs: seq<real>)
      reads this
      requires Valid()
      ensures |offs| == |proxies| && offs[0] == 0.0 && offs[|offs| - 1] == 1.0 && StrictlyIncreasing(offs)
      ensures forall i :: 0 <= i < |offs| ==> 0.0 <= offs[i] <= 1.0
    {
      GridOffsetsShape(root);
      GridOffsets(root)
    }

    /** A grid over `root` and `downbeat` whose leaves hold `lists`; its nodes are new objects. */
    constructor (root: Node, downbeat: Node, lists: seq<seq<Proxy>>)
      requires WellFormed(root) && root.duration == 1.0
      requires downbeat.Leaf? && downbeat.duration == 1.0
      requires |lists| == |Leaves(root)| + 1
      ensures Valid()
      ensures this.root == root && this.downbeat == downbeat && proxies == lists
      ensures fresh(rootId) && fresh(downbeatId)
    {
      this.root := root;
      this.downbeat := downbeat;
      proxies := lists;
      rootId := new NodeRef();
      downbeatId := new NodeRef();
    }

    /** `QGrid()`: a divisible root leaf of weight 1 and a divisible next downbeat of weight 1, both empty. */
    constructor Default()
      ensures Valid()
      ensures root == Leaf(1.0, true) && downbeat == Leaf(1.0, true) && proxies == [[], []]
      ensures fresh(rootId) && fresh(downbeatId)
    {
      root := Leaf(1.0, true);
      downbeat := Leaf(1.0, true);
      proxies := [[], []];
      rootId := new NodeRef();
      downbeatId := new NodeRef();
    }

    /** `==`: the same root node object and the same next-downbeat object. */
    predicate Equals(other: QGrid)
      reads this, other
    {
      rootId == other.rootId && downbeatId == other.downbeatId
    }

    /** `copy`: a grid with the same structure and proxies but new node objects, hence not equal to this one. */
    method Copy() returns (c: QGrid)
      requires Valid()
      ensures fresh(c) && c.Valid()
      ensures c.root == root && c.downbeat == downbeat && c.proxies == proxies
      ensures !c.Equals(this)
    {
      c := new QGrid(root, downbeat, proxies);
    }

    /**
     * `fit_q_events`: append each proxy, in order, to its nearest leaf. The source
     * raises IndexError for a proxy past offset 1, which a constructed proxy never is.
     */
    method FitQEvents(ps: seq<Proxy>)
      requires Valid() && forall i :: 0 <= i < |ps| ==> ps[i].offset <= 1.0
      modifies this
      ensures Valid()
      ensures root == old(root) && downbeat == old(downbeat) && rootId == old(rootId) && downbeatId == old(downbeatId)
      ensures proxies == Fit(old(proxies), Offsets(), ps)
    {
      proxies := FitLists(proxies, Offsets(), ps);
    }

    /** `distance`: the mean distance of the proxies from their leaves' offsets, or nothing when there are none. */
    method Distance() returns (r: Option<real>)
      requires Valid()
      ensures r == MeanError(proxies, Offsets())
    {
      var offsets := Offsets();
      var count := 0;
      var total := 0.0;
      var k := 0;
      while k < |proxies|
        invariant 0 <= k <= |proxies|
        invariant count == |Concat(proxies[..k])|
        invariant total == TotalError(proxies[..k], offsets)
      {
        var ps := proxies[k];
        var i := 0;
        while i < |ps|
          invariant 0 <= i <= |ps|
          invariant count == |Concat(proxies[..k])| + i
          invariant total == TotalError(proxies[..k], offsets) + ListError(ps[..i], offsets[k])
        {
          total := total + Abs(ps[i].offset - offsets[k]);
          count := count + 1;
          assert ps[..i + 1][..i] == ps[..i];
          i := i + 1;
        }
        assert ps[..i] == ps;
        assert proxies[..k + 1][..k] == proxies[..k];
        k := k + 1;
      }
      assert proxies[..k] == proxies;
      if count > 0 {
        r := Some(total / count as real);
      } else {
        r := None;
      }
    }

    /**
     * `sort_q_events_by_index`: sort each leaf's own list by event index, leaf by leaf;
     * nothing moves between leaves. The first leaf that cannot be sorted stops the loop
     * with its error: the leaves before it are sorted and the rest are left alone.
     */
    method SortQEventsByIndex() returns (r: Result<()>)
      requires Valid()
      modifies this
      ensures Valid()
      ensures root == old(root) && downbeat == old(downbeat) && rootId == old(rootId) && downbeatId == old(downbeatId)
      ensures proxies == SortedBefore(old(proxies), FirstUnsortable(old(proxies)))
      ensures r.Ok? <==> FirstUnsortable(old(proxies)) == |old(proxies)|
      ensures r.Err? ==> Some(r.error) == SortError(old(proxies)[FirstUnsortable(old(proxies))])
    {
      var lists;
      lists, r := SortLists(proxies);
      proxies := lists;
    }

    /**
     * `subdivide_leaf`: put a container of the leaf's own weight, over fresh empty divisible
     * leaves weighted by `ratios`, in the leaf's place, and return the leaf's proxies. A leaf
     * with no parent is the root leaf or the next downbeat, and either way the container
     * becomes the new root; the next downbeat itself stays, keeping its proxies.
     */
    method SubdivideLeaf(k: nat, ratios: seq<real>) returns (removed: seq<Proxy>)
      requires Valid() && k < |proxies| && ValidRatios(ratios)
      modifies this
      ensures Valid()
      ensures removed == old(proxies)[k]
      ensures downbeat == old(downbeat) && downbeatId == old(downbeatId)
      ensures k + 1 < |old(proxies)| ==>
        && root == Replace(old(root), k, Subdivided(Leaves(old(root))[k].duration, ratios))
        && proxies == old(proxies)[..k] + Empties(|ratios|) + old(proxies)[k + 1..]
      ensures k + 1 == |old(proxies)| ==>
        && root == Subdivided(old(downbeat).duration, ratios)
        && proxies == Empties(|ratios|) + [old(proxies)[k]]
      ensures if old(root).Leaf? || k + 1 == |old(proxies)| then fresh(rootId) else rootId == old(rootId)
    {
      removed := proxies[k];
      if k + 1 < |proxies| {
        var leaf := Leaves(root)[k];
        var container := Subdivided(leaf.duration, ratios);
        LeavesWellFormed(root);
        WellFormedSubdivided(leaf.duration, ratios);
        LeavesSubdivided(leaf.duration, ratios);
        WellFormedReplace(root, k, container);
        ReplaceDuration(root, k, container);
        LeavesReplace(root, k, container);
        if root.Leaf? {
          rootId := new NodeRef();
        }
        root := Replace(root, k, container);
        proxies := proxies[..k] + Empties(|ratios|) + proxies[k + 1..];
      } else {
        WellFormedSubdivided(downbeat.duration, ratios);
        LeavesSubdivided(downbeat.duration, ratios);
        root := Subdivided(downbeat.duration, ratios);
        rootId := new NodeRef();
        proxies := Empties(|ratios|) + [proxies[k]];
      }
    }

    /**
     * `subdivide_leaves`: build `sorted(dict(pairs).items())`, look every index up among the
     * leaves (IndexError, before any change, when one is missing), then subdivide the targets
     * in ascending order.
     */
    method SubdivideLeaves(pairs: seq<(int, seq<real>)>) returns (r: Result<seq<Proxy>>)
      requires Valid()
      requires forall i :: 0 <= i < |FromPairs(pairs)| ==> ValidRatios(FromPairs(pairs)[i].1)
      requires InRange(FromPairs(pairs), |proxies|) ==> Ascending(Targets(FromPairs(pairs), |proxies|))
      modifies this
      ensures Valid()
      ensures downbeat == old(downbeat) && downbeatId == old(downbeatId)
      ensures old(root).Container? ==> rootId == old(rootId)
      ensures var table, n := FromPairs(pairs), |old(proxies)|;
        !InRange(table, n) ==> r == Err(IndexError) && root == old(root) && proxies == old(proxies) && rootId == old(rootId)
      ensures var table, n := FromPairs(pairs), |old(proxies)|;
        InRange(table, n) ==>
          var ts := BeforeDownbeat(Targets(table, n), n);
          var rs := RatiosOf(table)[..|ts|];
          && root == TreeAfter(old(root), ts, rs)
          && proxies == NewLists(old(proxies), old(Offsets()), ts, rs)
          && r == if |ts| < |table| then Err(IndexError) else Ok(Returned(old(proxies), old(Offsets()), ts))
    {
      var table := FromPairs(pairs);
      var n := |proxies|;
      if !InRange(table, n) {
        return Err(IndexError);
      }
      r := SubdivideTargets(Targets(table, n), RatiosOf(table));
    }

    /**
     * The loop of `subdivide_leaves` over the looked-up targets, ascending: each target's
     * proxies are returned, followed by the proxies popped from the leaf after it that lie
     * before that leaf's start (1 for the next downbeat). A target that is the next downbeat
     * has no leaf after it: IndexError, the earlier targets done.
     */
    method SubdivideTargets(ts: seq<int>, rs: seq<seq<real>>) returns (r: Result<seq<Proxy>>)
      requires Valid() && |ts| == |rs| && Ascending(ts)
      requires forall i :: 0 <= i < |ts| ==> 0 <= ts[i] < |proxies| && ValidRatios(rs[i])
      modifies this
      ensures Valid()
      ensures downbeat == old(downbeat) && downbeatId == old(downbeatId)
      ensures old(root).Container? ==> rootId == old(rootId)
      ensures var done := BeforeDownbeat(ts, |old(proxies)|);
        && root == TreeAfter(old(root), done, rs[..|done|])
        && proxies == NewLists(old(proxies), old(Offsets()), done, rs[..|done|])
        && r == if |done| < |ts| then Err(IndexError) else Ok(Returned(old(proxies), old(Offsets()), done))
    {
      var n := |proxies|;
      var O := Offsets();
      var out, m := Turns(ts, rs, O);
      ghost var L := old(proxies);
      assert BeforeDownbeat(ts, n) == ts[..m] by {
        if m < |ts| {
          DownbeatLast(ts, n, m);
        } else {
          assert ts[..m] == ts;
          if ts != [] {
            assert Last(ts) == ts[..m][m - 1];
          }
        }
      }
      RunLists(L, O, ts[..m], rs[..m]);
      if m < |ts| {
        r := Err(IndexError);
      } else {
        r := Ok(out);
      }
    }

    /**
     * The turns themselves: subdivide the targets in order, stopping at the first one that is
     * the next downbeat (`m` is its place, or `|ts|` when there is none). `O` holds the leaves'
     * start offsets from before the first turn.
     */
    method Turns(ts: seq<int>, rs: seq<seq<real>>, O: seq<real>) returns (out: seq<Proxy>, m: nat)
      requires Valid() && |ts| == |rs| && Ascending(ts) && |O| == |proxies| && O[|O| - 1] == 1.0
      requires forall i :: 0 <= i < |ts| ==> 0 <= ts[i] < |proxies| && ValidRatios(rs[i])
      modifies this
      ensures Valid()
      ensures downbeat == old(downbeat) && downbeatId == old(downbeatId)
      ensures old(root).Container? ==> rootId == old(rootId)
      ensures m <= |ts| && (m < |ts| ==> ts[m] == |old(proxies)| - 1) && InnerTargets(ts[..m], |old(proxies)|)
      ensures root == TreeAfter(old(root), ts[..m], rs[..m])
      ensures Subdivision(proxies, out, Shift(rs[..m])) == Run(old(proxies), O, ts[..m], rs[..m])
    {
      var n := |proxies|;
      ghost var L, root0 := proxies, root;
      out := [];
      var shift := 0;
      m := 0;
      while m < |ts|
        invariant 0 <= m <= |ts| && Subdivision(proxies, out, shift) == Run(L, O, ts[..m], rs[..m])
        invariant shift == Shift(rs[..m]) && root == TreeAfter(root0, ts[..m], rs[..m])
        invariant Valid() && 0 <= shift && |proxies| == n + shift
        invariant InnerTargets(ts[..m], n)
        invariant downbeat == old(downbeat) && downbeatId == old(downbeatId)
        invariant root0.Container? ==> root.Container? && rootId == old(rootId)
      {
        if ts[m] == n - 1 {
          break;
        }
        var t, ratios, next := ts[m], rs[m], m + 1;
        NextPrefixes(ts, rs, m, next, n);
        var got := Advance(t, ratios, O, shift, out, ts[..m], rs[..m], L, root0);
        out := out + got;
        shift := shift + |ratios| - 1;
        m := next;
      }
    }

    /**
     * The body of the `subdivide_leaves` loop for target `ts[m]`, which is not the next
     * downbeat: subdivide it at its current place and reclaim from the leaf after it, whose
     * start is 1 when it is the next downbeat and its offset otherwise. Subdividing other
     * leaves never moves that offset (`SubdivisionKeepsOffsets`), so it is read from `O`.
     */
    method Advance(t: int, ratios: seq<real>, O: seq<real>, shift: int, out: seq<Proxy>,
                   ghost pre: seq<int>, ghost rpre: seq<seq<real>>, ghost L: seq<seq<Proxy>>, ghost root0: Node)
        returns (got: seq<Proxy>)
      requires Valid() && |pre| == |rpre| && 0 <= t && t + 1 < |O| && O[|O| - 1] == 1.0 && ValidRatios(ratios)
      requires Subdivision(proxies, out, shift) == Run(L, O, pre, rpre)
      requires shift == Shift(rpre) && root == TreeAfter(root0, pre, rpre)
      requires 0 <= shift && |proxies| == |O| + shift
      modifies this
      ensures Valid()
      ensures downbeat == old(downbeat) && downbeatId == old(downbeatId)
      ensures if old(root).Leaf? then fresh(rootId) else rootId == old(rootId)
      ensures root == TreeAfter(root0, pre + [t], rpre + [ratios])
      ensures Subdivision(proxies, out + got, shift + |ratios| - 1) == Run(L, O, pre + [t], rpre + [ratios])
      ensures |proxies| == |O| + shift + |ratios| - 1
    {
      var pos := t + shift;
      var nextOffset := if t + 1 == |O| - 1 then 1.0 else O[t + 1];
      ghost var st := Run(L, O, pre, rpre);
      assert st.lists == proxies && st.shift == shift;
      TreeStep(root0, pre, rpre, t, ratios, root, pos);
      RunStep(L, O, pre, rpre, t, ratios);
      TurnAt(st, O, t, ratios, pos);
      ghost var turned := Turn(st, O, t, ratios);
      ghost var spliced := st.lists[..pos] + Empties(|ratios|) + st.lists[pos + 1..];
      assert nextOffset == O[t + 1];
      var removed := SubdivideLeaf(pos, ratios);
      var j := pos + |ratios|;
      ghost var mid := proxies;
      assert mid == spliced && mid[j] == st.lists[pos + 1] && removed == st.lists[pos];
      var list, popped := ReclaimList(proxies[j], nextOffset);
      proxies := proxies[j := list];
      got := removed + popped;
      assert proxies == turned.lists && out + got == turned.out && shift + |ratios| - 1 == turned.shift;
    }
  }

  /** Sorting a leaf's list by index leaves it in non-decreasing index order with the same proxies. */
  lemma {:induction false} SortedByIndex(ps: seq<Proxy>)
    ensures SortedBy(SortBy(ps, IndexKey), IndexKey)
    ensures multiset(SortBy(ps, IndexKey)) == multiset(ps)
  {
    SortBySorted(ps, IndexKey);
  }

  /** Two grids built independently are never equal, even with identical contents. */
  method FreshGridsDiffer() returns (a: QGrid, b: QGrid)
    ensures a.root == b.root && a.downbeat == b.downbeat && a.proxies == b.proxies
    ensures !a.Equals(b)
  {
    a := new QGrid.Default();
    b := new QGrid.Default();
  }
}

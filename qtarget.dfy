/**
 * `QTarget`: the items a schema lays out, the parcelling of a sequence's events onto
 * the beats, and the pass that moves every grid's next-downbeat proxies onto the
 * first leaf of the following beat's grid.
 */
module QTargets {
  import opened Wrappers
  import opened Seqs
  import opened QEvents
  import opened QEventProxies
  import opened Subdivisions
  import opened RhythmTrees
  import opened QGrids

  /** A target item: where it starts and how long it lasts, in milliseconds. */
  datatype QTargetItem = QTargetItem(offsetInMs: real, durationInMs: real)

  function ItemStart(x: QTargetItem): real
  {
    x.offsetInMs
  }

  /** `QTarget(items)`: no items give none; the items are kept sorted, stably, by their start. */
  function MakeItems(items: seq<QTargetItem>): (r: seq<QTargetItem>)
    ensures multiset(r) == multiset(items)
    ensures SortedBy(r, ItemStart)
  {
    SortBySorted(items, ItemStart);
    SortBy(items, ItemStart)
  }

  /** Items that start together keep the order they were given in, as Python's sort is stable. */
  lemma {:induction false} MakeItemsStable(items: seq<QTargetItem>, start: real)
    ensures WithKey(MakeItems(items), ItemStart, start) == WithKey(items, ItemStart, start)
  {
    SortByStable(items, ItemStart, start);
  }

  /** `duration_in_ms`: where the last item ends; there is no last item in an empty target. */
  function DurationInMs(items: seq<QTargetItem>): (r: Result<real>)
    ensures r.Ok? <==> |items| > 0
    ensures r.Ok? ==> r.value == items[|items| - 1].offsetInMs + items[|items| - 1].durationInMs
  {
    if |items| == 0 then Err(IndexError) else Ok(items[|items| - 1].offsetInMs + items[|items| - 1].durationInMs)
  }

  /** For sorted items whose last one has a length, the target lasts past every item's start. */
  lemma {:induction false} DurationCoversItems(items: seq<QTargetItem>)
    requires SortedBy(items, ItemStart) && |items| > 0 && items[|items| - 1].durationInMs >= 0.0
    ensures DurationInMs(items).Ok?
    ensures forall i :: 0 <= i < |items| ==> items[i].offsetInMs <= DurationInMs(items).value
  {
    forall i | 0 <= i < |items|
      ensures items[i].offsetInMs <= DurationInMs(items).value
    {
      if i < |items| - 1 {
        assert ItemStart(items[i]) <= ItemStart(items[|items| - 1]);
      }
    }
  }

  /**
   * The events `__call__` parcels out: when the next-to-last event is a silence the
   * terminal event is left out, so that no rest-tuplet follows; a sequence of fewer than
   * two events has no next-to-last event.
   */
  function EventsToParcel(s: seq<QEvent>): (r: Result<seq<QEvent>>)
    ensures r.Ok? <==> |s| >= 2
    ensures r.Ok? ==> r.value == if s[|s| - 2].Silent? then s[..|s| - 1] else s
  {
    if |s| < 2 then Err(IndexError)
    else if s[|s| - 2].Silent? then Ok(s[..|s| - 1])
    else Ok(s)
  }

  /**
   * Of a well-formed sequence, the terminal event is parcelled exactly when the event
   * before it is not a silence, and every other event is parcelled, in order.
   */
  lemma {:induction false} TerminalParcelled(s: seq<QEvent>)
    requires |s| >= 2 && s[|s| - 1].Terminal? && forall i :: 0 <= i < |s| - 1 ==> !s[i].Terminal?
    ensures EventsToParcel(s).Ok?
    ensures var r := EventsToParcel(s).value;
      && r[..|s| - 1] == s[..|s| - 1]
      && ((exists i :: 0 <= i < |r| && r[i].Terminal?) <==> !s[|s| - 2].Silent?)
  {
    var r := EventsToParcel(s).value;
    if !s[|s| - 2].Silent? {
      assert r[|s| - 1].Terminal?;
    }
  }

  /**
   * The beat an event at `x` goes to: `bisect.bisect(offsets, x) - 1`, as a Python index,
   * so that an event before the first beat start wraps around to the last beat.
   */
  function BeatIndex(offsets: seq<real>, x: real): (i: nat)
    requires |offsets| > 0
    ensures i < |offsets|
  {
    var b := BisectRight(offsets, x);
    if b == 0 then |offsets| - 1 else b - 1
  }

  /**
   * Against sorted beat starts, an event no earlier than the first start goes to the last
   * beat starting at or before it; an earlier one goes to the last beat.
   */
  lemma {:induction false} BeatIndexSpec(offsets: seq<real>, x: real)
    requires |offsets| > 0 && NonDecreasing(offsets)
    ensures var i := BeatIndex(offsets, x);
      && (offsets[0] <= x ==> offsets[i] <= x && forall j :: i < j < |offsets| ==> x < offsets[j])
      && (x < offsets[0] ==> i == |offsets| - 1)
  {
    var b := BisectRight(offsets, x);
    if offsets[0] <= x {
      assert b > 0;
      forall j | b - 1 < j < |offsets|
        ensures x < offsets[j]
      {
        assert b <= j;
        if b < j {
          assert offsets[b] <= offsets[j];
        }
      }
    }
  }

  /** The events of `events`, in order, that go to beat `j`. */
  function OnBeat(events: seq<QEvent>, offsets: seq<real>, j: nat): seq<QEvent>
    requires |offsets| > 0
  {
    if events == [] then []
    else
      var rest := OnBeat(events[..|events| - 1], offsets, j);
      if BeatIndex(offsets, events[|events| - 1].offset) == j then rest + [events[|events| - 1]] else rest
  }

  /** The events each beat receives, beat after beat. */
  function Parcels(events: seq<QEvent>, offsets: seq<real>): (ps: seq<seq<QEvent>>)
    requires |offsets| > 0
    ensures |ps| == |offsets| && forall j :: 0 <= j < |offsets| ==> ps[j] == OnBeat(events, offsets, j)
  {
    seq(|offsets|, j requires 0 <= j < |offsets| => OnBeat(events, offsets, j))
  }

  /** One more event goes to exactly one beat, after the events that beat already has. */
  lemma {:induction false} ParcelsStep(events: seq<QEvent>, offsets: seq<real>, m: nat)
    requires |offsets| > 0 && m < |events|
    ensures var P, k := Parcels(events[..m], offsets), BeatIndex(offsets, events[m].offset);
      Parcels(events[..m + 1], offsets) == P[k := P[k] + [events[m]]]
  {
    assert events[..m + 1][..m] == events[..m];
  }

  /** Parcelling loses and duplicates nothing: every event goes to exactly one beat. */
  lemma {:induction false} ParcelsPartition(events: seq<QEvent>, offsets: seq<real>)
    requires |offsets| > 0
    ensures multiset(Concat(Parcels(events, offsets))) == multiset(events)
  {
    if events == [] {
      ConcatNothing(Parcels(events, offsets));
    } else {
      var m := |events| - 1;
      var init, e := events[..m], events[m];
      assert events == init + [e] && events[..m + 1] == events;
      ParcelsPartition(init, offsets);
      var k := BeatIndex(offsets, e.offset);
      var before := Parcels(init, offsets);
      ParcelsStep(events, offsets, m);
      ConcatUpdateAdd(before, k, before[k] + [e]);
      Cancel(multiset(Concat(Parcels(events, offsets))), multiset(Concat(before)) + multiset{e}, multiset(before[k]));
    }
  }

  lemma {:induction false} Cancel<T>(a: multiset<T>, b: multiset<T>, c: multiset<T>)
    requires a + c == b + c
    ensures a == b
  {
    assert forall x :: a[x] + c[x] == b[x] + c[x] by {
      forall x ensures a[x] + c[x] == b[x] + c[x] {
        assert (a + c)[x] == (b + c)[x];
      }
    }
  }

  lemma {:induction false} ConcatNothing<T>(ls: seq<seq<T>>)
    requires forall i :: 0 <= i < |ls| ==> ls[i] == []
    ensures Concat(ls) == []
  {
    if ls != [] {
      ConcatNothing(ls[..|ls| - 1]);
    }
  }

  /** Replacing one list of `ls` by `l` swaps exactly its elements for those of `l`. */
  lemma {:induction false} ConcatUpdateAdd<T>(ls: seq<seq<T>>, i: nat, l: seq<T>)
    requires i < |ls|
    ensures multiset(Concat(ls[i := l])) + multiset(ls[i]) == multiset(Concat(ls)) + multiset(l)
  {
    ConcatSplit(ls, i);
    ConcatSplit(ls[i := l], i);
    assert ls[i := l][..i] == ls[..i] && ls[i := l][i + 1..] == ls[i + 1..];
  }

  /** The part of a beat that `__call__` reads and writes: its start and the events parcelled to it. */
  class QTargetBeat {
    const offsetInMs: real
    var events: seq<QEvent>

    constructor (offsetInMs: real)
      ensures this.offsetInMs == offsetInMs && events == []
    {
      this.offsetInMs := offsetInMs;
      events := [];
    }
  }

  function BeatStarts(beats: seq<QTargetBeat>): (offs: seq<real>)
    ensures |offs| == |beats| && forall i :: 0 <= i < |beats| ==> offs[i] == beats[i].offsetInMs
  {
    seq(|beats|, i requires 0 <= i < |beats| => beats[i].offsetInMs)
  }

  function RealKey(x: real): real
  {
    x
  }

  /** `sorted([beat.offset_in_ms for beat in beats])`. */
  function SortedStarts(beats: seq<QTargetBeat>): (offs: seq<real>)
    ensures |offs| == |beats| && NonDecreasing(offs)
  {
    var offs := SortBy(BeatStarts(beats), RealKey);
    SortBySorted(BeatStarts(beats), RealKey);
    assert forall i, j :: 0 <= i < j < |offs| ==> RealKey(offs[i]) <= RealKey(offs[j]);
    offs
  }

  /**
   * The parcelling loop of `__call__`: each event is appended to the events of the beat at
   * `bisect.bisect(offsets, offset) - 1`, `offsets` being the sorted beat starts.
   */
  method ParcelOut(beats: seq<QTargetBeat>, offsets: seq<real>, events: seq<QEvent>)
    requires |offsets| == |beats| > 0
    requires forall i, j :: 0 <= i < j < |beats| ==> beats[i] != beats[j]
    modifies beats
    ensures forall j :: 0 <= j < |beats| ==> beats[j].events == old(beats[j].events) + Parcels(events, offsets)[j]
  {
    var m := 0;
    assert events[..0] == [];
    while m < |events|
      invariant 0 <= m <= |events|
      invariant forall j :: 0 <= j < |beats| ==> beats[j].events == old(beats[j].events) + Parcels(events[..m], offsets)[j]
    {
      var e := events[m];
      var index := BeatIndex(offsets, e.offset);
      ParcelsStep(events, offsets, m);
      beats[index].events := beats[index].events + [e];
      m := m + 1;
    }
    assert events[..m] == events;
  }

  /**
   * The event-parcelling part of `__call__`: pick the events (dropping the terminal event
   * after a silence), sort the beat starts and parcel the events out. With no beat at all,
   * the first event finds none (IndexError) and nothing changes.
   */
  method ParcelSequence(beats: seq<QTargetBeat>, s: seq<QEvent>) returns (err: Option<Error>)
    requires forall i, j :: 0 <= i < j < |beats| ==> beats[i] != beats[j]
    modifies beats
    ensures err.Some? <==> |s| < 2 || (|beats| == 0 && |s| > 0)
    ensures err.Some? ==> err.value == IndexError && forall j :: 0 <= j < |beats| ==> beats[j].events == old(beats[j].events)
    ensures err.None? ==> forall j :: 0 <= j < |beats| ==>
      beats[j].events == old(beats[j].events) + OnBeat(EventsToParcel(s).value, SortedStarts(beats), j)
  {
    var picked := EventsToParcel(s);
    if picked.Err? {
      return Some(picked.error);
    }
    if |beats| == 0 {
      return Some(IndexError);
    }
    ParcelOut(beats, SortedStarts(beats), picked.value);
    err := None;
  }

  /** What the first leaf of grid `i` holds after the pass: the previous grid's next-downbeat proxies follow its own, last first. */
  function Received(L: seq<seq<seq<Proxy>>>, i: nat): (g: seq<seq<Proxy>>)
    requires i < |L| && forall k :: 0 <= k < |L| ==> |L[k]| >= 2
    ensures |g| == |L[i]|
  {
    if i == 0 then L[0] else L[i][0 := L[i][0] + Reverse(Last(L[i - 1]))]
  }

  /** Grid `i`'s proxy lists after the pass: received into its first leaf, and its next downbeat emptied unless it is the last grid. */
  function ShiftedGrid(L: seq<seq<seq<Proxy>>>, i: nat): (g: seq<seq<Proxy>>)
    requires i < |L| && forall k :: 0 <= k < |L| ==> |L[k]| >= 2
    ensures |g| == |L[i]|
  {
    if i + 1 < |L| then Received(L, i)[|L[i]| - 1 := []] else Received(L, i)
  }

  /** The proxy lists of the grids, beat by beat, after `_shift_downbeat_q_events_to_next_q_grid`. */
  function Shifted(L: seq<seq<seq<Proxy>>>): (S: seq<seq<seq<Proxy>>>)
    requires forall k :: 0 <= k < |L| ==> |L[k]| >= 2
    ensures |S| == |L| && forall i :: 0 <= i < |L| ==> S[i] == ShiftedGrid(L, i)
  {
    seq(|L|, i requires 0 <= i < |L| => ShiftedGrid(L, i))
  }

  /**
   * After the pass, grid `i` has an empty next downbeat unless it is the last grid, whose
   * next downbeat keeps its proxies; its first leaf holds its own proxies followed by the
   * previous grid's next-downbeat proxies in reverse order (the first grid's, only its
   * own); every other leaf keeps what it held.
   */
  lemma {:induction false} ShiftedGridSpec(L: seq<seq<seq<Proxy>>>, i: nat)
    requires i < |L| && forall k :: 0 <= k < |L| ==> |L[k]| >= 2
    ensures var g, n := ShiftedGrid(L, i), |L[i]|;
      && g[n - 1] == (if i + 1 < |L| then [] else L[i][n - 1])
      && g[0] == (if i > 0 then L[i][0] + Reverse(Last(L[i - 1])) else L[i][0])
      && forall j :: 0 < j < n - 1 ==> g[j] == L[i][j]
  {
  }

  /** All the proxies the grids hold, grid after grid. */
  function Pool(L: seq<seq<seq<Proxy>>>): multiset<Proxy>
  {
    if L == [] then multiset{} else Pool(L[..|L| - 1]) + multiset(Concat(L[|L| - 1]))
  }

  /** The proxies in flight after `k` grids: the next downbeat of grid `k - 1`, not yet passed on. */
  function Pending(L: seq<seq<seq<Proxy>>>, k: nat): multiset<Proxy>
    requires k <= |L| && forall i :: 0 <= i < |L| ==> |L[i]| >= 2
  {
    if 0 < k < |L| then multiset(Last(L[k - 1])) else multiset{}
  }

  /** The first `k` grids after the pass, with what is in flight, hold what they held before. */
  lemma {:induction false} ShiftedPrefix(L: seq<seq<seq<Proxy>>>, k: nat)
    requires k <= |L| && forall i :: 0 <= i < |L| ==> |L[i]| >= 2
    ensures Pool(Shifted(L)[..k]) + Pending(L, k) == Pool(L[..k])
  {
    if k > 0 {
      var i, S := k - 1, Shifted(L);
      ShiftedPrefix(L, i);
      PoolStep(S, i);
      PoolStep(L, i);
      assert S[i] == ShiftedGrid(L, i);
      ReceivedPool(L, i);
      ShiftedGridPool(L, i);
      var before, mine, sent := Pool(S[..i]), multiset(Concat(L[i])), Pending(L, i);
      var kept, passed := multiset(Concat(S[i])), Pending(L, k);
      calc {
        Pool(S[..k]) + passed;
        before + kept + passed;
        before + (kept + passed);
        before + (mine + sent);
        (before + sent) + mine;
        Pool(L[..k]);
      }
    }
  }

  /** One more grid adds its own proxies to the pool. */
  lemma {:induction false} PoolStep(L: seq<seq<seq<Proxy>>>, k: nat)
    requires k < |L|
    ensures Pool(L[..k + 1]) == Pool(L[..k]) + multiset(Concat(L[k]))
  {
    assert L[..k + 1][..k] == L[..k];
  }

  /** Grid `i` receives exactly what is in flight. */
  lemma {:induction false} ReceivedPool(L: seq<seq<seq<Proxy>>>, i: nat)
    requires i < |L| && forall k :: 0 <= k < |L| ==> |L[k]| >= 2
    ensures multiset(Concat(Received(L, i))) == multiset(Concat(L[i])) + Pending(L, i)
  {
    if i > 0 {
      ConcatUpdateAdd(L[i], 0, L[i][0] + Reverse(Last(L[i - 1])));
      ReverseMultiset(Last(L[i - 1]));
      Cancel(multiset(Concat(Received(L, i))), multiset(Concat(L[i])) + Pending(L, i), multiset(L[i][0]));
    }
  }

  /** Grid `i` then sends on what its next downbeat holds, unless it is the last grid. */
  lemma {:induction false} ShiftedGridPool(L: seq<seq<seq<Proxy>>>, i: nat)
    requires i < |L| && forall k :: 0 <= k < |L| ==> |L[k]| >= 2
    ensures multiset(Concat(ShiftedGrid(L, i))) + Pending(L, i + 1) == multiset(Concat(Received(L, i)))
  {
    if i + 1 < |L| {
      var R := Received(L, i);
      ConcatUpdateAdd(R, |L[i]| - 1, []);
      assert R[|L[i]| - 1] == Last(L[i]);
    }
  }

  /** The pass conserves the proxies: across all grids, the same ones, as many as before. */
  lemma {:induction false} ShiftConserves(L: seq<seq<seq<Proxy>>>)
    requires forall i :: 0 <= i < |L| ==> |L[i]| >= 2
    ensures Pool(Shifted(L)) == Pool(L)
    ensures |Pool(Shifted(L))| == |Pool(L)|
  {
    ShiftedPrefix(L, |L|);
    assert Shifted(L)[..|L|] == Shifted(L) && L[..|L|] == L;
  }

  /** `Reverse` lists the elements from the last one back. */
  lemma {:induction false} ReverseIndex<T>(s: seq<T>, i: nat)
    requires i < |s|
    ensures Reverse(s)[i] == s[|s| - 1 - i]
  {
    if i > 0 {
      ReverseIndex(s[..|s| - 1], i - 1);
    }
  }

  /** The proxy lists of the grids, in beat order. */
  function ListsOf(grids: seq<QGrid>): (ls: seq<seq<seq<Proxy>>>)
    reads grids
    ensures |ls| == |grids| && forall i :: 0 <= i < |grids| ==> ls[i] == grids[i].proxies
  {
    seq(|grids|, i requires 0 <= i < |grids| reads grids => grids[i].proxies)
  }

  /** The trees and next downbeats of the grids, in beat order. */
  function ShapesOf(grids: seq<QGrid>): (ss: seq<(Node, Node)>)
    reads grids
    ensures |ss| == |grids| && forall i :: 0 <= i < |grids| ==> ss[i] == (grids[i].root, grids[i].downbeat)
  {
    seq(|grids|, i requires 0 <= i < |grids| reads grids => (grids[i].root, grids[i].downbeat))
  }

  predicate AllValid(grids: seq<QGrid>)
    reads grids
  {
    forall i :: 0 <= i < |grids| ==> grids[i].Valid()
  }

  /** The proxy lists part way through the pass: grids before `k` done, grid `k` has received, the rest untouched. */
  function Partial(L: seq<seq<seq<Proxy>>>, k: nat): (P: seq<seq<seq<Proxy>>>)
    requires k < |L| && forall i :: 0 <= i < |L| ==> |L[i]| >= 2
    ensures |P| == |L|
  {
    seq(|L|, i requires 0 <= i < |L| => if i < k then ShiftedGrid(L, i) else if i == k then Received(L, k) else L[i])
  }

  /**
   * The inner loop of the pass: while the next downbeat of `one` holds proxies, pop the
   * last one and append it to the first leaf of `two`.
   */
  method MoveDownbeat(one: QGrid, two: QGrid)
    requires one != two && one.Valid() && two.Valid()
    modifies one, two
    ensures one.Valid() && two.Valid()
    ensures one.root == old(one.root) && one.downbeat == old(one.downbeat)
    ensures two.root == old(two.root) && two.downbeat == old(two.downbeat)
    ensures one.rootId == old(one.rootId) && one.downbeatId == old(one.downbeatId)
    ensures two.rootId == old(two.rootId) && two.downbeatId == old(two.downbeatId)
    ensures one.proxies == old(one.proxies)[|old(one.proxies)| - 1 := []]
    ensures two.proxies == old(two.proxies)[0 := old(two.proxies)[0] + Reverse(Last(old(one.proxies)))]
  {
    LeavesNonEmpty(one.root);
    LeavesNonEmpty(two.root);
    var last := |one.proxies| - 1;
    ghost var D, F := one.proxies[last], two.proxies[0];
    assert F + Reverse(D)[..0] == F;
    while one.proxies[last] != []
      invariant one.Valid() && two.Valid() && |one.proxies| == last + 1
      invariant one.root == old(one.root) && one.downbeat == old(one.downbeat)
      invariant two.root == old(two.root) && two.downbeat == old(two.downbeat)
      invariant one.rootId == old(one.rootId) && one.downbeatId == old(one.downbeatId)
      invariant two.rootId == old(two.rootId) && two.downbeatId == old(two.downbeatId)
      invariant |one.proxies[last]| <= |D| && one.proxies[last] == D[..|one.proxies[last]|]
      invariant one.proxies == old(one.proxies)[last := one.proxies[last]]
      invariant two.proxies == old(two.proxies)[0 := F + Reverse(D)[..|D| - |one.proxies[last]|]]
      decreases |one.proxies[last]|
    {
      var rest := one.proxies[last];
      var p := rest[|rest| - 1];
      ghost var c := |D| - |rest|;
      ReverseIndex(D, c);
      assert p == D[|rest| - 1];
      assert F + Reverse(D)[..c + 1] == (F + Reverse(D)[..c]) + [p];
      one.proxies := one.proxies[last := rest[..|rest| - 1]];
      two.proxies := two.proxies[0 := two.proxies[0] + [p]];
    }
    assert Reverse(D)[..|D|] == Reverse(D);
  }

  /**
   * `_shift_downbeat_q_events_to_next_q_grid` over the beats' chosen grids, in beat order:
   * for each pair of neighbouring beats, move the first one's next-downbeat proxies onto
   * the second one's first leaf.
   */
  method ShiftDownbeats(grids: seq<QGrid>)
    requires forall i, j :: 0 <= i < j < |grids| ==> grids[i] != grids[j]
    requires AllValid(grids)
    modifies grids
    ensures AllValid(grids) && ShapesOf(grids) == old(ShapesOf(grids))
    ensures forall k :: 0 <= k < |old(ListsOf(grids))| ==> |old(ListsOf(grids))[k]| >= 2
    ensures ListsOf(grids) == Shifted(old(ListsOf(grids)))
  {
    ghost var L := ListsOf(grids);
    ListsGridded(grids);
    if |grids| > 0 {
      PassAll(grids, L);
    }
  }

  /** The outer loop of the pass, over neighbouring pairs of grids. */
  method PassAll(grids: seq<QGrid>, ghost L: seq<seq<seq<Proxy>>>)
    requires forall i, j :: 0 <= i < j < |grids| ==> grids[i] != grids[j]
    requires 0 < |grids| && AllValid(grids) && L == ListsOf(grids)
    requires forall i :: 0 <= i < |L| ==> |L[i]| >= 2
    modifies grids
    ensures AllValid(grids) && ShapesOf(grids) == old(ShapesOf(grids))
    ensures ListsOf(grids) == Shifted(L)
  {
    ghost var S := ShapesOf(grids);
    PartialStart(L);
    var k := 0;
    while k + 1 < |grids|
      invariant 0 <= k < |grids| == |L|
      invariant AllValid(grids) && ShapesOf(grids) == S && ListsOf(grids) == Partial(L, k)
    {
      PassOn(grids, k, L);
      k := k + 1;
    }
    ShiftedDone(ListsOf(grids), L, k);
  }

  /** Every valid grid has at least one leaf besides its next downbeat. */
  lemma {:induction false} ListsGridded(grids: seq<QGrid>)
    requires AllValid(grids)
    ensures forall k :: 0 <= k < |grids| ==> |ListsOf(grids)[k]| >= 2
  {
    forall k | 0 <= k < |grids|
      ensures |grids[k].proxies| >= 2
    {
      LeavesNonEmpty(grids[k].root);
    }
  }

  /** Before the pass, nothing has moved. */
  lemma {:induction false} PartialStart(L: seq<seq<seq<Proxy>>>)
    requires 0 < |L| && forall i :: 0 <= i < |L| ==> |L[i]| >= 2
    ensures Partial(L, 0) == L
  {
    assert Partial(L, 0)[0] == Received(L, 0) == L[0];
  }

  /** Once the last grid has received, every grid holds its shifted lists. */
  lemma {:induction false} ShiftedDone(ls: seq<seq<seq<Proxy>>>, L: seq<seq<seq<Proxy>>>, k: nat)
    requires k + 1 == |L| && forall i :: 0 <= i < |L| ==> |L[i]| >= 2
    requires ls == Partial(L, k)
    ensures ls == Shifted(L)
  {
    forall i | 0 <= i < |L|
      ensures ls[i] == Shifted(L)[i]
    {
      if i == k {
        assert ls[i] == Received(L, k);
      }
    }
  }

  /** One step of the pass: grid `k` passes its next-downbeat proxies to grid `k + 1`. */
  method PassOn(grids: seq<QGrid>, k: nat, ghost L: seq<seq<seq<Proxy>>>)
    requires forall i, j :: 0 <= i < j < |grids| ==> grids[i] != grids[j]
    requires k + 1 < |grids| == |L| && forall i :: 0 <= i < |L| ==> |L[i]| >= 2
    requires AllValid(grids) && ListsOf(grids) == Partial(L, k)
    modifies grids[k], grids[k + 1]
    ensures AllValid(grids) && ShapesOf(grids) == old(ShapesOf(grids))
    ensures ListsOf(grids) == Partial(L, k + 1)
  {
    ReceivedLast(L, k);
    var one, two := grids[k], grids[k + 1];
    assert one.proxies == Received(L, k) && two.proxies == L[k + 1];
    MoveDownbeat(one, two);
    forall i | 0 <= i < |grids|
      ensures grids[i].Valid()
      ensures (grids[i].root, grids[i].downbeat) == old((grids[i].root, grids[i].downbeat))
      ensures grids[i].proxies == Partial(L, k + 1)[i]
    {
      if i == k {
        assert Partial(L, k + 1)[i] == ShiftedGrid(L, k) == Received(L, k)[|L[k]| - 1 := []];
      } else if i == k + 1 {
        assert Partial(L, k + 1)[i] == Received(L, k + 1);
      } else {
        assert grids[i] != one && grids[i] != two;
        assert old(grids[i].proxies) == Partial(L, k)[i];
      }
    }
  }

  /** Receiving into the first leaf leaves a grid's next downbeat as it was. */
  lemma {:induction false} ReceivedLast(L: seq<seq<seq<Proxy>>>, i: nat)
    requires i < |L| && forall k :: 0 <= k < |L| ==> |L[k]| >= 2
    ensures Last(Received(L, i)) == Last(L[i])
  {
  }
}

/**
 * The rhythm trees a Q-grid is built from: leaves and containers carrying
 * pre-prolated durations (weights). A container divides its own time span among
 * its children in proportion to their weights, so a leaf's start offset is its
 * parent's start plus the parent's span times the share of the weights of the
 * siblings before it.
 */
module RhythmTrees {
  import opened Seqs

  datatype Node =
    | Leaf(duration: real, divisible: bool)
    | Container(duration: real, children: seq<Node>)

  /** Positive weights everywhere and no empty container. */
  predicate WellFormed(n: Node)
  {
    && 0.0 < n.duration
    && (n.Container? ==> |n.children| > 0 && forall i :: 0 <= i < |n.children| ==> WellFormed(n.children[i]))
  }

  /** The leaves, depth first. */
  function Leaves(n: Node): seq<Node>
  {
    match n
    case Leaf(_, _) => [n]
    case Container(_, cs) => LeavesOf(cs)
  }

  function LeavesOf(cs: seq<Node>): seq<Node>
  {
    if cs == [] then [] else Leaves(cs[0]) + LeavesOf(cs[1..])
  }

  function Weights(cs: seq<Node>): (ws: seq<real>)
    ensures |ws| == |cs| && forall i :: 0 <= i < |cs| ==> ws[i] == cs[i].duration
  {
    seq(|cs|, i requires 0 <= i < |cs| => cs[i].duration)
  }

  lemma {:induction false} WeightsCons(cs: seq<Node>)
    requires cs != []
    ensures Sum(Weights(cs)) == cs[0].duration + Sum(Weights(cs[1..]))
  {
    assert Weights(cs) == [cs[0].duration] + Weights(cs[1..]);
    SumCons(cs[0].duration, Weights(cs[1..]));
  }

  lemma {:induction false} WeightsPositive(cs: seq<Node>)
    requires cs != [] && forall i :: 0 <= i < |cs| ==> WellFormed(cs[i])
    ensures 0.0 < Sum(Weights(cs))
    decreases |cs|
  {
    WeightsCons(cs);
    if |cs| > 1 {
      WeightsPositive(cs[1..]);
    } else {
      assert Weights(cs[1..]) == [];
    }
  }

  /** Node count, the measure the proofs about a tree recurse on. */
  function Size(n: Node): nat
  {
    match n
    case Leaf(_, _) => 1
    case Container(_, cs) => 1 + SizeOf(cs)
  }

  function SizeOf(cs: seq<Node>): nat
  {
    if cs == [] then 0 else 1 + Size(cs[0]) + SizeOf(cs[1..])
  }

  /** Where a leaf sits in time: its start offset and the length of its span. */
  datatype Slot = Slot(start: real, span: real)

  /** The slots of the leaves of `n` when `n` occupies `span` from `start`. */
  function Slots(n: Node, start: real, span: real): (sl: seq<Slot>)
    ensures |sl| == |Leaves(n)|
  {
    match n
    case Leaf(_, _) => [Slot(start, span)]
    case Container(_, cs) =>
      var total := Sum(Weights(cs));
      SlotsOf(cs, start, if total == 0.0 then 0.0 else span / total)
  }

  /** The slots of the leaves of siblings `cs` laid end to end from `start`, each weight worth `unit`. */
  function SlotsOf(cs: seq<Node>, start: real, unit: real): (sl: seq<Slot>)
    ensures |sl| == |LeavesOf(cs)|
  {
    if cs == [] then []
    else Slots(cs[0], start, unit * cs[0].duration) + SlotsOf(cs[1..], start + unit * cs[0].duration, unit)
  }

  function Starts(sl: seq<Slot>): (r: seq<real>)
    ensures |r| == |sl| && forall i :: 0 <= i < |sl| ==> r[i] == sl[i].start
  {
    seq(|sl|, i requires 0 <= i < |sl| => sl[i].start)
  }

  /** `sl` covers [start, end) with contiguous, non-empty, non-overlapping slots. */
  predicate Tiles(sl: seq<Slot>, start: real, end: real)
  {
    && |sl| > 0
    && sl[0].start == start
    && (forall i :: 0 <= i < |sl| ==> 0.0 < sl[i].span)
    && (forall i, j {:trigger sl[i], sl[j]} :: 0 <= i < |sl| && 0 <= j < |sl| && j == i + 1 ==>
          sl[i].start + sl[i].span == sl[j].start)
    && sl[|sl| - 1].start + sl[|sl| - 1].span == end
  }

  lemma {:induction false} TilesAppend(a: seq<Slot>, b: seq<Slot>, start: real, middle: real, end: real)
    requires Tiles(a, start, middle) && Tiles(b, middle, end)
    ensures Tiles(a + b, start, end)
  {
    var ab := a + b;
    forall i, j | 0 <= i < |ab| && 0 <= j < |ab| && j == i + 1 ensures ab[i].start + ab[i].span == ab[j].start {
      if i == |a| - 1 {
        assert ab[i] == a[i] && ab[j] == b[0];
      } else if i < |a| - 1 {
        assert ab[i] == a[i] && ab[j] == a[j];
      } else {
        assert ab[i] == b[i - |a|] && ab[j] == b[j - |a|];
      }
    }
  }

  /** A well-formed tree given a non-empty span tiles it with its leaves. */
  lemma {:induction false} SlotsTile(n: Node, start: real, span: real)
    requires WellFormed(n) && 0.0 < span
    ensures Tiles(Slots(n, start, span), start, start + span)
    decreases Size(n), 2
  {
    if n.Container? {
      var cs := n.children;
      WeightsPositive(cs);
      var total := Sum(Weights(cs));
      var unit := span / total;
      SlotsOfTile(cs, start, unit, total, start + span);
      assert unit * total == span;
    }
  }

  lemma {:induction false} SlotsOfTile(cs: seq<Node>, start: real, unit: real, total: real, end: real)
    requires cs != []
    requires forall i :: 0 <= i < |cs| ==> WellFormed(cs[i])
    requires 0.0 < unit
    requires total == Sum(Weights(cs))
    requires end == start + unit * total
    ensures Tiles(SlotsOf(cs, start, unit), start, end)
    decreases SizeOf(cs), 1
  {
    var rest := Sum(Weights(cs[1..]));
    WeightsCons(cs);
    EndSplit(start, unit, cs[0].duration, rest, total, end);
    if |cs| > 1 {
      SlotsOfTileRest(cs, start, unit, rest, end);
    } else {
      assert rest == 0.0;
      MulPositive(unit, cs[0].duration);
      SlotsTile(cs[0], start, unit * cs[0].duration);
      SlotsOfSingle(cs, start, unit, end);
    }
  }

  /** The inductive step of `SlotsOfTile`: the first child tiles its share, the others the rest. */
  lemma {:induction false} SlotsOfTileRest(cs: seq<Node>, start: real, unit: real, rest: real, end: real)
    requires |cs| > 1
    requires forall i :: 0 <= i < |cs| ==> WellFormed(cs[i])
    requires 0.0 < unit && rest == Sum(Weights(cs[1..]))
    requires end == (start + unit * cs[0].duration) + unit * rest
    ensures Tiles(SlotsOf(cs, start, unit), start, end)
    decreases SizeOf(cs), 0
  {
    var w := unit * cs[0].duration;
    MulPositive(unit, cs[0].duration);
    SlotsTile(cs[0], start, w);
    assert forall i :: 0 <= i < |cs[1..]| ==> WellFormed(cs[1..][i]);
    SlotsOfTile(cs[1..], start + w, unit, rest, end);
    SlotsOfJoin(cs, start, unit, start + w, end);
  }

  lemma {:induction false} SlotsOfJoin(cs: seq<Node>, start: real, unit: real, mid: real, end: real)
    requires cs != [] && mid == start + unit * cs[0].duration
    requires Tiles(Slots(cs[0], start, unit * cs[0].duration), start, mid)
    requires Tiles(SlotsOf(cs[1..], mid, unit), mid, end)
    ensures Tiles(SlotsOf(cs, start, unit), start, end)
  {
    SlotsOfCons(cs, start, unit, unit * cs[0].duration, mid);
    TilesAppend(Slots(cs[0], start, unit * cs[0].duration), SlotsOf(cs[1..], mid, unit), start, mid, end);
  }

  lemma {:induction false} SlotsOfSingle(cs: seq<Node>, start: real, unit: real, end: real)
    requires |cs| == 1
    requires Tiles(Slots(cs[0], start, unit * cs[0].duration), start, end)
    ensures Tiles(SlotsOf(cs, start, unit), start, end)
  {
    SlotsOfCons(cs, start, unit, unit * cs[0].duration, start + unit * cs[0].duration);
    assert SlotsOf(cs[1..], start + unit * cs[0].duration, unit) == [];
    assert Slots(cs[0], start, unit * cs[0].duration) + [] == Slots(cs[0], start, unit * cs[0].duration);
  }

  lemma {:induction false} SlotsOfCons(cs: seq<Node>, start: real, unit: real, w: real, mid: real)
    requires cs != [] && w == unit * cs[0].duration && mid == start + w
    ensures SlotsOf(cs, start, unit) == Slots(cs[0], start, w) + SlotsOf(cs[1..], mid, unit)
  {
  }

  lemma {:induction false} EndSplit(start: real, unit: real, d: real, rest: real, total: real, end: real)
    requires total == d + rest && end == start + unit * total
    ensures end == (start + unit * d) + unit * rest
  {
  }

  lemma {:induction false} MulPositive(a: real, b: real)
    requires 0.0 < a && 0.0 < b
    ensures 0.0 < a * b
  {
  }

  lemma {:induction false} Distribute(a: real, b: real, c: real)
    ensures a * (b + c) == a * b + a * c
  {
  }

  /** In a tiling, every slot ends no later than any later slot starts: starts strictly increase and stay inside. */
  lemma {:induction false} TilesOrdered(sl: seq<Slot>, start: real, end: real)
    requires Tiles(sl, start, end)
    ensures forall i, j :: 0 <= i < j < |sl| ==> sl[i].start + sl[i].span <= sl[j].start
    ensures StrictlyIncreasing(Starts(sl))
    ensures forall i :: 0 <= i < |sl| ==> start <= sl[i].start < end
  {
    forall i, j | 0 <= i < j < |sl| ensures sl[i].start + sl[i].span <= sl[j].start {
      TilesStep(sl, start, end, i, j);
    }
    forall i | 0 <= i < |sl| ensures start <= sl[i].start < end {
      if i > 0 {
        TilesStep(sl, start, end, 0, i);
      }
      if i < |sl| - 1 {
        TilesStep(sl, start, end, i, |sl| - 1);
      }
    }
  }

  lemma {:induction false} TilesStep(sl: seq<Slot>, start: real, end: real, i: nat, j: nat)
    requires Tiles(sl, start, end) && i < j < |sl|
    ensures sl[i].start + sl[i].span <= sl[j].start
    decreases j - i
  {
    if j > i + 1 {
      TilesStep(sl, start, end, i, j - 1);
    }
    assert sl[j - 1].start + sl[j - 1].span == sl[j].start;
  }

  /** The tree with its `k`-th leaf (depth first) replaced by `m`. */
  function Replace(n: Node, k: nat, m: Node): Node
    requires k < |Leaves(n)|
  {
    match n
    case Leaf(_, _) => m
    case Container(d, cs) => Container(d, ReplaceOf(cs, k, m))
  }

  function ReplaceOf(cs: seq<Node>, k: nat, m: Node): (r: seq<Node>)
    requires k < |LeavesOf(cs)|
    ensures |r| == |cs|
  {
    if k < |Leaves(cs[0])| then [Replace(cs[0], k, m)] + cs[1..]
    else [cs[0]] + ReplaceOf(cs[1..], k - |Leaves(cs[0])|, m)
  }

  /** Replacing a leaf splices the replacement's leaves into its place and leaves every other leaf where it was. */
  lemma {:induction false} LeavesReplace(n: Node, k: nat, m: Node)
    requires k < |Leaves(n)|
    ensures Leaves(Replace(n, k, m)) == Leaves(n)[..k] + Leaves(m) + Leaves(n)[k + 1..]
    decreases n, 1
  {
    if n.Container? {
      LeavesOfReplace(n.children, k, m);
    }
  }

  lemma {:induction false} LeavesOfReplace(cs: seq<Node>, k: nat, m: Node)
    requires k < |LeavesOf(cs)|
    ensures LeavesOf(ReplaceOf(cs, k, m)) == LeavesOf(cs)[..k] + Leaves(m) + LeavesOf(cs)[k + 1..]
    decreases cs, 0
  {
    if k < |Leaves(cs[0])| {
      LeavesReplace(cs[0], k, m);
      SpliceHead(Leaves(cs[0]), LeavesOf(cs[1..]), Leaves(Replace(cs[0], k, m)), Leaves(m), k);
    } else {
      var k' := k - |Leaves(cs[0])|;
      LeavesOfReplace(cs[1..], k', m);
      assert ReplaceOf(cs, k, m)[1..] == ReplaceOf(cs[1..], k', m);
      SpliceTail(Leaves(cs[0]), LeavesOf(cs[1..]), LeavesOf(ReplaceOf(cs[1..], k', m)), Leaves(m), k');
    }
  }

  lemma {:induction false} SpliceHead<T>(h: seq<T>, t: seq<T>, h': seq<T>, x: seq<T>, k: nat)
    requires k < |h| && h' == h[..k] + x + h[k + 1..]
    ensures h' + t == (h + t)[..k] + x + (h + t)[k + 1..]
  {
    assert (h + t)[..k] == h[..k];
    assert (h + t)[k + 1..] == h[k + 1..] + t;
  }

  lemma {:induction false} SpliceTail<T>(h: seq<T>, t: seq<T>, t': seq<T>, x: seq<T>, k: nat)
    requires k < |t| && t' == t[..k] + x + t[k + 1..]
    ensures h + t' == (h + t)[..|h| + k] + x + (h + t)[|h| + k + 1..]
  {
    assert (h + t)[..|h| + k] == h + t[..k];
    assert (h + t)[|h| + k + 1..] == t[k + 1..];
  }

  /** A replacement that keeps the replaced leaf's weight keeps the weight of every node above it. */
  lemma {:induction false} ReplaceDuration(n: Node, k: nat, m: Node)
    requires k < |Leaves(n)| && m.duration == Leaves(n)[k].duration
    ensures Replace(n, k, m).duration == n.duration
  {
  }

  lemma {:induction false} ReplaceOfWeights(cs: seq<Node>, k: nat, m: Node)
    requires k < |LeavesOf(cs)| && m.duration == LeavesOf(cs)[k].duration
    ensures Weights(ReplaceOf(cs, k, m)) == Weights(cs)
    decreases cs
  {
    var h := Leaves(cs[0]);
    assert LeavesOf(cs) == h + LeavesOf(cs[1..]);
    if k < |h| {
      assert Leaves(cs[0])[k] == LeavesOf(cs)[k];
      ReplaceDuration(cs[0], k, m);
    } else {
      assert LeavesOf(cs[1..])[k - |h|] == LeavesOf(cs)[k];
      ReplaceOfWeights(cs[1..], k - |h|, m);
      assert Weights(ReplaceOf(cs, k, m))[1..] == Weights(ReplaceOf(cs[1..], k - |h|, m));
    }
  }

  /** Replacing a well-formed leaf by a well-formed node gives a well-formed tree. */
  lemma {:induction false} WellFormedReplace(n: Node, k: nat, m: Node)
    requires WellFormed(n) && WellFormed(m) && k < |Leaves(n)|
    ensures WellFormed(Replace(n, k, m))
    decreases n, 1
  {
    if n.Container? {
      WellFormedReplaceOf(n.children, k, m);
    }
  }

  lemma {:induction false} WellFormedReplaceOf(cs: seq<Node>, k: nat, m: Node)
    requires (forall i :: 0 <= i < |cs| ==> WellFormed(cs[i])) && WellFormed(m) && k < |LeavesOf(cs)|
    ensures forall i :: 0 <= i < |cs| ==> WellFormed(ReplaceOf(cs, k, m)[i])
    decreases cs, 0
  {
    var r := ReplaceOf(cs, k, m);
    if k < |Leaves(cs[0])| {
      WellFormedReplace(cs[0], k, m);
      assert forall i :: 1 <= i < |cs| ==> r[i] == cs[i];
    } else {
      WellFormedReplaceOf(cs[1..], k - |Leaves(cs[0])|, m);
      assert forall i :: 1 <= i < |cs| ==> r[i] == ReplaceOf(cs[1..], k - |Leaves(cs[0])|, m)[i - 1];
    }
  }

  /**
   * Replacing a leaf by a node of the same weight lays that node out over exactly the
   * replaced leaf's slot and moves no other leaf.
   */
  lemma {:induction false} SlotsReplace(n: Node, k: nat, m: Node, start: real, span: real)
    requires k < |Leaves(n)| && m.duration == Leaves(n)[k].duration
    ensures var sl := Slots(n, start, span);
      Slots(Replace(n, k, m), start, span) == sl[..k] + Slots(m, sl[k].start, sl[k].span) + sl[k + 1..]
    decreases n, 1
  {
    if n.Container? {
      var cs := n.children;
      ReplaceOfWeights(cs, k, m);
      var total := Sum(Weights(cs));
      SlotsOfReplace(cs, k, m, start, if total == 0.0 then 0.0 else span / total);
    }
  }

  lemma {:induction false} SlotsOfReplace(cs: seq<Node>, k: nat, m: Node, start: real, unit: real)
    requires k < |LeavesOf(cs)| && m.duration == LeavesOf(cs)[k].duration
    ensures var sl := SlotsOf(cs, start, unit);
      SlotsOf(ReplaceOf(cs, k, m), start, unit) == sl[..k] + Slots(m, sl[k].start, sl[k].span) + sl[k + 1..]
    decreases cs, 0
  {
    var w := unit * cs[0].duration;
    assert LeavesOf(cs) == Leaves(cs[0]) + LeavesOf(cs[1..]);
    if k < |Leaves(cs[0])| {
      assert Leaves(cs[0])[k] == LeavesOf(cs)[k];
      ReplaceDuration(cs[0], k, m);
      SlotsReplace(cs[0], k, m, start, w);
      var r := ReplaceOf(cs, k, m);
      assert r[0] == Replace(cs[0], k, m) && r[1..] == cs[1..];
      SlotsOfNewFirst(cs, r, k, m, start, unit, w);
    } else {
      var k' := k - |Leaves(cs[0])|;
      assert LeavesOf(cs[1..])[k'] == LeavesOf(cs)[k];
      SlotsOfReplace(cs[1..], k', m, start + w, unit);
      var r := ReplaceOf(cs, k, m);
      assert r[0] == cs[0] && r[1..] == ReplaceOf(cs[1..], k', m);
      SlotsOfNewRest(cs, r, k, k', m, start, unit, w);
    }
  }

  /** Siblings that differ only in a first child whose layout splices `m` at leaf `k` splice `m` there too. */
  lemma {:induction false} SlotsOfNewFirst(cs: seq<Node>, r: seq<Node>, k: nat, m: Node, start: real, unit: real, w: real)
    requires cs != [] && |r| == |cs| && r[1..] == cs[1..] && r[0].duration == cs[0].duration
    requires w == unit * cs[0].duration && k < |Leaves(cs[0])|
    requires var h := Slots(cs[0], start, w);
      Slots(r[0], start, w) == h[..k] + Slots(m, h[k].start, h[k].span) + h[k + 1..]
    ensures var sl := SlotsOf(cs, start, unit);
      SlotsOf(r, start, unit) == sl[..k] + Slots(m, sl[k].start, sl[k].span) + sl[k + 1..]
  {
    SlotsOfFirst(cs, r, start, unit, w, start + w);
    SlotsOfCons(cs, start, unit, w, start + w);
    SpliceHeadSlots(Slots(cs[0], start, w), SlotsOf(cs[1..], start + w, unit), Slots(r[0], start, w), m, k,
                    SlotsOf(cs, start, unit), SlotsOf(r, start, unit));
  }

  /** Siblings that share their first child and splice `m` into the others' layout splice it at the shifted place. */
  lemma {:induction false} SlotsOfNewRest(cs: seq<Node>, r: seq<Node>, k: nat, k': nat, m: Node, start: real, unit: real, w: real)
    requires cs != [] && |r| == |cs| && r[0] == cs[0] && w == unit * cs[0].duration
    requires k == |Leaves(cs[0])| + k'
    requires var t := SlotsOf(cs[1..], start + w, unit);
      k' < |t| && SlotsOf(r[1..], start + w, unit) == t[..k'] + Slots(m, t[k'].start, t[k'].span) + t[k' + 1..]
    ensures var sl := SlotsOf(cs, start, unit);
      k < |sl| && SlotsOf(r, start, unit) == sl[..k] + Slots(m, sl[k].start, sl[k].span) + sl[k + 1..]
  {
    var h := Slots(cs[0], start, w);
    var t := SlotsOf(cs[1..], start + w, unit);
    SlotsOfCons(cs, start, unit, w, start + w);
    SlotsOfRest(cs, r, start, unit, w, start + w);
    SpliceTailSlots(h, t, SlotsOf(r[1..], start + w, unit), m, k', k, SlotsOf(cs, start, unit), SlotsOf(r, start, unit));
  }

  /** Siblings that differ only in a first child of the same weight lay out the rest alike. */
  lemma {:induction false} SlotsOfFirst(cs: seq<Node>, r: seq<Node>, start: real, unit: real, w: real, mid: real)
    requires cs != [] && |r| == |cs| && r[1..] == cs[1..] && r[0].duration == cs[0].duration
    requires w == unit * cs[0].duration && mid == start + w
    ensures SlotsOf(r, start, unit) == Slots(r[0], start, w) + SlotsOf(cs[1..], mid, unit)
  {
    SlotsOfCons(r, start, unit, w, mid);
  }

  /** Siblings that share their first child lay it out alike. */
  lemma {:induction false} SlotsOfRest(cs: seq<Node>, r: seq<Node>, start: real, unit: real, w: real, mid: real)
    requires cs != [] && |r| == |cs| && r[0] == cs[0]
    requires w == unit * cs[0].duration && mid == start + w
    ensures SlotsOf(r, start, unit) == Slots(cs[0], start, w) + SlotsOf(r[1..], mid, unit)
  {
    SlotsOfCons(r, start, unit, w, mid);
  }

  lemma {:induction false} SpliceHeadSlots(h: seq<Slot>, t: seq<Slot>, h': seq<Slot>, m: Node, k: nat, sl: seq<Slot>, sl': seq<Slot>)
    requires k < |h| && h' == h[..k] + Slots(m, h[k].start, h[k].span) + h[k + 1..]
    requires sl == h + t && sl' == h' + t
    ensures sl' == sl[..k] + Slots(m, sl[k].start, sl[k].span) + sl[k + 1..]
  {
    SpliceHead(h, t, h', Slots(m, h[k].start, h[k].span), k);
    assert sl[k] == h[k];
  }

  lemma {:induction false} SpliceTailSlots(h: seq<Slot>, t: seq<Slot>, t': seq<Slot>, m: Node, k: nat, j: nat,
                                           sl: seq<Slot>, sl': seq<Slot>)
    requires k < |t| && t' == t[..k] + Slots(m, t[k].start, t[k].span) + t[k + 1..]
    requires sl == h + t && sl' == h + t' && j == |h| + k
    ensures j < |sl| && sl' == sl[..j] + Slots(m, sl[j].start, sl[j].span) + sl[j + 1..]
  {
    SpliceTail(h, t, t', Slots(m, t[k].start, t[k].span), k);
    assert sl[j] == t[k];
  }

  /** A well-formed tree has at least one leaf. */
  lemma {:induction false} LeavesNonEmpty(n: Node)
    requires WellFormed(n)
    ensures |Leaves(n)| > 0
  {
    if n.Container? {
      var cs := n.children;
      LeavesNonEmpty(cs[0]);
      assert LeavesOf(cs) == Leaves(cs[0]) + LeavesOf(cs[1..]);
    }
  }

  /** What `Leaves` collects are leaves. */
  lemma {:induction false} LeavesAreLeaves(n: Node)
    ensures forall i :: 0 <= i < |Leaves(n)| ==> Leaves(n)[i].Leaf?
    decreases n, 1
  {
    if n.Container? {
      LeavesOfAreLeaves(n.children);
    }
  }

  lemma {:induction false} LeavesOfAreLeaves(cs: seq<Node>)
    ensures forall i :: 0 <= i < |LeavesOf(cs)| ==> LeavesOf(cs)[i].Leaf?
    decreases cs, 0
  {
    if cs != [] {
      LeavesAreLeaves(cs[0]);
      LeavesOfAreLeaves(cs[1..]);
      var h := Leaves(cs[0]);
      var t := LeavesOf(cs[1..]);
      assert LeavesOf(cs) == h + t;
      assert forall i :: 0 <= i < |h + t| ==> (h + t)[i] == if i < |h| then h[i] else t[i - |h|];
    }
  }

  /** The leaves of a well-formed tree have positive weights. */
  lemma {:induction false} LeavesWellFormed(n: Node)
    requires WellFormed(n)
    ensures forall i :: 0 <= i < |Leaves(n)| ==> WellFormed(Leaves(n)[i])
    decreases n, 1
  {
    if n.Container? {
      LeavesOfWellFormed(n.children);
    }
  }

  lemma {:induction false} LeavesOfWellFormed(cs: seq<Node>)
    requires forall i :: 0 <= i < |cs| ==> WellFormed(cs[i])
    ensures forall i :: 0 <= i < |LeavesOf(cs)| ==> WellFormed(LeavesOf(cs)[i])
    decreases cs, 0
  {
    if cs != [] {
      LeavesWellFormed(cs[0]);
      LeavesOfWellFormed(cs[1..]);
      var h := Leaves(cs[0]);
      var t := LeavesOf(cs[1..]);
      assert LeavesOf(cs) == h + t;
      assert forall i :: 0 <= i < |h + t| ==> (h + t)[i] == if i < |h| then h[i] else t[i - |h|];
    }
  }

  /** The container that replaces a subdivided leaf: the leaf's own weight, over fresh divisible leaves weighted by `ratios`. */
  function Subdivided(duration: real, ratios: seq<real>): (c: Node)
    ensures c.Container? && c.duration == duration && |c.children| == |ratios|
    ensures forall i :: 0 <= i < |ratios| ==> c.children[i] == Leaf(ratios[i], true)
  {
    Container(duration, seq(|ratios|, i requires 0 <= i < |ratios| => Leaf(ratios[i], true)))
  }

  lemma {:induction false} LeavesOfLeaves(cs: seq<Node>)
    requires forall i :: 0 <= i < |cs| ==> cs[i].Leaf?
    ensures LeavesOf(cs) == cs
  {
    if cs != [] {
      LeavesOfLeaves(cs[1..]);
      assert [cs[0]] + cs[1..] == cs;
    }
  }

  /** A subdivided leaf contributes one fresh divisible leaf per ratio, in order. */
  lemma {:induction false} LeavesSubdivided(duration: real, ratios: seq<real>)
    ensures Leaves(Subdivided(duration, ratios)) == Subdivided(duration, ratios).children
  {
    LeavesOfLeaves(Subdivided(duration, ratios).children);
  }

  /** The subdivision is well formed exactly when its weight and every ratio are positive and there is a ratio. */
  lemma {:induction false} WellFormedSubdivided(duration: real, ratios: seq<real>)
    ensures WellFormed(Subdivided(duration, ratios)) <==>
      0.0 < duration && |ratios| > 0 && forall i :: 0 <= i < |ratios| ==> 0.0 < ratios[i]
  {
    var c := Subdivided(duration, ratios);
    if WellFormed(c) {
      forall i | 0 <= i < |ratios| ensures 0.0 < ratios[i] {
        assert WellFormed(c.children[i]);
      }
    }
  }

  /** `(1 ((1 (1 1)) 1))`: leaves at 0, 1/4 and 1/2. */
  lemma {:induction false} HalvedOffsetsExample()
    ensures Starts(Slots(Container(1.0, [Subdivided(1.0, [1.0, 1.0]), Leaf(1.0, true)]), 0.0, 1.0)) == [0.0, 0.25, 0.5]
  {
    var inner := Subdivided(1.0, [1.0, 1.0]);
    assert inner.children == [Leaf(1.0, true), Leaf(1.0, true)];
    var cs := [inner, Leaf(1.0, true)];
    assert Sum(Weights(cs)) == 2.0 by {
      assert Weights(cs) == [1.0, 1.0];
      assert Sum([1.0, 1.0]) == Sum([1.0]) + 1.0;
    }
    assert Sum(Weights(inner.children)) == 2.0 by {
      assert Weights(inner.children) == [1.0, 1.0];
      assert Sum([1.0, 1.0]) == Sum([1.0]) + 1.0;
    }
    var leaf := Leaf(1.0, true);
    assert SlotsOf([leaf], 0.25, 0.25) == [Slot(0.25, 0.25)] by {
      SlotsOfCons([leaf], 0.25, 0.25, 0.25, 0.5);
      assert [leaf][1..] == [];
    }
    assert SlotsOf(inner.children, 0.0, 0.25) == [Slot(0.0, 0.25), Slot(0.25, 0.25)] by {
      SlotsOfCons(inner.children, 0.0, 0.25, 0.25, 0.25);
      assert inner.children[1..] == [leaf];
    }
    assert Slots(inner, 0.0, 0.5) == [Slot(0.0, 0.25), Slot(0.25, 0.25)];
    assert SlotsOf([leaf], 0.5, 0.5) == [Slot(0.5, 0.5)] by {
      SlotsOfCons([leaf], 0.5, 0.5, 0.5, 1.0);
      assert [leaf][1..] == [];
    }
    SlotsOfCons(cs, 0.0, 0.5, 0.5, 0.5);
    assert cs[1..] == [leaf];
  }

  /** `(1 ((1 (3 4 5)) 1))`: leaves at 0, 1/8, 7/24 and 1/2. */
  lemma {:induction false} ThreeFourFiveOffsetsExample()
    ensures Starts(Slots(Container(1.0, [Subdivided(1.0, [3.0, 4.0, 5.0]), Leaf(1.0, true)]), 0.0, 1.0))
      == [0.0, 1.0 / 8.0, 7.0 / 24.0, 0.5]
  {
    var inner := Subdivided(1.0, [3.0, 4.0, 5.0]);
    var l3, l4, l5, l1 := Leaf(3.0, true), Leaf(4.0, true), Leaf(5.0, true), Leaf(1.0, true);
    assert inner.children == [l3, l4, l5];
    var cs := [inner, l1];
    assert Sum(Weights(cs)) == 2.0 by {
      assert Weights(cs) == [1.0, 1.0];
      assert Sum([1.0, 1.0]) == Sum([1.0]) + 1.0;
    }
    assert Sum(Weights(inner.children)) == 12.0 by {
      assert Weights(inner.children) == [3.0, 4.0, 5.0];
      assert Sum([3.0, 4.0, 5.0]) == Sum([3.0, 4.0]) + 5.0;
      assert Sum([3.0, 4.0]) == Sum([3.0]) + 4.0;
    }
    var u := 1.0 / 24.0;
    assert SlotsOf([l5], 7.0 * u, u) == [Slot(7.0 * u, 5.0 * u)] by {
      SlotsOfCons([l5], 7.0 * u, u, 5.0 * u, 12.0 * u);
      assert [l5][1..] == [];
    }
    assert SlotsOf([l4, l5], 3.0 * u, u) == [Slot(3.0 * u, 4.0 * u), Slot(7.0 * u, 5.0 * u)] by {
      SlotsOfCons([l4, l5], 3.0 * u, u, 4.0 * u, 7.0 * u);
      assert [l4, l5][1..] == [l5];
    }
    assert SlotsOf(inner.children, 0.0, u) == [Slot(0.0, 3.0 * u), Slot(3.0 * u, 4.0 * u), Slot(7.0 * u, 5.0 * u)] by {
      SlotsOfCons(inner.children, 0.0, u, 3.0 * u, 3.0 * u);
      assert inner.children[1..] == [l4, l5];
    }
    assert Slots(inner, 0.0, 0.5) == [Slot(0.0, 3.0 * u), Slot(3.0 * u, 4.0 * u), Slot(7.0 * u, 5.0 * u)];
    assert SlotsOf([l1], 0.5, 0.5) == [Slot(0.5, 0.5)] by {
      SlotsOfCons([l1], 0.5, 0.5, 0.5, 1.0);
      assert [l1][1..] == [];
    }
    SlotsOfCons(cs, 0.0, 0.5, 0.5, 0.5);
    assert cs[1..] == [l1];
  }
}

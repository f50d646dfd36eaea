/**
 * Q-schemas: quantization settings laid out along a timeline of steps (beats or
 * measures). Each setting holds from the step where it is given until the next step
 * that changes it, and steps past the last change keep the last value.
 */
module QSchemas {
  import opened Wrappers
  import opened Seqs
  import opened QSchemaItems

  /** The per-step settings a schema looks up (`_keyword_argument_names`). */
  datatype Field = BeatspanField | SearchTreeField | TempoField | TimeSignatureField | UseFullMeasureField

  /** One setting's value. */
  datatype Setting =
    | Span(span: real)
    | Tree(tree: SearchTree)
    | Tempo(mark: MetronomeMark)
    | Meter(signature: TimeSignature)
    | Flag(flag: bool)

  /** `BeatwiseQSchema` or `MeasurewiseQSchema`. */
  datatype Kind = Beatwise | Measurewise

  function Names(kind: Kind): (fs: set<Field>)
    ensures fs != {}
  {
    if kind.Beatwise? then {BeatspanField, SearchTreeField, TempoField}
    else {SearchTreeField, TempoField, TimeSignatureField, UseFullMeasureField}
  }

  /** The schema's `item_class`: beatwise items for a beatwise schema, measurewise ones otherwise. */
  predicate OfKind(kind: Kind, item: QSchemaItem)
  {
    kind.Beatwise? <==> item.BeatwiseItem?
  }

  /** `getattr(item, name)`: None when the item leaves that setting unchanged. */
  function FieldOf(item: QSchemaItem, f: Field): Option<Setting>
  {
    match f
    case BeatspanField => if item.BeatwiseItem? && item.beatspan.Some? then Some(Span(item.beatspan.value)) else None
    case SearchTreeField => if item.searchTree.Some? then Some(Tree(item.searchTree.value)) else None
    case TempoField => if item.tempo.Some? then Some(Tempo(item.tempo.value)) else None
    case TimeSignatureField =>
      if item.MeasurewiseItem? && item.timeSignature.Some? then Some(Meter(item.timeSignature.value)) else None
    case UseFullMeasureField =>
      if item.MeasurewiseItem? && item.useFullMeasure.Some? then Some(Flag(item.useFullMeasure.value)) else None
  }

  /** `UnweightedSearchTree()`, the default search tree. */
  const DefaultSearchTree := SearchTree(0)

  /** A quarter note at 60, the default tempo. */
  const DefaultTempo := MetronomeMark(1.0 / 4.0, 60.0, false)

  /** The keyword arguments that replace a schema's class defaults. */
  datatype Keywords = Keywords(
    beatspan: Option<real>, searchTree: Option<SearchTree>, tempo: Option<MetronomeMark>,
    timeSignature: Option<TimeSignature>, useFullMeasure: Option<bool>)

  /**
   * The schema-wide defaults: a beatspan of 1/4, the default search tree and tempo, a 4/4
   * time signature, and `use_full_measure` false unless given true.
   */
  function Defaults(kind: Kind, kw: Keywords): (d: map<Field, Setting>)
    ensures forall f :: f in Names(kind) <==> f in d
  {
    var tree := Tree(if kw.searchTree.Some? then kw.searchTree.value else DefaultSearchTree);
    var tempo := Tempo(if kw.tempo.Some? then kw.tempo.value else DefaultTempo);
    if kind.Beatwise? then
      map[BeatspanField := Span(if kw.beatspan.Some? then kw.beatspan.value else 1.0 / 4.0),
          SearchTreeField := tree, TempoField := tempo]
    else
      map[SearchTreeField := tree, TempoField := tempo,
          TimeSignatureField := Meter(if kw.timeSignature.Some? then kw.timeSignature.value else TimeSignature(4, 4)),
          UseFullMeasureField := Flag(kw.useFullMeasure == Some(true))]
  }

  /** The shapes of positional arguments `QSchema.__init__` tells apart. */
  datatype Arguments =
    | CopyOf(entries: map<int, QSchemaItem>)   // one schema of the same class: its items
    | OneDict(entries: map<int, QSchemaItem>)  // one dict of position to item (or item specification)
    | Pairs(pairs: seq<(int, QSchemaItem)>)    // (position, item) pairs
    | Positional(items: seq<QSchemaItem>)      // items (or item specifications), in order
    | Unrecognised                             // anything else

  /** `dict(pairs)`: a later pair for the same position wins. */
  function PairsToMap(pairs: seq<(int, QSchemaItem)>): (m: map<int, QSchemaItem>)
  {
    if pairs == [] then map[] else PairsToMap(pairs[..|pairs| - 1])[Last(pairs).0 := Last(pairs).1]
  }

  /** A position is in `dict(pairs)` exactly when some pair names it, and holds the last such pair's item. */
  lemma {:induction false} PairsToMapSpec(pairs: seq<(int, QSchemaItem)>, i: nat)
    requires i < |pairs| && forall j :: i < j < |pairs| ==> pairs[j].0 != pairs[i].0
    ensures pairs[i].0 in PairsToMap(pairs) && PairsToMap(pairs)[pairs[i].0] == pairs[i].1
  {
    if i < |pairs| - 1 {
      var init := pairs[..|pairs| - 1];
      PairsToMapSpec(init, i);
    }
  }

  lemma {:induction false} PairsToMapKeys(pairs: seq<(int, QSchemaItem)>)
    ensures forall k :: k in PairsToMap(pairs) ==> exists i :: 0 <= i < |pairs| && pairs[i].0 == k
  {
    if pairs != [] {
      var init := pairs[..|pairs| - 1];
      PairsToMapKeys(init);
      forall k | k in PairsToMap(pairs)
        ensures exists i :: 0 <= i < |pairs| && pairs[i].0 == k
      {
        if k != Last(pairs).0 {
          assert k in PairsToMap(init);
          var i :| 0 <= i < |init| && init[i].0 == k;
          assert pairs[i].0 == k;
        }
      }
    }
  }

  /** The items as positions to items, before the non-negative check. */
  function Collect(kind: Kind, args: Arguments): (r: Result<map<int, QSchemaItem>>)
    ensures r.Ok? ==> forall k :: k in r.value ==> OfKind(kind, r.value[k])
  {
    match args
    case CopyOf(entries) =>
      if forall k :: k in entries ==> OfKind(kind, entries[k]) then Ok(entries) else Err(AssertionError)
    case OneDict(entries) =>
      if forall k :: k in entries ==> OfKind(kind, entries[k]) then Ok(entries) else Err(AssertionError)
    case Pairs(pairs) =>
      if forall i :: 0 <= i < |pairs| ==> OfKind(kind, pairs[i].1) then
        PairsToMapKeys(pairs);
        PairsOfKind(kind, pairs);
        Ok(PairsToMap(pairs))
      else Err(ValueError)
    case Positional(items) =>
      if forall i :: 0 <= i < |items| ==> OfKind(kind, items[i]) then
        Ok(map i | 0 <= i < |items| :: items[i])
      else Err(ValueError)
    case Unrecognised => Err(ValueError)
  }

  lemma {:induction false} PairsOfKind(kind: Kind, pairs: seq<(int, QSchemaItem)>)
    requires forall i :: 0 <= i < |pairs| ==> OfKind(kind, pairs[i].1)
    ensures forall k :: k in PairsToMap(pairs) ==> OfKind(kind, PairsToMap(pairs)[k])
  {
    if pairs != [] {
      PairsOfKind(kind, pairs[..|pairs| - 1]);
    }
  }

  /**
   * `QSchema.__init__`'s item normalisation: positional items are numbered from 0,
   * explicit positions are kept, items of the other schema kind are refused, any other
   * argument shape raises ValueError, and no position may be negative.
   */
  function NormaliseItems(kind: Kind, args: Arguments): (r: Result<map<nat, QSchemaItem>>)
    ensures args.Unrecognised? ==> r == Err(ValueError)
    ensures r.Ok? ==> forall k :: k in r.value ==> OfKind(kind, r.value[k])
    ensures r.Ok? ==> Collect(kind, args).Ok? && forall k :: k in Collect(kind, args).value ==> k >= 0
    ensures r.Ok? ==> forall k: int :: k in Collect(kind, args).value <==> k >= 0 && k in r.value
    ensures r.Ok? ==> forall k: nat :: k in r.value ==> r.value[k] == Collect(kind, args).value[k]
    ensures r.Ok? && args.Positional? ==>
      forall k: nat :: (k in r.value <==> k < |args.items|) && (k < |args.items| ==> r.value[k] == args.items[k])
    ensures Collect(kind, args).Ok? && (exists k :: k in Collect(kind, args).value && k < 0) ==> r == Err(AssertionError)
  {
    match Collect(kind, args)
    case Err(e) => Err(e)
    case Ok(items) =>
      if exists k :: k in items && k < 0 then Err(AssertionError)
      else Ok(map k: nat | k in items :: items[k])
  }

  /**
   * A schema: its kind, its defaults, its items by position, and the lookup table per
   * setting that the constructor builds from the other three.
   */
  datatype Schema = Schema(kind: Kind, defaults: map<Field, Setting>, items: map<nat, QSchemaItem>,
                           lookups: map<Field, map<nat, Setting>>)

  /** The positions whose item sets field `f`. */
  function ChangePoints(items: map<nat, QSchemaItem>, f: Field): (cs: set<nat>)
    ensures forall k :: k in cs <==> k in items && FieldOf(items[k], f).Some?
  {
    set k | k in items && FieldOf(items[k], f).Some?
  }

  /** One setting's table in `_create_lookups`: the default at 0, then each item that sets it, by position. */
  function LookupFor(d: Setting, items: map<nat, QSchemaItem>, f: Field): (m: map<nat, Setting>)
    ensures forall k :: k in m <==> k == 0 || k in ChangePoints(items, f)
    ensures forall k :: k in ChangePoints(items, f) ==> m[k] == FieldOf(items[k], f).value
    ensures 0 !in ChangePoints(items, f) ==> m[0] == d
  {
    map k | k in {0} + ChangePoints(items, f) :: if k in items && FieldOf(items[k], f).Some? then FieldOf(items[k], f).value else d
  }

  /**
   * The shape `__getitem__` and `__call__` rely on: a default and a table for exactly the
   * settings of the schema's kind, every table with an entry at step 0.
   */
  predicate Valid(s: Schema)
  {
    && (forall f :: f in Names(s.kind) <==> f in s.defaults)
    && (forall f :: f in Names(s.kind) <==> f in s.lookups)
    && (forall f :: f in s.lookups ==> 0 in s.lookups[f])
  }

  /** A schema as its constructor leaves it: every table is the one `_create_lookups` builds. */
  predicate Built(s: Schema)
  {
    Valid(s) && forall f :: f in s.lookups ==> s.lookups[f] == LookupFor(s.defaults[f], s.items, f)
  }

  /**
   * The inner loop of `_create_lookups`: start from the default at 0 and let every item
   * that sets `f` write its value at its position.
   */
  method BuildLookup(d: Setting, items: map<nat, QSchemaItem>, f: Field) returns (m: map<nat, Setting>)
    ensures m == LookupFor(d, items, f)
  {
    m := map[0 := d];
    var todo := items.Keys;
    BuildStart(d, items, f);
    while todo != {}
      invariant Building(d, items, f, todo, m)
      decreases todo
    {
      var position :| position in todo;
      BuildStep(d, items, f, todo, m, position);
      var value := FieldOf(items[position], f);
      if value.Some? {
        m := m[position := value.value];
      }
      todo := todo - {position};
    }
    BuildDone(d, items, f, m);
  }

  /** What the inner loop of `_create_lookups` keeps while the positions in `todo` are still to be looked at. */
  ghost predicate Building(d: Setting, items: map<nat, QSchemaItem>, f: Field, todo: set<nat>, m: map<nat, Setting>)
  {
    && todo <= items.Keys
    && (forall k :: k in m <==> k == 0 || (k in ChangePoints(items, f) && k !in todo))
    && (forall k :: k in m && k in ChangePoints(items, f) && k !in todo ==> m[k] == FieldOf(items[k], f).value)
    && 0 in m && (0 !in ChangePoints(items, f) || 0 in todo ==> m[0] == d)
  }

  lemma {:induction false} BuildStart(d: Setting, items: map<nat, QSchemaItem>, f: Field)
    ensures Building(d, items, f, items.Keys, map[0 := d])
  {
  }

  lemma {:induction false} BuildStep(d: Setting, items: map<nat, QSchemaItem>, f: Field, todo: set<nat>, m: map<nat, Setting>, position: nat)
    requires Building(d, items, f, todo, m) && position in todo
    ensures position in items
    ensures Building(d, items, f, todo - {position},
                     if FieldOf(items[position], f).Some? then m[position := FieldOf(items[position], f).value] else m)
  {
  }

  lemma {:induction false} BuildDone(d: Setting, items: map<nat, QSchemaItem>, f: Field, m: map<nat, Setting>)
    requires Building(d, items, f, {}, m)
    ensures m == LookupFor(d, items, f)
  {
    assert m.Keys == LookupFor(d, items, f).Keys;
  }

  /** `_create_lookups`: one table per setting name of the schema's kind. */
  method CreateLookups(kind: Kind, defaults: map<Field, Setting>, items: map<nat, QSchemaItem>)
    returns (lookups: map<Field, map<nat, Setting>>)
    requires forall f :: f in Names(kind) ==> f in defaults
    ensures forall f :: f in lookups <==> f in Names(kind)
    ensures forall f :: f in lookups ==> lookups[f] == LookupFor(defaults[f], items, f)
  {
    lookups := map[];
    var names := Names(kind);
    while names != {}
      invariant names <= Names(kind)
      invariant forall f :: f in lookups <==> f in Names(kind) && f !in names
      invariant forall f :: f in lookups ==> lookups[f] == LookupFor(defaults[f], items, f)
      decreases names
    {
      var name :| name in names;
      var table := BuildLookup(defaults[name], items, name);
      lookups := lookups[name := table];
      names := names - {name};
    }
  }

  /**
   * `BeatwiseQSchema(*arguments, **keywords)` / `MeasurewiseQSchema(...)`: normalise the
   * items, then build the lookups from them and the defaults.
   */
  method NewSchema(kind: Kind, kw: Keywords, args: Arguments) returns (r: Result<Schema>)
    ensures r.Ok? <==> NormaliseItems(kind, args).Ok?
    ensures r.Err? ==> r.error == NormaliseItems(kind, args).error
    ensures r.Ok? ==> Built(r.value) && r.value.kind == kind
    ensures r.Ok? ==> r.value.items == NormaliseItems(kind, args).value && r.value.defaults == Defaults(kind, kw)
  {
    var normalised := NormaliseItems(kind, args);
    if normalised.Err? {
      return Err(normalised.error);
    }
    var defaults := Defaults(kind, kw);
    var lookups := CreateLookups(kind, defaults, normalised.value);
    r := Ok(Schema(kind, defaults, normalised.value, lookups));
  }

  // ---------------------------------------------------------------- sticky lookup

  /** `x` is the least element of `s`. */
  predicate IsLeast(x: nat, s: set<nat>)
  {
    x in s && forall y :: y in s ==> x <= y
  }

  lemma {:induction false} MinExists(s: set<nat>)
    requires s != {}
    ensures exists x :: IsLeast(x, s)
    decreases s
  {
    var x :| x in s;
    if s == {x} {
      assert IsLeast(x, s);
    } else {
      MinExists(s - {x});
      var m :| IsLeast(m, s - {x});
      var least := if x < m then x else m;
      forall y | y in s
        ensures least <= y
      {
        if y != x { assert y in s - {x}; }
      }
      assert IsLeast(least, s);
    }
  }

  function MinOf(s: set<nat>): (m: nat)
    requires s != {}
    ensures m in s && forall y :: y in s ==> m <= y
  {
    MinExists(s);
    var x :| IsLeast(x, s);
    x
  }

  /** `sorted(keys)`. */
  function SortedKeys(s: set<nat>): (r: seq<nat>)
    ensures |r| == |s| && (forall x :: x in s <==> x in r)
    decreases |s|
  {
    if s == {} then []
    else
      var m := MinOf(s);
      [m] + SortedKeys(s - {m})
  }

  /** The sorted keys ascend strictly. */
  lemma {:induction false} SortedKeysAscending(s: set<nat>)
    ensures forall i, j :: 0 <= i < j < |SortedKeys(s)| ==> SortedKeys(s)[i] < SortedKeys(s)[j]
    decreases |s|
  {
    if s != {} {
      var m := MinOf(s);
      var rest := SortedKeys(s - {m});
      SortedKeysAscending(s - {m});
      var r := SortedKeys(s);
      assert r == [m] + rest;
      forall i, j | 0 <= i < j < |r|
        ensures r[i] < r[j]
      {
        assert r[j] == rest[j - 1] && r[j] in s - {m};
        if i > 0 {
          assert r[i] == rest[i - 1];
        }
      }
    }
  }

  /**
   * The key a setting is read from at step `k`: the last key of its table at or before
   * `k`. The table always has key 0, so there is one.
   */
  function LastChange(m: map<nat, Setting>, k: nat): (g: nat)
    requires 0 in m
    ensures g in m && g <= k
    ensures forall j :: j in m && j <= k ==> j <= g
    decreases k
  {
    if k in m then k else LastChange(m, k - 1)
  }

  /** One setting at step `k`: the table entry at its sticky key. */
  function At(s: Schema, f: Field, k: nat): Setting
    requires Valid(s) && f in s.lookups
  {
    s.lookups[f][LastChange(s.lookups[f], k)]
  }

  /** `__getitem__`: every setting at step `k`. */
  function GetItem(s: Schema, k: nat): (r: map<Field, Setting>)
    requires Valid(s)
    ensures forall f :: f in r <==> f in s.lookups
    ensures forall f :: f in r ==> r[f] == At(s, f, k)
  {
    map f | f in s.lookups :: At(s, f, k)
  }

  /**
   * In ascending keys that include 0, the bisection point of `k` is past the first key,
   * and the key just before it is the greatest key not after `k`.
   */
  lemma {:induction false} KeyBeforeBisection(keys: seq<nat>, k: nat)
    requires 0 in keys
    requires forall a, b :: 0 <= a < b < |keys| ==> keys[a] < keys[b]
    ensures 0 < BisectRightInt(keys, k)
    ensures keys[BisectRightInt(keys, k) - 1] <= k
    ensures forall j :: j in keys && j <= k ==> j <= keys[BisectRightInt(keys, k) - 1]
  {
    var i := BisectRightInt(keys, k);
    assert keys[0] == 0 by {
      var z :| 0 <= z < |keys| && keys[z] == 0;
    }
    forall j | j in keys && j <= k
      ensures j <= keys[i - 1]
    {
      var t :| 0 <= t < |keys| && keys[t] == j;
      if t < i - 1 {
        assert keys[t] < keys[i - 1];
      }
    }
  }

  /** Bisecting a table's sorted keys finds the same key as `LastChange`. */
  lemma {:induction false} BisectionFindsLastChange(m: map<nat, Setting>, k: nat)
    requires 0 in m
    ensures var keys := SortedKeys(m.Keys);
      && 0 < BisectRightInt(keys, k)
      && keys[BisectRightInt(keys, k) - 1] == LastChange(m, k)
  {
    var keys := SortedKeys(m.Keys);
    assert 0 in keys by { assert 0 in m.Keys; }
    SortedKeysAscending(m.Keys);
    KeyBeforeBisection(keys, k);
    var i := BisectRightInt(keys, k);
    var key := keys[i - 1];
    var g := LastChange(m, k);
    assert g in keys by { assert g in m.Keys; }
    assert g <= key;
    assert key in m by { assert key in keys; }
    assert key <= k;
    assert key <= g;
  }

  /**
   * `__getitem__` as the loop it is: for each setting, the table's entry at `k` when there
   * is one, else the entry at the key before the bisection point of the sorted keys.
   * A negative index fails the argument assertion.
   */
  method Lookup(s: Schema, k: int) returns (r: Result<map<Field, Setting>>)
    requires Valid(s)
    ensures r.Err? <==> k < 0
    ensures r.Err? ==> r.error == AssertionError
    ensures r.Ok? ==> r.value == GetItem(s, k)
  {
    if k < 0 {
      return Err(AssertionError);
    }
    var result := map[];
    var fields := s.lookups.Keys;
    while fields != {}
      invariant fields <= s.lookups.Keys
      invariant forall f :: f in result <==> f in s.lookups && f !in fields
      invariant forall f :: f in result ==> result[f] == At(s, f, k)
      decreases fields
    {
      var field :| field in fields;
      var table := s.lookups[field];
      if k in table {
        result := result[field := table[k]];
      } else {
        var keys := SortedKeys(table.Keys);
        var idx := BisectRightInt(keys, k);
        BisectionFindsLastChange(table, k);
        var key;
        if |keys| == idx {
          key := keys[|keys| - 1];
        } else {
          assert k < keys[idx];
          key := keys[idx - 1];
        }
        result := result[field := table[key]];
      }
      fields := fields - {field};
    }
    r := Ok(result);
  }

  /**
   * At step `k` a setting has the value of the last item at or before `k` that sets it
   * (an item at 0 overriding the default).
   */
  lemma {:induction false} StickyChangePoint(s: Schema, k: nat, f: Field, c: nat)
    requires Built(s) && f in s.lookups
    requires c <= k && c in ChangePoints(s.items, f)
    requires forall j :: c < j <= k ==> j !in ChangePoints(s.items, f)
    ensures GetItem(s, k)[f] == FieldOf(s.items[c], f).value
  {
    var m := s.lookups[f];
    var g := LastChange(m, k);
    assert c in m && c <= g;
    assert g == c by {
      if g != 0 { assert g in ChangePoints(s.items, f); }
    }
    assert GetItem(s, k)[f] == m[g];
  }

  /** Before the first item that sets it, a setting keeps the schema default. */
  lemma {:induction false} StickyDefault(s: Schema, k: nat, f: Field)
    requires Built(s) && f in s.lookups
    requires forall j :: j <= k ==> j !in ChangePoints(s.items, f)
    ensures GetItem(s, k)[f] == s.defaults[f]
  {
    var m := s.lookups[f];
    var g := LastChange(m, k);
    assert 0 !in ChangePoints(s.items, f);
  }

  /** Every key of every lookup table, and 0. */
  function TableKeys(s: Schema): set<nat>
  {
    {0} + set f, k | f in s.lookups && k in s.lookups[f] :: k
  }

  /** The last step at which any setting changes. */
  function Horizon(s: Schema): nat
  {
    Last(SortedKeys(TableKeys(s)))
  }

  /** No table has a key after the horizon. */
  lemma {:induction false} HorizonBound(s: Schema)
    ensures forall f, j :: f in s.lookups && j in s.lookups[f] ==> j <= Horizon(s)
  {
    var keys := SortedKeys(TableKeys(s));
    SortedKeysAscending(TableKeys(s));
    forall f, j | f in s.lookups && j in s.lookups[f]
      ensures j <= Horizon(s)
    {
      assert j in TableKeys(s);
      var t :| 0 <= t < |keys| && keys[t] == j;
      if t < |keys| - 1 { assert keys[t] < keys[|keys| - 1]; }
    }
  }

  /** Past a table's last key, the sticky key no longer moves. */
  lemma {:induction false} LastChangeClamp(m: map<nat, Setting>, b: nat, k: nat)
    requires 0 in m && (forall j :: j in m ==> j <= b) && b <= k
    ensures LastChange(m, k) == LastChange(m, b)
  {
    var g, h := LastChange(m, k), LastChange(m, b);
  }

  /** Two steps whose settings agree one by one have the same lookup. */
  lemma {:induction false} SameSettings(s: Schema, k: nat, l: nat)
    requires Valid(s) && forall f :: f in s.lookups ==> At(s, f, k) == At(s, f, l)
    ensures GetItem(s, k) == GetItem(s, l)
  {
    var here, there := GetItem(s, k), GetItem(s, l);
    assert here.Keys == there.Keys;
  }

  /** From the horizon on, every step has the same settings: each table's key clamps to its last one. */
  lemma {:induction false} StickyBeyond(s: Schema, k: nat)
    requires Valid(s) && Horizon(s) <= k
    ensures GetItem(s, k) == GetItem(s, Horizon(s))
  {
    var B := Horizon(s);
    HorizonBound(s);
    forall f | f in s.lookups
      ensures At(s, f, k) == At(s, f, B)
    {
      LastChangeClamp(s.lookups[f], B, k);
    }
    SameSettings(s, k, B);
  }

  // ---------------------------------------------------------------- call

  /** A target item: its start in milliseconds and the settings it was built from. */
  datatype TargetItem = TargetItem(offsetInMs: real, settings: map<Field, Setting>)

  /** The start of step `i`: the sum of the durations of the steps before it. */
  function Running(s: Schema, itemDuration: map<Field, Setting> -> real, i: nat): real
    requires Valid(s)
  {
    if i == 0 then 0.0 else Running(s, itemDuration, i - 1) + itemDuration(GetItem(s, i - 1))
  }

  /** With positive durations, the steps start strictly one after another. */
  lemma {:induction false} RunningIncreasing(s: Schema, itemDuration: map<Field, Setting> -> real, i: nat, j: nat)
    requires Valid(s) && (forall l :: itemDuration(l) > 0.0) && i < j
    ensures Running(s, itemDuration, i) < Running(s, itemDuration, j)
    decreases j
  {
    assert itemDuration(GetItem(s, j - 1)) > 0.0;
    if i < j - 1 {
      RunningIncreasing(s, itemDuration, i, j - 1);
    }
  }

  /** The offset `n` strides of `d` after `current`. */
  function Advance(current: real, d: real, n: nat): real
  {
    if n == 0 then current else Advance(current, d, n - 1) + d
  }

  lemma {:induction false} AdvanceIsProduct(current: real, d: real, n: nat)
    ensures Advance(current, d, n) == current + (n as real) * d
  {
    if n > 0 {
      AdvanceIsProduct(current, d, n - 1);
    }
  }

  /** Some number of strides of a positive length takes any offset to `duration`. */
  lemma {:induction false} EnoughStrides(current: real, d: real, duration: real) returns (left: nat)
    requires d > 0.0
    ensures Advance(current, d, left) >= duration
  {
    if current >= duration {
      left := 0;
    } else {
      var q := (duration - current) / d;
      assert q * d == duration - current;
      left := q.Floor + 1;
      assert (left as real) * d > q * d;
      AdvanceIsProduct(current, d, left);
    }
  }

  /** Taking one stride of `d` before `duration` uses up one of the strides that reach it. */
  lemma {:induction false} StrideTaken(current: real, step: real, left: nat, d: real, duration: real) returns (rest: nat)
    requires step == d && Advance(current, d, left) >= duration && current < duration
    ensures rest == left - 1 && Advance(current + step, d, rest) >= duration
  {
    AdvanceIsProduct(current, d, left);
    if left == 0 {
      assert false;
    }
    rest := left - 1;
    AdvanceIsProduct(current + d, d, rest);
    assert (rest as real) * d == (left as real) * d - d;
  }

  /** `targets` are the first steps, each at its running offset and before `duration`. */
  predicate Laid(s: Schema, itemDuration: map<Field, Setting> -> real, duration: real, targets: seq<TargetItem>)
    requires Valid(s)
  {
    forall i :: 0 <= i < |targets| ==>
      targets[i] == TargetItem(Running(s, itemDuration, i), GetItem(s, i)) && Running(s, itemDuration, i) < duration
  }

  lemma {:induction false} LaidStep(s: Schema, itemDuration: map<Field, Setting> -> real, duration: real, targets: seq<TargetItem>,
                 current: real, lookup: map<Field, Setting>)
    requires Valid(s) && Laid(s, itemDuration, duration, targets)
    requires current == Running(s, itemDuration, |targets|) && lookup == GetItem(s, |targets|)
    requires current < duration
    ensures Laid(s, itemDuration, duration, targets + [TargetItem(current, lookup)])
  {
    var n := |targets|;
    var next := targets + [TargetItem(current, lookup)];
    forall i | 0 <= i < |next|
      ensures next[i] == TargetItem(Running(s, itemDuration, i), GetItem(s, i)) && Running(s, itemDuration, i) < duration
    {
      if i < n {
        assert next[i] == targets[i];
      } else {
        assert i == n && next[i] == TargetItem(current, lookup);
      }
    }
  }

  /**
   * The state of `__call__`'s loop once `targets` are laid and the running offset is
   * `current`: from the horizon `B` on, where every item lasts `d`, `left` more strides
   * reach `duration`.
   */
  ghost predicate CallState(s: Schema, itemDuration: map<Field, Setting> -> real, duration: real,
                            B: nat, d: real, targets: seq<TargetItem>, current: real, left: nat)
    requires Valid(s)
  {
    && current == Running(s, itemDuration, |targets|)
    && Laid(s, itemDuration, duration, targets)
    && (B <= |targets| ==> Enough(current, d, left, duration))
  }

  /** `left` more strides of `d` carry `current` to `duration` or beyond. */
  ghost predicate Enough(current: real, d: real, left: nat, duration: real)
  {
    Advance(current, d, left) >= duration
  }

  /** Before `__call__`'s first turn the state holds, with enough strides in hand if the horizon is step 0. */
  lemma {:induction false} CallStart(s: Schema, itemDuration: map<Field, Setting> -> real, duration: real, B: nat, d: real)
    returns (left: nat)
    requires Valid(s) && d > 0.0
    ensures CallState(s, itemDuration, duration, B, d, [], 0.0, left)
  {
    left := EnoughStrides(0.0, d, duration);
  }

  /** The running offset of step `|targets|` plus that step's duration is the offset of the next step. */
  lemma {:induction false} RunningStep(s: Schema, itemDuration: map<Field, Setting> -> real, targets: seq<TargetItem>,
                    current: real, lookup: map<Field, Setting>, next: real)
    requires Valid(s) && current == Running(s, itemDuration, |targets|) && lookup == GetItem(s, |targets|)
    requires next == current + itemDuration(lookup)
    ensures next == Running(s, itemDuration, |targets + [TargetItem(current, lookup)]|)
  {
    var m := |targets + [TargetItem(current, lookup)]|;
    assert m - 1 == |targets|;
  }

  /**
   * The strides through one step of `__call__`'s loop: at or past the horizon the step
   * lasts `d` and uses up a stride; on reaching the horizon enough strides are counted.
   */
  lemma {:induction false} StrideStep(n: nat, B: nat, d: real, step: real, current: real, left: nat, next: real, duration: real)
    returns (rest: nat)
    requires d > 0.0 && next == current + step && current < duration
    requires B <= n ==> step == d && Enough(current, d, left, duration)
    ensures B <= n + 1 ==> Enough(next, d, rest, duration)
    ensures B <= n ==> rest < left
  {
    if B <= n {
      rest := StrideTaken(current, step, left, d, duration);
    } else if n + 1 == B {
      rest := EnoughStrides(next, d, duration);
    } else {
      rest := left;
    }
  }

  /** One turn of `__call__`'s loop keeps its state, and past the horizon uses up a stride. */
  lemma {:induction false} CallStep(s: Schema, itemDuration: map<Field, Setting> -> real, duration: real,
                 B: nat, d: real, targets: seq<TargetItem>, current: real, left: nat,
                 lookup: map<Field, Setting>, next: real) returns (rest: nat)
    requires Valid(s) && (forall l :: itemDuration(l) > 0.0)
    requires B == Horizon(s) && d == itemDuration(GetItem(s, B))
    requires CallState(s, itemDuration, duration, B, d, targets, current, left) && current < duration
    requires lookup == GetItem(s, |targets|) && next == current + itemDuration(lookup)
    ensures CallState(s, itemDuration, duration, B, d, targets + [TargetItem(current, lookup)], next, rest)
    ensures B <= |targets| ==> rest < left
  {
    var n := |targets|;
    if B <= n {
      StickyBeyond(s, n);
    }
    rest := StrideStep(n, B, d, itemDuration(lookup), current, left, next, duration);
    LaidStep(s, itemDuration, duration, targets, current, lookup);
    RunningStep(s, itemDuration, targets, current, lookup, next);
  }

  /**
   * `QSchema.__call__`: one target item per step from step 0, each starting where the
   * previous one ends, until a step would start at or after `duration`. The duration
   * of a target item is computed by the target item class from the step's settings,
   * taken here as `itemDuration`.
   */
  method Call(s: Schema, duration: real, itemDuration: map<Field, Setting> -> real) returns (targets: seq<TargetItem>)
    requires Valid(s) && forall l :: itemDuration(l) > 0.0
    ensures Laid(s, itemDuration, duration, targets)
    ensures Running(s, itemDuration, |targets|) >= duration
  {
    ghost var B := Horizon(s);
    ghost var d := itemDuration(GetItem(s, B));
    ghost var left := CallStart(s, itemDuration, duration, B, d);
    targets := [];
    var idx: nat, current := 0, 0.0;
    while current < duration
      invariant |targets| == idx && CallState(s, itemDuration, duration, B, d, targets, current, left)
      decreases if idx < B then B - idx else 0, left
    {
      var got := Lookup(s, idx);
      var lookup := got.value;
      var next := current + itemDuration(lookup);
      left := CallStep(s, itemDuration, duration, B, d, targets, current, left, lookup, next);
      targets := targets + [TargetItem(current, lookup)];
      current := next;
      idx := idx + 1;
    }
  }
}

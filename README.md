# Nauert Q-grid quantisation core, modelled in Dafny

Nauert is the quantiser of the abjad music-notation system. It turns a sequence of
timed events into notation. First it builds a `QEventSequence` of pitched, silent and
terminal events. Then a `QSchema` describes, beat by beat, the settings of a `QTarget`.
The target parcels the events out to its beats. Each beat holds `QGrid`s: a rhythm
tree whose leaves collect `QEventProxy`s, plus a "next downbeat" leaf pinned at offset 1.
A grid fits proxies to the nearest leaf, subdivides leaves, and measures how far the
proxies lie from their leaves. Grace handlers then decide, per grid point, which
events sound and which become grace notes.

This project models that core with exact rationals (`real`) for every offset and
duration, and `int` for pitches.

- `qgrid.dfy` (module `QGrids`) is the grid. It is a class whose rhythm tree (`root`,
  `downbeat`) and per-leaf proxy lists (`proxies`, one list per leaf, the next
  downbeat's last) are fields updated in place.
  - `FitQEvents`, `SubdivideLeaf`, `SubdivideLeaves` and `SortQEventsByIndex` are
    methods with loops. Each is proved against a specification function: `Fit`,
    `NewLists`/`Returned`/`TreeAfter`, and `SortBy`.
  - `Distance` is a read-only loop proved equal to `MeanError`.
  - Node identity, which decides `QGrid.__eq__`, is a pair of `NodeRef` objects.
- `rhythmtree.dfy` (module `RhythmTrees`) holds the rhythm tree datatype and its leaf
  layout. A child starts at its parent's start plus the parent's span times the share
  of earlier sibling weights. A subdivided leaf becomes a container that keeps the
  leaf's own weight and whose children carry the raw ratios.
- `subdivision.dfy` (module `Subdivisions`) specifies the effect of subdividing several
  leaves. Each target's list is replaced by empty lists, and the list after it keeps
  only its proxies at or after its start. It also proves proxy conservation.
- `qtarget.dfy` (module `QTargets`) covers:
  - item sorting and `duration_in_ms`;
  - the terminal-drop rule;
  - parcelling events to beats, by bisection, as a loop over beat objects;
  - the downbeat-shift pass, as nested loops over grid objects.
- `qeventproxy.dfy`, `qevents.dfy` and `qeventsequence.dfy` hold the event value types,
  their equality, the proxy normalisation and the sequence factories.
- `qschemaitems.dfy` and `qschemas.dfy` hold the schema items, the sticky per-index
  lookup, the lookup tables built by a loop, and the running-offset loop of `__call__`.
- `gracehandlers.dfy` holds the collapsing, concatenating and discarding grace handlers.
  The discarding handler is a class with its `discarded` record.
- `seqs.dfy`, `dicts.dfy` and `wrappers.dfy` are helpers:
  - sums, concatenation and bisection;
  - a stable insertion sort;
  - `sorted(dict(pairs).items())` as an ordered association list;
  - `Option` and `Result`, where `Err` carries the Python exception class.

A Python `assert` on a factory or constructor argument, and a `raise`, become `Err`
results. An `assert` that a method's caller must satisfy becomes a `requires`.

## Model

| member | source | states |
|---|---|---|
| QEvents.Equal | source/nauert/qevents.py:133-280 | Two events are equal exactly when they are the same kind with the same fields. Terminal events compare by offset only. Events at different offsets are never equal. |
| QEvents.NewSilent | source/nauert/qevents.py:201-213 | A silent event keeps its offset and index; attachments of None are stored as the empty tuple, others as given. |
| QEvents.FromOffsetPitchesAttachments | source/nauert/qevents.py:83-96 | The result depends on the pitches argument: an iterable of numbers gives a pitched event with those pitches in order; None gives a silence; one number gives a one-pitch event. Other numbers and non-pitch objects raise TypeError. A non-numeric iterable and attachments of None fail an assertion. |
| QEventProxies.NewProxy | source/nauert/qeventproxy.py:31-56 | With one offset, the offset must lie in [0,1] and an event is required. With two offsets (min, max), it requires min <= t <= max and gives (t - min)/(max - min) in [0,1]; min = max divides by zero. With none, the event must be absent and the offset is 0. More than two raises ValueError. |
| QEventProxies.UnitFraction | source/nauert/qeventproxy.py:47-48 | The normalised offset of a span lies in [0,1] and scales back to the distance from the minimum. |
| QEventProxies.SpanExample | tests/test_QEventProxy___init__.py:13-19 | An event at 130 in the span [100, 1000] gets offset 1/30. |
| QEventProxies.ProxyEqual | source/nauert/qeventproxy.py:61-70 | Two proxies are equal exactly when their offsets and their events are equal. |
| QEventProxies.ProxyIndex | source/nauert/qeventproxy.py:93-98 | `index` needs a wrapped event and returns that event's index; with none it fails the assertion. |
| QEventSequences.MakeSequence | source/nauert/qeventsequence.py:46-61 | None gives the empty sequence. Otherwise the sequence is accepted exactly when: it has more than one event; the last is terminal; the others are pitched or silent; offsets never decrease; and the first offset is >= 0. |
| QEventSequences.DurationInMs | source/nauert/qeventsequence.py:126-132 | The duration is the last event's offset, so of a well-formed sequence it bounds every offset; an empty sequence has none. |
| QEventSequences.DurationEventsRecoverDurations | source/nauert/qeventsequence.py:185-196 | Event i starts at the sum of the magnitudes of the earlier durations, so consecutive events differ by the magnitude of each duration. It is silent exactly when its duration is negative and otherwise has pitch 0. The terminal event sits at the total. |
| QEventSequences.DurationEventsWellFormed | source/nauert/qeventsequence.py:185-197 | For a non-empty duration list, the events built are a well-formed sequence. |
| QEventSequences.FromMillisecondDurations | source/nauert/qeventsequence.py:158-197 | The factory succeeds exactly when the (fused) duration list is non-empty. Its duration is the sum of the magnitudes of all the input durations, fused or not. |
| QEventSequences.FuseSilencesSpec | source/nauert/qeventsequence.py:179-184 | Fusing keeps the total magnitude and the positive durations in order, and leaves no zero. Without zeros in the input, no two fused entries in a row are negative. |
| QEventSequences.SumNegativeRunsAbs | source/nauert/qeventsequence.py:181 | Summing each run of negative durations keeps the total magnitude. |
| QEventSequences.SumNegativeRunsPositives | source/nauert/qeventsequence.py:181 | Summing negative runs keeps the non-negative durations, in order. |
| QEventSequences.SumNegativeRunsSeparated | source/nauert/qeventsequence.py:181 | After summing negative runs, no two negative entries are adjacent. |
| QEventSequences.DropZerosSpec | source/nauert/qeventsequence.py:180-182 | Dropping zero entries keeps the total magnitude and the positive entries in order. |
| QEventSequences.FusedDurationsExample | tests/test_QEventSequence_from_millisecond_durations.py:141-153 | Durations (100, -100, 100, -100, -100, 100) fused give events at 0, 100, 200, 300 and 500 and a terminal event at 600, with one silence at 300. |
| QEventSequences.FromMillisecondOffsets | source/nauert/qeventsequence.py:220-224 | All but the last offset become pitched events with pitch 0, and the last becomes the terminal event. The sequence check rejects fewer than two offsets, decreasing offsets and a negative first offset. An empty list fails on `offsets[-1]`. |
| QEventSequences.TupleError | source/nauert/qeventsequence.py:254-264 | A tuple is rejected for any of: a non-positive duration; attachments of None (a bare Exception); a non-pitch object; an empty or non-numeric pitch list; attachments on a silence. |
| QEventSequences.FirstTupleError | source/nauert/qeventsequence.py:251-264 | No error is reported exactly when every tuple passes the checks. |
| QEventSequences.FuseSilentTuplesDuration | source/nauert/qeventsequence.py:266-273 | Grouping runs of pitch-less tuples keeps the total duration. |
| QEventSequences.FuseSilentTuplesPitched | source/nauert/qeventsequence.py:266-270 | Pitched tuples pass through one to one, in order, with their attachments. |
| QEventSequences.FuseSilentTuplesSeparated | source/nauert/qeventsequence.py:266-273 | No two fused silences are adjacent, and each fused silence has empty attachments. |
| QEventSequences.FuseSilentTuplesAccepted | source/nauert/qeventsequence.py:254-273 | Fusing tuples that pass the checks yields tuples that pass them. |
| QEventSequences.FuseSilentTuplesUnsupported | source/nauert/qeventsequence.py:266-273 | A fused tuple has an unsupported pitch type exactly when an input tuple does. |
| QEventSequences.BuildEvents | source/nauert/qeventsequence.py:278-283 | Each fused tuple becomes the event the factory makes at its offset; the build fails exactly when some factory call fails. |
| QEventSequences.GroupEventsOffsets | source/nauert/qeventsequence.py:275-284 | Built events start at 0, step by each fused duration, and end with a terminal event at the total duration; a non-empty result is a well-formed sequence. |
| QEventSequences.FromMillisecondPitchAttachmentTuples | source/nauert/qeventsequence.py:251-285 | A failed check gives its error. Otherwise the factory succeeds exactly when there is a tuple and no unsupported pitch type, which raises TypeError. |
| QEventSequences.TuplesSequenceKinds | source/nauert/qeventsequence.py:265-284 | A built sequence has one event per fused tuple, and the event after them is terminal. Rests sit exactly where the fused tuples have no pitch, and each event carries its tuple's attachments. A tuple with a list of pitches gives a pitched event with that list, and a tuple with one pitch gives a pitched event with just that pitch. |
| QEventSequences.TuplesSequenceOffsets | source/nauert/qeventsequence.py:274-285 | A built sequence starts at 0, steps by each fused duration, and its duration is the sum of all input durations. |
| QEventSequences.ValidatePairs | source/nauert/qeventsequence.py:309-318 | Pairs pass exactly when every duration is positive and every pitch value is accepted. |
| QEventSequences.WithEmptyAttachments | source/nauert/qeventsequence.py:319-321 | Each pair becomes the tuple with the same duration and pitches and empty attachments. |
| QEventSequences.PitchPairsAreTuples | source/nauert/qeventsequence.py:309-321 | The pair factory equals the tuple factory on the pairs with empty attachments. |
| QEventSequences.PitchPairsExampleFuse | tests/test_QEventSequence_from_millisecond_pitch_pairs.py:7-24 | The test's pairs fuse into 100 (pitch 0), a 300 silence, 300 (pitches 1 and 4), a 350 silence, 400 (pitch 5) and 600 (pitch 7). |
| QGrids.GridOffsets | abjadext/nauert/qgrid.py:434-440 | The offsets end with exactly 1, for the next downbeat. |
| QGrids.GridOffsetsShape | abjadext/nauert/qgrid.py:414-440 | There is one offset per leaf plus the next downbeat. They start at 0, stay in [0,1] and strictly increase, as the bisection in `fit_q_events` relies on. |
| QGrids.NearestLeafIsLeftmostNearest | abjadext/nauert/qgrid.py:476-487 | A proxy goes to a leaf at least as near as any other. No earlier leaf is as near, so on equidistance the left leaf wins. |
| QGrids.FitAppends | abjadext/nauert/qgrid.py:476-487 | Fitting only appends: each leaf's new list is its old list followed by the proxies fitted to it, in input order. |
| QGrids.FitConserves | abjadext/nauert/qgrid.py:476-487 | The fitted lists hold, as a multiset, exactly the old proxies plus the new ones. |
| QGrids.FitLists | abjadext/nauert/qgrid.py:476-487 | The loop over proxies computes `Fit`. |
| QGrids.FitExample | tests/test_QGrid_fit_q_events.py:6-44 | Seven proxies on an unsubdivided grid: the one at 1/2 goes to leaf 0 and those from 0.55 on go to leaf 1. |
| QGrids.QGrid.FitQEvents | abjadext/nauert/qgrid.py:468-487 | The tree is unchanged and the proxy lists become `Fit` of the old lists at the grid's offsets. |
| QGrids.MeanErrorSpec | abjadext/nauert/qgrid.py:404-412 | The distance is None exactly when no leaf holds a proxy. Otherwise it is the mean absolute offset error, which lies in [0,1]. |
| QGrids.TotalErrorBounds | abjadext/nauert/qgrid.py:404-409 | The total absolute error is between 0 and the number of proxies. |
| QGrids.QGrid.Distance | abjadext/nauert/qgrid.py:404-412 | The nested loop returns `MeanError` of the leaves' lists at their offsets, with the next downbeat at 1. |
| QGrids.DistanceExample | tests/test_QGrid_distance.py:52-57 | The seven proxies of the fitting example lie 3/14 from their leaves on average. |
| QGrids.QGrid.SortQEventsByIndex | abjadext/nauert/qgrid.py:489-496 | The leaves are sorted one by one, each list by the stable sort on event index, and the tree is unchanged. The call succeeds exactly when every list can be sorted. Otherwise it stops at the first list that cannot, with that list's error: the lists before it are sorted and the others are left as they were. |
| QGrids.SortError | abjadext/nauert/qgrid.py:495-496 | Sorting a list fails an assertion exactly when some proxy has no event (`index` asserts one), and raises TypeError exactly when otherwise the list has two or more proxies and one event has no index (None is not comparable). A list of one proxy never fails on a missing index. |
| QGrids.FirstUnsortable | abjadext/nauert/qgrid.py:495-496 | The loop stops at the first leaf whose list cannot be sorted; every earlier list can be. |
| QGrids.SortLists | abjadext/nauert/qgrid.py:495-496 | The loop over the lists sorts those before the first unsortable one and reports success exactly when there is none, else that list's error. |
| QGrids.SortedBeforeSpec | abjadext/nauert/qgrid.py:495-496 | After the loop every list holds exactly its own proxies. Each sorted list is in index order, and when it has two or more proxies each of them has an event with an index. |
| QGrids.SortedByIndex | abjadext/nauert/qgrid.py:495-496 | The sorted list is ordered by index and is a permutation of the original. |
| QGrids.QGrid.GridLeaves | abjadext/nauert/qgrid.py:414-423 | The leaves are the tree's depth-first leaves followed by the next downbeat, one per proxy list. |
| QGrids.QGrid.Offsets | abjadext/nauert/qgrid.py:434-440 | The offsets have one entry per leaf; they start at 0, end at 1 and strictly increase. |
| QGrids.QGrid.constructor | abjadext/nauert/qgrid.py:247-260 | The grid keeps the given tree and next-downbeat leaf, and gives each a fresh identity. |
| QGrids.QGrid.Default | abjadext/nauert/QGrid.py:88-101 | The default grid is a divisible root leaf of weight 1 and a divisible next-downbeat leaf of weight 1, both empty. |
| QGrids.QGrid.Copy | abjadext/nauert/qgrid.py:289-296 | A copy has the same tree and proxies but fresh nodes, so it is not equal to the original. |
| QGrids.FreshGridsDiffer | abjadext/nauert/QGrid.py:137-148 | Equality compares node identity: two grids built independently with the same format are unequal. |
| QGrids.QGrid.SubdivideLeaf | abjadext/nauert/qgrid.py:498-518 | The method returns the leaf's proxies. The leaf is replaced in the tree by a container of the leaf's own weight over fresh empty divisible leaves weighted by the ratios. A leaf without a parent (the root leaf, or the next downbeat) makes the container the new root. |
| QGrids.SubdivisionKeepsOffsets | abjadext/nauert/qgrid.py:505-518 | Subdividing leaf k keeps the offsets up to k and moves later ones along by the number of new leaves less one. The new leaves start at the old leaf's start and lie before the next leaf's start. |
| QGrids.QGrid.SubdivideLeaves | abjadext/nauert/qgrid.py:529-551 | Duplicate indices collapse with the last winning. Indices, negative ones included, refer to the leaves before the call. An index out of range raises IndexError with nothing changed. Otherwise the targets are subdivided in ascending order; the tree, the lists and the result are `TreeAfter`, `NewLists` and `Returned` of the targets. A next-downbeat target raises IndexError after the earlier targets are done. |
| QGrids.QGrid.SubdivideTargets | abjadext/nauert/qgrid.py:536-551 | The loop over the looked-up targets reaches that state: per target, the leaf's proxies and then the proxies popped from the following leaf that lie before its start (1 for the next downbeat). |
| QGrids.QGrid.Turns | abjadext/nauert/qgrid.py:537-549 | The loop stops at the first next-downbeat target. Up to there the state equals the fold `Run` of one subdivision per target. |
| QGrids.QGrid.Advance | abjadext/nauert/qgrid.py:539-549 | One turn of the loop: subdivide the leaf at its shifted position, then reclaim from the leaf after it. The state then equals `Run` with one more target. |
| QGrids.ReclaimList | abjadext/nauert/qgrid.py:546-549 | Scanning a snapshot and popping the proxies before the start leaves the succeeding proxies in order. The popped ones come out in order too. |
| QGrids.DownbeatLast | abjadext/nauert/qgrid.py:537-541 | Among ascending targets, one naming the next downbeat can only be the last. |
| QGrids.RunLists | abjadext/nauert/qgrid.py:536-551 | Folding single subdivisions over ascending inner targets gives exactly the lists `NewLists` and the result `Returned`. |
| QGrids.TurnPosition | abjadext/nauert/qgrid.py:539-549 | After earlier subdivisions, a target's leaf sits at its old index plus the shift. Its list is its own one, and the leaf after it still holds its original list. |
| Subdivisions.Preceding | abjadext/nauert/qgrid.py:101-106 | The preceding proxies all lie before the leaf's start. |
| Subdivisions.Succeeding | abjadext/nauert/qgrid.py:122-127 | The succeeding proxies all lie at or after the leaf's start. |
| Subdivisions.PartitionConserves | abjadext/nauert/qgrid.py:101-127 | Preceding and succeeding proxies together are the leaf's proxies, as a multiset. |
| Subdivisions.KeptUntouched | abjadext/nauert/qgrid.py:536-551 | A leaf that is neither a target nor right after one keeps its list unchanged. |
| Subdivisions.KeptTarget | abjadext/nauert/qgrid.py:545 | A target leaf is replaced by one empty list per ratio. |
| Subdivisions.KeptFollower | abjadext/nauert/qgrid.py:546-549 | The leaf after a target, unless it is a target itself, keeps only its succeeding proxies. |
| Subdivisions.SubdivisionConserves | abjadext/nauert/qgrid.py:536-551 | The returned proxies plus those still held equal, as a multiset, the proxies held before the call. |
| Subdivisions.StepConserves | abjadext/nauert/qgrid.py:545-549 | Each target keeps the held and returned proxies together unchanged. |
| Subdivisions.ReturnedStep | abjadext/nauert/qgrid.py:545-549 | Each target adds its current list and then the preceding proxies of the leaf after it. |
| RhythmTrees.SlotsTile | abjadext/nauert/qgrid.py:434-440 | The leaves of a well-formed tree tile its span in order, with no gaps or overlaps. |
| RhythmTrees.TilesOrdered | abjadext/nauert/qgrid.py:434-440 | Tiling leaves start strictly increasing, inside the span. |
| RhythmTrees.LeavesReplace | abjadext/nauert/qgrid.py:512-517 | Replacing leaf k splices the new node's leaves in place of leaf k. |
| RhythmTrees.SlotsReplace | abjadext/nauert/qgrid.py:505-517 | Replacing a leaf by a node of the same weight lays the node's leaves out in the old leaf's slot and leaves other slots unchanged. |
| RhythmTrees.ReplaceDuration | abjadext/nauert/qgrid.py:505-506 | A replacement of the same weight keeps the tree's weight. |
| RhythmTrees.WellFormedReplace | abjadext/nauert/qgrid.py:512-517 | Replacing a leaf by a well-formed node keeps the tree well formed. |
| RhythmTrees.Subdivided | abjadext/nauert/qgrid.py:505-511 | The container keeps the leaf's weight and has one fresh divisible leaf per ratio, weighted by that ratio. |
| RhythmTrees.WellFormedSubdivided | abjadext/nauert/qgrid.py:505-511 | The container is well formed exactly when its weight and every ratio are positive and there is at least one ratio. |
| RhythmTrees.LeavesAreLeaves | abjadext/nauert/qgrid.py:159-164 | The depth-first leaves of a tree are all leaves. |
| RhythmTrees.HalvedOffsetsExample | abjadext/nauert/qgrid.py:385-398 | `(1 ((1 (1 1)) 1))` puts its leaves at 0, 1/4 and 1/2. |
| RhythmTrees.ThreeFourFiveOffsetsExample | tests/test_QGrid_subdivide_leaves.py:90-95 | `(1 ((1 (3 4 5)) 1))` puts its four leaves at 0, 1/8, 7/24 and 1/2. |
| QTargets.MakeItems | abjadext/nauert/QTarget.py:37-41 | Items are stored sorted by start offset, as a permutation of the input. |
| QTargets.MakeItemsStable | abjadext/nauert/QTarget.py:41 | Items that start at the same offset keep the order they were given in, as Python's sort is stable. |
| Seqs.SortByStable | abjadext/nauert/qgrid.py:496 | The stable sort keeps, for every key value, the elements with that key in their input order. |
| QTargets.DurationInMs | abjadext/nauert/QTarget.py:193-200 | The duration is the last item's offset plus its duration; with no items it fails. |
| QTargets.DurationCoversItems | abjadext/nauert/QTarget.py:193-200 | Of sorted items with a non-negative last duration, the target's duration bounds every item's offset. |
| QTargets.EventsToParcel | abjadext/nauert/QTarget.py:75-79 | When the next-to-last event is silent the terminal event is dropped; otherwise all events are kept. A sequence of fewer than two events fails. |
| QTargets.TerminalParcelled | abjadext/nauert/QTarget.py:75-79 | Of a well-formed sequence, every non-terminal event is parcelled in order. The terminal one is parcelled exactly when the event before it is not silent. |
| QTargets.BeatIndexSpec | abjadext/nauert/QTarget.py:83-86 | An event goes to the last beat starting at or before it. An event before the first beat wraps to the last beat, as Python's index -1 does. |
| QTargets.ParcelsStep | abjadext/nauert/QTarget.py:84-87 | Each event is appended to exactly one beat, after that beat's earlier events. |
| QTargets.ParcelsPartition | abjadext/nauert/QTarget.py:84-87 | Parcelling loses and duplicates no event. |
| QTargets.ParcelOut | abjadext/nauert/QTarget.py:82-87 | The loop appends to each beat object exactly its parcel of the events. |
| QTargets.ParcelSequence | abjadext/nauert/QTarget.py:75-87 | It fails with IndexError, changing nothing, for fewer than two events or no beats. Otherwise each beat receives its parcel of the events to parcel, by sorted beat starts. |
| QTargets.ShiftedGridSpec | abjadext/nauert/QTarget.py:178-184 | After the pass every grid but the last has an empty next downbeat. Each grid's first leaf receives the previous grid's next-downbeat proxies after its own, in reverse order. |
| QTargets.ShiftConserves | abjadext/nauert/QTarget.py:178-184 | The pass conserves the multiset, and so the number, of proxies across all grids. |
| QTargets.ReceivedLast | abjadext/nauert/QTarget.py:180-184 | The pass never touches the last grid's next downbeat. |
| QTargets.MoveDownbeat | abjadext/nauert/QTarget.py:181-184 | The pop/append loop empties one grid's next downbeat and appends its proxies, last first, to the next grid's first leaf; the trees are unchanged. |
| QTargets.ShiftDownbeats | abjadext/nauert/QTarget.py:178-184 | The grids' lists become `Shifted` of the old lists; the trees are unchanged. |
| QTargets.PassOn | abjadext/nauert/QTarget.py:180-184 | One pair of neighbours advances the pass by one grid. |
| QSchemaItems.NewBeatwiseItem | source/nauert/qschemaitems.py:88-100 | A beatwise item is accepted exactly when its tempo, if given, is precise and its beatspan, if given, is positive. |
| QSchemaItems.NewMeasurewiseItem | source/nauert/qschemaitems.py:161-181 | A measurewise item is accepted exactly when its tempo, if given, is precise and its time signature is absent or a time signature. `use_full_measure` becomes a bool when given and stays None otherwise. |
| QSchemaItems.Beatspan | source/nauert/qschemaitems.py:194-204 | The beatspan is None exactly when no time signature is set. |
| QSchemaItems.BeatsFillMeasure | source/nauert/qschemaitems.py:199-204 | The one-beat span is positive, and the numerator times it is the full-measure span. |
| QSchemaItems.BeatspanSixEight | source/nauert/qschemaitems.py:147-151 | 6/8 gives a beatspan of 1/8, and 3/4 with the full measure. |
| QSchemas.Defaults | source/nauert/qschemas.py:314-323 | A schema has exactly its kind's settings, seeded from the keyword arguments or the class defaults. |
| QSchemas.NormaliseItems | source/nauert/qschemas.py:44-68 | Positional items get positions 0..n-1, and a dict or pairs keep their explicit positions with the last pair winning. Items of the other kind or any other shape raise ValueError, and a negative position fails an assertion. |
| QSchemas.PairsToMapSpec | source/nauert/qschemas.py:53-54 | In `dict(pairs)` a position holds the item of the last pair that names it. |
| QSchemas.LookupFor | source/nauert/qschemas.py:112-122 | A field's table has key 0 plus every position whose item sets the field. Each key holds that item's value, and key 0 holds the default unless the item at 0 overrides it. |
| QSchemas.BuildLookup | source/nauert/qschemas.py:115-121 | The loop over items builds exactly `LookupFor`. |
| QSchemas.CreateLookups | source/nauert/qschemas.py:112-122 | There is one table per setting name of the schema's kind, each built by `LookupFor`. |
| QSchemas.NewSchema | source/nauert/qschemas.py:43-69 | Construction succeeds exactly when item normalisation does, and then stores the normalised items and the built tables. |
| QSchemas.LastChange | source/nauert/qschemas.py:96-107 | The sticky key for index k is the greatest table key <= k. |
| QSchemas.BisectionFindsLastChange | source/nauert/qschemas.py:101-107 | Bisecting the sorted keys finds that greatest key <= k. |
| QSchemas.Lookup | source/nauert/qschemas.py:90-108 | `__getitem__` fails its assertion exactly when the index is negative. Otherwise it returns, per field, the value at the greatest key <= the index. |
| QSchemas.StickyChangePoint | source/nauert/qschemas.py:96-107 | A setting made at position c holds at every later index until the next item that sets it. |
| QSchemas.StickyDefault | source/nauert/qschemas.py:115-120 | Before any item sets a field, the lookup returns the schema default. |
| QSchemas.StickyBeyond | source/nauert/qschemas.py:101-104 | Indices beyond every key return the settings at the last key. |
| QSchemas.SortedKeysAscending | source/nauert/qschemas.py:101 | The sorted keys strictly increase. |
| QSchemas.RunningIncreasing | source/nauert/qschemas.py:79-87 | With positive item durations the running offset strictly increases with the index. |
| QSchemas.Call | source/nauert/qschemas.py:73-88 | `__call__` creates target items at indices 0, 1, 2 and so on. The first is at offset 0 and each next is at the previous plus its duration. Every item starts before the requested duration, and the loop stops at the first running offset >= it. |
| GraceHandlers.PitchedEventsAppend | abjadext/nauert/gracehandlers.py:101-104 | Selecting pitched events distributes over concatenation. |
| GraceHandlers.Collapse | abjadext/nauert/gracehandlers.py:99-105 | The collapsing handler never returns a grace container and always returns attachments. |
| GraceHandlers.CollapseIsConcatOfPitched | abjadext/nauert/gracehandlers.py:99-105 | It returns the concatenated pitches and the concatenated attachments of the pitched events only, in order. |
| GraceHandlers.FindLastPitched | abjadext/nauert/gracehandlers.py:357-362 | It returns the largest index holding a pitched event, and raises ValueError exactly when there is none. |
| GraceHandlers.NewConcatenatingGraceHandler | abjadext/nauert/gracehandlers.py:282-294 | The grace duration defaults to 1/16. A given duration must be a dyadic rational, and a zero denominator divides by zero. |
| GraceHandlers.DyadicExamples | abjadext/nauert/gracehandlers.py:289-292 | 1/16 is dyadic and 1/12 is not. |
| GraceHandlers.SelectFinal | abjadext/nauert/gracehandlers.py:308-312 | With the replace option and at least two events, the final event is the last pitched one, and the grace events are exactly those before it. Otherwise the final event is the last one. An empty input raises IndexError. |
| GraceHandlers.Concatenate | abjadext/nauert/gracehandlers.py:298-352 | A pitched final event gives its pitches and attachments; any other gives no pitches and attachments of None. A grace container is made exactly when the grace events left by `discard_grace_rest` are non-empty, with one leaf per event. The flag `literal` chooses the rest filter: the loop as written (`Sweep`) or the evidently intended one (`DiscardGraceRests`). |
| GraceHandlers.GraceLeafOf | abjadext/nauert/gracehandlers.py:332-347 | A pitched event becomes a note (one pitch) or a chord; any other event becomes a rest. Each leaf has the grace duration and the event's attachments. |
| GraceHandlers.ConcatenateReplaces | abjadext/nauert/gracehandlers.py:308-350 | With the replace option, the last pitched event sounds and at most the events before it become grace leaves, with either rest filter. With the intended filter and rests discarded, no grace leaf is a rest; the loop as written does not promise this (`ConcatenateKeepsSkippedRest`). |
| GraceHandlers.ConcatenateKeepsSkippedRest | abjadext/nauert/gracehandlers.py:308-350 | For [rest at 0, rest at 1, note 60 at 2] with both options on, the handler as written sounds 60 with a grace container holding one rest. The intended handler sounds 60 with no grace container. |
| GraceHandlers.DiscardGraceRestsAsWritten | abjadext/nauert/gracehandlers.py:322-327 | The loop, run as written, computes `Sweep`. |
| GraceHandlers.SweepKeepsPitched | abjadext/nauert/gracehandlers.py:322-327 | The literal loop never removes a pitched grace event and keeps their order. |
| GraceHandlers.SweepSkipsSecondRest | abjadext/nauert/gracehandlers.py:323-326 | Of two rests in a row the literal loop removes the first and keeps the second. |
| GraceHandlers.DiscardGraceRestsDrops | abjadext/nauert/gracehandlers.py:322-327 | The corrected filter leaves no rest and only events of its input. |
| GraceHandlers.DiscardGraceRestsKeepsPitched | abjadext/nauert/gracehandlers.py:322-327 | The corrected filter keeps every pitched event, in order. |
| GraceHandlers.DiscardGraceRestsNoRest | abjadext/nauert/gracehandlers.py:322-327 | Without rests the filter changes nothing. |
| GraceHandlers.DiscardGraceRestsOnlyRests | abjadext/nauert/gracehandlers.py:322-327 | Grace events that are all rests leave nothing. |
| GraceHandlers.DiscardingGraceHandler.constructor | abjadext/nauert/gracehandlers.py:508-509 | A new handler has discarded nothing. |
| GraceHandlers.DiscardingGraceHandler.Handle | abjadext/nauert/gracehandlers.py:513-524 | The last event's pitches and attachments are returned if it is pitched, else empty ones, and never a grace container. The events before it are recorded as one entry only when there is at least one. |
| Dicts.GetPut | abjadext/nauert/qgrid.py:529 | Storing a key in the ordered table makes it map to the new value and leaves every other key's value alone. |
| Dicts.FromPairsLastWins | abjadext/nauert/qgrid.py:529 | `sorted(dict(pairs).items())` maps each key to the value of its last pair. |

## Left out

- Notation is not modelled: `QGrid.__call__`, `QGridLeaf.__call__` and `__graph__`, `QTarget._notate` and `_notate_leaves`, and abjad's construction of notes, chords, rests and grace containers. A grace container is a sequence of `GraceLeaf` values.
- Search trees, quantisation jobs, job handlers (including the parallel one), heuristics and attack-point optimisers are not part of this model. A search tree is an opaque token, and `QTarget.__call__` is modelled only up to parcelling events; the chosen grids are an input to the downbeat-shift pass.
- `QTargetBeat` is a minimal stand-in holding a start offset and its events. The target items' duration, which lives in qtargetitems, is the `itemDuration` parameter of `QSchemas.Call`.
- QSchemas.Call: the target it returns is the list of (offset, settings) items; building `target_item_class` and `target_class` objects is not modelled.
- `from_tempo_scaled_durations` and `from_tempo_scaled_leaves` depend on abjad tempo conversion and score traversal.
- Floats are not modelled: every offset and duration is an exact rational.
- `QEvent.__lt__` is not modelled; it compares a bound method and would raise.
- Keyword arguments are assumed to have the right types. Item specifications given as dicts are modelled as already-built items.
- `abjad.TimeSignature`, `MetronomeMark` and `Duration` validation, other than the checks the core makes itself, is not modelled.
- QSchemaItems.NewBeatwiseItem: a beatspan is modelled as a rational, so the `abjad.Duration` type check is not modelled.
- GraceHandlers.NewConcatenatingGraceHandler: dyadic means the reduced denominator is a power of two. It is decided through the denominator's odd part, not by reducing the fraction.
- Rhythm-tree node identity: a tree is a value, so `QGrid.__eq__` is modelled by one identity token each for the root and the next downbeat. Aliasing between grids and deep copies are not modelled beyond fresh tokens.
- QGrids.QGrid.SubdivideLeaves: the normalised targets must be in the order the source processes them. Pairs whose negative and positive keys name the same leaf, or that sort out of leaf order, make the source subdivide a leaf twice or act on a stale leaf. Ratios must be positive so that the tree stays well formed.
- QGrids.QGrid.SubdivideLeaf and QGrids.QGrid.SubdivideLeaves take the leaf by its index among the grid's leaves rather than as an object.
- QGrids.ReclaimList and QGrids.FitLists work on a copy of the proxy lists that the method writes back once. The source mutates the leaves' lists in place, which is not observable here because no list is shared.
- GraceHandlers.ConcatenateReplaces: its rest-free claim assumes no terminal event among the grace candidates. The terminal event is never handed to a grace handler by the target. The claim is made only of the intended rest filter, since the loop as written can keep a rest.
- GraceHandlers.Concatenate: the rest of the model relies on it with the intended filter (`literal` false). With `literal` true it is the handler as written, which keeps every second rest of a run.
- QGrids.QGrid.SortQEventsByIndex: when a comparison raises TypeError part way through, CPython may leave that leaf's list partly reordered; the model leaves it as it was.
- QGrids.QGrid.constructor: the root and the next downbeat must have duration 1. `QGrid.__init__` accepts any leaf or container, but every grid the quantiser and the tests build has duration 1, and the offsets and leaf positions the model proves assume it.
- QSchemas.Call: every target item must have a positive duration. The loop ends only because each item moves the running offset forward; with an item of zero length the source loops for ever.
- Dictionary iteration order in `_create_lookups` is modelled as an arbitrary choice among the remaining positions; the result does not depend on it.

## Findings

| source | as written | input that shows it | evidently intended | confidence | as-written member | corrected member |
|---|---|---|---|---|---|---|
| abjadext/nauert/gracehandlers.py:322-327 | The `discard_grace_rest` loop removes rests from the list it is iterating. After a removal the next event moves into the vacated position, and the iterator never looks at it. | Grace events [rest at 0, rest at 1] with `discard_grace_rest` set keep the rest at 1 (`SweepSkipsSecondRest`). Through the handler, [rest at 0, rest at 1, note at 2] with both options on gives a grace container holding one rest (`ConcatenateKeepsSkippedRest`). | Every grace rest is discarded, and pitched grace events are kept in order. | medium; not executed | GraceHandlers.DiscardGraceRestsAsWritten | GraceHandlers.DiscardGraceRestsDrops |

/**
 * `QEventSequence`: a validated run of pitched and silent events closed by a
 * terminal event, and the factories that build one from millisecond data.
 */
module QEventSequences {
  import opened Wrappers
  import opened Seqs
  import opened QEvents

  function Offsets(s: seq<QEvent>): (r: seq<real>)
    ensures |r| == |s| && forall i :: 0 <= i < |s| ==> r[i] == s[i].offset
  {
    seq(|s|, i requires 0 <= i < |s| => s[i].offset)
  }

  /** What the constructor asserts of a given sequence. */
  predicate WellFormedSequence(s: seq<QEvent>)
  {
    && 1 < |s|
    && (forall i :: 0 <= i < |s| - 1 ==> !s[i].Terminal?)
    && s[|s| - 1].Terminal?
    && NonDecreasing(Offsets(s))
    && 0.0 <= s[0].offset
  }

  /** `QEventSequence(sequence)`: None gives the empty sequence, anything else must be well formed. */
  function MakeSequence(s: Option<seq<QEvent>>): (r: Result<seq<QEvent>>)
    ensures s.None? ==> r == Ok([])
    ensures s.Some? ==> (r.Ok? <==> WellFormedSequence(s.value))
    ensures s.Some? && r.Ok? ==> r.value == s.value
    ensures r.Err? ==> r.error == AssertionError
  {
    if s.None? then Ok([])
    else if WellFormedSequence(s.value) then Ok(s.value)
    else Err(AssertionError)
  }

  /** `QEventSequence.duration_in_ms`: the last event's offset; indexing an empty sequence fails. */
  function DurationInMs(s: seq<QEvent>): (r: Result<real>)
    ensures r.Ok? <==> |s| > 0
    ensures r.Ok? ==> r.value == s[|s| - 1].offset
    ensures WellFormedSequence(s) ==> r.Ok? && forall i :: 0 <= i < |s| ==> s[i].offset <= r.value
  {
    if |s| == 0 then Err(IndexError) else Ok(s[|s| - 1].offset)
  }

  function AbsAll(ds: seq<real>): (r: seq<real>)
    ensures |r| == |ds| && forall i :: 0 <= i < |ds| ==> r[i] == Abs(ds[i])
  {
    seq(|ds|, i requires 0 <= i < |ds| => Abs(ds[i]))
  }

  predicate AllNonNegative(xs: seq<real>)
  {
    forall i :: 0 <= i < |xs| ==> 0.0 <= xs[i]
  }

  lemma {:induction false} SumNonNegative(xs: seq<real>)
    requires AllNonNegative(xs)
    ensures 0.0 <= Sum(xs)
  {
    if xs != [] {
      SumNonNegative(xs[..|xs| - 1]);
    }
  }

  /** Prefix sums of non-negative numbers never decrease. */
  lemma {:induction false} PrefixSumsMonotone(xs: seq<real>, i: nat, j: nat)
    requires AllNonNegative(xs) && i <= j <= |xs|
    ensures Sum(xs[..i]) <= Sum(xs[..j])
  {
    assert xs[..j] == xs[..i] + xs[i..j];
    SumAppend(xs[..i], xs[i..j]);
    SumNonNegative(xs[i..j]);
  }

  lemma {:induction false} SumStep(xs: seq<real>, i: nat)
    requires i < |xs|
    ensures Sum(xs[..i + 1]) == Sum(xs[..i]) + xs[i]
  {
    assert xs[..i + 1][..i] == xs[..i];
  }

  /** `abjad.math.cumulative_sums`: 0 followed by each running total, one more value than inputs. */
  function CumulativeSums(xs: seq<real>): (r: seq<real>)
    ensures |r| == |xs| + 1 && r[0] == 0.0
  {
    assert xs[..0] == [];
    seq(|xs| + 1, i requires 0 <= i <= |xs| => Sum(xs[..i]))
  }

  /** The events `from_millisecond_durations` builds for the (possibly fused) durations `ds`. */
  function DurationEvents(ds: seq<real>): (s: seq<QEvent>)
    ensures |s| == |ds| + 1
  {
    var offsets := CumulativeSums(AbsAll(ds));
    seq(|ds|, i requires 0 <= i < |ds| =>
      if ds[i] < 0.0 then Silent(offsets[i], [], None) else Pitched(offsets[i], [0], [], None))
    + [Terminal(offsets[|ds|])]
  }

  /**
   * The events of `DurationEvents(ds)` give the durations back: each event lasts
   * until the next one by exactly the magnitude of its duration, it is a silence
   * exactly when its duration is negative, the first starts at 0 and the
   * terminal event sits at the total magnitude.
   */
  lemma {:induction false} DurationEventsRecoverDurations(ds: seq<real>)
    ensures var s := DurationEvents(ds);
            && s[0].offset == 0.0
            && s[|ds|] == Terminal(Sum(AbsAll(ds)))
            && (forall i :: 0 <= i < |ds| ==> s[i + 1].offset - s[i].offset == Abs(ds[i]))
            && (forall i :: 0 <= i < |ds| ==> (s[i].Silent? <==> ds[i] < 0.0))
            && (forall i :: 0 <= i < |ds| ==> s[i].Silent? || s[i].pitches == [0])
  {
    var s := DurationEvents(ds);
    var a := AbsAll(ds);
    assert a[..|a|] == a;
    assert a[..0] == [];
    forall i | 0 <= i < |ds| ensures s[i + 1].offset - s[i].offset == Abs(ds[i]) {
      SumStep(a, i);
    }
  }

  lemma {:induction false} DurationEventsWellFormed(ds: seq<real>)
    requires |ds| > 0
    ensures WellFormedSequence(DurationEvents(ds))
  {
    var s := DurationEvents(ds);
    var a := AbsAll(ds);
    assert a[..0] == [];
    assert AllNonNegative(a);
    forall i, j | 0 <= i < j < |s| ensures Offsets(s)[i] <= Offsets(s)[j] {
      if j < |ds| {
        PrefixSumsMonotone(a, i, j);
      } else {
        assert a[..|a|] == a;
        PrefixSumsMonotone(a, i, |a|);
      }
    }
  }

  /** Length of the leading run of negative values. */
  function NegativeRun(ms: seq<real>): (k: nat)
    ensures k <= |ms|
    ensures forall i :: 0 <= i < k ==> ms[i] < 0.0
    ensures k < |ms| ==> 0.0 <= ms[k]
  {
    if ms == [] || 0.0 <= ms[0] then 0 else 1 + NegativeRun(ms[1..])
  }

  /** `abjad.sequence.sum_by_sign(ms, sign=[-1])`: each run of negatives becomes its sum, other values stay. */
  function SumNegativeRuns(ms: seq<real>): (r: seq<real>)
    ensures |r| == 0 <==> |ms| == 0
    ensures |r| > 0 ==> (r[0] < 0.0 <==> ms[0] < 0.0)
    decreases |ms|
  {
    if ms == [] then []
    else if ms[0] < 0.0 then
      var k := NegativeRun(ms);
      SumNegativeNegative(ms[..k]);
      [Sum(ms[..k])] + SumNegativeRuns(ms[k..])
    else [ms[0]] + SumNegativeRuns(ms[1..])
  }

  lemma {:induction false} SumNegativeNegative(xs: seq<real>)
    requires |xs| > 0 && forall i :: 0 <= i < |xs| ==> xs[i] < 0.0
    ensures Sum(xs) < 0.0
    ensures Abs(Sum(xs)) == Sum(AbsAll(xs))
  {
    if |xs| > 1 {
      SumNegativeNegative(xs[..|xs| - 1]);
      assert AbsAll(xs)[..|xs| - 1] == AbsAll(xs[..|xs| - 1]);
    } else {
      assert xs[..0] == [];
      assert AbsAll(xs)[..0] == [];
    }
  }

  /** Drops the zero entries (the `if _` filter). */
  function DropZeros(ds: seq<real>): (r: seq<real>)
    ensures forall i :: 0 <= i < |r| ==> r[i] != 0.0
  {
    if ds == [] then []
    else if ds[0] == 0.0 then DropZeros(ds[1..])
    else [ds[0]] + DropZeros(ds[1..])
  }

  /** The durations `from_millisecond_durations(ms, fuse_silences=True)` works on. */
  function FuseSilences(ms: seq<real>): seq<real>
  {
    DropZeros(SumNegativeRuns(ms))
  }

  /** The strictly positive entries, in order. */
  function Positives(ds: seq<real>): seq<real>
  {
    if ds == [] then []
    else if 0.0 < ds[0] then [ds[0]] + Positives(ds[1..])
    else Positives(ds[1..])
  }

  lemma {:induction false} SumAbsCons(x: real, xs: seq<real>)
    ensures Sum(AbsAll([x] + xs)) == Abs(x) + Sum(AbsAll(xs))
  {
    assert AbsAll([x] + xs) == [Abs(x)] + AbsAll(xs);
    SumCons(Abs(x), AbsAll(xs));
  }

  lemma {:induction false} SumAbsSplit(ms: seq<real>, k: nat)
    requires k <= |ms|
    ensures Sum(AbsAll(ms)) == Sum(AbsAll(ms[..k])) + Sum(AbsAll(ms[k..]))
  {
    assert ms == ms[..k] + ms[k..];
    assert AbsAll(ms) == AbsAll(ms[..k]) + AbsAll(ms[k..]);
    SumAppend(AbsAll(ms[..k]), AbsAll(ms[k..]));
  }

  lemma {:induction false} SumNegativeRunsAbs(ms: seq<real>)
    ensures Sum(AbsAll(SumNegativeRuns(ms))) == Sum(AbsAll(ms))
    decreases |ms|
  {
    if ms != [] {
      if ms[0] < 0.0 {
        var k := NegativeRun(ms);
        SumNegativeNegative(ms[..k]);
        SumNegativeRunsAbs(ms[k..]);
        SumAbsCons(Sum(ms[..k]), SumNegativeRuns(ms[k..]));
        SumAbsSplit(ms, k);
      } else {
        SumNegativeRunsAbs(ms[1..]);
        SumAbsCons(ms[0], SumNegativeRuns(ms[1..]));
        SumAbsCons(ms[0], ms[1..]);
        assert ms == [ms[0]] + ms[1..];
      }
    }
  }

  lemma {:induction false} SumNegativeRunsPositives(ms: seq<real>)
    ensures Positives(SumNegativeRuns(ms)) == Positives(ms)
    decreases |ms|
  {
    if ms != [] {
      if ms[0] < 0.0 {
        var k := NegativeRun(ms);
        SumNegativeNegative(ms[..k]);
        SumNegativeRunsPositives(ms[k..]);
        var r := SumNegativeRuns(ms);
        assert r == [Sum(ms[..k])] + SumNegativeRuns(ms[k..]);
        assert r[1..] == SumNegativeRuns(ms[k..]);
        NoPositivesInNegativeRun(ms, k);
      } else {
        SumNegativeRunsPositives(ms[1..]);
        var r := SumNegativeRuns(ms);
        assert r[1..] == SumNegativeRuns(ms[1..]);
      }
    }
  }

  lemma {:induction false} SumNegativeRunsSeparated(ms: seq<real>)
    ensures forall i :: 0 <= i < |SumNegativeRuns(ms)| - 1 ==>
              !(SumNegativeRuns(ms)[i] < 0.0 && SumNegativeRuns(ms)[i + 1] < 0.0)
    decreases |ms|
  {
    if ms != [] {
      var r := SumNegativeRuns(ms);
      if ms[0] < 0.0 {
        var k := NegativeRun(ms);
        SumNegativeNegative(ms[..k]);
        var rest := SumNegativeRuns(ms[k..]);
        SumNegativeRunsSeparated(ms[k..]);
        assert r == [Sum(ms[..k])] + rest;
        forall i | 0 <= i < |r| - 1 ensures !(r[i] < 0.0 && r[i + 1] < 0.0) {
          if i > 0 {
            assert r[i] == rest[i - 1] && r[i + 1] == rest[i];
          }
        }
      } else {
        var rest := SumNegativeRuns(ms[1..]);
        SumNegativeRunsSeparated(ms[1..]);
        assert r == [ms[0]] + rest;
        forall i | 0 <= i < |r| - 1 ensures !(r[i] < 0.0 && r[i + 1] < 0.0) {
          if i > 0 {
            assert r[i] == rest[i - 1] && r[i + 1] == rest[i];
          }
        }
      }
    }
  }

  lemma {:induction false} NoPositivesInNegativeRun(ms: seq<real>, k: nat)
    requires k <= |ms| && forall i :: 0 <= i < k ==> ms[i] < 0.0
    ensures Positives(ms) == Positives(ms[k..])
  {
    if k > 0 {
      NoPositivesInNegativeRun(ms[1..], k - 1);
      assert ms[1..][k - 1..] == ms[k..];
    }
  }

  lemma {:induction false} DropZerosSpec(ds: seq<real>)
    ensures Sum(AbsAll(DropZeros(ds))) == Sum(AbsAll(ds))
    ensures Positives(DropZeros(ds)) == Positives(ds)
  {
    if ds != [] {
      DropZerosSpec(ds[1..]);
      var rest := DropZeros(ds[1..]);
      SumAbsCons(ds[0], ds[1..]);
      assert ds == [ds[0]] + ds[1..];
      if ds[0] != 0.0 {
        SumAbsCons(ds[0], rest);
        assert ([ds[0]] + rest)[1..] == rest;
      }
    }
  }

  lemma {:induction false} DropZerosIdentity(ds: seq<real>)
    requires forall i :: 0 <= i < |ds| ==> ds[i] != 0.0
    ensures DropZeros(ds) == ds
  {
    if ds != [] {
      DropZerosIdentity(ds[1..]);
      assert ds == [ds[0]] + ds[1..];
    }
  }

  /**
   * Fusing silences keeps the total magnitude and the sounding durations in
   * order, leaves no zero entry, and (when no zero entry separates them) leaves
   * no two silences adjacent.
   */
  lemma {:induction false} FuseSilencesSpec(ms: seq<real>)
    ensures var f := FuseSilences(ms);
            && Sum(AbsAll(f)) == Sum(AbsAll(ms))
            && Positives(f) == Positives(ms)
            && (forall i :: 0 <= i < |f| ==> f[i] != 0.0)
    ensures (forall i :: 0 <= i < |ms| ==> ms[i] != 0.0) ==>
              var f := FuseSilences(ms); forall i :: 0 <= i < |f| - 1 ==> !(f[i] < 0.0 && f[i + 1] < 0.0)
  {
    SumNegativeRunsAbs(ms);
    SumNegativeRunsPositives(ms);
    DropZerosSpec(SumNegativeRuns(ms));
    if forall i :: 0 <= i < |ms| ==> ms[i] != 0.0 {
      NegativeRunsNonZero(ms);
      DropZerosIdentity(SumNegativeRuns(ms));
      SumNegativeRunsSeparated(ms);
    }
  }

  lemma {:induction false} NegativeRunsNonZero(ms: seq<real>)
    requires forall i :: 0 <= i < |ms| ==> ms[i] != 0.0
    ensures forall i :: 0 <= i < |SumNegativeRuns(ms)| ==> SumNegativeRuns(ms)[i] != 0.0
    decreases |ms|
  {
    if ms != [] {
      var r := SumNegativeRuns(ms);
      if ms[0] < 0.0 {
        var k := NegativeRun(ms);
        SumNegativeNegative(ms[..k]);
        NegativeRunsNonZero(ms[k..]);
        assert r == [Sum(ms[..k])] + SumNegativeRuns(ms[k..]);
      } else {
        NegativeRunsNonZero(ms[1..]);
        assert r == [ms[0]] + SumNegativeRuns(ms[1..]);
      }
    }
  }

  /** `QEventSequence.from_millisecond_durations(ms, fuse_silences)`. */
  function FromMillisecondDurations(ms: seq<real>, fuseSilences: bool): (r: Result<seq<QEvent>>)
    ensures var ds := if fuseSilences then FuseSilences(ms) else ms;
            && (r.Ok? <==> |ds| > 0)
            && (r.Ok? ==> r.value == DurationEvents(ds))
    ensures r.Ok? ==> DurationInMs(r.value) == Ok(Sum(AbsAll(ms)))
  {
    var ds := if fuseSilences then FuseSilences(ms) else ms;
    if |ds| > 0 then
      DurationEventsWellFormed(ds);
      DurationEventsRecoverDurations(ds);
      FuseSilencesSpec(ms);
      MakeSequence(Some(DurationEvents(ds)))
    else
      MakeSequence(Some(DurationEvents(ds)))
  }

  /** Durations 100, -100, 100, -100, -100, 100: fusing merges the two adjacent silences into one. */
  lemma {:induction false} FusedDurationsExampleFuse()
    ensures FuseSilences([100.0, -100.0, 100.0, -100.0, -100.0, 100.0]) == [100.0, -100.0, 100.0, -200.0, 100.0]
  {
    var ms := [100.0, -100.0, 100.0, -100.0, -100.0, 100.0];
    var t := ms[3..];
    assert t[1..][1..] == [100.0];
    assert NegativeRun(t[1..][1..]) == 0;
    assert NegativeRun(t[1..]) == 1;
    assert NegativeRun(t) == 2;
    assert ms[3..][..NegativeRun(ms[3..])] == [-100.0, -100.0];
    assert Sum([-100.0, -100.0]) == -200.0 by { assert [-100.0, -100.0][..1] == [-100.0]; }
    assert ms[3..][NegativeRun(ms[3..])..] == [100.0];
    assert ms[1..][..NegativeRun(ms[1..])] == [-100.0];
    assert Sum([-100.0]) == -100.0 by { assert [-100.0][..0] == []; }
    assert ms[1..][NegativeRun(ms[1..])..] == ms[2..];
    assert ms[2..][1..] == ms[3..];
  }

  lemma {:induction false} FusedDurationsExampleOffsets()
    ensures CumulativeSums(AbsAll([100.0, -100.0, 100.0, -200.0, 100.0])) == [0.0, 100.0, 200.0, 300.0, 500.0, 600.0]
  {
    var a := AbsAll([100.0, -100.0, 100.0, -200.0, 100.0]);
    assert a == [100.0, 100.0, 100.0, 200.0, 100.0];
    assert a[..5] == a;
    assert a[..0] == [];
    SumStep(a, 0);
    SumStep(a, 1);
    SumStep(a, 2);
    SumStep(a, 3);
    SumStep(a, 4);
  }

  /** ... and the fused sequence places the merged silence at 300 and the terminal event at 600. */
  lemma {:induction false} FusedDurationsExample()
    ensures FromMillisecondDurations([100.0, -100.0, 100.0, -100.0, -100.0, 100.0], true)
            == Ok([Pitched(0.0, [0], [], None), Silent(100.0, [], None), Pitched(200.0, [0], [], None),
                   Silent(300.0, [], None), Pitched(500.0, [0], [], None), Terminal(600.0)])
  {
    FusedDurationsExampleFuse();
    FusedDurationsExampleOffsets();
    var ds := [100.0, -100.0, 100.0, -200.0, 100.0];
    var s := DurationEvents(ds);
    var expected := [Pitched(0.0, [0], [], None), Silent(100.0, [], None), Pitched(200.0, [0], [], None),
                     Silent(300.0, [], None), Pitched(500.0, [0], [], None), Terminal(600.0)];
    forall i | 0 <= i < 6 ensures s[i] == expected[i] {
    }
    assert s == expected;
  }

  /** `QEventSequence.from_millisecond_offsets`: pitched events at every offset but the last, which closes the sequence. */
  function FromMillisecondOffsets(offsets: seq<real>): (r: Result<seq<QEvent>>)
    ensures |offsets| == 0 ==> r == Err(IndexError)
    ensures |offsets| > 0 ==> (r.Ok? <==> 2 <= |offsets| && NonDecreasing(offsets) && 0.0 <= offsets[0])
    ensures r.Ok? ==> Offsets(r.value) == offsets
    ensures r.Ok? ==> forall i :: 0 <= i < |offsets| - 1 ==> r.value[i] == Pitched(offsets[i], [0], [], None)
  {
    if |offsets| == 0 then Err(IndexError)
    else
      var s := seq(|offsets| - 1, i requires 0 <= i < |offsets| - 1 => Pitched(offsets[i], [0], [], None))
               + [Terminal(offsets[|offsets| - 1])];
      assert Offsets(s) == offsets;
      MakeSequence(Some(s))
  }

  /** One `(milliseconds, pitches, attachments)` tuple; attachments of None are representable because they are refused. */
  datatype PitchTuple = PitchTuple(duration: real, pitches: PitchArg, attachments: Option<seq<Attachment>>)

  /** The checks the tuple loop makes of one tuple, in order, and the exception the first failing one raises. */
  function TupleError(t: PitchTuple): (e: Option<Error>)
    ensures t.attachments.None? ==> e == Some(GenericException)
    ensures e.None? <==>
              && t.attachments.Some?
              && (t.pitches.Many? || t.pitches.NoPitch? || t.pitches.One? || t.pitches.OtherPitch?)
              && (t.pitches.Many? ==> |t.pitches.values| > 0)
              && (t.pitches.NoPitch? ==> t.attachments.value == [])
  {
    if t.attachments.None? then Some(GenericException)
    else match t.pitches
      case NotAPitch => Some(AssertionError)
      case ManyNonNumeric => Some(AssertionError)
      case Many(vs) => if |vs| == 0 then Some(AssertionError) else None
      case NoPitch => if t.attachments.value != [] then Some(AssertionError) else None
      case One(_) => None
      case OtherPitch => None
  }

  function FirstTupleError(ts: seq<PitchTuple>): (e: Option<Error>)
    ensures e.None? <==> forall i :: 0 <= i < |ts| ==> TupleError(ts[i]).None?
  {
    if ts == [] then None
    else if TupleError(ts[0]).Some? then TupleError(ts[0])
    else FirstTupleError(ts[1..])
  }

  /** All validation of `from_millisecond_pitch_attachment_tuples`: positive durations first, then each tuple. */
  function ValidateTuples(ts: seq<PitchTuple>): (e: Option<Error>)
  {
    if exists i :: 0 <= i < |ts| && ts[i].duration <= 0.0 then Some(AssertionError)
    else FirstTupleError(ts)
  }

  /** Length of the leading run of tuples without pitches. */
  function SilentRun(ts: seq<PitchTuple>): (k: nat)
    ensures k <= |ts|
    ensures forall i :: 0 <= i < k ==> ts[i].pitches.NoPitch?
    ensures k < |ts| ==> !ts[k].pitches.NoPitch?
  {
    if ts == [] || !ts[0].pitches.NoPitch? then 0 else 1 + SilentRun(ts[1..])
  }

  function Durations(ts: seq<PitchTuple>): (ds: seq<real>)
    ensures |ds| == |ts| && forall i :: 0 <= i < |ts| ==> ds[i] == ts[i].duration
  {
    seq(|ts|, i requires 0 <= i < |ts| => ts[i].duration)
  }

  /** The pitched tuples, in order. */
  function PitchedTuples(ts: seq<PitchTuple>): seq<PitchTuple>
  {
    if ts == [] then []
    else if ts[0].pitches.NoPitch? then PitchedTuples(ts[1..])
    else [ts[0]] + PitchedTuples(ts[1..])
  }

  /** The `itertools.groupby` pass: each run of pitch-less tuples becomes one with the summed duration and no attachments. */
  function FuseSilentTuples(ts: seq<PitchTuple>): (gs: seq<PitchTuple>)
    ensures |gs| == 0 <==> |ts| == 0
    ensures |gs| > 0 ==> (gs[0].pitches.NoPitch? <==> ts[0].pitches.NoPitch?)
    decreases |ts|
  {
    if ts == [] then []
    else if ts[0].pitches.NoPitch? then
      var k := SilentRun(ts);
      [PitchTuple(Sum(Durations(ts[..k])), NoPitch, Some([]))] + FuseSilentTuples(ts[k..])
    else [ts[0]] + FuseSilentTuples(ts[1..])
  }

  lemma {:induction false} DurationsSplit(ts: seq<PitchTuple>, k: nat)
    requires k <= |ts|
    ensures Sum(Durations(ts)) == Sum(Durations(ts[..k])) + Sum(Durations(ts[k..]))
  {
    assert Durations(ts) == Durations(ts[..k]) + Durations(ts[k..]);
    SumAppend(Durations(ts[..k]), Durations(ts[k..]));
  }

  lemma {:induction false} DurationsCons(t: PitchTuple, ts: seq<PitchTuple>)
    ensures Sum(Durations([t] + ts)) == t.duration + Sum(Durations(ts))
  {
    assert Durations([t] + ts) == [t.duration] + Durations(ts);
    SumCons(t.duration, Durations(ts));
  }

  lemma {:induction false} PitchedSkipsSilentRun(ts: seq<PitchTuple>, k: nat)
    requires k <= |ts| && forall i :: 0 <= i < k ==> ts[i].pitches.NoPitch?
    ensures PitchedTuples(ts) == PitchedTuples(ts[k..])
  {
    if k > 0 {
      PitchedSkipsSilentRun(ts[1..], k - 1);
      assert ts[1..][k - 1..] == ts[k..];
    }
  }

  lemma {:induction false} FuseSilentTuplesDuration(ts: seq<PitchTuple>)
    ensures Sum(Durations(FuseSilentTuples(ts))) == Sum(Durations(ts))
    decreases |ts|
  {
    if ts != [] {
      if ts[0].pitches.NoPitch? {
        var k := SilentRun(ts);
        var g := PitchTuple(Sum(Durations(ts[..k])), NoPitch, Some([]));
        FuseSilentTuplesDuration(ts[k..]);
        DurationsCons(g, FuseSilentTuples(ts[k..]));
        DurationsSplit(ts, k);
      } else {
        FuseSilentTuplesDuration(ts[1..]);
        DurationsCons(ts[0], FuseSilentTuples(ts[1..]));
        DurationsCons(ts[0], ts[1..]);
        assert ts == [ts[0]] + ts[1..];
      }
    }
  }

  lemma {:induction false} FuseSilentTuplesPitched(ts: seq<PitchTuple>)
    ensures PitchedTuples(FuseSilentTuples(ts)) == PitchedTuples(ts)
    decreases |ts|
  {
    if ts != [] {
      var gs := FuseSilentTuples(ts);
      if ts[0].pitches.NoPitch? {
        var k := SilentRun(ts);
        FuseSilentTuplesPitched(ts[k..]);
        PitchedSkipsSilentRun(ts, k);
        assert gs[1..] == FuseSilentTuples(ts[k..]);
      } else {
        FuseSilentTuplesPitched(ts[1..]);
        assert gs[1..] == FuseSilentTuples(ts[1..]);
      }
    }
  }

  /** After fusing no two pitch-less entries are adjacent, and each has empty attachments. */
  lemma {:induction false} FuseSilentTuplesSeparated(ts: seq<PitchTuple>)
    ensures forall i :: 0 <= i < |FuseSilentTuples(ts)| - 1 ==>
              !(FuseSilentTuples(ts)[i].pitches.NoPitch? && FuseSilentTuples(ts)[i + 1].pitches.NoPitch?)
    ensures forall i :: 0 <= i < |FuseSilentTuples(ts)| && FuseSilentTuples(ts)[i].pitches.NoPitch? ==>
              FuseSilentTuples(ts)[i].attachments == Some([])
    decreases |ts|
  {
    if ts != [] {
      var gs := FuseSilentTuples(ts);
      var k := if ts[0].pitches.NoPitch? then SilentRun(ts) else 1;
      var rest := FuseSilentTuples(ts[k..]);
      FuseSilentTuplesSeparated(ts[k..]);
      assert gs[1..] == rest;
      forall i | 0 <= i < |gs| - 1 ensures !(gs[i].pitches.NoPitch? && gs[i + 1].pitches.NoPitch?) {
        if i > 0 {
          assert gs[i] == rest[i - 1] && gs[i + 1] == rest[i];
        }
      }
      forall i | 0 <= i < |gs| && gs[i].pitches.NoPitch? ensures gs[i].attachments == Some([]) {
        if i > 0 {
          assert gs[i] == rest[i - 1];
        }
      }
    }
  }

  /** The comprehension over `zip(offsets, groups)` calling the event factory; the first failure propagates. */
  function BuildEvents(gs: seq<PitchTuple>, offsets: seq<real>): (r: Result<seq<QEvent>>)
    requires |offsets| >= |gs|
    ensures r.Ok? ==> |r.value| == |gs|
    ensures r.Ok? ==> forall i :: 0 <= i < |gs| ==>
              FromOffsetPitchesAttachments(offsets[i], gs[i].pitches, gs[i].attachments) == Ok(r.value[i])
    ensures r.Ok? <==> forall i :: 0 <= i < |gs| ==>
              FromOffsetPitchesAttachments(offsets[i], gs[i].pitches, gs[i].attachments).Ok?
  {
    if gs == [] then Ok([])
    else
      var e := FromOffsetPitchesAttachments(offsets[0], gs[0].pitches, gs[0].attachments);
      if e.Err? then Err(e.error)
      else
        var rest := BuildEvents(gs[1..], offsets[1..]);
        if rest.Err? then Err(rest.error)
        else
          var r := [e.value] + rest.value;
          assert forall i :: 1 <= i < |gs| ==> gs[i] == gs[1..][i - 1] && offsets[i] == offsets[1..][i - 1];
          Ok(r)
  }

  /** A tuple every check accepts and whose pitches the event factory understands or rejects only by type. */
  predicate Accepted(t: PitchTuple)
  {
    && 0.0 < t.duration
    && t.attachments.Some?
    && !t.pitches.NotAPitch? && !t.pitches.ManyNonNumeric?
  }

  lemma {:induction false} ValidatedAccepted(ts: seq<PitchTuple>)
    requires ValidateTuples(ts).None?
    ensures forall i :: 0 <= i < |ts| ==> Accepted(ts[i])
  {
    forall i | 0 <= i < |ts| ensures Accepted(ts[i]) {
      assert TupleError(ts[i]).None?;
    }
  }

  lemma {:induction false} SumPositive(xs: seq<real>)
    requires |xs| > 0 && forall i :: 0 <= i < |xs| ==> 0.0 < xs[i]
    ensures 0.0 < Sum(xs)
  {
    if |xs| > 1 {
      SumPositive(xs[..|xs| - 1]);
    } else {
      assert xs[..0] == [];
    }
  }

  lemma {:induction false} FuseSilentTuplesAccepted(ts: seq<PitchTuple>)
    requires forall i :: 0 <= i < |ts| ==> Accepted(ts[i])
    ensures forall i :: 0 <= i < |FuseSilentTuples(ts)| ==> Accepted(FuseSilentTuples(ts)[i])
    decreases |ts|
  {
    if ts != [] {
      var gs := FuseSilentTuples(ts);
      var k := if ts[0].pitches.NoPitch? then SilentRun(ts) else 1;
      var rest := FuseSilentTuples(ts[k..]);
      FuseSilentTuplesAccepted(ts[k..]);
      assert gs[1..] == rest;
      if ts[0].pitches.NoPitch? {
        SumPositive(Durations(ts[..k]));
      }
      assert Accepted(gs[0]);
      forall i | 0 < i < |gs| ensures Accepted(gs[i]) {
        assert gs[i] == rest[i - 1];
      }
    }
  }

  /** Fusing the rests keeps whether some tuple carries a pitch of an unsupported kind. */
  lemma {:induction false} FuseSilentTuplesUnsupported(ts: seq<PitchTuple>)
    ensures (exists i :: 0 <= i < |FuseSilentTuples(ts)| && FuseSilentTuples(ts)[i].pitches.OtherPitch?)
            <==> (exists i :: 0 <= i < |ts| && ts[i].pitches.OtherPitch?)
    decreases |ts|
  {
    if ts != [] {
      var gs := FuseSilentTuples(ts);
      var k := if ts[0].pitches.NoPitch? then SilentRun(ts) else 1;
      var rest := FuseSilentTuples(ts[k..]);
      FuseSilentTuplesUnsupported(ts[k..]);
      assert gs == [gs[0]] + rest;
      PitchedCons(gs[0], rest);
      PitchedSplit(ts, k);
      assert gs[0].pitches.OtherPitch? <==> (exists i :: 0 <= i < k && ts[i].pitches.OtherPitch?);
    }
  }

  lemma {:induction false} PitchedCons(g: PitchTuple, rest: seq<PitchTuple>)
    ensures (exists i :: 0 <= i < |[g] + rest| && ([g] + rest)[i].pitches.OtherPitch?)
            <==> g.pitches.OtherPitch? || (exists i :: 0 <= i < |rest| && rest[i].pitches.OtherPitch?)
  {
    var gs := [g] + rest;
    if exists i :: 0 <= i < |gs| && gs[i].pitches.OtherPitch? {
      var i :| 0 <= i < |gs| && gs[i].pitches.OtherPitch?;
      if i > 0 {
        assert rest[i - 1].pitches.OtherPitch?;
      }
    }
    if exists i :: 0 <= i < |rest| && rest[i].pitches.OtherPitch? {
      var i :| 0 <= i < |rest| && rest[i].pitches.OtherPitch?;
      assert gs[i + 1].pitches.OtherPitch?;
    }
    if g.pitches.OtherPitch? {
      assert gs[0].pitches.OtherPitch?;
    }
  }

  lemma {:induction false} PitchedSplit(ts: seq<PitchTuple>, k: nat)
    requires k <= |ts|
    ensures (exists i :: 0 <= i < |ts| && ts[i].pitches.OtherPitch?)
            <==> (exists i :: 0 <= i < k && ts[i].pitches.OtherPitch?)
                 || (exists j :: 0 <= j < |ts[k..]| && ts[k..][j].pitches.OtherPitch?)
  {
    if exists i :: 0 <= i < |ts| && ts[i].pitches.OtherPitch? {
      var i :| 0 <= i < |ts| && ts[i].pitches.OtherPitch?;
      if i >= k {
        assert ts[k..][i - k].pitches.OtherPitch?;
      }
    }
    if exists j :: 0 <= j < |ts[k..]| && ts[k..][j].pitches.OtherPitch? {
      var j :| 0 <= j < |ts[k..]| && ts[k..][j].pitches.OtherPitch?;
      assert ts[k + j].pitches.OtherPitch?;
    }
  }

  /** The events built for fused tuples `gs`, each at the running total of the durations before it, closed by the terminal event. */
  function GroupEvents(gs: seq<PitchTuple>): (r: Result<seq<QEvent>>)
  {
    var offsets := CumulativeSums(AbsAll(Durations(gs)));
    var built := BuildEvents(gs, offsets);
    if built.Err? then Err(built.error) else Ok(built.value + [Terminal(offsets[|gs|])])
  }

  lemma {:induction false} GroupEventsOk(gs: seq<PitchTuple>)
    requires forall i :: 0 <= i < |gs| ==> Accepted(gs[i])
    ensures GroupEvents(gs).Ok? <==> forall i :: 0 <= i < |gs| ==> !gs[i].pitches.OtherPitch?
    ensures GroupEvents(gs).Err? ==> GroupEvents(gs).error == TypeError
  {
    var offsets := CumulativeSums(AbsAll(Durations(gs)));
    if exists i :: 0 <= i < |gs| && gs[i].pitches.OtherPitch? {
      var i :| 0 <= i < |gs| && gs[i].pitches.OtherPitch?;
      assert FromOffsetPitchesAttachments(offsets[i], gs[i].pitches, gs[i].attachments).Err?;
      BuildEventsError(gs, offsets);
    }
  }

  lemma {:induction false} BuildEventsError(gs: seq<PitchTuple>, offsets: seq<real>)
    requires |offsets| >= |gs|
    requires forall i :: 0 <= i < |gs| ==> Accepted(gs[i])
    ensures BuildEvents(gs, offsets).Err? ==> BuildEvents(gs, offsets).error == TypeError
  {
    if gs != [] {
      BuildEventsError(gs[1..], offsets[1..]);
    }
  }

  lemma {:induction false} GroupEventsKinds(gs: seq<PitchTuple>)
    requires forall i :: 0 <= i < |gs| ==> Accepted(gs[i])
    requires GroupEvents(gs).Ok?
    ensures var s := GroupEvents(gs).value;
            && |s| == |gs| + 1
            && (forall i :: 0 <= i < |gs| ==> (s[i].Silent? <==> gs[i].pitches.NoPitch?))
            && (forall i :: 0 <= i < |gs| ==> Some(s[i].Attachments()) == gs[i].attachments)
            && (forall i :: 0 <= i < |gs| && gs[i].pitches.Many? ==> s[i].Pitched? && s[i].pitches == gs[i].pitches.values)
            && (forall i :: 0 <= i < |gs| && gs[i].pitches.One? ==> s[i].Pitched? && s[i].pitches == [gs[i].pitches.value])
            && s[|gs|].Terminal?
  {
  }

  /** Running totals of non-negative numbers: they step by each number, never decrease, and end at the sum. */
  lemma {:induction false} CumulativeSumsSpec(xs: seq<real>)
    requires AllNonNegative(xs)
    ensures var c := CumulativeSums(xs);
            && c[|xs|] == Sum(xs)
            && (forall i :: 0 <= i < |xs| ==> c[i + 1] - c[i] == xs[i])
            && NonDecreasing(c)
  {
    var c := CumulativeSums(xs);
    assert xs[..|xs|] == xs;
    forall i | 0 <= i < |xs| ensures c[i + 1] - c[i] == xs[i] {
      SumStep(xs, i);
    }
    forall i, j | 0 <= i < j < |c| ensures c[i] <= c[j] {
      PrefixSumsMonotone(xs, i, j);
    }
  }

  lemma {:induction false} GroupEventsOffsets(gs: seq<PitchTuple>)
    requires forall i :: 0 <= i < |gs| ==> Accepted(gs[i])
    requires GroupEvents(gs).Ok?
    ensures var s := GroupEvents(gs).value;
            && |s| == |gs| + 1
            && s[0].offset == 0.0
            && s[|gs|] == Terminal(Sum(Durations(gs)))
            && (forall i :: 0 <= i < |gs| ==> s[i + 1].offset - s[i].offset == gs[i].duration)
            && (|gs| > 0 ==> WellFormedSequence(s))
  {
    var a := AbsAll(Durations(gs));
    assert a == Durations(gs);
    var offsets := CumulativeSums(a);
    CumulativeSumsSpec(a);
    var s := GroupEvents(gs).value;
    assert Offsets(s) == offsets;
  }

  /** `QEventSequence.from_millisecond_pitch_attachment_tuples`. */
  function FromMillisecondPitchAttachmentTuples(ts: seq<PitchTuple>): (r: Result<seq<QEvent>>)
    ensures ValidateTuples(ts).Some? ==> r == Err(ValidateTuples(ts).value)
    ensures ValidateTuples(ts).None? ==>
              (r.Ok? <==> |ts| > 0 && forall i :: 0 <= i < |ts| ==> !ts[i].pitches.OtherPitch?)
    ensures ValidateTuples(ts).None? && (exists i :: 0 <= i < |ts| && ts[i].pitches.OtherPitch?) ==>
              r == Err(TypeError)
  {
    var err := ValidateTuples(ts);
    if err.Some? then Err(err.value)
    else
      ValidatedAccepted(ts);
      FuseSilentTuplesAccepted(ts);
      FuseSilentTuplesUnsupported(ts);
      var gs := FuseSilentTuples(ts);
      GroupEventsOk(gs);
      var events := GroupEvents(gs);
      if events.Err? then events
      else
        GroupEventsOffsets(gs);
        MakeSequence(Some(events.value))
  }

  /** A built sequence has one event per fused tuple, rests where the fused tuples have no pitch, and their attachments. */
  lemma {:induction false} TuplesSequenceKinds(ts: seq<PitchTuple>)
    requires FromMillisecondPitchAttachmentTuples(ts).Ok?
    ensures var s, gs := FromMillisecondPitchAttachmentTuples(ts).value, FuseSilentTuples(ts);
            && |s| == |gs| + 1
            && (forall i :: 0 <= i < |gs| ==> (s[i].Silent? <==> gs[i].pitches.NoPitch?))
            && (forall i :: 0 <= i < |gs| ==> Some(s[i].Attachments()) == gs[i].attachments)
            && (forall i :: 0 <= i < |gs| && gs[i].pitches.Many? ==> s[i].Pitched? && s[i].pitches == gs[i].pitches.values)
            && (forall i :: 0 <= i < |gs| && gs[i].pitches.One? ==> s[i].Pitched? && s[i].pitches == [gs[i].pitches.value])
            && s[|gs|].Terminal?
  {
    ValidatedAccepted(ts);
    FuseSilentTuplesAccepted(ts);
    var gs := FuseSilentTuples(ts);
    assert FromMillisecondPitchAttachmentTuples(ts).value == GroupEvents(gs).value;
    GroupEventsKinds(gs);
  }

  /** A built sequence starts at zero, steps by each fused duration, and lasts as long as all the tuples together. */
  lemma {:induction false} TuplesSequenceOffsets(ts: seq<PitchTuple>)
    requires FromMillisecondPitchAttachmentTuples(ts).Ok?
    ensures var s, gs := FromMillisecondPitchAttachmentTuples(ts).value, FuseSilentTuples(ts);
            && |s| == |gs| + 1
            && s[0].offset == 0.0
            && (forall i :: 0 <= i < |gs| ==> s[i + 1].offset - s[i].offset == gs[i].duration)
            && DurationInMs(s) == Ok(Sum(Durations(ts)))
  {
    ValidatedAccepted(ts);
    FuseSilentTuplesAccepted(ts);
    FuseSilentTuplesDuration(ts);
    var gs := FuseSilentTuples(ts);
    var s := FromMillisecondPitchAttachmentTuples(ts).value;
    assert s == GroupEvents(gs).value;
    GroupEventsOffsets(gs);
    assert s[|s| - 1] == Terminal(Sum(Durations(gs)));
  }

  /** One `(milliseconds, pitches)` pair. */
  datatype PitchPair = PitchPair(duration: real, pitches: PitchArg)

  /** The pitch checks `from_millisecond_pitch_pairs` makes of one pair. */
  predicate PairAccepted(p: PitchPair)
  {
    match p.pitches
    case NotAPitch => false
    case ManyNonNumeric => false
    case Many(vs) => |vs| > 0
    case _ => true
  }

  function ValidatePairs(ps: seq<PitchPair>): (e: Option<Error>)
    ensures e.None? <==> forall i :: 0 <= i < |ps| ==> 0.0 < ps[i].duration && PairAccepted(ps[i])
    ensures e.Some? ==> e.value == AssertionError
  {
    if exists i :: 0 <= i < |ps| && ps[i].duration <= 0.0 then Some(AssertionError)
    else if exists i :: 0 <= i < |ps| && !PairAccepted(ps[i]) then Some(AssertionError)
    else None
  }

  function WithEmptyAttachments(ps: seq<PitchPair>): (ts: seq<PitchTuple>)
    ensures |ts| == |ps|
    ensures forall i :: 0 <= i < |ps| ==> ts[i] == PitchTuple(ps[i].duration, ps[i].pitches, Some([]))
  {
    seq(|ps|, i requires 0 <= i < |ps| => PitchTuple(ps[i].duration, ps[i].pitches, Some([])))
  }

  /** `QEventSequence.from_millisecond_pitch_pairs`: its own checks, then the tuple factory with empty attachments. */
  function FromMillisecondPitchPairs(ps: seq<PitchPair>): (r: Result<seq<QEvent>>)
  {
    var err := ValidatePairs(ps);
    if err.Some? then Err(err.value)
    else FromMillisecondPitchAttachmentTuples(WithEmptyAttachments(ps))
  }

  /** The pair factory is exactly the tuple factory given empty attachments: its own checks add and remove nothing. */
  lemma {:induction false} PitchPairsAreTuples(ps: seq<PitchPair>)
    ensures FromMillisecondPitchPairs(ps) == FromMillisecondPitchAttachmentTuples(WithEmptyAttachments(ps))
  {
    var ts := WithEmptyAttachments(ps);
    if ValidatePairs(ps).Some? {
      if exists i :: 0 <= i < |ps| && ps[i].duration <= 0.0 {
        var i :| 0 <= i < |ps| && ps[i].duration <= 0.0;
        assert ts[i].duration <= 0.0;
      } else {
        var i :| 0 <= i < |ps| && !PairAccepted(ps[i]);
        assert TupleError(ts[i]).Some?;
        FirstTupleErrorKind(ts);
      }
    } else {
      forall i | 0 <= i < |ts| ensures TupleError(ts[i]).None? {
        assert PairAccepted(ps[i]);
      }
    }
  }

  lemma {:induction false} FirstTupleErrorKind(ts: seq<PitchTuple>)
    requires forall i :: 0 <= i < |ts| ==> ts[i].attachments.Some?
    ensures FirstTupleError(ts).Some? ==> FirstTupleError(ts).value == AssertionError
  {
    if ts != [] {
      FirstTupleErrorKind(ts[1..]);
    }
  }

  /** The pairs (100, 0), (200, None), (100, None), (300, [1, 4]), (350, None), (400, 5), (600, 7). */
  lemma {:induction false} PitchPairsExampleFuse()
    ensures FuseSilentTuples(WithEmptyAttachments([
              PitchPair(100.0, One(0)), PitchPair(200.0, NoPitch), PitchPair(100.0, NoPitch),
              PitchPair(300.0, Many([1, 4])), PitchPair(350.0, NoPitch), PitchPair(400.0, One(5)),
              PitchPair(600.0, One(7))]))
            == [PitchTuple(100.0, One(0), Some([])), PitchTuple(300.0, NoPitch, Some([])),
                PitchTuple(300.0, Many([1, 4]), Some([])), PitchTuple(350.0, NoPitch, Some([])),
                PitchTuple(400.0, One(5), Some([])), PitchTuple(600.0, One(7), Some([]))]
  {
    var ts := WithEmptyAttachments([
              PitchPair(100.0, One(0)), PitchPair(200.0, NoPitch), PitchPair(100.0, NoPitch),
              PitchPair(300.0, Many([1, 4])), PitchPair(350.0, NoPitch), PitchPair(400.0, One(5)),
              PitchPair(600.0, One(7))]);
    var t1 := ts[1..];
    assert SilentRun(t1[1..][1..]) == 0;
    assert SilentRun(t1[1..]) == 1;
    assert SilentRun(t1) == 2;
    assert Durations(t1[..2]) == [200.0, 100.0];
    assert Sum([200.0, 100.0]) == 300.0 by { assert [200.0, 100.0][..1] == [200.0]; assert [200.0][..0] == []; }
    assert t1[2..] == ts[3..];
    var t4 := ts[4..];
    assert SilentRun(t4[1..]) == 0;
    assert SilentRun(t4) == 1;
    assert Durations(t4[..1]) == [350.0];
    assert Sum([350.0]) == 350.0 by { assert [350.0][..0] == []; }
    assert t4[1..] == ts[5..];
    assert ts[3..][1..] == ts[4..];
    assert ts[5..][1..] == ts[6..];
    assert ts[6..][1..] == [];
  }
}

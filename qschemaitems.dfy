/**
 * Q-schema items: the settings that change at one step of a quantization timeline.
 * Search trees are opaque tokens; a metronome mark carries whether it is imprecise;
 * time signatures have positive denominators (abjad's own checks are not part of this
 * model).
 */
module QSchemaItems {
  import opened Wrappers

  /** A search tree, known only by identity. */
  datatype SearchTree = SearchTree(id: nat)

  /** A metronome mark: reference duration, units per minute, and whether abjad deems it imprecise. */
  datatype MetronomeMark = MetronomeMark(referenceDuration: real, unitsPerMinute: real, imprecise: bool)

  type Denominator = d: int | d > 0 witness 1

  datatype TimeSignature = TimeSignature(numerator: int, denominator: Denominator)
  {
    /** The measure's duration, numerator / denominator. */
    function Duration(): real
    {
      numerator as real / denominator as real
    }
  }

  /** The shapes a `time_signature` argument can take. */
  datatype TimeSignatureArg = Signature(ts: TimeSignature) | Pair(n: int, d: Denominator) | OtherSignature

  datatype QSchemaItem =
    | BeatwiseItem(beatspan: Option<real>, searchTree: Option<SearchTree>, tempo: Option<MetronomeMark>)
    | MeasurewiseItem(searchTree: Option<SearchTree>, tempo: Option<MetronomeMark>,
                      timeSignature: Option<TimeSignature>, useFullMeasure: Option<bool>)

  /** `QSchemaItem.__init__`'s check: a given tempo must not be imprecise. */
  predicate TempoAccepted(tempo: Option<MetronomeMark>)
  {
    tempo.None? || !tempo.value.imprecise
  }

  /** `BeatwiseQSchemaItem(beatspan, search_tree, tempo)`: a given beatspan must be positive. */
  function NewBeatwiseItem(beatspan: Option<real>, searchTree: Option<SearchTree>, tempo: Option<MetronomeMark>)
    : (r: Result<QSchemaItem>)
    ensures r.Ok? <==> TempoAccepted(tempo) && (beatspan.Some? ==> beatspan.value > 0.0)
    ensures r.Err? ==> r.error == AssertionError
    ensures r.Ok? ==> r.value == BeatwiseItem(beatspan, searchTree, tempo)
  {
    if !TempoAccepted(tempo) then Err(AssertionError)
    else if beatspan.Some? && beatspan.value <= 0.0 then Err(AssertionError)
    else Ok(BeatwiseItem(beatspan, searchTree, tempo))
  }

  /**
   * `MeasurewiseQSchemaItem(search_tree, tempo, time_signature, use_full_measure)`. The
   * type assertion comes first, so a bare (numerator, denominator) pair is refused even
   * though a later branch would have converted it. `use_full_measure` is given as a
   * number and stored as its Python truth value.
   */
  function NewMeasurewiseItem(searchTree: Option<SearchTree>, tempo: Option<MetronomeMark>,
                              timeSignature: Option<TimeSignatureArg>, useFullMeasure: Option<int>)
    : (r: Result<QSchemaItem>)
    ensures r.Ok? <==> TempoAccepted(tempo) && (timeSignature.None? || timeSignature.value.Signature?)
    ensures r.Err? ==> r.error == AssertionError
    ensures r.Ok? ==> r.value.MeasurewiseItem? && r.value.searchTree == searchTree && r.value.tempo == tempo
    ensures r.Ok? ==> r.value.timeSignature == (if timeSignature.None? then None else Some(timeSignature.value.ts))
    ensures r.Ok? ==> (r.value.useFullMeasure.None? <==> useFullMeasure.None?)
    ensures r.Ok? && useFullMeasure.Some? ==> r.value.useFullMeasure.value == (useFullMeasure.value != 0)
  {
    if timeSignature.Some? && !timeSignature.value.Signature? then Err(AssertionError)
    else if !TempoAccepted(tempo) then Err(AssertionError)
    else
      var ts := if timeSignature.None? then None else Some(timeSignature.value.ts);
      var full := if useFullMeasure.None? then None else Some(useFullMeasure.value != 0);
      Ok(MeasurewiseItem(searchTree, tempo, ts, full))
  }

  /**
   * `MeasurewiseQSchemaItem.beatspan`: nothing without a time signature; the whole
   * measure when `use_full_measure` is true; otherwise one over the denominator.
   */
  function Beatspan(item: QSchemaItem): (r: Option<real>)
    requires item.MeasurewiseItem?
    ensures r.None? <==> item.timeSignature.None?
  {
    match item.timeSignature
    case None => None
    case Some(ts) =>
      if item.useFullMeasure == Some(true) then Some(ts.Duration())
      else Some(1.0 / ts.denominator as real)
  }

  /**
   * The beats of a measure fill it: the numerator times the one-beat span is the
   * full-measure span, and both are positive for a positive numerator.
   */
  lemma {:induction false} BeatsFillMeasure(searchTree: Option<SearchTree>, tempo: Option<MetronomeMark>, ts: TimeSignature, other: Option<bool>)
    requires other != Some(true)
    ensures var beat, whole := Beatspan(MeasurewiseItem(searchTree, tempo, Some(ts), other)),
                               Beatspan(MeasurewiseItem(searchTree, tempo, Some(ts), Some(true)));
      && beat.Some? && whole.Some?
      && ts.numerator as real * beat.value == whole.value
      && beat.value > 0.0
      && (ts.numerator > 0 ==> whole.value > 0.0)
  {
  }

  /** Example: 6/8 beats in eighths, and spans 3/4 as a whole measure. */
  lemma {:induction false} BeatspanSixEight()
    ensures Beatspan(MeasurewiseItem(None, None, Some(TimeSignature(6, 8)), None)) == Some(1.0 / 8.0)
    ensures Beatspan(MeasurewiseItem(None, None, Some(TimeSignature(6, 8)), Some(true))) == Some(3.0 / 4.0)
  {
  }
}

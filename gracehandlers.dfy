/**
 * Grace handlers: given the events that landed on one attack point of a grid, decide
 * which pitches sound there and which events become grace notes before it. The abjad
 * containers, notes, chords and rests are modelled as a sequence of `GraceLeaf` values.
 */
module GraceHandlers {
  import opened Wrappers
  import opened Seqs
  import opened QEvents

  /** A leaf of a grace container: a note, a chord or a rest of the grace duration, annotated with its event's attachments. */
  datatype GraceLeaf =
    | GraceNote(pitch: int, duration: real, annotation: seq<Attachment>)
    | GraceChord(pitches: seq<int>, duration: real, annotation: seq<Attachment>)
    | GraceRest(duration: real, annotation: seq<Attachment>)

  /** What a handler returns: the sounding pitches, their attachments, and the grace container if any. */
  datatype Handled = Handled(pitches: seq<int>, attachments: Option<seq<Attachment>>, grace: Option<seq<GraceLeaf>>)

  /** The pitched events of `s`, in order. */
  function PitchedEvents(s: seq<QEvent>): (r: seq<QEvent>)
    ensures |r| <= |s|
    ensures forall i :: 0 <= i < |r| ==> r[i].Pitched?
  {
    if s == [] then [] else PitchedEvents(s[..|s| - 1]) + (if Last(s).Pitched? then [Last(s)] else [])
  }

  lemma {:induction false} PitchedEventsAppend(a: seq<QEvent>, b: seq<QEvent>)
    ensures PitchedEvents(a + b) == PitchedEvents(a) + PitchedEvents(b)
  {
    if b != [] {
      assert (a + b)[..|a + b| - 1] == a + b[..|b| - 1];
      PitchedEventsAppend(a, b[..|b| - 1]);
    } else {
      assert a + b == a;
    }
  }

  // ---------------------------------------------------------------- collapsing

  /** The pitches `CollapsingGraceHandler` gathers: every pitched event's pitches, in event order. */
  function CollapsedPitches(s: seq<QEvent>): seq<int>
  {
    if s == [] then [] else CollapsedPitches(s[..|s| - 1]) + (if Last(s).Pitched? then Last(s).pitches else [])
  }

  /** The attachments `CollapsingGraceHandler` gathers: every pitched event's attachments, in event order. */
  function CollapsedAttachments(s: seq<QEvent>): seq<Attachment>
  {
    if s == [] then [] else CollapsedAttachments(s[..|s| - 1]) + (if Last(s).Pitched? then Last(s).attachments else [])
  }

  /** `CollapsingGraceHandler.__call__`: no grace container, ever. */
  function Collapse(s: seq<QEvent>): (h: Handled)
    ensures h.grace.None? && h.attachments.Some?
  {
    Handled(CollapsedPitches(s), Some(CollapsedAttachments(s)), None)
  }

  function PitchLists(ps: seq<QEvent>): (r: seq<seq<int>>)
    requires forall i :: 0 <= i < |ps| ==> ps[i].Pitched?
    ensures |r| == |ps| && forall i :: 0 <= i < |ps| ==> r[i] == ps[i].pitches
  {
    seq(|ps|, i requires 0 <= i < |ps| => ps[i].pitches)
  }

  function AttachmentLists(ps: seq<QEvent>): (r: seq<seq<Attachment>>)
    requires forall i :: 0 <= i < |ps| ==> ps[i].Pitched?
    ensures |r| == |ps| && forall i :: 0 <= i < |ps| ==> r[i] == ps[i].attachments
  {
    seq(|ps|, i requires 0 <= i < |ps| => ps[i].attachments)
  }

  /**
   * The collapsed pitches and attachments are exactly the concatenation of the pitched
   * events' own pitches and attachments: silences (and the terminal event) contribute
   * nothing.
   */
  lemma {:induction false} CollapseIsConcatOfPitched(s: seq<QEvent>)
    ensures CollapsedPitches(s) == Concat(PitchLists(PitchedEvents(s)))
    ensures CollapsedAttachments(s) == Concat(AttachmentLists(PitchedEvents(s)))
  {
    if s != [] {
      var init := s[..|s| - 1];
      CollapseIsConcatOfPitched(init);
      var P, P' := PitchedEvents(init), PitchedEvents(s);
      if Last(s).Pitched? {
        assert PitchLists(P')[..|P'| - 1] == PitchLists(P);
        assert AttachmentLists(P')[..|P'| - 1] == AttachmentLists(P);
      } else {
        assert P' == P;
      }
    }
  }

  /** Collapsing the events of two neighbouring groups is collapsing each and joining. */
  lemma {:induction false} CollapseAppend(a: seq<QEvent>, b: seq<QEvent>)
    ensures CollapsedPitches(a + b) == CollapsedPitches(a) + CollapsedPitches(b)
    ensures CollapsedAttachments(a + b) == CollapsedAttachments(a) + CollapsedAttachments(b)
  {
    if b == [] {
      assert a + b == a;
    } else {
      assert (a + b)[..|a + b| - 1] == a + b[..|b| - 1];
      CollapseAppend(a, b[..|b| - 1]);
    }
  }

  // ---------------------------------------------------------------- last pitched event

  /** `_find_last_pitched_q_event`: the largest position holding a pitched event; ValueError when there is none. */
  function FindLastPitched(s: seq<QEvent>): (r: Result<nat>)
    ensures r.Ok? <==> exists i :: 0 <= i < |s| && s[i].Pitched?
    ensures r.Ok? ==> r.value < |s| && s[r.value].Pitched? && forall j :: r.value < j < |s| ==> !s[j].Pitched?
    ensures r.Err? ==> r.error == ValueError
  {
    if s == [] then Err(ValueError)
    else if Last(s).Pitched? then Ok(|s| - 1)
    else
      var r := FindLastPitched(s[..|s| - 1]);
      assert forall i :: 0 <= i < |s| - 1 ==> s[..|s| - 1][i] == s[i];
      r
  }

  // ---------------------------------------------------------------- concatenating

  /** A `ConcatenatingGraceHandler`'s settings; `graceDuration` is an exact rational. */
  datatype ConcatenatingGraceHandler = ConcatenatingGraceHandler(
    discardGraceRest: bool, graceDuration: real, replaceRestWithFinalGraceNote: bool)

  /** `n` with every factor 2 divided out. */
  function OddPart(n: nat): (o: nat)
    requires n > 0
    ensures o > 0 && o % 2 == 1
  {
    if n % 2 == 0 then OddPart(n / 2) else n
  }

  function Pow2(k: nat): (p: nat)
    ensures p > 0
  {
    if k == 0 then 1 else 2 * Pow2(k - 1)
  }

  /** The exponent of 2 in `n`. */
  function TwoExponent(n: nat): nat
    requires n > 0
  {
    if n % 2 == 0 then 1 + TwoExponent(n / 2) else 0
  }

  /**
   * `Duration.is_dyadic_rational` for `n / d` (with `d != 0`): in lowest terms the
   * denominator is a power of two, which is to say the odd part of `d` divides `n`.
   */
  predicate IsDyadic(n: int, d: int)
    requires d != 0
  {
    n % OddPart(if d < 0 then -d else d) == 0
  }

  /** `d` is its odd part times a power of two. */
  lemma {:induction false} OddPartFactor(d: nat)
    requires d > 0
    ensures d == OddPart(d) * Pow2(TwoExponent(d))
  {
    if d % 2 == 0 {
      var h := d / 2;
      OddPartFactor(h);
      var o, p := OddPart(h), Pow2(TwoExponent(h));
      calc {
        OddPart(d) * Pow2(TwoExponent(d));
        o * (2 * p);
        { MulAssoc(o, 2, p); }
        2 * (o * p);
        d;
      }
    }
  }

  lemma {:induction false} MulAssoc(a: int, b: int, c: int)
    ensures a * (b * c) == b * (a * c)
  {
  }

  /** A dyadic rational becomes an integer once scaled by the power of two in its denominator. */
  lemma {:induction false} DyadicScalesToInteger(n: int, d: nat)
    requires d > 0 && IsDyadic(n, d)
    ensures n * Pow2(TwoExponent(d)) == (n / OddPart(d)) * d
  {
    var o, p := OddPart(d), Pow2(TwoExponent(d));
    OddPartFactor(d);
    var q := n / o;
    assert n == o * q;
    calc {
      n * p;
      (o * q) * p;
      { MulAssoc(q, o, p); }
      q * (o * p);
      q * d;
    }
  }

  /** Halving a dyadic rational keeps it dyadic. */
  lemma {:induction false} DyadicHalved(n: int, d: int)
    requires d != 0 && IsDyadic(n, d)
    ensures IsDyadic(n, 2 * d)
  {
    var a := if d < 0 then -d else d;
    assert (if 2 * d < 0 then -(2 * d) else 2 * d) == 2 * a;
    assert (2 * a) / 2 == a;
  }

  /** Examples: the default 1/16 is dyadic, 1/12 is not. */
  lemma {:induction false} DyadicExamples()
    ensures IsDyadic(1, 16) && !IsDyadic(1, 12)
  {
    assert OddPart(16) == 1 && OddPart(12) == 3;
  }

  /**
   * `ConcatenatingGraceHandler.__init__`: the grace duration defaults to 1/16, is given
   * as a numerator/denominator pair, and must be dyadic.
   */
  function NewConcatenatingGraceHandler(discardGraceRest: bool, graceDuration: Option<(int, int)>, replaceRestWithFinalGraceNote: bool)
    : (r: Result<ConcatenatingGraceHandler>)
    ensures graceDuration.None? ==> r == Ok(ConcatenatingGraceHandler(discardGraceRest, 1.0 / 16.0, replaceRestWithFinalGraceNote))
    ensures graceDuration.Some? && graceDuration.value.1 == 0 ==> r == Err(ZeroDivisionError)
    ensures graceDuration.Some? && graceDuration.value.1 != 0 ==>
      (r.Ok? <==> IsDyadic(graceDuration.value.0, graceDuration.value.1))
    ensures r.Ok? ==> r.value.discardGraceRest == discardGraceRest && r.value.replaceRestWithFinalGraceNote == replaceRestWithFinalGraceNote
    ensures r.Ok? && graceDuration.Some? ==> r.value.graceDuration == graceDuration.value.0 as real / graceDuration.value.1 as real
    ensures r.Err? && graceDuration.Some? && graceDuration.value.1 != 0 ==> r.error == AssertionError
  {
    var (n, d) := if graceDuration.None? then (1, 16) else graceDuration.value;
    if d == 0 then Err(ZeroDivisionError)
    else if !IsDyadic(n, d) then Err(AssertionError)
    else Ok(ConcatenatingGraceHandler(discardGraceRest, n as real / d as real, replaceRestWithFinalGraceNote))
  }

  /**
   * The split `ConcatenatingGraceHandler.__call__` makes: the would-be grace events and
   * the final event. With the replace option and at least two events, the final event is
   * the last pitched one (ValueError when there is none); otherwise it is the last event.
   * An empty input fails on `q_events[-1]`.
   */
  function SelectFinal(h: ConcatenatingGraceHandler, s: seq<QEvent>): (r: Result<(seq<QEvent>, QEvent)>)
    ensures s == [] ==> r == Err(IndexError)
    ensures |s| >= 2 && h.replaceRestWithFinalGraceNote ==>
      (r.Ok? <==> exists i :: 0 <= i < |s| && s[i].Pitched?)
    ensures r.Err? && s != [] ==> r.error == ValueError
    ensures r.Ok? ==> var (grace, final) := r.value;
      && |grace| < |s| && grace == s[..|grace|] && final == s[|grace|]
      && (|s| >= 2 && h.replaceRestWithFinalGraceNote ==> final.Pitched? && forall j :: |grace| < j < |s| ==> !s[j].Pitched?)
      && (|s| < 2 || !h.replaceRestWithFinalGraceNote ==> |grace| == |s| - 1)
  {
    if s == [] then Err(IndexError)
    else if |s| >= 2 && h.replaceRestWithFinalGraceNote then
      match FindLastPitched(s)
      case Err(e) => Err(e)
      case Ok(i) => Ok((s[..i], s[i]))
    else Ok((s[..|s| - 1], Last(s)))
  }

  /**
   * The `discard_grace_rest` loop as the source writes it: it walks the list by position
   * while removing the first event equal to each silence it meets, so the event that
   * moves into the vacated position is never looked at.
   */
  function Sweep(s: seq<QEvent>, i: nat): seq<QEvent>
    decreases |s| - i
  {
    if i >= |s| then s
    else if s[i].Silent? then Sweep(RemoveFirst(s, s[i]), i + 1)
    else Sweep(s, i + 1)
  }

  /** The loop of `ConcatenatingGraceHandler.__call__` that discards grace rests, run literally. */
  method DiscardGraceRestsAsWritten(grace: seq<QEvent>) returns (kept: seq<QEvent>)
    ensures kept == Sweep(grace, 0)
  {
    kept := grace;
    var i := 0;
    while i < |kept|
      invariant Sweep(kept, i) == Sweep(grace, 0)
      decreases |kept| - i
    {
      if kept[i].Silent? {
        kept := RemoveFirst(kept, kept[i]);
      }
      i := i + 1;
    }
  }

  /** Removing a silence keeps the pitched events, in order. */
  lemma {:induction false} RemoveSilentKeepsPitched(s: seq<QEvent>, x: QEvent)
    requires x in s && x.Silent?
    ensures PitchedEvents(RemoveFirst(s, x)) == PitchedEvents(s)
  {
    var i := IndexOf(s, x);
    var head, tail := s[..i], s[i + 1..];
    assert RemoveFirst(s, x) == head + tail;
    assert s == head + [x] + tail;
    PitchedEventsAppend(head + [x], tail);
    PitchedEventsAppend(head, [x]);
    PitchedEventsAppend(head, tail);
    assert PitchedEvents([x]) == [] by { assert [x][..0] == []; }
    assert PitchedEvents(head + [x]) == PitchedEvents(head);
  }

  /** The literal loop never removes a pitched grace event and keeps their order. */
  lemma {:induction false} SweepKeepsPitched(s: seq<QEvent>, i: nat)
    ensures PitchedEvents(Sweep(s, i)) == PitchedEvents(s)
    decreases |s| - i
  {
    if i < |s| {
      if s[i].Silent? {
        SweepKeepsPitched(RemoveFirst(s, s[i]), i + 1);
        RemoveSilentKeepsPitched(s, s[i]);
      } else {
        SweepKeepsPitched(s, i + 1);
      }
    }
  }

  /** Two silences in a row: the loop removes the first and skips the second, so a grace rest survives. */
  lemma {:induction false} SweepSkipsSecondRest()
    ensures var a, b := Silent(0.0, [], None), Silent(1.0, [], None);
      Sweep([a, b], 0) == [b] && b.Silent?
  {
    var a, b := Silent(0.0, [], None), Silent(1.0, [], None);
    assert IndexOf([a, b], a) == 0;
    assert RemoveFirst([a, b], a) == [b];
  }

  /** What `discard_grace_rest` evidently means: drop every silence. */
  function DiscardGraceRests(s: seq<QEvent>): (r: seq<QEvent>)
    ensures |r| <= |s|
  {
    if s == [] then [] else DiscardGraceRests(s[..|s| - 1]) + (if Last(s).Silent? then [] else [Last(s)])
  }

  /** The corrected filter leaves no silence, and only events of its input. */
  lemma {:induction false} DiscardGraceRestsDrops(s: seq<QEvent>)
    ensures forall e :: e in DiscardGraceRests(s) ==> !e.Silent? && e in s
  {
    if s != [] {
      DiscardGraceRestsDrops(s[..|s| - 1]);
      assert forall e :: e in s[..|s| - 1] ==> e in s;
    }
  }

  /** The corrected filter keeps every pitched event, in order. */
  lemma {:induction false} DiscardGraceRestsKeepsPitched(s: seq<QEvent>)
    ensures PitchedEvents(DiscardGraceRests(s)) == PitchedEvents(s)
  {
    if s != [] {
      var init, x := s[..|s| - 1], Last(s);
      DiscardGraceRestsKeepsPitched(init);
      var kept := if x.Silent? then [] else [x];
      PitchedEventsAppend(DiscardGraceRests(init), kept);
      assert PitchedEvents(kept) == (if x.Pitched? then [x] else []) by { assert [x][..0] == []; }
    }
  }

  /** Grace events that are all silences leave nothing behind. */
  lemma {:induction false} DiscardGraceRestsOnlyRests(s: seq<QEvent>)
    requires forall i :: 0 <= i < |s| ==> s[i].Silent?
    ensures DiscardGraceRests(s) == []
  {
    if s != [] {
      DiscardGraceRestsOnlyRests(s[..|s| - 1]);
    }
  }

  /** Without silences, the corrected filter changes nothing. */
  lemma {:induction false} DiscardGraceRestsNoRest(s: seq<QEvent>)
    requires forall i :: 0 <= i < |s| ==> !s[i].Silent?
    ensures DiscardGraceRests(s) == s
  {
    if s != [] {
      DiscardGraceRestsNoRest(s[..|s| - 1]);
      assert s == s[..|s| - 1] + [Last(s)];
    }
  }

  /** The grace leaf for one event: a note for one pitch, a chord otherwise, a rest for a non-pitched event. */
  function GraceLeafOf(e: QEvent, duration: real): (l: GraceLeaf)
    ensures l.duration == duration && l.annotation == e.Attachments()
    ensures l.GraceRest? <==> !e.Pitched?
    ensures l.GraceNote? ==> [l.pitch] == e.pitches
    ensures l.GraceChord? ==> l.pitches == e.pitches && |e.pitches| != 1
  {
    if e.Pitched? then
      if |e.pitches| == 1 then GraceNote(e.pitches[0], duration, e.Attachments())
      else GraceChord(e.pitches, duration, e.Attachments())
    else GraceRest(duration, e.Attachments())
  }

  function GraceLeaves(s: seq<QEvent>, duration: real): (ls: seq<GraceLeaf>)
    ensures |ls| == |s| && forall i :: 0 <= i < |s| ==> ls[i] == GraceLeafOf(s[i], duration)
  {
    seq(|s|, i requires 0 <= i < |s| => GraceLeafOf(s[i], duration))
  }

  /**
   * The grace events left once `discard_grace_rest` has run: all of them when it is off,
   * the literal loop's result (`Sweep`) when `literal` holds, and every non-silence
   * (`DiscardGraceRests`) otherwise.
   */
  function KeptGrace(h: ConcatenatingGraceHandler, grace: seq<QEvent>, literal: bool): seq<QEvent>
  {
    if !h.discardGraceRest then grace
    else if literal then Sweep(grace, 0)
    else DiscardGraceRests(grace)
  }

  /**
   * `ConcatenatingGraceHandler.__call__`. With `literal` the grace rests are discarded by
   * the loop as written, and without it by the evidently intended filter. The final
   * event's pitches and attachments sound (empty pitches and no attachments when it is
   * not pitched), and a grace container is made exactly when some grace event remains.
   */
  function Concatenate(h: ConcatenatingGraceHandler, s: seq<QEvent>, literal: bool): (r: Result<Handled>)
    ensures r.Err? <==> SelectFinal(h, s).Err?
    ensures r.Ok? ==> var (grace, final) := SelectFinal(h, s).value;
      var kept := KeptGrace(h, grace, literal);
      && (final.Pitched? ==> r.value.pitches == final.pitches && r.value.attachments == Some(final.attachments))
      && (!final.Pitched? ==> r.value.pitches == [] && r.value.attachments == None)
      && (r.value.grace.Some? <==> kept != [])
      && (r.value.grace.Some? ==> r.value.grace.value == GraceLeaves(kept, h.graceDuration))
  {
    match SelectFinal(h, s)
    case Err(e) => Err(e)
    case Ok((grace, final)) =>
      var kept := KeptGrace(h, grace, literal);
      var container := if kept == [] then None else Some(GraceLeaves(kept, h.graceDuration));
      if final.Pitched? then Ok(Handled(final.pitches, Some(final.attachments), container))
      else Ok(Handled([], None, container))
  }

  /**
   * With the replace option, the last pitched event sounds and only events before it can
   * become grace leaves, whichever filter runs. With the intended filter, when grace
   * rests are discarded and no terminal event is among the input, no grace leaf is a rest.
   */
  lemma {:induction false} ConcatenateReplaces(h: ConcatenatingGraceHandler, s: seq<QEvent>, literal: bool)
    requires h.replaceRestWithFinalGraceNote && |s| >= 2 && exists i :: 0 <= i < |s| && s[i].Pitched?
    ensures var r, i := Concatenate(h, s, literal), FindLastPitched(s);
      && r.Ok? && i.Ok?
      && r.value.pitches == s[i.value].pitches
      && (r.value.grace.Some? ==> |r.value.grace.value| <= i.value)
    ensures (&& !literal && Concatenate(h, s, literal).Ok? && Concatenate(h, s, literal).value.grace.Some?
             && h.discardGraceRest && forall i :: 0 <= i < |s| ==> !s[i].Terminal?) ==>
      forall l :: l in Concatenate(h, s, literal).value.grace.value ==> !l.GraceRest?
  {
    var i := FindLastPitched(s).value;
    SweepShrinks(s[..i], 0);
    if !literal && h.discardGraceRest && forall j :: 0 <= j < |s| ==> !s[j].Terminal? {
      var grace := s[..i];
      DiscardGraceRestsDrops(grace);
      PitchedLeaves(DiscardGraceRests(grace), h.graceDuration);
    }
  }

  /** The literal loop only ever removes events. */
  lemma {:induction false} SweepShrinks(s: seq<QEvent>, i: nat)
    ensures |Sweep(s, i)| <= |s|
    decreases |s| - i
  {
    if i < |s| {
      if s[i].Silent? {
        SweepShrinks(RemoveFirst(s, s[i]), i + 1);
      } else {
        SweepShrinks(s, i + 1);
      }
    }
  }

  /**
   * Two grace rests before the final note, with both options on: the handler as written
   * keeps the second rest as a grace leaf, and the intended one makes no grace container.
   */
  lemma {:induction false} ConcatenateKeepsSkippedRest()
    ensures var h := ConcatenatingGraceHandler(true, 1.0 / 16.0, true);
      var s := [Silent(0.0, [], None), Silent(1.0, [], None), Pitched(2.0, [60], [], None)];
      && Concatenate(h, s, true) == Ok(Handled([60], Some([]), Some([GraceRest(1.0 / 16.0, [])])))
      && Concatenate(h, s, false) == Ok(Handled([60], Some([]), None))
  {
    var h := ConcatenatingGraceHandler(true, 1.0 / 16.0, true);
    var a, b, c := Silent(0.0, [], None), Silent(1.0, [], None), Pitched(2.0, [60], [], None);
    var s := [a, b, c];
    assert FindLastPitched(s) == Ok(2);
    assert s[..2] == [a, b];
    assert SelectFinal(h, s) == Ok(([a, b], c));
    SweepSkipsSecondRest();
    assert KeptGrace(h, [a, b], true) == [b];
    assert GraceLeaves([b], 1.0 / 16.0) == [GraceRest(1.0 / 16.0, [])];
    DiscardGraceRestsOnlyRests([a, b]);
    assert KeptGrace(h, [a, b], false) == [];
  }

  /** Events that are neither silent nor terminal make no rest leaves. */
  lemma {:induction false} PitchedLeaves(kept: seq<QEvent>, duration: real)
    requires forall e :: e in kept ==> e.Pitched?
    ensures forall l :: l in GraceLeaves(kept, duration) ==> !l.GraceRest?
  {
    forall l | l in GraceLeaves(kept, duration)
      ensures !l.GraceRest?
    {
      var j :| 0 <= j < |kept| && GraceLeaves(kept, duration)[j] == l;
      assert kept[j] in kept;
    }
  }

  // ---------------------------------------------------------------- discarding

  /**
   * `DiscardingGraceHandler`: only the last event sounds; the events before it are kept,
   * per call, as a one-element list holding them, in `discarded`.
   */
  class DiscardingGraceHandler {
    var discarded: seq<seq<seq<QEvent>>>

    /** Every record is a one-element list holding a non-empty run of events. */
    predicate Valid()
      reads this
    {
      forall i :: 0 <= i < |discarded| ==> |discarded[i]| == 1 && |discarded[i][0]| > 0
    }

    constructor()
      ensures Valid() && discarded == []
    {
      discarded := [];
    }

    /** `DiscardingGraceHandler.__call__`: an empty input fails on `q_events[-1]` after recording nothing. */
    method Handle(s: seq<QEvent>) returns (r: Result<Handled>)
      requires Valid()
      modifies this
      ensures Valid()
      ensures discarded == old(discarded) + (if |s| >= 2 then [[s[..|s| - 1]]] else [])
      ensures s == [] <==> r.Err?
      ensures r.Err? ==> r.error == IndexError
      ensures r.Ok? ==> r.value.grace.None? && r.value.attachments.Some?
      ensures r.Ok? && Last(s).Pitched? ==> r.value.pitches == Last(s).pitches && r.value.attachments.value == Last(s).attachments
      ensures r.Ok? && !Last(s).Pitched? ==> r.value.pitches == [] && r.value.attachments.value == []
    {
      if |s| >= 2 {
        discarded := discarded + [[s[..|s| - 1]]];
      }
      if s == [] {
        return Err(IndexError);
      }
      var e := s[|s| - 1];
      if e.Pitched? {
        r := Ok(Handled(e.pitches, Some(e.attachments), None));
      } else {
        r := Ok(Handled([], Some([]), None));
      }
    }
  }
}

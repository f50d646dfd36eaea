/**
 * Q-events: the attack points a quantizer places on a grid. Offsets are exact
 * rationals (milliseconds in a sequence), pitches are integers, and an event's
 * attachments are opaque tokens kept in the order given.
 */
module QEvents {
  import opened Wrappers

  /** An indicator attached to an event; only its identity matters here. */
  datatype Attachment = Attachment(name: string)

  /**
   * `PitchedQEvent`, `SilentQEvent` and `TerminalQEvent`. A terminal event
   * carries only its offset: its index is always None and its attachments empty,
   * and its equality looks at nothing else.
   */
  datatype QEvent =
    | Pitched(offset: real, pitches: seq<int>, attachments: seq<Attachment>, index: Option<int>)
    | Silent(offset: real, attachments: seq<Attachment>, index: Option<int>)
    | Terminal(offset: real)
  {
    function Index(): Option<int>
    {
      if Terminal? then None else index
    }

    function Attachments(): seq<Attachment>
    {
      if Terminal? then [] else attachments
    }
  }

  /**
   * The events' `__eq__`: same kind, and then offset, pitches, attachments and
   * index for pitched events; offset, attachments and index for silences; offset
   * alone for terminal events. It coincides with value equality of the model.
   */
  function Equal(a: QEvent, b: QEvent): (r: bool)
    ensures r <==> a == b
    ensures a.Terminal? && b.Terminal? ==> (r <==> a.offset == b.offset)
    ensures a.offset != b.offset ==> !r
  {
    match a
    case Pitched(o, ps, at, i) =>
      b.Pitched? && o == b.offset && ps == b.pitches && at == b.attachments && i == b.index
    case Silent(o, at, i) =>
      b.Silent? && o == b.offset && at == b.attachments && i == b.index
    case Terminal(o) =>
      b.Terminal? && o == b.offset
  }

  /** `SilentQEvent(offset, attachments)`: None attachments are stored as the empty tuple. */
  function NewSilent(offset: real, attachments: Option<seq<Attachment>>, index: Option<int>): (e: QEvent)
    ensures e.Silent? && e.offset == offset && e.index == index
    ensures attachments.None? ==> e.attachments == []
    ensures attachments.Some? ==> e.attachments == attachments.value
  {
    Silent(offset, if attachments.Some? then attachments.value else [], index)
  }

  /** The shapes the `pitches` argument of the factory can take. */
  datatype PitchArg =
    | Many(values: seq<int>)   // an iterable of numbers
    | ManyNonNumeric           // an iterable holding something that is not a number
    | NoPitch                  // None
    | One(value: int)          // a single int (or float)
    | OtherPitch               // a number that is neither int nor float, e.g. a Decimal
    | NotAPitch                // an object that is neither a number, None nor iterable

  /**
   * `QEvent.from_offset_pitches_attachments`. Attachments of None fail the
   * iterable assertion.
   */
  function FromOffsetPitchesAttachments(offset: real, pitches: PitchArg, attachments: Option<seq<Attachment>>): (r: Result<QEvent>)
    ensures attachments.None? ==> r == Err(AssertionError)
    ensures attachments.Some? && (pitches.OtherPitch? || pitches.NotAPitch?) ==> r == Err(TypeError)
    ensures attachments.Some? && pitches.ManyNonNumeric? ==> r == Err(AssertionError)
    ensures r.Ok? ==>
              && r.value.offset == offset && r.value.Index() == None
              && r.value.Attachments() == attachments.value && !r.value.Terminal?
    ensures r.Ok? ==> (r.value.Silent? <==> pitches.NoPitch?)
    ensures r.Ok? && pitches.Many? ==> r.value.pitches == pitches.values
    ensures r.Ok? && pitches.One? ==> r.value.pitches == [pitches.value]
    ensures attachments.Some? && (pitches.Many? || pitches.NoPitch? || pitches.One?) ==> r.Ok?
  {
    if attachments.None? then Err(AssertionError)
    else
      match pitches
      case Many(ps) => Ok(Pitched(offset, ps, attachments.value, None))
      case ManyNonNumeric => Err(AssertionError)
      case NoPitch => Ok(NewSilent(offset, attachments, None))
      case One(p) => Ok(Pitched(offset, [p], attachments.value, None))
      case OtherPitch => Err(TypeError)
      case NotAPitch => Err(TypeError)
  }
}

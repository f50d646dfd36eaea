/** `QEventProxy`: an event together with its offset rescaled into the unit interval of one beat. */
module QEventProxies {
  import opened Wrappers
  import opened QEvents

  datatype Proxy = Proxy(event: Option<QEvent>, offset: real)

  /**
   * `QEventProxy(q_event, *offsets)`. One offset is taken as the normalised
   * offset itself; two offsets (minimum, maximum) rescale the event's own offset
   * into [0, 1]; none builds the empty proxy at 0; more are refused.
   */
  function NewProxy(event: Option<QEvent>, offsets: seq<real>): (r: Result<Proxy>)
    ensures r.Ok? ==> r.value.event == event
    ensures |offsets| > 2 ==> r == Err(ValueError)
    ensures |offsets| == 0 ==> (r.Ok? <==> event.None?) && (r.Ok? ==> r.value.offset == 0.0)
    ensures |offsets| == 1 ==> (r.Ok? <==> event.Some? && 0.0 <= offsets[0] <= 1.0)
    ensures |offsets| == 1 && r.Ok? ==> r.value.offset == offsets[0]
    ensures |offsets| == 2 ==>
              (r.Ok? <==> event.Some? && offsets[0] <= event.value.offset <= offsets[1] && offsets[0] < offsets[1])
    ensures |offsets| == 2 && event.Some? && offsets[0] == event.value.offset == offsets[1] ==>
              r == Err(ZeroDivisionError)
    ensures |offsets| == 2 && r.Ok? ==>
              offsets[0] + r.value.offset * (offsets[1] - offsets[0]) == event.value.offset
    ensures r.Ok? ==> 0.0 <= r.value.offset <= 1.0
  {
    if |offsets| == 1 then
      if event.None? || !(0.0 <= offsets[0] <= 1.0) then Err(AssertionError)
      else Ok(Proxy(event, offsets[0]))
    else if |offsets| == 2 then
      var minimum, maximum := offsets[0], offsets[1];
      if event.None? || !(minimum <= event.value.offset <= maximum) then Err(AssertionError)
      else if maximum - minimum == 0.0 then Err(ZeroDivisionError)
      else
        var t := event.value.offset;
        UnitFraction(t - minimum, maximum - minimum);
        Ok(Proxy(event, (t - minimum) / (maximum - minimum)))
    else if |offsets| == 0 then
      if event.Some? then Err(AssertionError) else Ok(Proxy(None, 0.0))
    else Err(ValueError)
  }

  lemma {:induction false} UnitFraction(a: real, b: real)
    requires 0.0 <= a <= b && 0.0 < b
    ensures 0.0 <= a / b <= 1.0
    ensures a / b * b == a
  {
  }

  /** Proxy `__eq__`: equal normalised offsets and equal wrapped events (None only equals None). */
  function ProxyEqual(p: Proxy, q: Proxy): (r: bool)
    ensures r <==> p == q
  {
    p.offset == q.offset &&
    match p.event
    case None => q.event.None?
    case Some(e) => q.event.Some? && Equal(e, q.event.value)
  }

  /** `QEventProxy.index`: the wrapped event's index; an empty proxy fails the assertion. */
  function ProxyIndex(p: Proxy): (r: Result<Option<int>>)
    ensures r.Ok? <==> p.event.Some?
    ensures r.Ok? ==> r.value == p.event.value.Index()
    ensures r.Err? ==> r.error == AssertionError
  {
    if p.event.None? then Err(AssertionError) else Ok(p.event.value.Index())
  }

  /** An event at 130 ms in the span [100, 1000] lands at 1/30. */
  lemma {:induction false} SpanExample()
    ensures var e := Pitched(130.0, [0, 1, 4], [], None);
            NewProxy(Some(e), [100.0, 1000.0]) == Ok(Proxy(Some(e), 1.0 / 30.0))
  {
  }
}

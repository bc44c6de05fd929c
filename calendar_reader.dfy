/** CalendarReader.parseCalendar: maps each VEVENT of a parsed iCalendar
    document to a CalendarEvent, in document order. The ical4j grammar is not
    modelled; a document is given as its sequence of VEVENT components. */
module CalendarReader {
  import opened Wrappers
  import opened Errors
  import opened Domain

  /** ical4j's Date (a date with no time of day) and DateTime values. */
  datatype DateValue = Date(millis: Instant) | DateTime(millis: Instant) {
    predicate HasTimeOfDay() { DateTime? }
  }

  /** One VEVENT component: each property is absent (None) or present. The
      end is what VEvent.getEndDate() reports. */
  datatype VEvent = VEvent(
    uid: Option<string>,
    summary: Option<string>,
    description: Option<string>,
    startDate: Option<DateValue>,
    endDate: Option<DateValue>)

  /** The source reads SUMMARY, DESCRIPTION, UID and DTSTART unconditionally,
      so a component lacking one of them raises NullPointerException. */
  predicate Complete(v: VEvent)
  {
    v.uid.Some? && v.summary.Some? && v.description.Some? && v.startDate.Some?
  }

  /** The CalendarEvent built from one complete VEVENT. */
  function ToCalendarEvent(v: VEvent): (e: CalendarEvent)
    requires Complete(v)
    ensures e.uuid == v.uid.value && e.summary == v.summary.value && e.description == v.description.value
    ensures e.startTime == v.startDate.value.millis
    ensures v.endDate.None? ==> e.endTime == e.startTime
    ensures v.endDate.Some? ==> e.endTime == v.endDate.value.millis
    ensures e.allDayEvent <==> !v.startDate.value.HasTimeOfDay()
  {
    var start := v.startDate.value;
    var end := if v.endDate.None? then start else v.endDate.value;
    CalendarEvent(v.uid.value, v.summary.value, v.description.value, start.millis, end.millis, !start.HasTimeOfDay())
  }

  /** The value parseCalendar computes: the events in document order, or the
      NullPointerException of the first incomplete component. */
  function Parsed(components: seq<VEvent>): (r: Result<seq<CalendarEvent>, Failure>)
    ensures r.Failure? ==> r.error == NullPointer
    ensures r.Success? ==> |r.value| == |components|
  {
    if forall i :: 0 <= i < |components| ==> Complete(components[i])
    then Success(seq(|components|, i requires 0 <= i < |components| && Complete(components[i]) =>
                                     ToCalendarEvent(components[i])))
    else Failure(NullPointer)
  }

  /** Parsing succeeds exactly when every component is complete, and then
      yields one event per component, in document order. */
  lemma ParsedIsOnePerComponent(components: seq<VEvent>)
    ensures Parsed(components).Success? <==> forall i :: 0 <= i < |components| ==> Complete(components[i])
    ensures Parsed(components).Success? ==>
              |Parsed(components).value| == |components|
              && forall i :: 0 <= i < |components| ==> Parsed(components).value[i] == ToCalendarEvent(components[i])
  {
  }

  /** The loop of parseCalendar, appending to a new CalendarData. */
  method ParseCalendar(components: seq<VEvent>) returns (r: Result<CalendarData, Failure>)
    ensures r.Failure? <==> exists i :: 0 <= i < |components| && !Complete(components[i])
    ensures r.Failure? ==> r.error == NullPointer
    ensures r.Success? ==> |r.value.events| == |components|
    ensures r.Success? ==> forall i :: 0 <= i < |components| ==> r.value.events[i] == ToCalendarEvent(components[i])
    ensures r.Success? ==> Parsed(components) == Success(r.value.events)
  {
    var calendarData := new CalendarData();
    var k := 0;
    while k < |components|
      invariant 0 <= k <= |components|
      invariant forall i :: 0 <= i < k ==> Complete(components[i])
      invariant |calendarData.events| == k
      invariant forall i :: 0 <= i < k ==> calendarData.events[i] == ToCalendarEvent(components[i])
    {
      var vEvent := components[k];
      if !Complete(vEvent) {
        return Failure(NullPointer);
      }
      calendarData.AddEvent(ToCalendarEvent(vEvent));
      k := k + 1;
    }
    ParsedIsOnePerComponent(components);
    assert calendarData.events == Parsed(components).value;
    r := Success(calendarData);
  }
}

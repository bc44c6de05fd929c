/** The domain value types: CalendarEvent, CalendarData and CalendarEvents. */
module Domain {

  /** Epoch milliseconds, the value of java.util.Date.getTime(). */
  type Instant = int

  /** An immutable event built once by the feed reader. Every field is
      non-null in the source; here no field can be null at all. */
  datatype CalendarEvent = CalendarEvent(
    uuid: string,
    summary: string,
    description: string,
    startTime: Instant,
    endTime: Instant,
    allDayEvent: bool)

  /** Lombok's generated equals for CalendarEvent. */
  function EventEquals(a: CalendarEvent, b: CalendarEvent): (r: bool)
    ensures r <==> (a.uuid == b.uuid && a.summary == b.summary && a.description == b.description
                    && a.startTime == b.startTime && a.endTime == b.endTime
                    && a.allDayEvent == b.allDayEvent)
  {
    a == b
  }

  /** Changing the description alone makes an event unequal to the original. */
  lemma DescriptionChangeIsVisible(e: CalendarEvent, d: string)
    requires d != e.description
    ensures !EventEquals(e, e.(description := d))
  {
  }

  /** The appendable event list produced by the feed reader. */
  class CalendarData {
    var events: seq<CalendarEvent>

    constructor ()
      ensures events == []
    {
      events := [];
    }

    method AddEvent(event: CalendarEvent)
      modifies this
      ensures events == old(events) + [event]
      ensures |events| == |old(events)| + 1
      ensures events[..|old(events)|] == old(events) && events[|old(events)|] == event
    {
      events := events + [event];
    }

    /** Lombok's generated equals: another CalendarData with an equal list. */
    predicate Equals(other: CalendarData?)
      reads this, other
    {
      other != null && events == other.events
    }
  }

  /** Equal CalendarData hold the same events at every position. */
  lemma EqualDataAgreeElementwise(a: CalendarData, b: CalendarData, i: int)
    requires a.Equals(b)
    requires 0 <= i < |a.events|
    ensures i < |b.events| && a.events[i] == b.events[i]
  {
  }

  /** List equality is order-sensitive: any reordering of the same events
      that changes the list makes the data unequal, and the two lists then
      differ at some position although they have the same length. */
  lemma DataEqualityIsOrderSensitive(a: CalendarData, b: CalendarData)
    requires multiset(a.events) == multiset(b.events) && a.events != b.events
    ensures !a.Equals(b)
    ensures |a.events| == |b.events|
    ensures exists i :: 0 <= i < |a.events| && a.events[i] != b.events[i]
  {
    assert |a.events| == |multiset(a.events)| == |multiset(b.events)| == |b.events|;
  }

  /** A read-only, copied list of events. */
  datatype CalendarEvents = CalendarEvents(events: seq<CalendarEvent>) {

    predicate IsEmpty()
    {
      |events| == 0
    }

    function Size(): (n: nat)
      ensures n == 0 <==> IsEmpty()
      ensures n == |events|
    {
      |events|
    }

    /** What iteration yields, in order. */
    function Elements(): seq<CalendarEvent>
    {
      events
    }
  }

  /** The constructor: the new value holds the argument's elements, in order. */
  function CopyOf(list: seq<CalendarEvent>): (r: CalendarEvents)
    ensures r.Elements() == list
    ensures r.Size() == |list|
  {
    CalendarEvents(list)
  }

  /** The copy is taken from the list's content at construction time, so
      appending to the source CalendarData afterwards leaves it unchanged. */
  method CopyIsDetached(data: CalendarData, e: CalendarEvent) returns (copy: CalendarEvents)
    modifies data
    ensures copy.Elements() == old(data.events)
    ensures data.events == old(data.events) + [e]
  {
    copy := CopyOf(data.events);
    data.AddEvent(e);
  }

  /** Equality of CalendarEvents is equality of content and order. */
  lemma EventsEqualityIsContent(a: CalendarEvents, b: CalendarEvents)
    ensures a == b <==> a.Elements() == b.Elements()
  {
  }
}

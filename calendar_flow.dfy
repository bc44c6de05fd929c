/** CalendarFlow: one (feed, target calendar) binding of a user, with the
    snapshot of the last successfully merged feed. */
module Flows {
  import opened Wrappers
  import opened Domain

  class CalendarFlow {
    const iCalUrl: string
    const googleCalendarName: string
    var previousData: CalendarData?

    constructor (iCalUrl: string, googleCalendarName: string)
      ensures this.iCalUrl == iCalUrl && this.googleCalendarName == googleCalendarName
      ensures previousData == null
    {
      this.iCalUrl := iCalUrl;
      this.googleCalendarName := googleCalendarName;
      previousData := null;
    }

    method SetPreviousData(data: CalendarData?)
      modifies this
      ensures previousData == data
    {
      previousData := data;
    }

    /** Lombok's toString with previousData excluded: it reads no mutable field. */
    function ToString(): string
    {
      "CalendarFlow(iCalUrl=" + iCalUrl + ", googleCalendarName=" + googleCalendarName + ")"
    }
  }

  /** Two flows with the same url and calendar name print the same, whatever their previousData. */
  lemma ToStringIgnoresPreviousData(a: CalendarFlow, b: CalendarFlow)
    requires a.iCalUrl == b.iCalUrl && a.googleCalendarName == b.googleCalendarName
    ensures a.ToString() == b.ToString()
  {
  }

  /** The value of a flow's previousData: null, or the list it holds. */
  ghost function Snapshot(f: CalendarFlow): Option<seq<CalendarEvent>>
    reads f, f.previousData
  {
    if f.previousData == null then None else Some(f.previousData.events)
  }

  ghost function DataObjects(flows: seq<CalendarFlow>): set<object>
    reads set f | f in flows
  {
    set f | f in flows && f.previousData != null :: f.previousData
  }

  ghost function Snapshots(flows: seq<CalendarFlow>): (r: seq<Option<seq<CalendarEvent>>>)
    reads (set f | f in flows), DataObjects(flows)
    ensures |r| == |flows|
  {
    seq(|flows|, i reads (set f | f in flows), DataObjects(flows) requires 0 <= i < |flows| => Snapshot(flows[i]))
  }

  /** The target calendar names, in binding order. */
  function Names(flows: seq<CalendarFlow>): (r: seq<string>)
    ensures |r| == |flows|
    ensures forall i :: 0 <= i < |flows| ==> r[i] == flows[i].googleCalendarName
  {
    seq(|flows|, i requires 0 <= i < |flows| => flows[i].googleCalendarName)
  }
}

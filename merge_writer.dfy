/** The full-replacement merge shared by CalendarsSynchronizer, UserFlow and
    CalendarWriter: resolve the calendar by name, delete the listed events
    that carry the origin tag, then insert one tagged event per input event. */
module MergeWriter {
  import opened Wrappers
  import opened Errors
  import opened Domain
  import opened Remote

  /** The private extended property that marks events this program created. */
  const UuidPropertyName := "ical-to-google-calendar-uuid"

  /** The listing bound set by UserFlow and CalendarWriter. */
  const MaxListedEvents := 2500

  /** The listing bound CalendarsSynchronizer gets by setting none: the
      documented default of maxResults for events.list. */
  const DefaultListedEvents := 250

  /** Whether each remote call of one merge throws, and with what. */
  datatype MergeFaults = MergeFaults(
    calendarList: Option<Failure>,
    eventList: Option<Failure>,
    deleteBatch: Option<Failure>,
    insertBatch: Option<Failure>)

  const NoFaults := MergeFaults(None, None, None, None)

  /** getICalUuid: the origin tag of a remote event, null when the extended
      properties, the private properties or the key are missing. */
  function GetICalUuid(b: EventBody): (r: Option<string>)
    ensures r.Some? <==> && b.extendedProperties.Some?
                         && b.extendedProperties.value.privateProperties.Some?
                         && UuidPropertyName in b.extendedProperties.value.privateProperties.value
    ensures r.Some? ==> r.value == b.extendedProperties.value.privateProperties.value[UuidPropertyName]
  {
    match b.extendedProperties
    case None => None
    case Some(ext) =>
      match ext.privateProperties
      case None => None
      case Some(props) => if UuidPropertyName in props then Some(props[UuidPropertyName]) else None
  }

  predicate Tagged(e: RemoteEvent)
  {
    GetICalUuid(e.body).Some?
  }

  /** The position of the first calendar whose summary equals the name. */
  function FindCalendar(list: seq<CalendarListEntry>, name: string): (r: Option<nat>)
    ensures r.Some? ==> r.value < |list| && list[r.value].summary == name
    ensures r.Some? ==> forall j :: 0 <= j < r.value ==> list[j].summary != name
    ensures r.None? <==> forall j :: 0 <= j < |list| ==> list[j].summary != name
  {
    if list == [] then None
    else if list[0].summary == name then Some(0)
    else match FindCalendar(list[1..], name)
      case None => None
      case Some(k) => Some(k + 1)
  }

  /** getGoogleCalendar: findFirst over the calendar list, or IllegalArgumentException. */
  function GetGoogleCalendar(list: seq<CalendarListEntry>, name: string): (r: Result<CalendarListEntry, Failure>)
    ensures r.Failure? <==> forall j :: 0 <= j < |list| ==> list[j].summary != name
    ensures r.Failure? ==> r.error == IllegalArgument
    ensures r.Success? ==> FindCalendar(list, name).Some? && r.value == list[FindCalendar(list, name).value]
  {
    match FindCalendar(list, name)
    case None => Failure(IllegalArgument)
    case Some(k) => Success(list[k])
  }

  // ----- delete phase -----

  /** The ids the delete loop queues: those of the tagged listed events, in order. */
  function TaggedIds(listing: seq<RemoteEvent>): (r: seq<EventId>)
    ensures |r| <= |listing|
    ensures (forall i :: 0 <= i < |listing| ==> !Tagged(listing[i])) ==> r == []
  {
    if listing == [] then []
    else
      var last := listing[|listing| - 1];
      TaggedIds(listing[..|listing| - 1]) + (if Tagged(last) then [last.id] else [])
  }

  /** An id is queued exactly when some tagged listed event has it. */
  lemma {:induction false} TaggedIdsExact(listing: seq<RemoteEvent>, id: EventId)
    ensures id in TaggedIds(listing) <==> exists i :: 0 <= i < |listing| && listing[i].id == id && Tagged(listing[i])
  {
    if listing != [] {
      var n := |listing| - 1;
      TaggedIdsExact(listing[..n], id);
      if id in TaggedIds(listing[..n]) {
        var i :| 0 <= i < n && listing[..n][i].id == id && Tagged(listing[..n][i]);
        assert listing[i] == listing[..n][i];
      }
      if exists i :: 0 <= i < |listing| && listing[i].id == id && Tagged(listing[i]) {
        var i :| 0 <= i < |listing| && listing[i].id == id && Tagged(listing[i]);
        if i < n {
          assert listing[..n][i] == listing[i];
        }
      }
    }
  }

  /** The loop of deleteExistingEvents that queues one delete per tagged event. */
  method DeleteQueue(listing: seq<RemoteEvent>) returns (ids: seq<EventId>)
    ensures ids == TaggedIds(listing)
    ensures forall id :: id in ids <==> exists i :: 0 <= i < |listing| && listing[i].id == id && Tagged(listing[i])
  {
    ids := [];
    var k := 0;
    while k < |listing|
      invariant 0 <= k <= |listing|
      invariant ids == TaggedIds(listing[..k])
    {
      assert listing[..k + 1][..k] == listing[..k];
      if GetICalUuid(listing[k].body).Some? {
        ids := ids + [listing[k].id];
      }
      k := k + 1;
    }
    assert listing[..k] == listing;
    forall id ensures id in ids <==> exists i :: 0 <= i < |listing| && listing[i].id == id && Tagged(listing[i]) {
      TaggedIdsExact(listing, id);
    }
  }

  // ----- insert phase -----

  /** The event createEvents builds for one CalendarEvent. */
  function ToEventBody(e: CalendarEvent): (b: EventBody)
    ensures GetICalUuid(b) == Some(e.uuid)
    ensures b.summary == e.summary && b.description == e.description
    ensures (b.start.Date? <==> e.allDayEvent) && (b.end.Date? <==> e.allDayEvent)
    ensures b.start.millis == e.startTime && b.end.millis == e.endTime
  {
    var props := map[UuidPropertyName := e.uuid];
    EventBody(
      e.summary,
      e.description,
      if e.allDayEvent then Date(e.startTime) else DateTime(e.startTime),
      if e.allDayEvent then Date(e.endTime) else DateTime(e.endTime),
      Some(ExtendedProperties(Some(props))))
  }

  function Bodies(events: seq<CalendarEvent>): (r: seq<EventBody>)
    ensures |r| == |events|
    ensures forall i :: 0 <= i < |events| ==> GetICalUuid(r[i]) == Some(events[i].uuid)
  {
    seq(|events|, i requires 0 <= i < |events| => ToEventBody(events[i]))
  }

  /** The loop of createEvents that queues one insert per event, in order. */
  method InsertBatch(events: seq<CalendarEvent>) returns (batch: seq<EventBody>)
    ensures batch == Bodies(events)
    ensures forall i :: 0 <= i < |events| ==>
              && GetICalUuid(batch[i]) == Some(events[i].uuid)
              && batch[i].summary == events[i].summary
              && batch[i].description == events[i].description
              && (batch[i].start.Date? <==> events[i].allDayEvent)
              && (batch[i].end.Date? <==> events[i].allDayEvent)
              && batch[i].start.millis == events[i].startTime
              && batch[i].end.millis == events[i].endTime
  {
    batch := [];
    var k := 0;
    while k < |events|
      invariant 0 <= k <= |events|
      invariant |batch| == k
      invariant forall i :: 0 <= i < k ==> batch[i] == ToEventBody(events[i])
    {
      batch := batch + [ToEventBody(events[k])];
      k := k + 1;
    }
    assert batch == Bodies(events);
  }

  // ----- the merge -----

  datatype MergeResult = MergeResult(outcome: Outcome<Failure>, account: Account)

  /** deleteExistingEvents: list a page, queue deletes of the tagged events,
      execute (skipped for an empty page). */
  function DeletePhase(a: Account, id: CalendarId, maxResults: nat, faults: MergeFaults): (r: MergeResult)
    ensures r.outcome.Fail? <==> faults.eventList.Some? || (Page(a, id, maxResults) != [] && faults.deleteBatch.Some?)
    ensures r.outcome.Fail? ==> r.account == a
    ensures r.account.calendarList == a.calendarList && r.account.nextId == a.nextId
    ensures forall other :: other != id ==> EventsOf(r.account, other) == EventsOf(a, other)
    ensures forall e :: e in EventsOf(r.account, id) ==> e in EventsOf(a, id)
  {
    if faults.eventList.Some? then MergeResult(Fail(faults.eventList.value), a)
    else
      var listing := Page(a, id, maxResults);
      if listing == [] then MergeResult(Pass, a)
      else if faults.deleteBatch.Some? then MergeResult(Fail(faults.deleteBatch.value), a)
      else MergeResult(Pass, DeleteEvents(a, id, TaggedIds(listing)))
  }

  /** createEvents: queue one insert per event and execute (skipped for no events). */
  function InsertPhase(a: Account, id: CalendarId, events: seq<CalendarEvent>, faults: MergeFaults): (r: MergeResult)
    ensures r.outcome.Fail? <==> events != [] && faults.insertBatch.Some?
    ensures r.outcome.Fail? ==> r.account == a
    ensures r.account.calendarList == a.calendarList
    ensures forall other :: other != id ==> EventsOf(r.account, other) == EventsOf(a, other)
    ensures r.outcome.Pass? ==> r.account.nextId == a.nextId + |events|
    ensures r.outcome.Pass? ==> |EventsOf(r.account, id)| == |EventsOf(a, id)| + |events|
  {
    if events == [] then MergeResult(Pass, a)
    else if faults.insertBatch.Some? then MergeResult(Fail(faults.insertBatch.value), a)
    else MergeResult(Pass, InsertEvents(a, id, Bodies(events)))
  }

  /** mergeCalendarDataToGoogleCalendar: resolve, delete, insert, in that order. */
  function MergeSpec(a: Account, events: seq<CalendarEvent>, name: string, maxResults: nat, faults: MergeFaults): (r: MergeResult)
    ensures faults.calendarList.Some? || FindCalendar(a.calendarList, name).None? ==> r.outcome.Fail? && r.account == a
    ensures r.account.calendarList == a.calendarList
    ensures FindCalendar(a.calendarList, name).Some? ==>
              forall other :: other != a.calendarList[FindCalendar(a.calendarList, name).value].id ==>
                EventsOf(r.account, other) == EventsOf(a, other)
  {
    if faults.calendarList.Some? then MergeResult(Fail(faults.calendarList.value), a)
    else match FindCalendar(a.calendarList, name)
      case None => MergeResult(Fail(IllegalArgument), a)
      case Some(k) =>
        var d := DeletePhase(a, a.calendarList[k].id, maxResults, faults);
        if d.outcome.Fail? then d else InsertPhase(d.account, a.calendarList[k].id, events, faults)
  }

  method DeleteExistingEvents(service: CalendarService, id: CalendarId, maxResults: nat, faults: MergeFaults)
    returns (r: Outcome<Failure>)
    modifies service
    ensures MergeResult(r, service.account) == DeletePhase(old(service.account), id, maxResults, faults)
  {
    var events := service.ListEvents(id, maxResults, faults.eventList);
    if events.Failure? {
      return Fail(events.error);
    }
    if events.value == [] {
      return Pass;
    }
    var ids := DeleteQueue(events.value);
    r := service.ExecuteDeletes(id, ids, faults.deleteBatch);
  }

  method CreateEvents(service: CalendarService, events: seq<CalendarEvent>, id: CalendarId, faults: MergeFaults)
    returns (r: Outcome<Failure>)
    modifies service
    ensures MergeResult(r, service.account) == InsertPhase(old(service.account), id, events, faults)
  {
    if events == [] {
      return Pass;
    }
    var batch := InsertBatch(events);
    r := service.ExecuteInserts(id, batch, faults.insertBatch);
  }

  method Merge(service: CalendarService, events: seq<CalendarEvent>, name: string, maxResults: nat, faults: MergeFaults)
    returns (r: Outcome<Failure>)
    modifies service
    ensures MergeResult(r, service.account) == MergeSpec(old(service.account), events, name, maxResults, faults)
  {
    var calendars := service.ListCalendars(faults.calendarList);
    if calendars.Failure? {
      return Fail(calendars.error);
    }
    var googleCalendar := GetGoogleCalendar(calendars.value, name);
    if googleCalendar.Failure? {
      return Fail(googleCalendar.error);
    }
    var googleCalendarId := googleCalendar.value.id;
    r := DeleteExistingEvents(service, googleCalendarId, maxResults, faults);
    if r.Fail? {
      return;
    }
    r := CreateEvents(service, events, googleCalendarId, faults);
  }

  // ----- properties of the merge -----

  /** The events of a sequence whose taggedness is the given one, in order. */
  function Select(evs: seq<RemoteEvent>, tagged: bool): (r: seq<RemoteEvent>)
    ensures |r| <= |evs|
  {
    if evs == [] then []
    else (if Tagged(evs[0]) == tagged then [evs[0]] else []) + Select(evs[1..], tagged)
  }

  lemma {:induction false} SelectAppend(x: seq<RemoteEvent>, y: seq<RemoteEvent>, tagged: bool)
    ensures Select(x + y, tagged) == Select(x, tagged) + Select(y, tagged)
  {
    if x == [] {
      assert x + y == y;
    } else {
      var head := if Tagged(x[0]) == tagged then [x[0]] else [];
      assert (x + y)[0] == x[0];
      assert (x + y)[1..] == x[1..] + y;
      assert Select(x + y, tagged) == head + Select(x[1..] + y, tagged);
      SelectAppend(x[1..], y, tagged);
      assert Select(x, tagged) == head + Select(x[1..], tagged);
    }
  }

  lemma {:induction false} SelectUniform(evs: seq<RemoteEvent>, tagged: bool)
    requires forall i :: 0 <= i < |evs| ==> Tagged(evs[i]) == tagged
    ensures Select(evs, tagged) == evs
    ensures Select(evs, !tagged) == []
  {
    if evs != [] {
      SelectUniform(evs[1..], tagged);
    }
  }

  lemma {:induction false} SelectIdempotent(evs: seq<RemoteEvent>, tagged: bool)
    ensures Select(Select(evs, tagged), tagged) == Select(evs, tagged)
    ensures Select(Select(evs, tagged), !tagged) == []
  {
    if evs != [] {
      SelectIdempotent(evs[1..], tagged);
      if Tagged(evs[0]) == tagged {
        assert Select(evs, tagged) == [evs[0]] + Select(evs[1..], tagged);
        assert [evs[0]][1..] == [];
        assert Select([evs[0]], tagged) == [evs[0]];
        assert Select([evs[0]], !tagged) == [];
        SelectAppend([evs[0]], Select(evs[1..], tagged), tagged);
        SelectAppend([evs[0]], Select(evs[1..], tagged), !tagged);
      } else {
        assert Select(evs, tagged) == [] + Select(evs[1..], tagged) == Select(evs[1..], tagged);
      }
    }
  }

  /** Deleting ids that pick out exactly the tagged events leaves the untagged ones. */
  lemma {:induction false} WithoutTaggedIsUntagged(evs: seq<RemoteEvent>, ids: seq<EventId>)
    requires forall i :: 0 <= i < |evs| ==> (evs[i].id in ids <==> Tagged(evs[i]))
    ensures Without(evs, ids) == Select(evs, false)
  {
    if evs != [] {
      WithoutTaggedIsUntagged(evs[1..], ids);
    }
  }

  /** An event whose id is not queued survives the delete batch. */
  lemma {:induction false} WithoutKeeps(evs: seq<RemoteEvent>, ids: seq<EventId>, j: nat)
    requires j < |evs| && evs[j].id !in ids
    ensures evs[j] in Without(evs, ids)
  {
    if j > 0 {
      WithoutKeeps(evs[1..], ids, j - 1);
    }
  }

  /** The inserted events are all tagged; the k-th carries the k-th uuid. */
  lemma InsertedAreTagged(events: seq<CalendarEvent>, from: EventId)
    ensures forall k :: 0 <= k < |events| ==>
              Tagged(Assign(Bodies(events), from)[k])
              && GetICalUuid(Assign(Bodies(events), from)[k].body) == Some(events[k].uuid)
  {
  }

  /** With all tagged events on the first page and ids unique, the delete
      phase removes exactly the tagged events. */
  lemma DeletePhaseKeepsUntagged(a: Account, id: CalendarId, maxResults: nat)
    requires Wf(a)
    requires |EventsOf(a, id)| <= maxResults
    ensures EventsOf(DeletePhase(a, id, maxResults, NoFaults).account, id) == Select(EventsOf(a, id), false)
    ensures DeletePhase(a, id, maxResults, NoFaults).outcome == Pass
  {
    var evs := EventsOf(a, id);
    if evs != [] {
      assert Page(a, id, maxResults) == evs;
      forall i | 0 <= i < |evs| ensures evs[i].id in TaggedIds(evs) <==> Tagged(evs[i]) {
        TaggedIdsExact(evs, evs[i].id);
        assert id in a.events;
      }
      WithoutTaggedIsUntagged(evs, TaggedIds(evs));
    }
  }

  /** Full-replacement correctness: after a successful merge the tagged events
      of the resolved calendar are exactly the new ones, one per input event
      with its uuid, and the untagged events are unchanged, in order. */
  lemma MergeReplacesTaggedEvents(a: Account, events: seq<CalendarEvent>, name: string, maxResults: nat)
    requires Wf(a)
    requires FindCalendar(a.calendarList, name).Some?
    requires |EventsOf(a, a.calendarList[FindCalendar(a.calendarList, name).value].id)| <= maxResults
    ensures var id := a.calendarList[FindCalendar(a.calendarList, name).value].id;
            var m := MergeSpec(a, events, name, maxResults, NoFaults);
            && m.outcome == Pass
            && Select(EventsOf(m.account, id), false) == Select(EventsOf(a, id), false)
            && Select(EventsOf(m.account, id), true) == Assign(Bodies(events), a.nextId)
            && |Select(EventsOf(m.account, id), true)| == |events|
            && (forall k :: 0 <= k < |events| ==>
                  GetICalUuid(Select(EventsOf(m.account, id), true)[k].body) == Some(events[k].uuid))
            && (forall other :: other != id ==> EventsOf(m.account, other) == EventsOf(a, other))
  {
    var id := a.calendarList[FindCalendar(a.calendarList, name).value].id;
    var d := DeletePhase(a, id, maxResults, NoFaults);
    DeletePhaseKeepsUntagged(a, id, maxResults);
    var kept := Select(EventsOf(a, id), false);
    var added := Assign(Bodies(events), a.nextId);
    var m := MergeSpec(a, events, name, maxResults, NoFaults);
    assert m == InsertPhase(d.account, id, events, NoFaults);
    assert EventsOf(m.account, id) == kept + added by {
      if events == [] {
        assert kept + added == kept;
      }
    }
    ReplacedSelects(EventsOf(a, id), events, a.nextId);
    InsertedAreTagged(events, a.nextId);
  }

  /** Untagged events followed by a freshly inserted batch: selecting by the
      tag separates the two again. */
  lemma ReplacedSelects(before: seq<RemoteEvent>, events: seq<CalendarEvent>, from: EventId)
    ensures var kept := Select(before, false);
            var added := Assign(Bodies(events), from);
            Select(kept + added, false) == kept && Select(kept + added, true) == added
  {
    var kept := Select(before, false);
    var added := Assign(Bodies(events), from);
    InsertedAreTagged(events, from);
    SelectIdempotent(before, false);
    SelectUniform(added, true);
    SelectAppend(kept, added, false);
    SelectAppend(kept, added, true);
  }

  /** An empty feed clears the calendar of tagged events and inserts nothing. */
  lemma EmptyFeedClearsTaggedEvents(a: Account, name: string, maxResults: nat)
    requires Wf(a)
    requires FindCalendar(a.calendarList, name).Some?
    requires |EventsOf(a, a.calendarList[FindCalendar(a.calendarList, name).value].id)| <= maxResults
    ensures var id := a.calendarList[FindCalendar(a.calendarList, name).value].id;
            var m := MergeSpec(a, [], name, maxResults, NoFaults);
            && m.outcome == Pass
            && EventsOf(m.account, id) == Select(EventsOf(a, id), false)
            && m.account.nextId == a.nextId
  {
    var id := a.calendarList[FindCalendar(a.calendarList, name).value].id;
    DeletePhaseKeepsUntagged(a, id, maxResults);
  }

  /** No calendar with the name: the merge fails with IllegalArgumentException
      before any delete or insert. */
  lemma MergeNotFoundWritesNothing(a: Account, events: seq<CalendarEvent>, name: string, maxResults: nat, faults: MergeFaults)
    requires faults.calendarList.None?
    requires forall j :: 0 <= j < |a.calendarList| ==> a.calendarList[j].summary != name
    ensures MergeSpec(a, events, name, maxResults, faults) == MergeResult(Fail(IllegalArgument), a)
  {
  }

  /** The merge keeps the service's id guarantees whatever the faults, so
      the premise of MergeReplacesTaggedEvents holds again for the next run. */
  lemma MergeKeepsWf(a: Account, events: seq<CalendarEvent>, name: string, maxResults: nat, faults: MergeFaults)
    requires Wf(a)
    ensures Wf(MergeSpec(a, events, name, maxResults, faults).account)
  {
    if faults.calendarList.None? && FindCalendar(a.calendarList, name).Some? {
      var id := a.calendarList[FindCalendar(a.calendarList, name).value].id;
      var d := DeletePhase(a, id, maxResults, faults);
      if faults.eventList.None? && Page(a, id, maxResults) != [] && faults.deleteBatch.None? {
        DeleteEventsKeepsWf(a, id, TaggedIds(Page(a, id, maxResults)));
      }
      if d.outcome.Pass? && events != [] && faults.insertBatch.None? {
        InsertEventsKeepsWf(d.account, id, Bodies(events));
      }
    }
  }

  /** A failing insert batch still leaves the delete phase applied: deletes run first. */
  lemma InsertFailureFollowsDeletes(a: Account, events: seq<CalendarEvent>, name: string, maxResults: nat, f: Failure)
    requires FindCalendar(a.calendarList, name).Some? && events != []
    ensures var id := a.calendarList[FindCalendar(a.calendarList, name).value].id;
            var faults := NoFaults.(insertBatch := Some(f));
            MergeSpec(a, events, name, maxResults, faults) == MergeResult(Fail(f), DeletePhase(a, id, maxResults, faults).account)
  {
  }

  /** The listing bound: a tagged event beyond the first page is not deleted. */
  lemma StaleTaggedEventSurvives(a: Account, events: seq<CalendarEvent>, name: string, maxResults: nat, j: nat)
    requires Wf(a)
    requires FindCalendar(a.calendarList, name).Some?
    requires var id := a.calendarList[FindCalendar(a.calendarList, name).value].id;
             maxResults <= j < |EventsOf(a, id)|
    ensures var id := a.calendarList[FindCalendar(a.calendarList, name).value].id;
            EventsOf(a, id)[j] in EventsOf(MergeSpec(a, events, name, maxResults, NoFaults).account, id)
  {
    var id := a.calendarList[FindCalendar(a.calendarList, name).value].id;
    var evs := EventsOf(a, id);
    assert id in a.events;
    var page := Page(a, id, maxResults);
    assert page == evs[..maxResults];
    if page != [] {
      TaggedIdsExact(page, evs[j].id);
      WithoutKeeps(evs, TaggedIds(page), j);
    }
  }
}

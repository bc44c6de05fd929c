/** An abstract Google account, standing in for the Google Calendar API
    client: the calendar list is a sequence of (summary, id) entries and each
    calendar a sequence of its non-deleted events. Each remote call takes a
    fault input that decides whether the call throws. */
module Remote {
  import opened Wrappers
  import opened Errors

  type CalendarId = string

  /** Server-assigned event ids, modelled as the values of a counter. */
  type EventId = nat

  datatype CalendarListEntry = CalendarListEntry(summary: string, id: CalendarId)

  /** EventDateTime with either its date (all-day) or its dateTime set. */
  datatype EventTime = Date(millis: int) | DateTime(millis: int)

  /** Event.ExtendedProperties; its private map may be null. */
  datatype ExtendedProperties = ExtendedProperties(privateProperties: Option<map<string, string>>)

  /** The client-side content of an event, as sent by an insert. */
  datatype EventBody = EventBody(
    summary: string,
    description: string,
    start: EventTime,
    end: EventTime,
    extendedProperties: Option<ExtendedProperties>)

  datatype RemoteEvent = RemoteEvent(id: EventId, body: EventBody)

  datatype Account = Account(
    calendarList: seq<CalendarListEntry>,
    events: map<CalendarId, seq<RemoteEvent>>,
    nextId: EventId)

  /** The non-deleted events of a calendar (none for an unknown id). */
  function EventsOf(a: Account, id: CalendarId): seq<RemoteEvent>
  {
    if id in a.events then a.events[id] else []
  }

  /** What the service guarantees about its ids: every event id was handed
      out by the counter, and no id occurs twice in one calendar. */
  ghost predicate Wf(a: Account)
  {
    forall id :: id in a.events ==> UniqueIds(a.events[id]) && IdsBelow(a.events[id], a.nextId)
  }

  ghost predicate UniqueIds(evs: seq<RemoteEvent>)
  {
    forall i, j :: 0 <= i < j < |evs| ==> evs[i].id != evs[j].id
  }

  ghost predicate IdsBelow(evs: seq<RemoteEvent>, bound: EventId)
  {
    forall i :: 0 <= i < |evs| ==> evs[i].id < bound
  }

  /** events.list with maxResults: the first page of non-deleted events. */
  function Page(a: Account, id: CalendarId, maxResults: nat): (page: seq<RemoteEvent>)
    ensures |page| <= maxResults
    ensures |page| <= |EventsOf(a, id)| && page == EventsOf(a, id)[..|page|]
    ensures |EventsOf(a, id)| <= maxResults ==> page == EventsOf(a, id)
  {
    var all := EventsOf(a, id);
    if |all| <= maxResults then all else all[..maxResults]
  }

  /** The events that survive deleting every event whose id is in ids. */
  function Without(evs: seq<RemoteEvent>, ids: seq<EventId>): (r: seq<RemoteEvent>)
    ensures |r| <= |evs|
  {
    if evs == [] then []
    else (if evs[0].id in ids then [] else [evs[0]]) + Without(evs[1..], ids)
  }

  /** The events an insert batch creates: fresh ids from the counter. */
  function Assign(bodies: seq<EventBody>, from: EventId): (r: seq<RemoteEvent>)
    ensures |r| == |bodies|
    ensures forall k :: 0 <= k < |r| ==> r[k] == RemoteEvent(from + k, bodies[k])
  {
    seq(|bodies|, k requires 0 <= k < |bodies| => RemoteEvent(from + k, bodies[k]))
  }

  /** A delete batch that succeeded: only the calendar's event list changes. */
  function DeleteEvents(a: Account, id: CalendarId, ids: seq<EventId>): (r: Account)
    ensures r.calendarList == a.calendarList && r.nextId == a.nextId
    ensures forall other :: other != id ==> EventsOf(r, other) == EventsOf(a, other)
    ensures forall e :: e in EventsOf(r, id) <==> e in EventsOf(a, id) && e.id !in ids
  {
    WithoutMembers(EventsOf(a, id), ids);
    a.(events := a.events[id := Without(EventsOf(a, id), ids)])
  }

  /** An insert batch that succeeded: the new events are appended. */
  function InsertEvents(a: Account, id: CalendarId, bodies: seq<EventBody>): (r: Account)
    ensures r.calendarList == a.calendarList && r.nextId == a.nextId + |bodies|
    ensures forall other :: other != id ==> EventsOf(r, other) == EventsOf(a, other)
    ensures |EventsOf(r, id)| == |EventsOf(a, id)| + |bodies|
    ensures EventsOf(r, id)[..|EventsOf(a, id)|] == EventsOf(a, id)
    ensures forall k :: 0 <= k < |bodies| ==> EventsOf(r, id)[|EventsOf(a, id)| + k].body == bodies[k]
  {
    a.(events := a.events[id := EventsOf(a, id) + Assign(bodies, a.nextId)],
       nextId := a.nextId + |bodies|)
  }

  /** Without keeps exactly the events whose id is not queued. */
  lemma {:induction false} WithoutMembers(evs: seq<RemoteEvent>, ids: seq<EventId>)
    ensures forall e :: e in Without(evs, ids) <==> e in evs && e.id !in ids
  {
    if evs != [] {
      WithoutMembers(evs[1..], ids);
      assert evs == [evs[0]] + evs[1..];
    }
  }

  /** Without keeps the events it does not delete in order, so an id
      stays unique. */
  lemma {:induction false} WithoutKeepsUniqueIds(evs: seq<RemoteEvent>, ids: seq<EventId>)
    requires UniqueIds(evs)
    ensures UniqueIds(Without(evs, ids))
  {
    if evs != [] {
      assert UniqueIds(evs[1..]) by {
        forall i, j | 0 <= i < j < |evs[1..]| ensures evs[1..][i].id != evs[1..][j].id {
          assert evs[1..][i] == evs[i + 1] && evs[1..][j] == evs[j + 1];
        }
      }
      WithoutKeepsUniqueIds(evs[1..], ids);
      WithoutMembers(evs[1..], ids);
      var rest := Without(evs[1..], ids);
      if evs[0].id !in ids {
        forall j | 0 <= j < |rest| ensures rest[j].id != evs[0].id {
          assert rest[j] in evs[1..];
          var k :| 0 <= k < |evs[1..]| && evs[1..][k] == rest[j];
          assert evs[k + 1] == rest[j];
        }
        assert Without(evs, ids) == [evs[0]] + rest;
      } else {
        assert Without(evs, ids) == rest;
      }
    }
  }

  /** A successful delete batch keeps the service's id guarantees. */
  lemma DeleteEventsKeepsWf(a: Account, id: CalendarId, ids: seq<EventId>)
    requires Wf(a)
    ensures Wf(DeleteEvents(a, id, ids))
  {
    var r := DeleteEvents(a, id, ids);
    WithoutKeepsUniqueIds(EventsOf(a, id), ids);
    WithoutMembers(EventsOf(a, id), ids);
    var kept := Without(EventsOf(a, id), ids);
    forall i | 0 <= i < |kept| ensures kept[i].id < a.nextId {
      assert kept[i] in EventsOf(a, id);
    }
    assert r.events[id] == kept;
  }

  /** A successful insert batch keeps the service's id guarantees: the new
      ids are fresh and distinct, and the counter moves past them. */
  lemma InsertEventsKeepsWf(a: Account, id: CalendarId, bodies: seq<EventBody>)
    requires Wf(a)
    ensures Wf(InsertEvents(a, id, bodies))
  {
    var r := InsertEvents(a, id, bodies);
    var evs := EventsOf(a, id) + Assign(bodies, a.nextId);
    var n := |EventsOf(a, id)|;
    forall i | 0 <= i < |evs| ensures evs[i].id < r.nextId && (i >= n ==> evs[i].id == a.nextId + (i - n)) &&
                                        (i < n ==> evs[i].id < a.nextId) {
      if i < n {
        assert evs[i] == EventsOf(a, id)[i];
      } else {
        assert evs[i] == Assign(bodies, a.nextId)[i - n];
      }
    }
    assert UniqueIds(evs);
    assert r.events[id] == evs;
    forall other | other in r.events ensures UniqueIds(r.events[other]) && IdsBelow(r.events[other], r.nextId) {
      if other != id {
        assert r.events[other] == a.events[other];
      }
    }
  }

  /** The Google Calendar service handle. A failing batch is modelled as
      applying none of its items. */
  class CalendarService {
    var account: Account

    constructor (initial: Account)
      ensures account == initial
    {
      account := initial;
    }

    /** calendarList().list().execute().getItems() */
    method ListCalendars(fault: Option<Failure>) returns (r: Result<seq<CalendarListEntry>, Failure>)
      ensures fault.Some? ==> r == Failure(fault.value)
      ensures fault.None? ==> r == Success(account.calendarList)
    {
      if fault.Some? {
        return Failure(fault.value);
      }
      r := Success(account.calendarList);
    }

    /** events().list(id).setMaxResults(maxResults).setShowDeleted(false).execute().getItems() */
    method ListEvents(id: CalendarId, maxResults: nat, fault: Option<Failure>) returns (r: Result<seq<RemoteEvent>, Failure>)
      ensures fault.Some? ==> r == Failure(fault.value)
      ensures fault.None? ==> r == Success(Page(account, id, maxResults))
    {
      if fault.Some? {
        return Failure(fault.value);
      }
      r := Success(Page(account, id, maxResults));
    }

    /** Executes a batch of deletes queued for one calendar. */
    method ExecuteDeletes(id: CalendarId, ids: seq<EventId>, fault: Option<Failure>) returns (r: Outcome<Failure>)
      modifies this
      ensures fault.Some? ==> r == Fail(fault.value) && account == old(account)
      ensures fault.None? ==> r == Pass && account == DeleteEvents(old(account), id, ids)
    {
      if fault.Some? {
        return Fail(fault.value);
      }
      account := DeleteEvents(account, id, ids);
      r := Pass;
    }

    /** Executes a batch of inserts queued for one calendar. */
    method ExecuteInserts(id: CalendarId, bodies: seq<EventBody>, fault: Option<Failure>) returns (r: Outcome<Failure>)
      modifies this
      ensures fault.Some? ==> r == Fail(fault.value) && account == old(account)
      ensures fault.None? ==> r == Pass && account == InsertEvents(old(account), id, bodies)
    {
      if fault.Some? {
        return Fail(fault.value);
      }
      account := InsertEvents(account, id, bodies);
      r := Pass;
    }
  }
}

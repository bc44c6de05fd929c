/** The per-binding step both sync revisions share: read the feed, skip an
    unchanged one, otherwise merge it. Fetching is I/O: each binding's feed
    outcome is an input, as are the faults of its remote calls. */
module Sync {
  import opened Wrappers
  import opened Errors
  import opened Domain
  import opened Remote
  import opened MergeWriter
  import opened CalendarReader
  import opened Flows

  /** IOUtils.toString(new URL(url)) followed by ical4j's CalendarBuilder. */
  datatype FeedOutcome = Fetched(components: seq<VEvent>) | FetchFailed | ParseFailed

  /** What the outside world does while one binding is processed. */
  datatype BindingEnv = BindingEnv(feed: FeedOutcome, faults: MergeFaults, resetFails: bool)

  type Snapshot = Option<seq<CalendarEvent>>

  /** The parsed feed, or the exception fetching or parsing raised. */
  function FeedData(feed: FeedOutcome): Result<seq<CalendarEvent>, Failure>
  {
    match feed
    case FetchFailed => Failure(Io)
    case ParseFailed => Failure(Parser)
    case Fetched(components) => Parsed(components)
  }

  /** How the try block around one binding ended. */
  datatype Attempt = Unchanged | Synchronized(data: seq<CalendarEvent>) | Threw(failure: Failure)

  datatype AttemptResult = AttemptResult(attempt: Attempt, account: Account)

  /** The try block of one binding: readICalendar, then merge unless unchanged. */
  function TryBinding(previous: Snapshot, a: Account, name: string, maxResults: nat, env: BindingEnv): (r: AttemptResult)
    // an unchanged feed makes no remote call
    ensures r.attempt.Unchanged? ==> r.account == a && FeedData(env.feed).Success? && previous == Some(FeedData(env.feed).value)
    ensures r.account.calendarList == a.calendarList
  {
    match FeedData(env.feed)
    case Failure(f) => AttemptResult(Threw(f), a)
    case Success(current) =>
      if previous.Some? && previous.value == current then AttemptResult(Unchanged, a)
      else
        var m := MergeSpec(a, current, name, maxResults, env.faults);
        AttemptResult(if m.outcome.Pass? then Synchronized(current) else Threw(m.outcome.error), m.account)
  }

  /** Change detection: an unchanged feed makes no remote call; a changed one
      (even in one field of one event) is merged. */
  lemma ChangeDetection(previous: Snapshot, a: Account, name: string, maxResults: nat, env: BindingEnv)
    requires FeedData(env.feed).Success?
    ensures previous == Some(FeedData(env.feed).value) ==>
              TryBinding(previous, a, name, maxResults, env) == AttemptResult(Unchanged, a)
    ensures previous != Some(FeedData(env.feed).value) ==>
              TryBinding(previous, a, name, maxResults, env).account
                == MergeSpec(a, FeedData(env.feed).value, name, maxResults, env.faults).account
  {
  }

  /** A feed that cannot be fetched or parsed makes no remote call: its
      exception is the attempt's, and a synchronized binding holds exactly
      what its feed parsed to. */
  lemma FeedFailureMakesNoCall(previous: Snapshot, a: Account, name: string, maxResults: nat, env: BindingEnv)
    ensures FeedData(env.feed).Failure? ==>
              TryBinding(previous, a, name, maxResults, env) == AttemptResult(Threw(FeedData(env.feed).error), a)
    ensures TryBinding(previous, a, name, maxResults, env).attempt.Synchronized? ==>
              FeedData(env.feed) == Success(TryBinding(previous, a, name, maxResults, env).attempt.data)
  {
  }

  /** readICalendar: the parsed data, or null when it equals a non-null previousData. */
  method ReadICalendar(flow: CalendarFlow, feed: FeedOutcome) returns (r: Result<CalendarData?, Failure>)
    ensures FeedData(feed).Failure? <==> r.Failure?
    ensures r.Failure? ==> r.error == FeedData(feed).error
    ensures r.Success? ==>
              (r.value == null <==> (flow.previousData != null && flow.previousData.events == FeedData(feed).value))
    ensures r.Success? && r.value != null ==> r.value.events == FeedData(feed).value
  {
    match feed
    case FetchFailed => return Failure(Io);
    case ParseFailed => return Failure(Parser);
    case Fetched(components) =>
      var parsed := ParseCalendar(components);
      if parsed.Failure? {
        return Failure(parsed.error);
      }
      var currentData := parsed.value;
      var previousData := flow.previousData;
      if previousData != null && previousData.Equals(currentData) {
        return Success(null);
      }
      r := Success(currentData);
  }
}

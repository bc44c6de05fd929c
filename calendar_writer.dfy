/** CalendarWriter: the merge as a service of its own. Every exception of the
    try block, including the one getCalendarService raises, passes through
    two catch clauses: a Google JSON error resets the user's credentials on
    HTTP 401, a token error always resets them, and both are rethrown. */
module CalendarWriter {
  import opened Wrappers
  import opened Errors
  import opened Domain
  import opened Remote
  import opened MergeWriter
  import opened Credentials
  import opened GoogleApi

  /** What leaves the catch clauses: the exception thrown out of the method
      and whether the user's stored credentials were deleted on the way. */
  datatype Rethrow = Rethrow(thrown: Failure, reset: bool)

  /** The two catch clauses applied to the exception f of the try block.
      resetFails says whether the store's delete throws, which replaces the
      rethrow by the IllegalStateException of resetCredentials. */
  function CatchClauses(f: Failure, resetFails: bool): (c: Rethrow)
    // credentials are deleted exactly for a token error or an HTTP 401
    ensures c.reset <==> !resetFails && (f.TokenResponse? || f == JsonResponse(Details(401)))
    // the original exception leaves unchanged unless the catch clause itself throws
    ensures c.thrown == f <==> f != JsonResponse(NoDetails) && !(resetFails && (f.TokenResponse? || f == JsonResponse(Details(401))))
    ensures f == JsonResponse(NoDetails) ==> c == Rethrow(NullPointer, false)
    ensures c.thrown != f ==> c.thrown in {NullPointer, IllegalState} && !c.reset
  {
    match f
    case JsonResponse(details) =>
      (match RequiresCredentialsReset(details)
       case Failure(e) => Rethrow(e, false)
       case Success(resets) =>
         if !resets then Rethrow(f, false)
         else if resetFails then Rethrow(IllegalState, false)
         else Rethrow(f, true))
    case TokenResponse =>
      if resetFails then Rethrow(IllegalState, false) else Rethrow(f, true)
    case _ => Rethrow(f, false)
  }

  /** Everything one call leaves behind. */
  datatype WriteResult = WriteResult(outcome: Outcome<Failure>, account: Account, credentials: map<string, Credential>)

  /** mergeCalendarDataToGoogleCalendar as a function of the state before
      the call: authorization (an input outcome), then the merge with the
      2500-event listing bound, then the catch clauses. */
  function Write(userId: string, authorization: Outcome<Failure>, a: Account, credentials: map<string, Credential>,
                 events: seq<CalendarEvent>, name: string, faults: MergeFaults, resetFails: bool): (w: WriteResult)
    // a failed authorization makes no remote call
    ensures authorization.Fail? ==> w.outcome.Fail? && w.account == a
    ensures w.account.calendarList == a.calendarList
  {
    var m := if authorization.Fail? then MergeResult(authorization, a) else MergeSpec(a, events, name, MaxListedEvents, faults);
    match m.outcome
    case Pass => WriteResult(Pass, m.account, credentials)
    case Fail(f) =>
      var c := CatchClauses(f, resetFails);
      WriteResult(Fail(c.thrown), m.account, if c.reset then credentials - {userId} else credentials)
  }

  class CalendarWriter {
    const googleApiService: GoogleApiService

    constructor (googleApiService: GoogleApiService)
      ensures this.googleApiService == googleApiService
    {
      this.googleApiService := googleApiService;
    }

    method ResetCredentials(userId: string, resetFails: bool) returns (r: Outcome<Failure>)
      modifies googleApiService.store
      ensures resetFails ==> r == Fail(IllegalState) && googleApiService.store.credentials == old(googleApiService.store.credentials)
      ensures !resetFails ==> r == Pass && googleApiService.store.credentials == old(googleApiService.store.credentials) - {userId}
    {
      r := googleApiService.ResetCredentials(userId, resetFails);
    }

    method MergeCalendarDataToGoogleCalendar(userId: string, authorization: Outcome<Failure>, service: CalendarService,
                                             calendarEvents: CalendarEvents, googleCalendarName: string,
                                             faults: MergeFaults, resetFails: bool)
      returns (r: Outcome<Failure>)
      modifies service, googleApiService.store
      ensures WriteResult(r, service.account, googleApiService.store.credentials)
              == Write(userId, authorization, old(service.account), old(googleApiService.store.credentials),
                       calendarEvents.Elements(), googleCalendarName, faults, resetFails)
    {
      var tried: Outcome<Failure>;
      if authorization.Fail? {
        tried := authorization;
      } else {
        tried := Merge(service, calendarEvents.Elements(), googleCalendarName, MaxListedEvents, faults);
      }
      if tried.Pass? {
        return Pass;
      }
      r := tried;
      match tried.error
      case JsonResponse(details) =>
        var resets := RequiresCredentialsReset(details);
        if resets.Failure? {
          r := Fail(resets.error);
        } else if resets.value {
          var reset := ResetCredentials(userId, resetFails);
          if reset.Fail? {
            r := reset;
          }
        }
      case TokenResponse =>
        var reset := ResetCredentials(userId, resetFails);
        if reset.Fail? {
          r := reset;
        }
      case _ =>
    }
  }

  // ----- properties of the writer -----

  /** No exception is swallowed: the call fails exactly when authorization
      or the merge failed, and it succeeds with the merge's remote state. */
  lemma FailureIsNeverSwallowed(userId: string, authorization: Outcome<Failure>, a: Account, credentials: map<string, Credential>,
                                events: seq<CalendarEvent>, name: string, faults: MergeFaults, resetFails: bool)
    ensures var w := Write(userId, authorization, a, credentials, events, name, faults, resetFails);
            w.outcome.Pass? <==> authorization.Pass? && MergeSpec(a, events, name, MaxListedEvents, faults).outcome.Pass?
    ensures authorization.Pass? ==>
              Write(userId, authorization, a, credentials, events, name, faults, resetFails).account
                == MergeSpec(a, events, name, MaxListedEvents, faults).account
  {
  }

  /** The only credential change is the deletion of this user's entry, and
      it happens only after a failure. */
  lemma OnlyOwnCredentialsReset(userId: string, authorization: Outcome<Failure>, a: Account, credentials: map<string, Credential>,
                                events: seq<CalendarEvent>, name: string, faults: MergeFaults, resetFails: bool)
    ensures var w := Write(userId, authorization, a, credentials, events, name, faults, resetFails);
            && (w.credentials == credentials || w.credentials == credentials - {userId})
            && (w.credentials != credentials ==> w.outcome.Fail?)
  {
  }

  /** A 401 from the remote calls deletes the stored credentials and is
      rethrown as it was, when the store's delete succeeds. */
  lemma UnauthorizedResetsAndRethrows(userId: string, a: Account, credentials: map<string, Credential>,
                                      events: seq<CalendarEvent>, name: string, faults: MergeFaults)
    requires MergeSpec(a, events, name, MaxListedEvents, faults).outcome == Fail(JsonResponse(Details(401)))
    ensures Write(userId, Pass, a, credentials, events, name, faults, false)
            == WriteResult(Fail(JsonResponse(Details(401))), MergeSpec(a, events, name, MaxListedEvents, faults).account,
                           credentials - {userId})
  {
  }

  /** A calendar name with no match fails with IllegalArgumentException,
      writes nothing and keeps the credentials. */
  lemma MissingCalendarWritesNothing(userId: string, a: Account, credentials: map<string, Credential>,
                                     events: seq<CalendarEvent>, name: string, faults: MergeFaults, resetFails: bool)
    requires faults.calendarList.None? && FindCalendar(a.calendarList, name).None?
    ensures Write(userId, Pass, a, credentials, events, name, faults, resetFails) == WriteResult(Fail(IllegalArgument), a, credentials)
  {
  }
}

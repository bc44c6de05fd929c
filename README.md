# ical-to-google-calendar — a Dafny model of the sync engine

ical-to-google-calendar copies iCalendar feeds into Google calendars on a schedule. Each
user has a list of bindings, each binding a pair of a feed URL and a target calendar name.
On every run the program does three things:

- It fetches each feed and maps its VEVENTs to `CalendarEvent` values.
- It skips a feed that equals the binding's previous snapshot.
- For any other feed it performs a full-replacement merge. It resolves the calendar by exact
  name, taking the first match. It deletes the listed events that carry the private
  property `ical-to-google-calendar-uuid`. Then it inserts one tagged event per feed event.

A Google OAuth flow supplies each user's credentials. It reuses a stored credential when it
can. Otherwise it waits for a browser callback keyed by a fresh state token, exchanges the
code for a token and stores it.

The model keeps this decision logic and replaces each library by an abstract value:

- The Google account becomes a calendar list of (summary, id) entries and one sequence of
  events per calendar. Ids come from a counter. A call to the service takes a fault input
  that decides whether it throws.
- A parsed feed becomes a sequence of VEVENT records with optional properties.
- The credential store becomes a map from user id to credential.
- Java exceptions become a `Failure` kind. A call that may throw returns an
  `Outcome`/`Result`.

There are two revisions of the per-user flow, and they are modelled separately:

- `CalendarsSynchronizer` (revision A) clears a binding's snapshot on any exception.
- `UserFlow` (revision B) tells errors apart. A Google JSON error keeps the snapshot and
  resets the credentials on HTTP 401. A token error keeps the snapshot and always resets
  them. Any other exception clears the snapshot.

Each revision is specified by a fold `Run` over the bindings:

- the loop method is proved equal to the fold;
- the fold's properties are proved as lemmas: error isolation, configured order,
  idempotence on unchanged feeds, and which credentials change.

Modules:

| file | module | models |
|---|---|---|
| wrappers.dfy | Wrappers, Errors | Option/Outcome/Result; exception kinds; `requiresCredentialsReset` |
| domain.dfy | Domain | `CalendarEvent`, `CalendarData`, `CalendarEvents` |
| calendar_reader.dfy | CalendarReader | `CalendarReader.parseCalendar` |
| remote.dfy | Remote | the Google Calendar service, as an abstract account |
| merge_writer.dfy | MergeWriter | the merge shared by all three copies: `getGoogleCalendar`, `getICalUuid`, `deleteExistingEvents`, `createEvents` |
| calendar_flow.dfy | Flows | `CalendarFlow` |
| sync.dfy | Sync | `readICalendar` and the try block of one binding |
| calendars_synchronizer.dfy | CalendarsSynchronizer | revision A |
| user_flow.dfy | UserFlows | revision B |
| calendar_writer.dfy | CalendarWriter | `CalendarWriter` |
| credentials.dfy | Credentials | the credential reuse test and the credential store |
| google_api_service.dfy | GoogleApi | `GoogleApiService` |
| decimal.dfy | Decimal | the decimal rendering of the port in `AuthorizationAppFactory` |
| authorization_app_factory.dfy | AuthorizationApps | `AuthorizationAppFactory` |

Revision A's `deleteExistingEvents` (CalendarsSynchronizer.java:197) sets no maxResults.
The model lists with the documented events.list default of 250
(`MergeWriter.DefaultListedEvents`). The other two copies set 2500
(`MergeWriter.MaxListedEvents`).

## Model

| member | source | states |
|---|---|---|
| Errors.RequiresCredentialsReset | src/main/java/ictgc/UserFlow.java:113-116 | Only HTTP 401 asks for a credential reset. Null error details throw NullPointerException. |
| Domain.EventEquals | src/main/java/ictgc/domain/CalendarEvent.java:15-57 | Two events are equal iff all six fields are equal. |
| Domain.DescriptionChangeIsVisible | src/main/java/ictgc/domain/CalendarEvent.java:15-34 | Events that differ only in description are unequal. |
| Domain.CalendarData.constructor | src/main/java/ictgc/domain/CalendarData.java:12 | A new CalendarData has no events. |
| Domain.CalendarData.AddEvent | src/main/java/ictgc/domain/CalendarData.java:14-16 | AddEvent appends at the end and grows the size by one. Earlier elements are unchanged. |
| Domain.EqualDataAgreeElementwise | src/main/java/ictgc/domain/CalendarData.java:9-12 | Equal CalendarData values agree element by element. |
| Domain.DataEqualityIsOrderSensitive | src/main/java/ictgc/domain/CalendarData.java:9-12 | Any reordering of the same events that changes the list makes the data unequal. The two lists have the same length and differ at some position. |
| Domain.CalendarEvents.Size | src/main/java/ictgc/domain/CalendarEvents.java:22-28 | Size is the number of events, and isEmpty() holds iff the size is 0. |
| Domain.CopyOf | src/main/java/ictgc/domain/CalendarEvents.java:15-20 | The constructor's copy iterates the input events in input order. |
| Domain.CopyIsDetached | src/main/java/ictgc/domain/CalendarEvents.java:18-20 | Appending to the source list after the copy leaves the copy unchanged. |
| Domain.EventsEqualityIsContent | src/main/java/ictgc/domain/CalendarEvents.java:12-16 | CalendarEvents equality is equality of content and order. |
| CalendarReader.Parsed | src/main/java/ictgc/ical/CalendarReader.java:27-45 | The only exception is NullPointerException. A successful parse has one event per VEVENT. |
| CalendarReader.ToCalendarEvent | src/main/java/ictgc/ical/CalendarReader.java:30-42 | The event copies UID, SUMMARY and DESCRIPTION and the start instant. The end instant is DTEND's, or the start's when DTEND is absent. allDay holds iff the start has no time of day. |
| CalendarReader.ParsedIsOnePerComponent | src/main/java/ictgc/ical/CalendarReader.java:27-43 | Parsing succeeds iff every VEVENT has its required properties. It then yields one event per VEVENT, in document order. |
| CalendarReader.ParseCalendar | src/main/java/ictgc/ical/CalendarReader.java:23-46 | The loop appends one event per VEVENT, in document order. A missing required property raises NullPointerException. |
| Remote.Page | src/main/java/ictgc/UserFlow.java:209-213 | A listing with maxResults returns at most that many events: a prefix of the calendar, or all of it when it fits. |
| Remote.DeleteEvents | src/main/java/ictgc/google/CalendarWriter.java:159-166 | A delete batch changes only the one calendar's events. It keeps exactly the events whose id was not queued; the calendar list and the id counter stay. |
| Remote.InsertEvents | src/main/java/ictgc/google/CalendarWriter.java:132-136 | An insert batch changes only the one calendar's events. It keeps them as a prefix and appends one event per body, carrying that body. The counter advances by the batch size. |
| Remote.WithoutMembers | src/main/java/ictgc/google/CalendarWriter.java:159-166 | An event survives a delete batch iff it was there and its id was not queued. |
| Remote.WithoutKeepsUniqueIds | src/main/java/ictgc/google/CalendarWriter.java:159-166 | Deleting keeps event ids unique. |
| Remote.DeleteEventsKeepsWf | src/main/java/ictgc/google/CalendarWriter.java:166 | A delete batch keeps the service's id guarantees: ids unique per calendar and below the counter. |
| Remote.InsertEventsKeepsWf | src/main/java/ictgc/google/CalendarWriter.java:136 | An insert batch keeps the service's id guarantees: the new ids are fresh and distinct. |
| Remote.CalendarService.ListCalendars | src/main/java/ictgc/google/CalendarWriter.java:185 | The call returns the calendar list, or throws its fault. |
| Remote.CalendarService.ListEvents | src/main/java/ictgc/google/CalendarWriter.java:143-148 | The call returns the first page of non-deleted events, or throws its fault. |
| Remote.CalendarService.ExecuteDeletes | src/main/java/ictgc/google/CalendarWriter.java:166 | A delete batch removes the queued ids. A failing batch throws and changes nothing. |
| Remote.CalendarService.ExecuteInserts | src/main/java/ictgc/google/CalendarWriter.java:136 | An insert batch appends the events with fresh ids. A failing batch throws and changes nothing. |
| MergeWriter.GetICalUuid | src/main/java/ictgc/UserFlow.java:235-244 | The tag is present iff the extended properties, their private map and the uuid key all exist. It is then the value under the key. |
| MergeWriter.FindCalendar | src/main/java/ictgc/google/CalendarWriter.java:182-190 | Returns the index of the first entry whose summary equals the name, or none iff no entry matches. |
| MergeWriter.GetGoogleCalendar | src/main/java/ictgc/CalendarsSynchronizer.java:230-238 | Returns the first matching entry. Fails with IllegalArgumentException iff no entry matches. |
| MergeWriter.TaggedIds | src/main/java/ictgc/google/CalendarWriter.java:159-164 | At most one id is queued per listed event. A listing with no tagged event queues nothing. |
| MergeWriter.TaggedIdsExact | src/main/java/ictgc/CalendarsSynchronizer.java:207-212 | An id is queued for deletion iff a listed event with that id carries the tag. |
| MergeWriter.DeleteQueue | src/main/java/ictgc/google/CalendarWriter.java:159-164 | The loop queues exactly the ids of the tagged listed events. Untagged events are never queued. |
| MergeWriter.ToEventBody | src/main/java/ictgc/google/CalendarWriter.java:107-130 | The event reads back the feed event's uuid as its tag. It copies summary, description and both instants, and is date-only iff the event is all-day. |
| MergeWriter.Bodies | src/main/java/ictgc/google/CalendarWriter.java:106-134 | One body per input event, the i-th tagged with the i-th uuid. |
| MergeWriter.InsertBatch | src/main/java/ictgc/google/CalendarWriter.java:106-134 | The loop queues one insert per event, in order. Each insert copies summary, description and instants and carries the event's uuid as the tag. It is date-only iff the event is all-day. |
| MergeWriter.DeletePhase | src/main/java/ictgc/google/CalendarWriter.java:141-169 | Fails iff the listing throws, or the page is non-empty and the batch throws; a failure changes nothing. Only the one calendar changes, and only by losing events. |
| MergeWriter.InsertPhase | src/main/java/ictgc/google/CalendarWriter.java:92-139 | Fails iff there are events and the batch throws; a failure changes nothing. Only the one calendar changes; a success adds one event per input event. |
| MergeWriter.MergeSpec | src/main/java/ictgc/google/CalendarWriter.java:61-65 | A failed calendar listing or an unknown name fails and changes nothing. The calendar list never changes, and no other calendar's events do. |
| MergeWriter.DeleteExistingEvents | src/main/java/ictgc/google/CalendarWriter.java:141-169 | The delete phase meets its specification: list a page, skip an empty page, otherwise delete the tagged events. |
| MergeWriter.CreateEvents | src/main/java/ictgc/google/CalendarWriter.java:92-139 | The insert phase meets its specification. It is skipped for no events. |
| MergeWriter.Merge | src/main/java/ictgc/google/CalendarWriter.java:59-66 | The merge meets its specification: resolve, delete, insert, each phase only after the previous one succeeded. |
| MergeWriter.WithoutTaggedIsUntagged | src/main/java/ictgc/google/CalendarWriter.java:159-165 | Deleting exactly the tagged ids leaves exactly the untagged events, in order. |
| MergeWriter.WithoutKeeps | src/main/java/ictgc/google/CalendarWriter.java:159-165 | An event whose id is not queued survives the delete batch. |
| MergeWriter.InsertedAreTagged | src/main/java/ictgc/google/CalendarWriter.java:106-115 | Every inserted event is tagged. The k-th carries the k-th event's uuid. |
| MergeWriter.DeletePhaseKeepsUntagged | src/main/java/ictgc/google/CalendarWriter.java:141-169 | When the calendar fits in one page, the delete phase succeeds and leaves exactly its untagged events. |
| MergeWriter.MergeReplacesTaggedEvents | src/main/java/ictgc/google/CalendarWriter.java:59-66 | After a successful merge on a calendar of at most the listing bound, the untagged events are unchanged in order. The tagged events are exactly the new ones, one per input event with its uuid. Other calendars are untouched. |
| MergeWriter.ReplacedSelects | src/main/java/ictgc/google/CalendarWriter.java:106-115 | Selecting by tag separates kept untagged events from a freshly inserted batch. |
| MergeWriter.EmptyFeedClearsTaggedEvents | src/main/java/ictgc/google/CalendarWriter.java:64-65 | With no input events the delete phase still runs: every tagged event goes and nothing is inserted. |
| MergeWriter.MergeNotFoundWritesNothing | src/main/java/ictgc/CalendarsSynchronizer.java:134-138 | No calendar with the name: the merge fails with IllegalArgumentException before any delete or insert, and the account is unchanged. |
| MergeWriter.MergeKeepsWf | src/main/java/ictgc/google/CalendarWriter.java:61-65 | Whatever the faults, a merge keeps the service's id guarantees, the premise of the replacement lemma. |
| MergeWriter.InsertFailureFollowsDeletes | src/main/java/ictgc/UserFlow.java:149-150 | Deletes run before inserts: a failing insert batch leaves the deletions applied. |
| MergeWriter.StaleTaggedEventSurvives | src/main/java/ictgc/UserFlow.java:209-213 | A tagged event beyond the first page of 2500 is not deleted. |
| Flows.CalendarFlow.constructor | src/main/java/ictgc/CalendarFlow.java:12-21 | Stores the url and calendar name; previousData starts out null. |
| Flows.CalendarFlow.SetPreviousData | src/main/java/ictgc/CalendarFlow.java:15-16 | Replaces previousData. The url and name are immutable. |
| Flows.ToStringIgnoresPreviousData | src/main/java/ictgc/CalendarFlow.java:9 | toString excludes previousData: flows with the same url and name print the same. |
| Sync.ChangeDetection | src/main/java/ictgc/UserFlow.java:130-134 | An unchanged feed makes no remote call. A changed one is merged. |
| Sync.TryBinding | src/main/java/ictgc/CalendarsSynchronizer.java:83-90 | An unchanged feed makes no remote call: the snapshot equals the parsed feed and the account stays. No attempt changes the calendar list. |
| Sync.FeedFailureMakesNoCall | src/main/java/ictgc/CalendarsSynchronizer.java:83 | A fetch or parse failure is the attempt's exception and makes no remote call. A synchronized binding holds exactly the parsed feed. |
| Sync.ReadICalendar | src/main/java/ictgc/CalendarsSynchronizer.java:106-127 | Returns null iff the parsed data equals a non-null previousData, otherwise the parsed data. A fetch or parse error is thrown. |
| CalendarsSynchronizer.UserFlow.constructor | src/main/java/ictgc/CalendarsSynchronizer.java:258-268 | A new flow is inactive, with no bindings. |
| CalendarsSynchronizer.UserFlow.Start | src/main/java/ictgc/CalendarsSynchronizer.java:270-272 | Sets active and leaves the bindings alone. |
| CalendarsSynchronizer.UserFlow.Finish | src/main/java/ictgc/CalendarsSynchronizer.java:274-276 | Clears active and leaves the bindings alone. |
| CalendarsSynchronizer.CreateUserFlowByUserId | src/main/java/ictgc/CalendarsSynchronizer.java:249-256 | Fails with IllegalArgumentException iff no configured user has the id. Otherwise returns a fresh inactive flow with an email of a matching user. |
| CalendarsSynchronizer.BindingsOfAbsent | src/main/java/ictgc/CalendarsSynchronizer.java:240-247 | A user named by no flow gets no bindings. |
| CalendarsSynchronizer.GetUserFlows | src/main/java/ictgc/CalendarsSynchronizer.java:240-247 | Fails with IllegalArgumentException iff some flow's user is unknown. Otherwise the keys are the flows' user ids, the flow objects are distinct, and each user's bindings are that user's flows in configuration order. |
| CalendarsSynchronizer.GroupFlow | src/main/java/ictgc/CalendarsSynchronizer.java:243-244 | One iteration of the grouping loop keeps the grouping invariant for the longer prefix, or fails for an unknown user. |
| CalendarsSynchronizer.AddUserFlow | src/main/java/ictgc/CalendarsSynchronizer.java:243 | computeIfAbsent adds a fresh empty flow for a new user and keeps the invariant. |
| CalendarsSynchronizer.AddCalendarFlow | src/main/java/ictgc/CalendarsSynchronizer.java:244 | Appending the binding extends that user's bindings by this flow. |
| CalendarsSynchronizer.AfterAttempt | src/main/java/ictgc/CalendarsSynchronizer.java:85-96 | The snapshot is cleared iff the attempt threw, or it was already empty and the feed unchanged. A new snapshot is the merged data. |
| CalendarsSynchronizer.Step | src/main/java/ictgc/CalendarsSynchronizer.java:82-96 | One iteration keeps the number of bindings and never changes the calendar list. |
| CalendarsSynchronizer.Run | src/main/java/ictgc/CalendarsSynchronizer.java:81-97 | Any prefix of the loop keeps the number of bindings and never changes the calendar list. |
| CalendarsSynchronizer.MergeCalendarDataToGoogleCalendar | src/main/java/ictgc/CalendarsSynchronizer.java:128-140 | This revision's merge meets MergeSpec with the 250-event default listing. |
| CalendarsSynchronizer.SynchronizeBinding | src/main/java/ictgc/CalendarsSynchronizer.java:82-96 | One binding: the new snapshot is the parsed data after a merge and unchanged when the feed is unchanged. Any exception clears it. |
| CalendarsSynchronizer.SynchronizeBindings | src/main/java/ictgc/CalendarsSynchronizer.java:81-97 | The loop over the bindings equals the fold Run over them in configured order. |
| CalendarsSynchronizer.SynchronizeUserCalendars | src/main/java/ictgc/CalendarsSynchronizer.java:67-104 | An active flow is left untouched and stays active. Otherwise active is false at the end on every path. A failed getCalendarService aborts every binding. Else the state equals Run. |
| CalendarsSynchronizer.StepKeepsOtherBindings | src/main/java/ictgc/CalendarsSynchronizer.java:82-96 | An iteration touches only its own binding's snapshot. |
| CalendarsSynchronizer.RunLeavesLaterBindings | src/main/java/ictgc/CalendarsSynchronizer.java:81 | A binding not yet reached keeps its snapshot. |
| CalendarsSynchronizer.BindingOutcome | src/main/java/ictgc/CalendarsSynchronizer.java:81-96 | Each binding's final snapshot is decided by its own attempt, made on the account its predecessors left: error isolation in list order. |
| CalendarsSynchronizer.ResyncWithUnchangedFeedsIsIdle | src/main/java/ictgc/CalendarsSynchronizer.java:118-122 | When every snapshot equals its feed, a run changes nothing, whatever the faults. |
| UserFlows.UserFlow.constructor | src/main/java/ictgc/UserFlow.java:44-49 | A new flow is inactive, with no bindings. |
| UserFlows.UserFlow.Start | src/main/java/ictgc/UserFlow.java:51-53 | Sets active. |
| UserFlows.UserFlow.Finish | src/main/java/ictgc/UserFlow.java:55-57 | Clears active. |
| UserFlows.UserFlow.ResetCredentials | src/main/java/ictgc/UserFlow.java:108-111 | Deletes this user's stored credential, or throws IllegalStateException and leaves the store. |
| UserFlows.AfterCatch | src/main/java/ictgc/UserFlow.java:82-98 | JSON error: keeps the snapshot, resets iff 401. Token error: keeps it, always resets. Null JSON details: NullPointerException escapes. Any other exception: clears the snapshot, no reset. Only NullPointer and IllegalState escape. |
| UserFlows.Process | src/main/java/ictgc/UserFlow.java:72-98 | The store keeps its credentials or loses only this user's entry. An escaping exception is NullPointer or IllegalState and keeps the snapshot. The calendar list never changes. |
| UserFlows.Step | src/main/java/ictgc/UserFlow.java:71-99 | Once an exception has escaped an iteration does nothing. The number of bindings and the calendar list stay. |
| UserFlows.Run | src/main/java/ictgc/UserFlow.java:71-99 | Any prefix of the loop keeps the number of bindings and never changes the calendar list. |
| UserFlows.MergeCalendarDataToGoogleCalendar | src/main/java/ictgc/UserFlow.java:141-153 | This revision's merge lists up to 2500 events. |
| UserFlows.SynchronizeBinding | src/main/java/ictgc/UserFlow.java:72-98 | One binding's try block and catch clauses equal Process on snapshot, account and credentials. |
| UserFlows.SynchronizeAt | src/main/java/ictgc/UserFlow.java:71-99 | One loop iteration equals one Step: only the i-th binding's snapshot changes. |
| UserFlows.SynchronizeBindings | src/main/java/ictgc/UserFlow.java:71-99 | The loop equals the fold Run. An exception that escapes a catch clause is the method's failure. |
| UserFlows.SynchronizeUserCalendars | src/main/java/ictgc/UserFlow.java:59-106 | An active flow is a no-op. Otherwise active is false at the end on every path. A failed getCalendarService aborts every binding. Else the state equals Run. |
| UserFlows.EscapeIsFinal | src/main/java/ictgc/UserFlow.java:71-99 | Once an exception has escaped, no later binding runs. |
| UserFlows.NoEscapeBefore | src/main/java/ictgc/UserFlow.java:71-99 | A run that ends with no escape had none at any earlier point. |
| UserFlows.RunLeavesLaterBindings | src/main/java/ictgc/UserFlow.java:71 | A binding not yet reached keeps its snapshot. |
| UserFlows.StepKeepsOtherBindings | src/main/java/ictgc/UserFlow.java:71-99 | An iteration touches only its own binding's snapshot. |
| UserFlows.LaterStepsKeepBinding | src/main/java/ictgc/UserFlow.java:71-99 | After its own iteration a binding's snapshot is never changed again. |
| UserFlows.BindingOutcome | src/main/java/ictgc/UserFlow.java:72-98 | Without an escape every binding ran, in order. Its snapshot is what its own catch clauses left, on the account and credentials its predecessors left. |
| UserFlows.OnlyOwnCredentialsReset | src/main/java/ictgc/UserFlow.java:86-93 | The only change to the store is deleting this user's entry. Other users' credentials are never touched. |
| UserFlows.ProcessUnchangedFeed | src/main/java/ictgc/UserFlow.java:130-134 | An unchanged feed makes no remote call, runs no catch clause and keeps everything. |
| UserFlows.ResyncWithUnchangedFeedsIsIdle | src/main/java/ictgc/UserFlow.java:130-134 | When every snapshot equals its feed, a run changes nothing at all, whatever the faults. |
| CalendarWriter.CatchClauses | src/main/java/ictgc/google/CalendarWriter.java:69-90 | Credentials are deleted iff the error is a token error or an HTTP 401 and the delete succeeds. The original exception is rethrown unless the catch clause itself throws (null details, failed reset). |
| CalendarWriter.Write | src/main/java/ictgc/google/CalendarWriter.java:56-80 | A failed authorization fails and makes no remote call. The calendar list never changes. |
| CalendarWriter.CalendarWriter.constructor | src/main/java/ictgc/google/CalendarWriter.java:37-40 | Keeps the GoogleApiService. |
| CalendarWriter.CalendarWriter.ResetCredentials | src/main/java/ictgc/google/CalendarWriter.java:82-85 | Deletes the user's stored credential, or throws IllegalStateException. |
| CalendarWriter.CalendarWriter.MergeCalendarDataToGoogleCalendar | src/main/java/ictgc/google/CalendarWriter.java:51-80 | Authorization, then the merge with the 2500 bound. Any exception, an authorization failure included, goes through the catch clauses. |
| CalendarWriter.FailureIsNeverSwallowed | src/main/java/ictgc/google/CalendarWriter.java:69-79 | The call fails iff authorization or the merge failed. After authorization the remote state is the merge's. |
| CalendarWriter.OnlyOwnCredentialsReset | src/main/java/ictgc/google/CalendarWriter.java:69-79 | The credentials are unchanged or lose only this user's entry, and only after a failure. |
| CalendarWriter.UnauthorizedResetsAndRethrows | src/main/java/ictgc/google/CalendarWriter.java:69-75 | A 401 deletes the credentials and is rethrown as it was. |
| CalendarWriter.MissingCalendarWritesNothing | src/main/java/ictgc/google/CalendarWriter.java:182-190 | An unknown calendar name fails with IllegalArgumentException, writes nothing and keeps the credentials. |
| Credentials.JavaDiv | src/main/java/ictgc/google/GoogleApiService.java:157 | Java's long division truncates toward zero. |
| Credentials.ExpiresInMoreThanAMinute | src/main/java/ictgc/google/GoogleApiService.java:157 | getExpiresInSeconds() > 60 iff at least 61000 ms remain. |
| Credentials.Reusable | src/main/java/ictgc/google/GoogleApiService.java:155-159 | A stored credential is reused iff it is non-null and has a refresh token or more than 60 s left. With neither a refresh token nor an expiry the test throws NullPointerException. |
| Credentials.FromTokenResponse | src/main/java/ictgc/google/GoogleApiService.java:183 | The stored credential copies the tokens. Its expiry is "now plus expires_in". |
| Credentials.FreshCredentialReuse | src/main/java/ictgc/google/GoogleApiService.java:155-159 | A freshly stored credential is reused iff it has a refresh token or expires_in exceeds 60. |
| Credentials.CredentialStore.Load | src/main/java/ictgc/google/GoogleApiService.java:155 | loadCredential is null iff the user id is empty or nothing is stored for the user; otherwise it is the stored entry. |
| Credentials.CredentialStore.Store | src/main/java/ictgc/google/GoogleApiService.java:183 | Stores the credential under the user id. |
| Credentials.CredentialStore.Delete | src/main/java/ictgc/google/GoogleApiService.java:135 | Removes the user's entry, or throws an IOException and keeps the store. |
| GoogleApi.AuthorizationResponseCondition.constructor | src/main/java/ictgc/google/GoogleApiService.java:228-237 | A new condition has neither code nor error. |
| GoogleApi.AuthorizationResponseCondition.OnAuthorizationResponse | src/main/java/ictgc/google/GoogleApiService.java:256-266 | Stores code and error. The waiter is released iff one of them is non-null, so a response with both null keeps it waiting. |
| GoogleApi.WrapIo | src/main/java/ictgc/google/GoogleApiService.java:184-186 | IOExceptions, token and JSON errors included, become CalendarSynchronizationException. |
| GoogleApi.GoogleApiService.constructor | src/main/java/ictgc/google/GoogleApiService.java:59-67 | The redirect URL ends with the callback path, and the registry starts empty. |
| GoogleApi.GoogleApiService.ResetCredentials | src/main/java/ictgc/google/GoogleApiService.java:133-139 | Deletes the user's entry. The store's IOException becomes IllegalStateException. |
| GoogleApi.GoogleApiService.BeginAuthorize | src/main/java/ictgc/google/GoogleApiService.java:153-172 | A reusable credential is returned with no registration. Otherwise a fresh condition is registered under the state token via putIfAbsent. |
| GoogleApi.GoogleApiService.HandleCallback | src/main/java/ictgc/google/GoogleApiService.java:196-214 | Non-callback targets are ignored. The entry for the state is removed and resolved. An unknown or missing state fails with NullPointerException. |
| GoogleApi.GoogleApiService.CompleteAuthorize | src/main/java/ictgc/google/GoogleApiService.java:172-186 | An error outcome fails with CalendarSynchronizationException and does no exchange. Otherwise the code is exchanged and the credential stored under the user id. |
| Decimal.NatToString | src/main/java/ictgc/google/AuthorizationAppFactory.java:43 | Java's decimal rendering of a port has digits only and no leading zero. |
| Decimal.NatToStringRoundTrip | src/main/java/ictgc/google/AuthorizationAppFactory.java:43 | Reading the digits back gives the number. |
| Decimal.IntToStringInjective | src/main/java/ictgc/google/AuthorizationAppFactory.java:43 | Distinct ports render differently. |
| AuthorizationApps.RedirectUrlDeterminesPort | src/main/java/ictgc/google/AuthorizationAppFactory.java:32-43 | The redirect URL ends with the callback path. For one host it determines the port. |
| AuthorizationApps.VerificationCodeReceiver.constructor | src/main/java/ictgc/google/AuthorizationAppFactory.java:99-109 | A new receiver holds the redirect URL and no response. |
| AuthorizationApps.VerificationCodeReceiver.SetAuthorizationResponse | src/main/java/ictgc/google/AuthorizationAppFactory.java:135-146 | Stores code and error. |
| AuthorizationApps.VerificationCodeReceiver.WaitForCode | src/main/java/ictgc/google/AuthorizationAppFactory.java:112-128 | Blocks iff both are null. It throws an IOException iff an error is set, and otherwise returns the code. |
| AuthorizationApps.AuthorizationApp.constructor | src/main/java/ictgc/google/AuthorizationAppFactory.java:155-159 | Binds the app to its state and receiver. |
| AuthorizationApps.AuthorizationApp.Authorize | src/main/java/ictgc/google/AuthorizationAppFactory.java:161-180 | A reusable credential is returned unchanged. Otherwise it waits for the code, exchanges it and stores the credential under the user id. A wait or exchange error is thrown. |
| AuthorizationApps.AuthorizationAppFactory.constructor | src/main/java/ictgc/google/AuthorizationAppFactory.java:38-43 | The redirect URL is "http://" + host + ":" + port + the callback path; no receivers yet. |
| AuthorizationApps.AuthorizationAppFactory.CreateAuthorizationApp | src/main/java/ictgc/google/AuthorizationAppFactory.java:55-60 | Registers a fresh receiver under the id via putIfAbsent. Returns an app whose state is that id. |
| AuthorizationApps.AuthorizationAppFactory.HandleCallback | src/main/java/ictgc/google/AuthorizationAppFactory.java:62-68 | An unknown state throws IllegalStateException. A known one stores code and error and stays registered. |
| AuthorizationApps.AuthorizationAppFactory.Handle | src/main/java/ictgc/google/AuthorizationAppFactory.java:73-88 | Non-callback targets are ignored and change nothing. A known state stores code and error in its receiver and releases its wait accordingly; every other receiver is unchanged. A null or unknown state fails with NullPointerException or IllegalStateException and changes no receiver. |

## Left out

- HTTP callback servers and redirect pages (Jetty start-up, HTML, flushBuffer) are I/O. A callback is a call that takes target, state, code and error.
- Blocking wait and signal are concurrency.
  - A waiter is modelled by whether its slot is released. `CompleteAuthorize` and `WaitForCode` report a waiter that is not released as still waiting or blocked.
- The non-atomic check-then-set of `active` and the executor fan-out of `synchronizeCalendars` are concurrency. Each flow runs sequentially.
- Feed fetching and the ical4j grammar are a network call and a foreign library. A feed is an input outcome: fetched VEVENT records, an IOException, or a ParserException.
- The Google API client is a foreign library; the abstract account stands in for it.
  - `DateTime` formatting becomes a Date/DateTime tag on the instant.
  - The remote calls' failures are fault inputs.
  - A failing batch applies none of its items; partial application is not modelled.
- The outcome of an empty delete batch (only untagged events listed) is library-defined. It is the delete-batch fault input.
- `JsonBatchErrorCallback` and `CalendarSynchronizationException` are not modelled beyond "a batch item failure fails the batch".
- Time zones and `java.util.Date` are left out: instants are integer milliseconds.
- Spring bootstrap, configuration binding, logging, and the OAuth secrets and transport setup are not part of this model.
- Clocks and randomness are parameters: the current time is `now`, and the fresh UUID of a state token is `conditionId`/`receiverId`.
- `getCalendarService` is an input outcome (`authorization`) of both flows and of the writer. The authorization modules model it separately.
- I/O failures of `loadCredential` and `createAndStoreCredential` in the authorization modules are not modelled; these store calls always succeed there.
- Remote.Page: a listing returns the whole calendar when it holds at most maxResults events. The events.list reference allows a shorter page, even an empty one, with a nextPageToken. The model has no short pages, so `MergeWriter.DeletePhaseKeepsUntagged` and `MergeWriter.MergeReplacesTaggedEvents` hold only when the first page is complete.
- Credentials.CredentialStore.Load: of the library's loadCredential the model keeps the empty-user-id case and the missing entry. The case without a data store does not arise here.
- HashMap iteration order of `getUserFlows`'s result is not modelled. The result is a map.
- CalendarsSynchronizer.MergeCalendarDataToGoogleCalendar uses 250, the documented default page size of events.list. The source sets no bound, so this is an assumption about the library.
- Java null for required fields is modelled only where the source can meet it:
  - missing VEVENT properties;
  - null JSON details;
  - a missing expiry;
  - an unknown callback state.

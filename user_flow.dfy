/** UserFlow: the second revision of the per-user flow. Errors are told
    apart: a Google JSON error or a token error keeps the binding's snapshot
    and may reset the user's credentials; any other exception clears the
    snapshot. An exception thrown inside a catch clause leaves the loop. */
module UserFlows {
  import opened Wrappers
  import opened Errors
  import opened Domain
  import opened Remote
  import opened MergeWriter
  import opened Flows
  import opened Sync
  import opened Credentials
  import opened GoogleApi

  class UserFlow {
    const userId: string
    const userEmail: string
    var calendarFlows: seq<CalendarFlow>
    var active: bool
    const googleApiService: GoogleApiService

    constructor (userId: string, userEmail: string, googleApiService: GoogleApiService)
      ensures this.userId == userId && this.userEmail == userEmail && this.googleApiService == googleApiService
      ensures calendarFlows == [] && !active
    {
      this.userId := userId;
      this.userEmail := userEmail;
      this.googleApiService := googleApiService;
      calendarFlows := [];
      active := false;
    }

    /** No binding object occurs twice. */
    ghost predicate Valid()
      reads this
    {
      forall i, j :: 0 <= i < j < |calendarFlows| ==> calendarFlows[i] != calendarFlows[j]
    }

    method Start()
      modifies this
      ensures active && calendarFlows == old(calendarFlows)
    {
      active := true;
    }

    method Finish()
      modifies this
      ensures !active && calendarFlows == old(calendarFlows)
    {
      active := false;
    }

    /** resetCredentials: an IllegalStateException from the store escapes. */
    method ResetCredentials(resetFails: bool) returns (escaped: Option<Failure>)
      modifies googleApiService.store
      ensures resetFails ==>
                escaped == Some(IllegalState) && googleApiService.store.credentials == old(googleApiService.store.credentials)
      ensures !resetFails ==>
                escaped.None? && googleApiService.store.credentials == old(googleApiService.store.credentials) - {userId}
    {
      var reset := googleApiService.ResetCredentials(userId, resetFails);
      escaped := if reset.Fail? then Some(reset.error) else None;
    }
  }

  /** How the catch clauses around one binding end: the binding's new
      snapshot, whether the user's credentials were deleted, and the
      exception that left the loop, if any. */
  datatype Caught = Caught(snapshot: Snapshot, reset: bool, escaped: Option<Failure>)

  function Reset(previous: Snapshot, resetFails: bool): Caught
  {
    if resetFails then Caught(previous, false, Some(IllegalState)) else Caught(previous, true, None)
  }

  function AfterCatch(previous: Snapshot, attempt: Attempt, resetFails: bool): (c: Caught)
    // a JSON error keeps the snapshot and resets exactly on a 401
    ensures attempt.Threw? && attempt.failure.JsonResponse? && attempt.failure.details.Details? ==>
              && c.snapshot == previous
              && (c.reset <==> attempt.failure.details.code == 401 && !resetFails)
              && (c.escaped.Some? <==> attempt.failure.details.code == 401 && resetFails)
    // a token error keeps the snapshot and always resets
    ensures attempt.Threw? && attempt.failure.TokenResponse? ==>
              && c.snapshot == previous && (c.reset <==> !resetFails) && (c.escaped.Some? <==> resetFails)
    // null JSON details throw from the catch clause
    ensures attempt == Threw(JsonResponse(NoDetails)) ==> c == Caught(previous, false, Some(NullPointer))
    // any other exception clears the snapshot and leaves credentials alone
    ensures attempt.Threw? && !attempt.failure.JsonResponse? && !attempt.failure.TokenResponse? ==>
              c == Caught(None, false, None)
    ensures c.escaped.Some? ==> c.escaped.value in {NullPointer, IllegalState} && c.snapshot == previous
    ensures attempt == Unchanged ==> c == Caught(previous, false, None)
    ensures attempt.Synchronized? ==> c == Caught(Some(attempt.data), false, None)
  {
    match attempt
    case Unchanged => Caught(previous, false, None)
    case Synchronized(data) => Caught(Some(data), false, None)
    case Threw(failure) =>
      match failure
      case JsonResponse(details) =>
        (match RequiresCredentialsReset(details)
         case Failure(e) => Caught(previous, false, Some(e))
         case Success(resets) => if resets then Reset(previous, resetFails) else Caught(previous, false, None))
      case TokenResponse => Reset(previous, resetFails)
      case _ => Caught(None, false, None)
  }

  /** The loop's state: snapshots, remote account, credential store, and the
      exception that ended the loop early. */
  datatype FlowState = FlowState(
    snapshots: seq<Snapshot>,
    account: Account,
    credentials: map<string, Credential>,
    escaped: Option<Failure>)

  /** What one binding's try block and catch clauses leave behind. */
  datatype BindingState = BindingState(
    snapshot: Snapshot,
    account: Account,
    credentials: map<string, Credential>,
    escaped: Option<Failure>)

  function Process(previous: Snapshot, a: Account, credentials: map<string, Credential>,
                   userId: string, name: string, env: BindingEnv): (r: BindingState)
    ensures r.credentials == credentials || r.credentials == credentials - {userId}
    ensures r.escaped.Some? ==> r.escaped.value in {NullPointer, IllegalState} && r.snapshot == previous
    ensures r.account.calendarList == a.calendarList
  {
    var attempt := TryBinding(previous, a, name, MaxListedEvents, env);
    var c := AfterCatch(previous, attempt.attempt, env.resetFails);
    BindingState(c.snapshot, attempt.account, if c.reset then credentials - {userId} else credentials, c.escaped)
  }

  /** One iteration; nothing happens once an exception has escaped. */
  function Step(s: FlowState, i: nat, userId: string, names: seq<string>, env: seq<BindingEnv>): (t: FlowState)
    requires i < |s.snapshots| && |names| == |s.snapshots| && |env| == |s.snapshots|
    ensures |t.snapshots| == |s.snapshots|
    ensures s.escaped.Some? ==> t == s
    ensures t.account.calendarList == s.account.calendarList
  {
    if s.escaped.Some? then s
    else
      var b := Process(s.snapshots[i], s.account, s.credentials, userId, names[i], env[i]);
      FlowState(s.snapshots[i := b.snapshot], b.account, b.credentials, b.escaped)
  }

  function Run(init: FlowState, userId: string, names: seq<string>, env: seq<BindingEnv>, n: nat): (s: FlowState)
    requires n <= |init.snapshots| && |names| == |init.snapshots| && |env| == |init.snapshots|
    ensures |s.snapshots| == |init.snapshots|
    ensures s.account.calendarList == init.account.calendarList
  {
    if n == 0 then init else Step(Run(init, userId, names, env, n - 1), n - 1, userId, names, env)
  }

  /** mergeCalendarDataToGoogleCalendar of this revision: up to 2500 listed events. */
  method MergeCalendarDataToGoogleCalendar(service: CalendarService, calendarData: CalendarData, googleCalendarName: string, faults: MergeFaults)
    returns (r: Outcome<Failure>)
    modifies service
    ensures MergeResult(r, service.account)
            == MergeSpec(old(service.account), calendarData.events, googleCalendarName, MaxListedEvents, faults)
  {
    r := Merge(service, calendarData.events, googleCalendarName, MaxListedEvents, faults);
  }

  /** The body of the binding loop with its three catch clauses. */
  method SynchronizeBinding(userFlow: UserFlow, calendarFlow: CalendarFlow, service: CalendarService, env: BindingEnv)
    returns (escaped: Option<Failure>)
    modifies calendarFlow, service, userFlow.googleApiService.store
    ensures BindingState(Flows.Snapshot(calendarFlow), service.account, userFlow.googleApiService.store.credentials, escaped)
            == Process(old(Flows.Snapshot(calendarFlow)), old(service.account), old(userFlow.googleApiService.store.credentials),
                       userFlow.userId, calendarFlow.googleCalendarName, env)
  {
    escaped := None;
    var failure: Option<Failure> := None;
    var calendarData := ReadICalendar(calendarFlow, env.feed);
    if calendarData.Failure? {
      failure := Some(calendarData.error);
    } else if calendarData.value != null {
      var merged := MergeCalendarDataToGoogleCalendar(service, calendarData.value, calendarFlow.googleCalendarName, env.faults);
      if merged.Pass? {
        calendarFlow.SetPreviousData(calendarData.value);
      } else {
        failure := Some(merged.error);
      }
    }
    if failure.Some? {
      match failure.value
      case JsonResponse(details) =>
        var resets := RequiresCredentialsReset(details);
        if resets.Failure? {
          escaped := Some(resets.error);
        } else if resets.value {
          escaped := userFlow.ResetCredentials(env.resetFails);
        }
      case TokenResponse =>
        escaped := userFlow.ResetCredentials(env.resetFails);
      case _ =>
        calendarFlow.SetPreviousData(null);
    }
  }

  /** One iteration of the binding loop: the i-th binding is processed and
      no other binding changes. */
  method SynchronizeAt(userFlow: UserFlow, service: CalendarService, env: seq<BindingEnv>, i: nat, ghost s: FlowState)
    returns (escaped: Option<Failure>)
    requires userFlow.Valid()
    requires i < |userFlow.calendarFlows| && |env| == |userFlow.calendarFlows|
    requires s == FlowState(Snapshots(userFlow.calendarFlows), service.account, userFlow.googleApiService.store.credentials, None)
    modifies userFlow.calendarFlows[i], service, userFlow.googleApiService.store
    ensures Step(s, i, userFlow.userId, Names(userFlow.calendarFlows), env)
            == FlowState(Snapshots(userFlow.calendarFlows), service.account, userFlow.googleApiService.store.credentials, escaped)
  {
    var flows := userFlow.calendarFlows;
    escaped := SynchronizeBinding(userFlow, flows[i], service, env[i]);
    assert Snapshots(flows) == s.snapshots[i := Flows.Snapshot(flows[i])] by {
      forall j | 0 <= j < |flows| && j != i
        ensures Flows.Snapshot(flows[j]) == s.snapshots[j]
      {
        assert flows[j] != flows[i];
      }
    }
  }

  /** The for loop over the bindings, in order; it stops at the first
      exception that escapes a catch clause. */
  method SynchronizeBindings(userFlow: UserFlow, service: CalendarService, env: seq<BindingEnv>)
    returns (r: Outcome<Failure>)
    requires userFlow.Valid()
    requires |env| == |userFlow.calendarFlows|
    modifies (set cf | cf in userFlow.calendarFlows), service, userFlow.googleApiService.store
    ensures FlowState(Snapshots(userFlow.calendarFlows), service.account, userFlow.googleApiService.store.credentials,
                      if r.Fail? then Some(r.error) else None)
            == Run(FlowState(old(Snapshots(userFlow.calendarFlows)), old(service.account),
                             old(userFlow.googleApiService.store.credentials), None),
                   userFlow.userId, Names(userFlow.calendarFlows), env, |userFlow.calendarFlows|)
  {
    var flows := userFlow.calendarFlows;
    var store := userFlow.googleApiService.store;
    ghost var init := FlowState(Snapshots(flows), service.account, store.credentials, None);
    ghost var names := Names(flows);
    var i := 0;
    var escaped: Option<Failure> := None;
    while i < |flows| && escaped.None?
      invariant 0 <= i <= |flows|
      invariant Run(init, userFlow.userId, names, env, i) == FlowState(Snapshots(flows), service.account, store.credentials, escaped)
    {
      ghost var current := Run(init, userFlow.userId, names, env, i);
      escaped := SynchronizeAt(userFlow, service, env, i, current);
      i := i + 1;
    }
    EscapeIsFinal(init, userFlow.userId, names, env, i, |flows|);
    r := if escaped.Some? then Fail(escaped.value) else Pass;
  }

  /** synchronizeUserCalendars. The authorization input is the outcome of
      getCalendarService; its failure, or an exception that escapes a catch
      clause, ends the call, and finish() runs on every path. */
  method SynchronizeUserCalendars(userFlow: UserFlow, authorization: Outcome<Failure>, service: CalendarService, env: seq<BindingEnv>)
    returns (r: Outcome<Failure>)
    requires userFlow.Valid()
    requires |env| == |userFlow.calendarFlows|
    modifies userFlow, (set cf | cf in userFlow.calendarFlows), service, userFlow.googleApiService.store
    ensures userFlow.calendarFlows == old(userFlow.calendarFlows)
    ensures old(userFlow.active) ==>
              && userFlow.active && r == Pass && service.account == old(service.account)
              && Snapshots(userFlow.calendarFlows) == old(Snapshots(userFlow.calendarFlows))
              && userFlow.googleApiService.store.credentials == old(userFlow.googleApiService.store.credentials)
    ensures !old(userFlow.active) ==> !userFlow.active
    ensures !old(userFlow.active) && authorization.Fail? ==>
              && r == authorization && service.account == old(service.account)
              && Snapshots(userFlow.calendarFlows) == old(Snapshots(userFlow.calendarFlows))
              && userFlow.googleApiService.store.credentials == old(userFlow.googleApiService.store.credentials)
    ensures !old(userFlow.active) && authorization.Pass? ==>
              var s := Run(FlowState(old(Snapshots(userFlow.calendarFlows)), old(service.account),
                                     old(userFlow.googleApiService.store.credentials), None),
                           userFlow.userId, Names(userFlow.calendarFlows), env, |userFlow.calendarFlows|);
              && Snapshots(userFlow.calendarFlows) == s.snapshots
              && service.account == s.account
              && userFlow.googleApiService.store.credentials == s.credentials
              && r == (if s.escaped.Some? then Fail(s.escaped.value) else Pass)
  {
    if userFlow.active {
      return Pass;
    }
    ghost var snapshots := Snapshots(userFlow.calendarFlows);
    userFlow.Start();
    assert Snapshots(userFlow.calendarFlows) == snapshots;
    if authorization.Fail? {
      r := authorization;
    } else {
      r := SynchronizeBindings(userFlow, service, env);
    }
    userFlow.Finish();
  }

  // ----- properties of the binding loop -----

  /** Once an exception has left the loop, no later binding runs. */
  lemma {:induction false} EscapeIsFinal(init: FlowState, userId: string, names: seq<string>, env: seq<BindingEnv>, j: nat, n: nat)
    requires j <= n <= |init.snapshots| && |names| == |init.snapshots| && |env| == |init.snapshots|
    requires j == n || Run(init, userId, names, env, j).escaped.Some?
    ensures Run(init, userId, names, env, n) == Run(init, userId, names, env, j)
    decreases n - j
  {
    if n > j {
      EscapeIsFinal(init, userId, names, env, j, n - 1);
    }
  }

  /** An escape is never undone: once the loop has stopped it stays stopped. */
  lemma {:induction false} NoEscapeBefore(init: FlowState, userId: string, names: seq<string>, env: seq<BindingEnv>, j: nat, n: nat)
    requires j <= n <= |init.snapshots| && |names| == |init.snapshots| && |env| == |init.snapshots|
    requires init.escaped.None?
    requires Run(init, userId, names, env, n).escaped.None?
    ensures Run(init, userId, names, env, j).escaped.None?
    decreases n - j
  {
    if j < n && Run(init, userId, names, env, j).escaped.Some? {
      EscapeIsFinal(init, userId, names, env, j, n);
    }
  }

  /** A binding not yet reached keeps its snapshot. */
  lemma {:induction false} RunLeavesLaterBindings(init: FlowState, userId: string, names: seq<string>, env: seq<BindingEnv>, n: nat, j: nat)
    requires n <= j < |init.snapshots| && |names| == |init.snapshots| && |env| == |init.snapshots|
    ensures Run(init, userId, names, env, n).snapshots[j] == init.snapshots[j]
  {
    if n > 0 {
      RunLeavesLaterBindings(init, userId, names, env, n - 1, j);
    }
  }

  /** Error isolation: when no exception left the loop, every binding ran,
      in order, and its final snapshot is what its own catch clauses left,
      on the remote state and credentials its predecessors left. */
  lemma {:induction false} BindingOutcome(init: FlowState, userId: string, names: seq<string>, env: seq<BindingEnv>, n: nat, j: nat)
    requires j < n <= |init.snapshots| && |names| == |init.snapshots| && |env| == |init.snapshots|
    requires init.escaped.None? && Run(init, userId, names, env, n).escaped.None?
    ensures var before := Run(init, userId, names, env, j);
            Run(init, userId, names, env, n).snapshots[j]
              == Process(init.snapshots[j], before.account, before.credentials, userId, names[j], env[j]).snapshot
  {
    NoEscapeBefore(init, userId, names, env, j, n);
    LaterStepsKeepBinding(init, userId, names, env, n, j);
    RunLeavesLaterBindings(init, userId, names, env, j, j);
  }

  /** After its own iteration, a binding's snapshot is never touched again. */
  lemma {:induction false} LaterStepsKeepBinding(init: FlowState, userId: string, names: seq<string>, env: seq<BindingEnv>, n: nat, j: nat)
    requires j < n <= |init.snapshots| && |names| == |init.snapshots| && |env| == |init.snapshots|
    ensures Run(init, userId, names, env, n).snapshots[j] == Run(init, userId, names, env, j + 1).snapshots[j]
  {
    if n > j + 1 {
      LaterStepsKeepBinding(init, userId, names, env, n - 1, j);
      StepKeepsOtherBindings(Run(init, userId, names, env, n - 1), n - 1, userId, names, env, j);
    }
  }

  /** One iteration touches only its own binding's snapshot. */
  lemma StepKeepsOtherBindings(s: FlowState, i: nat, userId: string, names: seq<string>, env: seq<BindingEnv>, j: nat)
    requires i < |s.snapshots| && |names| == |s.snapshots| && |env| == |s.snapshots|
    requires j < |s.snapshots| && j != i
    ensures Step(s, i, userId, names, env).snapshots[j] == s.snapshots[j]
  {
  }

  /** The only change to the credential store is the deletion of this user's
      entry: other users' credentials are never touched. */
  lemma {:induction false} OnlyOwnCredentialsReset(init: FlowState, userId: string, names: seq<string>, env: seq<BindingEnv>, n: nat)
    requires n <= |init.snapshots| && |names| == |init.snapshots| && |env| == |init.snapshots|
    ensures var creds := Run(init, userId, names, env, n).credentials;
            creds == init.credentials || creds == init.credentials - {userId}
  {
    if n > 0 {
      OnlyOwnCredentialsReset(init, userId, names, env, n - 1);
      var prev := Run(init, userId, names, env, n - 1).credentials;
      if prev == init.credentials - {userId} {
        assert prev - {userId} == init.credentials - {userId};
      }
    }
  }

  /** An unchanged feed: the binding's try block ends without a remote call
      and its catch clauses do not run. */
  lemma ProcessUnchangedFeed(previous: Snapshot, a: Account, credentials: map<string, Credential>,
                             userId: string, name: string, env: BindingEnv)
    requires FeedData(env.feed).Success? && previous == Some(FeedData(env.feed).value)
    ensures Process(previous, a, credentials, userId, name, env) == BindingState(previous, a, credentials, None)
  {
    ChangeDetection(previous, a, name, MaxListedEvents, env);
  }

  /** Idempotence: once every snapshot equals what its feed parses to, running
      again on the same feeds changes nothing at all, whatever the faults. */
  lemma {:induction false} ResyncWithUnchangedFeedsIsIdle(s: FlowState, userId: string, names: seq<string>, env: seq<BindingEnv>, n: nat)
    requires n <= |s.snapshots| && |names| == |s.snapshots| && |env| == |s.snapshots|
    requires s.escaped.None?
    requires forall j :: 0 <= j < |s.snapshots| ==>
               FeedData(env[j].feed).Success? && s.snapshots[j] == Some(FeedData(env[j].feed).value)
    ensures Run(s, userId, names, env, n) == s
  {
    if n > 0 {
      ResyncWithUnchangedFeedsIsIdle(s, userId, names, env, n - 1);
      ProcessUnchangedFeed(s.snapshots[n - 1], s.account, s.credentials, userId, names[n - 1], env[n - 1]);
      assert s.snapshots[n - 1 := s.snapshots[n - 1]] == s.snapshots;
    }
  }
}

/** CalendarsSynchronizer: the first revision of the per-user flow. It builds
    the user flows from configuration, and for one user runs every binding,
    clearing a binding's snapshot on any exception. */
module CalendarsSynchronizer {
  import opened Wrappers
  import opened Errors
  import opened Domain
  import opened Remote
  import opened MergeWriter
  import opened Flows
  import opened Sync

  /** Configuration records (already validated). */
  datatype ConfigUser = ConfigUser(id: string, email: string)
  datatype ConfigFlow = ConfigFlow(userId: string, iCalUrl: string, googleCalendarName: string, defaultICalTimeZone: string)

  /** The immutable part of a binding. */
  datatype Binding = Binding(iCalUrl: string, googleCalendarName: string)

  /** The nested UserFlow: a user's bindings and the skip-if-running flag. */
  class UserFlow {
    const userId: string
    const userEmail: string
    var calendarFlows: seq<CalendarFlow>
    var active: bool

    constructor (userId: string, userEmail: string)
      ensures this.userId == userId && this.userEmail == userEmail
      ensures calendarFlows == [] && !active
    {
      this.userId := userId;
      this.userEmail := userEmail;
      calendarFlows := [];
      active := false;
    }

    /** No binding object occurs twice. */
    ghost predicate Valid()
      reads this
    {
      forall i, j :: 0 <= i < j < |calendarFlows| ==> calendarFlows[i] != calendarFlows[j]
    }

    method Start()
      modifies this
      ensures active && calendarFlows == old(calendarFlows)
    {
      active := true;
    }

    method Finish()
      modifies this
      ensures !active && calendarFlows == old(calendarFlows)
    {
      active := false;
    }
  }

  // ----- building the flows from configuration -----

  predicate KnownUser(users: seq<ConfigUser>, id: string)
  {
    exists k :: 0 <= k < |users| && users[k].id == id
  }

  /** createUserFlowByUserId: a new flow for some configured user with this
      id (findAny), or IllegalArgumentException. */
  method CreateUserFlowByUserId(users: seq<ConfigUser>, userId: string) returns (r: Result<UserFlow, Failure>)
    ensures r.Failure? <==> !KnownUser(users, userId)
    ensures r.Failure? ==> r.error == IllegalArgument
    ensures r.Success? ==> fresh(r.value) && r.value.userId == userId && !r.value.active && r.value.calendarFlows == []
    ensures r.Success? ==> exists k :: 0 <= k < |users| && users[k] == ConfigUser(userId, r.value.userEmail)
  {
    var k := 0;
    while k < |users|
      invariant 0 <= k <= |users|
      invariant forall j :: 0 <= j < k ==> users[j].id != userId
    {
      if users[k].id == userId {
        var userFlow := new UserFlow(users[k].id, users[k].email);
        return Success(userFlow);
      }
      k := k + 1;
    }
    r := Failure(IllegalArgument);
  }

  /** The bindings configured for a user, in configuration order. */
  function BindingsOf(flows: seq<ConfigFlow>, userId: string): seq<Binding>
  {
    if flows == [] then []
    else
      var last := flows[|flows| - 1];
      BindingsOf(flows[..|flows| - 1], userId)
        + (if last.userId == userId then [Binding(last.iCalUrl, last.googleCalendarName)] else [])
  }

  /** A user named by no flow has no bindings. */
  lemma {:induction false} BindingsOfAbsent(flows: seq<ConfigFlow>, userId: string)
    requires forall j :: 0 <= j < |flows| ==> flows[j].userId != userId
    ensures BindingsOf(flows, userId) == []
  {
    if flows != [] {
      BindingsOfAbsent(flows[..|flows| - 1], userId);
    }
  }

  function Bindings(calendarFlows: seq<CalendarFlow>): (r: seq<Binding>)
    ensures |r| == |calendarFlows|
  {
    seq(|calendarFlows|, k requires 0 <= k < |calendarFlows| =>
          Binding(calendarFlows[k].iCalUrl, calendarFlows[k].googleCalendarName))
  }

  /** One user flow as getUserFlows leaves it. */
  ghost predicate Configured(userFlow: UserFlow, id: string, users: seq<ConfigUser>, flows: seq<ConfigFlow>)
    reads userFlow, set cf | cf in userFlow.calendarFlows
  {
    && userFlow.userId == id
    && (exists k :: 0 <= k < |users| && users[k] == ConfigUser(id, userFlow.userEmail))
    && !userFlow.active
    && userFlow.Valid()
    && Bindings(userFlow.calendarFlows) == BindingsOf(flows, id)
    && forall k :: 0 <= k < |userFlow.calendarFlows| ==> userFlow.calendarFlows[k].previousData == null
  }

  ghost function FlowObjects(userFlows: map<string, UserFlow>): set<CalendarFlow>
    reads userFlows.Values
  {
    set id, k | id in userFlows && 0 <= k < |userFlows[id].calendarFlows| :: userFlows[id].calendarFlows[k]
  }

  /** The map getUserFlows has built after the configured flows in prefix:
      one distinct flow per user named there (or pending, created but not yet
      given its binding), each as Configured. */
  ghost predicate Grouped(userFlows: map<string, UserFlow>, users: seq<ConfigUser>, prefix: seq<ConfigFlow>, pending: set<string>)
    reads userFlows.Values, FlowObjects(userFlows)
  {
    && (forall id :: id in userFlows <==> id in pending || exists j :: 0 <= j < |prefix| && prefix[j].userId == id)
    && (forall a, b :: a in userFlows && b in userFlows && a != b ==> userFlows[a] != userFlows[b])
    && forall id :: id in userFlows ==> Configured(userFlows[id], id, users, prefix)
  }

  /** getUserFlows: groups the configured flows by user, appending bindings in
      configuration order; a flow naming an unknown user is an error. */
  method GetUserFlows(users: seq<ConfigUser>, flows: seq<ConfigFlow>) returns (r: Result<map<string, UserFlow>, Failure>)
    ensures r.Failure? <==> exists i :: 0 <= i < |flows| && !KnownUser(users, flows[i].userId)
    ensures r.Failure? ==> r.error == IllegalArgument
    ensures r.Success? ==> r.value.Keys == set i | 0 <= i < |flows| :: flows[i].userId
    ensures r.Success? ==> forall id :: id in r.value ==> Configured(r.value[id], id, users, flows)
    ensures r.Success? ==> forall a, b :: a in r.value && b in r.value && a != b ==> r.value[a] != r.value[b]
  {
    var userFlowsMap: map<string, UserFlow> := map[];
    var i := 0;
    while i < |flows|
      invariant 0 <= i <= |flows|
      invariant forall j :: 0 <= j < i ==> KnownUser(users, flows[j].userId)
      invariant forall id :: id in userFlowsMap ==> fresh(userFlowsMap[id])
      invariant Grouped(userFlowsMap, users, flows[..i], {})
    {
      var grouped := GroupFlow(userFlowsMap, users, flows[..i], flows[i]);
      if grouped.Failure? {
        return Failure(grouped.error);
      }
      userFlowsMap := grouped.value;
      assert flows[..i + 1] == flows[..i] + [flows[i]];
      i := i + 1;
    }
    assert flows[..i] == flows;
    GroupedAll(userFlowsMap, users, flows);
    r := Success(userFlowsMap);
  }

  /** The grouping after every configured flow, as getUserFlows returns it. */
  lemma GroupedAll(userFlows: map<string, UserFlow>, users: seq<ConfigUser>, flows: seq<ConfigFlow>)
    requires Grouped(userFlows, users, flows, {})
    ensures userFlows.Keys == set i | 0 <= i < |flows| :: flows[i].userId
    ensures forall id :: id in userFlows ==> Configured(userFlows[id], id, users, flows)
    ensures forall a, b :: a in userFlows && b in userFlows && a != b ==> userFlows[a] != userFlows[b]
  {
    assert forall id :: id in userFlows <==> id in set i | 0 <= i < |flows| :: flows[i].userId;
  }

  /** One iteration of getUserFlows: computeIfAbsent on the flow's user, then
      the binding appended to that user's list. */
  method GroupFlow(userFlows: map<string, UserFlow>, users: seq<ConfigUser>, ghost prefix: seq<ConfigFlow>, configFlow: ConfigFlow)
    returns (r: Result<map<string, UserFlow>, Failure>)
    requires Grouped(userFlows, users, prefix, {})
    modifies userFlows.Values
    ensures r.Failure? <==> !KnownUser(users, configFlow.userId)
    ensures r.Failure? ==> r.error == IllegalArgument
    ensures r.Success? ==> Grouped(r.value, users, prefix + [configFlow], {})
    ensures r.Success? ==> forall id :: id in r.value ==> (id in userFlows && r.value[id] == userFlows[id]) || fresh(r.value[id])
  {
    var userFlowsMap := userFlows;
    if configFlow.userId !in userFlowsMap {
      var created := CreateUserFlowByUserId(users, configFlow.userId);
      if created.Failure? {
        return Failure(created.error);
      }
      AddUserFlow(userFlowsMap, users, prefix, created.value);
      userFlowsMap := userFlowsMap[configFlow.userId := created.value];
    } else {
      assert Configured(userFlowsMap[configFlow.userId], configFlow.userId, users, prefix);
      assert Grouped(userFlowsMap, users, prefix, {configFlow.userId});
    }
    AddCalendarFlow(userFlowsMap, users, prefix, configFlow);
    r := Success(userFlowsMap);
  }

  /** computeIfAbsent: a newly created flow for a user not yet named joins the map. */
  lemma AddUserFlow(userFlows: map<string, UserFlow>, users: seq<ConfigUser>, prefix: seq<ConfigFlow>, userFlow: UserFlow)
    requires Grouped(userFlows, users, prefix, {})
    requires userFlow.userId !in userFlows && userFlow !in userFlows.Values
    requires userFlow.calendarFlows == [] && !userFlow.active
    requires exists k :: 0 <= k < |users| && users[k] == ConfigUser(userFlow.userId, userFlow.userEmail)
    ensures Grouped(userFlows[userFlow.userId := userFlow], users, prefix, {userFlow.userId})
  {
    assert forall j :: 0 <= j < |prefix| ==> prefix[j].userId != userFlow.userId;
    BindingsOfAbsent(prefix, userFlow.userId);
  }

  /** The bindings list of the flow's user gets a new binding with no snapshot. */
  method AddCalendarFlow(userFlows: map<string, UserFlow>, users: seq<ConfigUser>, ghost prefix: seq<ConfigFlow>, configFlow: ConfigFlow)
    requires configFlow.userId in userFlows
    requires Grouped(userFlows, users, prefix, {configFlow.userId})
    modifies userFlows[configFlow.userId]
    ensures Grouped(userFlows, users, prefix + [configFlow], {})
  {
    var userFlow := userFlows[configFlow.userId];
    var calendarFlow := new CalendarFlow(configFlow.iCalUrl, configFlow.googleCalendarName);
    ghost var extended := prefix + [configFlow];
    ghost var previous := userFlow.calendarFlows;
    userFlow.calendarFlows := userFlow.calendarFlows + [calendarFlow];
    forall id | id in userFlows
      ensures Configured(userFlows[id], id, users, extended)
    {
      BindingsOfAppend(prefix, configFlow, id);
      if id == configFlow.userId {
        assert Bindings(previous + [calendarFlow])
            == Bindings(previous) + [Binding(configFlow.iCalUrl, configFlow.googleCalendarName)];
      } else {
        assert userFlows[id] != userFlow;
      }
    }
    forall id | id in userFlows
      ensures exists j :: 0 <= j < |extended| && extended[j].userId == id
    {
      if id == configFlow.userId {
        assert extended[|prefix|] == configFlow;
      } else {
        var j :| 0 <= j < |prefix| && prefix[j].userId == id;
        assert extended[j] == prefix[j];
      }
    }
  }

  lemma BindingsOfAppend(flows: seq<ConfigFlow>, configFlow: ConfigFlow, userId: string)
    ensures BindingsOf(flows + [configFlow], userId)
         == BindingsOf(flows, userId)
            + (if configFlow.userId == userId then [Binding(configFlow.iCalUrl, configFlow.googleCalendarName)] else [])
  {
    assert (flows + [configFlow])[..|flows|] == flows;
  }

  // ----- synchronizing one user -----

  datatype SyncState = SyncState(snapshots: seq<Snapshot>, account: Account)

  /** The snapshot a binding keeps after its try block: any exception clears it. */
  function AfterAttempt(previous: Snapshot, attempt: Attempt): (s: Snapshot)
    ensures s.None? <==> attempt.Threw? || (attempt.Unchanged? && previous.None?)
    ensures s.Some? && s != previous ==> attempt.Synchronized? && s.value == attempt.data
  {
    match attempt
    case Unchanged => previous
    case Synchronized(data) => Some(data)
    case Threw(_) => None
  }

  /** One iteration of the binding loop. */
  function Step(s: SyncState, i: nat, names: seq<string>, env: seq<BindingEnv>): (t: SyncState)
    requires i < |s.snapshots| && |names| == |s.snapshots| && |env| == |s.snapshots|
    ensures |t.snapshots| == |s.snapshots|
    ensures t.account.calendarList == s.account.calendarList
  {
    var attempt := TryBinding(s.snapshots[i], s.account, names[i], DefaultListedEvents, env[i]);
    SyncState(s.snapshots[i := AfterAttempt(s.snapshots[i], attempt.attempt)], attempt.account)
  }

  /** The first n iterations, in binding order. */
  function Run(init: SyncState, names: seq<string>, env: seq<BindingEnv>, n: nat): (s: SyncState)
    requires n <= |init.snapshots| && |names| == |init.snapshots| && |env| == |init.snapshots|
    ensures |s.snapshots| == |init.snapshots|
    ensures s.account.calendarList == init.account.calendarList
  {
    if n == 0 then init else Step(Run(init, names, env, n - 1), n - 1, names, env)
  }

  /** mergeCalendarDataToGoogleCalendar of this revision: the listing bound
      is the service default. */
  method MergeCalendarDataToGoogleCalendar(service: CalendarService, calendarData: CalendarData, googleCalendarName: string, faults: MergeFaults)
    returns (r: Outcome<Failure>)
    modifies service
    ensures MergeResult(r, service.account)
            == MergeSpec(old(service.account), calendarData.events, googleCalendarName, DefaultListedEvents, faults)
  {
    r := Merge(service, calendarData.events, googleCalendarName, DefaultListedEvents, faults);
  }

  /** The body of the binding loop: read the feed, merge when it changed,
      and record the new snapshot. */
  method SynchronizeBinding(calendarFlow: CalendarFlow, service: CalendarService, env: BindingEnv)
    modifies calendarFlow, service
    ensures var attempt := TryBinding(old(Flows.Snapshot(calendarFlow)), old(service.account),
                                      calendarFlow.googleCalendarName, DefaultListedEvents, env);
            && Flows.Snapshot(calendarFlow) == AfterAttempt(old(Flows.Snapshot(calendarFlow)), attempt.attempt)
            && service.account == attempt.account
  {
    var calendarData := ReadICalendar(calendarFlow, env.feed);
    if calendarData.Failure? {
      calendarFlow.SetPreviousData(null);
    } else if calendarData.value != null {
      var merged := MergeCalendarDataToGoogleCalendar(service, calendarData.value, calendarFlow.googleCalendarName, env.faults);
      if merged.Pass? {
        calendarFlow.SetPreviousData(calendarData.value);
      } else {
        calendarFlow.SetPreviousData(null);
      }
    }
  }

  /** The for loop over the bindings, in configured order. */
  method SynchronizeBindings(userFlow: UserFlow, service: CalendarService, env: seq<BindingEnv>)
    requires userFlow.Valid()
    requires |env| == |userFlow.calendarFlows|
    modifies (set cf | cf in userFlow.calendarFlows), service
    ensures SyncState(Snapshots(userFlow.calendarFlows), service.account)
            == Run(SyncState(old(Snapshots(userFlow.calendarFlows)), old(service.account)),
                   Names(userFlow.calendarFlows), env, |userFlow.calendarFlows|)
  {
    var flows := userFlow.calendarFlows;
    ghost var init := SyncState(Snapshots(flows), service.account);
    ghost var names := Names(flows);
    var i := 0;
    while i < |flows|
      invariant 0 <= i <= |flows|
      invariant SyncState(Snapshots(flows), service.account) == Run(init, names, env, i)
    {
      ghost var before := Snapshots(flows);
      ghost var attempt := TryBinding(before[i], service.account, names[i], DefaultListedEvents, env[i]);
      SynchronizeBinding(flows[i], service, env[i]);
      assert Snapshots(flows) == before[i := AfterAttempt(before[i], attempt.attempt)] by {
        forall j | 0 <= j < |flows| && j != i
          ensures Flows.Snapshot(flows[j]) == before[j]
        {
          assert flows[j] != flows[i];
        }
      }
      i := i + 1;
    }
  }

  /** synchronizeUserCalendars. The authorization input is the outcome of
      getCalendarService; its failure aborts every binding, and finish()
      runs on every path. */
  method SynchronizeUserCalendars(userFlow: UserFlow, authorization: Outcome<Failure>, service: CalendarService, env: seq<BindingEnv>)
    returns (r: Outcome<Failure>)
    requires userFlow.Valid()
    requires |env| == |userFlow.calendarFlows|
    modifies userFlow, (set cf | cf in userFlow.calendarFlows), service
    ensures userFlow.calendarFlows == old(userFlow.calendarFlows)
    ensures old(userFlow.active) ==>
              && userFlow.active && r == Pass && service.account == old(service.account)
              && Snapshots(userFlow.calendarFlows) == old(Snapshots(userFlow.calendarFlows))
    ensures !old(userFlow.active) ==> !userFlow.active
    ensures !old(userFlow.active) && authorization.Fail? ==>
              && r == authorization && service.account == old(service.account)
              && Snapshots(userFlow.calendarFlows) == old(Snapshots(userFlow.calendarFlows))
    ensures !old(userFlow.active) && authorization.Pass? ==>
              && r == Pass
              && SyncState(Snapshots(userFlow.calendarFlows), service.account)
                 == Run(SyncState(old(Snapshots(userFlow.calendarFlows)), old(service.account)),
                        Names(userFlow.calendarFlows), env, |userFlow.calendarFlows|)
  {
    if userFlow.active {
      return Pass;
    }
    ghost var snapshots := Snapshots(userFlow.calendarFlows);
    userFlow.Start();
    assert Snapshots(userFlow.calendarFlows) == snapshots;
    if authorization.Fail? {
      r := authorization;
    } else {
      SynchronizeBindings(userFlow, service, env);
      r := Pass;
    }
    userFlow.Finish();
  }

  // ----- properties of the binding loop -----

  /** An iteration touches only its own binding's snapshot. */
  lemma StepKeepsOtherBindings(s: SyncState, i: nat, names: seq<string>, env: seq<BindingEnv>, j: nat)
    requires i < |s.snapshots| && |names| == |s.snapshots| && |env| == |s.snapshots|
    requires j < |s.snapshots| && j != i
    ensures Step(s, i, names, env).snapshots[j] == s.snapshots[j]
  {
  }

  /** A binding not yet reached keeps its snapshot. */
  lemma {:induction false} RunLeavesLaterBindings(init: SyncState, names: seq<string>, env: seq<BindingEnv>, n: nat, j: nat)
    requires n <= j < |init.snapshots| && |names| == |init.snapshots| && |env| == |init.snapshots|
    ensures Run(init, names, env, n).snapshots[j] == init.snapshots[j]
  {
    if n > 0 {
      RunLeavesLaterBindings(init, names, env, n - 1, j);
      StepKeepsOtherBindings(Run(init, names, env, n - 1), n - 1, names, env, j);
    }
  }

  /** Error isolation, in order: each binding's final snapshot is decided by
      its own attempt, made on the remote state its predecessors left; a
      failure clears that binding's snapshot only, and later bindings run. */
  lemma {:induction false} BindingOutcome(init: SyncState, names: seq<string>, env: seq<BindingEnv>, n: nat, j: nat)
    requires j < n <= |init.snapshots| && |names| == |init.snapshots| && |env| == |init.snapshots|
    ensures var attempt := TryBinding(init.snapshots[j], Run(init, names, env, j).account, names[j], DefaultListedEvents, env[j]);
            Run(init, names, env, n).snapshots[j] == AfterAttempt(init.snapshots[j], attempt.attempt)
  {
    if n == j + 1 {
      RunLeavesLaterBindings(init, names, env, j, j);
    } else {
      BindingOutcome(init, names, env, n - 1, j);
      StepKeepsOtherBindings(Run(init, names, env, n - 1), n - 1, names, env, j);
    }
  }

  /** Idempotence: once every snapshot equals what its feed parses to, running
      again on the same feeds changes neither the snapshots nor the remote
      account, whatever the faults: no remote call is made. */
  lemma {:induction false} ResyncWithUnchangedFeedsIsIdle(s: SyncState, names: seq<string>, env: seq<BindingEnv>, n: nat)
    requires n <= |s.snapshots| && |names| == |s.snapshots| && |env| == |s.snapshots|
    requires forall j :: 0 <= j < |s.snapshots| ==>
               FeedData(env[j].feed).Success? && s.snapshots[j] == Some(FeedData(env[j].feed).value)
    ensures Run(s, names, env, n) == s
  {
    if n > 0 {
      ResyncWithUnchangedFeedsIsIdle(s, names, env, n - 1);
      assert s.snapshots[n - 1 := s.snapshots[n - 1]] == s.snapshots;
    }
  }
}

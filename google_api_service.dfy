/** GoogleApiService: the authorization coordinator. A pending request is an
    AuthorizationResponseCondition registered under its state token; the
    callback handler resolves it; the authorizing call then exchanges the
    code and stores the credential. The blocking wait is split into the part
    before it (BeginAuthorize) and the part after it (CompleteAuthorize). */
module GoogleApi {
  import opened Wrappers
  import opened Errors
  import opened Credentials

  const CallbackPath := "/google-calendar-auth-callback"

  /** The slot a waiting authorize call reads its response from. */
  class AuthorizationResponseCondition {
    var code: Option<string>
    var error: Option<string>

    constructor ()
      ensures code.None? && error.None?
    {
      code := None;
      error := None;
    }

    /** waitForAuthorizationCode loops while code and error are both null. */
    predicate Released()
      reads this
    {
      code.Some? || error.Some?
    }

    method OnAuthorizationResponse(code: Option<string>, error: Option<string>)
      modifies this
      ensures this.code == code && this.error == error
      ensures Released() <==> code.Some? || error.Some?
    {
      this.code := code;
      this.error := error;
    }
  }

  /** The part of authorize before the wait. */
  datatype AuthorizeStart =
    | Reused(credential: Credential)
    | Waiting(conditionId: string, condition: AuthorizationResponseCondition)
    | StartFailed(failure: Failure)

  datatype CallbackResult = Ignored | Delivered | CallbackFailed(failure: Failure)

  /** The exceptions authorize wraps: every IOException (a token or JSON
      response error is one) becomes a CalendarSynchronizationException. */
  function WrapIo(f: Failure): (r: Failure)
    ensures f.Io? || f.TokenResponse? || f.JsonResponse? ==> r == Synchronization
    ensures !(f.Io? || f.TokenResponse? || f.JsonResponse?) ==> r == f
  {
    if f.Io? || f.TokenResponse? || f.JsonResponse? then Synchronization else f
  }

  class GoogleApiService {
    const authorizationRedirectUrl: string
    const store: CredentialStore
    var authorizationResponseConditions: map<string, AuthorizationResponseCondition>

    constructor (authorizationRedirectUrlBase: string, store: CredentialStore)
      ensures authorizationRedirectUrl == authorizationRedirectUrlBase + CallbackPath
      ensures this.store == store && authorizationResponseConditions == map[]
    {
      authorizationRedirectUrl := authorizationRedirectUrlBase + CallbackPath;
      this.store := store;
      authorizationResponseConditions := map[];
    }

    /** resetCredentials: delete the user's entry; the store's IOException
        becomes an IllegalStateException. */
    method ResetCredentials(userId: string, ioFails: bool) returns (r: Outcome<Failure>)
      modifies store
      ensures ioFails ==> r == Fail(IllegalState) && store.credentials == old(store.credentials)
      ensures !ioFails ==> r == Pass && store.credentials == old(store.credentials) - {userId}
    {
      var deleted := store.Delete(userId, ioFails);
      if deleted.Fail? {
        return Fail(IllegalState);
      }
      r := Pass;
    }

    /** authorize up to the wait: reuse the stored credential, or register a
        new condition under the fresh state token conditionId (putIfAbsent). */
    method BeginAuthorize(userId: string, now: int, conditionId: string) returns (r: AuthorizeStart)
      modifies this
      ensures Reusable(store.Load(userId), now).Failure? ==>
                r == StartFailed(NullPointer) && authorizationResponseConditions == old(authorizationResponseConditions)
      ensures Reusable(store.Load(userId), now) == Success(true) ==>
                r == Reused(store.credentials[userId]) && authorizationResponseConditions == old(authorizationResponseConditions)
      ensures Reusable(store.Load(userId), now) == Success(false) ==>
                && r.Waiting? && r.conditionId == conditionId && fresh(r.condition) && !r.condition.Released()
                && authorizationResponseConditions
                   == if conditionId in old(authorizationResponseConditions) then old(authorizationResponseConditions)
                      else old(authorizationResponseConditions)[conditionId := r.condition]
    {
      var credential := store.Load(userId);
      var reuse := Reusable(credential, now);
      if reuse.Failure? {
        return StartFailed(reuse.error);
      }
      if reuse.value {
        return Reused(credential.value);
      }
      var condition := new AuthorizationResponseCondition();
      if conditionId !in authorizationResponseConditions {
        authorizationResponseConditions := authorizationResponseConditions[conditionId := condition];
      }
      r := Waiting(conditionId, condition);
    }

    /** CallbackHandler.handle: for the callback path, remove the condition
        registered under the state and hand it code and error. A null or
        unknown state fails (ConcurrentHashMap.remove, requireNonNull). */
    method HandleCallback(target: string, state: Option<string>, code: Option<string>, error: Option<string>)
      returns (r: CallbackResult)
      modifies this, authorizationResponseConditions.Values
      ensures target != CallbackPath ==>
                && r == Ignored && authorizationResponseConditions == old(authorizationResponseConditions)
                && forall c :: c in old(authorizationResponseConditions.Values) ==> unchanged(c)
      ensures target == CallbackPath && (state.None? || state.value !in old(authorizationResponseConditions)) ==>
                && r == CallbackFailed(NullPointer) && authorizationResponseConditions == old(authorizationResponseConditions)
                && forall c :: c in old(authorizationResponseConditions.Values) ==> unchanged(c)
      ensures target == CallbackPath && state.Some? && state.value in old(authorizationResponseConditions) ==>
                && r == Delivered
                && authorizationResponseConditions == old(authorizationResponseConditions) - {state.value}
                && old(authorizationResponseConditions)[state.value].code == code
                && old(authorizationResponseConditions)[state.value].error == error
                && forall c :: c in old(authorizationResponseConditions.Values) && c != old(authorizationResponseConditions)[state.value]
                     ==> unchanged(c)
    {
      if target != CallbackPath {
        return Ignored;
      }
      if state.None? || state.value !in authorizationResponseConditions {
        return CallbackFailed(NullPointer);
      }
      var responseCondition := authorizationResponseConditions[state.value];
      authorizationResponseConditions := authorizationResponseConditions - {state.value};
      responseCondition.OnAuthorizationResponse(code, error);
      r := Delivered;
    }

    /** authorize after the wait: an error fails the call, otherwise the code
        is exchanged (the exchange outcome is an input) and the credential
        stored under the user id. */
    method CompleteAuthorize(userId: string, condition: AuthorizationResponseCondition,
                             exchange: Result<TokenResponse, Failure>, now: int)
      returns (r: AuthorizeResult)
      modifies store
      ensures !condition.Released() ==> r == StillWaiting && store.credentials == old(store.credentials)
      ensures condition.Released() && condition.error.Some? ==>
                r == AuthorizeFailed(Synchronization) && store.credentials == old(store.credentials)
      ensures condition.Released() && condition.error.None? && exchange.Failure? ==>
                r == AuthorizeFailed(WrapIo(exchange.error)) && store.credentials == old(store.credentials)
      ensures condition.Released() && condition.error.None? && exchange.Success? ==>
                && r == Authorized(FromTokenResponse(exchange.value, now))
                && store.credentials == old(store.credentials)[userId := FromTokenResponse(exchange.value, now)]
    {
      if !condition.Released() {
        return StillWaiting;
      }
      if condition.error.Some? {
        return AuthorizeFailed(Synchronization);
      }
      if exchange.Failure? {
        return AuthorizeFailed(WrapIo(exchange.error));
      }
      var credential := FromTokenResponse(exchange.value, now);
      store.Store(userId, credential);
      r := Authorized(credential);
    }
  }
}

/** AuthorizationAppFactory: the second authorization coordinator. Each
    authorization app owns a verification-code receiver registered under
    the app's state; the callback handler stores the response in the
    receiver and leaves it registered. */
module AuthorizationApps {
  import opened Wrappers
  import opened Errors
  import opened Credentials
  import GoogleApi
  import opened Decimal

  // ----- the redirect URL -----

  /** "http://" + host + ":" + port + CALLBACK_PATH */
  function RedirectUrl(host: string, port: int): string
  {
    "http://" + host + ":" + IntToString(port) + GoogleApi.CallbackPath
  }

  /** The redirect URL ends in the callback path, and two factories on the
      same host agree on it only when their ports are equal. */
  lemma RedirectUrlDeterminesPort(host: string, p: int, q: int)
    ensures |RedirectUrl(host, p)| >= |GoogleApi.CallbackPath|
    ensures RedirectUrl(host, p)[|RedirectUrl(host, p)| - |GoogleApi.CallbackPath|..] == GoogleApi.CallbackPath
    ensures RedirectUrl(host, p) == RedirectUrl(host, q) ==> p == q
  {
    var url := RedirectUrl(host, p);
    var prefix := "http://" + host + ":";
    var suffix := GoogleApi.CallbackPath;
    assert url == prefix + IntToString(p) + suffix;
    assert url[|url| - |suffix|..] == suffix;
    if url == RedirectUrl(host, q) {
      assert IntToString(p) == url[|prefix|..|url| - |suffix|];
      assert RedirectUrl(host, q) == prefix + IntToString(q) + suffix;
      assert IntToString(q) == url[|prefix|..|url| - |suffix|];
      IntToStringInjective(p, q);
    }
  }

  // ----- receivers -----

  /** How waitForCode ends: still blocked, the code, or an IOException. */
  datatype CodeWait = Blocked | CodeReceived(code: string) | WaitFailed(failure: Failure)

  /** VerificationCodeReceiverImpl: the response slot of one app. */
  class VerificationCodeReceiver {
    const redirectUri: string
    var code: Option<string>
    var error: Option<string>

    constructor (redirectUri: string)
      ensures this.redirectUri == redirectUri && code.None? && error.None?
    {
      this.redirectUri := redirectUri;
      code := None;
      error := None;
    }

    predicate Released()
      reads this
    {
      code.Some? || error.Some?
    }

    method SetAuthorizationResponse(code: Option<string>, error: Option<string>)
      modifies this
      ensures this.code == code && this.error == error
    {
      this.code := code;
      this.error := error;
    }

    /** waitForCode once its loop exits: an error wins over a code. */
    function WaitForCode(): (r: CodeWait)
      reads this
      ensures r.Blocked? <==> !Released()
      ensures r.WaitFailed? <==> error.Some?
      ensures r.WaitFailed? ==> r.failure == Io
      ensures r.CodeReceived? <==> error.None? && code.Some?
      ensures r.CodeReceived? ==> r.code == code.value
    {
      if error.Some? then WaitFailed(Io)
      else if code.Some? then CodeReceived(code.value)
      else Blocked
    }
  }

  /** AuthorizationApp: a flow (its credential store), a state and a receiver. */
  class AuthorizationApp {
    const state: string
    const store: CredentialStore
    const receiver: VerificationCodeReceiver

    constructor (store: CredentialStore, state: string, receiver: VerificationCodeReceiver)
      ensures this.store == store && this.state == state && this.receiver == receiver
    {
      this.store := store;
      this.state := state;
      this.receiver := receiver;
    }

    /** authorize: reuse the stored credential, or wait for the code,
        exchange it (the exchange outcome is an input) and store the
        credential. Exceptions propagate unwrapped. */
    method Authorize(userId: string, now: int, exchange: Result<TokenResponse, Failure>) returns (r: AuthorizeResult)
      modifies store
      ensures Reusable(old(store.Load(userId)), now).Failure? ==>
                r == AuthorizeFailed(NullPointer) && store.credentials == old(store.credentials)
      ensures Reusable(old(store.Load(userId)), now) == Success(true) ==>
                r == Authorized(old(store.credentials)[userId]) && store.credentials == old(store.credentials)
      ensures Reusable(old(store.Load(userId)), now) == Success(false) ==>
                match receiver.WaitForCode()
                case Blocked => r == StillWaiting && store.credentials == old(store.credentials)
                case WaitFailed(f) => r == AuthorizeFailed(f) && store.credentials == old(store.credentials)
                case CodeReceived(_) =>
                  if exchange.Failure? then r == AuthorizeFailed(exchange.error) && store.credentials == old(store.credentials)
                  else && r == Authorized(FromTokenResponse(exchange.value, now))
                       && store.credentials == old(store.credentials)[userId := FromTokenResponse(exchange.value, now)]
    {
      var credential := store.Load(userId);
      var reuse := Reusable(credential, now);
      if reuse.Failure? {
        return AuthorizeFailed(reuse.error);
      }
      if reuse.value {
        return Authorized(credential.value);
      }
      var waited := receiver.WaitForCode();
      if waited.Blocked? {
        return StillWaiting;
      }
      if waited.WaitFailed? {
        return AuthorizeFailed(waited.failure);
      }
      if exchange.Failure? {
        return AuthorizeFailed(exchange.error);
      }
      var created := FromTokenResponse(exchange.value, now);
      store.Store(userId, created);
      r := Authorized(created);
    }
  }

  class AuthorizationAppFactory {
    const redirectUrl: string
    var receivers: map<string, VerificationCodeReceiver>

    constructor (host: string, port: int)
      ensures redirectUrl == RedirectUrl(host, port) && receivers == map[]
    {
      redirectUrl := RedirectUrl(host, port);
      receivers := map[];
    }

    /** createAuthorizationApp: a new receiver under the fresh id receiverId
        (putIfAbsent), and an app whose state is that id. */
    method CreateAuthorizationApp(store: CredentialStore, receiverId: string) returns (app: AuthorizationApp)
      modifies this
      ensures fresh(app) && fresh(app.receiver)
      ensures app.state == receiverId && app.store == store
      ensures app.receiver.redirectUri == redirectUrl && !app.receiver.Released()
      ensures receivers == if receiverId in old(receivers) then old(receivers) else old(receivers)[receiverId := app.receiver]
    {
      var receiver := new VerificationCodeReceiver(redirectUrl);
      if receiverId !in receivers {
        receivers := receivers[receiverId := receiver];
      }
      app := new AuthorizationApp(store, receiverId, receiver);
    }

    /** handleCallback: the receiver registered under state takes code and
        error and stays registered. A null state fails in the map lookup, an
        unknown one with IllegalStateException. */
    method HandleCallback(state: Option<string>, code: Option<string>, error: Option<string>) returns (r: Outcome<Failure>)
      modifies receivers.Values
      ensures receivers == old(receivers)
      ensures state.None? ==> r == Fail(NullPointer) && forall s :: s in receivers ==> unchanged(receivers[s])
      ensures state.Some? && state.value !in receivers ==>
                r == Fail(IllegalState) && forall s :: s in receivers ==> unchanged(receivers[s])
      ensures state.Some? && state.value in receivers ==>
                && r == Pass
                && receivers[state.value].code == code && receivers[state.value].error == error
                && receivers[state.value].WaitForCode()
                   == (if error.Some? then WaitFailed(Io) else if code.Some? then CodeReceived(code.value) else Blocked)
                && forall s :: s in receivers && receivers[s] != receivers[state.value] ==> unchanged(receivers[s])
    {
      if state.None? {
        return Fail(NullPointer);
      }
      if state.value !in receivers {
        return Fail(IllegalState);
      }
      var receiver := receivers[state.value];
      receiver.SetAuthorizationResponse(code, error);
      r := Pass;
    }

    /** CallbackHandler.handle: only the callback path is handled. */
    method Handle(target: string, state: Option<string>, code: Option<string>, error: Option<string>)
      returns (r: GoogleApi.CallbackResult)
      modifies receivers.Values
      ensures receivers == old(receivers)
      ensures target != GoogleApi.CallbackPath ==> r == GoogleApi.Ignored && forall s :: s in receivers ==> unchanged(receivers[s])
      ensures target == GoogleApi.CallbackPath && state.Some? && state.value in receivers ==>
                && r == GoogleApi.Delivered
                && receivers[state.value].code == code && receivers[state.value].error == error
                && receivers[state.value].WaitForCode()
                   == (if error.Some? then WaitFailed(Io) else if code.Some? then CodeReceived(code.value) else Blocked)
                && forall s :: s in receivers && receivers[s] != receivers[state.value] ==> unchanged(receivers[s])
      ensures target == GoogleApi.CallbackPath && !(state.Some? && state.value in receivers) ==>
                && r == GoogleApi.CallbackFailed(if state.None? then NullPointer else IllegalState)
                && forall s :: s in receivers ==> unchanged(receivers[s])
    {
      if target != GoogleApi.CallbackPath {
        return GoogleApi.Ignored;
      }
      var handled := HandleCallback(state, code, error);
      r := if handled.Pass? then GoogleApi.Delivered else GoogleApi.CallbackFailed(handled.error);
    }
  }
}

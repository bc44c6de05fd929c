/** The OAuth credential store both authorization components use: a map
    from user id to the stored credential, and the reuse test applied to a
    loaded credential. The clock is a parameter. */
module Credentials {
  import opened Wrappers
  import opened Errors

  /** A stored credential: the refresh token and the expiry may be null. */
  datatype Credential = Credential(
    accessToken: string,
    refreshToken: Option<string>,
    expirationTimeMillis: Option<int>)

  /** The token endpoint's answer to a code exchange. */
  datatype TokenResponse = TokenResponse(
    accessToken: string,
    refreshToken: Option<string>,
    expiresInSeconds: Option<int>)

  /** How an authorize call ends: with a credential, still blocked on its
      waiter (the response has not arrived), or with an exception. */
  datatype AuthorizeResult = Authorized(credential: Credential) | StillWaiting | AuthorizeFailed(failure: Failure)

  /** Java's long division for a positive divisor: it truncates toward zero. */
  function JavaDiv(a: int, b: int): (q: int)
    requires b > 0
    ensures a >= 0 ==> q * b <= a < q * b + b
    ensures a < 0 ==> q * b - b < a <= q * b
  {
    if a >= 0 then a / b else -((-a) / b)
  }

  /** Credential.getExpiresInSeconds: null when the expiry is null. */
  function ExpiresInSeconds(c: Credential, now: int): Option<int>
  {
    match c.expirationTimeMillis
    case None => None
    case Some(expiry) => Some(JavaDiv(expiry - now, 1000))
  }

  lemma ExpiresInMoreThanAMinute(remainingMillis: int)
    ensures JavaDiv(remainingMillis, 1000) > 60 <==> remainingMillis >= 61000
  {
  }

  /** The guard of authorize: credential != null && (refreshToken != null ||
      getExpiresInSeconds() > 60). Unboxing a null expiry throws. */
  function Reusable(stored: Option<Credential>, now: int): (r: Result<bool, Failure>)
    ensures r.Failure? <==> stored.Some? && stored.value.refreshToken.None? && stored.value.expirationTimeMillis.None?
    ensures r.Failure? ==> r.error == NullPointer
    ensures r == Success(true) <==>
              && stored.Some?
              && (|| stored.value.refreshToken.Some?
                  || (stored.value.expirationTimeMillis.Some? && stored.value.expirationTimeMillis.value - now >= 61000))
    ensures stored.None? ==> r == Success(false)
  {
    if stored.None? then Success(false)
    else if stored.value.refreshToken.Some? then Success(true)
    else match ExpiresInSeconds(stored.value, now)
      case None => Failure(NullPointer)
      case Some(seconds) =>
        ExpiresInMoreThanAMinute(stored.value.expirationTimeMillis.value - now);
        Success(seconds > 60)
  }

  /** createAndStoreCredential's conversion: the expiry is counted from now. */
  function FromTokenResponse(t: TokenResponse, now: int): (c: Credential)
    ensures c.accessToken == t.accessToken && c.refreshToken == t.refreshToken
    ensures c.expirationTimeMillis.None? <==> t.expiresInSeconds.None?
    ensures t.expiresInSeconds.Some? ==> ExpiresInSeconds(c, now) == t.expiresInSeconds
  {
    Credential(t.accessToken, t.refreshToken,
               match t.expiresInSeconds
               case None => None
               case Some(seconds) => Some(now + seconds * 1000))
  }

  /** A credential just created from a token response is reused at once iff
      the response has a refresh token or more than 60 seconds of validity;
      with neither a refresh token nor an expiry the reuse test throws. */
  lemma FreshCredentialReuse(t: TokenResponse, now: int)
    ensures Reusable(Some(FromTokenResponse(t, now)), now) == Success(true) <==>
              t.refreshToken.Some? || (t.expiresInSeconds.Some? && t.expiresInSeconds.value > 60)
    ensures Reusable(Some(FromTokenResponse(t, now)), now).Failure? <==>
              t.refreshToken.None? && t.expiresInSeconds.None?
  {
    if t.expiresInSeconds.Some? {
      var seconds := t.expiresInSeconds.value;
      assert (now + seconds * 1000) - now == seconds * 1000;
      assert seconds * 1000 >= 61000 <==> seconds > 60;
    }
  }

  /** The DataStore of StoredCredential, keyed by user id. */
  class CredentialStore {
    var credentials: map<string, Credential>

    constructor (initial: map<string, Credential>)
      ensures credentials == initial
    {
      credentials := initial;
    }

    /** loadCredential: null for an empty user id, which the OAuth flow
        does not look up, and null when nothing is stored for the user. */
    function Load(userId: string): (r: Option<Credential>)
      reads this
      ensures r.Some? <==> userId != "" && userId in credentials
      ensures r.Some? ==> r.value == credentials[userId]
    {
      if userId != "" && userId in credentials then Some(credentials[userId]) else None
    }

    method Store(userId: string, credential: Credential)
      modifies this
      ensures credentials == old(credentials)[userId := credential]
    {
      credentials := credentials[userId := credential];
    }

    /** delete: the I/O of the file-backed store may fail. */
    method Delete(userId: string, ioFails: bool) returns (r: Outcome<Failure>)
      modifies this
      ensures ioFails ==> r == Fail(Io) && credentials == old(credentials)
      ensures !ioFails ==> r == Pass && credentials == old(credentials) - {userId}
    {
      if ioFails {
        return Fail(Io);
      }
      credentials := credentials - {userId};
      r := Pass;
    }
  }
}

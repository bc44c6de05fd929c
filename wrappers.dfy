/** Option, Outcome and Result, used throughout the model: Java's nullable
    references become Option, a call that may throw becomes Outcome or Result. */
module Wrappers {

  datatype Option<+T> = None | Some(value: T)

  /** The result of a void Java call: it returns normally or throws. */
  datatype Outcome<+E> = Pass | Fail(error: E)

  /** The result of a Java call that returns a value or throws. */
  datatype Result<+R, +E> = Success(value: R) | Failure(error: E)
}

/** The exceptions the core raises or catches, reduced to their kind. */
module Errors {
  import Wrappers

  datatype Failure =
    | IllegalArgument          // IllegalArgumentException (calendar or user not found)
    | IllegalState             // IllegalStateException (wrapping an IOException, unknown receiver)
    | NullPointer              // NullPointerException (a missing property, Objects.requireNonNull)
    | Io                       // any other IOException (feed fetch, network)
    | Parser                   // ical4j ParserException
    | Synchronization          // CalendarSynchronizationException (authorization error, batch item failure)
    | JsonResponse(details: JsonDetails)  // GoogleJsonResponseException
    | TokenResponse            // TokenResponseException

  /** GoogleJsonResponseException.getDetails(): the parsed error, or null. */
  datatype JsonDetails = NoDetails | Details(code: int)

  /** requiresCredentialsReset: only an HTTP 401 asks for new credentials;
      reading the code of null details throws. */
  function RequiresCredentialsReset(details: JsonDetails): (r: Wrappers.Result<bool, Failure>)
    ensures r.Failure? <==> details.NoDetails?
    ensures r.Failure? ==> r.error == NullPointer
    ensures r.Success? ==> (r.value <==> details.code == 401)
  {
    match details
    case NoDetails => Wrappers.Failure(NullPointer)
    case Details(code) => Wrappers.Success(code == 401)
  }
}

/**
 * The error taxonomy of the Nomi Echo client (`src/lib/nomi/errors.ts`) and
 * the way every `/api/nomi` route turns a thrown value into an HTTP error
 * response (`mapNomiErrorToResponse`, which each route file repeats with its
 * own fallback message).
 */
module NomiErrors {
  import opened Wrappers
  import Js

  /** Which class an error was constructed from; all four are `NomiEchoError`s. */
  datatype ErrorKind = Base | Timeout | Response | Config

  datatype NomiError = NomiError(kind: ErrorKind, message: string, statusCode: Option<int>, code: string, details: Js.Value)

  /** The `options` argument of `new NomiEchoError(message, options)`; `Undefined` details when absent. */
  datatype ErrorOptions = ErrorOptions(statusCode: Option<int>, code: Option<string>, details: Js.Value)

  const DefaultCode := "NOMI_ECHO_ERROR"
  const TimeoutCode := "NOMI_ECHO_TIMEOUT"
  const ResponseCode := "NOMI_ECHO_RESPONSE_ERROR"
  const ConfigCode := "NOMI_ECHO_CONFIG_ERROR"
  const DefaultTimeoutMessage := "La petición a Nomi Echo ha superado el tiempo máximo de espera."

  /** `new NomiEchoError(message, options)`: the code falls back to the generic one, the rest is kept as given. */
  function NewNomiEchoError(message: string, options: ErrorOptions): (e: NomiError)
    ensures e.kind == Base && e.message == message
    ensures e.statusCode == options.statusCode && e.details == options.details
    ensures options.code.Some? ==> e.code == options.code.value
    ensures options.code.None? ==> e.code == DefaultCode
  {
    NomiError(Base, message, options.statusCode, options.code.GetOr(DefaultCode), options.details)
  }

  /** `new NomiEchoTimeoutError(message?)`: no status code, and the fixed message when none is given. */
  function NewTimeoutError(message: Option<string>): (e: NomiError)
    ensures e.kind == Timeout && e.code == TimeoutCode && e.statusCode == None && e.details == Js.Undefined
    ensures e.message == if message.Some? then message.value else DefaultTimeoutMessage
  {
    var base := NewNomiEchoError(message.GetOr(DefaultTimeoutMessage), ErrorOptions(None, Some(TimeoutCode), Js.Undefined));
    base.(kind := Timeout)
  }

  /** `new NomiEchoResponseError(message, statusCode, details)` */
  function NewResponseError(message: string, statusCode: int, details: Js.Value): (e: NomiError)
    ensures e.kind == Response && e.code == ResponseCode && e.message == message
    ensures e.statusCode == Some(statusCode) && e.details == details
  {
    var base := NewNomiEchoError(message, ErrorOptions(Some(statusCode), Some(ResponseCode), details));
    base.(kind := Response)
  }

  /** `new NomiEchoConfigError(message)`: no status code. */
  function NewConfigError(message: string): (e: NomiError)
    ensures e.kind == Config && e.code == ConfigCode && e.message == message
    ensures e.statusCode == None && e.details == Js.Undefined
  {
    var base := NewNomiEchoError(message, ErrorOptions(None, Some(ConfigCode), Js.Undefined));
    base.(kind := Config)
  }

  /** The `name` each constructor sets. */
  function Name(e: NomiError): string {
    match e.kind
    case Base => "NomiEchoError"
    case Timeout => "NomiEchoTimeoutError"
    case Response => "NomiEchoResponseError"
    case Config => "NomiEchoConfigError"
  }

  /** The three subclasses and the base class carry four different names, and the subclasses three different codes. */
  lemma SubclassesDistinct(timeoutMessage: Option<string>, message: string, statusCode: int, details: Js.Value, options: ErrorOptions)
    ensures var t, r, c := NewTimeoutError(timeoutMessage), NewResponseError(message, statusCode, details), NewConfigError(message);
            var b := NewNomiEchoError(message, options);
            && Name(t) != Name(r) && Name(t) != Name(c) && Name(r) != Name(c)
            && Name(b) != Name(t) && Name(b) != Name(r) && Name(b) != Name(c)
            && t.code != r.code && t.code != c.code && r.code != c.code
  {
  }

  /** What a handler's `catch` receives: an error of the client, or any other thrown value. */
  datatype Thrown = Nomi(error: NomiError) | Other(value: Js.Value)

  /** `error instanceof Error` */
  predicate IsError(t: Thrown) {
    t.Nomi? || t.value.ErrorObj?
  }

  /** The message of an `Error`. */
  function Message(t: Thrown): string
    requires IsError(t)
  {
    if t.Nomi? then t.error.message else t.value.message
  }

  /** The JSON error body and status a route answers with. */
  datatype ErrorResponse = ErrorResponse(status: int, error: string, details: Option<Js.Value>)

  /** The outcome of a call to the Nomi Echo client (including `getNomiEchoClient()` itself). */
  datatype Upstream<T> = Ok(value: T) | Failed(thrown: Thrown)

  /** A route's answer: an error response, or the success payload. */
  datatype Reply<T> = Failure(error: ErrorResponse) | Success(value: T)

  /** Before any upstream call: the request is refused with a response, or the call to make. */
  datatype Plan<R> = Reject(response: ErrorResponse) | Call(request: R)

  /** `error.statusCode && error.statusCode >= 400 && error.statusCode < 600` */
  predicate PassesThrough(statusCode: Option<int>) {
    statusCode.Some? && statusCode.value != 0 && 400 <= statusCode.value < 600
  }

  /**
   * `mapNomiErrorToResponse`: configuration errors are 503, timeouts 504, an
   * upstream HTTP error keeps its own 4xx/5xx status (anything else becomes
   * 502) and carries its details, and everything else is 502. The message is
   * the error's own whenever the thrown value is an `Error`, and the route's
   * `fallback` otherwise.
   */
  function MapToResponse(t: Thrown, fallback: string): (r: ErrorResponse)
    ensures 400 <= r.status < 600
    ensures t.Nomi? && t.error.kind == Config ==> r.status == 503
    ensures t.Nomi? && t.error.kind == Timeout ==> r.status == 504
    ensures t.Nomi? && t.error.kind == Response ==>
              r.status == (if PassesThrough(t.error.statusCode) then t.error.statusCode.value else 502)
    ensures r.details.Some? <==> t.Nomi? && t.error.kind == Response
    ensures r.details.Some? ==> r.details.value == t.error.details
    ensures !(t.Nomi? && t.error.kind in {Config, Timeout, Response}) ==> r.status == 502
    ensures r.error == if IsError(t) then Message(t) else fallback
  {
    if t.Nomi? && t.error.kind == Config then ErrorResponse(503, t.error.message, None)
    else if t.Nomi? && t.error.kind == Timeout then ErrorResponse(504, t.error.message, None)
    else if t.Nomi? && t.error.kind == Response then
      var status := if PassesThrough(t.error.statusCode) then t.error.statusCode.value else 502;
      ErrorResponse(status, t.error.message, Some(t.error.details))
    else ErrorResponse(502, if IsError(t) then Message(t) else fallback, None)
  }

  /**
   * The five routes' copies of the mapping agree on everything but the
   * fallback message, which is only used for a thrown value that is not an `Error`.
   */
  lemma RoutesAgree(t: Thrown, fallback1: string, fallback2: string)
    ensures MapToResponse(t, fallback1).status == MapToResponse(t, fallback2).status
    ensures MapToResponse(t, fallback1).details == MapToResponse(t, fallback2).details
    ensures IsError(t) ==> MapToResponse(t, fallback1) == MapToResponse(t, fallback2)
  {
  }

  /** An upstream HTTP error is forwarded with its own status exactly when that status is a 4xx or 5xx. */
  lemma ResponseStatusPassThrough(message: string, statusCode: int, details: Js.Value, fallback: string)
    ensures var r := MapToResponse(Nomi(NewResponseError(message, statusCode, details)), fallback);
            (r.status == statusCode <==> 400 <= statusCode < 600 || statusCode == 502)
            && r.error == message && r.details == Some(details)
  {
  }

  /** The outcome of the last upstream call as a reply. */
  function Settle<T>(upstream: Upstream<T>, fallback: string): (r: Reply<T>)
    ensures upstream.Ok? <==> r.Success?
    ensures r.Success? ==> r.value == upstream.value
    ensures r.Failure? ==> r.error == MapToResponse(upstream.thrown, fallback)
  {
    match upstream
    case Ok(v) => Success(v)
    case Failed(t) => Failure(MapToResponse(t, fallback))
  }
}

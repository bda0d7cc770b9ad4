/**
 * Configuration, option and result values shared by the three outbound HTTP
 * client packages (httpx/clientx, http/clientx, http/client).
 */
module ClientTypes {
  import opened Go

  /** time.Duration: an int64 count of nanoseconds. */
  type Duration = int

  const Millisecond: Duration := 1_000_000
  const Second: Duration := 1_000_000_000

  /** The request timeout used when no option gives one: 10, later multiplied by time.Second. */
  const DefaultRequestTimeout: Duration := 10
  /** How many default backoff entries an empty schedule receives. */
  const DefaultRetryAttempts: nat := 3
  const DefaultBackOffDuration: Duration := 100 * Millisecond

  const ApplicationJSON: string := "application/json"
  const ContentTypeKey: string := "Content-Type"
  /** http.StatusInternalServerError: the first status of the 5xx server-error class (RFC 9110, section 15.6). */
  const StatusInternalServerError: int := 500

  /** The panic message of an out-of-range slice index. */
  const IndexOutOfRange: string := "index out of range"
  /** The panic message of a method call through a nil *http.Response. */
  const NilDereference: string := "nil pointer dereference"

  datatype Verb = GET | POST | PUT | PATCH | DELETE

  function VerbName(v: Verb): string {
    match v
    case GET => "GET"
    case POST => "POST"
    case PUT => "PUT"
    case PATCH => "PATCH"
    case DELETE => "DELETE"
  }

  /** RetryCfg: whether to retry, the retry budget (a uint), and the backoff schedule. */
  datatype RetryCfg = RetryCfg(enabled: bool, maxRetryAttempts: nat, backOffDurations: seq<Duration>)

  /** The zero RetryCfg, which a failed map lookup yields. */
  const ZeroRetryCfg: RetryCfg := RetryCfg(false, 0, [])

  /** HytrixCommandCfg: one circuit-breaker command's settings, every number an int. */
  datatype HytrixCommandCfg = HytrixCommandCfg(
    enabled: bool,
    retryCount: int,
    timeout: int,
    maxConcurrentRequest: int,
    errorPercentThreshold: int,
    sleepWindow: int,
    requestVolumeThreshold: int)

  datatype HytrixCfg = HytrixCfg(enabled: bool, commandSetting: map<string, HytrixCommandCfg>)

  /**
   * HttpClientCfg of the clientx packages. http/clientx reads turnOffHytrix
   * as its breaker switch; httpx/clientx reads hytrixSetting.enabled instead.
   */
  datatype ClientxCfg = ClientxCfg(
    defaultRetrySetting: RetryCfg,
    apiSpecificRetrySetting: map<string, RetryCfg>,
    hytrixSetting: HytrixCfg,
    turnOffNewrelic: bool,
    turnOffJaeger: bool,
    turnOffHytrix: bool)

  /** HttpClientCfg of http/client. */
  datatype PlainCfg = PlainCfg(
    defaultRetrySetting: RetryCfg,
    apiSpecificRetrySetting: map<string, RetryCfg>,
    turnOffNewrelic: bool,
    turnOffJaeger: bool,
    turnOffCircuitBreaker: bool)

  /** The per-call options a caller can attach: operation name, extra headers, request timeout. */
  datatype Options = Options(
    opName: Option<string>,
    header: Option<map<string, string>>,
    requestTimeout: Option<Duration>)

  /** An option value of type time.Duration is an int64. */
  predicate OptionsWellTyped(opts: Options) {
    opts.requestTimeout.Some? ==> IsInt64(opts.requestTimeout.value)
  }

  /** A New Relic tracer the client was built with: whether it is enabled, and whether RecordExternalMetric fails. */
  datatype NewrelicTracer = NewrelicTracer(enabled: bool, recordFails: bool)

  datatype Response = Response(status: int)

  datatype HttpError =
    | TransportError(id: nat)                 // an error from client.Do
    | ServerError(url: string, status: int)   // httpx/clientx's NewServerError
    | Err5xx                                  // http/clientx's err5xx
    | ReadError(id: nat)                      // reading the caller's body failed
    | RequestError(id: nat)                   // http.NewRequest failed
    | MarshalError(id: nat)                   // json.Marshal failed

  /**
   * What one client.Do call yields: an error, after the transport had read
   * `read` bytes of the request body (0 when it failed before writing any),
   * or a response with a status code, once the whole body was written.
   */
  datatype Reply = TransportErr(id: nat, read: nat) | Resp(status: int)

  /** The (*http.Response, error) pair a Go function returns; None is nil. */
  datatype Returned = Returned(resp: Option<Response>, err: Option<HttpError>)

  type CallResult = Outcome<Returned>

  /** client.Do's reply as the pair it returns. */
  function AsReturned(reply: Reply): Returned {
    match reply
    case TransportErr(e, _) => Returned(None, Some(TransportError(e)))
    case Resp(s) => Returned(Some(Response(s)), None)
  }

  /** What sendHttpRequest decided about New Relic: send directly, or inside a segment that is ended or not. */
  datatype Metrics = Direct | Segment(name: string, ended: bool)

  /** What one physical send transmitted, as the transport saw it. */
  datatype Attempt = Attempt(
    httpMethod: string,
    url: string,
    header: map<string, string>,
    body: Option<seq<byte>>,
    timeout: Duration,
    metrics: Metrics)

  /** The physical sends, the sleeps and the result of one call of a retry engine. */
  datatype Trace = Trace(sends: nat, sleeps: seq<Duration>, result: CallResult)
}

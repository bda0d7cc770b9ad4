# orange-contrib core, modelled in Dafny

This project models four parts of the `orange-contrib` Go library and proves properties of each model.

- **The retry engines of the HTTP clients.**
  - `httpx/clientx` and `http/clientx` share one engine, modelled in `clientx.dfy`. It reads the request body once into a rewindable reader. It sends the request directly or inside `hystrix.Do`. On a failed send it sleeps for the entry of its backoff schedule and tries again.
  - `http/client` has a simpler engine, modelled in `plain_client.dfy`.
  - Both build on shared pieces:
    - the retry policy lookup and its padding (`retry_setting.dfy`);
    - request assembly (`request_assembly.dfy`): the operation name, the `Content-Type` default, the caller's header option under `http.Header.Set`'s canonical keys, the request timeout and the New Relic decision;
    - the circuit-breaker configuration (`hystrix.dfy`).
  - The transport and the clock form one object whose state the world can observe (`wire.dfy`):
    - a script of replies that `client.Do` hands out;
    - a log of what every send transmitted;
    - a log of every `time.Sleep`.
- **errorx.** `ErrorX` is a class: its cause is set in place by `Wrap`. The module models:
  - `FormattedMessage` on each iteration order of its argument map;
  - the `Cause` walk;
  - `extractFullErrorMessage` behind `GetErrorMessages` and `GetErrorMessagesWithStack`.

  The walks are proved against a ghost description of the cause chain (`Chain`). The proofs also show that a chain that loops back on itself has no such description.
- **localex.** `Translate` looks the text up in a storage under the request's locale. It then substitutes `{{var_k}}` placeholders from a flat key/value list.
- **The request-id middleware.**
  - `init` builds the process prefix from the host name and ten characters of a base64-encoded random draw; `base64.dfy` holds the encoding.
  - A shared `uint64` counter, wrapping around, numbers every generated id.
  - `RequestID`, `GinRequestID`, `GetReqID` and `NextRequestID` are modelled.

Go's semantics are written out where they matter:
- `int64` wrap-around of `requestTimeout * time.Second`;
- truncating integer division;
- panics, modelled as an `Outcome`: a failed string type assertion, an index past a slice's end, a method call on a nil response or a nil error;
- map iteration order, modelled as an explicit enumeration `order` of the keys, over which every statement is universally quantified.

The model follows the code where it departs from its evident design:
- Every clientx verb method builds its request with method `DELETE`. The verb is still used for the retry policy and the operation name.
- In clientx, `firstAttemptAndRetry` returns the outer `resp, err`, which nothing assigns. Every send binds fresh variables with `:=`. So, except on a body read error and on the direct send without retries:
  - the call returns `(nil, nil)`;
  - the verb method's log line then dereferences the nil response.
- The clientx retry loop sends directly, without the breaker, when `HytrixSetting.Enabled` holds (`TurnOffHytrix` in `http/clientx`). An error inside `hystrix.Do` is swallowed by its fallback, so the breaker path never retries.
- The backoff guard `len(BackOffDurations) >= count` lets `count == len` through, which indexes out of range and panics.
- `http/client` retries a failed first send only when the policy is *disabled*. Only a transport error counts as a failure there. It retries at most `MaxRetryAttempts` times.
- `http/client` never rewinds the request body. Each retry offers what the failed send before it left unread: the whole payload after a send refused before writing, less after one that failed midway.
- The request timeout option is a count of seconds. A caller passing `10 * time.Second` overflows `int64`.
- `durationToInt` converts the hystrix command's timeout, already in milliseconds, as if it were nanoseconds. So the default of 3000 registers as 0 ms.

## Model

| member | source | states |
|---|---|---|
| Go.WrapInt64 | httpx/clientx/client.go:454 | Go's int64 product: the result fits int64, equals the exact value when that fits, and otherwise differs from it by a multiple of 2^64 |
| Go.Quo | httpx/clientx/client.go:509 | `duration / unit` truncates toward zero: the remainder has the dividend's sign and is smaller than the divisor |
| Go.QuoBetweenZeroAndDividend | httpx/clientx/client.go:509-514 | a truncated quotient by a positive divisor lies between 0 and the dividend, so the MaxInt64 clamp is unreachable |
| Placeholders.ReplaceAllAbsent | errorx/errorx.go:87 | `strings.Replace(s, pat, rep, -1)` leaves a text without the pattern unchanged |
| Placeholders.ReplaceAllByItself | errorx/errorx.go:87 | replacing every occurrence of a pattern by itself gives the text back |
| Placeholders.SuccessorMapEntries | localex/locale.go:52-60 | k is a key of the argument map exactly when k is non-empty and occurs before the last element; its value is the element after k's last such occurrence |
| Placeholders.SuccessorMapNoEmptyKey | localex/locale.go:56-58 | the empty string is never a key, since the first element has no key before it |
| Placeholders.SinglePairSubstitution | localex/locale.go:52-64 | the list [k, v] builds the map {k: v}, and then the placeholder of k alone becomes v |
| Placeholders.BuildSuccessorMap | localex/locale.go:53-60 | the previousKey loop builds exactly the successor map of the list |
| Placeholders.ReplaceEach | localex/locale.go:62-64 | the range loop over the map rewrites the text once per key in the given iteration order |
| Placeholders.SubstituteNoPlaceholders | localex/locale.go:62-64 | a text that mentions no visited key's placeholder passes through the substitution unchanged |
| Wire.BodyReader.constructor | httpx/clientx/client.go:358 | `bytes.NewReader`: the captured bytes with the cursor at the start |
| Wire.BodyReader.ReadAll | httpx/clientx/client.go:354 | `ioutil.ReadAll` returns the bytes after the cursor and the stream's error, leaving the cursor at the end |
| Wire.BodyReader.Rewind | httpx/clientx/client.go:374 | `Seek(0, 0)` puts the cursor back at the first byte and changes nothing else |
| Wire.Request.constructor | httpx/clientx/client.go:111 | `http.NewRequest`: the given method, URL and body, and an empty header |
| Wire.BodyReader.Skip | http/client/client.go:188 | reading n bytes moves the cursor n bytes forward, or to the end, and no further |
| Wire.CursorAfter | http/client/client.go:188 | after a send the cursor stands between where it was and the end: at the end after a response, after the bytes the transport read after a transport error, and unmoved when the send was refused before writing |
| Wire.Network.Do | httpx/clientx/client.go:457 | `client.Do` consumes exactly one scripted reply and logs one attempt: method, URL, header, the body bytes after the cursor, timeout and metrics. It moves the cursor as CursorAfter says for that reply and does not sleep |
| Wire.Network.Sleep | httpx/clientx/client.go:409 | `time.Sleep` appends its duration to the sleep log and changes nothing else |
| RetrySetting.GetApiSpecificRetrySetting | httpx/clientx/client.go:340-344 | found exactly when the key "[METHOD]::/url" is configured; then that policy, otherwise the zero policy |
| RetrySetting.GetRetrySetting | httpx/clientx/client.go:313-338 | the append loops return the route's override (else the default), padded as Padded says |
| RetrySetting.PaddedShape | httpx/clientx/client.go:319-336 | padding keeps the switch, the budget and the old schedule as a prefix. An empty schedule gets three copies of 100 ms. A short one gets copies of its last entry up to the budget's length |
| RetrySetting.PaddedCoversBudget | httpx/clientx/client.go:319-336 | the padded schedule covers the budget exactly unless it was empty and the budget exceeds 3 |
| RetrySetting.PaddedIdempotent | http/client/client.go:159-176 | padding a padded policy changes nothing, whenever the first padding covered the budget |
| RetrySetting.RouteKeyInjective | httpx/clientx/client.go:341 | two calls share a route override exactly when verb and URL are equal |
| RetrySetting.DocumentedKeyNeedsRelativeUrl | httpx/clientx/client.go:341 | the key "[GET]::/users/profile" matches the URL "users/profile" but not "/users/profile", which gets a double slash |
| RequestAssembly.OpName | httpx/clientx/client.go:305-311 | the caller's operation name when it is a non-empty string, otherwise "METHOD::url"; never empty |
| RequestAssembly.CanonicalizeKeepsTokens | httpx/clientx/client.go:301 | canonicalizing a header key keeps every character a token character |
| RequestAssembly.CanonicalizeIdempotent | httpx/clientx/client.go:301 | case canonicalization applied twice equals once |
| RequestAssembly.CanonicalKeyIdempotent | httpx/clientx/client.go:301 | `CanonicalMIMEHeaderKey` of a canonical key is that key |
| RequestAssembly.CanonicalFormFixed | httpx/clientx/client.go:301 | a key already upper case at its start and after each '-', and lower case elsewhere, is left as it is |
| RequestAssembly.CanonicalizeCaseInsensitive | httpx/clientx/client.go:301 | two keys equal up to letter case canonicalize to the same key |
| RequestAssembly.ContentTypeCanonical | httpx/clientx/client.go:116 | "Content-Type" is stored under its own spelling |
| RequestAssembly.LowerCaseContentType | httpx/clientx/client.go:300-302 | an option key "content-type" lands on the same header entry as the default "Content-Type" |
| RequestAssembly.OverlayLookup | httpx/clientx/client.go:300-302 | after the Set loop, a canonical key named by some option key holds the value of the last such key in iteration order; every other entry is unchanged |
| RequestAssembly.CallerContentTypeWins | httpx/clientx/client.go:116-117 | the sent Content-Type is application/json exactly when no option key names Content-Type in any letter case; otherwise it is the value of such a key |
| RequestAssembly.SetHeaderFromOption | httpx/clientx/client.go:295-303 | without a header option the header is unchanged; with one, it is the overlay of the option in its iteration order |
| RequestAssembly.RequestTimeout | httpx/clientx/client.go:450-454 | the timeout is the option (default 10) times 10^9 in int64 arithmetic: exact when it fits, and otherwise wrapped modulo 2^64 |
| RequestAssembly.DurationOptionOverflows | httpx/clientx/client.go:454 | an option of 10 * time.Second yields a negative client timeout |
| RequestAssembly.MetricsDecision | httpx/clientx/client.go:456-466 | a direct send exactly when New Relic is turned off, absent or disabled; otherwise a segment under the operation name, ended exactly when recording it succeeded |
| Hystrix.Registry.constructor | httpx/clientx/client.go:497 | hystrix's command table starts empty |
| Hystrix.Registry.ConfigureCommand | httpx/clientx/client.go:497-503 | `hystrix.ConfigureCommand` stores the settings under the name, replacing earlier ones |
| Hystrix.Defaulted | httpx/clientx/client.go:476-494 | each zero tuning field takes its default, each non-zero one is kept, and the switch and retry count are untouched; no field stays zero |
| Hystrix.DefaultedIdempotent | httpx/clientx/client.go:476-494 | defaulting twice is defaulting once |
| Hystrix.DurationToInt | httpx/clientx/client.go:508-515 | the result is the truncated quotient and fits int64 |
| Hystrix.RegisteredTimeoutTruncated | httpx/clientx/client.go:498 | a timeout of magnitude under 10^6 registers as 0 ms, the 3000 default included; for a non-negative timeout the registered value times 10^6 never exceeds it |
| Clientx.SendError | httpx/clientx/client.go:401-403 | an error exactly for a failed send: the transport error as it is, or a server error carrying the URL and the 5xx status |
| Clientx.DirectRetries | httpx/clientx/client.go:393-444 | the direct loop from an iteration on makes at most the remaining budget of sends, and sleeps at most once per send |
| Clientx.Expected | httpx/clientx/client.go:346-446 | firstAttemptAndRetry makes at most budget + 1 sends |
| Clientx.DirectRetriesShape | httpx/clientx/client.go:393-444 | the direct loop sends once or more. Every send but the last failed. The last did not fail unless the budget ran out or it panicked. Each failed send that did not panic is followed by its iteration's delay |
| Clientx.DirectRetriesPanics | httpx/clientx/client.go:406-407 | the loop panics exactly when iteration len(schedule) is within the budget and every send up to it failed |
| Clientx.DirectRetriesPrefix | httpx/clientx/client.go:393-444 | after count failed sends, the whole trace is those sends and the first count delays followed by the trace from iteration count |
| Clientx.PaddedPolicyPanics | httpx/clientx/client.go:313-338 | under the padded policy the panic needs a schedule padded to no more than the budget, and all sends up to that iteration failing |
| Clientx.ScheduleSleeps | httpx/clientx/client.go:405-409 | the sleeps are the schedule's entries from the first, in order; the 100 ms fallback is never used; a schedule longer than the budget never panics |
| Clientx.ShadowedResult | httpx/clientx/client.go:389-445 | with the body read and retries or the breaker in play, the result is (nil, nil) or a panic, and the verb method then panics |
| Clientx.BreakerNeverRetries | httpx/clientx/client.go:414-443 | through the breaker there is at most one send and no sleep |
| Clientx.DirectWithoutRetry | httpx/clientx/client.go:363-367 | retries disabled with direct sends: one send whose reply is returned as it is |
| Clientx.TwoRetriesAgainstDeadNetwork | httpx/clientx/client.go:393-411 | 2 retries with 10 ms and 20 ms against a failing network: three sends, sleeps of 10 ms and 20 ms, then a panic |
| Clientx.ConfiguredAllOverrides | httpx/clientx/client.go:96-100 | configuring a list of names, with repeats and in any order, adds to the table exactly the registrations of the enabled commands among them |
| Clientx.ConfigureAppends | httpx/clientx/client.go:469-506 | one more ConfigureCommand is one more name in the configured list |
| Clientx.RegisteredAmongEnumeration | httpx/clientx/client.go:97 | any iteration order of the command map registers every enabled command |
| Clientx.HttpClient.constructor | httpx/clientx/client.go:77-103 | the client keeps its configuration and tracer. When the breaker setting is enabled, the hystrix table gains exactly the registrations of all enabled commands; otherwise it is unchanged |
| Clientx.HttpClient.ConfigureCommand | httpx/clientx/client.go:469-506 | a missing or disabled command leaves the table unchanged; an enabled one is registered with its defaulted settings and the converted timeout |
| Clientx.HttpClient.SendHttpRequest | httpx/clientx/client.go:448-467 | one client.Do with the option's timeout and the New Relic decision: one reply consumed, one attempt logged, no sleep |
| Clientx.HttpClient.SendAndRewind | httpx/clientx/client.go:396-399 | one send of the captured body, after which the reader is back at its start |
| Clientx.HttpClient.HystrixDo | httpx/clientx/client.go:414-432 | when hystrix runs the action, one send and a rewind; otherwise nothing is sent. Never a sleep |
| Clientx.HttpClient.RetryLoop | httpx/clientx/client.go:393-444 | the loop's sends, sleeps and panic are the direct trace, or the breaker's single send, from the current replies |
| Clientx.HttpClient.FirstAttemptAndRetry | httpx/clientx/client.go:346-446 | replies consumed, attempts sent, sleeps and result are those of Expected: a body read error returns at once, and each later send retransmits the same captured bytes |
| Clientx.HttpClient.Call | httpx/clientx/client.go:105-141 | a request error returns at once with nothing sent. Otherwise the Expected trace under the verb's resolved policy, with each send a DELETE request carrying Content-Type then the header option, and the result passed through AfterVerb |
| PlainClient.PlainRetries | http/client/client.go:194-211 | the loop from an iteration on makes at most the remaining budget of sends and sleeps at most once per send |
| PlainClient.PlainExpected | http/client/client.go:186-214 | the call makes between 1 and budget + 1 sends |
| PlainClient.PlainRetriesShape | http/client/client.go:194-211 | every send but the last failed. The last is returned unless it panicked. No sleep follows the last send, and each sleep is its iteration's schedule entry |
| PlainClient.PlainRetriesPanics | http/client/client.go:201-204 | the loop panics exactly when it reaches iteration len(schedule) before the last with every send failing |
| PlainClient.PlainRetriesPrefix | http/client/client.go:194-211 | after count failed retries, the whole trace is those sends and delays followed by the trace from iteration count |
| PlainClient.PlainRetriesStop | http/client/client.go:194-211 | the whole trace when the loop stops at iteration count: budget exhausted, a reply returned, or the out-of-range panic |
| PlainClient.PlainReturnsLastReply | http/client/client.go:186-214 | the result is the last send's reply, every earlier one having failed, unless it panicked; retries happen only after a failed first send under a disabled policy |
| PlainClient.PlainAllFail | http/client/client.go:194-199 | disabled policy and a failing network: 1 + budget sends and the last error, unless it panicked |
| PlainClient.PlainSleepsBetweenRetries | http/client/client.go:201-206 | no sleep after the first or the last send, and the sleeps follow the schedule from its first entry |
| PlainClient.PlainPanics | http/client/client.go:202-203 | the call panics exactly when the policy is disabled, the schedule is at least two shorter than the budget, and the first len + 2 sends fail |
| PlainClient.PaddedPlainPanics | http/client/client.go:153-178 | under the padded policy, a panic needs an empty schedule padded to three entries and a budget of at least 5 |
| PlainClient.CursorBefore | http/client/client.go:186-214 | the cursor before any send of a call that never rewinds stays between its start and the end of the body |
| PlainClient.Offered | http/client/client.go:186-214 | a send offers the body bytes after that cursor, and offers a body exactly when the request has one |
| PlainClient.Sends | http/client/client.go:186-214 | the log of the first n sends has n entries, and entry k is the send's attempt carrying what send k offers |
| PlainClient.SendsAt | http/client/client.go:186-214 | entry k of the log of sends is the send's attempt carrying exactly what send k offers |
| PlainClient.CursorNeverMovesBack | http/client/client.go:194-211 | the body is never rewound: a later send starts reading no earlier than an earlier one |
| PlainClient.OfferedShrinks | http/client/client.go:194-211 | what a retry offers is a suffix of what an earlier send offered |
| PlainClient.RefusedSendsKeepBody | http/client/client.go:186-214 | after sends that all failed before writing, the next send offers the whole body again |
| PlainClient.CursorStaysPut | http/client/client.go:186-214 | sends refused before writing leave the cursor where the call found it |
| PlainClient.DrainedBodyStaysEmpty | http/client/client.go:195 | once a failed send's transport read the whole body, every later send offers an empty body |
| PlainClient.RefusedSendsResendPayload | http/client/client.go:93-133 | a DELETE whose first sends were refused before writing sends its whole payload again |
| PlainClient.HttpClient.constructor | http/client/client.go:63-91 | the client keeps its configuration and New Relic tracer |
| PlainClient.HttpClient.SendHttpRequest | http/client/client.go:216-235 | one client.Do with the option's timeout and the tracer's decision: one reply consumed, one attempt logged, no sleep |
| PlainClient.HttpClient.Resend | http/client/client.go:195 | retry k consumes reply k, logs one attempt carrying what send k offers, and leaves the cursor where send k + 1 starts |
| PlainClient.HttpClient.RetryLoop | http/client/client.go:194-211 | replies consumed, sleeps and result are those of PlainRetries after the first send, and the log is Sends: each retry offers what the send before it left unread |
| PlainClient.HttpClient.FirstAttemptAndRetry | http/client/client.go:186-214 | the trace is PlainExpected and the log is Sends from the body's cursor: the first send offers the body after the cursor and each retry what the send before it left unread |
| PlainClient.HttpClient.Delete | http/client/client.go:93-133 | a marshal or request error returns (nil, err) with nothing sent; otherwise the PlainExpected trace of the "DELETE" policy, and the log is Sends of the assembled attempt over the whole payload |
| Errorx.EntriesAreJoined | errorx/errorx.go:101-108 | cutting the last two bytes of the written "k:v, " entries leaves them joined by ", " |
| Errorx.FormattedWithoutArgs | errorx/errorx.go:73-113 | without arguments: the format if non-empty, else the id if non-empty, else NoErrorMessage |
| Errorx.FormattedPanics | errorx/errorx.go:79-98 | formatting panics exactly when a format or id is present and some argument is not a string |
| Errorx.FormatWithoutPlaceholders | errorx/errorx.go:74-89 | a format naming no argument key's placeholder comes back unchanged |
| Errorx.IdForm | errorx/errorx.go:90-109 | with arguments, the id form is exactly "id : [" + the entries joined by ", " + "]" |
| Errorx.PlaceholderOnlyFormat | errorx/errorx.go:74-89 | a format that is one placeholder, with that key and a value, becomes the value |
| Errorx.ArgsMap | errorx/errorx.go:77-85 | the argument loop builds the successor map when all arguments are strings, and panics otherwise |
| Errorx.WriteEntries | errorx/errorx.go:101-104 | the buffer holds "k:v, " for each key in iteration order |
| Errorx.ErrorX.constructor | errorx/errorx.go:29-41 | errorx.New keeps code, id, format, arguments and stack, with no cause |
| Errorx.ErrorX.Wrap | errorx/errorx.go:64-67 | the cause is replaced and the receiver itself is returned |
| Errorx.ErrorX.FormattedMessage | errorx/errorx.go:73-113 | the message is Formatted for the given iteration order; the argument and buffer loops are proved against it |
| Errorx.ErrorX.Error | errorx/errorx.go:69-71 | Error() is the formatted message |
| Errorx.ChainTail | errorx/errorx.go:233-239 | dropping the first link leaves the chain of its cause |
| Errorx.ChainDeterministic | errorx/errorx.go:193-218 | the links and the end of an error's chain are unique |
| Errorx.ChainNilCause | errorx/errorx.go:206-209 | only the last link can have a nil cause, and the chain then ends in nil |
| Errorx.WrapExtendsChain | errorx/errorx.go:64-67 | wrapping an error in a new link extends its chain by that link |
| Errorx.SelfWrapHasNoChain | errorx/errorx.go:64-67 | an error wrapped around itself has no finite chain, so walking it never ends |
| Errorx.Cause | errorx/errorx.go:228-241 | Cause returns the end of the chain: the first error that is not an *ErrorX, or nil |
| Errorx.RootCauseShape | errorx/errorx.go:228-241 | an unwrapped *ErrorX has the one-link chain ending in nil |
| Errorx.SeparatedPanicPersists | errorx/errorx.go:199-202 | once a message panics, the rest of the walk panics the same way |
| Errorx.FullMessage | errorx/errorx.go:219-225 | it panics exactly when the chain text does. Without the stack flag, or without a link, it is the chain text. Otherwise it is the chain text, the stack header and the deepest link's stack |
| Errorx.SingleLinkMessage | errorx/errorx.go:199-209 | a lone link without a cause gives its own formatted message |
| Errorx.NoLinkMessage | errorx/errorx.go:211-215 | a nil error panics; a foreign error gives its Error() text |
| Errorx.TwoLinksAndRootMessage | errorx/errorx.go:193-218 | two links and a foreign root give both messages and the root's text, joined by ", " |
| Errorx.ExtractFullErrorMessage | errorx/errorx.go:184-226 | the walk's output is FullMessage of the error's chain |
| Errorx.WalkChain | errorx/errorx.go:193-218 | the loop writes the chain text and remembers the deepest *ErrorX |
| Errorx.ChainTextForeign | errorx/errorx.go:211-215 | a chain ending in a foreign error: the separated messages, then its text |
| Errorx.ChainTextNilEnd | errorx/errorx.go:206-209 | a chain ending in nil: the separated messages of all but the last link, then the last one's, with no trailing ", " |
| Errorx.ChainTextPanic | errorx/errorx.go:199-202 | the first message that panics is the walk's outcome |
| Errorx.GetErrorMessages | errorx/errorx.go:176-178 | the chain's messages without the stack section |
| Errorx.GetErrorMessagesWithStack | errorx/errorx.go:180-182 | the chain's messages with the stack section |
| Localex.LocaleOf | localex/locale.go:42-45 | the context's locale when it is a non-empty string, else the default; an absent value and a non-string count as "" |
| Localex.DisabledIgnoresStorage | localex/locale.go:38-50 | a disabled translator never consults its storage and starts from the message id |
| Localex.EnabledLookup | localex/locale.go:40-50 | an enabled translator asks the storage under the chosen locale and keeps the id when the answer is "" |
| Localex.NoArgsNoSubstitution | localex/locale.go:52 | without arguments the looked-up text is returned as found |
| Localex.UnmentionedArgsIgnored | localex/locale.go:62-64 | a text naming none of the argument keys' placeholders is returned unchanged |
| Localex.SinglePlaceholderTranslation | localex/locale.go:52-64 | a text that is one placeholder, given that key and a value, becomes the value |
| Localex.Translator.constructor | localex/locale.go:29-34 | NewTranslator keeps its configuration and storage |
| Localex.Translator.Translate | localex/locale.go:36-68 | the result is the Translation for the given iteration order of the argument map |
| Base64.Letter | middlewarex/request_id.go:45 | each 6-bit value maps to a distinct alphabet character, never '=', which is alphanumeric exactly below 62 |
| Base64.EncodeLength | middlewarex/request_id.go:45 | the encoding has four characters per started group of three bytes |
| Base64.DecodeEncode | middlewarex/request_id.go:45 | decoding undoes encoding, so different draws give different encodings |
| Base64.FullGroupRoundTrip | middlewarex/request_id.go:45 | a whole group's three bytes come back from its four characters |
| Base64.DecodeEncodeLastGroup | middlewarex/request_id.go:45 | a padded last group of one or two bytes comes back |
| Base64.EncodeWholeGroups | middlewarex/request_id.go:45 | without padding every character is a letter, a digit, '+' or '/' |
| Base64.Stripped | middlewarex/request_id.go:46 | the replacer leaves no '+' or '/' and never lengthens the text |
| Base64.StrippedFromText | middlewarex/request_id.go:46 | each character the replacer keeps was in the text |
| Base64.StrippedConcat | middlewarex/request_id.go:46 | the replacer works character by character: stripping a concatenation is concatenating the stripped parts |
| Base64.StrippedKeepsCleanText | middlewarex/request_id.go:46 | text with no '+' or '/' is left unchanged, so stripping is idempotent |
| Base64.StrippedCounts | middlewarex/request_id.go:46 | every character other than '+' and '/' is kept as often as it occurs, and those two are all dropped |
| RequestId.FirstLongEnough | middlewarex/request_id.go:43-47 | the chosen draw is the first that leaves ten characters |
| RequestId.CandidateAlphaNumeric | middlewarex/request_id.go:44-46 | a twelve-byte draw leaves only letters and digits once '+' and '/' are gone |
| RequestId.PrefixShape | middlewarex/request_id.go:36-50 | the prefix is the host part, "/", and ten letters or digits |
| RequestId.DrawLength | middlewarex/request_id.go:41-45 | twelve bytes encode to sixteen characters |
| RequestId.Init | middlewarex/request_id.go:36-50 | the redraw loop yields the Prefix of the host name and the first long-enough draw |
| RequestId.DecimalRoundTrip | middlewarex/request_id.go:64 | the counter's decimal digits read back as the counter |
| RequestId.PaddedRoundTrip | middlewarex/request_id.go:64 | `%06d` digits, zeros included, read back as the counter |
| RequestId.GeneratedIdInjective | middlewarex/request_id.go:64 | under one prefix, different counter values give different ids |
| RequestId.Incremented | middlewarex/request_id.go:63 | `atomic.AddUint64` adds one, wrapping from the largest uint64 to 0 |
| RequestId.CounterStep | middlewarex/request_id.go:104 | after k increments from start, the next hands out NthIssued(start, k) |
| RequestId.IssuedDistinct | middlewarex/request_id.go:103-105 | no value repeats within 2^64 increments, and values increase until the counter wraps |
| RequestId.GetReqID | middlewarex/request_id.go:92-100 | the string under RequestIDKey; "" for a nil context, a missing value or a non-string |
| RequestId.WithRequestId | middlewarex/request_id.go:66 | `context.WithValue` makes GetReqID return the id and keeps every other value |
| RequestId.Generator.constructor | middlewarex/request_id.go:31-34 | the prefix is fixed, the counter starts at 0, and nothing has been issued yet |
| RequestId.Generator.NextRequestID | middlewarex/request_id.go:103-105 | the counter is incremented with wrap-around; the new value is returned and logged as issued |
| RequestId.Generator.ChooseId | middlewarex/request_id.go:61-65 | a non-empty incoming id is kept and the counter is untouched; otherwise the id is prefix "-" and the padded next counter value |
| RequestId.Generator.RequestID | middlewarex/request_id.go:58-70 | the chosen id goes into the request's context, so GetReqID returns it |
| RequestId.Generator.GinRequestID | middlewarex/request_id.go:72-88 | as RequestID, and the X-Request-Id header is set to the chosen id; nothing of the request but its header changes |

## Left out

- The circuit breaker's runtime (hystrix's timeouts, concurrency limits and open/half-open states): whether `hystrix.Do` runs its action is a boolean input `breakerRuns`.
- Concurrency: the counter's atomicity and hystrix's goroutines are not modelled. `atomic.AddUint64` is one step of a single-threaded object.
- The Jaeger spans and the tag loop over the response header. This includes the test `TurnOffJaeger || …` in the clientx verb methods, which calls `HttpClientTracer` on a nil tracer when that flag is set without a Jaeger tracer.
- Logging (`logx`, the `logging.Logger` of `http/client`). The one log line that matters, the verb method's read of `resp.Status`, is modelled as the nil-dereference panic.
- New Relic internals: the tracer is two booleans, whether it is enabled and whether `RecordExternalMetric` fails.
- The options plumbing (`optionx`/`option` contexts) and the configuration files:
  - The options are a datatype.
  - A value of the wrong dynamic type is treated as absent.
  - httpx/clientx/config.go is not part of this model.
- `http/clientx/client.go` does not compile as written. It is modelled as the `Variant` of the clientx engine that tests `TurnOffHytrix`. What breaks the build:
  - `cfg` for `config`, `Enbled`, and an unused `err`;
  - `TurnOffHytrix` is not a field of its `HttpClientCfg` (http/clientx/config.go:5-21); the model's `turnOffHytrix` switch stands for it;
  - `config.hytrixSetting`, `MaxConcurrentRequests`, `defaultHytrixRequestVolumeThreshold` and `option.Option` are undefined there (http/clientx/client.go:77, 478-503);
  - its `durationToInt` is given an `int` timeout. The variant uses httpx/clientx's conversion instead.
- Wire.Network.Do: how many body bytes the transport read before a transport error is part of the scripted reply. net/http's own resending through `GetBody` inside one `client.Do` is not modelled.
- `http/client` defines only the `DELETE` verb. Its interface lists others that the file does not implement.
- `json.Marshal` and `http.NewRequest` failures are inputs (`marshalErr`, `requestErr`). URL parsing is not modelled.
- `http.Header` holds one value per key. Multi-valued headers are not modelled.
- `MaxRetryAttempts` is a `uint` modelled as `nat`. Wrap-around of `count` is not modelled, since the budget would need 2^64 sends.
- The transport is a finite reply script. The call requires replies for every send it may make.
- The errorx package:
  - its interfaces `StackTracer` and `ErrorFormatter`: `*ErrorX` is the only formatter, causer and stack tracer. A foreign error that has a `Cause()` method is not modelled.
  - `GetStack` is a fixed string per error. The program counters, `StackFrames`, `StackAddrs` and `GetStackAsJSON` are not modelled.
  - the getters `ID`, `Code`, `Message`, `GetArgs` and `GetMessage`: they return fields.
- Errorx.Cause and Errorx.ExtractFullErrorMessage: they require a finite cause chain. A cyclic one makes the source loop forever, which SelfWrapHasNoChain shows is outside every chain.
- Localex:
  - The storage is a function from message id and locale to text.
  - localex/storage/memory.go is not part of this model, so viper's case-insensitive keys are not modelled.
- RequestId.Init: it requires some draw long enough. The source redraws forever otherwise. `os.Hostname` and `crypto/rand` become inputs, and `rand.Read`'s error is ignored, as the source does.
- RequestId.IssuedDistinct: its ordering claim holds only until the counter wraps.
- The gin and net/http plumbing (`next.ServeHTTP`, `c.Next()`, `NewRequestIDMW`): a request is its header map and its context values.
- Errorx.IdForm: it requires a non-empty argument map. Without one the id is returned alone, as FormattedWithoutArgs states.

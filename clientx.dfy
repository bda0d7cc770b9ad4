/**
 * The retry engine of the two clientx packages, httpx/clientx and
 * http/clientx. They differ in the flag that selects the send without
 * circuit breaker and in the error value a 5xx status becomes;
 * everything else is shared, the shadowed result variables included.
 */
module Clientx {
  import opened Go
  import opened ClientTypes
  import opened Wire
  import opened RetrySetting
  import opened RequestAssembly
  import opened Hystrix

  datatype Variant = Httpx | HttpClientx

  /**
   * Whether a send goes out directly, without hystrix.Do: httpx/clientx
   * tests HytrixSetting.Enabled, http/clientx tests TurnOffHytrix.
   */
  function DirectSend(variant: Variant, cfg: ClientxCfg): bool {
    match variant
    case Httpx => cfg.hytrixSetting.enabled
    case HttpClientx => cfg.turnOffHytrix
  }

  /** A send the retry loop counts as failed: a transport error, or a status of the 5xx class. */
  predicate Failed(reply: Reply) {
    reply.TransportErr? || reply.status >= StatusInternalServerError
  }

  /**
   * The error the loop derives from one reply: the transport error kept as
   * it is, a 5xx status turned into a server error, nothing otherwise.
   */
  function SendError(variant: Variant, url: string, reply: Reply): (e: Option<HttpError>)
    ensures e.Some? <==> Failed(reply)
    ensures reply.TransportErr? ==> e == Some(TransportError(reply.id))
    ensures reply.Resp? && Failed(reply) ==>
              e == Some(if variant == Httpx then ServerError(url, reply.status) else Err5xx)
  {
    match reply
    case TransportErr(id, _) => Some(TransportError(id))
    case Resp(status) =>
      if status < StatusInternalServerError then None
      else if variant == Httpx then Some(ServerError(url, status))
      else Some(Err5xx)
  }

  /**
   * The direct retry loop from iteration count on, where iteration i gets
   * replies[i]: each failed send sleeps, except that iteration |b| indexes
   * past the schedule and panics; the loop ends after iteration max or at
   * the first send that did not fail. Its result is the never-assigned
   * outer (nil, nil).
   */
  function DirectRetries(b: seq<Duration>, max: nat, replies: seq<Reply>, count: nat): (t: Trace)
    requires count <= max + 1
    requires |replies| > max
    ensures t.sends <= max + 1 - count && |t.sleeps| <= t.sends
    decreases max + 1 - count
  {
    if count > max then Trace(0, [], Normal(Returned(None, None)))
    else if !Failed(replies[count]) then Trace(1, [], Normal(Returned(None, None)))
    else if count == |b| then Trace(1, [], Panic(IndexOutOfRange))
    else
      var rest := DirectRetries(b, max, replies, count + 1);
      Trace(1 + rest.sends, [BackOffAt(b, count)] + rest.sleeps, rest.result)
  }

  /**
   * What firstAttemptAndRetry does, given whether sends are direct, the
   * resolved policy, the body's read error, the replies and whether
   * hystrix runs its action.
   */
  function Expected(direct: bool, retry: RetryCfg, readErr: Option<HttpError>, replies: seq<Reply>, breakerRuns: bool): (t: Trace)
    requires |replies| > retry.maxRetryAttempts
    ensures t.sends <= retry.maxRetryAttempts + 1
  {
    if readErr.Some? then Trace(0, [], Normal(Returned(None, readErr)))
    else if retry.enabled && direct then DirectRetries(retry.backOffDurations, retry.maxRetryAttempts, replies, 0)
    else if direct then Trace(1, [], Normal(AsReturned(replies[0])))
    else Trace(if breakerRuns then 1 else 0, [], Normal(Returned(None, None)))
  }

  /**
   * What a verb method makes of firstAttemptAndRetry's result: an error is
   * passed on; otherwise the log line reads the response's status, which
   * panics on a nil response.
   */
  function AfterVerb(r: CallResult): CallResult {
    match r
    case Panic(_) => r
    case Normal(Returned(resp, err)) =>
      if err.Some? then r
      else if resp.None? then Panic(NilDereference)
      else r
  }

  /**
   * The direct loop makes between one and (budget left) sends: every send
   * but the last failed; the last did not unless the budget ran out or the
   * loop panicked; each failed send is followed by the delay of its
   * iteration, except the one that panics.
   */
  lemma {:induction false} DirectRetriesShape(b: seq<Duration>, max: nat, replies: seq<Reply>, count: nat)
    requires count <= max + 1
    requires |replies| > max
    ensures var t := DirectRetries(b, max, replies, count);
      (count <= max ==> 1 <= t.sends) && t.sends <= max + 1 - count &&
      (forall j :: count <= j < count + t.sends - 1 ==> Failed(replies[j])) &&
      (t.result.Normal? && t.sends < max + 1 - count ==> !Failed(replies[count + t.sends - 1])) &&
      (t.result.Normal? ==> t.result == Normal(Returned(None, None))) &&
      (t.result.Panic? ==> t.result == Panic(IndexOutOfRange) && count + t.sends - 1 == |b| && Failed(replies[|b|])) &&
      |t.sleeps| == (if t.result.Panic? || (t.sends > 0 && !Failed(replies[count + t.sends - 1])) then t.sends - 1 else t.sends) &&
      (forall j :: 0 <= j < |t.sleeps| ==> t.sleeps[j] == BackOffAt(b, count + j)) &&
      (count <= |b| ==> count + |t.sleeps| <= |b|)
    decreases max + 1 - count
  {
    var t := DirectRetries(b, max, replies, count);
    if count <= max && Failed(replies[count]) && count != |b| {
      DirectRetriesShape(b, max, replies, count + 1);
      var rest := DirectRetries(b, max, replies, count + 1);
      assert t.sends == 1 + rest.sends && t.sleeps == [BackOffAt(b, count)] + rest.sleeps;
      forall j | 0 <= j < |t.sleeps| ensures t.sleeps[j] == BackOffAt(b, count + j) {
        if j > 0 {
          assert t.sleeps[j] == rest.sleeps[j - 1];
        }
      }
    }
  }

  /**
   * The loop panics exactly when iteration |b| is reached within the budget
   * and every send up to and including that iteration's fails.
   */
  lemma {:induction false} DirectRetriesPanics(b: seq<Duration>, max: nat, replies: seq<Reply>, count: nat)
    requires count <= max + 1
    requires |replies| > max
    ensures DirectRetries(b, max, replies, count).result.Panic? <==>
              count <= |b| <= max && forall j :: count <= j <= |b| ==> Failed(replies[j])
    decreases max + 1 - count
  {
    if count <= max && Failed(replies[count]) && count != |b| {
      DirectRetriesPanics(b, max, replies, count + 1);
    }
  }

  /**
   * Every send before iteration count failed and none of them panicked:
   * the loop from the start is those count sends, with the schedule's first
   * count delays, followed by the loop from iteration count.
   */
  lemma {:induction false} DirectRetriesPrefix(b: seq<Duration>, max: nat, replies: seq<Reply>, count: nat)
    requires count <= max + 1 && count <= |b| && |replies| > max
    requires forall j :: 0 <= j < count ==> Failed(replies[j])
    ensures var whole, rest := DirectRetries(b, max, replies, 0), DirectRetries(b, max, replies, count);
      whole.sends == count + rest.sends && whole.sleeps == b[..count] + rest.sleeps && whole.result == rest.result
  {
    if count > 0 {
      DirectRetriesPrefix(b, max, replies, count - 1);
      assert b[..count] == b[..count - 1] + [b[count - 1]];
    }
  }

  /**
   * With the resolved, padded policy the out-of-range panic needs a padded
   * schedule no longer than the budget: a non-empty schedule of at most the
   * budget (padded to exactly the budget), or an empty one with a budget of
   * 0 or at least 3; and then every send through iteration |schedule| fails.
   */
  lemma PaddedPolicyPanics(c: RetryCfg, replies: seq<Reply>)
    requires |replies| > c.maxRetryAttempts
    ensures var p := Padded(c);
      DirectRetries(p.backOffDurations, p.maxRetryAttempts, replies, 0).result.Panic? <==>
        ((c.backOffDurations != [] && |c.backOffDurations| <= c.maxRetryAttempts) ||
         (c.backOffDurations == [] && (c.maxRetryAttempts == 0 || c.maxRetryAttempts >= DefaultRetryAttempts))) &&
        forall j :: 0 <= j <= |p.backOffDurations| ==> Failed(replies[j])
  {
    var p := Padded(c);
    PaddedShape(c);
    DirectRetriesPanics(p.backOffDurations, p.maxRetryAttempts, replies, 0);
  }

  /**
   * The direct loop sleeps through the schedule in order from its first
   * entry: the 100 ms fallback of the guard is never reached, since the
   * iteration that would need it panics first. A schedule longer than the
   * budget never panics.
   */
  lemma ScheduleSleeps(b: seq<Duration>, max: nat, replies: seq<Reply>)
    requires |replies| > max
    ensures var t := DirectRetries(b, max, replies, 0);
      |t.sleeps| <= |b| && t.sleeps == b[..|t.sleeps|] && (|b| > max ==> t.result.Normal?)
  {
    DirectRetriesShape(b, max, replies, 0);
    DirectRetriesPanics(b, max, replies, 0);
  }

  /**
   * The clientx result is the never-assigned (nil, nil), or the panic,
   * on every path except a body read error and the direct send with
   * retries disabled.
   */
  lemma ShadowedResult(direct: bool, retry: RetryCfg, readErr: Option<HttpError>, replies: seq<Reply>, breakerRuns: bool)
    requires |replies| > retry.maxRetryAttempts
    requires readErr.None? && (retry.enabled || !direct)
    ensures Expected(direct, retry, readErr, replies, breakerRuns).result in
              {Normal(Returned(None, None)), Panic(IndexOutOfRange)}
    ensures AfterVerb(Expected(direct, retry, readErr, replies, breakerRuns).result).Panic?
  {
    if retry.enabled && direct {
      DirectRetriesShape(retry.backOffDurations, retry.maxRetryAttempts, replies, 0);
    }
  }

  /** Without the direct switch there is one hystrix.Do: at most one send, no sleep, no retry. */
  lemma BreakerNeverRetries(retry: RetryCfg, replies: seq<Reply>, breakerRuns: bool)
    requires |replies| > retry.maxRetryAttempts
    ensures var t := Expected(false, retry, None, replies, breakerRuns);
      t == Trace(if breakerRuns then 1 else 0, [], Normal(Returned(None, None)))
  {
  }

  /** Retries disabled and the direct switch set: one send, whose reply is returned as it is. */
  lemma DirectWithoutRetry(retry: RetryCfg, replies: seq<Reply>, breakerRuns: bool)
    requires |replies| > retry.maxRetryAttempts && !retry.enabled
    ensures Expected(true, retry, None, replies, breakerRuns) == Trace(1, [], Normal(AsReturned(replies[0])))
  {
  }

  /**
   * A policy of two retries with delays 10 ms and 20 ms against a network
   * that always fails makes three sends and sleeps 10 ms and 20 ms, but then
   * panics on the third failure instead of returning its error.
   */
  lemma TwoRetriesAgainstDeadNetwork(replies: seq<Reply>)
    requires |replies| == 3 && forall j :: 0 <= j < 3 ==> replies[j].TransportErr?
    ensures DirectRetries([10 * Millisecond, 20 * Millisecond], 2, replies, 0) ==
              Trace(3, [10 * Millisecond, 20 * Millisecond], Panic(IndexOutOfRange))
  {
  }

  /** The hystrix table after ConfigureCommand(n): n's entry is (re)placed when the command exists and is enabled. */
  function Configure(h: HytrixCfg, m: map<string, CommandConfig>, n: string): map<string, CommandConfig>
    requires TimeoutsAreInt64(h)
  {
    if n in h.commandSetting && h.commandSetting[n].enabled then m[n := Registration(h.commandSetting[n])] else m
  }

  /** The hystrix table after ConfigureCommand for each of names, first to last. */
  function ConfiguredAll(h: HytrixCfg, m: map<string, CommandConfig>, names: seq<string>): map<string, CommandConfig>
    requires TimeoutsAreInt64(h)
  {
    if names == [] then m else Configure(h, ConfiguredAll(h, m, names[..|names| - 1]), names[|names| - 1])
  }

  /** The hystrix table entries of the enabled commands among names. */
  function RegisteredAmong(h: HytrixCfg, names: seq<string>): map<string, CommandConfig>
    requires TimeoutsAreInt64(h)
  {
    map n | n in names && n in h.commandSetting && h.commandSetting[n].enabled :: Registration(h.commandSetting[n])
  }

  /** The hystrix table entries of every enabled command. */
  function Registrations(h: HytrixCfg): map<string, CommandConfig>
    requires TimeoutsAreInt64(h)
  {
    map n | n in h.commandSetting && h.commandSetting[n].enabled :: Registration(h.commandSetting[n])
  }

  /**
   * Configuring a list of names, in any order and with repeats, overrides
   * the table with exactly the entries of the enabled commands among them.
   */
  lemma {:induction false} ConfiguredAllOverrides(h: HytrixCfg, m: map<string, CommandConfig>, names: seq<string>)
    requires TimeoutsAreInt64(h)
    ensures ConfiguredAll(h, m, names) == m + RegisteredAmong(h, names)
  {
    if names != [] {
      var init, n := names[..|names| - 1], names[|names| - 1];
      ConfiguredAllOverrides(h, m, init);
      assert names == init + [n];
      ConfigureAppends(h, m, init, n);
    }
  }

  /** One more ConfigureCommand adds one more name to the configured list. */
  lemma ConfigureAppends(h: HytrixCfg, m: map<string, CommandConfig>, init: seq<string>, n: string)
    requires TimeoutsAreInt64(h)
    ensures Configure(h, m + RegisteredAmong(h, init), n) == m + RegisteredAmong(h, init + [n])
  {
    var before, after := RegisteredAmong(h, init), RegisteredAmong(h, init + [n]);
    assert forall k :: k in init + [n] <==> k in init || k == n;
    if n in h.commandSetting && h.commandSetting[n].enabled {
      assert after == before[n := Registration(h.commandSetting[n])];
    } else {
      assert after == before;
    }
  }

  /** A key order of the command map configures every enabled command. */
  lemma RegisteredAmongEnumeration(h: HytrixCfg, order: seq<string>)
    requires TimeoutsAreInt64(h)
    requires Enumerates(order, h.commandSetting.Keys)
    ensures RegisteredAmong(h, order) == Registrations(h)
  {
  }

  class HttpClient {
    const variant: Variant
    const config: ClientxCfg
    const newrelic: Option<NewrelicTracer>

    /**
     * NewHttpClient: when the breaker setting is enabled, every configured
     * command is configured, one per key of the command map in iteration order.
     */
    constructor (variant: Variant, config: ClientxCfg, newrelic: Option<NewrelicTracer>,
                 registry: Registry, commandOrder: seq<string>)
      requires TimeoutsAreInt64(config.hytrixSetting)
      requires Enumerates(commandOrder, config.hytrixSetting.commandSetting.Keys)
      modifies registry
      ensures this.variant == variant && this.config == config && this.newrelic == newrelic
      ensures registry.commands ==
                if config.hytrixSetting.enabled
                then old(registry.commands) + Registrations(config.hytrixSetting)
                else old(registry.commands)
    {
      this.variant := variant;
      this.config := config;
      this.newrelic := newrelic;
      new;
      if config.hytrixSetting.enabled {
        var i := 0;
        while i < |commandOrder|
          invariant i <= |commandOrder|
          invariant registry.commands == ConfiguredAll(config.hytrixSetting, old(registry.commands), commandOrder[..i])
        {
          ConfigureCommand(commandOrder[i], registry);
          assert commandOrder[..i + 1][..i] == commandOrder[..i];
          i := i + 1;
        }
        assert commandOrder[..i] == commandOrder;
        ConfiguredAllOverrides(config.hytrixSetting, old(registry.commands), commandOrder);
        RegisteredAmongEnumeration(config.hytrixSetting, commandOrder);
      }
    }

    /**
     * ConfigureCommand: a command missing from the settings is skipped; a
     * found one is defaulted on a copy and registered only when enabled.
     */
    method ConfigureCommand(commandName: string, registry: Registry)
      requires TimeoutsAreInt64(config.hytrixSetting)
      modifies registry
      ensures registry.commands == Configure(config.hytrixSetting, old(registry.commands), commandName)
    {
      var commandSetting := config.hytrixSetting.commandSetting;
      if commandName !in commandSetting {
        return;
      }
      var hytrixSetting := commandSetting[commandName];
      if hytrixSetting.timeout == 0 {
        hytrixSetting := hytrixSetting.(timeout := DefaultHytrixTimeout);
      }
      if hytrixSetting.maxConcurrentRequest == 0 {
        hytrixSetting := hytrixSetting.(maxConcurrentRequest := DefaultHytrixMaxConcurrentRequests);
      }
      if hytrixSetting.requestVolumeThreshold == 0 {
        hytrixSetting := hytrixSetting.(requestVolumeThreshold := DefaultRequestVolumeThreshold);
      }
      if hytrixSetting.sleepWindow == 0 {
        hytrixSetting := hytrixSetting.(sleepWindow := DefaultHytrixSleepWindow);
      }
      if hytrixSetting.errorPercentThreshold == 0 {
        hytrixSetting := hytrixSetting.(errorPercentThreshold := DefaultHytrixErrorPercentThreshold);
      }
      if hytrixSetting.enabled {
        registry.ConfigureCommand(commandName, CommandConfig(
          DurationToInt(hytrixSetting.timeout, Millisecond),
          hytrixSetting.maxConcurrentRequest,
          hytrixSetting.requestVolumeThreshold,
          hytrixSetting.sleepWindow,
          hytrixSetting.errorPercentThreshold));
      }
    }

    /** The attempt every send of a request makes, whatever the reply. */
    ghost function AttemptOf(req: Request, body: Option<seq<byte>>, name: string, opts: Options): Attempt
      reads req
      requires OptionsWellTyped(opts)
    {
      Attempt(req.httpMethod, req.url, req.header, body, RequestTimeout(opts),
              MetricsDecision(config.turnOffNewrelic, newrelic, name))
    }

    /** sendHttpRequest: one client.Do with the option's timeout, inside a New Relic segment or not. */
    method SendHttpRequest(req: Request, name: string, opts: Options, net: Network) returns (reply: Reply)
      requires OptionsWellTyped(opts)
      requires net.replies != []
      requires req.body != null ==> req.body.Valid()
      modifies net, req.body
      ensures reply == old(net.replies[0]) && net.replies == old(net.replies[1..]) && net.slept == old(net.slept)
      ensures net.sent == old(net.sent) + [AttemptOf(req, old(Remaining(req.body)), name, opts)]
      ensures req.body != null ==> req.body.Valid() && req.body.pos == CursorAfter(old(req.body.pos), |req.body.data|, reply)
    {
      var requestTimeout := RequestTimeout(opts);
      var metrics := MetricsDecision(config.turnOffNewrelic, newrelic, name);
      reply := net.Do(req, requestTimeout, metrics);
    }

    /** One send of a captured request, then bodyReader.Seek(0, 0) so that the next send reads the same bytes. */
    method SendAndRewind(req: Request, bodyReader: BodyReader?, name: string, opts: Options, net: Network,
                         ghost attempt: Attempt) returns (reply: Reply)
      requires OptionsWellTyped(opts) && net.replies != []
      requires req.body == bodyReader && (bodyReader != null ==> bodyReader.Valid() && bodyReader.pos == 0)
      requires attempt == AttemptOf(req, Remaining(bodyReader), name, opts)
      modifies net, bodyReader
      ensures bodyReader != null ==> bodyReader.Valid() && bodyReader.pos == 0
      ensures reply == old(net.replies[0]) && net.replies == old(net.replies[1..]) && net.slept == old(net.slept)
      ensures net.sent == old(net.sent) + [attempt]
    {
      reply := SendHttpRequest(req, name, opts, net);
      if bodyReader != null {
        bodyReader.Rewind();
      }
    }

    /**
     * hystrix.Do with the clientx action and a fallback that returns nil:
     * when hystrix runs the action it makes one send and rewinds; whatever
     * the action reports is swallowed, so the caller learns nothing.
     */
    method HystrixDo(req: Request, bodyReader: BodyReader?, name: string, opts: Options, net: Network,
                     breakerRuns: bool, ghost attempt: Attempt)
      requires OptionsWellTyped(opts) && net.replies != []
      requires req.body == bodyReader && (bodyReader != null ==> bodyReader.Valid() && bodyReader.pos == 0)
      requires attempt == AttemptOf(req, Remaining(bodyReader), name, opts)
      modifies net, bodyReader
      ensures bodyReader != null ==> bodyReader.Valid() && bodyReader.pos == 0
      ensures net.slept == old(net.slept)
      ensures if breakerRuns
        then net.replies == old(net.replies[1..]) && net.sent == old(net.sent) + [attempt]
        else net.replies == old(net.replies) && net.sent == old(net.sent)
    {
      if breakerRuns {
        var reply := SendAndRewind(req, bodyReader, name, opts, net, attempt);
        var actionErr := SendError(variant, req.url, reply);
      }
    }

    /**
     * The `for count := 0; count <= MaxRetryAttempts; count++` loop of
     * firstAttemptAndRetry. A direct failed send sleeps and continues (or
     * panics when the guard lets count == len(BackOffDurations) through); a
     * send that did not fail, and every hystrix.Do, ends the loop: the err
     * tested after hystrix.Do is the outer variable, which nothing assigns.
     * The loop assigns nothing the caller returns; it either panics or not.
     */
    method RetryLoop(retry: RetryCfg, req: Request, bodyReader: BodyReader?, name: string, opts: Options,
                     net: Network, breakerRuns: bool, ghost attempt: Attempt) returns (r: Outcome<()>)
      requires OptionsWellTyped(opts)
      requires |net.replies| > retry.maxRetryAttempts
      requires req.body == bodyReader && (bodyReader != null ==> bodyReader.Valid() && bodyReader.pos == 0)
      requires attempt == AttemptOf(req, Remaining(bodyReader), name, opts)
      modifies net, bodyReader
      ensures var t := if DirectSend(variant, config)
                       then DirectRetries(retry.backOffDurations, retry.maxRetryAttempts, old(net.replies), 0)
                       else Trace(if breakerRuns then 1 else 0, [], Normal(Returned(None, None)));
        (r.Panic? <==> t.result.Panic?) && (r.Panic? ==> r.reason == t.result.reason) &&
        net.replies == old(net.replies)[t.sends..] &&
        net.slept == old(net.slept) + t.sleeps &&
        net.sent == old(net.sent) + Repeat(attempt, t.sends)
    {
      ghost var replies0, sent0 := net.replies, net.sent;
      var b, max := retry.backOffDurations, retry.maxRetryAttempts;
      var count: nat := 0;
      while count <= max
        invariant count <= max + 1
        invariant bodyReader != null ==> bodyReader.Valid() && bodyReader.pos == 0
        invariant !DirectSend(variant, config) ==> count == 0 && net.replies == replies0 && net.sent == sent0
        invariant count <= |b| && forall j :: 0 <= j < count ==> Failed(replies0[j])
        invariant net.replies == replies0[count..]
        invariant net.sent == sent0 + Repeat(attempt, count)
        invariant net.slept == old(net.slept) + b[..count]
        decreases max + 1 - count
      {
        if DirectSend(variant, config) {
          var reply := SendAndRewind(req, bodyReader, name, opts, net, attempt);
          assert Repeat(attempt, count + 1) == Repeat(attempt, count) + [attempt];
          assert reply == replies0[count];
          var sendErr := SendError(variant, req.url, reply);
          if sendErr.Some? {
            var backOffDuration := DefaultBackOffDuration;
            if |b| >= count {
              if count == |b| {
                // BackOffDurations[count] is out of range
                DirectRetriesPrefix(b, max, replies0, count);
                return Panic(IndexOutOfRange);
              }
              backOffDuration := b[count];
            }
            net.Sleep(backOffDuration);
            assert b[..count + 1] == b[..count] + [backOffDuration];
            count := count + 1;
            continue;
          }
          DirectRetriesPrefix(b, max, replies0, count);
        } else {
          HystrixDo(req, bodyReader, name, opts, net, breakerRuns, attempt);
          assert Repeat(attempt, 1) == [attempt];
        }
        break;
      }
      if count > max {
        DirectRetriesPrefix(b, max, replies0, count);
      }
      return Normal(());
    }

    /**
     * firstAttemptAndRetry: the body is read once into a rewindable reader;
     * then one send (retries disabled) or the retry loop (retries enabled),
     * each send direct or through hystrix.Do as the variant's flag says.
     * breakerRuns tells whether hystrix runs the action it is given. The
     * resp and err it finally returns are never assigned: every send binds
     * fresh variables of the same names.
     */
    method FirstAttemptAndRetry(retry: RetryCfg, req: Request, name: string, opts: Options,
                                net: Network, breakerRuns: bool) returns (r: CallResult)
      requires OptionsWellTyped(opts)
      requires |net.replies| > retry.maxRetryAttempts
      requires req.body != null ==> req.body.Valid()
      modifies net, req`body, req.body
      ensures var t := Expected(DirectSend(variant, config), retry,
                                if old(req.body) == null then None else old(req.body.failure),
                                old(net.replies), breakerRuns);
        var attempt := old(AttemptOf(req, Remaining(req.body), name, opts));
        r == t.result &&
        net.replies == old(net.replies)[t.sends..] &&
        net.slept == old(net.slept) + t.sleeps &&
        net.sent == old(net.sent) + Repeat(attempt, t.sends)
    {
      ghost var attempt := AttemptOf(req, Remaining(req.body), name, opts);
      var bodyReader: BodyReader? := null;
      var err: Option<HttpError> := None;
      var resp: Option<Response> := None;
      if req.body != null {
        var reqData, readErr := req.body.ReadAll();
        if readErr.Some? {
          return Normal(Returned(None, readErr));
        }
        bodyReader := new BodyReader(reqData, None);
        req.body := bodyReader;
      }
      assert attempt == AttemptOf(req, Remaining(bodyReader), name, opts);

      if !retry.enabled {
        if DirectSend(variant, config) {
          var reply := SendHttpRequest(req, name, opts, net);
          assert Repeat(attempt, 1) == [attempt];
          return Normal(AsReturned(reply));
        }
        HystrixDo(req, bodyReader, name, opts, net, breakerRuns, attempt);
        assert Repeat(attempt, 1) == [attempt];
        return Normal(Returned(resp, err));
      }

      var loop := RetryLoop(retry, req, bodyReader, name, opts, net, breakerRuns, attempt);
      if loop.Panic? {
        return Panic(loop.reason);
      }
      if DirectSend(variant, config) {
        DirectRetriesShape(retry.backOffDurations, retry.maxRetryAttempts, old(net.replies), 0);
      }
      return Normal(Returned(resp, err));
    }

    /**
     * A verb method (GET, POST, PUT, PATCH or DELETE) with its request
     * assembly: the retry policy and operation name come from the verb, the
     * request is built with method DELETE, Content-Type is set before the
     * header option. requestErr stands for a failure of http.NewRequest.
     */
    method Call(verb: Verb, url: string, body: BodyReader?, opts: Options, headerOrder: seq<string>,
                requestErr: Option<HttpError>, net: Network, breakerRuns: bool) returns (r: CallResult)
      requires verb == GET ==> body == null
      requires body != null ==> body.Valid()
      requires OptionsWellTyped(opts)
      requires opts.header.Some? ==> Enumerates(headerOrder, opts.header.value.Keys)
      requires |net.replies| >
                 Resolved(config.defaultRetrySetting, config.apiSpecificRetrySetting, VerbName(verb), url).maxRetryAttempts
      modifies net, body
      ensures requestErr.Some? ==>
                r == Normal(Returned(None, requestErr)) &&
                net.replies == old(net.replies) && net.sent == old(net.sent) && net.slept == old(net.slept)
      ensures requestErr.None? ==>
        var t := Expected(DirectSend(variant, config),
                          Resolved(config.defaultRetrySetting, config.apiSpecificRetrySetting, VerbName(verb), url),
                          if body == null then None else body.failure, old(net.replies), breakerRuns);
        r == AfterVerb(t.result) &&
        net.replies == old(net.replies)[t.sends..] &&
        net.slept == old(net.slept) + t.sleeps &&
        var attempt := Attempt(VerbName(DELETE), url, AssembledHeader(opts, headerOrder), old(Remaining(body)),
                               RequestTimeout(opts),
                               MetricsDecision(config.turnOffNewrelic, newrelic, OpName(url, VerbName(verb), opts)));
        net.sent == old(net.sent) + Repeat(attempt, t.sends)
    {
      var retryConfig := GetRetrySetting(config.defaultRetrySetting, config.apiSpecificRetrySetting, VerbName(verb), url);
      var operationName := OpName(url, VerbName(verb), opts);
      if requestErr.Some? {
        return Normal(Returned(None, requestErr));
      }
      var req := new Request(VerbName(DELETE), url, body);
      req.header := req.header[CanonicalKey(ContentTypeKey) := ApplicationJSON];
      SetHeaderFromOption(req, opts, headerOrder);
      r := FirstAttemptAndRetry(retryConfig, req, operationName, opts, net, breakerRuns);
      match r {
        case Panic(_) =>
        case Normal(Returned(resp, err)) =>
          if err.None? && resp.None? {
            // the log line reads resp.Status
            r := Panic(NilDereference);
          }
      }
    }
  }
}

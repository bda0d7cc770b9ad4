/**
 * The retry engine of http/client: no circuit breaker and no body capture,
 * only a transport error counts as a failure, and the retry switch is read
 * the wrong way round: a failed first send is retried only when retries
 * are disabled.
 */
module PlainClient {
  import opened Go
  import opened ClientTypes
  import opened Wire
  import opened RetrySetting
  import opened RequestAssembly

  /**
   * The retry loop from iteration count on, where iteration i gets
   * replies[i + 1] (replies[0] went to the first send): a send that did not
   * fail, and the send of iteration max - 1, are returned as they are; a
   * failed one at iteration |b| indexes past the schedule and panics; any
   * other failed one sleeps. A loop that never runs returns the first reply.
   */
  function PlainRetries(b: seq<Duration>, max: nat, replies: seq<Reply>, count: nat): (t: Trace)
    requires count <= max && |replies| > max
    ensures t.sends <= max - count && |t.sleeps| <= t.sends
    decreases max - count
  {
    if count == max then Trace(0, [], Normal(AsReturned(replies[0])))
    else
      var reply := replies[count + 1];
      if !reply.TransportErr? || count == max - 1 then Trace(1, [], Normal(AsReturned(reply)))
      else if count == |b| then Trace(1, [], Panic(IndexOutOfRange))
      else
        var rest := PlainRetries(b, max, replies, count + 1);
        Trace(1 + rest.sends, [BackOffAt(b, count)] + rest.sleeps, rest.result)
  }

  /** What firstAttemptAndRetry does with a policy and the replies client.Do will give. */
  function PlainExpected(retry: RetryCfg, replies: seq<Reply>): (t: Trace)
    requires |replies| > retry.maxRetryAttempts
    ensures 1 <= t.sends <= retry.maxRetryAttempts + 1
  {
    if !replies[0].TransportErr? || retry.enabled then Trace(1, [], Normal(AsReturned(replies[0])))
    else
      var rest := PlainRetries(retry.backOffDurations, retry.maxRetryAttempts, replies, 0);
      Trace(1 + rest.sends, rest.sleeps, rest.result)
  }

  /**
   * From iteration count on: every send but the last failed; the last is
   * the one returned, unless the loop panicked on it; no sleep follows the
   * last send; each sleep is its iteration's delay, and a schedule entry.
   */
  lemma {:induction false} PlainRetriesShape(b: seq<Duration>, max: nat, replies: seq<Reply>, count: nat)
    requires count < max && |replies| > max
    ensures var t := PlainRetries(b, max, replies, count);
      1 <= t.sends &&
      (forall j :: count + 1 <= j < count + t.sends ==> replies[j].TransportErr?) &&
      (t.result.Normal? ==> t.result == Normal(AsReturned(replies[count + t.sends]))) &&
      (t.result.Normal? && count + t.sends < max ==> !replies[count + t.sends].TransportErr?) &&
      (t.result.Panic? ==> t.result == Panic(IndexOutOfRange) && count + t.sends - 1 == |b| &&
                           replies[|b| + 1].TransportErr?) &&
      |t.sleeps| == t.sends - 1 &&
      (forall j :: 0 <= j < |t.sleeps| ==> t.sleeps[j] == BackOffAt(b, count + j)) &&
      (count <= |b| ==> count + |t.sleeps| <= |b|)
    decreases max - count
  {
    var t := PlainRetries(b, max, replies, count);
    if replies[count + 1].TransportErr? && count != max - 1 && count != |b| {
      PlainRetriesShape(b, max, replies, count + 1);
      var rest := PlainRetries(b, max, replies, count + 1);
      assert t.sends == 1 + rest.sends && t.sleeps == [BackOffAt(b, count)] + rest.sleeps;
      forall j | 0 <= j < |t.sleeps| ensures t.sleeps[j] == BackOffAt(b, count + j) {
        if j > 0 {
          assert t.sleeps[j] == rest.sleeps[j - 1];
        }
      }
    }
  }

  /** From iteration count on, the loop panics exactly when it reaches iteration |b| before the last one, every send failing. */
  lemma {:induction false} PlainRetriesPanics(b: seq<Duration>, max: nat, replies: seq<Reply>, count: nat)
    requires count <= max && |replies| > max
    ensures PlainRetries(b, max, replies, count).result.Panic? <==>
              count <= |b| && |b| + 2 <= max && forall j :: count + 1 <= j <= |b| + 1 ==> replies[j].TransportErr?
    decreases max - count
  {
    if count < max && replies[count + 1].TransportErr? && count != max - 1 && count != |b| {
      PlainRetriesPanics(b, max, replies, count + 1);
    }
  }

  /**
   * The iterations before count all failed without returning or
   * panicking: the loop from the start is those count sends and the
   * schedule's first count delays, followed by the loop from iteration count.
   */
  lemma {:induction false} PlainRetriesPrefix(b: seq<Duration>, max: nat, replies: seq<Reply>, count: nat)
    requires count <= max && |replies| > max && count <= |b| && (count == 0 || count < max)
    requires forall j :: 1 <= j <= count ==> replies[j].TransportErr?
    ensures var whole, rest := PlainRetries(b, max, replies, 0), PlainRetries(b, max, replies, count);
      whole.sends == count + rest.sends && whole.sleeps == b[..count] + rest.sleeps && whole.result == rest.result
  {
    if count > 0 {
      PlainRetriesPrefix(b, max, replies, count - 1);
      assert b[..count] == b[..count - 1] + [b[count - 1]];
    }
  }

  /**
   * Where the loop stops at iteration count after count failed sends: the
   * whole trace is those sends and delays, then this iteration's outcome.
   */
  lemma PlainRetriesStop(b: seq<Duration>, max: nat, replies: seq<Reply>, count: nat)
    requires count <= max && |replies| > max && count <= |b| && (count == 0 || count < max)
    requires forall j :: 1 <= j <= count ==> replies[j].TransportErr?
    ensures var whole := PlainRetries(b, max, replies, 0);
      (count == max ==> whole == Trace(0, [], Normal(AsReturned(replies[0])))) &&
      (count < max && (!replies[count + 1].TransportErr? || count == max - 1) ==>
         whole == Trace(count + 1, b[..count], Normal(AsReturned(replies[count + 1])))) &&
      (count < max && replies[count + 1].TransportErr? && count != max - 1 && count == |b| ==>
         whole == Trace(count + 1, b[..count], Panic(IndexOutOfRange)))
  {
    PlainRetriesPrefix(b, max, replies, count);
    if count == max {
      assert b[..count] == [];
    }
  }

  /**
   * What the call returns is the reply of its last send, every earlier send
   * having failed, unless it panicked; retries happen only when the first
   * send failed and the policy is disabled.
   */
  lemma PlainReturnsLastReply(retry: RetryCfg, replies: seq<Reply>)
    requires |replies| > retry.maxRetryAttempts
    ensures var t := PlainExpected(retry, replies);
      (t.sends > 1 ==> !retry.enabled && replies[0].TransportErr?) &&
      (forall j :: 0 <= j < t.sends - 1 ==> replies[j].TransportErr?) &&
      (t.result.Normal? ==> t.result == Normal(AsReturned(replies[t.sends - 1])))
  {
    if replies[0].TransportErr? && !retry.enabled && retry.maxRetryAttempts > 0 {
      PlainRetriesShape(retry.backOffDurations, retry.maxRetryAttempts, replies, 0);
    }
  }

  /**
   * With retries disabled against a network that always fails, the call
   * makes 1 + MaxRetryAttempts sends and returns the last error, unless it
   * panicked; with a budget of 0 that is the first send's error.
   */
  lemma PlainAllFail(retry: RetryCfg, replies: seq<Reply>)
    requires |replies| > retry.maxRetryAttempts && !retry.enabled
    requires forall j :: 0 <= j <= retry.maxRetryAttempts ==> replies[j].TransportErr?
    ensures var t := PlainExpected(retry, replies);
      t.result.Normal? ==>
        t.sends == retry.maxRetryAttempts + 1 &&
        t.result == Normal(AsReturned(replies[retry.maxRetryAttempts])) &&
        t.result.value.err.Some?
  {
    if retry.maxRetryAttempts > 0 {
      PlainRetriesShape(retry.backOffDurations, retry.maxRetryAttempts, replies, 0);
    }
  }

  /**
   * Sleeps fall only between retries: none after the first send and none
   * after the last, and they follow the schedule from its first entry.
   */
  lemma PlainSleepsBetweenRetries(retry: RetryCfg, replies: seq<Reply>)
    requires |replies| > retry.maxRetryAttempts
    ensures var t := PlainExpected(retry, replies);
      |t.sleeps| == (if t.sends >= 2 then t.sends - 2 else 0) &&
      |t.sleeps| <= |retry.backOffDurations| &&
      t.sleeps == retry.backOffDurations[..|t.sleeps|]
  {
    if replies[0].TransportErr? && !retry.enabled && retry.maxRetryAttempts > 0 {
      PlainRetriesShape(retry.backOffDurations, retry.maxRetryAttempts, replies, 0);
    }
  }

  /**
   * The call panics exactly when retries are disabled, the schedule is at
   * least two entries shorter than the budget, and the first |b| + 2 sends
   * all fail.
   */
  lemma PlainPanics(retry: RetryCfg, replies: seq<Reply>)
    requires |replies| > retry.maxRetryAttempts
    ensures var b := retry.backOffDurations;
      PlainExpected(retry, replies).result.Panic? <==>
        !retry.enabled && |b| + 2 <= retry.maxRetryAttempts &&
        forall j :: 0 <= j <= |b| + 1 ==> replies[j].TransportErr?
  {
    PlainRetriesPanics(retry.backOffDurations, retry.maxRetryAttempts, replies, 0);
  }

  /**
   * Under the resolved, padded policy the out-of-range panic needs an
   * empty schedule padded to three entries and a budget of at least 5.
   */
  lemma PaddedPlainPanics(c: RetryCfg, replies: seq<Reply>)
    requires |replies| > c.maxRetryAttempts
    ensures PlainExpected(Padded(c), replies).result.Panic? <==>
              !c.enabled && c.backOffDurations == [] && c.maxRetryAttempts >= DefaultRetryAttempts + 2 &&
              forall j :: 0 <= j <= DefaultRetryAttempts + 1 ==> replies[j].TransportErr?
  {
    PaddedShape(c);
    PlainPanics(Padded(c), replies);
  }

  /**
   * The cursor of a body holding len bytes before send i of a call that
   * never rewinds it: it starts at p0, and each send moves it as far as its
   * reply says the transport read.
   */
  function CursorBefore(p0: nat, len: nat, replies: seq<Reply>, i: nat): (p: nat)
    requires p0 <= len && i <= |replies|
    ensures p0 <= p <= len
    decreases i
  {
    if i == 0 then p0 else CursorAfter(CursorBefore(p0, len, replies, i - 1), len, replies[i - 1])
  }

  /** The body send i of such a call offers: what is left after the cursor, or None without a body. */
  function Offered(data: Option<seq<byte>>, p0: nat, replies: seq<Reply>, i: nat): (o: Option<seq<byte>>)
    requires (data.Some? ==> p0 <= |data.value|) && i <= |replies|
    ensures o.Some? <==> data.Some?
    ensures data.Some? ==> o.value == data.value[CursorBefore(p0, |data.value|, replies, i)..]
  {
    if data.None? then None else Some(data.value[CursorBefore(p0, |data.value|, replies, i)..])
  }

  /** The log of the first n sends of such a call: send k is a carrying what send k offers. */
  function Sends(a: Attempt, data: Option<seq<byte>>, p0: nat, replies: seq<Reply>, n: nat): (s: seq<Attempt>)
    requires (data.Some? ==> p0 <= |data.value|) && n <= |replies|
    ensures |s| == n
  {
    if n == 0 then [] else Sends(a, data, p0, replies, n - 1) + [a.(body := Offered(data, p0, replies, n - 1))]
  }

  /** Entry k of such a log is a carrying what send k offers. */
  lemma {:induction false} SendsAt(a: Attempt, data: Option<seq<byte>>, p0: nat, replies: seq<Reply>, n: nat, k: nat)
    requires (data.Some? ==> p0 <= |data.value|) && k < n <= |replies|
    ensures Sends(a, data, p0, replies, n)[k] == a.(body := Offered(data, p0, replies, k))
    decreases n
  {
    if k < n - 1 {
      SendsAt(a, data, p0, replies, n - 1, k);
    }
  }

  /** One more send at the end of such a log. */
  lemma SendsOneMore(s: seq<Attempt>, a: Attempt, data: Option<seq<byte>>, p0: nat, replies: seq<Reply>, n: nat)
    requires (data.Some? ==> p0 <= |data.value|) && n < |replies|
    ensures s + Sends(a, data, p0, replies, n) + [a.(body := Offered(data, p0, replies, n))] ==
            s + Sends(a, data, p0, replies, n + 1)
  {
    assert Sends(a, data, p0, replies, n + 1) ==
           Sends(a, data, p0, replies, n) + [a.(body := Offered(data, p0, replies, n))];
  }

  /** The cursor never moves back: a later send starts no earlier than an earlier one. */
  lemma {:induction false} CursorNeverMovesBack(p0: nat, len: nat, replies: seq<Reply>, i: nat, j: nat)
    requires p0 <= len && i <= j <= |replies|
    ensures CursorBefore(p0, len, replies, i) <= CursorBefore(p0, len, replies, j)
    decreases j
  {
    if i < j {
      CursorNeverMovesBack(p0, len, replies, i, j - 1);
    }
  }

  /** What a later send offers is a suffix of what an earlier one offered: a retry carries what the send before it left unread. */
  lemma OfferedShrinks(data: Option<seq<byte>>, p0: nat, replies: seq<Reply>, i: nat, j: nat)
    requires (data.Some? ==> p0 <= |data.value|) && i <= j <= |replies|
    ensures data.Some? ==>
      var earlier, later := Offered(data, p0, replies, i).value, Offered(data, p0, replies, j).value;
      |later| <= |earlier| && later == earlier[|earlier| - |later|..]
  {
    if data.Some? {
      CursorNeverMovesBack(p0, |data.value|, replies, i, j);
    }
  }

  /**
   * Sends refused before the transport wrote any body byte leave the body
   * untouched: the send after them offers the whole body again.
   */
  lemma {:induction false} RefusedSendsKeepBody(data: Option<seq<byte>>, p0: nat, replies: seq<Reply>, i: nat)
    requires (data.Some? ==> p0 <= |data.value|) && i <= |replies|
    requires forall k :: 0 <= k < i ==> replies[k].TransportErr? && replies[k].read == 0
    ensures Offered(data, p0, replies, i) == Offered(data, p0, replies, 0)
  {
    if data.Some? {
      CursorStaysPut(p0, |data.value|, replies, i);
    }
  }

  lemma {:induction false} CursorStaysPut(p0: nat, len: nat, replies: seq<Reply>, i: nat)
    requires p0 <= len && i <= |replies|
    requires forall k :: 0 <= k < i ==> replies[k].TransportErr? && replies[k].read == 0
    ensures CursorBefore(p0, len, replies, i) == p0
  {
    if i > 0 {
      CursorStaysPut(p0, len, replies, i - 1);
    }
  }

  /** Once a send failed after its transport read the whole body, every later send offers an empty one. */
  lemma DrainedBodyStaysEmpty(data: Option<seq<byte>>, p0: nat, replies: seq<Reply>, k: nat, i: nat)
    requires (data.Some? ==> p0 <= |data.value|) && k < i <= |replies|
    requires data.Some? && replies[k].TransportErr? && replies[k].read >= |data.value|
    ensures Offered(data, p0, replies, i) == Some([])
  {
    CursorNeverMovesBack(p0, |data.value|, replies, k + 1, i);
    assert CursorBefore(p0, |data.value|, replies, k + 1) == |data.value|;
  }

  /**
   * A DELETE whose first k sends were refused before writing sends its
   * whole payload again on send k, as the log Delete promises shows.
   */
  lemma RefusedSendsResendPayload(a: Attempt, data: seq<byte>, replies: seq<Reply>, n: nat, k: nat)
    requires k < n <= |replies|
    requires forall j :: 0 <= j < k ==> replies[j].TransportErr? && replies[j].read == 0
    ensures Sends(a, Some(data), 0, replies, n)[k] == a.(body := Some(data))
  {
    SendsAt(a, Some(data), 0, replies, n, k);
    RefusedSendsKeepBody(Some(data), 0, replies, k);
    assert data[0..] == data;
  }

  class HttpClient {
    const config: PlainCfg
    const newrelic: Option<NewrelicTracer>

    /** DefaultHttpClient: the configuration and the New Relic tracer the options carry, if any. */
    constructor (config: PlainCfg, newrelic: Option<NewrelicTracer>)
      ensures this.config == config && this.newrelic == newrelic
    {
      this.config := config;
      this.newrelic := newrelic;
    }

    /** The attempt a send of the request makes when it reads body from the request body. */
    ghost function AttemptWith(req: Request, body: Option<seq<byte>>, name: string, opts: Options): Attempt
      reads req
      requires OptionsWellTyped(opts)
    {
      Attempt(req.httpMethod, req.url, req.header, body, RequestTimeout(opts), MetricsDecision(false, newrelic, name))
    }

    /**
     * sendHttpRequest: as in clientx, except that no configuration switch
     * turns New Relic off; attempt names what the send transmits.
     */
    method SendHttpRequest(req: Request, name: string, opts: Options, net: Network, ghost attempt: Attempt)
      returns (reply: Reply)
      requires OptionsWellTyped(opts)
      requires net.replies != []
      requires req.body != null ==> req.body.Valid()
      requires attempt == AttemptWith(req, Remaining(req.body), name, opts)
      modifies net, req.body
      ensures reply == old(net.replies[0]) && net.replies == old(net.replies[1..]) && net.slept == old(net.slept)
      ensures net.sent == old(net.sent) + [attempt]
      ensures req.body != null ==> req.body.Valid() && req.body.pos == CursorAfter(old(req.body.pos), |req.body.data|, reply)
    {
      var requestTimeout := RequestTimeout(opts);
      var metrics := MetricsDecision(false, newrelic, name);
      reply := net.Do(req, requestTimeout, metrics);
    }

    /**
     * Send k of a call whose body, holding data, started at p0 and is
     * never rewound: it takes reply k and logs what the sends before it
     * left unread, after the log sentBefore + Sends(..., k) of the sends
     * before it.
     */
    method Resend(req: Request, name: string, opts: Options, net: Network, ghost a: Attempt,
                  ghost data: Option<seq<byte>>, ghost p0: nat, ghost replies: seq<Reply>, ghost k: nat,
                  ghost sentBefore: seq<Attempt>)
      returns (reply: Reply)
      requires OptionsWellTyped(opts)
      requires req.body != null ==> req.body.Valid()
      requires data == Contents(req.body) && (data.Some? ==> p0 <= |data.value|)
      requires k < |replies| && net.replies == replies[k..]
      requires req.body != null ==> req.body.pos == CursorBefore(p0, |req.body.data|, replies, k)
      requires a == AttemptWith(req, data, name, opts)
      requires net.sent == sentBefore + Sends(a, data, p0, replies, k)
      modifies net, req.body
      ensures reply == replies[k] && net.replies == replies[k + 1..] && net.slept == old(net.slept)
      ensures net.sent == sentBefore + Sends(a, data, p0, replies, k + 1)
      ensures req.body != null ==> req.body.Valid() && req.body.pos == CursorBefore(p0, |req.body.data|, replies, k + 1)
    {
      DropOneMore(replies, k);
      reply := SendHttpRequest(req, name, opts, net, a.(body := Offered(data, p0, replies, k)));
      SendsOneMore(sentBefore, a, data, p0, replies, k);
    }

    /**
     * The `for count < MaxRetryAttempts` loop of firstAttemptAndRetry,
     * entered after a failed first send whose pair is firstResult. The
     * request body, holding data from its cursor p0 on, is never rewound:
     * each retry offers what the send before it left unread. sentBefore is
     * the log before the first send. When the loop does not run, the first
     * send's pair is returned.
     */
    method RetryLoop(retry: RetryCfg, req: Request, name: string, opts: Options, net: Network,
                     firstResult: Returned, ghost replies: seq<Reply>, ghost data: Option<seq<byte>>, ghost p0: nat,
                     ghost sentBefore: seq<Attempt>) returns (r: CallResult)
      requires OptionsWellTyped(opts)
      requires |replies| > retry.maxRetryAttempts && net.replies == replies[1..] && firstResult == AsReturned(replies[0])
      requires req.body != null ==> req.body.Valid()
      requires data == Contents(req.body) && (data.Some? ==> p0 <= |data.value|)
      requires req.body != null ==> req.body.pos == CursorBefore(p0, |req.body.data|, replies, 1)
      requires net.sent == sentBefore + Sends(AttemptWith(req, data, name, opts), data, p0, replies, 1)
      modifies net, req.body
      ensures var t := PlainRetries(retry.backOffDurations, retry.maxRetryAttempts, replies, 0);
        r == t.result &&
        net.replies == replies[1 + t.sends..] &&
        net.slept == old(net.slept) + t.sleeps &&
        net.sent == sentBefore + Sends(AttemptWith(req, data, name, opts), data, p0, replies, 1 + t.sends)
    {
      ghost var a := AttemptWith(req, data, name, opts);
      var b, max := retry.backOffDurations, retry.maxRetryAttempts;
      var count: nat := 0;
      r := Normal(firstResult);
      while count < max
        invariant count <= max && count <= |b| && (count == 0 || count < max)
        invariant forall j :: 1 <= j <= count ==> replies[j].TransportErr?
        invariant req.body != null ==> req.body.Valid() && req.body.pos == CursorBefore(p0, |req.body.data|, replies, count + 1)
        invariant net.replies == replies[count + 1..]
        invariant net.sent == sentBefore + Sends(a, data, p0, replies, count + 1)
        invariant net.slept == old(net.slept) + b[..count]
        decreases max - count
      {
        var reply := Resend(req, name, opts, net, a, data, p0, replies, count + 1, sentBefore);
        var result := AsReturned(reply);
        if result.err.None? || count == max - 1 {
          r := Normal(result);
          break;
        }
        var backOffDuration := DefaultBackOffDuration;
        if |b| >= count {
          if count == |b| {
            // BackOffDurations[count] is out of range
            r := Panic(IndexOutOfRange);
            break;
          }
          backOffDuration := b[count];
        }
        net.Sleep(backOffDuration);
        PrefixOneMore(old(net.slept), b, count);
        count := count + 1;
      }
      PlainRetriesStop(b, max, replies, count);
    }

    /**
     * firstAttemptAndRetry: the first send, returned at once unless it
     * failed with the policy disabled; then the retry loop. The body is
     * never rewound: each send offers what the sends before it left unread.
     */
    method FirstAttemptAndRetry(retry: RetryCfg, req: Request, name: string, opts: Options, net: Network)
      returns (r: CallResult)
      requires OptionsWellTyped(opts)
      requires |net.replies| > retry.maxRetryAttempts
      requires req.body != null ==> req.body.Valid()
      modifies net, req.body
      ensures var t := PlainExpected(retry, old(net.replies));
        var p0 := old(if req.body == null then 0 else req.body.pos);
        r == t.result &&
        net.replies == old(net.replies)[t.sends..] &&
        net.slept == old(net.slept) + t.sleeps &&
        net.sent == old(net.sent) + Sends(AttemptWith(req, Contents(req.body), name, opts), Contents(req.body), p0, old(net.replies), t.sends)
    {
      ghost var replies0, sent0 := net.replies, net.sent;
      ghost var data := Contents(req.body);
      ghost var p0 := if req.body == null then 0 else req.body.pos;
      ghost var a := AttemptWith(req, data, name, opts);
      assert Sends(a, data, p0, replies0, 1) == [a.(body := Offered(data, p0, replies0, 0))];
      var reply := SendHttpRequest(req, name, opts, net, a.(body := Offered(data, p0, replies0, 0)));
      var firstResult := AsReturned(reply);
      if firstResult.err.Some? {
        if retry.enabled {
          return Normal(firstResult);
        }
        r := RetryLoop(retry, req, name, opts, net, firstResult, replies0, data, p0, sent0);
        assert replies0[1..][PlainRetries(retry.backOffDurations, retry.maxRetryAttempts, replies0, 0).sends..] ==
               replies0[1 + PlainRetries(retry.backOffDurations, retry.maxRetryAttempts, replies0, 0).sends..];
        return;
      }
      return Normal(firstResult);
    }

    /**
     * DELETE: the policy and operation name of "DELETE", the marshalled
     * payload in a bytes.Buffer, Content-Type then the header option, and
     * firstAttemptAndRetry; an error comes back with a nil response.
     * marshalErr and requestErr stand for failures of json.Marshal and
     * http.NewRequest.
     */
    method Delete(url: string, data: seq<byte>, marshalErr: Option<HttpError>, opts: Options,
                  headerOrder: seq<string>, requestErr: Option<HttpError>, net: Network) returns (r: CallResult)
      requires OptionsWellTyped(opts)
      requires opts.header.Some? ==> Enumerates(headerOrder, opts.header.value.Keys)
      requires |net.replies| >
                 Resolved(config.defaultRetrySetting, config.apiSpecificRetrySetting, "DELETE", url).maxRetryAttempts
      modifies net
      ensures marshalErr.Some? || requestErr.Some? ==>
                r == Normal(Returned(None, if marshalErr.Some? then marshalErr else requestErr)) &&
                net.replies == old(net.replies) && net.sent == old(net.sent) && net.slept == old(net.slept)
      ensures marshalErr.None? && requestErr.None? ==>
        var t := PlainExpected(Resolved(config.defaultRetrySetting, config.apiSpecificRetrySetting, "DELETE", url),
                               old(net.replies));
        var attempt := Attempt("DELETE", url, AssembledHeader(opts, headerOrder), Some(data), RequestTimeout(opts),
                               MetricsDecision(false, newrelic, OpName(url, "DELETE", opts)));
        r == t.result &&
        net.replies == old(net.replies)[t.sends..] &&
        net.slept == old(net.slept) + t.sleeps &&
        net.sent == old(net.sent) + Sends(attempt, Some(data), 0, old(net.replies), t.sends)
    {
      var retryConfig := GetRetrySetting(config.defaultRetrySetting, config.apiSpecificRetrySetting, "DELETE", url);
      if marshalErr.Some? {
        return Normal(Returned(None, marshalErr));
      }
      if requestErr.Some? {
        return Normal(Returned(None, requestErr));
      }
      var buffer := new BodyReader(data, None);
      var req := new Request("DELETE", url, buffer);
      var operationName := OpName(url, "DELETE", opts);
      req.header := req.header[CanonicalKey(ContentTypeKey) := ApplicationJSON];
      SetHeaderFromOption(req, opts, headerOrder);
      r := FirstAttemptAndRetry(retryConfig, req, operationName, opts, net);
      PlainReturnsLastReply(retryConfig, old(net.replies));
      if r.Normal? && r.value.err.Some? {
        r := Normal(Returned(None, r.value.err));
      }
      // otherwise resp is the last reply's response, and the log line reads its status
    }
  }
}

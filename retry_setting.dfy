/**
 * Choosing a retry policy for one call: the per-route override if there is
 * one, else the client's default, with a short backoff schedule padded.
 * The three client packages share this logic line for line.
 */
module RetrySetting {
  import opened Go
  import opened ClientTypes

  /** The key under which a per-route override is stored: "[METHOD]::/url". */
  function RouteKey(httpMethod: string, url: string): string {
    "[" + httpMethod + "]::/" + url
  }

  /** getAPISpecificRetrySetting: the override under the route key and whether one is stored; the zero policy when none is. */
  function GetApiSpecificRetrySetting(api: map<string, RetryCfg>, httpMethod: string, url: string): (res: (RetryCfg, bool))
    ensures res.1 <==> RouteKey(httpMethod, url) in api
    ensures res.1 ==> res.0 == api[RouteKey(httpMethod, url)]
    ensures !res.1 ==> res.0 == ZeroRetryCfg
  {
    var key := RouteKey(httpMethod, url);
    if key in api then (api[key], true) else (ZeroRetryCfg, false)
  }

  /** The policy a call starts from, before padding: the route's override, else the default. */
  function Selected(defaultSetting: RetryCfg, api: map<string, RetryCfg>, httpMethod: string, url: string): RetryCfg {
    var (found, ok) := GetApiSpecificRetrySetting(api, httpMethod, url);
    if ok then found else defaultSetting
  }

  /**
   * The padding rule: a schedule shorter than the retry budget gets three
   * 100 ms entries when it is empty, and otherwise its last entry repeated
   * until it is as long as the budget.
   */
  function Padded(c: RetryCfg): RetryCfg {
    var b := c.backOffDurations;
    if |b| >= c.maxRetryAttempts then c
    else if b == [] then c.(backOffDurations := seq(DefaultRetryAttempts, _ => DefaultBackOffDuration))
    else c.(backOffDurations := b + seq(c.maxRetryAttempts - |b|, _ => b[|b| - 1]))
  }

  /** The policy getRetrySetting returns. */
  function Resolved(defaultSetting: RetryCfg, api: map<string, RetryCfg>, httpMethod: string, url: string): RetryCfg {
    Padded(Selected(defaultSetting, api, httpMethod, url))
  }

  /** getRetrySetting: selects the policy, then appends to a short schedule one entry at a time. */
  method GetRetrySetting(defaultSetting: RetryCfg, api: map<string, RetryCfg>, httpMethod: string, url: string)
    returns (retryConfig: RetryCfg)
    ensures retryConfig == Resolved(defaultSetting, api, httpMethod, url)
  {
    var found := GetApiSpecificRetrySetting(api, httpMethod, url);
    retryConfig := found.0;
    if !found.1 {
      retryConfig := defaultSetting;
    }
    ghost var selected := retryConfig;
    if |retryConfig.backOffDurations| < retryConfig.maxRetryAttempts {
      var backOffLen := |retryConfig.backOffDurations|;
      if backOffLen == 0 {
        var i: nat := 0;
        while i < DefaultRetryAttempts
          invariant i <= DefaultRetryAttempts
          invariant retryConfig == selected.(backOffDurations := seq(i, _ => DefaultBackOffDuration))
        {
          retryConfig := retryConfig.(backOffDurations := retryConfig.backOffDurations + [DefaultBackOffDuration]);
          i := i + 1;
        }
      } else {
        var missingAttempts := retryConfig.maxRetryAttempts - backOffLen;
        var lastBackoffDuration := retryConfig.backOffDurations[backOffLen - 1];
        var i: nat := 0;
        while i < missingAttempts
          invariant i <= missingAttempts
          invariant retryConfig == selected.(backOffDurations := selected.backOffDurations + seq(i, _ => lastBackoffDuration))
        {
          retryConfig := retryConfig.(backOffDurations := retryConfig.backOffDurations + [lastBackoffDuration]);
          i := i + 1;
        }
      }
    }
  }

  /**
   * The delay after a failed send at iteration i of a retry loop: the
   * schedule's entry when the guard len(BackOffDurations) >= i lets it be
   * read (i == len itself indexes out of range, which the loops handle
   * first), else the 100 ms default.
   */
  function BackOffAt(b: seq<Duration>, i: nat): Duration {
    if i < |b| then b[i] else DefaultBackOffDuration
  }

  /**
   * Padding keeps the switch, the budget and the given schedule as a prefix,
   * and only appends copies of the default (empty schedule) or of the last entry.
   */
  lemma PaddedShape(c: RetryCfg)
    ensures Padded(c).enabled == c.enabled && Padded(c).maxRetryAttempts == c.maxRetryAttempts
    ensures c.backOffDurations <= Padded(c).backOffDurations
    ensures |Padded(c).backOffDurations| ==
              if |c.backOffDurations| >= c.maxRetryAttempts then |c.backOffDurations|
              else if c.backOffDurations == [] then DefaultRetryAttempts
              else c.maxRetryAttempts
    ensures forall i :: |c.backOffDurations| <= i < |Padded(c).backOffDurations| ==>
              Padded(c).backOffDurations[i] ==
                if c.backOffDurations == [] then DefaultBackOffDuration
                else c.backOffDurations[|c.backOffDurations| - 1]
  {
  }

  /**
   * After padding the schedule covers the whole budget, except when it was
   * empty and the budget exceeds the three default entries.
   */
  lemma PaddedCoversBudget(c: RetryCfg)
    ensures |Padded(c).backOffDurations| >= c.maxRetryAttempts <==>
              !(c.backOffDurations == [] && c.maxRetryAttempts > DefaultRetryAttempts)
  {
  }

  /** Padding a padded policy changes nothing more. */
  lemma PaddedIdempotent(c: RetryCfg)
    requires !(c.backOffDurations == [] && c.maxRetryAttempts > DefaultRetryAttempts)
    ensures Padded(Padded(c)) == Padded(c)
  {
  }

  /** Two calls share an override exactly when they use the same verb and the same URL. */
  lemma {:induction false} RouteKeyInjective(v1: Verb, u1: string, v2: Verb, u2: string)
    requires RouteKey(VerbName(v1), u1) == RouteKey(VerbName(v2), u2)
    ensures v1 == v2 && u1 == u2
  {
    var n1, n2 := VerbName(v1), VerbName(v2);
    var k := RouteKey(n1, u1);
    assert k == RouteKey(n2, u2);
    assert forall i :: 0 <= i < |n1| ==> k[1 + i] == n1[i];
    assert forall i :: 0 <= i < |n2| ==> k[1 + i] == n2[i];
    assert k[1 + |n1|] == ']' && k[1 + |n2|] == ']';
    assert forall i :: 0 <= i < |n1| ==> n1[i] != ']';
    assert forall i :: 0 <= i < |n2| ==> n2[i] != ']';
    assert |n1| == |n2|;
    assert n1 == k[1..1 + |n1|] == n2;
    assert u1 == k[|n1| + 5..] == u2;
  }

  /**
   * The configuration's documented key "[GET]::/users/profile" belongs to the
   * URL "users/profile"; the URL "/users/profile" looks up a key with two slashes.
   */
  lemma DocumentedKeyNeedsRelativeUrl()
    ensures RouteKey("GET", "users/profile") == "[GET]::/users/profile"
    ensures RouteKey("GET", "/users/profile") != "[GET]::/users/profile"
  {
    assert |RouteKey("GET", "/users/profile")| != |"[GET]::/users/profile"|;
  }
}

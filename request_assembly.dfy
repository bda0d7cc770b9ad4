/**
 * How a client call assembles its request: the operation name, the
 * Content-Type default overlaid by the caller's header option, the
 * request timeout and the New Relic decision that sendHttpRequest makes.
 */
module RequestAssembly {
  import opened Go
  import opened ClientTypes
  import opened Wire

  /** getOpNameFromOption: the caller's name when it is a non-empty string, else "METHOD::url". */
  function OpName(url: string, httpMethod: string, opts: Options): (name: string)
    ensures name != ""
    ensures opts.opName.Some? && opts.opName.value != "" ==> name == opts.opName.value
    ensures opts.opName.None? || opts.opName.value == "" ==> name == httpMethod + "::" + url
  {
    if opts.opName.None? || opts.opName.value == "" then httpMethod + "::" + url
    else opts.opName.value
  }

  /** The bytes a header field name may consist of: the token characters of section 5.6.2 of RFC 9110. */
  predicate IsTokenChar(c: char) {
    ('a' <= c <= 'z') || ('A' <= c <= 'Z') || ('0' <= c <= '9') || c in "!#$%&'*+-.^_`|~"
  }

  function ToUpper(c: char): char {
    if 'a' <= c <= 'z' then (c as int - 32) as char else c
  }

  function ToLower(c: char): char {
    if 'A' <= c <= 'Z' then (c as int + 32) as char else c
  }

  /** Upper-cases the first letter and every letter after '-', lower-cases the rest. */
  function Canonicalize(s: string, upper: bool): (r: string)
    ensures |r| == |s|
  {
    if s == [] then []
    else
      var c := if upper then ToUpper(s[0]) else ToLower(s[0]);
      [c] + Canonicalize(s[1..], c == '-')
  }

  /**
   * textproto.CanonicalMIMEHeaderKey, the key http.Header.Set stores under:
   * a name with a byte outside the token characters is kept as it is.
   */
  function CanonicalKey(k: string): string {
    if forall i | 0 <= i < |k| :: IsTokenChar(k[i]) then Canonicalize(k, true) else k
  }

  lemma {:induction false} CanonicalizeKeepsTokens(s: string, upper: bool)
    requires forall i | 0 <= i < |s| :: IsTokenChar(s[i])
    ensures forall i | 0 <= i < |s| :: IsTokenChar(Canonicalize(s, upper)[i])
  {
    if s != [] {
      CanonicalizeKeepsTokens(s[1..], (if upper then ToUpper(s[0]) else ToLower(s[0])) == '-');
    }
  }

  lemma {:induction false} CanonicalizeIdempotent(s: string, upper: bool)
    ensures Canonicalize(Canonicalize(s, upper), upper) == Canonicalize(s, upper)
  {
    if s != [] {
      var c := if upper then ToUpper(s[0]) else ToLower(s[0]);
      var r := Canonicalize(s, upper);
      assert r[0] == c && r[1..] == Canonicalize(s[1..], c == '-');
      CanonicalizeIdempotent(s[1..], c == '-');
    }
  }

  /** Canonicalizing a canonical key changes nothing. */
  lemma CanonicalKeyIdempotent(k: string)
    ensures CanonicalKey(CanonicalKey(k)) == CanonicalKey(k)
  {
    if forall i | 0 <= i < |k| :: IsTokenChar(k[i]) {
      CanonicalizeKeepsTokens(k, true);
      CanonicalizeIdempotent(k, true);
    }
  }

  /** s is already in canonical form: upper case after the start (when upper) or a '-', lower case elsewhere. */
  predicate CanonicalForm(s: string, upper: bool) {
    forall i {:trigger s[i]} | 0 <= i < |s| ::
      s[i] == if (i == 0 && upper) || (i > 0 && s[i - 1] == '-') then ToUpper(s[i]) else ToLower(s[i])
  }

  lemma {:induction false} CanonicalFormFixed(s: string, upper: bool)
    requires CanonicalForm(s, upper)
    ensures Canonicalize(s, upper) == s
  {
    if s != [] {
      forall i | 0 <= i < |s[1..]|
        ensures s[1..][i] == if (i == 0 && s[0] == '-') || (i > 0 && s[1..][i - 1] == '-') then ToUpper(s[1..][i]) else ToLower(s[1..][i])
      {
        assert s[1..][i] == s[i + 1];
      }
      assert s[0] == if upper then ToUpper(s[0]) else ToLower(s[0]);
      CanonicalFormFixed(s[1..], s[0] == '-');
      assert s == [s[0]] + s[1..];
    }
  }

  /** Canonicalization ignores letter case. */
  lemma {:induction false} CanonicalizeCaseInsensitive(s: string, t: string, upper: bool)
    requires |s| == |t| && forall i | 0 <= i < |s| :: ToLower(s[i]) == ToLower(t[i])
    ensures Canonicalize(s, upper) == Canonicalize(t, upper)
  {
    if s != [] {
      assert ToLower(s[0]) == ToLower(t[0]);
      forall i | 0 <= i < |s[1..]| ensures ToLower(s[1..][i]) == ToLower(t[1..][i]) {
        assert s[1..][i] == s[i + 1] && t[1..][i] == t[i + 1];
      }
      CanonicalizeCaseInsensitive(s[1..], t[1..], (if upper then ToUpper(s[0]) else ToLower(s[0])) == '-');
    }
  }

  /** "Content-Type" is canonical: Header.Set stores it under its own spelling. */
  lemma ContentTypeCanonical()
    ensures CanonicalKey(ContentTypeKey) == ContentTypeKey
  {
    var k := ContentTypeKey;
    forall i | 0 <= i < |k|
      ensures IsTokenChar(k[i])
      ensures k[i] == if i == 0 || k[i - 1] == '-' then ToUpper(k[i]) else ToLower(k[i])
    {
      if i == 0 || i == 8 {
        assert 'A' <= k[i] <= 'Z';
      } else if i != 7 {
        assert 'a' <= k[i] <= 'z' && k[i - 1] != '-';
      }
    }
    CanonicalFormFixed(k, true);
  }

  /** A lower-case "content-type" option key is stored under "Content-Type" as well. */
  lemma LowerCaseContentType()
    ensures CanonicalKey("content-type") == ContentTypeKey
  {
    var k := "content-type";
    forall i | 0 <= i < |k|
      ensures IsTokenChar(k[i]) && ToLower(k[i]) == ToLower(ContentTypeKey[i])
    {
      if i == 0 || i == 8 {
        assert 'a' <= k[i] <= 'z' && ContentTypeKey[i] == ToUpper(k[i]);
      } else if i != 7 {
        assert 'a' <= k[i] <= 'z' && ContentTypeKey[i] == k[i];
      }
    }
    CanonicalizeCaseInsensitive(k, ContentTypeKey, true);
    ContentTypeCanonical();
  }

  /** Header.Set for each option key in iteration order: a later key with the same canonical form overwrites an earlier one. */
  function Overlay(h: map<string, string>, m: map<string, string>, order: seq<string>): map<string, string>
    requires forall k :: k in order ==> k in m
    decreases |order|
  {
    if order == [] then h
    else Overlay(h[CanonicalKey(order[0]) := m[order[0]]], m, order[1..])
  }

  /** The header after setHeaderFromOption: the overlay when a header option is present, else unchanged. */
  function ApplyHeaderOption(h: map<string, string>, opts: Options, order: seq<string>): map<string, string>
    requires opts.header.Some? ==> Enumerates(order, opts.header.value.Keys)
  {
    if opts.header.Some? then Overlay(h, opts.header.value, order) else h
  }

  /** The header a verb method sends: Content-Type set to application/json, then the header option. */
  function AssembledHeader(opts: Options, order: seq<string>): map<string, string>
    requires opts.header.Some? ==> Enumerates(order, opts.header.value.Keys)
  {
    ApplyHeaderOption(map[CanonicalKey(ContentTypeKey) := ApplicationJSON], opts, order)
  }

  /** Position i of order is the last key whose canonical form is c. */
  predicate LastSetterAt(order: seq<string>, c: string, i: int) {
    0 <= i < |order| && CanonicalKey(order[i]) == c &&
    forall j :: i < j < |order| ==> CanonicalKey(order[j]) != c
  }

  /**
   * After the overlay, a canonical key that some option key maps to holds the
   * value of the last such option key; every other key is as it was.
   */
  lemma {:induction false} OverlayLookup(h: map<string, string>, m: map<string, string>, order: seq<string>, c: string)
    requires forall k :: k in order ==> k in m
    ensures (exists i :: 0 <= i < |order| && CanonicalKey(order[i]) == c) ==>
              c in Overlay(h, m, order) &&
              exists i :: LastSetterAt(order, c, i) && Overlay(h, m, order)[c] == m[order[i]]
    ensures (forall i :: 0 <= i < |order| ==> CanonicalKey(order[i]) != c) ==>
              (c in Overlay(h, m, order) <==> c in h) &&
              (c in h ==> Overlay(h, m, order)[c] == h[c])
    decreases |order|
  {
    if order != [] {
      var h' := h[CanonicalKey(order[0]) := m[order[0]]];
      OverlayLookup(h', m, order[1..], c);
      if exists i :: 0 <= i < |order[1..]| && CanonicalKey(order[1..][i]) == c {
        var i :| LastSetterAt(order[1..], c, i) && Overlay(h', m, order[1..])[c] == m[order[1..][i]];
        assert LastSetterAt(order, c, i + 1);
      } else if CanonicalKey(order[0]) == c {
        assert LastSetterAt(order, c, 0);
      } else {
        forall i | 0 <= i < |order| ensures CanonicalKey(order[i]) != c {
          if i > 0 {
            assert order[i] == order[1..][i - 1];
          }
        }
      }
    }
  }

  /**
   * The caller's header option wins over the application/json default: the
   * sent Content-Type is application/json exactly when no option key names
   * Content-Type in any letter case, and otherwise the value of such a key.
   */
  lemma CallerContentTypeWins(opts: Options, order: seq<string>)
    requires opts.header.Some? ==> Enumerates(order, opts.header.value.Keys)
    ensures ContentTypeKey in AssembledHeader(opts, order)
    ensures (opts.header.None? || forall k :: k in opts.header.value ==> CanonicalKey(k) != ContentTypeKey) ==>
              AssembledHeader(opts, order)[ContentTypeKey] == ApplicationJSON
    ensures (opts.header.Some? && exists k :: k in opts.header.value && CanonicalKey(k) == ContentTypeKey) ==>
              exists k :: k in opts.header.value && CanonicalKey(k) == ContentTypeKey &&
                AssembledHeader(opts, order)[ContentTypeKey] == opts.header.value[k]
  {
    ContentTypeCanonical();
    if opts.header.Some? {
      var m := opts.header.value;
      OverlayLookup(map[ContentTypeKey := ApplicationJSON], m, order, ContentTypeKey);
      if exists k :: k in m && CanonicalKey(k) == ContentTypeKey {
        var k :| k in m && CanonicalKey(k) == ContentTypeKey;
        var i :| 0 <= i < |order| && order[i] == k;
      } else {
        forall i | 0 <= i < |order| ensures CanonicalKey(order[i]) != ContentTypeKey {
          assert order[i] in m;
        }
      }
    }
  }

  /** setHeaderFromOption: Header.Set for every entry of the header option, visiting keys in order. */
  method SetHeaderFromOption(req: Request, opts: Options, order: seq<string>)
    requires opts.header.Some? ==> Enumerates(order, opts.header.value.Keys)
    modifies req`header
    ensures req.header == ApplyHeaderOption(old(req.header), opts, order)
  {
    if opts.header.None? {
      return;
    }
    var header := opts.header.value;
    var i := 0;
    while i < |order|
      invariant i <= |order|
      invariant Overlay(req.header, header, order[i..]) == Overlay(old(req.header), header, order)
    {
      assert order[i..][1..] == order[i + 1..];
      req.header := req.header[CanonicalKey(order[i]) := header[order[i]]];
      i := i + 1;
    }
  }

  /**
   * The client timeout: the option's value (default 10) multiplied by
   * time.Second in int64 arithmetic, which wraps around on overflow.
   */
  function RequestTimeout(opts: Options): (t: Duration)
    requires OptionsWellTyped(opts)
    ensures IsInt64(t)
    ensures opts.requestTimeout.None? ==> t == DefaultRequestTimeout * Second
    ensures IsInt64(opts.requestTimeout.GetOr(DefaultRequestTimeout) * Second) ==>
              t == opts.requestTimeout.GetOr(DefaultRequestTimeout) * Second
    ensures (t - opts.requestTimeout.GetOr(DefaultRequestTimeout) * Second) % Two64 == 0
  {
    var nanoseconds := opts.requestTimeout.GetOr(DefaultRequestTimeout) * Second;
    WrapInt64(nanoseconds)
  }

  /**
   * The option counts seconds: a caller who passes 10 * time.Second (a
   * Duration of 10 s) gets 10^19 ns, which wraps to a negative timeout.
   */
  lemma DurationOptionOverflows()
    ensures RequestTimeout(Options(None, None, Some(10 * Second))) < 0
  {
  }

  /**
   * sendHttpRequest's New Relic decision: a direct send when metrics are
   * turned off, no tracer is set or it is disabled; otherwise a segment under
   * the operation name, ended only when recording it succeeded.
   */
  function MetricsDecision(turnOffNewrelic: bool, tracer: Option<NewrelicTracer>, name: string): (m: Metrics)
    ensures m.Direct? <==> turnOffNewrelic || tracer.None? || !tracer.value.enabled
    ensures m.Segment? ==> m.name == name && (m.ended <==> !tracer.value.recordFails)
  {
    if turnOffNewrelic || tracer.None? || !tracer.value.enabled then Direct
    else Segment(name, !tracer.value.recordFails)
  }
}

/**
 * The request-id middleware: a process-wide prefix made once from the host
 * name and a random token, and a process-wide counter whose next value,
 * zero-padded, follows the prefix in every generated id.
 */
module RequestId {
  import opened Go
  import opened Base64
  import Wire

  const RequestIDKey: string := "RequestIDKey"
  const RequestIdHeader: string := "X-Request-Id"
  /** The counter is a uint64. */
  const Uint64Range: nat := 0x1_0000_0000_0000_0000

  /** The length of the random token in the prefix, and the number of random bytes drawn. */
  const TokenLength: nat := 10
  const RandomBytes: nat := 12

  /** A context.Context as far as values are concerned: nil, or the values it carries under each key. */
  datatype Ctx = NilCtx | Ctx(values: map<string, Dyn>)

  /** One random draw: the base64 of the bytes with '+' and '/' removed. */
  function Candidate(draw: seq<byte>): string {
    Stripped(Encode(draw))
  }

  predicate LongEnough(draw: seq<byte>) {
    |Candidate(draw)| >= TokenLength
  }

  /** The first draw, from index i on, that leaves at least ten characters. */
  function FirstLongEnough(draws: seq<seq<byte>>, i: nat): (k: nat)
    requires exists j :: i <= j < |draws| && LongEnough(draws[j])
    ensures i <= k < |draws| && LongEnough(draws[k])
    ensures forall j :: i <= j < k ==> !LongEnough(draws[j])
    decreases |draws| - i
  {
    if LongEnough(draws[i]) then i else FirstLongEnough(draws, i + 1)
  }

  /** The host part of the prefix: the host name, or "localhost" when it is empty or could not be read. */
  function HostPart(hostname: string, hostErr: bool): string {
    if hostname == "" || hostErr then "localhost" else hostname
  }

  /** The prefix init builds from the host name and the successive random draws. */
  function Prefix(hostname: string, hostErr: bool, draws: seq<seq<byte>>): string
    requires exists j :: 0 <= j < |draws| && LongEnough(draws[j])
  {
    HostPart(hostname, hostErr) + "/" + Candidate(draws[FirstLongEnough(draws, 0)])[..TokenLength]
  }

  /** A draw of twelve bytes, four whole three-byte groups, leaves only letters and digits once '+' and '/' are removed. */
  lemma CandidateAlphaNumeric(draw: seq<byte>)
    requires |draw| == RandomBytes
    ensures forall i :: 0 <= i < |Candidate(draw)| ==> AlphaNumeric(Candidate(draw)[i])
  {
    EncodeWholeGroups(draw);
    StrippedFromText(Encode(draw));
    forall i | 0 <= i < |Candidate(draw)| ensures AlphaNumeric(Candidate(draw)[i]) {
      var c := Candidate(draw)[i];
      assert c in Encode(draw);
      var n :| 0 <= n < |Encode(draw)| && Encode(draw)[n] == c;
    }
  }

  /** The prefix is the host part, "/", then ten letters or digits of the chosen draw's encoding. */
  lemma PrefixShape(hostname: string, hostErr: bool, draws: seq<seq<byte>>)
    requires forall j :: 0 <= j < |draws| ==> |draws[j]| == RandomBytes
    requires exists j :: 0 <= j < |draws| && LongEnough(draws[j])
    ensures var p, h := Prefix(hostname, hostErr, draws), HostPart(hostname, hostErr);
      |p| == |h| + 1 + TokenLength && p[..|h|] == h && p[|h|] == '/' &&
      forall i :: |h| < i < |p| ==> AlphaNumeric(p[i])
  {
    var draw := draws[FirstLongEnough(draws, 0)];
    CandidateAlphaNumeric(draw);
    var c := Candidate(draw);
    var h, token := HostPart(hostname, hostErr), c[..TokenLength];
    var p := h + "/" + token;
    assert Prefix(hostname, hostErr, draws) == p;
    assert p[..|h|] == h;
    forall i | |h| < i < |p| ensures AlphaNumeric(p[i]) {
      assert p[i] == token[i - |h| - 1] == c[i - |h| - 1];
    }
  }

  /** Twelve random bytes give sixteen characters, so a draw falls short only when seven or more are '+' or '/'. */
  lemma DrawLength(draw: seq<byte>)
    requires |draw| == RandomBytes
    ensures |Encode(draw)| == 16
  {
    EncodeLength(draw);
  }

  /**
   * init: the host name, or "localhost"; then random draws until the
   * stripped encoding has ten characters; the prefix is host "/" token.
   */
  method Init(hostname: string, hostErr: bool, draws: seq<seq<byte>>) returns (prefix: string)
    requires exists j :: 0 <= j < |draws| && LongEnough(draws[j])
    ensures prefix == Prefix(hostname, hostErr, draws)
  {
    var host := hostname;
    if host == "" || hostErr {
      host := "localhost";
    }
    var b64 := "";
    var i := 0;
    while |b64| < TokenLength
      invariant 0 <= i <= |draws|
      invariant i > 0 ==> b64 == Candidate(draws[i - 1])
      invariant forall j :: 0 <= j < i - 1 ==> !LongEnough(draws[j])
      invariant i == 0 ==> b64 == ""
      decreases |draws| - i
    {
      assert forall j :: 0 <= j < i ==> !LongEnough(draws[j]);
      var buf := draws[i];
      b64 := Stripped(Encode(buf));
      i := i + 1;
    }
    assert FirstLongEnough(draws, 0) == i - 1 by {
      FirstIsUnique(draws, 0, i - 1);
    }
    prefix := host + "/" + b64[..TokenLength];
  }

  /** A long-enough draw with only short draws before it is the first long-enough one. */
  lemma FirstIsUnique(draws: seq<seq<byte>>, i: nat, k: nat)
    requires i <= k < |draws| && LongEnough(draws[k])
    requires forall j :: i <= j < k ==> !LongEnough(draws[j])
    ensures FirstLongEnough(draws, i) == k
  {
    var f := FirstLongEnough(draws, i);
    assert !(f < k) && !(k < f);
  }

  /** The decimal digits of n, without leading zeros. */
  function Decimal(n: nat): (s: string)
    ensures |s| >= 1 && forall i :: 0 <= i < |s| ==> '0' <= s[i] <= '9'
    decreases n
  {
    var d := ('0' as int + n % 10) as char;
    if n < 10 then [d] else Decimal(n / 10) + [d]
  }

  function Zeros(k: nat): (s: string)
    ensures |s| == k && forall i :: 0 <= i < k ==> s[i] == '0'
  {
    seq(k, _ => '0')
  }

  /** fmt's %06d on a non-negative value: the decimal digits with leading zeros up to six. */
  function Padded(n: nat): (s: string)
    ensures |s| >= 6 && forall i :: 0 <= i < |s| ==> '0' <= s[i] <= '9'
  {
    var digits := Decimal(n);
    if |digits| < 6 then Zeros(6 - |digits|) + digits else digits
  }

  /** The value of a string of decimal digits, leading zeros allowed. */
  function DecimalValue(s: string): nat
    decreases |s|
  {
    if s == [] then 0 else DecimalValue(s[..|s| - 1]) * 10 + (s[|s| - 1] as int - '0' as int) % 10
  }

  lemma {:induction false} DecimalRoundTrip(n: nat)
    ensures DecimalValue(Decimal(n)) == n
    decreases n
  {
    if n >= 10 {
      DecimalRoundTrip(n / 10);
      var s := Decimal(n);
      assert s[..|s| - 1] == Decimal(n / 10);
    }
  }

  lemma {:induction false} LeadingZeros(k: nat, s: string)
    ensures DecimalValue(Zeros(k) + s) == DecimalValue(s)
    decreases |s|
  {
    if s == [] {
      assert Zeros(k) + s == Zeros(k);
      AllZeros(k);
    } else {
      LeadingZeros(k, s[..|s| - 1]);
      assert (Zeros(k) + s)[..|Zeros(k) + s| - 1] == Zeros(k) + s[..|s| - 1];
    }
  }

  lemma {:induction false} AllZeros(k: nat)
    ensures DecimalValue(Zeros(k)) == 0
    decreases k
  {
    if k > 0 {
      AllZeros(k - 1);
      assert Zeros(k)[..k - 1] == Zeros(k - 1);
    }
  }

  /** The padded counter reads back as the counter: the zero padding loses nothing. */
  lemma PaddedRoundTrip(n: nat)
    ensures DecimalValue(Padded(n)) == n
  {
    DecimalRoundTrip(n);
    var digits := Decimal(n);
    if |digits| < 6 {
      LeadingZeros(6 - |digits|, digits);
    }
  }

  /** A generated id: the prefix, "-", and the counter value in at least six digits. */
  function GeneratedId(prefix: string, n: nat): string {
    prefix + "-" + Padded(n)
  }

  /** Different counter values give different ids under one prefix. */
  lemma GeneratedIdInjective(prefix: string, m: nat, n: nat)
    ensures GeneratedId(prefix, m) == GeneratedId(prefix, n) ==> m == n
  {
    if GeneratedId(prefix, m) == GeneratedId(prefix, n) {
      var k := |prefix| + 1;
      assert Padded(m) == GeneratedId(prefix, m)[k..];
      assert Padded(n) == GeneratedId(prefix, n)[k..];
      PaddedRoundTrip(m);
      PaddedRoundTrip(n);
    }
  }

  /** atomic.AddUint64(&reqID, 1): the new value, wrapping from the largest uint64 to 0. */
  function Incremented(n: nat): (r: nat)
    requires n < Uint64Range
    ensures r < Uint64Range
    ensures n < Uint64Range - 1 ==> r == n + 1
    ensures n == Uint64Range - 1 ==> r == 0
  {
    (n + 1) % Uint64Range
  }

  /** The value handed out by the k-th increment after the counter stood at start. */
  function NthIssued(start: nat, k: nat): nat {
    (start + k + 1) % Uint64Range
  }

  /** After k increments from start, the next increment hands out NthIssued(start, k). */
  lemma CounterStep(start: nat, k: nat)
    ensures Incremented((start + k) % Uint64Range) == NthIssued(start, k)
  {
    var x := start + k;
    var q, r := x / Uint64Range, x % Uint64Range;
    assert x + 1 == q * Uint64Range + (r + 1);
    if r + 1 == Uint64Range {
      assert x + 1 == (q + 1) * Uint64Range;
    }
  }

  /**
   * The values handed out never repeat within 2^64 increments, and they
   * strictly increase as long as the counter has not wrapped.
   */
  lemma IssuedDistinct(start: nat, i: nat, j: nat)
    requires i < j < Uint64Range
    ensures NthIssued(start, i) != NthIssued(start, j)
    ensures start + j + 1 < Uint64Range ==> NthIssued(start, i) < NthIssued(start, j)
  {
    var a, b := start + i + 1, start + j + 1;
    assert b == a + (j - i) && 0 < j - i < Uint64Range;
  }

  /** GetReqID: the string stored under RequestIDKey, or "" for a nil context, a missing value or a non-string. */
  function GetReqID(ctx: Ctx): (id: string)
    ensures ctx.NilCtx? ==> id == ""
    ensures ctx.Ctx? && RequestIDKey in ctx.values && ctx.values[RequestIDKey].DynString? ==>
              id == ctx.values[RequestIDKey].s
    ensures ctx.Ctx? && (RequestIDKey !in ctx.values || !ctx.values[RequestIDKey].DynString?) ==> id == ""
  {
    if ctx.NilCtx? then ""
    else if RequestIDKey in ctx.values && ctx.values[RequestIDKey].DynString? then ctx.values[RequestIDKey].s
    else ""
  }

  /** context.WithValue(ctx, RequestIDKey, id) on a non-nil context. */
  function WithRequestId(ctx: Ctx, id: string): (c: Ctx)
    requires ctx.Ctx?
    ensures c.Ctx? && GetReqID(c) == id
    ensures forall k :: k in ctx.values && k != RequestIDKey ==> k in c.values && c.values[k] == ctx.values[k]
  {
    Ctx(ctx.values[RequestIDKey := DynString(id)])
  }

  /** http.Header.Get: the header's value, "" when absent. */
  function HeaderGet(header: map<string, string>, key: string): string {
    if key in header then header[key] else ""
  }

  /**
   * The package state: the prefix made by init and the shared counter.
   * issued records the values the counter has handed out since start.
   */
  class Generator {
    const prefix: string
    var reqID: nat
    ghost const start: nat
    ghost var issued: seq<nat>

    ghost predicate Valid()
      reads this
    {
      reqID < Uint64Range && start < Uint64Range &&
      (forall k :: 0 <= k < |issued| ==> issued[k] == NthIssued(start, k)) &&
      reqID == (start + |issued|) % Uint64Range
    }

    /** The package variables after init: reqID starts at zero. */
    constructor (prefix: string)
      ensures Valid() && this.prefix == prefix && reqID == 0 && issued == []
    {
      this.prefix := prefix;
      reqID := 0;
      start := 0;
      issued := [];
    }

    /** NextRequestID: the counter's value after incrementing it. */
    method NextRequestID() returns (n: nat)
      requires Valid()
      modifies this
      ensures Valid() && reqID == Incremented(old(reqID)) && n == reqID
      ensures issued == old(issued) + [n]
    {
      CounterStep(start, |issued|);
      reqID := (reqID + 1) % Uint64Range;
      n := reqID;
      issued := issued + [n];
    }

    /** The id the middleware chooses: the incoming header if non-empty, a generated one otherwise. */
    method ChooseId(incoming: string) returns (requestID: string)
      requires Valid()
      modifies this
      ensures Valid()
      ensures incoming != "" ==> requestID == incoming && reqID == old(reqID) && issued == old(issued)
      ensures incoming == "" ==> reqID == Incremented(old(reqID)) && issued == old(issued) + [reqID] &&
                                  requestID == GeneratedId(prefix, reqID)
    {
      requestID := incoming;
      if requestID == "" {
        var myid := NextRequestID();
        requestID := GeneratedId(prefix, myid);
      }
    }

    /** RequestID: the chosen id goes into the request's context only. */
    method RequestID(header: map<string, string>, ctx: Ctx) returns (next: Ctx)
      requires Valid() && ctx.Ctx?
      modifies this
      ensures Valid()
      ensures HeaderGet(header, RequestIdHeader) != "" ==>
                next == WithRequestId(ctx, header[RequestIdHeader]) && reqID == old(reqID) && issued == old(issued)
      ensures HeaderGet(header, RequestIdHeader) == "" ==>
                reqID == Incremented(old(reqID)) && issued == old(issued) + [reqID] &&
                next == WithRequestId(ctx, GeneratedId(prefix, reqID))
    {
      var requestID := ChooseId(HeaderGet(header, RequestIdHeader));
      next := WithRequestId(ctx, requestID);
    }

    /** GinRequestID: as RequestID, and the chosen id is also written to the X-Request-Id header. */
    method GinRequestID(request: Wire.Request, ctx: Ctx) returns (next: Ctx)
      requires Valid() && ctx.Ctx?
      modifies this, request`header
      ensures Valid()
      ensures var incoming := HeaderGet(old(request.header), RequestIdHeader);
        var id := if incoming != "" then incoming else GeneratedId(prefix, reqID);
        next == WithRequestId(ctx, id) && request.header == old(request.header)[RequestIdHeader := id] &&
        (incoming != "" ==> reqID == old(reqID) && issued == old(issued)) &&
        (incoming == "" ==> reqID == Incremented(old(reqID)) && issued == old(issued) + [reqID])
    {
      var requestID := ChooseId(HeaderGet(request.header, RequestIdHeader));
      next := WithRequestId(ctx, requestID);
      request.header := request.header[RequestIdHeader := requestID];
    }
  }
}

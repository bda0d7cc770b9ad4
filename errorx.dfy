/**
 * errorx: an error value with an id, a message format and arguments, a
 * cause set by Wrap, and the walks along the cause chain that find the
 * root cause or join the messages of every link.
 */
module Errorx {
  import opened Go
  import opened Placeholders

  const NoErrorMessage: string := "NoErrorMessage"
  const StackTraceHeader: string := "\nSTACK TRACE:\n"
  /** The panic of a failed v.(string) on an argument that is not a string. */
  const NotAString: string := "interface conversion: interface {} is not string"
  /** The panic of calling Error() on a nil error. */
  const NilError: string := "invalid memory address or nil pointer dereference"

  /**
   * A Go `error` value: an *ErrorX, or an error of another type, such as
   * the one fmt.Errorf returns, which is neither a causer, nor a formatter,
   * nor a stack tracer, and only has its Error() text.
   */
  datatype Error = X(x: ErrorX) | Foreign(message: string)

  predicate AllStrings(args: seq<Dyn>) {
    forall i :: 0 <= i < |args| ==> args[i].DynString?
  }

  /** The arguments as strings, when every one of them is a string. */
  function Strings(args: seq<Dyn>): (r: seq<string>)
    requires AllStrings(args)
    ensures |r| == |args| && forall i :: 0 <= i < |args| ==> args[i] == DynString(r[i])
  {
    seq(|args|, i requires 0 <= i < |args| => args[i].s)
  }

  /** order is one iteration order of the argument map built from args, whenever that map can be built. */
  predicate OrderFits(args: seq<Dyn>, order: seq<string>) {
    AllStrings(args) ==> Enumerates(order, SuccessorMap(Strings(args)).Keys)
  }

  /** One "k:v" entry of the id form, from fmt.Sprintf("%s:%v", k, v) on strings. */
  function Entry(m: map<string, string>, k: string): string
    requires k in m
  {
    k + ":" + m[k]
  }

  /** What the buffer holds after writing "k:v, " for each key in order. */
  function Entries(m: map<string, string>, order: seq<string>): string
    requires forall k :: k in order ==> k in m
    decreases |order|
  {
    if order == [] then "" else Entry(m, order[0]) + ", " + Entries(m, order[1..])
  }

  /** The entries of the keys in order, joined by ", ". */
  function Joined(m: map<string, string>, order: seq<string>): string
    requires forall k :: k in order ==> k in m
    decreases |order|
  {
    if order == [] then ""
    else if |order| == 1 then Entry(m, order[0])
    else Entry(m, order[0]) + ", " + Joined(m, order[1..])
  }

  /** Truncating the trailing ", " of the written entries leaves them joined by ", ". */
  lemma {:induction false} EntriesAreJoined(m: map<string, string>, order: seq<string>)
    requires forall k :: k in order ==> k in m
    requires order != []
    ensures Entries(m, order) == Joined(m, order) + ", "
    decreases |order|
  {
    if |order| > 1 {
      EntriesAreJoined(m, order[1..]);
    } else {
      assert order[1..] == [];
    }
  }

  /**
   * FormattedMessage on an error's fields, for one iteration order of its
   * argument map: a non-empty format with its placeholders substituted;
   * else a non-empty id, alone or followed by " : [" and the joined
   * entries and "]"; else NoErrorMessage. Building the map panics on an
   * argument that is not a string.
   */
  function Formatted(messageFormat: string, id: string, args: seq<Dyn>, order: seq<string>): Outcome<string>
    requires OrderFits(args, order)
  {
    if messageFormat == "" && id == "" then Normal(NoErrorMessage)
    else if !AllStrings(args) then Panic(NotAString)
    else
      var m := SuccessorMap(Strings(args));
      if messageFormat != "" then Normal(Substitute(messageFormat, m, order))
      else if |m| == 0 then Normal(id)
      else Normal(id + " : [" + Joined(m, order) + "]")
  }

  /** A format or id is kept as it is when there are no arguments; with neither, NoErrorMessage. */
  lemma FormattedWithoutArgs(messageFormat: string, id: string, order: seq<string>)
    requires OrderFits([], order)
    ensures Formatted(messageFormat, id, [], order) ==
              Normal(if messageFormat != "" then messageFormat else if id != "" then id else NoErrorMessage)
  {
    assert Strings([]) == [];
  }

  /** Formatting panics exactly when a format or id is present and some argument is not a string. */
  lemma FormattedPanics(messageFormat: string, id: string, args: seq<Dyn>, order: seq<string>)
    requires OrderFits(args, order)
    ensures Formatted(messageFormat, id, args, order).Panic? <==>
              (messageFormat != "" || id != "") && exists i :: 0 <= i < |args| && !args[i].DynString?
  {
  }

  /** A format that mentions no placeholder of an argument key comes back unchanged. */
  lemma FormatWithoutPlaceholders(messageFormat: string, id: string, args: seq<Dyn>, order: seq<string>)
    requires OrderFits(args, order) && AllStrings(args) && messageFormat != ""
    requires forall k :: k in SuccessorMap(Strings(args)) ==> !Occurs(messageFormat, Placeholder(k))
    ensures Formatted(messageFormat, id, args, order) == Normal(messageFormat)
  {
    SubstituteNoPlaceholders(messageFormat, SuccessorMap(Strings(args)), order);
  }

  /**
   * The id form lists one entry per key of the argument map and has no
   * trailing separator: it is exactly "id : [" + the joined entries + "]".
   */
  lemma IdForm(id: string, args: seq<Dyn>, order: seq<string>)
    requires OrderFits(args, order) && AllStrings(args) && id != ""
    requires |SuccessorMap(Strings(args))| > 0
    ensures var m := SuccessorMap(Strings(args));
      |order| == |m| && Formatted("", id, args, order) == Normal(id + " : [" + Joined(m, order) + "]")
  {
  }

  /** A format that is a single placeholder becomes the value paired with its key. */
  lemma PlaceholderOnlyFormat(k: string, v: string, id: string, order: seq<string>)
    requires k != "" && OrderFits([DynString(k), DynString(v)], order)
    ensures Formatted(Placeholder(k), id, [DynString(k), DynString(v)], order) == Normal(v)
  {
    var args := [DynString(k), DynString(v)];
    assert Strings(args) == [k, v];
    SinglePairSubstitution(k, v);
    assert order == [k] by {
      assert |order| == 1 && order[0] in {k};
    }
    assert AllStrings(args);
  }

  /**
   * The argument loop of FormattedMessage: like the successor-map loop,
   * but each element goes through v.(string), which panics on a non-string.
   */
  method ArgsMap(args: seq<Dyn>) returns (r: Outcome<map<string, string>>)
    ensures r == if AllStrings(args) then Normal(SuccessorMap(Strings(args))) else Panic(NotAString)
  {
    var m: map<string, string> := map[];
    ghost var strs: seq<string> := [];
    var previousKey := "";
    var i := 0;
    while i < |args|
      invariant i <= |args| && AllStrings(args[..i])
      invariant strs == Strings(args[..i]) && m == SuccessorMap(strs)
      invariant previousKey == if i == 0 then "" else strs[i - 1]
    {
      if !args[i].DynString? {
        return Panic(NotAString);
      }
      var v := args[i].s;
      if previousKey != "" {
        m := m[previousKey := v];
      }
      previousKey := v;
      assert (strs + [v])[..i] == strs;
      strs := strs + [v];
      assert args[..i + 1] == args[..i] + [args[i]];
      i := i + 1;
    }
    assert args[..i] == args;
    return Normal(m);
  }

  /** The buffer loop of the id form: "k:v, " per key, in order. */
  method WriteEntries(m: map<string, string>, order: seq<string>) returns (buf: string)
    requires forall k :: k in order ==> k in m
    ensures buf == Entries(m, order)
  {
    buf := "";
    var i := 0;
    while i < |order|
      invariant i <= |order|
      invariant buf + Entries(m, order[i..]) == Entries(m, order)
    {
      assert order[i..][1..] == order[i + 1..];
      buf := buf + (order[i] + ":" + m[order[i]] + ", ");
      i := i + 1;
    }
  }

  /** An *ErrorX. Everything but the cause is fixed when it is created. */
  class ErrorX {
    const id: string
    const code: int
    const messageFormat: string
    const args: seq<Dyn>
    /** What GetStack() renders from the program counters captured at creation. */
    const stack: string
    var cause: Option<Error>

    /** errorx.New: no cause yet. */
    constructor (code: int, id: string, messageFormat: string, args: seq<Dyn>, stack: string)
      ensures this.code == code && this.id == id && this.messageFormat == messageFormat
      ensures this.args == args && this.stack == stack && cause == None
    {
      this.code := code;
      this.id := id;
      this.messageFormat := messageFormat;
      this.args := args;
      this.stack := stack;
      cause := None;
    }

    /** Wrap: the cause is replaced and the receiver itself is returned. */
    method Wrap(err: Option<Error>) returns (r: Error)
      modifies this
      ensures cause == err && r == X(this)
    {
      cause := err;
      r := X(this);
    }

    /** The Cause() method: the wrapped error, nil when nothing was wrapped. */
    function Cause(): Option<Error>
      reads this
    {
      cause
    }

    /**
     * FormattedMessage: the argument map is filled pair by pair, then each
     * entry, in the given iteration order, rewrites the format or adds a
     * "k:v, " entry to a buffer whose last separator is cut off.
     */
    method FormattedMessage(order: seq<string>) returns (r: Outcome<string>)
      requires OrderFits(args, order)
      ensures r == Formatted(messageFormat, id, args, order)
    {
      if messageFormat == "" && id == "" {
        return Normal(NoErrorMessage);
      }
      var argsMap := ArgsMap(args);
      if argsMap.Panic? {
        return Panic(argsMap.reason);
      }
      var m := argsMap.value;
      if messageFormat != "" {
        var msg := ReplaceEach(messageFormat, m, order);
        return Normal(msg);
      }
      var buf := WriteEntries(m, order);
      if |m| != 0 {
        EntriesAreJoined(m, order);
        buf := buf[..|buf| - 2];
        return Normal(id + " : [" + buf + "]");
      }
      return Normal(id);
    }

    /** Error(): the formatted message. */
    method Error(order: seq<string>) returns (r: Outcome<string>)
      requires OrderFits(args, order)
      ensures r == Formatted(messageFormat, id, args, order)
    {
      r := FormattedMessage(order);
    }
  }

  /**
   * links are the *ErrorX values met when following Cause() from e, and
   * end is where the walk stops: nil, after a link whose cause is nil, or
   * the first error that is not an *ErrorX. A chain that loops back on
   * itself has no such finite description.
   */
  ghost predicate Chain(e: Option<Error>, links: seq<ErrorX>, end: Option<Error>)
    reads links
  {
    (end.None? || end.value.Foreign?) &&
    if links == [] then e == end
    else
      e == Some(X(links[0])) &&
      (forall i {:trigger links[i].cause} :: 0 <= i < |links| - 1 ==> links[i].cause == Some(X(links[i + 1]))) &&
      links[|links| - 1].cause == end
  }

  /** Dropping the first link leaves the chain of its cause. */
  lemma ChainTail(e: Option<Error>, links: seq<ErrorX>, end: Option<Error>)
    requires Chain(e, links, end) && links != []
    ensures Chain(links[0].cause, links[1..], end)
  {
    if |links| > 1 {
      assert links[0].cause == Some(X(links[1]));
    }
  }

  /** The chain of an error is unique: its links and its end are determined by the heap. */
  lemma {:induction false} ChainDeterministic(e: Option<Error>, l1: seq<ErrorX>, end1: Option<Error>,
                                               l2: seq<ErrorX>, end2: Option<Error>)
    requires Chain(e, l1, end1) && Chain(e, l2, end2)
    ensures l1 == l2 && end1 == end2
    decreases |l1|
  {
    if l1 != [] && l2 != [] {
      ChainTail(e, l1, end1);
      ChainTail(e, l2, end2);
      ChainDeterministic(l1[0].cause, l1[1..], end1, l2[1..], end2);
      assert l1 == [l1[0]] + l1[1..] && l2 == [l2[0]] + l2[1..];
    }
  }

  /** Only the last link of a chain can have a nil cause, and the chain then ends in nil. */
  lemma ChainNilCause(e: Option<Error>, links: seq<ErrorX>, end: Option<Error>, i: nat)
    requires Chain(e, links, end) && i < |links| && links[i].cause.None?
    ensures i == |links| - 1 && end.None?
  {
  }

  /** Wrapping an error in a new link extends its chain by that link. */
  lemma WrapExtendsChain(x: ErrorX, err: Option<Error>, links: seq<ErrorX>, end: Option<Error>)
    requires Chain(err, links, end) && x.cause == err
    ensures Chain(Some(X(x)), [x] + links, end)
  {
    var l := [x] + links;
    forall i | 0 <= i < |l| - 1 ensures l[i].cause == Some(X(l[i + 1])) {
      if i > 0 {
        assert l[i] == links[i - 1];
      }
    }
  }

  /** An error wrapped around itself has no finite chain: walking its causes never ends. */
  lemma SelfWrapHasNoChain(x: ErrorX)
    requires x.cause == Some(X(x))
    ensures forall links: seq<ErrorX>, end: Option<Error> :: !Chain(Some(X(x)), links, end)
  {
    forall links: seq<ErrorX>, end: Option<Error> | Chain(Some(X(x)), links, end) ensures false {
      var i := 0;
      while i < |links| - 1
        invariant 0 <= i <= |links| - 1 && links[i] == x
      {
        assert links[i].cause == Some(X(links[i + 1]));
        i := i + 1;
      }
    }
  }

  /**
   * Cause: follows Cause() while the error is an *ErrorX, returning the
   * first other error, or nil once a link has no cause.
   */
  method Cause(err: Option<Error>, ghost links: seq<ErrorX>, ghost end: Option<Error>) returns (r: Option<Error>)
    requires Chain(err, links, end)
    ensures r == end
  {
    r := err;
    ghost var i := 0;
    while r.Some?
      invariant 0 <= i <= |links|
      invariant r == if i < |links| then Some(X(links[i])) else end
      decreases |links| - i
    {
      if r.value.Foreign? {
        break;
      }
      var link := r.value.x;
      r := link.Cause();
      i := i + 1;
    }
  }

  /** The root cause of a chain is never an *ErrorX, and an unwrapped *ErrorX has none. */
  lemma RootCauseShape(x: ErrorX)
    requires x.cause == None
    ensures Chain(Some(X(x)), [x], None)
  {
  }

  /** Each order fits the arguments of its link. */
  predicate OrdersFit(links: seq<ErrorX>, orders: seq<seq<string>>) {
    |orders| == |links| && forall i :: 0 <= i < |links| ==> OrderFits(links[i].args, orders[i])
  }

  /** The outcome of each link's FormattedMessage, in chain order. */
  function Messages(links: seq<ErrorX>, orders: seq<seq<string>>): (ms: seq<Outcome<string>>)
    requires OrdersFit(links, orders)
    ensures |ms| == |links|
    ensures forall i :: 0 <= i < |links| ==>
              ms[i] == Formatted(links[i].messageFormat, links[i].id, links[i].args, orders[i])
  {
    seq(|links|, i requires 0 <= i < |links| =>
      Formatted(links[i].messageFormat, links[i].id, links[i].args, orders[i]))
  }

  /** The first n messages, each followed by ", ", or the first panic among them. */
  function Separated(ms: seq<Outcome<string>>, n: nat): Outcome<string>
    requires n <= |ms|
  {
    if n == 0 then Normal("")
    else
      var p := Separated(ms, n - 1);
      if p.Panic? then p else if ms[n - 1].Panic? then ms[n - 1] else Normal(p.value + ms[n - 1].value + ", ")
  }

  /** Once the first j messages hold a panic, so do the first k for every k >= j, and it is the same one. */
  lemma {:induction false} SeparatedPanicPersists(ms: seq<Outcome<string>>, j: nat, k: nat)
    requires j <= k <= |ms|
    requires Separated(ms, j).Panic?
    ensures Separated(ms, k) == Separated(ms, j)
    decreases k - j
  {
    if j < k {
      SeparatedPanicPersists(ms, j, k - 1);
    }
  }

  /**
   * The text extractFullErrorMessage writes before any stack section: the
   * links' formatted messages joined by ", ", then ", " and the Error()
   * text of a final non-*ErrorX. A nil error panics when its Error() is
   * called, and so does a formatter whose message panics.
   */
  function ChainText(ms: seq<Outcome<string>>, end: Option<Error>): Outcome<string>
    requires end.None? || end.value.Foreign?
  {
    var n := |ms|;
    if n == 0 then (if end.None? then Panic(NilError) else Normal(end.value.message))
    else if end.Some? then
      var p := Separated(ms, n);
      if p.Panic? then p else Normal(p.value + end.value.message)
    else
      var p := Separated(ms, n - 1);
      if p.Panic? then p else if ms[n - 1].Panic? then ms[n - 1] else Normal(p.value + ms[n - 1].value)
  }

  /**
   * extractFullErrorMessage on a chain: its text, and with includeStack,
   * when some link was met, the stack header and the deepest link's stack.
   */
  function FullMessage(links: seq<ErrorX>, end: Option<Error>, orders: seq<seq<string>>, includeStack: bool): (r: Outcome<string>)
    requires end.None? || end.value.Foreign?
    requires OrdersFit(links, orders)
    ensures r.Panic? <==> ChainText(Messages(links, orders), end).Panic?
    ensures (!includeStack || links == []) ==> r == ChainText(Messages(links, orders), end)
    ensures includeStack && links != [] && r.Normal? ==>
              r.value == ChainText(Messages(links, orders), end).value + StackTraceHeader + links[|links| - 1].stack
  {
    var body := ChainText(Messages(links, orders), end);
    if body.Normal? && includeStack && links != [] then Normal(body.value + StackTraceHeader + links[|links| - 1].stack)
    else body
  }

  /** A single link with no cause gives its own formatted message. */
  lemma SingleLinkMessage(x: ErrorX, order: seq<string>)
    requires OrderFits(x.args, order)
    ensures ChainText(Messages([x], [order]), None) == Formatted(x.messageFormat, x.id, x.args, order)
  {
    var f := Formatted(x.messageFormat, x.id, x.args, order);
    if f.Normal? {
      assert "" + f.value == f.value;
    }
  }

  /** A nil error, or one whose chain ends in nil before any link, panics; a foreign error gives its text. */
  lemma NoLinkMessage(end: Option<Error>)
    requires end.None? || end.value.Foreign?
    ensures ChainText([], end) == if end.None? then Panic(NilError) else Normal(end.value.message)
  {
  }

  /** Two links with a foreign root: both messages then the root's text, separated by ", ". */
  lemma TwoLinksAndRootMessage(x: ErrorX, y: ErrorX, ox: seq<string>, oy: seq<string>, root: string)
    requires OrderFits(x.args, ox) && OrderFits(y.args, oy)
    requires Formatted(x.messageFormat, x.id, x.args, ox).Normal?
    requires Formatted(y.messageFormat, y.id, y.args, oy).Normal?
    ensures ChainText(Messages([x, y], [ox, oy]), Some(Foreign(root))) ==
              Normal(Formatted(x.messageFormat, x.id, x.args, ox).value + ", " +
                     Formatted(y.messageFormat, y.id, y.args, oy).value + ", " + root)
  {
    var fx := Formatted(x.messageFormat, x.id, x.args, ox).value;
    assert Separated(Messages([x, y], [ox, oy]), 1) == Normal(fx + ", ") by {
      assert "" + fx + ", " == fx + ", ";
    }
  }

  /**
   * extractFullErrorMessage: walks the chain writing each formatter's
   * message, ", " between links, and the Error() text of a non-causer;
   * remembers the deepest stack tracer for the optional stack section.
   */
  method ExtractFullErrorMessage(e: Option<Error>, includeStack: bool, ghost links: seq<ErrorX>,
                                 ghost end: Option<Error>, orders: seq<seq<string>>) returns (r: Outcome<string>)
    requires Chain(e, links, end) && OrdersFit(links, orders)
    ensures r == FullMessage(links, end, orders, includeStack)
  {
    var errMsg, lastClErr := WalkChain(e, links, end, orders, Messages(links, orders));
    if errMsg.Panic? {
      return errMsg;
    }
    if includeStack && lastClErr != null {
      return Normal(errMsg.value + StackTraceHeader + lastClErr.stack);
    }
    return errMsg;
  }

  /**
   * The loop of extractFullErrorMessage: the text written before the stack
   * section, and the last *ErrorX met, which is the deepest stack tracer.
   */
  method WalkChain(e: Option<Error>, ghost links: seq<ErrorX>, ghost end: Option<Error>, orders: seq<seq<string>>,
                   ghost ms: seq<Outcome<string>>)
    returns (r: Outcome<string>, lastClErr: ErrorX?)
    requires Chain(e, links, end) && OrdersFit(links, orders) && MessagesAre(links, orders, ms)
    ensures r == ChainText(ms, end)
    ensures r.Normal? ==> lastClErr == if links == [] then null else links[|links| - 1]
  {
    lastClErr := null;
    var errMsg := "";
    var dbxErr := e;
    var i := 0;
    while true
      invariant 0 <= i <= |links|
      invariant dbxErr == if i < |links| then Some(X(links[i])) else end
      invariant i > 0 ==> dbxErr.Some?
      invariant Separated(ms, i) == Normal(errMsg)
      invariant lastClErr == if i == 0 then null else links[i - 1]
      decreases |links| - i
    {
      if dbxErr.None? {
        // dbxErr.Error() on a nil interface
        return Panic(NilError), lastClErr;
      }
      if dbxErr.value.Foreign? {
        ChainTextForeign(ms, end, errMsg);
        errMsg := errMsg + dbxErr.value.message;
        break;
      }
      var link := dbxErr.value.x;
      lastClErr := link;
      var formatted := FormatLink(link, orders[i], links, orders, ms, i);
      if formatted.Panic? {
        ChainTextPanic(ms, end, i);
        return formatted, lastClErr;
      }
      errMsg := errMsg + formatted.value;
      var innerErr := link.Cause();
      if innerErr.None? {
        ChainNilCause(e, links, end, i);
        ChainTextNilEnd(ms, end);
        break;
      }
      dbxErr := innerErr;
      errMsg := errMsg + ", ";
      i := i + 1;
    }
    return Normal(errMsg), lastClErr;
  }

  /** ms holds the formatted message of every link. */
  ghost predicate MessagesAre(links: seq<ErrorX>, orders: seq<seq<string>>, ms: seq<Outcome<string>>)
    requires OrdersFit(links, orders)
  {
    |ms| == |links| &&
    forall i {:trigger Formatted(links[i].messageFormat, links[i].id, links[i].args, orders[i])} ::
      0 <= i < |links| ==> ms[i] == Formatted(links[i].messageFormat, links[i].id, links[i].args, orders[i])
  }

  /** The FormattedMessage call on link i of the walk. */
  method FormatLink(link: ErrorX, order: seq<string>, ghost links: seq<ErrorX>, ghost orders: seq<seq<string>>,
                    ghost ms: seq<Outcome<string>>, ghost i: nat) returns (f: Outcome<string>)
    requires OrdersFit(links, orders) && MessagesAre(links, orders, ms)
    requires i < |links| && link == links[i] && order == orders[i]
    ensures f == ms[i]
  {
    f := link.FormattedMessage(order);
  }

  /** A chain ending in a foreign error: the separated messages, then its text. */
  lemma ChainTextForeign(ms: seq<Outcome<string>>, end: Option<Error>, msg: string)
    requires end.Some? && end.value.Foreign?
    requires Separated(ms, |ms|) == Normal(msg)
    ensures ChainText(ms, end) == Normal(msg + end.value.message)
  {
    if ms == [] {
      assert msg + end.value.message == end.value.message;
    }
  }

  /** A chain ending in nil: the separated messages of all but the last link, then the last one's. */
  lemma ChainTextNilEnd(ms: seq<Outcome<string>>, end: Option<Error>)
    requires end.None? && ms != []
    requires Separated(ms, |ms| - 1).Normal? && ms[|ms| - 1].Normal?
    ensures ChainText(ms, end) == Normal(Separated(ms, |ms| - 1).value + ms[|ms| - 1].value)
  {
  }

  /** The first message that panics decides the outcome: the walk panics the same way. */
  lemma ChainTextPanic(ms: seq<Outcome<string>>, end: Option<Error>, i: nat)
    requires end.None? || end.value.Foreign?
    requires i < |ms| && Separated(ms, i).Normal? && ms[i].Panic?
    ensures ChainText(ms, end) == ms[i]
  {
    var n := |ms|;
    if end.Some? {
      SeparatedPanicPersists(ms, i + 1, n);
    } else if i < n - 1 {
      SeparatedPanicPersists(ms, i + 1, n - 1);
    }
  }

  /** GetErrorMessages: the chain's messages without the stack section. */
  method GetErrorMessages(e: Option<Error>, ghost links: seq<ErrorX>, ghost end: Option<Error>,
                          orders: seq<seq<string>>) returns (r: Outcome<string>)
    requires Chain(e, links, end) && OrdersFit(links, orders)
    ensures r == FullMessage(links, end, orders, false)
  {
    r := ExtractFullErrorMessage(e, false, links, end, orders);
  }

  /** GetErrorMessagesWithStack: the chain's messages with the stack section. */
  method GetErrorMessagesWithStack(e: Option<Error>, ghost links: seq<ErrorX>, ghost end: Option<Error>,
                                   orders: seq<seq<string>>) returns (r: Outcome<string>)
    requires Chain(e, links, end) && OrdersFit(links, orders)
    ensures r == FullMessage(links, end, orders, true)
  {
    r := ExtractFullErrorMessage(e, true, links, end, orders);
  }
}

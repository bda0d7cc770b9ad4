/**
 * The mutable objects a client call works on: request bodies with a read
 * cursor, the *http.Request, and the network, which stands in for
 * client.Do (a scripted list of replies) and time.Sleep (a log of the
 * requested durations).
 */
module Wire {
  import opened Go
  import opened ClientTypes

  /**
   * An io.Reader over fixed content: a bytes.Reader, a bytes.Buffer, or the
   * caller's body stream, which may report an error once it is read to the end.
   */
  class BodyReader {
    const data: seq<byte>
    const failure: Option<HttpError>
    var pos: nat

    ghost predicate Valid()
      reads this
    {
      pos <= |data|
    }

    constructor (data: seq<byte>, failure: Option<HttpError>)
      ensures Valid()
      ensures this.data == data && this.failure == failure && pos == 0
    {
      this.data := data;
      this.failure := failure;
      pos := 0;
    }

    /** ioutil.ReadAll: everything after the cursor, then the stream's error if it has one. */
    method ReadAll() returns (bytes: seq<byte>, err: Option<HttpError>)
      requires Valid()
      modifies this
      ensures Valid()
      ensures bytes == old(data[pos..]) && pos == |data| && err == failure
    {
      bytes := data[pos..];
      pos := |data|;
      err := failure;
    }

    /** Reads up to n bytes and drops them: the cursor moves n bytes forward, or to the end. */
    method Skip(n: nat)
      requires Valid()
      modifies this
      ensures Valid() && pos == if old(pos) + n < |data| then old(pos) + n else |data|
    {
      pos := if pos + n < |data| then pos + n else |data|;
    }

    /** Seek(0, io.SeekStart): the next read starts from the first byte again. */
    method Rewind()
      modifies this
      ensures Valid() && pos == 0
    {
      pos := 0;
    }
  }

  /** An *http.Request: method and URL fixed by http.NewRequest, header and body replaceable. */
  class Request {
    const httpMethod: string
    const url: string
    var header: map<string, string>
    var body: BodyReader?

    /** http.NewRequest after a successful URL parse: an empty header and the given body. */
    constructor (httpMethod: string, url: string, body: BodyReader?)
      ensures this.httpMethod == httpMethod && this.url == url
      ensures header == map[] && this.body == body
    {
      this.httpMethod := httpMethod;
      this.url := url;
      header := map[];
      this.body := body;
    }
  }

  /** The bytes a send reads from a body: what is left after its cursor, or nothing without a body. */
  ghost function Remaining(body: BodyReader?): Option<seq<byte>>
    reads body
    requires body != null ==> body.Valid()
  {
    if body == null then None else Some(body.data[body.pos..])
  }

  /** The contents of a body, whatever its cursor: None without a body. */
  function Contents(body: BodyReader?): Option<seq<byte>> {
    if body == null then None else Some(body.data)
  }

  /**
   * Where the cursor of a body holding len bytes stands after a send that
   * found it at pos: a response means the transport wrote the body to its
   * end; a transport error leaves the cursor after the bytes read before
   * the failure, so a send refused before writing leaves it where it was.
   */
  function CursorAfter(pos: nat, len: nat, reply: Reply): (p: nat)
    requires pos <= len
    ensures pos <= p <= len
    ensures reply.Resp? ==> p == len
    ensures reply.TransportErr? && pos + reply.read <= len ==> p == pos + reply.read
    ensures reply.TransportErr? && pos + reply.read >= len ==> p == len
  {
    match reply
    case Resp(_) => len
    case TransportErr(_, read) => if pos + read < len then pos + read else len
  }

  /** The transport and the clock: the only parts of the world a client call observes or changes. */
  class Network {
    /** The replies client.Do will give, first to last. */
    var replies: seq<Reply>
    /** Every send so far, oldest first. */
    var sent: seq<Attempt>
    /** Every time.Sleep duration so far, oldest first. */
    var slept: seq<Duration>

    constructor (replies: seq<Reply>)
      ensures this.replies == replies && sent == [] && slept == []
    {
      this.replies := replies;
      sent := [];
      slept := [];
    }

    /**
     * client.Do: offers the request with the rest of its body and yields the
     * next scripted reply; the body's cursor moves as far as that reply says
     * the transport read.
     */
    method Do(req: Request, timeout: Duration, metrics: Metrics) returns (reply: Reply)
      requires replies != []
      requires req.body != null ==> req.body.Valid()
      modifies this, req.body
      ensures reply == old(replies[0]) && replies == old(replies[1..])
      ensures sent == old(sent) + [Attempt(req.httpMethod, req.url, req.header, old(Remaining(req.body)), timeout, metrics)]
      ensures slept == old(slept)
      ensures req.body != null ==> req.body.Valid() && req.body.pos == CursorAfter(old(req.body.pos), |req.body.data|, reply)
    {
      var body: Option<seq<byte>> := None;
      reply := replies[0];
      if req.body != null {
        body := Some(req.body.data[req.body.pos..]);
        match reply
        case Resp(_) =>
          var _, _ := req.body.ReadAll();
        case TransportErr(_, read) =>
          req.body.Skip(read);
      }
      replies := replies[1..];
      sent := sent + [Attempt(req.httpMethod, req.url, req.header, body, timeout, metrics)];
    }

    /** time.Sleep: the duration is recorded, nothing else happens. */
    method Sleep(d: Duration)
      modifies this
      ensures slept == old(slept) + [d]
      ensures replies == old(replies) && sent == old(sent)
    {
      slept := slept + [d];
    }
  }
}

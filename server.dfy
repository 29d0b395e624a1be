/** The native server bridge: per-connection body handling and request
    assembly, the module-level registry of pending responses, and the four
    send operations that consume it. */
module Server {
  import opened Wrappers
  import Classify
  import opened Registry

  /** What the host tells the request handler about one connection. Absent
      headers and properties are `None`. `localAddress` is what
      `req.connection.address()` reports, the server side of the socket. */
  datatype IncomingRequest = IncomingRequest(
    url: string,
    path: Option<string>,
    remoteAddress: Option<string>,
    localAddress: string,
    verb: string,
    protocol: Option<string>,
    contentType: Option<string>,
    cookies: Option<string>,
    host: Option<string>)

  /** The object the correlation id is hashed from. */
  datatype HashKey = HashKey(path: Option<string>, ip: Option<string>, time: int)

  /** The request record handed to the application. */
  datatype RequestRecord = RequestRecord(
    url: string,
    id: Id,
    time: int,
    cookies: string,
    cargo: map<string, string>,
    content: Classify.Content,
    ip: string,
    host: Option<string>,
    protocol: string)

  /** What is submitted to the task runtime when a body stream ends: the
      record, and the `toMethod` wrapper for the verb. The wrapper
      `b => Classify.ToMethod(verb, b)` is fixed by the constructor it
      applies, so it is kept as that constructor (`None` for an unknown
      verb); `Classify.ToMethod` states what applying it does. */
  datatype Dispatch = Dispatch(record: RequestRecord, verb: Option<Classify.MethodKind>)

  /** The command every send returns: a batch with no branches. */
  datatype Cmd = NodeBatch(branches: seq<Cmd>)

  const NoCmd: Cmd := NodeBatch([])

  /** The value of `content` once the given `data` chunks have arrived: each
      chunk replaces the previous one, so the last chunk is kept. */
  function LastChunk(chunks: seq<Classify.JsValue>): (r: Classify.JsValue)
    ensures chunks == [] ==> r == Classify.Undefined
    ensures chunks != [] ==> r == chunks[|chunks| - 1] && r in chunks
  {
    if chunks == [] then Classify.Undefined else chunks[|chunks| - 1]
  }

  /** Runs the `data` handler once per chunk, in arrival order. */
  method AccumulateBody(chunks: seq<Classify.JsValue>) returns (content: Classify.JsValue)
    ensures content == LastChunk(chunks)
  {
    content := Classify.Undefined;
    for i := 0 to |chunks|
      invariant content == LastChunk(chunks[..i])
    {
      content := chunks[i];
    }
    assert chunks[..|chunks|] == chunks;
  }

  /** The body is overwritten, not appended to: of three chunks only the
      last survives, and it is what gets classified. */
  lemma LastChunkWins(a: string, b: string, c: string, ct: Option<string>)
    requires c != ""
    ensures LastChunk([Classify.Str(a), Classify.Str(b), Classify.Str(c)]) == Classify.Str(c)
    ensures ct != Some(Classify.JsonType) ==>
      Classify.GetData(LastChunk([Classify.Str(a), Classify.Str(b), Classify.Str(c)]), ct)
        == Classify.Text(ct, c)
  {
  }

  /** Without any chunk the body is `undefined`, which classifies as `Empty`;
      the host never delivers an `undefined` chunk, so the converse holds too. */
  lemma NoChunkMeansEmpty(chunks: seq<Classify.JsValue>, ct: Option<string>)
    requires forall i :: 0 <= i < |chunks| ==> !chunks[i].Undefined?
    ensures LastChunk(chunks) == Classify.Undefined <==> chunks == []
    ensures chunks == [] ==> Classify.GetData(LastChunk(chunks), ct) == Classify.Empty
  {
  }

  /** Builds the record at the end of the body stream. */
  function Assemble(req: IncomingRequest, id: Id, time: int, content: Classify.JsValue): (r: RequestRecord)
    ensures r.id == id && r.time == time && r.url == req.url
    ensures r.cookies == req.cookies.GetOr("")
    ensures r.cargo == map[]
    ensures r.content == Classify.GetData(content, req.contentType)
    ensures r.content.Empty? <==> !Classify.Truthy(content)
    ensures r.ip == req.localAddress
    ensures r.host == req.host
    ensures r.protocol == Classify.GetProtocol(req.protocol) && r.protocol != ""
  {
    RequestRecord(
      req.url,
      id,
      time,
      if req.cookies.Some? && req.cookies.value != "" then req.cookies.value else "",
      map[],
      Classify.GetData(content, req.contentType),
      req.localAddress,
      req.host,
      Classify.GetProtocol(req.protocol))
  }

  /** Echoing a binary upload: when the last chunk of a body is a buffer,
      the record's content is `Data` whose accessor hands those bytes,
      unmodified, to every consumer; and once the connection's handle is
      stored under its id, sending that accessor back writes exactly the
      received bytes, once, to that handle. */
  lemma EchoWritesRequestBytes(p: Pending, req: IncomingRequest, id: Id, time: int, res: Response,
                               chunks: seq<Classify.JsValue>, bytes: seq<bv8>)
    requires chunks != [] && chunks[|chunks| - 1] == Classify.Buffer(bytes)
    ensures var rec := Assemble(req, id, time, LastChunk(chunks));
      && rec.content.Data?
      && rec.content.contentType == req.contentType
      && (forall f: seq<bv8> -> seq<bv8> :: rec.content.accessor(f) == f(bytes))
      && Sent(Stored(p, id, res), id, EndBytes(rec.content.accessor(v => v))).sent
           == p.sent + [Write(res, EndBytes(bytes))]
  {
  }

  /** The bridge's mutable state: the `requests` map and the `res.end`
      calls made so far. `issued` records, for the proofs, every response
      handle that has been registered. */
  class NativeServer {
    const hash: HashKey -> Id
    var requests: map<Id, Response>
    var sent: seq<Write>
    ghost var issued: set<Response>

    ghost function State(): Pending
      reads this
    {
      Pending(requests, sent, issued)
    }

    ghost predicate Valid()
      reads this
    {
      Inv(State())
    }

    constructor (hash: HashKey -> Id)
      ensures Valid() && State() == Initial && this.hash == hash
    {
      this.hash := hash;
      requests := map[];
      sent := [];
      issued := {};
    }

    /** The correlation id of a connection: a deterministic function of its
        path, remote address and arrival time only. Two connections that
        agree on these three get the same id, whatever their url, verb,
        headers or body. */
    function ConnectionId(req: IncomingRequest, time: int): (r: Id)
      ensures forall other: IncomingRequest ::
        other.path == req.path && other.remoteAddress == req.remoteAddress ==>
          r == hash(HashKey(other.path, other.remoteAddress, time))
    {
      hash(HashKey(req.path, req.remoteAddress, time))
    }

    /** `requests.set(id, res)`. */
    method Store(id: Id, res: Response)
      requires Valid() && res !in issued
      modifies this
      ensures Valid() && State() == Stored(old(State()), id, res)
    {
      ghost var before := State();
      requests := requests[id := res];
      issued := issued + {res};
      StoredKeepsInv(before, id, res);
    }

    /** `sendContent`: get, then delete, then write only if a handle was
        found. Returns the empty command either way. */
    method SendContent(id: Id, arg: EndArg) returns (cmd: Cmd)
      requires Valid()
      modifies this
      ensures Valid() && State() == Sent(old(State()), id, arg)
      ensures cmd == NoCmd
    {
      ghost var before := State();
      var res := if id in requests then Some(requests[id]) else None;
      requests := requests - {id};
      if res.Some? {
        sent := sent + [Write(res.value, arg)];
      }
      SentKeepsInv(before, id, arg);
      cmd := NoCmd;
    }

    /** `sendData`: the value is an accessor, and the bytes it hands to the
        writer are what `res.end` receives. */
    method SendData(id: Id, value: Classify.Accessor) returns (cmd: Cmd)
      requires Valid()
      modifies this
      ensures Valid() && State() == Sent(old(State()), id, EndBytes(value(v => v)))
      ensures cmd == NoCmd
    {
      cmd := SendContent(id, EndBytes(value(v => v)));
    }

    /** `sendText`: its first argument, a content type, is ignored; the text
        is written as it is. */
    method SendText(contentType: string, id: Id, text: string) returns (cmd: Cmd)
      requires Valid()
      modifies this
      ensures Valid() && State() == Sent(old(State()), id, EndText(text))
      ensures cmd == NoCmd
    {
      cmd := SendContent(id, EndText(text));
    }

    /** `sendJson`: `sendText` with the JSON content type. */
    method SendJson(id: Id, json: string) returns (cmd: Cmd)
      requires Valid()
      modifies this
      ensures Valid() && State() == Sent(old(State()), id, EndText(json))
      ensures cmd == NoCmd
    {
      cmd := SendText(Classify.JsonType, id, json);
    }

    /** `sendEmpty`: ends the response without a body. */
    method SendEmpty(id: Id) returns (cmd: Cmd)
      requires Valid()
      modifies this
      ensures Valid() && State() == Sent(old(State()), id, EndNone)
      ensures cmd == NoCmd
    {
      cmd := SendContent(id, EndNone);
    }

    /** The request handler for one connection: the id is fixed on arrival,
        each `data` chunk replaces the body, and only when the stream ends is
        the record assembled, the handle registered under the id and the
        record dispatched. A stream that never ends registers nothing. */
    method HandleConnection(req: IncomingRequest, res: Response, time: int,
                            chunks: seq<Classify.JsValue>, ended: bool)
      returns (dispatched: Option<Dispatch>)
      requires Valid() && res !in issued
      modifies this
      ensures Valid()
      ensures ended ==>
        && State() == Stored(old(State()), ConnectionId(req, time), res)
        && dispatched == Some(Dispatch(Assemble(req, ConnectionId(req, time), time, LastChunk(chunks)),
                                       Classify.GetMethod(req.verb)))
      ensures !ended ==> State() == old(State()) && dispatched == None
    {
      var id := hash(HashKey(req.path, req.remoteAddress, time));
      var content := AccumulateBody(chunks);
      if ended {
        var record := Assemble(req, id, time, content);
        Store(id, res);
        dispatched := Some(Dispatch(record, Classify.GetMethod(req.verb)));
      } else {
        dispatched := None;
      }
    }
  }

  /** A `GET /status` with no body: the record's content is `Empty`, its
      method `Get` and its protocol `HTTP`; the first `sendEmpty` ends the
      response once with no body, and a second one writes nothing and returns
      the same empty command. */
  method GetStatusScenario(hash: HashKey -> Id, time: int)
    returns (dispatched: Option<Dispatch>, first: seq<Write>, second: seq<Write>, cmd: Cmd)
    ensures dispatched.Some?
    ensures dispatched.value.record.content == Classify.Empty
    ensures dispatched.value.verb == Some(Classify.Get)
    ensures dispatched.value.record.protocol == "HTTP"
    ensures first == [Write(Response(0), EndNone)]
    ensures second == first && cmd == NoCmd
  {
    var server := new NativeServer(hash);
    var req := IncomingRequest("/status", None, Some("127.0.0.1"), "127.0.0.1", "GET",
                               None, None, None, Some("localhost"));
    dispatched := server.HandleConnection(req, Response(0), time, [], true);
    var id := hash(HashKey(None, Some("127.0.0.1"), time));
    cmd := server.SendEmpty(id);
    first := server.sent;
    cmd := server.SendEmpty(id);
    second := server.sent;
  }
}

/** HttpRequestParser as the source writes it, proved against the functions of RequestParser. */
module HttpRequestParser {
  import opened Wrappers
  import opened Text
  import opened HttpRequest
  import opened RequestParser
  import opened Buffers
  import Store = BodyStore

  class IncrementalParser {
    var status: Status
    var request: RequestImpl
    var contentLength: nat
    var chunkLength: nat
    var requests: nat
    /** Status codes sent before the request is complete, and those sent by shutdownConnection. */
    var interim: seq<nat>
    var refusals: seq<nat>

    ghost function State(): Parser
      reads this, request
    {
      Parser(status, request.State(), contentLength, chunkLength, requests, interim)
    }

    constructor ()
      ensures fresh(request) && State() == START && refusals == []
    {
      status, contentLength, chunkLength, requests, interim, refusals := ExpectMethod, 0, 0, 0, [], [];
      request := new RequestImpl();
    }

    method Reset()
      modifies this
      ensures State() == RequestParser.Reset(old(State()))
      ensures fresh(request) && refusals == old(refusals)
    {
      contentLength, status := 0, ExpectMethod;
      request := new RequestImpl();
    }

    method ShutdownConnection(code: nat)
      modifies this`refusals
      ensures refusals == old(refusals) + [code]
    {
      refusals := refusals + [code];
    }

    method Refuse(buf: MsgBuffer<char>, code: nat)
      modifies this`refusals, buf
      ensures refusals == old(refusals) + [code]
    {
      buf.RetrieveAll();
      ShutdownConnection(code);
    }

    /** The outcome of one turn of the loop, or of the whole loop. */
    ghost predicate Did(t: Turn, ok: bool, hasMore: bool, buf: MsgBuffer<char>, before: seq<nat>)
      reads this, request, buf
    {
      match t
      case More(p, rest) => ok && hasMore && State() == p && buf.data == rest && refusals == before
      case Leave(p, rest) => ok && !hasMore && State() == p && buf.data == rest && refusals == before
      case Reject(code) => !ok && refusals == before + if code.Some? then [code.value] else []
    }

    method ParseMethod(buf: MsgBuffer<char>) returns (ok: bool, hasMore: bool)
      modifies this, request, buf
      ensures request == old(request)
      ensures Did(OnMethod(old(State()), old(buf.data)), ok, hasMore, buf, old(refusals))
    {
      ok, hasMore := true, true;
      var space := Find(buf.data, ' ');
      if space < |buf.data| {
        ok := request.SetMethod(buf.data[..space]);
        NamesAreMethods(buf.data[..space]);
        if ok {
          MethodInverts(buf.data[..space], request.verb);
        }
        if ok {
          status := ExpectRequestLine;
          buf.Retrieve(space + 1);
        } else {
          Refuse(buf, 405);
        }
      } else if |buf.data| >= 7 {
        Refuse(buf, 400);
        ok := false;
      } else {
        hasMore := false;
      }
    }

    method ParseLine(buf: MsgBuffer<char>) returns (ok: bool, hasMore: bool)
      modifies this, request, buf
      ensures request == old(request)
      ensures Did(OnRequestLine(old(State()), old(buf.data)), ok, hasMore, buf, old(refusals))
    {
      ok, hasMore := true, true;
      match FindCrlf(buf.data)
      case Some(crlf) =>
        ok := request.ProcessRequestLine(buf.data[..crlf]);
        if ok {
          buf.Retrieve(crlf + 2);
          status := ExpectHeaders;
        } else {
          Refuse(buf, 400);
        }
      case None =>
        if |buf.data| >= LINE_LIMIT {
          Refuse(buf, 414);
          ok := false;
        } else {
          hasMore := false;
        }
    }

    /** Content-length, else transfer-encoding. */
    method DetermineFraming() returns (ok: bool, hasMore: bool)
      modifies this
      ensures request == old(request) && request.State() == old(request.State())
      ensures match Framing(old(State())) {
        case More(p, _) => ok && hasMore && State() == p && refusals == old(refusals)
        case Leave(p, _) => ok && !hasMore && State() == p && refusals == old(refusals)
        case Reject(code) => !ok && refusals == old(refusals) + if code.Some? then [code.value] else []
      }
    {
      ok, hasMore := true, true;
      var len := request.GetHeaderBy("content-length");
      if len != "" {
        match ParseDecimal(len)
        case None => ok := false;
        case Some(n) =>
          contentLength := n;
          if contentLength == 0 {
            status, requests, hasMore := GotAll, requests + 1, false;
          } else {
            status := ExpectBody;
          }
      } else {
        var encode := request.GetHeaderBy("transfer-encoding");
        if encode == "" {
          status, requests, hasMore := GotAll, requests + 1, false;
        } else if encode == "chunked" {
          status := ExpectChunkLen;
        } else {
          ShutdownConnection(501);
          ok := false;
        }
      }
    }

    /** The Expect header, the body limit and the reservation. */
    method Admit(cfg: Config) returns (ok: bool)
      modifies this, request
      ensures request == old(request) || fresh(request)
      ensures match Admission(old(State()), cfg) {
        case More(p, _) => ok && State() == ReserveBody(p, cfg) && refusals == old(refusals)
        case Leave(p, _) => false
        case Reject(code) => !ok && refusals == old(refusals) + if code.Some? then [code.value] else []
      }
    {
      ok := true;
      var expected := request.Expected();
      if expected == "100-continue" && request.version == Http11 {
        if contentLength == 0 {
          ShutdownConnection(400);
          return false;
        }
        if contentLength > cfg.maxBody {
          interim := interim + [413];
          Reset();
        } else {
          interim := interim + [100];
        }
      } else if expected != "" {
        ShutdownConnection(417);
        return false;
      } else if contentLength > cfg.maxBody {
        ShutdownConnection(413);
        return false;
      }
      request.body := Store.Reserve(request.body, contentLength, cfg.maxMemory);
    }

    method ParseHeader(buf: MsgBuffer<char>, cfg: Config) returns (ok: bool, hasMore: bool)
      modifies this, request, buf
      ensures request == old(request) || fresh(request)
      ensures Did(OnHeader(old(State()), old(buf.data), cfg), ok, hasMore, buf, old(refusals))
    {
      ok, hasMore := true, true;
      match FindCrlf(buf.data)
      case Some(crlf) =>
        var line := buf.data[..crlf];
        var colon := Find(line, ':');
        if colon != crlf {
          request.AddHeaderLine(line, colon);
          buf.Retrieve(crlf + 2);
        } else {
          ok, hasMore := EndOfHeaders(buf, crlf, cfg);
        }
      case None =>
        if |buf.data| >= LINE_LIMIT {
          Refuse(buf, 400);
          ok := false;
        } else {
          hasMore := false;
        }
    }

    method EndOfHeaders(buf: MsgBuffer<char>, crlf: nat, cfg: Config) returns (ok: bool, hasMore: bool)
      requires crlf + 2 <= |buf.data|
      modifies this, request, buf
      ensures request == old(request) || fresh(request)
      ensures Did(OnEmptyLine(old(State()), old(buf.data)[crlf + 2..], cfg), ok, hasMore, buf, old(refusals))
    {
      ok, hasMore := DetermineFraming();
      if ok {
        ok := Admit(cfg);
        if ok {
          buf.Retrieve(crlf + 2);
        }
      }
    }

    method AppendToBody(data: string, cfg: Config)
      modifies request`body
      ensures request.State() == old(request.State()).(body := Store.Append(old(request.body), data, cfg.maxMemory))
    {
      request.body := Store.Append(request.body, data, cfg.maxMemory);
    }

    method ParseBody(buf: MsgBuffer<char>, cfg: Config) returns (ok: bool, hasMore: bool)
      modifies this, request, buf
      ensures request == old(request)
      ensures Did(OnBody(old(State()), old(buf.data), cfg), ok, hasMore, buf, old(refusals))
    {
      ok, hasMore := true, true;
      if |buf.data| == 0 {
        if contentLength == 0 {
          status, requests := GotAll, requests + 1;
        }
        return ok, false;
      }
      if contentLength >= |buf.data| {
        contentLength := contentLength - |buf.data|;
        assert buf.data[..|buf.data|] == buf.data && buf.data[|buf.data|..] == "";
        AppendToBody(buf.data, cfg);
        buf.RetrieveAll();
      } else {
        AppendToBody(buf.data[..contentLength], cfg);
        buf.Retrieve(contentLength);
        contentLength := 0;
      }
      if contentLength == 0 {
        status, requests, hasMore := GotAll, requests + 1, false;
      }
    }

    /** strtol in base 16. */
    method ReadChunkSize(line: string) returns (n: nat)
      ensures n == ChunkSize(line)
    {
      var i := 0;
      while i < |line| && IsSpace(line[i])
        invariant 0 <= i <= |line|
        invariant TrimLeft(line[i..]) == TrimLeft(line)
      {
        assert line[i..][1..] == line[i + 1..];
        i := i + 1;
      }
      ghost var t := line[i..];
      assert t == TrimLeft(line);
      if i + 2 < |line| && line[i] == '0' && (line[i + 1] == 'x' || line[i + 1] == 'X') && HexChar(line[i + 2]) {
        assert t[2..] == line[i + 2..];
        i := i + 2;
      }
      n := 0;
      while i < |line| && HexChar(line[i])
        invariant 0 <= i <= |line|
        invariant ReadHex(line[i..], n) == ChunkSize(line)
      {
        assert line[i..][1..] == line[i + 1..];
        n := n * 16 + HexVal(line[i]);
        i := i + 1;
      }
    }

    method ParseChunkLength(buf: MsgBuffer<char>, cfg: Config) returns (ok: bool, hasMore: bool)
      modifies this, request, buf
      ensures request == old(request)
      ensures Did(OnChunkLength(old(State()), old(buf.data), cfg), ok, hasMore, buf, old(refusals))
    {
      ok, hasMore := true, true;
      match FindCrlf(buf.data)
      case Some(crlf) =>
        chunkLength := ReadChunkSize(buf.data[..crlf]);
        if chunkLength != 0 {
          if chunkLength + contentLength > cfg.maxBody {
            Refuse(buf, 413);
            return false, hasMore;
          }
          status := ExpectChunkBody;
        } else {
          status := ExpectLastEmptyChunk;
        }
        buf.Retrieve(crlf + 2);
      case None =>
        hasMore := false;
    }

    method ParseChunkBody(buf: MsgBuffer<char>, cfg: Config) returns (ok: bool, hasMore: bool)
      modifies this, request, buf
      ensures request == old(request)
      ensures Did(OnChunkBody(old(State()), old(buf.data), cfg), ok, hasMore, buf, old(refusals))
    {
      ok, hasMore := true, true;
      if |buf.data| >= chunkLength + 2 {
        if buf.data[chunkLength] == '\r' && buf.data[chunkLength + 1] == '\n' {
          AppendToBody(buf.data[..chunkLength], cfg);
          buf.Retrieve(chunkLength + 2);
          contentLength, chunkLength, status := contentLength + chunkLength, 0, ExpectChunkLen;
        } else {
          buf.RetrieveAll();
          ok := false;
        }
      } else {
        hasMore := false;
      }
    }

    method ParseLastChunk(buf: MsgBuffer<char>) returns (ok: bool, hasMore: bool)
      modifies this, request, buf
      ensures request == old(request)
      ensures Did(OnLastChunk(old(State()), old(buf.data)), ok, hasMore, buf, old(refusals))
    {
      ok, hasMore := true, false;
      match FindCrlf(buf.data)
      case Some(crlf) =>
        buf.Retrieve(crlf + 2);
        status, requests := GotAll, requests + 1;
        var length := Decimal(|Store.View(request.body)|);
        request.headers := request.headers["content-length" := length];
        request.headers := request.headers - {"transfer-encoding"};
      case None =>
    }

    /** One turn of the loop, by the state. */
    method Turn(buf: MsgBuffer<char>, cfg: Config) returns (ok: bool, hasMore: bool)
      requires status != GotAll
      modifies this, request, buf
      ensures request == old(request) || fresh(request)
      ensures Did(TakeTurn(old(State()), old(buf.data), cfg), ok, hasMore, buf, old(refusals))
    {
      match status
      case ExpectMethod => ok, hasMore := ParseMethod(buf);
      case ExpectRequestLine => ok, hasMore := ParseLine(buf);
      case ExpectHeaders => ok, hasMore := ParseHeader(buf, cfg);
      case ExpectBody => ok, hasMore := ParseBody(buf, cfg);
      case ExpectChunkLen => ok, hasMore := ParseChunkLength(buf, cfg);
      case ExpectChunkBody => ok, hasMore := ParseChunkBody(buf, cfg);
      case ExpectLastEmptyChunk => ok, hasMore := ParseLastChunk(buf);
    }

    method ParseRequest(buf: MsgBuffer<char>, cfg: Config) returns (ok: bool)
      requires status != GotAll
      modifies this, request, buf
      ensures request == old(request) || fresh(request)
      ensures Did(Parse(old(State()), old(buf.data), cfg), ok, false, buf, old(refusals))
    {
      ghost var t := Parse(State(), buf.data, cfg);
      var hasMore := true;
      ok := true;
      while hasMore
        invariant request == old(request) || fresh(request)
        invariant ok && hasMore ==> status != GotAll && refusals == old(refusals) && Parse(State(), buf.data, cfg) == t
        invariant !hasMore ==> Did(t, ok, false, buf, old(refusals))
        invariant hasMore ==> ok
        decreases hasMore, |buf.data|
      {
        ok, hasMore := Turn(buf, cfg);
        if !ok {
          return;
        }
      }
    }

    /** One pass of the read loop: a complete request is taken out and the parser made ready for the next. */
    method TakeRequest(buf: MsgBuffer<char>, cfg: Config) returns (ok: bool, complete: RequestImpl?)
      requires status != GotAll
      modifies this, request, buf
      ensures request == old(request) || fresh(request)
      ensures complete != null ==>
        (complete == old(request) || fresh(complete)) && fresh(request) && request != complete
      ensures var t := Parse(old(State()), old(buf.data), cfg);
        if t.Reject? then !ok && complete == null
        else
          && ok && buf.data == t.rest
          && (if t.p.status == GotAll
              then complete != null && complete.State() == t.p.request && State() == RequestParser.Reset(t.p)
              else complete == null && State() == t.p)
    {
      complete := null;
      ok := ParseRequest(buf, cfg);
      if !ok {
        Reset();
      } else if status == GotAll {
        complete := request;
        Reset();
      }
    }

    /** The objects are the requests `got`, and none of them is the parser's own. */
    ghost predicate Collected(objects: seq<RequestImpl>, got: seq<Request>)
      reads this, objects
    {
      request !in objects && Hold(objects, got)
    }

    /** One pass, seen from the requests of the whole read `f`, of which `got` are complete. */
    method Pass(buf: MsgBuffer<char>, cfg: Config, objects: seq<RequestImpl>, ghost got: seq<Request>, ghost f: Fed)
      returns (ok: bool, more: bool, received: seq<RequestImpl>, ghost now: seq<Request>)
      requires Sound(State()) && buf.data != "" && f == Append(got, Feed(State(), buf.data, cfg))
      requires Collected(objects, got)
      modifies this, request, buf
      ensures request == old(request) || fresh(request)
      ensures forall r :: r in received ==> r in objects || r == old(request) || fresh(r)
      ensures Collected(received, now)
      ensures more ==>
        ok && Sound(State()) && |buf.data| < |old(buf.data)| && f == Append(now, Feed(State(), buf.data, cfg))
      ensures !more ==> f == Fed(now, if ok then Open(State(), buf.data) else Closed)
    {
      ghost var p, bytes := State(), buf.data;
      ParseProgress(p, bytes, cfg);
      var complete;
      ok, complete := TakeRequest(buf, cfg);
      assert Hold(objects, got);
      received, now, more := objects, got, complete != null;
      if complete != null {
        FeedOn(got, p, bytes, Parse(p, bytes, cfg).p, buf.data, cfg);
        received, now := objects + [complete], got + [complete.State()];
      } else if ok {
        FeedPauses(got, p, bytes, cfg);
      } else {
        received, now := [], [];
      }
    }

    /** The read loop: the complete requests of one read, or none after an error. */
    method OnMessage(buf: MsgBuffer<char>, cfg: Config) returns (received: seq<RequestImpl>, open: bool)
      requires Sound(State())
      modifies this, request, buf
      ensures (request == old(request) || fresh(request)) && request !in received
      ensures var f := Feed(old(State()), old(buf.data), cfg);
        Hold(received, f.requests) && f.session == if open then Open(State(), buf.data) else Closed
    {
      ghost var f := Feed(State(), buf.data, cfg);
      ghost var got: seq<Request> := [];
      received := [];
      FeedStarts(f);
      while |buf.data| > 0
        invariant request == old(request) || fresh(request)
        invariant forall r :: r in received ==> r == old(request) || fresh(r)
        invariant Sound(State()) && Collected(received, got)
        invariant f == Append(got, Feed(State(), buf.data, cfg))
        decreases |buf.data|
      {
        var more;
        open, more, received, got := Pass(buf, cfg, received, got, f);
        if !more {
          return;
        }
      }
      FeedEnds(got, State(), cfg);
      open := true;
    }
  }

  lemma FeedStarts(f: Fed)
    ensures f == Append([], f)
  {
  }

  lemma FeedEnds(got: seq<Request>, p: Parser, cfg: Config)
    requires Sound(p)
    ensures Append(got, Feed(p, "", cfg)) == Fed(got, Open(p, ""))
  {
    assert got + [] == got;
  }

  ghost predicate Hold(objects: seq<RequestImpl>, values: seq<Request>)
    reads objects
  {
    |objects| == |values| && forall i :: 0 <= i < |objects| ==> objects[i].State() == values[i]
  }

  ghost function Append(got: seq<Request>, f: Fed): Fed {
    if f.session.Closed? then f else Fed(got + f.requests, f.session)
  }

  lemma FeedPauses(got: seq<Request>, p: Parser, bytes: string, cfg: Config)
    requires Sound(p) && bytes != "" && Parse(p, bytes, cfg).Leave? && Parse(p, bytes, cfg).p.status != GotAll
    ensures Append(got, Feed(p, bytes, cfg)) == Fed(got, Open(Parse(p, bytes, cfg).p, Parse(p, bytes, cfg).rest))
  {
    assert got + [] == got;
  }

  lemma FeedOn(got: seq<Request>, p: Parser, bytes: string, done: Parser, rest: string, cfg: Config)
    requires Sound(p) && bytes != "" && Parse(p, bytes, cfg) == Leave(done, rest) && done.status == GotAll
    ensures Append(got, Feed(p, bytes, cfg)) == Append(got + [done.request], Feed(RequestParser.Reset(done), rest, cfg))
  {
    var g := Feed(RequestParser.Reset(done), rest, cfg);
    assert got + ([done.request] + g.requests) == got + [done.request] + g.requests;
  }
}

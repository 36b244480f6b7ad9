/** HttpResponseParser::parseResponse and the read loop of HttpClientImpl::onRecvMessage around it. */
module ResponseParser {
  import opened Wrappers
  import opened Text
  import HttpRequest
  import RequestParser

  type Fields = HttpRequest.Fields
  type Version = HttpRequest.Version

  datatype Status =
    | ExpectLine | ExpectHeaders | ExpectBody | ExpectClose
    | ExpectChunkLen | ExpectChunkBody | ExpectLastEmptyChunk | GotAll

  /** `cookies` are the values of the Set-Cookie lines; a body that is missing reads like an empty one. */
  datatype Response = Response(code: nat, version: Version, headers: Fields, cookies: seq<string>, body: string)

  const BLANK := Response(0, HttpRequest.Unknown, map[], [], "")

  /** `left` bytes of the body are missing; `forHead` says that no body will come. */
  datatype Parser = Parser(status: Status, response: Response, left: nat, chunk: nat, forHead: bool)

  const START := Parser(ExpectLine, BLANK, 0, 0, false)

  datatype Turn = More(p: Parser, rest: string) | Leave(p: Parser, rest: string) | Reject

  /** atoi on an unsigned number. */
  function Atoi(s: string): nat {
    ReadDigits(TrimLeft(s), 0)
  }

  /** "HTTP/1.x CODE MESSAGE": only the last character of the version is looked at. */
  function ParseLine(r: Response, line: string): Option<Response> {
    var space := Find(line, ' ');
    if space == |line| || space == 0 || (line[space - 1] != '1' && line[space - 1] != '0') then None
    else
      var tail := line[space + 1..];
      var next := Find(tail, ' ');
      if next == |tail| then None
      else Some(r.(
        version := if line[space - 1] == '1' then HttpRequest.Http11 else HttpRequest.Http10,
        code := Atoi(tail[..next])))
  }

  /** The last header of a name is kept. */
  function AddHeader(r: Response, name: string, text: string): Response {
    var field, value := Lower(name), TrimRight(TrimLeft(text));
    if field == "set-cookie" then r.(cookies := r.cookies + [value])
    else r.(headers := r.headers[field := value])
  }

  function HeaderBy(r: Response, name: string): string {
    if name in r.headers then r.headers[name] else ""
  }

  // ---------------------------------------------------------------- the states

  function OnLine(p: Parser, buf: string): Turn {
    match FindCrlf(buf)
    case None => Leave(p, buf)
    case Some(crlf) =>
      match ParseLine(p.response, buf[..crlf])
      case None => Reject
      case Some(r) => More(p.(response := r, status := ExpectHeaders), buf[crlf + 2..])
  }

  predicate NoBody(r: Response) {
    r.code == 204 || (r.code == 101 && HeaderBy(r, "upgrade") == "websocket")
  }

  function OnEmptyLine(p: Parser, rest: string): Turn {
    var length := HeaderBy(p.response, "content-length");
    if p.forHead then Leave(p.(left := 0, status := GotAll), rest)
    else if length != "" then More(p.(left := Atoi(length), status := ExpectBody), rest)
    else if HeaderBy(p.response, "transfer-encoding") == "chunked" then More(p.(status := ExpectChunkLen), rest)
    else if NoBody(p.response) then Leave(p.(status := GotAll), rest)
    else More(p.(status := ExpectClose), rest)
  }

  function OnHeader(p: Parser, buf: string): Turn {
    match FindCrlf(buf)
    case None => Leave(p, buf)
    case Some(crlf) =>
      var line := buf[..crlf];
      var colon := Find(line, ':');
      if colon != crlf then More(p.(response := AddHeader(p.response, line[..colon], line[colon + 1..])),
        buf[crlf + 2..])
      else OnEmptyLine(p, buf[crlf + 2..])
  }

  function TakeBody(p: Parser, data: string): Parser {
    p.(response := p.response.(body := p.response.body + data))
  }

  function OnBody(p: Parser, buf: string): Turn {
    var n := if p.left >= |buf| then |buf| else p.left;
    var p1 := TakeBody(p, buf[..n]).(left := p.left - n);
    if p1.left == 0 then Leave(p1.(status := GotAll), buf[n..])
    else if buf == "" then Leave(p1, buf)
    else More(p1, buf[n..])
  }

  function OnChunkLength(p: Parser, buf: string): Turn {
    match FindCrlf(buf)
    case None => Leave(p, buf)
    case Some(crlf) =>
      var n := RequestParser.ChunkSize(buf[..crlf]);
      More(p.(chunk := n, status := if n != 0 then ExpectChunkBody else ExpectLastEmptyChunk), buf[crlf + 2..])
  }

  function OnChunkBody(p: Parser, buf: string): Turn {
    var n := p.chunk;
    if |buf| < n + 2 then Leave(p, buf)
    else if buf[n] == '\r' && buf[n + 1] == '\n' then
      More(TakeBody(p, buf[..n]).(chunk := 0, status := ExpectChunkLen), buf[n + 2..])
    else Reject
  }

  function OnLastChunk(p: Parser, buf: string): Turn {
    match FindCrlf(buf)
    case None => Leave(p, buf)
    case Some(crlf) =>
      var r := p.response;
      var fields := r.headers["content-length" := Decimal(|r.body|)] - {"transfer-encoding"};
      Leave(p.(status := GotAll, response := r.(headers := fields)), buf[crlf + 2..])
  }

  function TakeTurn(p: Parser, buf: string): (t: Turn)
    requires p.status != GotAll
    ensures t.More? ==> |t.rest| < |buf| && t.p.status != GotAll
  {
    match p.status
    case ExpectLine => OnLine(p, buf)
    case ExpectHeaders => OnHeader(p, buf)
    case ExpectBody => OnBody(p, buf)
    case ExpectClose => Leave(TakeBody(p, buf), "")
    case ExpectChunkLen => OnChunkLength(p, buf)
    case ExpectChunkBody => OnChunkBody(p, buf)
    case ExpectLastEmptyChunk => OnLastChunk(p, buf)
  }

  function Parse(p: Parser, buf: string): (t: Turn)
    requires p.status != GotAll
    ensures !t.More?
    decreases |buf|
  {
    match TakeTurn(p, buf)
    case More(p1, rest) => Parse(p1, rest)
    case t => t
  }

  // ---------------------------------------------------------------- reads

  /** Between reads a body state misses something. */
  predicate Waiting(p: Parser) {
    p.status != GotAll && (p.status == ExpectBody ==> p.left > 0)
  }

  lemma {:induction false} ParseProgress(p: Parser, buf: string)
    requires p.status != GotAll
    ensures match Parse(p, buf) {
      case Leave(p1, rest) => |rest| <= |buf| && (p1.status != GotAll ==> Waiting(p1))
        && (Waiting(p) && p1.status == GotAll ==> |rest| < |buf|)
      case _ => true
    }
    decreases |buf|
  {
    var t := TakeTurn(p, buf);
    if t.More? {
      ParseProgress(t.p, t.rest);
    }
  }

  /** Which of the requests in flight, counted from the first, are HEAD requests. */
  type Heads = nat -> bool

  /** The parser, the bytes left, and the number of responses so far; or the connection given up. */
  datatype Session = Open(p: Parser, pending: string, count: nat) | Failed

  datatype Fed = Fed(responses: seq<Response>, session: Session)

  function Marked(p: Parser, head: bool): Parser {
    p.(forHead := p.forHead || head)
  }

  /** The read loop; every response is handed on at once. */
  function Feed(p: Parser, buf: string, count: nat, heads: Heads): Fed
    requires Waiting(p)
    decreases |buf|
  {
    if buf == "" then Fed([], Open(p, "", count))
    else
      ParseProgress(Marked(p, heads(count)), buf);
      match Parse(Marked(p, heads(count)), buf)
      case Reject => Fed([], Failed)
      case Leave(p1, rest) =>
        if p1.status != GotAll then Fed([], Open(p1, rest, count))
        else
          var f := Feed(START, rest, count + 1, heads);
          Fed([p1.response] + f.responses, f.session)
  }

  lemma {:induction false} FeedWaits(p: Parser, buf: string, count: nat, heads: Heads)
    requires Waiting(p)
    ensures var s := Feed(p, buf, count, heads).session; s.Open? ==> Waiting(s.p)
    decreases |buf|
  {
    if buf != "" {
      ParseProgress(Marked(p, heads(count)), buf);
      var t := Parse(Marked(p, heads(count)), buf);
      if t.Leave? && t.p.status == GotAll {
        FeedWaits(START, t.rest, count + 1, heads);
      }
    }
  }

  /** A connection read piece by piece, until it ends or fails. */
  function Reads(p: Parser, pending: string, count: nat, pieces: seq<string>, heads: Heads): Fed
    requires Waiting(p)
    decreases |pieces|
  {
    if pieces == [] then Fed([], Open(p, pending, count))
    else
      FeedWaits(p, pending + pieces[0], count, heads);
      var f := Feed(p, pending + pieces[0], count, heads);
      match f.session
      case Failed => f
      case Open(q, rest, n) =>
        var g := Reads(q, rest, n, pieces[1..], heads);
        Fed(f.responses + g.responses, g.session)
  }
}

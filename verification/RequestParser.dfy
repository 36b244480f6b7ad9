/**
 The incremental request parser: HttpRequestParser::parseRequest and the read loop of
 HttpServer::onMessage around it.
 */
module RequestParser {
  import opened Wrappers
  import opened Text
  import opened HttpRequest
  import Store = BodyStore

  datatype Status =
    | ExpectMethod | ExpectRequestLine | ExpectHeaders | ExpectBody
    | ExpectChunkLen | ExpectChunkBody | ExpectLastEmptyChunk | GotAll

  /** The configured limits of a body, and of its part kept in memory. */
  datatype Config = Config(maxBody: nat, maxMemory: nat)

  const LINE_LIMIT := 64 * 1024

  /** `interim` lists the status codes sent while parsing: 100, or 413 for a refused expectation. */
  datatype Parser = Parser(
    status: Status,
    request: Request,
    contentLength: nat,
    chunkLength: nat,
    requests: nat,
    interim: seq<nat>)

  /** One turn of the loop: go on, leave the loop, or fail with the status code sent, if any. */
  datatype Turn = More(p: Parser, rest: string) | Leave(p: Parser, rest: string) | Reject(code: Option<nat>)

  function Reset(p: Parser): Parser {
    p.(status := ExpectMethod, contentLength := 0, request := BLANK)
  }

  const START := Parser(ExpectMethod, BLANK, 0, 0, 0, [])

  // ---------------------------------------------------------------- chunk sizes

  predicate HexChar(c: char) {
    '0' <= c <= '9' || 'a' <= c <= 'f' || 'A' <= c <= 'F'
  }

  function HexVal(c: char): nat
    requires HexChar(c)
  {
    if c <= '9' then c as int - '0' as int
    else if c <= 'F' then c as int - 'A' as int + 10
    else c as int - 'a' as int + 10
  }

  /** The number spelled by the hexadecimal digits at the front, after those read into `acc`. */
  function ReadHex(s: string, acc: nat): nat {
    if s == "" || !HexChar(s[0]) then acc else ReadHex(s[1..], acc * 16 + HexVal(s[0]))
  }

  /** strtol in base 16 on an unsigned number: blanks and 0x are skipped. */
  function ChunkSize(line: string): nat {
    var t := TrimLeft(line);
    if |t| > 2 && t[0] == '0' && (t[1] == 'x' || t[1] == 'X') && HexChar(t[2]) then ReadHex(t[2..], 0)
    else ReadHex(t, 0)
  }

  // ---------------------------------------------------------------- the states

  function OnMethod(p: Parser, buf: string): Turn {
    var space := Find(buf, ' ');
    if space < |buf| then
      var m := MethodOf(buf[..space]);
      if m != Invalid then More(p.(request := p.request.(verb := m), status := ExpectRequestLine), buf[space + 1..])
      else Reject(Some(405))
    else if |buf| >= 7 then Reject(Some(400))
    else Leave(p, buf)
  }

  function OnRequestLine(p: Parser, buf: string): Turn {
    match FindCrlf(buf)
    case Some(crlf) =>
      (match ParseRequestLine(p.request, buf[..crlf])
       case Some(r) => More(p.(request := r, status := ExpectHeaders), buf[crlf + 2..])
       case None => Reject(Some(400)))
    case None => if |buf| >= LINE_LIMIT then Reject(Some(414)) else Leave(p, buf)
  }

  /** How the body is delimited; `None` stands for the exception of a malformed length. */
  function Framing(p: Parser): Turn {
    var length := HeaderBy(p.request, "content-length");
    if length != "" then
      match ParseDecimal(length)
      case None => Reject(None)
      case Some(0) => Leave(p.(contentLength := 0, status := GotAll, requests := p.requests + 1), "")
      case Some(n) => More(p.(contentLength := n, status := ExpectBody), "")
    else
      var encoding := HeaderBy(p.request, "transfer-encoding");
      if encoding == "" then Leave(p.(status := GotAll, requests := p.requests + 1), "")
      else if encoding == "chunked" then More(p.(status := ExpectChunkLen), "")
      else Reject(Some(501))
  }

  /** The Expect header and the body limit, once the framing is known. */
  function Admission(p: Parser, cfg: Config): Turn {
    var wanted := Expectation(p.request);
    if wanted == "100-continue" && p.request.version == Http11 then
      if p.contentLength == 0 then Reject(Some(400))
      else if p.contentLength > cfg.maxBody then More(Reset(p.(interim := p.interim + [413])), "")
      else More(p.(interim := p.interim + [100]), "")
    else if wanted != "" then Reject(Some(417))
    else if p.contentLength > cfg.maxBody then Reject(Some(413))
    else More(p, "")
  }

  function ReserveBody(p: Parser, cfg: Config): Parser {
    p.(request := p.request.(body := Store.Reserve(p.request.body, p.contentLength, cfg.maxMemory)))
  }

  function OnEmptyLine(p: Parser, rest: string, cfg: Config): Turn {
    match Framing(p)
    case Reject(code) => Reject(code)
    case More(p1, _) =>
      (match Admission(p1, cfg)
       case Reject(code) => Reject(code)
       case More(p2, _) => More(ReserveBody(p2, cfg), rest)
       case Leave(p2, _) => Leave(p2, rest))
    case Leave(p1, _) =>
      (match Admission(p1, cfg)
       case Reject(code) => Reject(code)
       case More(p2, _) => Leave(ReserveBody(p2, cfg), rest)
       case Leave(p2, _) => Leave(p2, rest))
  }

  function OnHeader(p: Parser, buf: string, cfg: Config): Turn {
    match FindCrlf(buf)
    case Some(crlf) =>
      var line := buf[..crlf];
      var colon := Find(line, ':');
      if colon != crlf then More(p.(request := AddHeader(p.request, line[..colon], line[colon + 1..])), buf[crlf + 2..])
      else OnEmptyLine(p, buf[crlf + 2..], cfg)
    case None => if |buf| >= LINE_LIMIT then Reject(Some(400)) else Leave(p, buf)
  }

  function TakeBody(p: Parser, data: string, cfg: Config): Parser {
    p.(request := p.request.(body := Store.Append(p.request.body, data, cfg.maxMemory)))
  }

  function OnBody(p: Parser, buf: string, cfg: Config): Turn {
    if |buf| == 0 then
      Leave(if p.contentLength == 0 then p.(status := GotAll, requests := p.requests + 1) else p, buf)
    else
      var n := if p.contentLength >= |buf| then |buf| else p.contentLength;
      var p1 := TakeBody(p, buf[..n], cfg).(contentLength := p.contentLength - n);
      if p1.contentLength == 0 then Leave(p1.(status := GotAll, requests := p.requests + 1), buf[n..])
      else More(p1, buf[n..])
  }

  function OnChunkLength(p: Parser, buf: string, cfg: Config): Turn {
    match FindCrlf(buf)
    case None => Leave(p, buf)
    case Some(crlf) =>
      var n := ChunkSize(buf[..crlf]);
      var p1 := p.(chunkLength := n);
      if n == 0 then More(p1.(status := ExpectLastEmptyChunk), buf[crlf + 2..])
      else if n + p.contentLength > cfg.maxBody then Reject(Some(413))
      else More(p1.(status := ExpectChunkBody), buf[crlf + 2..])
  }

  function OnChunkBody(p: Parser, buf: string, cfg: Config): Turn {
    var n := p.chunkLength;
    if |buf| < n + 2 then Leave(p, buf)
    else if buf[n] == '\r' && buf[n + 1] == '\n' then
      More(TakeBody(p, buf[..n], cfg).(
             contentLength := p.contentLength + n, chunkLength := 0, status := ExpectChunkLen),
           buf[n + 2..])
    else Reject(None)
  }

  /** The request of a finished chunked body: its length becomes a header. */
  function Unchunked(r: Request): Request {
    r.(headers := r.headers["content-length" := Decimal(|Store.View(r.body)|)] - {"transfer-encoding"})
  }

  function OnLastChunk(p: Parser, buf: string): Turn {
    match FindCrlf(buf)
    case None => Leave(p, buf)
    case Some(crlf) =>
      Leave(p.(status := GotAll, request := Unchunked(p.request), requests := p.requests + 1), buf[crlf + 2..])
  }

  function TakeTurn(p: Parser, buf: string, cfg: Config): (t: Turn)
    requires p.status != GotAll
    ensures t.More? ==> |t.rest| < |buf| && t.p.status != GotAll
  {
    match p.status
    case ExpectMethod => OnMethod(p, buf)
    case ExpectRequestLine => OnRequestLine(p, buf)
    case ExpectHeaders => OnHeader(p, buf, cfg)
    case ExpectBody => OnBody(p, buf, cfg)
    case ExpectChunkLen => OnChunkLength(p, buf, cfg)
    case ExpectChunkBody => OnChunkBody(p, buf, cfg)
    case ExpectLastEmptyChunk => OnLastChunk(p, buf)
  }

  /** parseRequest: turns until the loop is left. */
  function Parse(p: Parser, buf: string, cfg: Config): (t: Turn)
    requires p.status != GotAll
    ensures !t.More?
    decreases |buf|
  {
    match TakeTurn(p, buf, cfg)
    case More(p1, rest) => Parse(p1, rest, cfg)
    case t => t
  }

  // ---------------------------------------------------------------- reads

  /** The parser and what it has not consumed, or a connection given up after an error. */
  datatype Session = Open(p: Parser, pending: string) | Closed

  predicate BeforeBody(s: Status) {
    s == ExpectMethod || s == ExpectRequestLine || s == ExpectHeaders
  }

  /** No length is known before the body, and in the body states something is left to read. */
  predicate Sound(p: Parser) {
    && p.status != GotAll
    && (BeforeBody(p.status) ==> p.contentLength == 0)
    && (p.status == ExpectBody ==> p.contentLength > 0)
    && (p.status == ExpectChunkBody ==> p.chunkLength > 0)
  }

  lemma {:induction false} ParseProgress(p: Parser, buf: string, cfg: Config)
    requires Sound(p)
    ensures match Parse(p, buf, cfg) {
      case Leave(p1, rest) =>
        && |rest| <= |buf|
        && (p1.status == GotAll ==> |rest| < |buf|)
        && (p1.status != GotAll ==> Sound(p1))
      case _ => true
    }
    decreases |buf|
  {
    var t := TakeTurn(p, buf, cfg);
    if t.More? {
      assert Sound(t.p);
      ParseProgress(t.p, t.rest, cfg);
    }
  }

  /** What a read adds: the requests to handle, and the state after it. */
  datatype Fed = Fed(requests: seq<Request>, session: Session)

  function Prepend(r: Request, f: Fed): Fed {
    if f.session.Closed? then f else Fed([r] + f.requests, f.session)
  }

  /** The loop in onMessage.  After an error the requests of the same read are not handled. */
  function Feed(p: Parser, buf: string, cfg: Config): Fed
    requires Sound(p)
    decreases |buf|
  {
    if buf == "" then Fed([], Open(p, ""))
    else
      ParseProgress(p, buf, cfg);
      match Parse(p, buf, cfg)
      case Reject(_) => Fed([], Closed)
      case Leave(p1, rest) =>
        if p1.status != GotAll then Fed([], Open(p1, rest))
        else
          Prepend(p1.request, Feed(Reset(p1), rest, cfg))
  }

  lemma {:induction false} FeedSound(p: Parser, buf: string, cfg: Config)
    requires Sound(p)
    ensures var s := Feed(p, buf, cfg).session; s.Open? ==> Sound(s.p)
    decreases |buf|
  {
    if buf != "" {
      ParseProgress(p, buf, cfg);
      var t := Parse(p, buf, cfg);
      if t.Leave? && t.p.status == GotAll {
        FeedSound(Reset(t.p), t.rest, cfg);
      }
    }
  }

  /** The bytes of a connection, as they come in. */
  function Reads(p: Parser, pending: string, pieces: seq<string>, cfg: Config): Fed
    requires Sound(p)
    decreases |pieces|
  {
    if pieces == [] then Fed([], Open(p, pending))
    else
      FeedSound(p, pending + pieces[0], cfg);
      var f := Feed(p, pending + pieces[0], cfg);
      match f.session
      case Closed => f
      case Open(q, rest) =>
        var g := Reads(q, rest, pieces[1..], cfg);
        Fed(f.requests + g.requests, g.session)
  }
}

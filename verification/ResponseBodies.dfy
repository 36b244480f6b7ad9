/**
 Bodies of responses by their framing: chunks (section 4.1 of RFC 7230), none, or everything until the
 connection ends.
 */
module ResponseBodies {
  import opened Text
  import opened ResponseParser
  import opened ResponseRoundTrip
  import opened ChunkedBody
  import Requests = RequestParser
  import Seg = SegmentationProofs

  // ---------------------------------------------------------------- one chunk

  lemma {:induction false} ResponseSizeTurn(p: Parser, digits: string, extension: string, behind: string)
    requires p.status == ExpectChunkLen && HexNumber(digits) && Extension(extension)
    ensures var n := Requests.ReadHex(digits, 0);
      ResponseParser.OnChunkLength(p, digits + extension + CRLF + behind) ==
        More(p.(chunk := n, status := if n != 0 then ExpectChunkBody else ExpectLastEmptyChunk), behind)
  {
    var line := digits + extension;
    SizeLine(digits, extension);
    LineEnd(line, behind);
    assert (line + CRLF + behind)[..|line|] == line;
    assert (line + CRLF + behind)[|line| + 2..] == behind;
  }

  /** The parser after a chunk: the data is behind what was received before. */
  function Received(p: Parser, data: string): Parser {
    p.(response := p.response.(body := p.response.body + data), chunk := 0, status := ExpectChunkLen)
  }

  lemma {:induction false} ResponseDataTurn(p: Parser, data: string, behind: string)
    requires p.status == ExpectChunkBody && p.chunk == |data|
    ensures ResponseParser.OnChunkBody(p, data + CRLF + behind) == More(Received(p, data), behind)
  {
    var buf := data + CRLF + behind;
    assert buf[..|data|] == data && buf[|data| + 2..] == behind;
    assert buf[|data|] == '\r' && buf[|data| + 1] == '\n';
  }

  lemma {:induction false} ResponseTakesChunk(p: Parser, c: Chunk, behind: string)
    requires p.status == ExpectChunkLen && WellFormed(c)
    ensures Parse(p, ChunkText(c) + behind) == Parse(Received(p, c.data), behind)
  {
    var tail := c.data + CRLF + behind;
    var buf := c.digits + c.extension + CRLF + tail;
    assert ChunkText(c) + behind == buf;
    ResponseSizeTurn(p, c.digits, c.extension, tail);
    var q := p.(chunk := |c.data|, status := ExpectChunkBody);
    ResponseRoundTrip.ParseGoesOn(p, buf, q, tail);
    ResponseDataTurn(q, c.data, behind);
    assert Received(q, c.data) == Received(p, c.data);
    ResponseRoundTrip.ParseGoesOn(q, tail, Received(p, c.data), behind);
  }

  /** A decoded response: its length is there in place of the encoding. */
  function Unchunked(r: Response): Response {
    r.(headers := r.headers["content-length" := Decimal(|r.body|)] - {"transfer-encoding"})
  }

  lemma {:induction false} ResponseTakesLast(p: Parser, last: Chunk, rest: string)
    requires p.status == ExpectChunkLen && EndsBody(last)
    ensures Parse(p, ChunkText(last) + rest) ==
      Leave(p.(chunk := 0, status := GotAll, response := Unchunked(p.response)), rest)
  {
    var tail := CRLF + rest;
    var buf := last.digits + last.extension + CRLF + tail;
    assert ChunkText(last) + rest == buf;
    ResponseSizeTurn(p, last.digits, last.extension, tail);
    var q := p.(chunk := 0, status := ExpectLastEmptyChunk);
    ResponseRoundTrip.ParseGoesOn(p, buf, q, tail);
    LineEnd("", rest);
    assert tail == "" + CRLF + rest && tail[2..] == rest;
    assert ResponseParser.OnLastChunk(q, tail) == Leave(q.(status := GotAll, response := Unchunked(q.response)), rest);
  }

  // ---------------------------------------------------------------- the body

  lemma Brackets(a: string, b: string, c: string)
    ensures (a + b) + c == a + (b + c)
  {
  }

  lemma {:induction false} EncodedFirst(chunks: seq<Chunk>, last: Chunk, rest: string)
    requires chunks != []
    ensures Encoded(chunks, last) + rest == ChunkText(chunks[0]) + (Encoded(chunks[1..], last) + rest)
    ensures Data(chunks) == chunks[0].data + Data(chunks[1..])
  {
    Brackets(ChunkText(chunks[0]), Encoded(chunks[1..], last), rest);
  }

  lemma {:induction false} ResponseChunksDecode(p: Parser, chunks: seq<Chunk>, last: Chunk, rest: string)
    requires p.status == ExpectChunkLen && AllWellFormed(chunks) && EndsBody(last)
    ensures var t := Parse(p, Encoded(chunks, last) + rest);
      && t.Leave? && t.rest == rest && t.p.status == GotAll
      && t.p.response == Unchunked(p.response.(body := p.response.body + Data(chunks)))
    decreases |chunks|
  {
    if chunks == [] {
      ResponseTakesLast(p, last, rest);
      assert p.response.body + "" == p.response.body;
    } else {
      EncodedFirst(chunks, last, rest);
      ResponseTakesChunk(p, chunks[0], Encoded(chunks[1..], last) + rest);
      ResponseChunksDecode(Received(p, chunks[0].data), chunks[1..], last, rest);
      Brackets(p.response.body, chunks[0].data, Data(chunks[1..]));
    }
  }

  /** The end of the headers, seen from the turn that it is. */
  lemma {:induction false} HeadersEnd(p: Parser, behind: string)
    requires p.status == ExpectHeaders
    ensures TakeTurn(p, CRLF + behind) == OnEmptyLine(p, behind)
  {
    BlankLine(p, behind);
  }

  /** Neither a HEAD request nor a length: the encoding decides. */
  predicate NoLength(p: Parser) {
    p.status == ExpectHeaders && !p.forHead && HeaderBy(p.response, "content-length") == ""
  }

  /**
   A response in chunks of any number, size and spelling: its body is their concatenation, with its length
   in place of the encoding, and the bytes behind stay.
   */
  lemma {:induction false} ChunkedResponse(p: Parser, chunks: seq<Chunk>, last: Chunk, rest: string)
    requires NoLength(p) && HeaderBy(p.response, "transfer-encoding") == "chunked" && p.response.body == ""
    requires AllWellFormed(chunks) && EndsBody(last)
    ensures var t, data := Parse(p, CRLF + Encoded(chunks, last) + rest), Data(chunks);
      && t.Leave? && t.rest == rest && t.p.status == GotAll
      && t.p.response.body == data && HeaderBy(t.p.response, "content-length") == Decimal(|data|)
      && "transfer-encoding" !in t.p.response.headers
      && t.p.response == p.response.(body := data, headers := t.p.response.headers)
      && forall k :: k !in {"content-length", "transfer-encoding"} ==>
           HeaderBy(t.p.response, k) == HeaderBy(p.response, k)
  {
    var behind := Encoded(chunks, last) + rest;
    var q := p.(status := ExpectChunkLen);
    HeadersEnd(p, behind);
    assert CRLF + Encoded(chunks, last) + rest == CRLF + behind;
    ResponseRoundTrip.ParseGoesOn(p, CRLF + behind, q, behind);
    ResponseChunksDecode(q, chunks, last, rest);
    assert "" + Data(chunks) == Data(chunks);
  }

  /** 204, and 101 to a WebSocket, end with their headers; the bytes behind stay. */
  lemma {:induction false} BodilessResponse(p: Parser, rest: string)
    requires NoLength(p) && HeaderBy(p.response, "transfer-encoding") != "chunked"
    requires p.response.code == 204 || (p.response.code == 101 && HeaderBy(p.response, "upgrade") == "websocket")
    ensures Parse(p, CRLF + rest) == Leave(p.(status := GotAll), rest)
  {
    HeadersEnd(p, rest);
  }

  /** Whatever else has neither length nor chunks. */
  predicate EndsWithConnection(p: Parser) {
    && NoLength(p) && HeaderBy(p.response, "transfer-encoding") != "chunked"
    && p.response.code != 204 && !(p.response.code == 101 && HeaderBy(p.response, "upgrade") == "websocket")
  }

  function Until(p: Parser, data: string): Parser {
    p.(status := ExpectClose, response := p.response.(body := p.response.body + data))
  }

  lemma {:induction false} BodyBegins(p: Parser, data: string)
    requires EndsWithConnection(p)
    ensures Parse(p, CRLF + data) == Leave(Until(p, data), "")
  {
    HeadersEnd(p, data);
    ResponseRoundTrip.ParseGoesOn(p, CRLF + data, p.(status := ExpectClose), data);
  }

  lemma UntilMore(p: Parser, a: string, b: string)
    ensures Until(Until(p, a), b) == Until(p, a + b)
  {
    assert (p.response.body + a) + b == p.response.body + (a + b);
  }

  lemma {:induction false} OneMorePiece(p: Parser, piece: string, count: nat, heads: Heads)
    requires p.status == ExpectClose && !p.forHead && !heads(count)
    ensures Feed(p, piece, count, heads) == Fed([], Open(Until(p, piece), "", count))
  {
    assert p.response.body + "" == p.response.body;
    assert Marked(p, heads(count)) == p;
  }

  /** ... is collected piece by piece for as long as the connection lasts, and never handed over. */
  lemma {:induction false} NeverHandedOver(p: Parser, pieces: seq<string>, count: nat, heads: Heads)
    requires p.status == ExpectClose && !p.forHead && !heads(count)
    ensures Reads(p, "", count, pieces, heads) == Fed([], Open(Until(p, Seg.Joined(pieces)), "", count))
    decreases |pieces|
  {
    if pieces == [] {
      assert p.response.body + "" == p.response.body;
    } else {
      assert "" + pieces[0] == pieces[0];
      OneMorePiece(p, pieces[0], count, heads);
      NeverHandedOver(Until(p, pieces[0]), pieces[1..], count, heads);
      UntilMore(p, pieces[0], Seg.Joined(pieces[1..]));
    }
  }
}

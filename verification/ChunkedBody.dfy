/** Bodies sent in chunks (section 4.1 of RFC 7230), and the limits every body is kept to. */
module ChunkedBody {
  import opened Wrappers
  import opened Text
  import opened HttpRequest
  import opened RequestParser
  import opened SegmentationProofs
  import Store = BodyStore

  /** Hexadecimal digits, an optional extension behind a semicolon, and the data. */
  datatype Chunk = Chunk(digits: string, extension: string, data: string)

  predicate HexNumber(s: string) {
    s != "" && forall i :: 0 <= i < |s| ==> HexChar(s[i])
  }

  predicate Extension(s: string) {
    '\r' !in s && (s == "" || s[0] == ';')
  }

  predicate WellFormed(c: Chunk) {
    HexNumber(c.digits) && Extension(c.extension) && c.data != "" && ReadHex(c.digits, 0) == |c.data|
  }

  /** The chunk of size zero that ends a body; it has no trailers. */
  predicate EndsBody(c: Chunk) {
    HexNumber(c.digits) && Extension(c.extension) && c.data == "" && ReadHex(c.digits, 0) == 0
  }

  function ChunkText(c: Chunk): string {
    c.digits + c.extension + CRLF + (c.data + CRLF)
  }

  function Encoded(chunks: seq<Chunk>, last: Chunk): string {
    if chunks == [] then ChunkText(last) else ChunkText(chunks[0]) + Encoded(chunks[1..], last)
  }

  function Data(chunks: seq<Chunk>): string {
    if chunks == [] then "" else chunks[0].data + Data(chunks[1..])
  }

  predicate AllWellFormed(chunks: seq<Chunk>) {
    forall i :: 0 <= i < |chunks| ==> WellFormed(chunks[i])
  }

  // ---------------------------------------------------------------- size lines

  lemma {:induction false} DigitsThenMore(digits: string, more: string, acc: nat)
    requires forall i :: 0 <= i < |digits| ==> HexChar(digits[i])
    requires more == "" || !HexChar(more[0])
    ensures ReadHex(digits + more, acc) == ReadHex(digits, acc)
    decreases |digits|
  {
    if digits == "" {
      assert digits + more == more;
    } else {
      assert (digits + more)[1..] == digits[1..] + more;
      DigitsThenMore(digits[1..], more, acc * 16 + HexVal(digits[0]));
    }
  }

  /** What strtol makes of a size line. */
  lemma SizeLine(digits: string, extension: string)
    requires HexNumber(digits) && Extension(extension)
    ensures ChunkSize(digits + extension) == ReadHex(digits, 0)
    ensures '\r' !in digits + extension
  {
    var line := digits + extension;
    assert HexChar(digits[0]) && line[0] == digits[0];
    assert TrimLeft(line) == line;
    assert |line| > 1 ==> line[1] == if |digits| > 1 then digits[1] else extension[0];
    DigitsThenMore(digits, extension, 0);
  }

  /** Both cases of each digit. */
  lemma {:induction false} DigitTable(n: nat, c: char)
    requires n < 16
    ensures HexChar(LOWER_HEX[n]) && HexVal(LOWER_HEX[n]) == n
    ensures HexChar(UPPER_HEX[n]) && HexVal(UPPER_HEX[n]) == n
    ensures HexChar(c) ==> c in LOWER_HEX || c in UPPER_HEX
  {
    if HexChar(c) {
      assert c == LOWER_HEX[HexVal(c)] || c == UPPER_HEX[HexVal(c)];
    }
  }

  /** strtol also takes blanks and 0x in front. */
  lemma {:induction false} PrefixedSize(blanks: string, x: char, digits: string, extension: string)
    requires forall i :: 0 <= i < |blanks| ==> IsSpace(blanks[i])
    requires (x == 'x' || x == 'X') && HexNumber(digits) && Extension(extension)
    ensures ChunkSize(blanks + (['0', x] + (digits + extension))) == ReadHex(digits, 0)
    ensures ChunkSize(blanks + (digits + extension)) == ReadHex(digits, 0)
  {
    var line := ['0', x] + (digits + extension);
    BlanksTrimmed(blanks, line);
    assert line[2..] == digits + extension && HexChar(line[2]);
    DigitsThenMore(digits, extension, 0);
    assert HexChar((digits + extension)[0]);
    BlanksTrimmed(blanks, digits + extension);
    SizeLine(digits, extension);
    BlanksTrimmed("", digits + extension);
    assert "" + (digits + extension) == digits + extension;
  }

  function HexDigit(n: nat): char
    requires n < 16
  {
    if n < 10 then ('0' as int + n) as char else ('a' as int + n - 10) as char
  }

  /** The shortest size line of `n`. */
  function Hex(n: nat): string {
    if n < 16 then [HexDigit(n)] else Hex(n / 16) + [HexDigit(n % 16)]
  }

  lemma {:induction false} ReadHexAppend(a: string, d: char, acc: nat)
    requires HexChar(d) && forall i :: 0 <= i < |a| ==> HexChar(a[i])
    ensures ReadHex(a + [d], acc) == ReadHex(a, acc) * 16 + HexVal(d)
    decreases |a|
  {
    if a == "" {
      assert a + [d] == [d] && [d][1..] == "";
    } else {
      assert (a + [d])[1..] == a[1..] + [d];
      ReadHexAppend(a[1..], d, acc * 16 + HexVal(a[0]));
    }
  }

  /** Every length has a size line: any data can be a chunk. */
  lemma {:induction false} HexRoundTrip(n: nat)
    ensures HexNumber(Hex(n)) && ReadHex(Hex(n), 0) == n
  {
    if n < 16 {
      ReadHexAppend("", HexDigit(n), 0);
      assert "" + [HexDigit(n)] == [HexDigit(n)];
    } else {
      HexRoundTrip(n / 16);
      ReadHexAppend(Hex(n / 16), HexDigit(n % 16), 0);
    }
  }

  // ---------------------------------------------------------------- one chunk

  lemma SizeTurn(p: Parser, digits: string, extension: string, behind: string, cfg: Config)
    requires p.status == ExpectChunkLen && HexNumber(digits) && Extension(extension)
    ensures var n := ReadHex(digits, 0);
      OnChunkLength(p, digits + extension + CRLF + behind, cfg) ==
        if n == 0 then More(p.(chunkLength := 0, status := ExpectLastEmptyChunk), behind)
        else if n + p.contentLength > cfg.maxBody then Reject(Some(413))
        else More(p.(chunkLength := n, status := ExpectChunkBody), behind)
  {
    var line := digits + extension;
    SizeLine(digits, extension);
    LineEnd(line, behind);
    assert (line + CRLF + behind)[..|line|] == line;
    assert (line + CRLF + behind)[|line| + 2..] == behind;
  }

  lemma DataTurn(p: Parser, data: string, behind: string, cfg: Config)
    requires p.status == ExpectChunkBody && p.chunkLength == |data|
    ensures OnChunkBody(p, data + CRLF + behind, cfg) ==
      More(TakeBody(p, data, cfg).(
             contentLength := p.contentLength + |data|, chunkLength := 0, status := ExpectChunkLen), behind)
  {
    var buf := data + CRLF + behind;
    assert buf[..|data|] == data && buf[|data| + 2..] == behind;
    assert buf[|data|] == '\r' && buf[|data| + 1] == '\n';
  }

  /** The parser after a chunk that fits. */
  function After(p: Parser, data: string, cfg: Config): Parser {
    TakeBody(p, data, cfg).(contentLength := p.contentLength + |data|, chunkLength := 0, status := ExpectChunkLen)
  }

  lemma {:induction false} TakesChunk(p: Parser, c: Chunk, behind: string, cfg: Config)
    requires p.status == ExpectChunkLen && WellFormed(c)
    ensures Parse(p, ChunkText(c) + behind, cfg) ==
      if |c.data| + p.contentLength > cfg.maxBody then Reject(Some(413)) else Parse(After(p, c.data, cfg), behind, cfg)
  {
    var tail := c.data + CRLF + behind;
    var buf := c.digits + c.extension + CRLF + tail;
    assert ChunkText(c) + behind == buf;
    SizeTurn(p, c.digits, c.extension, tail, cfg);
    if |c.data| + p.contentLength <= cfg.maxBody {
      var q := p.(chunkLength := |c.data|, status := ExpectChunkBody);
      ParseGoesOn(p, buf, q, tail, cfg);
      DataTurn(q, c.data, behind, cfg);
      assert After(q, c.data, cfg) == After(p, c.data, cfg);
      ParseGoesOn(q, tail, After(p, c.data, cfg), behind, cfg);
    }
  }

  lemma {:induction false} LastLineTurn(q: Parser, rest: string)
    requires q.status == ExpectLastEmptyChunk
    ensures OnLastChunk(q, CRLF + rest) ==
      Leave(q.(status := GotAll, request := Unchunked(q.request), requests := q.requests + 1), rest)
  {
    LineEnd("", rest);
    assert CRLF + rest == "" + CRLF + rest;
    assert (CRLF + rest)[2..] == rest;
  }

  lemma LastText(last: Chunk, rest: string)
    requires last.data == ""
    ensures ChunkText(last) + rest == last.digits + last.extension + CRLF + (CRLF + rest)
  {
  }

  lemma {:induction false} LastSizeTurn(p: Parser, last: Chunk, rest: string, cfg: Config)
    requires p.status == ExpectChunkLen && EndsBody(last)
    ensures TakeTurn(p, ChunkText(last) + rest, cfg) ==
      More(p.(chunkLength := 0, status := ExpectLastEmptyChunk), CRLF + rest)
  {
    LastText(last, rest);
    SizeTurn(p, last.digits, last.extension, CRLF + rest, cfg);
  }

  lemma {:induction false} ParseLast(q: Parser, rest: string, cfg: Config)
    requires q.status == ExpectLastEmptyChunk
    ensures Parse(q, CRLF + rest, cfg) ==
      Leave(q.(status := GotAll, request := Unchunked(q.request), requests := q.requests + 1), rest)
  {
    LastLineTurn(q, rest);
  }

  lemma {:induction false} TakesLast(p: Parser, last: Chunk, rest: string, cfg: Config)
    requires p.status == ExpectChunkLen && EndsBody(last)
    ensures Parse(p, ChunkText(last) + rest, cfg) ==
      Leave(p.(chunkLength := 0, status := GotAll, request := Unchunked(p.request), requests := p.requests + 1), rest)
  {
    var q := p.(chunkLength := 0, status := ExpectLastEmptyChunk);
    LastSizeTurn(p, last, rest, cfg);
    ParseGoesOn(p, ChunkText(last) + rest, q, CRLF + rest, cfg);
    ParseLast(q, rest, cfg);
  }

  // ---------------------------------------------------------------- the body

  /** What a decoded request looks like: the body is the data, with its length in place of the encoding. */
  predicate Decoded(done: Parser, p: Parser, data: string, cfg: Config) {
    && done.status == GotAll && done.requests == p.requests + 1
    && Store.View(done.request.body) == data
    && Store.Within(done.request.body, cfg.maxMemory)
    && done.request.headers == p.request.headers["content-length" := Decimal(|data|)] - {"transfer-encoding"}
    && done.request == p.request.(body := done.request.body, headers := done.request.headers)
  }

  /**
   Chunks in any number and size, with any spelling of the sizes: the body is their concatenation and
   the bytes behind stay, or the body is over the limit and refused.
   */
  lemma {:induction false} ChunksDecode(p: Parser, chunks: seq<Chunk>, last: Chunk, rest: string, cfg: Config)
    requires p.status == ExpectChunkLen && Store.Within(p.request.body, cfg.maxMemory)
    requires p.contentLength == |Store.View(p.request.body)|
    requires p.contentLength <= cfg.maxBody
    requires AllWellFormed(chunks) && EndsBody(last)
    ensures var t, data := Parse(p, Encoded(chunks, last) + rest, cfg), Store.View(p.request.body) + Data(chunks);
      if |data| > cfg.maxBody then t == Reject(Some(413))
      else t.Leave? && t.rest == rest && Decoded(t.p, p, data, cfg)
    decreases |chunks|
  {
    if chunks == [] {
      TakesLast(p, last, rest, cfg);
      assert Store.View(p.request.body) + "" == Store.View(p.request.body);
    } else {
      var c, q := chunks[0], After(p, chunks[0].data, cfg);
      var behind := Encoded(chunks[1..], last) + rest;
      assert Encoded(chunks, last) + rest == ChunkText(c) + behind;
      TakesChunk(p, c, behind, cfg);
      ChunkAdds(p, c.data, Data(chunks[1..]), cfg);
      if |c.data| + p.contentLength <= cfg.maxBody {
        ChunksDecode(q, chunks[1..], last, rest, cfg);
      }
    }
  }

  lemma ChunkAdds(p: Parser, data: string, more: string, cfg: Config)
    requires Store.Within(p.request.body, cfg.maxMemory)
    requires p.contentLength == |Store.View(p.request.body)|
    ensures var q, all := After(p, data, cfg), Store.View(p.request.body) + (data + more);
      && q.status == ExpectChunkLen && Store.Within(q.request.body, cfg.maxMemory)
      && q.contentLength == |Store.View(q.request.body)| == |Store.View(p.request.body)| + |data|
      && Store.View(q.request.body) + more == all
      && forall done :: Decoded(done, q, all, cfg) ==> Decoded(done, p, all, cfg)
  {
    Store.AppendViews(p.request.body, data, cfg.maxMemory);
  }

  /** From the end of the header section of a request with chunked encoding. */
  lemma ChunkedRequest(p: Parser, chunks: seq<Chunk>, last: Chunk, rest: string, cfg: Config)
    requires p.status == ExpectHeaders && Sound(p) && Stored(p, cfg)
    requires HeaderBy(p.request, "content-length") == "" && HeaderBy(p.request, "transfer-encoding") == "chunked"
    requires Expectation(p.request) == ""
    requires AllWellFormed(chunks) && EndsBody(last)
    ensures var t := Parse(p, CRLF + Encoded(chunks, last) + rest, cfg);
      if |Data(chunks)| > cfg.maxBody then t == Reject(Some(413))
      else t.Leave? && t.rest == rest && Decoded(t.p, p, Data(chunks), cfg)
  {
    var behind := Encoded(chunks, last) + rest;
    var q := p.(status := ExpectChunkLen);
    HeadersEnd(p, behind, q, cfg);
    assert CRLF + Encoded(chunks, last) + rest == CRLF + behind;
    assert "" + Data(chunks) == Data(chunks);
    ChunksDecode(q, chunks, last, rest, cfg);
  }

  lemma HeadersEnd(p: Parser, behind: string, q: Parser, cfg: Config)
    requires p.status == ExpectHeaders && Sound(p) && q == p.(status := ExpectChunkLen)
    requires HeaderBy(p.request, "content-length") == "" && HeaderBy(p.request, "transfer-encoding") == "chunked"
    requires Expectation(p.request) == ""
    ensures Parse(p, CRLF + behind, cfg) == Parse(q, behind, cfg)
  {
    LineEnd("", behind);
    assert "" + CRLF + behind == CRLF + behind;
    assert (CRLF + behind)[..0] == "" && (CRLF + behind)[2..] == behind;
    assert Framing(p) == More(q, "");
    assert Admission(q, cfg) == More(q, "");
    assert ReserveBody(q, cfg) == q;
    assert OnHeader(p, CRLF + behind, cfg) == More(q, behind);
  }

  // ---------------------------------------------------------------- limits

  /** In every state the bytes received and those still announced stay within the body limit. */
  predicate Limited(p: Parser, cfg: Config) {
    var received := |Store.View(p.request.body)|;
    && received <= cfg.maxBody
    && (p.status == ExpectBody ==> received + p.contentLength <= cfg.maxBody)
    && (p.status in {ExpectChunkLen, ExpectChunkBody, ExpectLastEmptyChunk} ==> p.contentLength == received)
    && (p.status == ExpectChunkBody ==> p.contentLength + p.chunkLength <= cfg.maxBody)
  }

  lemma EmptyLineLimits(p: Parser, rest: string, cfg: Config)
    requires p.status == ExpectHeaders && Sound(p) && Stored(p, cfg) && !OnEmptyLine(p, rest, cfg).Reject?
    ensures Limited(OnEmptyLine(p, rest, cfg).p, cfg)
  {
  }

  lemma HeaderLimits(p: Parser, buf: string, cfg: Config)
    requires p.status == ExpectHeaders && Sound(p) && Stored(p, cfg) && Limited(p, cfg)
      && !OnHeader(p, buf, cfg).Reject?
    ensures Limited(OnHeader(p, buf, cfg).p, cfg)
  {
    if FindCrlf(buf).Some? {
      var crlf := FindCrlf(buf).value;
      if Find(buf[..crlf], ':') == crlf {
        EmptyLineLimits(p, buf[crlf + 2..], cfg);
      }
    }
  }

  lemma BodyLimits(p: Parser, buf: string, cfg: Config)
    requires p.status == ExpectBody && Stored(p, cfg) && Limited(p, cfg)
    ensures Limited(OnBody(p, buf, cfg).p, cfg)
  {
    Store.AppendViews(p.request.body, buf[..if p.contentLength >= |buf| then |buf| else p.contentLength],
      cfg.maxMemory);
  }

  lemma ChunkLimits(p: Parser, buf: string, cfg: Config)
    requires p.status == ExpectChunkBody && Stored(p, cfg) && Limited(p, cfg) && !OnChunkBody(p, buf, cfg).Reject?
    ensures Limited(OnChunkBody(p, buf, cfg).p, cfg)
  {
    if |buf| >= p.chunkLength {
      Store.AppendViews(p.request.body, buf[..p.chunkLength], cfg.maxMemory);
    }
  }

  lemma TurnLimits(p: Parser, buf: string, cfg: Config)
    requires Sound(p) && Stored(p, cfg) && Limited(p, cfg) && !TakeTurn(p, buf, cfg).Reject?
    ensures Limited(TakeTurn(p, buf, cfg).p, cfg)
  {
    match p.status
    case ExpectHeaders => HeaderLimits(p, buf, cfg);
    case ExpectBody => BodyLimits(p, buf, cfg);
    case ExpectChunkBody => ChunkLimits(p, buf, cfg);
    case _ =>
  }

  lemma {:induction false} ParseLimits(p: Parser, buf: string, cfg: Config)
    requires Sound(p) && Stored(p, cfg) && Limited(p, cfg) && Parse(p, buf, cfg).Leave?
    ensures Limited(Parse(p, buf, cfg).p, cfg) && Stored(Parse(p, buf, cfg).p, cfg)
    decreases |buf|
  {
    TurnLimits(p, buf, cfg);
    TurnStores(p, buf, cfg);
    var t := TakeTurn(p, buf, cfg);
    if t.More? {
      ParseLimits(t.p, t.rest, cfg);
    }
  }

  predicate Fits(r: Request, cfg: Config) {
    |Store.View(r.body)| <= cfg.maxBody && |r.body.content| <= cfg.maxMemory
  }

  predicate AllFit(rs: seq<Request>, cfg: Config) {
    forall i :: 0 <= i < |rs| ==> Fits(rs[i], cfg)
  }

  lemma {:induction false} FeedLimits(p: Parser, buf: string, cfg: Config)
    requires Sound(p) && Stored(p, cfg) && Limited(p, cfg)
    ensures var f := Feed(p, buf, cfg);
      AllFit(f.requests, cfg) && (f.session.Open? ==> Limited(f.session.p, cfg) && Stored(f.session.p, cfg))
    decreases |buf|
  {
    if buf != "" {
      ParseProgress(p, buf, cfg);
      var t := Parse(p, buf, cfg);
      if t.Leave? {
        ParseLimits(p, buf, cfg);
        if t.p.status == GotAll {
          FeedLimits(Reset(t.p), t.rest, cfg);
          assert Fits(t.p.request, cfg);
        }
      }
    }
  }

  lemma {:induction false} ReadsLimits(p: Parser, pending: string, pieces: seq<string>, cfg: Config)
    requires Sound(p) && Stored(p, cfg) && Limited(p, cfg)
    ensures var f := Reads(p, pending, pieces, cfg);
      AllFit(f.requests, cfg) && (f.session.Open? ==> Limited(f.session.p, cfg) && Stored(f.session.p, cfg))
    decreases |pieces|
  {
    if pieces != [] {
      FeedLimits(p, pending + pieces[0], cfg);
      FeedSound(p, pending + pieces[0], cfg);
      var s := Feed(p, pending + pieces[0], cfg).session;
      if s.Open? {
        ReadsLimits(s.p, s.pending, pieces[1..], cfg);
      }
    }
  }

  /** Whatever bytes arrive in whatever cuts, no request and no state holds more than the limits allow. */
  lemma LimitsHold(pieces: seq<string>, cfg: Config)
    ensures var f := Reads(START, "", pieces, cfg);
      AllFit(f.requests, cfg) && (f.session.Open? ==> Limited(f.session.p, cfg) && Stored(f.session.p, cfg))
  {
    ReadsLimits(START, "", pieces, cfg);
  }
}

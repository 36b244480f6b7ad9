/** What the server renders, the client's parser reads back. */
module ResponseRoundTrip {
  import opened Wrappers
  import opened Text
  import opened ResponseParser
  import opened ResponseRenderer
  import HttpRequest
  import Printer = RequestPrinter
  import Print = PrinterProofs
  import Seg = SegmentationProofs
  import Cuts = ResponseSegmentation

  // ---------------------------------------------------------------- what is expected

  predicate GoodName(s: string) {
    ':' !in s && '\r' !in s && Lower(s) == s && s != "set-cookie" && s != "content-length"
  }

  /** No line ends inside fields; the length is left to the framework. */
  predicate Renderable(o: Outgoing) {
    && '\r' !in o.message
    && Print.TypeLine(o.typeLine)
    && (o.server.Some? ==> Print.FieldValue(o.server.value))
    && (o.date.Some? ==> Print.FieldValue(o.date.value))
    && (forall k :: k in o.headers ==> GoodName(k) && Print.FieldValue(o.headers[k]))
    && (forall i :: 0 <= i < |o.cookies| ==> Print.FieldValue(o.cookies[i]))
  }

  function LengthField(o: Outgoing): Fields {
    map["content-length" := Decimal(|o.body|)]
  }

  function ConnectionField(o: Outgoing): Fields {
    if o.closes then map["connection" := "close"]
    else if o.version == HttpRequest.Http10 then map["connection" := "Keep-Alive"]
    else map[]
  }

  function TypeField(o: Outgoing): Fields
    requires Print.TypeLine(o.typeLine)
  {
    if o.typeLine == "" then map[] else map["content-type" := Print.LineValue(o.typeLine)]
  }

  function ServerField(o: Outgoing): Fields {
    if o.server.Some? then map["server" := o.server.value] else map[]
  }

  function DateField(o: Outgoing): Fields {
    if o.date.Some? then map["date" := o.date.value] else map[]
  }

  /** Later headers replace earlier ones: the response's own win over the framework's, except for the date. */
  function Expected(o: Outgoing, forHead: bool): Response
    requires Print.TypeLine(o.typeLine)
  {
    Response(
      o.code,
      if o.version == HttpRequest.Http11 then HttpRequest.Http11 else HttpRequest.Http10,
      LengthField(o) + ConnectionField(o) + TypeField(o) + ServerField(o) + o.headers + DateField(o),
      o.cookies,
      if forHead then "" else o.body)
  }

  // ---------------------------------------------------------------- lines

  lemma ParseGoesOn(p: Parser, buf: string, q: Parser, rest: string)
    requires p.status != GotAll && TakeTurn(p, buf) == More(q, rest)
    ensures q.status != GotAll && Parse(p, buf) == Parse(q, rest)
  {
  }

  function Put(r: Response, field: string, value: string): Response {
    if field == "set-cookie" then r.(cookies := r.cookies + [value]) else r.(headers := r.headers[field := value])
  }

  lemma FieldReads(r: Response, name: string, value: string)
    requires Print.Trimmed(value)
    ensures AddHeader(r, name, " " + value) == Put(r, Lower(name), value)
  {
    assert (" " + value)[1..] == value;
    assert TrimLeft(" " + value) == TrimLeft(value) == value;
    assert TrimRight(value) == value;
  }

  lemma LineParses(p: Parser, name: string, value: string, behind: string)
    requires p.status == ExpectHeaders && ':' !in name && '\r' !in name && Print.FieldValue(value)
    ensures Parse(p, Printer.HeaderLine(name, value) + behind) ==
      Parse(p.(response := Put(p.response, Lower(name), value)), behind)
  {
    var line := name + ": " + value;
    var buf := line + CRLF + behind;
    assert Printer.HeaderLine(name, value) + behind == buf;
    LineEnd(line, behind);
    assert buf[..|line|] == line && buf[|line| + 2..] == behind;
    FindIs(line, ':', |name|);
    assert line[..|name|] == name && line[|name| + 1..] == " " + value;
    FieldReads(p.response, name, value);
    ParseGoesOn(p, buf, p.(response := Put(p.response, Lower(name), value)), behind);
  }

  function WithHeaders(p: Parser, headers: Fields): Parser {
    p.(response := p.response.(headers := headers))
  }

  function WithCookies(p: Parser, cookies: seq<string>): Parser {
    p.(response := p.response.(cookies := cookies))
  }

  lemma {:induction false} PutIs(p: Parser, field: string, value: string)
    requires field != "set-cookie"
    ensures p.(response := Put(p.response, field, value)) == WithHeaders(p, p.response.headers + map[field := value])
  {
    assert p.response.headers + map[field := value] == p.response.headers[field := value];
  }

  lemma {:induction false} HeaderParses(p: Parser, name: string, field: string, value: string, behind: string)
    requires p.status == ExpectHeaders && field != "set-cookie" && Lower(name) == field
    requires ':' !in name && '\r' !in name && Print.FieldValue(value)
    ensures Parse(p, Printer.HeaderLine(name, value) + behind) ==
      Parse(WithHeaders(p, p.response.headers + map[field := value]), behind)
  {
    LineParses(p, name, value, behind);
    PutIs(p, field, value);
  }

  lemma NoLine(p: Parser, behind: string)
    ensures "" + behind == behind && WithHeaders(p, p.response.headers + map[]) == p
  {
    assert p.response.headers + map[] == p.response.headers;
  }

  function PutAll(headers: Fields, names: seq<string>, more: Fields): Fields
    requires forall k :: k in names ==> k in more
    decreases |names|
  {
    if names == [] then headers else PutAll(headers[names[0] := more[names[0]]], names[1..], more)
  }

  lemma {:induction false} HeaderLinesParse(p: Parser, names: seq<string>, headers: Fields, behind: string)
    requires p.status == ExpectHeaders && forall k :: k in names ==> k in headers
    requires forall k :: k in headers ==> GoodName(k) && Print.FieldValue(headers[k])
    ensures Parse(p, Printer.HeaderLines(names, headers) + behind) ==
      Parse(WithHeaders(p, PutAll(p.response.headers, names, headers)), behind)
    decreases |names|
  {
    if names == [] {
      assert Printer.HeaderLines(names, headers) + behind == behind;
    } else {
      var k, tail := names[0], Printer.HeaderLines(names[1..], headers) + behind;
      assert Printer.HeaderLines(names, headers) + behind == Printer.HeaderLine(k, headers[k]) + tail;
      LineParses(p, k, headers[k], tail);
      HeaderLinesParse(p.(response := Put(p.response, k, headers[k])), names[1..], headers, behind);
    }
  }

  lemma {:induction false} PutAllAdds(headers: Fields, names: seq<string>, more: Fields)
    requires forall k :: k in names ==> k in more
    ensures PutAll(headers, names, more).Keys == headers.Keys + (set k | k in names)
    ensures forall k :: k in PutAll(headers, names, more) ==>
      PutAll(headers, names, more)[k] == if k in names then more[k] else headers[k]
    decreases |names|
  {
    if names != [] {
      PutAllAdds(headers[names[0] := more[names[0]]], names[1..], more);
      assert (set k | k in names) == {names[0]} + (set k | k in names[1..]);
    }
  }

  lemma PutAllMerges(headers: Fields, names: seq<string>, more: Fields)
    requires Printer.Lists(names, more) && forall k :: k in names ==> k in more
    ensures PutAll(headers, names, more) == headers + more
  {
    PutAllAdds(headers, names, more);
    assert forall k :: k in names <==> k in (set k | k in names);
  }

  lemma CookieLineParses(p: Parser, cookie: string, behind: string)
    requires p.status == ExpectHeaders && Print.FieldValue(cookie)
    ensures Parse(p, Printer.HeaderLine("Set-Cookie", cookie) + behind) ==
      Parse(WithCookies(p, p.response.cookies + [cookie]), behind)
  {
    Print.LowerIs("Set-Cookie", "set-cookie");
    LineParses(p, "Set-Cookie", cookie, behind);
  }

  lemma CookiesNext(sofar: seq<string>, cookies: seq<string>, behind: string)
    requires cookies != []
    ensures sofar + [cookies[0]] + cookies[1..] == sofar + cookies
    ensures CookieLines(cookies) + behind ==
      Printer.HeaderLine("Set-Cookie", cookies[0]) + (CookieLines(cookies[1..]) + behind)
  {
  }

  lemma {:induction false} CookieLinesParse(p: Parser, cookies: seq<string>, behind: string)
    requires p.status == ExpectHeaders && forall i :: 0 <= i < |cookies| ==> Print.FieldValue(cookies[i])
    ensures Parse(p, CookieLines(cookies) + behind) == Parse(WithCookies(p, p.response.cookies + cookies), behind)
    decreases |cookies|
  {
    var sofar := p.response.cookies;
    if cookies == [] {
      assert CookieLines(cookies) + behind == behind && sofar + [] == sofar;
    } else {
      CookiesNext(sofar, cookies, behind);
      CookieLineParses(p, cookies[0], CookieLines(cookies[1..]) + behind);
      var q := WithCookies(p, sofar + [cookies[0]]);
      CookieLinesParse(q, cookies[1..], behind);
      assert WithCookies(q, sofar + cookies) == WithCookies(p, sofar + cookies);
    }
  }

  // ---------------------------------------------------------------- the status line

  function Greeted(o: Outgoing): Response {
    BLANK.(version := if o.version == HttpRequest.Http11 then HttpRequest.Http11 else HttpRequest.Http10,
           code := o.code)
  }

  lemma StatusLineReads(o: Outgoing)
    ensures ParseLine(BLANK, StatusLine(o)) == Some(Greeted(o))
  {
    var v, code := if o.version == HttpRequest.Http11 then "HTTP/1.1" else "HTTP/1.0", Decimal(o.code);
    var line := v + " " + (code + " " + o.message);
    assert StatusLine(o) == line;
    FindIs(line, ' ', 8);
    assert line[7] == v[7] && line[9..] == code + " " + o.message;
    FindIs(line[9..], ' ', |code|);
    assert line[9..][..|code|] == code;
    DecimalRoundTrip(o.code);
  }

  lemma StatusLineParses(p: Parser, o: Outgoing, behind: string)
    requires p.status == ExpectLine && p.response == BLANK && '\r' !in o.message
    ensures Parse(p, StatusLine(o) + CRLF + behind) ==
      Parse(p.(response := Greeted(o), status := ExpectHeaders), behind)
  {
    var line := StatusLine(o);
    var buf := line + CRLF + behind;
    Print.DecimalIsValue(o.code);
    LineEnd(line, behind);
    assert buf[..|line|] == line && buf[|line| + 2..] == behind;
    StatusLineReads(o);
    ParseGoesOn(p, buf, p.(response := Greeted(o), status := ExpectHeaders), behind);
  }

  // ---------------------------------------------------------------- all headers

  lemma AutoLower()
    ensures Lower("Content-Length") == "content-length" && Lower("Connection") == "connection"
    ensures Lower("Content-Type") == "content-type" && Lower("Server") == "server" && Lower("Date") == "date"
  {
    Print.LowerIs("Content-Length", "content-length");
    Print.LowerIs("Connection", "connection");
    Print.LowerIs("Content-Type", "content-type");
    Print.LowerIs("Server", "server");
    Print.LowerIs("Date", "date");
  }

  lemma LengthParses(p: Parser, o: Outgoing, behind: string)
    requires p.status == ExpectHeaders && p.response.headers == map[]
    ensures Parse(p, Printer.HeaderLine("Content-Length", Decimal(|o.body|)) + behind) ==
      Parse(WithHeaders(p, LengthField(o)), behind)
  {
    AutoLower();
    Print.DecimalIsValue(|o.body|);
    LineParses(p, "Content-Length", Decimal(|o.body|), behind);
  }

  lemma ConnectionParses(p: Parser, o: Outgoing, behind: string)
    requires p.status == ExpectHeaders
    ensures Parse(p, ConnectionLine(o) + behind) ==
      Parse(WithHeaders(p, p.response.headers + ConnectionField(o)), behind)
  {
    AutoLower();
    if o.closes {
      HeaderParses(p, "Connection", "connection", "close", behind);
    } else if o.version == HttpRequest.Http10 {
      HeaderParses(p, "Connection", "connection", "Keep-Alive", behind);
    } else {
      NoLine(p, behind);
    }
  }

  lemma ServerParses(p: Parser, o: Outgoing, behind: string)
    requires p.status == ExpectHeaders && Renderable(o)
    ensures Parse(p, ServerLine(o) + behind) == Parse(WithHeaders(p, p.response.headers + ServerField(o)), behind)
  {
    AutoLower();
    if o.server.Some? {
      HeaderParses(p, "Server", "server", o.server.value, behind);
    } else {
      NoLine(p, behind);
    }
  }

  /** The lines that the framework adds in front. */
  lemma AutoParses(p: Parser, o: Outgoing, behind: string)
    requires p.status == ExpectHeaders && p.response.headers == map[] && Renderable(o)
    ensures Parse(p, Printer.HeaderLine("Content-Length", Decimal(|o.body|)) +
      (ConnectionLine(o) + (o.typeLine + (ServerLine(o) + behind)))) ==
      Parse(WithHeaders(p, LengthField(o) + ConnectionField(o) + TypeField(o) + ServerField(o)), behind)
  {
    var t3 := ServerLine(o) + behind;
    var t2 := o.typeLine + t3;
    var p1 := WithHeaders(p, LengthField(o));
    var p2 := WithHeaders(p, LengthField(o) + ConnectionField(o));
    var p3 := WithHeaders(p, LengthField(o) + ConnectionField(o) + TypeField(o));
    LengthParses(p, o, ConnectionLine(o) + t2);
    ConnectionParses(p1, o, t2);
    TypeLineParses(p2, o, t3);
    ServerParses(p3, o, behind);
  }

  lemma TypeLineParses(p: Parser, o: Outgoing, behind: string)
    requires p.status == ExpectHeaders && Print.TypeLine(o.typeLine)
    ensures Parse(p, o.typeLine + behind) == Parse(WithHeaders(p, p.response.headers + TypeField(o)), behind)
  {
    AutoLower();
    if o.typeLine == "" {
      NoLine(p, behind);
    } else {
      var value := Print.LineValue(o.typeLine);
      assert o.typeLine == Printer.HeaderLine("Content-Type", value);
      HeaderParses(p, "Content-Type", "content-type", value, behind);
    }
  }

  lemma DateParses(p: Parser, o: Outgoing, behind: string)
    requires p.status == ExpectHeaders && Renderable(o)
    ensures Parse(p, DateLine(o) + behind) == Parse(WithHeaders(p, p.response.headers + DateField(o)), behind)
  {
    AutoLower();
    if o.date.Some? {
      HeaderParses(p, "Date", "date", o.date.value, behind);
    } else {
      NoLine(p, behind);
    }
  }

  lemma Chunks(a: string, b: string, c: string, d: string, e: string, f: string, g: string, h: string, behind: string)
    ensures a + CRLF + (b + (c + (d + (e + f)))) + g + h + CRLF + behind ==
      a + CRLF + (b + (c + (d + (e + (f + (g + (h + (CRLF + behind))))))))
  {
  }

  /** The head of a rendered response leads to its expected headers, before the blank line. */
  lemma HeadParses(p: Parser, o: Outgoing, names: seq<string>, behind: string)
    requires p.status == ExpectLine && p.response == BLANK && Renderable(o) && Printer.Lists(names, o.headers)
    requires forall k :: k in names ==> k in o.headers
    ensures Parse(p, Head(o, names) + behind) ==
      Parse(p.(response := Expected(o, true), status := ExpectHeaders), CRLF + behind)
  {
    var length := Printer.HeaderLine("Content-Length", Decimal(|o.body|));
    var t3 := DateLine(o) + (CRLF + behind);
    var t2 := CookieLines(o.cookies) + t3;
    var t1 := Printer.HeaderLines(names, o.headers) + t2;
    Chunks(StatusLine(o), length, ConnectionLine(o), o.typeLine, ServerLine(o), Printer.HeaderLines(names, o.headers),
           CookieLines(o.cookies), DateLine(o), behind);
    StatusLineParses(p, o, length + (ConnectionLine(o) + (o.typeLine + (ServerLine(o) + t1))));
    var p1 := p.(response := Greeted(o), status := ExpectHeaders);
    AutoParses(p1, o, t1);
    var h := LengthField(o) + ConnectionField(o) + TypeField(o) + ServerField(o);
    HeaderLinesParse(WithHeaders(p1, h), names, o.headers, t2);
    PutAllMerges(h, names, o.headers);
    CookieLinesParse(WithHeaders(p1, h + o.headers), o.cookies, t3);
    assert [] + o.cookies == o.cookies;
    DateParses(WithCookies(WithHeaders(p1, h + o.headers), o.cookies), o, CRLF + behind);
  }

  // ---------------------------------------------------------------- the end

  lemma BlankLine(p: Parser, behind: string)
    requires p.status == ExpectHeaders
    ensures OnHeader(p, CRLF + behind) == OnEmptyLine(p, behind)
  {
    LineEnd("", behind);
    assert "" + CRLF + behind == CRLF + behind;
    assert (CRLF + behind)[..0] == "" && (CRLF + behind)[2..] == behind;
  }

  lemma LengthIsLength(o: Outgoing)
    requires Renderable(o)
    ensures HeaderBy(Expected(o, true), "content-length") == Decimal(|o.body|) != ""
    ensures Atoi(Decimal(|o.body|)) == |o.body|
  {
    DecimalRoundTrip(|o.body|);
    var k := "content-length";
    assert k !in o.headers by {
      assert !GoodName(k);
    }
    assert k !in ConnectionField(o) && k !in TypeField(o) && k !in ServerField(o) && k !in DateField(o);
  }

  lemma BodyTaken(p: Parser, body: string, rest: string)
    requires p.status == ExpectBody && p.left == |body| && p.response.body == ""
    ensures TakeTurn(p, body + rest) ==
      Leave(p.(status := GotAll, left := 0, response := p.response.(body := body)), rest)
  {
    var buf := body + rest;
    assert buf[..|body|] == body && buf[|body|..] == rest && "" + body == body;
    assert |buf| == |body| ==> rest == "";
  }

  /**
   Parsing a rendered response recovers it and leaves exactly the bytes behind it; for a HEAD request
   only the head was sent, and only that is taken.
   */
  lemma RenderedParses(p: Parser, o: Outgoing, names: seq<string>, forHead: bool, rest: string)
    requires p == START.(forHead := forHead) && Renderable(o) && Printer.Lists(names, o.headers)
    requires forall k :: k in names ==> k in o.headers
    ensures var t := Parse(p, Render(o, names, forHead) + rest);
      t.Leave? && t.rest == rest && t.p.status == GotAll && t.p.response == Expected(o, forHead)
  {
    var q := p.(response := Expected(o, true), status := ExpectHeaders);
    LengthIsLength(o);
    if forHead {
      HeadParses(p, o, names, rest);
      BlankLine(q, rest);
    } else {
      assert Head(o, names) + o.body + rest == Head(o, names) + (o.body + rest);
      HeadParses(p, o, names, o.body + rest);
      BlankLine(q, o.body + rest);
      var b := q.(left := |o.body|, status := ExpectBody);
      ParseGoesOn(q, CRLF + (o.body + rest), b, o.body + rest);
      BodyTaken(b, o.body, rest);
    }
  }

  // ---------------------------------------------------------------- many responses on one connection

  datatype Sent = Sent(o: Outgoing, names: seq<string>, forHead: bool)

  predicate Sendable(s: Sent) {
    Renderable(s.o) && Printer.Lists(s.names, s.o.headers) && forall k :: k in s.names ==> k in s.o.headers
  }

  predicate AllSendable(ss: seq<Sent>) {
    forall i :: 0 <= i < |ss| ==> Sendable(ss[i])
  }

  function RenderAll(ss: seq<Sent>): string
    requires AllSendable(ss)
  {
    if ss == [] then "" else Render(ss[0].o, ss[0].names, ss[0].forHead) + RenderAll(ss[1..])
  }

  function ExpectedAll(ss: seq<Sent>): seq<Response>
    requires AllSendable(ss)
  {
    if ss == [] then [] else [Expected(ss[0].o, ss[0].forHead)] + ExpectedAll(ss[1..])
  }

  /** The client knows which of its requests were HEAD requests. */
  predicate Matches(heads: Heads, count: nat, ss: seq<Sent>) {
    forall i :: 0 <= i < |ss| ==> heads(count + i) == ss[i].forHead
  }

  lemma NotEmpty(s: Sent)
    requires Sendable(s)
    ensures Render(s.o, s.names, s.forHead) != ""
  {
  }

  lemma MatchesNext(heads: Heads, count: nat, ss: seq<Sent>)
    requires ss != [] && Matches(heads, count, ss)
    ensures heads(count) == ss[0].forHead && Matches(heads, count + 1, ss[1..])
  {
    assert heads(count + 0) == ss[0].forHead;
    forall i | 0 <= i < |ss[1..]| ensures heads(count + 1 + i) == ss[1..][i].forHead {
      assert heads(count + (i + 1)) == ss[i + 1].forHead;
    }
  }

  lemma FeedOne(s: Sent, count: nat, heads: Heads, behind: string)
    requires Sendable(s) && heads(count) == s.forHead
    ensures var g := Feed(START, behind, count + 1, heads);
      Feed(START, Render(s.o, s.names, s.forHead) + behind, count, heads) ==
        Fed([Expected(s.o, s.forHead)] + g.responses, g.session)
  {
    NotEmpty(s);
    RenderedParses(START.(forHead := s.forHead), s.o, s.names, s.forHead, behind);
    assert Marked(START, s.forHead) == START.(forHead := s.forHead);
  }

  lemma FeedNone(count: nat, heads: Heads)
    ensures Feed(START, "", count, heads) == Fed([], Open(START, "", count))
  {
  }

  /** The outcome when all responses were read. */
  function AllRead(ss: seq<Sent>, count: nat): Fed
    requires AllSendable(ss)
  {
    Fed(ExpectedAll(ss), Open(START, "", count + |ss|))
  }

  lemma {:induction false} RenderedFeed(ss: seq<Sent>, count: nat, heads: Heads, text: string)
    requires AllSendable(ss) && Matches(heads, count, ss) && text == RenderAll(ss)
    ensures Feed(START, text, count, heads) == AllRead(ss, count)
    decreases |ss|
  {
    if ss == [] {
      FeedNone(count, heads);
    } else {
      MatchesNext(heads, count, ss);
      FeedOne(ss[0], count, heads, RenderAll(ss[1..]));
      RenderedFeed(ss[1..], count + 1, heads, RenderAll(ss[1..]));
      AllReadNext(ss, count);
    }
  }

  lemma AllReadNext(ss: seq<Sent>, count: nat)
    requires AllSendable(ss) && ss != []
    ensures var g := AllRead(ss[1..], count + 1);
      AllRead(ss, count) == Fed([Expected(ss[0].o, ss[0].forHead)] + g.responses, g.session)
  {
  }

  /**
   However the connection cuts the stream: the responses read are the responses sent, in order, and
   nothing is left.
   */
  lemma {:induction false} RenderedStream(ss: seq<Sent>, pieces: seq<string>, heads: Heads)
    requires AllSendable(ss) && Matches(heads, 0, ss) && Seg.Joined(pieces) == RenderAll(ss)
    ensures Reads(START, "", 0, pieces, heads) == Fed(ExpectedAll(ss), Open(START, "", |ss|))
  {
    RenderedFeed(ss, 0, heads, Seg.Joined(pieces));
    Cuts.ResponsesSurviveCuts(pieces, heads);
  }
}

/**
 What the request parser refuses and with which status, said of the bytes: methods, request lines, overlong
 lines, lengths and encodings, expectations.
 */
module Refusals {
  import opened Wrappers
  import opened Text
  import opened HttpRequest
  import opened RequestParser
  import opened SegmentationProofs
  import opened PrinterProofs
  import Store = BodyStore

  // ---------------------------------------------------------------- the method

  const METHODS := ["GET", "POST", "HEAD", "PUT", "DELETE", "OPTIONS", "PATCH"]
  const VERBS := [Get, Post, Head, Put, Delete, Options, Patch]

  lemma {:induction false} MethodTable(i: nat)
    requires i < 7
    ensures MethodOf(METHODS[i]) == VERBS[i]
  {
    MethodInverts(METHODS[i], VERBS[i]);
  }

  lemma {:induction false} OtherMethods(token: string)
    ensures MethodOf(token) == Invalid <==> token !in METHODS
  {
    NamesAreMethods(token);
    if token in METHODS {
      var i :| 0 <= i < 7 && METHODS[i] == token;
      MethodTable(i);
    } else {
      forall m: Method | m != Invalid ensures MethodName(m) != token {
        match m
        case Get => assert METHODS[0] == "GET";
        case Post => assert METHODS[1] == "POST";
        case Head => assert METHODS[2] == "HEAD";
        case Put => assert METHODS[3] == "PUT";
        case Delete => assert METHODS[4] == "DELETE";
        case Options => assert METHODS[5] == "OPTIONS";
        case Patch => assert METHODS[6] == "PATCH";
        case Invalid =>
      }
    }
  }

  /** A first word that is none of the seven methods is answered 405; one of them is taken. */
  lemma {:induction false} MethodRead(p: Parser, token: string, rest: string, cfg: Config)
    requires p.status == ExpectMethod && ' ' !in token
    ensures token !in METHODS ==> Parse(p, token + " " + rest, cfg) == Reject(Some(405))
    ensures forall i :: 0 <= i < 7 && METHODS[i] == token ==>
      Parse(p, token + " " + rest, cfg) ==
        Parse(p.(request := p.request.(verb := VERBS[i]), status := ExpectRequestLine), rest, cfg)
  {
    var buf := token + " " + rest;
    FindIs(buf, ' ', |token|);
    assert buf[..|token|] == token && buf[|token| + 1..] == rest;
    OtherMethods(token);
    forall i | 0 <= i < 7 && METHODS[i] == token ensures MethodOf(token) == VERBS[i] {
      MethodTable(i);
    }
    if token in METHODS {
      var q := p.(request := p.request.(verb := MethodOf(token)), status := ExpectRequestLine);
      ParseGoesOn(p, buf, q, rest, cfg);
    }
  }

  /** Up to six bytes without a blank wait for more, and seven are answered 400. */
  lemma {:induction false} NoMethodYet(p: Parser, buf: string, cfg: Config)
    requires p.status == ExpectMethod && ' ' !in buf
    ensures Parse(p, buf, cfg) == if |buf| < 7 then Leave(p, buf) else Reject(Some(400))
  {
    FindIs(buf, ' ', |buf|);
  }

  // ---------------------------------------------------------------- the request line

  const VERSIONS := ["HTTP/1.0", "HTTP/1.1"]

  /** One blank, and behind it one of the two versions. */
  predicate RequestLine(line: string) {
    |line| >= 9 && line[|line| - 9] == ' ' && line[|line| - 8..] in VERSIONS && ' ' !in line[..|line| - 9]
  }

  lemma {:induction false} LineIs(r: Request, line: string)
    ensures ParseRequestLine(r, line).Some? <==> RequestLine(line)
    ensures RequestLine(line) ==>
      ParseRequestLine(r, line).value.version == if line[|line| - 1] == '0' then Http10 else Http11
  {
    var space := Find(line, ' ');
    if RequestLine(line) {
      FindIs(line, ' ', |line| - 9);
      assert line[space + 1..] == line[|line| - 8..];
    }
    if space < |line| && (line[space + 1..] == "HTTP/1.1" || line[space + 1..] == "HTTP/1.0") {
      assert |line[space + 1..]| == 8 && space == |line| - 9;
      assert line[|line| - 8..] == line[space + 1..] && line[space + 1..] in VERSIONS;
      assert forall j :: 0 <= j < space ==> line[..space][j] == line[j];
    }
  }

  ghost predicate GoesOn(p: Parser, line: string, rest: string, cfg: Config)
    requires p.status == ExpectRequestLine
  {
    exists r: Request ::
      && ParseRequestLine(p.request, line) == Some(r)
      && Parse(p, line + CRLF + rest, cfg) == Parse(p.(request := r, status := ExpectHeaders), rest, cfg)
  }

  /** Exactly the lines of another shape are answered 400. */
  lemma {:induction false} RequestLineRead(p: Parser, line: string, rest: string, cfg: Config)
    requires p.status == ExpectRequestLine && '\r' !in line
    ensures RequestLine(line) ==> GoesOn(p, line, rest, cfg)
    ensures !RequestLine(line) ==> Parse(p, line + CRLF + rest, cfg) == Reject(Some(400))
  {
    var buf := line + CRLF + rest;
    LineEnd(line, rest);
    assert buf[..|line|] == line && buf[|line| + 2..] == rest;
    LineIs(p.request, line);
    if RequestLine(line) {
      var r := ParseRequestLine(p.request, line).value;
      ParseGoesOn(p, buf, p.(request := r, status := ExpectHeaders), rest, cfg);
    }
  }

  // ---------------------------------------------------------------- lines without end

  predicate NoLineEnd(buf: string) {
    forall i :: 0 <= i && i + 1 < |buf| ==> !(buf[i] == '\r' && buf[i + 1] == '\n')
  }

  /** A line waits for its end until 65536 bytes are there: then 414 for a request line, 400 for a header. */
  lemma {:induction false} EndlessLine(p: Parser, buf: string, cfg: Config)
    requires p.status == ExpectRequestLine || p.status == ExpectHeaders
    requires NoLineEnd(buf)
    ensures Parse(p, buf, cfg) ==
      if |buf| < 65536 then Leave(p, buf)
      else if p.status == ExpectRequestLine then Reject(Some(414))
      else Reject(Some(400))
  {
    assert FindCrlf(buf).Some? ==> CrlfHere(buf, FindCrlf(buf).value);
  }

  // ---------------------------------------------------------------- the end of the headers

  predicate AtBlankLine(p: Parser) {
    p.status == ExpectHeaders && p.contentLength == 0
  }

  lemma {:induction false} BlankLineRefused(p: Parser, rest: string, code: Option<nat>, cfg: Config)
    requires p.status == ExpectHeaders && OnEmptyLine(p, rest, cfg) == Reject(code)
    ensures Parse(p, CRLF + rest, cfg) == Reject(code)
  {
    BlankLineTurn(p, rest, cfg);
  }

  /** A length that does not begin with a digit, blanks apart, ends the connection without an answer. */
  lemma {:induction false} MalformedLength(p: Parser, blanks: string, c: char, text: string, rest: string, cfg: Config)
    requires AtBlankLine(p) && HeaderBy(p.request, "content-length") == blanks + [c] + text
    requires (forall i :: 0 <= i < |blanks| ==> IsSpace(blanks[i])) && !IsSpace(c) && !('0' <= c <= '9')
    ensures Parse(p, CRLF + rest, cfg) == Reject(None)
  {
    BlanksTrimmed(blanks, [c] + text);
    assert blanks + [c] + text == blanks + ([c] + text);
    BlankLineRefused(p, rest, None, cfg);
  }

  /** Without a length, an encoding other than chunked is answered 501, whatever is expected. */
  lemma {:induction false} OtherEncoding(p: Parser, rest: string, cfg: Config)
    requires AtBlankLine(p) && HeaderBy(p.request, "content-length") == ""
    requires HeaderBy(p.request, "transfer-encoding") !in ["", "chunked"]
    ensures Parse(p, CRLF + rest, cfg) == Reject(Some(501))
  {
    assert HeaderBy(p.request, "transfer-encoding") != "" && HeaderBy(p.request, "transfer-encoding") != "chunked" by {
      assert "" in ["", "chunked"] && "chunked" in ["", "chunked"];
    }
    BlankLineRefused(p, rest, Some(501), cfg);
  }

  /** How long the request says its body is: chunked and missing bodies say nothing. */
  predicate Announces(r: Request, n: nat) {
    || (HeaderBy(r, "content-length") == Decimal(n))
    || (n == 0 && HeaderBy(r, "content-length") == "" && HeaderBy(r, "transfer-encoding") in ["", "chunked"])
  }

  predicate Continues(r: Request) {
    r.version == Http11 && r.expectation == Some("100-continue")
  }

  predicate ExpectsNothing(r: Request) {
    r.expectation in [None, Some("")]
  }

  lemma {:induction false} FramingIs(p: Parser, n: nat)
    requires AtBlankLine(p) && Announces(p.request, n)
    ensures var f := Framing(p);
      && !f.Reject? && f.p.request == p.request && f.p.contentLength == n && f.p.interim == p.interim
      && (n > 0 ==> f == More(p.(contentLength := n, status := ExpectBody), ""))
  {
    DecimalRoundTrip(n);
    assert HeaderBy(p.request, "transfer-encoding") in ["", "chunked"] ==>
      HeaderBy(p.request, "transfer-encoding") == "" || HeaderBy(p.request, "transfer-encoding") == "chunked";
  }

  lemma {:induction false} AdmissionRefuses(p: Parser, rest: string, n: nat, code: nat, cfg: Config)
    requires AtBlankLine(p) && Announces(p.request, n)
    requires Admission(Framing(p).p, cfg) == Reject(Some(code))
    ensures Parse(p, CRLF + rest, cfg) == Reject(Some(code))
  {
    FramingIs(p, n);
    BlankLineRefused(p, rest, Some(code), cfg);
  }

  /** Any expectation but 100-continue, and that one of HTTP/1.0, is answered 417. */
  lemma {:induction false} OtherExpectation(p: Parser, n: nat, rest: string, cfg: Config)
    requires AtBlankLine(p) && Announces(p.request, n)
    requires !ExpectsNothing(p.request) && !Continues(p.request)
    ensures Parse(p, CRLF + rest, cfg) == Reject(Some(417))
  {
    FramingIs(p, n);
    assert None in [None, Some("")] && Some("") in [None, Some("")];
    AdmissionRefuses(p, rest, n, 417, cfg);
  }

  /** To go on with no announced body, chunks included, is answered 400. */
  lemma {:induction false} NothingToContinue(p: Parser, rest: string, cfg: Config)
    requires AtBlankLine(p) && Announces(p.request, 0) && Continues(p.request)
    ensures Parse(p, CRLF + rest, cfg) == Reject(Some(400))
  {
    FramingIs(p, 0);
    AdmissionRefuses(p, rest, 0, 400, cfg);
  }

  /** A body announced over the limit is answered 413. */
  lemma {:induction false} BodyTooLong(p: Parser, n: nat, rest: string, cfg: Config)
    requires AtBlankLine(p) && Announces(p.request, n) && ExpectsNothing(p.request) && n > cfg.maxBody
    ensures Parse(p, CRLF + rest, cfg) == Reject(Some(413))
  {
    FramingIs(p, n);
    ExpectsNothingIs(p.request);
    AdmissionRefuses(p, rest, n, 413, cfg);
  }

  lemma {:induction false} ExpectsNothingIs(r: Request)
    ensures ExpectsNothing(r) <==> Expectation(r) == ""
  {
    if ExpectsNothing(r) {
      assert r.expectation == None || r.expectation == Some("");
    } else {
      assert None in [None, Some("")] && Some("") in [None, Some("")];
    }
  }

  /**
   To go on with a body over the limit: 413 is written, but the connection stays, and what follows is read
   as the next request.
   */
  lemma {:induction false} ContinueTooLong(p: Parser, n: nat, rest: string, cfg: Config)
    requires AtBlankLine(p) && Announces(p.request, n) && Continues(p.request) && n > cfg.maxBody
    ensures Parse(p, CRLF + rest, cfg) == Parse(
      p.(status := ExpectMethod, request := BLANK, interim := p.interim + [413]), rest, cfg)
  {
    FramingIs(p, n);
    var p1 := p.(contentLength := n, status := ExpectBody);
    var q := p.(status := ExpectMethod, request := BLANK, interim := p.interim + [413]);
    assert Admission(p1, cfg) == More(q, "");
    NothingReserved(q, cfg);
    BlankLineTurn(p, rest, cfg);
    ParseGoesOn(p, CRLF + rest, q, rest, cfg);
  }

  lemma {:induction false} NothingReserved(q: Parser, cfg: Config)
    requires q.contentLength == 0 && q.request == BLANK
    ensures ReserveBody(q, cfg) == q
  {
  }

  /** With a body within the limit 100 is written, and the body is read. */
  lemma {:induction false} ContinueSent(p: Parser, body: string, rest: string, cfg: Config)
    requires AtBlankLine(p) && Announces(p.request, |body|) && Continues(p.request) && 0 < |body| <= cfg.maxBody
    requires p.request.body == Store.EMPTY
    ensures var t := Parse(p, CRLF + body + rest, cfg);
      && t.Leave? && t.rest == rest && TookBody(t.p, p.(interim := p.interim + [100]), body, cfg)
  {
    FramingIs(p, |body|);
    var p1 := p.(contentLength := |body|, status := ExpectBody, interim := p.interim + [100]);
    assert Admission(p.(contentLength := |body|, status := ExpectBody), cfg) == More(p1, "");
    var q := ReserveBody(p1, cfg);
    Reserved(p1, cfg);
    assert CRLF + body + rest == CRLF + (body + rest);
    BlankLineTurn(p, body + rest, cfg);
    ParseGoesOn(p, CRLF + (body + rest), q, body + rest, cfg);
    WholeBodyTurn(q, body, rest, cfg);
  }
}

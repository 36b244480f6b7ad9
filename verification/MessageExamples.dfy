/** Whole messages byte for byte: what a request and a response look like on the wire. */
module MessageExamples {
  import opened Wrappers
  import opened Text
  import opened HttpRequest
  import opened RequestPrinter
  import Renderer = ResponseRenderer
  import Url = UrlCodec
  import Form = FormParameters

  lemma {:induction false} DecimalOf(a: nat, b: nat)
    requires 0 < a < 10 && b < 10
    ensures Decimal(a) == [DIGITS[a]] && Decimal(10 * a + b) == [DIGITS[a], DIGITS[b]]
  {
    assert DIGITS[a] == ('0' as int + a) as char && DIGITS[b] == ('0' as int + b) as char;
  }

  lemma {:induction false} Hundreds(a: nat, b: nat, c: nat)
    requires 0 < a < 10 && b < 10 && c < 10
    ensures Decimal(100 * a + 10 * b + c) == [DIGITS[a], DIGITS[b], DIGITS[c]]
  {
    DecimalOf(a, b);
    var n := 100 * a + 10 * b + c;
    assert n / 10 == 10 * a + b && n % 10 == c;
    assert DIGITS[c] == ('0' as int + c) as char;
  }

  // ---------------------------------------------------------------- a response

  const PAGE := Renderer.Outgoing(Http11, 200, "OK", true, "Content-Type: text/plain\r\n", Some("drogon"),
    map["x-id" := "7"], ["a=b"], Some("now"), "hello")

  lemma {:induction false} Lines(a: string, b: string)
    ensures HeaderLine(a, b) == a + ": " + b + "\r\n"
  {
  }

  lemma {:induction false} PageLines()
    ensures Renderer.StatusLine(PAGE) + CRLF == "HTTP/1.1 200 OK\r\n"
    ensures HeaderLine("Content-Length", Decimal(|PAGE.body|)) == "Content-Length: 5\r\n"
    ensures Renderer.ConnectionLine(PAGE) == "Connection: close\r\n"
    ensures Renderer.ServerLine(PAGE) == "Server: drogon\r\n"
    ensures Renderer.DateLine(PAGE) + CRLF == "Date: now\r\n\r\n"
  {
    Hundreds(2, 0, 0);
    assert DIGITS[2] == '2' && DIGITS[0] == '0';
    DecimalOf(5, 0);
  }

  lemma {:induction false} PageFields()
    ensures HeaderLines(["x-id"], PAGE.headers) == "x-id: 7\r\n"
    ensures Renderer.CookieLines(PAGE.cookies) == "Set-Cookie: a=b\r\n"
  {
    assert ["x-id"][1..] == [] && PAGE.cookies[1..] == [];
    assert HeaderLines(["x-id"], PAGE.headers) == HeaderLine("x-id", "7") + "";
    assert Renderer.CookieLines(PAGE.cookies) == HeaderLine("Set-Cookie", "a=b") + "";
  }

  lemma {:induction false} PageHead(names: seq<string>, a: string, b: string, c: string, d: string, e: string,
                                    f: string)
    requires forall k :: k in names ==> k in PAGE.headers
    requires Renderer.StatusLine(PAGE) + CRLF == a && HeaderLine("Content-Length", Decimal(|PAGE.body|)) == b
    requires Renderer.ConnectionLine(PAGE) == c && PAGE.typeLine == d && Renderer.ServerLine(PAGE) == e
    requires HeaderLines(names, PAGE.headers) == f
    ensures Renderer.HeaderString(PAGE, names) == a + (b + (c + (d + (e + f))))
  {
  }

  lemma {:induction false} Flat(a: string, b: string, c: string, d: string, e: string, f: string, g: string, h: string,
                               x: string, date: string)
    requires date + "\r\n" == h
    ensures (((a + (b + (c + (d + (e + f))))) + g) + date + "\r\n") + x == a + b + c + d + e + f + g + h + x
  {
  }

  /** A response with everything, in the order that the framework writes it. */
  lemma {:induction false} ResponseExample()
    ensures Renderer.Render(PAGE, ["x-id"], false) ==
      "HTTP/1.1 200 OK\r\n" + "Content-Length: 5\r\n" + "Connection: close\r\n" + "Content-Type: text/plain\r\n" +
      "Server: drogon\r\n" + "x-id: 7\r\n" + "Set-Cookie: a=b\r\n" + "Date: now\r\n\r\n" + "hello"
  {
    PageLines();
    PageFields();
    PageHead(["x-id"], "HTTP/1.1 200 OK\r\n", "Content-Length: 5\r\n", "Connection: close\r\n",
      "Content-Type: text/plain\r\n", "Server: drogon\r\n", "x-id: 7\r\n");
    Flat("HTTP/1.1 200 OK\r\n", "Content-Length: 5\r\n", "Connection: close\r\n", "Content-Type: text/plain\r\n",
      "Server: drogon\r\n", "x-id: 7\r\n", "Set-Cookie: a=b\r\n", "Date: now\r\n\r\n", "hello",
      Renderer.DateLine(PAGE));
  }

  // ---------------------------------------------------------------- requests

  const PARAMETERS: Form.Parameters := map["k" := "v w"]

  const QUERY := Message(Get, Http11, "/a", PARAMETERS, Json, "", map["x-id" := "7"], [("c", "d"), ("e", "f")], "")

  const FORM := Message(Post, Http10, "/a", PARAMETERS, XForm, "", map[], [], "&x=1")

  lemma {:induction false} OneKey()
    ensures Lists(["k"], PARAMETERS)
    ensures Lists(["x-id"], QUERY.headers)
    ensures Lists([], FORM.headers)
  {
    assert (set k | k in ["k"]) == {"k"};
    assert (set k | k in ["x-id"]) == {"x-id"};
    assert (set k: string | k in []) == {};
  }

  lemma {:induction false} Encodings()
    ensures Url.EncodePath("/a") == "/a"
    ensures Url.EncodeComponent("k") == "k" && Url.EncodeComponent("v w") == "v+w"
  {
    assert "/a"[1..] == "a" && "a"[1..] == "";
    assert Url.EncodePath("a") == "a" + "";
    assert Url.EncodePath("/a") == "/" + "a";
    assert "k"[1..] == "" && Url.EncodeComponent("k") == "k" + "";
    assert "v w"[1..] == " w" && " w"[1..] == "w" && "w"[1..] == "";
    assert Url.EncodeComponent("w") == "w" + "";
    assert Url.EncodeComponent(" w") == "+" + "w";
    assert Url.EncodeComponent("v w") == "v" + "+w";
  }

  lemma {:induction false} FormBytes()
    ensures Form.Join(["k"], PARAMETERS) == "k=v+w"
  {
    Encodings();
    assert Form.Pair("k", "v w") == "k" + "=" + "v+w";
    assert Form.Join(["k"], PARAMETERS) == Form.Pair("k", "v w") + "";
  }

  lemma {:induction false} QueryTarget()
    ensures Lists(["k"], PARAMETERS)
    ensures Target(QUERY, ["k"]) == "/a?k=v+w" && Body(QUERY, ["k"]) == ""
  {
    OneKey();
    Encodings();
    FormBytes();
    FindIs("/a", '?', 2);
    assert PARAMETERS != map[] by {
      assert "k" in PARAMETERS;
    }
    assert PathText(QUERY) == "/a" && "/a" + ("?" + "k=v+w") == "/a?k=v+w";
  }

  lemma {:induction false} QueryFields()
    ensures Lists(["x-id"], QUERY.headers)
    ensures forall k :: k in ["x-id"] ==> k in QUERY.headers
    ensures HeaderLines(["x-id"], QUERY.headers) == "x-id: 7\r\n"
  {
    OneKey();
    assert ["x-id"][1..] == [];
    assert HeaderLines(["x-id"], QUERY.headers) == HeaderLine("x-id", "7") + "";
  }

  lemma {:induction false} QueryCookies()
    ensures CookieLine(QUERY.cookies) == "Cookie: c= d;e= f\r\n"
  {
    assert QUERY.cookies[1..] == [("e", "f")];
    assert CookieList(QUERY.cookies) == "c= d" + ";" + "e= f";
    assert "Cookie" + ": " + "c= d;e= f" + "\r\n" == "Cookie: c= d;e= f\r\n";
  }

  /** A printed request from its parts. */
  lemma {:induction false} PrintOf(m: Message, keys: seq<string>, names: seq<string>, target: string, auto: string,
                                  fields: string, cookies: string, body: string)
    requires Lists(keys, m.parameters) && Lists(names, m.headers) && forall k :: k in names ==> k in m.headers
    requires m.verb != Invalid && m.version != Unknown
    requires Target(m, keys) == target && Body(m, keys) == body && AutoLines(m, body) == auto
    requires HeaderLines(names, m.headers) == fields && CookieLine(m.cookies) == cookies
    ensures Print(m, keys, names) ==
      MethodName(m.verb) + " " + target + " " + VersionName(m.version) + CRLF + auto + fields + cookies + CRLF + body
  {
  }

  lemma {:induction false} FormParts()
    ensures Lists(["k"], PARAMETERS)
    ensures Target(FORM, ["k"]) == "/a" && Body(FORM, ["k"]) == "k=v+w&x=1"
  {
    OneKey();
    Encodings();
    FormBytes();
    assert PARAMETERS != map[] by {
      assert "k" in PARAMETERS;
    }
    assert InBody(FORM) && !InQuery(FORM);
    assert PathText(FORM) == "/a" && "/a" + "" == "/a";
    assert "k=v+w" + "&x=1" == "k=v+w&x=1";
  }

  const FORM_LENGTH := "Content-Length: 9\r\n"
  const FORM_TYPE := "Content-Type: " + "application/x-www-form-urlencoded" + "\r\n"

  lemma {:induction false} FormLengthLine()
    ensures LENGTH_NAME + Decimal(9) + CRLF == FORM_LENGTH
  {
    DecimalOf(9, 0);
    assert DIGITS[9] == '9';
    assert LENGTH_NAME + "9" + CRLF == FORM_LENGTH;
  }

  lemma {:induction false} FormTypeLine()
    ensures TYPE_NAME + TypeValue(FORM.contentType) + CRLF == FORM_TYPE
  {
  }

  lemma {:induction false} LinesOf(m: Message, body: string, length: string, kind: string)
    requires body != "" && m.typeLine == ""
    requires LENGTH_NAME + Decimal(|body|) + CRLF == length && TYPE_NAME + TypeValue(m.contentType) + CRLF == kind
    ensures AutoLines(m, body) == length + kind
  {
    Appended(length, kind);
  }

  lemma {:induction false} FormLines()
    ensures AutoLines(FORM, "k=v+w&x=1") == FORM_LENGTH + FORM_TYPE
  {
    FormLengthLine();
    FormTypeLine();
    LinesOf(FORM, "k=v+w&x=1", FORM_LENGTH, FORM_TYPE);
  }

  lemma Appended(a: string, b: string)
    ensures a + b + "" == a + b
  {
  }

  lemma {:induction false} QueryLine()
    ensures MethodName(Get) + " " + "/a?k=v+w" + " " + VersionName(Http11) + CRLF == "GET /a?k=v+w HTTP/1.1\r\n"
  {
    assert "GET" + " " + "/a?k=v+w" + " " + "HTTP/1.1" + CRLF == "GET /a?k=v+w HTTP/1.1\r\n";
  }

  lemma {:induction false} FormLine()
    ensures MethodName(Post) + " " + "/a" + " " + VersionName(Http10) + CRLF == "POST /a HTTP/1.0\r\n"
  {
    assert "POST" + " " + "/a" + " " + "HTTP/1.0" + CRLF == "POST /a HTTP/1.0\r\n";
  }

  lemma {:induction false} QueryText(line: string, fields: string, cookies: string)
    ensures line + "" + fields + cookies + CRLF + "" == line + fields + cookies + "\r\n"
  {
  }

  /** Parameters in the query, own headers, and cookies in one line. */
  lemma {:induction false} QueryExample()
    ensures Lists(["k"], QUERY.parameters) && Lists(["x-id"], QUERY.headers)
    ensures Print(QUERY, ["k"], ["x-id"]) ==
      "GET /a?k=v+w HTTP/1.1\r\n" + "x-id: 7\r\n" + "Cookie: c= d;e= f\r\n" + "\r\n"
  {
    QueryFields();
    QueryTarget();
    QueryCookies();
    PrintOf(QUERY, ["k"], ["x-id"], "/a?k=v+w", "", "x-id: 7\r\n", "Cookie: c= d;e= f\r\n", "");
    QueryLine();
    QueryText("GET /a?k=v+w HTTP/1.1\r\n", "x-id: 7\r\n", "Cookie: c= d;e= f\r\n");
  }

  lemma {:induction false} FormText(line: string, auto: string, body: string)
    ensures line + auto + "" + "" + CRLF + body == line + auto + "\r\n" + body
  {
  }

  /** The same parameters as a form, in the body. */
  lemma {:induction false} FormExample()
    ensures Lists(["k"], FORM.parameters) && Lists([], FORM.headers)
    ensures Print(FORM, ["k"], []) ==
      "POST /a HTTP/1.0\r\n" +
      ("Content-Length: 9\r\n" + ("Content-Type: " + "application/x-www-form-urlencoded" + "\r\n")) +
      "\r\n" + "k=v+w&x=1"
  {
    OneKey();
    FormParts();
    FormLines();
    PrintOf(FORM, ["k"], [], "/a", FORM_LENGTH + FORM_TYPE, "", "", "k=v+w&x=1");
    FormLine();
    FormText("POST /a HTTP/1.0\r\n", FORM_LENGTH + FORM_TYPE, "k=v+w&x=1");
  }
}

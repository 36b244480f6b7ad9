/**
 HttpResponseImpl's rendering: makeHeaderString, the cookies, the date and the body, for responses built
 in memory.
 */
module ResponseRenderer {
  import opened Wrappers
  import opened Text
  import opened Buffers
  import HttpRequest
  import Printer = RequestPrinter
  import Cached = CachedRender

  type Fields = HttpRequest.Fields

  /**
   A response to send.  `typeLine` is a complete Content-Type line or empty; `server` the value of the
   Server header if one is sent; `cookies` the values of the Set-Cookie lines.
   */
  datatype Outgoing = Outgoing(
    version: HttpRequest.Version,
    code: nat,
    message: string,
    closes: bool,
    typeLine: string,
    server: Option<string>,
    headers: Fields,
    cookies: seq<string>,
    date: Option<string>,
    body: string)

  function StatusLine(o: Outgoing): string {
    (if o.version == HttpRequest.Http11 then "HTTP/1.1 " else "HTTP/1.0 ") + Decimal(o.code) + " " + o.message
  }

  function ConnectionLine(o: Outgoing): string {
    if o.closes then Printer.HeaderLine("Connection", "close")
    else if o.version == HttpRequest.Http10 then Printer.HeaderLine("Connection", "Keep-Alive")
    else ""
  }

  function ServerLine(o: Outgoing): string {
    if o.server.Some? then Printer.HeaderLine("Server", o.server.value) else ""
  }

  /** `names` is the iteration order of the header map. */
  function HeaderString(o: Outgoing, names: seq<string>): string
    requires forall k :: k in names ==> k in o.headers
  {
    StatusLine(o) + CRLF + (Printer.HeaderLine("Content-Length", Decimal(|o.body|)) + (ConnectionLine(o) + (o.typeLine +
      (ServerLine(o) + Printer.HeaderLines(names, o.headers)))))
  }

  function CookieLines(cookies: seq<string>): string {
    if cookies == [] then "" else Printer.HeaderLine("Set-Cookie", cookies[0]) + CookieLines(cookies[1..])
  }

  function DateLine(o: Outgoing): string {
    if o.date.Some? then Printer.HeaderLine("Date", o.date.value) else ""
  }

  /** Everything in front of the body; this is all that is sent for HEAD. */
  function Head(o: Outgoing, names: seq<string>): string
    requires forall k :: k in names ==> k in o.headers
  {
    HeaderString(o, names) + CookieLines(o.cookies) + DateLine(o) + CRLF
  }

  function Render(o: Outgoing, names: seq<string>, forHead: bool): string
    requires forall k :: k in names ==> k in o.headers
  {
    if forHead then Head(o, names) else Head(o, names) + o.body
  }

  // ---------------------------------------------------------------- the methods

  method MakeHeaderString(o: Outgoing, names: seq<string>, buffer: MsgBuffer<char>)
    requires forall k :: k in names ==> k in o.headers
    modifies buffer
    ensures buffer.data == old(buffer.data) + HeaderString(o, names)
  {
    ghost var before := buffer.data;
    if o.version == HttpRequest.Http11 {
      buffer.Append("HTTP/1.1 " + Decimal(o.code) + " ");
    } else {
      buffer.Append("HTTP/1.0 " + Decimal(o.code) + " ");
    }
    if o.message != "" {
      buffer.Append(o.message);
    }
    assert buffer.data == before + StatusLine(o);
    buffer.Append("\r\n");
    AppendAutomatic(o, buffer);
    var headers := Printer.AppendHeaders("", names, o.headers);
    buffer.Append(headers);
    Grouped(before, StatusLine(o), Printer.HeaderLine("Content-Length", Decimal(|o.body|)), ConnectionLine(o),
      o.typeLine, ServerLine(o),
            Printer.HeaderLines(names, o.headers));
  }

  lemma Grouped(a: string, b: string, c: string, d: string, e: string, f: string, g: string)
    ensures a + b + CRLF + (c + (d + (e + f))) + ("" + g) == a + (b + CRLF + (c + (d + (e + (f + g)))))
  {
  }

  method AppendConnection(o: Outgoing, buffer: MsgBuffer<char>)
    modifies buffer
    ensures buffer.data == old(buffer.data) + ConnectionLine(o)
  {
    if o.closes {
      buffer.Append("Connection: close\r\n");
    } else if o.version == HttpRequest.Http10 {
      buffer.Append("Connection: Keep-Alive\r\n");
    }
  }

  method AppendServer(o: Outgoing, buffer: MsgBuffer<char>)
    modifies buffer
    ensures buffer.data == old(buffer.data) + ServerLine(o)
  {
    if o.server.Some? {
      buffer.Append("Server: " + o.server.value + "\r\n");
      LineIs("Server", "Server: ", o.server.value);
    }
  }

  lemma LineIs(name: string, start: string, value: string)
    requires start == name + ": "
    ensures Printer.HeaderLine(name, value) == start + value + "\r\n"
  {
  }

  lemma Four(a: string, b: string, c: string, d: string, e: string)
    ensures a + b + c + d + e == a + (b + (c + (d + e)))
  {
  }

  /** The headers that the framework adds itself. */
  method AppendAutomatic(o: Outgoing, buffer: MsgBuffer<char>)
    modifies buffer
    ensures buffer.data == old(buffer.data) +
      (Printer.HeaderLine("Content-Length", Decimal(|o.body|)) + (ConnectionLine(o) + (o.typeLine + ServerLine(o))))
  {
    var length := Decimal(|o.body|);
    LineIs("Content-Length", "Content-Length: ", length);
    buffer.Append("Content-Length: " + length + "\r\n");
    AppendConnection(o, buffer);
    buffer.Append(o.typeLine);
    AppendServer(o, buffer);
    Four(old(buffer.data), Printer.HeaderLine("Content-Length", length), ConnectionLine(o), o.typeLine, ServerLine(o));
  }

  method AppendCookies(cookies: seq<string>, buffer: MsgBuffer<char>)
    modifies buffer
    ensures buffer.data == old(buffer.data) + CookieLines(cookies)
  {
    for i := 0 to |cookies|
      invariant buffer.data + CookieLines(cookies[i..]) == old(buffer.data) + CookieLines(cookies)
    {
      ghost var before := buffer.data;
      assert cookies[i..][1..] == cookies[i + 1..];
      buffer.Append("Set-Cookie: " + cookies[i] + "\r\n");
      assert buffer.data == before + Printer.HeaderLine("Set-Cookie", cookies[i]);
    }
  }

  method AppendDate(o: Outgoing, buffer: MsgBuffer<char>)
    modifies buffer
    ensures buffer.data == old(buffer.data) + DateLine(o) + CRLF
  {
    if o.date.Some? {
      buffer.Append("Date: ");
      buffer.Append(o.date.value);
      buffer.Append("\r\n\r\n");
      DateEnds(old(buffer.data), o.date.value);
    } else {
      buffer.Append("\r\n");
      assert old(buffer.data) + "" == old(buffer.data);
    }
  }

  lemma DateEnds(head: string, date: string)
    ensures head + "Date: " + date + "\r\n\r\n" == head + Printer.HeaderLine("Date", date) + CRLF
  {
    LineIs("Date", "Date: ", date);
    assert "\r\n\r\n" == "\r\n" + CRLF;
  }

  method RenderHeader(o: Outgoing, names: seq<string>) returns (buffer: MsgBuffer<char>)
    requires forall k :: k in names ==> k in o.headers
    ensures fresh(buffer) && buffer.data == Head(o, names)
  {
    buffer := new MsgBuffer<char>("");
    MakeHeaderString(o, names, buffer);
    assert "" + HeaderString(o, names) == HeaderString(o, names);
    AppendCookies(o.cookies, buffer);
    AppendDate(o, buffer);
  }

  method RenderToBuffer(o: Outgoing, names: seq<string>, forHead: bool) returns (buffer: MsgBuffer<char>)
    requires forall k :: k in names ==> k in o.headers
    ensures fresh(buffer) && buffer.data == Render(o, names, forHead)
  {
    buffer := RenderHeader(o, names);
    if !forHead {
      buffer.Append(o.body);
    }
  }

  /** What the cache of CachedRender keeps up to date is this rendering, for the date of the second shown. */
  lemma CachedTextIsRendered(o: Outgoing, names: seq<string>, date: int -> Cached.DateText, second: int)
    requires forall k :: k in names ==> k in o.headers
    ensures var head := HeaderString(o, names) + CookieLines(o.cookies);
      && Cached.Uncached(Cached.Content(head, o.body, true, date), second) ==
           Render(o.(date := Some(date(second))), names, false)
      && Cached.Uncached(Cached.Content(head, o.body, false, date), second) == Render(o.(date := None), names, false)
  {
    var head := HeaderString(o, names) + CookieLines(o.cookies);
    SameHeader(o, names, Some(date(second)));
    SameHeader(o, names, None);
    DateEnds(head, date(second));
    assert head + "" == head;
  }

  lemma SameHeader(o: Outgoing, names: seq<string>, date: Option<string>)
    requires forall k :: k in names ==> k in o.headers
    ensures HeaderString(o.(date := date), names) == HeaderString(o, names)
  {
  }
}

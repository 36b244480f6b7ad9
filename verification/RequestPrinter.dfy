/** HttpRequestImpl::appendToBuffer, for requests that are neither multipart nor passed through. */
module RequestPrinter {
  import opened Text
  import opened HttpRequest
  import Url = UrlCodec
  import Form = FormParameters

  /** Content types by what the printer distinguishes: forms, JSON, and any other with its header value. */
  datatype ContentType = XForm | Json | Other(value: string)

  type Cookie = (string, string)

  /**
   A request to send; `typeLine` is a complete Content-Type line, or empty when none was set, and `cookies`
   are the entries of the cookie map in its iteration order.
   */
  datatype Message = Message(
    verb: Method,
    version: Version,
    path: string,
    parameters: Form.Parameters,
    contentType: ContentType,
    typeLine: string,
    headers: Fields,
    cookies: seq<Cookie>,
    content: string)

  function TypeValue(t: ContentType): string {
    match t
    case XForm => "application/x-www-form-urlencoded"
    case Json => "application/json; charset=utf-8"
    case Other(value) => value
  }

  const TYPE_NAME := "Content-Type: "
  const LENGTH_NAME := "Content-Length: "

  predicate Lists(keys: seq<string>, m: Fields) {
    (set k | k in keys) == m.Keys
  }

  lemma ListsAll(keys: seq<string>, m: Fields)
    requires Lists(keys, m)
    ensures forall k :: k in keys ==> k in m
    ensures m != map[] ==> keys != []
  {
    assert forall k :: k in keys ==> k in (set k | k in keys);
    if keys == [] {
      assert m.Keys == {};
      assert forall k :: k !in m;
    }
  }

  predicate InQuery(m: Message) {
    m.parameters != map[] && m.verb in {Get, Delete, Head}
  }

  predicate InBody(m: Message) {
    m.parameters != map[] && m.verb !in {Get, Delete, Head} && m.contentType != Json
  }

  /** What separates a query from the path, which may have one already. */
  function Separator(path: string): string {
    var q := Find(path, '?');
    if q == |path| then "?" else if q != |path| - 1 then "&" else ""
  }

  function PathText(m: Message): string {
    if m.path != "" then Url.EncodePath(m.path) else "/"
  }

  function FormText(m: Message, keys: seq<string>): string
    requires Lists(keys, m.parameters)
  {
    ListsAll(keys, m.parameters);
    Form.Join(keys, m.parameters)
  }

  function Target(m: Message, keys: seq<string>): string
    requires Lists(keys, m.parameters)
  {
    PathText(m) + if InQuery(m) then Separator(PathText(m)) + FormText(m, keys) else ""
  }

  function Body(m: Message, keys: seq<string>): string
    requires Lists(keys, m.parameters)
  {
    (if InBody(m) then FormText(m, keys) else "") + m.content
  }

  function VersionName(v: Version): string {
    if v == Http11 then "HTTP/1.1" else "HTTP/1.0"
  }

  function HeaderLine(name: string, value: string): string {
    name + ": " + value + CRLF
  }

  function HeaderLines(names: seq<string>, headers: Fields): string
    requires forall k :: k in names ==> k in headers
  {
    if names == [] then "" else HeaderLine(names[0], headers[names[0]]) + HeaderLines(names[1..], headers)
  }

  function BodyLines(m: Message, body: string): string {
    LENGTH_NAME + Decimal(|body|) + CRLF + if m.typeLine == "" then TYPE_NAME + TypeValue(m.contentType) + CRLF else ""
  }

  function AutoLines(m: Message, body: string): string {
    if body == "" then m.typeLine else BodyLines(m, body) + m.typeLine
  }

  function CookieText(c: Cookie): string {
    c.0 + "= " + c.1
  }

  function CookieList(cs: seq<Cookie>): string {
    if cs == [] then ""
    else if |cs| == 1 then CookieText(cs[0])
    else CookieText(cs[0]) + ";" + CookieList(cs[1..])
  }

  function CookieLine(cs: seq<Cookie>): string {
    if cs == [] then "" else HeaderLine("Cookie", CookieList(cs))
  }

  /** `keys` and `names` are the iteration orders of the parameter and header maps. */
  function Print(m: Message, keys: seq<string>, names: seq<string>): string
    requires Lists(keys, m.parameters) && Lists(names, m.headers)
  {
    if m.verb == Invalid then ""
    else if m.version == Unknown then MethodName(m.verb) + " " + Target(m, keys) + " "
    else
      ListsAll(names, m.headers);
      MethodName(m.verb) + " " + Target(m, keys) + " " + VersionName(m.version) + CRLF + AutoLines(m, Body(m, keys))
        + HeaderLines(names, m.headers) + CookieLine(m.cookies) + CRLF + Body(m, keys)
  }

  // ---------------------------------------------------------------- the method

  lemma SearchBehindMethod(name: string, path: string)
    requires '?' !in name
    ensures Find(name + path, '?') == |name| + Find(path, '?')
  {
    forall j | 0 <= j < |name| ensures (name + path)[j] != '?' {
      assert name[j] in name;
    }
    FindIs(name + path, '?', |name| + Find(path, '?'));
  }

  method AppendMethod(verb: Method) returns (output: string)
    requires verb != Invalid
    ensures output == MethodName(verb) + " " && '?' !in output
  {
    match verb
    case Get => output := "GET ";
    case Post => output := "POST ";
    case Head => output := "HEAD ";
    case Put => output := "PUT ";
    case Delete => output := "DELETE ";
    case Options => output := "OPTIONS ";
    case Patch => output := "PATCH ";
  }

  /** The separator is found by searching the whole output for a question mark. */
  method AppendQuery(output: string, ghost name: string, ghost path: string, content: string) returns (r: string)
    requires output == name + path && '?' !in name && path != ""
    ensures r == output + Separator(path) + content
  {
    SearchBehindMethod(name, path);
    r := output;
    var ret := Find(output, '?');
    if ret != |output| {
      if ret != |output| - 1 {
        r := r + "&";
      }
    } else {
      r := r + "?";
    }
    r := r + content;
  }

  method AppendPath(output: string, m: Message) returns (r: string)
    ensures r == output + PathText(m) && PathText(m) != ""
  {
    if m.path != "" {
      var path := Url.UrlEncode(m.path);
      r := output + path;
    } else {
      r := output + "/";
    }
  }

  method JoinParameters(m: Message, keys: seq<string>) returns (content: string)
    requires Lists(keys, m.parameters) && m.parameters != map[]
    ensures content == FormText(m, keys)
  {
    ListsAll(keys, m.parameters);
    content := Form.WriteParameters(keys, m.parameters);
  }

  /** The query, and the part of the body that comes from the parameters. */
  method AppendParameters(output: string, ghost name: string, m: Message, keys: seq<string>)
    returns (r: string, content: string)
    requires Lists(keys, m.parameters)
    requires output == name + PathText(m) && '?' !in name && PathText(m) != ""
    ensures r == output + if InQuery(m) then Separator(PathText(m)) + FormText(m, keys) else ""
    ensures content == if InBody(m) then FormText(m, keys) else ""
  {
    r, content := output, "";
    if m.parameters != map[] {
      content := JoinParameters(m, keys);
      if m.verb == Get || m.verb == Delete || m.verb == Head {
        r := AppendQuery(output, name, PathText(m), content);
        content := "";
      } else if m.contentType == Json {
        content := "";
      }
    }
  }

  method AppendAuto(output: string, m: Message, length: nat, ghost body: string) returns (r: string)
    requires length == |body|
    ensures r == output + AutoLines(m, body)
  {
    r := output;
    if length > 0 {
      r := r + (LENGTH_NAME + Decimal(length) + CRLF);
      if m.typeLine == "" {
        r := r + (TYPE_NAME + TypeValue(m.contentType) + CRLF);
      }
      assert r == output + BodyLines(m, body);
    }
    if m.typeLine != "" {
      r := r + m.typeLine;
    }
  }

  method AppendHeaders(output: string, names: seq<string>, headers: Fields) returns (r: string)
    requires forall k :: k in names ==> k in headers
    ensures r == output + HeaderLines(names, headers)
  {
    r := output;
    var i := 0;
    while i < |names|
      invariant 0 <= i <= |names|
      invariant r + HeaderLines(names[i..], headers) == output + HeaderLines(names, headers)
    {
      ghost var before := r;
      r := r + names[i];
      r := r + ": ";
      r := r + headers[names[i]];
      r := r + CRLF;
      LineAppended(before, names, i, headers);
      assert r == before + HeaderLine(names[i], headers[names[i]]);
      i := i + 1;
    }
  }

  lemma LineAppended(before: string, names: seq<string>, i: nat, headers: Fields)
    requires i < |names| && forall k :: k in names ==> k in headers
    ensures before + HeaderLines(names[i..], headers) ==
      before + HeaderLine(names[i], headers[names[i]]) + HeaderLines(names[i + 1..], headers)
  {
    assert names[i..][1..] == names[i + 1..];
  }

  function Semicolons(cs: seq<Cookie>): string {
    if cs == [] then "" else CookieList(cs) + ";"
  }

  lemma Bracket(a: string, b: string, c: string)
    ensures (a + b) + c == a + (b + c)
  {
  }

  lemma {:induction false} ListGrows(cs: seq<Cookie>, c: Cookie)
    ensures CookieList(cs + [c]) == Semicolons(cs) + CookieText(c)
    decreases |cs|
  {
    if cs == [] {
      assert cs + [c] == [c] && "" + CookieText(c) == CookieText(c);
    } else {
      var tail, text := cs[1..], CookieText(cs[0]) + ";";
      ListGrows(tail, c);
      assert (cs + [c])[1..] == tail + [c] && (cs + [c])[0] == cs[0];
      Bracket(text, Semicolons(tail), CookieText(c));
      assert text + Semicolons(tail) == Semicolons(cs) by {
        if tail == [] {
          assert text + "" == text;
        } else {
          Bracket(text, CookieList(tail), ";");
        }
      }
    }
  }

  method AppendCookie(output: string, c: Cookie) returns (r: string)
    ensures r == output + (CookieText(c) + ";")
  {
    r := output + c.0;
    r := r + "= ";
    r := r + c.1;
    r := r + ";";
  }

  lemma {:induction false} OneMoreCookie(output: string, cs: seq<Cookie>, i: nat)
    requires i < |cs|
    ensures (output + Semicolons(cs[..i])) + (CookieText(cs[i]) + ";") == output + Semicolons(cs[..i + 1])
  {
    var done, text := Semicolons(cs[..i]), CookieText(cs[i]);
    ListGrows(cs[..i], cs[i]);
    assert cs[..i + 1] == cs[..i] + [cs[i]];
    Bracket(output, done, text + ";");
    Bracket(done, text, ";");
  }

  /** The cookies one by one, each with a semicolon behind it. */
  method AppendEach(output: string, cookies: seq<Cookie>) returns (r: string)
    ensures r == output + Semicolons(cookies)
  {
    r := output;
    var i := 0;
    while i < |cookies|
      invariant 0 <= i <= |cookies|
      invariant r == output + Semicolons(cookies[..i])
    {
      OneMoreCookie(output, cookies, i);
      r := AppendCookie(r, cookies[i]);
      i := i + 1;
    }
    assert cookies[..i] == cookies;
  }

  /** The last semicolon is taken back. */
  method AppendCookies(output: string, cookies: seq<Cookie>) returns (r: string)
    ensures r == output + CookieLine(cookies)
  {
    r := output;
    if |cookies| > 0 {
      r := r + "Cookie: ";
      r := AppendEach(r, cookies);
      r := r[..|r| - 1];
      r := r + CRLF;
    }
  }

  method AppendBody(output: string, content: string, more: string) returns (r: string)
    ensures r == output + (content + more)
  {
    r := output;
    if content != "" {
      r := r + content;
    }
    if more != "" {
      r := r + more;
    }
  }

  /** Everything behind the request line. */
  method AppendRest(output: string, m: Message, names: seq<string>, content: string, ghost body: string)
    returns (r: string)
    requires body == content + m.content && forall k :: k in names ==> k in m.headers
    ensures r == output + AutoLines(m, body) + HeaderLines(names, m.headers) + CookieLine(m.cookies) + CRLF + body
  {
    r := AppendAuto(output, m, |content| + |m.content|, body);
    r := AppendHeaders(r, names, m.headers);
    r := AppendCookies(r, m.cookies);
    r := r + CRLF;
    r := AppendBody(r, content, m.content);
  }

  /** The method and the target. */
  method AppendTarget(m: Message, keys: seq<string>) returns (output: string, content: string)
    requires Lists(keys, m.parameters) && m.verb != Invalid
    ensures output == MethodName(m.verb) + " " + Target(m, keys) + " "
    ensures content == if InBody(m) then FormText(m, keys) else ""
  {
    output := AppendMethod(m.verb);
    ghost var name := output;
    output := AppendPath(output, m);
    output, content := AppendParameters(output, name, m, keys);
    assert output == name + Target(m, keys);
    output := output + " ";
  }

  method AppendToBuffer(m: Message, keys: seq<string>, names: seq<string>) returns (output: string)
    requires Lists(keys, m.parameters) && Lists(names, m.headers)
    ensures output == Print(m, keys, names)
  {
    if m.verb == Invalid {
      return "";
    }
    var content;
    output, content := AppendTarget(m, keys);
    if m.version == Http11 {
      output := output + "HTTP/1.1";
    } else if m.version == Http10 {
      output := output + "HTTP/1.0";
    } else {
      return;
    }
    output := output + CRLF;
    ListsAll(names, m.headers);
    output := AppendRest(output, m, names, content, Body(m, keys));
  }
}

/** The parts of a request that the parser fills in, as HttpRequestImpl stores them. */
module HttpRequest {
  import opened Wrappers
  import opened Text
  import Url = UrlCodec
  import Store = BodyStore

  datatype Method = Invalid | Get | Post | Head | Put | Delete | Options | Patch

  datatype Version = Unknown | Http10 | Http11

  type Fields = map<string, string>

  datatype Request = Request(
    verb: Method,
    version: Version,
    path: string,
    query: string,
    headers: Fields,
    cookies: Fields,
    expectation: Option<string>,
    keepAlive: bool,
    body: Store.Body)

  const BLANK := Request(Invalid, Unknown, "", "", map[], map[], None, true, Store.EMPTY)

  function MethodOf(token: string): Method {
    match |token|
    case 3 => if token == "GET" then Get else if token == "PUT" then Put else Invalid
    case 4 => if token == "POST" then Post else if token == "HEAD" then Head else Invalid
    case 5 => if token == "PATCH" then Patch else Invalid
    case 6 => if token == "DELETE" then Delete else Invalid
    case 7 => if token == "OPTIONS" then Options else Invalid
    case _ => Invalid
  }

  function MethodName(m: Method): string {
    match m
    case Get => "GET"
    case Post => "POST"
    case Head => "HEAD"
    case Put => "PUT"
    case Delete => "DELETE"
    case Options => "OPTIONS"
    case Patch => "PATCH"
    case Invalid => "UNKNOWN"
  }

  /** Reading a method's name gives the method, and nothing else is a method. */
  lemma {:induction false} MethodInverts(token: string, m: Method)
    requires m != Invalid
    ensures MethodOf(token) == m <==> MethodName(m) == token
  {
  }

  lemma {:induction false} NamesAreMethods(token: string)
    ensures MethodOf(token) != Invalid <==> exists m: Method :: m != Invalid && MethodName(m) == token
  {
    if MethodOf(token) != Invalid {
      MethodInverts(token, MethodOf(token));
    }
    forall m: Method | m != Invalid && MethodName(m) == token ensures MethodOf(token) == m {
      MethodInverts(token, m);
    }
  }

  function SetVersion(r: Request, v: Version): Request {
    r.(version := v, keepAlive := r.keepAlive && v != Http10)
  }

  function SetPath(r: Request, text: string): Request {
    r.(path := if Url.NeedsDecoding(text) then Url.Decode(text) else r.path + text)
  }

  /** "PATH[?QUERY]" */
  function SetTarget(r: Request, target: string): Request {
    var question := Find(target, '?');
    if question != |target| then SetPath(r, target[..question]).(query := target[question + 1..])
    else SetPath(r, target)
  }

  /** "TARGET HTTP/1.x" */
  function ParseRequestLine(r: Request, line: string): Option<Request> {
    var space := Find(line, ' ');
    if space == |line| then None
    else
      var r1, version := SetTarget(r, line[..space]), line[space + 1..];
      if version == "HTTP/1.1" then Some(SetVersion(r1, Http11))
      else if version == "HTTP/1.0" then Some(SetVersion(r1, Http10))
      else None
  }

  // ---------------------------------------------------------------- header fields

  /** One `name=value` piece of a cookie header. */
  function AddCookie(piece: string, m: Fields): Fields {
    var e := Find(piece, '=');
    if e == |piece| then m else m[TrimLeft(piece[..e]) := piece[e + 1..]]
  }

  function ParseCookies(value: string, m: Fields): Fields
    decreases |value|
  {
    var p := Find(value, ';');
    if p < |value| then ParseCookies(value[p + 1..], AddCookie(value[..p], m))
    else if |value| > 0 then AddCookie(value, m)
    else m
  }

  /** The first header of a name is kept. */
  function PutHeader(headers: Fields, name: string, value: string): Fields {
    if name in headers then headers else headers[name := value]
  }

  function KeepAliveAfter(r: Request, value: string): bool {
    if r.version == Http11 then r.keepAlive && value != "close"
    else r.keepAlive || value == "Keep-Alive" || value == "keep-alive"
  }

  /** A header line, split at its first colon. */
  function AddHeader(r: Request, name: string, text: string): Request {
    var field, value := Lower(name), TrimRight(TrimLeft(text));
    if field == "cookie" then r.(cookies := ParseCookies(value, r.cookies))
    else r.(
      expectation := if field == "expect" then Some(value) else r.expectation,
      keepAlive := if field == "connection" then KeepAliveAfter(r, value) else r.keepAlive,
      headers := PutHeader(r.headers, field, value))
  }

  function HeaderBy(r: Request, name: string): string {
    if name in r.headers then r.headers[name] else ""
  }

  function Expectation(r: Request): string {
    if r.expectation.Some? then r.expectation.value else ""
  }

  // ---------------------------------------------------------------- the object

  /** HttpRequestImpl as the parser uses it. */
  class RequestImpl {
    var verb: Method
    var version: Version
    var path: string
    var query: string
    var headers: Fields
    var cookies: Fields
    var expectPtr: Option<string>
    var keepAlive: bool
    var body: Store.Body

    ghost function State(): Request
      reads this
    {
      Request(verb, version, path, query, headers, cookies, expectPtr, keepAlive, body)
    }

    constructor ()
      ensures State() == BLANK
    {
      verb, version, path, query := Invalid, Unknown, "", "";
      headers, cookies, expectPtr, keepAlive, body := map[], map[], None, true, Store.EMPTY;
    }

    function GetHeaderBy(field: string): (value: string)
      reads this
      ensures value == HeaderBy(State(), field)
    {
      if field in headers then headers[field] else ""
    }

    function Expected(): (value: string)
      reads this
      ensures value == Expectation(State())
    {
      if expectPtr.Some? then expectPtr.value else ""
    }

    method SetMethod(token: string) returns (ok: bool)
      modifies this`verb
      ensures ok <==> exists m: Method :: m != Invalid && MethodName(m) == token
      ensures if ok then verb != Invalid && MethodName(verb) == token else verb == Invalid
    {
      verb := Invalid;
      match |token| {
        case 3 => if token == "GET" { verb := Get; } else if token == "PUT" { verb := Put; }
        case 4 => if token == "POST" { verb := Post; } else if token == "HEAD" { verb := Head; }
        case 5 => if token == "PATCH" { verb := Patch; }
        case 6 => if token == "DELETE" { verb := Delete; }
        case 7 => if token == "OPTIONS" { verb := Options; }
        case _ =>
      }
      ok := verb != Invalid;
      NamesAreMethods(token);
    }

    method SetPathFrom(text: string)
      modifies this`path
      ensures State() == SetPath(old(State()), text)
    {
      if Url.NeedsDecoding(text) {
        path := Url.UrlDecode(text);
      } else {
        path := path + text;
      }
    }

    method ProcessRequestLine(line: string) returns (succeed: bool)
      modifies this
      ensures succeed == ParseRequestLine(old(State()), line).Some?
      ensures succeed ==> State() == ParseRequestLine(old(State()), line).value
    {
      succeed := false;
      var space := Find(line, ' ');
      if space != |line| {
        var target := line[..space];
        var question := Find(target, '?');
        if question != space {
          SetPathFrom(target[..question]);
          query := target[question + 1..];
        } else {
          assert target[..question] == target;
          SetPathFrom(target);
        }
        assert State() == SetTarget(old(State()), target);
        var last := line[space + 1..];
        succeed := |last| == 8 && last[..7] == "HTTP/1.";
        if succeed {
          assert last == last[..7] + [last[7]];
          if last[7] == '1' {
            version := Http11;
          } else if last[7] == '0' {
            version, keepAlive := Http10, false;
          } else {
            succeed := false;
          }
        }
        assert succeed <==> last == "HTTP/1.1" || last == "HTTP/1.0";
      }
    }

    method AddCookies(text: string)
      modifies this`cookies
      ensures cookies == ParseCookies(text, old(cookies))
    {
      var value := text;
      var pos := Find(value, ';');
      while pos < |value|
        invariant pos == Find(value, ';')
        invariant ParseCookies(value, cookies) == ParseCookies(text, old(cookies))
        decreases |value|
      {
        AddOneCookie(value[..pos]);
        value := value[pos + 1..];
        pos := Find(value, ';');
      }
      if |value| > 0 {
        AddOneCookie(value);
      }
    }

    method AddOneCookie(piece: string)
      modifies this`cookies
      ensures cookies == AddCookie(piece, old(cookies))
    {
      var epos := Find(piece, '=');
      if epos != |piece| {
        var name := piece[..epos];
        var cpos := 0;
        while cpos < |name| && IsSpace(name[cpos])
          invariant 0 <= cpos <= |name|
          invariant TrimLeft(name[cpos..]) == TrimLeft(name)
        {
          assert name[cpos..][1..] == name[cpos + 1..];
          cpos := cpos + 1;
        }
        cookies := cookies[name[cpos..] := piece[epos + 1..]];
      }
    }

    method AddHeaderLine(line: string, colon: nat)
      requires colon < |line|
      modifies this
      ensures State() == AddHeader(old(State()), line[..colon], line[colon + 1..])
    {
      var field := Lower(line[..colon]);
      var text := line[colon + 1..];
      var start := 0;
      while start < |text| && IsSpace(text[start])
        invariant 0 <= start <= |text|
        invariant TrimLeft(text[start..]) == TrimLeft(text)
      {
        assert text[start..][1..] == text[start + 1..];
        start := start + 1;
      }
      var value := text[start..];
      assert value == TrimLeft(text);
      while value != "" && IsSpace(value[|value| - 1])
        invariant TrimRight(value) == TrimRight(TrimLeft(text))
        decreases |value|
      {
        value := value[..|value| - 1];
      }
      if field == "cookie" {
        AddCookies(value);
      } else {
        if field == "expect" {
          expectPtr := Some(value);
        } else if field == "connection" {
          if version == Http11 {
            if value == "close" {
              keepAlive := false;
            }
          } else if value == "Keep-Alive" || value == "keep-alive" {
            keepAlive := true;
          }
        }
        if field !in headers {
          headers := headers[field := value];
        }
      }
    }
  }
}

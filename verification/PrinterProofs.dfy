/** What appendToBuffer writes, the request parser reads back. */
module PrinterProofs {
  import opened Wrappers
  import opened Text
  import opened HttpRequest
  import opened RequestParser
  import opened RequestPrinter
  import opened SegmentationProofs
  import Url = UrlCodec
  import Form = FormParameters
  import Store = BodyStore

  // ---------------------------------------------------------------- what is expected

  predicate Trimmed(s: string) {
    s == "" || (!IsSpace(s[0]) && !IsSpace(s[|s| - 1]))
  }

  predicate FieldValue(s: string) {
    '\r' !in s && Trimmed(s)
  }

  /** Lower case, as addHeader stores names; cookies and expectations are not stored as headers. */
  predicate FieldName(s: string) {
    ':' !in s && '\r' !in s && Lower(s) == s && s != "cookie" && s != "expect"
  }

  function LineValue(line: string): string
    requires |line| >= |TYPE_NAME| + 2
  {
    line[|TYPE_NAME|..|line| - 2]
  }

  /** Empty, or a whole Content-Type line. */
  predicate TypeLine(line: string) {
    line != "" ==>
      |line| >= |TYPE_NAME| + 2 && line == TYPE_NAME + LineValue(line) + CRLF && FieldValue(LineValue(line))
  }

  /** Without a body of its own the message must not announce one. */
  predicate Printable(m: Message, body: string) {
    && m.verb != Invalid && m.version != Unknown
    && Url.IsBytes(m.path)
    && FieldValue(TypeValue(m.contentType)) && TypeLine(m.typeLine)
    && (forall k :: k in m.headers ==> FieldName(k) && FieldValue(m.headers[k]))
    && (body == "" ==> "content-length" !in m.headers && "transfer-encoding" !in m.headers)
    && PlainCookies(m.cookies)
  }

  predicate PlainCookie(c: Cookie) {
    && '=' !in c.0 && ';' !in c.0 && '\r' !in c.0 && (c.0 != "" ==> !IsSpace(c.0[0]))
    && ';' !in c.1 && FieldValue(c.1)
  }

  predicate PlainCookies(cs: seq<Cookie>) {
    && (forall i :: 0 <= i < |cs| ==> PlainCookie(cs[i]))
    && (forall i, j :: 0 <= i < j < |cs| ==> cs[i].0 != cs[j].0)
  }

  function LastBlank(value: string): string {
    if value == "" then "" else " " + value
  }

  /** The cookies as they come back: with a blank in front, except for an empty last one. */
  function Jar(cs: seq<Cookie>, jar: Fields): Fields
    decreases |cs|
  {
    if cs == [] then jar
    else if |cs| == 1 then jar[cs[0].0 := LastBlank(cs[0].1)]
    else Jar(cs[1..], jar[cs[0].0 := " " + cs[0].1])
  }

  function ExpectedPath(m: Message): string {
    if m.path == "" then "/" else m.path[..Find(m.path, '?')]
  }

  /** What the path has behind its question mark, then the parameters. */
  function ExpectedQuery(m: Message, keys: seq<string>): string
    requires Lists(keys, m.parameters)
  {
    var own := OwnQuery(m);
    if !InQuery(m) then own else if own == "" then FormText(m, keys) else own + ("&" + FormText(m, keys))
  }

  /** Headers the printer adds by itself. */
  function AutoFields(m: Message, body: string): Fields
    requires TypeLine(m.typeLine)
  {
    var length := if body == "" then map[] else map["content-length" := Decimal(|body|)];
    if m.typeLine != "" then length["content-type" := LineValue(m.typeLine)]
    else if body != "" then length["content-type" := TypeValue(m.contentType)]
    else length
  }

  predicate KeptAlive(version: Version, headers: Fields) {
    var v := if "connection" in headers then headers["connection"] else "";
    if version == Http11 then v != "close" else v == "Keep-Alive" || v == "keep-alive"
  }

  predicate Recovers(r: Request, m: Message, keys: seq<string>, cfg: Config)
    requires Lists(keys, m.parameters) && TypeLine(m.typeLine)
  {
    var body := Body(m, keys);
    && r.verb == m.verb && r.version == m.version
    && r.path == ExpectedPath(m) && r.query == ExpectedQuery(m, keys)
    && r.headers == m.headers + AutoFields(m, body)
    && r.cookies == Jar(m.cookies, map[]) && r.expectation == None
    && r.keepAlive == KeptAlive(m.version, m.headers)
    && Store.View(r.body) == body && Store.Within(r.body, cfg.maxMemory)
  }

  // ---------------------------------------------------------------- plain text

  /** Characters of an encoded target: no blanks and no line ends. */
  predicate Plain(s: string) {
    forall i :: 0 <= i < |s| ==> Url.PathKeeps(s[i]) || s[i] in {'+', '%'}
  }

  lemma PlainLacks(s: string, c: char)
    requires Plain(s) && !Url.PathKeeps(c) && c !in {'+', '%'}
    ensures c !in s
  {
  }

  lemma PlainJoins(a: string, b: string)
    requires Plain(a) && Plain(b)
    ensures Plain(a + b)
  {
  }

  lemma PairIsPlain(k: string, v: string)
    ensures Plain(Form.Pair(k, v))
  {
    Url.ComponentIsPlain(k);
    Url.ComponentIsPlain(v);
    PlainJoins(Url.EncodeComponent(k), "=");
    PlainJoins(Url.EncodeComponent(k) + "=", Url.EncodeComponent(v));
  }

  lemma {:induction false} JoinIsPlain(keys: seq<string>, m: Form.Parameters)
    requires forall k :: k in keys ==> k in m
    ensures Plain(Form.Join(keys, m))
  {
    if keys != [] {
      PairIsPlain(keys[0], m[keys[0]]);
      if |keys| > 1 {
        JoinIsPlain(keys[1..], m);
        PlainJoins("&", Form.Join(keys[1..], m));
        PlainJoins(Form.Pair(keys[0], m[keys[0]]), "&" + Form.Join(keys[1..], m));
      } else {
        PlainJoins(Form.Pair(keys[0], m[keys[0]]), "");
      }
    }
  }

  lemma TargetIsPlain(m: Message, keys: seq<string>)
    requires Lists(keys, m.parameters)
    ensures Plain(Target(m, keys)) && Plain(PathText(m))
  {
    Url.PathIsPlain(m.path);
    if InQuery(m) {
      ListsAll(keys, m.parameters);
      JoinIsPlain(keys, m.parameters);
      PlainJoins(Separator(PathText(m)), FormText(m, keys));
      PlainJoins(PathText(m), Separator(PathText(m)) + FormText(m, keys));
    }
  }

  lemma {:induction false} PathSplits(a: string, b: string)
    ensures Url.EncodePath(a + b) == Url.EncodePath(a) + Url.EncodePath(b)
  {
    if a == "" {
      assert a + b == b;
    } else {
      assert (a + b)[1..] == a[1..] + b;
      PathSplits(a[1..], b);
    }
  }

  /** The first question mark of a path is the first one of its encoding. */
  lemma {:induction false} QuestionMark(path: string)
    ensures var q, e := Find(path, '?'), Url.EncodePath(path);
      && '?' !in Url.EncodePath(path[..q])
      && (q == |path| ==> Find(e, '?') == |e| && path[..q] == path)
      && (q < |path| ==>
           && e == Url.EncodePath(path[..q]) + ("?" + Url.EncodePath(path[q + 1..]))
           && Find(e, '?') == |Url.EncodePath(path[..q])|)
  {
    var q := Find(path, '?');
    Url.PathIsPlain(path[..q]);
    var e := Url.EncodePath(path[..q]);
    if q == |path| {
      assert path[..q] == path;
      FindIs(e, '?', |e|);
    } else {
      assert path == path[..q] + path[q..];
      PathSplits(path[..q], path[q..]);
      assert path[q..][0] == '?' && path[q..][1..] == path[q + 1..];
      assert Url.EncodePath(path[q..]) == "?" + Url.EncodePath(path[q + 1..]);
      MarkBehind(e, Url.EncodePath(path[q + 1..]));
    }
  }

  lemma {:induction false} MarkBehind(e: string, tail: string)
    requires '?' !in e
    ensures Find(e + ("?" + tail), '?') == |e|
  {
    assert forall j :: 0 <= j < |e| ==> (e + ("?" + tail))[j] == e[j];
    FindIs(e + ("?" + tail), '?', |e|);
  }

  // ---------------------------------------------------------------- the request line

  lemma EncodedPathDecodes(r: Request, path: string)
    requires Url.IsBytes(path) && r.path == ""
    ensures SetPath(r, Url.EncodePath(path)) == r.(path := path)
  {
    Url.PathRoundTrip(path);
    if !Url.NeedsDecoding(Url.EncodePath(path)) {
      Url.DecodeIdle(Url.EncodePath(path));
    }
  }

  /** `t` is a path, with a query behind a question mark unless the query is empty. */
  predicate SplitsInto(t: string, path: string, query: string) {
    '?' !in path && ((t == path && query == "") || t == path + ("?" + query))
  }

  lemma SplitAt(t: string, path: string, query: string)
    requires SplitsInto(t, path, query)
    ensures var question := Find(t, '?');
      && question == |path| <= |t| && t[..question] == path
      && (question == |t| ==> query == "") && (question < |t| ==> t[question + 1..] == query)
  {
    if t == path {
      FindIs(t, '?', |path|);
      assert t[..|path|] == path;
    } else {
      assert forall j :: 0 <= j < |path| ==> t[j] == path[j];
      FindIs(t, '?', |path|);
      assert t[..|path|] == path && t[|path| + 1..] == query;
    }
  }

  /** The separator joins more parameters to whatever query there is. */
  lemma QueryAdded(t: string, path: string, query: string, more: string)
    requires SplitsInto(t, path, query)
    ensures SplitsInto(t + (Separator(t) + more), path, if query == "" then more else query + ("&" + more))
  {
    SplitAt(t, path, query);
    if t == path {
      assert t + (Separator(t) + more) == path + ("?" + more);
    } else if query == "" {
      assert t + (Separator(t) + more) == path + ("?" + more);
    } else {
      assert t + (Separator(t) + more) == path + ("?" + (query + ("&" + more)));
    }
  }

  function BaseText(m: Message): string {
    if m.path == "" then "/" else Url.EncodePath(ExpectedPath(m))
  }

  function OwnQuery(m: Message): string {
    var q := Find(m.path, '?');
    if q < |m.path| then Url.EncodePath(m.path[q + 1..]) else ""
  }

  lemma TargetSplits(m: Message, keys: seq<string>)
    requires Lists(keys, m.parameters)
    ensures SplitsInto(Target(m, keys), BaseText(m), ExpectedQuery(m, keys))
  {
    QuestionMark(m.path);
    assert SplitsInto(PathText(m), BaseText(m), OwnQuery(m));
    if InQuery(m) {
      QueryAdded(PathText(m), BaseText(m), OwnQuery(m), FormText(m, keys));
    } else {
      assert PathText(m) + "" == PathText(m);
    }
  }

  function Lined(r: Request, m: Message, keys: seq<string>): Request
    requires Lists(keys, m.parameters)
  {
    r.(path := ExpectedPath(m), query := ExpectedQuery(m, keys), version := m.version,
       keepAlive := r.keepAlive && m.version != Http10)
  }

  lemma RequestLineReads(r: Request, m: Message, keys: seq<string>)
    requires Lists(keys, m.parameters) && Url.IsBytes(m.path) && m.version != Unknown
    requires r.path == "" && r.query == ""
    ensures ParseRequestLine(r, Target(m, keys) + " " + VersionName(m.version)) == Some(Lined(r, m, keys))
  {
    TargetIsPlain(m, keys);
    PlainLacks(Target(m, keys), ' ');
    TargetReads(r, m, keys);
    LineSplits(r, Target(m, keys), m.version);
  }

  lemma LineSplits(r: Request, t: string, version: Version)
    requires ' ' !in t && version != Unknown
    ensures ParseRequestLine(r, t + " " + VersionName(version)) == Some(SetVersion(SetTarget(r, t), version))
  {
    var line := t + " " + VersionName(version);
    assert forall j :: 0 <= j < |t| ==> line[j] == t[j];
    FindIs(line, ' ', |t|);
    assert line[..|t|] == t && line[|t| + 1..] == VersionName(version);
    assert "HTTP/1.1"[7] != "HTTP/1.0"[7];
  }

  /** A target that splits so is read as that path and query. */
  lemma {:induction false} SplitReads(r: Request, t: string, path: string, query: string)
    requires SplitsInto(t, path, query) && r.query == ""
    ensures SetTarget(r, t) == SetPath(r, path).(query := query)
  {
    SplitAt(t, path, query);
    assert t[..|t|] == t;
  }

  lemma {:induction false} TargetReads(r: Request, m: Message, keys: seq<string>)
    requires Lists(keys, m.parameters) && Url.IsBytes(m.path)
    requires r.path == "" && r.query == ""
    ensures SetTarget(r, Target(m, keys)) == r.(path := ExpectedPath(m), query := ExpectedQuery(m, keys))
  {
    TargetSplits(m, keys);
    SplitReads(r, Target(m, keys), BaseText(m), ExpectedQuery(m, keys));
    BaseReads(r, m);
  }

  lemma {:induction false} BaseReads(r: Request, m: Message)
    requires Url.IsBytes(m.path) && r.path == ""
    ensures SetPath(r, BaseText(m)) == r.(path := ExpectedPath(m))
  {
    if m.path == "" {
      assert !Url.NeedsDecoding("/");
    } else {
      EncodedPathDecodes(r, ExpectedPath(m));
    }
  }

  // ---------------------------------------------------------------- headers

  lemma HeaderTurn(p: Parser, name: string, value: string, behind: string, cfg: Config)
    requires p.status == ExpectHeaders && ':' !in name && '\r' !in name && '\r' !in value
    ensures OnHeader(p, HeaderLine(name, value) + behind, cfg) ==
      More(p.(request := AddHeader(p.request, name, " " + value)), behind)
  {
    var line := name + ": " + value;
    var buf := line + CRLF + behind;
    assert HeaderLine(name, value) + behind == buf;
    LineEnd(line, behind);
    assert buf[..|line|] == line && buf[|line| + 2..] == behind;
    FindIs(line, ':', |name|);
    assert line[..|name|] == name && line[|name| + 1..] == " " + value;
  }

  /** An ordinary header, printed and read. */
  function WithField(r: Request, name: string, value: string): Request {
    r.(keepAlive := if name == "connection" then KeepAliveAfter(r, value) else r.keepAlive,
       headers := PutHeader(r.headers, name, value))
  }

  lemma FieldReads(r: Request, name: string, value: string)
    requires FieldName(Lower(name)) && Trimmed(value)
    ensures AddHeader(r, name, " " + value) == WithField(r, Lower(name), value)
  {
    assert (" " + value)[1..] == value;
    assert TrimLeft(" " + value) == TrimLeft(value) == value;
    assert TrimRight(value) == value;
  }

  function WithFields(r: Request, names: seq<string>, headers: Fields): Request
    requires forall k :: k in names ==> k in headers
    decreases |names|
  {
    if names == [] then r else WithFields(WithField(r, names[0], headers[names[0]]), names[1..], headers)
  }

  lemma LineParses(p: Parser, name: string, value: string, behind: string, cfg: Config)
    requires p.status == ExpectHeaders && FieldName(Lower(name)) && ':' !in name && '\r' !in name && FieldValue(value)
    ensures Parse(p, HeaderLine(name, value) + behind, cfg) ==
      Parse(p.(request := WithField(p.request, Lower(name), value)), behind, cfg)
  {
    HeaderTurn(p, name, value, behind, cfg);
    FieldReads(p.request, name, value);
    ParseGoesOn(p, HeaderLine(name, value) + behind,
                p.(request := WithField(p.request, Lower(name), value)), behind, cfg);
  }

  predicate GoodFields(headers: Fields) {
    forall k :: k in headers ==> FieldName(k) && FieldValue(headers[k])
  }

  lemma {:induction false} LinesParse(p: Parser, names: seq<string>, headers: Fields, behind: string, cfg: Config)
    requires p.status == ExpectHeaders && GoodFields(headers)
    requires forall k :: k in names ==> k in headers
    ensures Parse(p, HeaderLines(names, headers) + behind, cfg) ==
      Parse(p.(request := WithFields(p.request, names, headers)), behind, cfg)
    decreases |names|
  {
    if names == [] {
      assert HeaderLines(names, headers) + behind == behind;
    } else {
      var k, tail := names[0], HeaderLines(names[1..], headers) + behind;
      assert HeaderLines(names, headers) + behind == HeaderLine(k, headers[k]) + tail;
      LineParses(p, k, headers[k], tail, cfg);
      LinesParse(p.(request := WithField(p.request, k, headers[k])), names[1..], headers, behind, cfg);
    }
  }

  /** All fields together: those already there win. */
  lemma {:induction false} FieldsAdd(r: Request, names: seq<string>, headers: Fields)
    requires forall k :: k in names ==> k in headers
    ensures var w := WithFields(r, names, headers);
      && w.headers.Keys == r.headers.Keys + (set k | k in names)
      && (forall k :: k in w.headers ==> w.headers[k] == if k in r.headers then r.headers[k] else headers[k])
      && w.keepAlive == (if "connection" in names then KeepAliveAfter(r, headers["connection"]) else r.keepAlive)
      && w == r.(headers := w.headers, keepAlive := w.keepAlive)
    decreases |names|
  {
    if names != [] {
      FieldsAdd(WithField(r, names[0], headers[names[0]]), names[1..], headers);
      assert (set k | k in names) == {names[0]} + (set k | k in names[1..]);
    }
  }

  function WithAuto(r: Request, m: Message, body: string): Request
    requires TypeLine(m.typeLine)
  {
    r.(headers := AutoFields(m, body))
  }

  lemma DecimalIsValue(n: nat)
    ensures FieldValue(Decimal(n))
  {
  }

  lemma LowerNames()
    ensures Lower("Content-Length") == "content-length" && Lower("Content-Type") == "content-type"
    ensures FieldName("content-length") && FieldName("content-type")
    ensures ':' !in "Content-Length" && '\r' !in "Content-Length"
    ensures ':' !in "Content-Type" && '\r' !in "Content-Type"
  {
    LowerIs("Content-Length", "content-length");
    LowerIs("Content-Type", "content-type");
    LowerIs("content-length", "content-length");
    LowerIs("content-type", "content-type");
  }

  lemma LowerIs(s: string, t: string)
    requires |s| == |t| && forall i :: 0 <= i < |s| ==> ToLower(s[i]) == t[i]
    ensures Lower(s) == t
  {
  }

  lemma LengthLineParses(p: Parser, n: nat, behind: string, cfg: Config)
    requires p.status == ExpectHeaders && p.request.headers == map[]
    ensures Parse(p, LENGTH_NAME + Decimal(n) + CRLF + behind, cfg) ==
      Parse(p.(request := p.request.(headers := map["content-length" := Decimal(n)])), behind, cfg)
  {
    LowerNames();
    DecimalIsValue(n);
    assert LENGTH_NAME + Decimal(n) + CRLF == HeaderLine("Content-Length", Decimal(n));
    LineParses(p, "Content-Length", Decimal(n), behind, cfg);
  }

  lemma TypeLineParses(p: Parser, value: string, behind: string, cfg: Config)
    requires p.status == ExpectHeaders && "content-type" !in p.request.headers && FieldValue(value)
    ensures Parse(p, TYPE_NAME + value + CRLF + behind, cfg) ==
      Parse(p.(request := p.request.(headers := p.request.headers["content-type" := value])), behind, cfg)
  {
    LowerNames();
    assert TYPE_NAME + value + CRLF == HeaderLine("Content-Type", value);
    LineParses(p, "Content-Type", value, behind, cfg);
  }

  lemma AutoParses(p: Parser, m: Message, body: string, behind: string, cfg: Config)
    requires p.status == ExpectHeaders && p.request.headers == map[]
    requires TypeLine(m.typeLine) && FieldValue(TypeValue(m.contentType))
    ensures Parse(p, AutoLines(m, body) + behind, cfg) ==
      Parse(p.(request := WithAuto(p.request, m, body)), behind, cfg)
  {
    if body == "" {
      OwnTypeParses(p, m, behind, cfg);
    } else {
      var length := map["content-length" := Decimal(|body|)];
      var q := p.(request := p.request.(headers := length));
      if m.typeLine == "" {
        var value := TypeValue(m.contentType);
        var tail := TYPE_NAME + value + CRLF + behind;
        assert AutoLines(m, body) + behind == LENGTH_NAME + Decimal(|body|) + CRLF + tail;
        LengthLineParses(p, |body|, tail, cfg);
        TypeLineParses(q, value, behind, cfg);
      } else {
        var tail := m.typeLine + behind;
        assert AutoLines(m, body) + behind == LENGTH_NAME + Decimal(|body|) + CRLF + tail;
        LengthLineParses(p, |body|, tail, cfg);
        OwnTypeParses(q, m, behind, cfg);
      }
    }
  }

  lemma OwnTypeParses(p: Parser, m: Message, behind: string, cfg: Config)
    requires p.status == ExpectHeaders && "content-type" !in p.request.headers && TypeLine(m.typeLine)
    ensures Parse(p, m.typeLine + behind, cfg) ==
      if m.typeLine == "" then Parse(p, behind, cfg)
      else Parse(p.(request := p.request.(headers := p.request.headers["content-type" := LineValue(m.typeLine)])),
        behind, cfg)
  {
    if m.typeLine == "" {
      assert m.typeLine + behind == behind;
    } else {
      TypeLineParses(p, LineValue(m.typeLine), behind, cfg);
    }
  }

  // ---------------------------------------------------------------- cookies

  /** A cookie list when blanks at its end have been cut off. */
  function KeptList(cs: seq<Cookie>): string
    requires cs != []
  {
    if |cs| == 1 then cs[0].0 + "=" + LastBlank(cs[0].1)
    else CookieText(cs[0]) + (";" + KeptList(cs[1..]))
  }

  predicate TrimsTo(t: string, k: string) {
    && k != "" && !IsSpace(k[|k| - 1]) && !IsSpace(k[0]) && (t == k || t == k + " ")
    && '\r' !in t
  }

  lemma OneTrimmed(c: Cookie)
    requires PlainCookie(c)
    ensures TrimsTo(CookieText(c), c.0 + "=" + LastBlank(c.1))
  {
    if c.1 == "" {
      assert CookieText(c) == (c.0 + "=" + "") + " ";
    } else {
      assert CookieText(c) == c.0 + "=" + (" " + c.1);
    }
  }

  lemma MoreTrimmed(head: string, t: string, k: string)
    requires head != "" && !IsSpace(head[0]) && '\r' !in head && TrimsTo(t, k)
    ensures TrimsTo(head + ";" + t, head + (";" + k))
  {
    assert head + ";" + t == head + (";" + t);
    assert (head + (";" + k)) + " " == head + (";" + (k + " "));
  }

  lemma {:induction false} ListTrimmed(cs: seq<Cookie>)
    requires cs != [] && PlainCookies(cs)
    ensures TrimsTo(CookieList(cs), KeptList(cs))
    decreases |cs|
  {
    PlainTail(cs);
    OneTrimmed(cs[0]);
    if |cs| > 1 {
      ListTrimmed(cs[1..]);
      MoreTrimmed(CookieText(cs[0]), CookieList(cs[1..]), KeptList(cs[1..]));
    }
  }

  lemma TrimmedBlank(t: string, k: string)
    requires TrimsTo(t, k)
    ensures TrimRight(TrimLeft(" " + t)) == k
  {
    assert (" " + t)[1..] == t && t[0] == k[0];
    assert TrimLeft(" " + t) == TrimLeft(t) == t;
    if t == k + " " {
      assert t[..|t| - 1] == k && t[|t| - 1] == ' ';
    }
  }

  lemma {:induction false} PieceAdds(c: Cookie, x: string, jar: Fields)
    requires PlainCookie(c)
    ensures AddCookie(c.0 + "=" + x, jar) == jar[c.0 := x]
  {
    var v := c.0 + "=" + x;
    FindIs(v, '=', |c.0|);
    assert v[..|c.0|] == c.0 && v[|c.0| + 1..] == x && TrimLeft(c.0) == c.0;
  }

  lemma PlainTail(cs: seq<Cookie>)
    requires cs != [] && PlainCookies(cs)
    ensures PlainCookie(cs[0]) && PlainCookies(cs[1..])
  {
    assert forall i :: 0 <= i < |cs[1..]| ==> cs[1..][i] == cs[i + 1];
  }

  lemma {:induction false} FirstPiece(text: string, rest: string, jar: Fields)
    requires ';' !in text
    ensures ParseCookies(text + (";" + rest), jar) == ParseCookies(rest, AddCookie(text, jar))
  {
    var v := text + (";" + rest);
    FindIs(v, ';', |text|);
    assert v[..|text|] == text && v[|text| + 1..] == rest;
  }

  lemma {:induction false} LastPiece(text: string, jar: Fields)
    requires ';' !in text && text != ""
    ensures ParseCookies(text, jar) == AddCookie(text, jar)
  {
    FindIs(text, ';', |text|);
  }

  lemma {:induction false} CookieInFront(c: Cookie, rest: string, jar: Fields)
    requires PlainCookie(c)
    ensures ParseCookies(CookieText(c) + (";" + rest), jar) == ParseCookies(rest, jar[c.0 := " " + c.1])
  {
    PieceAdds(c, " " + c.1, jar);
    assert CookieText(c) == c.0 + "=" + (" " + c.1);
    FirstPiece(CookieText(c), rest, jar);
  }

  lemma {:induction false} CookieAtEnd(c: Cookie, jar: Fields)
    requires PlainCookie(c)
    ensures ParseCookies(c.0 + "=" + LastBlank(c.1), jar) == jar[c.0 := LastBlank(c.1)]
  {
    PieceAdds(c, LastBlank(c.1), jar);
    LastPiece(c.0 + "=" + LastBlank(c.1), jar);
  }

  lemma {:induction false} KeptParses(cs: seq<Cookie>, jar: Fields)
    requires cs != [] && PlainCookies(cs)
    ensures ParseCookies(KeptList(cs), jar) == Jar(cs, jar)
    decreases |cs|
  {
    PlainTail(cs);
    if |cs| == 1 {
      CookieAtEnd(cs[0], jar);
    } else {
      CookieInFront(cs[0], KeptList(cs[1..]), jar);
      KeptParses(cs[1..], jar[cs[0].0 := " " + cs[0].1]);
    }
  }

  lemma CookiesRead(r: Request, cs: seq<Cookie>)
    requires cs != [] && PlainCookies(cs)
    ensures AddHeader(r, "Cookie", " " + CookieList(cs)) == r.(cookies := Jar(cs, r.cookies))
  {
    LowerIs("Cookie", "cookie");
    ListTrimmed(cs);
    TrimmedBlank(CookieList(cs), KeptList(cs));
    KeptParses(cs, r.cookies);
  }

  lemma CookiesParse(p: Parser, cs: seq<Cookie>, behind: string, cfg: Config)
    requires p.status == ExpectHeaders && PlainCookies(cs)
    ensures Parse(p, CookieLine(cs) + behind, cfg) ==
      Parse(p.(request := p.request.(cookies := Jar(cs, p.request.cookies))), behind, cfg)
  {
    if cs == [] {
      assert CookieLine(cs) + behind == behind;
    } else {
      ListTrimmed(cs);
      HeaderTurn(p, "Cookie", CookieList(cs), behind, cfg);
      CookiesRead(p.request, cs);
      ParseGoesOn(p, CookieLine(cs) + behind, p.(request := p.request.(cookies := Jar(cs, p.request.cookies))), behind,
        cfg);
    }
  }

  // ---------------------------------------------------------------- the end of the headers and the body

  lemma BlankLineTurn(p: Parser, behind: string, cfg: Config)
    requires p.status == ExpectHeaders
    ensures OnHeader(p, CRLF + behind, cfg) == OnEmptyLine(p, behind, cfg)
  {
    LineEnd("", behind);
    assert "" + CRLF + behind == CRLF + behind;
    assert (CRLF + behind)[..0] == "" && (CRLF + behind)[2..] == behind;
  }

  lemma NoBodyEnds(p: Parser, rest: string, cfg: Config)
    requires p.status == ExpectHeaders && p.contentLength == 0 && p.request.expectation == None
    requires "content-length" !in p.request.headers && "transfer-encoding" !in p.request.headers
    ensures Parse(p, CRLF + rest, cfg) == Leave(p.(status := GotAll, requests := p.requests + 1), rest)
  {
    BlankLineTurn(p, rest, cfg);
    var p1 := p.(status := GotAll, requests := p.requests + 1);
    assert Framing(p) == Leave(p1, "");
    assert Admission(p1, cfg) == More(p1, "");
    assert ReserveBody(p1, cfg) == p1;
  }

  /** The request of a complete body. */
  predicate TookBody(done: Parser, p: Parser, body: string, cfg: Config) {
    && done.status == GotAll && done.interim == p.interim
    && done.request == p.request.(body := done.request.body)
    && Store.View(done.request.body) == body && Store.Within(done.request.body, cfg.maxMemory)
  }

  lemma WholeBodyTurn(p: Parser, body: string, rest: string, cfg: Config)
    requires p.status == ExpectBody && p.contentLength == |body| > 0
    requires Store.View(p.request.body) == "" && Store.Within(p.request.body, cfg.maxMemory)
    ensures var t := TakeTurn(p, body + rest, cfg); t.Leave? && t.rest == rest && TookBody(t.p, p, body, cfg)
  {
    var buf := body + rest;
    assert buf[..|body|] == body && buf[|body|..] == rest;
    assert |buf| == |body| ==> rest == "";
    Store.AppendViews(p.request.body, body, cfg.maxMemory);
    assert "" + body == body;
  }

  lemma BodyAnnounced(p: Parser, body: string, behind: string, cfg: Config)
    requires p.status == ExpectHeaders && p.contentLength == 0 && p.request.expectation == None
    requires p.request.body == Store.EMPTY && body != ""
    requires HeaderBy(p.request, "content-length") == Decimal(|body|)
    ensures OnEmptyLine(p, behind, cfg) ==
      if |body| > cfg.maxBody then Reject(Some(413))
      else More(ReserveBody(p.(contentLength := |body|, status := ExpectBody), cfg), behind)
  {
    DecimalRoundTrip(|body|);
    var p1 := p.(contentLength := |body|, status := ExpectBody);
    assert Framing(p) == More(p1, "");
    assert Expectation(p1.request) == "";
    assert Admission(p1, cfg) == if |body| > cfg.maxBody then Reject(Some(413)) else More(p1, "");
  }

  lemma Reserved(p: Parser, cfg: Config)
    requires p.request.body == Store.EMPTY
    ensures var q := ReserveBody(p, cfg);
      && q == p.(request := p.request.(body := q.request.body))
      && Store.View(q.request.body) == "" && Store.Within(q.request.body, cfg.maxMemory)
  {
  }

  lemma BodyEnds(p: Parser, body: string, rest: string, cfg: Config)
    requires p.status == ExpectHeaders && p.contentLength == 0 && p.request.expectation == None
    requires p.request.body == Store.EMPTY
    requires if body == "" then "content-length" !in p.request.headers && "transfer-encoding" !in p.request.headers
      else HeaderBy(p.request, "content-length") == Decimal(|body|)
    ensures var t := Parse(p, CRLF + body + rest, cfg);
      if |body| > cfg.maxBody then t == Reject(Some(413)) else t.Leave? && t.rest == rest && TookBody(t.p, p, body, cfg)
  {
    assert CRLF + body + rest == CRLF + (body + rest);
    if body == "" {
      assert body + rest == rest;
      NoBodyEnds(p, rest, cfg);
    } else {
      BlankLineTurn(p, body + rest, cfg);
      BodyAnnounced(p, body, body + rest, cfg);
      if |body| <= cfg.maxBody {
        var p1 := p.(contentLength := |body|, status := ExpectBody);
        var q := ReserveBody(p1, cfg);
        Reserved(p1, cfg);
        ParseGoesOn(p, CRLF + (body + rest), q, body + rest, cfg);
        WholeBodyTurn(q, body, rest, cfg);
      }
    }
  }

  // ---------------------------------------------------------------- the whole request

  /** A parser about to read a request. */
  predicate Ready(p: Parser) {
    p.status == ExpectMethod && p.request == BLANK && p.contentLength == 0
  }

  lemma MethodNames(verb: Method)
    requires verb != Invalid
    ensures MethodOf(MethodName(verb)) == verb && ' ' !in MethodName(verb)
  {
  }

  lemma MethodParses(p: Parser, verb: Method, behind: string, cfg: Config)
    requires p.status == ExpectMethod && verb != Invalid
    ensures Parse(p, MethodName(verb) + " " + behind, cfg) ==
      Parse(p.(request := p.request.(verb := verb), status := ExpectRequestLine), behind, cfg)
  {
    var name := MethodName(verb);
    var buf := name + " " + behind;
    MethodNames(verb);
    assert forall j :: 0 <= j < |name| ==> buf[j] == name[j];
    FindIs(buf, ' ', |name|);
    assert buf[..|name|] == name && buf[|name| + 1..] == behind;
    ParseGoesOn(p, buf, p.(request := p.request.(verb := verb), status := ExpectRequestLine), behind, cfg);
  }

  lemma LineAfterMethod(p: Parser, m: Message, keys: seq<string>, behind: string, cfg: Config)
    requires p.status == ExpectRequestLine && p.request.path == "" && p.request.query == ""
    requires Lists(keys, m.parameters) && Url.IsBytes(m.path) && m.version != Unknown
    ensures Parse(p, Target(m, keys) + " " + VersionName(m.version) + CRLF + behind, cfg) ==
      Parse(p.(request := Lined(p.request, m, keys), status := ExpectHeaders), behind, cfg)
  {
    var line := Target(m, keys) + " " + VersionName(m.version);
    TargetIsPlain(m, keys);
    PlainLacks(Target(m, keys), '\r');
    LineEnd(line, behind);
    var buf := line + CRLF + behind;
    assert buf[..|line|] == line && buf[|line| + 2..] == behind;
    RequestLineReads(p.request, m, keys);
    ParseGoesOn(p, buf, p.(request := Lined(p.request, m, keys), status := ExpectHeaders), behind, cfg);
  }

  /** The request when all headers have been read. */
  function Headed(m: Message, keys: seq<string>, names: seq<string>): Request
    requires Lists(keys, m.parameters) && Lists(names, m.headers) && TypeLine(m.typeLine)
  {
    ListsAll(names, m.headers);
    WithFields(WithAuto(Lined(BLANK.(verb := m.verb), m, keys), m, Body(m, keys)), names, m.headers).(
      cookies := Jar(m.cookies, map[]))
  }

  lemma HeadedIs(m: Message, keys: seq<string>, names: seq<string>)
    requires Lists(keys, m.parameters) && Lists(names, m.headers) && TypeLine(m.typeLine) && m.version != Unknown
    ensures var r := Headed(m, keys, names);
      && r.headers == m.headers + AutoFields(m, Body(m, keys))
      && r.keepAlive == KeptAlive(m.version, m.headers)
      && r == Lined(BLANK.(verb := m.verb), m, keys).(
                headers := r.headers, keepAlive := r.keepAlive, cookies := Jar(m.cookies, map[]))
  {
    ListsAll(names, m.headers);
    var start := WithAuto(Lined(BLANK.(verb := m.verb), m, keys), m, Body(m, keys));
    FieldsAdd(start, names, m.headers);
    assert forall k :: k in names <==> k in (set k | k in names);
    Merged(WithFields(start, names, m.headers).headers, start.headers, m.headers, names);
  }

  /** What is there first wins. */
  lemma Merged(w: Fields, first: Fields, more: Fields, names: seq<string>)
    requires forall k :: k in names <==> k in more
    requires w.Keys == first.Keys + (set k | k in names)
    requires forall k :: k in w ==> w[k] == if k in first then first[k] else more[k]
    ensures w == more + first
  {
    assert forall k :: k in w <==> k in first || k in more;
  }

  lemma HeadParses(p: Parser, m: Message, keys: seq<string>, names: seq<string>, rest: string, cfg: Config)
    requires Ready(p) && Lists(keys, m.parameters) && Lists(names, m.headers) && Printable(m, Body(m, keys))
    ensures Parse(p, Print(m, keys, names) + rest, cfg) ==
      Parse(p.(request := Headed(m, keys, names), status := ExpectHeaders), CRLF + Body(m, keys) + rest, cfg)
  {
    var body := Body(m, keys);
    ListsAll(names, m.headers);
    var tail3 := CRLF + body + rest;
    var tail4 := CookieLine(m.cookies) + tail3;
    var tail2 := HeaderLines(names, m.headers) + tail4;
    var tail1 := AutoLines(m, body) + tail2;
    var line := Target(m, keys) + " " + VersionName(m.version) + CRLF + tail1;
    Regrouped(m, keys, names, rest);
    assert Print(m, keys, names) + rest == MethodName(m.verb) + " " + line;
    MethodParses(p, m.verb, line, cfg);
    var p1 := p.(request := p.request.(verb := m.verb), status := ExpectRequestLine);
    LineAfterMethod(p1, m, keys, tail1, cfg);
    var p2 := p1.(request := Lined(p1.request, m, keys), status := ExpectHeaders);
    AutoParses(p2, m, body, tail2, cfg);
    var p3 := p2.(request := WithAuto(p2.request, m, body));
    LinesParse(p3, names, m.headers, tail4, cfg);
    FieldsAdd(p3.request, names, m.headers);
    CookiesParse(p3.(request := WithFields(p3.request, names, m.headers)), m.cookies, tail3, cfg);
  }

  lemma Regrouped(m: Message, keys: seq<string>, names: seq<string>, rest: string)
    requires Lists(keys, m.parameters) && Lists(names, m.headers) && m.verb != Invalid && m.version != Unknown
    requires forall k :: k in names ==> k in m.headers
    ensures Print(m, keys, names) + rest == MethodName(m.verb) + " " +
        (Target(m, keys) + " " + VersionName(m.version) + CRLF +
          (AutoLines(m, Body(m, keys)) +
            (HeaderLines(names, m.headers) + (CookieLine(m.cookies) + (CRLF + Body(m, keys) + rest)))))
  {
    Brackets(MethodName(m.verb), Target(m, keys), VersionName(m.version), AutoLines(m, Body(m, keys)),
             HeaderLines(names, m.headers), CookieLine(m.cookies), Body(m, keys), rest);
  }

  lemma Brackets(a: string, b: string, c: string, d: string, e: string, f: string, g: string, h: string)
    ensures a + " " + b + " " + c + CRLF + d + e + f + CRLF + g + h ==
      a + " " + (b + " " + c + CRLF + (d + (e + (f + (CRLF + g + h)))))
  {
  }

  /**
   Parsing a printed request recovers it and leaves exactly the bytes behind it; a body over the
   limit is refused.
   */
  lemma PrintedParses(p: Parser, m: Message, keys: seq<string>, names: seq<string>, rest: string, cfg: Config)
    requires Ready(p) && Lists(keys, m.parameters) && Lists(names, m.headers) && Printable(m, Body(m, keys))
    ensures var t := Parse(p, Print(m, keys, names) + rest, cfg);
      if |Body(m, keys)| > cfg.maxBody then t == Reject(Some(413))
      else
        && t.Leave? && t.rest == rest && t.p.status == GotAll && Recovers(t.p.request, m, keys, cfg)
        && t.p.interim == p.interim
  {
    HeadParses(p, m, keys, names, rest, cfg);
    HeadedIs(m, keys, names);
    BodyEnds(p.(request := Headed(m, keys, names), status := ExpectHeaders), Body(m, keys), rest, cfg);
  }

  // ---------------------------------------------------------------- many requests on one connection

  datatype Sent = Sent(m: Message, keys: seq<string>, names: seq<string>)

  predicate Sendable(s: Sent, cfg: Config) {
    && Lists(s.keys, s.m.parameters) && Lists(s.names, s.m.headers)
    && Printable(s.m, Body(s.m, s.keys)) && |Body(s.m, s.keys)| <= cfg.maxBody
  }

  predicate AllSendable(ss: seq<Sent>, cfg: Config) {
    forall i :: 0 <= i < |ss| ==> Sendable(ss[i], cfg)
  }

  function PrintAll(ss: seq<Sent>, cfg: Config): string
    requires AllSendable(ss, cfg)
  {
    if ss == [] then "" else Print(ss[0].m, ss[0].keys, ss[0].names) + PrintAll(ss[1..], cfg)
  }

  predicate AllRecovered(rs: seq<Request>, ss: seq<Sent>, cfg: Config)
    requires AllSendable(ss, cfg)
  {
    |rs| == |ss| && forall i :: 0 <= i < |rs| ==> Recovers(rs[i], ss[i].m, ss[i].keys, cfg)
  }

  lemma FeedOne(p: Parser, s: Sent, behind: string, cfg: Config) returns (r: Request, q: Parser)
    requires Ready(p) && Sendable(s, cfg)
    ensures Ready(q) && Recovers(r, s.m, s.keys, cfg)
    ensures Feed(p, Print(s.m, s.keys, s.names) + behind, cfg) == Prepend(r, Feed(q, behind, cfg))
  {
    PrintedParses(p, s.m, s.keys, s.names, behind, cfg);
    assert Print(s.m, s.keys, s.names) != "";
    var t := Parse(p, Print(s.m, s.keys, s.names) + behind, cfg);
    r, q := t.p.request, Reset(t.p);
  }

  /** Printed requests one behind the other are read back as the same requests, with nothing left. */
  lemma {:induction false} PrintedFeed(p: Parser, ss: seq<Sent>, cfg: Config)
    requires Ready(p) && AllSendable(ss, cfg)
    ensures var f := Feed(p, PrintAll(ss, cfg), cfg);
      && f.session.Open? && f.session.pending == "" && Ready(f.session.p)
      && AllRecovered(f.requests, ss, cfg)
    decreases |ss|
  {
    if ss != [] {
      var behind := PrintAll(ss[1..], cfg);
      var r, q := FeedOne(p, ss[0], behind, cfg);
      PrintedFeed(q, ss[1..], cfg);
      RecoveredNext(r, Feed(q, behind, cfg), ss, cfg);
    }
  }

  lemma RecoveredNext(r: Request, f: Fed, ss: seq<Sent>, cfg: Config)
    requires ss != [] && AllSendable(ss, cfg) && f.session.Open? && AllRecovered(f.requests, ss[1..], cfg)
    requires Recovers(r, ss[0].m, ss[0].keys, cfg)
    ensures Prepend(r, f).session == f.session && AllRecovered(Prepend(r, f).requests, ss, cfg)
  {
    var rs := [r] + f.requests;
    forall i | 0 <= i < |rs| ensures Recovers(rs[i], ss[i].m, ss[i].keys, cfg) {
      if i > 0 {
        assert rs[i] == f.requests[i - 1] && ss[i] == ss[1..][i - 1];
      }
    }
  }

  /** ... and over a connection that cuts the stream anywhere but where the parser starves. */
  lemma PrintedStream(ss: seq<Sent>, pieces: seq<string>, cfg: Config)
    requires AllSendable(ss, cfg) && Joined(pieces) == PrintAll(ss, cfg)
    requires !ReadsStarve(START, "", pieces, cfg)
    ensures var f := Reads(START, "", pieces, cfg);
      f.session.Open? && f.session.pending == "" && AllRecovered(f.requests, ss, cfg)
  {
    PrintedFeed(START, ss, cfg);
    SegmentationIndependence(pieces, cfg);
  }

  // ---------------------------------------------------------------- forms

  predicate OccursAt(s: string, text: string, i: nat) {
    i + |text| <= |s| && s[i..i + |text|] == text
  }

  /** What parseParameters takes for a form: no content type, or one that mentions the form type. */
  predicate IsForm(r: Request) {
    var t := Lower(HeaderBy(r, "content-type"));
    t == "" || exists i :: 0 <= i <= |t| && OccursAt(t, TypeValue(XForm), i)
  }

  function ParametersOf(r: Request): Form.Parameters {
    Form.AllParameters(r.query, Store.View(r.body), IsForm(r))
  }

  /** Parameters set by the sender are the parameters the receiver sees, in the query or in the body. */
  lemma ParametersArrive(r: Request, m: Message, keys: seq<string>, cfg: Config)
    requires Lists(keys, m.parameters) && TypeLine(m.typeLine) && Recovers(r, m, keys, cfg)
    requires m.content == "" && m.contentType == XForm && m.typeLine == ""
    requires '?' !in m.path && "content-type" !in m.headers
    requires forall k :: k in m.parameters ==> Url.IsBytes(k) && Url.IsBytes(m.parameters[k])
    ensures ParametersOf(r) == m.parameters
  {
    ListsAll(keys, m.parameters);
    Form.FormRoundTrip(keys, m.parameters);
    FormInPlace(m, keys);
    if Body(m, keys) != "" {
      FormTypeStays(r, m, Body(m, keys));
    }
  }

  lemma FormInPlace(m: Message, keys: seq<string>)
    requires Lists(keys, m.parameters) && m.content == "" && m.contentType == XForm && '?' !in m.path
    ensures Body(m, keys) == if InBody(m) then FormText(m, keys) else ""
    ensures ExpectedQuery(m, keys) == if InQuery(m) then FormText(m, keys) else ""
    ensures !InQuery(m) && !InBody(m) ==> m.parameters == map[]
  {
    FindIs(m.path, '?', |m.path|);
    assert OwnQuery(m) == "";
  }

  lemma FormTypeStays(r: Request, m: Message, body: string)
    requires m.contentType == XForm && m.typeLine == "" && "content-type" !in m.headers && body != ""
    requires r.headers == m.headers + AutoFields(m, body)
    ensures IsForm(r)
  {
    var t := TypeValue(XForm);
    assert HeaderBy(r, "content-type") == t;
    LowerIs(t, t);
    assert OccursAt(t, t, 0);
  }

  /** The cookie map that was set. */
  function CookieMap(cs: seq<Cookie>, m: Fields): Fields
    decreases |cs|
  {
    if cs == [] then m else CookieMap(cs[1..], m[cs[0].0 := cs[0].1])
  }

  /** Later cookies of other names leave an entry alone. */
  lemma {:induction false} OthersStay(cs: seq<Cookie>, m: Fields, name: string)
    requires name in m && forall i :: 0 <= i < |cs| ==> cs[i].0 != name
    ensures var j := Jar(cs, m); name in j && j[name] == m[name]
    ensures var j := CookieMap(cs, m); name in j && j[name] == m[name]
    decreases |cs|
  {
    if |cs| > 1 {
      OthersStay(cs[1..], m[cs[0].0 := " " + cs[0].1], name);
    }
    if cs != [] {
      OthersStay(cs[1..], m[cs[0].0 := cs[0].1], name);
    }
  }

  /** The cookies of a printed request come back exactly when there is none, or a single one with an empty value. */
  lemma {:induction false} CookiesComeBack(r: Request, m: Message, keys: seq<string>, cfg: Config)
    requires Lists(keys, m.parameters) && TypeLine(m.typeLine) && Recovers(r, m, keys, cfg) && PlainCookies(m.cookies)
    ensures r.cookies == CookieMap(m.cookies, map[]) <==> m.cookies == [] || (|m.cookies| == 1 && m.cookies[0].1 == "")
  {
    var cs := m.cookies;
    if cs != [] {
      var none: Fields := map[];
      var mine := none[cs[0].0 := cs[0].1];
      OthersStay(cs[1..], mine, cs[0].0);
      if |cs| > 1 {
        OthersStay(cs[1..], none[cs[0].0 := " " + cs[0].1], cs[0].0);
        assert |" " + cs[0].1| == |cs[0].1| + 1;
      } else {
        assert Jar(cs, none)[cs[0].0] == LastBlank(cs[0].1);
        assert cs[0].1 != "" ==> |LastBlank(cs[0].1)| == |cs[0].1| + 1;
        assert CookieMap(cs, none) == mine;
      }
    }
  }
}

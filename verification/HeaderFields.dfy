/**
 What a header section means, said of its lines: which value counts, whether the connection stays, what
 is expected.
 */
module HeaderFields {
  import opened Wrappers
  import opened Text
  import opened HttpRequest
  import opened RequestParser
  import opened SegmentationProofs
  import opened Refusals

  /** A name, and a value between blanks. */
  datatype Line = Line(name: string, left: string, value: string, right: string)

  /** The blanks of the C library. */
  const BLANKS := [' ', '\t', '\n', 11 as char, 12 as char, '\r']

  predicate Blank(s: string) {
    forall i :: 0 <= i < |s| ==> s[i] in BLANKS && s[i] != '\r'
  }

  predicate WellFormed(l: Line) {
    && ':' !in l.name && '\r' !in l.name && '\r' !in l.value && Blank(l.left) && Blank(l.right)
    && (l.value != "" ==> l.value[0] !in BLANKS && l.value[|l.value| - 1] !in BLANKS)
  }

  predicate AllWellFormed(ls: seq<Line>) {
    forall i :: 0 <= i < |ls| ==> WellFormed(ls[i])
  }

  function Bytes(ls: seq<Line>): string {
    if ls == [] then ""
    else ls[0].name + ":" + (ls[0].left + ls[0].value + ls[0].right) + CRLF + Bytes(ls[1..])
  }

  /** The line has this name, in whatever case. */
  predicate Named(l: Line, field: string) {
    Lower(l.name) == field
  }

  function FirstOf(ls: seq<Line>, field: string): Option<string> {
    if ls == [] then None else if Named(ls[0], field) then Some(ls[0].value) else FirstOf(ls[1..], field)
  }

  function LastOf(ls: seq<Line>, field: string): Option<string> {
    if ls == [] then None
    else if Named(ls[|ls| - 1], field) then Some(ls[|ls| - 1].value)
    else LastOf(ls[..|ls| - 1], field)
  }

  predicate Says(ls: seq<Line>, field: string, value: string) {
    exists i :: 0 <= i < |ls| && Named(ls[i], field) && ls[i].value == value
  }

  // ---------------------------------------------------------------- one line

  lemma {:induction false} BlankIs(c: char)
    ensures IsSpace(c) <==> c in BLANKS
  {
  }

  lemma {:induction false} RightSkipped(text: string, blanks: string)
    requires forall i :: 0 <= i < |blanks| ==> IsSpace(blanks[i])
    requires text == "" || !IsSpace(text[|text| - 1])
    ensures TrimRight(text + blanks) == text
    decreases |blanks|
  {
    var s := text + blanks;
    if blanks == "" {
      assert s == text;
    } else {
      assert s[..|s| - 1] == text + blanks[..|blanks| - 1];
      RightSkipped(text, blanks[..|blanks| - 1]);
    }
  }

  /** The value of a line is what stands between the blanks. */
  lemma {:induction false} ValueRead(l: Line)
    requires WellFormed(l)
    ensures TrimRight(TrimLeft(l.left + l.value + l.right)) == l.value
  {
    forall i | 0 <= i < |l.left| ensures IsSpace(l.left[i]) { BlankIs(l.left[i]); }
    forall i | 0 <= i < |l.right| ensures IsSpace(l.right[i]) { BlankIs(l.right[i]); }
    if l.value == "" {
      BlanksTrimmed(l.left + l.right, "");
      assert (l.left + l.right) + "" == l.left + l.value + l.right;
    } else {
      BlankIs(l.value[0]);
      BlankIs(l.value[|l.value| - 1]);
      assert l.left + l.value + l.right == l.left + (l.value + l.right);
      BlanksTrimmed(l.left, l.value + l.right);
      RightSkipped(l.value, l.right);
    }
  }

  /** The request with one line added. */
  function WithLine(r: Request, l: Line): Request {
    AddHeader(r, l.name, l.left + l.value + l.right)
  }

  function WithLines(r: Request, ls: seq<Line>): Request
    decreases |ls|
  {
    if ls == [] then r else WithLines(WithLine(r, ls[0]), ls[1..])
  }

  lemma {:induction false} LineTaken(p: Parser, l: Line, rest: string, cfg: Config)
    requires p.status == ExpectHeaders && WellFormed(l)
    ensures Parse(p, l.name + ":" + (l.left + l.value + l.right) + CRLF + rest, cfg) ==
      Parse(p.(request := WithLine(p.request, l)), rest, cfg)
  {
    var text := l.left + l.value + l.right;
    var line := l.name + ":" + text;
    assert '\r' !in line;
    LineEnd(line, rest);
    var buf := line + CRLF + rest;
    assert buf[..|line|] == line && buf[|line| + 2..] == rest;
    FindIs(line, ':', |l.name|);
    assert line[..|l.name|] == l.name && line[|l.name| + 1..] == text;
    ParseGoesOn(p, buf, p.(request := WithLine(p.request, l)), rest, cfg);
  }

  /** Reading the lines adds them one after the other. */
  lemma {:induction false} LinesTaken(p: Parser, ls: seq<Line>, rest: string, cfg: Config)
    requires p.status == ExpectHeaders && AllWellFormed(ls)
    ensures Parse(p, Bytes(ls) + rest, cfg) == Parse(p.(request := WithLines(p.request, ls)), rest, cfg)
    decreases |ls|
  {
    if ls == [] {
      assert Bytes(ls) + rest == rest;
    } else {
      var l := ls[0];
      var head := l.name + ":" + (l.left + l.value + l.right) + CRLF;
      assert Bytes(ls) + rest == head + (Bytes(ls[1..]) + rest);
      LineTaken(p, l, Bytes(ls[1..]) + rest, cfg);
      LinesTaken(p.(request := WithLine(p.request, l)), ls[1..], rest, cfg);
    }
  }

  // ---------------------------------------------------------------- what they mean

  /** A field keeps the value that it has, or gets that of the first line of its name. */
  predicate FieldIs(before: Fields, after: Fields, ls: seq<Line>, field: string) {
    if field in before then field in after && after[field] == before[field]
    else if field == "cookie" then field !in after
    else
      match FirstOf(ls, field)
      case None => field !in after
      case Some(value) => field in after && after[field] == value
  }

  lemma {:induction false} FieldsMean(r: Request, ls: seq<Line>, field: string)
    requires AllWellFormed(ls)
    ensures FieldIs(r.headers, WithLines(r, ls).headers, ls, field)
    decreases |ls|
  {
    if ls != [] {
      ValueRead(ls[0]);
      FieldsMean(WithLine(r, ls[0]), ls[1..], field);
    }
  }

  lemma {:induction false} SaysFirst(ls: seq<Line>, field: string, value: string)
    requires ls != []
    ensures Says(ls, field, value) <==> (Named(ls[0], field) && ls[0].value == value) || Says(ls[1..], field, value)
  {
    if Says(ls[1..], field, value) {
      var i :| 0 <= i < |ls[1..]| && Named(ls[1..][i], field) && ls[1..][i].value == value;
      assert ls[i + 1] == ls[1..][i];
    }
    if Says(ls, field, value) && !(Named(ls[0], field) && ls[0].value == value) {
      var i :| 0 <= i < |ls| && Named(ls[i], field) && ls[i].value == value;
      assert ls[i] == ls[1..][i - 1];
    }
  }

  lemma {:induction false} KeepAliveStep(r: Request, l: Line)
    requires WellFormed(l)
    ensures WithLine(r, l).version == r.version
    ensures WithLine(r, l).keepAlive == (
      if !Named(l, "connection") then r.keepAlive
      else if r.version == Http11 then r.keepAlive && l.value != "close"
      else r.keepAlive || l.value == "keep-alive" || l.value == "Keep-Alive")
  {
    ValueRead(l);
  }

  /** HTTP/1.1 stays unless some line says close; others close unless some line says keep-alive. */
  lemma {:induction false} KeepAliveMeans(r: Request, ls: seq<Line>)
    requires AllWellFormed(ls)
    ensures WithLines(r, ls).keepAlive == (
      if r.version == Http11 then r.keepAlive && !Says(ls, "connection", "close")
      else r.keepAlive || Says(ls, "connection", "keep-alive") || Says(ls, "connection", "Keep-Alive"))
    ensures WithLines(r, ls).version == r.version
    decreases |ls|
  {
    if ls != [] {
      KeepAliveStep(r, ls[0]);
      SaysFirst(ls, "connection", "close");
      SaysFirst(ls, "connection", "keep-alive");
      SaysFirst(ls, "connection", "Keep-Alive");
      KeepAliveMeans(WithLine(r, ls[0]), ls[1..]);
    }
  }

  lemma {:induction false} LastIs(ls: seq<Line>, field: string)
    requires ls != []
    ensures LastOf(ls, field) ==
      if LastOf(ls[1..], field).Some? then LastOf(ls[1..], field)
      else if Named(ls[0], field) then Some(ls[0].value)
      else None
    decreases |ls|
  {
    if |ls| > 1 {
      LastIs(ls[..|ls| - 1], field);
      assert ls[1..][..|ls| - 2] == ls[..|ls| - 1][1..];
      assert ls[1..][|ls| - 2] == ls[|ls| - 1];
    }
  }

  /** The last Expect line counts. */
  lemma {:induction false} ExpectMeans(r: Request, ls: seq<Line>)
    requires AllWellFormed(ls)
    ensures WithLines(r, ls).expectation ==
      if LastOf(ls, "expect").Some? then LastOf(ls, "expect") else r.expectation
    decreases |ls|
  {
    if ls != [] {
      ValueRead(ls[0]);
      LastIs(ls, "expect");
      ExpectMeans(WithLine(r, ls[0]), ls[1..]);
    }
  }

  /** The rest of the request is not touched, nor are its cookies without a line for them. */
  lemma {:induction false} OthersStay(r: Request, ls: seq<Line>)
    requires AllWellFormed(ls)
    ensures var w := WithLines(r, ls);
      && w == r.(headers := w.headers, cookies := w.cookies, expectation := w.expectation, keepAlive := w.keepAlive)
      && (FirstOf(ls, "cookie").None? ==> w.cookies == r.cookies)
    decreases |ls|
  {
    if ls != [] {
      OthersStay(WithLine(r, ls[0]), ls[1..]);
    }
  }

  /** A version read from the request line decides first. */
  lemma {:induction false} LineSetsKeepAlive(r: Request, line: string)
    requires RequestLine(line)
    ensures ParseRequestLine(r, line).Some?
    ensures ParseRequestLine(r, line).value.keepAlive == (r.keepAlive && line[|line| - 1] == '1')
  {
    LineIs(r, line);
    assert line[|line| - 8..] in VERSIONS;
    assert line[|line| - 1] == line[|line| - 8..][7];
  }

  // ---------------------------------------------------------------- cookie lines

  /** Between two semicolons: blanks, a name, an equals sign and a value, or something without an equals sign. */
  datatype Crumb = Cookie(blanks: string, name: string, value: string) | Stray(text: string)

  predicate GoodCrumb(c: Crumb) {
    match c
    case Cookie(blanks, name, value) =>
      && (forall i :: 0 <= i < |blanks| ==> blanks[i] in BLANKS)
      && (name == "" || name[0] !in BLANKS)
      && '=' !in name && ';' !in name && ';' !in value
    case Stray(text) => '=' !in text && ';' !in text
  }

  function CrumbText(c: Crumb): string {
    match c
    case Cookie(blanks, name, value) => blanks + name + "=" + value
    case Stray(text) => text
  }

  function Jarred(c: Crumb, jar: Fields): Fields {
    match c
    case Cookie(_, name, value) => jar[name := value]
    case Stray(_) => jar
  }

  function CrumbsText(cs: seq<Crumb>): string {
    if cs == [] then "" else if |cs| == 1 then CrumbText(cs[0]) else CrumbText(cs[0]) + ";" + CrumbsText(cs[1..])
  }

  function AllJarred(cs: seq<Crumb>, jar: Fields): Fields
    decreases |cs|
  {
    if cs == [] then jar else AllJarred(cs[1..], Jarred(cs[0], jar))
  }

  lemma {:induction false} CrumbRead(c: Crumb, jar: Fields)
    requires GoodCrumb(c)
    ensures AddCookie(CrumbText(c), jar) == Jarred(c, jar) && ';' !in CrumbText(c)
  {
    var text := CrumbText(c);
    match c
    case Cookie(blanks, name, value) =>
      forall i | 0 <= i < |blanks| ensures IsSpace(blanks[i]) && blanks[i] != '=' && blanks[i] != ';' {
        BlankIs(blanks[i]);
      }
      if name != "" {
        BlankIs(name[0]);
      }
      FindIs(text, '=', |blanks + name|);
      assert text[..|blanks + name|] == blanks + name && text[|blanks + name| + 1..] == value;
      BlanksTrimmed(blanks, name);
    case Stray(_) =>
      FindIs(text, '=', |text|);
  }

  /** Blanks in front of a name and pieces without `=` are dropped, values are kept as they are, later ones win. */
  lemma {:induction false} CookiesMean(cs: seq<Crumb>, jar: Fields)
    requires forall i :: 0 <= i < |cs| ==> GoodCrumb(cs[i])
    ensures ParseCookies(CrumbsText(cs), jar) == AllJarred(cs, jar)
    decreases |cs|
  {
    if cs != [] {
      var text, first := CrumbsText(cs), CrumbText(cs[0]);
      CrumbRead(cs[0], jar);
      FindIs(text, ';', |first|);
      if |cs| == 1 {
        assert first != "" || AddCookie("", jar) == jar;
      } else {
        assert text[..|first|] == first && text[|first| + 1..] == CrumbsText(cs[1..]);
        CookiesMean(cs[1..], Jarred(cs[0], jar));
      }
    }
  }
}

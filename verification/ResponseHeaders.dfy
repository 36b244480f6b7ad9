/** What the head of a response means, said of its bytes: which status lines are taken, and which header lines count. */
module ResponseHeaders {
  import opened Wrappers
  import opened Text
  import opened ResponseParser
  import opened HeaderFields
  import ResponseRoundTrip
  import HttpRequest

  // ---------------------------------------------------------------- the status line

  /** A version, of which only the last digit counts, a code, and behind a second blank any message. */
  datatype StatusParts = StatusParts(version: string, code: string, message: string)

  predicate GoodParts(s: StatusParts) {
    && s.version != "" && (s.version[|s.version| - 1] == '0' || s.version[|s.version| - 1] == '1')
    && ' ' !in s.version && ' ' !in s.code
    && '\r' !in s.version && '\r' !in s.code && '\r' !in s.message
  }

  function PartsText(s: StatusParts): string {
    s.version + " " + s.code + " " + s.message
  }

  /** The number that a code spells, each digit standing for its place in the list of digits. */
  function CodeOf(digits: string): nat {
    if digits == "" then 0 else CodeOf(digits[..|digits| - 1]) * 10 + Find(DIGITS, digits[|digits| - 1])
  }

  lemma {:induction false} DigitPlace(c: char)
    requires c in DIGITS
    ensures Digit(c) && Find(DIGITS, c) == c as int - '0' as int
  {
    DigitsAre(c);
    assert forall j :: 0 <= j < 10 ==> DIGITS[j] == ('0' as int + j) as char;
    FindIs(DIGITS, c, c as int - '0' as int);
  }

  predicate Digits(s: string) {
    forall i :: 0 <= i < |s| ==> s[i] in DIGITS
  }

  lemma {:induction false} DigitsAreDigits(s: string)
    requires Digits(s)
    ensures forall i :: 0 <= i < |s| ==> Digit(s[i])
  {
    forall i | 0 <= i < |s| ensures Digit(s[i]) {
      DigitPlace(s[i]);
    }
  }

  lemma {:induction false} OneMoreDigit(a: string, d: char)
    requires Digits(a) && d in DIGITS
    ensures ReadDigits(a + [d], 0) == ReadDigits(a, 0) * 10 + Find(DIGITS, d)
  {
    DigitsAreDigits(a);
    DigitPlace(d);
    ReadAppend(a, d, 0);
  }

  lemma {:induction false} DigitsRead(digits: string)
    requires Digits(digits)
    ensures ReadDigits(digits, 0) == CodeOf(digits)
    decreases |digits|
  {
    if digits != "" {
      var a, d := digits[..|digits| - 1], digits[|digits| - 1];
      assert digits == a + [d];
      DigitsRead(a);
      OneMoreDigit(a, d);
    }
  }

  lemma {:induction false} BlankBehind(word: string, tail: string)
    requires ' ' !in word
    ensures var line := word + " " + tail;
      Find(line, ' ') == |word| && line[..|word|] == word && line[|word| + 1..] == tail
  {
    FindIs(word + " " + tail, ' ', |word|);
  }

  lemma {:induction false} StatusTaken(r: Response, s: StatusParts)
    requires GoodParts(s)
    ensures ParseLine(r, PartsText(s)) == Some(r.(
      version := if s.version[|s.version| - 1] == '1' then HttpRequest.Http11 else HttpRequest.Http10,
      code := Atoi(s.code)))
  {
    var tail := s.code + " " + s.message;
    BlankBehind(s.version, tail);
    BlankBehind(s.code, s.message);
    TwoBlanks(s.version, s.code, s.message);
  }

  lemma TwoBlanks(a: string, b: string, c: string)
    ensures a + " " + b + " " + c == a + " " + (b + " " + c)
  {
  }

  lemma {:induction false} StopsBehindDigits(digits: string, junk: string, acc: nat)
    requires (forall i :: 0 <= i < |digits| ==> Digit(digits[i])) && (junk == "" || !Digit(junk[0]))
    ensures ReadDigits(digits + junk, acc) == ReadDigits(digits, acc)
    decreases |digits|
  {
    if digits == "" {
      assert digits + junk == junk;
    } else {
      assert (digits + junk)[1..] == digits[1..] + junk;
      StopsBehindDigits(digits[1..], junk, acc * 10 + (digits[0] as int - '0' as int));
    }
  }

  /** atoi, which reads codes and lengths: blanks in front are skipped, and what follows the digits is not looked at. */
  lemma {:induction false} AtoiMeans(blanks: string, digits: string, junk: string)
    requires (forall i :: 0 <= i < |blanks| ==> blanks[i] in BLANKS) && Digits(digits) && digits != ""
    requires junk == "" || junk[0] !in DIGITS
    ensures Atoi(blanks + (digits + junk)) == CodeOf(digits)
  {
    forall i | 0 <= i < |blanks| ensures IsSpace(blanks[i]) {
      BlankIs(blanks[i]);
    }
    DigitsAreDigits(digits);
    assert !IsSpace((digits + junk)[0]);
    BlanksTrimmed(blanks, digits + junk);
    if junk != "" {
      DigitsAre(junk[0]);
    }
    StopsBehindDigits(digits, junk, 0);
    DigitsRead(digits);
  }

  lemma {:induction false} CodeRead(code: string)
    requires Digits(code)
    ensures Atoi(code) == CodeOf(code)
  {
    if code == "" {
      assert TrimLeft(code) == code;
    } else {
      AtoiMeans("", code, "");
      assert "" + (code + "") == code;
    }
  }

  lemma {:induction false} LineTurn(p: Parser, line: string, rest: string)
    requires p.status == ExpectLine && '\r' !in line && ParseLine(p.response, line).Some?
    ensures Parse(p, line + CRLF + rest) ==
      Parse(p.(response := ParseLine(p.response, line).value, status := ExpectHeaders), rest)
  {
    LineEnd(line, rest);
    var buf := line + CRLF + rest;
    assert buf[..|line|] == line && buf[|line| + 2..] == rest;
    var q := p.(response := ParseLine(p.response, line).value, status := ExpectHeaders);
    ResponseRoundTrip.ParseGoesOn(p, buf, q, rest);
  }

  /** A status line of that shape, with a code of digits, is taken with that code and version. */
  lemma {:induction false} StatusMeans(p: Parser, s: StatusParts, rest: string)
    requires p.status == ExpectLine && GoodParts(s) && Digits(s.code)
    ensures Parse(p, PartsText(s) + CRLF + rest) == Parse(
      p.(response := p.response.(
           version := if s.version[|s.version| - 1] == '1' then HttpRequest.Http11 else HttpRequest.Http10,
           code := CodeOf(s.code)),
         status := ExpectHeaders), rest)
  {
    StatusTaken(p.response, s);
    CodeRead(s.code);
    LineTurn(p, PartsText(s), rest);
  }

  ghost predicate IsStatusLine(line: string) {
    exists s: StatusParts :: GoodParts(s) && line == PartsText(s)
  }

  /** Every other line ends the connection. */
  lemma {:induction false} OtherLines(p: Parser, line: string, rest: string)
    requires p.status == ExpectLine && '\r' !in line && !IsStatusLine(line)
    ensures Parse(p, line + CRLF + rest).Reject?
  {
    LineEnd(line, rest);
    assert (line + CRLF + rest)[..|line|] == line;
    if ParseLine(p.response, line).Some? {
      TakenIsStatusLine(p.response, line);
    }
  }

  lemma {:induction false} SliceLacks(s: string, i: nat, j: nat, c: char)
    requires i <= j <= |s| && forall k :: i <= k < j ==> s[k] != c
    ensures c !in s[i..j]
  {
  }

  lemma {:induction false} SplitAtBlank(line: string, i: nat)
    requires i < |line| && line[i] == ' '
    ensures line == line[..i] + " " + line[i + 1..]
  {
  }

  /** What stands before the first blank, and what behind it. */
  lemma {:induction false} FirstWord(line: string)
    requires '\r' !in line
    ensures var i := Find(line, ' ');
      && ' ' !in line[..i] && '\r' !in line[..i]
      && (i < |line| ==> '\r' !in line[i + 1..] && line == line[..i] + " " + line[i + 1..])
  {
    var i := Find(line, ' ');
    SliceLacks(line, 0, i, ' ');
    SliceLacks(line, 0, i, '\r');
    if i < |line| {
      SliceLacks(line, i + 1, |line|, '\r');
      SplitAtBlank(line, i);
      assert line[i + 1..|line|] == line[i + 1..];
    }
  }

  lemma {:induction false} TakenIsStatusLine(r: Response, line: string)
    requires '\r' !in line && ParseLine(r, line).Some?
    ensures IsStatusLine(line)
  {
    var space := Find(line, ' ');
    FirstWord(line);
    var tail := line[space + 1..];
    var next := Find(tail, ' ');
    FirstWord(tail);
    TwoWords(line[..space], tail[..next], tail[next + 1..], tail, line);
  }

  lemma {:induction false} TwoWords(version: string, code: string, message: string, tail: string, line: string)
    requires tail == code + " " + message && line == version + " " + tail
    requires GoodParts(StatusParts(version, code, message))
    ensures IsStatusLine(line)
  {
    assert line == PartsText(StatusParts(version, code, message));
  }

  // ---------------------------------------------------------------- header lines

  function WithLine(r: Response, l: Line): Response {
    ResponseParser.AddHeader(r, l.name, l.left + l.value + l.right)
  }

  function WithLines(r: Response, ls: seq<Line>): Response
    decreases |ls|
  {
    if ls == [] then r else WithLines(WithLine(r, ls[0]), ls[1..])
  }

  lemma {:induction false} LineTaken(p: Parser, l: Line, rest: string)
    requires p.status == ExpectHeaders && WellFormed(l)
    ensures Parse(p, l.name + ":" + (l.left + l.value + l.right) + CRLF + rest) ==
      Parse(p.(response := WithLine(p.response, l)), rest)
  {
    var text := l.left + l.value + l.right;
    var line := l.name + ":" + text;
    assert '\r' !in line;
    LineEnd(line, rest);
    var buf := line + CRLF + rest;
    assert buf[..|line|] == line && buf[|line| + 2..] == rest;
    FindIs(line, ':', |l.name|);
    assert line[..|l.name|] == l.name && line[|l.name| + 1..] == text;
    ResponseRoundTrip.ParseGoesOn(p, buf, p.(response := WithLine(p.response, l)), rest);
  }

  /** Reading the lines adds them one after the other. */
  lemma {:induction false} LinesTaken(p: Parser, ls: seq<Line>, rest: string)
    requires p.status == ExpectHeaders && AllWellFormed(ls)
    ensures Parse(p, Bytes(ls) + rest) == Parse(p.(response := WithLines(p.response, ls)), rest)
    decreases |ls|
  {
    if ls == [] {
      assert Bytes(ls) + rest == rest;
    } else {
      var l := ls[0];
      var head := l.name + ":" + (l.left + l.value + l.right) + CRLF;
      assert Bytes(ls) + rest == head + (Bytes(ls[1..]) + rest);
      LineTaken(p, l, Bytes(ls[1..]) + rest);
      LinesTaken(p.(response := WithLine(p.response, l)), ls[1..], rest);
    }
  }

  /** A field gets the value of the last line of its name; Set-Cookie lines are apart. */
  predicate FieldIs(before: Fields, after: Fields, ls: seq<Line>, field: string) {
    var last := if field == "set-cookie" then None else LastOf(ls, field);
    match last
    case Some(value) => field in after && after[field] == value
    case None => if field in before then field in after && after[field] == before[field] else field !in after
  }

  lemma {:induction false} FieldsMean(r: Response, ls: seq<Line>, field: string)
    requires AllWellFormed(ls)
    ensures FieldIs(r.headers, WithLines(r, ls).headers, ls, field)
    decreases |ls|
  {
    if ls != [] {
      ValueRead(ls[0]);
      LastIs(ls, field);
      FieldsMean(WithLine(r, ls[0]), ls[1..], field);
    }
  }

  /** The values of the Set-Cookie lines, as they come. */
  function SetCookies(ls: seq<Line>): seq<string> {
    if ls == [] then [] else SetCookie(ls[0]) + SetCookies(ls[1..])
  }

  function SetCookie(l: Line): seq<string> {
    if Named(l, "set-cookie") then [l.value] else []
  }

  lemma {:induction false} LineKeeps(r: Response, l: Line)
    requires WellFormed(l)
    ensures var w := WithLine(r, l);
      w.cookies == r.cookies + SetCookie(l) && w == r.(headers := w.headers, cookies := w.cookies)
  {
    ValueRead(l);
  }

  lemma Bracket(a: seq<string>, b: seq<string>, c: seq<string>)
    ensures (a + b) + c == a + (b + c)
  {
  }

  /** All Set-Cookie lines are kept, in their order, and nothing else of the response changes. */
  lemma {:induction false} CookiesKept(r: Response, ls: seq<Line>)
    requires AllWellFormed(ls)
    ensures var w := WithLines(r, ls);
      w.cookies == r.cookies + SetCookies(ls) && w == r.(headers := w.headers, cookies := w.cookies)
    decreases |ls|
  {
    if ls != [] {
      LineKeeps(r, ls[0]);
      CookiesKept(WithLine(r, ls[0]), ls[1..]);
      Bracket(r.cookies, SetCookie(ls[0]), SetCookies(ls[1..]));
    }
  }
}

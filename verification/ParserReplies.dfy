/**
 What the request parser writes by itself, past the pipeline: interim responses, and the status lines of
 errors.  A reader of the connection takes each of them for the next reply.
 */
module ParserReplies {
  import opened Wrappers
  import opened Text
  import opened PipelineServer
  import opened PipelineServerProofs
  import opened EndToEnd
  import opened WireBytes
  import Http = HttpRequest
  import Parsing = RequestParser
  import Seg = SegmentationProofs
  import Printer = RequestPrinter
  import Printing = PrinterProofs
  import Lost = LostRequests

  // ---------------------------------------------------------------- what happens in one read

  /** In the order of the bytes: a status code that the parser sends, or a request that is complete. */
  datatype Act = Code(code: nat) | Whole(request: Http.Request)

  function Codes(codes: seq<nat>): (acts: seq<Act>)
    ensures |acts| == |codes| && forall i :: 0 <= i < |acts| ==> acts[i] == Code(codes[i])
  {
    seq(|codes|, i requires 0 <= i < |codes| => Code(codes[i]))
  }

  /** The codes that a turn of the parser adds to those sent before. */
  function Sent(before: seq<nat>, after: seq<nat>): seq<nat> {
    if |before| <= |after| then after[|before|..] else []
  }

  /** The codes sent in one call of the parser: interim ones, and in the end that of an error. */
  function ParseCodes(p: Parsing.Parser, buf: string, cfg: Parsing.Config): seq<nat>
    requires p.status != Parsing.GotAll
    decreases |buf|
  {
    match Parsing.TakeTurn(p, buf, cfg)
    case More(q, rest) => Sent(p.interim, q.interim) + ParseCodes(q, rest, cfg)
    case Leave(q, _) => Sent(p.interim, q.interim)
    case Reject(code) => if code.Some? then [code.value] else []
  }

  /** One read, in the order of its bytes. */
  function Trace(p: Parsing.Parser, buf: string, cfg: Parsing.Config): seq<Act>
    requires Parsing.Sound(p)
    decreases |buf|
  {
    if buf == "" then []
    else
      Parsing.ParseProgress(p, buf, cfg);
      Codes(ParseCodes(p, buf, cfg)) +
      match Parsing.Parse(p, buf, cfg)
      case Reject(_) => []
      case Leave(q, rest) =>
        if q.status != Parsing.GotAll then [] else [Whole(q.request)] + Trace(Parsing.Reset(q), rest, cfg)
  }

  /** The requests of a trace. */
  function Requests(trace: seq<Act>): seq<Http.Request> {
    if trace == [] then []
    else (if trace[0].Whole? then [trace[0].request] else []) + Requests(trace[1..])
  }

  lemma {:induction false} RequestsAppend(a: seq<Act>, b: seq<Act>)
    ensures Requests(a + b) == Requests(a) + Requests(b)
    decreases |a|
  {
    if a == [] {
      assert a + b == b;
    } else {
      RequestsAppend(a[1..], b);
      assert (a + b)[1..] == a[1..] + b && (a + b)[0] == a[0];
      var first := if a[0].Whole? then [a[0].request] else [];
      assert first + (Requests(a[1..]) + Requests(b)) == (first + Requests(a[1..])) + Requests(b);
    }
  }

  lemma {:induction false} CodesHaveNone(codes: seq<nat>)
    ensures Requests(Codes(codes)) == []
    decreases |codes|
  {
    if codes != [] {
      assert Codes(codes)[1..] == Codes(codes[1..]);
      CodesHaveNone(codes[1..]);
    }
  }

  /** The trace has exactly the requests that are complete before the first error of the read. */
  lemma {:induction false} TraceCompletes(p: Parsing.Parser, buf: string, cfg: Parsing.Config)
    requires Parsing.Sound(p)
    ensures Requests(Trace(p, buf, cfg)) == Lost.Completed(p, buf, cfg)
    decreases |buf|
  {
    if buf != "" {
      Parsing.ParseProgress(p, buf, cfg);
      var t, codes := Parsing.Parse(p, buf, cfg), Codes(ParseCodes(p, buf, cfg));
      CodesHaveNone(ParseCodes(p, buf, cfg));
      if t.Leave? && t.p.status == Parsing.GotAll {
        var tail := Trace(Parsing.Reset(t.p), t.rest, cfg);
        TraceCompletes(Parsing.Reset(t.p), t.rest, cfg);
        RequestsAppend(codes, [Whole(t.p.request)] + tail);
        assert ([Whole(t.p.request)] + tail)[1..] == tail;
      } else {
        assert codes + [] == codes;
      }
    }
  }

  // ---------------------------------------------------------------- the line

  /** A piece of a reply, or what the parser sent when so many requests were complete before it. */
  datatype Out = Item(item: WireItem) | Note(code: nat, before: nat)

  /** A server connection with its parser, and what it has written. */
  datatype Line = Line(c: Conn, session: Parsing.Session, out: seq<Out>)

  /** Bytes arrive, and the framework handles their requests so; or a handler or the loop goes on. */
  datatype Happening = Reads(bytes: string, handlings: seq<Handling>) | Pipelined(e: Event)

  function Items(items: seq<WireItem>): (r: seq<Out>)
    ensures |r| == |items| && forall i :: 0 <= i < |r| ==> r[i] == Item(items[i])
  {
    seq(|items|, i requires 0 <= i < |items| => Item(items[i]))
  }

  function Added(c: Conn, d: Conn): seq<WireItem> {
    if |c.wire| <= |d.wire| then d.wire[|c.wire|..] else []
  }

  /** What the parser writes in one read, when `before` requests were complete before it. */
  function Notes(trace: seq<Act>, before: nat): seq<Out>
    decreases |trace|
  {
    if trace == [] then []
    else
      match trace[0]
      case Code(code) => [Note(code, before)] + Notes(trace[1..], before)
      case Whole(_) => Notes(trace[1..], before + 1)
  }

  /** The requests of one read as they come to onRequests, behind those received before. */
  function Batch(requests: seq<Http.Request>, handlings: seq<Handling>, base: nat): seq<Arrival> {
    seq(|requests|, i requires 0 <= i < |requests| =>
      Arrival(View(base + i, requests[i]), if i < |handlings| then handlings[i] else Handler([])))
  }

  predicate Good(l: Line) {
    l.session.Open? ==> Parsing.Sound(l.session.p)
  }

  /** Bytes are looked at until the parser fails or the connection is told to stop. */
  predicate Listens(l: Line) {
    l.session.Open? && !l.c.stopped
  }

  function ReadTrace(l: Line, bytes: string, cfg: Parsing.Config): seq<Act>
    requires Good(l) && Listens(l)
  {
    Trace(l.session.p, l.session.pending + bytes, cfg)
  }

  function ReadFed(l: Line, bytes: string, cfg: Parsing.Config): Parsing.Fed
    requires Good(l) && Listens(l)
  {
    Parsing.Feed(l.session.p, l.session.pending + bytes, cfg)
  }

  /** The event that a read without error is for the pipeline. */
  function Arrived(l: Line, bytes: string, handlings: seq<Handling>, cfg: Parsing.Config): Event
    requires Good(l) && Listens(l) && ReadFed(l, bytes, cfg).session.Open?
  {
    var f := ReadFed(l, bytes, cfg);
    Arrive(Batch(f.requests, handlings, |l.c.received|), f.session.p.requests)
  }

  /** On a connection that is no longer open nothing is written; an error closes it. */
  function Happen(l: Line, h: Happening, cfg: Parsing.Config, limits: Limits): (r: Line)
    requires Good(l)
    ensures Good(r)
  {
    match h
    case Pipelined(e) =>
      var d := Step(l.c, e, limits);
      Line(d, l.session, l.out + Items(Added(l.c, d)))
    case Reads(bytes, handlings) =>
      if !Listens(l) then l
      else
        Parsing.FeedSound(l.session.p, l.session.pending + bytes, cfg);
        var f := ReadFed(l, bytes, cfg);
        var out := l.out + if l.c.open then Notes(ReadTrace(l, bytes, cfg), |l.c.received|) else [];
        if f.session.Closed? then Line(l.c.(open := false), f.session, out)
        else
          var d := Step(l.c, Arrived(l, bytes, handlings, cfg), limits);
          Line(d, f.session, out + Items(Added(l.c, d)))
  }

  function HappenAll(l: Line, hs: seq<Happening>, cfg: Parsing.Config, limits: Limits): Line
    requires Good(l)
    decreases |hs|
  {
    if hs == [] then l else HappenAll(Happen(l, hs[0], cfg, limits), hs[1..], cfg, limits)
  }

  /** Batches come from reads only. */
  predicate MayHappen(l: Line, h: Happening, cfg: Parsing.Config)
    requires Good(l)
  {
    match h
    case Pipelined(e) => !e.Arrive? && MayStep(l.c, e)
    case Reads(bytes, handlings) =>
      Listens(l) && ReadFed(l, bytes, cfg).session.Open? ==> MayStep(l.c, Arrived(l, bytes, handlings, cfg))
  }

  predicate MayHappenAll(l: Line, hs: seq<Happening>, cfg: Parsing.Config, limits: Limits)
    requires Good(l)
    decreases |hs|
  {
    hs == [] || (MayHappen(l, hs[0], cfg) && MayHappenAll(Happen(l, hs[0], cfg, limits), hs[1..], cfg, limits))
  }

  // ---------------------------------------------------------------- what a reader sees

  /** How many replies a reader sees: files are parts of those before them. */
  function Replied(out: seq<Out>): nat {
    if out == [] then 0
    else
      var last := out[|out| - 1];
      Replied(out[..|out| - 1]) + if last.Item? && !last.item.File? then 1 else 0
  }

  /** All requests that were complete before the parser wrote have got their replies when it does. */
  predicate InPlace(out: seq<Out>) {
    forall i :: 0 <= i < |out| && out[i].Note? ==> Replied(out[..i]) == out[i].before
  }

  /** No code is sent while so many requests wait, nor behind a complete request of the same read. */
  predicate NoneWaits(trace: seq<Act>, waiting: nat)
    decreases |trace|
  {
    trace != [] ==>
      match trace[0]
      case Code(_) => waiting == 0 && NoneWaits(trace[1..], waiting)
      case Whole(_) => NoneWaits(trace[1..], waiting + 1)
  }

  /** Whenever the parser writes, the deque is empty and no request is complete before that in the same read. */
  predicate NeverEarly(l: Line, hs: seq<Happening>, cfg: Parsing.Config, limits: Limits)
    requires Good(l)
    decreases |hs|
  {
    hs != [] ==>
      && (hs[0].Reads? && Listens(l) && l.c.open ==> NoneWaits(ReadTrace(l, hs[0].bytes, cfg), |l.c.pipeline|))
      && NeverEarly(Happen(l, hs[0], cfg, limits), hs[1..], cfg, limits)
  }

  // ---------------------------------------------------------------- counting replies

  lemma {:induction false} RepliedAppend(a: seq<Out>, b: seq<Out>)
    ensures Replied(a + b) == Replied(a) + Replied(b)
    decreases |b|
  {
    if b == [] {
      assert a + b == a;
    } else {
      var n := |b| - 1;
      RepliedAppend(a, b[..n]);
      assert (a + b)[..|a + b| - 1] == a + b[..n] && (a + b)[|a + b| - 1] == b[n];
    }
  }

  lemma {:induction false} EmitReplies(r: Reply)
    ensures Replied(Items(Emit(r))) == 1
  {
    var out := Items(Emit(r));
    assert out[..0] == [];
    if |out| == 2 {
      assert out[..1][..0] == [];
      assert Replied(out[..1]) == 1;
    }
  }

  lemma ItemsAppend(a: seq<WireItem>, b: seq<WireItem>)
    ensures Items(a + b) == Items(a) + Items(b)
  {
  }

  lemma {:induction false} ItemsReplied(a: seq<WireItem>, b: seq<WireItem>)
    ensures Replied(Items(a + b)) == Replied(Items(a)) + Replied(Items(b))
  {
    ItemsAppend(a, b);
    RepliedAppend(Items(a), Items(b));
  }

  lemma {:induction false} WrittenReplies(received: seq<Request>, answers: Answers, n: nat)
    requires n <= |received| && forall i :: 0 <= i < n ==> received[i].id in answers
    ensures Replied(Items(Written(received, answers, n))) == n
  {
    if n > 0 {
      var r, before := answers[received[n - 1].id], Written(received, answers, n - 1);
      assert Written(received, answers, n) == before + Emit(r);
      WrittenReplies(received, answers, n - 1);
      EmitReplies(r);
      ItemsReplied(before, Emit(r));
    }
  }

  lemma OneNote(code: nat, before: nat)
    ensures Replied([Note(code, before)]) == 0
  {
    assert [Note(code, before)][..0] == [];
  }

  // ---------------------------------------------------------------- one step

  /** `n` requests are written, and a reader sees as many replies. */
  ghost predicate Counted(l: Line, n: nat) {
    Good(l) && Idle(l.c, n) && Replied(l.out) == n
  }

  lemma {:induction false} InPlaceItems(out: seq<Out>, items: seq<WireItem>)
    ensures InPlace(out + Items(items)) <==> InPlace(out)
  {
    var all := out + Items(items);
    assert forall i :: 0 <= i < |out| ==> all[i] == out[i] && all[..i] == out[..i];
    if InPlace(all) {
      forall i | 0 <= i < |out| && out[i].Note? ensures Replied(out[..i]) == out[i].before {
        assert all[i] == out[i];
      }
    }
  }

  lemma {:induction false} InPlaceNote(out: seq<Out>, code: nat, before: nat)
    ensures InPlace(out + [Note(code, before)]) <==> InPlace(out) && Replied(out) == before
  {
    var all := out + [Note(code, before)];
    assert all[..|out|] == out && all[|out|] == Note(code, before);
    assert forall i :: 0 <= i < |out| ==> all[i] == out[i] && all[..i] == out[..i];
    if InPlace(all) {
      forall i | 0 <= i < |out| && out[i].Note? ensures Replied(out[..i]) == out[i].before {
        assert all[i] == out[i];
      }
    }
  }

  lemma {:induction false} OneMoreNote(out: seq<Out>, code: nat, before: nat, waiting: nat)
    requires Replied(out) + waiting == before
    ensures InPlace(out + [Note(code, before)]) <==> InPlace(out) && waiting == 0
    ensures Replied(out + [Note(code, before)]) == Replied(out)
  {
    InPlaceNote(out, code, before);
    RepliedAppend(out, [Note(code, before)]);
    OneNote(code, before);
  }

  lemma {:induction false} NotesNext(out: seq<Out>, trace: seq<Act>, before: nat)
    requires trace != []
    ensures out + Notes(trace, before) ==
      match trace[0] {
        case Code(code) => (out + [Note(code, before)]) + Notes(trace[1..], before)
        case Whole(_) => out + Notes(trace[1..], before + 1)
      }
  {
  }

  /** The notes of a read are in place exactly when no code finds a request waiting. */
  lemma {:induction false} InPlaceNotes(out: seq<Out>, trace: seq<Act>, before: nat, waiting: nat)
    requires Replied(out) + waiting == before
    ensures InPlace(out + Notes(trace, before)) <==> InPlace(out) && NoneWaits(trace, waiting)
    ensures Replied(out + Notes(trace, before)) == Replied(out)
    decreases |trace|
  {
    if trace == [] {
      assert out + [] == out;
    } else {
      NotesNext(out, trace, before);
      match trace[0] {
        case Whole(_) => InPlaceNotes(out, trace[1..], before + 1, waiting + 1);
        case Code(code) =>
          OneMoreNote(out, code, before, waiting);
          InPlaceNotes(out + [Note(code, before)], trace[1..], before, waiting);
      }
    }
  }

  lemma {:induction false} AddedReplies(c: Conn, d: Conn, n: nat, m: nat)
    requires WroteFirst(c, n) && WroteFirst(d, m) && c.wire <= d.wire
    ensures n + Replied(Items(Added(c, d))) == m
  {
    assert d.wire == c.wire + Added(c, d);
    WrittenReplies(c.received, c.answers, n);
    WrittenReplies(d.received, d.answers, m);
    ItemsReplied(c.wire, Added(c, d));
  }

  /** A step of the pipeline behind what was written, notes or not. */
  lemma {:induction false} StepCounts(c: Conn, out: seq<Out>, n: nat, e: Event, limits: Limits) returns (m: nat)
    requires Idle(c, n) && Replied(out) == n && MayStep(c, e)
    ensures var d := Step(c, e, limits);
      && Idle(d, m) && Replied(out + Items(Added(c, d))) == m
      && (InPlace(out + Items(Added(c, d))) <==> InPlace(out))
  {
    var d := Step(c, e, limits);
    m := StepKeeps(c, n, e, limits);
    StepAppends(c, e, limits);
    AddedReplies(c, d, n, m);
    RepliedAppend(out, Items(Added(c, d)));
    InPlaceItems(out, Added(c, d));
  }

  /** On an open connection everything received is written or in the deque. */
  lemma ClosingIdle(c: Conn, n: nat)
    requires Idle(c, n) && c.open
    ensures Idle(c.(open := false), n) && |c.received| == n + |c.pipeline|
  {
    IdleWire(c, n);
  }

  /** What a read writes by itself. */
  lemma {:induction false} NotesCount(l: Line, n: nat, bytes: string, cfg: Parsing.Config) returns (out: seq<Out>)
    requires Counted(l, n) && Listens(l)
    ensures out == l.out + if l.c.open then Notes(ReadTrace(l, bytes, cfg), |l.c.received|) else []
    ensures Replied(out) == n
    ensures InPlace(out) <==>
      InPlace(l.out) && (l.c.open ==> NoneWaits(ReadTrace(l, bytes, cfg), |l.c.pipeline|))
  {
    if l.c.open {
      ClosingIdle(l.c, n);
      InPlaceNotes(l.out, ReadTrace(l, bytes, cfg), |l.c.received|, |l.c.pipeline|);
      out := l.out + Notes(ReadTrace(l, bytes, cfg), |l.c.received|);
    } else {
      out := l.out + [];
      assert l.out + [] == l.out;
    }
  }

  lemma {:induction false} ReadCounts(l: Line, n: nat, bytes: string, handlings: seq<Handling>, cfg: Parsing.Config,
                                      limits: Limits) returns (m: nat)
    requires Counted(l, n) && Listens(l) && MayHappen(l, Reads(bytes, handlings), cfg)
    ensures var l1 := Happen(l, Reads(bytes, handlings), cfg, limits);
      && Counted(l1, m)
      && (InPlace(l1.out) <==>
            InPlace(l.out) && (l.c.open ==> NoneWaits(ReadTrace(l, bytes, cfg), |l.c.pipeline|)))
  {
    var out := NotesCount(l, n, bytes, cfg);
    m := n;
    if ReadFed(l, bytes, cfg).session.Open? {
      m := StepCounts(l.c, out, n, Arrived(l, bytes, handlings, cfg), limits);
    } else if l.c.open {
      ClosingIdle(l.c, n);
    }
  }

  // ---------------------------------------------------------------- runs

  lemma {:induction false} NotesFrom(l: Line, n: nat, hs: seq<Happening>, cfg: Parsing.Config, limits: Limits)
    requires Counted(l, n) && MayHappenAll(l, hs, cfg, limits)
    ensures InPlace(HappenAll(l, hs, cfg, limits).out) <==> InPlace(l.out) && NeverEarly(l, hs, cfg, limits)
    decreases |hs|
  {
    if hs != [] {
      var m := n;
      match hs[0] {
        case Pipelined(e) => m := StepCounts(l.c, l.out, n, e, limits);
        case Reads(bytes, handlings) =>
          if Listens(l) {
            m := ReadCounts(l, n, bytes, handlings, cfg, limits);
          }
      }
      NotesFrom(Happen(l, hs[0], cfg, limits), m, hs[1..], cfg, limits);
    }
  }

  const OPENED := Line(INITIAL, Parsing.Open(Parsing.START, ""), [])

  /**
   In every run from a new connection, for all bytes and handlers: what the parser writes by itself comes
   behind the replies to all requests complete before it, exactly when it writes only while the deque is
   empty and no request is complete before that in the same read.
   */
  lemma NotesInPlace(hs: seq<Happening>, cfg: Parsing.Config, limits: Limits)
    requires MayHappenAll(OPENED, hs, cfg, limits)
    ensures InPlace(HappenAll(OPENED, hs, cfg, limits).out) <==> NeverEarly(OPENED, hs, cfg, limits)
  {
    assert Idle(INITIAL, 0);
    NotesFrom(OPENED, 0, hs, cfg, limits);
  }

  // ---------------------------------------------------------------- three cases

  lemma HeadSends(p: Parsing.Parser, buf: string, cfg: Parsing.Config)
    requires p.status == Parsing.ExpectHeaders && !Parsing.OnHeader(p, buf, cfg).Reject?
    ensures p.interim <= Parsing.OnHeader(p, buf, cfg).p.interim
  {
  }

  /** Codes sent without an error are the interim ones. */
  lemma TurnSends(p: Parsing.Parser, buf: string, cfg: Parsing.Config)
    requires p.status != Parsing.GotAll && !Parsing.TakeTurn(p, buf, cfg).Reject?
    ensures p.interim <= Parsing.TakeTurn(p, buf, cfg).p.interim
  {
    if p.status == Parsing.ExpectHeaders {
      HeadSends(p, buf, cfg);
    }
  }

  lemma SentTwice(a: seq<nat>, b: seq<nat>, c: seq<nat>)
    requires a <= b <= c
    ensures Sent(a, b) + Sent(b, c) == c[|a|..]
  {
  }

  lemma {:induction false} ParseSends(p: Parsing.Parser, buf: string, cfg: Parsing.Config)
    requires p.status != Parsing.GotAll && Parsing.Parse(p, buf, cfg).Leave?
    ensures var q := Parsing.Parse(p, buf, cfg).p;
      p.interim <= q.interim && ParseCodes(p, buf, cfg) == q.interim[|p.interim|..]
    decreases |buf|
  {
    TurnSends(p, buf, cfg);
    var t := Parsing.TakeTurn(p, buf, cfg);
    if t.More? {
      ParseSends(t.p, t.rest, cfg);
      SentTwice(p.interim, t.p.interim, Parsing.Parse(p, buf, cfg).p.interim);
    }
  }

  /** A printed request makes the parser send nothing. */
  lemma {:induction false} PrintedTrace(p: Parsing.Parser, s: Printing.Sent, behind: string, cfg: Parsing.Config)
    returns (r: Http.Request, q: Parsing.Parser)
    requires Printing.Ready(p) && Printing.Sendable(s, cfg)
    ensures Printing.Ready(q) && q.interim == p.interim
    ensures Trace(p, TextOf(s, cfg) + behind, cfg) == [Whole(r)] + Trace(q, behind, cfg)
    ensures Parsing.Feed(p, TextOf(s, cfg) + behind, cfg) == Parsing.Prepend(r, Parsing.Feed(q, behind, cfg))
  {
    var text := TextOf(s, cfg);
    Printing.PrintedParses(p, s.m, s.keys, s.names, behind, cfg);
    Parsing.ParseProgress(p, text + behind, cfg);
    ParseSends(p, text + behind, cfg);
    var t := Parsing.Parse(p, text + behind, cfg);
    r, q := t.p.request, Parsing.Reset(t.p);
    assert text != "" && Codes([]) == [];
    assert [] + ([Whole(r)] + Trace(q, behind, cfg)) == [Whole(r)] + Trace(q, behind, cfg);
  }

  function TextOf(s: Printing.Sent, cfg: Parsing.Config): (text: string)
    requires Printing.Sendable(s, cfg)
  {
    Printer.Print(s.m, s.keys, s.names)
  }

  lemma {:induction false} JunkTrace(p: Parsing.Parser, cfg: Parsing.Config)
    requires Parsing.Sound(p) && p.status == Parsing.ExpectMethod
    ensures Trace(p, Lost.JUNK, cfg) == [Code(405)]
  {
    Lost.JunkFails(p, cfg);
    FindIs(Lost.JUNK, ' ', 1);
    assert Lost.JUNK[..1] == "X";
    assert ParseCodes(p, Lost.JUNK, cfg) == [405] && Codes([405]) == [Code(405)];
    assert [Code(405)] + [] == [Code(405)];
  }

  /** The head of a request that announces `n` bytes and asks whether to send them. */
  function Announcement(m: Printer.Message, keys: seq<string>, n: nat): string
    requires Printer.Lists(keys, m.parameters)
  {
    Http.MethodName(m.verb) + " " + (Printer.Target(m, keys) + " " + Printer.VersionName(m.version) + CRLF +
      (Printer.LENGTH_NAME + Decimal(n) + CRLF + (Printer.HeaderLine("Expect", "100-continue") + CRLF)))
  }

  predicate MayAnnounce(m: Printer.Message, keys: seq<string>, n: nat, cfg: Parsing.Config) {
    && Printer.Lists(keys, m.parameters) && Printing.Url.IsBytes(m.path)
    && m.verb != Http.Invalid && m.version == Http.Http11 && 0 < n <= cfg.maxBody
  }

  lemma {:induction false} ExpectReads(r: Http.Request)
    ensures Http.AddHeader(r, "Expect", " " + "100-continue") == r.(expectation := Some("100-continue"),
              headers := Http.PutHeader(r.headers, "expect", "100-continue"))
  {
    Printing.LowerIs("Expect", "expect");
    var value := "100-continue";
    assert (" " + value)[1..] == value;
    assert TrimLeft(" " + value) == TrimLeft(value) == value && TrimRight(value) == value;
  }

  /** The blank line of such a head: the parser answers 100 and waits for the body. */
  lemma {:induction false} Expected100(p: Parsing.Parser, n: nat, cfg: Parsing.Config)
    requires p.status == Parsing.ExpectHeaders && p.contentLength == 0 && 0 < n <= cfg.maxBody
    requires p.request.version == Http.Http11 && p.request.expectation == Some("100-continue")
    requires Http.HeaderBy(p.request, "content-length") == Decimal(n)
    ensures var t := Parsing.Parse(p, CRLF, cfg);
      t.Leave? && t.rest == "" && t.p.status == Parsing.ExpectBody && t.p.interim == p.interim + [100]
  {
    assert CRLF + "" == CRLF;
    Printing.BlankLineTurn(p, "", cfg);
    DecimalRoundTrip(n);
    var p1 := p.(contentLength := n, status := Parsing.ExpectBody);
    assert Parsing.Framing(p) == Parsing.More(p1, "");
    var p2 := Parsing.ReserveBody(p1.(interim := p.interim + [100]), cfg);
    assert Parsing.TakeTurn(p, CRLF, cfg) == Parsing.More(p2, "");
    assert Parsing.Parse(p2, "", cfg) == Parsing.Leave(p2, "");
  }

  lemma {:induction false} AnnouncementParses(p: Parsing.Parser, m: Printer.Message, keys: seq<string>, n: nat,
                                              cfg: Parsing.Config)
    requires Printing.Ready(p) && MayAnnounce(m, keys, n, cfg)
    ensures var t := Parsing.Parse(p, Announcement(m, keys, n), cfg);
      t.Leave? && t.rest == "" && t.p.status == Parsing.ExpectBody && t.p.interim == p.interim + [100]
  {
    var tail2 := Printer.HeaderLine("Expect", "100-continue") + CRLF;
    var tail1 := Printer.LENGTH_NAME + Decimal(n) + CRLF + tail2;
    var line := Printer.Target(m, keys) + " " + Printer.VersionName(m.version) + CRLF + tail1;
    Printing.MethodParses(p, m.verb, line, cfg);
    var p1 := p.(request := p.request.(verb := m.verb), status := Parsing.ExpectRequestLine);
    Printing.LineAfterMethod(p1, m, keys, tail1, cfg);
    var p2 := p1.(request := Printing.Lined(p1.request, m, keys), status := Parsing.ExpectHeaders);
    Printing.LengthLineParses(p2, n, tail2, cfg);
    var p3 := p2.(request := p2.request.(headers := map["content-length" := Decimal(n)]));
    ExpectParses(p3, n, cfg);
  }

  lemma {:induction false} ExpectParses(p: Parsing.Parser, n: nat, cfg: Parsing.Config)
    requires p.status == Parsing.ExpectHeaders && p.contentLength == 0 && 0 < n <= cfg.maxBody
    requires p.request.version == Http.Http11 && p.request.headers == map["content-length" := Decimal(n)]
    ensures var t := Parsing.Parse(p, Printer.HeaderLine("Expect", "100-continue") + CRLF, cfg);
      t.Leave? && t.rest == "" && t.p.status == Parsing.ExpectBody && t.p.interim == p.interim + [100]
  {
    Printing.HeaderTurn(p, "Expect", "100-continue", CRLF, cfg);
    ExpectReads(p.request);
    var q := p.(request := Http.AddHeader(p.request, "Expect", " " + "100-continue"));
    Seg.ParseGoesOn(p, Printer.HeaderLine("Expect", "100-continue") + CRLF, q, CRLF, cfg);
    Expected100(q, n, cfg);
  }

  lemma {:induction false} AnnouncementTrace(p: Parsing.Parser, m: Printer.Message, keys: seq<string>, n: nat,
                                             cfg: Parsing.Config)
    requires Printing.Ready(p) && MayAnnounce(m, keys, n, cfg)
    ensures Trace(p, Announcement(m, keys, n), cfg) == [Code(100)]
    ensures var f := Parsing.Feed(p, Announcement(m, keys, n), cfg); f.requests == [] && f.session.Open?
  {
    var text := Announcement(m, keys, n);
    AnnouncementParses(p, m, keys, n, cfg);
    ParseSends(p, text, cfg);
    Parsing.ParseProgress(p, text, cfg);
    assert text != "" && (p.interim + [100])[|p.interim|..] == [100];
    assert Codes([100]) == [Code(100)] && [Code(100)] + [] == [Code(100)];
  }

  /** One request arrives, and its handler does not answer yet. */
  lemma {:induction false} OneArrives(r: Http.Request, parsed: nat)
    ensures var e := Arrive(Batch([r], [], 0), parsed);
      && MayStep(INITIAL, e)
      && Step(INITIAL, e, Limits(0, 0)) == INITIAL.(received := [View(0, r)], pipeline := [Slot(View(0, r), None)])
  {
    var batch, req := Batch([r], [], 0), View(0, r);
    var d := INITIAL.(received := [req], pipeline := [Slot(req, None)]);
    assert batch == [Arrival(req, Handler([]))] && batch[1..] == [];
    assert INITIAL.received + [req] == [req] && INITIAL.pipeline + [Slot(req, None)] == [Slot(req, None)];
    assert Iterate(INITIAL, batch[0]) == d;
    assert BatchLoop(INITIAL, batch) == BatchLoop(d, []);
  }

  lemma NothingAdded(c: Conn, d: Conn)
    requires c.wire == d.wire
    ensures Items(Added(c, d)) == []
  {
  }

  lemma FirstNote(code: nat)
    ensures !InPlace([Note(code, 1)])
  {
    assert [Note(code, 1)][..0] == [];
    assert [Note(code, 1)][0].Note?;
  }

  lemma {:induction false} OneHappening(l: Line, h: Happening, cfg: Parsing.Config, limits: Limits)
    requires Good(l) && MayHappen(l, h, cfg)
    ensures MayHappenAll(l, [h], cfg, limits) && HappenAll(l, [h], cfg, limits) == Happen(l, h, cfg, limits)
  {
    assert [h][1..] == [];
  }

  /** A first read with one complete request, which is not answered yet. */
  lemma {:induction false} FirstRead(bytes: string, r: Http.Request, session: Parsing.Session, cfg: Parsing.Config)
    requires Parsing.Feed(Parsing.START, bytes, cfg) == Parsing.Fed([r], session) && session.Open?
    ensures MayHappen(OPENED, Reads(bytes, []), cfg)
    ensures Happen(OPENED, Reads(bytes, []), cfg, Limits(0, 0)) ==
      Line(INITIAL.(received := [View(0, r)], pipeline := [Slot(View(0, r), None)]), session,
           Notes(Trace(Parsing.START, bytes, cfg), 0))
  {
    assert "" + bytes == bytes;
    OneArrives(r, session.p.requests);
    NothingAdded(INITIAL, Step(INITIAL, Arrived(OPENED, bytes, [], cfg), Limits(0, 0)));
    NothingAround(Notes(Trace(Parsing.START, bytes, cfg), 0));
  }

  lemma NothingAround(out: seq<Out>)
    ensures [] + out == out && out + [] == out
  {
  }

  /**
   A request and behind it, in the same read, the head of one that expects a 100: that is sent before the
   first request is even handed over, and a reader takes it for the reply to it.
   */
  lemma {:induction false} InterimOvertakes(s: Printing.Sent, m: Printer.Message, keys: seq<string>, n: nat,
                                            cfg: Parsing.Config)
    requires Printing.Sendable(s, cfg) && MayAnnounce(m, keys, n, cfg)
    ensures var hs, none := [Reads(TextOf(s, cfg) + Announcement(m, keys, n), [])], Limits(0, 0);
      && MayHappenAll(OPENED, hs, cfg, none)
      && HappenAll(OPENED, hs, cfg, none).out == [Note(100, 1)] && !InPlace([Note(100, 1)])
  {
    var behind := Announcement(m, keys, n);
    var bytes := TextOf(s, cfg) + behind;
    var r, q := PrintedTrace(Parsing.START, s, behind, cfg);
    AnnouncementTrace(q, m, keys, n, cfg);
    var session := Parsing.Feed(q, behind, cfg).session;
    assert [r] + [] == [r];
    FirstRead(bytes, r, session, cfg);
    NotesBehind(r, 100);
    NothingAround([Note(100, 1)]);
    OneHappening(OPENED, Reads(bytes, []), cfg, Limits(0, 0));
    FirstNote(100);
  }

  lemma {:induction false} NotesBehind(r: Http.Request, code: nat)
    ensures [] + Notes([Whole(r)] + [Code(code)], 0) == [Note(code, 1)]
  {
    var trace := [Whole(r)] + [Code(code)];
    assert trace[1..] == [Code(code)] && [Code(code)][1..] == [];
    assert Notes([Code(code)], 1) == [Note(code, 1)] + Notes([], 1);
  }

  /** A request and an unknown method behind it in the same read: the refusal is all that is ever written. */
  lemma {:induction false} OnlyTheRefusal(s: Printing.Sent, cfg: Parsing.Config)
    requires Printing.Sendable(s, cfg)
    ensures var hs, none := [Reads(TextOf(s, cfg) + Lost.JUNK, [])], Limits(0, 0);
      && MayHappenAll(OPENED, hs, cfg, none)
      && HappenAll(OPENED, hs, cfg, none).out == [Note(405, 1)] && !InPlace([Note(405, 1)])
      && !HappenAll(OPENED, hs, cfg, none).c.open
  {
    var bytes, none := TextOf(s, cfg) + Lost.JUNK, Limits(0, 0);
    var r, q := PrintedTrace(Parsing.START, s, Lost.JUNK, cfg);
    JunkTrace(q, cfg);
    Lost.JunkFails(q, cfg);
    assert "" + bytes == bytes;
    NotesBehind(r, 405);
    OneHappening(OPENED, Reads(bytes, []), cfg, none);
    FirstNote(405);
  }

  lemma {:induction false} JunkRefused(l: Line, cfg: Parsing.Config)
    requires l.session.Open? && Printing.Ready(l.session.p) && l.session.pending == ""
    requires |l.c.received| == 1 && l.c.open && !l.c.stopped
    ensures MayHappen(l, Reads(Lost.JUNK, []), cfg)
    ensures Happen(l, Reads(Lost.JUNK, []), cfg, Limits(0, 0)).out == l.out + [Note(405, 1)]
  {
    JunkTrace(l.session.p, cfg);
    Lost.JunkFails(l.session.p, cfg);
    assert "" + Lost.JUNK == Lost.JUNK;
    assert Notes([Code(405)], 1) == [Note(405, 1)] + Notes([Code(405)][1..], 1);
  }

  /** The same in two reads: the refusal leaves while the first request is still being handled. */
  lemma {:induction false} RefusalOvertakes(s: Printing.Sent, cfg: Parsing.Config)
    requires Printing.Sendable(s, cfg)
    ensures var hs, none := [Reads(TextOf(s, cfg), []), Reads(Lost.JUNK, [])], Limits(0, 0);
      && MayHappenAll(OPENED, hs, cfg, none)
      && HappenAll(OPENED, hs, cfg, none).out == [Note(405, 1)] && !InPlace([Note(405, 1)])
  {
    var text, none := TextOf(s, cfg), Limits(0, 0);
    var l := FirstPending(s, cfg);
    JunkRefused(l, cfg);
    assert [] + [Note(405, 1)] == [Note(405, 1)];
    OneHappening(l, Reads(Lost.JUNK, []), cfg, none);
    assert [Reads(text, []), Reads(Lost.JUNK, [])][1..] == [Reads(Lost.JUNK, [])];
    FirstNote(405);
  }

  lemma {:induction false} FirstPending(s: Printing.Sent, cfg: Parsing.Config) returns (l: Line)
    requires Printing.Sendable(s, cfg)
    ensures MayHappen(OPENED, Reads(TextOf(s, cfg), []), cfg)
    ensures l == Happen(OPENED, Reads(TextOf(s, cfg), []), cfg, Limits(0, 0)) && l.out == []
    ensures l.session.Open? && Printing.Ready(l.session.p) && l.session.pending == ""
    ensures |l.c.received| == 1 && l.c.open && !l.c.stopped
  {
    var text := TextOf(s, cfg);
    var r, q := PrintedTrace(Parsing.START, s, "", cfg);
    assert text + "" == text && [r] + [] == [r];
    FirstRead(text, r, Parsing.Open(q, ""), cfg);
    OnlyWhole(r);
    l := Happen(OPENED, Reads(text, []), cfg, Limits(0, 0));
  }

  lemma {:induction false} OnlyWhole(r: Http.Request)
    ensures [Whole(r)] + [] == [Whole(r)] && Notes([Whole(r)], 0) == []
  {
    assert [Whole(r)][1..] == [];
  }
}

/**
 One connection down to its bytes: requests printed, cut and parsed, the server's run on them, and its
 responses rendered, cut and parsed.
 */
module WireBytes {
  import opened PipelineServer
  import opened PipelineServerProofs
  import Http = HttpRequest
  import Requests = RequestParser
  import Printer = RequestPrinter
  import Printing = PrinterProofs
  import Seg = SegmentationProofs
  import Renderer = ResponseRenderer
  import Responses = ResponseParser
  import Rendering = ResponseRoundTrip
  import Both = EndToEnd

  /** How a reply is rendered, and the order of its headers. */
  type Look = Reply -> (Renderer.Outgoing, seq<string>)

  function SentAs(look: Look, r: Reply): Rendering.Sent {
    Rendering.Sent(look(r).0, look(r).1, r.head)
  }

  /** The reply can be rendered, in the version of its request, and closing if that does not keep alive. */
  predicate Renders(look: Look, r: Reply) {
    && Rendering.Sendable(SentAs(look, r))
    && look(r).0.closes == r.close
    && look(r).0.version == if r.http10 then Http.Http10 else Http.Http11
  }

  ghost predicate Good(look: Look) {
    forall r :: Renders(look, r)
  }

  ghost function RenderOne(look: Look, r: Reply): string
    requires Good(look)
  {
    assert Renders(look, r);
    Renderer.Render(look(r).0, look(r).1, r.head)
  }

  /** One item as bytes; `files` are the contents of files sent behind headers. */
  ghost function ItemBytes(look: Look, files: string -> string, item: WireItem): string
    requires Good(look)
  {
    match item
    case Full(resp, close, http10) => RenderOne(look, Reply(resp, false, close, http10))
    case HeaderOnly(resp, close, http10) => RenderOne(look, Reply(resp, true, close, http10))
    case File(name) => files(name)
  }

  ghost function Bytes(look: Look, files: string -> string, items: seq<WireItem>): string
    requires Good(look)
  {
    if items == [] then "" else ItemBytes(look, files, items[0]) + Bytes(look, files, items[1..])
  }

  function SentAll(look: Look, rs: seq<Reply>): (ss: seq<Rendering.Sent>)
    ensures |ss| == |rs| && forall i :: 0 <= i < |rs| ==> ss[i] == SentAs(look, rs[i])
  {
    seq(|rs|, i requires 0 <= i < |rs| => SentAs(look, rs[i]))
  }

  lemma AllSent(look: Look, rs: seq<Reply>)
    requires Good(look)
    ensures Rendering.AllSendable(SentAll(look, rs))
  {
    forall i | 0 <= i < |rs| ensures Rendering.Sendable(SentAll(look, rs)[i]) {
      assert Renders(look, rs[i]);
    }
  }

  // ---------------------------------------------------------------- responses

  lemma EmitFirst(look: Look, files: string -> string, r: Reply, rest: seq<WireItem>)
    requires Good(look) && r.resp.sendfile == ""
    ensures Bytes(look, files, Emit(r) + rest) == RenderOne(look, r) + Bytes(look, files, rest)
  {
    assert (Emit(r) + rest)[1..] == rest && (Emit(r) + rest)[0] == Emit(r)[0];
    assert ItemBytes(look, files, Emit(r)[0]) == RenderOne(look, r);
  }

  lemma RenderFirst(look: Look, rs: seq<Reply>)
    requires Good(look) && rs != []
    ensures Rendering.AllSendable(SentAll(look, rs)) && Rendering.AllSendable(SentAll(look, rs[1..]))
    ensures Rendering.RenderAll(SentAll(look, rs)) ==
      RenderOne(look, rs[0]) + Rendering.RenderAll(SentAll(look, rs[1..]))
  {
    AllSent(look, rs);
    AllSent(look, rs[1..]);
    assert SentAll(look, rs)[1..] == SentAll(look, rs[1..]);
  }

  /** Without files, replies one behind the other are their renderings one behind the other. */
  lemma {:induction false} FlatBytes(look: Look, files: string -> string, rs: seq<Reply>)
    requires Good(look) && forall i :: 0 <= i < |rs| ==> rs[i].resp.sendfile == ""
    ensures Rendering.AllSendable(SentAll(look, rs))
    ensures Bytes(look, files, Both.Flat(rs)) == Rendering.RenderAll(SentAll(look, rs))
    decreases |rs|
  {
    if rs == [] {
      AllSent(look, rs);
    } else {
      EmitFirst(look, files, rs[0], Both.Flat(rs[1..]));
      FlatBytes(look, files, rs[1..]);
      RenderFirst(look, rs);
    }
  }

  ghost function ExpectedOf(look: Look, r: Reply): Responses.Response
    requires Good(look)
  {
    assert Renders(look, r);
    Rendering.Expected(look(r).0, r.head)
  }

  /** The responses that the client should read, without bodies for HEAD. */
  ghost predicate ReadBack(responses: seq<Responses.Response>, look: Look, rs: seq<Reply>)
    requires Good(look)
  {
    |responses| == |rs| && forall i :: 0 <= i < |rs| ==> responses[i] == ExpectedOf(look, rs[i])
  }

  lemma {:induction false} ExpectedAllAt(ss: seq<Rendering.Sent>, i: nat)
    requires Rendering.AllSendable(ss) && i < |ss|
    ensures |Rendering.ExpectedAll(ss)| == |ss|
    ensures Rendering.Sendable(ss[i]) && Rendering.ExpectedAll(ss)[i] == Rendering.Expected(ss[i].o, ss[i].forHead)
    decreases |ss|
  {
    assert Rendering.Sendable(ss[i]);
    if |ss| > 1 {
      assert forall j :: 0 <= j < |ss[1..]| ==> ss[1..][j] == ss[j + 1];
      ExpectedAllAt(ss[1..], if i == 0 then 0 else i - 1);
    }
  }

  lemma {:induction false} RepliesReadBack(look: Look, rs: seq<Reply>)
    requires Good(look)
    ensures Rendering.AllSendable(SentAll(look, rs))
    ensures ReadBack(Rendering.ExpectedAll(SentAll(look, rs)), look, rs)
  {
    var ss := SentAll(look, rs);
    AllSent(look, rs);
    var responses := Rendering.ExpectedAll(ss);
    forall i | 0 <= i < |rs| ensures |responses| == |rs| && responses[i] == ExpectedOf(look, rs[i]) {
      ExpectedAllAt(ss, i);
    }
  }

  /** Replies rendered one behind the other and cut anywhere are read back, in order, with nothing left. */
  lemma {:induction false} FlatReadBack(look: Look, files: string -> string, rs: seq<Reply>, pieces: seq<string>,
                                        heads: Responses.Heads)
    requires Good(look) && Seg.Joined(pieces) == Bytes(look, files, Both.Flat(rs))
    requires forall i :: 0 <= i < |rs| ==> rs[i].resp.sendfile == "" && heads(i) == rs[i].head
    ensures var f := Responses.Reads(Responses.START, "", 0, pieces, heads);
      ReadBack(f.responses, look, rs) && f.session == Responses.Open(Responses.START, "", |rs|)
  {
    FlatBytes(look, files, rs);
    Rendering.RenderedStream(SentAll(look, rs), pieces, heads);
    RepliesReadBack(look, rs);
  }

  /** What comes back shows the version of the request, and whether its connection stays open. */
  lemma VersionShows(look: Look, r: Reply)
    requires Good(look)
    ensures ExpectedOf(look, r).version == if r.http10 then Http.Http10 else Http.Http11
  {
    assert Renders(look, r);
  }

  ghost predicate NoFiles(offers: set<Offer>) {
    forall o :: o in offers ==> o.1.resp.sendfile == ""
  }

  /**
   Whatever the order in which handlers finish and however the connection cuts the server's bytes, the
   client reads exactly the responses given for the first requests, in their order, and nothing is left.
   */
  lemma {:induction false} ResponsesArrive(events: seq<Event>, limits: Limits, look: Look, files: string -> string,
                                           pieces: seq<string>, heads: Responses.Heads) returns (rs: seq<Reply>)
    requires MayRun(INITIAL, events, limits) && Good(look) && NoFiles(RunOffers(events))
    requires var c := Run(INITIAL, events, limits);
      && Seg.Joined(pieces) == Bytes(look, files, c.wire)
      && forall i :: 0 <= i < |c.received| ==> heads(i) == c.received[i].head
    ensures var c, f := Run(INITIAL, events, limits), Responses.Reads(Responses.START, "", 0, pieces, heads);
      && |rs| <= |c.received|
      && (forall i :: 0 <= i < |rs| ==> (c.received[i].id, rs[i]) in RunOffers(events) && Fits(rs[i], c.received[i]))
      && ReadBack(f.responses, look, rs) && f.session == Responses.Open(Responses.START, "", |rs|)
      && c.wire == Both.Flat(rs) && (c.wire == Expected(c) <==> !c.selfHead)
  {
    var n := ResponsesInOrder(events, limits);
    var c := Run(INITIAL, events, limits);
    rs := Both.WrittenAsReplies(c.received, c.answers, n);
    FlatReadBack(look, files, rs, pieces, heads);
  }

  // ---------------------------------------------------------------- requests and responses

  /** The `i`-th parsed request as the server knows it. */
  function View(i: nat, r: Http.Request): Request {
    Request(i, r.verb == Http.Head, !r.keepAlive, r.version == Http.Http10)
  }

  /** The server was given the first of the parsed requests, in their order. */
  ghost predicate Given(received: seq<Request>, parsed: seq<Http.Request>) {
    |received| <= |parsed| && forall i :: 0 <= i < |received| ==> received[i] == View(i, parsed[i])
  }

  predicate IsHead(sent: seq<Printing.Sent>, i: nat) {
    i < |sent| && sent[i].m.verb == Http.Head
  }

  function HeadsOf(sent: seq<Printing.Sent>): Responses.Heads {
    (i: nat) => IsHead(sent, i)
  }

  /** A printed request as the server will know it. */
  function AsPrinted(i: nat, m: Printer.Message): Request {
    Request(i, m.verb == Http.Head, !Printing.KeptAlive(m.version, m.headers), m.version == Http.Http10)
  }

  lemma {:induction false} GivenAsPrinted(received: seq<Request>, parsed: seq<Http.Request>, sent: seq<Printing.Sent>,
                                          cfg: Requests.Config)
    requires Printing.AllSendable(sent, cfg) && Printing.AllRecovered(parsed, sent, cfg) && Given(received, parsed)
    ensures |received| <= |sent|
    ensures forall i :: 0 <= i < |received| ==> received[i] == AsPrinted(i, sent[i].m)
  {
    forall i | 0 <= i < |received| ensures received[i] == AsPrinted(i, sent[i].m) {
      assert Printing.Sendable(sent[i], cfg);
      assert Printing.Recovers(parsed[i], sent[i].m, sent[i].keys, cfg);
    }
  }

  /** The requests were printed one behind the other, and cut anywhere but where the parser starves. */
  predicate Printed(sent: seq<Printing.Sent>, up: seq<string>, cfg: Requests.Config) {
    && Printing.AllSendable(sent, cfg) && Seg.Joined(up) == Printing.PrintAll(sent, cfg)
    && !Seg.ReadsStarve(Requests.START, "", up, cfg)
  }

  /** The server's run on what was parsed, and its bytes in pieces. */
  ghost predicate Served(events: seq<Event>, limits: Limits, parsed: seq<Http.Request>, look: Look,
                         files: string -> string, down: seq<string>) {
    && MayRun(INITIAL, events, limits) && Good(look) && NoFiles(RunOffers(events))
    && Given(Run(INITIAL, events, limits).received, parsed)
    && Seg.Joined(down) == Bytes(look, files, Run(INITIAL, events, limits).wire)
  }

  /** The response is an answer that a handler gave for the `i`-th request, as that request asks for it. */
  ghost predicate ReadFor(response: Responses.Response, look: Look, m: Printer.Message, i: nat, events: seq<Event>)
    requires Good(look)
  {
    exists reply: Reply ::
      && (i, reply) in RunOffers(events) && Fits(reply, AsPrinted(i, m)) && response == ExpectedOf(look, reply)
  }

  lemma {:induction false} ReadForEach(responses: seq<Responses.Response>, look: Look, received: seq<Request>,
                                       rs: seq<Reply>, sent: seq<Printing.Sent>, events: seq<Event>)
    requires Good(look) && |rs| <= |received| <= |sent|
    requires forall i :: 0 <= i < |received| ==> received[i] == AsPrinted(i, sent[i].m)
    requires forall i :: 0 <= i < |rs| ==> (received[i].id, rs[i]) in RunOffers(events) && Fits(rs[i], received[i])
    requires ReadBack(responses, look, rs)
    ensures forall i :: 0 <= i < |rs| ==> ReadFor(responses[i], look, sent[i].m, i, events)
  {
    forall i | 0 <= i < |rs| ensures ReadFor(responses[i], look, sent[i].m, i, events) {
      assert received[i] == AsPrinted(i, sent[i].m);
      assert responses[i] == ExpectedOf(look, rs[i]);
      assert (i, rs[i]) in RunOffers(events);
    }
  }

  /**
   One connection, bytes both ways: requests printed one behind the other and cut anywhere but where the
   parser starves, a server run on what was parsed, and its bytes cut anywhere.  The `i`-th response that
   the client reads is what was answered to the `i`-th request that it printed: in its version, without a
   body if that was a HEAD request, and closing the connection if that did not keep it alive.
   */
  lemma {:induction false} BytesBothWays(sent: seq<Printing.Sent>, up: seq<string>, cfg: Requests.Config,
                                         events: seq<Event>, limits: Limits, look: Look, files: string -> string,
                                         down: seq<string>) returns (n: nat)
    requires Printed(sent, up, cfg)
    requires Served(events, limits, Requests.Reads(Requests.START, "", up, cfg).requests, look, files, down)
    ensures var f := Responses.Reads(Responses.START, "", 0, down, HeadsOf(sent));
      && |f.responses| == n <= |Run(INITIAL, events, limits).received| <= |sent|
      && f.session == Responses.Open(Responses.START, "", n)
      && forall i :: 0 <= i < n ==>
           ReadFor(f.responses[i], look, sent[i].m, i, events) && f.responses[i].version == sent[i].m.version
  {
    var c := Run(INITIAL, events, limits);
    Printing.PrintedStream(sent, up, cfg);
    GivenAsPrinted(c.received, Requests.Reads(Requests.START, "", up, cfg).requests, sent, cfg);
    var rs := ResponsesArrive(events, limits, look, files, down, HeadsOf(sent));
    n := |rs|;
    var f := Responses.Reads(Responses.START, "", 0, down, HeadsOf(sent));
    ReadForEach(f.responses, look, c.received, rs, sent, events);
    forall i | 0 <= i < n ensures f.responses[i].version == sent[i].m.version {
      SameVersion(look, rs[i], c.received[i], i, sent[i], cfg);
    }
  }

  lemma SameVersion(look: Look, r: Reply, req: Request, i: nat, s: Printing.Sent, cfg: Requests.Config)
    requires Good(look) && Printing.Sendable(s, cfg) && req == AsPrinted(i, s.m) && Fits(r, req)
    ensures ExpectedOf(look, r).version == s.m.version
  {
    VersionShows(look, r);
  }
}

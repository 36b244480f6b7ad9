/**
 From the user's callback down to the bytes, in every run of client and server over connections that may
 break: what a callback was given is what the client reads from the bytes of the server.
 */
module UserBytes {
  import opened PipelineServer
  import opened PipelineServerProofs
  import opened PipelineClient
  import opened PipelineClientProofs
  import Clients = PipelineClientProofs
  import opened EndToEnd
  import opened WireBytes
  import Http = HttpRequest
  import Parsing = RequestParser
  import Printing = PrinterProofs
  import Seg = SegmentationProofs
  import Responses = ResponseParser

  // ---------------------------------------------------------------- what the user is told

  /** Apart from timeouts, the user is told what completed a request of that identity. */
  ghost predicate Told(c: Client) {
    forall x :: x in c.userCalls && x.1 != Failed(Timeout) ==> TrulyTold(c.completed, x)
  }

  ghost predicate TrulyTold(completed: seq<Completion>, x: (nat, Result)) {
    exists k :: 0 <= k < |completed| && completed[k].0.id == x.0 && completed[k].1 == x.1
  }

  lemma CallbackTold(c: Client, req: Request, result: Result)
    requires Told(c)
    ensures Told(RunCallback(c, req, result))
  {
    var d := RunCallback(c, req, result);
    forall x | x in d.userCalls && x.1 != Failed(Timeout) ensures TrulyTold(d.completed, x) {
      if x in c.userCalls {
        var k :| 0 <= k < |c.completed| && c.completed[k].0.id == x.0 && c.completed[k].1 == x.1;
        assert d.completed[k] == c.completed[k];
      } else {
        assert d.completed[|c.completed|] == (req, result);
      }
    }
  }

  /** Submissions run no callback. */
  lemma {:induction false} SubmitAllSilent(c: Client, ss: seq<Submission>)
    ensures SubmitAll(c, ss).completed == c.completed && SubmitAll(c, ss).userCalls == c.userCalls
    decreases |ss|
  {
    if ss != [] {
      SubmitAllSilent(Submit(c, ss[0]), ss[1..]);
    }
  }

  lemma FailTold(c: Client, req: Request, why: Failure, script: seq<seq<Submission>>)
    requires Told(c)
    ensures Told(Fail(c, req, why, script).0)
  {
    CallbackTold(c, req, Failed(why));
    if script != [] {
      SubmitAllSilent(RunCallback(c, req, Failed(why)), script[0]);
    }
  }

  lemma {:induction false} FailInFlightTold(c: Client, why: Failure, script: seq<seq<Submission>>)
    requires Told(c)
    ensures Told(FailInFlight(c, why, script).0)
    decreases |c.inFlight| + |c.buffer| + Total(script)
  {
    if c.inFlight != [] {
      var c0 := c.(inFlight := c.inFlight[1..]);
      FailTold(c0, c.inFlight[0], why, script);
      var (c1, rest) := Fail(c0, c.inFlight[0], why, script);
      FailInFlightTold(c1, why, rest);
    }
  }

  lemma {:induction false} FailBufferTold(c: Client, why: Failure, script: seq<seq<Submission>>)
    requires Told(c)
    ensures Told(FailBuffer(c, why, script).0)
    decreases |c.inFlight| + |c.buffer| + Total(script)
  {
    if c.buffer != [] {
      var c0 := c.(buffer := c.buffer[1..]);
      FailTold(c0, c.buffer[0], why, script);
      var (c1, rest) := Fail(c0, c.buffer[0], why, script);
      FailBufferTold(c1, why, rest);
    }
  }

  lemma DrainTold(c: Client, why: Failure, script: seq<seq<Submission>>)
    requires Told(c)
    ensures Told(Drain(c, why, script).0)
  {
    FailInFlightTold(c, why, script);
    var (c1, rest) := FailInFlight(c, why, script);
    FailBufferTold(c1, why, rest);
  }

  lemma ErrorTold(c: Client, why: Failure, script: seq<seq<Submission>>)
    requires Told(c)
    ensures Told(OnError(c, why, script))
  {
    DrainTold(Struck(c, why), why, script);
    var (c1, rest) := Drain(Struck(c, why), why, script);
    DrainTold(c1.(link := NoClient), NetworkFailure, rest);
  }

  lemma ResponseTold(c: Client, reply: Reply, nested: seq<Submission>, drops: bool)
    requires Told(c) && c.inFlight != []
    ensures Told(OnResponse(c, reply, nested, drops))
  {
    var c0 := c.(inFlight := c.inFlight[1..]);
    CallbackTold(c0, c.inFlight[0], Ok(reply));
    SubmitAllSilent(RunCallback(c0, c.inFlight[0], Ok(reply)), nested);
  }

  lemma ConnectTold(c: Client)
    requires Told(c)
    ensures Told(Connect(c))
  {
    var n := FillMoves(c.(link := Connected, sent := []));
  }

  lemma TimerTold(c: Client, id: nat)
    requires Told(c)
    ensures Told(TimerFires(c, id))
  {
  }

  lemma MoveTold(w: World, m: Move, limits: Limits)
    requires Told(w.client) && MayMove(w, m) && (m.ClientReads? ==> w.client.inFlight != [])
    ensures Told(Advance(w, m, limits).client)
  {
    match m
    case ClientSubmits(s) =>
    case ClientConnects => ConnectTold(w.client);
    case ClientTimer(id) => TimerTold(w.client, id);
    case ClientReads(nested, drops) => ResponseTold(w.client, Decode(Unread(w)).value, nested, drops);
    case ConnectionFails(why, script) => ErrorTold(w.client, why, script);
    case ServerEvent(e) =>
  }

  lemma {:induction false} StepTold(w: World, m: Move, w': World, limits: Limits, offers: set<Offer>)
    requires WorldInv(w, offers) && Told(w.client) && Moves(w, m, w', limits) && MoveOffers(m) <= offers
    ensures Told(w'.client)
  {
    MoveKeeps(w, m, limits, offers);
    MoveTold(w, m, limits);
  }

  lemma {:induction false} MoveAt(ws: seq<World>, ms: seq<Move>, limits: Limits, depth: nat, k: nat)
    requires IsRun(ws, ms, limits, depth) && k < |ms|
    ensures Moves(ws[k], ms[k], ws[k + 1], limits) && MoveOffers(ms[k]) <= RunMoveOffers(ms)
  {
    assert ms[k] in ms;
  }

  lemma {:induction false} RunTold(ws: seq<World>, ms: seq<Move>, limits: Limits, depth: nat, k: nat)
    requires IsRun(ws, ms, limits, depth) && k <= |ms|
    ensures Told(ws[k].client)
  {
    if k > 0 {
      RunTold(ws, ms, limits, depth, k - 1);
      RunInv(ws, ms, limits, depth, k - 1);
      MoveAt(ws, ms, limits, depth, k - 1);
      StepTold(ws[k - 1], ms[k - 1], ws[k], limits, RunMoveOffers(ms));
    }
  }

  // ---------------------------------------------------------------- one request of the present connection

  /** The user was called for the request, and with this reply unless its timer was faster. */
  ghost predicate UserHas(calls: seq<(nat, Result)>, req: Request, reply: Reply) {
    && req.id in CallIds(calls)
    && forall x :: x in calls && x.0 == req.id ==> x.1 == Ok(reply) || x.1 == Failed(Timeout)
  }

  lemma {:induction false} CompletedOnce(c: Client, k: nat, l: nat)
    requires Kept(c) && k < |c.completed| && l < |c.completed| && c.completed[k].0.id == c.completed[l].0.id
    ensures k == l
  {
    var pending := c.inFlight + c.buffer;
    SpreadApart(c.submitted, c.completed, pending);
    var all := Clients.Requests(c.completed) + pending;
    assert all[k] == c.completed[k].0 && all[l] == c.completed[l].0;
  }

  lemma {:induction false} AnsweredUser(c: Client, k: nat, reply: Reply)
    requires Kept(c) && Told(c) && k < |c.completed| && c.completed[k].1 == Ok(reply)
    ensures UserHas(c.userCalls, c.completed[k].0, reply)
  {
    var req := c.completed[k].0;
    assert c.completed[k] in c.completed;
    assert req.id in DoneIds(c.completed);
    forall x | x in c.userCalls && x.0 == req.id && x.1 != Failed(Timeout) ensures x.1 == Ok(reply) {
      assert TrulyTold(c.completed, x);
      var l :| 0 <= l < |c.completed| && c.completed[l].0.id == x.0 && c.completed[l].1 == x.1;
      CompletedOnce(c, k, l);
    }
  }

  // ---------------------------------------------------------------- the server's bytes

  function HeadsSent(sent: seq<Request>): Responses.Heads {
    (i: nat) => i < |sent| && sent[i].head
  }

  /** What the server has written, as replies made for the requests sent. */
  lemma {:induction false} WrittenFor(c: Conn, sent: seq<Request>, arrived: nat, got: seq<Reply>, offers: set<Offer>)
    returns (rs: seq<Reply>)
    requires Serves(c, sent, arrived, got, offers)
    ensures c.wire == Flat(rs) && |got| <= |rs| <= |sent| && got == rs[..|got|]
    ensures forall i :: 0 <= i < |rs| ==> (sent[i].id, rs[i]) in offers && Fits(rs[i], sent[i])
  {
    var n :| Idle(c, n);
    rs := WrittenAsReplies(c.received, c.answers, n);
    PrefixDecodes(got, rs);
    forall i | 0 <= i < |rs| ensures (sent[i].id, rs[i]) in offers && Fits(rs[i], sent[i]) {
      assert c.received[i] == sent[i] && rs[i] == c.answers[sent[i].id];
    }
  }

  /** The `i`-th request sent: what was read for it, what its user was told, and what the bytes say. */
  ghost predicate FromBytes(c: Client, req: Request, reply: Reply, response: Responses.Response, look: Look,
                            offers: set<Offer>)
    requires Good(look)
  {
    && (req.id, reply) in offers && Fits(reply, req)
    && (req, Ok(reply)) in c.completed && UserHas(c.userCalls, req, reply)
    && response == ExpectedOf(look, reply)
  }

  ghost predicate AllFromBytes(w: World, responses: seq<Responses.Response>, look: Look, offers: set<Offer>)
    requires Good(look)
  {
    && |w.got| <= |responses| <= |w.client.sent|
    && forall i :: 0 <= i < |w.got| ==> FromBytes(w.client, w.client.sent[i], w.got[i], responses[i], look, offers)
  }

  lemma {:induction false} OneFromBytes(c: Client, got: seq<Reply>, i: nat, response: Responses.Response, look: Look,
                                        offers: set<Offer>)
    requires Kept(c) && Told(c) && Answered(c.completed, c.sent, got) && i < |got| && Good(look)
    requires (c.sent[i].id, got[i]) in offers && Fits(got[i], c.sent[i]) && response == ExpectedOf(look, got[i])
    ensures FromBytes(c, c.sent[i], got[i], response, look, offers)
  {
    var k := |c.completed| - |got| + i;
    assert c.completed[k] == (c.sent[i], Ok(got[i])) && c.completed[k] in c.completed;
    AnsweredUser(c, k, got[i]);
  }

  /** What the client's parser makes of the server's bytes. */
  function ReadOn(c: Client, down: seq<string>): seq<Responses.Response> {
    Responses.Reads(Responses.START, "", 0, down, HeadsSent(c.sent)).responses
  }

  lemma {:induction false} WorldBytes(w: World, offers: set<Offer>, look: Look, files: string -> string,
                                      down: seq<string>)
    requires WorldInv(w, offers) && Told(w.client) && w.client.link == Connected
    requires Good(look) && NoFiles(offers) && Seg.Joined(down) == Bytes(look, files, w.server.wire)
    ensures AllFromBytes(w, ReadOn(w.client, down), look, offers)
  {
    var rs := WrittenFor(w.server, w.client.sent, w.arrived, w.got, offers);
    FlatReadBack(look, files, rs, down, HeadsSent(w.client.sent));
    ReadForAll(w, offers, look, rs, ReadOn(w.client, down));
  }

  lemma {:induction false} ReadForAll(w: World, offers: set<Offer>, look: Look, rs: seq<Reply>,
                                      responses: seq<Responses.Response>)
    requires WorldInv(w, offers) && Told(w.client) && w.client.link == Connected && Good(look)
    requires |w.got| <= |rs| <= |w.client.sent| && w.got == rs[..|w.got|] && ReadBack(responses, look, rs)
    requires forall i :: 0 <= i < |rs| ==> (w.client.sent[i].id, rs[i]) in offers && Fits(rs[i], w.client.sent[i])
    ensures AllFromBytes(w, responses, look, offers)
  {
    var c, got := w.client, w.got;
    forall i | 0 <= i < |got| ensures FromBytes(c, c.sent[i], got[i], responses[i], look, offers) {
      assert rs[i] == got[i];
      OneFromBytes(c, got, i, responses[i], look, offers);
    }
  }

  // ---------------------------------------------------------------- the client's bytes

  /** Printed messages that stand for the requests sent. */
  predicate StandFor(messages: seq<Printing.Sent>, sent: seq<Request>) {
    |messages| == |sent| && forall i :: 0 <= i < |sent| ==> AsPrinted(sent[i].id, messages[i].m) == sent[i]
  }

  /** What the server parses from them are those requests. */
  lemma {:induction false} SentArrives(messages: seq<Printing.Sent>, sent: seq<Request>, up: seq<string>,
                                       cfg: Parsing.Config)
    requires StandFor(messages, sent) && Printed(messages, up, cfg)
    ensures var parsed := Parsing.Reads(Parsing.START, "", up, cfg).requests;
      && |parsed| == |sent|
      && forall i :: 0 <= i < |sent| ==>
           && Printing.Sendable(messages[i], cfg)
           && Printing.Recovers(parsed[i], messages[i].m, messages[i].keys, cfg)
           && View(sent[i].id, parsed[i]) == sent[i]
  {
    Printing.PrintedStream(messages, up, cfg);
    var parsed := Parsing.Reads(Parsing.START, "", up, cfg).requests;
    forall i | 0 <= i < |sent|
      ensures Printing.Sendable(messages[i], cfg) && View(sent[i].id, parsed[i]) == sent[i]
    {
      assert Printing.Sendable(messages[i], cfg);
      assert Printing.Recovers(parsed[i], messages[i].m, messages[i].keys, cfg);
      assert AsPrinted(sent[i].id, messages[i].m) == sent[i];
    }
  }

  /**
   In every run, on the connection that is up: print the requests sent on it and cut them anywhere but where
   the parser starves, and the server parses requests of which those that it received are the first; render
   what it wrote and cut that anywhere, and the i-th response is what some handler gave for the i-th request,
   what its completion got, and what its user was told unless the timer was faster.
   */
  lemma {:induction false} UserGetsTheBytes(ws: seq<World>, ms: seq<Move>, limits: Limits, depth: nat, k: nat,
                                            messages: seq<Printing.Sent>, up: seq<string>, cfg: Parsing.Config,
                                            look: Look, files: string -> string, down: seq<string>)
    requires IsRun(ws, ms, limits, depth) && k <= |ms| && ws[k].client.link == Connected
    requires StandFor(messages, ws[k].client.sent) && Printed(messages, up, cfg)
    requires Good(look) && NoFiles(RunMoveOffers(ms))
    requires Seg.Joined(down) == Bytes(look, files, ws[k].server.wire)
    ensures ReceivedAre(ws[k].server.received, Parsing.Reads(Parsing.START, "", up, cfg).requests)
    ensures AllFromBytes(ws[k], ReadOn(ws[k].client, down), look, RunMoveOffers(ms))
  {
    RunInv(ws, ms, limits, depth, k);
    RunTold(ws, ms, limits, depth, k);
    SentArrives(messages, ws[k].client.sent, up, cfg);
    PrefixReceived(ws[k].server, ws[k].client.sent, ws[k].arrived, ws[k].got, RunMoveOffers(ms),
                   Parsing.Reads(Parsing.START, "", up, cfg).requests);
    WorldBytes(ws[k], RunMoveOffers(ms), look, files, down);
  }

  /** What the server received are the first requests parsed. */
  ghost predicate ReceivedAre(received: seq<Request>, parsed: seq<Http.Request>) {
    |received| <= |parsed| && forall i :: 0 <= i < |received| ==> received[i] == View(received[i].id, parsed[i])
  }

  lemma PrefixReceived(c: Conn, sent: seq<Request>, arrived: nat, got: seq<Reply>, offers: set<Offer>,
                       parsed: seq<Http.Request>)
    requires Serves(c, sent, arrived, got, offers)
    requires |parsed| == |sent| && forall i :: 0 <= i < |sent| ==> View(sent[i].id, parsed[i]) == sent[i]
    ensures ReceivedAre(c.received, parsed)
  {
    forall i | 0 <= i < |c.received| ensures c.received[i] == View(c.received[i].id, parsed[i]) {
      assert c.received[i] == sent[i];
    }
  }
}

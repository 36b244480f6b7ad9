/**
 Client and server joined by a connection that loses nothing while it lasts: requests reach the
 server in the order they were written, and the client reads the server's bytes from the front.
 A connection may break at any time; the next one starts from a fresh server state.
 */
module EndToEnd {
  import opened Wrappers
  import opened PipelineServer
  import opened PipelineServerProofs
  import opened PipelineClient
  import opened PipelineClientProofs
  import opened PipelineClientOrder

  /** `arrived` requests of the present connection reached the server; `got` are the replies read from it. */
  datatype World = World(client: Client, server: Conn, arrived: nat, got: seq<Reply>)

  datatype Move =
    | ClientSubmits(s: Submission)
    | ClientConnects
    | ClientTimer(id: nat)
    | ClientReads(nested: seq<Submission>, drops: bool)
    | ConnectionFails(why: Failure, script: seq<seq<Submission>>)
    | ServerEvent(e: Event)

  function NewWorld(depth: nat): World {
    World(NewClient(depth), INITIAL, 0, [])
  }

  // ---------------------------------------------------------------- the bytes of many replies

  function Flat(rs: seq<Reply>): seq<WireItem> {
    if rs == [] then [] else Emit(rs[0]) + Flat(rs[1..])
  }

  /** The client's parser: the first complete response of a byte stream. */
  function Decode(items: seq<WireItem>): Option<Reply> {
    if items == [] then None
    else match items[0] {
      case Full(resp, close, http10) =>
        if resp.sendfile == "" then Some(Reply(resp, false, close, http10))
        else if |items| > 1 && items[1] == File(resp.sendfile) then Some(Reply(resp, false, close, http10))
        else None
      case HeaderOnly(resp, close, http10) => Some(Reply(resp, true, close, http10))
      case File(_) => None
    }
  }

  lemma DecodeEmit(r: Reply, rest: seq<WireItem>)
    ensures Decode(Emit(r) + rest) == Some(r)
  {
  }

  lemma {:induction false} FlatAppend(rs: seq<Reply>, r: Reply)
    ensures Flat(rs + [r]) == Flat(rs) + Emit(r)
  {
    if rs == [] {
      assert [] + [r] == [r] && [r][1..] == [];
      assert Flat([r]) == Emit(r) + Flat([]);
    } else {
      FlatAppend(rs[1..], r);
      assert (rs + [r])[1..] == rs[1..] + [r];
      Concat3(Emit(rs[0]), Flat(rs[1..]), Emit(r));
    }
  }

  /** Replies can be read back one by one: a prefix that was read is a prefix of what was written. */
  lemma {:induction false} PrefixDecodes(got: seq<Reply>, rs: seq<Reply>)
    requires Flat(got) <= Flat(rs)
    ensures |got| <= |rs| && got == rs[..|got|]
    ensures |got| < |rs| ==> Decode(Flat(rs)[|Flat(got)|..]) == Some(rs[|got|])
    ensures |got| == |rs| ==> Flat(rs) == Flat(got)
  {
    if got == [] {
      if rs != [] {
        DecodeEmit(rs[0], Flat(rs[1..]));
        assert Flat(rs)[0..] == Flat(rs);
      }
    } else {
      var e, g, w := Emit(got[0]), Flat(got[1..]), Flat(rs);
      assert w[0] == e[0];
      assert Emit(rs[0])[0] == w[0];
      assert got[0] == rs[0];
      var v := Flat(rs[1..]);
      assert w == e + v && Flat(got) == e + g;
      assert w[|e|..] == v && (e + g)[|e|..] == g;
      assert g <= v;
      PrefixDecodes(got[1..], rs[1..]);
      assert w[|e + g|..] == v[|g|..];
    }
  }

  /** What the server wrote, as replies. */
  lemma {:induction false} WrittenAsReplies(received: seq<Request>, answers: Answers, n: nat) returns (rs: seq<Reply>)
    requires n <= |received| && forall i :: 0 <= i < n ==> received[i].id in answers
    ensures |rs| == n && forall i :: 0 <= i < n ==> rs[i] == answers[received[i].id]
    ensures Written(received, answers, n) == Flat(rs)
  {
    if n == 0 {
      rs := [];
    } else {
      rs := WrittenAsReplies(received, answers, n - 1);
      FlatAppend(rs, answers[received[n - 1].id]);
      rs := rs + [answers[received[n - 1].id]];
    }
  }

  // ---------------------------------------------------------------- moves

  function Requested(batch: seq<Arrival>): (rs: seq<Request>)
    ensures |rs| == |batch| && forall i :: 0 <= i < |batch| ==> rs[i] == batch[i].req
  {
    seq(|batch|, i requires 0 <= i < |batch| => batch[i].req)
  }

  function Unread(w: World): seq<WireItem> {
    if |Flat(w.got)| <= |w.server.wire| then w.server.wire[|Flat(w.got)|..] else []
  }

  /** The requests that a batch brings are the next ones sent. */
  predicate NextSent(w: World, e: Event) {
    e.Arrive? ==>
      && w.arrived + |e.batch| <= |w.client.sent|
      && Requested(e.batch) == w.client.sent[w.arrived..w.arrived + |e.batch|]
  }

  /**
   A batch is the next requests written on the connection.  The client reads only complete
   responses.  Whether a request is waiting for a response that is read is not assumed here.
   */
  predicate MayMove(w: World, m: Move) {
    match m
    case ClientSubmits(s) => Fresh(w.client, s)
    case ClientConnects => w.client.link == Connecting
    case ClientTimer(id) => id in w.client.timed
    case ClientReads(nested, _) => w.client.link == Connected && Decode(Unread(w)).Some? && FreshAll(w.client, nested)
    case ConnectionFails(why, script) => why != BadResponse && MayClientStep(w.client, Errs(why, script))
    case ServerEvent(e) =>
      && w.client.link == Connected && MayStep(w.server, e) && NextSent(w, e)
  }

  function Advance(w: World, m: Move, limits: Limits): World
    requires MayMove(w, m) && (m.ClientReads? ==> w.client.inFlight != [])
  {
    match m
    case ClientSubmits(s) => w.(client := Submit(w.client, s))
    case ClientConnects => World(Connect(w.client), INITIAL, 0, [])
    case ClientTimer(id) => w.(client := TimerFires(w.client, id))
    case ClientReads(nested, drops) =>
      var reply := Decode(Unread(w)).value;
      w.(client := OnResponse(w.client, reply, nested, drops), got := w.got + [reply])
    case ConnectionFails(why, script) => w.(client := OnError(w.client, why, script))
    case ServerEvent(e) =>
      w.(server := Step(w.server, e, limits), arrived := w.arrived + if e.Arrive? then |e.batch| else 0)
  }

  // ---------------------------------------------------------------- what a server step changes

  lemma SendAppends(c: Conn, rs: seq<Reply>)
    ensures c.wire <= Send(c, rs).wire
  {
  }

  lemma CallAppends(c: Conn, running: Option<Request>, a: Act)
    ensures c.wire <= Call(c, running, a).wire
  {
  }

  lemma {:induction false} RunActsAppends(c: Conn, r: Request, acts: seq<Act>, sync: bool)
    ensures c.wire <= RunActs(c, r, acts, sync).0.wire
    decreases |acts|
  {
    if acts != [] {
      CallAppends(c, Some(r), acts[0]);
      RunActsAppends(Call(c, Some(r), acts[0]), r, acts[1..], sync || Syncs(c, r, acts[0]));
    }
  }

  lemma IterateAppends(c: Conn, a: Arrival)
    ensures c.wire <= Iterate(c, a).wire
  {
    if a.handling.Handler? {
      var c0 := c.(received := c.received + [a.req]);
      RunActsAppends(if c.pipeline != [] then Push(c0, a.req) else c0, a.req, a.handling.acts, c.pipeline != []);
    }
  }

  lemma {:induction false} BatchAppends(c: Conn, batch: seq<Arrival>)
    ensures c.wire <= BatchLoop(c, batch).wire
    decreases |batch|
  {
    if batch != [] {
      IterateAppends(c, batch[0]);
      BatchAppends(Iterate(c, batch[0]), batch[1..]);
    }
  }

  lemma {:induction false} BatchReceives(c: Conn, batch: seq<Arrival>)
    ensures BatchLoop(c, batch).received == c.received + Requested(batch)
    decreases |batch|
  {
    if batch == [] {
      assert Requested(batch) == [];
    } else {
      var r, tail := batch[0].req, Requested(batch[1..]);
      BatchReceives(Iterate(c, batch[0]), batch[1..]);
      assert Requested(batch) == [r] + tail;
      Concat3(c.received, [r], tail);
    }
  }

  /** A server step only appends to the wire, and a server that is still open took every request of the step. */
  lemma {:induction false} StepAppends(c: Conn, e: Event, limits: Limits)
    ensures var d := Step(c, e, limits);
      && c.wire <= d.wire
      && (d.open ==> c.open)
      && (d.received == c.received || (c.open && e.Arrive? && d.received == c.received + Requested(e.batch)))
      && (d.open && e.Arrive? ==> d.received == c.received + Requested(e.batch))
  {
    match e
    case Arrive(batch, parsed) =>
      if batch == [] {
        assert c.received + Requested(batch) == c.received;
      } else if c.open && !OverLimit(c, |batch|, parsed, limits) {
        BatchAppends(c, batch);
        BatchReceives(c, batch);
        SendAppends(BatchLoop(c, batch), BatchLoop(c, batch).ready);
      }
    case Complete(act) => CallAppends(c, None, act);
    case LoopTurn =>
  }

  // ---------------------------------------------------------------- the invariant

  /** Successful completions carry replies that the server's handlers gave for those very requests. */
  ghost predicate OkFrom(completed: seq<Completion>, offers: set<Offer>) {
    forall k :: 0 <= k < |completed| && completed[k].1.Ok? ==>
      (completed[k].0.id, completed[k].1.reply) in offers
  }

  /** The requests in flight are the last ones sent, after one for every reply read. */
  ghost predicate Paired(sent: seq<Request>, inFlight: seq<Request>, got: seq<Reply>) {
    |sent| == |got| + |inFlight| && sent[|got|..] == inFlight
  }

  /** The server holds the first requests sent, all that arrived while it is open, and wrote what was read. */
  ghost predicate Serves(c: Conn, sent: seq<Request>, arrived: nat, got: seq<Reply>, offers: set<Offer>) {
    && (exists n :: Idle(c, n))
    && From(c, offers)
    && |c.received| <= arrived <= |sent| && c.received <= sent
    && (c.open ==> |c.received| == arrived)
    && Flat(got) <= c.wire
  }

  /** The last completions are those of the first requests sent, with the replies read. */
  ghost predicate Answered(completed: seq<Completion>, sent: seq<Request>, got: seq<Reply>) {
    && |got| <= |completed| && |got| <= |sent|
    && forall i :: 0 <= i < |got| ==> completed[|completed| - |got| + i] == (sent[i], Ok(got[i]))
  }

  /** Both ends of an established connection. */
  ghost predicate Joined(c: Client, server: Conn, arrived: nat, got: seq<Reply>, offers: set<Offer>) {
    && Paired(c.sent, c.inFlight, got)
    && Serves(server, c.sent, arrived, got, offers)
    && Answered(c.completed, c.sent, got)
  }

  ghost predicate WorldInv(w: World, offers: set<Offer>) {
    && ClientInv(w.client) && InOrder(w.client)
    && OkFrom(w.client.completed, offers)
    && (w.client.link == Connected ==> Joined(w.client, w.server, w.arrived, w.got, offers))
  }

  function MoveOffers(m: Move): set<Offer> {
    if m.ServerEvent? then EventOffers(m.e) else {}
  }

  // ---------------------------------------------------------------- moves keep the invariant

  lemma {:induction false} FailInFlightOk(c: Client, why: Failure, script: seq<seq<Submission>>, offers: set<Offer>)
    requires OkFrom(c.completed, offers)
    ensures OkFrom(FailInFlight(c, why, script).0.completed, offers)
    decreases |c.inFlight| + |c.buffer| + Total(script)
  {
    if c.inFlight != [] {
      var c0, req := c.(inFlight := c.inFlight[1..]), c.inFlight[0];
      if script != [] {
        SubmitAllQueues(RunCallback(c0, req, Failed(why)), script[0]);
      }
      var (c1, rest) := Fail(c0, req, why, script);
      FailInFlightOk(c1, why, rest, offers);
    }
  }

  lemma {:induction false} FailBufferOk(c: Client, why: Failure, script: seq<seq<Submission>>, offers: set<Offer>)
    requires OkFrom(c.completed, offers)
    ensures OkFrom(FailBuffer(c, why, script).0.completed, offers)
    decreases |c.inFlight| + |c.buffer| + Total(script)
  {
    if c.buffer != [] {
      var c0, req := c.(buffer := c.buffer[1..]), c.buffer[0];
      if script != [] {
        SubmitAllQueues(RunCallback(c0, req, Failed(why)), script[0]);
      }
      var (c1, rest) := Fail(c0, req, why, script);
      FailBufferOk(c1, why, rest, offers);
    }
  }

  lemma DrainOk(c: Client, why: Failure, script: seq<seq<Submission>>, offers: set<Offer>)
    requires OkFrom(c.completed, offers)
    ensures OkFrom(Drain(c, why, script).0.completed, offers)
  {
    FailInFlightOk(c, why, script, offers);
    var (c1, rest) := FailInFlight(c, why, script);
    FailBufferOk(c1, why, rest, offers);
  }

  lemma ErrorOk(c: Client, why: Failure, script: seq<seq<Submission>>, offers: set<Offer>)
    requires OkFrom(c.completed, offers)
    ensures OkFrom(OnError(c, why, script).completed, offers)
  {
    DrainOk(Struck(c, why), why, script, offers);
    var (c1, rest) := Drain(Struck(c, why), why, script);
    DrainOk(c1.(link := NoClient), NetworkFailure, rest, offers);
  }

  lemma {:induction false} FlatPrefix(rs: seq<Reply>, k: nat)
    requires k <= |rs|
    ensures Flat(rs[..k]) <= Flat(rs)
  {
    if k > 0 {
      FlatPrefix(rs[1..], k - 1);
      assert rs[..k][1..] == rs[1..][..k - 1];
    }
  }

  /** The next complete response on the wire answers the request after those answered by `got`. */
  lemma {:induction false} NextReply(received: seq<Request>, answers: Answers, n: nat, got: seq<Reply>)
    requires n <= |received| && forall i :: 0 <= i < n ==> received[i].id in answers
    requires Flat(got) <= Written(received, answers, n)
    requires Decode(Written(received, answers, n)[|Flat(got)|..]).Some?
    ensures |got| < n
    ensures Decode(Written(received, answers, n)[|Flat(got)|..]).value == answers[received[|got|].id]
    ensures Flat(got + [answers[received[|got|].id]]) <= Written(received, answers, n)
  {
    var rs := WrittenAsReplies(received, answers, n);
    NextDecoded(got, rs);
    FlatPrefix(rs, |got| + 1);
  }

  lemma NothingBehind(items: seq<WireItem>)
    ensures items[|items|..] == [] && Decode(items[|items|..]) == None
  {
  }

  lemma {:induction false} NextDecoded(got: seq<Reply>, rs: seq<Reply>)
    requires Flat(got) <= Flat(rs) && Decode(Flat(rs)[|Flat(got)|..]).Some?
    ensures |got| < |rs| && Decode(Flat(rs)[|Flat(got)|..]) == Some(rs[|got|])
    ensures got + [rs[|got|]] == rs[..|got| + 1]
  {
    PrefixDecodes(got, rs);
    NothingBehind(Flat(got));
  }

  /** The request that the next unread reply answers is the oldest in flight. */
  lemma {:induction false} ReadPairs(c: Conn, sent: seq<Request>, inFlight: seq<Request>, arrived: nat, got: seq<Reply>,
                  offers: set<Offer>)
    requires Paired(sent, inFlight, got) && Serves(c, sent, arrived, got, offers)
    requires Decode(c.wire[|Flat(got)|..]).Some?
    ensures inFlight != []
    ensures (inFlight[0].id, Decode(c.wire[|Flat(got)|..]).value) in offers
    ensures Flat(got + [Decode(c.wire[|Flat(got)|..]).value]) <= c.wire
  {
    var n :| Idle(c, n);
    NextReply(c.received, c.answers, n, got);
    assert c.received[|got|] == sent[|got|] == inFlight[0];
  }

  /** What the client does with a reply, seen from the requests sent. */
  lemma ReadClient(c: Client, reply: Reply, nested: seq<Submission>, drops: bool, got: seq<Reply>)
    requires c.link == Connected && c.inFlight != [] && Paired(c.sent, c.inFlight, got)
    ensures var d := OnResponse(c, reply, nested, drops);
      && c.sent <= d.sent && Paired(d.sent, d.inFlight, got + [reply])
      && (d.link != Connected ==> d.inFlight == [])
      && d.completed == c.completed + [(c.inFlight[0], Ok(reply))]
  {
    var c1 := RunCallback(c.(inFlight := c.inFlight[1..]), c.inFlight[0], Ok(reply));
    assert Paired(c1.sent, c1.inFlight, got + [reply]);
    var c2 := c1;
    if Reaches(c, c.inFlight[0]) {
      c2 := SubmitAll(c1, nested);
      SubmitAllQueues(c1, nested);
      MorePaired(c1.sent, c1.inFlight, c2.sent, c2.inFlight, got + [reply]);
    }
    if c2.buffer != [] {
      MorePaired(c2.sent, c2.inFlight, c2.sent + [c2.buffer[0]], c2.inFlight + [c2.buffer[0]], got + [reply]);
    }
  }

  /** What is sent more is in flight behind the others. */
  lemma MorePaired(sent: seq<Request>, inFlight: seq<Request>, sent1: seq<Request>, inFlight1: seq<Request>,
                   got: seq<Reply>)
    requires Paired(sent, inFlight, got)
    requires |inFlight1| >= |inFlight| && inFlight1[..|inFlight|] == inFlight
    requires sent1 == sent + inFlight1[|inFlight|..]
    ensures Paired(sent1, inFlight1, got) && sent <= sent1
  {
    assert sent1[|got|..] == sent[|got|..] + inFlight1[|inFlight|..];
  }

  /** One more completion, which a handler's reply is behind. */
  lemma OneMoreOk(completed: seq<Completion>, req: Request, reply: Reply, offers: set<Offer>)
    requires OkFrom(completed, offers) && (req.id, reply) in offers
    ensures OkFrom(completed + [(req, Ok(reply))], offers)
  {
  }

  lemma AnsweredNext(completed: seq<Completion>, sent: seq<Request>, got: seq<Reply>, more: seq<Request>, reply: Reply)
    requires Answered(completed, sent, got) && sent <= more && |got| < |sent|
    ensures Answered(completed + [(sent[|got|], Ok(reply))], more, got + [reply])
  {
  }

  lemma AnsweredStays(completed: seq<Completion>, sent: seq<Request>, got: seq<Reply>, more: seq<Request>)
    requires Answered(completed, sent, got) && sent <= more
    ensures Answered(completed, more, got)
  {
  }

  /** The requests sent only grow while a reply is read. */
  lemma StillServes(c: Conn, sent: seq<Request>, more: seq<Request>, arrived: nat, got: seq<Reply>, reply: Reply,
                    offers: set<Offer>)
    requires Serves(c, sent, arrived, got, offers) && sent <= more && Flat(got + [reply]) <= c.wire
    ensures Serves(c, more, arrived, got + [reply], offers)
  {
  }

  /** Reading a reply completes the oldest request in flight with it. */
  lemma {:induction false} ReadKeeps(w: World, nested: seq<Submission>, drops: bool, limits: Limits, offers: set<Offer>)
    requires WorldInv(w, offers) && MayMove(w, ClientReads(nested, drops))
    ensures w.client.inFlight != [] && WorldInv(Advance(w, ClientReads(nested, drops), limits), offers)
  {
    var c, reply := w.client, Decode(Unread(w)).value;
    ReadPairs(w.server, c.sent, c.inFlight, w.arrived, w.got, offers);
    ResponseKeeps(c, reply, nested, drops);
    ResponseInOrder(c, reply, nested, drops);
    ReadClient(c, reply, nested, drops, w.got);
    OneMoreOk(c.completed, c.inFlight[0], reply, offers);
    assert c.sent[|w.got|] == c.inFlight[0];
    AnsweredNext(c.completed, c.sent, w.got, OnResponse(c, reply, nested, drops).sent, reply);
    StillServes(w.server, c.sent, OnResponse(c, reply, nested, drops).sent, w.arrived, w.got, reply, offers);
  }

  lemma {:induction false} SubmitMoves(w: World, s: Submission, offers: set<Offer>)
    requires WorldInv(w, offers) && Fresh(w.client, s)
    ensures WorldInv(w.(client := Submit(w.client, s)), offers)
  {
    var d := Submit(w.client, s);
    SubmitKeeps(w.client, s);
    SubmitInOrder(w.client, s);
    SubmitQueues(w.client, s);
    if w.client.link == Connected {
      assert d.sent[|w.got|..] == d.inFlight;
      AnsweredStays(d.completed, w.client.sent, w.got, d.sent);
    }
  }

  /** A connection on which the first `n` buffered requests went out at once. */
  lemma FreshlyJoined(c: Client, n: nat, offers: set<Offer>)
    requires n <= |c.buffer| && c.inFlight == [] && c.sent == []
    ensures Joined(Moved(c, n), INITIAL, 0, [], offers)
  {
    var d := Moved(c, n);
    assert d.sent == c.buffer[..n] && d.inFlight == c.buffer[..n];
    assert Idle(INITIAL, 0);
  }

  lemma {:induction false} ConnectMoves(w: World, offers: set<Offer>)
    requires WorldInv(w, offers) && w.client.link == Connecting
    ensures WorldInv(World(Connect(w.client), INITIAL, 0, []), offers)
  {
    var c := w.client.(link := Connected, sent := []);
    FillKeeps(c);
    FillInOrder(c);
    var n := FillMoves(c);
    FreshlyJoined(c, n, offers);
  }

  /** The requests a server received stay the first ones sent. */
  lemma {:induction false} ReceivedFollows(c: Conn, e: Event, limits: Limits, sent: seq<Request>, arrived: nat)
    requires |c.received| <= arrived <= |sent| && c.received <= sent && (c.open ==> |c.received| == arrived)
    requires e.Arrive? ==> arrived + |e.batch| <= |sent| && Requested(e.batch) == sent[arrived..arrived + |e.batch|]
    ensures var d, now := Step(c, e, limits), arrived + if e.Arrive? then |e.batch| else 0;
      && |d.received| <= now <= |sent| && d.received <= sent && (d.open ==> |d.received| == now)
      && c.wire <= d.wire
  {
    StepAppends(c, e, limits);
    if e.Arrive? {
      assert sent[..arrived + |e.batch|] == sent[..arrived] + Requested(e.batch);
    }
  }

  lemma {:induction false} ServerMoves(c: Conn, e: Event, limits: Limits, sent: seq<Request>, arrived: nat,
                                       got: seq<Reply>, offers: set<Offer>)
    requires Serves(c, sent, arrived, got, offers) && MayStep(c, e) && EventOffers(e) <= offers
    requires e.Arrive? ==> arrived + |e.batch| <= |sent| && Requested(e.batch) == sent[arrived..arrived + |e.batch|]
    ensures Serves(Step(c, e, limits), sent, arrived + if e.Arrive? then |e.batch| else 0, got, offers)
  {
    var n :| Idle(c, n);
    var m := StepKeeps(c, n, e, limits);
    StepFrom(c, e, limits, offers);
    ReceivedFollows(c, e, limits, sent, arrived);
  }

  lemma {:induction false} FailMoves(w: World, why: Failure, script: seq<seq<Submission>>, offers: set<Offer>)
    requires WorldInv(w, offers) && MayMove(w, ConnectionFails(why, script))
    ensures WorldInv(w.(client := OnError(w.client, why, script)), offers)
  {
    ErrorAnswersAll(w.client, why, script);
    ErrorOrder(w.client, why, script);
    ErrorOk(w.client, why, script, offers);
  }

  lemma TimerMoves(w: World, id: nat, offers: set<Offer>)
    requires WorldInv(w, offers) && id in w.client.timed
    ensures WorldInv(w.(client := TimerFires(w.client, id)), offers)
  {
    TimerKeeps(w.client, id);
  }

  lemma {:induction false} EventMoves(w: World, e: Event, limits: Limits, offers: set<Offer>)
    requires WorldInv(w, offers) && w.client.link == Connected && MayStep(w.server, e) && NextSent(w, e)
    requires EventOffers(e) <= offers
    ensures var now := w.arrived + if e.Arrive? then |e.batch| else 0;
      WorldInv(w.(server := Step(w.server, e, limits), arrived := now), offers)
  {
    ServerMoves(w.server, e, limits, w.client.sent, w.arrived, w.got, offers);
  }

  lemma {:induction false} MoveKeeps(w: World, m: Move, limits: Limits, offers: set<Offer>)
    requires WorldInv(w, offers) && MayMove(w, m) && MoveOffers(m) <= offers
    ensures m.ClientReads? ==> w.client.inFlight != []
    ensures WorldInv(Advance(w, m, limits), offers)
  {
    match m
    case ClientSubmits(s) => SubmitMoves(w, s, offers);
    case ClientConnects => ConnectMoves(w, offers);
    case ClientTimer(id) => TimerMoves(w, id, offers);
    case ClientReads(nested, drops) => ReadKeeps(w, nested, drops, limits, offers);
    case ConnectionFails(why, script) => FailMoves(w, why, script, offers);
    case ServerEvent(e) => EventMoves(w, e, limits, offers);
  }

  // ---------------------------------------------------------------- runs

  /** `ws` is a run of the joined system through the moves `ms`. */
  ghost predicate IsRun(ws: seq<World>, ms: seq<Move>, limits: Limits, depth: nat) {
    && |ws| == |ms| + 1 && ws[0] == NewWorld(depth)
    && forall i :: 0 <= i < |ms| ==> Moves(ws[i], ms[i], ws[i + 1], limits)
  }

  /**
   A response that finds no request waiting would take the client anywhere: the code asserts that it
   cannot happen.
   */
  ghost predicate Moves(w: World, m: Move, w': World, limits: Limits) {
    MayMove(w, m) && ((m.ClientReads? && w.client.inFlight == []) || w' == Advance(w, m, limits))
  }

  function RunMoveOffers(ms: seq<Move>): set<Offer> {
    set m, o | m in ms && o in MoveOffers(m) :: o
  }

  lemma {:induction false} RunInv(ws: seq<World>, ms: seq<Move>, limits: Limits, depth: nat, k: nat)
    requires IsRun(ws, ms, limits, depth) && k <= |ms|
    ensures WorldInv(ws[k], RunMoveOffers(ms))
  {
    if k == 0 {
      NewClientInv(depth);
      assert NewClient(depth).submitted == Requests([]) + ([] + []);
    } else {
      RunInv(ws, ms, limits, depth, k - 1);
      var m := ms[k - 1];
      assert m in ms && Moves(ws[k - 1], m, ws[k - 1 + 1], limits);
      assert MoveOffers(m) <= RunMoveOffers(ms);
      MoveKeeps(ws[k - 1], m, limits, RunMoveOffers(ms));
    }
  }

  /**
   End to end, in every run, whatever the order in which handlers finish and however often the
   connection breaks: the k-th callback is that of the k-th request submitted, and if it succeeds it
   gets a response that the server's handlers gave for that request; and a response never finds the
   client without a request waiting for it.
   */
  lemma CallbacksGetTheirResponses(ws: seq<World>, ms: seq<Move>, limits: Limits, depth: nat, k: nat)
    requires IsRun(ws, ms, limits, depth) && k <= |ms|
    ensures var c := ws[k].client;
      && |c.completed| <= |c.submitted|
      && (forall j :: 0 <= j < |c.completed| ==> c.completed[j].0 == c.submitted[j])
      && (forall j :: 0 <= j < |c.completed| && c.completed[j].1.Ok? ==>
            (c.submitted[j].id, c.completed[j].1.reply) in RunMoveOffers(ms))
      && (c.link == Connected && Decode(Unread(ws[k])).Some? ==> c.inFlight != [])
  {
    RunInv(ws, ms, limits, depth, k);
    var w := ws[k];
    if w.client.link == Connected && Decode(Unread(w)).Some? {
      ReadPairs(w.server, w.client.sent, w.client.inFlight, w.arrived, w.got, RunMoveOffers(ms));
    }
  }
}

/**
 The server side of HTTP pipelining on one connection: HttpServer::onRequests, the completion
 callback it hands to handlers, sendResponses, and the pipeline deque of HttpRequestParser.

 `Conn` is the state of a connection.  Its last four fields are a log that the code does not keep:
 which requests entered the batch loop, which callbacks have been called with a response, what each
 request was answered with, and whether a callback ever ran while its own request headed the deque.
 */
module PipelineServer {
  import opened Wrappers

  /** A parsed request: its identity (the pointer the code compares), HEAD, not keep-alive, and HTTP/1.0. */
  datatype Request = Request(id: nat, head: bool, close: bool, http10: bool)

  datatype Response = Response(content: string, sendfile: string)

  /** A response as the pipeline stores it, after setVersion and setCloseConnection. */
  datatype Reply = Reply(resp: Response, head: bool, close: bool, http10: bool)

  /**
   What a rendered response shows: its headers (with or without `Connection: close`), its content, and a
   file sent behind it.
   */
  datatype WireItem =
    | Full(resp: Response, close: bool, http10: bool)
    | HeaderOnly(resp: Response, close: bool, http10: bool)
    | File(name: string)

  datatype Slot = Slot(req: Request, reply: Option<Reply>)

  /** One call of a completion callback; `None` is the null response. */
  datatype Act = Act(target: Request, resp: Option<Response>, inLoop: bool)

  /** What the framework does with a request: a sync advice answers, or a handler runs and calls callbacks. */
  datatype Handling = Advice(resp: Response) | Handler(acts: seq<Act>)

  datatype Arrival = Arrival(req: Request, handling: Handling)

  /** Zero means no limit. */
  datatype Limits = Limits(keepAlive: nat, pipelining: nat)

  datatype Conn = Conn(
    pipeline: seq<Slot>,
    ready: seq<Reply>,
    queued: seq<(Request, Reply)>,
    wire: seq<WireItem>,
    open: bool,
    stopped: bool,
    received: seq<Request>,
    called: set<nat>,
    answers: map<nat, Reply>,
    selfHead: bool)

  const INITIAL: Conn := Conn([], [], [], [], true, false, [], {}, map[], false)

  // ---------------------------------------------------------------- writing responses

  function MakeReply(req: Request, resp: Response): Reply {
    Reply(resp, req.head, req.close, req.http10)
  }

  /** The bytes of one response: headers only for HEAD, otherwise everything and then the file. */
  function Emit(r: Reply): seq<WireItem> {
    if r.head then [HeaderOnly(r.resp, r.close, r.http10)]
    else if r.resp.sendfile == "" then [Full(r.resp, r.close, r.http10)]
    else [Full(r.resp, r.close, r.http10), File(r.resp.sendfile)]
  }

  /** What goes out when `rs` is sent: everything through the first closing response. */
  function EmitUpTo(rs: seq<Reply>): seq<WireItem> {
    if rs == [] then []
    else Emit(rs[0]) + (if rs[0].close then [] else EmitUpTo(rs[1..]))
  }

  predicate Closes(rs: seq<Reply>) {
    exists i :: 0 <= i < |rs| && rs[i].close
  }

  function Send(c: Conn, rs: seq<Reply>): Conn {
    c.(wire := c.wire + EmitUpTo(rs), open := c.open && !Closes(rs))
  }

  // ---------------------------------------------------------------- the pipeline

  function Push(c: Conn, req: Request): Conn {
    c.(pipeline := c.pipeline + [Slot(req, None)])
  }

  function SetReply(p: seq<Slot>, id: nat, reply: Reply): (q: seq<Slot>)
    ensures |q| == |p|
  {
    if p == [] then []
    else if p[0].req.id == id then [p[0].(reply := Some(reply))] + p[1..]
    else [p[0]] + SetReply(p[1..], id, reply)
  }

  /** The replies held by the slots at the head of the deque. */
  function Leading(p: seq<Slot>): (rs: seq<Reply>)
    ensures |rs| <= |p|
    ensures forall i :: 0 <= i < |rs| ==> p[i].reply == Some(rs[i])
    ensures |rs| < |p| ==> p[|rs|].reply.None?
  {
    if p == [] || p[0].reply.None? then [] else [p[0].reply.value] + Leading(p[1..])
  }

  // ---------------------------------------------------------------- completion callbacks

  /** A callback that runs in the loop after its batch, directly or from the loop's queue. */
  function Deliver(c: Conn, req: Request, reply: Reply): Conn {
    var c1 := c.(answers := c.answers[req.id := reply]);
    if c.pipeline != [] && c.pipeline[0].req.id == req.id then
      var rest := c.pipeline[1..];
      var more := Leading(rest);
      Send(c1.(pipeline := rest[|more|..]), [reply] + more)
    else
      c1.(pipeline := SetReply(c.pipeline, req.id, reply))
  }

  /** A callback that runs inside the iteration of its own request. */
  function Own(c: Conn, req: Request, reply: Reply): Conn {
    var c1 := c.(answers := c.answers[req.id := reply]);
    if c.pipeline == [] then c1.(ready := c.ready + [reply])
    else c1.(pipeline := SetReply(c.pipeline, req.id, reply),
             selfHead := c.selfHead || c.pipeline[0].req.id == req.id)
  }

  /** One callback call; `running` is the request whose iteration is under way, if any. */
  function Call(c: Conn, running: Option<Request>, a: Act): (c': Conn)
    ensures c'.received == c.received
  {
    if a.resp.None? || !c.open then c
    else
      var reply := MakeReply(a.target, a.resp.value);
      var c1 := c.(called := c.called + {a.target.id});
      if !a.inLoop then c1.(queued := c1.queued + [(a.target, reply)])
      else if running.Some? && running.value.id == a.target.id then Own(c1, a.target, reply)
      else Deliver(c1, a.target, reply)
  }

  /** Whether the call sets syncFlag of the iteration of `r`. */
  predicate Syncs(c: Conn, r: Request, a: Act) {
    a.resp.Some? && c.open && a.inLoop && a.target.id == r.id
  }

  function RunActs(c: Conn, r: Request, acts: seq<Act>, sync: bool): (result: (Conn, bool))
    ensures result.0.received == c.received
    decreases |acts|
  {
    if acts == [] then (c, sync)
    else RunActs(Call(c, Some(r), acts[0]), r, acts[1..], sync || Syncs(c, r, acts[0]))
  }

  // ---------------------------------------------------------------- batches

  /** A sync advice answers the request in place of its handler. */
  function Advise(c: Conn, r: Request, resp: Response, sync: bool): Conn {
    var reply := MakeReply(r, resp);
    var c1 := if c.open then c.(called := c.called + {r.id}, answers := c.answers[r.id := reply]) else c;
    if sync then c1.(pipeline := SetReply(c.pipeline, r.id, reply)) else c1.(ready := c.ready + [reply])
  }

  /** One iteration of the loop in onRequests. */
  function Iterate(c: Conn, a: Arrival): (c': Conn)
    ensures c'.received == c.received + [a.req]
  {
    var sync := c.pipeline != [];
    var c0 := c.(received := c.received + [a.req]);
    var c1 := if sync then Push(c0, a.req) else c0;
    match a.handling
    case Advice(resp) => Advise(c1, a.req, resp, sync)
    case Handler(acts) =>
      var (c2, sync2) := RunActs(c1, a.req, acts, sync);
      if sync2 then c2 else Push(c2, a.req)
  }

  function BatchLoop(c: Conn, batch: seq<Arrival>): Conn
    decreases |batch|
  {
    if batch == [] then c else BatchLoop(Iterate(c, batch[0]), batch[1..])
  }

  function FlushReady(c: Conn): Conn {
    if c.open && c.ready != [] then Send(c, c.ready).(ready := []) else c
  }

  predicate OverLimit(c: Conn, n: nat, parsed: nat, limits: Limits) {
    (limits.keepAlive > 0 && parsed >= limits.keepAlive) ||
    (limits.pipelining > 0 && |c.pipeline| + n >= limits.pipelining)
  }

  function OnRequests(c: Conn, batch: seq<Arrival>, parsed: nat, limits: Limits): Conn {
    if batch == [] then c
    else if OverLimit(c, |batch|, parsed, limits) then c.(stopped := true, open := false)
    else if !c.open then c
    else FlushReady(BatchLoop(c, batch))
  }

  /** The loop takes the next queued completion. */
  function RunQueued(c: Conn): Conn {
    if c.queued == [] then c
    else
      var (req, reply) := c.queued[0];
      var c1 := c.(queued := c.queued[1..]);
      if c.open then Deliver(c1, req, reply) else c1
  }

  // ---------------------------------------------------------------- runs

  datatype Event =
    | Arrive(batch: seq<Arrival>, parsed: nat)
    | Complete(act: Act)
    | LoopTurn

  function Step(c: Conn, e: Event, limits: Limits): Conn {
    match e
    case Arrive(batch, parsed) => OnRequests(c, batch, parsed, limits)
    case Complete(act) => Call(c, None, act)
    case LoopTurn => RunQueued(c)
  }

  function Run(c: Conn, events: seq<Event>, limits: Limits): Conn
    decreases |events|
  {
    if events == [] then c else Run(Step(c, events[0], limits), events[1..], limits)
  }

  predicate Known(c: Conn, id: nat) {
    exists i :: 0 <= i < |c.received| && c.received[i].id == id
  }

  /**
   A callback exists once its handler was given the request, and is called with a response at most
   once.  In the loop thread it is called in its own iteration or after its batch, so while a batch
   that started at `start` runs, only earlier requests and the running one can be completed in the loop.
   */
  predicate MayCall(c: Conn, start: nat, running: Option<Request>, a: Act)
    requires start <= |c.received|
  {
    a.resp.Some? && c.open ==>
      && a.target.id !in c.called
      && a.target in c.received
      && (a.inLoop ==> a.target in c.received[..start] || running == Some(a.target))
  }

  predicate MayRunActs(c: Conn, start: nat, r: Request, acts: seq<Act>)
    requires start <= |c.received|
    decreases |acts|
  {
    acts == [] ||
    (MayCall(c, start, Some(r), acts[0]) && MayRunActs(Call(c, Some(r), acts[0]), start, r, acts[1..]))
  }

  predicate MayIterate(c: Conn, start: nat, a: Arrival)
    requires start <= |c.received|
  {
    && !Known(c, a.req.id)
    && (a.handling.Handler? ==>
          var c0 := c.(received := c.received + [a.req]);
          MayRunActs(if c.pipeline != [] then Push(c0, a.req) else c0, start, a.req, a.handling.acts))
  }

  predicate MayLoop(c: Conn, start: nat, batch: seq<Arrival>)
    requires start <= |c.received|
    decreases |batch|
  {
    batch == [] ||
    (MayIterate(c, start, batch[0]) && MayLoop(Iterate(c, batch[0]), start, batch[1..]))
  }

  predicate MayStep(c: Conn, e: Event) {
    match e
    case Arrive(batch, _) => MayLoop(c, |c.received|, batch)
    case Complete(act) => MayCall(c, |c.received|, None, act)
    case LoopTurn => true
  }

  predicate MayRun(c: Conn, events: seq<Event>, limits: Limits)
    decreases |events|
  {
    events == [] || (MayStep(c, events[0]) && MayRun(Step(c, events[0], limits), events[1..], limits))
  }

  // ---------------------------------------------------------------- what should be on the wire

  /**
   The wire as it should be: the replies of the longest answered prefix of the requests, cut after the
   first closing one.
   */
  function ExpectedFrom(received: seq<Request>, answers: map<nat, Reply>, i: nat): seq<WireItem>
    requires i <= |received|
    decreases |received| - i
  {
    if i == |received| || received[i].id !in answers then []
    else
      Emit(answers[received[i].id]) +
      (if received[i].close then [] else ExpectedFrom(received, answers, i + 1))
  }

  function Expected(c: Conn): seq<WireItem> {
    ExpectedFrom(c.received, c.answers, 0)
  }

  /** The replies of the first `n` requests. */
  function Written(received: seq<Request>, answers: map<nat, Reply>, n: nat): seq<WireItem>
    requires n <= |received|
  {
    if n == 0 then []
    else
      Written(received, answers, n - 1) +
      (if received[n - 1].id in answers then Emit(answers[received[n - 1].id]) else [])
  }

  predicate Distinct(received: seq<Request>) {
    forall i, j :: 0 <= i < j < |received| ==> received[i].id != received[j].id
  }

  function Lookup(answers: map<nat, Reply>, id: nat): Option<Reply> {
    if id in answers then Some(answers[id]) else None
  }
}

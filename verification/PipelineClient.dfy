/**
 The client side of HTTP pipelining: the two queues of HttpClientImpl, the connect callback,
 responses, errors, and the timers that race with responses for the user's callback.

 User callbacks run inside these operations and may submit further requests; the requests a
 callback submits are given as an argument (`nested`, `script`).
 */
module PipelineClient {
  import opened PipelineServer

  datatype Failure = BadResponse | NetworkFailure | BadServerAddress | Timeout

  datatype Result = Ok(reply: Reply) | Failed(why: Failure)

  /** No TCP client, a TCP client without a connection, or an established connection. */
  datatype Link = NoClient | Connecting | Connected

  datatype Submission = Submission(req: Request, timed: bool)

  /**
   `buffer` is requestsBuffer_ and `inFlight` is pipeliningCallbacks_; `sent` is what was written on
   the present connection.  `completed` logs the queue entries whose callback ran, with its argument,
   and `userCalls` the calls that reached the user.  `fired` is the set of raised timeout flags.
   */
  datatype Client = Client(
    depth: nat,
    link: Link,
    buffer: seq<Request>,
    inFlight: seq<Request>,
    sent: seq<Request>,
    timed: set<nat>,
    fired: set<nat>,
    submitted: seq<Request>,
    completed: seq<(Request, Result)>,
    userCalls: seq<(nat, Result)>)

  function NewClient(depth: nat): Client {
    Client(depth, NoClient, [], [], [], {}, {}, [], [], [])
  }

  function Transmit(c: Client, req: Request): Client {
    c.(sent := c.sent + [req], inFlight := c.inFlight + [req])
  }

  function Submit(c: Client, s: Submission): Client {
    var c1 := c.(submitted := c.submitted + [s.req], timed := if s.timed then c.timed + {s.req.id} else c.timed);
    match c.link
    case NoClient => c1.(buffer := c.buffer + [s.req], link := Connecting)
    case Connecting => c1.(buffer := c.buffer + [s.req])
    case Connected =>
      if |c.inFlight| <= c.depth && c.buffer == [] then Transmit(c1, s.req)
      else c1.(buffer := c.buffer + [s.req])
  }

  function SubmitAll(c: Client, ss: seq<Submission>): (c': Client)
    ensures |c'.inFlight| + |c'.buffer| == |c.inFlight| + |c.buffer| + |ss|
    decreases |ss|
  {
    if ss == [] then c else SubmitAll(Submit(c, ss[0]), ss[1..])
  }

  /** The head of the buffer goes out. */
  function Promote(c: Client): Client
    requires c.buffer != []
  {
    Transmit(c, c.buffer[0]).(buffer := c.buffer[1..])
  }

  function Fill(c: Client): Client
    decreases |c.buffer|
  {
    if |c.inFlight| <= c.depth && c.buffer != [] then Fill(Promote(c)) else c
  }

  function Connect(c: Client): Client {
    Fill(c.(link := Connected, sent := []))
  }

  /** Whether running the callback of `req` reaches the user. */
  predicate Reaches(c: Client, req: Request) {
    !(req.id in c.timed && req.id in c.fired)
  }

  /** The callback of a queue entry runs. */
  function RunCallback(c: Client, req: Request, result: Result): Client {
    var c1 := c.(completed := c.completed + [(req, result)]);
    if !Reaches(c, req) then c1
    else c1.(
      fired := if req.id in c.timed then c.fired + {req.id} else c.fired,
      userCalls := c.userCalls + [(req.id, result)])
  }

  /** The timer of a request goes off. */
  function TimerFires(c: Client, id: nat): Client {
    if id in c.fired then c
    else c.(fired := c.fired + {id}, userCalls := c.userCalls + [(id, Failed(Timeout))])
  }

  /** `drops` says that the parsed response closes the connection, which HTTP/1.0 ones do. */
  function OnResponse(c: Client, reply: Reply, nested: seq<Submission>, drops: bool): Client
    requires c.inFlight != []
  {
    var c1 := RunCallback(c.(inFlight := c.inFlight[1..]), c.inFlight[0], Ok(reply));
    var c2 := if Reaches(c, c.inFlight[0]) then SubmitAll(c1, nested) else c1;
    if c2.buffer != [] then Promote(c2)
    else if drops && c2.inFlight == [] then c2.(link := NoClient)
    else c2
  }

  function Total(script: seq<seq<Submission>>): nat {
    if script == [] then 0 else |script[0]| + Total(script[1..])
  }

  /** A callback with an error, and the submissions it makes if it reaches the user. */
  function Fail(c: Client, req: Request, why: Failure,
                script: seq<seq<Submission>>): (r: (Client, seq<seq<Submission>>))
    ensures |r.0.inFlight| + |r.0.buffer| + Total(r.1) == |c.inFlight| + |c.buffer| + Total(script)
  {
    var c1 := RunCallback(c, req, Failed(why));
    if Reaches(c, req) && script != [] then (SubmitAll(c1, script[0]), script[1..]) else (c1, script)
  }

  /** First loop of onError. */
  function FailInFlight(c: Client, why: Failure, script: seq<seq<Submission>>): (r: (Client, seq<seq<Submission>>))
    ensures r.0.inFlight == []
    ensures |r.0.buffer| + Total(r.1) <= |c.inFlight| + |c.buffer| + Total(script)
    decreases |c.inFlight| + |c.buffer| + Total(script)
  {
    if c.inFlight == [] then (c, script)
    else
      var (c1, rest) := Fail(c.(inFlight := c.inFlight[1..]), c.inFlight[0], why, script);
      FailInFlight(c1, why, rest)
  }

  /** Second loop of onError. */
  function FailBuffer(c: Client, why: Failure, script: seq<seq<Submission>>): (r: (Client, seq<seq<Submission>>))
    ensures r.0.buffer == []
    decreases |c.inFlight| + |c.buffer| + Total(script)
  {
    if c.buffer == [] then (c, script)
    else
      var (c1, rest) := Fail(c.(buffer := c.buffer[1..]), c.buffer[0], why, script);
      FailBuffer(c1, why, rest)
  }

  function Drain(c: Client, why: Failure, script: seq<seq<Submission>>): (r: (Client, seq<seq<Submission>>))
    ensures r.0.buffer == []
  {
    var (c1, rest) := FailInFlight(c, why, script);
    FailBuffer(c1, why, rest)
  }

  /**
   tcpClientPtr_.reset().  A live connection is closed when the TCP client is destroyed, and its
   callback runs onError once more, with a network failure and no TCP client left.
   */
  function ResetTcpClient(c: Client, script: seq<seq<Submission>>): Client {
    if c.link == Connected then Drain(c.(link := NoClient), NetworkFailure, script).0.(link := NoClient)
    else c.(link := NoClient)
  }

  /** A bad response leaves the connection up while the callbacks run; the other errors find it down. */
  function Struck(c: Client, why: Failure): Client {
    if why.BadResponse? then c else c.(link := Connecting)
  }

  function OnError(c: Client, why: Failure, script: seq<seq<Submission>>): Client {
    var (c1, rest) := Drain(Struck(c, why), why, script);
    ResetTcpClient(c1, rest)
  }

  // ---------------------------------------------------------------- runs

  datatype ClientEvent =
    | Submits(s: Submission)
    | Connects
    | TimerGoes(id: nat)
    | Receives(reply: Reply, nested: seq<Submission>, drops: bool)
    | Errs(why: Failure, script: seq<seq<Submission>>)

  function ClientStep(c: Client, e: ClientEvent): Client
    requires MayClientStep(c, e)
  {
    match e
    case Submits(s) => Submit(c, s)
    case Connects => Connect(c)
    case TimerGoes(id) => TimerFires(c, id)
    case Receives(reply, nested, drops) => OnResponse(c, reply, nested, drops)
    case Errs(why, script) => OnError(c, why, script)
  }

  predicate Fresh(c: Client, s: Submission) {
    forall i :: 0 <= i < |c.submitted| ==> c.submitted[i].id != s.req.id
  }

  predicate FreshAll(c: Client, ss: seq<Submission>) {
    && (forall j :: 0 <= j < |ss| ==> Fresh(c, ss[j]))
    && (forall j, k :: 0 <= j < k < |ss| ==> ss[j].req.id != ss[k].req.id)
  }

  function Flatten(script: seq<seq<Submission>>): seq<Submission> {
    if script == [] then [] else script[0] + Flatten(script[1..])
  }

  /**
   Submissions are new; a timer belongs to a request submitted with one; a response finds a request
   waiting for it.
   */
  predicate MayClientStep(c: Client, e: ClientEvent) {
    match e
    case Submits(s) => Fresh(c, s)
    case Connects => c.link == Connecting
    case TimerGoes(id) => id in c.timed
    case Receives(_, nested, _) => c.link == Connected && c.inFlight != [] && FreshAll(c, nested)
    case Errs(why, script) =>
      && FreshAll(c, Flatten(script))
      && match why {
        case BadResponse => c.link == Connected
        case NetworkFailure => c.link == Connected
        case BadServerAddress => c.link == Connecting
        case Timeout => false
      }
  }

  predicate MayClientRun(c: Client, events: seq<ClientEvent>)
    decreases |events|
  {
    events == [] || (MayClientStep(c, events[0]) && MayClientRun(ClientStep(c, events[0]), events[1..]))
  }

  function ClientRun(c: Client, events: seq<ClientEvent>): Client
    requires MayClientRun(c, events)
    decreases |events|
  {
    if events == [] then c else ClientRun(ClientStep(c, events[0]), events[1..])
  }
}

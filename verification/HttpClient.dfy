/** The client object as the code has it: two queues updated in place, callbacks run as they are popped. */
module HttpClient {
  import opened PipelineServer
  import opened PipelineClient

  class Client {
    const pipeliningDepth: nat
    var link: Link
    var requestsBuffer: seq<Request>
    var pipeliningCallbacks: seq<Request>
    var written: seq<Request>
    var timeoutFlags: set<nat>
    var withTimer: set<nat>
    ghost var submitted: seq<Request>
    ghost var completed: seq<(Request, Result)>
    var userCalls: seq<(nat, Result)>

    ghost function State(): PipelineClient.Client
      reads this
    {
      PipelineClient.Client(pipeliningDepth, link, requestsBuffer, pipeliningCallbacks, written, withTimer,
        timeoutFlags,
                            submitted, completed, userCalls)
    }

    constructor (depth: nat)
      ensures State() == NewClient(depth)
    {
      pipeliningDepth, link := depth, NoClient;
      requestsBuffer, pipeliningCallbacks, written := [], [], [];
      timeoutFlags, withTimer, submitted, completed, userCalls := {}, {}, [], [], [];
    }

    method SendReq(req: Request)
      modifies this`written
      ensures written == old(written) + [req]
    {
      written := written + [req];
    }

    method SendRequestInLoop(s: Submission)
      modifies this
      ensures State() == Submit(old(State()), s)
    {
      submitted := submitted + [s.req];
      if s.timed {
        withTimer := withTimer + {s.req.id};
      }
      if link == NoClient {
        requestsBuffer := requestsBuffer + [s.req];
        link := Connecting;
      } else if link == Connected {
        if |pipeliningCallbacks| <= pipeliningDepth && requestsBuffer == [] {
          SendReq(s.req);
          pipeliningCallbacks := pipeliningCallbacks + [s.req];
        } else {
          requestsBuffer := requestsBuffer + [s.req];
        }
      } else {
        requestsBuffer := requestsBuffer + [s.req];
      }
    }

    /** The connection is established: buffered requests go out while the pipeline has room. */
    method OnConnected()
      modifies this
      ensures State() == Connect(old(State()))
    {
      link, written := Connected, [];
      ghost var start := State();
      while |pipeliningCallbacks| <= pipeliningDepth && requestsBuffer != []
        invariant Fill(State()) == Fill(start)
        decreases |requestsBuffer|
      {
        SendReq(requestsBuffer[0]);
        pipeliningCallbacks := pipeliningCallbacks + [requestsBuffer[0]];
        requestsBuffer := requestsBuffer[1..];
      }
    }

    /** Runs the callback of a queue entry; `reaches` says whether the timeout flag let it through to the user. */
    method Invoke(req: Request, result: Result) returns (reaches: bool)
      modifies this`timeoutFlags, this`userCalls, this`completed
      ensures State() == RunCallback(old(State()), req, result)
      ensures reaches == Reaches(old(State()), req)
    {
      completed := completed + [(req, result)];
      reaches := true;
      if req.id in withTimer {
        if req.id in timeoutFlags {
          reaches := false;
          return;
        }
        timeoutFlags := timeoutFlags + {req.id};
      }
      userCalls := userCalls + [(req.id, result)];
    }

    method OnTimer(id: nat)
      modifies this`timeoutFlags, this`userCalls
      ensures State() == TimerFires(old(State()), id)
    {
      if id in timeoutFlags {
        return;
      }
      timeoutFlags := timeoutFlags + {id};
      userCalls := userCalls + [(id, Failed(Timeout))];
    }

    /** The requests a user callback submits while it runs. */
    method RunNested(ss: seq<Submission>)
      modifies this
      ensures State() == SubmitAll(old(State()), ss)
    {
      var i := 0;
      while i < |ss|
        invariant 0 <= i <= |ss|
        invariant SubmitAll(State(), ss[i..]) == SubmitAll(old(State()), ss)
      {
        assert ss[i..][1..] == ss[i + 1..];
        SendRequestInLoop(ss[i]);
        i := i + 1;
      }
    }

    method OnRecvResponse(reply: Reply, nested: seq<Submission>, drops: bool)
      requires pipeliningCallbacks != []
      modifies this
      ensures State() == OnResponse(old(State()), reply, nested, drops)
    {
      var req := pipeliningCallbacks[0];
      pipeliningCallbacks := pipeliningCallbacks[1..];
      var reaches := Invoke(req, Ok(reply));
      if reaches {
        RunNested(nested);
      }
      if requestsBuffer != [] {
        SendReq(requestsBuffer[0]);
        pipeliningCallbacks := pipeliningCallbacks + [requestsBuffer[0]];
        requestsBuffer := requestsBuffer[1..];
      } else if drops && pipeliningCallbacks == [] {
        link := NoClient;
      }
    }

    /** Fails every queued request; each callback that reaches the user takes the next entry of `script`. */
    method Drain(why: Failure, script: seq<seq<Submission>>) returns (rest: seq<seq<Submission>>)
      modifies this
      ensures (State(), rest) == PipelineClient.Drain(old(State()), why, script)
    {
      ghost var start := State();
      rest := script;
      while pipeliningCallbacks != []
        invariant FailInFlight(State(), why, rest) == FailInFlight(start, why, script)
        decreases |pipeliningCallbacks| + |requestsBuffer| + Total(rest)
      {
        var req := pipeliningCallbacks[0];
        pipeliningCallbacks := pipeliningCallbacks[1..];
        var reaches := Invoke(req, Failed(why));
        if reaches && rest != [] {
          RunNested(rest[0]);
          rest := rest[1..];
        }
      }
      ghost var middle, left := State(), rest;
      while requestsBuffer != []
        invariant FailBuffer(State(), why, rest) == FailBuffer(middle, why, left)
        decreases |pipeliningCallbacks| + |requestsBuffer| + Total(rest)
      {
        var req := requestsBuffer[0];
        requestsBuffer := requestsBuffer[1..];
        var reaches := Invoke(req, Failed(why));
        if reaches && rest != [] {
          RunNested(rest[0]);
          rest := rest[1..];
        }
      }
    }

    /** The destructor of the TCP client closes a live connection, and its callback comes back here. */
    method ResetTcpClient(script: seq<seq<Submission>>)
      modifies this
      ensures State() == PipelineClient.ResetTcpClient(old(State()), script)
    {
      var live := link == Connected;
      link := NoClient;
      if live {
        var rest := Drain(NetworkFailure, script);
        link := NoClient;
      }
    }

    method OnErrorInLoop(why: Failure, script: seq<seq<Submission>>)
      modifies this
      ensures State() == OnError(old(State()), why, script)
    {
      if why != BadResponse {
        link := Connecting;
      }
      var rest := Drain(why, script);
      ResetTcpClient(rest);
    }
  }
}

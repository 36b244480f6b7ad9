/** The server's connection object as the code has it: a deque and buffers updated in place. */
module HttpServer {
  import opened Wrappers
  import opened PipelineServer

  lemma EmitNext(rs: seq<Reply>, i: nat, sent: seq<WireItem>)
    requires i < |rs|
    ensures sent + EmitUpTo(rs[i..]) ==
      if rs[i].close then sent + Emit(rs[i]) else (sent + Emit(rs[i])) + EmitUpTo(rs[i + 1..])
  {
    assert rs[i..][1..] == rs[i + 1..];
  }

  lemma SetReplyNext(p: seq<Slot>, i: nat, id: nat, reply: Reply)
    requires i < |p|
    ensures p[..i] + SetReply(p[i..], id, reply) ==
      if p[i].req.id == id then p[i := p[i].(reply := Some(reply))]
      else p[..i + 1] + SetReply(p[i + 1..], id, reply)
  {
    assert p[i..][1..] == p[i + 1..];
  }

  lemma LeadingNext(resps: seq<Reply>, p: seq<Slot>)
    requires p != [] && p[0].reply.Some?
    ensures resps + Leading(p) == (resps + [p[0].reply.value]) + Leading(p[1..])
  {
  }

  class Connection {
    var pipeline: seq<Slot>
    var responseBuffer: seq<Reply>
    var sendBuffer: seq<WireItem>
    var loopQueue: seq<(Request, Reply)>
    var wire: seq<WireItem>
    var connected: bool
    var stopWorking: bool
    ghost var received: seq<Request>
    ghost var called: set<nat>
    ghost var answers: map<nat, Reply>
    ghost var selfHead: bool

    ghost predicate Valid()
      reads this
    {
      sendBuffer == []
    }

    ghost function State(): Conn
      reads this
    {
      Conn(pipeline, responseBuffer, loopQueue, wire, connected, stopWorking, received, called, answers, selfHead)
    }

    constructor ()
      ensures Valid() && State() == INITIAL
    {
      pipeline, responseBuffer, sendBuffer, loopQueue, wire := [], [], [], [], [];
      connected, stopWorking := true, false;
      received, called, answers, selfHead := [], {}, map[], false;
    }

    method PushRequestToPipelining(req: Request)
      modifies this`pipeline
      ensures State() == Push(old(State()), req)
    {
      pipeline := pipeline + [Slot(req, None)];
    }

    /** Stores the reply in the first slot of the request, if there is one. */
    method PushResponseToPipelining(req: Request, reply: Reply)
      modifies this`pipeline
      ensures pipeline == SetReply(old(pipeline), req.id, reply)
    {
      var i := 0;
      while i < |pipeline|
        invariant 0 <= i <= |pipeline| && pipeline == old(pipeline)
        invariant SetReply(pipeline, req.id, reply) == pipeline[..i] + SetReply(pipeline[i..], req.id, reply)
      {
        SetReplyNext(pipeline, i, req.id, reply);
        if pipeline[i].req.id == req.id {
          pipeline := pipeline[i := pipeline[i].(reply := Some(reply))];
          return;
        }
        i := i + 1;
      }
    }

    method SendResponse(r: Reply)
      modifies this`wire, this`connected
      ensures wire == old(wire) + Emit(r)
      ensures connected == (old(connected) && !r.close)
    {
      if !r.head {
        wire := wire + [Full(r.resp, r.close, r.http10)];
        if r.resp.sendfile != "" {
          wire := wire + [File(r.resp.sendfile)];
        }
      } else {
        wire := wire + [HeaderOnly(r.resp, r.close, r.http10)];
      }
      if r.close {
        connected := false;
      }
    }

    /** Renders one response behind what is buffered; a file forces the buffer out first. */
    method BufferResponse(r: Reply)
      modifies this`wire, this`sendBuffer
      ensures wire + sendBuffer == old(wire + sendBuffer) + Emit(r)
    {
      if !r.head {
        sendBuffer := sendBuffer + [Full(r.resp, r.close, r.http10)];
        if r.resp.sendfile != "" {
          wire := wire + sendBuffer;
          sendBuffer := [];
          wire := wire + [File(r.resp.sendfile)];
        }
      } else {
        sendBuffer := sendBuffer + [HeaderOnly(r.resp, r.close, r.http10)];
      }
    }

    /** Sends the responses in order, collected in one buffer; the first closing one is the last. */
    method SendResponses(rs: seq<Reply>)
      requires Valid() && connected
      modifies this`wire, this`connected, this`sendBuffer
      ensures Valid() && wire == old(wire) + EmitUpTo(rs) && connected == !Closes(rs)
    {
      if rs == [] {
        return;
      }
      if |rs| == 1 {
        SendResponse(rs[0]);
        return;
      }
      var i := 0;
      while i < |rs|
        invariant 0 <= i <= |rs| && connected
        invariant forall j :: 0 <= j < i ==> !rs[j].close
        invariant wire + sendBuffer + EmitUpTo(rs[i..]) == old(wire) + EmitUpTo(rs)
      {
        var r := rs[i];
        ghost var sent := wire + sendBuffer;
        BufferResponse(r);
        EmitNext(rs, i, sent);
        if r.close {
          if sendBuffer != [] {
            wire := wire + sendBuffer;
            sendBuffer := [];
          }
          connected := false;
          return;
        }
        i := i + 1;
      }
      if connected && sendBuffer != [] {
        wire := wire + sendBuffer;
      }
      sendBuffer := [];
    }

    /** Takes the answered requests off the head of the deque. */
    method PopAnswered() returns (resps: seq<Reply>)
      modifies this`pipeline
      ensures resps == Leading(old(pipeline)) && pipeline == old(pipeline)[|resps|..]
    {
      resps := [];
      ghost var all := pipeline;
      while pipeline != [] && pipeline[0].reply.Some?
        invariant resps + Leading(pipeline) == Leading(all)
        invariant |resps| <= |all| && pipeline == all[|resps|..]
        decreases |pipeline|
      {
        LeadingNext(resps, pipeline);
        resps := resps + [pipeline[0].reply.value];
        pipeline := pipeline[1..];
        assert all[|resps|..] == all[|resps| - 1..][1..];
      }
      assert resps + [] == resps;
    }

    /** A completion that runs in the loop after its batch. */
    method Finish(req: Request, reply: Reply)
      requires Valid() && connected
      modifies this
      ensures Valid() && State() == Deliver(old(State()), req, reply)
    {
      answers := answers[req.id := reply];
      if pipeline != [] && pipeline[0].req.id == req.id {
        pipeline := pipeline[1..];
        var resps := PopAnswered();
        SendResponses([reply] + resps);
      } else {
        PushResponseToPipelining(req, reply);
      }
    }

    /** A completion callback; `running` is the request whose iteration is under way. */
    method Callback(running: Option<Request>, a: Act) returns (syncs: bool)
      requires Valid()
      modifies this
      ensures Valid() && State() == Call(old(State()), running, a)
      ensures syncs <==> running.Some? && Syncs(old(State()), running.value, a)
    {
      syncs := false;
      if a.resp.None? || !connected {
        return;
      }
      var reply := MakeReply(a.target, a.resp.value);
      called := called + {a.target.id};
      if !a.inLoop {
        loopQueue := loopQueue + [(a.target, reply)];
      } else if running.Some? && running.value.id == a.target.id {
        syncs := true;
        answers := answers[a.target.id := reply];
        if pipeline == [] {
          responseBuffer := responseBuffer + [reply];
        } else {
          selfHead := selfHead || pipeline[0].req.id == a.target.id;
          PushResponseToPipelining(a.target, reply);
        }
      } else {
        Finish(a.target, reply);
      }
    }

    /** One iteration of the loop over a batch. */
    method Handle(a: Arrival)
      requires Valid()
      modifies this
      ensures Valid() && State() == Iterate(old(State()), a)
    {
      var syncFlag := false;
      received := received + [a.req];
      if pipeline != [] {
        PushRequestToPipelining(a.req);
        syncFlag := true;
      }
      match a.handling
      case Advice(resp) =>
        var reply := MakeReply(a.req, resp);
        if connected {
          called, answers := called + {a.req.id}, answers[a.req.id := reply];
        }
        if !syncFlag {
          responseBuffer := responseBuffer + [reply];
        } else {
          PushResponseToPipelining(a.req, reply);
        }
      case Handler(acts) =>
        ghost var before, sync0 := State(), syncFlag;
        var i := 0;
        while i < |acts|
          invariant 0 <= i <= |acts| && Valid()
          invariant RunActs(State(), a.req, acts[i..], syncFlag) == RunActs(before, a.req, acts, sync0)
        {
          assert acts[i..][1..] == acts[i + 1..];
          var syncs := Callback(Some(a.req), acts[i]);
          syncFlag := syncFlag || syncs;
          i := i + 1;
        }
        if !syncFlag {
          PushRequestToPipelining(a.req);
        }
    }

    /** Serves the requests parsed from one read. */
    method Serve(batch: seq<Arrival>, parsed: nat, limits: Limits)
      requires Valid()
      modifies this
      ensures Valid() && State() == OnRequests(old(State()), batch, parsed, limits)
    {
      if batch == [] {
        return;
      }
      if limits.keepAlive > 0 && parsed >= limits.keepAlive {
        stopWorking, connected := true, false;
        return;
      } else if limits.pipelining > 0 && |pipeline| + |batch| >= limits.pipelining {
        stopWorking, connected := true, false;
        return;
      }
      if !connected {
        return;
      }
      var i := 0;
      while i < |batch|
        invariant 0 <= i <= |batch| && Valid()
        invariant BatchLoop(State(), batch[i..]) == BatchLoop(old(State()), batch)
      {
        assert batch[i..][1..] == batch[i + 1..];
        Handle(batch[i]);
        i := i + 1;
      }
      if connected && responseBuffer != [] {
        SendResponses(responseBuffer);
        responseBuffer := [];
      }
    }

    /** The loop runs the oldest queued completion. */
    method RunLoopQueue()
      requires Valid()
      modifies this
      ensures Valid() && State() == RunQueued(old(State()))
    {
      if loopQueue != [] {
        var (req, reply) := loopQueue[0];
        loopQueue := loopQueue[1..];
        if connected {
          Finish(req, reply);
        }
      }
    }
  }
}

/** When the client's requests are completed in the order of their submission. */
module PipelineClientOrder {
  import opened PipelineServer
  import opened PipelineClient
  import opened PipelineClientProofs

  /** Completed, in flight and buffered requests, one behind the other, are those submitted. */
  ghost predicate Ordered(c: Client, pending: seq<Request>) {
    c.submitted == Requests(c.completed) + pending && Distinct(c.submitted)
  }

  ghost predicate InOrder(c: Client) {
    Ordered(c, c.inFlight + c.buffer)
  }

  /** Some request was completed in another place than it was submitted. */
  ghost predicate Overtaken(c: Client) {
    exists i :: 0 <= i < |c.completed| && i < |c.submitted| && c.completed[i].0 != c.submitted[i]
  }

  lemma OvertakenIsOutOfOrder(c: Client)
    requires Overtaken(c)
    ensures !InOrder(c)
  {
    var i :| 0 <= i < |c.completed| && i < |c.submitted| && c.completed[i].0 != c.submitted[i];
    assert (Requests(c.completed) + (c.inFlight + c.buffer))[i] == c.completed[i].0;
  }

  /** Both logs only grow. */
  ghost predicate Grows(c: Client, d: Client) {
    c.submitted <= d.submitted && c.completed <= d.completed
  }

  lemma OvertakenStays(c: Client, d: Client)
    requires Overtaken(c) && Grows(c, d)
    ensures Overtaken(d)
  {
    var i :| 0 <= i < |c.completed| && i < |c.submitted| && c.completed[i].0 != c.submitted[i];
    assert d.completed[i] == c.completed[i] && d.submitted[i] == c.submitted[i];
  }

  // ---------------------------------------------------------------- single steps

  lemma {:induction false} SubmitAllInOrder(c: Client, ss: seq<Submission>)
    requires InOrder(c) && FreshAll(c, ss)
    ensures InOrder(SubmitAll(c, ss)) && Grows(c, SubmitAll(c, ss))
    decreases |ss|
  {
    if ss != [] {
      SubmitInOrder(c, ss[0]);
      FreshTail(c, ss);
      SubmitAllInOrder(Submit(c, ss[0]), ss[1..]);
    }
  }

  lemma SubmitInOrder(c: Client, s: Submission)
    requires InOrder(c) && Fresh(c, s)
    ensures InOrder(Submit(c, s))
  {
    SubmitQueues(c, s);
    Append3(Requests(c.completed), c.inFlight + c.buffer, [s.req]);
  }

  lemma SubmitAllGrowsLogs(c: Client, ss: seq<Submission>)
    ensures Grows(c, SubmitAll(c, ss))
  {
    SubmitAllQueues(c, ss);
  }

  /** Completing the oldest pending request keeps the order. */
  lemma CallbackInOrder(c: Client, req: Request, result: Result, rest: seq<Request>)
    requires Ordered(c, [req] + rest)
    ensures Ordered(RunCallback(c, req, result), rest)
  {
    DoneIdsAppend(c.completed, (req, result));
    Append3(Requests(c.completed), [req], rest);
  }

  /** Completing another one does not. */
  lemma CallbackOvertakes(c: Client, first: seq<Request>, req: Request, result: Result, rest: seq<Request>)
    requires Ordered(c, first + ([req] + rest)) && first != []
    ensures Overtaken(RunCallback(c, req, result))
  {
    var d, i := RunCallback(c, req, result), |c.completed|;
    assert c.submitted[i] == first[0] && c.submitted[i + |first|] == req;
    assert d.completed[i].0 == req;
  }

  lemma FailGrows(c: Client, req: Request, why: Failure, script: seq<seq<Submission>>)
    ensures Grows(RunCallback(c, req, Failed(why)), Fail(c, req, why, script).0)
      && Grows(c, Fail(c, req, why, script).0)
  {
    if script != [] {
      SubmitAllGrowsLogs(RunCallback(c, req, Failed(why)), script[0]);
    }
  }

  lemma {:induction false} FailInFlightGrows(c: Client, why: Failure, script: seq<seq<Submission>>)
    ensures Grows(c, FailInFlight(c, why, script).0)
    decreases |c.inFlight| + |c.buffer| + Total(script)
  {
    if c.inFlight != [] {
      var c0 := c.(inFlight := c.inFlight[1..]);
      FailGrows(c0, c.inFlight[0], why, script);
      var (c1, rest) := Fail(c0, c.inFlight[0], why, script);
      FailInFlightGrows(c1, why, rest);
    }
  }

  lemma {:induction false} FailBufferGrows(c: Client, why: Failure, script: seq<seq<Submission>>)
    ensures Grows(c, FailBuffer(c, why, script).0)
    decreases |c.inFlight| + |c.buffer| + Total(script)
  {
    if c.buffer != [] {
      var c0 := c.(buffer := c.buffer[1..]);
      FailGrows(c0, c.buffer[0], why, script);
      var (c1, rest) := Fail(c0, c.buffer[0], why, script);
      FailBufferGrows(c1, why, rest);
    }
  }

  lemma DrainGrows(c: Client, why: Failure, script: seq<seq<Submission>>)
    ensures Grows(c, Drain(c, why, script).0)
  {
    FailInFlightGrows(c, why, script);
    var (c1, rest) := FailInFlight(c, why, script);
    FailBufferGrows(c1, why, rest);
  }

  lemma ResetGrows(c: Client, script: seq<seq<Submission>>)
    ensures Grows(c, ResetTcpClient(c, script))
  {
    DrainGrows(c.(link := NoClient), NetworkFailure, script);
  }

  lemma ErrorGrows(c: Client, why: Failure, script: seq<seq<Submission>>)
    ensures Grows(c, OnError(c, why, script))
  {
    DrainGrows(Struck(c, why), why, script);
    var (c1, rest) := Drain(Struck(c, why), why, script);
    ResetGrows(c1, rest);
  }

  // ---------------------------------------------------------------- errors

  /** The oldest request in flight, or without one the oldest buffered, fails in order. */
  lemma FailInOrder(c: Client, req: Request, why: Failure, script: seq<seq<Submission>>)
    requires Ordered(c, [req] + (c.inFlight + c.buffer)) && FreshAll(c, Flatten(script))
    ensures var (d, rest) := Fail(c, req, why, script);
      && InOrder(d) && FreshAll(d, Flatten(rest)) && (d.link == Connected <==> c.link == Connected)
  {
    CallbackInOrder(c, req, Failed(why), c.inFlight + c.buffer);
    var c1 := RunCallback(c, req, Failed(why));
    assert FreshAll(c1, Flatten(script)) by {
      assert forall s :: Fresh(c, s) ==> Fresh(c1, s);
    }
    if Reaches(c, req) && script != [] {
      var d := SubmitAll(c1, script[0]);
      assert Flatten(script) == script[0] + Flatten(script[1..]);
      FreshScript(c1, c1.(submitted := c1.submitted + Reqs(script[0])), script[0], Flatten(script[1..]));
      SubmitAllInOrder(c1, script[0]);
      SubmitAllQueues(c1, script[0]);
      assert FreshAll(d, Flatten(script[1..])) by {
        assert forall s :: Fresh(c1.(submitted := c1.submitted + Reqs(script[0])), s) ==> Fresh(d, s);
      }
    }
  }

  lemma {:induction false} FailInFlightInOrder(c: Client, why: Failure, script: seq<seq<Submission>>)
    requires InOrder(c) && FreshAll(c, Flatten(script))
    ensures var (d, rest) := FailInFlight(c, why, script);
      && InOrder(d) && FreshAll(d, Flatten(rest)) && (d.link == Connected <==> c.link == Connected)
    decreases |c.inFlight| + |c.buffer| + Total(script)
  {
    if c.inFlight != [] {
      var c0, req := c.(inFlight := c.inFlight[1..]), c.inFlight[0];
      assert c.inFlight + c.buffer == [req] + (c0.inFlight + c0.buffer);
      assert Ordered(c0, [req] + (c0.inFlight + c0.buffer));
      FailInOrder(c0, req, why, script);
      var (c1, rest) := Fail(c0, req, why, script);
      FailInFlightInOrder(c1, why, rest);
    }
  }

  lemma PopInOrder(c: Client)
    requires InOrder(c) && c.inFlight == [] && c.buffer != []
    ensures var c0 := c.(buffer := c.buffer[1..]); Ordered(c0, [c.buffer[0]] + (c0.inFlight + c0.buffer))
  {
    assert c.inFlight + c.buffer == [c.buffer[0]] + ([] + c.buffer[1..]);
  }

  /** Without a connection nothing goes out that the buffer could overtake. */
  lemma {:induction false} OfflineBufferInOrder(c: Client, why: Failure, script: seq<seq<Submission>>)
    requires InOrder(c) && FreshAll(c, Flatten(script)) && c.link != Connected && c.inFlight == []
    ensures InOrder(FailBuffer(c, why, script).0)
    decreases |c.inFlight| + |c.buffer| + Total(script)
  {
    if c.buffer != [] {
      var c0, req := c.(buffer := c.buffer[1..]), c.buffer[0];
      PopInOrder(c);
      FailInOrder(c0, req, why, script);
      if script != [] {
        OfflineSubmits(RunCallback(c0, req, Failed(why)), script[0]);
      }
      var (c1, rest) := Fail(c0, req, why, script);
      OfflineBufferInOrder(c1, why, rest);
    }
  }

  lemma OfflineDrainInOrder(c: Client, why: Failure, script: seq<seq<Submission>>)
    requires InOrder(c) && FreshAll(c, Flatten(script)) && c.link != Connected
    ensures InOrder(Drain(c, why, script).0)
  {
    FailInFlightInOrder(c, why, script);
    var (c1, rest) := FailInFlight(c, why, script);
    OfflineBufferInOrder(c1, why, rest);
  }

  /**
   In the second loop, with the connection up and nothing in flight, the callback that finds the buffer
   just run empty submits more requests than the connection takes at once: the others are failed first.
   */
  predicate Overtakes(c: Client, why: Failure, script: seq<seq<Submission>>)
    decreases |c.inFlight| + |c.buffer| + Total(script)
  {
    c.buffer != [] &&
    var c0, req := c.(buffer := c.buffer[1..]), c.buffer[0];
    if c0.buffer == [] then Reaches(c0, req) && script != [] && |script[0]| > c.depth + 1
    else var (c1, rest) := Fail(c0, req, why, script); Overtakes(c1, why, rest)
  }

  /** What the last buffered request's callback leaves behind. */
  lemma LastCallback(c0: Client, req: Request, why: Failure, script: seq<seq<Submission>>)
    requires c0.link == Connected && c0.inFlight == [] && c0.buffer == []
    ensures var c1 := Fail(c0, req, why, script).0;
      if Reaches(c0, req) && script != [] && |script[0]| > c0.depth + 1 then c1.inFlight != [] && c1.buffer != []
      else c1.buffer == []
  {
    if script != [] {
      SubmitAllFills(RunCallback(c0, req, Failed(why)), script[0]);
    }
  }

  lemma BusyCallback(c0: Client, req: Request, why: Failure, script: seq<seq<Submission>>)
    requires c0.inFlight == [] && c0.buffer != []
    ensures Fail(c0, req, why, script).0.inFlight == []
  {
    if script != [] {
      SubmitAllQueues(RunCallback(c0, req, Failed(why)), script[0]);
    }
  }

  lemma SecondFirst(c: Client, why: Failure, script: seq<seq<Submission>>)
    requires InOrder(c) && c.inFlight != [] && c.buffer != []
    ensures Overtaken(FailBuffer(c, why, script).0)
  {
    var c0, req := c.(buffer := c.buffer[1..]), c.buffer[0];
    assert c.inFlight + c.buffer == c.inFlight + ([req] + c.buffer[1..]);
    CallbackOvertakes(c0, c.inFlight, req, Failed(why), c.buffer[1..]);
    FailGrows(c0, req, why, script);
    var (c1, rest) := Fail(c0, req, why, script);
    FailBufferGrows(c1, why, rest);
    OvertakenStays(RunCallback(c0, req, Failed(why)), c1);
    OvertakenStays(c1, FailBuffer(c1, why, rest).0);
  }

  lemma {:induction false} OnlineBufferOrder(c: Client, why: Failure, script: seq<seq<Submission>>)
    requires InOrder(c) && FreshAll(c, Flatten(script)) && c.link == Connected && c.inFlight == []
    ensures var (d, rest) := FailBuffer(c, why, script);
      && (Overtakes(c, why, script) ==> Overtaken(d))
      && (!Overtakes(c, why, script) ==> InOrder(d) && FreshAll(d, Flatten(rest)))
    decreases |c.inFlight| + |c.buffer| + Total(script)
  {
    if c.buffer != [] {
      var c0, req := c.(buffer := c.buffer[1..]), c.buffer[0];
      PopInOrder(c);
      FailInOrder(c0, req, why, script);
      var (c1, rest) := Fail(c0, req, why, script);
      if c0.buffer == [] {
        LastCallback(c0, req, why, script);
        if c1.buffer != [] {
          SecondFirst(c1, why, rest);
        }
      } else {
        BusyCallback(c0, req, why, script);
        OnlineBufferOrder(c1, why, rest);
      }
    }
  }

  /** An error whose callbacks make a later request be completed before an earlier one. */
  predicate ErrorOvertakes(c: Client, why: Failure, script: seq<seq<Submission>>) {
    why.BadResponse? && var (c1, rest) := FailInFlight(c, why, script); Overtakes(c1, why, rest)
  }

  lemma ErrorOrder(c: Client, why: Failure, script: seq<seq<Submission>>)
    requires InOrder(c) && MayClientStep(c, Errs(why, script))
    ensures if ErrorOvertakes(c, why, script) then Overtaken(OnError(c, why, script))
      else InOrder(OnError(c, why, script))
  {
    var c0 := Struck(c, why);
    assert FreshAll(c0, Flatten(script)) by {
      assert forall s :: Fresh(c, s) ==> Fresh(c0, s);
    }
    if why.BadResponse? {
      FailInFlightInOrder(c0, why, script);
      var (c1, rest) := FailInFlight(c0, why, script);
      OnlineBufferOrder(c1, why, rest);
      BadResponseOrder(c1, why, rest, ErrorOvertakes(c, why, script));
    } else {
      OfflineDrainInOrder(c0, why, script);
      OfflineLink(c0, why, script);
    }
  }

  lemma OfflineLink(c: Client, why: Failure, script: seq<seq<Submission>>)
    requires c.link != Connected
    ensures Drain(c, why, script).0.link != Connected
  {
    OfflineInFlight(c, why, script);
    var (c1, rest) := FailInFlight(c, why, script);
    OfflineBufferLink(c1, why, rest);
  }

  lemma {:induction false} OfflineBufferLink(c: Client, why: Failure, script: seq<seq<Submission>>)
    requires c.link != Connected
    ensures FailBuffer(c, why, script).0.link != Connected
    decreases |c.inFlight| + |c.buffer| + Total(script)
  {
    if c.buffer != [] {
      var c0, req := c.(buffer := c.buffer[1..]), c.buffer[0];
      if script != [] {
        OfflineSubmits(RunCallback(c0, req, Failed(why)), script[0]);
      }
      var (c1, rest) := Fail(c0, req, why, script);
      OfflineBufferLink(c1, why, rest);
    }
  }

  /** From the end of the first loop: the second loop and the reset. */
  lemma BadResponseOrder(c1: Client, why: Failure, rest: seq<seq<Submission>>, overtakes: bool)
    requires c1.link == Connected
    requires var (d, left) := FailBuffer(c1, why, rest);
      if overtakes then Overtaken(d) else InOrder(d) && FreshAll(d, Flatten(left))
    ensures var (d, left) := FailBuffer(c1, why, rest);
      if overtakes then Overtaken(ResetTcpClient(d, left)) else InOrder(ResetTcpClient(d, left))
  {
    var (d, left) := FailBuffer(c1, why, rest);
    StaysOnlineBuffer(c1, why, rest);
    if overtakes {
      ResetGrows(d, left);
      OvertakenStays(d, ResetTcpClient(d, left));
    } else {
      var d0 := d.(link := NoClient);
      assert FreshAll(d0, Flatten(left)) by {
        assert forall s :: Fresh(d, s) ==> Fresh(d0, s);
      }
      OfflineDrainInOrder(d0, NetworkFailure, left);
    }
  }

  // ---------------------------------------------------------------- runs

  lemma ResponseInOrder(c: Client, reply: Reply, nested: seq<Submission>, drops: bool)
    requires InOrder(c) && c.inFlight != [] && FreshAll(c, nested)
    ensures InOrder(OnResponse(c, reply, nested, drops))
  {
    var req, c0 := c.inFlight[0], c.(inFlight := c.inFlight[1..]);
    assert c.inFlight + c.buffer == [req] + (c0.inFlight + c0.buffer);
    CallbackInOrder(c0, req, Ok(reply), c0.inFlight + c0.buffer);
    var c1 := RunCallback(c0, req, Ok(reply));
    if Reaches(c, req) {
      SubmitAllInOrder(c1, nested);
      c1 := SubmitAll(c1, nested);
    }
    if c1.buffer != [] {
      assert Promote(c1).inFlight + Promote(c1).buffer == c1.inFlight + c1.buffer;
    }
  }

  lemma ResponseGrows(c: Client, reply: Reply, nested: seq<Submission>, drops: bool)
    requires c.inFlight != []
    ensures Grows(c, OnResponse(c, reply, nested, drops))
  {
    SubmitAllGrowsLogs(RunCallback(c.(inFlight := c.inFlight[1..]), c.inFlight[0], Ok(reply)), nested);
  }

  lemma FillInOrder(c: Client)
    ensures InOrder(c) ==> InOrder(Fill(c))
    ensures Grows(c, Fill(c))
  {
    var n := FillMoves(c);
    assert Moved(c, n).inFlight + Moved(c, n).buffer == c.inFlight + c.buffer;
  }

  lemma StepOrder(c: Client, e: ClientEvent)
    requires InOrder(c) && MayClientStep(c, e)
    ensures if e.Errs? && ErrorOvertakes(c, e.why, e.script) then Overtaken(ClientStep(c, e))
      else InOrder(ClientStep(c, e))
  {
    match e
    case Submits(s) => SubmitInOrder(c, s);
    case Connects => FillInOrder(c.(link := Connected, sent := []));
    case TimerGoes(id) =>
    case Receives(reply, nested, drops) => ResponseInOrder(c, reply, nested, drops);
    case Errs(why, script) => ErrorOrder(c, why, script);
  }

  lemma StepGrows(c: Client, e: ClientEvent)
    requires MayClientStep(c, e)
    ensures Grows(c, ClientStep(c, e))
  {
    match e
    case Submits(s) =>
    case Connects => FillInOrder(c.(link := Connected, sent := []));
    case TimerGoes(id) =>
    case Receives(reply, nested, drops) => ResponseGrows(c, reply, nested, drops);
    case Errs(why, script) => ErrorGrows(c, why, script);
  }

  lemma {:induction false} RunOvertaken(c: Client, events: seq<ClientEvent>)
    requires Overtaken(c) && MayClientRun(c, events)
    ensures Overtaken(ClientRun(c, events))
    decreases |events|
  {
    if events != [] {
      StepGrows(c, events[0]);
      OvertakenStays(c, ClientStep(c, events[0]));
      RunOvertaken(ClientStep(c, events[0]), events[1..]);
    }
  }

  predicate NeverOvertakes(c: Client, events: seq<ClientEvent>)
    requires MayClientRun(c, events)
    decreases |events|
  {
    events != [] ==>
      && (events[0].Errs? ==> !ErrorOvertakes(c, events[0].why, events[0].script))
      && NeverOvertakes(ClientStep(c, events[0]), events[1..])
  }

  lemma {:induction false} RunOrder(c: Client, events: seq<ClientEvent>)
    requires InOrder(c) && MayClientRun(c, events)
    ensures InOrder(ClientRun(c, events)) <==> NeverOvertakes(c, events)
    decreases |events|
  {
    if events != [] {
      var d := ClientStep(c, events[0]);
      StepOrder(c, events[0]);
      if Overtaken(d) {
        RunOvertaken(d, events[1..]);
        OvertakenIsOutOfOrder(d);
        OvertakenIsOutOfOrder(ClientRun(d, events[1..]));
      } else {
        RunOrder(d, events[1..]);
      }
    }
  }

  /**
   Requests are completed in the order of their submission, with those in flight and then those
   buffered behind them, exactly in the runs without an error that overtakes.
   */
  lemma CompletedInOrder(depth: nat, events: seq<ClientEvent>)
    requires MayClientRun(NewClient(depth), events)
    ensures InOrder(ClientRun(NewClient(depth), events)) <==> NeverOvertakes(NewClient(depth), events)
  {
    assert Requests([]) + ([] + []) == [];
    RunOrder(NewClient(depth), events);
  }

  // ---------------------------------------------------------------- a concrete error that overtakes

  const Y := Request(3, false, false, false)
  const TWO := [Plain(X), Plain(Y)]

  /** A client of depth 0 with A on the wire and B waiting. */
  const BUSY := WAITING.(buffer := [B], submitted := [A, B])

  lemma TwoSubmissions(c: Client, s: Submission, t: Submission)
    ensures SubmitAll(c, [s, t]) == Submit(Submit(c, s), t)
  {
    assert [s, t][1..] == [t] && [t][1..] == [];
    assert SubmitAll(Submit(c, s), [t]) == SubmitAll(Submit(Submit(c, s), t), []);
  }

  lemma {:induction false} AFails() returns (c1: Client)
    ensures FailInFlight(BUSY, BadResponse, [[], TWO]) == (c1, [TWO])
    ensures c1 == BUSY.(inFlight := [], completed := [(A, Failed(BadResponse))],
      userCalls := [(0, Failed(BadResponse))])
  {
    c1 := RunCallback(BUSY.(inFlight := []), A, Failed(BadResponse));
    assert BUSY.inFlight[1..] == [] && [[], TWO][1..] == [TWO];
    assert Fail(BUSY.(inFlight := []), A, BadResponse, [[], TWO]) == (c1, [TWO]);
  }

  lemma {:induction false} BFails(c1: Client) returns (c2: Client)
    requires c1.depth == 0 && c1.link == Connected && c1.inFlight == [] && c1.buffer == [B] && c1.timed == {}
    ensures Fail(c1.(buffer := []), B, BadResponse, [TWO]) == (c2, [])
    ensures c2.inFlight == [X] && c2.buffer == [Y] && c2.link == Connected && c2.timed == {} && c2.depth == 0
    ensures c2.completed == c1.completed + [(B, Failed(BadResponse))]
  {
    var d := RunCallback(c1.(buffer := []), B, Failed(BadResponse));
    TwoSubmissions(d, Plain(X), Plain(Y));
    c2 := Submit(Submit(d, Plain(X)), Plain(Y));
    assert [TWO][1..] == [];
  }

  lemma {:induction false} YThenXFail(c2: Client)
    requires c2.inFlight == [X] && c2.buffer == [Y] && c2.link == Connected && c2.timed == {}
    ensures var (c3, rest) := FailBuffer(c2, BadResponse, []);
      && rest == [] && c3.link == Connected
      && ResetTcpClient(c3, []).completed == c2.completed + [(Y, Failed(BadResponse)), (X, Failed(NetworkFailure))]
  {
    var c3 := RunCallback(c2.(buffer := []), Y, Failed(BadResponse));
    assert c2.buffer[1..] == [];
    assert Fail(c2.(buffer := []), Y, BadResponse, []) == (c3, []);
    assert FailBuffer(c2, BadResponse, []) == (c3, []);
    var d := c3.(link := NoClient);
    var c4 := RunCallback(d.(inFlight := []), X, Failed(NetworkFailure));
    assert d.inFlight[1..] == [];
    assert Fail(d.(inFlight := []), X, NetworkFailure, []) == (c4, []);
    assert FailInFlight(d, NetworkFailure, []) == (c4, []);
    assert Drain(d, NetworkFailure, []) == (c4, []);
  }

  /** B is submitted while A is in flight. */
  lemma {:induction false} BusyStep()
    ensures MayClientStep(WAITING, Submits(Plain(B))) && ClientStep(WAITING, Submits(Plain(B))) == BUSY
  {
    assert [A] + [B] == [A, B] && [] + [B] == [B];
  }

  lemma {:induction false} SecondOnly(ss: seq<Submission>)
    ensures Flatten([[], ss]) == ss
  {
    assert [[], ss][1..] == [ss] && [ss][1..] == [];
    assert Flatten([ss]) == ss + Flatten([]) == ss;
  }

  lemma {:induction false} TwoAreFresh(c: Client)
    requires c.submitted == [A, B]
    ensures FreshAll(c, TWO)
  {
  }

  lemma {:induction false} MayFail()
    ensures MayClientStep(BUSY, Errs(BadResponse, [[], TWO]))
  {
    SecondOnly(TWO);
    TwoAreFresh(BUSY);
  }

  lemma {:induction false} LastOvertakes(c1: Client)
    requires c1.depth == 0 && c1.link == Connected && c1.inFlight == [] && c1.buffer == [B] && c1.timed == {}
    ensures Overtakes(c1, BadResponse, [TWO])
  {
    assert c1.buffer[1..] == [] && |TWO| == 2;
  }

  lemma {:induction false} ErrorFrom(c1: Client, c2: Client)
    requires FailInFlight(BUSY, BadResponse, [[], TWO]) == (c1, [TWO]) && c1.buffer == [B]
    requires Fail(c1.(buffer := []), B, BadResponse, [TWO]) == (c2, [])
    ensures OnError(BUSY, BadResponse, [[], TWO]) ==
      ResetTcpClient(FailBuffer(c2, BadResponse, []).0, FailBuffer(c2, BadResponse, []).1)
  {
    assert c1.buffer[1..] == [] && c1.buffer[0] == B;
    assert FailBuffer(c1, BadResponse, [TWO]) == FailBuffer(c2, BadResponse, []);
    assert Struck(BUSY, BadResponse) == BUSY;
  }

  lemma {:induction false} OvertakesWhenBusy()
    ensures ErrorOvertakes(BUSY, BadResponse, [[], TWO])
    ensures Requests(OnError(BUSY, BadResponse, [[], TWO]).completed) == [A, B, Y, X]
  {
    var c1 := AFails();
    LastOvertakes(c1);
    var c2 := BFails(c1);
    YThenXFail(c2);
    ErrorFrom(c1, c2);
  }

  /**
   From a new client: A is in flight and B waits when a bad response comes.  The last failing callback
   submits X and Y; Y, which is not sent, fails before X.
   */
  lemma {:induction false} SecondOvertakes()
    ensures var events := [Submits(Plain(A))] + ([Connects] + ([Submits(Plain(B))] + [Errs(BadResponse, [[], TWO])]));
      && MayClientRun(NewClient(0), events) && Requests(ClientRun(NewClient(0), events).completed) == [A, B, Y, X]
      && !InOrder(ClientRun(NewClient(0), events))
  {
    var e := Errs(BadResponse, [[], TWO]);
    BusyStep();
    MayFail();
    OvertakesWhenBusy();
    assert [e][1..] == [];
    OneClientStep(WAITING, Submits(Plain(B)), [e]);
    Waits([Submits(Plain(B))] + [e]);
    BusyInOrder();
    ErrorOrder(BUSY, BadResponse, [[], TWO]);
    OvertakenIsOutOfOrder(OnError(BUSY, BadResponse, [[], TWO]));
  }

  lemma BusyInOrder()
    ensures InOrder(BUSY)
  {
    assert BUSY.inFlight + BUSY.buffer == [A, B] && Requests(BUSY.completed) + [A, B] == [A, B];
  }
}

/**
 Nothing is left lying in the client: what waits is held up by requests in flight, and timers and errors
 reach everyone.
 */
module ClientProgress {
  import opened PipelineServer
  import opened PipelineClient
  import opened PipelineClientProofs

  // ---------------------------------------------------------------- buffered requests

  /** Requests wait only for a connection being made, or behind as many in flight as the connection takes. */
  predicate HeldUp(c: Client) {
    c.buffer != [] ==> c.link == Connecting || (c.link == Connected && |c.inFlight| > c.depth)
  }

  lemma SubmitHeldUp(c: Client, s: Submission)
    requires HeldUp(c)
    ensures HeldUp(Submit(c, s)) && Submit(c, s).link != NoClient
  {
  }

  lemma {:induction false} SubmitAllHeldUp(c: Client, ss: seq<Submission>)
    requires HeldUp(c)
    ensures HeldUp(SubmitAll(c, ss))
    decreases |ss|
  {
    if ss != [] {
      SubmitHeldUp(c, ss[0]);
      SubmitAllHeldUp(Submit(c, ss[0]), ss[1..]);
    }
  }

  lemma {:induction false} FillHeldUp(c: Client)
    requires c.link == Connected
    ensures HeldUp(Fill(c))
    decreases |c.buffer|
  {
    if |c.inFlight| <= c.depth && c.buffer != [] {
      FillHeldUp(Promote(c));
    }
  }

  /** One request less in flight makes room for one, which the next in line takes. */
  lemma ResponseHeldUp(c: Client, reply: Reply, nested: seq<Submission>, drops: bool)
    requires HeldUp(c) && c.link == Connected && c.inFlight != []
    ensures HeldUp(OnResponse(c, reply, nested, drops))
  {
    var c1 := RunCallback(c.(inFlight := c.inFlight[1..]), c.inFlight[0], Ok(reply));
    SubmitAllFills(c1, nested);
    SubmitDepth(c1, nested);
  }

  lemma StepHeldUp(c: Client, e: ClientEvent)
    requires HeldUp(c) && MayClientStep(c, e)
    ensures HeldUp(ClientStep(c, e))
  {
    match e
    case Submits(s) => SubmitHeldUp(c, s);
    case Connects => FillHeldUp(c.(link := Connected, sent := []));
    case TimerGoes(id) =>
    case Receives(reply, nested, drops) => ResponseHeldUp(c, reply, nested, drops);
    case Errs(why, script) => ErrorEmptiesQueues(c, why, script);
  }

  lemma {:induction false} RunHeldUp(c: Client, events: seq<ClientEvent>)
    requires HeldUp(c) && MayClientRun(c, events)
    ensures HeldUp(ClientRun(c, events))
    decreases |events|
  {
    if events != [] {
      StepHeldUp(c, events[0]);
      RunHeldUp(ClientStep(c, events[0]), events[1..]);
    }
  }

  /**
   In every state of every run: buffered requests mean a connection being made, or more than `depth` in
   flight on it.
   */
  lemma WaitsForRoom(depth: nat, events: seq<ClientEvent>)
    requires MayClientRun(NewClient(depth), events)
    ensures HeldUp(ClientRun(NewClient(depth), events))
  {
    RunHeldUp(NewClient(depth), events);
  }

  // ---------------------------------------------------------------- what is on the wire

  /** What was sent on a connection goes out in order, and each of these is in flight or was answered. */
  lemma ResponseSends(c: Client, reply: Reply, drops: bool)
    requires c.link == Connected && c.inFlight != [] && c.buffer != []
    ensures var d := OnResponse(c, reply, [], drops);
      && d.sent == c.sent + [c.buffer[0]] && d.buffer == c.buffer[1..]
      && d.inFlight == c.inFlight[1..] + [c.buffer[0]] && d.link == Connected
  {
  }

  /** A response ends the connection exactly when it closes and nobody is waiting any more. */
  lemma DropsWhenIdle(c: Client, reply: Reply, nested: seq<Submission>, drops: bool)
    requires c.link == Connected && c.inFlight != []
    ensures var d := OnResponse(c, reply, nested, drops);
      if drops && d.inFlight == [] && d.buffer == [] then d.link == NoClient else d.link == Connected
  {
    OnlineSubmits(RunCallback(c.(inFlight := c.inFlight[1..]), c.inFlight[0], Ok(reply)), nested);
  }

  // ---------------------------------------------------------------- timers

  /** A request submitted with a timer that has not called its user yet. */
  predicate Ticking(c: Client, id: nat) {
    id in c.timed && id !in c.fired
  }

  /** The user of such a request can be called by its timer now. */
  lemma TimerCalls(c: Client, id: nat)
    requires ClientInv(c) && Ticking(c, id)
    ensures MayClientStep(c, TimerGoes(id))
    ensures ClientStep(c, TimerGoes(id)).userCalls == c.userCalls + [(id, Failed(Timeout))]
    ensures id !in CallIds(c.userCalls)
  {
  }

  lemma SubmitTimes(c: Client, s: Submission)
    ensures Submit(c, s).timed == c.timed + if s.timed then {s.req.id} else {}
    ensures Submit(c, s).fired == c.fired && Submit(c, s).userCalls == c.userCalls
  {
  }

  lemma {:induction false} SubmitAllTimes(c: Client, ss: seq<Submission>)
    ensures SubmitAll(c, ss).timed == c.timed + (set s | s in ss && s.timed :: s.req.id)
    ensures SubmitAll(c, ss).fired == c.fired && SubmitAll(c, ss).userCalls == c.userCalls
    decreases |ss|
  {
    if ss != [] {
      SubmitTimes(c, ss[0]);
      SubmitAllTimes(Submit(c, ss[0]), ss[1..]);
      assert ss == [ss[0]] + ss[1..];
      assert (set s | s in ss && s.timed :: s.req.id) ==
        (if ss[0].timed then {ss[0].req.id} else {}) + (set s | s in ss[1..] && s.timed :: s.req.id);
    }
  }

  /** Timers stay as they were set. */
  predicate TimersGrowOnly(c: Client, d: Client) {
    c.timed <= d.timed
  }

  lemma FailTimes(c: Client, req: Request, why: Failure, script: seq<seq<Submission>>)
    ensures TimersGrowOnly(c, Fail(c, req, why, script).0)
  {
    if script != [] {
      SubmitAllTimes(RunCallback(c, req, Failed(why)), script[0]);
    }
  }

  lemma {:induction false} FailInFlightTimes(c: Client, why: Failure, script: seq<seq<Submission>>)
    ensures TimersGrowOnly(c, FailInFlight(c, why, script).0)
    decreases |c.inFlight| + |c.buffer| + Total(script)
  {
    if c.inFlight != [] {
      var c0 := c.(inFlight := c.inFlight[1..]);
      FailTimes(c0, c.inFlight[0], why, script);
      var (c1, rest) := Fail(c0, c.inFlight[0], why, script);
      FailInFlightTimes(c1, why, rest);
    }
  }

  lemma {:induction false} FailBufferTimes(c: Client, why: Failure, script: seq<seq<Submission>>)
    ensures TimersGrowOnly(c, FailBuffer(c, why, script).0)
    decreases |c.inFlight| + |c.buffer| + Total(script)
  {
    if c.buffer != [] {
      var c0 := c.(buffer := c.buffer[1..]);
      FailTimes(c0, c.buffer[0], why, script);
      var (c1, rest) := Fail(c0, c.buffer[0], why, script);
      FailBufferTimes(c1, why, rest);
    }
  }

  lemma DrainTimes(c: Client, why: Failure, script: seq<seq<Submission>>)
    ensures TimersGrowOnly(c, Drain(c, why, script).0)
  {
    FailInFlightTimes(c, why, script);
    var (c1, rest) := FailInFlight(c, why, script);
    FailBufferTimes(c1, why, rest);
  }

  lemma StepTimes(c: Client, e: ClientEvent)
    requires MayClientStep(c, e)
    ensures TimersGrowOnly(c, ClientStep(c, e))
  {
    match e
    case Submits(s) => SubmitTimes(c, s);
    case Connects => var n := FillMoves(c.(link := Connected, sent := []));
    case TimerGoes(id) =>
    case Receives(reply, nested, drops) =>
      SubmitAllTimes(RunCallback(c.(inFlight := c.inFlight[1..]), c.inFlight[0], Ok(reply)), nested);
    case Errs(why, script) =>
      DrainTimes(Struck(c, why), why, script);
      var (c1, rest) := Drain(Struck(c, why), why, script);
      DrainTimes(c1.(link := NoClient), NetworkFailure, rest);
  }

  lemma {:induction false} RunTimes(c: Client, events: seq<ClientEvent>)
    requires MayClientRun(c, events)
    ensures TimersGrowOnly(c, ClientRun(c, events))
    decreases |events|
  {
    if events != [] {
      StepTimes(c, events[0]);
      RunTimes(ClientStep(c, events[0]), events[1..]);
    }
  }

  /**
   Nobody with a timer waits for ever: at any time after the submission, the user has been called, or the
   timer may go off and calls the user.
   */
  lemma {:induction false} TimedSubmissionEnds(depth: nat, before: seq<ClientEvent>, s: Submission,
                                               after: seq<ClientEvent>)
    requires MayClientRun(NewClient(depth), before) && s.timed
    requires var c := ClientRun(NewClient(depth), before);
      MayClientStep(c, Submits(s)) && MayClientRun(ClientStep(c, Submits(s)), after)
    ensures var d := ClientRun(ClientStep(ClientRun(NewClient(depth), before), Submits(s)), after);
      || s.req.id in CallIds(d.userCalls)
      || (MayClientStep(d, TimerGoes(s.req.id)) &&
          ClientStep(d, TimerGoes(s.req.id)).userCalls == d.userCalls + [(s.req.id, Failed(Timeout))])
  {
    NewClientInv(depth);
    ClientRunKeeps(NewClient(depth), before);
    var c1 := ClientStep(ClientRun(NewClient(depth), before), Submits(s));
    ClientStepKeeps(ClientRun(NewClient(depth), before), Submits(s));
    SubmitTimes(ClientRun(NewClient(depth), before), s);
    ClientRunKeeps(c1, after);
    RunTimes(c1, after);
    var d := ClientRun(c1, after);
    if s.req.id !in d.fired {
      TimerCalls(d, s.req.id);
    }
  }

  // ---------------------------------------------------------------- the reason of a failure

  /** From the `k`-th on, all completions failed for this reason. */
  ghost predicate FailedFrom(completed: seq<Completion>, k: nat, why: Failure) {
    forall i :: k <= i < |completed| ==> completed[i].1 == Failed(why)
  }

  /** More completions, all failed for this reason. */
  ghost predicate FailsMore(c: Client, d: Client, why: Failure) {
    c.completed <= d.completed && FailedFrom(d.completed, |c.completed|, why)
  }

  lemma FailsOne(c: Client, req: Request, why: Failure, script: seq<seq<Submission>>)
    ensures FailsMore(c, Fail(c, req, why, script).0, why)
    ensures (req, Failed(why)) in Fail(c, req, why, script).0.completed
  {
    if script != [] {
      SubmitAllQueues(RunCallback(c, req, Failed(why)), script[0]);
    }
  }

  /** Those in flight fail first, and whoever waits behind them stays in line. */
  lemma {:induction false} InFlightFails(c: Client, why: Failure, script: seq<seq<Submission>>)
    ensures var d := FailInFlight(c, why, script).0;
      && FailsMore(c, d, why)
      && (forall r :: r in c.inFlight ==> (r, Failed(why)) in d.completed)
      && (forall r :: r in c.buffer ==> r in d.buffer || (r, Failed(why)) in d.completed)
    decreases |c.inFlight| + |c.buffer| + Total(script)
  {
    if c.inFlight != [] {
      var c0, req := c.(inFlight := c.inFlight[1..]), c.inFlight[0];
      FailsOne(c0, req, why, script);
      var (c1, rest) := Fail(c0, req, why, script);
      InLine(c0, req, why, script);
      InFlightFails(c1, why, rest);
    }
  }

  /** A callback moves nobody out of the two queues. */
  lemma InLine(c: Client, req: Request, why: Failure, script: seq<seq<Submission>>)
    ensures var d := Fail(c, req, why, script).0;
      && (forall r :: r in c.inFlight ==> r in d.inFlight)
      && (forall r :: r in c.buffer ==> r in d.buffer)
  {
    if script != [] {
      StaysInLine(RunCallback(c, req, Failed(why)), script[0]);
    }
  }

  lemma {:induction false} StaysInLine(c: Client, ss: seq<Submission>)
    ensures forall r :: r in c.inFlight ==> r in SubmitAll(c, ss).inFlight
    ensures forall r :: r in c.buffer ==> r in SubmitAll(c, ss).buffer
    decreases |ss|
  {
    if ss != [] {
      StaysInLine(Submit(c, ss[0]), ss[1..]);
    }
  }

  lemma {:induction false} BufferFails(c: Client, why: Failure, script: seq<seq<Submission>>)
    ensures var d := FailBuffer(c, why, script).0;
      && FailsMore(c, d, why)
      && (forall r :: r in c.buffer ==> (r, Failed(why)) in d.completed)
    decreases |c.inFlight| + |c.buffer| + Total(script)
  {
    if c.buffer != [] {
      var c0, req := c.(buffer := c.buffer[1..]), c.buffer[0];
      FailsOne(c0, req, why, script);
      var (c1, rest) := Fail(c0, req, why, script);
      InLine(c0, req, why, script);
      BufferFails(c1, why, rest);
    }
  }

  lemma DrainFails(c: Client, why: Failure, script: seq<seq<Submission>>)
    ensures var d := Drain(c, why, script).0;
      && FailsMore(c, d, why)
      && forall r :: r in c.inFlight + c.buffer ==> (r, Failed(why)) in d.completed
  {
    InFlightFails(c, why, script);
    var (c1, rest) := FailInFlight(c, why, script);
    BufferFails(c1, why, rest);
  }

  /** Every request that is pending when an error comes fails for the reason of that error. */
  lemma ErrorTellsWhy(c: Client, why: Failure, script: seq<seq<Submission>>)
    ensures forall r :: r in c.inFlight + c.buffer ==> (r, Failed(why)) in OnError(c, why, script).completed
  {
    DrainFails(Struck(c, why), why, script);
    var (c1, rest) := Drain(Struck(c, why), why, script);
    DrainFails(c1.(link := NoClient), NetworkFailure, rest);
  }

  // ---------------------------------------------------------------- a connection that is down

  /** There is no connection, and nothing was sent since `c`. */
  predicate Silent(c: Client, d: Client) {
    d.link != Connected && d.sent == c.sent
  }

  lemma {:induction false} SubmitAllSilent(c: Client, ss: seq<Submission>)
    requires c.link != Connected
    ensures Silent(c, SubmitAll(c, ss))
    decreases |ss|
  {
    if ss != [] {
      SubmitAllSilent(Submit(c, ss[0]), ss[1..]);
    }
  }

  lemma FailSilent(c: Client, req: Request, why: Failure, script: seq<seq<Submission>>)
    requires c.link != Connected
    ensures Silent(c, Fail(c, req, why, script).0)
  {
    if script != [] {
      SubmitAllSilent(RunCallback(c, req, Failed(why)), script[0]);
    }
  }

  lemma {:induction false} FailInFlightSilent(c: Client, why: Failure, script: seq<seq<Submission>>)
    requires c.link != Connected
    ensures Silent(c, FailInFlight(c, why, script).0)
    decreases |c.inFlight| + |c.buffer| + Total(script)
  {
    if c.inFlight != [] {
      var c0 := c.(inFlight := c.inFlight[1..]);
      FailSilent(c0, c.inFlight[0], why, script);
      var (c1, rest) := Fail(c0, c.inFlight[0], why, script);
      FailInFlightSilent(c1, why, rest);
    }
  }

  lemma {:induction false} FailBufferSilent(c: Client, why: Failure, script: seq<seq<Submission>>)
    requires c.link != Connected
    ensures Silent(c, FailBuffer(c, why, script).0)
    decreases |c.inFlight| + |c.buffer| + Total(script)
  {
    if c.buffer != [] {
      var c0 := c.(buffer := c.buffer[1..]);
      FailSilent(c0, c.buffer[0], why, script);
      var (c1, rest) := Fail(c0, c.buffer[0], why, script);
      FailBufferSilent(c1, why, rest);
    }
  }

  /** What callbacks submit while a lost connection is failed is never written to it, and fails with the rest. */
  lemma {:induction false} NothingSentWhenDown(c: Client, why: Failure, script: seq<seq<Submission>>)
    requires !why.BadResponse?
    ensures var d := OnError(c, why, script);
      d.sent == c.sent && d.inFlight == [] && d.buffer == [] && d.link == NoClient
  {
    var s := Struck(c, why);
    FailInFlightSilent(s, why, script);
    var (c1, rest) := FailInFlight(s, why, script);
    FailBufferSilent(c1, why, rest);
    OfflineDrains(s, why, script);
  }

  lemma {:induction false} FailKeepsFlight(c: Client, req: Request, why: Failure, script: seq<seq<Submission>>)
    requires c.link != Connected
    ensures Fail(c, req, why, script).0.inFlight == c.inFlight
  {
    if script != [] {
      SubmitAllOffline(RunCallback(c, req, Failed(why)), script[0]);
    }
  }

  lemma {:induction false} SubmitAllOffline(c: Client, ss: seq<Submission>)
    requires c.link != Connected
    ensures SubmitAll(c, ss).inFlight == c.inFlight
    decreases |ss|
  {
    if ss != [] {
      SubmitAllOffline(Submit(c, ss[0]), ss[1..]);
    }
  }

  lemma {:induction false} FailBufferOffline(c: Client, why: Failure, script: seq<seq<Submission>>)
    requires c.link != Connected
    ensures FailBuffer(c, why, script).0.inFlight == c.inFlight
    decreases |c.inFlight| + |c.buffer| + Total(script)
  {
    if c.buffer != [] {
      var c0 := c.(buffer := c.buffer[1..]);
      FailSilent(c0, c.buffer[0], why, script);
      FailKeepsFlight(c0, c.buffer[0], why, script);
      var (c1, rest) := Fail(c0, c.buffer[0], why, script);
      FailBufferOffline(c1, why, rest);
    }
  }

  lemma {:induction false} OfflineDrains(c: Client, why: Failure, script: seq<seq<Submission>>)
    requires c.link != Connected
    ensures var d := Drain(c, why, script).0; d.inFlight == [] && d.buffer == [] && d.link != Connected
  {
    FailInFlightSilent(c, why, script);
    var (c1, rest) := FailInFlight(c, why, script);
    FailBufferSilent(c1, why, rest);
    FailBufferOffline(c1, why, rest);
  }
}

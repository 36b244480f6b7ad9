/** No response is dropped: what handlers and advices give on an open connection is recorded, queued or written. */
module ServerAnswers {
  import opened Wrappers
  import opened PipelineServer
  import opened PipelineServerProofs
  import opened EndToEnd

  /** The response is the recorded answer of its request, or waits in the loop's queue. */
  ghost predicate Heard(c: Conn, o: Offer) {
    || (o.0 in c.answers && c.answers[o.0] == o.1)
    || InQueueAs(c.queued, o)
  }

  ghost predicate InQueueAs(queued: seq<(Request, Reply)>, o: Offer) {
    exists i :: 0 <= i < |queued| && queued[i].0.id == o.0 && queued[i].1 == o.1
  }

  /** As long as the connection is open, every one of these responses was heard. */
  ghost predicate Heeds(c: Conn, offers: set<Offer>) {
    c.open ==> forall o :: o in offers ==> Heard(c, o)
  }

  // ---------------------------------------------------------------- single steps

  lemma HeardIsCalled(c: Conn, o: Offer)
    requires LogOk(c) && Heard(c, o)
    ensures o.0 in c.called
  {
  }

  lemma AnswerHeeds(c: Conn, d: Conn, id: nat, reply: Reply, offers: set<Offer>)
    requires LogOk(c) && id !in c.called && c.open && Heeds(c, offers)
    requires d.answers == c.answers[id := reply] && d.queued == c.queued
    ensures Heeds(d, offers + {(id, reply)})
  {
    forall o | o in offers + {(id, reply)} ensures Heard(d, o) {
      if o in offers {
        HeardIsCalled(c, o);
      }
    }
  }

  lemma QueueHeeds(c: Conn, d: Conn, req: Request, reply: Reply, offers: set<Offer>)
    requires c.open && Heeds(c, offers)
    requires d.answers == c.answers && d.queued == c.queued + [(req, reply)]
    ensures Heeds(d, offers + {(req.id, reply)})
  {
    assert d.queued[|c.queued|] == (req, reply);
    forall o | o in offers && InQueueAs(c.queued, o) ensures InQueueAs(d.queued, o) {
      var i :| 0 <= i < |c.queued| && c.queued[i].0.id == o.0 && c.queued[i].1 == o.1;
      assert d.queued[i] == c.queued[i];
    }
  }

  lemma OneOffer(a: Act)
    ensures ActOffers([a]) == if a.resp.Some? then {(a.target.id, MakeReply(a.target, a.resp.value))} else {}
  {
    assert a in [a];
  }

  lemma CallHeeds(c: Conn, n: nat, start: nat, gap: nat, running: Option<Request>, a: Act, offers: set<Offer>)
    requires Inv(c, n, start, gap) && MayCall(c, start, running, a) && Heeds(c, offers)
    ensures Heeds(Call(c, running, a), offers + ActOffers([a])) && (Call(c, running, a).open ==> c.open)
  {
    OneOffer(a);
    if a.resp.Some? && c.open {
      var reply, d := MakeReply(a.target, a.resp.value), Call(c, running, a);
      if a.inLoop {
        DeliverFrame(c.(called := c.called + {a.target.id}), a.target, reply);
        AnswerHeeds(c, d, a.target.id, reply, offers);
      } else {
        QueueHeeds(c, d, a.target, reply, offers);
      }
    }
  }

  lemma FirstOffer(acts: seq<Act>)
    requires acts != []
    ensures ActOffers(acts) == ActOffers([acts[0]]) + ActOffers(acts[1..])
  {
    assert acts == [acts[0]] + acts[1..];
    assert forall a :: a in acts <==> a in [acts[0]] || a in acts[1..];
  }

  lemma {:induction false} RunActsHeeds(c: Conn, n: nat, start: nat, r: Request, acts: seq<Act>, sync: bool,
                                        offers: set<Offer>)
    requires Inv(c, n, start, if sync then 0 else 1) && Running(c, if sync then 0 else 1, Some(r)) && Sealed(c, n)
    requires MayRunActs(c, start, r, acts) && Heeds(c, offers)
    ensures Heeds(RunActs(c, r, acts, sync).0, offers + ActOffers(acts))
    ensures RunActs(c, r, acts, sync).0.open ==> c.open
    decreases |acts|
  {
    if acts == [] {
      assert offers + ActOffers(acts) == offers;
    } else {
      CallHeeds(c, n, start, if sync then 0 else 1, Some(r), acts[0], offers);
      var d, m, g := CallKeeps(c, n, start, if sync then 0 else 1, Some(r), acts[0]);
      RunActsHeeds(d, m, start, r, acts[1..], sync || Syncs(c, r, acts[0]), offers + ActOffers([acts[0]]));
      FirstOffer(acts);
      assert (offers + ActOffers([acts[0]])) + ActOffers(acts[1..]) == offers + ActOffers(acts);
    }
  }

  lemma {:induction false} IterateHeeds(c: Conn, n: nat, start: nat, a: Arrival, offers: set<Offer>)
    requires Inv(c, n, start, 0) && Sealed(c, n) && MayIterate(c, start, a) && Heeds(c, offers)
    ensures Heeds(Iterate(c, a), offers + ArrivalOffers(a)) && (Iterate(c, a).open ==> c.open)
  {
    var d := EnterKeeps(c, n, start, a.req);
    var sync := c.pipeline != [];
    assert Heeds(d, offers);
    match a.handling
    case Advice(resp) =>
      if c.open {
        AnswerHeeds(d, Advise(d, a.req, resp, sync), a.req.id, MakeReply(a.req, resp), offers);
      }
    case Handler(acts) =>
      RunActsHeeds(d, n, start, a.req, acts, sync, offers);
  }

  lemma FirstArrival(batch: seq<Arrival>)
    requires batch != []
    ensures BatchOffers(batch) == ArrivalOffers(batch[0]) + BatchOffers(batch[1..])
  {
    assert batch == [batch[0]] + batch[1..];
    assert forall a :: a in batch <==> a == batch[0] || a in batch[1..];
  }

  lemma {:induction false} BatchHeeds(c: Conn, n: nat, start: nat, batch: seq<Arrival>, offers: set<Offer>)
    requires Inv(c, n, start, 0) && Sealed(c, n) && MayLoop(c, start, batch) && Heeds(c, offers)
    ensures Heeds(BatchLoop(c, batch), offers + BatchOffers(batch)) && (BatchLoop(c, batch).open ==> c.open)
    decreases |batch|
  {
    if batch == [] {
      assert offers + BatchOffers(batch) == offers;
    } else {
      IterateHeeds(c, n, start, batch[0], offers);
      var d, m := IterateKeeps(c, n, start, batch[0]);
      BatchHeeds(d, m, start, batch[1..], offers + ArrivalOffers(batch[0]));
      FirstArrival(batch);
      assert (offers + ArrivalOffers(batch[0])) + BatchOffers(batch[1..]) == offers + BatchOffers(batch);
    }
  }

  lemma QueuedHeeds(c: Conn, n: nat, offers: set<Offer>)
    requires Idle(c, n) && Heeds(c, offers)
    ensures Heeds(RunQueued(c), offers) && (RunQueued(c).open ==> c.open)
  {
    if c.queued != [] && c.open {
      var (req, reply) := c.queued[0];
      var c1, d := c.(queued := c.queued[1..]), RunQueued(c);
      DeliverFrame(c1, req, reply);
      forall o | o in offers ensures Heard(d, o) {
        if o.0 == req.id {
          HeadOfQueue(c, o);
        } else if InQueueAs(c.queued, o) {
          var i :| 0 <= i < |c.queued| && c.queued[i].0.id == o.0 && c.queued[i].1 == o.1;
          assert d.queued[i - 1] == c.queued[i];
        }
      }
    }
  }

  /** Each request is in the queue once. */
  lemma HeadOfQueue(c: Conn, o: Offer)
    requires LogOk(c) && c.queued != [] && Heard(c, o) && o.0 == c.queued[0].0.id
    ensures o.1 == c.queued[0].1
  {
    if InQueueAs(c.queued, o) {
      var i :| 0 <= i < |c.queued| && c.queued[i].0.id == o.0 && c.queued[i].1 == o.1;
      assert i == 0;
    }
  }

  lemma {:induction false} StepHeeds(c: Conn, n: nat, e: Event, limits: Limits, offers: set<Offer>)
    requires Idle(c, n) && MayStep(c, e) && Heeds(c, offers)
    ensures Heeds(Step(c, e, limits), offers + EventOffers(e)) && (Step(c, e, limits).open ==> c.open)
  {
    match e
    case Arrive(batch, parsed) =>
      if batch == [] {
        assert offers + BatchOffers(batch) == offers;
      } else if c.open && !OverLimit(c, |batch|, parsed, limits) {
        BatchHeeds(c, n, |c.received|, batch, offers);
      }
    case Complete(act) => CallHeeds(c, n, |c.received|, 0, None, act, offers);
    case LoopTurn =>
      QueuedHeeds(c, n, offers);
      assert offers + {} == offers;
  }

  lemma FirstEvent(events: seq<Event>)
    requires events != []
    ensures RunOffers(events) == EventOffers(events[0]) + RunOffers(events[1..])
  {
    assert events == [events[0]] + events[1..];
    assert forall e :: e in events <==> e == events[0] || e in events[1..];
  }

  lemma {:induction false} RunHeeds(c: Conn, n: nat, events: seq<Event>, limits: Limits, offers: set<Offer>)
    requires Idle(c, n) && MayRun(c, events, limits) && Heeds(c, offers)
    ensures Heeds(Run(c, events, limits), offers + RunOffers(events))
    decreases |events|
  {
    if events == [] {
      assert offers + RunOffers(events) == offers;
    } else {
      StepHeeds(c, n, events[0], limits, offers);
      var m := StepKeeps(c, n, events[0], limits);
      RunHeeds(Step(c, events[0], limits), m, events[1..], limits, offers + EventOffers(events[0]));
      FirstEvent(events);
      assert (offers + EventOffers(events[0])) + RunOffers(events[1..]) == offers + RunOffers(events);
    }
  }

  // ---------------------------------------------------------------- main results

  /**
   In every run that leaves the connection open: each response that a handler or advice gave, in the loop
   or from another thread, is the recorded answer of its request or still waits in the loop's queue.
   */
  lemma EveryOfferIsHeard(events: seq<Event>, limits: Limits)
    requires MayRun(INITIAL, events, limits) && Run(INITIAL, events, limits).open
    ensures forall o :: o in RunOffers(events) ==> Heard(Run(INITIAL, events, limits), o)
  {
    assert Idle(INITIAL, 0);
    RunHeeds(INITIAL, 0, events, limits, {});
    assert {} + RunOffers(events) == RunOffers(events);
  }

  function Turns(k: nat): seq<Event> {
    seq(k, _ => LoopTurn)
  }

  /** Each turn of the loop takes one completion from the queue. */
  lemma {:induction false} TurnsEmpty(c: Conn, limits: Limits)
    ensures MayRun(c, Turns(|c.queued|), limits) && Run(c, Turns(|c.queued|), limits).queued == []
    ensures Run(c, Turns(|c.queued|), limits).received == c.received
    decreases |c.queued|
  {
    if c.queued != [] {
      var d := Step(c, LoopTurn, limits);
      DeliverFrame(c.(queued := c.queued[1..]), c.queued[0].0, c.queued[0].1);
      assert d.queued == c.queued[1..];
      TurnsEmpty(d, limits);
      assert Turns(|c.queued|)[1..] == Turns(|d.queued|);
    }
  }

  lemma {:induction false} RunOn(c: Conn, events: seq<Event>, more: seq<Event>, limits: Limits)
    ensures Run(c, events + more, limits) == Run(Run(c, events, limits), more, limits)
    ensures MayRun(c, events + more, limits) <==>
      MayRun(c, events, limits) && MayRun(Run(c, events, limits), more, limits)
    decreases |events|
  {
    if events == [] {
      assert events + more == more;
    } else {
      assert (events + more)[1..] == events[1..] + more && (events + more)[0] == events[0];
      RunOn(Step(c, events[0], limits), events[1..], more, limits);
    }
  }

  lemma {:induction false} TurnsOfferNothing(events: seq<Event>, k: nat)
    ensures RunOffers(events + Turns(k)) == RunOffers(events)
  {
    var all := events + Turns(k);
    forall o ensures o in RunOffers(all) <==> o in RunOffers(events) {
      if o in RunOffers(all) {
        var e :| e in all && o in EventOffers(e);
        assert e in events || e in Turns(k);
      }
      if o in RunOffers(events) {
        var e :| e in events && o in EventOffers(e);
        assert e in all;
      }
    }
  }

  /**
   When every request received was given a response, in whatever order and by whatever threads, then after
   as many turns of the loop as completions were queued, an open connection on which no callback ran in its
   own iteration at the head has written exactly these responses, in the order of their requests.
   */
  lemma {:induction false} AllAreWritten(events: seq<Event>, limits: Limits, given: seq<Reply>)
    requires MayRun(INITIAL, events, limits)
    requires var c := Run(INITIAL, events, limits);
      |given| == |c.received| && forall i :: 0 <= i < |given| ==> (c.received[i].id, given[i]) in RunOffers(events)
    ensures var c := Run(INITIAL, events, limits);
      var d := Run(INITIAL, events + Turns(|c.queued|), limits);
      && MayRun(INITIAL, events + Turns(|c.queued|), limits)
      && (d.open && !d.selfHead ==> d.wire == Flat(given) && d.pipeline == [])
  {
    var c := Run(INITIAL, events, limits);
    var all := events + Turns(|c.queued|);
    TurnsEmpty(c, limits);
    RunOn(INITIAL, events, Turns(|c.queued|), limits);
    var d := Run(INITIAL, all, limits);
    if d.open && !d.selfHead {
      TurnsOfferNothing(events, |c.queued|);
      EveryOfferIsHeard(all, limits);
      assert forall i :: 0 <= i < |given| ==> Heard(d, (d.received[i].id, given[i]));
      Drained(all, limits);
      FlatWritten(d.received, d.answers, given, |given|);
      assert given[..|given|] == given;
    }
  }

  lemma {:induction false} FlatWritten(received: seq<Request>, answers: Answers, given: seq<Reply>, n: nat)
    requires n <= |received| == |given|
    requires forall i :: 0 <= i < n ==> received[i].id in answers && answers[received[i].id] == given[i]
    ensures Written(received, answers, n) == Flat(given[..n])
  {
    if n > 0 {
      FlatWritten(received, answers, given, n - 1);
      FlatAppend(given[..n - 1], given[n - 1]);
      assert given[..n] == given[..n - 1] + [given[n - 1]];
    }
  }
}

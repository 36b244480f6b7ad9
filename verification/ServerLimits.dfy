/** The limits on the requests of one connection: when it is refused, and that they hold in every state of every run. */
module ServerLimits {
  import opened Wrappers
  import opened PipelineServer

  /** How many requests the events bring. */
  function Brought(events: seq<Event>): nat {
    if events == [] then 0 else (if events[0].Arrive? then |events[0].batch| else 0) + Brought(events[1..])
  }

  /** The parser counts the requests of the connection, those of the batch included. */
  predicate Counted(events: seq<Event>, before: nat)
    decreases |events|
  {
    events != [] ==>
      && (events[0].Arrive? ==> events[0].parsed == before + |events[0].batch|)
      && Counted(events[1..], before + if events[0].Arrive? then |events[0].batch| else 0)
  }

  // ---------------------------------------------------------------- the deque grows by what arrives

  lemma {:induction false} SendAway(c: Conn, req: Request, reply: Reply)
    ensures |Deliver(c, req, reply).pipeline| <= |c.pipeline|
    ensures var d := Deliver(c, req, reply); d.stopped == c.stopped && d.received == c.received && (d.open ==> c.open)
  {
  }

  lemma {:induction false} CallShrinks(c: Conn, running: Option<Request>, a: Act)
    ensures var d := Call(c, running, a);
      |d.pipeline| <= |c.pipeline| && d.stopped == c.stopped && d.received == c.received && (d.open ==> c.open)
  {
    if a.resp.Some? && c.open && a.inLoop {
      SendAway(c.(called := c.called + {a.target.id}), a.target, MakeReply(a.target, a.resp.value));
    }
  }

  lemma {:induction false} ActsShrink(c: Conn, r: Request, acts: seq<Act>, sync: bool)
    ensures var d := RunActs(c, r, acts, sync).0;
      |d.pipeline| <= |c.pipeline| && d.stopped == c.stopped && d.received == c.received && (d.open ==> c.open)
    ensures sync ==> RunActs(c, r, acts, sync).1
    decreases |acts|
  {
    if acts != [] {
      CallShrinks(c, Some(r), acts[0]);
      ActsShrink(Call(c, Some(r), acts[0]), r, acts[1..], sync || Syncs(c, r, acts[0]));
    }
  }

  lemma {:induction false} IterateGrows(c: Conn, a: Arrival)
    ensures var d := Iterate(c, a);
      && |d.pipeline| <= |c.pipeline| + 1 && d.received == c.received + [a.req]
      && d.stopped == c.stopped && (d.open ==> c.open)
  {
    var sync := c.pipeline != [];
    var c0 := c.(received := c.received + [a.req]);
    var c1 := if sync then Push(c0, a.req) else c0;
    if a.handling.Handler? {
      ActsShrink(c1, a.req, a.handling.acts, sync);
    }
  }

  lemma {:induction false} BatchGrows(c: Conn, batch: seq<Arrival>)
    ensures var d := BatchLoop(c, batch);
      && |d.pipeline| <= |c.pipeline| + |batch| && |d.received| == |c.received| + |batch|
      && d.stopped == c.stopped && (d.open ==> c.open)
    decreases |batch|
  {
    if batch != [] {
      IterateGrows(c, batch[0]);
      BatchGrows(Iterate(c, batch[0]), batch[1..]);
    }
  }

  // ---------------------------------------------------------------- one event

  /** The event brings requests, and with them the connection has read or holds too many. */
  predicate TooMany(c: Conn, e: Event, limits: Limits) {
    e.Arrive? && e.batch != [] &&
    ((limits.keepAlive > 0 && !(e.parsed < limits.keepAlive)) ||
     (limits.pipelining > 0 && !(|c.pipeline| + |e.batch| < limits.pipelining)))
  }

  lemma {:induction false} StepLimits(c: Conn, e: Event, limits: Limits)
    ensures var d := Step(c, e, limits);
      && (d.stopped <==> c.stopped || TooMany(c, e, limits))
      && (d.open ==> c.open) && (TooMany(c, e, limits) ==> !d.open)
      && (!c.open || TooMany(c, e, limits) || !e.Arrive? ==> d.received == c.received && |d.pipeline| <= |c.pipeline|)
      && (c.open && !TooMany(c, e, limits) && e.Arrive? ==>
            |d.received| == |c.received| + |e.batch| && |d.pipeline| <= |c.pipeline| + |e.batch|)
  {
    match e
    case Arrive(batch, parsed) => BatchGrows(c, batch);
    case Complete(act) => CallShrinks(c, None, act);
    case LoopTurn =>
      if c.queued != [] && c.open {
        SendAway(c.(queued := c.queued[1..]), c.queued[0].0, c.queued[0].1);
      }
  }

  // ---------------------------------------------------------------- every run

  predicate SomeTooMany(c: Conn, events: seq<Event>, limits: Limits)
    decreases |events|
  {
    events != [] && (TooMany(c, events[0], limits) || SomeTooMany(Step(c, events[0], limits), events[1..], limits))
  }

  /** A connection is refused exactly when some batch would reach a limit, from then on closed and deaf. */
  lemma {:induction false} RefusedExactlyWhen(c: Conn, events: seq<Event>, limits: Limits)
    ensures var r := Run(c, events, limits);
      && (r.stopped <==> c.stopped || SomeTooMany(c, events, limits))
      && (SomeTooMany(c, events, limits) || !c.open ==> !r.open)
      && (!c.open ==> r.received == c.received)
    decreases |events|
  {
    if events != [] {
      StepLimits(c, events[0], limits);
      RefusedExactlyWhen(Step(c, events[0], limits), events[1..], limits);
    }
  }

  /** Fewer requests have been handed over, and fewer wait, than the limits say. */
  predicate WithinLimits(c: Conn, limits: Limits) {
    && (limits.keepAlive > 0 ==> |c.received| < limits.keepAlive)
    && (limits.pipelining > 0 ==> |c.pipeline| < limits.pipelining)
  }

  lemma {:induction false} LimitsFrom(c: Conn, events: seq<Event>, before: nat, limits: Limits)
    requires WithinLimits(c, limits) && Counted(events, before) && |c.received| <= before
    requires c.open ==> |c.received| == before
    ensures WithinLimits(Run(c, events, limits), limits)
    decreases |events|
  {
    if events != [] {
      var e := events[0];
      StepLimits(c, e, limits);
      LimitsFrom(Step(c, e, limits), events[1..], before + if e.Arrive? then |e.batch| else 0, limits);
    }
  }

  /** In every state of every run the number of requests served and of those waiting stays below the limits. */
  lemma {:induction false} LimitsKept(events: seq<Event>, limits: Limits)
    requires Counted(events, 0)
    ensures WithinLimits(Run(INITIAL, events, limits), limits)
  {
    LimitsFrom(INITIAL, events, 0, limits);
  }

  lemma {:induction false} ServedFrom(c: Conn, events: seq<Event>, before: nat, limits: Limits)
    requires Counted(events, before) && |c.pipeline| <= before && !c.stopped
    requires limits.keepAlive > 0 ==> before + Brought(events) < limits.keepAlive
    requires limits.pipelining > 0 ==> before + Brought(events) < limits.pipelining
    ensures var r := Run(c, events, limits);
      !r.stopped && (r.open ==> |r.received| == |c.received| + Brought(events))
    decreases |events|
  {
    if events != [] {
      var e := events[0];
      StepLimits(c, e, limits);
      ServedFrom(Step(c, e, limits), events[1..], before + if e.Arrive? then |e.batch| else 0, limits);
      RefusedExactlyWhen(Step(c, e, limits), events[1..], limits);
    }
  }

  /** As long as fewer arrive than either limit, none is refused: all are handed over. */
  lemma {:induction false} ServedBelowLimits(events: seq<Event>, limits: Limits)
    requires Counted(events, 0)
    requires limits.keepAlive > 0 ==> Brought(events) < limits.keepAlive
    requires limits.pipelining > 0 ==> Brought(events) < limits.pipelining
    ensures var r := Run(INITIAL, events, limits); !r.stopped && (r.open ==> |r.received| == Brought(events))
  {
    ServedFrom(INITIAL, events, 0, limits);
  }

  lemma {:induction false} RefusedFrom(c: Conn, events: seq<Event>, before: nat, limits: Limits)
    requires Counted(events, before) && limits.pipelining == 0 && before < limits.keepAlive && !c.stopped
    ensures Run(c, events, limits).stopped <==> before + Brought(events) >= limits.keepAlive
    decreases |events|
  {
    if events != [] {
      var e := events[0];
      var d, count := Step(c, e, limits), before + if e.Arrive? then |e.batch| else 0;
      StepLimits(c, e, limits);
      if count < limits.keepAlive {
        RefusedFrom(d, events[1..], count, limits);
      } else {
        RefusedExactlyWhen(d, events[1..], limits);
      }
    }
  }

  /**
   The request that reaches the number of requests a connection may serve is not served any more: the
   connection is refused exactly when so many have come, and has handed over fewer.
   */
  lemma {:induction false} LastIsRefused(events: seq<Event>, limits: Limits)
    requires Counted(events, 0) && limits.keepAlive > 0 && limits.pipelining == 0
    ensures var r := Run(INITIAL, events, limits);
      && (r.stopped <==> Brought(events) >= limits.keepAlive)
      && |r.received| < limits.keepAlive
  {
    RefusedFrom(INITIAL, events, 0, limits);
    LimitsKept(events, limits);
  }
}

/** Queue order, single user calls, and the outcome of errors in the pipelining client. */
module PipelineClientProofs {
  import opened PipelineServer
  import opened PipelineClient

  type Completion = (Request, Result)

  function Requests(cs: seq<Completion>): (rs: seq<Request>)
    ensures |rs| == |cs| && forall i :: 0 <= i < |cs| ==> rs[i] == cs[i].0
  {
    seq(|cs|, i requires 0 <= i < |cs| => cs[i].0)
  }

  function DoneIds(cs: seq<Completion>): set<nat> {
    set x | x in cs :: x.0.id
  }

  function CallIds(calls: seq<(nat, Result)>): set<nat> {
    set x | x in calls :: x.0
  }

  /** Every request is completed or pending, and in one place only. */
  ghost predicate Spread(submitted: seq<Request>, completed: seq<Completion>, pending: seq<Request>) {
    Distinct(submitted) && multiset(submitted) == multiset(Requests(completed) + pending)
  }

  /** The user was called for exactly the requests that completed or timed out, once each. */
  ghost predicate CalledOnce(calls: seq<(nat, Result)>, completed: seq<Completion>, fired: set<nat>, timed: set<nat>) {
    && (forall i, j :: 0 <= i < j < |calls| ==> calls[i].0 != calls[j].0)
    && CallIds(calls) == DoneIds(completed) + fired
    && fired <= timed
    && (forall id :: id in DoneIds(completed) && id in timed ==> id in fired)
  }

  ghost predicate TimersKnown(timed: set<nat>, submitted: seq<Request>) {
    forall id :: id in timed ==> exists i :: 0 <= i < |submitted| && submitted[i].id == id
  }

  ghost predicate Pending(c: Client, pending: seq<Request>) {
    && Spread(c.submitted, c.completed, pending)
    && CalledOnce(c.userCalls, c.completed, c.fired, c.timed)
    && TimersKnown(c.timed, c.submitted)
  }

  ghost predicate Kept(c: Client) {
    Pending(c, c.inFlight + c.buffer) && |c.inFlight| <= c.depth + 2
  }

  /** Between events, nothing is in flight without a connection. */
  ghost predicate ClientInv(c: Client) {
    Kept(c) && (c.link != Connected ==> c.inFlight == [])
  }

  // ---------------------------------------------------------------- submissions

  /** No identity occurs twice in a rearrangement either. */
  lemma DistinctShuffled(a: seq<Request>, b: seq<Request>)
    requires Distinct(a) && multiset(a) == multiset(b)
    ensures Distinct(b)
  {
    forall i, j | 0 <= i < j < |b| ensures b[i].id != b[j].id {
      var x, y := b[i], b[j];
      assert x in multiset(b) && y in multiset(b);
      assert x in a && y in a;
      var k :| 0 <= k < |a| && a[k] == x;
      var l :| 0 <= l < |a| && a[l] == y;
      OnceInside(a, x);
      if x == y {
        TwiceInside(b, i, j);
      }
    }
  }

  lemma TwiceInside(b: seq<Request>, i: nat, j: nat)
    requires i < j < |b| && b[i] == b[j]
    ensures multiset(b)[b[i]] >= 2
  {
    assert b == b[..j] + b[j..];
    assert b[i] == b[..j][i] && b[j] == b[j..][0];
    assert b[i] in multiset(b[..j]) && b[j] in multiset(b[j..]);
    assert multiset(b) == multiset(b[..j]) + multiset(b[j..]);
  }

  lemma {:induction false} OnceInside(a: seq<Request>, x: Request)
    requires Distinct(a)
    ensures multiset(a)[x] <= 1
    decreases |a|
  {
    if a != [] {
      var n := |a| - 1;
      assert a == a[..n] + [a[n]];
      assert Distinct(a[..n]);
      OnceInside(a[..n], x);
      if a[n] == x {
        assert x !in a[..n];
        assert multiset(a[..n])[x] == 0;
      }
    }
  }

  /** Completed and pending requests are all different, and were submitted. */
  lemma SpreadApart(submitted: seq<Request>, completed: seq<Completion>, pending: seq<Request>)
    requires Spread(submitted, completed, pending)
    ensures Distinct(Requests(completed) + pending)
    ensures forall id :: id in DoneIds(completed) ==> exists i :: 0 <= i < |submitted| && submitted[i].id == id
  {
    DistinctShuffled(submitted, Requests(completed) + pending);
    forall id | id in DoneIds(completed) ensures exists i :: 0 <= i < |submitted| && submitted[i].id == id {
      var x :| x in completed && x.0.id == id;
      var k :| 0 <= k < |completed| && completed[k] == x;
      assert (Requests(completed) + pending)[k] == x.0;
      assert x.0 in multiset(Requests(completed) + pending);
      assert x.0 in submitted;
      var i :| 0 <= i < |submitted| && submitted[i] == x.0;
    }
  }

  lemma NotDone(completed: seq<Completion>, pending: seq<Request>)
    requires Distinct(Requests(completed) + pending)
    ensures forall r :: r in pending ==> r.id !in DoneIds(completed)
  {
    var all := Requests(completed) + pending;
    forall r, x | r in pending && x in completed ensures x.0.id != r.id {
      var j :| 0 <= j < |pending| && pending[j] == r;
      var i :| 0 <= i < |completed| && completed[i] == x;
      assert all[i] == x.0 && all[|completed| + j] == r;
    }
  }

  lemma PendingShuffled(c: Client, pending: seq<Request>, other: seq<Request>)
    requires Pending(c, pending) && multiset(pending) == multiset(other)
    ensures Pending(c, other)
  {
    assert multiset(Requests(c.completed) + pending) == multiset(Requests(c.completed) + other);
  }

  /** How the queues change when requests are submitted: some go out, the others wait behind them. */
  ghost predicate Queued(c: Client, d: Client, rs: seq<Request>) {
    && d.depth == c.depth && d.completed == c.completed
    && d.submitted == c.submitted + rs
    && d.inFlight + d.buffer == c.inFlight + c.buffer + rs
    && |d.inFlight| >= |c.inFlight| && |d.sent| >= |c.sent|
    && d.inFlight[..|c.inFlight|] == c.inFlight
    && d.sent == c.sent + d.inFlight[|c.inFlight|..]
    && (|d.inFlight| <= c.depth + 1 || |d.inFlight| == |c.inFlight|)
    && (c.link != Connected ==> d.inFlight == c.inFlight && d.link != Connected)
    && (c.link == Connected ==> d.link == Connected)
    && (|d.inFlight| > |c.inFlight| ==> c.buffer == [])
  }

  lemma SubmitQueues(c: Client, s: Submission)
    ensures Queued(c, Submit(c, s), [s.req])
  {
    var d := Submit(c, s);
    assert d.inFlight + d.buffer == c.inFlight + c.buffer + [s.req];
    if |d.inFlight| > |c.inFlight| {
      assert d.inFlight[|c.inFlight|..] == [s.req];
    }
  }

  lemma TimersGrow(timed: set<nat>, submitted: seq<Request>, r: Request)
    requires TimersKnown(timed, submitted)
    ensures TimersKnown(timed + {r.id}, submitted + [r]) && TimersKnown(timed, submitted + [r])
  {
    forall id | id in timed + {r.id} ensures exists i :: 0 <= i < |submitted + [r]| && (submitted + [r])[i].id == id {
      if id == r.id {
        assert (submitted + [r])[|submitted|].id == id;
      } else {
        var i :| 0 <= i < |submitted| && submitted[i].id == id;
        assert (submitted + [r])[i].id == id;
      }
    }
  }

  lemma SpreadGrows(submitted: seq<Request>, completed: seq<Completion>, pending: seq<Request>, r: Request)
    requires Spread(submitted, completed, pending)
    requires forall i :: 0 <= i < |submitted| ==> submitted[i].id != r.id
    ensures Spread(submitted + [r], completed, pending + [r])
  {
    assert Requests(completed) + (pending + [r]) == (Requests(completed) + pending) + [r];
  }

  lemma SubmitKeeps(c: Client, s: Submission)
    requires Pending(c, c.inFlight + c.buffer) && Fresh(c, s)
    ensures Pending(Submit(c, s), Submit(c, s).inFlight + Submit(c, s).buffer)
  {
    var d, pending := Submit(c, s), c.inFlight + c.buffer;
    SubmitQueues(c, s);
    TimersGrow(c.timed, c.submitted, s.req);
    SpreadApart(c.submitted, c.completed, pending);
    SpreadGrows(c.submitted, c.completed, pending, s.req);
    assert d.inFlight + d.buffer == pending + [s.req];
  }

  lemma FreshTail(c: Client, ss: seq<Submission>)
    requires FreshAll(c, ss) && ss != []
    ensures Fresh(c, ss[0]) && FreshAll(Submit(c, ss[0]), ss[1..])
  {
    var d := Submit(c, ss[0]);
    forall j | 0 <= j < |ss[1..]| ensures Fresh(d, ss[1..][j]) {
      assert ss[1..][j] == ss[j + 1] && Fresh(c, ss[j + 1]);
    }
  }

  function Reqs(ss: seq<Submission>): (rs: seq<Request>)
    ensures |rs| == |ss| && forall i :: 0 <= i < |ss| ==> rs[i] == ss[i].req
  {
    seq(|ss|, i requires 0 <= i < |ss| => ss[i].req)
  }

  lemma Behind(s: seq<Request>, front: seq<Request>, i: nat)
    requires i <= |front| <= |s| && s[..|front|] == front
    ensures s[..i] == front[..i] && s[i..] == front[i..] + s[|front|..]
  {
  }

  lemma Append3(a: seq<Request>, b: seq<Request>, c: seq<Request>)
    ensures (a + b) + c == a + (b + c)
  {
  }

  /** Two submissions after each other are one of both. */
  lemma QueuedTwice(c: Client, c1: Client, d: Client, rs: seq<Request>, more: seq<Request>)
    requires Queued(c, c1, rs) && Queued(c1, d, more)
    ensures Queued(c, d, rs + more)
  {
    Behind(d.inFlight, c1.inFlight, |c.inFlight|);
    Append3(c.sent, c1.inFlight[|c.inFlight|..], d.inFlight[|c1.inFlight|..]);
    Append3(c.submitted, rs, more);
    Append3(c.inFlight + c.buffer, rs, more);
  }

  lemma {:induction false} SubmitAllQueues(c: Client, ss: seq<Submission>)
    ensures Queued(c, SubmitAll(c, ss), Reqs(ss))
    decreases |ss|
  {
    if ss == [] {
      assert c.submitted + [] == c.submitted && c.inFlight + c.buffer + [] == c.inFlight + c.buffer;
      assert c.inFlight[|c.inFlight|..] == [] && c.sent + [] == c.sent;
    } else {
      var c1 := Submit(c, ss[0]);
      SubmitQueues(c, ss[0]);
      SubmitAllQueues(c1, ss[1..]);
      assert Reqs(ss) == [ss[0].req] + Reqs(ss[1..]);
      QueuedTwice(c, c1, SubmitAll(c1, ss[1..]), [ss[0].req], Reqs(ss[1..]));
    }
  }

  lemma {:induction false} SubmitAllKeeps(c: Client, ss: seq<Submission>)
    requires Pending(c, c.inFlight + c.buffer) && FreshAll(c, ss)
    ensures Pending(SubmitAll(c, ss), SubmitAll(c, ss).inFlight + SubmitAll(c, ss).buffer)
    decreases |ss|
  {
    if ss != [] {
      SubmitKeeps(c, ss[0]);
      FreshTail(c, ss);
      SubmitAllKeeps(Submit(c, ss[0]), ss[1..]);
    }
  }

  // ---------------------------------------------------------------- callbacks

  lemma CallIdsAppend(calls: seq<(nat, Result)>, x: (nat, Result))
    ensures CallIds(calls + [x]) == CallIds(calls) + {x.0}
  {
    assert x in calls + [x];
  }

  lemma DoneIdsAppend(cs: seq<Completion>, x: Completion)
    ensures DoneIds(cs + [x]) == DoneIds(cs) + {x.0.id}
    ensures Requests(cs + [x]) == Requests(cs) + [x.0]
  {
    assert x in cs + [x];
  }

  /** Appending a call for an identity not called before keeps the calls apart. */
  lemma OneMoreCall(calls: seq<(nat, Result)>, x: (nat, Result))
    requires forall i, j :: 0 <= i < j < |calls| ==> calls[i].0 != calls[j].0
    requires x.0 !in CallIds(calls)
    ensures forall i, j :: 0 <= i < j < |calls + [x]| ==> (calls + [x])[i].0 != (calls + [x])[j].0
  {
    forall i | 0 <= i < |calls| ensures calls[i].0 != x.0 {
      assert calls[i] in calls;
    }
  }

  /** The oldest pending request completes. */
  lemma CallbackKeeps(c: Client, req: Request, result: Result, rest: seq<Request>)
    requires Pending(c, [req] + rest)
    ensures Pending(RunCallback(c, req, result), rest)
  {
    var d := RunCallback(c, req, result);
    DoneIdsAppend(c.completed, (req, result));
    SpreadApart(c.submitted, c.completed, [req] + rest);
    NotDone(c.completed, [req] + rest);
    assert req in [req] + rest;
    assert Requests(d.completed) + rest == Requests(c.completed) + ([req] + rest);
    if Reaches(c, req) {
      CallIdsAppend(c.userCalls, (req.id, result));
      OneMoreCall(c.userCalls, (req.id, result));
    }
  }

  lemma TimerKeeps(c: Client, id: nat)
    requires ClientInv(c) && id in c.timed
    ensures ClientInv(TimerFires(c, id))
  {
    if id !in c.fired {
      CallIdsAppend(c.userCalls, (id, Failed(Timeout)));
      OneMoreCall(c.userCalls, (id, Failed(Timeout)));
    }
  }

  /** The request at the head of the in-flight queue completes and its callback submits. */
  lemma AnswerKeeps(c: Client, reply: Reply, nested: seq<Submission>) returns (d: Client)
    requires Kept(c) && c.inFlight != [] && FreshAll(c, nested)
    ensures d == (var c1 := RunCallback(c.(inFlight := c.inFlight[1..]), c.inFlight[0], Ok(reply));
                  if Reaches(c, c.inFlight[0]) then SubmitAll(c1, nested) else c1)
    ensures Pending(d, d.inFlight + d.buffer) && d.depth == c.depth && |d.inFlight| <= c.depth + 1
    ensures c.link == Connected ==> d.link == Connected
  {
    var req, c0 := c.inFlight[0], c.(inFlight := c.inFlight[1..]);
    assert c.inFlight + c.buffer == [req] + (c0.inFlight + c0.buffer);
    CallbackKeeps(c0, req, Ok(reply), c0.inFlight + c0.buffer);
    d := RunCallback(c0, req, Ok(reply));
    if Reaches(c, req) {
      SubmitAllKeeps(d, nested);
      SubmitAllQueues(d, nested);
      d := SubmitAll(d, nested);
    }
  }

  lemma ResponseKeeps(c: Client, reply: Reply, nested: seq<Submission>, drops: bool)
    requires Kept(c) && c.link == Connected && c.inFlight != [] && FreshAll(c, nested)
    ensures ClientInv(OnResponse(c, reply, nested, drops))
  {
    var d := AnswerKeeps(c, reply, nested);
    if d.buffer != [] {
      PromoteKeeps(d);
    }
  }

  lemma PromoteKeeps(c: Client)
    requires Pending(c, c.inFlight + c.buffer) && c.buffer != []
    ensures Pending(Promote(c), Promote(c).inFlight + Promote(c).buffer)
  {
    assert Promote(c).inFlight + Promote(c).buffer == c.inFlight + c.buffer;
  }

  /** The first `n` buffered requests have gone out. */
  function Moved(c: Client, n: nat): Client
    requires n <= |c.buffer|
  {
    c.(sent := c.sent + c.buffer[..n], inFlight := c.inFlight + c.buffer[..n], buffer := c.buffer[n..])
  }

  lemma {:induction false} FillMoves(c: Client) returns (n: nat)
    ensures n <= |c.buffer| && Fill(c) == Moved(c, n)
    ensures |Fill(c).inFlight| <= c.depth + 1 || n == 0
    decreases |c.buffer|
  {
    if |c.inFlight| <= c.depth && c.buffer != [] {
      var d := Promote(c);
      var m := FillMoves(d);
      n := m + 1;
      assert c.buffer[..n] == [c.buffer[0]] + d.buffer[..m] && c.buffer[n..] == d.buffer[m..];
    } else {
      n := 0;
      assert Moved(c, 0) == c;
    }
  }

  lemma {:induction false} MovedKeeps(c: Client, n: nat)
    requires Pending(c, c.inFlight + c.buffer) && n <= |c.buffer|
    ensures Pending(Moved(c, n), Moved(c, n).inFlight + Moved(c, n).buffer)
  {
    assert Moved(c, n).inFlight + Moved(c, n).buffer == c.inFlight + c.buffer;
  }

  lemma {:induction false} FillKeeps(c: Client)
    requires Kept(c)
    ensures Kept(Fill(c)) && Fill(c).link == c.link
  {
    var n := FillMoves(c);
    MovedKeeps(c, n);
  }

  // ---------------------------------------------------------------- errors

  lemma FreshScript(c: Client, d: Client, head: seq<Submission>, tail: seq<Submission>)
    requires FreshAll(c, head + tail)
    requires d.submitted == c.submitted + Reqs(head)
    ensures FreshAll(c, head) && FreshAll(d, tail)
  {
    var ss := head + tail;
    forall j | 0 <= j < |head| ensures Fresh(c, head[j]) {
      assert Fresh(c, ss[j]);
    }
    forall j, k | 0 <= j < k < |head| ensures head[j].req.id != head[k].req.id {
      assert ss[j].req.id != ss[k].req.id;
    }
    forall j, k | 0 <= j < k < |tail| ensures tail[j].req.id != tail[k].req.id {
      assert ss[|head| + j].req.id != ss[|head| + k].req.id;
    }
    forall j | 0 <= j < |tail| ensures Fresh(d, tail[j]) {
      assert Fresh(c, ss[|head| + j]);
      forall i | 0 <= i < |d.submitted| ensures d.submitted[i].id != tail[j].req.id {
        if i >= |c.submitted| {
          assert ss[i - |c.submitted|].req.id != ss[|head| + j].req.id;
        }
      }
    }
  }

  /** A request taken from either queue fails, and its callback submits. */
  lemma FailKeeps(c: Client, req: Request, why: Failure, script: seq<seq<Submission>>)
    requires Pending(c, [req] + (c.inFlight + c.buffer)) && |c.inFlight| <= c.depth + 2
    requires FreshAll(c, Flatten(script))
    ensures var (d, rest) := Fail(c, req, why, script);
      && Kept(d) && d.depth == c.depth && FreshAll(d, Flatten(rest))
      && (c.link != Connected ==> d.inFlight == c.inFlight && d.link != Connected)
      && (c.link == Connected ==> d.link == Connected)
      && c.submitted <= d.submitted
  {
    CallbackKeeps(c, req, Failed(why), c.inFlight + c.buffer);
    var c1 := RunCallback(c, req, Failed(why));
    if Reaches(c, req) && script != [] {
      assert Flatten(script) == script[0] + Flatten(script[1..]);
      forall j | 0 <= j < |Flatten(script)| ensures Fresh(c1, Flatten(script)[j]) {
        assert Fresh(c, Flatten(script)[j]);
      }
      FreshScript(c1, c1.(submitted := c1.submitted + Reqs(script[0])), script[0], Flatten(script[1..]));
      SubmitAllKeeps(c1, script[0]);
      SubmitAllQueues(c1, script[0]);
      var d := SubmitAll(c1, script[0]);
      forall j | 0 <= j < |Flatten(script[1..])| ensures Fresh(d, Flatten(script[1..])[j]) {
        assert Fresh(c1.(submitted := c1.submitted + Reqs(script[0])), Flatten(script[1..])[j]);
      }
    } else {
      forall j | 0 <= j < |Flatten(script)| ensures Fresh(c1, Flatten(script)[j]) {
        assert Fresh(c, Flatten(script)[j]);
      }
    }
  }

  lemma {:induction false} FailInFlightKeeps(c: Client, why: Failure, script: seq<seq<Submission>>)
    requires Kept(c) && FreshAll(c, Flatten(script))
    ensures var (d, rest) := FailInFlight(c, why, script);
      && Kept(d) && FreshAll(d, Flatten(rest)) && c.submitted <= d.submitted
      && (d.link == Connected <==> c.link == Connected)
    decreases |c.inFlight| + |c.buffer| + Total(script)
  {
    if c.inFlight != [] {
      var c0, req := c.(inFlight := c.inFlight[1..]), c.inFlight[0];
      assert c.inFlight + c.buffer == [req] + (c0.inFlight + c0.buffer);
      assert Pending(c0, [req] + (c0.inFlight + c0.buffer));
      FailKeeps(c0, req, why, script);
      var (c1, rest) := Fail(c0, req, why, script);
      FailInFlightKeeps(c1, why, rest);
    }
  }

  lemma {:induction false} FailBufferKeeps(c: Client, why: Failure, script: seq<seq<Submission>>)
    requires Kept(c) && FreshAll(c, Flatten(script))
    ensures var (d, rest) := FailBuffer(c, why, script);
      && Kept(d) && FreshAll(d, Flatten(rest)) && c.submitted <= d.submitted
      && (d.link == Connected <==> c.link == Connected)
      && (c.link != Connected ==> d.inFlight == c.inFlight)
    decreases |c.inFlight| + |c.buffer| + Total(script)
  {
    if c.buffer != [] {
      var c0, req := c.(buffer := c.buffer[1..]), c.buffer[0];
      PopBuffer(c);
      FailKeeps(c0, req, why, script);
      var (c1, rest) := Fail(c0, req, why, script);
      FailBufferKeeps(c1, why, rest);
    }
  }

  lemma PopBuffer(c: Client)
    requires Pending(c, c.inFlight + c.buffer) && c.buffer != []
    ensures var c0 := c.(buffer := c.buffer[1..]); Pending(c0, [c.buffer[0]] + (c0.inFlight + c0.buffer))
  {
    var req, tail := c.buffer[0], c.buffer[1..];
    assert c.buffer == [req] + tail;
    PendingShuffled(c, c.inFlight + c.buffer, [req] + (c.inFlight + tail));
  }

  lemma DrainKeeps(c: Client, why: Failure, script: seq<seq<Submission>>)
    requires Kept(c) && FreshAll(c, Flatten(script))
    ensures var (d, rest) := Drain(c, why, script);
      && Kept(d) && FreshAll(d, Flatten(rest)) && c.submitted <= d.submitted
      && (d.link == Connected <==> c.link == Connected)
      && (c.link != Connected ==> d.inFlight == [])
  {
    FailInFlightKeeps(c, why, script);
    var (c1, rest) := FailInFlight(c, why, script);
    FailBufferKeeps(c1, why, rest);
  }

  /** Without a connection the second loop sends nothing. */
  lemma {:induction false} OfflineSubmits(c: Client, ss: seq<Submission>)
    requires c.link != Connected
    ensures SubmitAll(c, ss).inFlight == c.inFlight && SubmitAll(c, ss).link != Connected
    decreases |ss|
  {
    if ss != [] {
      OfflineSubmits(Submit(c, ss[0]), ss[1..]);
    }
  }

  lemma {:induction false} OfflineBuffer(c: Client, why: Failure, script: seq<seq<Submission>>)
    requires c.link != Connected
    ensures FailBuffer(c, why, script).0.inFlight == c.inFlight
    decreases |c.inFlight| + |c.buffer| + Total(script)
  {
    if c.buffer != [] {
      var c0, req := c.(buffer := c.buffer[1..]), c.buffer[0];
      if script != [] {
        OfflineSubmits(RunCallback(c0, req, Failed(why)), script[0]);
      }
      var (c1, rest) := Fail(c0, req, why, script);
      OfflineBuffer(c1, why, rest);
    }
  }

  lemma {:induction false} OfflineInFlight(c: Client, why: Failure, script: seq<seq<Submission>>)
    requires c.link != Connected
    ensures FailInFlight(c, why, script).0.link != Connected
    decreases |c.inFlight| + |c.buffer| + Total(script)
  {
    if c.inFlight != [] {
      var c0, req := c.(inFlight := c.inFlight[1..]), c.inFlight[0];
      if script != [] {
        OfflineSubmits(RunCallback(c0, req, Failed(why)), script[0]);
      }
      var (c1, rest) := Fail(c0, req, why, script);
      OfflineInFlight(c1, why, rest);
    }
  }

  lemma OfflineDrain(c: Client, why: Failure, script: seq<seq<Submission>>)
    requires c.link != Connected
    ensures Drain(c, why, script).0.inFlight == [] && Drain(c, why, script).0.buffer == []
  {
    OfflineInFlight(c, why, script);
    var (c1, rest) := FailInFlight(c, why, script);
    OfflineBuffer(c1, why, rest);
  }

  /** After any error in any state, with any submissions by its callbacks, both queues are empty. */
  lemma ErrorEmptiesQueues(c: Client, why: Failure, script: seq<seq<Submission>>)
    ensures var d := OnError(c, why, script); d.inFlight == [] && d.buffer == [] && d.link == NoClient
  {
    var c0 := Struck(c, why);
    var (c1, rest) := Drain(c0, why, script);
    if c1.link == Connected {
      OfflineDrain(c1.(link := NoClient), NetworkFailure, rest);
    } else {
      StaysOnline(c0, why, script);
      OfflineDrain(c0, why, script);
    }
  }

  lemma {:induction false} OnlineSubmits(c: Client, ss: seq<Submission>)
    requires c.link == Connected
    ensures SubmitAll(c, ss).link == Connected
    decreases |ss|
  {
    if ss != [] {
      OnlineSubmits(Submit(c, ss[0]), ss[1..]);
    }
  }

  lemma {:induction false} StaysOnlineInFlight(c: Client, why: Failure, script: seq<seq<Submission>>)
    ensures c.link == Connected ==> FailInFlight(c, why, script).0.link == Connected
    decreases |c.inFlight| + |c.buffer| + Total(script)
  {
    if c.inFlight != [] && c.link == Connected {
      var c0, req := c.(inFlight := c.inFlight[1..]), c.inFlight[0];
      if script != [] {
        OnlineSubmits(RunCallback(c0, req, Failed(why)), script[0]);
      }
      var (c1, rest) := Fail(c0, req, why, script);
      StaysOnlineInFlight(c1, why, rest);
    }
  }

  lemma {:induction false} StaysOnlineBuffer(c: Client, why: Failure, script: seq<seq<Submission>>)
    ensures c.link == Connected ==> FailBuffer(c, why, script).0.link == Connected
    decreases |c.inFlight| + |c.buffer| + Total(script)
  {
    if c.buffer != [] && c.link == Connected {
      var c0, req := c.(buffer := c.buffer[1..]), c.buffer[0];
      if script != [] {
        OnlineSubmits(RunCallback(c0, req, Failed(why)), script[0]);
      }
      var (c1, rest) := Fail(c0, req, why, script);
      StaysOnlineBuffer(c1, why, rest);
    }
  }

  /** The callbacks of an error do not take the connection down. */
  lemma StaysOnline(c: Client, why: Failure, script: seq<seq<Submission>>)
    ensures c.link == Connected ==> Drain(c, why, script).0.link == Connected
  {
    StaysOnlineInFlight(c, why, script);
    var (c1, rest) := FailInFlight(c, why, script);
    StaysOnlineBuffer(c1, why, rest);
  }

  /**
   After an error, whatever its callbacks submit and whether or not the connection is still up, every
   request submitted before it or by its callbacks has had its callback run, and nothing is queued.
   */
  lemma ErrorAnswersAll(c: Client, why: Failure, script: seq<seq<Submission>>)
    requires Kept(c) && MayClientStep(c, Errs(why, script))
    ensures var d := OnError(c, why, script);
      && ClientInv(d) && d.inFlight == [] && d.buffer == [] && d.link == NoClient
      && multiset(d.submitted) == multiset(Requests(d.completed)) && c.submitted <= d.submitted
  {
    var c0 := Struck(c, why);
    assert Kept(c0) && FreshAll(c0, Flatten(script)) by {
      assert forall s :: Fresh(c, s) ==> Fresh(c0, s);
    }
    DrainKeeps(c0, why, script);
    var (c1, rest) := Drain(c0, why, script);
    ResetKeeps(c1, rest);
    ErrorEmptiesQueues(c, why, script);
    NobodyLeft(OnError(c, why, script));
  }

  lemma NobodyLeft(c: Client)
    requires Kept(c) && c.inFlight == [] && c.buffer == []
    ensures multiset(c.submitted) == multiset(Requests(c.completed))
  {
    assert Requests(c.completed) + (c.inFlight + c.buffer) == Requests(c.completed);
  }

  lemma ResetKeeps(c: Client, script: seq<seq<Submission>>)
    requires Kept(c) && FreshAll(c, Flatten(script))
    ensures Kept(ResetTcpClient(c, script)) && c.submitted <= ResetTcpClient(c, script).submitted
  {
    var c1 := c.(link := NoClient);
    assert FreshAll(c1, Flatten(script)) by {
      assert forall s :: Fresh(c, s) ==> Fresh(c1, s);
    }
    DrainKeeps(c1, NetworkFailure, script);
  }

  /** Dropping an idle connection after its last response answers nobody: there is nobody left. */
  lemma IdleReset(c: Client)
    requires c.inFlight == [] && c.buffer == []
    ensures ResetTcpClient(c, []) == c.(link := NoClient)
  {
  }

  // ---------------------------------------------------------------- how many are in flight

  /** What submissions do to the number in flight on a connection. */
  lemma {:induction false} SubmitAllFills(c: Client, ss: seq<Submission>)
    requires c.link == Connected
    ensures var d, n := SubmitAll(c, ss), |c.inFlight|;
      && d.link == Connected
      && |d.inFlight| == (if c.buffer != [] || n > c.depth then n
                          else if n + |ss| <= c.depth + 1 then n + |ss| else c.depth + 1)
    decreases |ss|
  {
    if ss != [] {
      SubmitAllFills(Submit(c, ss[0]), ss[1..]);
    }
  }

  /** The callback finds nothing buffered and submits more than the connection has room for. */
  predicate Overfills(c: Client, nested: seq<Submission>)
    requires c.inFlight != []
  {
    Reaches(c, c.inFlight[0]) && c.buffer == [] && |c.inFlight| + |nested| > c.depth + 2
  }

  /**
   A response makes more than depth + 1 requests be in flight exactly when its callback submits too many
   into an empty buffer.
   */
  lemma DepthExceeded(c: Client, reply: Reply, nested: seq<Submission>, drops: bool)
    requires c.link == Connected && 0 < |c.inFlight| <= c.depth + 1
    ensures |OnResponse(c, reply, nested, drops).inFlight| > c.depth + 1 <==> Overfills(c, nested)
  {
    var c1 := RunCallback(c.(inFlight := c.inFlight[1..]), c.inFlight[0], Ok(reply));
    if Reaches(c, c.inFlight[0]) {
      SubmitAllFills(c1, nested);
    }
  }

  /** In every state of the run at most depth + 1 requests are in flight. */
  predicate WithinDepth(c: Client, events: seq<ClientEvent>)
    requires MayClientRun(c, events)
    decreases |events|
  {
    && |c.inFlight| <= c.depth + 1
    && (events != [] ==> WithinDepth(ClientStep(c, events[0]), events[1..]))
  }

  predicate NeverOverfills(c: Client, events: seq<ClientEvent>)
    requires MayClientRun(c, events)
    decreases |events|
  {
    events != [] ==>
      && (events[0].Receives? ==> !Overfills(c, events[0].nested))
      && NeverOverfills(ClientStep(c, events[0]), events[1..])
  }

  lemma StepDepth(c: Client, e: ClientEvent)
    requires ClientInv(c) && MayClientStep(c, e) && |c.inFlight| <= c.depth + 1
    ensures ClientStep(c, e).depth == c.depth
    ensures |ClientStep(c, e).inFlight| <= c.depth + 1 <==> !(e.Receives? && Overfills(c, e.nested))
  {
    match e
    case Submits(s) =>
    case Connects => var n := FillMoves(c.(link := Connected, sent := []));
    case TimerGoes(id) =>
    case Receives(reply, nested, drops) =>
      DepthExceeded(c, reply, nested, drops);
      ResponseDepth(c, reply, nested, drops);
    case Errs(why, script) =>
      ErrorEmptiesQueues(c, why, script);
      ErrorDepth(c, why, script);
  }

  lemma {:induction false} SubmitDepth(c: Client, ss: seq<Submission>)
    ensures SubmitAll(c, ss).depth == c.depth
    decreases |ss|
  {
    if ss != [] {
      SubmitDepth(Submit(c, ss[0]), ss[1..]);
    }
  }

  lemma ResponseDepth(c: Client, reply: Reply, nested: seq<Submission>, drops: bool)
    requires c.inFlight != []
    ensures OnResponse(c, reply, nested, drops).depth == c.depth
  {
    SubmitDepth(RunCallback(c.(inFlight := c.inFlight[1..]), c.inFlight[0], Ok(reply)), nested);
  }

  lemma {:induction false} FailInFlightDepth(c: Client, why: Failure, script: seq<seq<Submission>>)
    ensures FailInFlight(c, why, script).0.depth == c.depth
    decreases |c.inFlight| + |c.buffer| + Total(script)
  {
    if c.inFlight != [] {
      var c0, req := c.(inFlight := c.inFlight[1..]), c.inFlight[0];
      if script != [] {
        SubmitDepth(RunCallback(c0, req, Failed(why)), script[0]);
      }
      var (c1, rest) := Fail(c0, req, why, script);
      FailInFlightDepth(c1, why, rest);
    }
  }

  lemma {:induction false} FailBufferDepth(c: Client, why: Failure, script: seq<seq<Submission>>)
    ensures FailBuffer(c, why, script).0.depth == c.depth
    decreases |c.inFlight| + |c.buffer| + Total(script)
  {
    if c.buffer != [] {
      var c0, req := c.(buffer := c.buffer[1..]), c.buffer[0];
      if script != [] {
        SubmitDepth(RunCallback(c0, req, Failed(why)), script[0]);
      }
      var (c1, rest) := Fail(c0, req, why, script);
      FailBufferDepth(c1, why, rest);
    }
  }

  lemma DrainDepth(c: Client, why: Failure, script: seq<seq<Submission>>)
    ensures Drain(c, why, script).0.depth == c.depth
  {
    FailInFlightDepth(c, why, script);
    var (c1, rest) := FailInFlight(c, why, script);
    FailBufferDepth(c1, why, rest);
  }

  lemma ErrorDepth(c: Client, why: Failure, script: seq<seq<Submission>>)
    ensures OnError(c, why, script).depth == c.depth
  {
    DrainDepth(Struck(c, why), why, script);
    var (c1, rest) := Drain(Struck(c, why), why, script);
    DrainDepth(c1.(link := NoClient), NetworkFailure, rest);
  }

  /** A run keeps to the configured depth exactly when no callback of a response overfills. */
  lemma {:induction false} DepthKept(c: Client, events: seq<ClientEvent>)
    requires ClientInv(c) && MayClientRun(c, events) && |c.inFlight| <= c.depth + 1
    ensures WithinDepth(c, events) <==> NeverOverfills(c, events)
    decreases |events|
  {
    if events != [] {
      StepDepth(c, events[0]);
      ClientStepKeeps(c, events[0]);
      if |ClientStep(c, events[0]).inFlight| <= c.depth + 1 {
        DepthKept(ClientStep(c, events[0]), events[1..]);
      }
    }
  }

  // ---------------------------------------------------------------- runs

  lemma ClientStepKeeps(c: Client, e: ClientEvent)
    requires ClientInv(c) && MayClientStep(c, e)
    ensures ClientInv(ClientStep(c, e))
  {
    match e
    case Submits(s) =>
      SubmitKeeps(c, s);
      SubmitQueues(c, s);
    case Connects => FillKeeps(c.(link := Connected, sent := []));
    case TimerGoes(id) => TimerKeeps(c, id);
    case Receives(reply, nested, drops) => ResponseKeeps(c, reply, nested, drops);
    case Errs(why, script) => ErrorAnswersAll(c, why, script);
  }

  lemma {:induction false} ClientRunKeeps(c: Client, events: seq<ClientEvent>)
    requires ClientInv(c) && MayClientRun(c, events)
    ensures ClientInv(ClientRun(c, events))
    decreases |events|
  {
    if events != [] {
      ClientStepKeeps(c, events[0]);
      ClientRunKeeps(ClientStep(c, events[0]), events[1..]);
    }
  }

  lemma {:induction false} NewClientInv(depth: nat)
    ensures ClientInv(NewClient(depth))
  {
    assert Requests([]) + ([] + []) == [];
  }

  /**
   Over every run: each submitted request is in exactly one of completed, in flight and buffered; the
   user was called once for each request that completed or timed out and for no other; at most
   depth + 2 requests are in flight, and none without a connection.
   */
  lemma ClientCallbacks(depth: nat, events: seq<ClientEvent>)
    requires MayClientRun(NewClient(depth), events)
    ensures var c := ClientRun(NewClient(depth), events);
      && Distinct(c.submitted)
      && multiset(c.submitted) == multiset(Requests(c.completed)) + multiset(c.inFlight) + multiset(c.buffer)
      && CalledOnce(c.userCalls, c.completed, c.fired, c.timed)
      && |c.inFlight| <= c.depth + 2 && (c.link != Connected ==> c.inFlight == [])
  {
    NewClientInv(depth);
    ClientRunKeeps(NewClient(depth), events);
  }

  // ---------------------------------------------------------------- what goes wrong

  const A := Request(0, false, false, false)
  const B := Request(1, false, false, false)
  const X := Request(2, false, false, false)

  function Plain(r: Request): Submission {
    Submission(r, false)
  }

  lemma OneClientStep(c: Client, e: ClientEvent, rest: seq<ClientEvent>)
    requires MayClientStep(c, e)
    ensures MayClientRun(c, [e] + rest) <==> MayClientRun(ClientStep(c, e), rest)
    ensures MayClientRun(c, [e] + rest) ==> ClientRun(c, [e] + rest) == ClientRun(ClientStep(c, e), rest)
  {
    assert ([e] + rest)[1..] == rest;
  }

  /** A client of depth 0 with request A on the wire and nothing waiting. */
  const WAITING := NewClient(0).(link := Connected, sent := [A], inFlight := [A], submitted := [A])

  /** From a new client: A is submitted and sent as soon as the connection is up. */
  lemma {:induction false} Waits(rest: seq<ClientEvent>)
    ensures var events := [Submits(Plain(A))] + ([Connects] + rest);
      && (MayClientRun(NewClient(0), events) <==> MayClientRun(WAITING, rest))
      && (MayClientRun(WAITING, rest) ==> ClientRun(NewClient(0), events) == ClientRun(WAITING, rest))
  {
    var c1 := Submit(NewClient(0), Plain(A));
    assert c1.buffer == [A] && c1.submitted == [A] && c1.timed == {};
    var start := c1.(link := Connected, sent := []);
    assert start.sent + [A] == [A] && start.inFlight + [A] == [A] && start.buffer[1..] == [];
    assert Promote(start).inFlight == [A] && Fill(Promote(start)) == Promote(start);
    assert Connect(c1) == WAITING;
    OneClientStep(NewClient(0), Submits(Plain(A)), [Connects] + rest);
    OneClientStep(c1, Connects, rest);
  }

  lemma {:induction false} BothSubmitted(reply: Reply)
    ensures var e := Receives(reply, [Plain(B), Plain(X)], false);
      && MayClientStep(WAITING, e) && Overfills(WAITING, e.nested)
      && ClientStep(WAITING, e).inFlight == [B, X]
  {
    assert WAITING.inFlight[1..] == [];
    var c1 := RunCallback(WAITING.(inFlight := []), A, Ok(reply));
    var c2 := Submit(c1, Plain(B));
    assert c2.inFlight == [B] && c2.sent == [A, B];
    var c3 := Submit(c2, Plain(X));
    assert c3.inFlight == [B] && c3.buffer == [X];
    assert [Plain(B), Plain(X)][1..] == [Plain(X)] && [Plain(X)][1..] == [];
    assert SubmitAll(c2, [Plain(X)]) == SubmitAll(c3, []);
    assert SubmitAll(c1, [Plain(B), Plain(X)]) == c3;
    assert Promote(c3).inFlight == [B, X];
  }

  /** From a new client with pipelining off: a callback that submits two requests puts both in flight at once. */
  lemma {:induction false} TwoInFlight(reply: Reply)
    ensures var events := [Submits(Plain(A))] + ([Connects] + [Receives(reply, [Plain(B), Plain(X)], false)]);
      MayClientRun(NewClient(0), events) && ClientRun(NewClient(0), events).inFlight == [B, X]
  {
    var e := Receives(reply, [Plain(B), Plain(X)], false);
    BothSubmitted(reply);
    assert [e][1..] == [];
    Waits([e]);
  }
}

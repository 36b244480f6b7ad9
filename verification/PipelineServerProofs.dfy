/** Order, drain and silence of the pipelining server, over every run. */
module PipelineServerProofs {
  import opened Wrappers
  import opened PipelineServer

  type Answers = map<nat, Reply>

  // ---------------------------------------------------------------- the invariant

  /** The reply is made for the request: headers only for HEAD, closing if it does not keep alive, in its version. */
  predicate Fits(r: Reply, req: Request) {
    r.close == req.close && r.head == req.head && r.http10 == req.http10
  }

  /** Request `i` was answered with `r`. */
  ghost predicate ReplyFor(received: seq<Request>, answers: Answers, i: nat, r: Reply)
    requires i < |received|
  {
    received[i].id in answers && r == answers[received[i].id] && Fits(r, received[i])
  }

  /** `rs` are the answers of the requests from `base` on. */
  ghost predicate Replies(received: seq<Request>, answers: Answers, base: nat, rs: seq<Reply>) {
    base + |rs| <= |received| && forall j :: 0 <= j < |rs| ==> ReplyFor(received, answers, base + j, rs[j])
  }

  /** Slot `s` is for request `i`, and holds its answer if there is one. */
  ghost predicate SlotFor(received: seq<Request>, answers: Answers, i: nat, s: Slot)
    requires i < |received|
  {
    s.req == received[i] && s.reply == Lookup(answers, s.req.id)
  }

  /** `p` holds the requests from `base` on. */
  ghost predicate Slots(received: seq<Request>, answers: Answers, base: nat, p: seq<Slot>) {
    base + |p| <= |received| && forall j :: 0 <= j < |p| ==> SlotFor(received, answers, base + j, p[j])
  }

  ghost predicate AnswersFit(received: seq<Request>, answers: Answers) {
    forall i :: 0 <= i < |received| && received[i].id in answers ==> Fits(answers[received[i].id], received[i])
  }

  predicate InQueue(queued: seq<(Request, Reply)>, id: nat) {
    exists i :: 0 <= i < |queued| && queued[i].0.id == id
  }

  /** Completions waiting in the loop's queue belong to distinct, called, unanswered requests. */
  ghost predicate QueueOk(received: seq<Request>, called: set<nat>, answers: Answers, queued: seq<(Request, Reply)>) {
    && (forall i :: 0 <= i < |queued| ==>
          && queued[i].0 in received && Fits(queued[i].1, queued[i].0)
          && queued[i].0.id in called && queued[i].0.id !in answers)
    && (forall i, j :: 0 <= i < j < |queued| ==> queued[i].0.id != queued[j].0.id)
  }

  ghost predicate CallsOk(received: seq<Request>, called: set<nat>, answers: Answers) {
    && answers.Keys <= called
    && (forall id :: id in called ==> exists i :: 0 <= i < |received| && received[i].id == id)
  }

  /** Every callback called so far was recorded or waits in the queue. */
  ghost predicate NoneLost(called: set<nat>, answers: Answers, queued: seq<(Request, Reply)>) {
    forall id :: id in called ==> id in answers || InQueue(queued, id)
  }

  ghost predicate LogOk(c: Conn) {
    && Distinct(c.received)
    && AnswersFit(c.received, c.answers)
    && QueueOk(c.received, c.called, c.answers, c.queued)
    && CallsOk(c.received, c.called, c.answers)
    && (c.open ==> NoneLost(c.called, c.answers, c.queued))
  }

  /** The first `n` requests are answered, and none but perhaps the last of them closes. */
  ghost predicate Prefix(received: seq<Request>, answers: Answers, n: nat) {
    && n <= |received|
    && (forall i :: 0 <= i < n ==> received[i].id in answers)
    && (forall i :: 0 <= i < n - 1 ==> !received[i].close)
  }

  /** The first `n` requests are exactly what is on the wire. */
  ghost predicate WroteFirst(c: Conn, n: nat) {
    Prefix(c.received, c.answers, n) && c.wire == Written(c.received, c.answers, n)
  }

  /** After `n` written requests come those in the response buffer, those in the deque, and `gap` not yet placed. */
  ghost predicate OpenOk(c: Conn, n: nat, start: nat, gap: nat) {
    && (n > 0 ==> n <= |c.received| && !c.received[n - 1].close)
    && |c.received| == n + |c.ready| + |c.pipeline| + gap
    && Replies(c.received, c.answers, n, c.ready)
    && Slots(c.received, c.answers, n + |c.ready|, c.pipeline)
    && (c.ready != [] ==> n >= start)
    && (c.pipeline != [] ==> (c.pipeline[0].reply.Some? <==> c.selfHead))
    && (c.selfHead ==> c.pipeline != [] && c.ready == [])
  }

  ghost predicate Blocked(c: Conn, n: nat) {
    n < |c.received| && c.received[n].id in c.answers && (n > 0 ==> !c.received[n - 1].close)
  }

  /**
   The invariant: `n` requests are written; `start` is where the running batch began; `gap` is 1
   while the running request is neither in the deque nor in the response buffer.
   */
  ghost predicate Body(c: Conn, n: nat, start: nat, gap: nat) {
    && WroteFirst(c, n)
    && start + gap <= |c.received|
    && (c.open ==> OpenOk(c, n, start, gap))
    && (c.selfHead ==> Blocked(c, n))
    && (!c.open && !c.selfHead ==> c.wire == Expected(c))
  }

  ghost predicate Inv(c: Conn, n: nat, start: nat, gap: nat) {
    LogOk(c) && Body(c, n, start, gap)
  }

  /** A connection that is no longer open was closed by a closing response. */
  ghost predicate Sealed(c: Conn, n: nat) {
    !c.open ==> 0 < n <= |c.received| && c.received[n - 1].close
  }

  /** The state between two events. */
  ghost predicate Idle(c: Conn, n: nat) {
    Inv(c, n, |c.received|, 0) && (c.open ==> c.ready == [])
  }

  // ---------------------------------------------------------------- the wire

  lemma {:induction false} WrittenFrame(r1: seq<Request>, a1: Answers, r2: seq<Request>, a2: Answers, n: nat)
    requires n <= |r1| && n <= |r2|
    requires forall i :: 0 <= i < n ==> r1[i] == r2[i] && Lookup(a1, r1[i].id) == Lookup(a2, r1[i].id)
    ensures Written(r1, a1, n) == Written(r2, a2, n)
  {
    if n > 0 {
      WrittenFrame(r1, a1, r2, a2, n - 1);
      assert r1[n - 1] == r2[n - 1];
    }
  }

  lemma Concat3<T>(a: seq<T>, b: seq<T>, c: seq<T>)
    ensures (a + b) + c == a + (b + c)
  {
  }

  lemma RepliesTail(received: seq<Request>, answers: Answers, n: nat, rs: seq<Reply>)
    requires Replies(received, answers, n, rs) && rs != []
    ensures ReplyFor(received, answers, n, rs[0])
    ensures Replies(received, answers, n + 1, rs[1..])
  {
    assert ReplyFor(received, answers, n + 0, rs[0]);
    forall j | 0 <= j < |rs[1..]| ensures ReplyFor(received, answers, n + 1 + j, rs[1..][j]) {
      assert ReplyFor(received, answers, n + (j + 1), rs[j + 1]);
    }
  }

  lemma RepliesAnswered(received: seq<Request>, answers: Answers, n: nat, rs: seq<Reply>)
    requires Replies(received, answers, n, rs)
    ensures forall i :: n <= i < n + |rs| ==> received[i].id in answers
  {
    forall i | n <= i < n + |rs| ensures received[i].id in answers {
      assert ReplyFor(received, answers, n + (i - n), rs[i - n]);
    }
  }

  lemma ClosesTail(rs: seq<Reply>)
    requires rs != []
    ensures Closes(rs) <==> rs[0].close || Closes(rs[1..])
  {
    if Closes(rs) && !rs[0].close {
      var i :| 0 <= i < |rs| && rs[i].close;
      assert rs[1..][i - 1].close;
    }
    if Closes(rs[1..]) {
      var i :| 0 <= i < |rs[1..]| && rs[1..][i].close;
      assert rs[i + 1].close;
    }
  }

  /** Requests `n` to `m` are answered and none but perhaps the last closes; `closes` says whether it does. */
  ghost predicate Stretch(received: seq<Request>, answers: Answers, n: nat, m: nat, closes: bool) {
    && n <= m <= |received|
    && (forall i :: n <= i < m ==> received[i].id in answers)
    && (forall i :: n <= i < m - 1 ==> !received[i].close)
    && (if closes then m > n && received[m - 1].close else m > n ==> !received[m - 1].close)
  }

  /** One more request in front of a stretch. */
  lemma {:induction false} StretchFirst(received: seq<Request>, answers: Answers, n: nat, m: nat, r: Reply,
                                        closes: bool)
    requires n < |received| && ReplyFor(received, answers, n, r) && !r.close
    requires Stretch(received, answers, n + 1, m, closes)
    ensures Stretch(received, answers, n, m, closes)
  {
  }

  lemma {:induction false} StretchOne(received: seq<Request>, answers: Answers, n: nat, r: Reply)
    requires n < |received| && ReplyFor(received, answers, n, r) && r.close
    ensures Stretch(received, answers, n, n + 1, true)
  {
  }

  lemma {:induction false} WrittenNext(received: seq<Request>, answers: Answers, n: nat, r: Reply)
    requires n < |received| && ReplyFor(received, answers, n, r)
    ensures Written(received, answers, n + 1) == Written(received, answers, n) + Emit(r)
  {
  }

  lemma {:induction false} EmitFirst(rs: seq<Reply>)
    requires rs != []
    ensures EmitUpTo(rs) == if rs[0].close then Emit(rs[0]) else Emit(rs[0]) + EmitUpTo(rs[1..])
  {
    assert Emit(rs[0]) + [] == Emit(rs[0]);
  }

  /** Sending the next replies in order extends what is written, up to the first closing one. */
  lemma {:induction false} SendExtends(received: seq<Request>, answers: Answers, n: nat, rs: seq<Reply>)
    returns (m: nat)
    requires Replies(received, answers, n, rs)
    ensures Stretch(received, answers, n, m, Closes(rs)) && m <= n + |rs|
    ensures Written(received, answers, n) + EmitUpTo(rs) == Written(received, answers, m)
    ensures !Closes(rs) ==> m == n + |rs|
    decreases |rs|
  {
    if rs == [] {
      m := n;
    } else {
      RepliesTail(received, answers, n, rs);
      ClosesTail(rs);
      WrittenNext(received, answers, n, rs[0]);
      EmitFirst(rs);
      if rs[0].close {
        m := n + 1;
        StretchOne(received, answers, n, rs[0]);
      } else {
        m := SendExtends(received, answers, n + 1, rs[1..]);
        StretchFirst(received, answers, n, m, rs[0], Closes(rs));
        Concat3(Written(received, answers, n), Emit(rs[0]), EmitUpTo(rs[1..]));
      }
    }
  }

  /** The middle piece moves to the front. */
  lemma Shift(all: seq<WireItem>, a: seq<WireItem>, b: seq<WireItem>, c: seq<WireItem>, bc: seq<WireItem>,
              ab: seq<WireItem>)
    requires all == a + bc && bc == b + c && ab == a + b
    ensures all == ab + c
  {
  }

  lemma {:induction false} ExpectedNext(received: seq<Request>, answers: Answers, n: nat)
    requires n < |received| && received[n].id in answers && !received[n].close
    ensures ExpectedFrom(received, answers, n) ==
      Emit(answers[received[n].id]) + ExpectedFrom(received, answers, n + 1)
    ensures Written(received, answers, n + 1) == Written(received, answers, n) + Emit(answers[received[n].id])
  {
  }

  /** The longest answered prefix, split at a point up to which everything is answered and nothing closes. */
  lemma {:induction false} ExpectedSplit(received: seq<Request>, answers: Answers, n: nat)
    requires n <= |received|
    requires forall i :: 0 <= i < n ==> received[i].id in answers && !received[i].close
    ensures ExpectedFrom(received, answers, 0) == Written(received, answers, n) + ExpectedFrom(received, answers, n)
  {
    if n > 0 {
      ExpectedSplit(received, answers, n - 1);
      ExpectedNext(received, answers, n - 1);
      Shift(ExpectedFrom(received, answers, 0), Written(received, answers, n - 1), Emit(answers[received[n - 1].id]),
            ExpectedFrom(received, answers, n), ExpectedFrom(received, answers, n - 1), Written(received, answers, n));
    }
  }

  /** Once a closing response is written, what is written is all that should be. */
  lemma {:induction false} ExpectedSealed(c: Conn, n: nat)
    requires WroteFirst(c, n) && 0 < n && c.received[n - 1].close
    ensures c.wire == Expected(c)
  {
    ExpectedSplit(c.received, c.answers, n - 1);
  }

  // ---------------------------------------------------------------- one more answer

  lemma {:induction false} SetReplyAt(p: seq<Slot>, k: nat, reply: Reply)
    requires k < |p|
    requires forall i :: 0 <= i < k ==> p[i].req.id != p[k].req.id
    ensures SetReply(p, p[k].req.id, reply) == p[k := p[k].(reply := Some(reply))]
  {
    if k > 0 {
      SetReplyAt(p[1..], k - 1, reply);
    }
  }

  lemma AnswerWritten(received: seq<Request>, answers: Answers, n: nat, id: nat, reply: Reply)
    requires Prefix(received, answers, n) && id !in answers
    ensures Prefix(received, answers[id := reply], n)
    ensures Written(received, answers[id := reply], n) == Written(received, answers, n)
  {
    WrittenFrame(received, answers, received, answers[id := reply], n);
  }

  lemma {:induction false} AnswerReplies(received: seq<Request>, answers: Answers, base: nat, rs: seq<Reply>, id: nat,
                                         reply: Reply)
    requires Replies(received, answers, base, rs) && id !in answers
    ensures Replies(received, answers[id := reply], base, rs)
  {
    forall j | 0 <= j < |rs| ensures ReplyFor(received, answers[id := reply], base + j, rs[j]) {
      assert ReplyFor(received, answers, base + j, rs[j]);
    }
  }

  /** Answering the request of slot `k`. */
  lemma {:induction false} AnswerSlot(received: seq<Request>, answers: Answers, base: nat, p: seq<Slot>, k: nat,
                                      reply: Reply)
    requires Distinct(received) && Slots(received, answers, base, p) && k < |p|
    ensures SetReply(p, p[k].req.id, reply) == p[k := p[k].(reply := Some(reply))]
    ensures Slots(received, answers[p[k].req.id := reply], base, SetReply(p, p[k].req.id, reply))
  {
    var id := p[k].req.id;
    forall i | 0 <= i < |p| && i != k ensures p[i].req.id != id {
      assert SlotFor(received, answers, base + i, p[i]) && SlotFor(received, answers, base + k, p[k]);
    }
    SetReplyAt(p, k, reply);
    var q := SetReply(p, id, reply);
    forall j | 0 <= j < |q| ensures SlotFor(received, answers[id := reply], base + j, q[j]) {
      assert SlotFor(received, answers, base + j, p[j]);
    }
  }

  /** The log around the completion of `req`: it was called, is answered by nobody and not queued. */
  ghost predicate Completing(c: Conn, req: Request, reply: Reply) {
    && Distinct(c.received) && AnswersFit(c.received, c.answers)
    && QueueOk(c.received, c.called, c.answers, c.queued)
    && CallsOk(c.received, c.called, c.answers)
    && NoneLost(c.called - {req.id}, c.answers, c.queued)
    && c.open && req in c.received && req.id in c.called && req.id !in c.answers
    && !InQueue(c.queued, req.id) && Fits(reply, req)
  }

  lemma CompletingKeepsLog(c: Conn, req: Request, reply: Reply)
    requires Completing(c, req, reply)
    ensures LogOk(c.(answers := c.answers[req.id := reply]))
  {
    var answers := c.answers[req.id := reply];
    forall i | 0 <= i < |c.received| && c.received[i].id in answers
      ensures Fits(answers[c.received[i].id], c.received[i])
    {
      if c.received[i].id == req.id {
        assert c.received[i] == req;
      }
    }
    forall i | 0 <= i < |c.queued| ensures c.queued[i].0.id !in answers {
      assert c.queued[i].0.id != req.id;
    }
  }

  /** Where an unanswered request of an open connection is. */
  lemma FindSlot(c: Conn, n: nat, start: nat, gap: nat, req: Request) returns (k: nat)
    requires WroteFirst(c, n) && OpenOk(c, n, start, gap)
    requires req.id !in c.answers && exists i :: 0 <= i < |c.received| - gap && c.received[i] == req
    ensures k < |c.pipeline| && c.pipeline[k].req == req && c.pipeline[k].reply.None?
    ensures c.received[n + |c.ready| + k] == req
  {
    var i :| 0 <= i < |c.received| - gap && c.received[i] == req;
    RepliesAnswered(c.received, c.answers, n, c.ready);
    k := i - n - |c.ready|;
    assert SlotFor(c.received, c.answers, n + |c.ready| + k, c.pipeline[k]);
  }

  /** `rs` are replies to send, and `q` the slots behind them. */
  ghost predicate Sendable(received: seq<Request>, answers: Answers, base: nat, rs: seq<Reply>, q: seq<Slot>) {
    && Replies(received, answers, base, rs)
    && Slots(received, answers, base + |rs|, q)
    && (q != [] ==> q[0].reply.None?)
  }

  /** The slots at the head that hold replies, and the rest. */
  lemma LeadingSplit(received: seq<Request>, answers: Answers, base: nat, p: seq<Slot>)
    requires Slots(received, answers, base, p) && AnswersFit(received, answers)
    ensures Sendable(received, answers, base, Leading(p), p[|Leading(p)|..])
  {
    var rs := Leading(p);
    forall j | 0 <= j < |rs| ensures ReplyFor(received, answers, base + j, rs[j]) {
      assert SlotFor(received, answers, base + j, p[j]);
    }
    var q := p[|rs|..];
    forall j | 0 <= j < |q| ensures SlotFor(received, answers, base + |rs| + j, q[j]) {
      assert SlotFor(received, answers, base + (|rs| + j), p[|rs| + j]);
    }
  }

  lemma PrefixExtends(received: seq<Request>, answers: Answers, n: nat, m: nat, closes: bool)
    requires Prefix(received, answers, n) && (n > 0 ==> !received[n - 1].close)
    requires Stretch(received, answers, n, m, closes)
    ensures Prefix(received, answers, m)
  {
  }

  /** What is written and whether the connection stays open, after sending. */
  lemma SendIs(c: Conn, n: nat, m: nat, rs: seq<Reply>)
    requires n <= m <= |c.received| && c.open && c.wire == Written(c.received, c.answers, n)
    requires Written(c.received, c.answers, n) + EmitUpTo(rs) == Written(c.received, c.answers, m)
    ensures Send(c, rs) == c.(wire := Written(c.received, c.answers, m), open := !Closes(rs))
  {
  }

  lemma {:induction false} SendCloses(c: Conn, n: nat, start: nat, rs: seq<Reply>) returns (m: nat)
    requires WroteFirst(c, n) && c.open && !c.selfHead && c.ready == [] && start <= |c.received|
    requires n > 0 ==> !c.received[n - 1].close
    requires Replies(c.received, c.answers, n, rs) && Closes(rs)
    ensures Body(Send(c, rs), m, start, 0) && Sealed(Send(c, rs), m)
  {
    m := SendExtends(c.received, c.answers, n, rs);
    PrefixExtends(c.received, c.answers, n, m, true);
    SendIs(c, n, m, rs);
    SentClosed(c.(wire := Written(c.received, c.answers, m), open := false), m, start);
  }

  lemma {:induction false} SendStays(c: Conn, n: nat, start: nat, rs: seq<Reply>) returns (m: nat)
    requires WroteFirst(c, n) && c.open && !c.selfHead && c.ready == [] && start <= |c.received|
    requires n > 0 ==> !c.received[n - 1].close
    requires |c.received| == n + |rs| + |c.pipeline|
    requires Replies(c.received, c.answers, n, rs) && Slots(c.received, c.answers, n + |rs|, c.pipeline)
    requires c.pipeline != [] ==> c.pipeline[0].reply.None?
    requires !Closes(rs)
    ensures Body(Send(c, rs), m, start, 0) && Sealed(Send(c, rs), m)
  {
    m := SendExtends(c.received, c.answers, n, rs);
    PrefixExtends(c.received, c.answers, n, m, false);
    SendIs(c, n, m, rs);
    SentOpen(c.(wire := Written(c.received, c.answers, m), open := true), m, start);
  }

  /** Sending `rs` when the slots behind them start with an unanswered request. */
  lemma {:induction false} SendKeeps(c: Conn, n: nat, start: nat, rs: seq<Reply>) returns (m: nat)
    requires WroteFirst(c, n) && c.open && !c.selfHead && c.ready == [] && start <= |c.received|
    requires n > 0 ==> !c.received[n - 1].close
    requires |c.received| == n + |rs| + |c.pipeline|
    requires Replies(c.received, c.answers, n, rs) && Slots(c.received, c.answers, n + |rs|, c.pipeline)
    requires c.pipeline != [] ==> c.pipeline[0].reply.None?
    ensures Body(Send(c, rs), m, start, 0) && Sealed(Send(c, rs), m)
  {
    if Closes(rs) {
      m := SendCloses(c, n, start, rs);
    } else {
      m := SendStays(c, n, start, rs);
    }
  }

  /** The first `m` requests are written, up to a closing one. */
  lemma {:induction false} SentClosed(c: Conn, m: nat, start: nat)
    requires WroteFirst(c, m) && !c.selfHead && c.ready == [] && start <= |c.received|
    requires !c.open && m > 0 && c.received[m - 1].close
    ensures Body(c, m, start, 0) && Sealed(c, m)
  {
    ExpectedSealed(c, m);
  }

  /** The first `m` requests are written, up to the slots. */
  lemma {:induction false} SentOpen(c: Conn, m: nat, start: nat)
    requires WroteFirst(c, m) && !c.selfHead && c.ready == [] && start <= |c.received|
    requires c.open && (m > 0 ==> !c.received[m - 1].close)
    requires |c.received| == m + |c.pipeline| && Slots(c.received, c.answers, m, c.pipeline)
    requires c.pipeline != [] ==> c.pipeline[0].reply.None?
    ensures Body(c, m, start, 0) && Sealed(c, m)
  {
  }

  /** Answering the head sends it with every answered request right behind it. */
  lemma DeliverShape(c: Conn, req: Request, reply: Reply)
    requires c.pipeline != [] && c.pipeline[0].req.id == req.id
    ensures
      var p := SetReply(c.pipeline, req.id, reply);
      var c1 := c.(answers := c.answers[req.id := reply], pipeline := p[|Leading(p)|..]);
      Deliver(c, req, reply) == Send(c1, Leading(p))
  {
    var p := SetReply(c.pipeline, req.id, reply);
    var rest := c.pipeline[1..];
    assert p[1..] == rest;
    assert Leading(p) == [reply] + Leading(rest);
    assert p[|Leading(p)|..] == rest[|Leading(rest)|..];
  }

  /** The deque once its head is answered: the replies to send, and the slots that stay. */
  lemma {:induction false} HeadAnswered(received: seq<Request>, answers: Answers, n: nat, p: seq<Slot>, id: nat,
                                        reply: Reply)
    requires Distinct(received) && Slots(received, answers, n, p) && p != [] && p[0].req.id == id
    requires AnswersFit(received, answers[id := reply])
    ensures var p1 := SetReply(p, id, reply);
      Sendable(received, answers[id := reply], n, Leading(p1), p1[|Leading(p1)|..])
  {
    AnswerSlot(received, answers, n, p, 0, reply);
    LeadingSplit(received, answers[id := reply], n, SetReply(p, id, reply));
  }

  lemma {:induction false} NothingReady(c: Conn, n: nat, start: nat)
    requires OpenOk(c, n, start, 0) && c.ready == []
    ensures Slots(c.received, c.answers, n, c.pipeline) && |c.received| == n + |c.pipeline|
  {
    assert n + |c.ready| == n;
  }

  lemma {:induction false} StillWritten(c: Conn, n: nat, id: nat, reply: Reply, c1: Conn)
    requires WroteFirst(c, n) && id !in c.answers
    requires c1.received == c.received && c1.wire == c.wire && c1.answers == c.answers[id := reply]
    ensures WroteFirst(c1, n)
  {
    AnswerWritten(c.received, c.answers, n, id, reply);
  }

  lemma {:induction false} DeliverAtHead(c: Conn, n: nat, start: nat, req: Request, reply: Reply) returns (m: nat)
    requires Distinct(c.received) && AnswersFit(c.received, c.answers[req.id := reply]) && req.id !in c.answers
    requires WroteFirst(c, n) && c.open && OpenOk(c, n, start, 0) && start <= |c.received|
    requires c.ready == [] && c.pipeline != [] && c.pipeline[0].req == req && !c.selfHead
    ensures Body(Deliver(c, req, reply), m, start, 0)
    ensures Sealed(Deliver(c, req, reply), m)
  {
    var p := SetReply(c.pipeline, req.id, reply);
    var rs := Leading(p);
    var c1 := c.(answers := c.answers[req.id := reply], pipeline := p[|rs|..]);
    NothingReady(c, n, start);
    StillWritten(c, n, req.id, reply, c1);
    HeadAnswered(c.received, c.answers, n, c.pipeline, req.id, reply);
    DeliverShape(c, req, reply);
    m := SendKeeps(c1, n, start, rs);
  }

  /** An answer stored in slot `k` of the deque. */
  lemma {:induction false} FillSlot(c: Conn, n: nat, start: nat, req: Request, reply: Reply, k: nat)
    requires Distinct(c.received) && req.id !in c.answers
    requires WroteFirst(c, n) && c.open && OpenOk(c, n, start, 0) && start <= |c.received|
    requires c.selfHead ==> Blocked(c, n)
    requires k < |c.pipeline| && c.pipeline[k].req == req
    requires k == 0 ==> c.ready == []
    ensures c.pipeline[0].req.id == req.id <==> k == 0
    ensures Body(c.(answers := c.answers[req.id := reply], pipeline := SetReply(c.pipeline, req.id, reply),
                    selfHead := c.selfHead || k == 0), n, start, 0)
  {
    AnswerWritten(c.received, c.answers, n, req.id, reply);
    AnswerReplies(c.received, c.answers, n, c.ready, req.id, reply);
    AnswerSlot(c.received, c.answers, n + |c.ready|, c.pipeline, k, reply);
    assert SlotFor(c.received, c.answers, n + |c.ready| + 0, c.pipeline[0]);
    assert SlotFor(c.received, c.answers, n + |c.ready| + k, c.pipeline[k]);
  }

  /** The running request, not yet placed, is answered into the response buffer. */
  lemma {:induction false} FillReady(c: Conn, n: nat, start: nat, req: Request, reply: Reply)
    requires Distinct(c.received) && req.id !in c.answers && Fits(reply, req)
    requires WroteFirst(c, n) && c.open && OpenOk(c, n, start, 1) && start + 1 <= |c.received|
    requires c.pipeline == [] && c.received[|c.received| - 1] == req
    ensures Body(c.(answers := c.answers[req.id := reply], ready := c.ready + [reply]), n, start, 0)
  {
    var answers, ready := c.answers[req.id := reply], c.ready + [reply];
    AnswerWritten(c.received, c.answers, n, req.id, reply);
    AnswerReplies(c.received, c.answers, n, c.ready, req.id, reply);
    forall j | 0 <= j < |ready| ensures ReplyFor(c.received, answers, n + j, ready[j]) {
      if j < |c.ready| {
        assert ReplyFor(c.received, answers, n + j, c.ready[j]);
      }
    }
  }

  lemma {:induction false} OneMoreSlot(received: seq<Request>, answers: Answers, base: nat, p: seq<Slot>, req: Request)
    requires Slots(received, answers, base, p) && base + |p| < |received| && received[base + |p|] == req
    requires req.id !in answers
    ensures Slots(received, answers, base, p + [Slot(req, None)])
  {
    var q := p + [Slot(req, None)];
    forall j | 0 <= j < |q| ensures SlotFor(received, answers, base + j, q[j]) {
      if j < |p| {
        assert SlotFor(received, answers, base + j, p[j]);
      }
    }
  }

  /** The running request, not yet placed, is appended to the deque. */
  lemma {:induction false} PushKeeps(c: Conn, n: nat, start: nat, req: Request)
    requires Body(c, n, start, 1) && c.received[|c.received| - 1] == req
    requires c.open ==> req.id !in c.answers
    ensures Body(Push(c, req), n, start, 0)
  {
    if c.open {
      OneMoreSlot(c.received, c.answers, n + |c.ready|, c.pipeline, req);
    }
  }

  // ---------------------------------------------------------------- one callback call

  lemma LogFrame(c: Conn, d: Conn)
    requires LogOk(c) && (d.open ==> c.open)
    requires d.received == c.received && d.answers == c.answers && d.called == c.called && d.queued == c.queued
    ensures LogOk(d)
  {
  }

  /** A first call puts its request in the state of being completed. */
  lemma StartCompleting(c: Conn, req: Request, reply: Reply)
    requires LogOk(c) && c.open && req in c.received && req.id !in c.called && Fits(reply, req)
    ensures Completing(c.(called := c.called + {req.id}), req, reply)
  {
    var called := c.called + {req.id};
    assert called - {req.id} == c.called;
    forall id | id in called ensures exists i :: 0 <= i < |c.received| && c.received[i].id == id {
      if id == req.id {
        var i :| 0 <= i < |c.received| && c.received[i] == req;
        assert c.received[i].id == id;
      }
    }
  }

  lemma EnqueueFindsAll(called: set<nat>, answers: Answers, queued: seq<(Request, Reply)>, req: Request, reply: Reply)
    requires NoneLost(called, answers, queued)
    ensures NoneLost(called + {req.id}, answers, queued + [(req, reply)])
  {
    var q := queued + [(req, reply)];
    forall id | id in called + {req.id} ensures id in answers || InQueue(q, id) {
      if id == req.id {
        assert q[|queued|].0.id == id;
      } else if id !in answers {
        var i :| 0 <= i < |queued| && queued[i].0.id == id;
        assert q[i].0.id == id;
      }
    }
  }

  /** A completion called from another thread waits in the loop's queue. */
  lemma EnqueueLog(c: Conn, req: Request, reply: Reply)
    requires LogOk(c) && c.open && req in c.received && req.id !in c.called && Fits(reply, req)
    ensures LogOk(c.(called := c.called + {req.id}, queued := c.queued + [(req, reply)]))
  {
    EnqueueFindsAll(c.called, c.answers, c.queued, req, reply);
    StartCompleting(c, req, reply);
  }

  /**
   What is known about the running request `r`; a placed one that can still answer does not head the
   deque behind a nonempty buffer.
   */
  ghost predicate Running(c: Conn, gap: nat, running: Option<Request>) {
    match running
    case None => gap == 0 && (c.open ==> c.ready == [])
    case Some(r) =>
      && gap <= 1
      && |c.received| > 0 && c.received[|c.received| - 1] == r
      && (c.open && gap == 1 ==> c.pipeline == [] && r.id !in c.answers)
      && (c.open && gap == 0 && c.ready != [] && c.pipeline != [] ==> c.pipeline[0].req.id != r.id)
  }

  /** A completion of an earlier request finds its slot, and nothing waits in the response buffer. */
  lemma DeliverFinds(c: Conn, n: nat, start: nat, gap: nat, running: Option<Request>, req: Request) returns (k: nat)
    requires Body(c, n, start, gap) && Running(c, gap, running) && c.open
    requires req in c.received[..start] && req.id !in c.answers
    ensures gap == 0 && c.ready == []
    ensures k < |c.pipeline| && c.pipeline[k].req == req && c.pipeline[k].reply.None?
  {
    var i :| 0 <= i < start && c.received[i] == req;
    k := FindSlot(c, n, start, gap, req);
  }

  lemma {:induction false} DeliverBody(c: Conn, n: nat, start: nat, req: Request, reply: Reply, k: nat) returns (m: nat)
    requires Distinct(c.received) && AnswersFit(c.received, c.answers[req.id := reply]) && req.id !in c.answers
    requires Body(c, n, start, 0) && c.open && c.ready == []
    requires k < |c.pipeline| && c.pipeline[k].req == req && c.pipeline[k].reply.None?
    ensures Body(Deliver(c, req, reply), m, start, 0)
    ensures Sealed(Deliver(c, req, reply), m)
    ensures c.selfHead ==> Deliver(c, req, reply).selfHead && Deliver(c, req, reply).wire == c.wire
  {
    m := n;
    if k == 0 {
      m := DeliverAtHead(c, n, start, req, reply);
    } else {
      FillSlot(c, n, start, req, reply, k);
    }
  }

  /** The log does not depend on how the answer travels. */
  lemma AnsweredLog(c: Conn, d: Conn, req: Request, reply: Reply)
    requires Completing(c, req, reply)
    requires d.received == c.received && d.answers == c.answers[req.id := reply]
    requires d.called == c.called && d.queued == c.queued
    ensures LogOk(d) && AnswersFit(c.received, c.answers[req.id := reply])
  {
    CompletingKeepsLog(c, req, reply);
    LogFrame(c.(answers := c.answers[req.id := reply]), d);
  }

  lemma {:induction false} DeliverFrame(c: Conn, req: Request, reply: Reply)
    ensures var d := Deliver(c, req, reply);
      && d.received == c.received && d.answers == c.answers[req.id := reply]
      && d.called == c.called && d.queued == c.queued && d.ready == c.ready
  {
  }

  lemma EmptyReadyRuns(c: Conn, d: Conn, running: Option<Request>)
    requires Running(c, 0, running) && d.received == c.received && d.ready == []
    ensures Running(d, 0, running)
  {
  }

  /** The completion of a request of an earlier batch, or between batches. */
  lemma DeliverKeeps(c: Conn, n: nat, start: nat, gap: nat, running: Option<Request>, req: Request, reply: Reply)
    returns (m: nat)
    requires Completing(c, req, reply) && Body(c, n, start, gap) && Running(c, gap, running)
    requires req in c.received[..start]
    ensures gap == 0
    ensures Inv(Deliver(c, req, reply), m, start, 0) && Sealed(Deliver(c, req, reply), m)
    ensures Running(Deliver(c, req, reply), 0, running)
    ensures c.selfHead ==> Deliver(c, req, reply).selfHead && Deliver(c, req, reply).wire == c.wire
  {
    var k := DeliverFinds(c, n, start, gap, running, req);
    DeliverFrame(c, req, reply);
    EmptyReadyRuns(c, Deliver(c, req, reply), running);
    AnsweredLog(c, Deliver(c, req, reply), req, reply);
    m := DeliverBody(c, n, start, req, reply, k);
  }

  /** The completion of the running request inside its own iteration. */
  lemma {:induction false} OwnKeeps(c: Conn, n: nat, start: nat, gap: nat, req: Request, reply: Reply)
    requires Completing(c, req, reply) && Body(c, n, start, gap) && Running(c, gap, Some(req))
    ensures var d := Own(c, req, reply);
      && Inv(d, n, start, 0) && Running(d, 0, Some(req)) && d.open
      && (c.selfHead ==> d.selfHead) && d.wire == c.wire
  {
    AnsweredLog(c, Own(c, req, reply), req, reply);
    if gap == 1 {
      FillReady(c, n, start, req, reply);
    } else {
      assert c.received[|c.received| - 1] == req;
      var k := FindSlot(c, n, start, gap, req);
      FillSlot(c, n, start, req, reply, k);
    }
    OwnRuns(c, gap, req, reply);
  }

  lemma OwnRuns(c: Conn, gap: nat, req: Request, reply: Reply)
    requires Running(c, gap, Some(req)) && c.received != []
    ensures Running(Own(c, req, reply), 0, Some(req))
  {
  }

  /** Calls and queued completions are invisible to everything but the log. */
  lemma CallsInvisible(c: Conn, called: set<nat>, queued: seq<(Request, Reply)>, n: nat, start: nat, gap: nat,
                       running: Option<Request>)
    requires Body(c, n, start, gap) && Running(c, gap, running)
    ensures Body(c.(called := called, queued := queued), n, start, gap)
    ensures Running(c.(called := called, queued := queued), gap, running)
    ensures Sealed(c, n) ==> Sealed(c.(called := called, queued := queued), n)
  {
  }

  /** A callback called in the loop thread, in its own iteration or for an earlier request. */
  lemma {:induction false} InLoopKeeps(c: Conn, n: nat, start: nat, gap: nat, running: Option<Request>, req: Request,
                                       reply: Reply)
    returns (d: Conn, m: nat, g: nat)
    requires Completing(c, req, reply) && Body(c, n, start, gap) && Running(c, gap, running)
    requires running == Some(req) || req in c.received[..start]
    ensures d == if running == Some(req) then Own(c, req, reply) else Deliver(c, req, reply)
    ensures g == if running == Some(req) then 0 else gap
    ensures Inv(d, m, start, g) && Running(d, g, running) && Sealed(d, m)
    ensures c.selfHead ==> d.selfHead && d.wire == c.wire
  {
    if running == Some(req) {
      d, m, g := Own(c, req, reply), n, 0;
      OwnKeeps(c, n, start, gap, req, reply);
    } else {
      d, g := Deliver(c, req, reply), gap;
      m := DeliverKeeps(c, n, start, gap, running, req, reply);
    }
  }

  lemma CallShape(c: Conn, running: Option<Request>, a: Act, req: Request, reply: Reply)
    requires a.resp.Some? && c.open && req == a.target && reply == MakeReply(req, a.resp.value)
    requires a.inLoop && (running.Some? && running.value.id == req.id ==> running.value == req)
    ensures
      var c1 := c.(called := c.called + {req.id});
      Call(c, running, a) == if running == Some(req) then Own(c1, req, reply) else Deliver(c1, req, reply)
    ensures running.Some? ==> (Syncs(c, running.value, a) <==> running == Some(req))
  {
  }

  lemma {:induction false} CallKeeps(c: Conn, n: nat, start: nat, gap: nat, running: Option<Request>, a: Act)
    returns (d: Conn, m: nat, g: nat)
    requires Inv(c, n, start, gap) && Running(c, gap, running) && MayCall(c, start, running, a)
    ensures d == Call(c, running, a)
    ensures g == if running.Some? && Syncs(c, running.value, a) then 0 else gap
    ensures Inv(d, m, start, g) && Running(d, g, running)
    ensures Sealed(c, n) ==> Sealed(d, m)
    ensures c.selfHead ==> d.selfHead && d.wire == c.wire
  {
    d, m, g := c, n, gap;
    if a.resp.Some? && c.open {
      var req, reply := a.target, MakeReply(a.target, a.resp.value);
      if !a.inLoop {
        d := c.(called := c.called + {req.id}, queued := c.queued + [(req, reply)]);
        EnqueueLog(c, req, reply);
        CallsInvisible(c, d.called, d.queued, n, start, gap, running);
      } else {
        var c1 := c.(called := c.called + {req.id});
        CallShape(c, running, a, req, reply);
        StartCompleting(c, req, reply);
        CallsInvisible(c, c1.called, c1.queued, n, start, gap, running);
        d, m, g := InLoopKeeps(c1, n, start, gap, running, req, reply);
      }
    }
  }

  // ---------------------------------------------------------------- one iteration

  lemma {:induction false} RunActsKeeps(c: Conn, n: nat, start: nat, r: Request, acts: seq<Act>, sync: bool)
    returns (d: Conn, m: nat, sync': bool)
    requires Inv(c, n, start, if sync then 0 else 1) && Running(c, if sync then 0 else 1, Some(r)) && Sealed(c, n)
    requires MayRunActs(c, start, r, acts)
    ensures (d, sync') == RunActs(c, r, acts, sync)
    ensures Inv(d, m, start, if sync' then 0 else 1) && Running(d, if sync' then 0 else 1, Some(r)) && Sealed(d, m)
    ensures c.selfHead ==> d.selfHead && d.wire == c.wire
    decreases |acts|
  {
    if acts == [] {
      d, m, sync' := c, n, sync;
    } else {
      var c1, n1, g := CallKeeps(c, n, start, if sync then 0 else 1, Some(r), acts[0]);
      d, m, sync' := RunActsKeeps(c1, n1, start, r, acts[1..], sync || Syncs(c, r, acts[0]));
    }
  }

  /** A new request enters the log. */
  lemma ReceiveLog(c: Conn, r: Request)
    requires LogOk(c) && !Known(c, r.id)
    ensures LogOk(c.(received := c.received + [r])) && r.id !in c.called && r.id !in c.answers
  {
    var d := c.(received := c.received + [r]);
    forall id | id in d.called ensures exists i :: 0 <= i < |d.received| && d.received[i].id == id {
      var i :| 0 <= i < |c.received| && c.received[i].id == id;
      assert d.received[i].id == id;
    }
    forall i, j | 0 <= i < j < |d.received| ensures d.received[i].id != d.received[j].id {
    }
  }

  lemma ReceiveSlots(received: seq<Request>, answers: Answers, n: nat, ready: seq<Reply>, p: seq<Slot>, r: Request)
    requires Replies(received, answers, n, ready) && Slots(received, answers, n + |ready|, p)
    ensures Replies(received + [r], answers, n, ready) && Slots(received + [r], answers, n + |ready|, p)
  {
    forall j | 0 <= j < |ready| ensures ReplyFor(received + [r], answers, n + j, ready[j]) {
      assert ReplyFor(received, answers, n + j, ready[j]);
    }
    forall j | 0 <= j < |p| ensures SlotFor(received + [r], answers, n + |ready| + j, p[j]) {
      assert SlotFor(received, answers, n + |ready| + j, p[j]);
    }
  }

  /** A new request that is not placed yet. */
  lemma {:induction false} ReceiveBody(c: Conn, n: nat, start: nat, r: Request)
    requires Body(c, n, start, 0) && Sealed(c, n)
    ensures Body(c.(received := c.received + [r]), n, start, 1)
    ensures Sealed(c.(received := c.received + [r]), n)
  {
    var d := c.(received := c.received + [r]);
    WrittenFrame(c.received, c.answers, d.received, d.answers, n);
    assert WroteFirst(d, n);
    if c.open {
      ReceiveSlots(c.received, c.answers, n, c.ready, c.pipeline, r);
    } else {
      ExpectedSealed(d, n);
    }
  }

  /** The request of an iteration, placed in the deque if that is not empty. */
  lemma {:induction false} EnterKeeps(c: Conn, n: nat, start: nat, r: Request) returns (d: Conn)
    requires Inv(c, n, start, 0) && Sealed(c, n) && !Known(c, r.id)
    ensures var c0 := c.(received := c.received + [r]); d == if c.pipeline != [] then Push(c0, r) else c0
    ensures var gap := if c.pipeline != [] then 0 else 1; Inv(d, n, start, gap) && Running(d, gap, Some(r))
    ensures Sealed(d, n) && r.id !in d.called && r.id !in d.answers
    ensures d.selfHead == c.selfHead && d.wire == c.wire
    ensures c.open && c.pipeline != [] ==> |d.pipeline| > 1 && d.pipeline[|d.pipeline| - 1].req == r
  {
    var c0 := c.(received := c.received + [r]);
    ReceiveLog(c, r);
    ReceiveBody(c, n, start, r);
    d := c0;
    if c.pipeline != [] {
      PushKeeps(c0, n, start, r);
      d := Push(c0, r);
      LogFrame(c0, d);
      NewcomerRuns(c, n, start, r, d);
    }
  }

  /** A request pushed behind others does not head the deque. */
  lemma NewcomerRuns(c: Conn, n: nat, start: nat, r: Request, d: Conn)
    requires Inv(c, n, start, 0) && !Known(c, r.id) && c.pipeline != []
    requires d == Push(c.(received := c.received + [r]), r)
    ensures Running(d, 0, Some(r))
  {
    if c.open {
      assert SlotFor(c.received, c.answers, n + |c.ready| + 0, c.pipeline[0]);
    }
  }

  lemma {:induction false} AdviseOpen(c: Conn, n: nat, start: nat, r: Request, reply: Reply, sync: bool)
    requires c.open && Body(c, n, start, if sync then 0 else 1) && Running(c, if sync then 0 else 1, Some(r))
    requires Distinct(c.received) && r.id !in c.answers && Fits(reply, r)
    requires sync ==> |c.pipeline| > 1 && c.pipeline[|c.pipeline| - 1].req == r
    ensures Body(AdviseReply(c, r, reply, sync), n, start, 0)
  {
    if sync {
      FillSlot(c, n, start, r, reply, |c.pipeline| - 1);
    } else {
      FillReady(c, n, start, r, reply);
    }
  }

  /** What an advice does with its reply. */
  function AdviseReply(c: Conn, r: Request, reply: Reply, sync: bool): Conn {
    var c1 := c.(answers := c.answers[r.id := reply]);
    if sync then c1.(pipeline := SetReply(c.pipeline, r.id, reply)) else c1.(ready := c.ready + [reply])
  }

  lemma {:induction false} AdviseKeeps(c: Conn, n: nat, start: nat, r: Request, resp: Response, sync: bool)
    requires Inv(c, n, start, if sync then 0 else 1) && Running(c, if sync then 0 else 1, Some(r)) && Sealed(c, n)
    requires r.id !in c.called && r.id !in c.answers
    requires c.open && sync ==> |c.pipeline| > 1 && c.pipeline[|c.pipeline| - 1].req == r
    ensures Inv(Advise(c, r, resp, sync), n, start, 0) && Sealed(Advise(c, r, resp, sync), n)
    ensures Advise(c, r, resp, sync).selfHead == c.selfHead && Advise(c, r, resp, sync).wire == c.wire
  {
    var reply, d := MakeReply(r, resp), Advise(c, r, resp, sync);
    if c.open {
      var c1 := c.(called := c.called + {r.id});
      assert c.received[|c.received| - 1] == r;
      StartCompleting(c, r, reply);
      AnsweredLog(c1, d, r, reply);
      CallsInvisible(c, c1.called, c1.queued, n, start, if sync then 0 else 1, Some(r));
      AdviseOpen(c1, n, start, r, reply, sync);
      assert d == AdviseReply(c1, r, reply, sync);
    } else {
      LogFrame(c, d);
    }
  }

  lemma HandlerKeeps(c: Conn, n: nat, start: nat, r: Request, acts: seq<Act>, sync: bool) returns (d: Conn, m: nat)
    requires Inv(c, n, start, if sync then 0 else 1) && Running(c, if sync then 0 else 1, Some(r)) && Sealed(c, n)
    requires MayRunActs(c, start, r, acts)
    ensures var ran := RunActs(c, r, acts, sync); d == if ran.1 then ran.0 else Push(ran.0, r)
    ensures Inv(d, m, start, 0) && Sealed(d, m)
    ensures c.selfHead ==> d.selfHead && d.wire == c.wire
  {
    var c2, n2, sync2 := RunActsKeeps(c, n, start, r, acts, sync);
    d, m := c2, n2;
    if !sync2 {
      d := Push(c2, r);
      PushKeeps(c2, n2, start, r);
      LogFrame(c2, d);
    }
  }

  lemma {:induction false} IterateKeeps(c: Conn, n: nat, start: nat, a: Arrival) returns (d: Conn, m: nat)
    requires Inv(c, n, start, 0) && Sealed(c, n) && MayIterate(c, start, a)
    ensures d == Iterate(c, a)
    ensures Inv(d, m, start, 0) && Sealed(d, m)
    ensures c.selfHead ==> d.selfHead && d.wire == c.wire
  {
    var c1 := EnterKeeps(c, n, start, a.req);
    match a.handling
    case Advice(resp) =>
      d, m := Advise(c1, a.req, resp, c.pipeline != []), n;
      AdviseKeeps(c1, n, start, a.req, resp, c.pipeline != []);
    case Handler(acts) =>
      d, m := HandlerKeeps(c1, n, start, a.req, acts, c.pipeline != []);
  }

  // ---------------------------------------------------------------- batches and runs

  lemma {:induction false} BatchKeeps(c: Conn, n: nat, start: nat, batch: seq<Arrival>) returns (d: Conn, m: nat)
    requires Inv(c, n, start, 0) && Sealed(c, n) && MayLoop(c, start, batch)
    ensures d == BatchLoop(c, batch)
    ensures Inv(d, m, start, 0) && Sealed(d, m)
    ensures c.selfHead ==> d.selfHead && d.wire == c.wire
    decreases |batch|
  {
    if batch == [] {
      d, m := c, n;
    } else {
      var c1, n1 := IterateKeeps(c, n, start, batch[0]);
      d, m := BatchKeeps(c1, n1, start, batch[1..]);
    }
  }

  /** The response buffer and what lies behind it. */
  lemma {:induction false} ReadyToFlush(c: Conn, n: nat, start: nat, c1: Conn)
    requires Body(c, n, start, 0) && c.open && c.ready != [] && c1 == c.(ready := [])
    ensures WroteFirst(c1, n) && !c1.selfHead && (n > 0 ==> !c1.received[n - 1].close)
    ensures |c1.received| == n + |c.ready| + |c1.pipeline|
    ensures Replies(c1.received, c1.answers, n, c.ready) && Slots(c1.received, c1.answers, n + |c.ready|, c1.pipeline)
    ensures c1.pipeline != [] ==> c1.pipeline[0].reply.None?
  {
  }

  lemma {:induction false} FlushKeeps(c: Conn, n: nat, start: nat) returns (m: nat)
    requires Inv(c, n, start, 0)
    ensures Idle(FlushReady(c), m)
    ensures c.selfHead ==> FlushReady(c).selfHead && FlushReady(c).wire == c.wire
  {
    m := n;
    if c.open && c.ready != [] {
      var c1 := c.(ready := []);
      ReadyToFlush(c, n, start, c1);
      m := SendKeeps(c1, n, |c.received|, c.ready);
      LogFrame(c, Send(c1, c.ready));
      assert FlushReady(c) == Send(c1, c.ready);
    }
  }

  lemma {:induction false} OnRequestsKeeps(c: Conn, n: nat, batch: seq<Arrival>, parsed: nat, limits: Limits)
    returns (m: nat)
    requires Idle(c, n) && MayLoop(c, |c.received|, batch)
    ensures Idle(OnRequests(c, batch, parsed, limits), m)
    ensures c.selfHead ==>
      OnRequests(c, batch, parsed, limits).selfHead && OnRequests(c, batch, parsed, limits).wire == c.wire
  {
    m := n;
    if batch == [] {
    } else if OverLimit(c, |batch|, parsed, limits) {
      var d := c.(stopped := true, open := false);
      LogFrame(c, d);
      IdleWire(c, n);
    } else if c.open {
      var c1, n1 := BatchKeeps(c, n, |c.received|, batch);
      m := FlushKeeps(c1, n1, |c.received|);
    }
  }

  /** What can still be written after an unblocked, open connection has written `n` replies. */
  lemma NothingMore(c: Conn, n: nat)
    requires WroteFirst(c, n) && OpenOk(c, n, |c.received|, 0) && c.ready == [] && !c.selfHead
    ensures ExpectedFrom(c.received, c.answers, n) == []
  {
    if n < |c.received| {
      assert SlotFor(c.received, c.answers, n + 0, c.pipeline[0]);
    }
  }

  /**
   Between events, what is on the wire is all that should be, unless a callback ran while its request
   headed the deque.
   */
  lemma IdleWire(c: Conn, n: nat)
    requires Idle(c, n)
    ensures c.wire == Expected(c) <==> !c.selfHead
  {
    if c.selfHead {
      ExpectedSplit(c.received, c.answers, n);
    } else if c.open {
      NothingMore(c, n);
      ExpectedSplit(c.received, c.answers, n);
    }
  }

  lemma RunQueuedKeeps(c: Conn, n: nat) returns (m: nat)
    requires Idle(c, n)
    ensures Idle(RunQueued(c), m)
    ensures c.selfHead ==> RunQueued(c).selfHead && RunQueued(c).wire == c.wire
  {
    m := n;
    if c.queued != [] {
      var (req, reply) := c.queued[0];
      var c1 := c.(queued := c.queued[1..]);
      CallsInvisible(c, c.called, c1.queued, n, |c.received|, 0, None);
      DequeueLog(c);
      if c.open {
        m := DeliverKeeps(c1, n, |c.received|, 0, None, req, reply);
      }
    }
  }

  /** The oldest queued completion leaves the queue. */
  lemma DequeueLog(c: Conn)
    requires LogOk(c) && c.queued != []
    ensures var (req, reply), c1 := c.queued[0], c.(queued := c.queued[1..]);
      && (c.open ==> Completing(c1, req, reply))
      && (!c.open ==> LogOk(c1))
      && req in c.received[..|c.received|]
  {
    var (req, reply) := c.queued[0];
    var q := c.queued[1..];
    assert c.received[..|c.received|] == c.received;
    forall i | 0 <= i < |q| ensures q[i] == c.queued[i + 1] && q[i].0.id != req.id {
    }
    forall id | c.open && id in c.called - {req.id} ensures id in c.answers || InQueue(q, id) {
      if id !in c.answers {
        var i :| 0 <= i < |c.queued| && c.queued[i].0.id == id;
        assert q[i - 1].0.id == id;
      }
    }
  }

  lemma StepKeeps(c: Conn, n: nat, e: Event, limits: Limits) returns (m: nat)
    requires Idle(c, n) && MayStep(c, e)
    ensures Idle(Step(c, e, limits), m)
    ensures c.selfHead ==> Step(c, e, limits).selfHead && Step(c, e, limits).wire == c.wire
  {
    match e
    case Arrive(batch, parsed) => m := OnRequestsKeeps(c, n, batch, parsed, limits);
    case Complete(act) => var d, m', g := CallKeeps(c, n, |c.received|, 0, None, act); m := m';
    case LoopTurn => m := RunQueuedKeeps(c, n);
  }

  lemma {:induction false} RunKeeps(c: Conn, n: nat, events: seq<Event>, limits: Limits) returns (m: nat)
    requires Idle(c, n) && MayRun(c, events, limits)
    ensures Idle(Run(c, events, limits), m)
    ensures c.selfHead ==> Run(c, events, limits).selfHead && Run(c, events, limits).wire == c.wire
    decreases |events|
  {
    m := n;
    if events != [] {
      m := StepKeeps(c, n, events[0], limits);
      m := RunKeeps(Step(c, events[0], limits), m, events[1..], limits);
    }
  }

  // ---------------------------------------------------------------- answers come from the handlers

  type Offer = (nat, Reply)

  function ActOffers(acts: seq<Act>): set<Offer> {
    set a | a in acts && a.resp.Some? :: (a.target.id, MakeReply(a.target, a.resp.value))
  }

  function ArrivalOffers(a: Arrival): set<Offer> {
    match a.handling
    case Advice(resp) => {(a.req.id, MakeReply(a.req, resp))}
    case Handler(acts) => ActOffers(acts)
  }

  function BatchOffers(batch: seq<Arrival>): set<Offer> {
    set a, o | a in batch && o in ArrivalOffers(a) :: o
  }

  /** The responses that handlers and advices of an event give, by request. */
  function EventOffers(e: Event): set<Offer> {
    match e
    case Arrive(batch, _) => BatchOffers(batch)
    case Complete(act) => ActOffers([act])
    case LoopTurn => {}
  }

  function RunOffers(events: seq<Event>): set<Offer> {
    set e, o | e in events && o in EventOffers(e) :: o
  }

  /** Every recorded answer, and every completion in the loop's queue, is one of `offers`. */
  ghost predicate From(c: Conn, offers: set<Offer>) {
    && (forall id :: id in c.answers ==> (id, c.answers[id]) in offers)
    && (forall i :: 0 <= i < |c.queued| ==> (c.queued[i].0.id, c.queued[i].1) in offers)
  }

  /** Recording one offered answer. */
  lemma AnswerFrom(c: Conn, d: Conn, id: nat, reply: Reply, offers: set<Offer>)
    requires From(c, offers) && (id, reply) in offers
    requires d.answers == c.answers[id := reply] && d.queued == c.queued
    ensures From(d, offers)
  {
  }

  lemma CallFrom(c: Conn, running: Option<Request>, a: Act, offers: set<Offer>)
    requires From(c, offers) && ActOffers([a]) <= offers
    ensures From(Call(c, running, a), offers)
  {
    if a.resp.Some? && c.open {
      var reply, d := MakeReply(a.target, a.resp.value), Call(c, running, a);
      assert a in [a];
      assert (a.target.id, reply) in offers;
      if a.inLoop {
        DeliverFrame(c.(called := c.called + {a.target.id}), a.target, reply);
        AnswerFrom(c, d, a.target.id, reply, offers);
      }
    }
  }

  lemma {:induction false} RunActsFrom(c: Conn, r: Request, acts: seq<Act>, sync: bool, offers: set<Offer>)
    requires From(c, offers) && ActOffers(acts) <= offers
    ensures From(RunActs(c, r, acts, sync).0, offers)
    decreases |acts|
  {
    if acts != [] {
      assert ActOffers([acts[0]]) <= ActOffers(acts);
      assert ActOffers(acts[1..]) <= ActOffers(acts);
      CallFrom(c, Some(r), acts[0], offers);
      RunActsFrom(Call(c, Some(r), acts[0]), r, acts[1..], sync || Syncs(c, r, acts[0]), offers);
    }
  }

  lemma {:induction false} BatchFrom(c: Conn, batch: seq<Arrival>, offers: set<Offer>)
    requires From(c, offers) && BatchOffers(batch) <= offers
    ensures From(BatchLoop(c, batch), offers)
    decreases |batch|
  {
    if batch != [] {
      var a := batch[0];
      assert ArrivalOffers(a) <= BatchOffers(batch);
      assert BatchOffers(batch[1..]) <= BatchOffers(batch);
      if a.handling.Handler? {
        var sync := c.pipeline != [];
        var c0 := c.(received := c.received + [a.req]);
        RunActsFrom(if sync then Push(c0, a.req) else c0, a.req, a.handling.acts, sync, offers);
      }
      BatchFrom(Iterate(c, a), batch[1..], offers);
    }
  }

  lemma StepFrom(c: Conn, e: Event, limits: Limits, offers: set<Offer>)
    requires From(c, offers) && EventOffers(e) <= offers
    ensures From(Step(c, e, limits), offers)
  {
    match e
    case Arrive(batch, _) => BatchFrom(c, batch, offers);
    case Complete(act) => CallFrom(c, None, act, offers);
    case LoopTurn =>
      if c.queued != [] {
        assert (c.queued[0].0.id, c.queued[0].1) in offers;
        DeliverFrame(c.(queued := c.queued[1..]), c.queued[0].0, c.queued[0].1);
      }
  }

  lemma {:induction false} RunFrom(c: Conn, events: seq<Event>, limits: Limits, offers: set<Offer>)
    requires From(c, offers) && RunOffers(events) <= offers
    ensures From(Run(c, events, limits), offers)
    decreases |events|
  {
    if events != [] {
      assert EventOffers(events[0]) <= RunOffers(events);
      assert RunOffers(events[1..]) <= RunOffers(events);
      StepFrom(c, events[0], limits, offers);
      RunFrom(Step(c, events[0], limits), events[1..], limits, offers);
    }
  }

  // ---------------------------------------------------------------- main results

  /**
   Over every run: the wire holds the replies of the first `n` requests received, in the order they
   arrived and each once, nothing after a closing one; every reply is what a handler or advice gave
   for that request; and what is written is everything that can be written, exactly when no
   callback ever ran in its own iteration while its request headed the deque.
   */
  lemma ResponsesInOrder(events: seq<Event>, limits: Limits) returns (n: nat)
    requires MayRun(INITIAL, events, limits)
    ensures var c := Run(INITIAL, events, limits);
      && Distinct(c.received)
      && n <= |c.received|
      && c.wire == Written(c.received, c.answers, n)
      && (forall i :: 0 <= i < n ==>
            c.received[i].id in c.answers && (c.received[i].id, c.answers[c.received[i].id]) in RunOffers(events))
      && (forall i :: 0 <= i < n ==> Fits(c.answers[c.received[i].id], c.received[i]))
      && (forall i :: 0 <= i < n - 1 ==> !c.received[i].close)
      && (c.wire == Expected(c) <==> !c.selfHead)
  {
    n := RunKeeps(INITIAL, 0, events, limits);
    IdleWire(Run(INITIAL, events, limits), n);
    RunFrom(INITIAL, events, limits, RunOffers(events));
  }

  /** Once every received request is answered, nothing stays behind on an open connection. */
  lemma Drained(events: seq<Event>, limits: Limits)
    requires MayRun(INITIAL, events, limits)
    requires var c := Run(INITIAL, events, limits);
      c.open && !c.selfHead && forall i :: 0 <= i < |c.received| ==> c.received[i].id in c.answers
    ensures var c := Run(INITIAL, events, limits);
      c.pipeline == [] && c.ready == [] && c.wire == Written(c.received, c.answers, |c.received|)
  {
    var n := RunKeeps(INITIAL, 0, events, limits);
    AllAnswered(Run(INITIAL, events, limits), n);
  }

  lemma AllAnswered(c: Conn, n: nat)
    requires Idle(c, n) && c.open && !c.selfHead
    requires forall i :: 0 <= i < |c.received| ==> c.received[i].id in c.answers
    ensures c.pipeline == [] && n == |c.received|
  {
    HeadUnanswered(c, n);
  }

  lemma HeadUnanswered(c: Conn, n: nat)
    requires Idle(c, n) && c.open && !c.selfHead
    ensures c.pipeline != [] ==> n < |c.received| && c.received[n].id !in c.answers
  {
    if c.pipeline != [] {
      assert SlotFor(c.received, c.answers, n + 0, c.pipeline[0]);
    }
  }

  /**
   After a callback ran in its own iteration with its request at the head, the pipeline never writes
   again, though more should be written.
   */
  lemma SelfHeadSilences(before: seq<Event>, after: seq<Event>, limits: Limits)
    requires MayRun(INITIAL, before, limits) && Run(INITIAL, before, limits).selfHead
    requires MayRun(Run(INITIAL, before, limits), after, limits)
    ensures var c, d := Run(INITIAL, before, limits), Run(Run(INITIAL, before, limits), after, limits);
      d.wire == c.wire && d.wire != Expected(d)
  {
    var n := RunKeeps(INITIAL, 0, before, limits);
    var m := RunKeeps(Run(INITIAL, before, limits), n, after, limits);
    IdleWire(Run(Run(INITIAL, before, limits), after, limits), m);
  }

  // ---------------------------------------------------------------- when nothing can block

  /** In the loop thread, handlers complete no request but their own. */
  ghost predicate OwnOnly(r: Request, acts: seq<Act>) {
    forall a :: a in acts && a.inLoop ==> a.target.id == r.id
  }

  ghost predicate Separate(events: seq<Event>) {
    forall e, a :: e in events && e.Arrive? && a in e.batch && a.handling.Handler? ==> OwnOnly(a.req, a.handling.acts)
  }

  /** The running request does not head the deque. */
  ghost predicate Behind(c: Conn, r: Request) {
    !c.selfHead && (c.pipeline == [] || c.pipeline[0].req.id != r.id)
  }

  lemma {:induction false} OwnOnlyActs(c: Conn, r: Request, acts: seq<Act>, sync: bool)
    requires OwnOnly(r, acts) && Behind(c, r)
    ensures !RunActs(c, r, acts, sync).0.selfHead
    decreases |acts|
  {
    if acts != [] {
      var d := Call(c, Some(r), acts[0]);
      assert acts[0] in acts;
      assert Behind(d, r);
      OwnOnlyActs(d, r, acts[1..], sync || Syncs(c, r, acts[0]));
    }
  }

  /** A request that has just arrived does not head a deque that was not empty. */
  lemma NewcomerBehind(c: Conn, n: nat, r: Request, c1: Conn)
    requires OpenOk(c, n, 0, 0) && !c.selfHead && !Known(c, r.id)
    requires c1.selfHead == c.selfHead && c1.pipeline == if c.pipeline != [] then c.pipeline + [Slot(r, None)]
      else c.pipeline
    ensures Behind(c1, r)
  {
    if c.pipeline != [] {
      assert SlotFor(c.received, c.answers, n + |c.ready| + 0, c.pipeline[0]);
      assert c1.pipeline[0] == c.pipeline[0];
    }
  }

  lemma {:induction false} OwnOnlyIterate(c: Conn, n: nat, start: nat, a: Arrival)
    requires Inv(c, n, start, 0) && Sealed(c, n) && MayIterate(c, start, a) && !c.selfHead
    requires a.handling.Handler? ==> OwnOnly(a.req, a.handling.acts)
    ensures !Iterate(c, a).selfHead
  {
    if a.handling.Handler? {
      var c0 := c.(received := c.received + [a.req]);
      var c1 := if c.pipeline != [] then Push(c0, a.req) else c0;
      if c.open {
        NewcomerBehind(c, n, a.req, c1);
        OwnOnlyActs(c1, a.req, a.handling.acts, c.pipeline != []);
      } else {
        ClosedActs(c1, a.req, a.handling.acts, c.pipeline != []);
      }
    }
  }

  lemma {:induction false} OwnOnlyBatch(c: Conn, n: nat, start: nat, batch: seq<Arrival>)
    requires Inv(c, n, start, 0) && Sealed(c, n) && MayLoop(c, start, batch) && !c.selfHead
    requires forall a :: a in batch && a.handling.Handler? ==> OwnOnly(a.req, a.handling.acts)
    ensures !BatchLoop(c, batch).selfHead
    decreases |batch|
  {
    if batch != [] {
      OwnOnlyIterate(c, n, start, batch[0]);
      var d, m := IterateKeeps(c, n, start, batch[0]);
      OwnOnlyBatch(d, m, start, batch[1..]);
    }
  }

  lemma {:induction false} ClosedActs(c: Conn, r: Request, acts: seq<Act>, sync: bool)
    requires !c.open
    ensures RunActs(c, r, acts, sync).0 == c
    decreases |acts|
  {
    if acts != [] {
      ClosedActs(c, r, acts[1..], sync);
    }
  }

  lemma {:induction false} SeparateStep(c: Conn, n: nat, e: Event, limits: Limits)
    requires Idle(c, n) && MayStep(c, e) && !c.selfHead
    requires e.Arrive? ==> forall a :: a in e.batch && a.handling.Handler? ==> OwnOnly(a.req, a.handling.acts)
    ensures !Step(c, e, limits).selfHead
  {
    if e.Arrive? && c.open {
      OwnOnlyBatch(c, n, |c.received|, e.batch);
    }
  }

  lemma {:induction false} SeparateRun(c: Conn, n: nat, events: seq<Event>, limits: Limits)
    requires Idle(c, n) && MayRun(c, events, limits) && Separate(events) && !c.selfHead
    ensures !Run(c, events, limits).selfHead
    decreases |events|
  {
    if events != [] {
      assert events[0] in events;
      SeparateStep(c, n, events[0], limits);
      var m := StepKeeps(c, n, events[0], limits);
      assert Separate(events[1..]);
      SeparateRun(Step(c, events[0], limits), m, events[1..], limits);
    }
  }

  /**
   If no handler completes an earlier request in the loop thread during its own iteration, everything
   that can be written is.
   */
  lemma SeparateHandlersNeverBlock(events: seq<Event>, limits: Limits)
    requires MayRun(INITIAL, events, limits) && Separate(events)
    ensures Run(INITIAL, events, limits).wire == Expected(Run(INITIAL, events, limits))
  {
    SeparateRun(INITIAL, 0, events, limits);
    var n := ResponsesInOrder(events, limits);
  }

  const A := Request(0, false, false, false)
  const B := Request(1, false, false, false)
  const REPLY_A := Reply(Response("a", ""), false, false, false)
  const REPLY_B := Reply(Response("b", ""), false, false, false)
  const PENDING := Arrive([Arrival(A, Handler([]))], 1)
  const BLOCKING := [Act(A, Some(REPLY_A.resp), true), Act(B, Some(REPLY_B.resp), true)]
  const AWAITING := INITIAL.(received := [A], pipeline := [Slot(A, None)])
  const SILENT := Conn([Slot(B, Some(REPLY_B))], [], [], [Full(REPLY_A.resp, false, false)], true, false, [A, B],
                       {0, 1}, map[0 := REPLY_A, 1 := REPLY_B], true)

  lemma PendingStep(none: Limits)
    requires none == Limits(0, 0)
    ensures MayStep(INITIAL, PENDING) && Step(INITIAL, PENDING, none) == AWAITING
  {
    assert INITIAL.received + [A] == [A];
    assert INITIAL.pipeline + [Slot(A, None)] == [Slot(A, None)];
    assert Iterate(INITIAL, PENDING.batch[0]) == AWAITING;
    assert PENDING.batch[1..] == [];
    assert BatchLoop(INITIAL, PENDING.batch) == BatchLoop(AWAITING, []);
    assert OnRequests(INITIAL, PENDING.batch, 1, none) == AWAITING;
  }

  lemma BlockingActs(c: Conn)
    requires c == AWAITING.(received := [A, B], pipeline := [Slot(A, None), Slot(B, None)])
    ensures MayRunActs(c, 1, B, BLOCKING) && RunActs(c, B, BLOCKING, true) == (SILENT, true)
  {
    var rest := c.pipeline[1..];
    assert rest == [Slot(B, None)] && Leading(rest) == [] && rest[|Leading(rest)|..] == rest;
    assert [REPLY_A] + Leading(rest) == [REPLY_A] && EmitUpTo([REPLY_A]) == [Full(REPLY_A.resp, false, false)];
    assert c.wire + [Full(REPLY_A.resp, false, false)] == [Full(REPLY_A.resp, false, false)];
    var d := c.(pipeline := [Slot(B, None)], called := {0}, answers := map[0 := REPLY_A],
      wire := [Full(REPLY_A.resp, false, false)]);
    assert Call(c, Some(B), BLOCKING[0]) == d;
    assert SetReply(d.pipeline, 1, REPLY_B) == SILENT.pipeline;
    assert d.called + {1} == {0, 1};
    assert Call(d, Some(B), BLOCKING[1]) == SILENT;
    assert BLOCKING[1..] == [BLOCKING[1]] && BLOCKING[1..][1..] == [];
    assert c.received[..1] == [A];
    assert RunActs(d, B, BLOCKING[1..], true) == (SILENT, true);
  }

  /** A handler that answers the one pending request and then its own: its own response is never written. */
  lemma {:induction false} HandlerThatBlocks()
    ensures
      var events, c := [PENDING, Arrive([Arrival(B, Handler(BLOCKING))], 2)], SILENT;
      && MayRun(INITIAL, events, Limits(0, 0)) && Run(INITIAL, events, Limits(0, 0)) == c
      && c.open && c.wire == [Full(REPLY_A.resp, false, false)]
          && Expected(c) == [Full(REPLY_A.resp, false, false), Full(REPLY_B.resp, false, false)]
  {
    var none := Limits(0, 0);
    var e := Arrive([Arrival(B, Handler(BLOCKING))], 2);
    PendingStep(none);
    BlockingStep(e, none);
    assert [PENDING, e][1..] == [e] && [e][1..] == [];
    assert Run(AWAITING, [e], none) == SILENT && MayRun(AWAITING, [e], none);
    assert ExpectedFrom([A, B], SILENT.answers, 1) == [Full(REPLY_B.resp, false, false)];
  }

  lemma {:induction false} BlockingStep(e: Event, none: Limits)
    requires none == Limits(0, 0) && e == Arrive([Arrival(B, Handler(BLOCKING))], 2)
    ensures MayStep(AWAITING, e) && Step(AWAITING, e, none) == SILENT
  {
    assert AWAITING.received + [B] == [A, B];
    assert AWAITING.pipeline + [Slot(B, None)] == [Slot(A, None), Slot(B, None)];
    BlockingActs(AWAITING.(received := [A, B], pipeline := [Slot(A, None), Slot(B, None)]));
    assert Iterate(AWAITING, e.batch[0]) == SILENT;
    assert e.batch[1..] == [];
    assert BatchLoop(AWAITING, e.batch) == BatchLoop(SILENT, []);
    assert OnRequests(AWAITING, e.batch, 2, none) == SILENT;
    assert !Known(AWAITING, 1);
  }
}

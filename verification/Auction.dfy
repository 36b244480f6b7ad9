/**
 The auction as threads run it: RtbCtrl's guard, the scan, the draw and the payment of
 CampagnesManager::SelectCampagne.
 */
module Auction {
  import opened Wrappers
  import opened Campagne
  import Draw

  /** What a request turns out to be: unusable, or read into a bid request. */
  datatype Input = Unusable | Read(r: BidRequest)

  /** The answer to the n-th arrival: 200 with the campaign that pays, or 204. */
  datatype Reply = Won(n: nat, r: BidRequest, i: nat) | NoContent(n: nat)

  /** Where the thread that serves the n-th arrival is between two locks: scanning, reading weights, or about to pay. */
  datatype Phase =
    | Scanning(n: nat, r: BidRequest, next: nat, found: seq<nat>)
    | Weighing(n: nat, r: BidRequest, found: seq<nat>, weights: seq<real>)
    | Paying(n: nat, r: BidRequest, i: nat)

  datatype Market = Market(budgets: seq<real>, threads: map<nat, Phase>, arrivals: seq<Input>, replies: seq<Reply>)

  /** A request reaches a free thread, or a thread does its next piece of work; `draw` is used if that is a draw. */
  datatype Event = Arrive(thread: nat, input: Input) | Turn(thread: nat, draw: int)

  /** RtbCtrl's check of the mandatory fields. */
  predicate Admitted(r: BidRequest) {
    r.id != "" && r.lang != "" && r.bidFloor != 0.0 && r.width != 0 && r.height != 0
  }

  predicate ValidTerms(ts: seq<Terms>) {
    forall i :: 0 <= i < |ts| ==> ts[i].width != 0 && ts[i].bidPrice > 0.0
  }

  predicate Eligible(t: Terms, budget: real, r: BidRequest)
    requires t.width != 0 && r.width != 0
  {
    Suits(t, r) && budget >= t.bidPrice
  }

  // ---------------------------------------------------------------- invariants of single parts

  predicate Candidate(ts: seq<Terms>, r: BidRequest, i: nat)
    requires ValidTerms(ts)
  {
    i < |ts| && Admitted(r) && Suits(ts[i], r)
  }

  predicate PhaseOk(ts: seq<Terms>, p: Phase)
    requires ValidTerms(ts)
  {
    && Admitted(p.r)
    && match p
       case Scanning(n, r, next, found) => next <= |ts| && forall x :: x in found ==> Candidate(ts, r, x)
       case Weighing(n, r, found, weights) =>
         && |found| >= 2 && |weights| <= |found|
         && (forall x :: x in found ==> Candidate(ts, r, x))
       case Paying(n, r, i) => Candidate(ts, r, i)
  }

  predicate ReplyOk(ts: seq<Terms>, reply: Reply)
    requires ValidTerms(ts)
  {
    reply.Won? ==> Candidate(ts, reply.r, reply.i)
  }

  predicate Shaped(ts: seq<Terms>, m: Market)
    requires ValidTerms(ts)
  {
    && |m.budgets| == |ts|
    && (forall t :: t in m.threads ==> PhaseOk(ts, m.threads[t]))
    && (forall k :: 0 <= k < |m.replies| ==> ReplyOk(ts, m.replies[k]))
  }

  // ---------------------------------------------------------------- the steps

  function Answer(m: Market, t: nat, reply: Reply): Market {
    m.(threads := m.threads - {t}, replies := m.replies + [reply])
  }

  function Put(m: Market, t: nat, p: Phase): Market {
    m.(threads := m.threads[t := p])
  }

  /** One campaign, under its lock. */
  function ScanOne(ts: seq<Terms>, m: Market, t: nat, p: Phase): Market
    requires ValidTerms(ts) && |m.budgets| == |ts| && PhaseOk(ts, p) && p.Scanning? && p.next < |ts|
  {
    Put(m, t, p.(next := p.next + 1,
                 found := if Eligible(ts[p.next], m.budgets[p.next], p.r) then p.found + [p.next] else p.found))
  }

  function ScanDone(m: Market, t: nat, p: Phase): Market
    requires p.Scanning?
  {
    if p.found == [] then Answer(m, t, NoContent(p.n))
    else if |p.found| == 1 then Put(m, t, Paying(p.n, p.r, p.found[0]))
    else Put(m, t, Weighing(p.n, p.r, p.found, []))
  }

  /** Reads one budget under its lock, or draws once all are read. */
  function Weigh(ts: seq<Terms>, m: Market, t: nat, p: Phase, draw: int): Market
    requires ValidTerms(ts) && |m.budgets| == |ts| && PhaseOk(ts, p) && p.Weighing?
  {
    var k := |p.weights|;
    if k < |p.found| then
      assert p.found[k] in p.found;
      Put(m, t, p.(weights := p.weights + [m.budgets[p.found[k]]]))
    else Put(m, t, Paying(p.n, p.r, p.found[Draw.Pick(p.weights, draw)]))
  }

  /** Checks the budget again and takes the price, under the lock. */
  function Pay(ts: seq<Terms>, m: Market, t: nat, p: Phase): Market
    requires ValidTerms(ts) && |m.budgets| == |ts| && PhaseOk(ts, p) && p.Paying?
  {
    var price := ts[p.i].bidPrice;
    if m.budgets[p.i] >= price then
      Answer(m.(budgets := m.budgets[p.i := m.budgets[p.i] - price]), t, Won(p.n, p.r, p.i))
    else Answer(m, t, NoContent(p.n))
  }

  function TakeTurn(ts: seq<Terms>, m: Market, t: nat, draw: int): Market
    requires ValidTerms(ts) && Shaped(ts, m) && t in m.threads
  {
    var p := m.threads[t];
    match p
    case Scanning(_, _, next, _) => if next < |ts| then ScanOne(ts, m, t, p) else ScanDone(m, t, p)
    case Weighing(_, _, _, _) => Weigh(ts, m, t, p, draw)
    case Paying(_, _, _) => Pay(ts, m, t, p)
  }

  function Receive(m: Market, t: nat, input: Input): Market {
    var m1, n := m.(arrivals := m.arrivals + [input]), |m.arrivals|;
    if input.Read? && Admitted(input.r) then Put(m1, t, Scanning(n, input.r, 0, []))
    else m1.(replies := m.replies + [NoContent(n)])
  }

  /** A busy thread takes no request, and a free one has no turn. */
  function Step(ts: seq<Terms>, m: Market, e: Event): Market
    requires ValidTerms(ts) && Shaped(ts, m)
  {
    match e
    case Arrive(t, input) => if t in m.threads then m else Receive(m, t, input)
    case Turn(t, draw) => if t in m.threads then TakeTurn(ts, m, t, draw) else m
  }

  lemma AnswerShaped(ts: seq<Terms>, m: Market, t: nat, reply: Reply)
    requires ValidTerms(ts) && Shaped(ts, m) && ReplyOk(ts, reply)
    ensures Shaped(ts, Answer(m, t, reply))
  {
  }

  lemma PutShaped(ts: seq<Terms>, m: Market, t: nat, p: Phase)
    requires ValidTerms(ts) && Shaped(ts, m) && PhaseOk(ts, p)
    ensures Shaped(ts, Put(m, t, p))
  {
  }

  lemma TurnShaped(ts: seq<Terms>, m: Market, t: nat, draw: int)
    requires ValidTerms(ts) && Shaped(ts, m) && t in m.threads
    ensures Shaped(ts, TakeTurn(ts, m, t, draw))
  {
    var p := m.threads[t];
    match p
    case Scanning(n, r, next, found) =>
      if next < |ts| {
        var more := if Eligible(ts[next], m.budgets[next], r) then found + [next] else found;
        PutShaped(ts, m, t, p.(next := next + 1, found := more));
      } else if found == [] {
        AnswerShaped(ts, m, t, NoContent(n));
      } else if |found| == 1 {
        assert found[0] in found;
        PutShaped(ts, m, t, Paying(n, r, found[0]));
      } else {
        PutShaped(ts, m, t, Weighing(n, r, found, []));
      }
    case Weighing(n, r, found, weights) =>
      if |weights| < |found| {
        assert found[|weights|] in found;
        PutShaped(ts, m, t, p.(weights := weights + [m.budgets[found[|weights|]]]));
      } else {
        assert found[Draw.Pick(weights, draw)] in found;
        PutShaped(ts, m, t, Paying(n, r, found[Draw.Pick(weights, draw)]));
      }
    case Paying(n, r, i) =>
      var price := ts[i].bidPrice;
      if m.budgets[i] >= price {
        AnswerShaped(ts, m.(budgets := m.budgets[i := m.budgets[i] - price]), t, Won(n, r, i));
      } else {
        AnswerShaped(ts, m, t, NoContent(n));
      }
  }

  lemma StepShaped(ts: seq<Terms>, m: Market, e: Event)
    requires ValidTerms(ts) && Shaped(ts, m)
    ensures Shaped(ts, Step(ts, m, e))
  {
    match e
    case Arrive(t, input) =>
      if t !in m.threads && input.Read? && Admitted(input.r) {
        PutShaped(ts, m.(arrivals := m.arrivals + [input]), t, Scanning(|m.arrivals|, input.r, 0, []));
      }
    case Turn(t, draw) =>
      if t in m.threads {
        TurnShaped(ts, m, t, draw);
      }
  }

  function Run(ts: seq<Terms>, m: Market, events: seq<Event>): (r: Market)
    requires ValidTerms(ts) && Shaped(ts, m)
    ensures Shaped(ts, r)
    decreases |events|
  {
    if events == [] then m
    else
      StepShaped(ts, m, events[0]);
      Run(ts, Step(ts, m, events[0]), events[1..])
  }

  // ---------------------------------------------------------------- money

  /** How many replies made the campaign pay. */
  function Wins(replies: seq<Reply>, i: nat): nat {
    if replies == [] then 0
    else
      var last := replies[|replies| - 1];
      Wins(replies[..|replies| - 1], i) + if last.Won? && last.i == i then 1 else 0
  }

  function Spent(replies: seq<Reply>, i: nat, price: real): real {
    if replies == [] then 0.0
    else
      var last := replies[|replies| - 1];
      Spent(replies[..|replies| - 1], i, price) + if last.Won? && last.i == i then price else 0.0
  }

  lemma {:induction false} SpentIs(replies: seq<Reply>, i: nat, price: real)
    ensures Spent(replies, i, price) == price * Wins(replies, i) as real
  {
    if replies != [] {
      SpentIs(replies[..|replies| - 1], i, price);
    }
  }

  /** What is left of a budget after `wins` payments. */
  predicate Balanced(initial: real, left: real, price: real, wins: nat) {
    left >= 0.0 && initial - left == price * wins as real
  }

  predicate Account(ts: seq<Terms>, initial: seq<real>, m: Market, i: nat)
    requires i < |ts| == |initial| == |m.budgets|
  {
    m.budgets[i] >= 0.0 && initial[i] - m.budgets[i] == Spent(m.replies, i, ts[i].bidPrice)
  }

  /** What was spent is the price of each win, and no budget is below zero. */
  predicate Accounts(ts: seq<Terms>, initial: seq<real>, m: Market) {
    |ts| == |initial| == |m.budgets| && forall i :: 0 <= i < |ts| ==> Account(ts, initial, m, i)
  }

  lemma SpentNext(replies: seq<Reply>, reply: Reply, i: nat, price: real)
    ensures Spent(replies + [reply], i, price) ==
      Spent(replies, i, price) + if reply.Won? && reply.i == i then price else 0.0
  {
    assert (replies + [reply])[..|replies|] == replies;
  }

  lemma NoContentCostsNothing(ts: seq<Terms>, initial: seq<real>, m: Market, m1: Market, n: nat)
    requires Accounts(ts, initial, m) && m1.budgets == m.budgets && m1.replies == m.replies + [NoContent(n)]
    ensures Accounts(ts, initial, m1)
  {
    forall i | 0 <= i < |ts| ensures Account(ts, initial, m1, i) {
      assert Account(ts, initial, m, i);
      SpentNext(m.replies, NoContent(n), i, ts[i].bidPrice);
    }
  }

  lemma WinCostsThePrice(ts: seq<Terms>, initial: seq<real>, m: Market, t: nat, p: Phase)
    requires ValidTerms(ts) && Accounts(ts, initial, m) && PhaseOk(ts, p) && p.Paying?
    ensures Accounts(ts, initial, Pay(ts, m, t, p))
  {
    var m1 := Pay(ts, m, t, p);
    if m.budgets[p.i] >= ts[p.i].bidPrice {
      forall i | 0 <= i < |ts| ensures Account(ts, initial, m1, i) {
        assert Account(ts, initial, m, i);
        SpentNext(m.replies, Won(p.n, p.r, p.i), i, ts[i].bidPrice);
      }
    } else {
      NoContentCostsNothing(ts, initial, m, m1, p.n);
    }
  }

  /** Steps that neither pay nor answer. */
  lemma AccountsStay(ts: seq<Terms>, initial: seq<real>, m: Market, m1: Market)
    requires Accounts(ts, initial, m) && m1.budgets == m.budgets && m1.replies == m.replies
    ensures Accounts(ts, initial, m1)
  {
    forall i | 0 <= i < |ts| ensures Account(ts, initial, m1, i) {
      assert Account(ts, initial, m, i);
    }
  }

  lemma StepAccounts(ts: seq<Terms>, initial: seq<real>, m: Market, e: Event)
    requires ValidTerms(ts) && Shaped(ts, m) && Accounts(ts, initial, m)
    ensures Accounts(ts, initial, Step(ts, m, e))
  {
    var m1 := Step(ts, m, e);
    if e.Turn? && e.thread in m.threads && m.threads[e.thread].Paying? {
      WinCostsThePrice(ts, initial, m, e.thread, m.threads[e.thread]);
    } else if m1.replies == m.replies {
      AccountsStay(ts, initial, m, m1);
    } else {
      NoContentCostsNothing(ts, initial, m, m1, m1.replies[|m.replies|].n);
    }
  }

  lemma {:induction false} RunAccounts(ts: seq<Terms>, initial: seq<real>, m: Market, events: seq<Event>)
    requires ValidTerms(ts) && Shaped(ts, m) && Accounts(ts, initial, m)
    ensures Accounts(ts, initial, Run(ts, m, events))
    decreases |events|
  {
    if events != [] {
      StepShaped(ts, m, events[0]);
      StepAccounts(ts, initial, m, events[0]);
      RunAccounts(ts, initial, Step(ts, m, events[0]), events[1..]);
    }
  }

  function Opened(budgets: seq<real>): Market {
    Market(budgets, map[], [], [])
  }

  // ---------------------------------------------------------------- each request once

  predicate InWork(threads: map<nat, Phase>, n: nat) {
    exists t :: t in threads && threads[t].n == n
  }

  predicate Answered(replies: seq<Reply>, n: nat) {
    exists k :: 0 <= k < |replies| && replies[k].n == n
  }

  predicate OneThreadEach(threads: map<nat, Phase>) {
    forall t, u :: t in threads && u in threads && t != u ==> threads[t].n != threads[u].n
  }

  predicate OneReplyEach(replies: seq<Reply>) {
    forall j, k :: 0 <= j < k < |replies| ==> replies[j].n != replies[k].n
  }

  /** Threads and replies carry the requests of the arrivals they belong to. */
  predicate Faithful(m: Market) {
    && (forall t :: t in m.threads ==>
        m.threads[t].n < |m.arrivals| && m.arrivals[m.threads[t].n] == Read(m.threads[t].r))
    && (forall k :: 0 <= k < |m.replies| ==> m.replies[k].n < |m.arrivals|)
    && (forall k :: 0 <= k < |m.replies| && m.replies[k].Won? ==> m.arrivals[m.replies[k].n] == Read(m.replies[k].r))
  }

  /** Every arrival is either being worked on by one thread or has been answered once. */
  predicate EachOnce(m: Market) {
    && OneThreadEach(m.threads) && OneReplyEach(m.replies)
    && forall n :: 0 <= n < |m.arrivals| ==> (InWork(m.threads, n) <==> !Answered(m.replies, n))
  }

  lemma ReplyAnswers(replies: seq<Reply>, reply: Reply)
    ensures forall n: nat :: Answered(replies + [reply], n) <==> Answered(replies, n) || n == reply.n
  {
    var all := replies + [reply];
    forall n: nat ensures Answered(all, n) <==> Answered(replies, n) || n == reply.n {
      if Answered(replies, n) {
        var k :| 0 <= k < |replies| && replies[k].n == n;
        assert all[k].n == n;
      }
      assert all[|replies|] == reply;
    }
  }

  lemma PutWorks(threads: map<nat, Phase>, t: nat, p: Phase)
    requires t in threads ==> threads[t].n == p.n
    ensures forall n: nat :: InWork(threads[t := p], n) <==> InWork(threads, n) || n == p.n
  {
    forall n: nat ensures InWork(threads[t := p], n) <==> InWork(threads, n) || n == p.n {
      if InWork(threads, n) {
        var u :| u in threads && threads[u].n == n;
        assert u in threads[t := p] && threads[t := p][u].n == n;
      }
      if n == p.n {
        assert t in threads[t := p] && threads[t := p][t].n == n;
      }
    }
  }

  lemma RemoveWorks(threads: map<nat, Phase>, t: nat)
    requires t in threads && OneThreadEach(threads)
    ensures forall n: nat :: InWork(threads - {t}, n) <==> InWork(threads, n) && n != threads[t].n
  {
    forall n: nat ensures InWork(threads - {t}, n) <==> InWork(threads, n) && n != threads[t].n {
      if InWork(threads, n) && n != threads[t].n {
        var u :| u in threads && threads[u].n == n;
        assert u in threads - {t} && (threads - {t})[u].n == n;
      }
    }
  }

  /** A thread goes on with the request that it has. */
  lemma GoesOn(m: Market, t: nat, p: Phase)
    requires Faithful(m) && EachOnce(m) && t in m.threads && p.n == m.threads[t].n && p.r == m.threads[t].r
    ensures Faithful(Put(m, t, p)) && EachOnce(Put(m, t, p))
  {
    PutWorks(m.threads, t, p);
    assert InWork(m.threads, p.n);
  }

  /** A thread answers the request that it has. */
  lemma AnswersOnce(m: Market, t: nat, reply: Reply)
    requires Faithful(m) && EachOnce(m) && t in m.threads && reply.n == m.threads[t].n
    requires reply.Won? ==> reply.r == m.threads[t].r
    ensures Faithful(Answer(m, t, reply)) && EachOnce(Answer(m, t, reply))
  {
    assert InWork(m.threads, reply.n);
    assert !Answered(m.replies, reply.n);
    RemoveWorks(m.threads, t);
    ReplyAnswers(m.replies, reply);
  }

  /** What arrives is either given to a thread or answered. */
  lemma ArrivesOnce(m: Market, t: nat, input: Input)
    requires Faithful(m) && EachOnce(m) && t !in m.threads
    ensures Faithful(Receive(m, t, input)) && EachOnce(Receive(m, t, input))
  {
    var n := |m.arrivals|;
    assert !InWork(m.threads, n) && !Answered(m.replies, n);
    if input.Read? && Admitted(input.r) {
      PutWorks(m.threads, t, Scanning(n, input.r, 0, []));
    } else {
      ReplyAnswers(m.replies, NoContent(n));
    }
  }

  /** A turn either goes on with the thread's request or answers it. */
  lemma TurnServes(ts: seq<Terms>, m: Market, t: nat, draw: int) returns (reply: Option<Reply>)
    requires ValidTerms(ts) && Shaped(ts, m) && t in m.threads
    ensures var p, m1 := m.threads[t], TakeTurn(ts, m, t, draw);
      match reply
      case None => t in m1.threads && m1.threads[t].n == p.n && m1.threads[t].r == p.r && m1 == Put(m, t, m1.threads[t])
      case Some(a) => a.n == p.n && (a.Won? ==> a.r == p.r) && m1 == Answer(m, t, a).(budgets := m1.budgets)
  {
    var m1 := TakeTurn(ts, m, t, draw);
    reply := if t in m1.threads then None else Some(m1.replies[|m.replies|]);
  }

  lemma StepEachOnce(ts: seq<Terms>, m: Market, e: Event)
    requires ValidTerms(ts) && Shaped(ts, m) && Faithful(m) && EachOnce(m)
    ensures Faithful(Step(ts, m, e)) && EachOnce(Step(ts, m, e))
  {
    match e
    case Arrive(t, input) =>
      if t !in m.threads {
        ArrivesOnce(m, t, input);
      }
    case Turn(t, draw) =>
      if t in m.threads {
        var reply := TurnServes(ts, m, t, draw);
        match reply {
          case None => GoesOn(m, t, TakeTurn(ts, m, t, draw).threads[t]);
          case Some(a) => AnswersOnce(m, t, a);
        }
      }
  }

  lemma {:induction false} RunEachOnce(ts: seq<Terms>, m: Market, events: seq<Event>)
    requires ValidTerms(ts) && Shaped(ts, m) && Faithful(m) && EachOnce(m)
    ensures var r := Run(ts, m, events); Faithful(r) && EachOnce(r)
    decreases |events|
  {
    if events != [] {
      StepShaped(ts, m, events[0]);
      StepEachOnce(ts, m, events[0]);
      RunEachOnce(ts, Step(ts, m, events[0]), events[1..]);
    }
  }

  // ---------------------------------------------------------------- every run

  predicate Funded(ts: seq<Terms>, budgets: seq<real>) {
    ValidTerms(ts) && |ts| == |budgets| && forall i :: 0 <= i < |budgets| ==> budgets[i] >= 0.0
  }

  /**
   Whatever the threads do in whatever order: no budget goes below zero, each campaign has spent its price
   times its wins, every win is for the request that arrived and suits it, and every arrival is answered
   once or in the hands of one thread.
   */
  lemma AuctionIsSafe(ts: seq<Terms>, budgets: seq<real>, events: seq<Event>)
    requires Funded(ts, budgets)
    ensures var r := Run(ts, Opened(budgets), events);
      && EachOnce(r) && Faithful(r) && Solvent(ts, budgets, r)
      && (forall k :: 0 <= k < |r.replies| ==> ReplyOk(ts, r.replies[k]))
  {
    RunSolvent(ts, budgets, events);
    RunEachOnce(ts, Opened(budgets), events);
  }

  /** No budget is below zero, and each campaign has spent its price times its wins. */
  predicate Solvent(ts: seq<Terms>, budgets: seq<real>, m: Market)
    requires |ts| == |budgets|
  {
    && |m.budgets| == |ts|
    && forall i :: 0 <= i < |ts| ==> Balanced(budgets[i], m.budgets[i], ts[i].bidPrice, Wins(m.replies, i))
  }

  lemma RunSolvent(ts: seq<Terms>, budgets: seq<real>, events: seq<Event>)
    requires Funded(ts, budgets)
    ensures Solvent(ts, budgets, Run(ts, Opened(budgets), events))
  {
    RunAccounts(ts, budgets, Opened(budgets), events);
    var r := Run(ts, Opened(budgets), events);
    forall i | 0 <= i < |ts| ensures Balanced(budgets[i], r.budgets[i], ts[i].bidPrice, Wins(r.replies, i)) {
      assert Account(ts, budgets, r, i);
      AccountBalances(budgets[i], r.budgets[i], ts[i].bidPrice, r.replies, i);
    }
  }

  lemma AccountBalances(initial: real, left: real, price: real, replies: seq<Reply>, i: nat)
    requires left >= 0.0 && initial - left == Spent(replies, i, price)
    ensures Balanced(initial, left, price, Wins(replies, i))
  {
    SpentIs(replies, i, price);
  }

  lemma Affordable(initial: real, left: real, price: real, wins: nat)
    requires Balanced(initial, left, price, wins)
    ensures left >= price <==> price * (wins + 1) as real <= initial
  {
    assert price * (wins + 1) as real == price * wins as real + price;
  }

  /** What a thread that is about to pay will answer: 200 if the first budget has room for one more win. */
  function Verdict(ts: seq<Terms>, budgets: seq<real>, replies: seq<Reply>, p: Phase): Reply
    requires |ts| == |budgets| && p.Paying? && p.i < |ts|
  {
    if ts[p.i].bidPrice * (Wins(replies, p.i) + 1) as real <= budgets[p.i] then Won(p.n, p.r, p.i) else NoContent(p.n)
  }

  lemma {:induction false} VerdictIs(ts: seq<Terms>, budgets: seq<real>, m: Market, p: Phase)
    requires |ts| == |budgets| && p.Paying? && p.i < |ts| && Solvent(ts, budgets, m)
    ensures Verdict(ts, budgets, m.replies, p) ==
      if m.budgets[p.i] >= ts[p.i].bidPrice then Won(p.n, p.r, p.i) else NoContent(p.n)
  {
    assert Balanced(budgets[p.i], m.budgets[p.i], ts[p.i].bidPrice, Wins(m.replies, p.i));
    Affordable(budgets[p.i], m.budgets[p.i], ts[p.i].bidPrice, Wins(m.replies, p.i));
  }

  lemma {:induction false} PayAnswers(ts: seq<Terms>, m: Market, t: nat, draw: int)
    requires ValidTerms(ts) && Shaped(ts, m) && t in m.threads && m.threads[t].Paying?
    ensures var p := m.threads[t];
      && p.i < |ts|
      && Step(ts, m, Turn(t, draw)).replies == m.replies +
           [if m.budgets[p.i] >= ts[p.i].bidPrice then Won(p.n, p.r, p.i) else NoContent(p.n)]
  {
    assert PhaseOk(ts, m.threads[t]);
  }

  /**
   In every run, a thread that is about to pay answers 200 exactly when the campaign's first budget has
   room for one more win than it has had; else the request gets 204, although the campaign was eligible.
   */
  lemma {:induction false} PaysExactlyWhen(ts: seq<Terms>, budgets: seq<real>, events: seq<Event>, t: nat, draw: int)
    requires Funded(ts, budgets)
    requires var m := Run(ts, Opened(budgets), events); t in m.threads && m.threads[t].Paying?
    ensures var m := Run(ts, Opened(budgets), events);
      && m.threads[t].i < |ts|
      && Step(ts, m, Turn(t, draw)).replies == m.replies + [Verdict(ts, budgets, m.replies, m.threads[t])]
  {
    RunSolvent(ts, budgets, events);
    var m := Run(ts, Opened(budgets), events);
    PayAnswers(ts, m, t, draw);
    VerdictIs(ts, budgets, m, m.threads[t]);
  }

  // ---------------------------------------------------------------- a thread that is not disturbed

  /** The eligible campaigns from the `k`-th on. */
  function EligibleFrom(ts: seq<Terms>, budgets: seq<real>, r: BidRequest, k: nat): seq<nat>
    requires ValidTerms(ts) && |budgets| == |ts| && r.width != 0 && k <= |ts|
    decreases |ts| - k
  {
    if k == |ts| then []
    else (if Eligible(ts[k], budgets[k], r) then [k] else []) + EligibleFrom(ts, budgets, r, k + 1)
  }

  lemma {:induction false} EligibleIs(ts: seq<Terms>, budgets: seq<real>, r: BidRequest, k: nat)
    requires ValidTerms(ts) && |budgets| == |ts| && r.width != 0 && k <= |ts|
    ensures forall x :: x in EligibleFrom(ts, budgets, r, k) <==> k <= x < |ts| && Eligible(ts[x], budgets[x], r)
    decreases |ts| - k
  {
    if k < |ts| {
      EligibleIs(ts, budgets, r, k + 1);
    }
  }

  function WeightsOf(budgets: seq<real>, found: seq<nat>): (w: seq<real>)
    requires forall x :: x in found ==> x < |budgets|
    ensures |w| == |found|
  {
    seq(|found|, k requires 0 <= k < |found| => (assert found[k] in found; budgets[found[k]]))
  }

  /** The campaign chosen when nothing changes meanwhile. */
  function Choice(ts: seq<Terms>, budgets: seq<real>, r: BidRequest, draw: int): Option<nat>
    requires ValidTerms(ts) && |budgets| == |ts| && r.width != 0
  {
    EligibleIs(ts, budgets, r, 0);
    var found := EligibleFrom(ts, budgets, r, 0);
    if found == [] then None else Some(found[Draw.Pick(WeightsOf(budgets, found), draw)])
  }

  /**
   Undisturbed, a request is answered with 200 exactly when some campaign is eligible, and then by an
   eligible one.
   */
  lemma ChoiceIsEligible(ts: seq<Terms>, budgets: seq<real>, r: BidRequest, draw: int)
    requires ValidTerms(ts) && |budgets| == |ts| && r.width != 0
    ensures var c := Choice(ts, budgets, r, draw);
      && (c.Some? <==> exists x :: 0 <= x < |ts| && Eligible(ts[x], budgets[x], r))
      && (c.Some? ==> c.value < |ts| && Eligible(ts[c.value], budgets[c.value], r))
  {
    EligibleIs(ts, budgets, r, 0);
    var found := EligibleFrom(ts, budgets, r, 0);
    if found == [] {
      forall x | 0 <= x < |ts| ensures !Eligible(ts[x], budgets[x], r) {
        assert x !in found;
      }
    } else {
      assert found[Draw.Pick(WeightsOf(budgets, found), draw)] in found;
      assert found[0] in found;
    }
  }

  function Kind(p: Phase): nat {
    match p
    case Scanning(_, _, _, _) => 2
    case Weighing(_, _, _, _) => 1
    case Paying(_, _, _) => 0
  }

  function Left(ts: seq<Terms>, p: Phase): int {
    match p
    case Scanning(_, _, next, _) => |ts| - next
    case Weighing(_, _, found, weights) => |found| - |weights|
    case Paying(_, _, _) => 0
  }

  /** A thread takes all its turns, with nobody in between. */
  function Finish(ts: seq<Terms>, m: Market, t: nat, draw: int): Market
    requires ValidTerms(ts) && Shaped(ts, m)
    decreases t in m.threads, if t in m.threads then Kind(m.threads[t]) else 0,
      if t in m.threads then Left(ts, m.threads[t]) else 0
  {
    if t !in m.threads then m
    else
      TurnShaped(ts, m, t, draw);
      Finish(ts, TakeTurn(ts, m, t, draw), t, draw)
  }

  lemma FinishGoesOn(ts: seq<Terms>, m: Market, t: nat, draw: int, m1: Market)
    requires ValidTerms(ts) && Shaped(ts, m) && t in m.threads && m1 == TakeTurn(ts, m, t, draw)
    ensures Shaped(ts, m1) && Finish(ts, m, t, draw) == Finish(ts, m1, t, draw)
  {
    TurnShaped(ts, m, t, draw);
  }

  lemma PutTwice(m: Market, t: nat, p: Phase, q: Phase)
    ensures Put(Put(m, t, p), t, q) == Put(m, t, q)
    ensures t !in m.threads ==> Put(m, t, p).threads - {t} == m.threads
  {
  }

  function Piece(ts: seq<Terms>, budgets: seq<real>, r: BidRequest, k: nat): seq<nat>
    requires ValidTerms(ts) && |budgets| == |ts| && r.width != 0 && k < |ts|
  {
    if Eligible(ts[k], budgets[k], r) then [k] else []
  }

  lemma ScanStep(ts: seq<Terms>, m: Market, t: nat, draw: int, n: nat, r: BidRequest, k: nat, found: seq<nat>)
    requires ValidTerms(ts) && Shaped(ts, m) && PhaseOk(ts, Scanning(n, r, k, found)) && k < |ts|
    ensures var p, q := Scanning(n, r, k, found), Scanning(n, r, k + 1, found + Piece(ts, m.budgets, r, k));
      && Shaped(ts, Put(m, t, p)) && PhaseOk(ts, q) && Shaped(ts, Put(m, t, q))
      && Finish(ts, Put(m, t, p), t, draw) == Finish(ts, Put(m, t, q), t, draw)
  {
    var p, q := Scanning(n, r, k, found), Scanning(n, r, k + 1, found + Piece(ts, m.budgets, r, k));
    PutShaped(ts, m, t, p);
    PutShaped(ts, m, t, q);
    PutTwice(m, t, p, q);
    assert found + [] == found;
    FinishGoesOn(ts, Put(m, t, p), t, draw, Put(m, t, q));
  }

  lemma PieceThenRest(ts: seq<Terms>, budgets: seq<real>, r: BidRequest, k: nat, found: seq<nat>)
    requires ValidTerms(ts) && |budgets| == |ts| && r.width != 0 && k < |ts|
    ensures found + EligibleFrom(ts, budgets, r, k) ==
      (found + Piece(ts, budgets, r, k)) + EligibleFrom(ts, budgets, r, k + 1)
  {
  }

  lemma {:induction false} FinishScan(ts: seq<Terms>, m: Market, t: nat, draw: int, n: nat, r: BidRequest, k: nat,
                                      found: seq<nat>, all: seq<nat>)
    requires ValidTerms(ts) && Shaped(ts, m) && PhaseOk(ts, Scanning(n, r, k, found))
    requires all == found + EligibleFrom(ts, m.budgets, r, k)
    ensures var p, q := Scanning(n, r, k, found), Scanning(n, r, |ts|, all);
      && PhaseOk(ts, q) && Shaped(ts, Put(m, t, p)) && Shaped(ts, Put(m, t, q))
      && Finish(ts, Put(m, t, p), t, draw) == Finish(ts, Put(m, t, q), t, draw)
    decreases |ts| - k
  {
    if k == |ts| {
      assert all == found;
      PutShaped(ts, m, t, Scanning(n, r, k, found));
    } else {
      ScanStep(ts, m, t, draw, n, r, k, found);
      PieceThenRest(ts, m.budgets, r, k, found);
      FinishScan(ts, m, t, draw, n, r, k + 1, found + Piece(ts, m.budgets, r, k), all);
    }
  }

  lemma WeighStep(ts: seq<Terms>, m: Market, t: nat, draw: int, n: nat, r: BidRequest, found: seq<nat>,
                  weights: seq<real>)
    requires ValidTerms(ts) && Shaped(ts, m) && PhaseOk(ts, Weighing(n, r, found, weights)) && |weights| < |found|
    ensures found[|weights|] in found
    ensures var p, q := Weighing(n, r, found, weights), Weighing(n, r, found, weights + [m.budgets[found[|weights|]]]);
      && Shaped(ts, Put(m, t, p)) && PhaseOk(ts, q) && Shaped(ts, Put(m, t, q))
      && Finish(ts, Put(m, t, p), t, draw) == Finish(ts, Put(m, t, q), t, draw)
  {
    assert found[|weights|] in found;
    var p, q := Weighing(n, r, found, weights), Weighing(n, r, found, weights + [m.budgets[found[|weights|]]]);
    PutShaped(ts, m, t, p);
    PutShaped(ts, m, t, q);
    PutTwice(m, t, p, q);
    FinishGoesOn(ts, Put(m, t, p), t, draw, Put(m, t, q));
  }

  lemma {:induction false} FinishWeigh(ts: seq<Terms>, m: Market, t: nat, draw: int, n: nat, r: BidRequest,
                                       found: seq<nat>, k: nat)
    requires ValidTerms(ts) && Shaped(ts, m) && PhaseOk(ts, Weighing(n, r, found, [])) && k <= |found|
    ensures forall x :: x in found ==> x < |m.budgets|
    ensures var all := WeightsOf(m.budgets, found);
      var p, q := Weighing(n, r, found, all[..k]), Weighing(n, r, found, all);
      && Shaped(ts, Put(m, t, p)) && Shaped(ts, Put(m, t, q))
      && Finish(ts, Put(m, t, p), t, draw) == Finish(ts, Put(m, t, q), t, draw)
    decreases |found| - k
  {
    var all := WeightsOf(m.budgets, found);
    if k == |found| {
      assert all[..k] == all;
      PutShaped(ts, m, t, Weighing(n, r, found, all));
    } else {
      assert found[k] in found;
      assert all[..k + 1] == all[..k] + [m.budgets[found[k]]];
      WeighStep(ts, m, t, draw, n, r, found, all[..k]);
      FinishWeigh(ts, m, t, draw, n, r, found, k + 1);
    }
  }

  /** What an undisturbed thread does to the market when it pays or gives up. */
  function Settled(ts: seq<Terms>, m: Market, n: nat, r: BidRequest, c: Option<nat>): Market
    requires |m.budgets| == |ts| && (c.Some? ==> c.value < |ts|)
  {
    match c
    case None => m.(replies := m.replies + [NoContent(n)])
    case Some(i) => m.(budgets := m.budgets[i := m.budgets[i] - ts[i].bidPrice], replies := m.replies + [Won(n, r, i)])
  }

  lemma FinishPay(ts: seq<Terms>, m: Market, t: nat, draw: int, n: nat, r: BidRequest, i: nat)
    requires ValidTerms(ts) && Shaped(ts, m) && PhaseOk(ts, Paying(n, r, i)) && t !in m.threads
    requires m.budgets[i] >= ts[i].bidPrice
    ensures Shaped(ts, Put(m, t, Paying(n, r, i)))
    ensures Finish(ts, Put(m, t, Paying(n, r, i)), t, draw) == Settled(ts, m, n, r, Some(i))
  {
    PutShaped(ts, m, t, Paying(n, r, i));
    PutTwice(m, t, Paying(n, r, i), Paying(n, r, i));
    FinishGoesOn(ts, Put(m, t, Paying(n, r, i)), t, draw, Settled(ts, m, n, r, Some(i)));
  }

  /** From the end of the scan. */
  lemma FinishScanned(ts: seq<Terms>, m: Market, t: nat, draw: int, n: nat, r: BidRequest)
    requires ValidTerms(ts) && Shaped(ts, m) && t !in m.threads && Admitted(r)
    requires PhaseOk(ts, Scanning(n, r, |ts|, EligibleFrom(ts, m.budgets, r, 0)))
    ensures var p := Scanning(n, r, |ts|, EligibleFrom(ts, m.budgets, r, 0));
      && Shaped(ts, Put(m, t, p))
      && var c := Choice(ts, m.budgets, r, draw);
         && (c.Some? ==> c.value < |ts|)
         && Finish(ts, Put(m, t, p), t, draw) == Settled(ts, m, n, r, c)
  {
    var found := EligibleFrom(ts, m.budgets, r, 0);
    var p := Scanning(n, r, |ts|, found);
    PutShaped(ts, m, t, p);
    ChoiceIsEligible(ts, m.budgets, r, draw);
    EligibleIs(ts, m.budgets, r, 0);
    if found == [] {
      PutTwice(m, t, p, p);
      FinishGoesOn(ts, Put(m, t, p), t, draw, Settled(ts, m, n, r, None));
    } else if |found| == 1 {
      assert found[0] in found;
      PutTwice(m, t, p, Paying(n, r, found[0]));
      FinishGoesOn(ts, Put(m, t, p), t, draw, Put(m, t, Paying(n, r, found[0])));
      FinishPay(ts, m, t, draw, n, r, found[0]);
    } else {
      FinishMany(ts, m, t, draw, n, r, found);
    }
  }

  lemma FinishMany(ts: seq<Terms>, m: Market, t: nat, draw: int, n: nat, r: BidRequest, found: seq<nat>)
    requires ValidTerms(ts) && Shaped(ts, m) && t !in m.threads && |found| >= 2
    requires PhaseOk(ts, Scanning(n, r, |ts|, found))
    requires forall x :: x in found ==> x < |ts| && m.budgets[x] >= ts[x].bidPrice
    ensures var p, i := Scanning(n, r, |ts|, found), found[Draw.Pick(WeightsOf(m.budgets, found), draw)];
      && Shaped(ts, Put(m, t, p)) && i < |ts|
      && Finish(ts, Put(m, t, p), t, draw) == Settled(ts, m, n, r, Some(i))
  {
    var p, all := Scanning(n, r, |ts|, found), WeightsOf(m.budgets, found);
    var i := found[Draw.Pick(all, draw)];
    assert i in found;
    var p1, p2, p3 := Weighing(n, r, found, []), Weighing(n, r, found, all), Paying(n, r, i);
    PutShaped(ts, m, t, p);
    PutTwice(m, t, p, p1);
    FinishGoesOn(ts, Put(m, t, p), t, draw, Put(m, t, p1));
    FinishWeigh(ts, m, t, draw, n, r, found, 0);
    assert all[..0] == [];
    PutTwice(m, t, p2, p3);
    FinishGoesOn(ts, Put(m, t, p2), t, draw, Put(m, t, p3));
    FinishPay(ts, m, t, draw, n, r, i);
  }

  /** A request handled with no other thread in between gets the undisturbed choice, and that campaign pays. */
  lemma HandledAlone(ts: seq<Terms>, m: Market, t: nat, draw: int, r: BidRequest)
    requires ValidTerms(ts) && Shaped(ts, m) && t !in m.threads && Admitted(r)
    ensures var m1, n := Step(ts, m, Arrive(t, Read(r))), |m.arrivals|;
      var c := Choice(ts, m.budgets, r, draw);
      && Shaped(ts, m1) && (c.Some? ==> c.value < |ts|)
      && Finish(ts, m1, t, draw) == Settled(ts, m.(arrivals := m.arrivals + [Read(r)]), n, r, c)
  {
    var m0, n := m.(arrivals := m.arrivals + [Read(r)]), |m.arrivals|;
    assert [] + EligibleFrom(ts, m.budgets, r, 0) == EligibleFrom(ts, m.budgets, r, 0);
    FinishScan(ts, m0, t, draw, n, r, 0, [], EligibleFrom(ts, m.budgets, r, 0));
    FinishScanned(ts, m0, t, draw, n, r);
    assert Step(ts, m, Arrive(t, Read(r))) == Put(m0, t, Scanning(n, r, 0, []));
  }

  // ---------------------------------------------------------------- two threads and money for one

  lemma OneEvent(ts: seq<Terms>, m: Market, e: Event, rest: seq<Event>)
    requires ValidTerms(ts) && Shaped(ts, m)
    ensures Shaped(ts, Step(ts, m, e)) && Run(ts, m, [e] + rest) == Run(ts, Step(ts, m, e), rest)
  {
    StepShaped(ts, m, e);
    assert ([e] + rest)[1..] == rest;
  }

  predicate BothSuit(term: Terms, budget: real, r1: BidRequest, r2: BidRequest) {
    && term.width != 0 && 0.0 < term.bidPrice <= budget && Admitted(r1) && Admitted(r2)
    && Suits(term, r1) && Suits(term, r2)
  }

  function TwoThreads(budget: real, p1: Phase, p2: Phase, r1: BidRequest, r2: BidRequest): Market {
    Market([budget], map[1 := p1, 2 := p2], [Read(r1), Read(r2)], [])
  }

  lemma {:induction false} BothArrive(term: Terms, budget: real, r1: BidRequest, r2: BidRequest)
    requires BothSuit(term, budget, r1, r2)
    ensures Run([term], Opened([budget]), [Arrive(1, Read(r1)), Arrive(2, Read(r2))]) ==
      TwoThreads(budget, Scanning(0, r1, 0, []), Scanning(1, r2, 0, []), r1, r2)
  {
    var ts, m := [term], Opened([budget]);
    var m1 := Step(ts, m, Arrive(1, Read(r1)));
    assert m1 == Market([budget], map[1 := Scanning(0, r1, 0, [])], [Read(r1)], []);
    OneEvent(ts, m, Arrive(1, Read(r1)), [Arrive(2, Read(r2))]);
    OneEvent(ts, m1, Arrive(2, Read(r2)), []);
    assert Step(ts, m1, Arrive(2, Read(r2))).arrivals == [Read(r1), Read(r2)];
  }

  /** Each of the threads has one turn. */
  const BOTH_TURN := [Turn(1, 0), Turn(2, 0)]

  lemma FirstPut(budget: real, p1: Phase, p2: Phase, r1: BidRequest, r2: BidRequest, q: Phase)
    ensures Put(TwoThreads(budget, p1, p2, r1, r2), 1, q) == TwoThreads(budget, q, p2, r1, r2)
    ensures Put(TwoThreads(budget, p1, p2, r1, r2), 2, q) == TwoThreads(budget, p1, q, r1, r2)
  {
    assert map[1 := p1, 2 := p2][1 := q] == map[1 := q, 2 := p2];
  }

  lemma {:induction false} TwoTurns(ts: seq<Terms>, m: Market, m1: Market)
    requires ValidTerms(ts) && Shaped(ts, m) && m1 == Step(ts, m, Turn(1, 0))
    ensures Shaped(ts, m1) && Run(ts, m, BOTH_TURN) == Step(ts, m1, Turn(2, 0))
  {
    OneEvent(ts, m, Turn(1, 0), [Turn(2, 0)]);
    OneEvent(ts, m1, Turn(2, 0), []);
  }

  /** A thread whose request the only campaign suits puts it on its list. */
  lemma {:induction false} OneScans(term: Terms, m: Market, t: nat, n: nat, r: BidRequest)
    requires term.width != 0 && term.bidPrice > 0.0 && Admitted(r) && Suits(term, r)
    requires |m.budgets| == 1 && m.budgets[0] >= term.bidPrice && t in m.threads
      && m.threads[t] == Scanning(n, r, 0, [])
    requires ValidTerms([term]) && Shaped([term], m)
    ensures Step([term], m, Turn(t, 0)) == Put(m, t, Scanning(n, r, 1, [0]))
  {
    assert |[term]| == 1 && [term][0] == term && [] + [0] == [0];
    assert Eligible(term, m.budgets[0], r);
    assert TakeTurn([term], m, t, 0) == ScanOne([term], m, t, m.threads[t]);
  }

  lemma {:induction false} OneFinds(term: Terms, m: Market, t: nat, n: nat, r: BidRequest)
    requires ValidTerms([term]) && Shaped([term], m) && t in m.threads && m.threads[t] == Scanning(n, r, 1, [0])
    ensures Step([term], m, Turn(t, 0)) == Put(m, t, Paying(n, r, 0))
  {
    assert |[term]| == 1 && |[0]| == 1;
    assert TakeTurn([term], m, t, 0) == ScanDone(m, t, m.threads[t]);
  }

  lemma {:induction false} BothScan(term: Terms, budget: real, r1: BidRequest, r2: BidRequest)
    requires BothSuit(term, budget, r1, r2)
    ensures var m := TwoThreads(budget, Scanning(0, r1, 0, []), Scanning(1, r2, 0, []), r1, r2);
      && ValidTerms([term]) && Shaped([term], m)
      && Run([term], m, BOTH_TURN) == TwoThreads(budget, Scanning(0, r1, 1, [0]), Scanning(1, r2, 1, [0]), r1, r2)
  {
    var p1, p2, q1, q2 := Scanning(0, r1, 0, []), Scanning(1, r2, 0, []), Scanning(0, r1, 1, [0]),
      Scanning(1, r2, 1, [0]);
    var m, m1 := TwoThreads(budget, p1, p2, r1, r2), TwoThreads(budget, q1, p2, r1, r2);
    OneScans(term, m, 1, 0, r1);
    FirstPut(budget, p1, p2, r1, r2, q1);
    TwoTurns([term], m, m1);
    OneScans(term, m1, 2, 1, r2);
    FirstPut(budget, q1, p2, r1, r2, q2);
  }

  lemma {:induction false} BothFind(term: Terms, budget: real, r1: BidRequest, r2: BidRequest)
    requires BothSuit(term, budget, r1, r2)
    ensures var m := TwoThreads(budget, Scanning(0, r1, 1, [0]), Scanning(1, r2, 1, [0]), r1, r2);
      && ValidTerms([term]) && Shaped([term], m)
      && Run([term], m, BOTH_TURN) == TwoThreads(budget, Paying(0, r1, 0), Paying(1, r2, 0), r1, r2)
  {
    var p1, p2, q1, q2 := Scanning(0, r1, 1, [0]), Scanning(1, r2, 1, [0]), Paying(0, r1, 0), Paying(1, r2, 0);
    var m, m1 := TwoThreads(budget, p1, p2, r1, r2), TwoThreads(budget, q1, p2, r1, r2);
    OneFinds(term, m, 1, 0, r1);
    FirstPut(budget, p1, p2, r1, r2, q1);
    TwoTurns([term], m, m1);
    OneFinds(term, m1, 2, 1, r2);
    FirstPut(budget, q1, p2, r1, r2, q2);
  }

  lemma {:induction false} BothPay(term: Terms, budget: real, r1: BidRequest, r2: BidRequest)
    requires BothSuit(term, budget, r1, r2)
    ensures var m := TwoThreads(budget, Paying(0, r1, 0), Paying(1, r2, 0), r1, r2);
      && ValidTerms([term]) && Shaped([term], m)
      && Run([term], m, BOTH_TURN).replies ==
           [Won(0, r1, 0), if budget >= term.bidPrice + term.bidPrice then Won(1, r2, 0) else NoContent(1)]
  {
    var ts, m := [term], TwoThreads(budget, Paying(0, r1, 0), Paying(1, r2, 0), r1, r2);
    var m1 := Step(ts, m, Turn(1, 0));
    assert m1.budgets[0] == budget - term.bidPrice && m1.threads[2] == Paying(1, r2, 0);
    assert m1.replies == [Won(0, r1, 0)];
    OneEvent(ts, m, Turn(1, 0), [Turn(2, 0)]);
    OneEvent(ts, m1, Turn(2, 0), []);
  }

  lemma {:induction false} RunOn(ts: seq<Terms>, m: Market, events: seq<Event>, more: seq<Event>)
    requires ValidTerms(ts) && Shaped(ts, m)
    ensures Run(ts, m, events + more) == Run(ts, Run(ts, m, events), more)
    decreases |events|
  {
    if events == [] {
      assert events + more == more;
    } else {
      OneEvent(ts, m, events[0], events[1..] + more);
      RunOn(ts, Step(ts, m, events[0]), events[1..], more);
      assert events + more == [events[0]] + (events[1..] + more);
    }
  }

  /**
   Two requests that the only campaign suits are scanned side by side while it has money for one, and
   both threads find it: the second is answered 204 unless the budget covers both prices.
   */
  lemma {:induction false} SecondThreadGetsNothing(term: Terms, budget: real, r1: BidRequest, r2: BidRequest)
    requires BothSuit(term, budget, r1, r2)
    ensures var events := [Arrive(1, Read(r1)), Arrive(2, Read(r2))] + BOTH_TURN + BOTH_TURN + BOTH_TURN;
      && ValidTerms([term]) && Shaped([term], Opened([budget]))
      && Run([term], Opened([budget]), events).replies ==
           [Won(0, r1, 0), if budget >= term.bidPrice + term.bidPrice then Won(1, r2, 0) else NoContent(1)]
  {
    var ts, m, arrive := [term], Opened([budget]), [Arrive(1, Read(r1)), Arrive(2, Read(r2))];
    RunOn(ts, m, arrive, BOTH_TURN);
    RunOn(ts, m, arrive + BOTH_TURN, BOTH_TURN);
    RunOn(ts, m, arrive + BOTH_TURN + BOTH_TURN, BOTH_TURN);
    BothArrive(term, budget, r1, r2);
    BothScan(term, budget, r1, r2);
    BothFind(term, budget, r1, r2);
    BothPay(term, budget, r1, r2);
  }

  const BANNER := Terms("c", 2.0, 320, 50, false, map[], map[], "u")
  const PHONE := BidRequest("a", "fr", "", "", 320, 50, 1.0)

  /** One banner with a budget of 3 and a price of 2: the second of two phones gets nothing. */
  lemma {:induction false} SecondPhoneGetsNothing()
    ensures var events := [Arrive(1, Read(PHONE)), Arrive(2, Read(PHONE))] + BOTH_TURN + BOTH_TURN + BOTH_TURN;
      && ValidTerms([BANNER]) && Shaped([BANNER], Opened([3.0]))
      && Run([BANNER], Opened([3.0]), events).replies == [Won(0, PHONE, 0), NoContent(1)]
  {
    SecondThreadGetsNothing(BANNER, 3.0, PHONE, PHONE);
  }
}

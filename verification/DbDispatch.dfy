/**
 DbClientImpl's dispatcher: commands and transactions handed to database connections.  Every step below is
 one section under the mutex or one piece of work of a connection's loop; threads interleave between them.
 */
module DbDispatch {
  /** The queue takes commands while it holds at most this many. */
  const QUEUE_LIMIT := 200000

  datatype Job = Sql(id: nat) | Trans(id: nat)

  /**
   The sets and queues of the object, and what surrounds them: connections that are being set up, those
   whose ok callback is between its two sections, the job each connection was given last, and whether that
   still waits to be taken up by the connection's loop (`handed`).  `owed` are the lambdas queued by finished
   transactions, and `held` the rolled back transactions whose objects still exist, both by connection.
   The rest records what happened.
   */
  datatype Db = Db(
    connections: set<nat>,
    ready: set<nat>,
    busy: set<nat>,
    transactions: seq<nat>,
    commands: seq<nat>,
    connecting: set<nat>,
    greeting: set<nat>,
    working: map<nat, Job>,
    handed: set<nat>,
    owed: multiset<nat>,
    held: multiset<nat>,
    accepted: seq<nat>,
    rejected: seq<nat>,
    executed: seq<nat>,
    requested: seq<nat>,
    begun: seq<nat>)

  const EMPTY := Db({}, {}, {}, [], [], {}, {}, map[], {}, multiset{}, multiset{}, [], [], [], [], [])

  // ---------------------------------------------------------------- the sections

  /** A command given in the connection's own loop. */
  function Execute(d: Db, c: nat, id: nat): Db {
    d.(working := d.working[c := Sql(id)], handed := d.handed - {c}, executed := d.executed + [id])
  }

  /** A command given from another thread, which the loop takes up later. */
  function HandOver(d: Db, c: nat, id: nat): Db {
    d.(working := d.working[c := Sql(id)], handed := d.handed + {c}, executed := d.executed + [id])
  }

  /** A transaction always begins later in the loop. */
  function Begin(d: Db, c: nat, id: nat): Db {
    d.(working := d.working[c := Trans(id)], handed := d.handed + {c}, begun := d.begun + [id])
  }

  function Occupy(d: Db, c: nat): Db {
    d.(ready := d.ready - {c}, busy := d.busy + {c})
  }

  /** execSql; `c` is the ready connection taken, if there is one. */
  function ExecSql(d: Db, id: nat, c: nat): Db {
    if d.ready == {} then
      if |d.commands| > QUEUE_LIMIT then d.(rejected := d.rejected + [id])
      else d.(commands := d.commands + [id], accepted := d.accepted + [id])
    else HandOver(Occupy(d, c).(accepted := d.accepted + [id]), c, id)
  }

  function NewTransaction(d: Db, id: nat, c: nat): Db {
    var d1 := d.(requested := d.requested + [id]);
    if d.ready == {} then d1.(transactions := d.transactions + [id])
    else Begin(Occupy(d1, c), c, id)
  }

  /** handleNewTask: transactions first, then commands, else the connection is ready. */
  function HandleNewTask(d: Db, c: nat): Db {
    if d.transactions != [] then Begin(d.(transactions := d.transactions[1..]), c, d.transactions[0])
    else if d.commands != [] then Execute(d.(commands := d.commands[1..]), c, d.commands[0])
    else d.(busy := d.busy - {c}, ready := d.ready + {c})
  }

  function Rest(d: Db, c: nat): Db {
    d.(working := d.working - {c}, handed := d.handed - {c})
  }

  /** The used-up callback: nothing for a connection of bad status or one that was removed. */
  function LookUp(d: Db, c: nat, bad: bool): Db {
    if !bad && c in d.connections then d.(owed := d.owed + multiset{c}) else d
  }

  // ---------------------------------------------------------------- events

  datatype Event =
    | Submit(id: nat, c: nat)
    | Request(id: nat, c: nat)
    | Open(c: nat)                                   // a connection is created, also one second after a close
    | Connected(c: nat)                              // first section of the ok callback
    | Greet(c: nat)                                  // second section
    | Starts(c: nat)                                 // the loop takes up the job
    | Done(c: nat)                                   // a command has ended or failed: the idle callback
    | UsedUp(c: nat, bad: bool, rolledBack: bool)    // a transaction has ended
    | Destroyed(c: nat, bad: bool)                   // the object of a rolled back one goes, and calls once more
    | Lambda(c: nat)                                 // what a used-up callback queued
    | Close(c: nat)

  /**
   What the connections and the caller do by themselves.  Nothing starts on a closed connection, but a
   command that it was handed can fail there.
   */
  predicate MayHappen(d: Db, e: Event) {
    match e
    case Submit(_, c) => d.ready != {} ==> c in d.ready
    case Request(_, c) => d.ready != {} ==> c in d.ready
    case Open(c) => Unknown(d, c)
    case Connected(c) => c in d.connecting
    case Greet(c) => c in d.greeting
    case Starts(c) => c in d.handed && c in d.connections
    case Done(c) => c in d.working && d.working[c].Sql?
    case UsedUp(c, _, _) => c in d.working && d.working[c].Trans?
    case Destroyed(c, _) => c in d.held
    case Lambda(c) => c in d.owed
    case Close(c) => c in d.connections && c !in d.greeting
  }

  predicate Unknown(d: Db, c: nat) {
    && c !in d.connections + d.ready + d.busy + d.connecting + d.greeting
    && c !in d.working && c !in d.owed && c !in d.held
  }

  function Step(d: Db, e: Event): Db {
    match e
    case Submit(id, c) => ExecSql(d, id, c)
    case Request(id, c) => NewTransaction(d, id, c)
    case Open(c) => d.(connections := d.connections + {c}, connecting := d.connecting + {c})
    case Connected(c) => d.(busy := d.busy + {c}, connecting := d.connecting - {c}, greeting := d.greeting + {c})
    case Greet(c) => HandleNewTask(d.(greeting := d.greeting - {c}), c)
    case Starts(c) => d.(handed := d.handed - {c})
    case Done(c) => HandleNewTask(Rest(d, c), c)
    case UsedUp(c, bad, rolledBack) =>
      LookUp(Rest(d, c).(held := if rolledBack then d.held + multiset{c} else d.held), c, bad)
    case Destroyed(c, bad) => LookUp(d.(held := d.held - multiset{c}), c, bad)
    case Lambda(c) => HandleNewTask(d.(owed := d.owed - multiset{c}), c)
    case Close(c) => Removed(if c in d.handed then d else Rest(d, c), c)
  }

  /** The close callback; a job that the loop has not taken up is still on its way. */
  function Removed(d: Db, c: nat): Db {
    d.(ready := d.ready - {c}, busy := d.busy - {c}, connections := d.connections - {c},
       connecting := d.connecting - {c})
  }

  function Run(d: Db, events: seq<Event>): Db
    decreases |events|
  {
    if events == [] then d else Run(Step(d, events[0]), events[1..])
  }

  predicate MayRun(d: Db, events: seq<Event>)
    decreases |events|
  {
    events == [] || (MayHappen(d, events[0]) && MayRun(Step(d, events[0]), events[1..]))
  }

  // ---------------------------------------------------------------- what always holds

  /** A ready connection is not busy, and no job waits beside it; one that is being set up is nowhere else. */
  predicate Apart(d: Db) {
    && d.ready !! d.busy && d.ready !! d.connecting && d.ready !! d.greeting
    && d.connecting !! d.greeting && d.connecting !! d.busy && d.handed <= d.working.Keys
    && (forall c :: c in d.connecting + d.greeting ==> c !in d.working && c !in d.owed && c !in d.held)
    && (d.ready != {} ==> d.commands == [] && d.transactions == [])
  }

  /** Every accepted job is executed once or waits, first come first served, and the queue is bounded. */
  predicate InOrder(d: Db) {
    && d.accepted == d.executed + d.commands
    && d.requested == d.begun + d.transactions
    && |d.commands| <= QUEUE_LIMIT + 1
  }

  lemma Moved(done: seq<nat>, queue: seq<nat>)
    requires queue != []
    ensures (done + [queue[0]]) + queue[1..] == done + queue
  {
  }

  lemma Added(done: seq<nat>, queue: seq<nat>, id: nat)
    ensures (done + queue) + [id] == done + (queue + [id])
    ensures queue == [] ==> (done + queue) + [id] == (done + [id]) + queue
  {
  }

  lemma HandleKeepsOrder(d: Db, c: nat)
    requires InOrder(d)
    ensures InOrder(HandleNewTask(d, c))
  {
    if d.transactions != [] {
      Moved(d.begun, d.transactions);
    } else if d.commands != [] {
      Moved(d.executed, d.commands);
    }
  }

  lemma StepKeepsOrder(d: Db, e: Event)
    requires InOrder(d) && Apart(d)
    ensures InOrder(Step(d, e))
  {
    match e
    case Submit(id, c) => Added(d.executed, d.commands, id);
    case Request(id, c) => Added(d.begun, d.transactions, id);
    case Greet(c) => HandleKeepsOrder(d.(greeting := d.greeting - {c}), c);
    case Done(c) => HandleKeepsOrder(Rest(d, c), c);
    case Lambda(c) => HandleKeepsOrder(d.(owed := d.owed - multiset{c}), c);
    case _ =>
  }

  /** A connection that is given new work or made ready is set up. */
  lemma HandleKeepsApart(d: Db, c: nat)
    requires Apart(d) && c !in d.connecting + d.greeting
    ensures Apart(HandleNewTask(d, c))
  {
  }

  lemma TakeKeepsApart(d: Db, e: Event)
    requires Apart(d) && MayHappen(d, e) && (e.Submit? || e.Request?)
    ensures Apart(Step(d, e))
  {
  }

  lemma {:induction false} OpenKeepsApart(d: Db, e: Event)
    requires Apart(d) && MayHappen(d, e) && (e.Open? || e.Connected? || e.Close?)
    ensures Apart(Step(d, e))
  {
  }

  lemma {:induction false} EndKeepsApart(d: Db, e: Event)
    requires Apart(d) && MayHappen(d, e) && (e.UsedUp? || e.Destroyed?)
    ensures Apart(Step(d, e))
  {
  }

  lemma {:induction false} StepKeepsApart(d: Db, e: Event)
    requires Apart(d) && MayHappen(d, e)
    ensures Apart(Step(d, e))
  {
    match e
    case Submit(id, c) => TakeKeepsApart(d, e);
    case Request(id, c) => TakeKeepsApart(d, e);
    case Greet(c) => HandleKeepsApart(d.(greeting := d.greeting - {c}), c);
    case Done(c) => HandleKeepsApart(Rest(d, c), c);
    case Lambda(c) => HandleKeepsApart(d.(owed := d.owed - multiset{c}), c);
    case Open(c) => OpenKeepsApart(d, e);
    case Connected(c) => OpenKeepsApart(d, e);
    case Close(c) => OpenKeepsApart(d, e);
    case UsedUp(c, _, _) => EndKeepsApart(d, e);
    case Destroyed(c, _) => EndKeepsApart(d, e);
    case Starts(c) =>
  }

  lemma {:induction false} RunKeeps(d: Db, events: seq<Event>)
    requires Apart(d) && InOrder(d) && MayRun(d, events)
    ensures var r := Run(d, events); Apart(r) && InOrder(r)
    decreases |events|
  {
    if events != [] {
      StepKeepsApart(d, events[0]);
      StepKeepsOrder(d, events[0]);
      RunKeeps(Step(d, events[0]), events[1..]);
    }
  }

  /**
   In every reachable state: ready and busy are disjoint, a ready connection means empty queues, at most
   200001 commands wait, and what was accepted is what was executed followed by what waits.
   */
  lemma DispatcherIsSound(events: seq<Event>)
    requires MayRun(EMPTY, events)
    ensures var d := Run(EMPTY, events);
      && d.ready !! d.busy
      && (d.ready != {} ==> d.commands == [] && d.transactions == [])
      && |d.commands| <= 200001
      && d.accepted == d.executed + d.commands
      && d.requested == d.begun + d.transactions
  {
    RunKeeps(EMPTY, events);
  }

  // ---------------------------------------------------------------- who is served next

  /** The callbacks that give a connection its next work. */
  predicate Frees(e: Event) {
    e.Greet? || e.Done? || e.Lambda?
  }

  function Freed(events: seq<Event>): nat {
    if events == [] then 0 else (if Frees(events[0]) then 1 else 0) + Freed(events[1..])
  }

  /** The step neither makes a connection ready nor changes what is behind the next transaction. */
  lemma {:induction false} TransactionNext(d: Db, e: Event)
    requires d.ready == {} && MayHappen(d, e) && (Frees(e) ==> d.transactions != [])
    ensures var r := Step(d, e);
      && r.ready == {} && r.executed == d.executed
      && (Frees(e) ==> r.begun == d.begun + [d.transactions[0]] && r.transactions == d.transactions[1..])
      && (!Frees(e) ==> r.begun == d.begun && d.transactions <= r.transactions)
  {
  }

  /**
   Transactions first: of those that wait, as many begin as connections come free, the oldest first, and no
   command leaves the queue meanwhile, whatever else happens.
   */
  lemma {:induction false} TransactionsFirst(d: Db, events: seq<Event>)
    requires MayRun(d, events) && d.ready == {} && Freed(events) <= |d.transactions|
    ensures Run(d, events).begun == d.begun + d.transactions[..Freed(events)]
    ensures Run(d, events).executed == d.executed && Run(d, events).ready == {}
    decreases |events|
  {
    if events == [] {
      assert d.begun + d.transactions[..0] == d.begun;
    } else {
      var d1 := Step(d, events[0]);
      TransactionNext(d, events[0]);
      TransactionsFirst(d1, events[1..]);
      if Frees(events[0]) {
        TakeOne(d.begun, d.transactions, Freed(events[1..]));
      } else {
        assert d1.transactions[..Freed(events)] == d.transactions[..Freed(events)];
      }
    }
  }

  lemma {:induction false} TakeOne(done: seq<nat>, queue: seq<nat>, n: nat)
    requires n + 1 <= |queue|
    ensures (done + [queue[0]]) + queue[1..][..n] == done + queue[..n + 1]
  {
    assert [queue[0]] + queue[1..][..n] == queue[..n + 1];
  }

  predicate NoRequest(events: seq<Event>) {
    forall i :: 0 <= i < |events| ==> !events[i].Request?
  }

  lemma {:induction false} CommandNext(d: Db, e: Event)
    requires d.ready == {} && d.transactions == [] && MayHappen(d, e) && !e.Request? && (Frees(e) ==> d.commands != [])
    ensures var r := Step(d, e);
      && r.ready == {} && r.transactions == [] && r.begun == d.begun
      && (Frees(e) ==> r.executed == d.executed + [d.commands[0]] && r.commands == d.commands[1..])
      && (!Frees(e) ==> r.executed == d.executed && d.commands <= r.commands)
  {
  }

  /** Then the commands: with no transaction waiting or asked for, each connection that comes free takes the oldest. */
  lemma {:induction false} CommandsNext(d: Db, events: seq<Event>)
    requires MayRun(d, events) && NoRequest(events) && d.transactions == []
    requires d.ready == {} && Freed(events) <= |d.commands|
    ensures Run(d, events).executed == d.executed + d.commands[..Freed(events)]
    ensures Run(d, events).begun == d.begun && Run(d, events).ready == {}
    decreases |events|
  {
    if events == [] {
      assert d.executed + d.commands[..0] == d.executed;
    } else {
      var d1 := Step(d, events[0]);
      CommandNext(d, events[0]);
      CommandsNext(d1, events[1..]);
      if Frees(events[0]) {
        TakeOne(d.executed, d.commands, Freed(events[1..]));
      } else {
        assert d1.commands[..Freed(events)] == d.commands[..Freed(events)];
      }
    }
  }

  /** No connection is forgotten: each is being set up, ready or busy. */
  predicate Placed(d: Db) {
    d.connections <= d.connecting + d.ready + d.busy
  }

  lemma {:induction false} HandlePlaced(d: Db, c: nat)
    requires Placed(d)
    ensures Placed(HandleNewTask(d, c))
  {
  }

  lemma {:induction false} StepPlaced(d: Db, e: Event)
    requires Placed(d)
    ensures Placed(Step(d, e))
  {
    match e
    case Greet(c) => HandlePlaced(d.(greeting := d.greeting - {c}), c);
    case Done(c) => HandlePlaced(Rest(d, c), c);
    case Lambda(c) => HandlePlaced(d.(owed := d.owed - multiset{c}), c);
    case _ =>
  }

  lemma {:induction false} NoneForgotten(d: Db, events: seq<Event>)
    requires Placed(d)
    ensures Placed(Run(d, events))
    decreases |events|
  {
    if events != [] {
      StepPlaced(d, events[0]);
      NoneForgotten(Step(d, events[0]), events[1..]);
    }
  }

  // ---------------------------------------------------------------- what a finished transaction queues

  /** The ends of transactions on c while its status was not bad. */
  predicate EndsWell(e: Event, c: nat) {
    (e.UsedUp? || e.Destroyed?) && e.c == c && !e.bad
  }

  function WellEnded(events: seq<Event>, c: nat): nat {
    if events == [] then 0 else (if EndsWell(events[0], c) then 1 else 0) + WellEnded(events[1..], c)
  }

  function Lambdas(events: seq<Event>, c: nat): nat {
    if events == [] then 0 else (if events[0] == Lambda(c) then 1 else 0) + Lambdas(events[1..], c)
  }

  lemma {:induction false} OwedNext(d: Db, e: Event, c: nat)
    requires MayHappen(d, e)
    ensures Step(d, e).owed[c] + (if e == Lambda(c) then 1 else 0) ==
      d.owed[c] + if c in d.connections && EndsWell(e, c) then 1 else 0
    ensures c in Step(d, e).connections <==> (c in d.connections || e == Open(c)) && e != Close(c)
  {
  }

  /**
   While a connection exists, each end of a transaction with a good status queues one lambda, and
   nothing else does.
   */
  lemma {:induction false} OneLambdaPerEnd(d: Db, events: seq<Event>, c: nat)
    requires MayRun(d, events) && c in d.connections && Close(c) !in events
    ensures Lambdas(events, c) + Run(d, events).owed[c] == d.owed[c] + WellEnded(events, c)
    decreases |events|
  {
    if events != [] {
      OwedNext(d, events[0], c);
      OneLambdaPerEnd(Step(d, events[0]), events[1..], c);
    }
  }

  /** Once it was removed none is queued any more. */
  lemma {:induction false} NoLambdaBehindClose(d: Db, events: seq<Event>, c: nat)
    requires MayRun(d, events) && c !in d.connections && Open(c) !in events
    ensures Lambdas(events, c) + Run(d, events).owed[c] == d.owed[c]
    decreases |events|
  {
    if events != [] {
      OwedNext(d, events[0], c);
      NoLambdaBehindClose(Step(d, events[0]), events[1..], c);
    }
  }

  // ---------------------------------------------------------------- one job at a time

  /** The step gives a job to a connection, which is that of the event. */
  predicate Gives(d: Db, e: Event) {
    Step(d, e).executed != d.executed || Step(d, e).begun != d.begun
  }

  /** No ready connection is at work. */
  predicate ReadyIsIdle(d: Db) {
    d.ready !! d.working.Keys
  }

  /** The connection still works, on something else than the command that the event ends. */
  predicate AtWork(d: Db, e: Event, c: nat) {
    c in d.working && !e.Done?
  }

  /** In each state ready connections are idle, and each job is given to a connection that works on no other. */
  predicate OneJobEach(d: Db, events: seq<Event>)
    requires MayRun(d, events)
    decreases |events|
  {
    && ReadyIsIdle(d)
    && (events != [] ==>
          && (Gives(d, events[0]) ==> !AtWork(d, events[0], events[0].c))
          && OneJobEach(Step(d, events[0]), events[1..]))
  }

  /** No queued lambda runs for a connection while that is at work. */
  predicate NoLambdaAtWork(d: Db, events: seq<Event>)
    decreases |events|
  {
    events != [] ==>
      && (events[0].Lambda? ==> events[0].c !in d.working)
      && NoLambdaAtWork(Step(d, events[0]), events[1..])
  }

  /** Running handleNewTask gives a job or makes ready. */
  lemma HandleTouches(d: Db, c: nat)
    ensures var r := HandleNewTask(d, c);
      && r.connections == d.connections && r.connecting == d.connecting && r.greeting == d.greeting
      && (if r.executed == d.executed && r.begun == d.begun
          then r.ready == d.ready + {c} && r.busy == d.busy - {c} && r.working == d.working
          else r.ready == d.ready && r.busy == d.busy && r.working.Keys == d.working.Keys + {c})
  {
    if d.transactions != [] {
      assert HandleNewTask(d, c).begun[|d.begun|] == d.transactions[0];
    } else if d.commands != [] {
      assert HandleNewTask(d, c).executed[|d.executed|] == d.commands[0];
    }
  }

  /** What handleNewTask does to a connection that is not at work. */
  lemma HandleIsIdle(d: Db, c: nat)
    requires ReadyIsIdle(d) && c !in d.working && (d.ready != {} ==> d.commands == [] && d.transactions == [])
    ensures ReadyIsIdle(HandleNewTask(d, c))
  {
  }

  /** Done for one at work, it gives it a second job or makes it ready as it is. */
  lemma HandleAtWork(d: Db, c: nat)
    requires c in d.working
    ensures var r := HandleNewTask(d, c);
      r.executed == d.executed && r.begun == d.begun ==> !ReadyIsIdle(r)
  {
    HandleTouches(d, c);
  }

  lemma TakeIsIdle(d: Db, e: Event)
    requires Apart(d) && ReadyIsIdle(d) && MayHappen(d, e) && (e.Submit? || e.Request?)
    ensures ReadyIsIdle(Step(d, e)) && (Gives(d, e) ==> e.c !in d.working)
  {
  }

  lemma {:induction false} OtherIsIdle(d: Db, e: Event)
    requires Apart(d) && ReadyIsIdle(d) && MayHappen(d, e)
    requires e.Open? || e.Connected? || e.Starts? || e.UsedUp? || e.Destroyed? || e.Close?
    ensures ReadyIsIdle(Step(d, e)) && !Gives(d, e)
  {
  }

  lemma {:induction false} StepIsIdle(d: Db, e: Event)
    requires Apart(d) && ReadyIsIdle(d) && MayHappen(d, e)
    ensures ReadyIsIdle(Step(d, e)) && (Gives(d, e) ==> !AtWork(d, e, e.c)) <==> !(e.Lambda? && e.c in d.working)
  {
    match e
    case Submit(id, c) => TakeIsIdle(d, e);
    case Request(id, c) => TakeIsIdle(d, e);
    case Greet(c) => HandleIsIdle(d.(greeting := d.greeting - {c}), c);
    case Done(c) => HandleIsIdle(Rest(d, c), c);
    case Lambda(c) => LambdaIsIdle(d, c);
    case _ => OtherIsIdle(d, e);
  }

  lemma LambdaIsIdle(d: Db, c: nat)
    requires Apart(d) && ReadyIsIdle(d)
    ensures ReadyIsIdle(Step(d, Lambda(c))) && (Gives(d, Lambda(c)) ==> c !in d.working) <==> c !in d.working
  {
    var d1 := d.(owed := d.owed - multiset{c});
    if c in d.working {
      HandleAtWork(d1, c);
    } else {
      HandleIsIdle(d1, c);
    }
  }

  lemma {:induction false} OneJobFrom(d: Db, events: seq<Event>)
    requires Apart(d) && ReadyIsIdle(d) && MayRun(d, events)
    ensures OneJobEach(d, events) <==> NoLambdaAtWork(d, events)
    decreases |events|
  {
    if events != [] {
      var d1 := Step(d, events[0]);
      StepIsIdle(d, events[0]);
      StepKeepsApart(d, events[0]);
      if ReadyIsIdle(d1) {
        OneJobFrom(d1, events[1..]);
      }
    }
  }

  /**
   In every run: ready connections are idle and no connection is given a job on top of another, as the
   connections themselves assert, if and only if no lambda of a finished transaction runs for a connection at
   work.
   */
  lemma WorksOnOne(events: seq<Event>)
    requires MayRun(EMPTY, events)
    ensures OneJobEach(EMPTY, events) <==> NoLambdaAtWork(EMPTY, events)
  {
    OneJobFrom(EMPTY, events);
  }

  /** Without rolled back transactions there is no such lambda: each queued one finds its connection idle. */
  predicate NoRollback(events: seq<Event>) {
    forall i :: 0 <= i < |events| && events[i].UsedUp? ==> !events[i].rolledBack
  }

  /** A connection in between two jobs: one lambda is on its way. */
  predicate OwedOnce(d: Db) {
    && d.held == multiset{}
    && forall c :: c in d.owed ==> d.owed[c] == 1 && c !in d.working && c !in d.ready
  }

  /** A job given or a connection made ready: nothing was on its way to it. */
  lemma HandleOwed(d: Db, c: nat)
    requires OwedOnce(d) && c !in d.owed
    ensures OwedOnce(HandleNewTask(d, c))
  {
  }

  lemma TakeOwed(d: Db, e: Event)
    requires OwedOnce(d) && MayHappen(d, e) && (e.Submit? || e.Request?)
    ensures OwedOnce(Step(d, e))
  {
  }

  lemma LookUpOwed(d: Db, e: Event)
    requires ReadyIsIdle(d) && OwedOnce(d) && MayHappen(d, e) && e.UsedUp? && !e.rolledBack
    ensures OwedOnce(Step(d, e))
  {
  }

  lemma OwedStep(d: Db, e: Event)
    requires Apart(d) && ReadyIsIdle(d) && OwedOnce(d) && MayHappen(d, e) && (e.UsedUp? ==> !e.rolledBack)
    ensures ReadyIsIdle(Step(d, e)) && OwedOnce(Step(d, e)) && !(e.Lambda? && e.c in d.working)
  {
    StepIsIdle(d, e);
    match e
    case Submit(id, c) => TakeOwed(d, e);
    case Request(id, c) => TakeOwed(d, e);
    case UsedUp(c, bad, rolledBack) => LookUpOwed(d, e);
    case Greet(c) => HandleOwed(d.(greeting := d.greeting - {c}), c);
    case Done(c) => HandleOwed(Rest(d, c), c);
    case Lambda(c) => HandleOwed(d.(owed := d.owed - multiset{c}), c);
    case _ =>
  }

  lemma {:induction false} OwedFrom(d: Db, events: seq<Event>)
    requires Apart(d) && ReadyIsIdle(d) && OwedOnce(d) && MayRun(d, events) && NoRollback(events)
    ensures NoLambdaAtWork(d, events)
    decreases |events|
  {
    if events != [] {
      OwedStep(d, events[0]);
      StepKeepsApart(d, events[0]);
      assert NoRollback(events[1..]);
      OwedFrom(Step(d, events[0]), events[1..]);
    }
  }

  /** While no transaction is rolled back, each connection works on one job at a time. */
  lemma CommitsAreSafe(events: seq<Event>)
    requires MayRun(EMPTY, events) && NoRollback(events)
    ensures OneJobEach(EMPTY, events)
  {
    OwedFrom(EMPTY, events);
    WorksOnOne(events);
  }

  // ---------------------------------------------------------------- submissions

  /** What the caller submitted, in order, is split into what was accepted and what was refused. */
  function Submitted(events: seq<Event>): seq<nat> {
    if events == [] then []
    else (if events[0].Submit? then [events[0].id] else []) + Submitted(events[1..])
  }

  lemma {:induction false} StepCounts(d: Db, e: Event)
    ensures var r := Step(d, e);
      multiset(r.accepted) + multiset(r.rejected) ==
        multiset(d.accepted) + multiset(d.rejected) + if e.Submit? then multiset{e.id} else multiset{}
  {
    if e.Submit? {
      assert multiset(d.accepted + [e.id]) == multiset(d.accepted) + multiset{e.id};
      assert multiset(d.rejected + [e.id]) == multiset(d.rejected) + multiset{e.id};
    } else {
      assert Step(d, e).accepted == d.accepted && Step(d, e).rejected == d.rejected;
    }
  }

  /** The submissions made while 200001 accepted commands had not been executed yet. */
  function MadeWhenFull(d: Db, events: seq<Event>): seq<nat>
    decreases |events|
  {
    if events == [] then []
    else
      var full := |d.accepted| == |d.executed| + 200001;
      (if events[0].Submit? && full then [events[0].id] else []) + MadeWhenFull(Step(d, events[0]), events[1..])
  }

  lemma {:induction false} RefusalsFrom(d: Db, events: seq<Event>)
    requires Apart(d) && InOrder(d) && MayRun(d, events)
    ensures Run(d, events).rejected == d.rejected + MadeWhenFull(d, events)
    decreases |events|
  {
    if events != [] {
      var e, d1 := events[0], Step(d, events[0]);
      StepKeepsApart(d, e);
      StepKeepsOrder(d, e);
      RefusalsFrom(d1, events[1..]);
      var now := OneRefusal(d, e);
      Bracket(d.rejected, now, MadeWhenFull(d1, events[1..]));
    }
  }

  lemma OneRefusal(d: Db, e: Event) returns (now: seq<nat>)
    requires Apart(d) && InOrder(d)
    ensures now == if e.Submit? && |d.accepted| == |d.executed| + 200001 then [e.id] else []
    ensures Step(d, e).rejected == d.rejected + now
  {
    now := if e.Submit? && |d.accepted| == |d.executed| + 200001 then [e.id] else [];
  }

  lemma Bracket(a: seq<nat>, b: seq<nat>, c: seq<nat>)
    ensures (a + b) + c == a + (b + c)
  {
  }

  /** The commands refused in a run are those submitted while 200001 accepted ones had not been executed. */
  lemma RefusedWhenFull(events: seq<Event>)
    requires MayRun(EMPTY, events)
    ensures Run(EMPTY, events).rejected == MadeWhenFull(EMPTY, events)
  {
    RefusalsFrom(EMPTY, events);
  }

  lemma {:induction false} EachSubmissionOnce(d: Db, events: seq<Event>)
    ensures var r := Run(d, events);
      multiset(r.accepted) + multiset(r.rejected) ==
        multiset(d.accepted) + multiset(d.rejected) + multiset(Submitted(events))
    decreases |events|
  {
    if events != [] {
      var e, tail := events[0], events[1..];
      StepCounts(d, e);
      EachSubmissionOnce(Step(d, e), tail);
      assert multiset(Submitted(events)) ==
        (if e.Submit? then multiset{e.id} else multiset{}) + multiset(Submitted(tail));
    }
  }

  /** Each submitted command ends up in exactly one place: refused, executed, or waiting. */
  lemma WorkIsConserved(events: seq<Event>)
    requires MayRun(EMPTY, events)
    ensures var d := Run(EMPTY, events);
      multiset(Submitted(events)) == multiset(d.rejected) + multiset(d.executed) + multiset(d.commands)
  {
    EachSubmissionOnce(EMPTY, events);
    DispatcherIsSound(events);
    var d := Run(EMPTY, events);
    assert multiset(d.accepted) == multiset(d.executed + d.commands) == multiset(d.executed) + multiset(d.commands);
    var none := multiset(EMPTY.accepted) + multiset(EMPTY.rejected);
    assert none == multiset{};
    assert multiset(d.accepted) + multiset(d.rejected) == multiset(Submitted(events));
  }

  // ---------------------------------------------------------------- connections that are gone

  /** Only connections that exist are ready, busy or being set up. */
  predicate Live(d: Db) {
    d.ready + d.busy + d.connecting + d.greeting <= d.connections
  }

  /** In each state, and each job is given to a connection that exists. */
  predicate AlwaysLive(d: Db, events: seq<Event>)
    requires MayRun(d, events)
    decreases |events|
  {
    && Live(d)
    && (events != [] ==>
          && (Gives(d, events[0]) ==> events[0].c in d.connections)
          && AlwaysLive(Step(d, events[0]), events[1..]))
  }

  /** The event runs handleNewTask for a connection that was closed meanwhile. */
  predicate ComesLate(d: Db, e: Event) {
    (e.Lambda? || e.Done?) && e.c !in d.connections
  }

  /** Neither a lambda of a finished transaction nor the idle callback of a command runs behind a close. */
  predicate NothingLate(d: Db, events: seq<Event>)
    decreases |events|
  {
    events != [] ==> !ComesLate(d, events[0]) && NothingLate(Step(d, events[0]), events[1..])
  }

  /** What handleNewTask does to connections that exist, and to one that does not. */
  lemma {:induction false} HandleLive(d: Db, c: nat)
    requires Live(d)
    ensures var r := HandleNewTask(d, c);
      Live(r) && (r.executed != d.executed || r.begun != d.begun ==> c in d.connections) <==> c in d.connections
  {
    HandleTouches(d, c);
  }

  lemma {:induction false} TakeLive(d: Db, e: Event)
    requires Live(d) && MayHappen(d, e) && (e.Submit? || e.Request?)
    ensures Live(Step(d, e)) && (Gives(d, e) ==> e.c in d.connections)
  {
  }

  lemma {:induction false} StepLive(d: Db, e: Event)
    requires Live(d) && MayHappen(d, e)
    ensures Live(Step(d, e)) && (Gives(d, e) ==> e.c in d.connections) <==> !ComesLate(d, e)
  {
    match e
    case Submit(id, c) => TakeLive(d, e);
    case Request(id, c) => TakeLive(d, e);
    case Lambda(c) => HandleLive(d.(owed := d.owed - multiset{c}), c);
    case Greet(c) => HandleLive(d.(greeting := d.greeting - {c}), c);
    case Done(c) => HandleLive(Rest(d, c), c);
    case _ =>
  }

  lemma {:induction false} LiveFrom(d: Db, events: seq<Event>)
    requires Live(d) && MayRun(d, events)
    ensures AlwaysLive(d, events) <==> NothingLate(d, events)
    decreases |events|
  {
    if events != [] {
      StepLive(d, events[0]);
      if Live(Step(d, events[0])) {
        LiveFrom(Step(d, events[0]), events[1..]);
      }
    }
  }

  /**
   In every run: only existing connections are ready, busy or given work, if and only if neither a lambda
   of a finished transaction nor an idle callback runs for a connection closed before it.
   */
  lemma StaysLive(events: seq<Event>)
    requires MayRun(EMPTY, events)
    ensures AlwaysLive(EMPTY, events) <==> NothingLate(EMPTY, events)
  {
    LiveFrom(EMPTY, events);
  }

  /** Until something comes late, a closed connection has at most a job that its loop had not taken up at the close. */
  predicate OnlyHandedLeft(d: Db) {
    forall c :: c in d.working && c !in d.connections ==> c in d.handed
  }

  lemma LateStep(d: Db, e: Event)
    requires Apart(d) && Live(d) && OnlyHandedLeft(d) && MayHappen(d, e) && !ComesLate(d, e)
    ensures OnlyHandedLeft(Step(d, e))
  {
    StepLive(d, e);
    match e
    case Lambda(c) => HandleTouches(d.(owed := d.owed - multiset{c}), c);
    case Greet(c) => HandleTouches(d.(greeting := d.greeting - {c}), c);
    case Done(c) => HandleTouches(Rest(d, c), c);
    case _ =>
  }

  lemma {:induction false} LateFrom(d: Db, events: seq<Event>)
    requires Apart(d) && Live(d) && OnlyHandedLeft(d) && MayRun(d, events) && NothingLate(d, events)
    ensures OnlyHandedLeft(Run(d, events))
    decreases |events|
  {
    if events != [] {
      LateStep(d, events[0]);
      StepLive(d, events[0]);
      StepKeepsApart(d, events[0]);
      LateFrom(Step(d, events[0]), events[1..]);
    }
  }

  /** The first idle callback behind a close is that of a command handed over from another thread before it. */
  lemma LateCommandWasHanded(events: seq<Event>, c: nat)
    requires MayRun(EMPTY, events) && NothingLate(EMPTY, events)
    requires MayHappen(Run(EMPTY, events), Done(c)) && c !in Run(EMPTY, events).connections
    ensures c in Run(EMPTY, events).handed
  {
    LateFrom(EMPTY, events);
  }

  // ---------------------------------------------------------------- concrete runs

  lemma OneStep(d: Db, e: Event, d1: Db, rest: seq<Event>)
    requires MayHappen(d, e) && Step(d, e) == d1
    ensures Run(d, [e] + rest) == Run(d1, rest) && (MayRun(d, [e] + rest) <==> MayRun(d1, rest))
  {
    assert ([e] + rest)[1..] == rest;
  }

  lemma Front(e: Event, f: Event, rest: seq<Event>)
    ensures [e, f] + rest == [e] + ([f] + rest)
  {
  }

  lemma TwoSteps(d: Db, e: Event, d1: Db, f: Event, d2: Db, rest: seq<Event>)
    requires MayHappen(d, e) && Step(d, e) == d1 && MayHappen(d1, f) && Step(d1, f) == d2
    ensures Run(d, [e, f] + rest) == Run(d2, rest) && (MayRun(d, [e, f] + rest) <==> MayRun(d2, rest))
  {
    Front(e, f, rest);
    OneStep(d, e, d1, [f] + rest);
    OneStep(d1, f, d2, rest);
  }

  /** A connection that was set up and has nothing to do, and the same at work on a transaction. */
  const IDLE := EMPTY.(connections := {1}, ready := {1})
  const AT_WORK := IDLE.(ready := {}, busy := {1}, working := map[1 := Trans(7)], requested := [7], begun := [7])

  const SET_UP := [Open(1), Connected(1)] + [Greet(1)]
  const BEGIN := [Request(7, 1), Starts(1)]

  lemma {:induction false} SetUp(rest: seq<Event>)
    ensures (MayRun(EMPTY, SET_UP + rest) <==> MayRun(IDLE, rest)) && Run(EMPTY, SET_UP + rest) == Run(IDLE, rest)
  {
    var d1 := EMPTY.(connections := {1}, connecting := {1});
    var d2 := EMPTY.(connections := {1}, busy := {1}, greeting := {1});
    assert SET_UP + rest == [Open(1), Connected(1)] + ([Greet(1)] + rest);
    TwoSteps(EMPTY, Open(1), d1, Connected(1), d2, [Greet(1)] + rest);
    OneStep(d2, Greet(1), IDLE, rest);
  }

  lemma {:induction false} Begins(rest: seq<Event>)
    ensures (MayRun(IDLE, BEGIN + rest) <==> MayRun(AT_WORK, rest)) && Run(IDLE, BEGIN + rest) == Run(AT_WORK, rest)
  {
    TwoSteps(IDLE, Request(7, 1), AT_WORK.(handed := {1}), Starts(1), AT_WORK, rest);
  }

  /** Once closed it is no connection, and once back it takes the next command. */
  lemma {:induction false} ComesBack()
    ensures var events := [UsedUp(1, false, false), Close(1)] + [Lambda(1), Submit(8, 1)];
      MayRun(AT_WORK, events) && var d := Run(AT_WORK, events); 1 !in d.connections && d.working == map[1 := Sql(8)]
  {
    var d1 := AT_WORK.(working := map[], owed := multiset{1});
    var d2 := d1.(busy := {}, connections := {});
    var d3 := d2.(ready := {1}, owed := multiset{});
    var d4 := d2.(busy := {1}, owed := multiset{}, working := map[1 := Sql(8)], handed := {1}, accepted := [8],
      executed := [8]);
    TwoSteps(AT_WORK, UsedUp(1, false, false), d1, Close(1), d2, [Lambda(1), Submit(8, 1)]);
    TwoSteps(d2, Lambda(1), d3, Submit(8, 1), d4, []);
    assert [Lambda(1), Submit(8, 1)] + [] == [Lambda(1), Submit(8, 1)];
  }

  /** A transaction ends, its connection closes, and then comes back as ready and is given the next command. */
  lemma {:induction false} ClosedConnectionReturns()
    ensures var events := SET_UP + (BEGIN + ([UsedUp(1, false, false), Close(1)] + [Lambda(1), Submit(8, 1)]));
      MayRun(EMPTY, events) && var d := Run(EMPTY, events); 1 !in d.connections && d.working == map[1 := Sql(8)]
  {
    var events := [UsedUp(1, false, false), Close(1)] + [Lambda(1), Submit(8, 1)];
    SetUp(BEGIN + events);
    Begins(events);
    ComesBack();
  }

  const HANDED := IDLE.(ready := {}, busy := {1}, working := map[1 := Sql(7)], handed := {1}, accepted := [7],
    executed := [7])

  lemma {:induction false} HandedOver(rest: seq<Event>)
    ensures var events := [Submit(7, 1), Close(1)] + rest;
      var d := HANDED.(busy := {}, connections := {});
      Run(IDLE, events) == Run(d, rest) && (MayRun(IDLE, events) <==> MayRun(d, rest))
  {
    TwoSteps(IDLE, Submit(7, 1), HANDED, Close(1), HANDED.(busy := {}, connections := {}), rest);
  }

  lemma {:induction false} FailsBehindClose()
    ensures var d := HANDED.(busy := {}, connections := {});
      MayRun(d, [Done(1)]) && Run(d, [Done(1)]).ready == {1} && Run(d, [Done(1)]).connections == {}
  {
    var d := HANDED.(busy := {}, connections := {});
    OneStep(d, Done(1), d.(ready := {1}, working := map[], handed := {}), []);
    assert [Done(1)] + [] == [Done(1)];
  }

  /** A command is handed over, the connection closes first, the command fails, and the connection is ready again. */
  lemma {:induction false} FailedCommandReturns()
    ensures var events := SET_UP + ([Submit(7, 1), Close(1)] + [Done(1)]);
      MayRun(EMPTY, events) && Run(EMPTY, events).ready == {1} && Run(EMPTY, events).connections == {}
  {
    SetUp([Submit(7, 1), Close(1)] + [Done(1)]);
    HandedOver([Done(1)]);
    FailsBehindClose();
  }

  /** The object of a rolled back transaction gives its connection back twice. */
  const ROLLBACK := [UsedUp(1, false, true), Destroyed(1, false)]
  const TWO_WAIT := AT_WORK.(commands := [8, 9], accepted := [8, 9])
  const GIVEN_BACK := TWO_WAIT.(working := map[], owed := multiset{1, 1})

  lemma {:induction false} RollsBack(rest: seq<Event>)
    ensures var events := [Submit(8, 1), Submit(9, 1)] + (ROLLBACK + rest);
      (MayRun(AT_WORK, events) <==> MayRun(GIVEN_BACK, rest)) && Run(AT_WORK, events) == Run(GIVEN_BACK, rest)
  {
    var d1 := AT_WORK.(commands := [8], accepted := [8]);
    var d2 := TWO_WAIT.(working := map[], owed := multiset{1}, held := multiset{1});
    TwoSteps(AT_WORK, Submit(8, 1), d1, Submit(9, 1), TWO_WAIT, ROLLBACK + rest);
    TwoSteps(TWO_WAIT, UsedUp(1, false, true), d2, Destroyed(1, false), GIVEN_BACK, rest);
  }

  lemma {:induction false} BothLambdas()
    ensures MayRun(GIVEN_BACK, [Lambda(1)]) && Run(GIVEN_BACK, [Lambda(1)]).working == map[1 := Sql(8)]
    ensures MayRun(GIVEN_BACK, [Lambda(1), Lambda(1)])
    ensures Run(GIVEN_BACK, [Lambda(1), Lambda(1)]).working == map[1 := Sql(9)]
  {
    var d1 := GIVEN_BACK.(working := map[1 := Sql(8)], owed := multiset{1}, commands := [9], executed := [8]);
    var d2 := GIVEN_BACK.(working := map[1 := Sql(9)], owed := multiset{}, commands := [], executed := [8, 9]);
    OneStep(GIVEN_BACK, Lambda(1), d1, []);
    TwoSteps(GIVEN_BACK, Lambda(1), d1, Lambda(1), d2, []);
    assert [Lambda(1)] + [] == [Lambda(1)] && [Lambda(1), Lambda(1)] + [] == [Lambda(1), Lambda(1)];
  }

  function RolledBack(lambdas: seq<Event>): seq<Event> {
    SET_UP + (BEGIN + ([Submit(8, 1), Submit(9, 1)] + (ROLLBACK + lambdas)))
  }

  /** From the start: after a rollback with two commands waiting, the connection is given 9 while it works on 8. */
  lemma {:induction false} GivenBackTwice()
    ensures MayRun(EMPTY, RolledBack([Lambda(1), Lambda(1)]))
    ensures Run(EMPTY, RolledBack([Lambda(1)])).working == map[1 := Sql(8)]
    ensures Run(EMPTY, RolledBack([Lambda(1), Lambda(1)])).working == map[1 := Sql(9)]
  {
    FromStart([Lambda(1)]);
    FromStart([Lambda(1), Lambda(1)]);
    BothLambdas();
  }

  lemma {:induction false} FromStart(lambdas: seq<Event>)
    ensures (MayRun(EMPTY, RolledBack(lambdas)) <==> MayRun(GIVEN_BACK, lambdas))
    ensures Run(EMPTY, RolledBack(lambdas)) == Run(GIVEN_BACK, lambdas)
  {
    SetUp(BEGIN + ([Submit(8, 1), Submit(9, 1)] + (ROLLBACK + lambdas)));
    Begins([Submit(8, 1), Submit(9, 1)] + (ROLLBACK + lambdas));
    RollsBack(lambdas);
  }
}

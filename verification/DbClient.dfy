/** DbClientImpl's members and callbacks, which keep the dispatcher's invariant. */
module DbClient {
  import opened Wrappers
  import opened DbDispatch

  class DbClientImpl {
    var connections: set<nat>
    var readyConnections: set<nat>
    var busyConnections: set<nat>
    var transCallbacks: seq<nat>
    var sqlCmdBuffer: seq<nat>
    /** The rest of the picture: where connections stand, and what was done. */
    ghost var connecting: set<nat>
    ghost var greeting: set<nat>
    ghost var working: map<nat, Job>
    ghost var handed: set<nat>
    ghost var owed: multiset<nat>
    ghost var held: multiset<nat>
    ghost var accepted: seq<nat>
    ghost var rejected: seq<nat>
    ghost var executed: seq<nat>
    ghost var requested: seq<nat>
    ghost var begun: seq<nat>

    ghost function State(): Db
      reads this
    {
      Db(connections, readyConnections, busyConnections, transCallbacks, sqlCmdBuffer, connecting, greeting,
         working, handed, owed, held, accepted, rejected, executed, requested, begun)
    }

    /** Ready and busy are apart, no job waits beside a ready connection, and all work is done or waits in order. */
    ghost predicate Valid()
      reads this
    {
      Apart(State()) && InOrder(State())
    }

    constructor ()
      ensures Valid() && State() == EMPTY
    {
      connections, readyConnections, busyConnections, transCallbacks, sqlCmdBuffer := {}, {}, {}, [], [];
      connecting, greeting, working, handed, owed, held := {}, {}, map[], {}, multiset{}, multiset{};
      accepted, rejected, executed, requested, begun := [], [], [], [], [];
    }

    /** Gives a command to a connection, from another thread or in its own loop. */
    ghost method ExecOn(c: nat, id: nat, inLoop: bool)
      modifies this`working, this`handed, this`executed
      ensures State() == if inLoop then Execute(old(State()), c, id) else HandOver(old(State()), c, id)
    {
      working, executed := working[c := Sql(id)], executed + [id];
      handed := if inLoop then handed - {c} else handed + {c};
    }

    /** Gives a transaction to a connection. */
    ghost method MakeTrans(c: nat, id: nat)
      modifies this`working, this`handed, this`begun
      ensures State() == Begin(old(State()), c, id)
    {
      working, handed, begun := working[c := Trans(id)], handed + {c}, begun + [id];
    }

    /** Some ready connection becomes busy. */
    method TakeReady() returns (c: nat)
      requires readyConnections != {}
      modifies this`readyConnections, this`busyConnections
      ensures c in old(readyConnections) && State() == Occupy(old(State()), c)
    {
      c :| c in readyConnections;
      busyConnections := busyConnections + {c};
      readyConnections := readyConnections - {c};
    }

    /** The command goes to an idle connection, waits, or is refused because 200001 others wait already. */
    method ExecSqlCmd(id: nat) returns (taken: Option<nat>, busy: bool)
      requires Valid()
      modifies this
      ensures Valid()
      ensures taken.Some? <==> old(readyConnections) != {}
      ensures taken.Some? ==> taken.value in old(readyConnections)
      ensures busy <==> |old(accepted)| == |old(executed)| + 200001
      ensures State() == ExecSql(old(State()), id, if taken.Some? then taken.value else 0)
    {
      taken, busy := None, false;
      ghost var d := State();
      if readyConnections == {} {
        if |sqlCmdBuffer| > QUEUE_LIMIT {
          busy := true;
          rejected := rejected + [id];
        } else {
          sqlCmdBuffer := sqlCmdBuffer + [id];
          accepted := accepted + [id];
        }
      } else {
        var c := TakeReady();
        accepted := accepted + [id];
        taken := Some(c);
      }
      if taken.Some? {
        ExecOn(taken.value, id, false);
      }
      StepKeeps(d, Submit(id, if taken.Some? then taken.value else 0));
    }

    method NewTransactionAsync(id: nat) returns (taken: Option<nat>)
      requires Valid()
      modifies this
      ensures Valid()
      ensures taken.Some? <==> old(readyConnections) != {}
      ensures taken.Some? ==> taken.value in old(readyConnections)
      ensures State() == NewTransaction(old(State()), id, if taken.Some? then taken.value else 0)
    {
      taken := None;
      ghost var d := State();
      requested := requested + [id];
      if readyConnections != {} {
        var c := TakeReady();
        taken := Some(c);
      } else {
        transCallbacks := transCallbacks + [id];
      }
      if taken.Some? {
        MakeTrans(taken.value, id);
      }
      StepKeeps(d, Request(id, if taken.Some? then taken.value else 0));
    }

    /** An idle connection gets the oldest transaction, else the oldest command, else it becomes ready. */
    method NewTask(c: nat) returns (job: Option<Job>)
      requires Valid()
      requires c !in connecting + greeting
      modifies this
      ensures Valid()
      ensures if job.Some? then c in working && working[c] == job.value else c in readyConnections
      ensures job.None? <==> old(transCallbacks) == [] && old(sqlCmdBuffer) == []
      ensures State() == HandleNewTask(old(State()), c)
    {
      job := None;
      ghost var d := State();
      if transCallbacks != [] {
        job := Some(Trans(transCallbacks[0]));
        transCallbacks := transCallbacks[1..];
      } else if sqlCmdBuffer != [] {
        job := Some(Sql(sqlCmdBuffer[0]));
        sqlCmdBuffer := sqlCmdBuffer[1..];
      } else {
        busyConnections := busyConnections - {c};
        readyConnections := readyConnections + {c};
      }
      match job {
        case Some(Trans(id)) => MakeTrans(c, id);
        case Some(Sql(id)) => ExecOn(c, id, true);
        case None =>
      }
      HandleKeepsApart(d, c);
      HandleKeepsOrder(d, c);
    }

    method NewConnection(c: nat)
      requires Valid() && MayHappen(State(), Open(c))
      modifies this
      ensures Valid() && State() == Step(old(State()), Open(c))
    {
      ghost var d := State();
      connecting := connecting + {c};
      connections := connections + {c};
      StepKeeps(d, Open(c));
    }

    method ConnectedSection(c: nat)
      requires Valid() && MayHappen(State(), Connected(c))
      modifies this`connecting, this`greeting, this`busyConnections
      ensures Valid() && State() == Step(old(State()), Connected(c)) && MayHappen(State(), Greet(c))
    {
      ghost var d := State();
      connecting, greeting := connecting - {c}, greeting + {c};
      busyConnections := busyConnections + {c};
      assert State() == Step(d, Connected(c));
      StepKeeps(d, Connected(c));
    }

    method GreetSection(c: nat) returns (job: Option<Job>)
      requires Valid() && MayHappen(State(), Greet(c))
      modifies this
      ensures Valid() && State() == Step(old(State()), Greet(c))
    {
      ghost var d := State();
      greeting := greeting - {c};
      assert State() == d.(greeting := d.greeting - {c});
      job := NewTask(c);
    }

    /** The ok callback, which is not one section but two. */
    method OnOk(c: nat) returns (job: Option<Job>)
      requires Valid() && MayHappen(State(), Connected(c))
      modifies this
      ensures Valid() && State() == Step(Step(old(State()), Connected(c)), Greet(c))
    {
      ConnectedSection(c);
      job := GreetSection(c);
    }

    method OnIdle(c: nat) returns (job: Option<Job>)
      requires Valid() && MayHappen(State(), Done(c))
      modifies this
      ensures Valid() && State() == Step(old(State()), Done(c))
    {
      working, handed := working - {c}, handed - {c};
      job := NewTask(c);
    }

    /**
     The used-up callback; `queued` tells whether it queues the lambda.  Of the look-ups the source
     combines, the one in the busy set compares a thing with itself.
     */
    method LookUpConnection(c: nat, bad: bool) returns (queued: bool)
      modifies this`owed
      ensures State() == LookUp(old(State()), c, bad)
      ensures queued <==> !bad && c in connections
    {
      if bad {
        return false;
      }
      if c !in connections {
        return false;
      }
      owed := owed + multiset{c};
      queued := true;
    }

    /** A transaction ends; if it was rolled back its object will call once more. */
    method OnUsedUp(c: nat, bad: bool, ghost rolledBack: bool) returns (queued: bool)
      requires Valid() && MayHappen(State(), UsedUp(c, bad, rolledBack))
      modifies this`working, this`handed, this`held, this`owed
      ensures Valid() && State() == Step(old(State()), UsedUp(c, bad, rolledBack))
      ensures queued <==> !bad && c in connections
    {
      ghost var d := State();
      working, handed := working - {c}, handed - {c};
      held := if rolledBack then held + multiset{c} else held;
      ghost var d1 := Rest(d, c).(held := if rolledBack then d.held + multiset{c} else d.held);
      assert State() == d1;
      queued := LookUpConnection(c, bad);
      assert State() == LookUp(d1, c, bad);
      StepKeeps(d, UsedUp(c, bad, rolledBack));
    }

    /** ~TransactionImpl after a rollback. */
    method OnDestroyed(c: nat, bad: bool) returns (queued: bool)
      requires Valid() && MayHappen(State(), Destroyed(c, bad))
      modifies this`held, this`owed
      ensures Valid() && State() == Step(old(State()), Destroyed(c, bad))
      ensures queued <==> !bad && c in connections
    {
      ghost var d := State();
      held := held - multiset{c};
      queued := LookUpConnection(c, bad);
      StepKeeps(d, Destroyed(c, bad));
    }

    method OnUsedUpLater(c: nat) returns (job: Option<Job>)
      requires Valid() && MayHappen(State(), Lambda(c))
      modifies this
      ensures Valid() && State() == Step(old(State()), Lambda(c))
    {
      owed := owed - multiset{c};
      job := NewTask(c);
    }

    /** The sets that the close callback erases the connection from, and that of those being set up. */
    method Erase(c: nat)
      modifies this`readyConnections, this`busyConnections, this`connections, this`connecting
      ensures State() == Removed(old(State()), c)
    {
      readyConnections := readyConnections - {c};
      busyConnections := busyConnections - {c};
      connections := connections - {c};
      connecting := connecting - {c};
    }

    method OnClose(c: nat)
      requires Valid() && MayHappen(State(), Close(c))
      modifies this
      ensures Valid() && State() == Step(old(State()), Close(c))
    {
      ghost var d := State();
      working := if c in handed then working else working - {c};
      assert State() == if c in d.handed then d else Rest(d, c);
      Erase(c);
      StepKeeps(d, Close(c));
    }
  }

  lemma StepKeeps(d: Db, e: Event)
    requires Apart(d) && InOrder(d) && MayHappen(d, e)
    ensures Apart(Step(d, e)) && InOrder(Step(d, e))
  {
    StepKeepsApart(d, e);
    StepKeepsOrder(d, e);
  }
}

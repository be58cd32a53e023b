/**
 The life of a statement, src/main/query_context.cpp, with the session of src/main/session.cppm and the phases of
 src/main/profiler.cpp. Each stage of a statement may raise a recoverable error or a parser exception; which stage does
 is a parameter.
 */
module QueryContext {
  import opened Wrappers

  // ----- phases -----

  datatype Phase = LogicalPlan | Optimizer | PhysicalPlan | PipelineBuild | TaskBuild | Execution | Commit | Rollback

  /** What the profilers of the phases record. */
  datatype Event = Begin(phase: Phase) | End(phase: Phase)

  /** The stages of a statement that raises no error. */
  const STAGES: seq<Phase> := [LogicalPlan, Optimizer, PhysicalPlan, PipelineBuild, TaskBuild, Execution, Commit]

  /** The exception that a stage raises. */
  datatype Failure = Recoverable(stage: nat) | Parser(stage: nat)

  predicate Fails(failing: Option<Failure>) {
    failing.Some? && failing.value.stage < |STAGES|
  }

  /** Only recoverable errors are followed by a rollback. */
  predicate RollsBack(failing: Option<Failure>) {
    Fails(failing) && failing.value.Recoverable?
  }

  predicate LeavesOpen(failing: Option<Failure>) {
    Fails(failing) && failing.value.Parser?
  }

  /** What is recorded for a statement: the phases up to the failing stage, which a parser exception leaves open. */
  ghost function LogOf(failing: Option<Failure>): seq<Event> {
    if !Fails(failing) then Recorded(STAGES)
    else if RollsBack(failing) then Recorded(STAGES[..failing.value.stage + 1] + [Rollback])
    else Recorded(STAGES[..failing.value.stage]) + [Begin(STAGES[failing.value.stage])]
  }

  /** Each phase is closed before the next one begins. */
  ghost function Recorded(phases: seq<Phase>): seq<Event> {
    if phases == [] then []
    else
      var last := phases[|phases| - 1];
      Recorded(phases[..|phases| - 1]) + [Begin(last), End(last)]
  }

  lemma RecordedOneMore(phases: seq<Phase>, next: Phase)
    ensures Recorded(phases + [next]) == Recorded(phases) + [Begin(next), End(next)]
  {
    assert (phases + [next])[..|phases|] == phases;
  }

  /** A phase cut short by an error, then the rollback. */
  lemma RecordedRollback(log: seq<Event>, phases: seq<Phase>, p: Phase)
    ensures log + Recorded(phases) + [Begin(p)] + [End(p)] + [Begin(Rollback)] + [End(Rollback)]
         == log + Recorded(phases + [p] + [Rollback])
  {
    RecordedOneMore(phases, p);
    RecordedOneMore(phases + [p], Rollback);
  }

  class QueryProfiler {
    const enabled: bool
    var current: Option<Phase>
    /** An unrecoverable error was raised. */
    var crashed: bool
    ghost var events: seq<Event>

    constructor (enabled: bool)
      ensures this.enabled == enabled && current == None && !crashed && events == []
    {
      this.enabled := enabled;
      current, crashed, events := None, false, [];
    }

    method StartPhase(phase: Phase)
      modifies this
      ensures crashed <==> old(crashed) || (enabled && old(current).Some?)
      ensures current == if enabled && old(current).None? then Some(phase) else old(current)
      ensures events == if enabled && old(current).None? then old(events) + [Begin(phase)] else old(events)
    {
      if !enabled {
        return;
      }
      if current.None? {
        current := Some(phase);
      } else {
        crashed := true;
        return;
      }
      events := events + [Begin(phase)];
    }

    method StopPhase(phase: Phase)
      modifies this
      ensures crashed <==> old(crashed) || (enabled && old(current).None?)
      ensures current == if enabled then None else old(current)
      ensures events == if enabled && old(current).Some? then old(events) + [End(phase)] else old(events)
    {
      if !enabled {
        return;
      }
      if current.None? {
        crashed := true;
        return;
      }
      current := None;
      events := events + [End(phase)];
    }

    method Stop()
      modifies this
      ensures crashed == old(crashed) && current == None
      ensures events == if old(current).Some? then old(events) + [End(old(current).value)] else old(events)
    {
      if current.None? {
        return;
      }
      events := events + [End(current.value)];
      current := None;
    }
  }

  // ----- transactions -----

  datatype Txn = Txn(id: nat)

  class TxnManager {
    var nextId: nat
    var active: set<Txn>
    var committed: nat
    var rollbacked: nat

    ghost predicate Valid()
      reads this
    {
      forall t | t in active :: t.id < nextId
    }

    constructor ()
      ensures Valid() && active == {} && nextId == committed == rollbacked == 0
    {
      nextId, active, committed, rollbacked := 0, {}, 0, 0;
    }

    method BeginTxn() returns (t: Txn)
      requires Valid()
      modifies this
      ensures Valid() && t !in old(active) && active == old(active) + {t} && nextId == old(nextId) + 1
      ensures committed == old(committed) && rollbacked == old(rollbacked)
    {
      t := Txn(nextId);
      nextId := nextId + 1;
      active := active + {t};
    }

    /** Ends the transaction; a failing commit leaves it active. */
    method EndTxn(t: Txn)
      requires Valid()
      modifies this`active
      ensures Valid() && active == old(active) - {t}
    {
      active := active - {t};
    }
  }

  class Session {
    var txn: Option<Txn>
    var queryCount: nat
    var committedTxnCount: nat
    var rollbackedTxnCount: nat

    constructor ()
      ensures txn == None && queryCount == 0 && committedTxnCount == 0 && rollbackedTxnCount == 0
    {
      txn, queryCount, committedTxnCount, rollbackedTxnCount := None, 0, 0, 0;
    }

    method IncreaseCommittedTxnCount()
      modifies this`committedTxnCount
      ensures committedTxnCount == old(committedTxnCount) + 1
    {
      committedTxnCount := committedTxnCount + 1;
    }

    /** As in the source, this counts the rollback among the commits. */
    method IncreaseRollbackedTxnCount()
      modifies this`committedTxnCount
      ensures committedTxnCount == old(committedTxnCount) + 1
    {
      committedTxnCount := committedTxnCount + 1;
    }
  }

  // ----- statements -----

  class QueryContext {
    const session: Session
    const manager: TxnManager
    const profiler: QueryProfiler

    constructor (session: Session, manager: TxnManager, profiler: QueryProfiler)
      ensures this.session == session && this.manager == manager && this.profiler == profiler
    {
      this.session, this.manager, this.profiler := session, manager, profiler;
    }

    /** No phase is open, and a transaction that the session still holds is active. */
    ghost predicate Ready()
      reads session, manager, profiler
    {
      && manager.Valid() && profiler.current.None? && !profiler.crashed
      && (session.txn.Some? ==> session.txn.value in manager.active)
    }

    method BeginTxn()
      requires manager.Valid()
      modifies session`txn, manager
      ensures manager.Valid() && session.txn.Some?
      ensures old(session.txn).Some? ==> session.txn == old(session.txn) && manager.active == old(manager.active)
      ensures old(session.txn).None? ==>
        session.txn.value !in old(manager.active) && manager.active == old(manager.active) + {session.txn.value}
      ensures manager.nextId == old(manager.nextId) + if old(session.txn).None? then 1 else 0
      ensures manager.committed == old(manager.committed) && manager.rollbacked == old(manager.rollbacked)
    {
      if session.txn.None? {
        var t := manager.BeginTxn();
        session.txn := Some(t);
      }
    }

    /** With `fails` the storage refuses the commit, and the transaction stays open. */
    method CommitTxn(fails: bool)
      requires manager.Valid() && session.txn.Some?
      modifies session`txn, session`committedTxnCount, manager
      ensures manager.Valid()
      ensures fails ==> session.txn == old(session.txn) && manager.active == old(manager.active)
      ensures !fails ==> session.txn == None && manager.active == old(manager.active) - {old(session.txn).value}
      ensures session.committedTxnCount == old(session.committedTxnCount) + if fails then 0 else 1
      ensures manager.committed == old(manager.committed) + if fails then 0 else 1
      ensures manager.rollbacked == old(manager.rollbacked) && manager.nextId == old(manager.nextId)
    {
      if fails {
        return;
      }
      manager.EndTxn(session.txn.value);
      session.txn := None;
      session.IncreaseCommittedTxnCount();
      manager.committed := manager.committed + 1;
    }

    method RollbackTxn()
      requires manager.Valid() && session.txn.Some?
      modifies session`txn, session`committedTxnCount, manager
      ensures manager.Valid() && session.txn == None && manager.active == old(manager.active) - {old(session.txn).value}
      ensures session.committedTxnCount == old(session.committedTxnCount) + 1
      ensures manager.rollbacked == old(manager.rollbacked) + 1 && manager.committed == old(manager.committed)
      ensures manager.nextId == old(manager.nextId)
    {
      manager.EndTxn(session.txn.value);
      session.txn := None;
      session.IncreaseRollbackedTxnCount();
      manager.rollbacked := manager.rollbacked + 1;
    }

    /** What the profiler records, if it is enabled. */
    ghost function Log(events: seq<Event>): seq<Event> {
      if profiler.enabled then events else []
    }

    /** One stage of a statement, up to the commit. */
    method Stage(i: nat, failing: Option<nat>, ghost log: seq<Event>) returns (failed: bool)
      requires i < |STAGES| && profiler.current.None? && !profiler.crashed
      requires profiler.events == log + Log(Recorded(STAGES[..i]))
      modifies profiler
      ensures failed <==> failing == Some(i)
      ensures !profiler.crashed && (failed || profiler.current.None?)
      ensures !failed ==> profiler.events == log + Log(Recorded(STAGES[..i + 1]))
      ensures failed ==> Interrupted(i, log)
    {
      RecordedOneMore(STAGES[..i], STAGES[i]);
      assert STAGES[..i + 1] == STAGES[..i] + [STAGES[i]];
      profiler.StartPhase(STAGES[i]);
      if failing == Some(i) {
        return true;
      }
      profiler.StopPhase(STAGES[i]);
      return false;
    }

    /** Stage `i` has begun and has not ended. */
    ghost predicate Interrupted(i: nat, log: seq<Event>)
      requires i < |STAGES|
      reads profiler
    {
      if profiler.enabled then
        && profiler.current == Some(STAGES[i])
        && profiler.events == log + Recorded(STAGES[..i]) + [Begin(STAGES[i])]
      else profiler.current.None? && profiler.events == log
    }

    /** Logical plan, optimizer and physical plan; `failed` tells that one of them raised an error. */
    method PlanStages(failing: Option<nat>, ghost log: seq<Event>) returns (failed: bool)
      requires profiler.current.None? && !profiler.crashed && profiler.events == log
      modifies profiler
      ensures failed <==> failing.Some? && failing.value < 3
      ensures !profiler.crashed && (failed || profiler.current.None?)
      ensures failed ==> Interrupted(failing.value, log)
      ensures !failed ==> profiler.events == log + Log(Recorded(STAGES[..3]))
    {
      failed := Stage(0, failing, log);
      if failed { return; }
      failed := Stage(1, failing, log);
      if failed { return; }
      failed := Stage(2, failing, log);
    }

    /** Pipelines, tasks and execution. */
    method ExecuteStages(failing: Option<nat>, ghost log: seq<Event>) returns (failed: bool)
      requires profiler.current.None? && !profiler.crashed && profiler.events == log + Log(Recorded(STAGES[..3]))
      requires failing.Some? ==> failing.value >= 3
      modifies profiler
      ensures failed <==> failing.Some? && failing.value < |STAGES| - 1
      ensures !profiler.crashed && (failed || profiler.current.None?)
      ensures failed ==> Interrupted(failing.value, log)
      ensures !failed ==> profiler.events == log + Log(Recorded(STAGES[..|STAGES| - 1]))
    {
      failed := Stage(3, failing, log);
      if failed { return; }
      failed := Stage(4, failing, log);
      if failed { return; }
      failed := Stage(5, failing, log);
    }

    /** The commit as the last stage. */
    method CommitStage(failing: Option<nat>, ghost log: seq<Event>) returns (failed: bool)
      requires manager.Valid() && session.txn.Some? && profiler.current.None? && !profiler.crashed
      requires profiler.events == log + Log(Recorded(STAGES[..|STAGES| - 1]))
      modifies session`txn, session`committedTxnCount, manager, profiler
      ensures manager.Valid() && !profiler.crashed && (failed <==> failing == Some(|STAGES| - 1))
      ensures failed ==> Interrupted(|STAGES| - 1, log)
      ensures !failed ==> profiler.current.None? && profiler.events == log + Log(Recorded(STAGES))
      ensures failed ==> session.txn == old(session.txn) && manager.active == old(manager.active)
      ensures !failed ==> session.txn == None && manager.active == old(manager.active) - {old(session.txn).value}
      ensures session.committedTxnCount == old(session.committedTxnCount) + if failed then 0 else 1
      ensures manager.committed == old(manager.committed) + if failed then 0 else 1
      ensures manager.rollbacked == old(manager.rollbacked) && manager.nextId == old(manager.nextId)
    {
      var i := |STAGES| - 1;
      RecordedOneMore(STAGES[..i], STAGES[i]);
      assert STAGES == STAGES[..i] + [STAGES[i]];
      profiler.StartPhase(Commit);
      failed := failing == Some(i);
      CommitTxn(failed);
      if !failed {
        profiler.StopPhase(Commit);
      }
    }

    /** The handler of recoverable errors. */
    method Recover(i: nat, ghost log: seq<Event>)
      requires i < |STAGES| && manager.Valid() && session.txn.Some? && !profiler.crashed && Interrupted(i, log)
      modifies session`txn, session`committedTxnCount, manager, profiler
      ensures manager.Valid() && session.txn.None? && profiler.current.None? && !profiler.crashed
      ensures profiler.events == log + Log(Recorded(STAGES[..i + 1] + [Rollback]))
      ensures manager.active == old(manager.active) - {old(session.txn).value} && manager.nextId == old(manager.nextId)
      ensures session.committedTxnCount == old(session.committedTxnCount) + 1
      ensures manager.committed == old(manager.committed) && manager.rollbacked == old(manager.rollbacked) + 1
    {
      RecordedRollback(log, STAGES[..i], STAGES[i]);
      assert STAGES[..i + 1] == STAGES[..i] + [STAGES[i]];
      profiler.Stop();
      profiler.StartPhase(Rollback);
      RollbackTxn();
      profiler.StopPhase(Rollback);
    }

    /** The stages in order; `failed` tells that one of them raised an exception. */
    method RunStages(failing: Option<nat>, ghost log: seq<Event>) returns (failed: bool)
      requires manager.Valid() && session.txn.Some? && session.txn.value in manager.active
      requires profiler.current.None? && !profiler.crashed && profiler.events == log
      modifies session`txn, session`committedTxnCount, manager, profiler
      ensures manager.Valid() && !profiler.crashed && (failed <==> failing.Some? && failing.value < |STAGES|)
      ensures failed ==> Interrupted(failing.value, log)
      ensures failed ==> session.txn == old(session.txn) && manager.active == old(manager.active)
      ensures !failed ==> profiler.current.None? && profiler.events == log + Log(Recorded(STAGES))
      ensures !failed ==> session.txn == None && manager.active == old(manager.active) - {old(session.txn).value}
      ensures session.committedTxnCount == old(session.committedTxnCount) + if failed then 0 else 1
      ensures manager.committed == old(manager.committed) + if failed then 0 else 1
      ensures manager.rollbacked == old(manager.rollbacked) && manager.nextId == old(manager.nextId)
    {
      failed := PlanStages(failing, log);
      if !failed {
        failed := ExecuteStages(failing, log);
        if !failed {
          failed := CommitStage(failing, log);
        }
      }
    }

    /**
     A statement, whichever stage fails and how. It joins the transaction that the session still holds, or begins one.
     Afterwards that transaction is gone, except after a parser exception, which leaves it, and the phase, open.
     */
    method QueryStatement(failing: Option<Failure>)
      requires Ready()
      modifies session, manager, profiler
      ensures manager.Valid() && !profiler.crashed
      ensures session.txn.Some? <==> LeavesOpen(failing)
      ensures manager.active == old(manager.active) - Held(old(session.txn)) + Held(session.txn)
      ensures old(session.txn).Some? && LeavesOpen(failing) ==> session.txn == old(session.txn)
      ensures old(session.txn).None? && LeavesOpen(failing) ==> session.txn.value !in old(manager.active)
      ensures manager.nextId == old(manager.nextId) + if old(session.txn).None? then 1 else 0
      ensures session.queryCount == old(session.queryCount) + 1
      ensures session.committedTxnCount == old(session.committedTxnCount) + if LeavesOpen(failing) then 0 else 1
      ensures session.rollbackedTxnCount == old(session.rollbackedTxnCount)
      ensures manager.committed == old(manager.committed) + if Fails(failing) then 0 else 1
      ensures manager.rollbacked == old(manager.rollbacked) + if RollsBack(failing) then 1 else 0
      ensures profiler.events == old(profiler.events) + Log(LogOf(failing))
    {
      ghost var log := profiler.events;
      BeginTxn();
      var failed := RunStages(if failing.Some? then Some(failing.value.stage) else None, log);
      if failed && failing.value.Recoverable? {
        Recover(failing.value.stage, log);
      }
      session.queryCount := session.queryCount + 1;
    }
  }

  ghost function Held(txn: Option<Txn>): set<Txn> {
    if txn.Some? then {txn.value} else {}
  }

  // ----- sequences of statements -----

  ghost function CountOf(p: Option<Failure> -> bool, statements: seq<Option<Failure>>): (n: nat)
    ensures n <= |statements|
  {
    if statements == [] then 0
    else CountOf(p, statements[..|statements| - 1]) + if p(statements[|statements| - 1]) then 1 else 0
  }

  lemma {:induction false} CountNone(p: Option<Failure> -> bool, statements: seq<Option<Failure>>)
    ensures CountOf(p, statements) == 0 <==> forall i | 0 <= i < |statements| :: !p(statements[i])
  {
    if statements != [] {
      var n := |statements| - 1;
      CountNone(p, statements[..n]);
      assert forall i | 0 <= i < n :: statements[..n][i] == statements[i];
    }
  }

  /** The statements that find the session without a transaction. */
  ghost function Begun(statements: seq<Option<Failure>>): (n: nat)
    ensures n <= |statements|
  {
    if statements == [] then 0
    else |statements| - CountOf(LeavesOpen, statements[..|statements| - 1])
  }

  /** What a sequence of statements does to the counters, from `before` on. */
  datatype Counters = Counters(
    queries: nat, sessionCommits: nat, sessionRollbacks: nat, begun: nat, commits: nat, rollbacks: nat)

  ghost function CountersOf(session: Session, manager: TxnManager): Counters
    reads session, manager
  {
    Counters(session.queryCount, session.committedTxnCount, session.rollbackedTxnCount,
             manager.nextId, manager.committed, manager.rollbacked)
  }

  ghost predicate Counted(before: Counters, after: Counters, statements: seq<Option<Failure>>) {
    && after.queries == before.queries + |statements|
    && after.sessionCommits == before.sessionCommits + |statements| - CountOf(LeavesOpen, statements)
    && after.sessionRollbacks == before.sessionRollbacks
    && after.begun == before.begun + Begun(statements)
    && after.commits == before.commits + |statements| - CountOf(Fails, statements)
    && after.rollbacks == before.rollbacks + CountOf(RollsBack, statements)
  }

  lemma {:induction false} TwoKinds(statements: seq<Option<Failure>>)
    ensures CountOf(Fails, statements) == CountOf(RollsBack, statements) + CountOf(LeavesOpen, statements)
  {
    if statements != [] {
      TwoKinds(statements[..|statements| - 1]);
    }
  }

  /** The counters agree, and the transactions are the statements' own, exactly under these conditions. */
  lemma CountedExactly(before: Counters, after: Counters, statements: seq<Option<Failure>>)
    requires Counted(before, after, statements)
    ensures after.sessionCommits - before.sessionCommits == after.commits - before.commits
      <==> forall i | 0 <= i < |statements| :: !RollsBack(statements[i])
    ensures after.begun - before.begun == |statements| <==>
      forall i | 0 <= i < |statements| - 1 :: !LeavesOpen(statements[i])
  {
    TwoKinds(statements);
    CountNone(RollsBack, statements);
    if statements != [] {
      var n := |statements| - 1;
      CountNone(LeavesOpen, statements[..n]);
      assert forall i | 0 <= i < n :: statements[..n][i] == statements[i];
    }
  }

  /**
   Any number of statements of a session, each with a context of its own. The session counts rollbacks as commits,
   so its commit counter agrees with the transaction manager's exactly when no statement is rolled back. And each
   statement has a transaction of its own exactly when none but the last ends with a parser exception; otherwise
   the next statement goes on in the same transaction.
   */
  method QueryStatements(session: Session, manager: TxnManager, profiling: bool, statements: seq<Option<Failure>>)
    requires manager.Valid() && session.txn.None?
    modifies session, manager
    ensures manager.Valid() && manager.active == old(manager.active) + Held(session.txn)
    ensures session.txn.Some? <==> statements != [] && LeavesOpen(statements[|statements| - 1])
    ensures Counted(old(CountersOf(session, manager)), CountersOf(session, manager), statements)
    ensures session.committedTxnCount - old(session.committedTxnCount) == manager.committed - old(manager.committed)
      <==> forall i | 0 <= i < |statements| :: !RollsBack(statements[i])
    ensures manager.nextId - old(manager.nextId) == |statements|
      <==> forall i | 0 <= i < |statements| - 1 :: !LeavesOpen(statements[i])
  {
    ghost var before, open := CountersOf(session, manager), manager.active;
    for i := 0 to |statements|
      invariant manager.Valid() && manager.active == open + Held(session.txn)
      invariant session.txn.Some? ==> session.txn.value !in open
      invariant session.txn.Some? <==> i > 0 && LeavesOpen(statements[i - 1])
      invariant Counted(before, CountersOf(session, manager), statements[..i])
    {
      ghost var middle, held := CountersOf(session, manager), session.txn;
      var profiler := new QueryProfiler(profiling);
      var context := new QueryContext(session, manager, profiler);
      context.QueryStatement(statements[i]);
      OneMoreCounted(before, middle, CountersOf(session, manager), statements, i, held);
    }
    assert statements[..|statements|] == statements;
    CountedExactly(before, CountersOf(session, manager), statements);
  }

  lemma OneMoreCounted(before: Counters, middle: Counters, after: Counters,
                       statements: seq<Option<Failure>>, i: nat, held: Option<Txn>)
    requires i < |statements| && Counted(before, middle, statements[..i])
    requires held.Some? <==> i > 0 && LeavesOpen(statements[i - 1])
    requires after.queries == middle.queries + 1 && after.sessionRollbacks == middle.sessionRollbacks
    requires after.sessionCommits == middle.sessionCommits + if LeavesOpen(statements[i]) then 0 else 1
    requires after.begun == middle.begun + if held.None? then 1 else 0
    requires after.commits == middle.commits + if Fails(statements[i]) then 0 else 1
    requires after.rollbacks == middle.rollbacks + if RollsBack(statements[i]) then 1 else 0
    ensures Counted(before, after, statements[..i + 1])
  {
    assert statements[..i + 1][..i] == statements[..i];
    if i > 0 {
      assert statements[..i][..i - 1] == statements[..i - 1];
    }
  }

  /** One statement that fails in its first stage: the session has counted a commit, the manager a rollback. */
  method RollbackCountedAsCommit(profiling: bool) returns (session: Session, manager: TxnManager)
    ensures session.committedTxnCount == 1 && session.rollbackedTxnCount == 0
    ensures manager.committed == 0 && manager.rollbacked == 1
  {
    session := new Session();
    manager := new TxnManager();
    var profiler := new QueryProfiler(profiling);
    var context := new QueryContext(session, manager, profiler);
    context.QueryStatement(Some(Recoverable(0)));
  }

  /**
   A parser exception while a statement executes, and then a statement that succeeds: both are in one transaction,
   which is committed.
   */
  method FailedStatementCommitted(profiling: bool) returns (session: Session, manager: TxnManager)
    ensures manager.nextId == 1 && manager.committed == 1 && manager.rollbacked == 0 && manager.active == {}
  {
    session := new Session();
    manager := new TxnManager();
    var first := new QueryProfiler(profiling);
    var failing := new QueryContext(session, manager, first);
    failing.QueryStatement(Some(Parser(5)));
    var second := new QueryProfiler(profiling);
    var succeeding := new QueryContext(session, manager, second);
    succeeding.QueryStatement(None);
  }
}

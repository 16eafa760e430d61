/**
 Execution of migration plans under an advisory lock: `crates/core/src/migration/runner.rs`.

 Any number of sessions run `apply` and `rollback` against one database, interleaved statement
 by statement. `After` is the control flow of one session as an automaton over the server's
 replies; `Connection.RunLocked` and `Connection.RunUnderLock` are the source's nested calls and loops,
 proved to issue exactly the automaton's statements.
 */
module MigrationRunner {
  import opened Base
  import opened MigrationCatalog

  // ----- Statements and control flow of one session ------------------------------------------

  datatype Stmt =
    | CreateTable
    | LockStmt
    | SelectHistory
    | BeginStmt
    | ScriptStmt(script: Script)
    | InsertRow(pair: Pair)
    | DeleteRow(version: nat)
    | CommitStmt
    | RollbackStmt
    | UnlockStmt

  datatype Reply = Success | Rows(rows: seq<Applied>) | Failure

  /** What a session was asked for, and how many rows its history had when it was loaded. */
  datatype Job = Job(goal: Goal, found: nat)

  /** What a session will do next. `todo` is the part of the plan not yet recorded, and `done` the job
      that was carried out, if it was. */
  datatype Phase =
    | Ensuring(goal: Goal)
    | Locking(goal: Goal)
    | Loading(goal: Goal)
    | Beginning(job: Job, todo: seq<PlanStep>)
    | Scripting(job: Job, todo: seq<PlanStep>)
    | Recording(job: Job, todo: seq<PlanStep>)
    | Committing(job: Job, todo: seq<PlanStep>)
    | RollingBack
    | Unlocking(done: Option<Job>)
    | Finished(success: bool)

  function ScriptOf(step: PlanStep): Script {
    match step
    case ApplyStep(p) => p.up
    case RollbackStep(p, _) => p.down
  }

  function RecordOf(step: PlanStep): Stmt {
    match step
    case ApplyStep(p) => InsertRow(p)
    case RollbackStep(p, _) => DeleteRow(p.id.version)
  }

  predicate InTransaction(step: PlanStep) {
    ScriptOf(step).mode == Transactional
  }

  predicate Stepping(p: Phase) {
    p.Beginning? || p.Scripting? || p.Recording? || p.Committing?
  }

  predicate Live(p: Phase) {
    !p.Finished? && (Stepping(p) ==> p.todo != [])
  }

  function StmtOf(p: Phase): Stmt
    requires Live(p)
  {
    match p
    case Ensuring(_) => CreateTable
    case Locking(_) => LockStmt
    case Loading(_) => SelectHistory
    case Beginning(_, _) => BeginStmt
    case Scripting(_, todo) => ScriptStmt(ScriptOf(todo[0]))
    case Recording(_, todo) => RecordOf(todo[0])
    case Committing(_, _) => CommitStmt
    case RollingBack => RollbackStmt
    case Unlocking(_) => UnlockStmt
  }

  /** A transactional script runs between BEGIN and its record; any other runs before BEGIN. */
  function StartSteps(job: Job, todo: seq<PlanStep>): Phase {
    if todo == [] then Unlocking(Some(job))
    else if InTransaction(todo[0]) then Beginning(job, todo)
    else Scripting(job, todo)
  }

  /** A reply without a result set reads as an empty history. */
  function LoadedRows(reply: Reply): seq<Applied> {
    if reply.Rows? then reply.rows else []
  }

  function Planned(catalog: seq<Pair>, goal: Goal, rows: seq<Applied>): Phase {
    var plan := Plan(catalog, rows, goal);
    if plan.None? then Unlocking(None) else StartSteps(Job(goal, |rows|), plan.value)
  }

  function After(catalog: seq<Pair>, p: Phase, reply: Reply): Phase
    requires Live(p)
  {
    if reply.Failure? then OnFailure(p)
    else match p
      case Ensuring(goal) => Locking(goal)
      case Locking(goal) => Loading(goal)
      case Loading(goal) => Planned(catalog, goal, LoadedRows(reply))
      case Beginning(job, todo) => if InTransaction(todo[0]) then Scripting(job, todo) else Recording(job, todo)
      case Scripting(job, todo) => if InTransaction(todo[0]) then Recording(job, todo) else Beginning(job, todo)
      case Recording(job, todo) => Committing(job, todo)
      case Committing(job, todo) => StartSteps(job, todo[1..])
      case RollingBack => Unlocking(None)
      case Unlocking(done) => Finished(done.Some?)
  }

  function OnFailure(p: Phase): Phase
    requires Live(p)
  {
    match p
    case Ensuring(_) | Locking(_) => Finished(false)
    case Loading(_) | Beginning(_, _) | Committing(_, _) | RollingBack => Unlocking(None)
    case Scripting(_, todo) => if InTransaction(todo[0]) then RollingBack else Unlocking(None)
    case Recording(_, _) => RollingBack
    case Unlocking(done) => Finished(done.Some?)
  }

  // ----- What a run without failures sends ------------------------------------------------------

  /** The first `n` replies came, and none of them is a failure. */
  predicate NoFailures(replies: seq<Reply>, n: nat) {
    n <= |replies| && forall i :: 0 <= i < n ==> !replies[i].Failure?
  }

  /** A transactional script shares a transaction with its history row, any other runs before it. */
  function StatementsFor(step: PlanStep): (r: seq<Stmt>)
    ensures |r| == 4
  {
    match ScriptOf(step).mode
    case Transactional => [BeginStmt, ScriptStmt(ScriptOf(step)), RecordOf(step), CommitStmt]
    case NonTransactional => [ScriptStmt(ScriptOf(step)), BeginStmt, RecordOf(step), CommitStmt]
  }

  function StatementsOf(steps: seq<PlanStep>): (r: seq<Stmt>)
    ensures |r| == 4 * |steps|
  {
    if steps == [] then [] else StatementsOf(steps[..|steps| - 1]) + StatementsFor(steps[|steps| - 1])
  }

  lemma StatementsAppended(steps: seq<PlanStep>, i: nat)
    requires i < |steps|
    ensures StatementsOf(steps[..i + 1]) == StatementsOf(steps[..i]) + StatementsFor(steps[i])
  {
    assert steps[..i + 1][..i] == steps[..i];
  }

  /** The rows match the catalog, and none of the plan's statements fails. */
  predicate Executes(catalog: seq<Pair>, rows: seq<Applied>, goal: Goal, replies: seq<Reply>) {
    MatchesPrefix(catalog, rows) && NoFailures(replies, 4 * |Plan(catalog, rows, goal).value|)
  }

  /** From the load on nothing fails. */
  predicate Goes(catalog: seq<Pair>, replies: seq<Reply>, goal: Goal) {
    NoFailures(replies, 1) && Executes(catalog, LoadedRows(replies[0]), goal, replies[1..])
  }

  lemma StepGoes(given: seq<Reply>, i: nat, n: nat, ok: bool)
    requires NoFailures(given, 4 * i) && i < n && (ok <==> NoFailures(given[4 * i..], 4))
    ensures ok ==> NoFailures(given, 4 * (i + 1)) && given[4 * i..][4..] == given[4 * (i + 1)..]
    ensures !ok ==> !NoFailures(given, 4 * n)
  {
    NoFailuresSplit(given, 4 * i, 4);
    NoFailuresSplit(given, 4 * i + 4, 4 * (n - i - 1));
  }

  lemma SentInOrder(before: seq<Stmt>, steps: seq<Stmt>)
    ensures before + [CreateTable] + [LockStmt] + ([SelectHistory] + steps) + [UnlockStmt]
         == before + [CreateTable, LockStmt, SelectHistory] + steps + [UnlockStmt]
  {
  }

  lemma NoFailuresSplit(replies: seq<Reply>, n: nat, more: nat)
    ensures NoFailures(replies, n + more) <==> NoFailures(replies, n) && NoFailures(replies[n..], more)
  {
    if NoFailures(replies, n) && NoFailures(replies[n..], more) {
      assert forall i :: n <= i < n + more ==> replies[i] == replies[n..][i - n];
    }
  }

  // ----- The source's control structure ---------------------------------------------------------

  /** A session as the runner sees it: each statement takes the next reply of the server.
      `phase` is ghost; every statement must be the one the automaton issues. */
  class Connection {
    const catalog: seq<Pair>
    var replies: seq<Reply>
    var sent: seq<Stmt>
    ghost var phase: Phase

    constructor (catalog: seq<Pair>, replies: seq<Reply>, ghost phase: Phase)
      ensures this.catalog == catalog && this.replies == replies && sent == [] && this.phase == phase
    {
      this.catalog := catalog;
      this.replies := replies;
      this.sent := [];
      this.phase := phase;
    }

    /** `simple_query_raw`; a server that has stopped replying is a failure. */
    method SimpleQuery(stmt: Stmt) returns (reply: Reply)
      requires Live(phase) && stmt == StmtOf(phase)
      modifies this
      ensures sent == old(sent) + [stmt]
      ensures reply == if old(replies) == [] then Failure else old(replies)[0]
      ensures replies == if old(replies) == [] then [] else old(replies)[1..]
      ensures phase == After(catalog, old(phase), reply)
    {
      sent := sent + [stmt];
      if replies == [] {
        reply := Failure;
      } else {
        reply := replies[0];
        replies := replies[1..];
      }
      phase := After(catalog, phase, reply);
    }

    /** `transactional_batch` for the statements that belong to the first step of `todo`. */
    method TransactionalBatch(statements: seq<Stmt>, ghost job: Job, ghost todo: seq<PlanStep>) returns (ok: bool)
      requires todo != [] && phase == Beginning(job, todo)
      requires statements == BatchFor(todo[0])
      modifies this
      ensures phase == if ok then StartSteps(job, todo[1..]) else Unlocking(None)
      ensures ok <==> NoFailures(old(replies), |statements| + 2)
      ensures ok ==> sent == old(sent) + [BeginStmt] + statements + [CommitStmt]
      ensures ok ==> replies == old(replies)[|statements| + 2..]
    {
      var begun := SimpleQuery(BeginStmt);
      if begun.Failure? {
        return false;
      }
      for i := 0 to |statements|
        invariant phase == BatchPhase(job, todo, i)
        invariant NoFailures(old(replies), i + 1) && replies == old(replies)[i + 1..]
        invariant sent == old(sent) + [BeginStmt] + statements[..i]
      {
        var reply := SimpleQuery(statements[i]);
        if reply.Failure? {
          var _ := SimpleQuery(RollbackStmt);
          return false;
        }
      }
      var committed := SimpleQuery(CommitStmt);
      return !committed.Failure?;
    }

    method ExecuteScriptAndStateChange(script: Script, stateChange: Stmt, ghost job: Job, ghost todo: seq<PlanStep>)
      returns (ok: bool)
      requires todo != [] && phase == StartSteps(job, todo)
      requires script == ScriptOf(todo[0]) && stateChange == RecordOf(todo[0])
      modifies this
      ensures phase == if ok then StartSteps(job, todo[1..]) else Unlocking(None)
      ensures ok <==> NoFailures(old(replies), 4)
      ensures ok ==> sent == old(sent) + StatementsFor(todo[0]) && replies == old(replies)[4..]
    {
      match script.mode {
        case Transactional =>
          ok := TransactionalBatch([ScriptStmt(script), stateChange], job, todo);
        case NonTransactional =>
          var reply := SimpleQuery(ScriptStmt(script));
          if reply.Failure? {
            return false;
          }
          NoFailuresSplit(old(replies), 1, 3);
          ok := TransactionalBatch([stateChange], job, todo);
      }
    }

    method ExecuteStep(step: PlanStep, ghost job: Job, ghost todo: seq<PlanStep>) returns (ok: bool)
      requires todo != [] && todo[0] == step && phase == StartSteps(job, todo)
      modifies this
      ensures phase == if ok then StartSteps(job, todo[1..]) else Unlocking(None)
      ensures ok <==> NoFailures(old(replies), 4)
      ensures ok ==> sent == old(sent) + StatementsFor(step) && replies == old(replies)[4..]
    {
      match step {
        case ApplyStep(pair) =>
          ok := ExecuteScriptAndStateChange(pair.up, InsertRow(pair), job, todo);
        case RollbackStep(pair, _) =>
          ok := ExecuteScriptAndStateChange(pair.down, DeleteRow(pair.id.version), job, todo);
      }
    }

    method ExecutePlan(steps: seq<PlanStep>, ghost job: Job) returns (ok: bool)
      requires phase == StartSteps(job, steps)
      modifies this
      ensures phase == Unlocking(if ok then Some(job) else None)
      ensures ok <==> NoFailures(old(replies), 4 * |steps|)
      ensures ok ==> sent == old(sent) + StatementsOf(steps)
    {
      for i := 0 to |steps|
        invariant phase == StartSteps(job, steps[i..])
        invariant NoFailures(old(replies), 4 * i) && replies == old(replies)[4 * i..]
        invariant sent == old(sent) + StatementsOf(steps[..i])
      {
        assert steps[i..][0] == steps[i] && steps[i..][1..] == steps[i + 1..];
        StatementsAppended(steps, i);
        ok := ExecuteStep(steps[i], job, steps[i..]);
        StepGoes(old(replies), i, |steps|, ok);
        if !ok {
          return false;
        }
      }
      assert steps[..|steps|] == steps;
      return true;
    }

    /** `apply` and `rollback`: the same frame around different plans. The result does not
        depend on whether the unlock succeeded. */
    method RunLocked(goal: Goal) returns (ok: bool)
      requires phase == Ensuring(goal) && ByVersion(catalog)
      modifies this
      ensures phase == Finished(ok)
      ensures ok <==> NoFailures(old(replies), 2) && Goes(catalog, old(replies)[2..], goal)
      ensures ok ==>
        var plan := Plan(catalog, LoadedRows(old(replies)[2]), goal).value;
        sent == old(sent) + [CreateTable, LockStmt, SelectHistory] + StatementsOf(plan) + [UnlockStmt]
    {
      ghost var given, before := replies, sent;
      var ensured := SimpleQuery(CreateTable);
      if ensured.Failure? {
        return false;
      }
      var locked := SimpleQuery(LockStmt);
      if locked.Failure? {
        return false;
      }
      assert replies == given[2..] && NoFailures(given, 2);
      ok := RunUnderLock(goal);
      var _ := SimpleQuery(UnlockStmt);
      if ok {
        SentInOrder(before, StatementsOf(Plan(catalog, LoadedRows(given[2]), goal).value));
      }
    }

    /** `load_applied_migrations`. */
    method LoadHistory(ghost goal: Goal) returns (r: Option<seq<Applied>>)
      requires phase == Loading(goal)
      modifies this
      ensures sent == old(sent) + [SelectHistory]
      ensures r == if NoFailures(old(replies), 1) then Some(LoadedRows(old(replies)[0])) else None
      ensures r.Some? ==> replies == old(replies)[1..]
      ensures phase == if r.Some? then Planned(catalog, goal, r.value) else Unlocking(None)
    {
      var loaded := SimpleQuery(SelectHistory);
      return if loaded.Failure? then None else Some(LoadedRows(loaded));
    }

    method PlanAndExecute(goal: Goal, rows: seq<Applied>) returns (ok: bool)
      requires phase == Planned(catalog, goal, rows) && ByVersion(catalog)
      modifies this
      ensures phase == Unlocking(if ok then Some(Job(goal, |rows|)) else None)
      ensures ok <==> Executes(catalog, rows, goal, old(replies))
      ensures ok ==> sent == old(sent) + StatementsOf(Plan(catalog, rows, goal).value)
    {
      var plan := PlanFor(catalog, rows, goal);
      if plan.Err? {
        return false;
      }
      ok := ExecutePlan(plan.value, Job(goal, |rows|));
    }

    method RunUnderLock(goal: Goal) returns (ok: bool)
      requires phase == Loading(goal) && ByVersion(catalog)
      modifies this
      ensures phase.Unlocking? && phase.done.Some? == ok && (ok ==> phase.done.value.goal == goal)
      ensures ok <==> Goes(catalog, old(replies), goal)
      ensures ok ==>
        sent == old(sent) + ([SelectHistory] + StatementsOf(Plan(catalog, LoadedRows(old(replies)[0]), goal).value))
    {
      var rows := LoadHistory(goal);
      if rows.None? {
        return false;
      }
      ok := PlanAndExecute(goal, rows.value);
    }
  }

  function BatchFor(step: PlanStep): seq<Stmt> {
    if InTransaction(step) then [ScriptStmt(ScriptOf(step)), RecordOf(step)] else [RecordOf(step)]
  }

  ghost function BatchPhase(job: Job, todo: seq<PlanStep>, i: nat): Phase
    requires todo != []
  {
    if i == |BatchFor(todo[0])| then Committing(job, todo)
    else if i == |BatchFor(todo[0])| - 1 then Recording(job, todo)
    else Scripting(job, todo)
  }

  // ----- The server ---------------------------------------------------------------------------------

  /** One committed script execution. An interrupted script outside a transaction may leave an
      incomplete entry; a transactional one never does. */
  datatype Entry = Entry(id: MigrationId, kind: Kind, complete: bool)

  datatype Db = Db(history: seq<Applied>, journal: seq<Entry>)

  datatype Op = Ran(script: Script) | Inserted(row: Applied) | Deleted(version: nat)

  datatype Tx = Tx(ops: seq<Op>, aborted: bool)

  datatype Session = Session(phase: Phase, tx: Option<Tx>)

  /** A session-level lock: re-entrant, held until released as often or until the session ends. */
  datatype Lock = Free | Held(owner: nat, depth: nat)

  datatype System = System(db: Db, lock: Lock, sessions: map<nat, Session>)

  predicate HasVersion(history: seq<Applied>, version: nat) {
    exists i :: 0 <= i < |history| && history[i].id.version == version
  }

  /** Insertion into a table that is read back in version order. */
  function InsertSorted(history: seq<Applied>, row: Applied): seq<Applied> {
    if history == [] || row.id.version < history[0].id.version then [row] + history
    else [history[0]] + InsertSorted(history[1..], row)
  }

  function DeleteVersion(history: seq<Applied>, version: nat): seq<Applied> {
    if history == [] then []
    else if history[0].id.version == version then DeleteVersion(history[1..], version)
    else [history[0]] + DeleteVersion(history[1..], version)
  }

  function Perform(db: Db, op: Op): Db {
    match op
    case Ran(script) => db.(journal := db.journal + [Entry(script.id, script.kind, true)])
    case Inserted(row) => db.(history := InsertSorted(db.history, row))
    case Deleted(version) => db.(history := DeleteVersion(db.history, version))
  }

  function PerformAll(db: Db, ops: seq<Op>): Db
    decreases |ops|
  {
    if ops == [] then db else PerformAll(Perform(db, ops[0]), ops[1..])
  }

  /** One step of the system. `fails` makes the statement fail; `partial` lets a failing script
      outside a transaction leave incomplete effects behind; `now` is the server's clock. */
  datatype Action =
    | Start(session: nat, goal: Goal)
    | Statement(session: nat, fails: bool, partial: bool, now: nat)
    | Crash(session: nat)

  datatype Served = Served(db: Db, lock: Lock, tx: Option<Tx>, reply: Reply)

  /** Executes the statement of `phase`, or None when it blocks. */
  function Serve(s: System, who: nat, session: Session, fails: bool, partial: bool, now: nat): Option<Served>
    requires Live(session.phase)
  {
    var same := Served(s.db, s.lock, session.tx, Success);
    var stmt := StmtOf(session.phase);
    if stmt.LockStmt? && !fails && s.lock.Held? && s.lock.owner != who then None
    else if stmt.RollbackStmt? then Some(same.(tx := None, reply := if fails then Failure else Success))
    else if stmt.CommitStmt? then
      // a failed COMMIT rolls back, and so does COMMIT of an aborted transaction
      if fails then Some(same.(tx := None, reply := Failure))
      else if session.tx.Some? && !session.tx.value.aborted
      then Some(same.(db := PerformAll(s.db, session.tx.value.ops), tx := None))
      else Some(same.(tx := None))
    else if session.tx.Some? then Some(ServeInTx(same, session.tx.value, stmt, fails, now))
    else match stmt
      case LockStmt =>
        if fails then Some(same.(reply := Failure))
        else Some(same.(lock := Held(who, if s.lock.Held? then s.lock.depth + 1 else 1)))
      case UnlockStmt =>
        if fails || s.lock.Free? || s.lock.owner != who then Some(same.(reply := Failure))
        else Some(same.(lock := if s.lock.depth <= 1 then Free else Held(who, s.lock.depth - 1)))
      case SelectHistory => Some(same.(reply := if fails then Failure else Rows(s.db.history)))
      case BeginStmt => Some(if fails then same.(reply := Failure) else same.(tx := Some(Tx([], false))))
      case ScriptStmt(script) =>
        var entry := Entry(script.id, script.kind, !fails);
        var db := if fails && !partial then s.db else s.db.(journal := s.db.journal + [entry]);
        Some(same.(db := db, reply := if fails then Failure else Success))
      case InsertRow(pair) =>
        if fails || HasVersion(s.db.history, pair.id.version) then Some(same.(reply := Failure))
        else Some(same.(db := Perform(s.db, Inserted(NewRow(pair, now)))))
      case DeleteRow(version) =>
        Some(if fails then same.(reply := Failure) else same.(db := Perform(s.db, Deleted(version))))
      case _ => Some(same.(reply := if fails then Failure else Success))
  }

  function ServeInTx(same: Served, tx: Tx, stmt: Stmt, fails: bool, now: nat): Served {
    var ok := (op: Op) => same.(tx := Some(Tx(tx.ops + [op], false)));
    if fails || tx.aborted then same.(tx := Some(tx.(aborted := true)), reply := Failure)
    else match stmt
      case ScriptStmt(script) => ok(Ran(script))
      case InsertRow(pair) =>
        if HasVersion(PerformAll(same.db, tx.ops).history, pair.id.version)
        then same.(tx := Some(tx.(aborted := true)), reply := Failure)
        else ok(Inserted(NewRow(pair, now)))
      case DeleteRow(version) => ok(Deleted(version))
      case SelectHistory => same.(reply := Rows(PerformAll(same.db, tx.ops).history))
      case _ => same
  }

  function Step(catalog: seq<Pair>, s: System, a: Action): Option<System> {
    match a
    case Start(who, goal) =>
      if who in s.sessions && !s.sessions[who].phase.Finished? then None
      else
        var tx := if who in s.sessions then s.sessions[who].tx else None;
        Some(s.(sessions := s.sessions[who := Session(Ensuring(goal), tx)]))
    case Statement(who, fails, partial, now) =>
      if who !in s.sessions || !Live(s.sessions[who].phase) then None
      else
        var served := Serve(s, who, s.sessions[who], fails, partial, now);
        if served.None? then None
        else
          var session := Session(After(catalog, s.sessions[who].phase, served.value.reply), served.value.tx);
          Some(System(served.value.db, served.value.lock, s.sessions[who := session]))
    case Crash(who) =>
      if who !in s.sessions then None
      else Some(System(s.db, if s.lock.Held? && s.lock.owner == who then Free else s.lock, s.sessions - {who}))
  }

  /** Steps that are not enabled are skipped. */
  function Run(catalog: seq<Pair>, s: System, actions: seq<Action>): System
    decreases |actions|
  {
    if actions == [] then s
    else
      var next := Step(catalog, s, actions[0]);
      Run(catalog, if next.Some? then next.value else s, actions[1..])
  }
}

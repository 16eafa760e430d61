/**
 Safety of the migration engine over every interleaving of any number of sessions, with
 failing statements and crashing sessions anywhere.
 */
module MigrationSafety {
  import opened Base
  import opened MigrationCatalog
  import opened MigrationRunner

  ghost predicate Sound(catalog: seq<Pair>) {
    ByVersion(catalog) && forall i :: 0 <= i < |catalog| ==> WellPaired(catalog[i])
  }

  // ----- Effects of scripts ---------------------------------------------------------------------

  datatype Presence = Absent | Present | Broken

  /** What the committed executions of one migration's scripts add up to. A script executed
      twice in a row, incompletely, or rolled back before it was applied breaks it. */
  function EffectOf(journal: seq<Entry>, id: MigrationId): Presence {
    if journal == [] then Absent
    else
      var before := EffectOf(journal[..|journal| - 1], id);
      var last := journal[|journal| - 1];
      if last.id != id then before
      else if last == Entry(id, Up, true) && before.Absent? then Present
      else if last == Entry(id, Down, true) && before.Present? then Absent
      else Broken
  }

  lemma EffectOfAppend(journal: seq<Entry>, e: Entry, id: MigrationId)
    ensures e.id != id ==> EffectOf(journal + [e], id) == EffectOf(journal, id)
    ensures e == Entry(id, Up, true) && EffectOf(journal, id).Absent? ==> EffectOf(journal + [e], id) == Present
    ensures e == Entry(id, Down, true) && EffectOf(journal, id).Present? ==> EffectOf(journal + [e], id) == Absent
  {
    assert (journal + [e])[..|journal|] == journal;
  }

  /** The last committed execution of one of the migration's scripts. */
  function LastOf(journal: seq<Entry>, id: MigrationId): Option<Entry> {
    if journal == [] then None
    else
      var last := journal[|journal| - 1];
      if last.id == id then Some(last) else LastOf(journal[..|journal| - 1], id)
  }

  lemma LastOfAppend(journal: seq<Entry>, e: Entry, id: MigrationId)
    ensures LastOf(journal + [e], id) == if e.id == id then Some(e) else LastOf(journal, id)
  {
    assert (journal + [e])[..|journal|] == journal;
  }

  lemma {:induction false} LastIsOne(journal: seq<Entry>, id: MigrationId)
    requires LastOf(journal, id).Some?
    ensures LastOf(journal, id).value in journal
  {
    if journal[|journal| - 1].id != id {
      LastIsOne(journal[..|journal| - 1], id);
    }
  }

  /** What ran last for a migration with a row, and for one without. Only a script outside a
      transaction can have run without its row following it. */
  predicate LastFits(p: Pair, hasRow: bool, last: Option<Entry>) {
    if hasRow then
      last == Some(Entry(p.id, Up, true)) || (p.down.mode != Transactional && last.Some? && last.value.kind.Down?)
    else
      last == None || last == Some(Entry(p.id, Down, true)) || (p.up.mode != Transactional && last.value.kind.Up?)
  }

  predicate FullyTransactional(p: Pair) {
    p.up.mode == Transactional && p.down.mode == Transactional
  }

  /** What a transactional script did is committed exactly with its row. A migration whose scripts
      both are is in effect exactly when its row is in the history; and no row appears before its up
      script has completed. */
  ghost predicate EffectsMatch(catalog: seq<Pair>, db: Db) {
    && (forall i :: 0 <= i < |catalog| ==>
          LastFits(catalog[i], i < |db.history|, LastOf(db.journal, catalog[i].id)))
    && (forall i :: 0 <= i < |catalog| && FullyTransactional(catalog[i]) ==>
          EffectOf(db.journal, catalog[i].id) == if i < |db.history| then Present else Absent)
    && (forall i :: 0 <= i < |catalog| && i < |db.history| ==> Entry(catalog[i].id, Up, true) in db.journal)
  }

  // ----- The invariant ----------------------------------------------------------------------------

  /** Holding the advisory lock, from its acquisition to its release. */
  predicate Inside(p: Phase) {
    p.Loading? || Stepping(p) || p.RollingBack? || p.Unlocking?
  }

  /** The length that a job leaves the history with. */
  function Target(catalog: seq<Pair>, job: Job): nat {
    match job.goal
    case ApplyAll => |catalog|
    case RollBack(n) => if n <= job.found then job.found - n else 0
  }

  /** The remaining steps lead from the current history to what the session was asked for, and are what
      planning against that history would give. */
  ghost predicate Fresh(catalog: seq<Pair>, history: seq<Applied>, job: Job, todo: seq<PlanStep>)
    requires MatchesPrefix(catalog, history)
  {
    match job.goal
    case ApplyAll => todo == ApplySteps(catalog, |history|)
    case RollBack(_) =>
      |history| == Target(catalog, job) + |todo| && todo == RollbackSteps(catalog, history, |todo|)
  }

  ghost function OpsBefore(step: PlanStep): seq<Op> {
    if InTransaction(step) then [Ran(ScriptOf(step))] else []
  }

  ghost function OpFor(step: PlanStep, at: nat): Op {
    match step
    case ApplyStep(p) => Inserted(NewRow(p, at))
    case RollbackStep(p, _) => Deleted(p.id.version)
  }

  ghost predicate TxFits(ss: Session)
    requires Stepping(ss.phase) ==> ss.phase.todo != []
  {
    match ss.phase
    case Scripting(_, todo) => ss.tx == if InTransaction(todo[0]) then Some(Tx([], false)) else None
    case Recording(_, todo) => ss.tx == Some(Tx(OpsBefore(todo[0]), false))
    case Committing(_, todo) => exists at :: ss.tx == Some(Tx(OpsBefore(todo[0]) + [OpFor(todo[0], at)], false))
    case RollingBack => true
    case _ => ss.tx == None
  }

  ghost predicate ScriptDone(journal: seq<Entry>, p: Phase) {
    (p.Beginning? || p.Recording? || p.Committing?) && p.todo != [] && !InTransaction(p.todo[0])
    ==> var script := ScriptOf(p.todo[0]);
      LastOf(journal, script.id) == Some(Entry(script.id, script.kind, true))
  }

  ghost predicate SessionFits(catalog: seq<Pair>, s: System, who: nat, ss: Session)
    requires MatchesPrefix(catalog, s.db.history)
  {
    && (Live(ss.phase) || ss.phase.Finished?)
    && (Inside(ss.phase) ==> s.lock.Held? && s.lock.owner == who)
    && (Stepping(ss.phase) ==> Fresh(catalog, s.db.history, ss.phase.job, ss.phase.todo))
    && (ss.phase.Unlocking? && ss.phase.done.Some? ==> Fresh(catalog, s.db.history, ss.phase.done.value, []))
    && TxFits(ss)
    && ScriptDone(s.db.journal, ss.phase)
  }

  ghost predicate Inv(catalog: seq<Pair>, s: System) {
    && MatchesPrefix(catalog, s.db.history)
    && EffectsMatch(catalog, s.db)
    && forall who :: who in s.sessions ==> SessionFits(catalog, s, who, s.sessions[who])
  }

  // ----- One committed step -----------------------------------------------------------------------

  lemma {:induction false} InsertedAtEnd(history: seq<Applied>, row: Applied)
    requires forall i :: 0 <= i < |history| ==> history[i].id.version < row.id.version
    ensures InsertSorted(history, row) == history + [row]
  {
    if history != [] {
      InsertedAtEnd(history[1..], row);
      assert history == [history[0]] + history[1..];
    }
  }

  lemma {:induction false} DeletedAtEnd(history: seq<Applied>, row: Applied)
    requires forall i :: 0 <= i < |history| ==> history[i].id.version < row.id.version
    ensures DeleteVersion(history + [row], row.id.version) == history
  {
    var all := history + [row];
    if history == [] {
      assert all[1..] == [];
    } else {
      DeletedAtEnd(history[1..], row);
      assert all[1..] == history[1..] + [row];
    }
  }

  ghost predicate IsNext(catalog: seq<Pair>, history: seq<Applied>, step: PlanStep) {
    match step
    case ApplyStep(p) => |history| < |catalog| && p == catalog[|history|]
    case RollbackStep(p, _) => 0 < |history| <= |catalog| && p == catalog[|history| - 1]
  }

  /** Recording the next step of a fresh plan appends or drops exactly one row. */
  lemma RecordEffect(catalog: seq<Pair>, history: seq<Applied>, step: PlanStep, at: nat)
    requires Sound(catalog) && MatchesPrefix(catalog, history) && IsNext(catalog, history, step)
    ensures forall journal :: Perform(Db(history, journal), OpFor(step, at)) == Db(Advance(history, step, at), journal)
    ensures MatchesPrefix(catalog, Advance(history, step, at))
  {
    match step {
      case ApplyStep(p) =>
        InsertedAtEnd(history, NewRow(p, at));
      case RollbackStep(p, _) =>
        var n := |history| - 1;
        assert history == history[..n] + [history[n]];
        DeletedAtEnd(history[..n], history[n]);
    }
  }

  lemma NextOfFresh(catalog: seq<Pair>, history: seq<Applied>, job: Job, todo: seq<PlanStep>, at: nat)
    requires MatchesPrefix(catalog, history) && Fresh(catalog, history, job, todo) && todo != []
    requires MatchesPrefix(catalog, Advance(history, todo[0], at))
    ensures IsNext(catalog, history, todo[0])
    ensures Fresh(catalog, Advance(history, todo[0], at), job, todo[1..])
  {
    var after := Advance(history, todo[0], at);
    if job.goal.ApplyAll? {
      assert todo[1..] == ApplySteps(catalog, |after|);
    } else {
      assert todo[1..] == RollbackSteps(catalog, after, |todo| - 1);
    }
  }

  lemma FreshIsNext(catalog: seq<Pair>, history: seq<Applied>, job: Job, todo: seq<PlanStep>)
    requires MatchesPrefix(catalog, history) && Fresh(catalog, history, job, todo) && todo != []
    ensures IsNext(catalog, history, todo[0])
  {
  }

  lemma PerformOne(db: Db, op: Op)
    ensures PerformAll(db, [op]) == Perform(db, op)
  {
    assert [op][1..] == [];
  }

  lemma PerformTwo(db: Db, first: Op, second: Op)
    ensures PerformAll(db, [first] + [second]) == Perform(Perform(db, first), second)
  {
    assert ([first] + [second])[1..] == [second];
    PerformOne(Perform(db, first), second);
  }

  ghost function Committed(db: Db, step: PlanStep, at: nat): Db {
    var script := ScriptOf(step);
    Db(Advance(db.history, step, at),
       if InTransaction(step) then db.journal + [Entry(script.id, script.kind, true)] else db.journal)
  }

  lemma CommitPerforms(catalog: seq<Pair>, db: Db, step: PlanStep, at: nat)
    requires Sound(catalog) && MatchesPrefix(catalog, db.history) && IsNext(catalog, db.history, step)
    ensures PerformAll(db, OpsBefore(step) + [OpFor(step, at)]) == Committed(db, step, at)
  {
    RecordEffect(catalog, db.history, step, at);
    if InTransaction(step) {
      PerformTwo(db, Ran(ScriptOf(step)), OpFor(step, at));
    } else {
      assert OpsBefore(step) + [OpFor(step, at)] == [OpFor(step, at)];
      PerformOne(db, OpFor(step, at));
    }
  }

  lemma CommitKeepsEffects(catalog: seq<Pair>, db: Db, step: PlanStep, at: nat)
    requires Sound(catalog) && MatchesPrefix(catalog, db.history) && IsNext(catalog, db.history, step)
    requires EffectsMatch(catalog, db)
    requires var script := ScriptOf(step);
      !InTransaction(step) ==> LastOf(db.journal, script.id) == Some(Entry(script.id, script.kind, true))
    ensures EffectsMatch(catalog, Committed(db, step, at))
  {
    var k := if step.ApplyStep? then |db.history| else |db.history| - 1;
    var after := Committed(db, step, at);
    var script := ScriptOf(step);
    if !InTransaction(step) {
      LastIsOne(db.journal, script.id);
    }
    forall i | 0 <= i < |catalog|
      ensures LastFits(catalog[i], i < |after.history|, LastOf(after.journal, catalog[i].id))
    {
      LastOfAppend(db.journal, Entry(script.id, script.kind, true), catalog[i].id);
      assert i != k ==> catalog[i].id != catalog[k].id;
    }
    forall i | 0 <= i < |catalog| && FullyTransactional(catalog[i])
      ensures EffectOf(after.journal, catalog[i].id) == if i < |after.history| then Present else Absent
    {
      EffectOfAppend(db.journal, Entry(script.id, script.kind, true), catalog[i].id);
      assert i != k ==> catalog[i].id != catalog[k].id;
    }
  }

  /** A script outside a transaction may leave its effects without its row, but touches nothing that a
      transactional script did. */
  lemma LooseScriptKeepsEffects(catalog: seq<Pair>, db: Db, step: PlanStep, complete: bool)
    requires Sound(catalog) && MatchesPrefix(catalog, db.history) && IsNext(catalog, db.history, step)
    requires EffectsMatch(catalog, db) && !InTransaction(step)
    ensures var e := Entry(ScriptOf(step).id, ScriptOf(step).kind, complete);
      EffectsMatch(catalog, db.(journal := db.journal + [e]))
  {
    var k := if step.ApplyStep? then |db.history| else |db.history| - 1;
    var e := Entry(ScriptOf(step).id, ScriptOf(step).kind, complete);
    forall i | 0 <= i < |catalog|
      ensures LastFits(catalog[i], i < |db.history|, LastOf(db.journal + [e], catalog[i].id))
    {
      LastOfAppend(db.journal, e, catalog[i].id);
      assert i != k ==> catalog[i].id != catalog[k].id;
    }
    forall i | 0 <= i < |catalog| && FullyTransactional(catalog[i])
      ensures EffectOf(db.journal + [e], catalog[i].id) == EffectOf(db.journal, catalog[i].id)
    {
      EffectOfAppend(db.journal, e, catalog[i].id);
      assert i != k && (i < k ==> catalog[i].id.version < catalog[k].id.version);
    }
  }

  // ----- Every step keeps the invariant -------------------------------------------------------------

  /** The acting session fits the state its statement leaves, and the database still fits the
      catalog; only a commit changes the history, and only the lock's owner changes the lock. */
  ghost predicate ServedFits(catalog: seq<Pair>, s: System, who: nat, served: Served)
    requires who in s.sessions && Live(s.sessions[who].phase)
  {
    && MatchesPrefix(catalog, served.db.history) && EffectsMatch(catalog, served.db)
    && SessionFits(catalog, System(served.db, served.lock, s.sessions), who,
                   Session(After(catalog, s.sessions[who].phase, served.reply), served.tx))
    && (served.db.journal != s.db.journal ==> Inside(s.sessions[who].phase))
    && (served.db.history != s.db.history ==> s.sessions[who].phase.Committing?)
    && (served.lock != s.lock ==> s.lock.Free? || s.lock.owner == who)
  }

  ghost predicate Enabled(catalog: seq<Pair>, s: System, who: nat, fails: bool, partial: bool, now: nat) {
    && Sound(catalog) && Inv(catalog, s) && who in s.sessions && Live(s.sessions[who].phase)
    && Serve(s, who, s.sessions[who], fails, partial, now).Some?
  }

  lemma StartFits(catalog: seq<Pair>, s: System, who: nat, job: Job, todo: seq<PlanStep>)
    requires MatchesPrefix(catalog, s.db.history) && Fresh(catalog, s.db.history, job, todo)
    requires s.lock.Held? && s.lock.owner == who
    ensures SessionFits(catalog, s, who, Session(StartSteps(job, todo), None))
  {
  }

  lemma CommittingFits(catalog: seq<Pair>, s: System, who: nat, fails: bool, partial: bool, now: nat)
    requires Enabled(catalog, s, who, fails, partial, now) && s.sessions[who].phase.Committing?
    ensures ServedFits(catalog, s, who, Serve(s, who, s.sessions[who], fails, partial, now).value)
  {
    var ss := s.sessions[who];
    var todo := ss.phase.todo;
    assert SessionFits(catalog, s, who, ss);
    if !fails {
      FreshIsNext(catalog, s.db.history, ss.phase.job, todo);
      var at :| ss.tx == Some(Tx(OpsBefore(todo[0]) + [OpFor(todo[0], at)], false));
      CommitFits(catalog, s, who, at);
      assert Serve(s, who, ss, fails, partial, now).value
          == Served(PerformAll(s.db, ss.tx.value.ops), s.lock, None, Success);
      CommitPerforms(catalog, s.db, todo[0], at);
    }
  }

  lemma CommitFits(catalog: seq<Pair>, s: System, who: nat, at: nat)
    requires Sound(catalog) && Inv(catalog, s) && who in s.sessions
    requires Live(s.sessions[who].phase) && s.sessions[who].phase.Committing?
    ensures ServedFits(catalog, s, who,
                       Served(Committed(s.db, s.sessions[who].phase.todo[0], at), s.lock, None, Success))
  {
    var todo := s.sessions[who].phase.todo;
    var after := Committed(s.db, todo[0], at);
    assert SessionFits(catalog, s, who, s.sessions[who]);
    FreshIsNext(catalog, s.db.history, s.sessions[who].phase.job, todo);
    RecordEffect(catalog, s.db.history, todo[0], at);
    CommitKeepsEffects(catalog, s.db, todo[0], at);
    NextOfFresh(catalog, s.db.history, s.sessions[who].phase.job, todo, at);
    StartFits(catalog, System(after, s.lock, s.sessions), who, s.sessions[who].phase.job, todo[1..]);
  }

  lemma TransactionalScriptFits(catalog: seq<Pair>, s: System, who: nat, fails: bool, partial: bool, now: nat)
    requires Enabled(catalog, s, who, fails, partial, now) && s.sessions[who].phase.Scripting?
    requires InTransaction(s.sessions[who].phase.todo[0])
    ensures ServedFits(catalog, s, who, Serve(s, who, s.sessions[who], fails, partial, now).value)
  {
    assert SessionFits(catalog, s, who, s.sessions[who]);
    var step := s.sessions[who].phase.todo[0];
    assert [] + [Ran(ScriptOf(step))] == OpsBefore(step);
  }

  lemma LooseScriptFits(catalog: seq<Pair>, s: System, who: nat, fails: bool, partial: bool, now: nat)
    requires Enabled(catalog, s, who, fails, partial, now) && s.sessions[who].phase.Scripting?
    requires !InTransaction(s.sessions[who].phase.todo[0])
    ensures ServedFits(catalog, s, who, Serve(s, who, s.sessions[who], fails, partial, now).value)
  {
    var ss := s.sessions[who];
    var step := ss.phase.todo[0];
    assert SessionFits(catalog, s, who, ss);
    FreshIsNext(catalog, s.db.history, ss.phase.job, ss.phase.todo);
    LooseScriptKeepsEffects(catalog, s.db, step, !fails);
    LastOfAppend(s.db.journal, Entry(ScriptOf(step).id, ScriptOf(step).kind, !fails), ScriptOf(step).id);
  }

  lemma ScriptingFits(catalog: seq<Pair>, s: System, who: nat, fails: bool, partial: bool, now: nat)
    requires Enabled(catalog, s, who, fails, partial, now) && s.sessions[who].phase.Scripting?
    ensures ServedFits(catalog, s, who, Serve(s, who, s.sessions[who], fails, partial, now).value)
  {
    if InTransaction(s.sessions[who].phase.todo[0]) {
      TransactionalScriptFits(catalog, s, who, fails, partial, now);
    } else {
      LooseScriptFits(catalog, s, who, fails, partial, now);
    }
  }

  lemma RecordingFits(catalog: seq<Pair>, s: System, who: nat, fails: bool, partial: bool, now: nat)
    requires Enabled(catalog, s, who, fails, partial, now) && s.sessions[who].phase.Recording?
    ensures ServedFits(catalog, s, who, Serve(s, who, s.sessions[who], fails, partial, now).value)
  {
    var ss := s.sessions[who];
    assert SessionFits(catalog, s, who, ss);
    var served := Serve(s, who, ss, fails, partial, now).value;
    if !served.reply.Failure? {
      assert served.tx == Some(Tx(OpsBefore(ss.phase.todo[0]) + [OpFor(ss.phase.todo[0], now)], false));
    }
  }

  lemma LoadingFits(catalog: seq<Pair>, s: System, who: nat, fails: bool, partial: bool, now: nat)
    requires Enabled(catalog, s, who, fails, partial, now) && s.sessions[who].phase.Loading?
    ensures ServedFits(catalog, s, who, Serve(s, who, s.sessions[who], fails, partial, now).value)
  {
    assert SessionFits(catalog, s, who, s.sessions[who]);
    var plan := Plan(catalog, s.db.history, s.sessions[who].phase.goal);
    assert plan.Some? && Fresh(catalog, s.db.history, Job(s.sessions[who].phase.goal, |s.db.history|), plan.value);
  }

  lemma OthersFit(catalog: seq<Pair>, s: System, who: nat, fails: bool, partial: bool, now: nat)
    requires Enabled(catalog, s, who, fails, partial, now)
    requires var p := s.sessions[who].phase; !p.Committing? && !p.Scripting? && !p.Recording? && !p.Loading?
    ensures ServedFits(catalog, s, who, Serve(s, who, s.sessions[who], fails, partial, now).value)
  {
    assert SessionFits(catalog, s, who, s.sessions[who]);
  }

  lemma ServingKeepsSession(catalog: seq<Pair>, s: System, who: nat, fails: bool, partial: bool, now: nat)
    requires Enabled(catalog, s, who, fails, partial, now)
    ensures ServedFits(catalog, s, who, Serve(s, who, s.sessions[who], fails, partial, now).value)
  {
    match s.sessions[who].phase {
      case Committing(_, _) => CommittingFits(catalog, s, who, fails, partial, now);
      case Scripting(_, _) => ScriptingFits(catalog, s, who, fails, partial, now);
      case Recording(_, _) => RecordingFits(catalog, s, who, fails, partial, now);
      case Loading(_) => LoadingFits(catalog, s, who, fails, partial, now);
      case _ => OthersFit(catalog, s, who, fails, partial, now);
    }
  }

  lemma StepKeepsInv(catalog: seq<Pair>, s: System, a: Action)
    requires Sound(catalog) && Inv(catalog, s) && Step(catalog, s, a).Some?
    ensures Inv(catalog, Step(catalog, s, a).value)
  {
    var next := Step(catalog, s, a).value;
    match a {
      case Statement(who, fails, partial, now) =>
        ServingKeepsSession(catalog, s, who, fails, partial, now);
        forall other | other in next.sessions && other != who
          ensures SessionFits(catalog, next, other, next.sessions[other])
        {
          assert SessionFits(catalog, s, other, s.sessions[other]);
          assert SessionFits(catalog, s, who, s.sessions[who]);
        }
      case Start(who, goal) =>
        forall other | other in next.sessions ensures SessionFits(catalog, next, other, next.sessions[other]) {
          assert other in s.sessions ==> SessionFits(catalog, s, other, s.sessions[other]);
        }
      case Crash(who) =>
        forall other | other in next.sessions ensures SessionFits(catalog, next, other, next.sessions[other]) {
          assert SessionFits(catalog, s, other, s.sessions[other]);
        }
    }
  }

  lemma {:induction false} RunKeepsInv(catalog: seq<Pair>, s: System, actions: seq<Action>)
    requires Sound(catalog) && Inv(catalog, s)
    ensures Inv(catalog, Run(catalog, s, actions))
    decreases |actions|
  {
    if actions != [] {
      var next := Step(catalog, s, actions[0]);
      if next.Some? {
        StepKeepsInv(catalog, s, actions[0]);
      }
      RunKeepsInv(catalog, if next.Some? then next.value else s, actions[1..]);
    }
  }

  // ----- The results ----------------------------------------------------------------------------------

  /** Nobody is connected, and the state table agrees with the catalog and with the effects. */
  ghost predicate Initial(catalog: seq<Pair>, s: System) {
    && s.sessions == map[] && s.lock == Free
    && MatchesPrefix(catalog, s.db.history) && EffectsMatch(catalog, s.db)
  }

  /** What planning for the job would say now: a rollback has come part of its way. */
  function GoalNow(job: Job, todo: seq<PlanStep>): Goal {
    match job.goal
    case ApplyAll => ApplyAll
    case RollBack(_) => RollBack(|todo|)
  }

  /** In every reachable state the history is a prefix of the catalog, the effects match it, at most one
      session is between lock and unlock, a session in the middle of a plan holds exactly the steps that
      lead to what it was asked for and that planning afresh would give it, and a session that is about
      to unlock with success has left the history as it was asked to. */
  lemma MigrationsAreSafe(catalog: seq<Pair>, start: System, actions: seq<Action>)
    requires Sound(catalog) && Initial(catalog, start)
    ensures var s := Run(catalog, start, actions);
            && MatchesPrefix(catalog, s.db.history)
            && EffectsMatch(catalog, s.db)
            && (forall a, b | a in s.sessions && b in s.sessions ::
                  Inside(s.sessions[a].phase) && Inside(s.sessions[b].phase) ==> a == b)
            && (forall a :: a in s.sessions && Stepping(s.sessions[a].phase) ==>
                  var p := s.sessions[a].phase;
                  && Plan(catalog, s.db.history, GoalNow(p.job, p.todo)) == Some(p.todo)
                  && (p.job.goal.RollBack? ==> |s.db.history| == Target(catalog, p.job) + |p.todo|))
            && (forall a :: a in s.sessions && s.sessions[a].phase.Unlocking? && s.sessions[a].phase.done.Some? ==>
                  |s.db.history| == Target(catalog, s.sessions[a].phase.done.value))
  {
    RunKeepsInv(catalog, start, actions);
    var s := Run(catalog, start, actions);
    assert forall a :: a in s.sessions ==> SessionFits(catalog, s, a, s.sessions[a]);
    forall a | a in s.sessions && s.sessions[a].phase.Unlocking? && s.sessions[a].phase.done.Some?
      ensures |s.db.history| == Target(catalog, s.sessions[a].phase.done.value)
    {
      assert Fresh(catalog, s.db.history, s.sessions[a].phase.done.value, []);
      assert s.sessions[a].phase.done.value.goal.ApplyAll? ==> |ApplySteps(catalog, |s.db.history|)| == 0;
    }
  }

  /** What a session has been asked for, until it has failed or finished. */
  function Asked(p: Phase): Option<Goal> {
    match p
    case Ensuring(goal) => Some(goal)
    case Locking(goal) => Some(goal)
    case Loading(goal) => Some(goal)
    case Beginning(job, _) => Some(job.goal)
    case Scripting(job, _) => Some(job.goal)
    case Recording(job, _) => Some(job.goal)
    case Committing(job, _) => Some(job.goal)
    case Unlocking(Some(job)) => Some(job.goal)
    case _ => None
  }

  function JobOf(p: Phase): Option<Job> {
    if Stepping(p) then Some(p.job) else if p.Unlocking? then p.done else None
  }

  /** A session keeps to what it was asked for, and its job records the length of the history it read. */
  lemma GoalIsKept(catalog: seq<Pair>, p: Phase, reply: Reply)
    requires Live(p)
    ensures var after := After(catalog, p, reply);
      && (Asked(after).Some? ==> Asked(after) == Asked(p))
      && (JobOf(after).Some? ==>
            JobOf(after) == if p.Loading? then Some(Job(p.goal, if reply.Rows? then |reply.rows| else 0)) else JobOf(p))
  {
  }

  /** What it reads is the history as it stands. */
  lemma LoadingReads(catalog: seq<Pair>, s: System, who: nat, fails: bool, partial: bool, now: nat)
    requires Enabled(catalog, s, who, fails, partial, now) && s.sessions[who].phase.Loading?
    ensures var reply := Serve(s, who, s.sessions[who], fails, partial, now).value.reply;
      reply == if fails then Failure else Rows(s.db.history)
  {
    assert SessionFits(catalog, s, who, s.sessions[who]);
  }

  ghost predicate Untouched(s: System, db: Db) {
    && s.db == db
    && forall who :: who in s.sessions ==>
         s.sessions[who].tx.None? && !Stepping(s.sessions[who].phase) && !s.sessions[who].phase.RollingBack?
  }

  /** A database whose history does not match the catalog is never written to. */
  lemma {:induction false} MismatchIsNeverTouched(catalog: seq<Pair>, s: System, actions: seq<Action>)
    requires !MatchesPrefix(catalog, s.db.history) && Untouched(s, s.db)
    ensures Untouched(Run(catalog, s, actions), s.db)
    decreases |actions|
  {
    if actions != [] {
      var next := Step(catalog, s, actions[0]);
      if next.Some? {
        assert Untouched(next.value, s.db);
      }
      MismatchIsNeverTouched(catalog, if next.Some? then next.value else s, actions[1..]);
    }
  }
}

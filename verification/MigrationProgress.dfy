/**
 Progress of the migration engine: a session that has the lock on a history that matches, and whose
 statements do not fail, carries out what it was asked for, whatever the other sessions do.
 */
module MigrationProgress {
  import opened Base
  import opened MigrationCatalog
  import opened MigrationRunner
  import opened MigrationSafety

  // ----- How far a session has come ---------------------------------------------------------------

  /** On its way to do `job`: it has failed nowhere. */
  ghost predicate OnCourse(catalog: seq<Pair>, history: seq<Applied>, p: Phase, job: Job) {
    match p
    case Loading(goal) => goal == job.goal && |history| == job.found && Plan(catalog, history, goal).Some?
    case Beginning(j, todo) => j == job && todo != []
    case Scripting(j, todo) => j == job && todo != []
    case Recording(j, todo) => j == job && todo != []
    case Committing(j, todo) => j == job && todo != []
    case Unlocking(done) => done == Some(job)
    case Finished(success) => success
    case _ => false
  }

  /** How many statements it will still send: four for each step, one to load and one to unlock. */
  ghost function Left(catalog: seq<Pair>, history: seq<Applied>, p: Phase, job: Job): int
    requires OnCourse(catalog, history, p, job)
  {
    match p
    case Loading(goal) => 2 + 4 * |Plan(catalog, history, goal).value|
    case Beginning(_, todo) => if InTransaction(todo[0]) then 4 * |todo| + 1 else 4 * |todo|
    case Scripting(_, todo) => if InTransaction(todo[0]) then 4 * |todo| else 4 * |todo| + 1
    case Recording(_, todo) => 4 * |todo| - 1
    case Committing(_, todo) => 4 * |todo| - 2
    case Unlocking(_) => 1
    case _ => 0
  }

  lemma StartIsOnCourse(catalog: seq<Pair>, history: seq<Applied>, job: Job, todo: seq<PlanStep>)
    ensures OnCourse(catalog, history, StartSteps(job, todo), job)
    ensures Left(catalog, history, StartSteps(job, todo), job) == 4 * |todo| + 1
  {
  }

  /** A success takes the session one statement further. */
  lemma SuccessGoesOn(catalog: seq<Pair>, history: seq<Applied>, p: Phase, job: Job, reply: Reply, after: seq<Applied>)
    requires OnCourse(catalog, history, p, job) && Live(p) && !reply.Failure?
    requires p.Loading? ==> reply == Rows(history)
    ensures var next := After(catalog, p, reply);
      && OnCourse(catalog, after, next, job)
      && Left(catalog, after, next, job) == Left(catalog, history, p, job) - 1
  {
    match p {
      case Loading(goal) => StartIsOnCourse(catalog, after, job, Plan(catalog, history, goal).value);
      case Committing(j, todo) => StartIsOnCourse(catalog, after, job, todo[1..]);
      case _ =>
    }
  }

  // ----- No statement of the session fails on its own -----------------------------------------------

  lemma NextVersionIsFree(catalog: seq<Pair>, history: seq<Applied>)
    requires Sound(catalog) && MatchesPrefix(catalog, history) && |history| < |catalog|
    ensures !HasVersion(history, catalog[|history|].id.version)
  {
    forall i | 0 <= i < |history|
      ensures history[i].id.version != catalog[|history|].id.version
    {
      assert RowMatches(history[i], catalog[i]);
    }
  }

  /** Working on a history that nobody else can change. */
  ghost predicate Working(catalog: seq<Pair>, s: System, who: nat, job: Job) {
    && Sound(catalog) && Inv(catalog, s) && who in s.sessions && Inside(s.sessions[who].phase)
    && OnCourse(catalog, s.db.history, s.sessions[who].phase, job)
  }

  lemma RecordingSucceeds(catalog: seq<Pair>, s: System, who: nat, job: Job, partial: bool, now: nat)
    requires Working(catalog, s, who, job) && s.sessions[who].phase.Recording?
    ensures var served := Serve(s, who, s.sessions[who], false, partial, now);
      served.Some? && !served.value.reply.Failure?
  {
    var ss := s.sessions[who];
    assert SessionFits(catalog, s, who, ss);
    FreshIsNext(catalog, s.db.history, ss.phase.job, ss.phase.todo);
    if ss.phase.todo[0].ApplyStep? {
      NextVersionIsFree(catalog, s.db.history);
      RanKeepsHistory(s.db, ss.phase.todo[0]);
    }
  }

  lemma RanKeepsHistory(db: Db, step: PlanStep)
    ensures PerformAll(db, OpsBefore(step)).history == db.history
  {
    assert OpsBefore(step) != [] ==> OpsBefore(step)[1..] == [];
  }

  lemma UnlockingSucceeds(catalog: seq<Pair>, s: System, who: nat, job: Job, partial: bool, now: nat)
    requires Working(catalog, s, who, job) && s.sessions[who].phase.Unlocking?
    ensures var served := Serve(s, who, s.sessions[who], false, partial, now);
      served.Some? && !served.value.reply.Failure?
  {
    assert SessionFits(catalog, s, who, s.sessions[who]);
  }

  lemma OtherSucceeds(catalog: seq<Pair>, s: System, who: nat, job: Job, partial: bool, now: nat)
    requires Working(catalog, s, who, job) && !s.sessions[who].phase.Recording? && !s.sessions[who].phase.Unlocking?
    ensures var served := Serve(s, who, s.sessions[who], false, partial, now);
      && served.Some? && !served.value.reply.Failure?
      && (s.sessions[who].phase.Loading? ==> served.value.reply == Rows(s.db.history))
  {
    assert SessionFits(catalog, s, who, s.sessions[who]);
  }

  /** The next statement of such a session is not blocked and succeeds, unless the server fails it. */
  lemma StatementGoesOn(catalog: seq<Pair>, s: System, who: nat, job: Job, partial: bool, now: nat)
    requires Working(catalog, s, who, job)
    ensures var next := Step(catalog, s, Statement(who, false, partial, now));
      && next.Some? && who in next.value.sessions
      && OnCourse(catalog, next.value.db.history, next.value.sessions[who].phase, job)
      && Left(catalog, next.value.db.history, next.value.sessions[who].phase, job)
         == Left(catalog, s.db.history, s.sessions[who].phase, job) - 1
  {
    match s.sessions[who].phase {
      case Recording(_, _) => RecordingSucceeds(catalog, s, who, job, partial, now);
      case Unlocking(_) => UnlockingSucceeds(catalog, s, who, job, partial, now);
      case _ => OtherSucceeds(catalog, s, who, job, partial, now);
    }
    var served := Serve(s, who, s.sessions[who], false, partial, now).value;
    SuccessGoesOn(catalog, s.db.history, s.sessions[who].phase, job, served.reply, served.db.history);
  }

  // ----- Among other sessions -------------------------------------------------------------------------

  /** Nobody crashes `who`, asks it for something else or makes its statements fail. */
  predicate Spares(a: Action, who: nat) {
    match a
    case Start(session, _) => session != who
    case Statement(session, fails, _, _) => session == who ==> !fails
    case Crash(session) => session != who
  }

  predicate IsTurn(a: Action, who: nat) {
    a.Statement? && a.session == who
  }

  /** The steps of other sessions change nothing that it works on. */
  lemma OthersLeaveIt(catalog: seq<Pair>, s: System, who: nat, a: Action)
    requires Sound(catalog) && Inv(catalog, s) && who in s.sessions && Inside(s.sessions[who].phase)
    requires Spares(a, who) && !IsTurn(a, who) && Step(catalog, s, a).Some?
    ensures var next := Step(catalog, s, a).value;
      who in next.sessions && next.sessions[who] == s.sessions[who] && next.db.history == s.db.history
  {
    assert SessionFits(catalog, s, who, s.sessions[who]);
    if a.Statement? {
      ServingKeepsSession(catalog, s, a.session, a.fails, a.partial, a.now);
      assert SessionFits(catalog, s, a.session, s.sessions[a.session]);
    }
  }

  /** A finished session stays as it is. */
  lemma FinishedStays(catalog: seq<Pair>, s: System, who: nat, a: Action)
    requires who in s.sessions && s.sessions[who].phase.Finished? && Spares(a, who) && Step(catalog, s, a).Some?
    ensures var next := Step(catalog, s, a).value; who in next.sessions && next.sessions[who] == s.sessions[who]
  {
  }

  /** `who` has failed nowhere and has `left` statements to go. */
  ghost predicate HasCome(catalog: seq<Pair>, s: System, who: nat, job: Job, left: int) {
    && Inv(catalog, s) && who in s.sessions
    && OnCourse(catalog, s.db.history, s.sessions[who].phase, job)
    && Left(catalog, s.db.history, s.sessions[who].phase, job) == left
  }

  function Turns(actions: seq<Action>, who: nat): nat {
    if actions == [] then 0 else Turns(actions[1..], who) + if IsTurn(actions[0], who) then 1 else 0
  }

  lemma OnCourseIsInside(catalog: seq<Pair>, history: seq<Applied>, p: Phase, job: Job)
    requires OnCourse(catalog, history, p, job)
    ensures if p.Finished? then Left(catalog, history, p, job) == 0
            else Inside(p) && Left(catalog, history, p, job) > 0
  {
  }

  lemma StepComes(catalog: seq<Pair>, s: System, who: nat, job: Job, left: int, a: Action)
    requires Sound(catalog) && HasCome(catalog, s, who, job, left) && Spares(a, who)
    requires Step(catalog, s, a).Some?
    ensures HasCome(catalog, Step(catalog, s, a).value, who, job, if IsTurn(a, who) && left > 0 then left - 1 else left)
  {
    StepKeepsInv(catalog, s, a);
    OnCourseIsInside(catalog, s.db.history, s.sessions[who].phase, job);
    if s.sessions[who].phase.Finished? {
      FinishedStays(catalog, s, who, a);
    } else if IsTurn(a, who) {
      StatementGoesOn(catalog, s, who, job, a.partial, a.now);
    } else {
      OthersLeaveIt(catalog, s, who, a);
    }
  }

  lemma SkippedIsNoTurn(catalog: seq<Pair>, s: System, who: nat, job: Job, left: int, a: Action)
    requires Sound(catalog) && HasCome(catalog, s, who, job, left) && Spares(a, who)
    requires Step(catalog, s, a).None?
    ensures IsTurn(a, who) ==> left == 0
  {
    OnCourseIsInside(catalog, s.db.history, s.sessions[who].phase, job);
    if IsTurn(a, who) && left > 0 {
      StatementGoesOn(catalog, s, who, job, a.partial, a.now);
    }
  }

  lemma {:induction false} RunComes(catalog: seq<Pair>, s: System, who: nat, job: Job, left: int, actions: seq<Action>)
    requires Sound(catalog) && HasCome(catalog, s, who, job, left) && left >= 0
    requires forall a :: a in actions ==> Spares(a, who)
    ensures var turns := Turns(actions, who);
      HasCome(catalog, Run(catalog, s, actions), who, job, if turns <= left then left - turns else 0)
    decreases |actions|
  {
    if actions != [] {
      var a := actions[0];
      assert a in actions && forall b :: b in actions[1..] ==> b in actions;
      var next := Step(catalog, s, a);
      if next.Some? {
        StepComes(catalog, s, who, job, left, a);
        RunComes(catalog, next.value, who, job, if IsTurn(a, who) && left > 0 then left - 1 else left, actions[1..]);
      } else {
        SkippedIsNoTurn(catalog, s, who, job, left, a);
        RunComes(catalog, s, who, job, left, actions[1..]);
      }
    }
  }

  // ----- The results -------------------------------------------------------------------------------------

  /** The statements between getting the lock and being done. */
  function Needed(catalog: seq<Pair>, history: seq<Applied>, goal: Goal): int {
    2 + 4 * match goal
            case ApplyAll => |catalog| - |history|
            case RollBack(n) => if n <= |history| then n else |history|
  }

  /** A session that has the lock while the history matches, and whose statements neither fail nor
      crash, is never blocked by the others: with its last statement but one it is about to unlock a
      history of the length that was asked for, and with its last it has succeeded. */
  lemma MigrationsSucceed(catalog: seq<Pair>, start: System, before: seq<Action>, who: nat, goal: Goal,
                          actions: seq<Action>)
    requires Sound(catalog) && Initial(catalog, start)
    requires var s := Run(catalog, start, before); who in s.sessions && s.sessions[who].phase == Loading(goal)
    requires forall a :: a in actions ==> Spares(a, who)
    ensures var s := Run(catalog, start, before);
      var t := Run(catalog, s, actions);
      var needed := Needed(catalog, s.db.history, goal);
      && who in t.sessions
      && (Turns(actions, who) == needed - 1 ==>
            && t.sessions[who].phase == Unlocking(Some(Job(goal, |s.db.history|)))
            && |t.db.history| == Target(catalog, Job(goal, |s.db.history|)))
      && (Turns(actions, who) >= needed ==> t.sessions[who].phase == Finished(true))
  {
    RunKeepsInv(catalog, start, before);
    var s := Run(catalog, start, before);
    var job := Job(goal, |s.db.history|);
    assert Left(catalog, s.db.history, Loading(goal), job) == Needed(catalog, s.db.history, goal);
    RunComes(catalog, s, who, job, Needed(catalog, s.db.history, goal), actions);
    ComeMeans(catalog, Run(catalog, s, actions), who, job);
  }

  lemma ComeMeans(catalog: seq<Pair>, s: System, who: nat, job: Job)
    requires Inv(catalog, s) && who in s.sessions && OnCourse(catalog, s.db.history, s.sessions[who].phase, job)
    ensures var left := Left(catalog, s.db.history, s.sessions[who].phase, job);
      && (left == 1 ==> s.sessions[who].phase == Unlocking(Some(job)) && |s.db.history| == Target(catalog, job))
      && (left == 0 ==> s.sessions[who].phase == Finished(true))
  {
    assert SessionFits(catalog, s, who, s.sessions[who]);
  }

  // ----- The lock ------------------------------------------------------------------------------------------

  /** Taken once, by a session that is between getting it and giving it back. */
  ghost predicate LockIsUsed(s: System) {
    s.lock.Held? ==> s.lock.depth == 1 && s.lock.owner in s.sessions && Inside(s.sessions[s.lock.owner].phase)
  }

  /** The server never fails to unlock. */
  ghost predicate Unlocks(catalog: seq<Pair>, s: System, actions: seq<Action>)
    decreases |actions|
  {
    actions == [] ||
    var a, next := actions[0], Step(catalog, s, actions[0]);
    && (a.Statement? && a.session in s.sessions && s.sessions[a.session].phase.Unlocking? ==> !a.fails)
    && Unlocks(catalog, if next.Some? then next.value else s, actions[1..])
  }

  lemma LockMoves(catalog: seq<Pair>, s: System, who: nat, fails: bool, partial: bool, now: nat)
    requires Enabled(catalog, s, who, fails, partial, now) && LockIsUsed(s)
    ensures var p, lock := s.sessions[who].phase, Serve(s, who, s.sessions[who], fails, partial, now).value.lock;
      && (p.Locking? && !fails ==> lock == Held(who, 1))
      && (p.Unlocking? && !fails ==> lock == Free)
      && (fails || !(p.Locking? || p.Unlocking?) ==> lock == s.lock)
  {
    assert SessionFits(catalog, s, who, s.sessions[who]);
  }

  /** Between the lock and the unlock a session stays inside, whatever the replies are. */
  lemma StaysInside(catalog: seq<Pair>, p: Phase, reply: Reply)
    requires Live(p)
    ensures Inside(p) && !p.Unlocking? ==> Inside(After(catalog, p, reply))
    ensures p.Locking? && !reply.Failure? ==> Inside(After(catalog, p, reply))
  {
  }

  lemma StatementUsesLock(catalog: seq<Pair>, s: System, who: nat, fails: bool, partial: bool, now: nat)
    requires Enabled(catalog, s, who, fails, partial, now) && LockIsUsed(s)
    requires s.sessions[who].phase.Unlocking? ==> !fails
    ensures LockIsUsed(Step(catalog, s, Statement(who, fails, partial, now)).value)
  {
    var served := Serve(s, who, s.sessions[who], fails, partial, now).value;
    LockMoves(catalog, s, who, fails, partial, now);
    StaysInside(catalog, s.sessions[who].phase, served.reply);
    if s.sessions[who].phase.Locking? {
      assert SessionFits(catalog, s, who, s.sessions[who]);
      assert fails <==> served.reply.Failure?;
    }
  }

  lemma StepUsesLock(catalog: seq<Pair>, s: System, a: Action)
    requires Sound(catalog) && Inv(catalog, s) && LockIsUsed(s) && Step(catalog, s, a).Some?
    requires a.Statement? && a.session in s.sessions && s.sessions[a.session].phase.Unlocking? ==> !a.fails
    ensures LockIsUsed(Step(catalog, s, a).value)
  {
    if a.Statement? {
      StatementUsesLock(catalog, s, a.session, a.fails, a.partial, a.now);
    }
  }

  lemma {:induction false} RunUsesLock(catalog: seq<Pair>, s: System, actions: seq<Action>)
    requires Sound(catalog) && Inv(catalog, s) && LockIsUsed(s) && Unlocks(catalog, s, actions)
    ensures LockIsUsed(Run(catalog, s, actions))
    decreases |actions|
  {
    if actions != [] {
      var next := Step(catalog, s, actions[0]);
      if next.Some? {
        StepKeepsInv(catalog, s, actions[0]);
        StepUsesLock(catalog, s, actions[0]);
      }
      RunUsesLock(catalog, if next.Some? then next.value else s, actions[1..]);
    }
  }

  /** While the server does not fail to unlock, nobody but a session at work keeps the lock, whatever else
      fails or crashes. */
  lemma LockIsReleased(catalog: seq<Pair>, start: System, actions: seq<Action>)
    requires Sound(catalog) && Initial(catalog, start) && Unlocks(catalog, start, actions)
    ensures var s := Run(catalog, start, actions);
      s.lock.Held? <==> exists who :: who in s.sessions && Inside(s.sessions[who].phase)
  {
    RunKeepsInv(catalog, start, actions);
    RunUsesLock(catalog, start, actions);
    var s := Run(catalog, start, actions);
    forall who | who in s.sessions && Inside(s.sessions[who].phase)
      ensures s.lock.Held?
    {
      assert SessionFits(catalog, s, who, s.sessions[who]);
    }
  }
}

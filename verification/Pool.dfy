/**
 Slot accounting of the connection pool: `crates/core/src/pool.rs`.

 `PoolInner` has the sections that run under the state lock, each one atomic. `Step` interleaves
 any number of tasks that acquire, return, warm up and close, section by section. Sessions are
 counted by the slot they occupy. Whether a session has expired, passes its health check or can
 be connected is the environment's choice.
 */
module Pool {
  import opened Base

  type SessionId = nat

  datatype PoolState = PoolState(total: nat, idle: seq<SessionId>, closed: bool)

  datatype Config = Config(minIdle: nat, maxSize: nat) {
    predicate Valid() {
      0 < maxSize && minIdle <= maxSize
    }

    function Target(): nat {
      if minIdle <= maxSize then minIdle else maxSize
    }
  }

  function SaturatingSub(a: nat, b: nat): nat {
    if b <= a then a - b else 0
  }

  // ----- The locked sections ----------------------------------------------------------------------

  function Taken(p: PoolState): PoolState {
    if p.idle == [] then p else p.(idle := p.idle[1..])
  }

  function Reserved(c: Config, p: PoolState): PoolState {
    if p.total >= c.maxSize then p else p.(total := p.total + 1)
  }

  predicate WantsWarm(c: Config, p: PoolState) {
    !p.closed && |p.idle| < c.Target() && p.total < c.maxSize
  }

  function Released(p: PoolState): PoolState {
    p.(total := SaturatingSub(p.total, 1))
  }

  function Stored(p: PoolState, s: SessionId): PoolState {
    if p.closed then Released(p) else p.(idle := p.idle + [s])
  }

  function Drained(p: PoolState): PoolState {
    p.(total := SaturatingSub(p.total, |p.idle|), idle := [])
  }

  ghost predicate Distinct(idle: seq<SessionId>) {
    forall i, j :: 0 <= i < j < |idle| ==> idle[i] != idle[j]
  }

  function Fresh(idle: seq<SessionId>, expired: set<SessionId>): seq<SessionId> {
    if idle == [] then []
    else (if idle[0] in expired then [] else [idle[0]]) + Fresh(idle[1..], expired)
  }

  lemma {:induction false} FreshIsShorter(idle: seq<SessionId>, expired: set<SessionId>)
    ensures |Fresh(idle, expired)| <= |idle|
  {
    if idle != [] {
      FreshIsShorter(idle[1..], expired);
    }
  }

  lemma {:induction false} FreshKeepsDistinct(idle: seq<SessionId>, expired: set<SessionId>)
    requires Distinct(idle)
    ensures Distinct(Fresh(idle, expired)) && forall s :: s in Fresh(idle, expired) ==> s in idle
  {
    if idle != [] {
      FreshKeepsDistinct(idle[1..], expired);
      assert idle == [idle[0]] + idle[1..];
      assert idle[0] !in Fresh(idle[1..], expired);
    }
  }

  function Swept(p: PoolState, expired: set<SessionId>): PoolState {
    var kept := Fresh(p.idle, expired);
    p.(total := SaturatingSub(p.total, SaturatingSub(|p.idle|, |kept|)), idle := kept)
  }

  datatype Connect = Connected(session: SessionId, expired: bool) | Refused

  class PoolInner {
    const config: Config
    var total: nat
    var idle: seq<SessionId>
    var closed: bool

    constructor (config: Config)
      ensures this.config == config && State() == PoolState(0, [], false)
    {
      this.config := config;
      this.total, this.idle, this.closed := 0, [], false;
    }

    function State(): PoolState
      reads this
    {
      PoolState(total, idle, closed)
    }

    method TryTakeIdle() returns (session: Option<SessionId>)
      modifies this`idle
      ensures State() == Taken(old(State()))
      ensures session == if old(idle) == [] then None else Some(old(idle)[0])
    {
      if idle == [] {
        return None;
      }
      session := Some(idle[0]);
      idle := idle[1..];
    }

    method TryReserveSlot() returns (ok: bool)
      modifies this`total
      ensures State() == Reserved(config, old(State())) && (ok <==> old(total) < config.maxSize)
    {
      if total >= config.maxSize {
        return false;
      }
      total := total + 1;
      return true;
    }

    method ReleaseSlot()
      modifies this`total
      ensures State() == Released(old(State()))
    {
      total := SaturatingSub(total, 1);
    }

    /** `return_idle`: the section that stores a session, or drops it once the pool is closed. */
    method ReturnIdle(session: SessionId, discard: bool, expired: bool)
      modifies this
      ensures State() == if discard || expired then Released(old(State())) else Stored(old(State()), session)
    {
      if discard || expired {
        ReleaseSlot();
        return;
      }
      if closed {
        total := SaturatingSub(total, 1);
      } else {
        idle := idle + [session];
      }
    }

    /** `close`: the flag first, then the drain under the lock. */
    method Close() returns (sessions: seq<SessionId>)
      modifies this
      ensures State() == Drained(old(State())).(closed := true) && sessions == old(idle)
    {
      closed := true;
      total := SaturatingSub(total, |idle|);
      sessions := idle;
      idle := [];
    }

    /** The first section of `maintenance_tick`: the expired sessions leave, the rest keep their order. */
    method RemoveExpired(expired: set<SessionId>) returns (removed: seq<SessionId>)
      modifies this`total, this`idle
      ensures State() == Swept(old(State()), expired)
      ensures |removed| == |old(idle)| - |idle| && forall s :: s in removed ==> s in expired
    {
      var keep: seq<SessionId> := [];
      removed := [];
      FreshIsShorter(idle, expired);
      ghost var all := idle;
      while idle != []
        invariant Fresh(all, expired) == keep + Fresh(idle, expired)
        invariant |keep| + |removed| + |idle| == |all|
        invariant total == SaturatingSub(old(total), |removed|)
        invariant forall s :: s in removed ==> s in expired
        decreases |idle|
      {
        var session := idle[0];
        idle := idle[1..];
        if session in expired {
          total := SaturatingSub(total, 1);
          removed := removed + [session];
        } else {
          keep := keep + [session];
        }
      }
      idle := keep;
    }

    /** `ensure_min_idle` with no other task at work, as when the pool is built: it ends with the
        target reached or no slot left, unless a connection fails, and takes no slot that it does
        not fill. */
    method EnsureMinIdle(outcomes: seq<Connect>) returns (ok: bool)
      requires |idle| <= total
      modifies this
      ensures |idle| <= total && total - |idle| == old(total) - |old(idle)|
      ensures old(idle) <= idle && closed == old(closed)
      ensures ok ==> closed || config.minIdle <= |idle| || config.maxSize <= |idle| || config.maxSize <= total
      ensures |idle| <= |old(idle)| || |idle| <= config.minIdle
      ensures old(total) <= config.maxSize ==> total <= config.maxSize
    {
      var next := 0;
      while true
        invariant next <= |outcomes| && |idle| <= total && total - |idle| == old(total) - |old(idle)|
        invariant old(idle) <= idle && closed == old(closed)
        invariant |idle| <= |old(idle)| || |idle| <= config.minIdle
        invariant old(total) <= config.maxSize ==> total <= config.maxSize
        decreases |outcomes| - next
      {
        if closed || |idle| >= config.Target() || total >= config.maxSize {
          return true;
        }
        total := total + 1;
        var outcome := if next < |outcomes| then outcomes[next] else Refused;
        if outcome.Refused? {
          ReleaseSlot();
          return false;
        }
        next := next + 1;
        ReturnIdle(outcome.session, false, outcome.expired);
      }
    }
  }

  // ----- Tasks ---------------------------------------------------------------------------------------

  /** Where a task stands between two locked sections. */
  datatype Task =
    | AtTop                                  // acquire: about to look at `closed`
    | AboutToTake
    | HealthChecking(session: SessionId)
    | Discarding(again: bool)                 // about to release the slot; then on to the top, or done
    | AboutToReserve
    | Connecting
    | Waiting
    | CheckedOut(session: SessionId)
    | Recycling(session: SessionId, broken: bool)
    | Returning(session: SessionId, discard: bool, warm: bool)
    | WarmTop                                // ensure_min_idle: about to look for a free slot
    | WarmConnecting
    | ReleasingWarm
    | Sweeping                               // maintenance_tick
    | Closing
    | Draining
    | Finished

  /** A task that occupies a slot of its own. */
  predicate Holds(t: Task) {
    t.HealthChecking? || t.Discarding? || t.Connecting? || t.CheckedOut? || t.Recycling? || t.Returning?
    || t.WarmConnecting? || t.ReleasingWarm?
  }

  /** The session a task has in its hands. */
  function Owned(t: Task): Option<SessionId> {
    match t
    case HealthChecking(s) => Some(s)
    case CheckedOut(s) => Some(s)
    case Recycling(s, _) => Some(s)
    case Returning(s, _, _) => Some(s)
    case _ => None
  }

  /** `sessions` numbers the connections made so far, `drained` records that some `close` has passed
      its drain, and `leaked` counts the slots of tasks that were dropped while holding one. */
  datatype System = System(pool: PoolState, tasks: map<nat, Task>, sessions: SessionId, leaked: nat, drained: bool)

  /** The environment's choices for one section: whether the call made before it succeeded, whether
      the session has expired or the deadline has passed, and which idle sessions have expired. */
  datatype Choice = Choice(good: bool, expired: bool, late: bool, sweep: set<SessionId>)

  datatype Action =
    | Spawn(id: nat, task: Task)
    | Advance(id: nat, choice: Choice)
    | DropTask(id: nat)

  predicate Initial(t: Task) {
    t.AtTop? || t.WarmTop? || t.Sweeping? || t.Closing?
  }

  predicate Connects(t: Task, choice: Choice) {
    (t.Connecting? || t.WarmConnecting?) && choice.good
  }

  /** One section of one task: the pool afterwards and where that stands next. A connection that
      succeeds is `newest`. */
  function Section(c: Config, p: PoolState, t: Task, choice: Choice, newest: SessionId): (PoolState, Task) {
    match t
    case AtTop => (p, if p.closed then Finished else AboutToTake)
    case AboutToTake => (Taken(p), if p.idle == [] then AboutToReserve else HealthChecking(p.idle[0]))
    case HealthChecking(s) =>
      (p, if choice.expired then Discarding(true) else if choice.good then CheckedOut(s) else Discarding(!choice.late))
    case Discarding(again) => (Released(p), if again then AtTop else Finished)
    case AboutToReserve => (Reserved(c, p), if p.total >= c.maxSize then Waiting else Connecting)
    case Connecting => (p, if choice.good then CheckedOut(newest) else Discarding(false))
    case Waiting => (p, if choice.late then Finished else AtTop)
    case CheckedOut(s) => (p, Recycling(s, !choice.good))
    case Recycling(s, broken) => (p, Returning(s, broken || p.closed || !choice.good, false))
    case Returning(s, discard, warm) =>
      (if discard || choice.expired then Released(p) else Stored(p, s), if warm then WarmTop else Finished)
    case WarmTop => if WantsWarm(c, p) then (p.(total := p.total + 1), WarmConnecting) else (p, Finished)
    case WarmConnecting => (p, if choice.good then Returning(newest, false, true) else ReleasingWarm)
    case ReleasingWarm => (Released(p), Finished)
    case Sweeping => (Swept(p, choice.sweep), WarmTop)
    case Closing => (p.(closed := true), Draining)
    case Draining => (Drained(p), Finished)
    case Finished => (p, Finished)
  }

  /** What the section subtracts from `total`. */
  function Subtracts(p: PoolState, t: Task, choice: Choice): nat {
    match t
    case Discarding(_) => 1
    case ReleasingWarm => 1
    case Returning(_, discard, _) => if discard || choice.expired || p.closed then 1 else 0
    case Sweeping => SaturatingSub(|p.idle|, |Fresh(p.idle, choice.sweep)|)
    case Draining => |p.idle|
    case _ => 0
  }

  function Step(c: Config, s: System, a: Action): Option<System> {
    match a
    case Spawn(id, task) =>
      if id in s.tasks || !Initial(task) then None else Some(s.(tasks := s.tasks[id := task]))
    case Advance(id, choice) =>
      if id !in s.tasks then None
      else
        var t := s.tasks[id];
        var (pool, task) := Section(c, s.pool, t, choice, s.sessions);
        Some(System(pool, s.tasks[id := task], s.sessions + if Connects(t, choice) then 1 else 0,
                    s.leaked, s.drained || t.Draining?))
    case DropTask(id) =>
      if id !in s.tasks then None
      else Some(s.(tasks := s.tasks - {id}, leaked := s.leaked + Slots(s.tasks[id])))
  }

  function Run(c: Config, s: System, actions: seq<Action>): System
    decreases |actions|
  {
    if actions == [] then s
    else
      var next := Step(c, s, actions[0]);
      Run(c, if next.Some? then next.value else s, actions[1..])
  }

  // ----- Conservation of slots -------------------------------------------------------------------------

  function Slots(t: Task): nat {
    if Holds(t) then 1 else 0
  }

  ghost function Holders(tasks: map<nat, Task>): set<nat> {
    set id | id in tasks && Holds(tasks[id])
  }

  ghost predicate Conserved(c: Config, s: System) {
    && s.pool.total == |s.pool.idle| + |Holders(s.tasks)| + s.leaked
    && s.pool.total <= c.maxSize
  }

  ghost predicate ClosedForGood(s: System) {
    && (s.drained ==> s.pool.closed && s.pool.idle == [])
    && (forall id :: id in s.tasks && s.tasks[id].Draining? ==> s.pool.closed)
  }

  ghost predicate Holding(s: System, id: nat, session: SessionId) {
    id in s.tasks && Owned(s.tasks[id]) == Some(session)
  }

  /** Every session is in one place: in the idle queue or in the hands of one task. */
  ghost predicate Exclusive(s: System) {
    && Distinct(s.pool.idle)
    && (forall x :: x in s.pool.idle ==> x < s.sessions)
    && (forall id: nat, x: SessionId :: Holding(s, id, x) ==> x < s.sessions && x !in s.pool.idle)
    && (forall i: nat, j: nat, x: SessionId :: Holding(s, i, x) && Holding(s, j, x) ==> i == j)
  }

  ghost predicate Inv(c: Config, s: System) {
    Conserved(c, s) && ClosedForGood(s) && Exclusive(s)
  }

  lemma HoldersUpdated(tasks: map<nat, Task>, id: nat, task: Task)
    requires id in tasks ==> Slots(tasks[id]) <= |Holders(tasks)|
    ensures |Holders(tasks[id := task])|
         == |Holders(tasks)| - (if id in tasks then Slots(tasks[id]) else 0) + Slots(task)
  {
    var rest := Holders(tasks) - {id};
    assert Holders(tasks[id := task]) == if Holds(task) then rest + {id} else rest;
    assert id in Holders(tasks) ==> Holders(tasks) == rest + {id};
    assert id !in Holders(tasks) ==> Holders(tasks) == rest;
  }

  lemma HoldersDropped(tasks: map<nat, Task>, id: nat)
    requires id in tasks
    ensures |Holders(tasks - {id})| == |Holders(tasks)| - Slots(tasks[id])
  {
    var rest := Holders(tasks) - {id};
    assert Holders(tasks - {id}) == rest;
    assert id in Holders(tasks) ==> Holders(tasks) == rest + {id};
    assert id !in Holders(tasks) ==> Holders(tasks) == rest;
  }

  lemma HolderIsCounted(tasks: map<nat, Task>, id: nat)
    requires id in tasks
    ensures Slots(tasks[id]) <= |Holders(tasks)|
  {
    if Holds(tasks[id]) {
      assert id in Holders(tasks);
    }
  }

  /** A section never subtracts more than there is, and gives or takes a slot exactly as its task
      starts or stops holding one. */
  lemma SectionConserves(c: Config, p: PoolState, t: Task, choice: Choice, newest: SessionId)
    requires |p.idle| + Slots(t) <= p.total <= c.maxSize
    ensures Subtracts(p, t, choice) <= p.total
    ensures var (pool, task) := Section(c, p, t, choice, newest);
      pool.total - |pool.idle| - Slots(task) == p.total - |p.idle| - Slots(t) && pool.total <= c.maxSize
  {
    FreshIsShorter(p.idle, choice.sweep);
  }

  lemma SectionKeepsClosed(c: Config, p: PoolState, t: Task, choice: Choice, newest: SessionId)
    ensures var (pool, task) := Section(c, p, t, choice, newest);
      && (pool.closed <==> p.closed || t.Closing?)
      && (p.closed && p.idle == [] ==> pool.idle == [])
      && (t.Draining? ==> pool.idle == []) && (task.Draining? ==> t.Closing?)
  {
    FreshIsShorter(p.idle, choice.sweep);
  }

  /** Every idle session was idle before, or is the one handed in. */
  ghost predicate From(idle: seq<SessionId>, before: seq<SessionId>, handed: Option<SessionId>) {
    Distinct(idle) && forall x :: x in idle ==> x in before || handed == Some(x)
  }

  lemma QueueMoves(p: PoolState, x: SessionId, sweep: set<SessionId>)
    requires Distinct(p.idle)
    ensures From(Taken(p).idle, p.idle, None)
    ensures p.idle != [] ==> p.idle[0] in p.idle && p.idle[0] !in Taken(p).idle
    ensures x !in p.idle ==> From(Stored(p, x).idle, p.idle, Some(x))
    ensures From(Swept(p, sweep).idle, p.idle, None)
  {
    FreshKeepsDistinct(p.idle, sweep);
    assert p.idle != [] ==> p.idle == [p.idle[0]] + p.idle[1..];
  }

  /** Where the sessions of a section come from: what is idle afterwards was idle or in the hands of
      its holder, and what is then held was held before, took from the queue, or connected. */
  lemma SectionMovesSessions(c: Config, p: PoolState, t: Task, choice: Choice, newest: SessionId)
    requires Distinct(p.idle) && newest !in p.idle
    requires Owned(t).Some? ==> Owned(t).value !in p.idle
    ensures var (pool, task) := Section(c, p, t, choice, newest);
      && From(pool.idle, p.idle, Owned(t))
      && (Owned(task).Some? ==>
            && Owned(task).value !in pool.idle
            && (Owned(task) == Owned(t) || Owned(task).value in p.idle
                || (Connects(t, choice) && Owned(task) == Some(newest))))
  {
    QueueMoves(p, if Owned(t).Some? then Owned(t).value else newest, choice.sweep);
  }

  lemma AdvanceKeepsExclusive(c: Config, s: System, id: nat, choice: Choice)
    requires Exclusive(s) && id in s.tasks
    ensures Exclusive(Step(c, s, Advance(id, choice)).value)
  {
    var t := s.tasks[id];
    var next := Step(c, s, Advance(id, choice)).value;
    assert Owned(t).Some? ==> Holding(s, id, Owned(t).value);
    SectionMovesSessions(c, s.pool, t, choice, s.sessions);
    forall j: nat, x: SessionId | Holding(next, j, x)
      ensures x < next.sessions && x !in next.pool.idle && (j != id ==> Holding(s, j, x) && !Holding(next, id, x))
    {
      assert j != id ==> Holding(s, j, x);
      assert Owned(t) == Some(x) ==> Holding(s, id, x);
    }
  }

  lemma StepKeepsInv(c: Config, s: System, a: Action)
    requires Inv(c, s) && Step(c, s, a).Some?
    ensures Inv(c, Step(c, s, a).value)
  {
    var next := Step(c, s, a).value;
    match a {
      case Spawn(id, task) =>
        HoldersUpdated(s.tasks, id, task);
        assert forall i: nat, x: SessionId :: Holding(next, i, x) ==> Holding(s, i, x);
      case Advance(id, choice) =>
        HolderIsCounted(s.tasks, id);
        SectionConserves(c, s.pool, s.tasks[id], choice, s.sessions);
        SectionKeepsClosed(c, s.pool, s.tasks[id], choice, s.sessions);
        HoldersUpdated(s.tasks, id, next.tasks[id]);
        AdvanceKeepsExclusive(c, s, id, choice);
      case DropTask(id) =>
        HoldersDropped(s.tasks, id);
        assert forall i: nat, x: SessionId :: Holding(next, i, x) ==> Holding(s, i, x);
    }
  }

  lemma {:induction false} RunKeepsInv(c: Config, s: System, actions: seq<Action>)
    requires Inv(c, s)
    ensures Inv(c, Run(c, s, actions))
    decreases |actions|
  {
    if actions != [] {
      var next := Step(c, s, actions[0]);
      if next.Some? {
        StepKeepsInv(c, s, actions[0]);
      }
      RunKeepsInv(c, if next.Some? then next.value else s, actions[1..]);
    }
  }

  predicate DropsNoHolder(c: Config, s: System, actions: seq<Action>)
    decreases |actions|
  {
    actions == [] ||
    var a := actions[0];
    var next := Step(c, s, a);
    && !(a.DropTask? && a.id in s.tasks && Holds(s.tasks[a.id]))
    && DropsNoHolder(c, if next.Some? then next.value else s, actions[1..])
  }

  lemma {:induction false} LeaksOnlyGrow(c: Config, s: System, actions: seq<Action>)
    ensures s.leaked <= Run(c, s, actions).leaked
    decreases |actions|
  {
    if actions != [] {
      var next := Step(c, s, actions[0]);
      LeaksOnlyGrow(c, if next.Some? then next.value else s, actions[1..]);
    }
  }

  /** Slots leak exactly when a task is dropped while holding one. */
  lemma {:induction false} LeaksAreDroppedHolders(c: Config, s: System, actions: seq<Action>)
    ensures Run(c, s, actions).leaked == s.leaked <==> DropsNoHolder(c, s, actions)
    decreases |actions|
  {
    if actions != [] {
      var next := Step(c, s, actions[0]);
      var t := if next.Some? then next.value else s;
      LeaksOnlyGrow(c, t, actions[1..]);
      LeaksAreDroppedHolders(c, t, actions[1..]);
    }
  }

  const EMPTY := System(PoolState(0, [], false), map[], 0, 0, false)

  /** In every reachable state each slot is an idle session, a holder or a leak, there are never
      more than `maxSize`, and no subtraction from `total` clamps. The slots are those of idle
      sessions and holders alone exactly when no holder was ever dropped. */
  lemma SlotsAreConserved(c: Config, actions: seq<Action>, id: nat, choice: Choice)
    requires c.Valid()
    ensures var s := Run(c, EMPTY, actions);
      && s.pool.total == |s.pool.idle| + |Holders(s.tasks)| + s.leaked
      && s.pool.total <= c.maxSize
      && (id in s.tasks ==> Subtracts(s.pool, s.tasks[id], choice) <= s.pool.total)
      && (DropsNoHolder(c, EMPTY, actions) <==> s.pool.total == |s.pool.idle| + |Holders(s.tasks)|)
  {
    assert Holders(map[]) == {};
    RunKeepsInv(c, EMPTY, actions);
    var s := Run(c, EMPTY, actions);
    if id in s.tasks {
      HolderIsCounted(s.tasks, id);
      SectionConserves(c, s.pool, s.tasks[id], choice, s.sessions);
    }
    LeaksAreDroppedHolders(c, EMPTY, actions);
  }

  /** A slot that has leaked is lost for good: from then on there are fewer sessions, idle or held. */
  lemma LeakedForGood(c: Config, before: seq<Action>, after: seq<Action>)
    requires c.Valid()
    ensures var s := Run(c, Run(c, EMPTY, before), after);
      |s.pool.idle| + |Holders(s.tasks)| <= c.maxSize - Run(c, EMPTY, before).leaked
  {
    assert Holders(map[]) == {};
    RunKeepsInv(c, EMPTY, before);
    RunKeepsInv(c, Run(c, EMPTY, before), after);
    LeaksOnlyGrow(c, Run(c, EMPTY, before), after);
  }

  /** No session is ever in two hands, or idle while a task still has it. */
  lemma SessionsAreExclusive(c: Config, actions: seq<Action>, i: nat, j: nat, x: SessionId)
    requires c.Valid() && Holding(Run(c, EMPTY, actions), i, x)
    ensures x !in Run(c, EMPTY, actions).pool.idle
    ensures Holding(Run(c, EMPTY, actions), j, x) ==> i == j
  {
    assert Holders(map[]) == {};
    RunKeepsInv(c, EMPTY, actions);
  }

  lemma {:induction false} DrainedStays(c: Config, s: System, actions: seq<Action>)
    requires s.drained
    ensures Run(c, s, actions).drained
    decreases |actions|
  {
    if actions != [] {
      var next := Step(c, s, actions[0]);
      DrainedStays(c, if next.Some? then next.value else s, actions[1..]);
    }
  }

  /** Once a `close` has drained the pool, no session is ever idle again, and the slots that are
      left are those of the remaining holders. */
  lemma CloseIsFinal(c: Config, before: seq<Action>, after: seq<Action>)
    requires c.Valid() && Run(c, EMPTY, before).drained
    ensures var s := Run(c, Run(c, EMPTY, before), after);
      s.pool.closed && s.pool.idle == [] && s.pool.total == |Holders(s.tasks)| + s.leaked
  {
    assert Holders(map[]) == {};
    RunKeepsInv(c, EMPTY, before);
    RunKeepsInv(c, Run(c, EMPTY, before), after);
    DrainedStays(c, Run(c, EMPTY, before), after);
  }
}

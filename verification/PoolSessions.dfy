/**
 Which sessions the pool hands out, in every run: a task gets a session that it connected or that has
 just passed its check, and a session that was found or returned broken is never seen again.
 */
module PoolSessions {
  import opened Base
  import opened Pool

  function After(c: Config, s: System, a: Action): System {
    var next := Step(c, s, a);
    if next.Some? then next.value else s
  }

  lemma {:induction false} RunAppend(c: Config, s: System, actions: seq<Action>, more: seq<Action>)
    ensures Run(c, s, actions + more) == Run(c, Run(c, s, actions), more)
    decreases |actions|
  {
    if actions == [] {
      assert actions + more == more;
    } else {
      RunAppend(c, After(c, s, actions[0]), actions[1..], more);
      assert (actions + more)[1..] == actions[1..] + more;
    }
  }

  lemma RunLast(c: Config, s: System, actions: seq<Action>)
    requires actions != []
    ensures Run(c, s, actions) == After(c, Run(c, s, actions[..|actions| - 1]), actions[|actions| - 1])
  {
    var front, last := actions[..|actions| - 1], actions[|actions| - 1];
    assert actions == front + [last];
    RunAppend(c, s, front, [last]);
    assert [last][1..] == [];
  }

  lemma EmptyIsSound(c: Config, actions: seq<Action>)
    requires c.Valid()
    ensures Inv(c, Run(c, EMPTY, actions))
  {
    assert Holders(map[]) == {};
    RunKeepsInv(c, EMPTY, actions);
  }

  // ----- The idle queue -------------------------------------------------------------------------------

  lemma {:induction false} FreshIsExact(idle: seq<SessionId>, expired: set<SessionId>, x: SessionId)
    ensures x in Fresh(idle, expired) <==> x in idle && x !in expired
  {
    if idle != [] {
      FreshIsExact(idle[1..], expired, x);
      assert idle == [idle[0]] + idle[1..];
    }
  }

  /** `task`, making its section with `choice`, puts `x` into the queue. */
  predicate Returns(p: PoolState, task: Task, choice: Choice, x: SessionId) {
    task.Returning? && task.session == x && !task.discard && !choice.expired && !p.closed
  }

  /** It takes `x` out of the queue. */
  predicate Removes(p: PoolState, task: Task, choice: Choice, x: SessionId) {
    || (task.AboutToTake? && p.idle != [] && p.idle[0] == x)
    || (task.Sweeping? && x in choice.sweep)
    || task.Draining?
  }

  /** A session enters the queue only when a task returns it sound to an open pool, and leaves it only
      by being taken from the front, swept out expired or drained. */
  lemma QueueIsExact(c: Config, p: PoolState, t: Task, choice: Choice, newest: SessionId, x: SessionId)
    requires Distinct(p.idle)
    ensures x in Section(c, p, t, choice, newest).0.idle
       <==> Returns(p, t, choice, x) || (x in p.idle && !Removes(p, t, choice, x))
  {
    FreshIsExact(p.idle, choice.sweep, x);
    assert p.idle != [] ==> p.idle == [p.idle[0]] + p.idle[1..];
  }

  // ----- Who is handed a session ------------------------------------------------------------------------

  /** `id` has just connected `x`, or its check of `x` has succeeded and `x` has not expired. */
  predicate HandedOut(s: System, a: Action, id: nat, x: SessionId) {
    && a.Advance? && a.id == id && id in s.tasks && a.choice.good
    && ((s.tasks[id].Connecting? && x == s.sessions) || (s.tasks[id] == HealthChecking(x) && !a.choice.expired))
  }

  predicate HasOut(s: System, id: nat, x: SessionId) {
    id in s.tasks && s.tasks[id] == CheckedOut(x)
  }

  lemma HandedOutOnly(c: Config, s: System, a: Action, id: nat, x: SessionId)
    ensures HandedOut(s, a, id, x) ==> HasOut(After(c, s, a), id, x)
    ensures HasOut(After(c, s, a), id, x) ==> HandedOut(s, a, id, x) || HasOut(s, id, x)
  {
  }

  /** `id` was handed `x` by the k-th action and has had it ever since. */
  ghost predicate HandedOutAt(c: Config, actions: seq<Action>, k: nat, id: nat, x: SessionId) {
    && k < |actions| && HandedOut(Run(c, EMPTY, actions[..k]), actions[k], id, x)
    && forall j :: k < j <= |actions| ==> HasOut(Run(c, EMPTY, actions[..j]), id, x)
  }

  lemma HandedOutNow(c: Config, actions: seq<Action>, id: nat, x: SessionId)
    requires actions != []
    requires HandedOut(Run(c, EMPTY, actions[..|actions| - 1]), actions[|actions| - 1], id, x)
    ensures HandedOutAt(c, actions, |actions| - 1, id, x)
  {
    RunLast(c, EMPTY, actions);
    HandedOutOnly(c, Run(c, EMPTY, actions[..|actions| - 1]), actions[|actions| - 1], id, x);
    assert actions[..|actions|] == actions;
  }

  lemma HandedOutBefore(c: Config, actions: seq<Action>, k: nat, id: nat, x: SessionId)
    requires actions != [] && HandedOutAt(c, actions[..|actions| - 1], k, id, x)
    requires HasOut(Run(c, EMPTY, actions), id, x)
    ensures HandedOutAt(c, actions, k, id, x)
  {
    var front := actions[..|actions| - 1];
    assert front[..k] == actions[..k] && actions[..|actions|] == actions;
    forall j | k < j <= |actions|
      ensures HasOut(Run(c, EMPTY, actions[..j]), id, x)
    {
      assert j <= |front| ==> front[..j] == actions[..j];
    }
  }

  /** In every run, a task that has a session out connected it itself, or its check of it succeeded on a
      session that had not expired, and it has had it out since. */
  lemma {:induction false} CheckoutsAreHealthy(c: Config, actions: seq<Action>, id: nat, x: SessionId)
    requires HasOut(Run(c, EMPTY, actions), id, x)
    ensures exists k :: HandedOutAt(c, actions, k, id, x)
    decreases |actions|
  {
    if actions != [] {
      var front, last := actions[..|actions| - 1], actions[|actions| - 1];
      RunLast(c, EMPTY, actions);
      HandedOutOnly(c, Run(c, EMPTY, front), last, id, x);
      if HandedOut(Run(c, EMPTY, front), last, id, x) {
        HandedOutNow(c, actions, id, x);
      } else {
        CheckoutsAreHealthy(c, front, id, x);
        var k :| HandedOutAt(c, front, k, id, x);
        HandedOutBefore(c, actions, k, id, x);
      }
    }
  }

  // ----- Sessions that are given up -----------------------------------------------------------------------

  /** The step finds `x` broken, unreset or expired, drops it, or has it when the pool is closed. */
  predicate GivesUp(s: System, a: Action, x: SessionId) {
    match a
    case Spawn(_, _) => false
    case DropTask(id) => id in s.tasks && Owned(s.tasks[id]) == Some(x)
    case Advance(id, choice) =>
      id in s.tasks &&
      match s.tasks[id]
      case HealthChecking(y) => y == x && (choice.expired || !choice.good)
      case CheckedOut(y) => y == x && !choice.good
      case Recycling(y, broken) => y == x && (broken || !choice.good || s.pool.closed)
      case Returning(y, discard, _) => y == x && (discard || choice.expired || s.pool.closed)
      case Sweeping => x in s.pool.idle && x in choice.sweep
      case Draining => x in s.pool.idle
      case _ => false
  }

  predicate OnlyToDiscard(t: Task, x: SessionId) {
    t == Recycling(x, true) || (t.Returning? && t.session == x && t.discard)
  }

  /** Not idle, and in nobody's hands but to be discarded. */
  ghost predicate Gone(s: System, x: SessionId) {
    && x < s.sessions && x !in s.pool.idle
    && forall id: nat :: Holding(s, id, x) ==> OnlyToDiscard(s.tasks[id], x)
  }

  /** What a section does with a session that its task has or takes. */
  lemma SectionGivesUp(c: Config, p: PoolState, t: Task, choice: Choice, newest: SessionId, x: SessionId)
    requires x < newest && (Owned(t) == Some(x) ==> OnlyToDiscard(t, x)) && x !in p.idle
    ensures var after := Section(c, p, t, choice, newest).1;
      Owned(after) == Some(x) ==> OnlyToDiscard(after, x)
  {
  }

  lemma GoneStays(c: Config, s: System, a: Action, x: SessionId)
    requires Exclusive(s) && Gone(s, x)
    ensures Gone(After(c, s, a), x)
  {
    var next := After(c, s, a);
    if a.Advance? && a.id in s.tasks {
      var t := s.tasks[a.id];
      assert Owned(t) == Some(x) ==> Holding(s, a.id, x);
      QueueIsExact(c, s.pool, t, a.choice, s.sessions, x);
      SectionGivesUp(c, s.pool, t, a.choice, s.sessions, x);
    }
    forall id: nat | Holding(next, id, x)
      ensures OnlyToDiscard(next.tasks[id], x)
    {
      assert (a.Advance? && a.id == id) || Holding(s, id, x);
    }
  }

  lemma GivenUpIsGone(c: Config, s: System, a: Action, x: SessionId)
    requires Exclusive(s) && GivesUp(s, a, x)
    ensures Gone(After(c, s, a), x)
  {
    var next := After(c, s, a);
    var t := s.tasks[a.id];
    assert Owned(t) == Some(x) ==> Holding(s, a.id, x);
    if a.Advance? {
      QueueIsExact(c, s.pool, t, a.choice, s.sessions, x);
    }
    forall id: nat | Holding(next, id, x)
      ensures OnlyToDiscard(next.tasks[id], x)
    {
      assert (a.Advance? && a.id == id) || Holding(s, id, x);
    }
  }

  lemma {:induction false} RunStaysGone(c: Config, s: System, actions: seq<Action>, x: SessionId)
    requires Inv(c, s) && Gone(s, x)
    ensures Gone(Run(c, s, actions), x)
    decreases |actions|
  {
    if actions != [] {
      GoneStays(c, s, actions[0], x);
      if Step(c, s, actions[0]).Some? {
        StepKeepsInv(c, s, actions[0]);
      }
      RunStaysGone(c, After(c, s, actions[0]), actions[1..], x);
    }
  }

  /** In every run, a session that was returned broken, could not be reset, failed its check, had expired
      or was dropped is never idle again, and no task ever checks it or has it out again. */
  lemma GivenUpForGood(c: Config, before: seq<Action>, a: Action, after: seq<Action>, x: SessionId, id: nat)
    requires c.Valid() && GivesUp(Run(c, EMPTY, before), a, x)
    ensures var s := Run(c, EMPTY, before + [a] + after);
      && x !in s.pool.idle
      && (id in s.tasks ==> s.tasks[id] != CheckedOut(x) && s.tasks[id] != HealthChecking(x))
  {
    EmptyIsSound(c, before);
    EmptyIsSound(c, before + [a]);
    GivenUpIsGone(c, Run(c, EMPTY, before), a, x);
    RunLast(c, EMPTY, before + [a]);
    assert (before + [a])[..|before|] == before;
    RunStaysGone(c, Run(c, EMPTY, before + [a]), after, x);
    RunAppend(c, EMPTY, before + [a], after);
    var s := Run(c, EMPTY, before + [a] + after);
    assert id in s.tasks && Owned(s.tasks[id]) == Some(x) ==> Holding(s, id, x);
  }

  // ----- After the close --------------------------------------------------------------------------------

  predicate EmptyHanded(t: Task) {
    t.AtTop? || t.WarmTop? || t.Sweeping? || t.Closing? || t.Draining? || t.Finished?
  }

  /** A task that starts once the pool is closed never has a slot, and so never a session. */
  lemma {:induction false} LatecomersGetNothing(c: Config, s: System, actions: seq<Action>, id: nat)
    requires s.pool.closed && (id in s.tasks ==> EmptyHanded(s.tasks[id]))
    ensures var t := Run(c, s, actions);
      t.pool.closed && (id in t.tasks ==> !Holds(t.tasks[id]) && Owned(t.tasks[id]) == None)
    decreases |actions|
  {
    if actions != [] {
      var a := actions[0];
      if a.Advance? && a.id in s.tasks {
        SectionKeepsClosed(c, s.pool, s.tasks[a.id], a.choice, s.sessions);
      }
      LatecomersGetNothing(c, After(c, s, a), actions[1..], id);
    }
  }

  // ----- Acquiring and warming ------------------------------------------------------------------------------

  /** The session does not pass, and there is time for another. */
  predicate Rejects(choice: Choice) {
    choice.expired || (!choice.good && !choice.late)
  }

  /** Look at the flag, take from the queue, and check. */
  function Try(id: nat, choice: Choice): seq<Action> {
    [Advance(id, choice), Advance(id, choice), Advance(id, choice)]
  }

  function Tries(id: nat, choices: seq<Choice>): seq<Action> {
    if choices == [] then [] else Try(id, choices[0]) + [Advance(id, choices[0])] + Tries(id, choices[1..])
  }

  lemma TryTakes(c: Config, s: System, id: nat, choice: Choice)
    requires id in s.tasks && s.tasks[id] == AtTop && !s.pool.closed && s.pool.idle != []
    ensures var t := Run(c, s, Try(id, choice));
      && t.pool == s.pool.(idle := s.pool.idle[1..]) && t.sessions == s.sessions && id in t.tasks
      && t.tasks[id] == (if Rejects(choice) then Discarding(true)
                         else if choice.good then CheckedOut(s.pool.idle[0]) else Discarding(false))
  {
    var one := After(c, s, Advance(id, choice));
    var two := After(c, one, Advance(id, choice));
    RunOne(c, two, Advance(id, choice));
    assert [Advance(id, choice), Advance(id, choice)][1..] == [Advance(id, choice)];
    assert Try(id, choice)[1..] == [Advance(id, choice), Advance(id, choice)];
    assert Run(c, one, [Advance(id, choice), Advance(id, choice)]) == Run(c, two, [Advance(id, choice)]);
  }

  lemma RunOne(c: Config, s: System, a: Action)
    ensures Run(c, s, [a]) == After(c, s, a)
  {
    assert [a][1..] == [];
  }

  lemma TryAgain(c: Config, s: System, id: nat, choice: Choice)
    requires id in s.tasks && s.tasks[id] == AtTop && !s.pool.closed && s.pool.idle != [] && Rejects(choice)
    ensures var t := Run(c, s, Try(id, choice) + [Advance(id, choice)]);
      && t.pool == PoolState(SaturatingSub(s.pool.total, 1), s.pool.idle[1..], false)
      && t.sessions == s.sessions && id in t.tasks && t.tasks[id] == AtTop
  {
    TryTakes(c, s, id, choice);
    RunAppend(c, s, Try(id, choice), [Advance(id, choice)]);
    RunOne(c, Run(c, s, Try(id, choice)), Advance(id, choice));
  }

  /** An `acquire` that is left alone gets the first session of the queue that passes, having given up
      those before it and their slots, and takes no other. */
  lemma {:induction false} AcquireGetsFirst(c: Config, s: System, id: nat, rejected: seq<Choice>, passed: Choice)
    requires id in s.tasks && s.tasks[id] == AtTop && !s.pool.closed
    requires |rejected| < |s.pool.idle| <= s.pool.total
    requires (forall choice :: choice in rejected ==> Rejects(choice)) && passed.good && !passed.expired
    ensures var t := Run(c, s, Tries(id, rejected) + Try(id, passed));
      && HasOut(t, id, s.pool.idle[|rejected|])
      && t.pool == PoolState(s.pool.total - |rejected|, s.pool.idle[|rejected| + 1..], false)
    decreases |rejected|
  {
    if rejected == [] {
      TryTakes(c, s, id, passed);
      assert Tries(id, rejected) + Try(id, passed) == Try(id, passed);
    } else {
      var first := Try(id, rejected[0]) + [Advance(id, rejected[0])];
      var rest := Tries(id, rejected[1..]) + Try(id, passed);
      assert Rejects(rejected[0]) && forall choice :: choice in rejected[1..] ==> choice in rejected;
      TryAgain(c, s, id, rejected[0]);
      AcquireGetsFirst(c, Run(c, s, first), id, rejected[1..], passed);
      RunAppend(c, s, first, rest);
      assert Tries(id, rejected) + Try(id, passed) == first + rest;
    }
  }

  /** With nothing idle it takes a slot and connects, or waits while there is none. */
  lemma AcquireConnects(c: Config, s: System, id: nat, choice: Choice)
    requires id in s.tasks && s.tasks[id] == AtTop && !s.pool.closed && s.pool.idle == []
    ensures var t := Run(c, s, Try(id, choice));
      && id in t.tasks && t.tasks[id] == (if s.pool.total < c.maxSize then Connecting else Waiting)
      && t.pool == s.pool.(total := if s.pool.total < c.maxSize then s.pool.total + 1 else s.pool.total)
  {
    var one := After(c, s, Advance(id, choice));
    var two := After(c, one, Advance(id, choice));
    RunOne(c, two, Advance(id, choice));
    assert [Advance(id, choice), Advance(id, choice)][1..] == [Advance(id, choice)];
    assert Try(id, choice)[1..] == [Advance(id, choice), Advance(id, choice)];
    assert Run(c, one, [Advance(id, choice), Advance(id, choice)]) == Run(c, two, [Advance(id, choice)]);
  }

  /** A connection is made ahead of need exactly while the open pool has fewer idle sessions than it
      should and a slot is free. */
  lemma WarmsWhenNeeded(c: Config, s: System, id: nat, choice: Choice)
    requires c.Valid() && id in s.tasks && s.tasks[id] == WarmTop
    ensures After(c, s, Advance(id, choice)).tasks[id].WarmConnecting?
       <==> !s.pool.closed && |s.pool.idle| < c.minIdle && s.pool.total < c.maxSize
  {
  }

  /** What is missing to the idle sessions that there should be, as far as slots are free. */
  function Missing(c: Config, p: PoolState): nat {
    if p.closed || c.minIdle <= |p.idle| || c.maxSize <= p.total then 0
    else if c.minIdle - |p.idle| <= c.maxSize - p.total then c.minIdle - |p.idle|
    else c.maxSize - p.total
  }

  /** A section before which the connection that was needed has been made. */
  function Served(id: nat, sweep: set<SessionId>): Action {
    Advance(id, Choice(true, false, false, sweep))
  }

  function WarmRounds(id: nat, n: nat): seq<Action> {
    if n == 0 then [Served(id, {})] else [Served(id, {}), Served(id, {}), Served(id, {})] + WarmRounds(id, n - 1)
  }

  lemma WarmOnce(c: Config, s: System, id: nat)
    requires c.Valid() && id in s.tasks && s.tasks[id] == WarmTop && Missing(c, s.pool) > 0
    ensures var t := Run(c, s, [Served(id, {}), Served(id, {}), Served(id, {})]);
      && t.pool == PoolState(s.pool.total + 1, s.pool.idle + [s.sessions], false)
      && id in t.tasks && t.tasks[id] == WarmTop
  {
    var one := After(c, s, Served(id, {}));
    var two := After(c, one, Served(id, {}));
    RunOne(c, two, Served(id, {}));
    assert [Served(id, {}), Served(id, {})][1..] == [Served(id, {})];
    assert [Served(id, {}), Served(id, {}), Served(id, {})][1..] == [Served(id, {}), Served(id, {})];
    assert Run(c, one, [Served(id, {}), Served(id, {})]) == Run(c, two, [Served(id, {})]);
  }

  /** Left alone, and connecting each time, it makes exactly the sessions that are missing. */
  lemma {:induction false} WarmsUp(c: Config, s: System, id: nat)
    requires c.Valid() && id in s.tasks && s.tasks[id] == WarmTop
    ensures var n := Missing(c, s.pool);
      var t := Run(c, s, WarmRounds(id, n));
      && id in t.tasks && t.tasks[id] == Finished && Missing(c, t.pool) == 0
      && s.pool.idle <= t.pool.idle && |t.pool.idle| == |s.pool.idle| + n && t.pool.total == s.pool.total + n
    decreases Missing(c, s.pool)
  {
    var n := Missing(c, s.pool);
    if n == 0 {
      RunOne(c, s, Served(id, {}));
    } else {
      var round := [Served(id, {}), Served(id, {}), Served(id, {})];
      WarmOnce(c, s, id);
      WarmsUp(c, Run(c, s, round), id);
      RunAppend(c, s, round, WarmRounds(id, n - 1));
    }
  }

  /** A maintenance tick that is left alone removes the expired sessions and makes up for what is missing
      then, as far as slots are free. */
  lemma TickRefills(c: Config, s: System, id: nat, sweep: set<SessionId>)
    requires c.Valid() && id in s.tasks && s.tasks[id] == Sweeping
    ensures var swept := Swept(s.pool, sweep);
      var t := Run(c, s, [Served(id, sweep)] + WarmRounds(id, Missing(c, swept)));
      && id in t.tasks && t.tasks[id] == Finished && Missing(c, t.pool) == 0
      && swept.idle <= t.pool.idle && |t.pool.idle| == |swept.idle| + Missing(c, swept)
  {
    var one := After(c, s, Served(id, sweep));
    RunOne(c, s, Served(id, sweep));
    RunAppend(c, s, [Served(id, sweep)], WarmRounds(id, Missing(c, one.pool)));
    WarmsUp(c, one, id);
  }
}

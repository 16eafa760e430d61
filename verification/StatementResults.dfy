/**
 What holds of prepared statements in every run, and exactly when the reference counts are right.
 */
module StatementResults {
  import opened Base
  import opened StatementCache
  import opened StatementLife

  // ----- The reference counts -----------------------------------------------------------------------------

  /** The counts are right now and after each of the actions. */
  ghost predicate CountsThroughout(s: System, actions: seq<Action>)
    decreases |actions|
  {
    CountsOk(s) && (actions == [] || CountsThroughout(Do(s, actions[0]), actions[1..]))
  }

  /** The counts stay right exactly when no insert meets an entry that counts handles. */
  lemma {:induction false} CountsAreRight(s: System, actions: seq<Action>)
    requires CountsOk(s)
    ensures CountsThroughout(s, actions) <==> NoOverwrite(s, actions)
    decreases |actions|
  {
    if actions != [] {
      if Overwrites(s, actions[0]) {
        OverwriteMiscounts(s, actions[0]);
      } else {
        if Step(s, actions[0]).Some? {
          StepKeepsCounts(s, actions[0]);
        }
        CountsAreRight(Do(s, actions[0]), actions[1..]);
      }
    }
  }

  lemma MissesKept(s: System, a: Action)
    requires MissesOk(s) && SingleMiss(s, a)
    ensures !Replaces(s, a) && MissesOk(Do(s, a))
  {
    var next := Do(s, a);
    forall i: nat, key: Key | InFlight(next.tasks, i, key)
      ensures InFlight(s.tasks, i, key) || (a.Begin? && a.task == i && a.key == key)
    {
    }
    if a.Finish? && Step(s, a).Some? {
      assert InFlight(s.tasks, a.task, s.tasks[a.task].key);
      assert a.valid ==> !InFlight(next.tasks, a.task, s.tasks[a.task].key);
    }
  }

  /** It is enough that no two prepares of one key are past their miss at the same time. */
  lemma {:induction false} DisciplineSuffices(s: System, actions: seq<Action>, key: Key)
    requires MissesOk(s) && Disciplined(s, actions)
    ensures NoOverwrite(s, actions) && NeverReplaced(s, actions, key)
    decreases |actions|
  {
    if actions != [] {
      MissesKept(s, actions[0]);
      DisciplineSuffices(Do(s, actions[0]), actions[1..], key);
    }
  }

  /** A cache entry counts the live handles of its key, and each live handle is backed by the
      statement of that entry. */
  lemma HandlesAreCounted(retain: bool, actions: seq<Action>, key: Key, handle: nat)
    requires NoOverwrite(Start(retain), actions)
    ensures var s := Run(Start(retain), actions);
      && (key in s.cache.stmts ==> s.cache.stmts[key].handles == |Live(s.handles, key)|)
      && (handle in s.handles ==>
            && s.handles[handle].key in s.cache.stmts
            && s.cache.stmts[s.handles[handle].key].stmt == s.handles[handle].name)
  {
    StartIsOk(retain);
    CountsAreRight(Start(retain), actions);
    CountsAtTheEnd(Start(retain), actions);
    var s := Run(Start(retain), actions);
    if handle in s.handles {
      assert Caches(s.cache.stmts, s.handles[handle].key, s.handles[handle].name);
    }
  }

  lemma {:induction false} CountsAtTheEnd(s: System, actions: seq<Action>)
    requires CountsThroughout(s, actions)
    ensures CountsOk(Run(s, actions))
    decreases |actions|
  {
    if actions != [] {
      CountsAtTheEnd(Do(s, actions[0]), actions[1..]);
    }
  }

  // ----- Live handles --------------------------------------------------------------------------------------

  ghost predicate LiveName(s: System, n: Name) {
    exists h: nat :: h in s.handles && s.handles[h].name == n
  }

  predicate Standing(p: Place) {
    p.InCache? || p.Replaced?
  }

  ghost predicate Stands(s: System, n: Name) {
    exists p :: At(s, n, p) && Standing(p)
  }

  /** With retention a statement that stands in the cache, or has stood there, stands for good. */
  lemma StandsOn(s: System, a: Action, n: Name)
    requires s.cache.retain && Stands(s, n) && Step(s, a).Some?
    ensures Stands(Step(s, a).value, n)
  {
    var p :| At(s, n, p) && Standing(p);
    if Evicted(s, a) == Some(n) {
      EvictedMoves(s, a, n, p);
    } else if Subject(s, a) == Some(n) {
      SubjectMoves(s, a, n, p);
      SubjectStands(s, a, n, p);
    } else {
      OthersStay(s, a, n, p);
    }
  }

  lemma SubjectStands(s: System, a: Action, n: Name, p: Place)
    requires s.cache.retain && At(s, n, p) && Standing(p) && Step(s, a).Some? && Subject(s, a) == Some(n)
    ensures Moved(s, a, p) == p
  {
    forall task: nat | task in s.tasks
      ensures NameOf(s.tasks[task]) != Some(n)
    {
      assert !Owns(s.tasks, task, n);
    }
  }

  ghost predicate HandlesStand(s: System) {
    forall h: nat :: h in s.handles ==> Stands(s, s.handles[h].name)
  }

  lemma StepKeepsStanding(s: System, a: Action)
    requires Inv(s) && s.cache.retain && HandlesStand(s) && Step(s, a).Some?
    ensures HandlesStand(Step(s, a).value)
  {
    var next := Step(s, a).value;
    forall h: nat | h in next.handles
      ensures Stands(next, next.handles[h].name)
    {
      var n := next.handles[h].name;
      if h in s.handles {
        StandsOn(s, a, n);
      } else if a.Begin? {
        assert Placed(s, n);
        assert Caches(s.cache.stmts, a.key, n);
        StandsOn(s, a, n);
      } else {
        assert Placed(s, n);
        var p :| At(s, n, p);
        SubjectMoves(s, a, n, p);
      }
    }
  }

  lemma {:induction false} RunKeepsStanding(s: System, actions: seq<Action>)
    requires Inv(s) && s.cache.retain && HandlesStand(s)
    ensures HandlesStand(Run(s, actions))
    decreases |actions|
  {
    if actions != [] {
      if Step(s, actions[0]).Some? {
        StepKeepsInv(s, actions[0]);
        StepKeepsStanding(s, actions[0]);
      }
      RunKeepsStanding(Do(s, actions[0]), actions[1..]);
    }
  }

  /** With retention in every run, and without it while no insert meets an entry, the server has the
      statement of every live handle and no close was sent for it. */
  lemma HandlesAreBacked(retain: bool, actions: seq<Action>, handle: nat)
    requires retain || NoOverwrite(Start(retain), actions)
    requires handle in Run(Start(retain), actions).handles
    ensures var s := Run(Start(retain), actions);
      s.handles[handle].name in s.prepared && s.closes[s.handles[handle].name] == 0
  {
    StartIsOk(retain);
    RunKeepsInv(Start(retain), actions);
    var s := Run(Start(retain), actions);
    var n := s.handles[handle].name;
    if retain {
      RunKeepsStanding(Start(retain), actions);
      assert Stands(s, n);
    } else {
      assert Placed(s, n);
      assert Caches(s.cache.stmts, s.handles[handle].key, n);
    }
  }

  // ----- Names ------------------------------------------------------------------------------------------------

  predicate Waits(tasks: map<nat, Task>, task: nat, n: Name) {
    task in tasks && tasks[task].Named? && tasks[task].name == n
  }

  /** Names are numbered on, and a name waits with one task until it is sent. */
  ghost predicate NumbersOk(s: System) {
    && (forall n: Name :: s.parses[n] <= 1)
    && (forall n: Name :: n > s.cache.counter ==> s.parses[n] == 0)
    && (forall t: nat, n: Name :: Waits(s.tasks, t, n) ==> n <= s.cache.counter && s.parses[n] == 0)
    && (forall t: nat, u: nat, n: Name :: Waits(s.tasks, t, n) && Waits(s.tasks, u, n) ==> t == u)
  }

  lemma NumbersFollow(s: System, next: System)
    requires NumbersOk(s) && next.parses == s.parses && next.cache.counter == s.cache.counter
    requires forall t: nat, n: Name :: Waits(next.tasks, t, n) ==> Waits(s.tasks, t, n)
    ensures NumbersOk(next)
  {
  }

  lemma TakeNameNumbers(s: System, task: nat)
    requires NumbersOk(s) && StepTakeName(s, task).Some?
    ensures NumbersOk(StepTakeName(s, task).value)
  {
    var next := StepTakeName(s, task).value;
    assert forall t: nat, n: Name :: Waits(next.tasks, t, n) ==>
        Waits(s.tasks, t, n) || (t == task && n == next.cache.counter);
  }

  lemma SendNumbers(s: System, task: nat)
    requires NumbersOk(s) && StepSend(s, task).Some?
    ensures NumbersOk(StepSend(s, task).value)
  {
    var next := StepSend(s, task).value;
    assert forall t: nat, n: Name :: Waits(next.tasks, t, n) ==> t != task && Waits(s.tasks, t, n);
    if s.tasks[task].Named? {
      assert Waits(s.tasks, task, s.tasks[task].name);
    }
  }

  lemma StepKeepsNumbers(s: System, a: Action)
    requires NumbersOk(s) && Step(s, a).Some?
    ensures NumbersOk(Step(s, a).value)
  {
    if a.TakeName? {
      TakeNameNumbers(s, a.task);
    } else if a.Send? {
      SendNumbers(s, a.task);
    } else {
      NumbersFollow(s, Step(s, a).value);
    }
  }

  lemma {:induction false} RunKeepsNumbers(s: System, actions: seq<Action>)
    requires NumbersOk(s)
    ensures NumbersOk(Run(s, actions))
    decreases |actions|
  {
    if actions != [] {
      if Step(s, actions[0]).Some? {
        StepKeepsNumbers(s, actions[0]);
      }
      RunKeepsNumbers(Do(s, actions[0]), actions[1..]);
    }
  }

  /** In every run a name is prepared at most once. With retention in every run, and without it while
      no insert meets an entry, a name is closed at most once, after it was prepared, and not while
      one of its handles is live. */
  lemma NamesAreUsedOnce(retain: bool, actions: seq<Action>, n: Name)
    ensures var s := Run(Start(retain), actions);
      && s.parses[n] <= 1
      && (retain || NoOverwrite(Start(retain), actions) ==>
            s.closes[n] <= s.parses[n] && (s.closes[n] > 0 ==> !LiveName(s, n)))
  {
    RunKeepsNumbers(Start(retain), actions);
    if retain || NoOverwrite(Start(retain), actions) {
      StartIsOk(retain);
      RunKeepsInv(Start(retain), actions);
      var s := Run(Start(retain), actions);
      assert Placed(s, n);
      if LiveName(s, n) {
        var h: nat :| h in s.handles && s.handles[h].name == n;
        HandlesAreBacked(retain, actions, h);
      }
    }
  }

  // ----- Without retention --------------------------------------------------------------------------------------

  lemma PreparedUntilClosed(s: System, a: Action, n: Name)
    requires Inv(s) && Step(s, a).Some? && (n in s.prepared || s.closes[n] > 0)
    ensures var next := Step(s, a).value; n in next.prepared || next.closes[n] > 0
  {
    assert Placed(s, n);
    if a.Serve? && s.inbox[0] == Close(n) {
      assert About(s.inbox, n)[0] == s.inbox[0];
    }
  }

  lemma {:induction false} StaysUntilClosed(s: System, actions: seq<Action>, n: Name)
    requires Inv(s) && (s.cache.retain || NoOverwrite(s, actions)) && (n in s.prepared || s.closes[n] > 0)
    ensures var last := Run(s, actions); n in last.prepared || last.closes[n] > 0
    decreases |actions|
  {
    if actions != [] {
      if Step(s, actions[0]).Some? {
        StepKeepsInv(s, actions[0]);
        PreparedUntilClosed(s, actions[0], n);
      }
      StaysUntilClosed(Do(s, actions[0]), actions[1..], n);
    }
  }

  ghost predicate Quiet(s: System) {
    s.tasks == map[] && s.inbox == []
  }

  /** Without retention, once nothing is in progress the server has exactly the statements of the
      live handles, apart from those given up half-way; each other statement that it ever had has
      been closed exactly once. */
  lemma ClosedWithTheLastHandle(before: seq<Action>, after: seq<Action>, n: Name)
    requires NoOverwrite(Start(false), before) && NoOverwrite(Run(Start(false), before), after)
    ensures var s := Run(Run(Start(false), before), after);
      Quiet(s) && n !in s.abandoned ==>
        && (n in s.prepared <==> LiveName(s, n))
        && (n in Run(Start(false), before).prepared ==> s.closes[n] == if LiveName(s, n) then 0 else 1)
  {
    StartIsOk(false);
    var first := Run(Start(false), before);
    var s := Run(first, after);
    RunKeepsInv(Start(false), before);
    RunKeepsInv(first, after);
    assert Placed(s, n);
    if n in first.prepared {
      StaysUntilClosed(first, after, n);
    }
    if Quiet(s) && n !in s.abandoned {
      assert forall t: nat :: !Owns(s.tasks, t, n);
      LiveMeansCached(s, n);
    }
  }

  lemma LiveMeansCached(s: System, n: Name)
    requires CountsOk(s) && !s.cache.retain
    ensures LiveName(s, n) <==> exists key: Key :: Caches(s.cache.stmts, key, n)
  {
    forall key: Key | Caches(s.cache.stmts, key, n)
      ensures LiveName(s, n)
    {
      assert |Live(s.handles, key)| > 0;
      var h :| h in Live(s.handles, key);
      assert Caches(s.cache.stmts, s.handles[h].key, s.handles[h].name);
    }
  }

  // ----- With retention ----------------------------------------------------------------------------------------------

  lemma {:induction false} StandsForGood(s: System, actions: seq<Action>, n: Name)
    requires Inv(s) && s.cache.retain && Stands(s, n)
    ensures Stands(Run(s, actions), n)
    decreases |actions|
  {
    if actions != [] {
      if Step(s, actions[0]).Some? {
        StepKeepsInv(s, actions[0]);
        StandsOn(s, actions[0], n);
      }
      StandsForGood(Do(s, actions[0]), actions[1..], n);
    }
  }

  /** A statement that was put out of its entry does not come back. */
  lemma {:induction false} ReplacedForGood(s: System, actions: seq<Action>, n: Name)
    requires Inv(s) && s.cache.retain && At(s, n, Replaced)
    ensures At(Run(s, actions), n, Replaced)
    decreases |actions|
  {
    if actions != [] {
      var a := actions[0];
      if Step(s, a).Some? {
        StepKeepsInv(s, a);
        if Evicted(s, a) == Some(n) {
          EvictedMoves(s, a, n, Replaced);
        } else if Subject(s, a) == Some(n) {
          SubjectMoves(s, a, n, Replaced);
          SubjectStands(s, a, n, Replaced);
        } else {
          OthersStay(s, a, n, Replaced);
        }
      }
      ReplacedForGood(Do(s, a), actions[1..], n);
    }
  }

  lemma {:induction false} KeyStays(s: System, actions: seq<Action>, key: Key)
    requires Inv(s) && s.cache.retain && key in s.cache.stmts
    ensures var stmts := Run(s, actions).cache.stmts;
      key in stmts && (stmts[key].stmt == s.cache.stmts[key].stmt <==> NeverReplaced(s, actions, key))
    decreases |actions|
  {
    if actions != [] {
      var a := actions[0];
      var n := s.cache.stmts[key].stmt;
      if Step(s, a).Some? {
        StepKeepsInv(s, a);
      }
      KeyStays(Do(s, a), actions[1..], key);
      if Replaces(s, a) && s.tasks[a.task].key == key {
        assert Placed(s, n);
        var p :| At(s, n, p);
        EvictedMoves(s, a, n, p);
        ReplacedForGood(Do(s, a), actions[1..], n);
        assert !Caches(Run(s, actions).cache.stmts, key, n);
      }
    }
  }

  /** With retention, in every run: an entry stays, its statement is never closed, and its key keeps
      that statement exactly when no insert replaces it. */
  lemma RetainedForGood(before: seq<Action>, after: seq<Action>, key: Key)
    requires key in Run(Start(true), before).cache.stmts
    ensures var first := Run(Start(true), before); var s := Run(first, after); var n := first.cache.stmts[key].stmt;
      && n in s.prepared && s.closes[n] == 0 && key in s.cache.stmts
      && (s.cache.stmts[key].stmt == n <==> NeverReplaced(first, after, key))
  {
    StartIsOk(true);
    var first := Run(Start(true), before);
    RunKeepsInv(Start(true), before);
    var n := first.cache.stmts[key].stmt;
    assert Placed(first, n);
    assert Caches(first.cache.stmts, key, n);
    StandsForGood(first, after, n);
    KeyStays(first, after, key);
  }
}

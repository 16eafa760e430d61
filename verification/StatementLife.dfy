/**
 The life of a statement name: it has one place at a time, every step moves at most the name that
 it is about, and the reference counts follow.
 */
module StatementLife {
  import opened Base
  import opened StatementCache

  /** Where a name stands: not yet taken, in the hands of one task, in one cache entry, put out of its
      entry by a later insert, given up half-way, or done with. */
  datatype Place = Unused | WithTask(task: nat) | InCache(key: Key) | Replaced | GivenUp | Over

  /** The pending commands about one name. */
  function About(inbox: seq<Command>, n: Name): seq<Command> {
    if inbox == [] then []
    else (if inbox[0].name == n then [inbox[0]] else []) + About(inbox[1..], n)
  }

  lemma {:induction false} AboutSent(inbox: seq<Command>, c: Command, n: Name)
    ensures About(inbox + [c], n) == About(inbox, n) + if c.name == n then [c] else []
  {
    if inbox == [] {
      assert inbox + [c] == [c];
    } else {
      AboutSent(inbox[1..], c, n);
      assert (inbox + [c])[1..] == inbox[1..] + [c];
    }
  }

  predicate Owns(tasks: map<nat, Task>, task: nat, n: Name) {
    task in tasks && NameOf(tasks[task]) == Some(n)
  }

  predicate Caches(stmts: map<Key, Entry>, key: Key, n: Name) {
    key in stmts && stmts[key].stmt == n
  }

  predicate Counted(s: System, n: Name, parses: nat, closes: nat) {
    s.parses[n] == parses && s.closes[n] == closes
  }

  /** What has been sent for a name and what the server has of it, by where the name stands. */
  predicate StageOk(s: System, n: Name, p: Place) {
    var pending := About(s.inbox, n);
    match p
    case Unused => pending == [] && n !in s.prepared && Counted(s, n, 0, 0)
    case WithTask(task) =>
      task in s.tasks &&
      (match s.tasks[task]
       case Missed(_) => false
       case Named(_, _) => pending == [] && n !in s.prepared && Counted(s, n, 0, 0)
       case Sent(_, _) => pending == [Parse(n, task)] && n !in s.prepared && Counted(s, n, 1, 0)
       case Answered(_, _) => pending == [] && n in s.prepared && Counted(s, n, 1, 0)
       case Closing(_) => pending == [] && n in s.prepared && Counted(s, n, 1, 0))
    case InCache(_) => pending == [] && n in s.prepared && Counted(s, n, 1, 0)
    case Replaced => s.cache.retain && pending == [] && n in s.prepared && Counted(s, n, 1, 0)
    case GivenUp =>
      Counted(s, n, 1, 0) && (pending == [] || (n !in s.prepared && |pending| == 1 && pending[0].Parse?))
    case Over =>
      if pending == [] then n !in s.prepared && s.closes[n] <= s.parses[n] <= 1
      else pending == [Close(n)] && Counted(s, n, 1, 1)
  }

  ghost predicate At(s: System, n: Name, p: Place) {
    && (forall task: nat :: Owns(s.tasks, task, n) <==> p == WithTask(task))
    && (forall key: Key :: Caches(s.cache.stmts, key, n) <==> p == InCache(key))
    && (n in s.abandoned <==> p.GivenUp?)
    && (n > s.cache.counter <==> p.Unused?)
    && StageOk(s, n, p)
  }

  ghost predicate Placed(s: System, n: Name) {
    exists p :: At(s, n, p)
  }

  ghost function Live(handles: map<nat, Handle>, key: Key): set<nat> {
    set h | h in handles && handles[h].key == key
  }

  /** The reference counts. */
  ghost predicate CountsOk(s: System) {
    && (forall key: Key :: key in s.cache.stmts ==> s.cache.stmts[key].handles == |Live(s.handles, key)|)
    && (forall h: nat :: h in s.handles ==> Caches(s.cache.stmts, s.handles[h].key, s.handles[h].name))
    && (!s.cache.retain ==> forall key: Key :: key in s.cache.stmts ==> s.cache.stmts[key].handles > 0)
  }

  ghost predicate MissesOk(s: System) {
    && (forall i: nat, j: nat, key: Key :: InFlight(s.tasks, i, key) && InFlight(s.tasks, j, key) ==> i == j)
    && (forall i: nat, key: Key :: InFlight(s.tasks, i, key) ==> key !in s.cache.stmts)
  }

  /** Without retention the places follow from the counts; with retention they do not need them. */
  ghost predicate Inv(s: System) {
    (forall n: Name :: Placed(s, n)) && (s.cache.retain || CountsOk(s))
  }

  /** The steps that keep the places. */
  ghost predicate Safe(s: System, a: Action) {
    s.cache.retain || (CountsOk(s) && !Overwrites(s, a))
  }

  // ----- Each step moves the name it is about and the one it replaces ------------------------------------

  /** The name an action is about. */
  function Subject(s: System, a: Action): Option<Name> {
    match a
    case Begin(_, _, _) => None
    case TakeName(_) => Some(s.cache.counter + 1)
    case Send(task) => if task in s.tasks then NameOf(s.tasks[task]) else None
    case Serve(_) => if s.inbox != [] then Some(s.inbox[0].name) else None
    case Finish(task, _, _) => if task in s.tasks then NameOf(s.tasks[task]) else None
    case Release(handle, _) => if handle in s.handles then Some(s.handles[handle].name) else None
    case Abandon(task) => if task in s.tasks then NameOf(s.tasks[task]) else None
  }

  /** The name that an insert puts out of its entry. */
  function Evicted(s: System, a: Action): Option<Name> {
    if Replaces(s, a) then Some(s.cache.stmts[s.tasks[a.task].key].stmt) else None
  }

  /** Where an action takes the name it is about. */
  function Moved(s: System, a: Action, p: Place): Place {
    match a
    case Begin(_, _, _) => p
    case TakeName(task) => WithTask(task)
    case Send(task) => if task in s.tasks && s.tasks[task].Closing? then Over else p
    case Serve(ok) => if s.inbox != [] && s.inbox[0].Parse? && !ok && p.WithTask? then Over else p
    case Finish(task, valid, _) =>
      if valid && task in s.tasks && s.tasks[task].Answered? then InCache(s.tasks[task].key) else p
    case Release(handle, task) =>
      if handle in s.handles && LastHandle(s.cache, s.handles[handle].key) && !s.cache.retain then WithTask(task) else p
    case Abandon(task) =>
      if task !in s.tasks || s.tasks[task].Missed? then p else if s.tasks[task].Named? then Over else GivenUp
  }

  lemma OthersStay(s: System, a: Action, n: Name, p: Place)
    requires Safe(s, a) && At(s, n, p) && Step(s, a).Some?
    requires Subject(s, a) != Some(n) && Evicted(s, a) != Some(n)
    ensures At(Step(s, a).value, n, p)
  {
    var next := Step(s, a).value;
    match a {
      case Begin(task, key, handle) =>
        assert forall t: nat :: Owns(next.tasks, t, n) <==> Owns(s.tasks, t, n);
        assert forall k: Key :: Caches(next.cache.stmts, k, n) <==> Caches(s.cache.stmts, k, n);
      case TakeName(task) =>
        assert forall t: nat :: Owns(next.tasks, t, n) <==> Owns(s.tasks, t, n);
      case Send(task) => SendStays(s, task, n, p);
      case Serve(ok) => ServeStays(s, ok, n, p);
      case Finish(task, valid, handle) =>
        FinishStays(s, task, valid, handle, n, p);
      case Release(handle, task) => ReleaseStays(s, handle, task, n, p);
      case Abandon(task) =>
        assert forall t: nat :: Owns(next.tasks, t, n) <==> Owns(s.tasks, t, n);
    }
  }

  lemma SendStays(s: System, task: nat, n: Name, p: Place)
    requires At(s, n, p) && Step(s, Send(task)).Some? && s.tasks[task].name != n
    ensures At(Step(s, Send(task)).value, n, p)
  {
    var next := Step(s, Send(task)).value;
    AboutSent(s.inbox, next.inbox[|s.inbox|], n);
    assert forall t: nat :: Owns(next.tasks, t, n) <==> Owns(s.tasks, t, n);
  }

  lemma ServeStays(s: System, ok: bool, n: Name, p: Place)
    requires At(s, n, p) && Step(s, Serve(ok)).Some? && s.inbox[0].name != n
    ensures At(Step(s, Serve(ok)).value, n, p)
  {
    var next := Step(s, Serve(ok)).value;
    assert forall t: nat :: Owns(next.tasks, t, n) <==> Owns(s.tasks, t, n);
  }

  lemma FinishStays(s: System, task: nat, valid: bool, handle: nat, n: Name, p: Place)
    requires At(s, n, p) && StepFinish(s, task, valid, handle).Some? && s.tasks[task].name != n
    requires Evicted(s, Finish(task, valid, handle)) != Some(n)
    ensures At(StepFinish(s, task, valid, handle).value, n, p)
  {
    var next := StepFinish(s, task, valid, handle).value;
    assert forall t: nat :: Owns(next.tasks, t, n) <==> Owns(s.tasks, t, n);
    assert forall k: Key :: Caches(next.cache.stmts, k, n) <==> Caches(s.cache.stmts, k, n);
  }

  lemma ReleaseStays(s: System, handle: nat, task: nat, n: Name, p: Place)
    requires (s.cache.retain || CountsOk(s)) && At(s, n, p)
    requires StepRelease(s, handle, task).Some? && s.handles[handle].name != n
    ensures At(StepRelease(s, handle, task).value, n, p)
  {
    var next := StepRelease(s, handle, task).value;
    var key := s.handles[handle].key;
    assert !s.cache.retain ==> Caches(s.cache.stmts, key, s.handles[handle].name);
    assert forall t: nat :: Owns(next.tasks, t, n) <==> Owns(s.tasks, t, n);
    assert forall k: Key :: Caches(next.cache.stmts, k, n) <==> Caches(s.cache.stmts, k, n);
  }

  lemma SubjectMoves(s: System, a: Action, n: Name, p: Place)
    requires Safe(s, a) && At(s, n, p) && Step(s, a).Some? && Subject(s, a) == Some(n)
    ensures At(Step(s, a).value, n, Moved(s, a, p))
  {
    match a {
      case TakeName(task) => TakeNameMoves(s, task, n, p);
      case Send(task) => SendMoves(s, task, n, p);
      case Serve(ok) => ServeMoves(s, ok, n, p);
      case Finish(task, valid, handle) =>
        FinishMoves(s, task, valid, handle, n, p);
      case Release(handle, task) => ReleaseMoves(s, handle, task, n, p);
      case Abandon(task) => AbandonMoves(s, task, n, p);
    }
  }

  lemma TakeNameMoves(s: System, task: nat, n: Name, p: Place)
    requires At(s, n, p) && StepTakeName(s, task).Some? && n == s.cache.counter + 1
    ensures At(StepTakeName(s, task).value, n, WithTask(task))
  {
    var next := StepTakeName(s, task).value;
    assert forall t: nat :: t != task ==> (Owns(next.tasks, t, n) <==> Owns(s.tasks, t, n));
  }

  lemma SendMoves(s: System, task: nat, n: Name, p: Place)
    requires At(s, n, p) && StepSend(s, task).Some? && s.tasks[task].name == n
    ensures At(StepSend(s, task).value, n, Moved(s, Send(task), p))
  {
    var next := StepSend(s, task).value;
    assert Owns(s.tasks, task, n);
    AboutSent(s.inbox, next.inbox[|s.inbox|], n);
    assert forall t: nat :: t != task ==> (Owns(next.tasks, t, n) <==> Owns(s.tasks, t, n));
  }

  lemma ServeMoves(s: System, ok: bool, n: Name, p: Place)
    requires At(s, n, p) && StepServe(s, ok).Some? && s.inbox[0].name == n
    ensures At(StepServe(s, ok).value, n, Moved(s, Serve(ok), p))
  {
    var next := StepServe(s, ok).value;
    assert About(s.inbox, n)[0] == s.inbox[0];
    assert forall t: nat :: Owns(s.tasks, t, n) && p != WithTask(t) ==> false;
    assert forall t: nat :: p != WithTask(t) ==> (Owns(next.tasks, t, n) <==> Owns(s.tasks, t, n));
  }

  lemma FinishMoves(s: System, task: nat, valid: bool, handle: nat, n: Name, p: Place)
    requires At(s, n, p) && StepFinish(s, task, valid, handle).Some? && s.tasks[task].name == n
    ensures At(StepFinish(s, task, valid, handle).value, n, Moved(s, Finish(task, valid, handle), p))
  {
    var next := StepFinish(s, task, valid, handle).value;
    var key := s.tasks[task].key;
    assert Owns(s.tasks, task, n);
    assert forall t: nat :: t != task ==> (Owns(next.tasks, t, n) <==> Owns(s.tasks, t, n));
    assert forall k: Key :: k != key ==> (Caches(next.cache.stmts, k, n) <==> Caches(s.cache.stmts, k, n));
  }

  lemma ReleaseMoves(s: System, handle: nat, task: nat, n: Name, p: Place)
    requires (s.cache.retain || CountsOk(s)) && At(s, n, p)
    requires StepRelease(s, handle, task).Some? && s.handles[handle].name == n
    ensures At(StepRelease(s, handle, task).value, n, Moved(s, Release(handle, task), p))
  {
    var next := StepRelease(s, handle, task).value;
    var key := s.handles[handle].key;
    assert !s.cache.retain ==> Caches(s.cache.stmts, key, n);
    assert forall t: nat :: t != task ==> (Owns(next.tasks, t, n) <==> Owns(s.tasks, t, n));
    assert forall k: Key :: k != key ==> (Caches(next.cache.stmts, k, n) <==> Caches(s.cache.stmts, k, n));
  }

  lemma AbandonMoves(s: System, task: nat, n: Name, p: Place)
    requires At(s, n, p) && StepAbandon(s, task).Some? && NameOf(s.tasks[task]) == Some(n)
    ensures At(StepAbandon(s, task).value, n, Moved(s, Abandon(task), p))
  {
    var next := StepAbandon(s, task).value;
    assert Owns(s.tasks, task, n);
    assert forall t: nat :: t != task ==> (Owns(next.tasks, t, n) <==> Owns(s.tasks, t, n));
  }

  lemma EvictedMoves(s: System, a: Action, n: Name, p: Place)
    requires Safe(s, a) && At(s, n, p) && Evicted(s, a) == Some(n)
    ensures p == InCache(s.tasks[a.task].key) && At(Step(s, a).value, n, Replaced)
  {
    var next := Step(s, a).value;
    var key := s.tasks[a.task].key;
    assert Caches(s.cache.stmts, key, n);
    assert !Owns(s.tasks, a.task, n);
    assert forall t: nat :: Owns(next.tasks, t, n) <==> Owns(s.tasks, t, n);
    assert forall k: Key :: k != key ==> (Caches(next.cache.stmts, k, n) <==> Caches(s.cache.stmts, k, n));
  }

  lemma PlacesKept(s: System, a: Action)
    requires (forall n: Name :: Placed(s, n)) && Safe(s, a) && Step(s, a).Some?
    ensures forall n: Name :: Placed(Step(s, a).value, n)
  {
    forall n: Name
      ensures Placed(Step(s, a).value, n)
    {
      assert Placed(s, n);
      var p :| At(s, n, p);
      if Subject(s, a) == Some(n) {
        SubjectMoves(s, a, n, p);
      } else if Evicted(s, a) == Some(n) {
        EvictedMoves(s, a, n, p);
      } else {
        OthersStay(s, a, n, p);
      }
    }
  }

  lemma HandlePut(handles: map<nat, Handle>, h: nat, handle: Handle, key: Key)
    requires h !in handles
    ensures |Live(handles[h := handle], key)| == |Live(handles, key)| + if key == handle.key then 1 else 0
  {
    assert Live(handles[h := handle], key) == Live(handles, key) + if key == handle.key then {h} else {};
  }

  lemma HandleGone(handles: map<nat, Handle>, h: nat, key: Key)
    requires h in handles
    ensures |Live(handles, key)| == |Live(handles - {h}, key)| + if key == handles[h].key then 1 else 0
  {
    assert Live(handles, key) == Live(handles - {h}, key) + if key == handles[h].key then {h} else {};
  }

  lemma BeginCounts(s: System, task: nat, key: Key, handle: nat)
    requires CountsOk(s) && StepBegin(s, task, key, handle).Some?
    ensures CountsOk(StepBegin(s, task, key, handle).value)
  {
    var next := StepBegin(s, task, key, handle).value;
    if key in s.cache.stmts {
      forall k: Key | k in next.cache.stmts
        ensures next.cache.stmts[k].handles == |Live(next.handles, k)|
      {
        HandlePut(s.handles, handle, next.handles[handle], k);
      }
    }
  }

  lemma FinishCounts(s: System, task: nat, valid: bool, handle: nat)
    requires CountsOk(s) && StepFinish(s, task, valid, handle).Some? && !Overwrites(s, Finish(task, valid, handle))
    ensures CountsOk(StepFinish(s, task, valid, handle).value)
  {
    var next := StepFinish(s, task, valid, handle).value;
    var key := s.tasks[task].key;
    if valid {
      assert forall h: nat :: h in s.handles && s.handles[h].key == key ==> h in Live(s.handles, key);
      assert Live(s.handles, key) == {};
      forall k: Key | k in next.cache.stmts
        ensures next.cache.stmts[k].handles == |Live(next.handles, k)|
      {
        HandlePut(s.handles, handle, next.handles[handle], k);
      }
    }
  }

  lemma ReleaseCounts(s: System, handle: nat, task: nat)
    requires CountsOk(s) && StepRelease(s, handle, task).Some?
    ensures CountsOk(StepRelease(s, handle, task).value)
  {
    var next := StepRelease(s, handle, task).value;
    var key := s.handles[handle].key;
    assert Caches(s.cache.stmts, key, s.handles[handle].name);
    assert handle in Live(s.handles, key);
    HandleGone(s.handles, handle, key);
    forall k: Key | k in next.cache.stmts
      ensures next.cache.stmts[k].handles == |Live(next.handles, k)|
    {
      HandleGone(s.handles, handle, k);
    }
    if key !in next.cache.stmts {
      assert Live(next.handles, key) == {};
      assert forall h: nat :: h in next.handles && next.handles[h].key == key ==> h in Live(next.handles, key);
    }
  }

  lemma StepKeepsCounts(s: System, a: Action)
    requires CountsOk(s) && !Overwrites(s, a) && Step(s, a).Some?
    ensures CountsOk(Step(s, a).value)
  {
    match a {
      case Begin(task, key, handle) => BeginCounts(s, task, key, handle);
      case Finish(task, valid, handle) => FinishCounts(s, task, valid, handle);
      case Release(handle, task) => ReleaseCounts(s, handle, task);
      case _ =>
    }
  }

  /** An insert that meets a counted entry sets its count back to one although there are two handles. */
  lemma OverwriteMiscounts(s: System, a: Action)
    requires CountsOk(s) && Overwrites(s, a)
    ensures !CountsOk(Step(s, a).value)
  {
    var next := Step(s, a).value;
    var key := s.tasks[a.task].key;
    HandlePut(s.handles, a.handle, next.handles[a.handle], key);
    assert next.cache.stmts[key].handles == 1 < |Live(next.handles, key)|;
  }

  lemma StepKeepsInv(s: System, a: Action)
    requires Inv(s) && (s.cache.retain || !Overwrites(s, a)) && Step(s, a).Some?
    ensures Inv(Step(s, a).value) && Step(s, a).value.cache.retain == s.cache.retain
  {
    PlacesKept(s, a);
    if !s.cache.retain {
      StepKeepsCounts(s, a);
    }
  }

  lemma {:induction false} RunKeepsInv(s: System, actions: seq<Action>)
    requires Inv(s) && (s.cache.retain || NoOverwrite(s, actions))
    ensures Inv(Run(s, actions)) && Run(s, actions).cache.retain == s.cache.retain
    decreases |actions|
  {
    if actions != [] {
      if Step(s, actions[0]).Some? {
        StepKeepsInv(s, actions[0]);
      }
      RunKeepsInv(Do(s, actions[0]), actions[1..]);
    }
  }

  lemma StartIsOk(retain: bool)
    ensures Inv(Start(retain)) && CountsOk(Start(retain)) && MissesOk(Start(retain))
  {
    forall n: Name
      ensures Placed(Start(retain), n)
    {
      assert At(Start(retain), n, if n == 0 then Over else Unused);
    }
  }
}

/**
 Which query a statement was prepared for: every handle is of a statement prepared for the handle's own
 key, in every run.
 */
module StatementKeys {
  import opened Base
  import opened StatementCache

  /** The keys for which names were sent to be prepared: `sent`, and what the step adds. */
  function SentAfter(s: System, a: Action, sent: map<Name, Key>): map<Name, Key> {
    if a.Send? && a.task in s.tasks && s.tasks[a.task].Named?
    then sent[s.tasks[a.task].name := s.tasks[a.task].key]
    else sent
  }

  function SentIn(s: System, actions: seq<Action>, sent: map<Name, Key>): map<Name, Key>
    decreases |actions|
  {
    if actions == [] then sent else SentIn(Do(s, actions[0]), actions[1..], SentAfter(s, actions[0], sent))
  }

  predicate SentFor(sent: map<Name, Key>, name: Name, key: Key) {
    name in sent && sent[name] == key
  }

  predicate TaskFits(sent: map<Name, Key>, counter: nat, t: Task) {
    match t
    case Named(_, name) => name <= counter && name !in sent
    case Sent(key, name) => SentFor(sent, name, key)
    case Answered(key, name) => SentFor(sent, name, key)
    case _ => true
  }

  ghost predicate NamedOnce(tasks: map<nat, Task>) {
    forall i, j | i in tasks && j in tasks ::
      tasks[i].Named? && tasks[j].Named? && tasks[i].name == tasks[j].name ==> i == j
  }

  /** Everything that has a name has the key that the name was sent for. */
  ghost predicate Fits(s: System, sent: map<Name, Key>) {
    && (forall n :: n in sent ==> n <= s.cache.counter)
    && (forall task :: task in s.tasks ==> TaskFits(sent, s.cache.counter, s.tasks[task]))
    && NamedOnce(s.tasks)
    && (forall key :: key in s.cache.stmts ==> SentFor(sent, s.cache.stmts[key].stmt, key))
    && (forall h :: h in s.handles ==> SentFor(sent, s.handles[h].name, s.handles[h].key))
  }

  lemma SendFits(s: System, task: nat, sent: map<Name, Key>)
    requires Fits(s, sent) && task in s.tasks && s.tasks[task].Named?
    ensures Fits(Do(s, Send(task)), SentAfter(s, Send(task), sent))
  {
    var t := s.tasks[task];
    var after := sent[t.name := t.key];
    assert TaskFits(sent, s.cache.counter, t);
    forall i | i in s.tasks && i != task
      ensures TaskFits(after, s.cache.counter, s.tasks[i])
    {
      assert TaskFits(sent, s.cache.counter, s.tasks[i]);
    }
  }

  lemma TakeNameFits(s: System, task: nat, sent: map<Name, Key>)
    requires Fits(s, sent) && task in s.tasks && s.tasks[task].Missed?
    ensures Fits(Do(s, TakeName(task)), sent)
  {
    forall i | i in s.tasks
      ensures TaskFits(sent, s.cache.counter, s.tasks[i])
    {
    }
  }

  lemma StepFits(s: System, a: Action, sent: map<Name, Key>)
    requires Fits(s, sent)
    ensures Fits(Do(s, a), SentAfter(s, a, sent))
  {
    if a.Send? && a.task in s.tasks && s.tasks[a.task].Named? {
      SendFits(s, a.task, sent);
    } else if a.TakeName? && a.task in s.tasks && s.tasks[a.task].Missed? {
      TakeNameFits(s, a.task, sent);
    } else {
      assert a.Finish? && a.task in s.tasks ==> TaskFits(sent, s.cache.counter, s.tasks[a.task]);
    }
  }

  lemma {:induction false} RunFits(s: System, actions: seq<Action>, sent: map<Name, Key>)
    requires Fits(s, sent)
    ensures Fits(Run(s, actions), SentIn(s, actions, sent))
    decreases |actions|
  {
    if actions != [] {
      StepFits(s, actions[0], sent);
      RunFits(Do(s, actions[0]), actions[1..], SentAfter(s, actions[0], sent));
    }
  }

  /** In every run, whatever misses, overwrites or is abandoned, a handle and a cache entry are of a
      statement that was sent to be prepared for their key, and for no other. */
  lemma HandlesHaveTheirKey(retain: bool, actions: seq<Action>, handle: nat, key: Key)
    ensures var s, sent := Run(Start(retain), actions), SentIn(Start(retain), actions, map[]);
      && (handle in s.handles ==> SentFor(sent, s.handles[handle].name, s.handles[handle].key))
      && (key in s.cache.stmts ==> SentFor(sent, s.cache.stmts[key].stmt, key))
  {
    RunFits(Start(retain), actions, map[]);
  }
}

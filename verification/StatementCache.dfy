/**
 Reference counting of prepared statements: `crates/core/src/session/cache.rs`, the `prepare_*`
 methods of `crates/core/src/session/mod.rs` and `crates/core/src/session/prepared.rs`.

 A statement name is the counter value it was formatted from, and a key stands for the pair of
 SQL hash and parameter types. `Step` interleaves any number of prepares, handles and closes: the
 sections under the cache lock, the sending of a command, and the server's work on the oldest
 command of the inbox are separate steps. A prepare or a close may be abandoned at any point, as
 when its future is dropped; an abandoned close has released its handle and not sent its command. The
 source marks a handle closed before it releases it, and a `close()` dropped in between never releases
 it: here that is a run in which this handle stays live for good. The connection is alive.
 */
module StatementCache {
  import opened Base

  type Key = nat
  type Name = nat

  datatype Entry = Entry(stmt: Name, handles: nat)

  datatype Cache = Cache(stmts: map<Key, Entry>, counter: nat, retain: bool)

  // ----- The sections under the cache lock ----------------------------------------------------------

  function CheckedOut(c: Cache, key: Key): Cache {
    if key in c.stmts then
      c.(stmts := c.stmts[key := Entry(c.stmts[key].stmt, c.stmts[key].handles + 1)])
    else c
  }

  function Inserted(c: Cache, key: Key, stmt: Name): Cache {
    c.(stmts := c.stmts[key := Entry(stmt, 1)])
  }

  predicate LastHandle(c: Cache, key: Key) {
    key in c.stmts && c.stmts[key].handles <= 1
  }

  function Released(c: Cache, key: Key): Cache {
    if key !in c.stmts then c
    else if c.stmts[key].handles > 1 then
      c.(stmts := c.stmts[key := Entry(c.stmts[key].stmt, c.stmts[key].handles - 1)])
    else if c.retain then c.(stmts := c.stmts[key := Entry(c.stmts[key].stmt, 0)])
    else c.(stmts := c.stmts - {key})
  }

  function Numbered(c: Cache): Cache {
    c.(counter := c.counter + 1)
  }

  class SessionCache {
    var stmts: map<Key, Entry>
    var counter: nat
    const retain: bool

    constructor (retain: bool)
      ensures State() == Cache(map[], 0, retain)
    {
      stmts, counter := map[], 0;
      this.retain := retain;
    }

    function State(): Cache
      reads this
    {
      Cache(stmts, counter, retain)
    }

    method Checkout(key: Key) returns (stmt: Option<Name>)
      modifies this`stmts
      ensures State() == CheckedOut(old(State()), key)
      ensures stmt == if key in old(stmts) then Some(old(stmts)[key].stmt) else None
    {
      if key !in stmts {
        return None;
      }
      var entry := stmts[key];
      stmts := stmts[key := Entry(entry.stmt, entry.handles + 1)];
      return Some(entry.stmt);
    }

    method Insert(key: Key, stmt: Name)
      modifies this`stmts
      ensures State() == Inserted(old(State()), key, stmt)
    {
      stmts := stmts[key := Entry(stmt, 1)];
    }

    method ReleaseHandle(key: Key) returns (stmt: Option<Name>)
      modifies this`stmts
      ensures State() == Released(old(State()), key)
      ensures stmt == if LastHandle(old(State()), key) && !retain then Some(old(stmts)[key].stmt) else None
    {
      if key !in stmts {
        return None;
      }
      var entry := stmts[key];
      if entry.handles > 1 {
        stmts := stmts[key := Entry(entry.stmt, entry.handles - 1)];
        return None;
      }
      if retain {
        stmts := stmts[key := Entry(entry.stmt, 0)];
        return None;
      }
      stmts := stmts - {key};
      return Some(entry.stmt);
    }

    method NextName() returns (name: Name)
      modifies this`counter
      ensures State() == Numbered(old(State())) && name == State().counter
    {
      counter := counter + 1;
      name := counter;
    }
  }

  // ----- Prepares, handles and the server --------------------------------------------------------------

  datatype Task =
    | Missed(key: Key)
    | Named(key: Key, name: Name)
    | Sent(key: Key, name: Name)       // the Prepare command is in the inbox
    | Answered(key: Key, name: Name)   // the server has confirmed it
    | Closing(name: Name)              // about to send CloseStatement

  function NameOf(t: Task): Option<Name> {
    if t.Missed? then None else Some(t.name)
  }

  function KeyOf(t: Task): Option<Key> {
    if t.Closing? then None else Some(t.key)
  }

  datatype Handle = Handle(key: Key, name: Name)

  datatype Command = Parse(name: Name, task: nat) | Close(name: Name)

  /** `prepared` is the server's set of statements. `parses` and `closes` count the commands sent for
      each name, and `abandoned` has the names whose prepare or close was given up half-way. */
  datatype System = System(
    cache: Cache,
    tasks: map<nat, Task>,
    handles: map<nat, Handle>,
    inbox: seq<Command>,
    prepared: set<Name>,
    parses: multiset<Name>,
    closes: multiset<Name>,
    abandoned: set<Name>)

  datatype Action =
    | Begin(task: nat, key: Key, handle: nat)
    | TakeName(task: nat)
    | Send(task: nat)
    | Serve(ok: bool)
    | Finish(task: nat, valid: bool, handle: nat)
    | Release(handle: nat, task: nat)
    | Abandon(task: nat)

  function StepBegin(s: System, task: nat, key: Key, handle: nat): Option<System> {
    if task in s.tasks || handle in s.handles then None
    else if key in s.cache.stmts then
      Some(s.(cache := CheckedOut(s.cache, key), handles := s.handles[handle := Handle(key, s.cache.stmts[key].stmt)]))
    else Some(s.(tasks := s.tasks[task := Missed(key)]))
  }

  function StepTakeName(s: System, task: nat): Option<System> {
    if task in s.tasks && s.tasks[task].Missed? then
      var cache := Numbered(s.cache);
      Some(s.(cache := cache, tasks := s.tasks[task := Named(s.tasks[task].key, cache.counter)]))
    else None
  }

  function StepSend(s: System, task: nat): Option<System> {
    if task !in s.tasks then None
    else
      match s.tasks[task]
      case Named(key, name) =>
        Some(s.(tasks := s.tasks[task := Sent(key, name)], inbox := s.inbox + [Parse(name, task)],
                parses := s.parses + multiset{name}))
      case Closing(name) =>
        Some(s.(tasks := s.tasks - {task}, inbox := s.inbox + [Close(name)], closes := s.closes + multiset{name}))
      case _ => None
  }

  /** The server works on the oldest command. The answer to a Prepare reaches its task, unless that
      has been abandoned; a refusal ends it. */
  function StepServe(s: System, ok: bool): Option<System> {
    if s.inbox == [] then None
    else
      match s.inbox[0]
      case Close(name) => Some(s.(inbox := s.inbox[1..], prepared := s.prepared - {name}))
      case Parse(name, task) =>
        var waits := task in s.tasks && s.tasks[task].Sent? && s.tasks[task].name == name;
        Some(s.(inbox := s.inbox[1..],
                prepared := if ok then s.prepared + {name} else s.prepared,
                tasks := if !waits then s.tasks
                         else if ok then s.tasks[task := Answered(s.tasks[task].key, name)]
                         else s.tasks - {task}))
  }

  function StepFinish(s: System, task: nat, valid: bool, handle: nat): Option<System> {
    if task !in s.tasks || !s.tasks[task].Answered? || handle in s.handles then None
    else
      var Answered(key, name) := s.tasks[task];
      if valid then
        Some(s.(cache := Inserted(s.cache, key, name), tasks := s.tasks - {task},
                handles := s.handles[handle := Handle(key, name)]))
      else Some(s.(tasks := s.tasks[task := Closing(name)]))
  }

  function StepRelease(s: System, handle: nat, task: nat): Option<System> {
    if handle !in s.handles || task in s.tasks then None
    else
      var Handle(key, name) := s.handles[handle];
      Some(s.(cache := Released(s.cache, key), handles := s.handles - {handle},
              tasks := if LastHandle(s.cache, key) && !s.cache.retain then s.tasks[task := Closing(name)] else s.tasks))
  }

  function StepAbandon(s: System, task: nat): Option<System> {
    if task !in s.tasks then None
    else
      var t := s.tasks[task];
      Some(s.(tasks := s.tasks - {task},
              abandoned := if t.Missed? || t.Named? then s.abandoned else s.abandoned + {t.name}))
  }

  function Step(s: System, a: Action): Option<System> {
    match a
    case Begin(task, key, handle) => StepBegin(s, task, key, handle)
    case TakeName(task) => StepTakeName(s, task)
    case Send(task) => StepSend(s, task)
    case Serve(ok) => StepServe(s, ok)
    case Finish(task, valid, handle) => StepFinish(s, task, valid, handle)
    case Release(handle, task) => StepRelease(s, handle, task)
    case Abandon(task) => StepAbandon(s, task)
  }

  /** An action that is not enabled changes nothing. */
  function Do(s: System, a: Action): System {
    var next := Step(s, a);
    if next.Some? then next.value else s
  }

  function Run(s: System, actions: seq<Action>): System
    decreases |actions|
  {
    if actions == [] then s else Run(Do(s, actions[0]), actions[1..])
  }

  function Start(retain: bool): System {
    System(Cache(map[], 0, retain), map[], map[], [], {}, multiset{}, multiset{}, {})
  }

  // ----- Inserts that meet an entry ---------------------------------------------------------------------

  /** A prepare inserts under a key that has an entry by then. */
  predicate Replaces(s: System, a: Action) {
    a.Finish? && a.valid && Step(s, a).Some? && s.tasks[a.task].key in s.cache.stmts
  }

  /** The entry that it meets still counts handles. */
  predicate Overwrites(s: System, a: Action) {
    Replaces(s, a) && s.cache.stmts[s.tasks[a.task].key].handles > 0
  }

  predicate NoOverwrite(s: System, actions: seq<Action>)
    decreases |actions|
  {
    actions == [] || (!Overwrites(s, actions[0]) && NoOverwrite(Do(s, actions[0]), actions[1..]))
  }

  predicate NeverReplaced(s: System, actions: seq<Action>, key: Key)
    decreases |actions|
  {
    actions == [] ||
    (&& (Replaces(s, actions[0]) ==> s.tasks[actions[0].task].key != key)
     && NeverReplaced(Do(s, actions[0]), actions[1..], key))
  }

  predicate InFlight(tasks: map<nat, Task>, task: nat, key: Key) {
    task in tasks && KeyOf(tasks[task]) == Some(key)
  }

  /** No prepare misses on a key while another prepare of that key is between its miss and its end. */
  ghost predicate SingleMiss(s: System, a: Action) {
    a.Begin? && a.key !in s.cache.stmts ==> forall task: nat :: !InFlight(s.tasks, task, a.key)
  }

  /** What the callers can do so that no insert meets an entry. */
  ghost predicate Disciplined(s: System, actions: seq<Action>)
    decreases |actions|
  {
    actions == [] || (SingleMiss(s, actions[0]) && Disciplined(Do(s, actions[0]), actions[1..]))
  }
}

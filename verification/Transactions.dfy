/**
 Nested transactions and savepoints: `crates/core/src/transaction.rs`, and the same shape in
 `crates/core/src/pool.rs`.

 One run of a scope body is a tree: statements that succeed or fail, and nested savepoints, whose
 errors the body passes on or catches. After a failed statement the server refuses everything up to
 a rollback, whether or not the body has caught the error.
 */
module Transactions {

  /** The database as the sequence of effects made on it. */
  type Db = seq<nat>

  datatype Status = Idle | InTransaction | Failed

  datatype Saved = Saved(name: nat, db: Db)

  datatype Control =
    | Begin
    | Commit
    | Rollback
    | Savepoint(name: nat)
    | Release(name: nat)
    | RollbackTo(name: nat)

  /** `prompt` is whether the clean-up that a scope leaves to a spawned task comes before the next
      command; otherwise it comes after the transaction, where it does nothing. */
  datatype Action =
    | Statement(effect: nat, fails: bool, catches: bool)
    | Nested(body: Body, catches: bool, prompt: bool)

  datatype Body = Body(actions: seq<Action>, returnsError: bool)

  // ----- What a tree of scopes means -----------------------------------------------------------

  /** `failed` is whether the server is left refusing statements. */
  datatype Meaning = Meaning(db: Db, ok: bool, failed: bool)

  function BodyMeaning(body: Body, db: Db): Meaning
    decreases body, 1
  {
    var m := ActionsMeaning(body.actions, db, false);
    m.(ok := m.ok && !body.returnsError)
  }

  /** Runs on after an action that succeeded, or whose error was caught. */
  function ActionsMeaning(actions: seq<Action>, db: Db, failed: bool): Meaning
    decreases actions, 0
  {
    if actions == [] then Meaning(db, true, failed)
    else
      var first := ActionMeaning(actions[0], db, failed);
      if first.ok then ActionsMeaning(actions[1..], first.db, first.failed) else first
  }

  function ActionMeaning(action: Action, db: Db, failed: bool): Meaning
    decreases action, 3
  {
    match action
    case Statement(effect, fails, catches) =>
      if failed || fails then Meaning(db, catches, true) else Meaning(db + [effect], true, false)
    case Nested(body, catches, prompt) =>
      if failed then Meaning(db, catches, true)
      else
        var m := ScopeMeaning(body, prompt, db);
        m.(ok := m.ok || catches)
  }

  /** A scope keeps all of its body's effects or none of them. Where the body has swallowed a failure,
      its RELEASE is refused and the scope ends with an error. */
  function ScopeMeaning(body: Body, prompt: bool, db: Db): Meaning
    decreases body, 2
  {
    var m := BodyMeaning(body, db);
    if m.ok && !m.failed then m else Meaning(db, false, m.ok && !prompt)
  }

  // ----- The server ------------------------------------------------------------------------------

  predicate Has(savepoints: seq<Saved>, name: nat) {
    exists i :: 0 <= i < |savepoints| && savepoints[i].name == name
  }

  /** The position of the latest savepoint called `name`. */
  function Latest(savepoints: seq<Saved>, name: nat): (at: nat)
    requires Has(savepoints, name)
    ensures at < |savepoints| && savepoints[at].name == name
    ensures forall i :: at < i < |savepoints| ==> savepoints[i].name != name
  {
    var last := |savepoints| - 1;
    if savepoints[last].name == name then last else Latest(savepoints[..last], name)
  }

  /** One backend: transaction status, working and committed database, savepoint stack. Names are
      resolved as PostgreSQL resolves them, to the latest savepoint of that name. */
  class Server {
    var status: Status
    var db: Db
    var committed: Db
    var savepoints: seq<Saved>

    constructor (db: Db)
      ensures status == Idle && this.db == db && committed == db && savepoints == []
    {
      this.status, this.db, this.committed, this.savepoints := Idle, db, db, [];
    }

    ghost predicate Valid()
      reads this
    {
      status == Idle ==> db == committed && savepoints == []
    }

    /** One SQL statement of a body. */
    method Execute(effect: nat, fails: bool) returns (ok: bool)
      requires Valid()
      modifies this`db, this`committed, this`status
      ensures Valid()
      ensures ok <==> !fails && old(status) != Failed
      ensures db == if ok then old(db) + [effect] else old(db)
      ensures status == if ok || old(status) == Idle then old(status) else Failed
      ensures old(status) != Idle ==> committed == old(committed)
    {
      if fails || status == Failed {
        if status == InTransaction {
          status := Failed;
        }
        return false;
      }
      db := db + [effect];
      if status == Idle {
        committed := db;
      }
      return true;
    }

    /** One control command. `refused` is a COMMIT that the server turns down. */
    method Run(c: Control, refused: bool) returns (ok: bool)
      requires Valid()
      modifies this
      ensures Valid()
      ensures c == Begin && old(status) == Idle ==>
                ok && status == InTransaction && db == old(db) && committed == old(db) && savepoints == []
      ensures c == Commit && old(status) == InTransaction ==>
                ok == !refused && status == Idle && db == if refused then old(committed) else old(db)
      ensures c == Commit && old(status) == Failed ==> ok && status == Idle && db == old(committed)
      ensures c == Rollback ==> ok && status == Idle && db == old(committed)
      ensures c.Savepoint? && old(status) == InTransaction ==>
                ok && status == InTransaction && db == old(db) && committed == old(committed)
                && savepoints == old(savepoints) + [Saved(c.name, db)]
      ensures c.Release? && old(status) == InTransaction && Has(old(savepoints), c.name) ==>
                ok && status == InTransaction && db == old(db) && committed == old(committed)
                && savepoints == old(savepoints)[..Latest(old(savepoints), c.name)]
      ensures c.RollbackTo? && old(status) != Idle && Has(old(savepoints), c.name) ==>
                ok && status == InTransaction && committed == old(committed)
                && db == old(savepoints)[Latest(old(savepoints), c.name)].db
                && savepoints == old(savepoints)[..Latest(old(savepoints), c.name) + 1]
      ensures !c.Commit? && !c.Rollback? && old(status) == Failed && !c.RollbackTo? ==>
                !ok && status == Failed && db == old(db) && committed == old(committed) && savepoints == old(savepoints)
    {
      match c {
        case Begin =>
          if status == Idle {
            status, committed, savepoints := InTransaction, db, [];
          }
          ok := status != Failed;
        case Commit =>
          ok := status != InTransaction || !refused;
          if status == Failed || !ok {
            db := committed;
          }
          status, committed, savepoints := Idle, db, [];
        case Rollback =>
          db := committed;
          status, savepoints := Idle, [];
          ok := true;
        case Savepoint(name) =>
          ok := status == InTransaction;
          if ok {
            savepoints := savepoints + [Saved(name, db)];
          }
        case Release(name) =>
          ok := status == InTransaction && Has(savepoints, name);
          if ok {
            savepoints := savepoints[..Latest(savepoints, name)];
          } else if status == InTransaction {
            status := Failed;
          }
        case RollbackTo(name) =>
          ok := status != Idle && Has(savepoints, name);
          if ok {
            var at := Latest(savepoints, name);
            db, savepoints, status := savepoints[at].db, savepoints[..at + 1], InTransaction;
          } else if status == InTransaction {
            status := Failed;
          }
      }
    }
  }

  // ----- The client ---------------------------------------------------------------------------------

  /** A session and the process-wide counter that names savepoints. */
  class Session {
    const server: Server
    var counter: nat

    constructor (server: Server)
      ensures this.server == server && counter == 1
    {
      this.server := server;
      this.counter := 1;
    }

    ghost predicate Valid()
      reads this, server
    {
      server.Valid() && forall i :: 0 <= i < |server.savepoints| ==> server.savepoints[i].name < counter
    }

    method NextSavepointName() returns (name: nat)
      modifies this`counter
      ensures name == old(counter) && counter == old(counter) + 1
    {
      name := counter;
      counter := counter + 1;
    }

    /** The savepoints of before are still there, and those on top of them are newer; a transaction
        that goes on has none on top. */
    twostate predicate Stacked()
      reads this, server
    {
      && old(counter) <= counter && server.status != Idle && server.committed == old(server.committed)
      && old(server.savepoints) <= server.savepoints
      && (forall i :: |old(server.savepoints)| <= i < |server.savepoints| ==> server.savepoints[i].name >= old(counter))
      && (server.status == InTransaction ==> server.savepoints == old(server.savepoints))
    }

    /** Runs the body of a scope up to the first error that it does not catch. */
    method RunBody(body: Body) returns (ok: bool)
      requires Valid() && server.status == InTransaction
      modifies this`counter, server
      ensures Valid() && Stacked()
      ensures var m := BodyMeaning(body, old(server.db));
        ok == m.ok && (server.status == Failed <==> m.failed) && (!m.failed ==> server.db == m.db)
      decreases body, 0
    {
      ghost var db := server.db;
      for i := 0 to |body.actions|
        invariant Valid() && Stacked()
        invariant server.status == InTransaction ==> server.db == db
        invariant ActionsMeaning(body.actions, old(server.db), false)
               == ActionsMeaning(body.actions[i..], db, server.status == Failed)
      {
        assert body.actions[i..][1..] == body.actions[i + 1..];
        ghost var m := ActionMeaning(body.actions[i], db, server.status == Failed);
        match body.actions[i] {
          case Statement(effect, fails, catches) =>
            ok := server.Execute(effect, fails);
            if !ok && !catches {
              return false;
            }
          case Nested(inner, catches, prompt) =>
            ok := RunSavepoint(inner, prompt);
            if !ok && !catches {
              return false;
            }
        }
        db := m.db;
      }
      return !body.returnsError;
    }

    /** `run_savepoint`: the scope as it means, with the savepoint stack as it was unless the server is
        left refusing statements. */
    method RunSavepoint(body: Body, prompt: bool) returns (ok: bool)
      requires Valid() && server.status != Idle
      modifies this`counter, server
      ensures Valid() && Stacked()
      ensures if old(server.status) == Failed then !ok && server.status == Failed
              else var m := ScopeMeaning(body, prompt, old(server.db));
                ok == m.ok && (server.status == Failed <==> m.failed) && (!m.failed ==> server.db == m.db)
      decreases body, 1
    {
      var name := NextSavepointName();
      var begun := server.Run(Savepoint(name), false);
      if !begun {
        return false;
      }
      ghost var at := |server.savepoints| - 1;
      ok := RunBody(body);
      ok := EndSavepoint(name, at, ok, prompt);
    }

    /** Releases the savepoint after a body that returned success, and rolls back to it otherwise. */
    method EndSavepoint(name: nat, ghost at: nat, bodyOk: bool, prompt: bool) returns (ok: bool)
      requires Valid() && server.status != Idle && at < |server.savepoints| && server.savepoints[at].name == name
      requires forall i :: at < i < |server.savepoints| ==> server.savepoints[i].name != name
      modifies server
      ensures Valid() && server.committed == old(server.committed)
      ensures ok <==> bodyOk && old(server.status) == InTransaction
      ensures bodyOk && old(server.status) == Failed && !prompt ==>
                server.status == Failed && server.savepoints == old(server.savepoints)
      ensures !bodyOk || old(server.status) != Failed || prompt ==>
                && server.status == InTransaction && server.savepoints == old(server.savepoints)[..at]
                && server.db == if ok then old(server.db) else old(server.savepoints)[at].db
    {
      LatestIsAt(server.savepoints, at, name);
      ok := bodyOk;
      if bodyOk {
        ok := server.Run(Release(name), false);
      }
      if !ok && (prompt || !bodyOk) {
        var _ := RollbackSavepoint(name, at);
      }
    }

    method RollbackSavepoint(name: nat, ghost at: nat) returns (ok: bool)
      requires Valid() && server.status != Idle && at < |server.savepoints| && server.savepoints[at].name == name
      requires forall i :: at < i < |server.savepoints| ==> server.savepoints[i].name != name
      modifies server
      ensures Valid() && ok && server.status == InTransaction && server.committed == old(server.committed)
      ensures server.savepoints == old(server.savepoints)[..at] && server.db == old(server.savepoints)[at].db
    {
      LatestIsAt(server.savepoints, at, name);
      ok := server.Run(RollbackTo(name), false);
      LatestIsAt(server.savepoints, at, name);
      if ok {
        ok := server.Run(Release(name), false);
      }
    }

    /** `Session::transaction`: the database ends as the tree means it, whole or not at all, with
        nothing left open. A COMMIT that the server refuses counts as an error; one that it turns into
        a rollback, because the body has swallowed a failure, does not. */
    method Transaction(body: Body, commitRefused: bool) returns (ok: bool)
      requires Valid() && server.status == Idle
      modifies this`counter, server
      ensures Valid() && server.status == Idle && server.savepoints == [] && server.committed == server.db
      ensures var m := BodyMeaning(body, old(server.db));
        && ok == (m.ok && (m.failed || !commitRefused))
        && server.db == if m.ok && !m.failed && !commitRefused then m.db else old(server.db)
    {
      var begun := server.Run(Begin, false);
      if !begun {
        return false;
      }
      ok := RunBody(body);
      if ok {
        ok := server.Run(Commit, commitRefused);
      } else {
        var _ := server.Run(Rollback, false);
      }
    }
  }

  lemma LatestIsAt(savepoints: seq<Saved>, at: nat, name: nat)
    requires at < |savepoints| && savepoints[at].name == name
    requires forall i :: at < i < |savepoints| ==> savepoints[i].name != name
    ensures Has(savepoints, name) && Latest(savepoints, name) == at
  {
    assert savepoints[Latest(savepoints, name)].name == name;
  }

  // ----- Properties of the meaning ----------------------------------------------------------------

  /** A scope that ends with an error leaves no trace, and one that succeeds only adds to the database
      and leaves the server accepting statements. */
  lemma {:induction false} ScopesAreAllOrNothing(body: Body, prompt: bool, db: Db)
    ensures var m := ScopeMeaning(body, prompt, db); db <= m.db && (if m.ok then !m.failed else m.db == db)
    decreases body, 2
  {
    ActionsOnlyAdd(body.actions, db, false);
  }

  lemma {:induction false} ActionsOnlyAdd(actions: seq<Action>, db: Db, failed: bool)
    ensures db <= ActionsMeaning(actions, db, failed).db
    decreases actions, 0
  {
    if actions != [] {
      var first := ActionMeaning(actions[0], db, failed);
      ActionOnlyAdds(actions[0], db, failed);
      ActionsOnlyAdd(actions[1..], first.db, first.failed);
    }
  }

  lemma {:induction false} ActionOnlyAdds(action: Action, db: Db, failed: bool)
    ensures db <= ActionMeaning(action, db, failed).db
    decreases action, 3
  {
    if action.Nested? {
      ScopesAreAllOrNothing(action.body, action.prompt, db);
    }
  }

  /** What a body adds does not depend on what was there before. */
  lemma {:induction false} EffectsAreLocal(body: Body, db: Db)
    ensures var own := BodyMeaning(body, []); BodyMeaning(body, db) == own.(db := db + own.db)
    decreases body, 1
  {
    ActionsAreLocal(body.actions, db, false);
    assert db + [] == db;
  }

  lemma {:induction false} ActionsAreLocal(actions: seq<Action>, db: Db, failed: bool)
    ensures var own := ActionsMeaning(actions, [], failed);
      ActionsMeaning(actions, db, failed) == own.(db := db + own.db)
    decreases actions, 0
  {
    assert db + [] == db;
    if actions != [] {
      ActionIsLocal(actions[0], db, failed);
      var first := ActionMeaning(actions[0], [], failed);
      var rest := ActionsMeaning(actions[1..], [], first.failed);
      ActionsAreLocal(actions[1..], db + first.db, first.failed);
      ActionsAreLocal(actions[1..], first.db, first.failed);
      assert (db + first.db) + rest.db == db + (first.db + rest.db);
    }
  }

  lemma {:induction false} ActionIsLocal(action: Action, db: Db, failed: bool)
    ensures var own := ActionMeaning(action, [], failed); ActionMeaning(action, db, failed) == own.(db := db + own.db)
    decreases action, 3
  {
    assert db + [] == db;
    match action {
      case Statement(effect, fails, catches) =>
        assert [] + [effect] == [effect];
      case Nested(body, catches, prompt) =>
        EffectsAreLocal(body, db);
    }
  }

  // ----- When success means committed --------------------------------------------------------------

  /** An action after which the server refuses statements: one that fails in the body itself, or a
      nested scope that has swallowed a failure and whose clean-up is late. */
  predicate Spoils(action: Action) {
    match action
    case Statement(_, fails, _) => fails
    case Nested(body, _, prompt) => !prompt && Succeeds(body) && Spoilt(body.actions)
  }

  predicate Spoilt(actions: seq<Action>) {
    exists i :: 0 <= i < |actions| && Spoils(actions[i])
  }

  /** An action that returns success when the server accepts it. */
  predicate Works(action: Action) {
    match action
    case Statement(_, fails, _) => !fails
    case Nested(body, _, _) => Succeeds(body) && !Spoilt(body.actions)
  }

  /** The error of each action that does not work, in itself or because the transaction is spoilt before
      it, is caught. `failed` is whether it is spoilt from the start. */
  predicate GoesOn(actions: seq<Action>, failed: bool) {
    forall i :: 0 <= i < |actions| ==>
      actions[i].catches || (!failed && Works(actions[i]) && forall j :: 0 <= j < i ==> !Spoils(actions[j]))
  }

  predicate Succeeds(body: Body) {
    !body.returnsError && GoesOn(body.actions, false)
  }

  /** Success and a spoilt transaction can be read off the flags of the tree. */
  lemma {:induction false} BodyByFlags(body: Body, db: Db)
    ensures var m := BodyMeaning(body, db);
      (m.ok <==> Succeeds(body)) && (m.ok ==> (m.failed <==> Spoilt(body.actions)))
    decreases body, 1
  {
    ActionsByFlags(body.actions, db, false);
  }

  lemma {:induction false} ActionByFlags(action: Action, db: Db, failed: bool)
    ensures var m := ActionMeaning(action, db, failed);
      && (m.ok <==> action.catches || (!failed && Works(action)))
      && (m.failed <==> failed || Spoils(action))
    decreases action, 3
  {
    if action.Nested? && !failed {
      BodyByFlags(action.body, db);
      var m := ScopeMeaning(action.body, action.prompt, db);
      assert m.ok <==> Works(action);
      assert m.failed <==> Spoils(action);
    }
  }

  lemma {:induction false} ActionsByFlags(actions: seq<Action>, db: Db, failed: bool)
    ensures var m := ActionsMeaning(actions, db, failed);
      && (m.ok <==> GoesOn(actions, failed)) && (m.ok ==> (m.failed <==> failed || Spoilt(actions)))
    decreases actions, 0
  {
    if actions != [] {
      var first := ActionMeaning(actions[0], db, failed);
      ActionByFlags(actions[0], db, failed);
      ActionsByFlags(actions[1..], first.db, first.failed);
      SpoiltOnward(actions);
      GoesOnward(actions, failed);
    }
  }

  lemma SpoiltOnward(actions: seq<Action>)
    requires actions != []
    ensures Spoilt(actions) <==> Spoils(actions[0]) || Spoilt(actions[1..])
  {
    var rest := actions[1..];
    assert forall i :: 0 < i < |actions| ==> rest[i - 1] == actions[i];
    if Spoilt(rest) {
      var i :| 0 <= i < |rest| && Spoils(rest[i]);
      assert Spoils(actions[i + 1]);
    }
  }

  lemma GoesOnward(actions: seq<Action>, failed: bool)
    requires actions != []
    ensures GoesOn(actions, failed)
       <==> (actions[0].catches || (!failed && Works(actions[0]))) && GoesOn(actions[1..], failed || Spoils(actions[0]))
  {
    var rest := actions[1..];
    assert forall i :: 0 <= i < |rest| ==> rest[i] == actions[i + 1];
    if GoesOn(actions, failed) {
      forall i | 0 <= i < |rest|
        ensures rest[i].catches
             || (!(failed || Spoils(actions[0])) && Works(rest[i]) && forall j :: 0 <= j < i ==> !Spoils(rest[j]))
      {
        assert actions[i + 1] == rest[i];
        assert forall j :: 0 <= j < i ==> rest[j] == actions[j + 1];
      }
    }
    if GoesOn(rest, failed || Spoils(actions[0])) && (actions[0].catches || (!failed && Works(actions[0]))) {
      forall i | 0 <= i < |actions|
        ensures actions[i].catches
             || (!failed && Works(actions[i]) && forall j :: 0 <= j < i ==> !Spoils(actions[j]))
      {
        if i > 0 {
          assert actions[i] == rest[i - 1];
          assert forall j :: 0 < j < i ==> actions[j] == rest[j - 1];
        }
      }
    }
  }

  /** A transaction whose body returns success has the body's effects to commit exactly when none of the
      body's own actions spoils it; otherwise it is rolled back, and `transaction` still returns Ok. */
  lemma SuccessIsCommittable(body: Body, db: Db)
    ensures var m := BodyMeaning(body, db);
      && (m.ok && !m.failed <==> Succeeds(body) && !Spoilt(body.actions))
      && (m.ok && m.failed <==> Succeeds(body) && Spoilt(body.actions))
  {
    BodyByFlags(body, db);
  }

  /** No body of the tree catches the error of a statement of its own. */
  predicate NeverSwallows(body: Body) {
    forall i :: 0 <= i < |body.actions| ==>
      match body.actions[i]
      case Statement(_, fails, catches) => !(fails && catches)
      case Nested(inner, _, _) => NeverSwallows(inner)
  }

  lemma {:induction false} NothingSpoilt(body: Body)
    requires NeverSwallows(body) && Succeeds(body)
    ensures !Spoilt(body.actions)
  {
    forall i | 0 <= i < |body.actions|
      ensures !Spoils(body.actions[i])
    {
      var action := body.actions[i];
      assert action.catches || Works(action);
      if action.Nested? && Succeeds(action.body) {
        NothingSpoilt(action.body);
      }
    }
  }

  /** Then success always means committed, and every nested scope leaves the server accepting statements,
      with the savepoint stack as it was. */
  lemma PassingOnIsSafe(body: Body, prompt: bool, db: Db)
    requires NeverSwallows(body)
    ensures !(BodyMeaning(body, db).ok && BodyMeaning(body, db).failed)
    ensures !ScopeMeaning(body, prompt, db).failed
  {
    BodyByFlags(body, db);
    if Succeeds(body) {
      NothingSpoilt(body);
    }
  }

  const SWALLOWS_FAILURE := Body([Statement(1, false, false), Statement(2, true, true)], false)

  /** A body that catches the error of its own statement returns success, and nothing is committed. */
  lemma SwallowedFailure(db: Db)
    ensures BodyMeaning(SWALLOWS_FAILURE, db).ok && BodyMeaning(SWALLOWS_FAILURE, db).failed
  {
    var actions := SWALLOWS_FAILURE.actions;
    assert actions[1..] == [actions[1]] && actions[1..][1..] == [];
    assert ActionMeaning(actions[1], db + [1], false) == Meaning(db + [1], true, true);
  }
}

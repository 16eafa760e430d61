/**
 Two prepares of one key that both miss the cache and both insert, the second over the counted entry
 of the first: a run in which the reference count is wrong and a statement is never closed.
 */
module DoubleMiss {
  import opened StatementCache
  import opened StatementLife
  import opened StatementResults

  /** Two prepares of key 7 that both miss, up to the point where both hold a handle. */
  const BOTH_MISS: seq<Action> :=
    [Begin(1, 7, 1), Begin(2, 7, 2), TakeName(1), TakeName(2), Send(1), Send(2), Serve(true), Serve(true)]

  const BOTH_FINISH: seq<Action> := [Finish(1, true, 1), Finish(2, true, 2)]

  const BOTH_RELEASE: seq<Action> := [Release(1, 3), Release(2, 4), Send(3), Serve(true)]

  lemma RunOf2(s: System, a: Action, b: Action)
    ensures Run(s, [a, b]) == Do(Do(s, a), b)
  {
    assert [a, b][1..] == [b];
    assert Run(s, [a, b]) == Run(Do(s, a), [b]);
    var one := Do(s, a);
    assert [b][1..] == [];
    assert Run(one, [b]) == Run(Do(one, b), []);
  }

  lemma {:induction false} RunAppend(s: System, front: seq<Action>, back: seq<Action>)
    ensures Run(s, front + back) == Run(Run(s, front), back)
    decreases |front|
  {
    if front == [] {
      assert front + back == back;
    } else {
      assert (front + back)[1..] == front[1..] + back;
      RunAppend(Do(s, front[0]), front[1..], back);
    }
  }

  lemma RunOf4(s: System, a: Action, b: Action, c: Action, d: Action)
    ensures Run(s, [a, b, c, d]) == Do(Do(Do(Do(s, a), b), c), d)
  {
    assert [a, b, c, d] == [a, b] + [c, d];
    RunAppend(s, [a, b], [c, d]);
    RunOf2(s, a, b);
    RunOf2(Do(Do(s, a), b), c, d);
  }

  const BOTH_SENT := System(Cache(map[], 2, false), map[1 := Sent(7, 1), 2 := Sent(7, 2)], map[],
    [Parse(1, 1), Parse(2, 2)], {}, multiset{1, 2}, multiset{}, {})

  const BOTH_ANSWERED :=
    BOTH_SENT.(tasks := map[1 := Answered(7, 1), 2 := Answered(7, 2)], inbox := [], prepared := {1, 2})

  const BOTH_HELD := BOTH_ANSWERED.(cache := Cache(map[7 := Entry(2, 1)], 2, false), tasks := map[],
    handles := map[1 := Handle(7, 1), 2 := Handle(7, 2)])

  const ONE_LEFT :=
    BOTH_HELD.(cache := Cache(map[], 2, false), handles := map[], prepared := {2}, closes := multiset{1})

  const BOTH_NAMED := System(Cache(map[], 2, false), map[1 := Named(7, 1), 2 := Named(7, 2)], map[],
    [], {}, multiset{}, multiset{}, {})

  lemma NameBoth()
    ensures Run(Start(false), BOTH_MISS[..4]) == BOTH_NAMED
  {
    RunOf4(Start(false), Begin(1, 7, 1), Begin(2, 7, 2), TakeName(1), TakeName(2));
    assert BOTH_MISS[..4] == [Begin(1, 7, 1), Begin(2, 7, 2), TakeName(1), TakeName(2)];
    var begun := Do(Do(Start(false), Begin(1, 7, 1)), Begin(2, 7, 2));
    assert begun.tasks == map[1 := Missed(7), 2 := Missed(7)];
    assert Do(Do(begun, TakeName(1)), TakeName(2)).tasks == map[1 := Named(7, 1), 2 := Named(7, 2)];
  }

  lemma SendNamed()
    ensures Do(Do(BOTH_NAMED, Send(1)), Send(2)) == BOTH_SENT
  {
    var one := Do(BOTH_NAMED, Send(1));
    assert one.inbox == [Parse(1, 1)] && one.tasks == map[1 := Sent(7, 1), 2 := Named(7, 2)];
    assert one.parses == multiset{1} && one.parses + multiset{2} == multiset{1, 2};
    assert [Parse(1, 1)] + [Parse(2, 2)] == BOTH_SENT.inbox;
  }

  lemma SendBoth()
    ensures Run(Start(false), BOTH_MISS[..6]) == BOTH_SENT
  {
    NameBoth();
    SendNamed();
    RunOf2(BOTH_NAMED, Send(1), Send(2));
    assert BOTH_MISS[..6] == BOTH_MISS[..4] + [Send(1), Send(2)];
    RunAppend(Start(false), BOTH_MISS[..4], [Send(1), Send(2)]);
  }

  lemma AnswerBoth()
    ensures Run(BOTH_SENT, BOTH_MISS[6..]) == BOTH_ANSWERED
  {
    assert BOTH_MISS[6..] == [Serve(true), Serve(true)];
    RunOf2(BOTH_SENT, Serve(true), Serve(true));
    var one := Do(BOTH_SENT, Serve(true));
    assert one.inbox == [Parse(2, 2)] && one.tasks == map[1 := Answered(7, 1), 2 := Sent(7, 2)];
    assert Do(one, Serve(true)).inbox == [];
  }

  lemma FinishBoth()
    ensures Run(BOTH_ANSWERED, BOTH_FINISH) == BOTH_HELD
  {
    RunOf2(BOTH_ANSWERED, Finish(1, true, 1), Finish(2, true, 2));
    var one := Do(BOTH_ANSWERED, Finish(1, true, 1));
    assert one.cache.stmts == map[7 := Entry(1, 1)] && one.tasks == map[2 := Answered(7, 2)];
    assert Do(one, Finish(2, true, 2)).cache.stmts == map[7 := Entry(2, 1)];
    assert Do(one, Finish(2, true, 2)).tasks == map[];
  }

  const BOTH_DROPPED := BOTH_HELD.(cache := Cache(map[], 2, false), tasks := map[3 := Closing(1)], handles := map[])

  lemma DropBoth()
    ensures Do(Do(BOTH_HELD, Release(1, 3)), Release(2, 4)) == BOTH_DROPPED
  {
    var one := Do(BOTH_HELD, Release(1, 3));
    assert one.cache.stmts == map[] && one.tasks == map[3 := Closing(1)] && one.handles == map[2 := Handle(7, 2)];
    assert Do(one, Release(2, 4)).handles == map[];
  }

  lemma CloseOne()
    ensures Do(Do(BOTH_DROPPED, Send(3)), Serve(true)) == ONE_LEFT
  {
    var one := Do(BOTH_DROPPED, Send(3));
    assert one.inbox == [Close(1)] && one.tasks == map[] && one.closes == multiset{1};
    assert one.inbox[1..] == [] && one.prepared - {1} == {2};
  }

  lemma HoldBoth()
    ensures Run(Start(false), BOTH_MISS + BOTH_FINISH) == BOTH_HELD
  {
    SendBoth();
    AnswerBoth();
    assert BOTH_MISS == BOTH_MISS[..6] + BOTH_MISS[6..];
    RunAppend(Start(false), BOTH_MISS[..6], BOTH_MISS[6..]);
    RunAppend(Start(false), BOTH_MISS, BOTH_FINISH);
    FinishBoth();
  }

  lemma ReleaseBoth()
    ensures Run(BOTH_HELD, BOTH_RELEASE) == ONE_LEFT
  {
    RunOf4(BOTH_HELD, Release(1, 3), Release(2, 4), Send(3), Serve(true));
    DropBoth();
    CloseOne();
  }

  /** When two prepares of one key both miss, the second insert overwrites the count of the first:
      the entry counts one handle of two, the first release drops the entry although a handle is
      live, and the statement of the second handle is never closed. */
  lemma DoubleMissLeaks()
    ensures var both := Run(Start(false), BOTH_MISS + BOTH_FINISH); var s := Run(both, BOTH_RELEASE);
      && 7 in both.cache.stmts && both.cache.stmts[7].handles == 1 && |Live(both.handles, 7)| == 2
      && s.handles == map[] && Quiet(s) && s.abandoned == {}
      && s.prepared == {2} && s.closes[2] == 0
  {
    HoldBoth();
    ReleaseBoth();
    assert Live(BOTH_HELD.handles, 7) == {1, 2};
  }
}

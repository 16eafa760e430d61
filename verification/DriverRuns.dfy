/**
 Whole runs of the driver: what one turn of the select loop does, as a function of the state and of
 what the environment does, and what holds of every sequence of turns.
 */
module DriverRuns {
  import opened Base
  import opened DriverProtocol
  import opened Driver
  import opened DriverHistory
  import opened DriverInvariant

  /** What the environment does next. `writeOk` is whether writes succeed during the step. */
  datatype Event =
    | Enqueue(command: Command)
    | Receive(message: Message, writeOk: bool)
    | Accept(writeOk: bool, shutdownOk: bool)
    | EndOfStream
    | DecodeError(error: Error)
    | SendersDropped(writeOk: bool)

  function Fresh(encode: Encoder, status: byte): Snapshot {
    Snapshot(encode, None, [], true, [], status, true, [], status, [], [], [], true, false)
  }

  // ----- One turn ---------------------------------------------------------------------------------------

  /** `on_message`, with the end of the run when the answer to CopyInResponse is lost. */
  ghost function WithReceived(s: Snapshot, m: Message, writeOk: bool): Snapshot {
    var read := WithMessage(s, m, s.faithful && s.Expected(m));
    var loss := LossOf(s, m, writeOk);
    var next := Delivered(read, m, loss.Some?);
    if loss.Some? then WithEnd(next, loss.value) else next
  }

  function LossOf(s: Snapshot, m: Message, writeOk: bool): Option<Error> {
    if s.Busy() && m.CopyInResponse? && s.pending.value.gathered.Payload? then
      CopyLoss(s.encode, IsBinary(m), s.pending.value.gathered.data, writeOk)
    else None
  }

  /** The inbox is read only while nothing is in flight. */
  function WithNext(s: Snapshot, writeOk: bool, shutdownOk: bool): Snapshot {
    if s.pending.Some? || s.inbox == [] then s else WithCommand(WithoutHead(s), s.inbox[0], writeOk, shutdownOk)
  }

  function WithCommand(s: Snapshot, cmd: Command, writeOk: bool, shutdownOk: bool): Snapshot {
    if cmd.op.Close? then WithClose(s, cmd.ticket, writeOk, shutdownOk) else WithStart(s, cmd, writeOk)
  }

  ghost function Next(s: Snapshot, e: Event): Snapshot {
    if !s.running then s
    else match e
      case Enqueue(cmd) => if s.inboxOpen then WithEntered(s, cmd) else s
      case Receive(m, writeOk) => WithReceived(s, m, writeOk)
      case Accept(writeOk, shutdownOk) => WithNext(s, writeOk, shutdownOk)
      case EndOfStream => WithEnd(s, Closed)
      case DecodeError(error) => WithEnd(s, error)
      case SendersDropped(writeOk) => if s.pending.None? && s.inbox == [] then WithShutdown(s, writeOk) else s
  }

  ghost function RunOf(s: Snapshot, events: seq<Event>): Snapshot {
    if events == [] then s else Next(RunOf(s, events[..|events| - 1]), events[|events| - 1])
  }

  lemma RunStep(s: Snapshot, events: seq<Event>, e: Event)
    ensures RunOf(s, events + [e]) == Next(RunOf(s, events), e)
  {
    assert (events + [e])[..|events|] == events;
  }

  lemma {:induction false} RunAppend(s: Snapshot, events: seq<Event>, more: seq<Event>)
    ensures RunOf(s, events + more) == RunOf(RunOf(s, events), more)
    decreases |more|
  {
    if more == [] {
      assert events + more == events;
    } else {
      var front, last := more[..|more| - 1], more[|more| - 1];
      RunAppend(s, events, front);
      assert events + more == (events + front) + [last];
      RunStep(s, events + front, last);
    }
  }

  lemma {:induction false} StoppedStays(s: Snapshot, events: seq<Event>)
    requires !s.running
    ensures RunOf(s, events) == s
  {
    if events != [] {
      StoppedStays(s, events[..|events| - 1]);
    }
  }

  // ----- The invariant --------------------------------------------------------------------------------------

  lemma ReceivedKeeps(s: Snapshot, m: Message, writeOk: bool)
    requires s.Valid() && s.running
    ensures WithReceived(s, m, writeOk).Valid()
  {
    var loss := LossOf(s, m, writeOk);
    var next := Delivered(WithMessage(s, m, s.faithful && s.Expected(m)), m, loss.Some?);
    ReadingKeeps(s, m, loss.Some?);
    if loss.Some? {
      if next.Valid() {
        ValidIsRecorded(next);
      }
      EndKeeps(next, loss.value);
    }
  }

  lemma CommandKeeps(s: Snapshot, cmd: Command, writeOk: bool, shutdownOk: bool)
    requires s.Sound() && s.IsNext(cmd)
    ensures WithCommand(s, cmd, writeOk, shutdownOk).Valid()
  {
    if cmd.op.Close? {
      CloseKeeps(s, cmd, writeOk, shutdownOk);
    } else {
      StartKeeps(s, cmd, writeOk);
    }
  }

  lemma NextCommandKeeps(s: Snapshot, writeOk: bool, shutdownOk: bool)
    requires s.Valid() && s.running
    ensures WithNext(s, writeOk, shutdownOk).Valid()
  {
    if s.pending.None? && s.inbox != [] {
      HeadIsNext(s);
      CommandKeeps(WithoutHead(s), s.inbox[0], writeOk, shutdownOk);
    }
  }

  lemma TurnKeeps(s: Snapshot, e: Event)
    requires s.Valid()
    ensures Next(s, e).Valid()
  {
    if s.running {
      match e {
        case Enqueue(cmd) =>
          if s.inboxOpen {
            EnteredKeeps(s, cmd);
          }
        case Receive(m, writeOk) => ReceivedKeeps(s, m, writeOk);
        case Accept(writeOk, shutdownOk) => NextCommandKeeps(s, writeOk, shutdownOk);
        case EndOfStream =>
          ValidIsRecorded(s);
          EndKeeps(s, Closed);
        case DecodeError(error) =>
          ValidIsRecorded(s);
          EndKeeps(s, error);
        case SendersDropped(writeOk) =>
          if s.pending.None? && s.inbox == [] {
            ShutdownKeeps(s, writeOk);
          }
      }
    }
  }

  lemma {:induction false} RunKeeps(s: Snapshot, events: seq<Event>)
    requires s.Valid()
    ensures RunOf(s, events).Valid()
  {
    if events != [] {
      RunKeeps(s, events[..|events| - 1]);
      TurnKeeps(RunOf(s, events[..|events| - 1]), events[|events| - 1]);
    }
  }

  lemma FreshIsValid(encode: Encoder, status: byte)
    ensures Fresh(encode, status).Valid()
  {
    var s := Fresh(encode, status);
    assert Segments(s.stream) == [] && OpenSegment(s.stream) == [];
    assert s.OnWire();
    assert s.FollowsServer();
    assert s.InOrder();
  }

  // ----- What the events say ---------------------------------------------------------------------------------

  /** The messages read in a run. */
  ghost function Heard(s: Snapshot, events: seq<Event>): seq<Message> {
    if events == [] then []
    else
      var front, last := events[..|events| - 1], events[|events| - 1];
      Heard(s, front) + if last.Receive? && RunOf(s, front).running then [last.message] else []
  }

  /** The commands that were enqueued while the inbox was open. */
  ghost function Admitted(s: Snapshot, events: seq<Event>): seq<Command> {
    if events == [] then []
    else
      var front, last := events[..|events| - 1], events[|events| - 1];
      var before := RunOf(s, front);
      Admitted(s, front) + if last.Enqueue? && before.running && before.inboxOpen then [last.command] else []
  }

  /** The server has kept to the protocol: every message read was to be expected. */
  ghost predicate Conforms(s: Snapshot, events: seq<Event>) {
    events == [] ||
    var front, last := events[..|events| - 1], events[|events| - 1];
    var before := RunOf(s, front);
    Conforms(s, front) && (last.Receive? && before.running ==> before.Expected(last.message))
  }

  predicate Ends(e: Event) {
    e.EndOfStream? || e.DecodeError?
  }

  /** A step that takes nothing from outside. */
  ghost predicate Inward(s: Snapshot, t: Snapshot) {
    && t.stream == s.stream && t.entered == s.entered && t.faithful == s.faithful
    && t.encode == s.encode && t.initialStatus == s.initialStatus
    && (t.running ==> s.running) && (t.inboxOpen ==> s.inboxOpen) && s.replies <= t.replies
  }

  lemma CopyIsInward(s: Snapshot, pending: Pending, written: seq<FrontMessage>)
    ensures Inward(s, WithCopy(s, pending, written)) && Inward(s, s.(pending := Some(pending)))
  {
  }

  lemma ReplyIsInward(s: Snapshot)
    requires s.Busy()
    ensures Inward(s, WithReply(s))
  {
  }

  lemma GatheringIsInward(s: Snapshot, m: Message)
    requires s.Busy()
    ensures Inward(s, WithGathered(s, m))
  {
  }

  lemma DeliveryIsInward(s: Snapshot, m: Message, lost: bool)
    ensures Inward(s, Delivered(s, m, lost))
  {
    if s.Busy() {
      if m.CopyInResponse? && s.pending.value.gathered.Payload? {
        CopyIsInward(s, if lost then LostCopy(s, m) else AfterCopy(s, m), CopyWritten(s, m));
      } else if m.ReadyForQuery? {
        ReplyIsInward(s);
      } else {
        GatheringIsInward(s, m);
      }
    }
  }

  lemma ReceivedIsInward(s: Snapshot, m: Message, writeOk: bool)
    ensures Inward(WithMessage(s, m, s.faithful && s.Expected(m)), WithReceived(s, m, writeOk))
  {
    DeliveryIsInward(WithMessage(s, m, s.faithful && s.Expected(m)), m, LossOf(s, m, writeOk).Some?);
  }

  lemma CloseIsInward(s: Snapshot, ticket: nat, writeOk: bool, shutdownOk: bool)
    ensures Inward(s, WithClose(s, ticket, writeOk, shutdownOk))
  {
  }

  lemma StartIsInward(s: Snapshot, cmd: Command, writeOk: bool)
    requires !cmd.op.Close?
    ensures Inward(s, WithStart(s, cmd, writeOk))
  {
  }

  lemma NextCommandIsInward(s: Snapshot, writeOk: bool, shutdownOk: bool)
    ensures Inward(s, WithNext(s, writeOk, shutdownOk))
  {
    if s.pending.None? && s.inbox != [] {
      var cmd := s.inbox[0];
      if cmd.op.Close? {
        CloseIsInward(WithoutHead(s), cmd.ticket, writeOk, shutdownOk);
      } else {
        StartIsInward(WithoutHead(s), cmd, writeOk);
      }
    }
  }

  ghost predicate Records(s: Snapshot, e: Event, t: Snapshot) {
    && t.stream == s.stream + (if e.Receive? && s.running then [e.message] else [])
    && t.entered == s.entered + (if e.Enqueue? && s.running && s.inboxOpen then [e.command] else [])
    && (t.faithful <==> s.faithful && (e.Receive? && s.running ==> s.Expected(e.message)))
    && t.encode == s.encode && t.initialStatus == s.initialStatus
    && (t.running ==> s.running && !Ends(e)) && (t.inboxOpen ==> s.inboxOpen) && s.replies <= t.replies
  }

  lemma InwardRecords(s: Snapshot, e: Event, t: Snapshot)
    requires Inward(s, t) && !(e.Receive? && s.running) && !(e.Enqueue? && s.running && s.inboxOpen)
    requires t.running ==> !Ends(e)
    ensures Records(s, e, t)
  {
    assert s.stream + [] == s.stream && s.entered + [] == s.entered;
  }

  lemma ReceivedRecords(s: Snapshot, m: Message, writeOk: bool)
    requires s.running
    ensures Records(s, Receive(m, writeOk), WithReceived(s, m, writeOk))
  {
    ReceivedIsInward(s, m, writeOk);
    assert s.entered + [] == s.entered;
  }

  lemma TurnRecords(s: Snapshot, e: Event)
    ensures Records(s, e, Next(s, e))
  {
    if s.running && e.Receive? {
      ReceivedRecords(s, e.message, e.writeOk);
    } else if s.running && e.Enqueue? && s.inboxOpen {
      assert s.stream + [] == s.stream;
    } else {
      if e.Accept? {
        NextCommandIsInward(s, e.writeOk, e.shutdownOk);
      }
      InwardRecords(s, e, Next(s, e));
    }
  }

  /** The history is that of the events. */
  lemma {:induction false} RunRecords(s: Snapshot, events: seq<Event>)
    ensures var t := RunOf(s, events);
      && t.stream == s.stream + Heard(s, events) && t.entered == s.entered + Admitted(s, events)
      && (t.faithful <==> s.faithful && Conforms(s, events))
      && t.encode == s.encode && t.initialStatus == s.initialStatus && s.replies <= t.replies
  {
    if events == [] {
      assert s.stream + [] == s.stream && s.entered + [] == s.entered;
    } else {
      var front, last := events[..|events| - 1], events[|events| - 1];
      RunRecords(s, front);
      TurnRecords(RunOf(s, front), last);
      var heard, admitted := Heard(s, front), Admitted(s, front);
      assert (s.stream + heard) + (Heard(s, events)[|heard|..]) == s.stream + Heard(s, events);
      assert (s.entered + admitted) + (Admitted(s, events)[|admitted|..]) == s.entered + Admitted(s, events);
    }
  }

  /** The end of the stream, or a decode error, ends a run. */
  lemma {:induction false} RunsEnd(s: Snapshot, events: seq<Event>, k: nat)
    requires k < |events| && Ends(events[k])
    ensures !RunOf(s, events).running
  {
    var front, last := events[..|events| - 1], events[|events| - 1];
    TurnRecords(RunOf(s, front), last);
    if k < |front| {
      RunsEnd(s, front, k);
    }
  }

  function ReceivedIn(events: seq<Event>): seq<Message> {
    if events == [] then []
    else
      var last := events[|events| - 1];
      ReceivedIn(events[..|events| - 1]) + if last.Receive? then [last.message] else []
  }

  function EnqueuedIn(events: seq<Event>): seq<Command> {
    if events == [] then []
    else
      var last := events[|events| - 1];
      EnqueuedIn(events[..|events| - 1]) + if last.Enqueue? then [last.command] else []
  }

  /** A run that goes on has read every message, and has taken every command if it still takes them. */
  lemma {:induction false} NothingIsMissed(s: Snapshot, events: seq<Event>)
    ensures var t := RunOf(s, events);
      && (t.running ==> s.running && Heard(s, events) == ReceivedIn(events))
      && (t.running && t.inboxOpen ==> s.inboxOpen && Admitted(s, events) == EnqueuedIn(events))
  {
    if events != [] {
      var front, last := events[..|events| - 1], events[|events| - 1];
      NothingIsMissed(s, front);
      TurnRecords(RunOf(s, front), last);
    }
  }

  predicate CopyFailsEncode(encode: Encoder) {
    encode(CopyFail(COPY_FORMAT_REASON)).None? && encode(CopyFail(COPY_ENCODE_REASON)).None?
  }

  /** Nothing but the end of the stream, a decode error, the last sender or a failed write ends a run. */
  lemma {:induction false} RunsGoOn(s: Snapshot, events: seq<Event>)
    requires s.running && CopyFailsEncode(s.encode)
    requires forall e :: e in events ==> !Ends(e) && !e.SendersDropped? && (e.Receive? ==> e.writeOk)
    ensures RunOf(s, events).running
  {
    if events != [] {
      var front, last := events[..|events| - 1], events[|events| - 1];
      assert last in events && forall e :: e in front ==> e in events;
      RunsGoOn(s, front);
      RunRecords(s, front);
      TurnGoesOn(RunOf(s, front), last);
    }
  }

  lemma TurnGoesOn(s: Snapshot, e: Event)
    requires s.running && CopyFailsEncode(s.encode)
    requires !Ends(e) && !e.SendersDropped? && (e.Receive? ==> e.writeOk)
    ensures Next(s, e).running
  {
    if e.Receive? {
      assert LossOf(s, e.message, true).None?;
    }
  }

  /** Everyone whose command was admitted before the end has an answer. */
  lemma EndsAnswered(encode: Encoder, status: byte, events: seq<Event>, k: nat)
    requires k < |events| && Ends(events[k])
    ensures var start := Fresh(encode, status);
      Answered(RunOf(start, events).replies) == TicketsOf(Admitted(start, events))
  {
    RunsEnd(Fresh(encode, status), events, k);
    RunsAreCorrect(encode, status, events);
  }

  // ----- The results ---------------------------------------------------------------------------------------------

  /** Every run of a new driver, whatever the environment does. Its history is that of the events.
      Answers come out in the order the commands went in, and a run that has ended has answered every
      command exactly once. The wire holds the messages of commands that entered, in order and whole,
      each with its COPY answers, and at most one Terminate at its end. Against a server that keeps to
      the protocol every completed command was answered, in its place, with the specification's outcome
      for its own segment of messages, and one boundary more was sent than ReadyForQuery came exactly
      while a command is in flight. */
  lemma RunsAreCorrect(encode: Encoder, status: byte, events: seq<Event>)
    ensures var start := Fresh(encode, status);
      var s := RunOf(start, events);
      && s.stream == Heard(start, events) && s.entered == Admitted(start, events)
      && Answered(s.replies) <= TicketsOf(s.entered)
      && (!s.running ==> Answered(s.replies) == TicketsOf(s.entered))
      && s.status == LastStatus(s.stream, status)
      && Taken(s.entered, s.served, |s.replies| + |Awaited(s.pending)|)
      && Written(s.served, s.wire, !s.running || s.pending == Some(Closing))
      && (Conforms(start, events) ==> Fulfilled(encode, s.served, Segments(s.stream), s.replies))
      && (Conforms(start, events) && s.running ==>
            Boundaries(MessagesIn(s.wire)) - |Segments(s.stream)| == if s.Busy() then 1 else 0)
  {
    var start := Fresh(encode, status);
    FreshIsValid(encode, status);
    RunKeeps(start, events);
    RunRecords(start, events);
    ValidMeans(RunOf(start, events));
    assert [] + Heard(start, events) == Heard(start, events);
    assert [] + Admitted(start, events) == Admitted(start, events);
  }

  /** A driver that is at rest and takes commands, and a server that has kept to the protocol. */
  ghost predicate Idle(s: Snapshot) {
    && s.Valid() && s.running && s.pending == None && s.inbox == [] && s.inboxOpen && s.faithful && !s.doomed
  }

  /** `cmd` is in flight, `ms` has come since, and nothing has been answered. */
  ghost predicate Serving(start: Snapshot, cmd: Command, ms: seq<Message>, s: Snapshot) {
    && s.running && s.faithful && !s.doomed && s.Busy()
    && s.encode == start.encode && s.replies == start.replies
    && s.stream == start.stream + ms && s.entered == start.entered + [cmd]
  }

  lemma TakenUp(s: Snapshot, cmd: Command)
    requires s.running && s.pending == None && s.inbox == [] && s.inboxOpen && s.faithful && !s.doomed
    requires !cmd.op.Close? && BuildFault(s.encode, MessagesOf(cmd.op)).None?
    ensures Serving(s, cmd, [], Next(Next(s, Enqueue(cmd)), Accept(true, true)))
  {
    var one := WithEntered(s, cmd);
    assert one.inbox == [cmd] && WithNext(one, true, true) == WithService(WithoutHead(one), cmd);
    assert s.stream + [] == s.stream;
  }

  lemma InFlightIsDue(s: Snapshot, m: Message)
    requires s.Valid() && s.running && s.faithful && !s.doomed && s.Busy()
    ensures s.Expected(m) && |Segments(s.stream)| < |s.served|
  {
    ValidMeans(s);
  }

  lemma ServingGoesOn(start: Snapshot, cmd: Command, ms: seq<Message>, s: Snapshot, m: Message)
    requires Serving(start, cmd, ms, s) && s.Expected(m) && |Segments(s.stream)| < |s.served|
    requires !m.ReadyForQuery? && CopyFailsEncode(s.encode)
    ensures Serving(start, cmd, ms + [m], Next(s, Receive(m, true)))
  {
    var read := WithMessage(s, m, true);
    assert LossOf(s, m, true).None? && Next(s, Receive(m, true)) == Delivered(read, m, false);
    DeliveryIsInward(read, m, false);
    assert (start.stream + ms) + [m] == start.stream + (ms + [m]);
  }

  function Incoming(ms: seq<Message>): seq<Event> {
    seq(|ms|, i requires 0 <= i < |ms| => Receive(ms[i], true))
  }

  lemma ServingStep(start: Snapshot, cmd: Command, ms: seq<Message>, s: Snapshot, m: Message)
    requires s.Valid() && Serving(start, cmd, ms, s) && !m.ReadyForQuery? && CopyFailsEncode(s.encode)
    ensures Serving(start, cmd, ms + [m], Next(s, Receive(m, true)))
  {
    InFlightIsDue(s, m);
    ServingGoesOn(start, cmd, ms, s, m);
  }

  lemma IncomingAppended(ms: seq<Message>, m: Message)
    ensures Incoming(ms + [m]) == Incoming(ms) + [Receive(m, true)]
  {
  }

  lemma ServingOneMore(start: Snapshot, cmd: Command, s: Snapshot, ms: seq<Message>, m: Message)
    requires s.Valid() && Serving(start, cmd, ms, RunOf(s, Incoming(ms)))
    requires CopyFailsEncode(start.encode) && !m.ReadyForQuery?
    ensures Serving(start, cmd, ms + [m], RunOf(s, Incoming(ms + [m])))
  {
    RunKeeps(s, Incoming(ms));
    ServingStep(start, cmd, ms, RunOf(s, Incoming(ms)), m);
    RunStep(s, Incoming(ms), Receive(m, true));
    IncomingAppended(ms, m);
  }

  lemma {:induction false} ServingAll(start: Snapshot, cmd: Command, s: Snapshot, ms: seq<Message>)
    requires s.Valid() && Serving(start, cmd, [], s) && CopyFailsEncode(s.encode)
    requires forall i :: 0 <= i < |ms| ==> !ms[i].ReadyForQuery?
    ensures Serving(start, cmd, ms, RunOf(s, Incoming(ms)))
    decreases |ms|
  {
    if ms == [] {
      assert RunOf(s, Incoming(ms)) == s;
    } else {
      var front, last := ms[..|ms| - 1], ms[|ms| - 1];
      ServingAll(start, cmd, s, front);
      ServingOneMore(start, cmd, s, front, last);
      assert ms == front + [last];
    }
  }

  lemma {:induction false} OpenSegmentGrows(stream: seq<Message>, ms: seq<Message>)
    requires forall i :: 0 <= i < |ms| ==> !ms[i].ReadyForQuery?
    ensures OpenSegment(stream + ms) == OpenSegment(stream) + ms
  {
    if ms == [] {
      assert stream + ms == stream && OpenSegment(stream) + ms == OpenSegment(stream);
    } else {
      var front, last := ms[..|ms| - 1], ms[|ms| - 1];
      OpenSegmentGrows(stream, front);
      CutAppended(stream + front, last, 0);
      assert stream + ms == (stream + front) + [last];
      assert OpenSegment(stream) + ms == (OpenSegment(stream) + front) + [last];
    }
  }

  lemma InFlightIs(start: Snapshot, cmd: Command, s: Snapshot)
    requires start.InOrder() && start.pending == None && start.inbox == []
    requires s.InOrder() && s.Busy() && s.replies == start.replies && s.entered == start.entered + [cmd]
    ensures s.served != []
    ensures var last := s.served[|s.served| - 1]; last.cmd == cmd && last.place == |start.replies|
  {
    assert |TicketsOf(start.entered)| == |start.replies|;
    assert s.entered[s.served[|s.served| - 1].place] == cmd;
  }

  /** What the last command written was answered, once it has been. */
  lemma LastIsAnswered(s: Snapshot, open: seq<Message>, ready: Message, t: Snapshot)
    requires t.FollowsServer() && s.served != [] && t.served == s.served
    requires Segments(t.stream) == Segments(s.stream) + [Segment(open, ready)] && |s.served| == |Segments(s.stream)| + 1
    ensures FulfilledAt(t.encode, s.served[|s.served| - 1], Segment(open, ready), t.replies)
  {
    assert FulfilledAt(t.encode, t.served[|Segments(s.stream)|], Segments(t.stream)[|Segments(s.stream)|], t.replies);
  }

  lemma ServingEnds(start: Snapshot, cmd: Command, ms: seq<Message>, s: Snapshot, ready: Message)
    requires Serving(start, cmd, ms, s) && s.OneBoundaryDue() && s.Expected(ready) && ready.ReadyForQuery?
    requires s.served != [] && s.served[|s.served| - 1].cmd == cmd && s.served[|s.served| - 1].place == |start.replies|
    requires Next(s, Receive(ready, true)).Sound()
    ensures var t := Next(s, Receive(ready, true));
      && t.replies == start.replies + [Reply(cmd.ticket, OutcomeOf(start.encode, cmd.op, OpenSegment(s.stream)))]
      && t.running && t.pending == None && t.faithful
  {
    var t := Next(s, Receive(ready, true));
    assert t == WithReply(WithMessage(s, ready, true));
    CutAppended(s.stream, ready, s.initialStatus);
    LastIsAnswered(s, OpenSegment(s.stream), ready, t);
  }

  /** A command taken up by an idle driver, and what comes from the server until ReadyForQuery. */
  function Opening(cmd: Command, ms: seq<Message>): seq<Event> {
    [Enqueue(cmd)] + [Accept(true, true)] + Incoming(ms)
  }

  lemma OpeningServes(s: Snapshot, cmd: Command, ms: seq<Message>)
    requires Idle(s) && !cmd.op.Close? && BuildFault(s.encode, MessagesOf(cmd.op)).None? && CopyFailsEncode(s.encode)
    requires forall i :: 0 <= i < |ms| ==> !ms[i].ReadyForQuery?
    ensures Serving(s, cmd, ms, RunOf(s, Opening(cmd, ms)))
  {
    var first := [Enqueue(cmd)] + [Accept(true, true)];
    RunOfTwo(s, Enqueue(cmd), Accept(true, true));
    TakenUp(s, cmd);
    RunKeeps(s, first);
    ServingAll(s, cmd, RunOf(s, first), ms);
    RunAppend(s, first, Incoming(ms));
  }

  /** A command put to an idle driver is answered with the specification's outcome for the messages up
      to the next ReadyForQuery, behind any asynchronous ones that were still open, and nobody else is. */
  lemma CommandIsAnswered(s: Snapshot, cmd: Command, ms: seq<Message>, ready: Message)
    requires Idle(s) && !cmd.op.Close? && BuildFault(s.encode, MessagesOf(cmd.op)).None? && CopyFailsEncode(s.encode)
    requires ready.ReadyForQuery? && forall i :: 0 <= i < |ms| ==> !ms[i].ReadyForQuery?
    ensures var t := RunOf(s, Opening(cmd, ms) + [Receive(ready, true)]);
      && t.replies == s.replies + [Reply(cmd.ticket, OutcomeOf(s.encode, cmd.op, OpenSegment(s.stream) + ms))]
      && t.running && t.pending == None && t.faithful
  {
    var last := RunOf(s, Opening(cmd, ms));
    OpeningServes(s, cmd, ms);
    RunKeeps(s, Opening(cmd, ms));
    RunStep(s, Opening(cmd, ms), Receive(ready, true));
    ServingAnswers(s, cmd, ms, last, ready);
    OpenSegmentGrows(s.stream, ms);
  }

  lemma ServingAnswers(start: Snapshot, cmd: Command, ms: seq<Message>, s: Snapshot, ready: Message)
    requires Idle(start) && s.Valid() && Serving(start, cmd, ms, s) && ready.ReadyForQuery?
    ensures var t := Next(s, Receive(ready, true));
      && t.replies == start.replies + [Reply(cmd.ticket, OutcomeOf(start.encode, cmd.op, OpenSegment(s.stream)))]
      && t.running && t.pending == None && t.faithful
  {
    InFlightIsDue(s, ready);
    InFlightIs(start, cmd, s);
    TurnKeeps(s, Receive(ready, true));
    ServingEnds(start, cmd, ms, s, ready);
  }

  lemma RunOfTwo(s: Snapshot, e: Event, f: Event)
    ensures RunOf(s, [e] + [f]) == Next(Next(s, e), f)
  {
    RunStep(s, [e], f);
    assert [e][..0] == [];
  }
}

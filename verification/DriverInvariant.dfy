/**
 What holds of the driver between two events, as a property of a snapshot of its state and history,
 and what each of its steps does to it.
 */
module DriverInvariant {
  import opened Base
  import opened DriverProtocol
  import opened Driver
  import opened DriverHistory

  /** `stream` has every message read, `entered` every command taken into the inbox, and `faithful` is
      whether the server has kept to the protocol; `doomed`, whether it has announced its end. */
  datatype Snapshot = Snapshot(
    encode: Encoder,
    pending: Option<Pending>,
    inbox: seq<Command>,
    inboxOpen: bool,
    wire: seq<Piece>,
    status: byte,
    running: bool,
    replies: seq<Reply>,
    initialStatus: byte,
    entered: seq<Command>,
    stream: seq<Message>,
    served: seq<Service>,
    faithful: bool,
    doomed: bool)
  {
    predicate Busy() {
      pending.Some? && pending.value.InFlight?
    }

    /** Every command that entered is answered, in flight or queued, exactly once and in order, and
        the one in flight was the last to be written. */
    ghost predicate InOrder() {
      && TicketsOf(entered) == Answered(replies) + Awaited(pending) + TicketsOf(inbox)
      && |inbox| <= |entered| && inbox == entered[|entered| - |inbox|..]
      && Taken(entered, served, |replies| + |Awaited(pending)|)
      && InHand(pending, served, |replies|)
    }

    ghost predicate OnWire() {
      Written(served, wire, !running || pending == Some(Closing))
    }

    /** One boundary more was sent than answered exactly while a command is in flight. */
    ghost predicate OneBoundaryDue() {
      |served| == |Segments(stream)| + if Busy() then 1 else 0
    }

    ghost predicate FollowsServer() {
      && Fulfilled(encode, served, Segments(stream), replies)
      && (running ==> OneBoundaryDue())
      && (running && !doomed ==> GathersOpen(encode, pending, served, OpenSegment(stream)))
    }

    ghost predicate Settled() {
      && status == LastStatus(stream, initialStatus)
      && (running && pending != Some(Closing) ==> inboxOpen)
      && (!running ==> pending == None && inbox == [] && !inboxOpen)
    }

    /** Everything but the place of the command that is just being taken up. */
    ghost predicate Sound() {
      Settled() && OnWire() && (faithful ==> FollowsServer())
    }

    ghost predicate Valid() {
      Sound() && InOrder()
    }

    /** A server that keeps to the protocol sends ReadyForQuery only for a Query or Sync on the wire,
        and between commands only asynchronous messages, or the error with which it ends the connection. */
    ghost predicate Expected(m: Message) {
      var due := |Segments(stream)| < Boundaries(MessagesIn(wire));
      !doomed && (m.ReadyForQuery? ==> due) && (!due ==> IsAsync(m) || m.ErrorResponse?)
    }

    /** `cmd` has been taken from the inbox, and everything before it is answered. */
    ghost predicate IsNext(cmd: Command) {
      && running && pending == None
      && TicketsOf(entered) == Answered(replies) + [cmd.ticket] + TicketsOf(inbox)
      && |replies| < |entered| && entered[|replies|] == cmd && inbox == entered[|replies| + 1..]
      && Taken(entered, served, |replies|)
    }

    /** What an interrupted step leaves in place. */
    ghost predicate Recorded() {
      && running && InOrder() && OnWire() && status == LastStatus(stream, initialStatus)
      && (faithful ==> Fulfilled(encode, served, Segments(stream), replies))
    }

    /** The message `m` has just been recorded, and nothing else has happened since `before`. */
    ghost predicate JustRead(before: seq<Message>, m: Message) {
      && running && stream == before + [m] && InOrder() && OnWire() && Settled()
      && (faithful ==> Follows(before, m))
    }

    ghost predicate Follows(before: seq<Message>, m: Message) {
      && Fulfilled(encode, served, Segments(before), replies)
      && |served| == |Segments(before)| + (if Busy() then 1 else 0)
      && (doomed ==> !Busy()) && (Busy() || !m.ReadyForQuery?)
      && (Busy() || doomed || IsAsync(m))
      && GathersOpen(encode, pending, served, OpenSegment(before))
    }
  }

  // ----- Commands ----------------------------------------------------------------------------------------

  lemma FollowsOn(s: Snapshot, more: seq<Reply>)
    requires s.faithful ==> Fulfilled(s.encode, s.served, Segments(s.stream), s.replies)
    requires s.replies <= more
    ensures s.faithful ==> Fulfilled(s.encode, s.served, Segments(s.stream), more)
  {
    if s.faithful {
      FulfilledGrows(s.encode, s.served, Segments(s.stream), s.replies, s.served, more);
    }
  }

  function WithEntered(s: Snapshot, cmd: Command): Snapshot {
    s.(inbox := s.inbox + [cmd], entered := s.entered + [cmd])
  }

  lemma TicketsAppended(commands: seq<Command>, cmd: Command)
    ensures TicketsOf(commands + [cmd]) == TicketsOf(commands) + [cmd.ticket]
  {
  }

  lemma EnteredKeeps(s: Snapshot, cmd: Command)
    requires s.Valid() && s.running && s.inboxOpen
    ensures WithEntered(s, cmd).Valid()
  {
    var next := WithEntered(s, cmd);
    var limit := |s.replies| + |Awaited(s.pending)|;
    assert |TicketsOf(s.entered)| == limit + |s.inbox|;
    TicketsAppended(s.entered, cmd);
    TicketsAppended(s.inbox, cmd);
    TakenMore(s.entered, s.served, limit, next.entered, limit);
  }

  function WithoutHead(s: Snapshot): Snapshot
    requires s.inbox != []
  {
    s.(inbox := s.inbox[1..])
  }

  lemma HeadOfInbox(entered: seq<Command>, replies: seq<Reply>, inbox: seq<Command>)
    requires TicketsOf(entered) == Answered(replies) + TicketsOf(inbox) && inbox != []
    requires |inbox| <= |entered| && inbox == entered[|entered| - |inbox|..]
    ensures TicketsOf(entered) == Answered(replies) + [inbox[0].ticket] + TicketsOf(inbox[1..])
    ensures |entered| == |replies| + |inbox| && entered[|replies|] == inbox[0] && inbox[1..] == entered[|replies| + 1..]
  {
    assert TicketsOf(inbox) == [inbox[0].ticket] + TicketsOf(inbox[1..]);
    assert |TicketsOf(entered)| == |replies| + |inbox|;
  }

  lemma HeadLeaves(s: Snapshot)
    requires s.InOrder() && s.running && s.pending == None && s.inbox != []
    ensures WithoutHead(s).IsNext(s.inbox[0])
  {
    HeadOfInbox(s.entered, s.replies, s.inbox);
  }

  lemma HeadIsNext(s: Snapshot)
    requires s.Valid() && s.running && s.pending == None && s.inbox != []
    ensures WithoutHead(s).Sound() && WithoutHead(s).IsNext(s.inbox[0])
  {
    HeadLeaves(s);
  }

  function WithRefusal(s: Snapshot, ticket: nat, e: Error): Snapshot {
    s.(replies := s.replies + [Reply(ticket, Err(e))])
  }

  lemma RefusalKeeps(s: Snapshot, cmd: Command, e: Error)
    requires s.Sound() && s.IsNext(cmd)
    ensures WithRefusal(s, cmd.ticket, e).Valid()
  {
    var next := WithRefusal(s, cmd.ticket, e);
    assert Answered(next.replies) == Answered(s.replies) + [cmd.ticket];
    TakenMore(s.entered, s.served, |s.replies|, s.entered, |next.replies|);
    FollowsOn(s, next.replies);
  }

  function WithService(s: Snapshot, cmd: Command): Snapshot
    requires !cmd.op.Close?
  {
    s.(pending := Some(InitialPending(cmd)), wire := s.wire + Wholes(MessagesOf(cmd.op)),
       served := s.served + [Service(cmd, |s.replies|, [])])
  }

  lemma ServiceFollows(s: Snapshot, cmd: Command)
    requires s.Sound() && s.IsNext(cmd) && s.faithful && !cmd.op.Close?
    ensures WithService(s, cmd).FollowsServer()
  {
    var next := WithService(s, cmd);
    FulfilledGrows(s.encode, s.served, Segments(s.stream), s.replies, next.served, s.replies);
    if !s.doomed {
      NothingGathered(s.encode, cmd, OpenSegment(s.stream));
      NoCopyAnswers(s.encode, cmd.op, OpenSegment(s.stream));
    }
  }

  /** Writing a command's messages, whole, makes it the one in flight. */
  lemma ServiceKeeps(s: Snapshot, cmd: Command)
    requires s.Sound() && s.IsNext(cmd) && !cmd.op.Close?
    ensures WithService(s, cmd).Valid()
  {
    var next := WithService(s, cmd);
    WrittenOne(s.served, s.wire, cmd, |s.replies|);
    TakenOne(s.entered, s.served, |s.replies|, []);
    assert next.inbox == next.entered[|next.entered| - |next.inbox|..];
    if s.faithful {
      ServiceFollows(s, cmd);
    }
  }

  /** `start`: a command that cannot be encoded or written is answered at once. */
  function WithStart(s: Snapshot, cmd: Command, writeOk: bool): Snapshot
    requires !cmd.op.Close?
  {
    var fault := BuildFault(s.encode, MessagesOf(cmd.op));
    if fault.Some? then WithRefusal(s, cmd.ticket, fault.value)
    else if writeOk then WithService(s, cmd)
    else WithRefusal(s, cmd.ticket, CloneForCaller(Io))
  }

  lemma StartKeeps(s: Snapshot, cmd: Command, writeOk: bool)
    requires s.Sound() && s.IsNext(cmd) && !cmd.op.Close?
    ensures WithStart(s, cmd, writeOk).Valid()
  {
    var fault := BuildFault(s.encode, MessagesOf(cmd.op));
    if fault.Some? {
      RefusalKeeps(s, cmd, fault.value);
    } else if writeOk {
      ServiceKeeps(s, cmd);
    } else {
      RefusalKeeps(s, cmd, CloneForCaller(Io));
    }
  }

  function WithFarewell(wire: seq<Piece>, writeOk: bool): seq<Piece> {
    if writeOk then wire + [Whole(Terminate)] else wire
  }

  function CloseReplies(s: Snapshot, ticket: nat, ok: bool): seq<Reply> {
    s.replies + [Reply(ticket, if ok then Ok(Done) else Err(Io))] + ClosedReplies(s.inbox)
  }

  /** Close is answered, and then everything behind it. */
  function WithClose(s: Snapshot, ticket: nat, writeOk: bool, shutdownOk: bool): Snapshot {
    s.(pending := Some(Closing), inbox := [], inboxOpen := false, wire := WithFarewell(s.wire, writeOk),
       replies := CloseReplies(s, ticket, writeOk && shutdownOk))
  }

  lemma CloseAnswers(s: Snapshot, cmd: Command, ok: bool)
    requires s.IsNext(cmd)
    ensures s.replies <= CloseReplies(s, cmd.ticket, ok)
    ensures Answered(CloseReplies(s, cmd.ticket, ok)) == TicketsOf(s.entered)
  {
    var one := s.replies + [Reply(cmd.ticket, if ok then Ok(Done) else Err(Io))];
    assert Answered(one) == Answered(s.replies) + [cmd.ticket];
    ClosedRepliesAnswer(one, s.inbox);
  }

  lemma CloseKeeps(s: Snapshot, cmd: Command, writeOk: bool, shutdownOk: bool)
    requires s.Sound() && s.IsNext(cmd)
    ensures WithClose(s, cmd.ticket, writeOk, shutdownOk).Valid()
  {
    var next := WithClose(s, cmd.ticket, writeOk, shutdownOk);
    CloseAnswers(s, cmd, writeOk && shutdownOk);
    assert |Answered(next.replies)| == |TicketsOf(s.entered)|;
    assert next.inbox == next.entered[|next.entered|..];
    TakenMore(s.entered, s.served, |s.replies|, s.entered, |next.replies|);
    WrittenLast(s.served, s.wire);
    FollowsOn(s, next.replies);
  }

  // ----- Messages --------------------------------------------------------------------------------------------

  function WithMessage(s: Snapshot, m: Message, faithful: bool): Snapshot {
    s.(stream := s.stream + [m], faithful := faithful,
       doomed := s.doomed || (m.ErrorResponse? && |Segments(s.stream)| >= |s.served|),
       status := if m.ReadyForQuery? then m.status else s.status)
  }

  lemma MessageFollows(s: Snapshot, m: Message)
    requires s.OnWire() && s.FollowsServer() && s.running && s.Expected(m)
    ensures WithMessage(s, m, true).Follows(s.stream, m)
  {
    SentBoundaries(s.served, s.wire, s.pending == Some(Closing));
  }

  lemma MessageSettles(s: Snapshot, m: Message, faithful: bool)
    requires s.Valid() && s.running
    ensures WithMessage(s, m, faithful).InOrder() && WithMessage(s, m, faithful).OnWire()
    ensures WithMessage(s, m, faithful).Settled()
  {
    CutAppended(s.stream, m, s.initialStatus);
  }

  lemma MessageKeeps(s: Snapshot, m: Message, faithful: bool)
    requires s.Valid() && s.running && faithful == (s.faithful && s.Expected(m))
    ensures WithMessage(s, m, faithful).JustRead(s.stream, m)
  {
    MessageSettles(s, m, faithful);
    if faithful {
      MessageFollows(s, m);
    }
  }

  lemma IgnoredKeeps(s: Snapshot, before: seq<Message>, m: Message)
    requires s.JustRead(before, m) && !s.Busy()
    ensures s.Valid()
  {
    CutAppended(before, m, s.initialStatus);
  }

  function WithGathered(s: Snapshot, m: Message): Snapshot
    requires s.Busy()
  {
    var InFlight(ticket, gathered, error) := s.pending.value;
    s.(pending := Some(InFlight(ticket, Absorb(gathered, m), AbsorbError(gathered, error, m))))
  }

  lemma GatheredFollows(s: Snapshot, before: seq<Message>, m: Message)
    requires s.JustRead(before, m) && s.faithful && s.Busy() && !m.ReadyForQuery?
    requires !(m.CopyInResponse? && s.pending.value.gathered.Payload?)
    ensures WithGathered(s, m).FollowsServer()
  {
    CutAppended(before, m, s.initialStatus);
    var InFlight(ticket, gathered, error) := s.pending.value;
    var op := s.served[|s.served| - 1].cmd.op;
    AbsorbGathers(s.encode, gathered, error, op, OpenSegment(before), m);
    CopyAnswersAppended(s.encode, op, OpenSegment(before), m);
  }

  lemma GatheredKeeps(s: Snapshot, before: seq<Message>, m: Message)
    requires s.JustRead(before, m) && s.Busy() && !m.ReadyForQuery?
    requires !(m.CopyInResponse? && s.pending.value.gathered.Payload?)
    ensures WithGathered(s, m).Valid()
  {
    AbsorbKeepsPayload(s.pending.value.gathered, m);
    InHandStays(s.pending.value, WithGathered(s, m).pending.value, s.served, s.served, |s.replies|);
    if s.faithful {
      GatheredFollows(s, before, m);
    }
  }

  function WithReply(s: Snapshot): Snapshot
    requires s.Busy()
  {
    var InFlight(ticket, gathered, error) := s.pending.value;
    s.(pending := None, replies := s.replies + [Reply(ticket, Conclude(gathered, error))])
  }

  lemma ReplyFollows(s: Snapshot, before: seq<Message>, m: Message)
    requires s.JustRead(before, m) && s.faithful && s.Busy() && m.ReadyForQuery?
    ensures WithReply(s).FollowsServer()
  {
    CutAppended(before, m, s.initialStatus);
    var next := WithReply(s);
    var last := s.served[|s.served| - 1];
    ConcludeGathers(s.encode, s.pending.value.gathered, s.pending.value.error, last.cmd.op, OpenSegment(before));
    FulfilledGrows(s.encode, s.served, Segments(before), s.replies, s.served, next.replies);
    assert FulfilledAt(s.encode, last, Segment(OpenSegment(before), m), next.replies);
  }

  lemma ReplyKeeps(s: Snapshot, before: seq<Message>, m: Message)
    requires s.JustRead(before, m) && s.Busy() && m.ReadyForQuery?
    ensures WithReply(s).Valid()
  {
    var next := WithReply(s);
    assert Answered(next.replies) == Answered(s.replies) + Awaited(s.pending);
    assert |TicketsOf(s.entered)| == |next.replies| + |s.inbox|;
    TakenMore(s.entered, s.served, |s.replies| + 1, s.entered, |next.replies|);
    if s.faithful {
      ReplyFollows(s, before, m);
    }
  }

  // ----- COPY ---------------------------------------------------------------------------------------------------

  /** The command in flight after its answer to CopyInResponse. */
  function AfterCopy(s: Snapshot, m: Message): Pending
    requires s.Busy() && m.CopyInResponse? && s.pending.value.gathered.Payload?
  {
    var InFlight(ticket, gathered, error) := s.pending.value;
    if !IsBinary(m) then InFlight(ticket, gathered, Or(error, Protocol("COPY FROM STDIN requires binary format")))
    else
      var fault := CopyFault(s.encode, gathered.data);
      InFlight(ticket, gathered.(data := []), if fault.Some? then Or(error, fault.value) else error)
  }

  /** The command in flight when its answer to CopyInResponse could not be written. */
  function LostCopy(s: Snapshot, m: Message): Pending
    requires s.Busy() && m.CopyInResponse? && s.pending.value.gathered.Payload?
  {
    var InFlight(ticket, gathered, error) := s.pending.value;
    if !IsBinary(m) then InFlight(ticket, gathered, Or(error, Protocol("COPY FROM STDIN requires binary format")))
    else InFlight(ticket, gathered.(data := []), error)
  }

  function CopyWritten(s: Snapshot, m: Message): seq<FrontMessage>
    requires s.Busy() && m.CopyInResponse? && s.pending.value.gathered.Payload?
  {
    if IsBinary(m) then StreamOf(s.encode, s.pending.value.gathered.data) else [CopyFail(COPY_FORMAT_REASON)]
  }

  function WithCopy(s: Snapshot, pending: Pending, written: seq<FrontMessage>): Snapshot {
    s.(pending := Some(pending), wire := s.wire + Wholes(written), served := WithCopied(s.served, written))
  }

  lemma CopyFollows(s: Snapshot, before: seq<Message>, m: Message)
    requires s.JustRead(before, m) && s.faithful && s.Busy() && m.CopyInResponse? && s.pending.value.gathered.Payload?
    ensures WithCopy(s, AfterCopy(s, m), CopyWritten(s, m)).FollowsServer()
  {
    CutAppended(before, m, s.initialStatus);
    var InFlight(ticket, gathered, error) := s.pending.value;
    var op := s.served[|s.served| - 1].cmd.op;
    var next := WithCopy(s, AfterCopy(s, m), CopyWritten(s, m));
    CopyResponseGathers(s.encode, gathered, error, op, OpenSegment(before), m);
    CopyResponseAnswered(s.encode, gathered, error, op, OpenSegment(before), m);
    FulfilledGrows(s.encode, s.served, Segments(before), s.replies, next.served, s.replies);
  }

  lemma LostCopyKeepsOrder(s: Snapshot, m: Message)
    requires s.InOrder() && s.Busy() && m.CopyInResponse? && s.pending.value.gathered.Payload?
    ensures s.(pending := Some(LostCopy(s, m))).InOrder()
  {
    InHandStays(s.pending.value, LostCopy(s, m), s.served, s.served, |s.replies|);
  }

  lemma CopyKeepsOrder(s: Snapshot, m: Message)
    requires s.InOrder() && s.Busy() && m.CopyInResponse? && s.pending.value.gathered.Payload?
    ensures WithCopy(s, AfterCopy(s, m), CopyWritten(s, m)).InOrder()
  {
    TakenCopied(s.entered, s.served, |s.replies| + |Awaited(s.pending)|, CopyWritten(s, m));
    InHandStays(s.pending.value, AfterCopy(s, m), s.served, WithCopied(s.served, CopyWritten(s, m)), |s.replies|);
  }

  lemma CopyKeepsWire(s: Snapshot, m: Message)
    requires s.OnWire() && s.InOrder() && s.running
    requires s.Busy() && m.CopyInResponse? && s.pending.value.gathered.Payload?
    ensures WithCopy(s, AfterCopy(s, m), CopyWritten(s, m)).OnWire()
  {
    StreamIsCopy(s.encode, s.served[|s.served| - 1].cmd.op, s.pending.value.gathered.data);
    WrittenMore(s.served, s.wire, CopyWritten(s, m));
  }

  /** A COPY that is answered in time. */
  lemma CopyKeeps(s: Snapshot, before: seq<Message>, m: Message)
    requires s.JustRead(before, m) && s.Busy() && m.CopyInResponse? && s.pending.value.gathered.Payload?
    ensures WithCopy(s, AfterCopy(s, m), CopyWritten(s, m)).Valid()
  {
    CopyKeepsOrder(s, m);
    CopyKeepsWire(s, m);
    if s.faithful {
      CopyFollows(s, before, m);
    }
  }

  lemma CopyLost(s: Snapshot, before: seq<Message>, m: Message)
    requires s.JustRead(before, m) && s.Busy() && m.CopyInResponse? && s.pending.value.gathered.Payload?
    ensures s.(pending := Some(LostCopy(s, m))).Recorded()
  {
    LostCopyKeepsOrder(s, m);
    CutAppended(before, m, s.initialStatus);
  }

  /** A message just recorded reaches the command in flight, if there is one. `lost` is whether a
      write failed. */
  function Delivered(s: Snapshot, m: Message, lost: bool): Snapshot
  {
    if !s.Busy() then s
    else if m.CopyInResponse? && s.pending.value.gathered.Payload? then
      if lost then s.(pending := Some(LostCopy(s, m))) else WithCopy(s, AfterCopy(s, m), CopyWritten(s, m))
    else if m.ReadyForQuery? then WithReply(s)
    else WithGathered(s, m)
  }

  lemma DeliveryKeeps(s: Snapshot, before: seq<Message>, m: Message)
    requires s.JustRead(before, m)
    ensures Delivered(s, m, false).Valid()
  {
    if !s.Busy() {
      IgnoredKeeps(s, before, m);
    } else if m.CopyInResponse? && s.pending.value.gathered.Payload? {
      CopyKeeps(s, before, m);
    } else if m.ReadyForQuery? {
      ReplyKeeps(s, before, m);
    } else {
      GatheredKeeps(s, before, m);
    }
  }

  /** One message keeps the invariant; a failed write leaves a state that can end. */
  lemma ReadingKeeps(s: Snapshot, m: Message, lost: bool)
    requires s.Valid() && s.running
    ensures var next := Delivered(WithMessage(s, m, s.faithful && s.Expected(m)), m, lost);
      && next.running && s.replies <= next.replies
      && (next.Valid() || (lost && m.CopyInResponse? && next.Recorded()))
  {
    var t := WithMessage(s, m, s.faithful && s.Expected(m));
    MessageKeeps(s, m, t.faithful);
    if lost && t.Busy() && m.CopyInResponse? && t.pending.value.gathered.Payload? {
      CopyLost(t, s.stream, m);
    } else {
      DeliveryKeeps(t, s.stream, m);
    }
  }

  // ----- The end ------------------------------------------------------------------------------------------------

  /** `fail_pending`: the command in flight gets the error, and everything queued Closed. */
  function EndReplies(s: Snapshot, error: Error): seq<Reply> {
    s.replies + Interrupted(s.pending, error) + ClosedReplies(s.inbox)
  }

  function WithEnd(s: Snapshot, error: Error): Snapshot {
    s.(pending := None, inbox := [], inboxOpen := false, replies := EndReplies(s, error), running := false)
  }

  lemma ValidIsRecorded(s: Snapshot)
    requires s.Valid() && s.running
    ensures s.Recorded()
  {
  }

  lemma EndAnswers(s: Snapshot, error: Error)
    requires s.InOrder()
    ensures s.replies <= EndReplies(s, error) && Answered(EndReplies(s, error)) == TicketsOf(s.entered)
  {
    var first := s.replies + Interrupted(s.pending, error);
    assert Answered(first) == Answered(s.replies) + Awaited(s.pending);
    ClosedRepliesAnswer(first, s.inbox);
  }

  lemma EndKeeps(s: Snapshot, error: Error)
    requires s.Recorded()
    ensures WithEnd(s, error).Valid()
  {
    var next := WithEnd(s, error);
    EndAnswers(s, error);
    assert |Answered(next.replies)| == |TicketsOf(s.entered)|;
    assert |TicketsOf(s.entered)| == |s.replies| + |Awaited(s.pending)| + |s.inbox|;
    TakenMore(s.entered, s.served, |s.replies| + |Awaited(s.pending)|, s.entered, |next.replies|);
    assert next.inbox == s.entered[|s.entered|..];
    FollowsOn(s, next.replies);
  }

  function WithShutdown(s: Snapshot, writeOk: bool): Snapshot {
    s.(wire := WithFarewell(s.wire, writeOk), inboxOpen := false, running := false)
  }

  lemma ShutdownKeeps(s: Snapshot, writeOk: bool)
    requires s.Valid() && s.running && s.pending == None && s.inbox == []
    ensures WithShutdown(s, writeOk).Valid()
  {
    WrittenLast(s.served, s.wire);
  }

  /** What the invariant says of a driver at any time. */
  lemma ValidMeans(s: Snapshot)
    requires s.Valid()
    ensures Answered(s.replies) <= TicketsOf(s.entered)
    ensures !s.running ==> Answered(s.replies) == TicketsOf(s.entered)
    ensures Taken(s.entered, s.served, |s.replies| + |Awaited(s.pending)|)
    ensures Written(s.served, s.wire, !s.running || s.pending == Some(Closing))
    ensures Boundaries(MessagesIn(s.wire)) == |s.served|
    ensures s.faithful ==> Fulfilled(s.encode, s.served, Segments(s.stream), s.replies)
    ensures s.faithful && s.running ==>
              Boundaries(MessagesIn(s.wire)) - |Segments(s.stream)| == if s.Busy() then 1 else 0
  {
    SentBoundaries(s.served, s.wire, !s.running || s.pending == Some(Closing));
  }
}

/**
 What callers are told: success is told of completed commands alone, and the end of a run tells
 everyone who was still waiting.
 */
module DriverReplies {
  import opened Base
  import opened DriverProtocol
  import opened Driver
  import opened DriverHistory
  import opened DriverInvariant
  import opened DriverRuns

  // ----- Success is earned ------------------------------------------------------------------------------

  /** The i-th command to enter is the k-th that was written, and k + 1 segments are complete. */
  ghost predicate Completed(served: seq<Service>, segments: nat, i: nat) {
    exists k :: 0 <= k < |served| && served[k].place == i && k < segments
  }

  ghost predicate EarnedAt(s: Snapshot, i: nat)
    requires i < |s.replies| && i < |s.entered|
  {
    s.replies[i].outcome.Ok? ==>
      Completed(s.served, |Segments(s.stream)|, i) || (s.entered[i].op.Close? && Whole(Terminate) in s.wire)
  }

  /** Every success but that of a Close which was sent belongs to a completed segment. */
  ghost predicate Earned(s: Snapshot) {
    && |s.replies| <= |s.entered|
    && forall i :: 0 <= i < |s.replies| ==> EarnedAt(s, i)
  }

  /** Every command written has its segment, but for the one in flight. */
  ghost predicate Accounted(s: Snapshot) {
    && (s.running ==> |s.served| <= |Segments(s.stream)| + if s.Busy() then 1 else 0)
    && Earned(s)
  }

  lemma CompletedGrows(served: seq<Service>, segments: nat, more: seq<Service>, further: nat, i: nat)
    requires Completed(served, segments, i) && segments <= further && |served| <= |more|
    requires forall k :: 0 <= k < |served| ==> more[k].place == served[k].place
    ensures Completed(more, further, i)
  {
    var k :| 0 <= k < |served| && served[k].place == i && k < segments;
    assert more[k].place == i;
  }

  /** What was earned stays so while the history grows. */
  ghost predicate Grows(s: Snapshot, t: Snapshot) {
    && s.entered <= t.entered && s.wire <= t.wire && s.replies <= t.replies && |t.replies| <= |t.entered|
    && |Segments(s.stream)| <= |Segments(t.stream)| && |s.served| <= |t.served|
    && forall k :: 0 <= k < |s.served| ==> t.served[k].place == s.served[k].place
  }

  lemma EarnedGrows(s: Snapshot, t: Snapshot)
    requires Earned(s) && Grows(s, t)
    requires forall i :: |s.replies| <= i < |t.replies| ==> EarnedAt(t, i)
    ensures Earned(t)
  {
    forall i | 0 <= i < |t.replies|
      ensures EarnedAt(t, i)
    {
      if i < |s.replies| {
        assert EarnedAt(s, i) && t.replies[i] == s.replies[i] && t.entered[i] == s.entered[i];
        if Completed(s.served, |Segments(s.stream)|, i) {
          CompletedGrows(s.served, |Segments(s.stream)|, t.served, |Segments(t.stream)|, i);
        }
      }
    }
  }

  lemma EnteredEarns(s: Snapshot, cmd: Command)
    requires Accounted(s)
    ensures Accounted(WithEntered(s, cmd))
  {
    EarnedGrows(s, WithEntered(s, cmd));
  }

  lemma RefusalEarns(s: Snapshot, ticket: nat, e: Error)
    requires Accounted(s) && |s.replies| < |s.entered|
    ensures Accounted(WithRefusal(s, ticket, e))
  {
    EarnedGrows(s, WithRefusal(s, ticket, e));
  }

  lemma ServiceEarns(s: Snapshot, cmd: Command)
    requires Accounted(s) && s.pending == None && !cmd.op.Close?
    ensures Accounted(WithService(s, cmd))
  {
    EarnedGrows(s, WithService(s, cmd));
  }

  lemma StartEarns(s: Snapshot, cmd: Command, writeOk: bool)
    requires Accounted(s) && s.IsNext(cmd) && !cmd.op.Close?
    ensures Accounted(WithStart(s, cmd, writeOk))
  {
    var fault := BuildFault(s.encode, MessagesOf(cmd.op));
    if fault.Some? {
      RefusalEarns(s, cmd.ticket, fault.value);
    } else if writeOk {
      ServiceEarns(s, cmd);
    } else {
      RefusalEarns(s, cmd.ticket, CloneForCaller(Io));
    }
  }

  /** From here on everyone is told of the end, the first of them `first`. */
  ghost predicate Told(replies: seq<Reply>, entered: seq<Command>, n: nat, first: Result<Outcome, Error>) {
    && n <= |replies| == |entered|
    && forall i :: n <= i < |entered| ==>
         replies[i] == Reply(entered[i].ticket, if i == n then first else Err(Closed))
  }

  lemma TicketsAre(entered: seq<Command>, replies: seq<Reply>, rest: seq<nat>, i: nat)
    requires TicketsOf(entered) == Answered(replies) + rest && |replies| <= i < |entered|
    ensures entered[i].ticket == rest[i - |replies|]
  {
    assert TicketsOf(entered)[i] == entered[i].ticket;
  }

  /** Close is told whether it was sent, and everyone behind it that the connection is closed. */
  lemma CloseTells(s: Snapshot, cmd: Command, writeOk: bool, shutdownOk: bool)
    requires s.IsNext(cmd)
    ensures var t := WithClose(s, cmd.ticket, writeOk, shutdownOk);
      && s.replies <= t.replies
      && Told(t.replies, s.entered, |s.replies|, if writeOk && shutdownOk then Ok(Done) else Err(Io))
      && t.wire == s.wire + if writeOk then [Whole(Terminate)] else []
  {
    var t := WithClose(s, cmd.ticket, writeOk, shutdownOk);
    var n := |s.replies|;
    assert |TicketsOf(s.entered)| == n + 1 + |s.inbox|;
    forall i | n <= i < |s.entered|
      ensures t.replies[i].ticket == s.entered[i].ticket
    {
      TicketsAre(s.entered, s.replies, [cmd.ticket] + TicketsOf(s.inbox), i) by {
        assert Answered(s.replies) + [cmd.ticket] + TicketsOf(s.inbox)
            == Answered(s.replies) + ([cmd.ticket] + TicketsOf(s.inbox));
      }
    }
  }

  lemma CloseEarns(s: Snapshot, cmd: Command, writeOk: bool, shutdownOk: bool)
    requires Accounted(s) && s.IsNext(cmd) && cmd.op.Close?
    ensures Accounted(WithClose(s, cmd.ticket, writeOk, shutdownOk))
  {
    var t := WithClose(s, cmd.ticket, writeOk, shutdownOk);
    CloseTells(s, cmd, writeOk, shutdownOk);
    if writeOk {
      assert t.wire[|s.wire|] == Whole(Terminate);
    }
    EarnedGrows(s, t);
  }

  // ----- Messages -----------------------------------------------------------------------------------------

  lemma MessageEarns(s: Snapshot, m: Message, faithful: bool)
    requires Accounted(s)
    ensures Accounted(WithMessage(s, m, faithful))
    ensures s.running && m.ReadyForQuery? && s.Busy() ==>
              |s.served| <= |Segments(WithMessage(s, m, faithful).stream)|
  {
    CutAppended(s.stream, m, s.initialStatus);
    EarnedGrows(s, WithMessage(s, m, faithful));
  }

  lemma ReplyEarns(s: Snapshot)
    requires Earned(s) && s.InOrder() && s.Busy() && |s.served| <= |Segments(s.stream)|
    ensures Accounted(WithReply(s))
  {
    var t := WithReply(s);
    assert |TicketsOf(s.entered)| == |s.replies| + 1 + |s.inbox|;
    assert s.served[|s.served| - 1].place == |s.replies|;
    assert Completed(t.served, |Segments(t.stream)|, |s.replies|);
    EarnedGrows(s, t);
  }

  lemma CopyEarns(s: Snapshot, pending: Pending, written: seq<FrontMessage>)
    requires Accounted(s) && s.Busy() && pending.InFlight?
    ensures Accounted(WithCopy(s, pending, written)) && Accounted(s.(pending := Some(pending)))
  {
    EarnedGrows(s, WithCopy(s, pending, written));
    EarnedGrows(s, s.(pending := Some(pending)));
  }

  lemma GatheringEarns(s: Snapshot, m: Message)
    requires Accounted(s) && s.Busy()
    ensures Accounted(WithGathered(s, m))
  {
    EarnedGrows(s, WithGathered(s, m));
  }

  lemma DeliveryEarns(s: Snapshot, m: Message, lost: bool)
    requires Accounted(s) && s.InOrder() && (m.ReadyForQuery? && s.Busy() ==> |s.served| <= |Segments(s.stream)|)
    ensures Accounted(Delivered(s, m, lost))
  {
    if s.Busy() {
      if m.CopyInResponse? && s.pending.value.gathered.Payload? {
        CopyEarns(s, if lost then LostCopy(s, m) else AfterCopy(s, m), CopyWritten(s, m));
      } else if m.ReadyForQuery? {
        ReplyEarns(s);
      } else {
        GatheringEarns(s, m);
      }
    }
  }

  // ----- The end ------------------------------------------------------------------------------------------

  /** The end tells the command in flight the error, and everyone else that the connection is closed. */
  lemma EndTells(s: Snapshot, error: Error)
    requires s.InOrder()
    ensures var t := WithEnd(s, error);
      s.replies <= t.replies && Told(t.replies, s.entered, |s.replies|, Err(if s.Busy() then error else Closed))
  {
    var t := WithEnd(s, error);
    var rest := Awaited(s.pending) + TicketsOf(s.inbox);
    assert Answered(s.replies) + Awaited(s.pending) + TicketsOf(s.inbox) == Answered(s.replies) + rest;
    assert |TicketsOf(s.entered)| == |s.replies| + |rest|;
    forall i | |s.replies| <= i < |s.entered|
      ensures t.replies[i].ticket == s.entered[i].ticket
    {
      TicketsAre(s.entered, s.replies, rest, i);
    }
  }

  lemma EndEarns(s: Snapshot, error: Error)
    requires Accounted(s) && s.InOrder()
    ensures Accounted(WithEnd(s, error))
  {
    EndTells(s, error);
    EarnedGrows(s, WithEnd(s, error));
  }

  // ----- Turns and runs -----------------------------------------------------------------------------------

  /** The state in which the answer to CopyInResponse was lost. */
  function Losing(s: Snapshot, m: Message, faithful: bool): Snapshot
    requires s.Busy() && m.CopyInResponse? && s.pending.value.gathered.Payload?
  {
    var read := WithMessage(s, m, faithful);
    read.(pending := Some(LostCopy(read, m)))
  }

  lemma LosingEnds(s: Snapshot, m: Message, writeOk: bool)
    requires s.running && LossOf(s, m, writeOk).Some?
    ensures s.Busy() && m.CopyInResponse? && s.pending.value.gathered.Payload?
    ensures var faithful := s.faithful && s.Expected(m);
      Next(s, Receive(m, writeOk)) == WithEnd(Losing(s, m, faithful), LossOf(s, m, writeOk).value)
  {
  }

  lemma LosingKeeps(s: Snapshot, m: Message, faithful: bool)
    requires s.Valid() && s.running && s.Busy() && m.CopyInResponse? && s.pending.value.gathered.Payload?
    ensures var t := Losing(s, m, faithful);
      t.InOrder() && t.Busy() && t.replies == s.replies && t.entered == s.entered
  {
    MessageSettles(s, m, faithful);
    LostCopyKeepsOrder(WithMessage(s, m, faithful), m);
  }

  /** When the answer to CopyInResponse is lost, its caller is told how, and everyone else that the
      connection is closed. */
  lemma LossTells(s: Snapshot, m: Message, writeOk: bool)
    requires s.Valid() && s.running && LossOf(s, m, writeOk).Some?
    ensures var t := Next(s, Receive(m, writeOk));
      && !t.running && s.Busy() && s.replies <= t.replies
      && Told(t.replies, s.entered, |s.replies|, Err(LossOf(s, m, writeOk).value))
  {
    var faithful := s.faithful && s.Expected(m);
    LosingEnds(s, m, writeOk);
    LosingKeeps(s, m, faithful);
    EndTells(Losing(s, m, faithful), LossOf(s, m, writeOk).value);
  }

  lemma ReceivedEarns(s: Snapshot, m: Message, writeOk: bool)
    requires s.Valid() && s.running && Accounted(s)
    ensures Accounted(WithReceived(s, m, writeOk))
  {
    var read := WithMessage(s, m, s.faithful && s.Expected(m));
    var loss := LossOf(s, m, writeOk);
    MessageEarns(s, m, read.faithful);
    MessageSettles(s, m, read.faithful);
    DeliveryEarns(read, m, loss.Some?);
    if loss.Some? {
      LosingKeeps(s, m, read.faithful);
      EndEarns(Losing(s, m, read.faithful), loss.value);
    }
  }

  lemma NextCommandEarns(s: Snapshot, writeOk: bool, shutdownOk: bool)
    requires s.Valid() && s.running && Accounted(s)
    ensures Accounted(WithNext(s, writeOk, shutdownOk))
  {
    if s.pending.None? && s.inbox != [] {
      HeadIsNext(s);
      EarnedGrows(s, WithoutHead(s));
      if s.inbox[0].op.Close? {
        CloseEarns(WithoutHead(s), s.inbox[0], writeOk, shutdownOk);
      } else {
        StartEarns(WithoutHead(s), s.inbox[0], writeOk);
      }
    }
  }

  lemma TurnEarns(s: Snapshot, e: Event)
    requires s.Valid() && Accounted(s)
    ensures Accounted(Next(s, e))
  {
    if s.running {
      match e {
        case Enqueue(cmd) => EnteredEarns(s, cmd);
        case Receive(m, writeOk) => ReceivedEarns(s, m, writeOk);
        case Accept(writeOk, shutdownOk) => NextCommandEarns(s, writeOk, shutdownOk);
        case EndOfStream => EndEarns(s, Closed);
        case DecodeError(error) => EndEarns(s, error);
        case SendersDropped(writeOk) => EarnedGrows(s, WithShutdown(s, writeOk));
      }
    }
  }

  lemma {:induction false} RunEarns(s: Snapshot, events: seq<Event>)
    requires s.Valid() && Accounted(s)
    ensures Accounted(RunOf(s, events))
  {
    if events != [] {
      var front := events[..|events| - 1];
      RunKeeps(s, front);
      RunEarns(s, front);
      TurnEarns(RunOf(s, front), events[|events| - 1]);
    }
  }

  /** In every run, whoever is told of success has sent a Close that went out, or a command that was
      written and whose segment of messages is complete. */
  lemma SuccessIsEarned(encode: Encoder, status: byte, events: seq<Event>, i: nat)
    requires i < |RunOf(Fresh(encode, status), events).replies|
    ensures var s := RunOf(Fresh(encode, status), events);
      && i < |s.entered|
      && (s.replies[i].outcome.Ok? ==>
            Completed(s.served, |Segments(s.stream)|, i) || (s.entered[i].op.Close? && Whole(Terminate) in s.wire))
  {
    var start := Fresh(encode, status);
    FreshIsValid(encode, status);
    RunEarns(start, events);
    assert EarnedAt(RunOf(start, events), i);
  }

  /** The command in flight when the stream ends is told so, or gets the decode error, and everyone who
      was queued is told that the connection is closed; and so it stays. */
  lemma EndIsTold(encode: Encoder, status: byte, before: seq<Event>, e: Event, after: seq<Event>)
    requires RunOf(Fresh(encode, status), before).running && Ends(e)
    ensures var s := RunOf(Fresh(encode, status), before);
      var t := RunOf(Fresh(encode, status), before + [e] + after);
      && s.replies <= t.replies
      && Told(t.replies, s.entered, |s.replies|, Err(if s.Busy() && e.DecodeError? then e.error else Closed))
      && (s.Busy() ==> s.served != [] && s.served[|s.served| - 1].place == |s.replies|)
  {
    var start := Fresh(encode, status);
    var s := RunOf(start, before);
    FreshIsValid(encode, status);
    RunKeeps(start, before);
    EndTells(s, if e.DecodeError? then e.error else Closed);
    RunStep(start, before, e);
    RunAppend(start, before + [e], after);
    StoppedStays(Next(s, e), after);
  }

  /** A command that cannot be encoded is told the first fault of its messages, and nothing of it is sent. */
  lemma FaultIsTold(s: Snapshot, cmd: Command, inbox: seq<Command>, k: nat, writeOk: bool, shutdownOk: bool)
    requires s.running && s.pending == None && s.inbox == [cmd] + inbox && !cmd.op.Close?
    requires var ms := MessagesOf(cmd.op);
      k < |ms| && s.encode(ms[k]).Some? && forall i :: 0 <= i < k ==> s.encode(ms[i]).None?
    ensures Next(s, Accept(writeOk, shutdownOk))
         == s.(inbox := inbox, replies := s.replies + [Reply(cmd.ticket, Err(s.encode(MessagesOf(cmd.op)[k]).value))])
  {
    FirstFault(s.encode, MessagesOf(cmd.op), k);
    assert s.inbox[1..] == inbox;
  }

  lemma {:induction false} FirstFault(encode: Encoder, ms: seq<FrontMessage>, k: nat)
    requires k < |ms| && encode(ms[k]).Some? && forall i :: 0 <= i < k ==> encode(ms[i]).None?
    ensures BuildFault(encode, ms) == encode(ms[k])
    decreases k
  {
    if k > 0 {
      assert forall i :: 0 <= i < k - 1 ==> ms[1..][i] == ms[i + 1];
      FirstFault(encode, ms[1..], k - 1);
    }
  }

  /** A command that can be encoded is written whole and awaited, or its caller is told that the
      connection is closed. */
  lemma WritingIsTold(s: Snapshot, cmd: Command, inbox: seq<Command>, writeOk: bool, shutdownOk: bool)
    requires s.running && s.pending == None && s.inbox == [cmd] + inbox && !cmd.op.Close?
    requires forall i :: 0 <= i < |MessagesOf(cmd.op)| ==> s.encode(MessagesOf(cmd.op)[i]).None?
    ensures var t := Next(s, Accept(writeOk, shutdownOk));
      && t.inbox == inbox
      && (writeOk ==> t.Busy() && t.replies == s.replies && t.wire == s.wire + Wholes(MessagesOf(cmd.op)))
      && (!writeOk ==>
            t.pending == None && t.replies == s.replies + [Reply(cmd.ticket, Err(Closed))] && t.wire == s.wire)
  {
    assert s.inbox[1..] == inbox;
  }

  /** What is lost with an answer to CopyInResponse, when CopyFail itself can be encoded. */
  lemma LossIsIo(s: Snapshot, m: Message, writeOk: bool)
    requires s.Busy() && m.CopyInResponse? && s.pending.value.gathered.Payload? && CopyFailsEncode(s.encode)
    ensures LossOf(s, m, writeOk) == if writeOk then None else Some(Io)
  {
  }

  /** When the last sender is gone an idle driver says goodbye and stops. */
  lemma GoodbyeIsSaid(s: Snapshot, writeOk: bool)
    requires s.running && s.pending == None && s.inbox == []
    ensures var t := Next(s, SendersDropped(writeOk));
      !t.running && t.replies == s.replies && t.wire == s.wire + if writeOk then [Whole(Terminate)] else []
  {
    assert s.wire + [] == s.wire;
  }
}

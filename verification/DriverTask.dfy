/**
 The driver's run loop as a class over its mutable state. Each method does to the snapshot of that state
 what the functions of `DriverInvariant` and `DriverRuns` say, and so do whole runs.
 */
module DriverTask {
  import opened Base
  import opened DriverProtocol
  import opened Driver
  import opened DriverHistory
  import opened DriverInvariant
  import opened DriverRuns

  class DriverTask {
    const encode: Encoder
    var pending: Option<Pending>
    var inbox: seq<Command>
    var inboxOpen: bool
    var writeBuf: seq<Piece>
    var wire: seq<Piece>
    var status: byte
    var running: bool
    var replies: seq<Reply>

    // History: see `Snapshot`.
    ghost const initialStatus: byte
    ghost var entered: seq<Command>
    ghost var stream: seq<Message>
    ghost var served: seq<Service>
    ghost var faithful: bool
    ghost var doomed: bool

    constructor (encode: Encoder, status: byte)
      ensures Now() == Fresh(encode, status)
    {
      this.encode := encode;
      this.pending, this.inbox, this.inboxOpen := None, [], true;
      this.writeBuf, this.wire, this.status, this.running, this.replies := [], [], status, true, [];
      this.initialStatus := status;
      this.entered, this.stream, this.served, this.faithful, this.doomed := [], [], [], true, false;
    }

    ghost function Now(): Snapshot
      reads this
    {
      Snapshot(encode, pending, inbox, inboxOpen, wire, status, running, replies,
               initialStatus, entered, stream, served, faithful, doomed)
    }

    // ----- Writing --------------------------------------------------------------------------------

    /** Clears the buffer and encodes `ms` until one fails. */
    method Build(ms: seq<FrontMessage>) returns (fault: Option<Error>)
      modifies this`writeBuf
      ensures fault == BuildFault(encode, ms) && (fault.None? ==> writeBuf == Wholes(ms))
    {
      writeBuf := [];
      for i := 0 to |ms|
        invariant writeBuf == Wholes(ms[..i])
        invariant BuildFault(encode, ms) == BuildFault(encode, ms[i..])
      {
        assert ms[i..][1..] == ms[i + 1..];
        fault := encode(ms[i]);
        if fault.Some? {
          writeBuf := writeBuf + [Torn(ms[i])];
          return;
        }
        writeBuf := writeBuf + [Whole(ms[i])];
      }
      assert ms[..|ms|] == ms;
      fault := None;
    }

    method Flush(writeOk: bool) returns (ok: bool)
      modifies this`wire, this`writeBuf
      ensures ok == writeOk
      ensures wire == if ok then old(wire) + old(writeBuf) else old(wire)
    {
      if writeOk {
        wire := wire + writeBuf;
        writeBuf := [];
      }
      ok := writeOk;
    }

    method SayGoodbye(writeOk: bool) returns (ok: bool)
      modifies this`wire, this`writeBuf
      ensures ok == writeOk && wire == WithFarewell(old(wire), writeOk)
    {
      writeBuf := [Whole(Terminate)];
      ok := Flush(writeOk);
    }

    method Send(ticket: nat, outcome: Result<Outcome, Error>)
      modifies this`replies
      ensures replies == old(replies) + [Reply(ticket, outcome)]
    {
      replies := replies + [Reply(ticket, outcome)];
    }

    // ----- Taking up a command ------------------------------------------------------------------

    /** Answers everything still queued with Closed, in order, and takes nothing more. */
    method Drain()
      modifies this`inbox, this`inboxOpen, this`replies
      ensures inbox == [] && !inboxOpen && replies == old(replies) + ClosedReplies(old(inbox))
    {
      inboxOpen := false;
      while inbox != []
        invariant !inboxOpen && replies + ClosedReplies(inbox) == old(replies) + ClosedReplies(old(inbox))
        decreases |inbox|
      {
        assert ClosedReplies(inbox) == [Reply(inbox[0].ticket, Err(Closed))] + ClosedReplies(inbox[1..]);
        Send(inbox[0].ticket, Err(Closed));
        inbox := inbox[1..];
      }
      assert ClosedReplies(inbox) == [];
    }

    /** `start`: a command that cannot be encoded or written is answered at once; any other is
        written whole and becomes the one in flight. */
    method Start(cmd: Command, writeOk: bool)
      requires !cmd.op.Close?
      modifies this
      ensures Now() == WithStart(old(Now()), cmd, writeOk)
    {
      var fault := Build(MessagesOf(cmd.op));
      if fault.None? {
        var flushed := Flush(writeOk);
        if flushed {
          pending := Some(InitialPending(cmd));
          served := served + [Service(cmd, |replies|, [])];
          return;
        }
        fault := Some(CloneForCaller(Io));
      }
      Send(cmd.ticket, Err(fault.value));
    }

    /** Close answers its caller, then everything queued behind it; the socket is read until it ends. */
    method StartClose(ticket: nat, writeOk: bool, shutdownOk: bool)
      modifies this
      ensures Now() == WithClose(old(Now()), ticket, writeOk, shutdownOk)
    {
      var flushed := SayGoodbye(writeOk);
      Send(ticket, if flushed && shutdownOk then Ok(Done) else Err(Io));
      Drain();
      pending := Some(Closing);
    }

    // ----- Reading a message ------------------------------------------------------------------------

    method WriteCopyFail(reason: string, writeOk: bool) returns (fault: Option<Error>)
      modifies this`writeBuf, this`wire
      ensures fault == CopyFailLoss(encode, reason, writeOk)
      ensures wire == if fault.None? then old(wire) + Wholes([CopyFail(reason)]) else old(wire)
    {
      fault := Build([CopyFail(reason)]);
      assert BuildFault(encode, [CopyFail(reason)][1..]) == None;
      if fault.None? {
        var ok := Flush(writeOk);
        fault := if ok then None else Some(Io);
      }
    }

    /** Sends every chunk and CopyDone, or, when a chunk cannot be encoded, only CopyFail. */
    method WriteCopyStream(data: seq<bytes>, writeOk: bool) returns (r: Result<Option<Error>, Error>)
      modifies this`writeBuf, this`wire
      ensures r.Ok? ==> r.value == CopyFault(encode, data) && wire == old(wire) + Wholes(StreamOf(encode, data))
      ensures r.Err? ==> wire == old(wire)
      ensures CopyLoss(encode, true, data, writeOk) == if r.Err? then Some(r.error) else None
    {
      writeBuf := [];
      for i := 0 to |data|
        invariant wire == old(wire)
        invariant writeBuf == Wholes(CopyMessages(data)[..i])
        invariant CopyFault(encode, data) == CopyFault(encode, data[i..])
      {
        assert data[i..][1..] == data[i + 1..];
        var fault := encode(CopyData(data[i]));
        if fault.Some? {
          writeBuf := writeBuf + [Torn(CopyData(data[i]))];
          var failed := WriteCopyFail(COPY_ENCODE_REASON, writeOk);
          return if failed.Some? then Err(failed.value) else Ok(fault);
        }
        writeBuf := writeBuf + [Whole(CopyData(data[i]))];
      }
      writeBuf := writeBuf + [Whole(CopyDone)];
      assert writeBuf == Wholes(CopyMessages(data));
      var ok := Flush(writeOk);
      return if ok then Ok(None) else Err(Io);
    }

    /** Records `m`, and its transaction status. */
    method Read(m: Message)
      modifies this`stream, this`faithful, this`doomed, this`status
      ensures Now() == WithMessage(old(Now()), m, old(faithful && Now().Expected(m)))
    {
      faithful := faithful && Now().Expected(m);
      doomed := doomed || (m.ErrorResponse? && |Segments(stream)| >= |served|);
      stream := stream + [m];
      if m.ReadyForQuery? {
        status := m.status;
      }
    }

    /** `on_message`; an error it returns ends the run. */
    method OnMessage(m: Message, writeOk: bool) returns (fault: Option<Error>)
      modifies this
      ensures fault == LossOf(old(Now()), m, writeOk)
      ensures Now() == Delivered(WithMessage(old(Now()), m, old(faithful && Now().Expected(m))), m, fault.Some?)
    {
      Read(m);
      fault := None;
      if pending.None? || pending.value.Closing? {
      } else if m.CopyInResponse? && pending.value.gathered.Payload? {
        fault := OnCopyResponse(m, writeOk);
      } else if m.ReadyForQuery? {
        Complete(m);
      } else {
        Gather(m);
      }
    }

    /** The answer to CopyInResponse; a chunk that cannot be encoded becomes the command's error. */
    method OnCopyResponse(m: Message, writeOk: bool) returns (fault: Option<Error>)
      requires Now().Busy() && m.CopyInResponse? && pending.value.gathered.Payload?
      modifies this`pending, this`writeBuf, this`wire, this`served
      ensures fault == LossOf(old(Now()), m, writeOk)
      ensures fault.None? ==>
                && pending == Some(AfterCopy(old(Now()), m))
                && served == WithCopied(old(served), CopyWritten(old(Now()), m))
                && wire == old(wire) + Wholes(CopyWritten(old(Now()), m))
      ensures fault.Some? ==> pending == Some(LostCopy(old(Now()), m)) && wire == old(wire) && served == old(served)
    {
      ghost var written := CopyWritten(Now(), m);
      var InFlight(ticket, gathered, error) := pending.value;
      if !IsBinary(m) {
        pending := Some(InFlight(ticket, gathered, Or(error, Protocol("COPY FROM STDIN requires binary format"))));
        fault := WriteCopyFail(COPY_FORMAT_REASON, writeOk);
      } else {
        fault := StreamCopy(ticket, gathered, error, writeOk);
      }
      if fault.None? {
        served := WithCopied(served, written);
      }
    }

    /** The payload leaves the pending command and is streamed. */
    method StreamCopy(ticket: nat, gathered: Gathered, error: Option<Error>, writeOk: bool)
      returns (fault: Option<Error>)
      requires gathered.Payload?
      modifies this`pending, this`writeBuf, this`wire
      ensures fault == CopyLoss(encode, true, gathered.data, writeOk)
      ensures fault.None? ==>
        var f := CopyFault(encode, gathered.data);
        && pending == Some(InFlight(ticket, gathered.(data := []), if f.Some? then Or(error, f.value) else error))
        && wire == old(wire) + Wholes(StreamOf(encode, gathered.data))
      ensures fault.Some? ==> pending == Some(InFlight(ticket, gathered.(data := []), error)) && wire == old(wire)
    {
      pending := Some(InFlight(ticket, gathered.(data := []), error));
      var streamed := WriteCopyStream(gathered.data, writeOk);
      if streamed.Err? {
        return Some(streamed.error);
      }
      if streamed.value.Some? {
        pending := Some(InFlight(ticket, gathered.(data := []), Or(error, streamed.value.value)));
      }
      fault := None;
    }

    /** ReadyForQuery answers the command in flight. */
    method Complete(m: Message)
      requires Now().Busy() && m.ReadyForQuery?
      modifies this`pending, this`replies
      ensures Now() == WithReply(old(Now()))
    {
      var InFlight(ticket, gathered, error) := pending.value;
      pending := None;
      Send(ticket, Conclude(gathered, error));
    }

    method Gather(m: Message)
      requires Now().Busy() && !m.ReadyForQuery?
      modifies this`pending
      ensures Now() == WithGathered(old(Now()), m)
    {
      var InFlight(ticket, gathered, error) := pending.value;
      pending := Some(InFlight(ticket, Absorb(gathered, m), AbsorbError(gathered, error, m)));
    }

    // ----- Ending ----------------------------------------------------------------------------------

    /** Answers the command in flight with `error` and everything queued with Closed. */
    method FailPending(error: Error)
      modifies this`pending, this`inbox, this`inboxOpen, this`replies
      ensures pending == None && inbox == [] && !inboxOpen && replies == EndReplies(old(Now()), error)
    {
      if pending.Some? && pending.value.InFlight? {
        Send(pending.value.ticket, Err(error));
      }
      pending := None;
      Drain();
    }

    method End(error: Error)
      modifies this`pending, this`inbox, this`inboxOpen, this`replies, this`running
      ensures Now() == WithEnd(old(Now()), error)
    {
      FailPending(error);
      running := false;
    }

    /** `shutdown`: every sender is gone, and nothing is in flight. */
    method Shutdown(writeOk: bool)
      modifies this`writeBuf, this`wire, this`inboxOpen, this`running
      ensures Now() == WithShutdown(old(Now()), writeOk)
    {
      var _ := SayGoodbye(writeOk);
      inboxOpen := false;
      running := false;
    }

    // ----- The loop -----------------------------------------------------------------------------------

    /** A send on a closed channel fails at the sender. */
    method Enter(cmd: Command)
      modifies this`inbox, this`entered
      ensures Now() == if inboxOpen then WithEntered(old(Now()), cmd) else old(Now())
    {
      if inboxOpen {
        inbox := inbox + [cmd];
        entered := entered + [cmd];
      }
    }

    /** The inbox is read only while no command is in flight. */
    method TakeNext(writeOk: bool, shutdownOk: bool)
      modifies this
      ensures Now() == WithNext(old(Now()), writeOk, shutdownOk)
    {
      if pending.None? && inbox != [] {
        var cmd := inbox[0];
        inbox := inbox[1..];
        if cmd.op.Close? {
          StartClose(cmd.ticket, writeOk, shutdownOk);
        } else {
          Start(cmd, writeOk);
        }
      }
    }

    /** One turn of the select loop. */
    method Handle(e: Event)
      requires running
      modifies this
      ensures Now() == Next(old(Now()), e)
    {
      match e {
        case Enqueue(cmd) =>
          Enter(cmd);
        case Receive(m, writeOk) =>
          var fault := OnMessage(m, writeOk);
          if fault.Some? {
            End(fault.value);
          }
        case Accept(writeOk, shutdownOk) =>
          TakeNext(writeOk, shutdownOk);
        case EndOfStream =>
          End(Closed);
        case DecodeError(error) =>
          End(error);
        case SendersDropped(writeOk) =>
          if pending.None? && inbox == [] {
            Shutdown(writeOk);
          }
      }
    }

    /** `run`: the select loop, until an event ends it. What holds of it is in `RunsAreCorrect`. */
    method Run(events: seq<Event>)
      modifies this
      ensures Now() == RunOf(old(Now()), events)
    {
      for i := 0 to |events|
        invariant Now() == RunOf(old(Now()), events[..i])
      {
        if !running {
          RunAppend(old(Now()), events[..i], events[i..]);
          StoppedStays(Now(), events[i..]);
          assert events[..i] + events[i..] == events;
          return;
        }
        RunStep(old(Now()), events[..i], events[i]);
        assert events[..i + 1] == events[..i] + [events[i]];
        Handle(events[i]);
      }
      assert events[..|events|] == events;
    }
  }
}

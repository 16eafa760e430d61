/**
 The history of a driver run and what it has to do with the wire: which commands were written, in
 which place they entered, and what was written for them.
 */
module DriverHistory {
  import opened Base
  import opened DriverProtocol
  import opened Driver

  /** What is in the write buffer: an encoded message, or the remains of one that failed to encode. */
  datatype Piece = Whole(message: FrontMessage) | Torn(message: FrontMessage)

  datatype Reply = Reply(ticket: nat, outcome: Result<Outcome, Error>)

  function Wholes(ms: seq<FrontMessage>): seq<Piece> {
    seq(|ms|, i requires 0 <= i < |ms| => Whole(ms[i]))
  }

  function MessagesIn(pieces: seq<Piece>): seq<FrontMessage> {
    seq(|pieces|, i requires 0 <= i < |pieces| => pieces[i].message)
  }

  function TicketsOf(commands: seq<Command>): seq<nat> {
    seq(|commands|, i requires 0 <= i < |commands| => commands[i].ticket)
  }

  function Answered(replies: seq<Reply>): seq<nat> {
    seq(|replies|, i requires 0 <= i < |replies| => replies[i].ticket)
  }

  /** What is sent to the commands that were still queued at the end. */
  function ClosedReplies(inbox: seq<Command>): seq<Reply> {
    seq(|inbox|, i requires 0 <= i < |inbox| => Reply(inbox[i].ticket, Err(Closed)))
  }

  lemma ClosedRepliesAnswer(replies: seq<Reply>, inbox: seq<Command>)
    ensures Answered(replies + ClosedReplies(inbox)) == Answered(replies) + TicketsOf(inbox)
  {
  }

  /** What is sent to the command that was in flight at the end. */
  function Interrupted(pending: Option<Pending>, error: Error): seq<Reply> {
    if pending.Some? && pending.value.InFlight? then [Reply(pending.value.ticket, Err(error))] else []
  }

  function Awaited(pending: Option<Pending>): seq<nat> {
    if pending.Some? && pending.value.InFlight? then [pending.value.ticket] else []
  }

  // ----- The commands written -----------------------------------------------------------------------

  /** A command whose messages were written, its place among those that entered, and what was written
      in answer to CopyInResponse. */
  datatype Service = Service(cmd: Command, place: nat, copied: seq<FrontMessage>)

  /** The commands written are among the first `limit` that entered, in order. */
  ghost predicate Taken(entered: seq<Command>, served: seq<Service>, limit: nat) {
    && limit <= |entered|
    && (forall k :: 0 <= k < |served| ==> served[k].place < limit && entered[served[k].place] == served[k].cmd)
    && (forall j, k :: 0 <= j < k < |served| ==> served[j].place < served[k].place)
  }

  lemma TakenMore(entered: seq<Command>, served: seq<Service>, limit: nat, more: seq<Command>, further: nat)
    requires Taken(entered, served, limit) && entered <= more && limit <= further <= |more|
    ensures Taken(more, served, further)
  {
  }

  lemma TakenOne(entered: seq<Command>, served: seq<Service>, limit: nat, copied: seq<FrontMessage>)
    requires Taken(entered, served, limit) && limit < |entered|
    ensures Taken(entered, served + [Service(entered[limit], limit, copied)], limit + 1)
  {
  }

  /** The command in flight is the last one written and the first one not answered. */
  ghost predicate InHand(pending: Option<Pending>, served: seq<Service>, place: nat) {
    pending.Some? && pending.value.InFlight? ==>
      && served != []
      && var last := served[|served| - 1];
      && last.place == place && last.cmd.ticket == pending.value.ticket
      && (pending.value.gathered.Payload? <==> last.cmd.op.CopyIn?)
      && (last.cmd.op.CopyIn? ==> pending.value.gathered.data in {[], last.cmd.op.data})
  }

  /** It stays so while the command gathers, and when its payload is taken for streaming. */
  lemma InHandStays(pending: Pending, next: Pending, served: seq<Service>, after: seq<Service>, place: nat)
    requires InHand(Some(pending), served, place) && pending.InFlight? && next.InFlight?
    requires next.ticket == pending.ticket && (next.gathered.Payload? <==> pending.gathered.Payload?)
    requires next.gathered.Payload? ==> next.gathered.data in {[], pending.gathered.data}
    requires |after| == |served| > 0 && after[|after| - 1].cmd == served[|served| - 1].cmd
    requires after[|after| - 1].place == served[|served| - 1].place
    ensures InHand(Some(next), after, place)
  {
  }

  // ----- The wire -------------------------------------------------------------------------------------

  /** The messages of the commands written, in order, each followed by its COPY answers. */
  function WireOf(served: seq<Service>): seq<FrontMessage> {
    if served == [] then []
    else
      var last := served[|served| - 1];
      WireOf(served[..|served| - 1]) + MessagesOf(last.cmd.op) + last.copied
  }

  predicate CopyPart(op: Operation, m: FrontMessage) {
    op.CopyIn? && (m.CopyDone? || m.CopyFail? || (m.CopyData? && m.payload in op.data))
  }

  ghost predicate Writable(service: Service) {
    !service.cmd.op.Close? && forall m :: m in service.copied ==> CopyPart(service.cmd.op, m)
  }

  /** The wire holds that and nothing else, but for one Terminate at the end. */
  ghost predicate Written(served: seq<Service>, wire: seq<Piece>, over: bool) {
    && (forall k :: 0 <= k < |served| ==> Writable(served[k]))
    && (wire == Wholes(WireOf(served)) || (over && wire == Wholes(WireOf(served) + [Terminate])))
  }

  lemma WholesAppend(ms: seq<FrontMessage>, more: seq<FrontMessage>)
    ensures Wholes(ms + more) == Wholes(ms) + Wholes(more)
  {
  }

  lemma WrittenOne(served: seq<Service>, wire: seq<Piece>, cmd: Command, place: nat)
    requires Written(served, wire, false) && !cmd.op.Close?
    ensures Written(served + [Service(cmd, place, [])], wire + Wholes(MessagesOf(cmd.op)), false)
  {
    var more := served + [Service(cmd, place, [])];
    assert more[..|served|] == served;
    assert WireOf(more) == WireOf(served) + MessagesOf(cmd.op);
    WholesAppend(WireOf(served), MessagesOf(cmd.op));
  }

  function WithCopied(served: seq<Service>, more: seq<FrontMessage>): (r: seq<Service>)
    ensures |r| == |served|
  {
    if served == [] then []
    else
      var n := |served| - 1;
      served[n := served[n].(copied := served[n].copied + more)]
  }

  lemma TakenCopied(entered: seq<Command>, served: seq<Service>, limit: nat, more: seq<FrontMessage>)
    requires Taken(entered, served, limit) && served != []
    ensures Taken(entered, WithCopied(served, more), limit)
  {
  }

  lemma WrittenMore(served: seq<Service>, wire: seq<Piece>, more: seq<FrontMessage>)
    requires Written(served, wire, false) && served != []
    requires forall m :: m in more ==> CopyPart(served[|served| - 1].cmd.op, m)
    ensures Written(WithCopied(served, more), wire + Wholes(more), false)
  {
    var n := |served| - 1;
    var after := WithCopied(served, more);
    assert after[..n] == served[..n];
    assert WireOf(after) == WireOf(served) + more;
    WholesAppend(WireOf(served), more);
  }

  lemma WrittenLast(served: seq<Service>, wire: seq<Piece>)
    requires Written(served, wire, false)
    ensures Written(served, wire + [Whole(Terminate)], true)
  {
    WholesAppend(WireOf(served), [Terminate]);
  }

  lemma {:induction false} WireBoundaries(served: seq<Service>)
    requires forall k :: 0 <= k < |served| ==> Writable(served[k])
    ensures Boundaries(WireOf(served)) == |served|
  {
    if served != [] {
      var last := served[|served| - 1];
      WireBoundaries(served[..|served| - 1]);
      BoundariesAppend(WireOf(served[..|served| - 1]), MessagesOf(last.cmd.op));
      OneBoundaryPerCommand(last.cmd.op);
      BoundariesAppend(WireOf(served[..|served| - 1]) + MessagesOf(last.cmd.op), last.copied);
      assert forall i :: 0 <= i < |last.copied| ==> last.copied[i] in last.copied;
      NoBoundaries(last.copied);
    }
  }

  /** As many Query and Sync messages are on the wire as commands were written. */
  lemma SentBoundaries(served: seq<Service>, wire: seq<Piece>, over: bool)
    requires Written(served, wire, over)
    ensures Boundaries(MessagesIn(wire)) == |served|
  {
    WireBoundaries(served);
    if wire == Wholes(WireOf(served)) {
      assert MessagesIn(wire) == WireOf(served);
    } else {
      assert MessagesIn(wire) == WireOf(served) + [Terminate];
      BoundariesSplit(WireOf(served), Terminate);
    }
  }

  // ----- Against the specification -----------------------------------------------------------------------

  /** The k-th command written was answered, in its place, with the specification's outcome for the
      k-th segment, and the COPY answers written for it are those of that segment. */
  ghost predicate Fulfilled(encode: Encoder, served: seq<Service>, segments: seq<Segment>, replies: seq<Reply>) {
    |segments| <= |served|
    && forall k :: 0 <= k < |segments| ==> FulfilledAt(encode, served[k], segments[k], replies)
  }

  ghost predicate FulfilledAt(encode: Encoder, service: Service, segment: Segment, replies: seq<Reply>) {
    && service.place < |replies|
    && replies[service.place] == Reply(service.cmd.ticket, OutcomeOf(encode, service.cmd.op, segment.body))
    && service.copied == CopyAnswers(encode, service.cmd.op, segment.body)
  }

  lemma FulfilledGrows(encode: Encoder, served: seq<Service>, segments: seq<Segment>, replies: seq<Reply>,
                       moreServed: seq<Service>, moreReplies: seq<Reply>)
    requires Fulfilled(encode, served, segments, replies) && replies <= moreReplies && |segments| <= |moreServed|
    requires forall k :: 0 <= k < |segments| ==> moreServed[k] == served[k]
    ensures Fulfilled(encode, moreServed, segments, moreReplies)
  {
    forall k | 0 <= k < |segments| ensures FulfilledAt(encode, moreServed[k], segments[k], moreReplies) {
      assert FulfilledAt(encode, served[k], segments[k], replies);
    }
  }

  /** The last command written is gathering the open segment. */
  ghost predicate GathersOpen(encode: Encoder, pending: Option<Pending>, served: seq<Service>, open: seq<Message>) {
    if pending.Some? && pending.value.InFlight? then
      && served != []
      && var last := served[|served| - 1];
      && Gathers(encode, pending.value.gathered, pending.value.error, last.cmd.op, open)
      && last.copied == CopyAnswers(encode, last.cmd.op, open)
    else forall m :: m in open ==> IsAsync(m)
  }

  /** What is written in answer to a CopyInResponse is what the specification says. */
  lemma CopyResponseAnswered(encode: Encoder, g: Gathered, error: Option<Error>, op: Operation,
        ms: seq<Message>, m: Message)
    requires Gathers(encode, g, error, op, ms) && op.CopyIn? && m.CopyInResponse?
    ensures CopyAnswers(encode, op, ms + [m])
         == CopyAnswers(encode, op, ms)
            + if IsBinary(m) then StreamOf(encode, g.data) else [CopyFail(COPY_FORMAT_REASON)]
  {
    CopyAnswersAppended(encode, op, ms, m);
  }

  /** It leaves the accumulators as the specification says. */
  lemma CopyResponseGathers(encode: Encoder, g: Gathered, error: Option<Error>, op: Operation,
        ms: seq<Message>, m: Message)
    requires Gathers(encode, g, error, op, ms) && op.CopyIn? && m.CopyInResponse?
    ensures !IsBinary(m) ==>
              Gathers(encode, g, Or(error, Protocol("COPY FROM STDIN requires binary format")), op, ms + [m])
    ensures IsBinary(m) ==> var fault := CopyFault(encode, g.data);
              Gathers(encode, g.(data := []), if fault.Some? then Or(error, fault.value) else error, op, ms + [m])
  {
    DataAppended(ms, m);
    SeenAppended(ms, m);
    FaultsAppended(encode, op, ms, m);
  }

  lemma {:induction false} StreamIsCopy(encode: Encoder, op: Operation, data: seq<bytes>)
    requires op.CopyIn? && data in {[], op.data}
    ensures forall m :: m in StreamOf(encode, data) ==> CopyPart(op, m)
  {
    var ms := CopyMessages(data);
    forall i | 0 <= i < |ms|
      ensures CopyPart(op, ms[i])
    {
      assert i < |data| ==> data[i] in data;
    }
  }
}

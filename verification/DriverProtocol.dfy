/**
 What the driver task promises about one command: the outcome as a declarative function of the
 backend messages between two `ReadyForQuery`s (PostgreSQL 16 manual, section 55.2).
 */
module DriverProtocol {
  import opened Base

  type Row = seq<Option<bytes>>

  datatype RowField = RowField(name: string, typeOid: nat)

  /** Backend messages; `Other` stands for those no command waits for. */
  datatype Message =
    | ParameterStatus
    | NoticeResponse
    | Other(tag: byte)
    | ReadyForQuery(status: byte)
    | RowDescription(fields: seq<RowField>)
    | DataRow(columns: Row)
    | CopyInResponse(overallFormat: byte, columnFormats: seq<int>)
    | CommandComplete(commandTag: string)
    | EmptyQueryResponse
    | ErrorResponse(report: seq<(byte, string)>)
    | ParseComplete
    | BindComplete
    | CloseComplete
    | NoData
    | ParameterDescription(typeOids: seq<nat>)
    | PortalSuspended

  datatype Error =
    | Server(report: seq<(byte, string)>)
    | ColumnAlignment(expected: nat, actual: nat)
    | Protocol(reason: string)
    | Codec(reason: string)
    | Io
    | Closed

  function CloneForCaller(e: Error): Error {
    if e.Io? then Closed else e
  }

  datatype Operation =
    | SimpleQuery(sql: string)
    | ExtendedQuery(sql: string, params: Row, expectedColumns: Option<nat>)
    | CopyIn(sql: string, data: seq<bytes>)
    | Prepare(name: string, sql: string)
    | ExecutePrepared(name: string, params: Row, expectedColumns: Option<nat>)
    | BindPortal(portal: string, name: string, params: Row)
    | ExecutePortal(portal: string, maxRows: nat)
    | ClosePortal(portal: string)
    | CloseStatement(name: string)
    | Close

  /** A command and the one-shot channel its caller waits on. */
  datatype Command = Command(ticket: nat, op: Operation)

  datatype Outcome =
    | ResultSets(sets: seq<seq<Row>>)
    | Extended(rows: seq<Row>, tag: Option<string>)
    | Copied(copyTag: string)
    | Prepared(paramOids: seq<nat>, rowFields: seq<RowField>)
    | Batch(rows: seq<Row>, hasMore: bool)
    | Done

  // ----- Frontend messages ----------------------------------------------------------------------

  datatype FrontMessage =
    | Query(sql: string)
    | Parse(name: string, sql: string)
    | Bind(portal: string, name: string, params: Row)
    | DescribePortal(portal: string)
    | DescribeStatement(name: string)
    | Execute(portal: string, maxRows: nat)
    | CloseOne(isPortal: bool, name: string)
    | Sync
    | Terminate
    | CopyData(payload: bytes)
    | CopyDone
    | CopyFail(reason: string)

  function MessagesOf(op: Operation): seq<FrontMessage> {
    match op
    case SimpleQuery(sql) => [Query(sql)]
    case ExtendedQuery(sql, params, _) =>
      [Parse("", sql), Bind("", "", params), DescribePortal(""), Execute("", 0), Sync]
    case CopyIn(sql, _) => [Query(sql)]
    case Prepare(name, sql) => [Parse(name, sql), DescribeStatement(name), Sync]
    case ExecutePrepared(name, params, _) => [Bind("", name, params), Execute("", 0), Sync]
    case BindPortal(portal, name, params) => [Bind(portal, name, params), Sync]
    case ExecutePortal(portal, maxRows) => [Execute(portal, maxRows), Sync]
    case ClosePortal(portal) => [CloseOne(true, portal), Sync]
    case CloseStatement(name) => [CloseOne(false, name), Sync]
    case Close => [Terminate]
  }

  /** Each of these makes the server send one ReadyForQuery. */
  predicate IsBoundary(m: FrontMessage) {
    m.Query? || m.Sync?
  }

  function Boundaries(ms: seq<FrontMessage>): nat {
    if ms == [] then 0 else Boundaries(ms[1..]) + (if IsBoundary(ms[0]) then 1 else 0)
  }

  lemma OnlyTheLast(op: Operation, i: nat)
    requires i < |MessagesOf(op)|
    ensures IsBoundary(MessagesOf(op)[i]) <==> i == |MessagesOf(op)| - 1 && !op.Close?
  {
  }

  lemma OneBoundaryPerCommand(op: Operation)
    ensures Boundaries(MessagesOf(op)) == if op.Close? then 0 else 1
  {
    var ms := MessagesOf(op);
    BoundariesSplit(ms[..|ms| - 1], ms[|ms| - 1]);
    assert ms == ms[..|ms| - 1] + [ms[|ms| - 1]];
    forall i | 0 <= i < |ms|
      ensures IsBoundary(ms[i]) <==> i == |ms| - 1 && !op.Close?
    {
      OnlyTheLast(op, i);
    }
    NoBoundaries(ms[..|ms| - 1]);
  }

  lemma {:induction false} BoundariesSplit(ms: seq<FrontMessage>, m: FrontMessage)
    ensures Boundaries(ms + [m]) == Boundaries(ms) + if IsBoundary(m) then 1 else 0
  {
    if ms == [] {
      assert ([m])[1..] == [];
    } else {
      BoundariesSplit(ms[1..], m);
      assert (ms + [m])[1..] == ms[1..] + [m];
    }
  }

  lemma {:induction false} NoBoundaries(ms: seq<FrontMessage>)
    requires forall i :: 0 <= i < |ms| ==> !IsBoundary(ms[i])
    ensures Boundaries(ms) == 0
  {
    if ms != [] {
      NoBoundaries(ms[1..]);
    }
  }

  lemma {:induction false} BoundariesAppend(ms: seq<FrontMessage>, more: seq<FrontMessage>)
    ensures Boundaries(ms + more) == Boundaries(ms) + Boundaries(more)
  {
    if ms == [] {
      assert ms + more == more;
    } else {
      BoundariesAppend(ms[1..], more);
      assert (ms + more)[1..] == ms[1..] + more;
    }
  }

  /** Encoding a frontend message: None, or why it does not fit the protocol's limits. */
  type Encoder = FrontMessage -> Option<Error>

  /** Why the messages of a command cannot be written, if they cannot. */
  function BuildFault(encode: Encoder, ms: seq<FrontMessage>): (fault: Option<Error>)
    ensures fault.None? <==> forall i :: 0 <= i < |ms| ==> encode(ms[i]).None?
  {
    if ms == [] then None
    else if encode(ms[0]).Some? then encode(ms[0])
    else
      var rest := BuildFault(encode, ms[1..]);
      assert forall i :: 0 < i < |ms| ==> ms[i] == ms[1..][i - 1];
      rest
  }

  /** Why the chunks of a COPY cannot be sent, if they cannot. */
  function CopyFault(encode: Encoder, data: seq<bytes>): Option<Error> {
    if data == [] then None
    else if encode(CopyData(data[0])).Some? then encode(CopyData(data[0]))
    else CopyFault(encode, data[1..])
  }

  const COPY_FORMAT_REASON := "babar only supports binary COPY FROM STDIN"
  const COPY_ENCODE_REASON := "babar failed to encode COPY data"

  function CopyMessages(data: seq<bytes>): seq<FrontMessage> {
    seq(|data|, i requires 0 <= i < |data| => CopyData(data[i])) + [CopyDone]
  }

  /** Every chunk and CopyDone, or, when a chunk cannot be encoded, only CopyFail. */
  function StreamOf(encode: Encoder, data: seq<bytes>): seq<FrontMessage> {
    if CopyFault(encode, data).Some? then [CopyFail(COPY_ENCODE_REASON)] else CopyMessages(data)
  }

  function CopyFailLoss(encode: Encoder, reason: string, writeOk: bool): Option<Error> {
    if encode(CopyFail(reason)).Some? then encode(CopyFail(reason)) else if writeOk then None else Some(Io)
  }

  /** Why the answer to CopyInResponse does not reach the server, if it does not. */
  function CopyLoss(encode: Encoder, binary: bool, data: seq<bytes>, writeOk: bool): Option<Error> {
    if !binary then CopyFailLoss(encode, COPY_FORMAT_REASON, writeOk)
    else if CopyFault(encode, data).Some? then CopyFailLoss(encode, COPY_ENCODE_REASON, writeOk)
    else if writeOk then None
    else Some(Io)
  }

  // ----- The specification fold --------------------------------------------------------------------

  /** Messages that may arrive at any time and concern no command. */
  predicate IsAsync(m: Message) {
    m.ParameterStatus? || m.NoticeResponse? || m.Other?
  }

  predicate IsBinary(m: Message)
    requires m.CopyInResponse?
  {
    m.overallFormat == 1 && forall i :: 0 <= i < |m.columnFormats| ==> m.columnFormats[i] == 1
  }

  function RowsIn(ms: seq<Message>): seq<Row> {
    if ms == [] then []
    else
      var last := ms[|ms| - 1];
      RowsIn(ms[..|ms| - 1]) + if last.DataRow? then [last.columns] else []
  }

  function LastTag(ms: seq<Message>): Option<string> {
    if ms == [] then None
    else if ms[|ms| - 1].CommandComplete? then Some(ms[|ms| - 1].commandTag)
    else LastTag(ms[..|ms| - 1])
  }

  function LastOids(ms: seq<Message>): Option<seq<nat>> {
    if ms == [] then None
    else if ms[|ms| - 1].ParameterDescription? then Some(ms[|ms| - 1].typeOids)
    else LastOids(ms[..|ms| - 1])
  }

  function LastFields(ms: seq<Message>): Option<seq<RowField>> {
    if ms == [] then None
    else if ms[|ms| - 1].RowDescription? then Some(ms[|ms| - 1].fields)
    else if ms[|ms| - 1].NoData? then Some([])
    else LastFields(ms[..|ms| - 1])
  }

  function SinceLastComplete(ms: seq<Message>): seq<Message> {
    if ms == [] || ms[|ms| - 1].CommandComplete? then []
    else SinceLastComplete(ms[..|ms| - 1]) + [ms[|ms| - 1]]
  }

  /** One result set for each completed statement of a simple query. */
  function SetsIn(ms: seq<Message>): seq<seq<Row>> {
    if ms == [] then []
    else
      var before, last := ms[..|ms| - 1], ms[|ms| - 1];
      if last.CommandComplete? then SetsIn(before) + [RowsIn(SinceLastComplete(before))]
      else if last.EmptyQueryResponse? then SetsIn(before) + [[]]
      else SetsIn(before)
  }

  predicate SuspendedIn(ms: seq<Message>) {
    exists i :: 0 <= i < |ms| && ms[i].PortalSuspended?
  }

  predicate BinaryCopySeen(ms: seq<Message>) {
    exists i :: 0 <= i < |ms| && ms[i].CopyInResponse? && IsBinary(ms[i])
  }

  /** The fault that `m`, arriving after `before`, reveals about the command. */
  function FaultAt(encode: Encoder, op: Operation, before: seq<Message>, m: Message): Option<Error> {
    if m.ErrorResponse? then Some(Server(m.report))
    else if (op.ExtendedQuery? || op.ExecutePrepared?) && op.expectedColumns.Some?
            && (m.RowDescription? || m.NoData?) then
      var actual := if m.RowDescription? then |m.fields| else 0;
      if actual != op.expectedColumns.value then Some(ColumnAlignment(op.expectedColumns.value, actual)) else None
    else if op.CopyIn? && m.CopyInResponse? then
      if !IsBinary(m) then Some(Protocol("COPY FROM STDIN requires binary format"))
      else CopyFault(encode, if BinaryCopySeen(before) then [] else op.data)
    else None
  }

  /** What is written in answer to `m`, arriving after `before`. */
  function CopyAnswer(encode: Encoder, op: Operation, before: seq<Message>, m: Message): seq<FrontMessage> {
    if !op.CopyIn? || !m.CopyInResponse? then []
    else if !IsBinary(m) then [CopyFail(COPY_FORMAT_REASON)]
    else StreamOf(encode, if BinaryCopySeen(before) then [] else op.data)
  }

  function CopyAnswers(encode: Encoder, op: Operation, ms: seq<Message>): seq<FrontMessage> {
    if ms == [] then []
    else
      var before := ms[..|ms| - 1];
      CopyAnswers(encode, op, before) + CopyAnswer(encode, op, before, ms[|ms| - 1])
  }

  lemma CopyAnswersAppended(encode: Encoder, op: Operation, ms: seq<Message>, m: Message)
    ensures CopyAnswers(encode, op, ms + [m]) == CopyAnswers(encode, op, ms) + CopyAnswer(encode, op, ms, m)
  {
    assert (ms + [m])[..|ms|] == ms;
  }

  lemma {:induction false} NoCopyAnswers(encode: Encoder, op: Operation, ms: seq<Message>)
    requires forall m :: m in ms ==> IsAsync(m)
    ensures CopyAnswers(encode, op, ms) == []
  {
    if ms != [] {
      assert ms[|ms| - 1] in ms;
      NoCopyAnswers(encode, op, ms[..|ms| - 1]);
    }
  }

  function FaultsIn(encode: Encoder, op: Operation, ms: seq<Message>): seq<Error> {
    if ms == [] then []
    else
      var before := ms[..|ms| - 1];
      var fault := FaultAt(encode, op, before, ms[|ms| - 1]);
      FaultsIn(encode, op, before) + if fault.Some? then [fault.value] else []
  }

  function Success(op: Operation, ms: seq<Message>): Result<Outcome, Error> {
    match op
    case SimpleQuery(_) => Ok(ResultSets(SetsIn(ms)))
    case ExtendedQuery(_, _, _) | ExecutePrepared(_, _, _) => Ok(Extended(RowsIn(ms), LastTag(ms)))
    case CopyIn(_, _) =>
      if LastTag(ms).Some? then Ok(Copied(LastTag(ms).value))
      else Err(Protocol("COPY FROM STDIN completed without CommandComplete"))
    case Prepare(_, _) =>
      Ok(Prepared(if LastOids(ms).Some? then LastOids(ms).value else [],
                  if LastFields(ms).Some? then LastFields(ms).value else []))
    case ExecutePortal(_, _) => Ok(Batch(RowsIn(ms), SuspendedIn(ms)))
    case _ => Ok(Done)
  }

  /** A simple query reports its last fault, every other command its first. */
  function OutcomeOf(encode: Encoder, op: Operation, ms: seq<Message>): Result<Outcome, Error> {
    var faults := FaultsIn(encode, op, ms);
    if faults == [] then Success(op, ms)
    else Err(if op.SimpleQuery? then faults[|faults| - 1] else faults[0])
  }

  // ----- Segments of the message stream --------------------------------------------------------------

  /** The messages since the last ReadyForQuery. */
  function OpenSegment(stream: seq<Message>): seq<Message> {
    if stream == [] || stream[|stream| - 1].ReadyForQuery? then []
    else OpenSegment(stream[..|stream| - 1]) + [stream[|stream| - 1]]
  }

  /** A run of messages and the ReadyForQuery that ends it. */
  datatype Segment = Segment(body: seq<Message>, ready: Message)

  function Segments(stream: seq<Message>): seq<Segment> {
    if stream == [] then []
    else
      var before, last := stream[..|stream| - 1], stream[|stream| - 1];
      Segments(before) + if last.ReadyForQuery? then [Segment(OpenSegment(before), last)] else []
  }

  function LastStatus(stream: seq<Message>, initial: byte): byte {
    if stream == [] then initial
    else if stream[|stream| - 1].ReadyForQuery? then stream[|stream| - 1].status
    else LastStatus(stream[..|stream| - 1], initial)
  }

  function Join(segments: seq<Segment>): seq<Message> {
    if segments == [] then []
    else
      var last := segments[|segments| - 1];
      Join(segments[..|segments| - 1]) + last.body + [last.ready]
  }

  lemma CutAppended(stream: seq<Message>, m: Message, initial: byte)
    ensures Segments(stream + [m])
         == Segments(stream) + if m.ReadyForQuery? then [Segment(OpenSegment(stream), m)] else []
    ensures OpenSegment(stream + [m]) == if m.ReadyForQuery? then [] else OpenSegment(stream) + [m]
    ensures LastStatus(stream + [m], initial) == if m.ReadyForQuery? then m.status else LastStatus(stream, initial)
  {
    assert (stream + [m])[..|stream|] == stream;
  }

  lemma JoinAppended(segments: seq<Segment>, segment: Segment)
    ensures Join(segments + [segment]) == Join(segments) + segment.body + [segment.ready]
  {
    assert (segments + [segment])[..|segments|] == segments;
  }

  ghost predicate Partitions(stream: seq<Message>) {
    Join(Segments(stream)) + OpenSegment(stream) == stream
  }

  /** Cutting the stream at every ReadyForQuery loses nothing... */
  lemma {:induction false} SegmentsPartitionStream(stream: seq<Message>)
    ensures Partitions(stream)
  {
    if stream == [] {
      assert Segments(stream) == [];
    } else {
      var before, last := stream[..|stream| - 1], stream[|stream| - 1];
      assert before + [last] == stream;
      SegmentsPartitionStream(before);
      PartitionAppended(before, last);
    }
  }

  lemma PartitionAppended(before: seq<Message>, last: Message)
    requires Partitions(before)
    ensures Partitions(before + [last])
  {
    var all := before + [last];
    CutAppended(before, last, 0);
    if last.ReadyForQuery? {
      JoinAppended(Segments(before), Segment(OpenSegment(before), last));
      assert Join(Segments(all)) == all;
      assert OpenSegment(all) == [];
    } else {
      assert Segments(all) == Segments(before);
      AssociatedBehind(Join(Segments(before)), OpenSegment(before), last);
    }
  }

  lemma AssociatedBehind(joined: seq<Message>, open: seq<Message>, last: Message)
    ensures joined + (open + [last]) == joined + open + [last]
  {
  }

  /** ... and leaves none inside a segment. */
  lemma {:induction false} SegmentsHoldNoReady(stream: seq<Message>)
    ensures forall m :: m in OpenSegment(stream) ==> !m.ReadyForQuery?
    ensures forall i :: 0 <= i < |Segments(stream)| ==>
              && Segments(stream)[i].ready.ReadyForQuery?
              && forall m :: m in Segments(stream)[i].body ==> !m.ReadyForQuery?
  {
    if stream != [] {
      SegmentsHoldNoReady(stream[..|stream| - 1]);
    }
  }
}

/**
 The driver task: `crates/core/src/session/driver.rs`. One task owns the socket and serves one
 command at a time from a FIFO inbox.

 The order of events (what arrives on the socket, when the caller sends, which writes fail) is
 the environment's choice. Replies are recorded when they are sent; whether the caller still
 listens changes nothing.
 */
module Driver {
  import opened Base
  import opened DriverProtocol

  /** The command in flight: whom to answer, what was gathered, and the error to report. */
  datatype Pending = InFlight(ticket: nat, gathered: Gathered, error: Option<Error>) | Closing

  datatype Gathered =
    | Sets(results: seq<seq<Row>>, currentRows: seq<Row>, currentFields: Option<seq<RowField>>)
    | Rows(expectedColumns: Option<nat>, rows: seq<Row>, commandTag: Option<string>)
    | Payload(data: seq<bytes>, copyTag: Option<string>)
    | Description(paramOids: Option<seq<nat>>, rowFields: Option<seq<RowField>>)
    | Portal(portalRows: seq<Row>, hasMore: bool)
    | Acknowledgement

  function InitialPending(cmd: Command): Pending
    requires !cmd.op.Close?
  {
    InFlight(cmd.ticket,
      match cmd.op
      case SimpleQuery(_) => Sets([], [], None)
      case ExtendedQuery(_, _, n) => Rows(n, [], None)
      case CopyIn(_, data) => Payload(data, None)
      case Prepare(_, _) => Description(None, None)
      case ExecutePrepared(_, _, n) => Rows(n, [], None)
      case ExecutePortal(_, _) => Portal([], false)
      case _ => Acknowledgement,
      None)
  }

  function Or(first: Option<Error>, later: Error): Option<Error> {
    if first.Some? then first else Some(later)
  }

  /** The match of `on_message` for everything but ReadyForQuery and CopyInResponse. Messages the
      pending command does not expect are dropped. */
  function Absorb(g: Gathered, m: Message): Gathered {
    match (g, m)
    case (Sets(results, rows, _), RowDescription(fields)) => Sets(results, rows, Some(fields))
    case (Sets(results, rows, fields), DataRow(columns)) => Sets(results, rows + [columns], fields)
    case (Sets(results, rows, _), CommandComplete(_)) => Sets(results + [rows], [], None)
    case (Sets(results, rows, fields), EmptyQueryResponse) => Sets(results + [[]], rows, fields)
    case (Rows(expected, rows, tag), DataRow(columns)) => Rows(expected, rows + [columns], tag)
    case (Rows(expected, rows, _), CommandComplete(tag)) => Rows(expected, rows, Some(tag))
    case (Payload(data, _), CommandComplete(tag)) => Payload(data, Some(tag))
    case (Description(_, fields), ParameterDescription(oids)) => Description(Some(oids), fields)
    case (Description(oids, _), RowDescription(fields)) => Description(oids, Some(fields))
    case (Description(oids, _), NoData) => Description(oids, Some([]))
    case (Portal(rows, more), DataRow(columns)) => Portal(rows + [columns], more)
    case (Portal(rows, _), PortalSuspended) => Portal(rows, true)
    case (_, _) => g
  }

  /** A simple query keeps the last error, every other command the first. */
  function AbsorbError(g: Gathered, error: Option<Error>, m: Message): Option<Error> {
    match (g, m)
    case (Sets(_, _, _), ErrorResponse(report)) => Some(Server(report))
    case (_, ErrorResponse(report)) => Or(error, Server(report))
    case (Rows(Some(expected), _, _), RowDescription(fields)) =>
      if |fields| != expected then Or(error, ColumnAlignment(expected, |fields|)) else error
    case (Rows(Some(expected), _, _), NoData) =>
      if expected != 0 then Or(error, ColumnAlignment(expected, 0)) else error
    case (_, _) => error
  }

  function Conclude(g: Gathered, error: Option<Error>): Result<Outcome, Error> {
    if error.Some? then Err(error.value)
    else match g
      case Sets(results, _, _) => Ok(ResultSets(results))
      case Rows(_, rows, tag) => Ok(Extended(rows, tag))
      case Payload(_, tag) =>
        if tag.Some? then Ok(Copied(tag.value))
        else Err(Protocol("COPY FROM STDIN completed without CommandComplete"))
      case Description(oids, fields) =>
        Ok(Prepared(if oids.Some? then oids.value else [], if fields.Some? then fields.value else []))
      case Portal(rows, more) => Ok(Batch(rows, more))
      case Acknowledgement => Ok(Done)
  }

  // ----- What is gathered is the specification fold --------------------------------------------------

  /** `g` and `error` hold, for `op`, exactly what the messages `ms` amount to. */
  ghost predicate Gathers(encode: Encoder, g: Gathered, error: Option<Error>, op: Operation, ms: seq<Message>) {
    && error == Kept(encode, op, ms)
    && GathersData(g, op, ms)
  }

  ghost predicate GathersData(g: Gathered, op: Operation, ms: seq<Message>) {
    match op
    case SimpleQuery(_) => g.Sets? && g.results == SetsIn(ms) && g.currentRows == RowsIn(SinceLastComplete(ms))
    case ExtendedQuery(_, _, expected) => g == Rows(expected, RowsIn(ms), LastTag(ms))
    case ExecutePrepared(_, _, expected) => g == Rows(expected, RowsIn(ms), LastTag(ms))
    case CopyIn(_, data) => g == Payload(if BinaryCopySeen(ms) then [] else data, LastTag(ms))
    case Prepare(_, _) => g == Description(LastOids(ms), LastFields(ms))
    case ExecutePortal(_, _) => g == Portal(RowsIn(ms), SuspendedIn(ms))
    case Close => false
    case _ => g.Acknowledgement?
  }

  ghost function FirstFault(encode: Encoder, op: Operation, ms: seq<Message>): Option<Error> {
    var faults := FaultsIn(encode, op, ms);
    if faults == [] then None else Some(faults[0])
  }

  ghost function LastFault(encode: Encoder, op: Operation, ms: seq<Message>): Option<Error> {
    var faults := FaultsIn(encode, op, ms);
    if faults == [] then None else Some(faults[|faults| - 1])
  }

  ghost function Kept(encode: Encoder, op: Operation, ms: seq<Message>): Option<Error> {
    if op.SimpleQuery? then LastFault(encode, op, ms) else FirstFault(encode, op, ms)
  }

  lemma NothingGathered(encode: Encoder, cmd: Command, ms: seq<Message>)
    requires !cmd.op.Close? && forall m :: m in ms ==> IsAsync(m)
    ensures Gathers(encode, InitialPending(cmd).gathered, None, cmd.op, ms)
  {
    NoDataIn(ms);
    NoSetsIn(ms);
    NoFaultsIn(encode, cmd.op, ms);
  }

  lemma {:induction false} NoDataIn(ms: seq<Message>)
    requires forall m :: m in ms ==> IsAsync(m)
    ensures RowsIn(ms) == [] && LastTag(ms) == None && LastOids(ms) == None && LastFields(ms) == None
    ensures !BinaryCopySeen(ms) && !SuspendedIn(ms)
  {
    assert forall i :: 0 <= i < |ms| ==> ms[i] in ms;
    if ms != [] {
      NoDataIn(ms[..|ms| - 1]);
    }
  }

  lemma {:induction false} NoSetsIn(ms: seq<Message>)
    requires forall m :: m in ms ==> IsAsync(m)
    ensures SetsIn(ms) == [] && SinceLastComplete(ms) == ms && RowsIn(ms) == []
  {
    NoDataIn(ms);
    if ms != [] {
      assert ms[|ms| - 1] in ms;
      NoSetsIn(ms[..|ms| - 1]);
      assert ms == ms[..|ms| - 1] + [ms[|ms| - 1]];
    }
  }

  lemma {:induction false} NoFaultsIn(encode: Encoder, op: Operation, ms: seq<Message>)
    requires forall m :: m in ms ==> IsAsync(m)
    ensures FaultsIn(encode, op, ms) == []
  {
    if ms != [] {
      assert ms[|ms| - 1] in ms;
      NoFaultsIn(encode, op, ms[..|ms| - 1]);
    }
  }

  lemma DataAppended(ms: seq<Message>, m: Message)
    ensures RowsIn(ms + [m]) == RowsIn(ms) + (if m.DataRow? then [m.columns] else [])
    ensures LastTag(ms + [m]) == (if m.CommandComplete? then Some(m.commandTag) else LastTag(ms))
    ensures LastOids(ms + [m]) == (if m.ParameterDescription? then Some(m.typeOids) else LastOids(ms))
    ensures LastFields(ms + [m])
         == (if m.RowDescription? then Some(m.fields) else if m.NoData? then Some([]) else LastFields(ms))
  {
    assert (ms + [m])[..|ms|] == ms;
  }

  lemma SetsAppended(ms: seq<Message>, m: Message)
    ensures SetsIn(ms + [m]) == SetsIn(ms) + (if m.CommandComplete? then [RowsIn(SinceLastComplete(ms))]
                                              else if m.EmptyQueryResponse? then [[]] else [])
    ensures RowsIn(SinceLastComplete(ms + [m]))
         == if m.CommandComplete? then [] else RowsIn(SinceLastComplete(ms)) + if m.DataRow? then [m.columns] else []
  {
    assert (ms + [m])[..|ms|] == ms;
    DataAppended(SinceLastComplete(ms), m);
  }

  lemma FaultsAppended(encode: Encoder, op: Operation, ms: seq<Message>, m: Message)
    ensures var fault := FaultAt(encode, op, ms, m);
      && FirstFault(encode, op, ms + [m])
         == (if FirstFault(encode, op, ms).Some? then FirstFault(encode, op, ms) else fault)
      && LastFault(encode, op, ms + [m]) == (if fault.Some? then fault else LastFault(encode, op, ms))
  {
    assert (ms + [m])[..|ms|] == ms;
  }

  lemma SeenAppended(ms: seq<Message>, m: Message)
    ensures BinaryCopySeen(ms + [m]) <==> BinaryCopySeen(ms) || (m.CopyInResponse? && IsBinary(m))
    ensures SuspendedIn(ms + [m]) <==> SuspendedIn(ms) || m.PortalSuspended?
  {
    var all := ms + [m];
    assert forall i :: 0 <= i < |ms| ==> all[i] == ms[i];
    assert all[|ms|] == m;
  }

  lemma SetsAbsorb(results: seq<seq<Row>>, rows: seq<Row>, fields: Option<seq<RowField>>, m: Message)
    ensures var r := Absorb(Sets(results, rows, fields), m);
      && r.Sets?
      && r.results == results + (if m.CommandComplete? then [rows] else if m.EmptyQueryResponse? then [[]] else [])
      && r.currentRows == if m.CommandComplete? then [] else rows + if m.DataRow? then [m.columns] else []
  {
  }

  lemma {:induction false} AbsorbSets(g: Gathered, ms: seq<Message>, m: Message)
    requires g.Sets? && g.results == SetsIn(ms) && g.currentRows == RowsIn(SinceLastComplete(ms))
    ensures var r := Absorb(g, m);
      r.Sets? && r.results == SetsIn(ms + [m]) && r.currentRows == RowsIn(SinceLastComplete(ms + [m]))
  {
    SetsAbsorb(g.results, g.currentRows, g.currentFields, m);
    SetsAppended(ms, m);
  }

  lemma RowsAbsorb(expected: Option<nat>, rows: seq<Row>, tag: Option<string>, m: Message)
    ensures Absorb(Rows(expected, rows, tag), m)
         == Rows(expected, rows + if m.DataRow? then [m.columns] else [],
                 if m.CommandComplete? then Some(m.commandTag) else tag)
  {
  }

  lemma {:induction false} AbsorbRows(expected: Option<nat>, ms: seq<Message>, m: Message)
    ensures Absorb(Rows(expected, RowsIn(ms), LastTag(ms)), m) == Rows(expected, RowsIn(ms + [m]), LastTag(ms + [m]))
  {
    RowsAbsorb(expected, RowsIn(ms), LastTag(ms), m);
    DataAppended(ms, m);
  }

  lemma {:induction false} AbsorbPayload(data: seq<bytes>, ms: seq<Message>, m: Message)
    ensures Absorb(Payload(data, LastTag(ms)), m) == Payload(data, LastTag(ms + [m]))
  {
    DataAppended(ms, m);
  }

  lemma DescriptionAbsorb(oids: Option<seq<nat>>, fields: Option<seq<RowField>>, m: Message)
    ensures Absorb(Description(oids, fields), m)
         == Description(if m.ParameterDescription? then Some(m.typeOids) else oids,
                        if m.RowDescription? then Some(m.fields) else if m.NoData? then Some([]) else fields)
  {
  }

  lemma {:induction false} AbsorbDescription(ms: seq<Message>, m: Message)
    ensures Absorb(Description(LastOids(ms), LastFields(ms)), m)
         == Description(LastOids(ms + [m]), LastFields(ms + [m]))
  {
    DescriptionAbsorb(LastOids(ms), LastFields(ms), m);
    DataAppended(ms, m);
  }

  lemma PortalAbsorb(rows: seq<Row>, more: bool, m: Message)
    ensures Absorb(Portal(rows, more), m)
         == Portal(rows + if m.DataRow? then [m.columns] else [], more || m.PortalSuspended?)
  {
  }

  lemma {:induction false} AbsorbPortal(ms: seq<Message>, m: Message)
    ensures Absorb(Portal(RowsIn(ms), SuspendedIn(ms)), m) == Portal(RowsIn(ms + [m]), SuspendedIn(ms + [m]))
  {
    PortalAbsorb(RowsIn(ms), SuspendedIn(ms), m);
    DataAppended(ms, m);
    SeenAppended(ms, m);
  }

  lemma {:induction false} AbsorbGathersData(g: Gathered, op: Operation, ms: seq<Message>, m: Message)
    requires GathersData(g, op, ms) && !(op.CopyIn? && m.CopyInResponse?)
    ensures GathersData(Absorb(g, m), op, ms + [m])
  {
    match op {
      case SimpleQuery(_) => AbsorbSets(g, ms, m);
      case ExtendedQuery(_, _, expected) => AbsorbRows(expected, ms, m);
      case ExecutePrepared(_, _, expected) => AbsorbRows(expected, ms, m);
      case CopyIn(_, data) =>
        SeenAppended(ms, m);
        AbsorbPayload(g.data, ms, m);
      case Prepare(_, _) => AbsorbDescription(ms, m);
      case ExecutePortal(_, _) => AbsorbPortal(ms, m);
      case _ =>
    }
  }

  function Merged(op: Operation, error: Option<Error>, fault: Option<Error>): Option<Error> {
    if fault.None? then error else if op.SimpleQuery? then fault else Or(error, fault.value)
  }

  /** The accumulator is of the kind made for `op`, and expects what it does. */
  predicate Suits(g: Gathered, op: Operation) {
    && (g.Sets? <==> op.SimpleQuery?)
    && (g.Rows? <==> op.ExtendedQuery? || op.ExecutePrepared?)
    && (g.Rows? ==> g.expectedColumns == op.expectedColumns)
  }

  lemma ErrorAbsorbed(encode: Encoder, g: Gathered, error: Option<Error>, op: Operation,
                      before: seq<Message>, m: Message)
    requires Suits(g, op) && !(op.CopyIn? && m.CopyInResponse?)
    ensures AbsorbError(g, error, m) == Merged(op, error, FaultAt(encode, op, before, m))
  {
  }

  /** The error kept is the one that the specification reports. */
  lemma {:induction false} FaultsMerged(encode: Encoder, error: Option<Error>, op: Operation,
                                        ms: seq<Message>, m: Message)
    requires error == Kept(encode, op, ms)
    ensures Merged(op, error, FaultAt(encode, op, ms, m)) == Kept(encode, op, ms + [m])
  {
    FaultsAppended(encode, op, ms, m);
  }

  lemma {:induction false} AbsorbGathers(encode: Encoder, g: Gathered, error: Option<Error>, op: Operation,
                                         ms: seq<Message>, m: Message)
    requires Gathers(encode, g, error, op, ms) && !(op.CopyIn? && m.CopyInResponse?)
    ensures Gathers(encode, Absorb(g, m), AbsorbError(g, error, m), op, ms + [m])
  {
    AbsorbGathersData(g, op, ms, m);
    ErrorAbsorbed(encode, g, error, op, ms, m);
    FaultsMerged(encode, error, op, ms, m);
  }

  lemma AbsorbKeepsPayload(g: Gathered, m: Message)
    ensures Absorb(g, m).Payload? <==> g.Payload?
    ensures g.Payload? ==> Absorb(g, m).data == g.data
  {
  }

  lemma ConcludeGathers(encode: Encoder, g: Gathered, error: Option<Error>, op: Operation, ms: seq<Message>)
    requires Gathers(encode, g, error, op, ms)
    ensures Conclude(g, error) == OutcomeOf(encode, op, ms)
  {
  }
}

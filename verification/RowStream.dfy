/**
 Streaming a query over a portal: `crates/core/src/session/stream.rs` and the stream set-up in
 `crates/core/src/session/mod.rs`.

 `Wire` is the command channel with the server behind it: it keeps the log of the commands that
 were accepted, and every answer is the environment's choice within what a portal may do.
 `RowChannel` is the bounded channel to the consumer, who may take rows or close it at any time.
 */
module RowStream {
  import opened Base

  type Columns = seq<Option<bytes>>

  datatype StreamError =
    | Server(code: nat)
    | ConnectionClosed
    | Decode(reason: string)
    | ColumnAlignment(expected: nat, actual: nat)
    | SchemaMismatch(position: nat, expectedOid: nat, actualOid: nat)
    | Config(reason: string)

  type Decoder<!B> = Columns -> Result<B, StreamError>

  datatype Command =
    | Prepare(stmt: nat)
    | Begin
    | BindPortal(portal: nat, stmt: nat)
    | ExecutePortal(portal: nat, maxRows: nat)
    | ClosePortal(portal: nat)
    | CloseStatement(stmt: nat)
    | Commit

  datatype Batch = Batch(rows: seq<Columns>, hasMore: bool)

  const I32_MAX: nat := 0x7FFF_FFFF

  // ----- The command channel and the server -------------------------------------------------------

  class Wire {
    const rows: seq<Columns>       // what the query returns
    var fetched: nat               // how many of them the portal has handed out
    var alive: bool
    var refused: bool              // some command has failed
    var log: seq<Command>
    var done: set<Command>         // those that the server has carried out
    var fault: Option<StreamError> // the error of the last fetch
    ghost var peak: nat            // the most rows that were ever fetched and not yet taken

    constructor (rows: seq<Columns>)
      ensures this.rows == rows && fetched == 0 && alive && !refused
      ensures log == [] && done == {} && fault == None && peak == 0
    {
      this.rows := rows;
      fetched, alive, refused, log, done, fault, peak := 0, true, false, [], {}, None, 0;
    }

    ghost predicate Valid()
      reads this
    {
      fetched <= |rows|
    }

    /** One command that is answered with success or an error. A connection that is lost before the
        command is sent, or before its answer arrives, shows as an error. */
    method Submit(c: Command) returns (r: Result<(), StreamError>)
      modifies this`alive, this`refused, this`log, this`done
      ensures refused == (old(refused) || r.Err?)
      ensures alive ==> old(alive) && log == old(log) + [c]
      ensures log == old(log) + [c] || (r.Err? && log == old(log))
      ensures !alive ==> r.Err?
      ensures done == if r.Ok? then old(done) + {c} else old(done)
    {
      if * {
        alive := false;
      }
      if !alive {
        refused := true;
        return Err(ConnectionClosed);
      }
      log := log + [c];
      if * {
        alive, refused := false, true;
        return Err(ConnectionClosed);
      }
      if * {
        refused := true;
        return Err(Server(0));
      }
      done := done + {c};
      return Ok(());
    }

    /** `ExecutePortal`: the next rows, at most `maxRows`. The portal is suspended only after a full
        batch, which may have been the last one; otherwise it has been run to its end. `taken` is how
        many rows the consumer has taken by now. */
    method Fetch(portal: nat, maxRows: nat, ghost taken: nat) returns (r: Result<Batch, StreamError>)
      requires Valid() && 0 < maxRows
      modifies this`alive, this`refused, this`log, this`done, this`fetched, this`fault, this`peak
      ensures Valid() && (alive ==> old(alive) && log == old(log) + [ExecutePortal(portal, maxRows)])
      ensures r.Ok? ==>
        && fault == old(fault) && old(fetched) <= fetched
        && r.value.rows == rows[old(fetched)..fetched] && |r.value.rows| <= maxRows
        && (if r.value.hasMore then |r.value.rows| == maxRows else fetched == |rows|)
      ensures r.Err? ==> fault == Some(r.error) && fetched == old(fetched)
      ensures done == if r.Ok? then old(done) + {ExecutePortal(portal, maxRows)} else old(done)
      ensures r.Err? ==> peak == old(peak)
      ensures r.Ok? ==> peak == if old(peak) + taken < fetched then fetched - taken else old(peak)
    {
      var sent := Submit(ExecutePortal(portal, maxRows));
      if sent.Err? {
        fault := Some(sent.error);
        return Err(sent.error);
      }
      var left := |rows| - fetched;
      var n := if left <= maxRows then left else maxRows;
      var batch := rows[fetched..fetched + n];
      fetched := fetched + n;
      peak := if peak + taken < fetched then fetched - taken else peak;
      if n == maxRows {
        if * {
          return Ok(Batch(batch, true));
        }
      }
      if left <= maxRows {
        return Ok(Batch(batch, false));
      }
      return Ok(Batch(batch, true));
    }
  }

  // ----- The channel to the consumer ----------------------------------------------------------------

  class RowChannel<B> {
    const capacity: nat
    var sent: seq<Result<B, StreamError>>
    var taken: nat
    var closed: bool

    constructor (capacity: nat)
      ensures this.capacity == capacity && sent == [] && taken == 0 && !closed
    {
      this.capacity := capacity;
      sent, taken, closed := [], 0, false;
    }

    ghost predicate Valid()
      reads this
    {
      taken <= |sent| <= taken + capacity
    }

    /** The consumer takes some rows, and may close the channel. */
    method Consumer()
      requires Valid()
      modifies this`taken, this`closed
      ensures Valid() && old(taken) <= taken && (old(closed) ==> closed)
    {
      var n :| 0 <= n <= |sent| - taken;
      taken := taken + n;
      if * {
        closed := true;
      }
    }

    method IsClosed() returns (r: bool)
      requires Valid()
      modifies this`taken, this`closed
      ensures Valid() && old(taken) <= taken && (old(closed) ==> closed) && r == closed
    {
      Consumer();
      r := closed;
    }

    /** A send into a full channel waits until the consumer takes a row or closes. */
    method Send(item: Result<B, StreamError>) returns (ok: bool)
      requires Valid() && 0 < capacity
      modifies this
      ensures Valid() && old(taken) <= taken && (old(closed) ==> closed)
      ensures if ok then sent == old(sent) + [item] else closed && sent == old(sent)
    {
      Consumer();
      if closed {
        return false;
      }
      if |sent| - taken >= capacity {
        if * {
          closed := true;
          return false;
        }
        var n :| 1 <= n <= |sent| - taken;
        taken := taken + n;
      }
      sent := sent + [item];
      return true;
    }
  }

  // ----- What is to be sent ---------------------------------------------------------------------------

  /** The decodings of the rows in order, up to and including the first error. */
  function Decodings<B>(decode: Decoder<B>, rows: seq<Columns>): seq<Result<B, StreamError>> {
    if rows == [] then []
    else
      var item := decode(rows[0]);
      [item] + if item.Err? then [] else Decodings(decode, rows[1..])
  }

  ghost predicate Clean<B>(decode: Decoder<B>, rows: seq<Columns>) {
    forall i :: 0 <= i < |rows| ==> decode(rows[i]).Ok?
  }

  lemma {:induction false} CleanDecodings<B>(decode: Decoder<B>, front: seq<Columns>, back: seq<Columns>)
    requires Clean(decode, front)
    ensures Decodings(decode, front + back) == Decodings(decode, front) + Decodings(decode, back)
    ensures |Decodings(decode, front)| == |front|
  {
    if front == [] {
      assert front + back == back;
    } else {
      assert (front + back)[1..] == front[1..] + back;
      CleanDecodings(decode, front[1..], back);
    }
  }

  /** `Session::query` on the same rows: all of them decoded, or the first error. */
  function QueryResult<B>(decode: Decoder<B>, rows: seq<Columns>): Result<seq<B>, StreamError> {
    if rows == [] then Ok([])
    else
      var row := decode(rows[0]);
      if row.Err? then Err(row.error)
      else
        var rest := QueryResult(decode, rows[1..]);
        if rest.Err? then rest else Ok([row.value] + rest.value)
  }

  /** A consumer that gathers the stream until it ends or fails. */
  function Gathered<B>(items: seq<Result<B, StreamError>>): Result<seq<B>, StreamError> {
    if items == [] then Ok([])
    else if items[0].Err? then Err(items[0].error)
    else
      var rest := Gathered(items[1..]);
      if rest.Err? then rest else Ok([items[0].value] + rest.value)
  }

  /** Gathering the stream of a query gives what the plain query returns. */
  lemma {:induction false} StreamIsTheQuery<B>(decode: Decoder<B>, rows: seq<Columns>)
    ensures Gathered(Decodings(decode, rows)) == QueryResult(decode, rows)
  {
    if rows != [] {
      StreamIsTheQuery(decode, rows[1..]);
      var item := decode(rows[0]);
      if item.Ok? {
        assert Decodings(decode, rows)[1..] == Decodings(decode, rows[1..]);
      }
    }
  }

  /** The decode loop of `Session::query`. */
  method QueryRows<B>(decode: Decoder<B>, rows: seq<Columns>) returns (r: Result<seq<B>, StreamError>)
    ensures r == QueryResult(decode, rows)
  {
    var out: seq<B> := [];
    assert rows[0..] == rows;
    ghost var whole := QueryResult(decode, rows);
    assert whole.Ok? ==> out + whole.value == whole.value;
    for i := 0 to |rows|
      invariant QueryResult(decode, rows) == Behind(out, QueryResult(decode, rows[i..]))
    {
      var row := decode(rows[i]);
      assert rows[i..][1..] == rows[i + 1..];
      if row.Err? {
        return Err(row.error);
      }
      ghost var rest := QueryResult(decode, rows[i + 1..]);
      assert rest.Ok? ==> out + ([row.value] + rest.value) == (out + [row.value]) + rest.value;
      out := out + [row.value];
    }
    assert out + [] == out;
    return Ok(out);
  }

  // ----- Driving the stream -----------------------------------------------------------------------------

  method CleanupStream(wire: Wire, portal: nat, stmt: Option<nat>, closeTransaction: bool)
    modifies wire`alive, wire`refused, wire`log, wire`done
    ensures SameSetup(old(wire.done), wire.done)
    ensures wire.alive ==> old(wire.alive) && wire.log == old(wire.log) + Cleanup(Some(portal), stmt, closeTransaction)
  {
    var _ := wire.Submit(ClosePortal(portal));
    if stmt.Some? {
      var _ := wire.Submit(CloseStatement(stmt.value));
    }
    if closeTransaction {
      var _ := wire.Submit(Commit);
    }
  }

  predicate IsSetup(c: Command) {
    c.Prepare? || c.Begin? || c.BindPortal?
  }

  ghost predicate SameSetup(before: set<Command>, after: set<Command>) {
    forall c: Command :: IsSetup(c) ==> (c in after <==> c in before)
  }

  function Cleanup(portal: Option<nat>, stmt: Option<nat>, transaction: bool): seq<Command> {
    Part(portal.Some?, ClosePortal(if portal.Some? then portal.value else 0))
    + Part(stmt.Some?, CloseStatement(if stmt.Some? then stmt.value else 0))
    + Part(transaction, Commit)
  }

  predicate Fetches(log: seq<Command>, portal: nat, maxRows: nat) {
    forall i :: 0 <= i < |log| ==> log[i] == ExecutePortal(portal, maxRows)
  }

  /** What has been sent once the stream is over: everything, unless the consumer closed the channel
      or a fetch failed; a failure follows all the rows that were fetched before it. */
  ghost predicate StreamOutcome<B>(decode: Decoder<B>, wire: Wire, channel: RowChannel<B>)
    reads wire, channel
    requires wire.Valid()
  {
    var all := Decodings(decode, wire.rows);
    var got := wire.rows[..wire.fetched];
    match wire.fault
    case None => if channel.closed then channel.sent <= all else channel.sent == all
    case Some(error) =>
      && Clean(decode, got)
      && (channel.sent == Decodings(decode, got) + [Err(error)]
          || (channel.closed && channel.sent == Decodings(decode, got)))
  }

  lemma FirstDecoding<B>(decode: Decoder<B>, rows: seq<Columns>)
    requires rows != []
    ensures [decode(rows[0])] <= Decodings(decode, rows)
    ensures decode(rows[0]).Err? ==> Decodings(decode, rows) == [decode(rows[0])]
    ensures |rows| == 1 ==> Decodings(decode, rows) == [decode(rows[0])]
  {
  }

  lemma DecodingsOnward<B>(decode: Decoder<B>, front: seq<Columns>, back: seq<Columns>)
    requires Clean(decode, front) && back != []
    ensures Decodings(decode, front + [back[0]]) == Decodings(decode, front) + [decode(back[0])]
    ensures Decodings(decode, front) + [decode(back[0])] <= Decodings(decode, front + back)
    ensures decode(back[0]).Err? ==> Decodings(decode, front + back) == Decodings(decode, front) + [decode(back[0])]
  {
    CleanDecodings(decode, front, back);
    CleanDecodings(decode, front, [back[0]]);
    FirstDecoding(decode, back);
    FirstDecoding(decode, [back[0]]);
  }

  lemma CleanOnward<B>(decode: Decoder<B>, rows: seq<Columns>, i: nat)
    requires i < |rows| && Clean(decode, rows[..i])
    ensures if decode(rows[i]).Ok? then Clean(decode, rows[..i + 1]) else !Clean(decode, rows)
  {
    assert forall k :: 0 <= k < i ==> rows[..i][k] == rows[..i + 1][k];
  }

  lemma SplitAt(rows: seq<Columns>, i: nat)
    requires i < |rows|
    ensures rows[i..][0] == rows[i] && rows[..i] + rows[i..] == rows && rows[..i] + [rows[i]] == rows[..i + 1]
  {
  }

  lemma NextDecoding<B>(decode: Decoder<B>, rows: seq<Columns>, i: nat)
    requires i < |rows| && Clean(decode, rows[..i])
    ensures Decodings(decode, rows[..i]) + [decode(rows[i])] <= Decodings(decode, rows)
    ensures decode(rows[i]).Err? ==> Decodings(decode, rows) == Decodings(decode, rows[..i]) + [decode(rows[i])]
    ensures Decodings(decode, rows[..i + 1]) == Decodings(decode, rows[..i]) + [decode(rows[i])]
  {
    SplitAt(rows, i);
    DecodingsOnward(decode, rows[..i], rows[i..]);
  }

  /** The rows of one batch: decoded and sent in order, until the consumer is gone or a row does not
      decode. */
  method ForwardBatch<B>(decode: Decoder<B>, rows: seq<Columns>, channel: RowChannel<B>) returns (stop: bool)
    requires channel.Valid() && 0 < channel.capacity
    modifies channel
    ensures channel.Valid() && old(channel.taken) <= channel.taken && (old(channel.closed) ==> channel.closed)
    ensures !stop ==> Clean(decode, rows) && channel.sent == old(channel.sent) + Decodings(decode, rows)
    ensures stop && !channel.closed ==>
              !Clean(decode, rows) && channel.sent == old(channel.sent) + Decodings(decode, rows)
    ensures stop ==> old(channel.sent) <= channel.sent <= old(channel.sent) + Decodings(decode, rows)
  {
    ghost var before := channel.sent;
    for i := 0 to |rows|
      invariant channel.Valid() && old(channel.taken) <= channel.taken && (old(channel.closed) ==> channel.closed)
      invariant Clean(decode, rows[..i]) && channel.sent == before + Decodings(decode, rows[..i])
    {
      NextDecoding(decode, rows, i);
      CleanOnward(decode, rows, i);
      var gone := channel.IsClosed();
      if gone {
        return true;
      }
      var row := decode(rows[i]);
      var ok := channel.Send(row);
      if !ok {
        return true;
      }
      if row.Err? {
        return true;
      }
    }
    assert rows[..|rows|] == rows;
    return false;
  }

  /** Between two fetches: all the rows fetched so far decode and have been sent. */
  ghost predicate UpToDate<B>(decode: Decoder<B>, wire: Wire, channel: RowChannel<B>, maxRows: nat)
    reads wire, channel
  {
    && wire.Valid() && wire.fault == None && channel.Valid()
    && Clean(decode, wire.rows[..wire.fetched])
    && channel.sent == Decodings(decode, wire.rows[..wire.fetched])
    && wire.peak <= 2 * maxRows
  }

  /** One turn of the loop of `drive_stream`. */
  method DriveBatch<B>(wire: Wire, portal: nat, decode: Decoder<B>, maxRows: nat, channel: RowChannel<B>)
      returns (more: bool, ghost fetches: seq<Command>)
    requires 0 < maxRows == channel.capacity && UpToDate(decode, wire, channel, maxRows)
    modifies wire, channel
    ensures if more then UpToDate(decode, wire, channel, maxRows) && wire.fetched > old(wire.fetched)
            else wire.Valid() && StreamOutcome(decode, wire, channel)
    ensures wire.peak <= 2 * maxRows && SameSetup(old(wire.done), wire.done)
    ensures Fetches(fetches, portal, maxRows)
    ensures wire.alive ==> old(wire.alive) && wire.log == old(wire.log) + fetches
  {
    fetches := [];
    ghost var got := wire.fetched;
    Extends(decode, wire.rows, got, |wire.rows|);
    assert wire.rows[..|wire.rows|] == wire.rows;
    var gone := channel.IsClosed();
    if gone {
      return false, fetches;
    }
    var reply := wire.Fetch(portal, maxRows, channel.taken);
    fetches := [ExecutePortal(portal, maxRows)];
    if reply.Err? {
      var _ := channel.Send(Err(reply.error));
      return false, fetches;
    }
    Extends(decode, wire.rows, got, wire.fetched);
    var stop := ForwardBatch(decode, reply.value.rows, channel);
    more := !stop && reply.value.hasMore;
  }

  /** `drive_stream`: whatever the rows, the batch size, the server and the consumer do, the loop
      ends, at most two batches are ever fetched and not taken, and the clean-up is sent once. */
  method DriveStream<B>(wire: Wire, portal: nat, stmt: Option<nat>, decode: Decoder<B>, maxRows: nat,
                        channel: RowChannel<B>, closeTransaction: bool)
      returns (ghost fetches: seq<Command>)
    requires 0 < maxRows == channel.capacity
    requires wire.fetched == 0 && wire.fault == None && wire.peak == 0
    requires channel.Valid() && channel.sent == []
    modifies wire, channel
    ensures wire.Valid() && StreamOutcome(decode, wire, channel)
    ensures wire.peak <= 2 * maxRows && SameSetup(old(wire.done), wire.done)
    ensures Fetches(fetches, portal, maxRows)
    ensures wire.alive ==>
      old(wire.alive) && wire.log == old(wire.log) + fetches + Cleanup(Some(portal), stmt, closeTransaction)
  {
    fetches := [];
    var more := true;
    while more
      invariant if more then UpToDate(decode, wire, channel, maxRows)
                else wire.Valid() && StreamOutcome(decode, wire, channel)
      invariant wire.peak <= 2 * maxRows && SameSetup(old(wire.done), wire.done)
      invariant Fetches(fetches, portal, maxRows)
      invariant wire.alive ==> old(wire.alive) && wire.log == old(wire.log) + fetches
      decreases more, |wire.rows| - wire.fetched
    {
      ghost var sent;
      more, sent := DriveBatch(wire, portal, decode, maxRows, channel);
      fetches := fetches + sent;
    }
    CleanupStream(wire, portal, stmt, closeTransaction);
  }

  lemma Extends<B>(decode: Decoder<B>, rows: seq<Columns>, n: nat, m: nat)
    requires n <= m <= |rows| && Clean(decode, rows[..n])
    ensures Decodings(decode, rows[..m]) == Decodings(decode, rows[..n]) + Decodings(decode, rows[n..m])
    ensures Decodings(decode, rows[..m]) <= Decodings(decode, rows)
    ensures Clean(decode, rows[n..m]) <==> Clean(decode, rows[..m])
    ensures !Clean(decode, rows[n..m]) ==> Decodings(decode, rows[..m]) == Decodings(decode, rows)
    ensures |Decodings(decode, rows[..n])| == n
  {
    assert rows[..n] + rows[n..m] == rows[..m] && rows[..m] + rows[m..] == rows;
    CleanDecodings(decode, rows[..n], rows[n..m]);
    DecodingsOfMore(decode, rows[..m], rows[m..]);
    forall i | 0 <= i < n
      ensures Clean(decode, rows[..m]) ==> decode(rows[..n][i]).Ok?
    {
    }
    forall i | n <= i < m
      ensures rows[n..m][i - n] == rows[..m][i]
    {
    }
  }

  lemma {:induction false} DecodingsOfMore<B>(decode: Decoder<B>, front: seq<Columns>, back: seq<Columns>)
    ensures Decodings(decode, front) <= Decodings(decode, front + back)
    ensures !Clean(decode, front) ==> Decodings(decode, front) == Decodings(decode, front + back)
  {
    if front != [] {
      assert (front + back)[1..] == front[1..] + back;
      DecodingsOfMore(decode, front[1..], back);
      if decode(front[0]).Ok? && Clean(decode, front[1..]) {
        assert forall i :: 1 <= i < |front| ==> front[i] == front[1..][i - 1];
      }
    }
  }

  // ----- Setting the stream up ----------------------------------------------------------------------------

  /** The server's columns are those that the decoder expects. */
  predicate Describes(fields: seq<nat>, columns: nat, expected: seq<nat>) {
    |fields| == columns && forall i :: 0 <= i < |fields| && i < |expected| ==> expected[i] == fields[i]
  }

  /** The error says how many columns there are, or which is the first of another type. */
  predicate TellsApart(error: StreamError, fields: seq<nat>, columns: nat, expected: seq<nat>) {
    if |fields| != columns then error == ColumnAlignment(columns, |fields|)
    else
      && error.SchemaMismatch? && error.position < |fields| && error.position < |expected|
      && error.expectedOid == expected[error.position] != fields[error.position] == error.actualOid
      && expected[..error.position] == fields[..error.position]
  }

  method ValidateRowDescription(columns: nat, fields: seq<nat>, expected: seq<nat>) returns (r: Result<(), StreamError>)
    ensures r.Ok? <==> Describes(fields, columns, expected)
    ensures r.Err? ==> TellsApart(r.error, fields, columns, expected)
  {
    if |fields| != columns {
      return Err(ColumnAlignment(columns, |fields|));
    }
    if expected != [] {
      var n := if |expected| <= |fields| then |expected| else |fields|;
      for position := 0 to n
        invariant expected[..position] == fields[..position]
      {
        if expected[position] != fields[position] {
          return Err(SchemaMismatch(position, expected[position], fields[position]));
        }
      }
      assert forall i :: 0 <= i < n ==> expected[..n][i] == fields[..n][i];
    }
    return Ok(());
  }

  /** The first part of `RowStream::start`: the batch size is checked and the portal bound. */
  method BindBatches(wire: Wire, portal: nat, stmt: nat, batchRows: nat)
      returns (r: Result<(), StreamError>, ghost front: seq<Command>)
    modifies wire`alive, wire`refused, wire`log, wire`done
    ensures front <= [BindPortal(portal, stmt)]
    ensures r.Ok? ==>
              && 0 < batchRows <= I32_MAX && front == [BindPortal(portal, stmt)]
              && wire.done == old(wire.done) + {BindPortal(portal, stmt)}
    ensures r.Err? ==> SameSetup(old(wire.done), wire.done)
    ensures r.Err? ==> wire.refused || !(0 < batchRows <= I32_MAX)
    ensures batchRows == 0 ==> r == Err(Config("stream batch size must be greater than zero"))
    ensures batchRows > I32_MAX ==> r == Err(Config("stream batch size exceeds i32::MAX"))
    ensures wire.alive ==>
      old(wire.alive) && wire.log == old(wire.log) + front + if r.Ok? then [] else Cleanup(None, Some(stmt), true)
  {
    front := [];
    if 0 < batchRows <= I32_MAX {
      front := [BindPortal(portal, stmt)];
      r := wire.Submit(BindPortal(portal, stmt));
      if r.Ok? {
        return r, front;
      }
    } else {
      r := Err(Config(if batchRows == 0 then "stream batch size must be greater than zero"
                      else "stream batch size exceeds i32::MAX"));
    }
    var _ := wire.Submit(CloseStatement(stmt));
    var _ := wire.Submit(Commit);
  }

  /** The set-up in order, as far as it goes, and behind it whole only fetches. */
  predicate SetUpAndFetch(front: seq<Command>, setUp: seq<Command>, portal: nat, maxRows: nat) {
    front <= setUp || (setUp <= front && Fetches(front[|setUp|..], portal, maxRows))
  }

  function StreamSetUp(portal: nat, stmt: nat): seq<Command> {
    [Prepare(stmt), Begin, BindPortal(portal, stmt)]
  }

  /** The clean-up owed for what the server has carried out. */
  function Owed(done: set<Command>, portal: nat, stmt: nat): seq<Command> {
    Cleanup(if BindPortal(portal, stmt) in done then Some(portal) else None,
            if Prepare(stmt) in done then Some(stmt) else None,
            Begin in done)
  }

  /** `RowStream::start`, then the driving task it spawns. */
  method StartStream<B>(wire: Wire, portal: nat, stmt: nat, decode: Decoder<B>, batchRows: nat)
      returns (r: Result<RowChannel<B>, StreamError>, ghost front: seq<Command>)
    requires wire.fetched == 0 && wire.fault == None && wire.peak == 0 && BindPortal(portal, stmt) !in wire.done
    modifies wire
    ensures SetUpAndFetch(front, [BindPortal(portal, stmt)], portal, batchRows)
    ensures forall c: Command :: IsSetup(c) && c != BindPortal(portal, stmt) ==>
              (c in wire.done <==> c in old(wire.done))
    ensures r.Ok? <==> BindPortal(portal, stmt) in wire.done
    ensures r.Err? ==> wire.refused || !(0 < batchRows <= I32_MAX)
    ensures wire.alive ==>
      && old(wire.alive)
      && wire.log == old(wire.log) + front + Cleanup(if r.Ok? then Some(portal) else None, Some(stmt), true)
    ensures r.Ok? ==>
      wire.Valid() && StreamOutcome(decode, wire, r.value) && wire.peak <= 2 * batchRows && 0 < batchRows <= I32_MAX
  {
    var bound;
    bound, front := BindBatches(wire, portal, stmt, batchRows);
    if bound.Err? {
      return Err(bound.error), front;
    }
    var channel := new RowChannel<B>(batchRows);
    var fetches := DriveStream(wire, portal, Some(stmt), decode, batchRows, channel, true);
    front := front + fetches;
    r := Ok(channel);
  }

  /** The first part of `stream_with_batch_size`: the statement is prepared, its columns are checked,
      and the transaction is begun. */
  method PrepareStream(wire: Wire, stmt: nat, fields: seq<nat>, columns: nat, expected: seq<nat>)
      returns (r: Result<(), StreamError>, ghost front: seq<Command>)
    requires wire.log == [] && wire.done == {}
    modifies wire`alive, wire`refused, wire`log, wire`done
    ensures front <= [Prepare(stmt), Begin] && wire.done <= {Prepare(stmt), Begin, CloseStatement(stmt)}
    ensures r.Ok? ==>
      front == [Prepare(stmt), Begin] && wire.done == {Prepare(stmt), Begin} && Describes(fields, columns, expected)
    ensures wire.alive ==>
      wire.log == front + if r.Err? && Prepare(stmt) in wire.done then [CloseStatement(stmt)] else []
    ensures r.Err? ==> Begin !in wire.done && (wire.refused || !Describes(fields, columns, expected))
    ensures !Describes(fields, columns, expected) && Prepare(stmt) in wire.done ==>
              && r.Err? && TellsApart(r.error, fields, columns, expected)
              && [Prepare(stmt)] <= wire.log <= [Prepare(stmt), CloseStatement(stmt)]
  {
    front := [Prepare(stmt)];
    r := wire.Submit(Prepare(stmt));
    if r.Err? {
      return r, front;
    }
    r := ValidateRowDescription(columns, fields, expected);
    if r.Err? {
      var _ := wire.Submit(CloseStatement(stmt));
      return r, front;
    }
    front := [Prepare(stmt), Begin];
    r := wire.Submit(Begin);
    if r.Err? {
      var _ := wire.Submit(CloseStatement(stmt));
    }
  }

  /** `stream_with_batch_size`. On a connection that stays alive, every path ends with the clean-up
      owed, and sends none of it before. */
  method StreamQuery<B>(wire: Wire, portal: nat, stmt: nat, fields: seq<nat>, columns: nat, expected: seq<nat>,
                        decode: Decoder<B>, batchRows: nat)
      returns (r: Result<RowChannel<B>, StreamError>, ghost front: seq<Command>)
    requires wire.fetched == 0 && wire.fault == None && wire.peak == 0 && wire.log == [] && wire.done == {}
    modifies wire
    ensures SetUpAndFetch(front, StreamSetUp(portal, stmt), portal, batchRows)
    ensures wire.alive ==> wire.log == front + Owed(wire.done, portal, stmt)
    ensures r.Ok? ==> wire.Valid() && StreamOutcome(decode, wire, r.value) && wire.peak <= 2 * batchRows
    ensures r.Ok? ==> 0 < batchRows <= I32_MAX && {Prepare(stmt), Begin, BindPortal(portal, stmt)} <= wire.done
    ensures r.Ok? ==> Describes(fields, columns, expected)
    ensures !Describes(fields, columns, expected) && Prepare(stmt) in wire.done ==>
              && r.Err? && TellsApart(r.error, fields, columns, expected)
              && [Prepare(stmt)] <= wire.log <= [Prepare(stmt), CloseStatement(stmt)]
    ensures r.Err? ==> wire.refused || !(0 < batchRows <= I32_MAX) || !Describes(fields, columns, expected)
  {
    var prepared;
    prepared, front := PrepareStream(wire, stmt, fields, columns, expected);
    if prepared.Err? {
      return Err(prepared.error), front;
    }
    ghost var tail;
    r, tail := StartStream(wire, portal, stmt, decode, batchRows);
    SetUpBehind(front, tail, [BindPortal(portal, stmt)], portal, batchRows);
    assert front + [BindPortal(portal, stmt)] == StreamSetUp(portal, stmt);
    front := front + tail;
  }

  lemma SetUpBehind(first: seq<Command>, front: seq<Command>, setUp: seq<Command>, portal: nat, maxRows: nat)
    requires SetUpAndFetch(front, setUp, portal, maxRows)
    ensures SetUpAndFetch(first + front, first + setUp, portal, maxRows)
  {
    assert setUp <= front ==> (first + front)[|first + setUp|..] == front[|setUp|..];
  }

  lemma CountsAdd(a: seq<Command>, b: seq<Command>, c: seq<Command>, d: seq<Command>, x: Command)
    ensures multiset(a + (b + c + d))[x] == multiset(a)[x] + multiset(b)[x] + multiset(c)[x] + multiset(d)[x]
  {
    assert multiset(a + (b + c + d)) == multiset(a) + multiset(b + c + d);
    assert multiset(b + c + d) == multiset(b) + multiset(c) + multiset(d);
  }

  function Part(on: bool, c: Command): seq<Command> {
    if on then [c] else []
  }

  lemma PartCount(on: bool, c: Command, x: Command)
    ensures multiset(Part(on, c))[x] == if on && c == x then 1 else 0
  {
  }

  predicate CleansUp(c: Command) {
    c.ClosePortal? || c.CloseStatement? || c.Commit?
  }

  lemma FrontHolds(front: seq<Command>, setUp: seq<Command>, portal: nat, maxRows: nat, i: nat)
    requires SetUpAndFetch(front, setUp, portal, maxRows) && i < |front|
    ensures front[i] in setUp || front[i] == ExecutePortal(portal, maxRows)
  {
    if i < |setUp| {
      assert front[i] == setUp[i];
    } else {
      assert front[|setUp|..][i - |setUp|] == front[i];
    }
  }

  lemma NoneInFront(front: seq<Command>, portal: nat, stmt: nat, maxRows: nat, c: Command)
    requires SetUpAndFetch(front, StreamSetUp(portal, stmt), portal, maxRows) && CleansUp(c)
    ensures multiset(front)[c] == 0
  {
    forall i | 0 <= i < |front|
      ensures front[i] != c
    {
      FrontHolds(front, StreamSetUp(portal, stmt), portal, maxRows, i);
    }
    assert c !in front;
  }

  function Once(on: bool): nat {
    if on then 1 else 0
  }

  /** What that means for the commands: one close for a statement that was prepared, one COMMIT, and
      as the last command, for a transaction that was begun, and no other clean-up. */
  lemma CleanedUpOnce(front: seq<Command>, done: set<Command>, portal: nat, stmt: nat, maxRows: nat, c: Command)
    requires SetUpAndFetch(front, StreamSetUp(portal, stmt), portal, maxRows) && CleansUp(c)
    ensures multiset(front + Owed(done, portal, stmt))[c] ==
      Once(c == ClosePortal(portal) && BindPortal(portal, stmt) in done)
      + Once(c == CloseStatement(stmt) && Prepare(stmt) in done)
      + Once(c == Commit && Begin in done)
  {
    var bound := Part(BindPortal(portal, stmt) in done, ClosePortal(portal));
    var prepared := Part(Prepare(stmt) in done, CloseStatement(stmt));
    var begun := Part(Begin in done, Commit);
    assert Owed(done, portal, stmt) == bound + prepared + begun;
    NoneInFront(front, portal, stmt, maxRows, c);
    CountsAdd(front, bound, prepared, begun, c);
    PartCount(BindPortal(portal, stmt) in done, ClosePortal(portal), c);
    PartCount(Prepare(stmt) in done, CloseStatement(stmt), c);
    PartCount(Begin in done, Commit, c);
  }

  lemma CommitComesLast(done: set<Command>, portal: nat, stmt: nat)
    ensures var owed := Owed(done, portal, stmt); Begin in done ==> owed != [] && owed[|owed| - 1] == Commit
  {
  }
}

/**
 Binary COPY: `crates/core/src/copy.rs` and the header and trailer of
 `crates/core/src/protocol/frontend.rs`, against the reader's side of PostgreSQL 16, COPY, "Binary
 Format". One row buffer is used for all rows: cleared, filled and split off.
 */
module BinaryCopy {
  import opened Base
  import opened WireFormat
  import opened BackendMessages
  import opened TupleCodec

  datatype CopyError = NotBinary(column: nat) | EncodeFailed | WrongFieldCount | TooManyColumns | FieldTooLong

  /** The bytes of "PGCOPY\n\377\r\n\0". */
  const SIGNATURE: bytes := [80, 71, 67, 79, 80, 89, 10, 255, 13, 10, 0]

  const HEADER: bytes := SIGNATURE + PutU32(0, PutU32(0, []))

  const TRAILER: bytes := PutI16(-1, [])

  const FORMAT_BINARY := 1

  // ----- Rows --------------------------------------------------------------------------------------------

  predicate FieldFits(field: Slot) {
    field.Some? ==> |field.value| < 0x8000_0000
  }

  predicate RowFits(fields: seq<Slot>) {
    |fields| < 0x8000 && forall i :: 0 <= i < |fields| ==> FieldFits(fields[i])
  }

  function RowBytes(fields: seq<Slot>, tail: bytes): bytes {
    PutCount(|fields|, PutMany(PutColumn, fields, tail))
  }

  lemma ColumnAppends(field: Slot, tail: bytes, more: bytes)
    ensures PutColumn(field, tail) + more == PutColumn(field, tail + more)
  {
    match field {
      case None =>
      case Some(v) =>
        assert (v + tail) + more == v + (tail + more);
        PutU32Appends(|v| % 0x1_0000_0000, v + tail, more);
    }
  }

  lemma PutU32Appends(n: u32, tail: bytes, more: bytes)
    ensures PutU32(n, tail) + more == PutU32(n, tail + more)
  {
  }

  lemma {:induction false} ColumnsAppend(fields: seq<Slot>, tail: bytes, more: bytes)
    ensures PutMany(PutColumn, fields, tail) + more == PutMany(PutColumn, fields, tail + more)
  {
    if fields != [] {
      ColumnsAppend(fields[1..], tail, more);
      ColumnAppends(fields[0], PutMany(PutColumn, fields[1..], tail), more);
    }
  }

  lemma RowAppends(fields: seq<Slot>, more: bytes)
    ensures RowBytes(fields, []) + more == RowBytes(fields, more)
  {
    ColumnsAppend(fields, [], more);
    assert [] + more == more;
  }

  lemma CountStarts(n: nat, rest: bytes)
    requires n < 0x8000
    ensures PutI16(n, []) + rest == PutCount(n, rest) && TakeI16(PutCount(n, rest)) == Got(n, rest)
  {
    assert n % 0x1_0000 == n;
    PutU16Shape(n, rest);
  }

  lemma NextColumn(before: bytes, fields: seq<Slot>, i: nat)
    requires i < |fields|
    ensures before + PutMany(PutColumn, fields[i..], [])
         == (before + PutColumn(fields[i], [])) + PutMany(PutColumn, fields[i + 1..], [])
  {
    var rest := PutMany(PutColumn, fields[i + 1..], []);
    assert PutMany(PutColumn, fields[i..], []) == PutColumn(fields[i], rest) by {
      assert fields[i..][1..] == fields[i + 1..];
    }
    ColumnBefore(before, fields[i], rest);
  }

  lemma ColumnBefore(before: bytes, field: Slot, rest: bytes)
    ensures before + PutColumn(field, rest) == (before + PutColumn(field, [])) + rest
  {
    ColumnAppends(field, [], rest);
    assert [] + rest == rest;
  }

  class BinaryCopyRow {
    var buf: bytes

    constructor ()
      ensures buf == []
    {
      buf := [];
    }

    method PutField(field: Slot) returns (ok: bool)
      modifies this
      ensures ok <==> FieldFits(field)
      ensures ok ==> buf == old(buf) + PutColumn(field, [])
    {
      match field {
        case Some(value) =>
          if |value| >= 0x8000_0000 {
            return false;
          }
          buf := buf + PutI32(|value|, []);
          buf := buf + value;
          PutU32Appends(|value|, [], value);
          assert [] + value == value + [];
          return true;
        case None =>
          buf := buf + PutI32(-1, []);
          return true;
      }
    }

    /** `encode_fields`: whatever was in the buffer is gone. */
    method EncodeFields(fields: seq<Slot>) returns (r: Result<(), CopyError>)
      modifies this
      ensures r.Ok? <==> RowFits(fields)
      ensures r.Ok? ==> buf == RowBytes(fields, [])
      ensures r.Err? ==> r.error == if |fields| >= 0x8000 then TooManyColumns else FieldTooLong
    {
      if |fields| >= 0x8000 {
        return Err(TooManyColumns);
      }
      buf := [];
      buf := buf + PutI16(|fields|, []);
      assert fields[0..] == fields;
      CountStarts(|fields|, PutMany(PutColumn, fields, []));
      for i := 0 to |fields|
        invariant forall k :: 0 <= k < i ==> FieldFits(fields[k])
        invariant buf + PutMany(PutColumn, fields[i..], []) == RowBytes(fields, [])
      {
        NextColumn(buf, fields, i);
        var ok := PutField(fields[i]);
        if !ok {
          return Err(FieldTooLong);
        }
      }
      assert buf + [] == buf;
      return Ok(());
    }

    method Freeze() returns (chunk: bytes)
      modifies this
      ensures chunk == old(buf) && buf == []
    {
      chunk := buf;
      buf := [];
    }
  }

  // ----- The payload ----------------------------------------------------------------------------------------

  /** Column `i` has the binary format code; a missing code means text. */
  predicate ColumnIsBinary(formats: seq<int>, i: nat) {
    i < |formats| && formats[i] == FORMAT_BINARY
  }

  predicate BinaryCapable(c: Codec) {
    forall i :: 0 <= i < |Oids(c)| ==> ColumnIsBinary(Formats(c), i)
  }

  /** The first column that is not binary, counted from 1. */
  predicate IsFirstText(c: Codec, e: CopyError) {
    && e.NotBinary? && 0 < e.column <= |Oids(c)| && !ColumnIsBinary(Formats(c), e.column - 1)
    && forall i :: 0 <= i < e.column - 1 ==> ColumnIsBinary(Formats(c), i)
  }

  method EnsureBinaryCapable(c: Codec) returns (r: Result<(), CopyError>)
    ensures r.Ok? <==> BinaryCapable(c)
    ensures r.Err? ==> IsFirstText(c, r.error)
  {
    for index := 0 to |Oids(c)|
      invariant forall i :: 0 <= i < index ==> ColumnIsBinary(Formats(c), i)
    {
      if !ColumnIsBinary(Formats(c), index) {
        return Err(NotBinary(index + 1));
      }
    }
    return Ok(());
  }

  function FieldsOf(s: Scalars, c: Codec, v: Value): seq<Slot>
    requires WellTyped(c, v)
  {
    var fields := Encoded(s, c, v);
    if fields.Some? then fields.value else []
  }

  /** The rows that can be copied: the codec is binary throughout, no leaf refuses, and the row fits. */
  predicate Copyable(s: Scalars, c: Codec, v: Value)
    requires WellTyped(c, v)
  {
    BinaryCapable(c) && Encoded(s, c, v).Some? && RowFits(FieldsOf(s, c, v))
  }

  /** Why a row is not copied: the first condition that fails. */
  predicate Refuses(s: Scalars, c: Codec, v: Value, e: CopyError)
    requires WellTyped(c, v)
  {
    if !BinaryCapable(c) then IsFirstText(c, e)
    else if Encoded(s, c, v).None? then e == EncodeFailed
    else if |FieldsOf(s, c, v)| >= 0x8000 then e == TooManyColumns
    else !RowFits(FieldsOf(s, c, v)) && e == FieldTooLong
  }

  method EncodeRow(s: Scalars, c: Codec, v: Value, row: BinaryCopyRow) returns (r: Result<(), CopyError>)
    requires WellTyped(c, v)
    modifies row
    ensures r.Ok? <==> Copyable(s, c, v)
    ensures r.Ok? ==> row.buf == RowBytes(FieldsOf(s, c, v), [])
    ensures r.Err? ==> Refuses(s, c, v, r.error)
  {
    var capable := EnsureBinaryCapable(c);
    if capable.Err? {
      return capable;
    }
    var fields := new Params();
    var ok := fields.Encode(s, c, v);
    if !ok {
      return Err(EncodeFailed);
    }
    SlotsFitTheLeaves(s, c, v);
    assert fields.slots == Encoded(s, c, v).value;
    if |fields.slots| != |Oids(c)| {
      return Err(WrongFieldCount);
    }
    r := row.EncodeFields(fields.slots);
  }

  function FieldRows(s: Scalars, c: Codec, rows: seq<Value>): (r: seq<seq<Slot>>)
    requires forall i :: 0 <= i < |rows| ==> WellTyped(c, rows[i])
    ensures |r| == |rows| && forall i :: 0 <= i < |rows| ==> r[i] == FieldsOf(s, c, rows[i])
  {
    seq(|rows|, i requires 0 <= i < |rows| => FieldsOf(s, c, rows[i]))
  }

  function RowChunks(rows: seq<seq<Slot>>): (r: seq<bytes>)
    ensures |r| == |rows| && forall i :: 0 <= i < |rows| ==> r[i] == RowBytes(rows[i], [])
  {
    seq(|rows|, i requires 0 <= i < |rows| => RowBytes(rows[i], []))
  }

  function Payload(rows: seq<seq<Slot>>): seq<bytes> {
    [HEADER] + RowChunks(rows) + [TRAILER]
  }

  /** `BinaryCopyPayload::encode`. */
  method EncodePayload(s: Scalars, c: Codec, rows: seq<Value>) returns (r: Result<seq<bytes>, CopyError>)
    requires forall i :: 0 <= i < |rows| ==> WellTyped(c, rows[i])
    ensures r.Ok? <==> forall i :: 0 <= i < |rows| ==> Copyable(s, c, rows[i])
    ensures r.Ok? ==> r.value == Payload(FieldRows(s, c, rows))
    ensures r.Err? ==>
      exists k :: 0 <= k < |rows| && Refuses(s, c, rows[k], r.error)
                  && forall i :: 0 <= i < k ==> Copyable(s, c, rows[i])
  {
    var chunks := [HEADER];
    var row := new BinaryCopyRow();
    for i := 0 to |rows|
      invariant forall k :: 0 <= k < i ==> Copyable(s, c, rows[k])
      invariant |chunks| == i + 1 && chunks[0] == HEADER
      invariant forall k :: 0 <= k < i ==> chunks[k + 1] == RowBytes(FieldsOf(s, c, rows[k]), [])
    {
      var done := EncodeRow(s, c, rows[i], row);
      if done.Err? {
        return Err(done.error);
      }
      var chunk := row.Freeze();
      chunks := chunks + [chunk];
    }
    ghost var fields := FieldRows(s, c, rows);
    assert chunks == [HEADER] + RowChunks(fields);
    return Ok(chunks + [TRAILER]);
  }

  // ----- The reader's side --------------------------------------------------------------------------------------

  lemma {:induction false} ColumnsTakeBytes(n: nat, b: bytes)
    ensures var r := TakeMany(TakeColumn, n, b); r.Got? ==> |r.rest| <= |b|
  {
    if n > 0 && TakeColumn(b).Got? {
      ColumnsTakeBytes(n - 1, TakeColumn(b).rest);
    }
  }

  /** Rows up to the trailer, which must be the end. */
  function TakeRows(b: bytes): Option<seq<seq<Slot>>>
    decreases |b|
  {
    var n := TakeI16(b);
    if n.Bad? then None
    else if n.value == -1 then (if n.rest == [] then Some([]) else None)
    else if n.value < 0 then None
    else
      ColumnsTakeBytes(n.value, n.rest);
      var fields := TakeMany(TakeColumn, n.value, n.rest);
      if fields.Bad? then None
      else
        var more := TakeRows(fields.rest);
        if more.None? then None else Some([fields.value] + more.value)
  }

  /** The whole stream: signature, flags without critical bits, an extension of length 0, rows. */
  function ReadCopy(b: bytes): Option<seq<seq<Slot>>> {
    if |b| < 19 || b[..11] != SIGNATURE || U32At(b[11..]) != 0 || U32At(b[15..]) != 0 then None
    else TakeRows(b[19..])
  }

  function Stream(chunks: seq<bytes>): bytes {
    if chunks == [] then [] else chunks[0] + Stream(chunks[1..])
  }

  lemma FieldsReadBack(fields: seq<Slot>, tail: bytes)
    requires RowFits(fields)
    ensures TakeMany(TakeColumn, |fields|, PutMany(PutColumn, fields, tail)) == Got(fields, tail)
  {
    forall i, t | 0 <= i < |fields|
      ensures TakeColumn(PutColumn(fields[i], t)) == Got(fields[i], t)
    {
      assert FieldFits(fields[i]);
      ColumnReadsBack(fields[i], t);
    }
    ManyReadBack(TakeColumn, PutColumn, fields, tail);
  }

  lemma RowIs(b: bytes, n: i16, columns: bytes, fields: seq<Slot>, rest: bytes, rows: seq<seq<Slot>>)
    requires TakeI16(b) == Got(n, columns) && n >= 0
    requires TakeMany(TakeColumn, n, columns) == Got(fields, rest) && TakeRows(rest) == Some(rows)
    ensures TakeRows(b) == Some([fields] + rows)
  {
  }

  lemma RowReadsBack(fields: seq<Slot>, rest: bytes, rows: seq<seq<Slot>>)
    requires RowFits(fields) && TakeRows(rest) == Some(rows)
    ensures TakeRows(RowBytes(fields, rest)) == Some([fields] + rows)
  {
    var columns := PutMany(PutColumn, fields, rest);
    FieldsReadBack(fields, rest);
    CountStarts(|fields|, columns);
    RowIs(RowBytes(fields, rest), |fields|, columns, fields, rest, rows);
  }

  lemma {:induction false} RowsReadBack(rows: seq<seq<Slot>>)
    requires forall i :: 0 <= i < |rows| ==> RowFits(rows[i])
    ensures TakeRows(Stream(RowChunks(rows) + [TRAILER])) == Some(rows)
  {
    var chunks := RowChunks(rows) + [TRAILER];
    if rows == [] {
      assert chunks == [TRAILER] && chunks[1..] == [] && TRAILER + [] == TRAILER;
      IntegersReadBack(0, -1, 0, 0, []);
    } else {
      var rest := RowChunks(rows[1..]) + [TRAILER];
      assert chunks[1..] == rest;
      RowsReadBack(rows[1..]);
      RowAppends(rows[0], Stream(rest));
      RowReadsBack(rows[0], Stream(rest), rows[1..]);
      assert [rows[0]] + rows[1..] == rows;
    }
  }

  lemma HeaderReads(rest: bytes)
    ensures ReadCopy(HEADER + rest) == TakeRows(rest)
  {
    var b := HEADER + rest;
    HeaderEnds();
    assert b[..11] == SIGNATURE && b[19..] == rest;
    assert forall k :: 11 <= k < 19 ==> b[k] == HEADER[k];
    ZeroAt(b, 11);
    ZeroAt(b, 15);
  }

  lemma HeaderEnds()
    ensures |HEADER| == 19 && HEADER[..11] == SIGNATURE && forall k :: 11 <= k < 19 ==> HEADER[k] == 0
  {
    assert PutU32(0, PutU32(0, [])) == [0, 0, 0, 0, 0, 0, 0, 0];
  }

  lemma ZeroAt(b: bytes, k: nat)
    requires k + 4 <= |b| && b[k] == b[k + 1] == b[k + 2] == b[k + 3] == 0
    ensures U32At(b[k..]) == 0
  {
    assert b[k..][2..] == b[k + 2..];
  }

  /** The chunks of any rows, put together, are read as exactly those rows. */
  lemma PayloadReadsBack(rows: seq<seq<Slot>>)
    requires forall i :: 0 <= i < |rows| ==> RowFits(rows[i])
    ensures ReadCopy(Stream(Payload(rows))) == Some(rows)
  {
    assert Payload(rows)[1..] == RowChunks(rows) + [TRAILER];
    RowsReadBack(rows);
    HeaderReads(Stream(RowChunks(rows) + [TRAILER]));
  }

  /** So rows of values arrive as they were: what the reader gets for a row decodes to the row, exactly
      when its present values can be told from NULL. */
  lemma ValuesArrive(s: Scalars, c: Codec, rows: seq<Value>, i: nat)
    requires s.RoundTrip() && i < |rows|
    requires forall k :: 0 <= k < |rows| ==> WellTyped(c, rows[k]) && Copyable(s, c, rows[k])
    ensures var got := ReadCopy(Stream(Payload(FieldRows(s, c, rows))));
      && got.Some? && |got.value| == |rows| && |got.value[i]| == Width(c)
      && (Decoded(s, c, got.value[i]) == Some(rows[i]) <==> Visible(c, rows[i]))
  {
    var fields := FieldRows(s, c, rows);
    PayloadReadsBack(fields);
    DecodingInverts(s, c, rows[i], []);
    assert fields[i] + [] == fields[i];
  }

  lemma KnownColumns(tail: bytes)
    ensures PutColumn(Some([0, 0, 0, 7]), tail) == [0, 0, 0, 4, 0, 0, 0, 7] + tail
    ensures PutColumn(Some([104, 105]), []) == [0, 0, 0, 2, 104, 105]
    ensures PutColumn(None, []) == [255, 255, 255, 255]
  {
    assert PutU16(0, PutU16(4, [0, 0, 0, 7] + tail)) == [0, 0, 0, 4, 0, 0, 0, 7] + tail;
    assert PutU16(0, PutU16(2, [104, 105] + [])) == [0, 0, 0, 2, 104, 105];
    assert PutU16(65535, PutU16(65535, [])) == [255, 255, 255, 255];
  }

  lemma KnownRow(last: Slot)
    ensures RowBytes([Some([0, 0, 0, 7]), last], []) == [0, 2, 0, 0, 0, 4, 0, 0, 0, 7] + PutColumn(last, [])
  {
    var number: Slot := Some([0, 0, 0, 7]);
    var row := [number, last];
    KnownColumns(PutColumn(last, []));
    assert row[1..] == [last] && [last][1..] == [];
    assert PutMany(PutColumn, [last], []) == PutColumn(last, []);
    assert PutMany(PutColumn, row, []) == PutColumn(number, PutColumn(last, []));
  }

  /** Two rows of a number and a text, as octets. */
  lemma KnownPayload()
    ensures var number, text: Slot := Some([0, 0, 0, 7]), Some([104, 105]);
      var chunks := Payload([[number, text], [number, None]]);
      && |chunks| == 4
      && chunks[0] == [80, 71, 67, 79, 80, 89, 10, 255, 13, 10, 0, 0, 0, 0, 0, 0, 0, 0, 0]
      && chunks[1] == [0, 2, 0, 0, 0, 4, 0, 0, 0, 7, 0, 0, 0, 2, 104, 105]
      && chunks[2] == [0, 2, 0, 0, 0, 4, 0, 0, 0, 7, 255, 255, 255, 255]
      && chunks[3] == [255, 255]
  {
    KnownRow(Some([104, 105]));
    KnownRow(None);
    KnownColumns([]);
  }
}

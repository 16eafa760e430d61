/**
 Decoding backend messages from a growing buffer: `crates/core/src/protocol/codec.rs`.

 `Buffer` is advanced in place by the `read_*` operations. `FrameReader.Feed` is what a framed
 transport does with a chunk of bytes: it appends the chunk and decodes until more bytes are needed.
 How the stream is cut into chunks makes no difference.
 */
module Framing {
  import opened Base
  import opened WireFormat
  import opened BackendMessages

  class Buffer {
    var src: bytes

    constructor (src: bytes)
      ensures this.src == src
    {
      this.src := src;
    }

    method ReadU8() returns (r: Result<byte, WireError>)
      modifies this
      ensures Reads(TakeU8(old(src)), r, src)
    {
      if src == [] {
        return Err(OutOfBytes);
      }
      r := Ok(src[0]);
      src := src[1..];
    }

    method ReadI16() returns (r: Result<i16, WireError>)
      modifies this
      ensures Reads(TakeI16(old(src)), r, src)
    {
      if |src| < 2 {
        return Err(OutOfBytes);
      }
      r := Ok(Signed16(U16At(src)));
      src := src[2..];
    }

    method ReadI32() returns (r: Result<i32, WireError>)
      modifies this
      ensures Reads(TakeI32(old(src)), r, src)
    {
      if |src| < 4 {
        return Err(OutOfBytes);
      }
      r := Ok(Signed32(U32At(src)));
      src := src[4..];
    }

    method ReadU32() returns (r: Result<u32, WireError>)
      modifies this
      ensures Reads(TakeU32(old(src)), r, src)
    {
      if |src| < 4 {
        return Err(OutOfBytes);
      }
      r := Ok(U32At(src));
      src := src[4..];
    }

    method ReadCStr() returns (r: Result<bytes, WireError>)
      modifies this
      ensures Reads(TakeText(old(src)), r, src)
    {
      var nul := 0;
      while nul < |src| && src[nul] != 0
        invariant nul <= |src| && forall i :: 0 <= i < nul ==> src[i] != 0
      {
        nul := nul + 1;
      }
      if nul == |src| {
        return Err(MissingNul);
      }
      NulAtIs(src, nul);
      var text := src[..nul];
      if !Utf8(text) {
        return Err(NotUtf8);
      }
      src := src[nul + 1..];
      return Ok(text);
    }

    method ReadCount() returns (r: Result<nat, WireError>)
      modifies this
      ensures Reads(TakeCount(old(src)), r, src)
    {
      var count := ReadI16();
      if count.Err? {
        return Err(count.error);
      }
      if count.value < 0 {
        return Err(NegativeCount(count.value));
      }
      return Ok(count.value);
    }

    method ReadFieldTypes(name: bytes) returns (r: Result<RowField, WireError>)
      modifies this
      ensures Reads(TakeFieldTypes(name, old(src)), r, src)
    {
      ghost var b := src;
      var table := ReadU32();
      if table.Err? { return Err(table.error); }
      var column := ReadI16();
      if column.Err? { return Err(column.error); }
      assert src == b[6..];
      var typ := ReadU32();
      if typ.Err? { return Err(typ.error); }
      assert src == b[10..];
      var size := ReadI16();
      if size.Err? { return Err(size.error); }
      assert src == b[12..];
      var modifier := ReadI32();
      if modifier.Err? { return Err(modifier.error); }
      assert src == b[16..];
      var format := ReadI16();
      if format.Err? { return Err(format.error); }
      assert src == b[18..];
      return Ok(RowField(name, table.value, column.value, typ.value, size.value, modifier.value, format.value));
    }

    method ReadRowField() returns (r: Result<RowField, WireError>)
      modifies this
      ensures Reads(TakeRowField(old(src)), r, src)
    {
      var name := ReadCStr();
      if name.Err? {
        return Err(name.error);
      }
      r := ReadFieldTypes(name.value);
    }

    method ReadColumn() returns (r: Result<Option<bytes>, WireError>)
      modifies this
      ensures Reads(TakeColumn(old(src)), r, src)
    {
      var length := ReadI32();
      if length.Err? {
        return Err(length.error);
      }
      if length.value == -1 {
        return Ok(None);
      }
      if length.value < 0 {
        return Err(BadColumnLength(length.value));
      }
      if |src| < length.value {
        return Err(TruncatedColumn);
      }
      r := Ok(Some(src[..length.value]));
      src := src[length.value..];
    }

    method ReadNextField(ghost whole: Read<seq<RowField>>, ghost fields: seq<RowField>, ghost n: nat)
        returns (r: Result<RowField, WireError>)
      requires n > 0 && Collecting(whole, fields, TakeRowField, n, src)
      modifies this
      ensures if r.Ok? then Collecting(whole, fields + [r.value], TakeRowField, n - 1, src) else whole == Bad(r.error)
    {
      ghost var before := src;
      r := ReadRowField();
      CollectOne(whole, fields, TakeRowField, n, before, r, src);
    }

    method ReadFieldList(count: nat) returns (r: Result<seq<RowField>, WireError>)
      modifies this
      ensures Reads(TakeMany(TakeRowField, count, old(src)), r, src)
    {
      var fields: seq<RowField> := [];
      ghost var whole := TakeMany(TakeRowField, count, src);
      CollectStart(TakeRowField, count, src);
      ghost var left := count;
      for i := 0 to count
        invariant left == count - i && Collecting(whole, fields, TakeRowField, left, src)
      {
        var field := ReadNextField(whole, fields, left);
        if field.Err? {
          return Err(field.error);
        }
        fields := fields + [field.value];
        left := left - 1;
      }
      CollectEnd(whole, fields, TakeRowField, src);
      return Ok(fields);
    }

    method ReadRowFields() returns (r: Result<seq<RowField>, WireError>)
      modifies this
      ensures Reads(Counted(old(src), TakeRowField), r, src)
    {
      var count := ReadCount();
      if count.Err? {
        return Err(count.error);
      }
      r := ReadFieldList(count.value);
    }

    method ReadColumnList(n: nat) returns (r: Result<seq<Option<bytes>>, WireError>)
      modifies this
      ensures Reads(TakeMany(TakeColumn, n, old(src)), r, src)
    {
      var columns: seq<Option<bytes>> := [];
      ghost var whole := TakeMany(TakeColumn, n, src);
      CollectStart(TakeColumn, n, src);
      ghost var left := n;
      for i := 0 to n
        invariant left == n - i && Collecting(whole, columns, TakeColumn, left, src)
      {
        ghost var before := src;
        var column := ReadColumn();
        CollectOne(whole, columns, TakeColumn, left, before, column, src);
        if column.Err? {
          return Err(column.error);
        }
        columns := columns + [column.value];
        left := left - 1;
      }
      CollectEnd(whole, columns, TakeColumn, src);
      return Ok(columns);
    }

    method ReadColumns() returns (r: Result<seq<Option<bytes>>, WireError>)
      modifies this
      ensures Reads(Counted(old(src), TakeColumn), r, src)
    {
      var count := ReadCount();
      if count.Err? {
        return Err(count.error);
      }
      r := ReadColumnList(count.value);
    }

    method ReadFormats() returns (r: Result<seq<i16>, WireError>)
      modifies this
      ensures Reads(Counted(old(src), TakeI16), r, src)
    {
      var count := ReadCount();
      if count.Err? {
        return Err(count.error);
      }
      var formats: seq<i16> := [];
      ghost var whole := TakeMany(TakeI16, count.value, src);
      CollectStart(TakeI16, count.value, src);
      ghost var left := count.value;
      for i := 0 to count.value
        invariant left == count.value - i && Collecting(whole, formats, TakeI16, left, src)
      {
        ghost var before := src;
        var format := ReadI16();
        CollectOne(whole, formats, TakeI16, left, before, format, src);
        if format.Err? {
          return Err(format.error);
        }
        formats := formats + [format.value];
        left := left - 1;
      }
      CollectEnd(whole, formats, TakeI16, src);
      return Ok(formats);
    }

    method ReadOids() returns (r: Result<seq<u32>, WireError>)
      modifies this
      ensures Reads(Counted(old(src), TakeU32), r, src)
    {
      var count := ReadCount();
      if count.Err? {
        return Err(count.error);
      }
      var oids: seq<u32> := [];
      ghost var whole := TakeMany(TakeU32, count.value, src);
      CollectStart(TakeU32, count.value, src);
      ghost var left := count.value;
      for i := 0 to count.value
        invariant left == count.value - i && Collecting(whole, oids, TakeU32, left, src)
      {
        ghost var before := src;
        var oid := ReadU32();
        CollectOne(whole, oids, TakeU32, left, before, oid, src);
        if oid.Err? {
          return Err(oid.error);
        }
        oids := oids + [oid.value];
        left := left - 1;
      }
      CollectEnd(whole, oids, TakeU32, src);
      return Ok(oids);
    }

    method ReadErrorFields() returns (r: Result<seq<ErrorField>, WireError>)
      modifies this
      ensures Reads(TakeErrorFields(old(src)), r, src)
    {
      var fields: seq<ErrorField> := [];
      ghost var whole := TakeErrorFields(src);
      assert whole.Got? ==> fields + whole.value == whole.value;
      while true
        invariant TakeErrorFields(old(src)) == Prepended(fields, TakeErrorFields(src))
        decreases |src|
      {
        var code := ReadU8();
        if code.Err? {
          return Err(code.error);
        }
        if code.value == 0 {
          assert fields + [] == fields;
          return Ok(fields);
        }
        var value := ReadCStr();
        if value.Err? {
          return Err(value.error);
        }
        var field := ErrorField(code.value, value.value);
        ghost var rest := TakeErrorFields(src);
        assert rest.Got? ==> fields + ([field] + rest.value) == (fields + [field]) + rest.value;
        fields := fields + [field];
      }
    }

    method ReadMechanisms() returns (r: Result<seq<bytes>, WireError>)
      modifies this
      ensures r == TakeMechanisms(old(src))
    {
      var names: seq<bytes> := [];
      ghost var whole := TakeMechanisms(src);
      assert whole.Ok? ==> names + whole.value == whole.value;
      while true
        invariant TakeMechanisms(old(src)) == Behind(names, TakeMechanisms(src))
        decreases |src|
      {
        if src == [] {
          return Err(MissingTerminator);
        }
        if src[0] == 0 {
          assert names + [] == names;
          return Ok(names);
        }
        var name := ReadCStr();
        if name.Err? {
          return Err(name.error);
        }
        ghost var rest := TakeMechanisms(src);
        assert rest.Ok? ==> names + ([name.value] + rest.value) == (names + [name.value]) + rest.value;
        names := names + [name.value];
      }
    }

    method DecodeAuth(code: i32) returns (r: Result<AuthRequest, WireError>)
      modifies this
      ensures r == AuthOf(code, old(src))
    {
      match code {
        case 0 => return Ok(AuthOk);
        case 3 => return Ok(CleartextPassword);
        case 5 =>
          if |src| != 4 {
            return Err(BadSaltLength(|src|));
          }
          return Ok(Md5Password(src));
        case 10 =>
          var names := ReadMechanisms();
          if names.Err? {
            return Err(names.error);
          }
          return Ok(SaslMechanisms(names.value));
        case 11 => return Ok(SaslContinue(src));
        case 12 => return Ok(SaslFinal(src));
        case _ => return Ok(Unsupported(code));
      }
    }
  }

  method DecodeText(tag: byte, body: Buffer) returns (r: Result<Message, WireError>)
    requires tag == TAG_PARAMETER_STATUS || tag == TAG_COMMAND_COMPLETE
    modifies body
    ensures r == BodyOf(tag, old(body.src))
  {
    var first := body.ReadCStr();
    if first.Err? {
      return Err(first.error);
    }
    if tag == TAG_COMMAND_COMPLETE {
      return Ok(CommandComplete(first.value));
    }
    var value := body.ReadCStr();
    if value.Err? {
      return Err(value.error);
    }
    return Ok(ParameterStatus(first.value, value.value));
  }

  method DecodeNumbers(tag: byte, body: Buffer) returns (r: Result<Message, WireError>)
    requires tag == TAG_AUTH || tag == TAG_BACKEND_KEY_DATA || tag == TAG_READY_FOR_QUERY
    modifies body
    ensures r == BodyOf(tag, old(body.src))
  {
    if tag == TAG_READY_FOR_QUERY {
      var status := body.ReadU8();
      if status.Err? {
        return Err(status.error);
      }
      return Ok(ReadyForQuery(status.value));
    }
    var first := body.ReadI32();
    if first.Err? {
      return Err(first.error);
    }
    if tag == TAG_AUTH {
      var request := body.DecodeAuth(first.value);
      if request.Err? {
        return Err(request.error);
      }
      return Ok(Authentication(request.value));
    }
    var key := body.ReadI32();
    if key.Err? {
      return Err(key.error);
    }
    return Ok(BackendKeyData(first.value, key.value));
  }

  method DecodeLists(tag: byte, body: Buffer) returns (r: Result<Message, WireError>)
    requires tag == TAG_ROW_DESCRIPTION || tag == TAG_DATA_ROW || tag == TAG_PARAMETER_DESCRIPTION
    modifies body
    ensures r == BodyOf(tag, old(body.src))
  {
    if tag == TAG_ROW_DESCRIPTION {
      var fields := body.ReadRowFields();
      return if fields.Ok? then Ok(RowDescription(fields.value)) else Err(fields.error);
    } else if tag == TAG_DATA_ROW {
      var columns := body.ReadColumns();
      return if columns.Ok? then Ok(DataRow(columns.value)) else Err(columns.error);
    } else {
      var oids := body.ReadOids();
      return if oids.Ok? then Ok(ParameterDescription(oids.value)) else Err(oids.error);
    }
  }

  method DecodeCopyIn(body: Buffer) returns (r: Result<Message, WireError>)
    modifies body
    ensures r == CopyInOf(old(body.src))
  {
    var format := body.ReadU8();
    if format.Err? {
      return Err(format.error);
    }
    var formats := body.ReadFormats();
    return if formats.Ok? then Ok(CopyInResponse(format.value, formats.value)) else Err(formats.error);
  }

  /** `decode_body`: one dispatch on the tag. */
  method DecodeBody(tag: byte, body: Buffer) returns (r: Result<Message, WireError>)
    modifies body
    ensures r == BodyOf(tag, old(body.src))
  {
    if tag == TAG_AUTH || tag == TAG_BACKEND_KEY_DATA || tag == TAG_READY_FOR_QUERY {
      r := DecodeNumbers(tag, body);
    } else if tag == TAG_PARAMETER_STATUS || tag == TAG_COMMAND_COMPLETE {
      r := DecodeText(tag, body);
    } else if tag == TAG_ROW_DESCRIPTION || tag == TAG_DATA_ROW || tag == TAG_PARAMETER_DESCRIPTION {
      r := DecodeLists(tag, body);
    } else if tag == TAG_COPY_IN_RESPONSE {
      r := DecodeCopyIn(body);
    } else if tag == TAG_ERROR_RESPONSE || tag == TAG_NOTICE_RESPONSE {
      var fields := body.ReadErrorFields();
      if fields.Err? {
        return Err(fields.error);
      }
      return Ok(if tag == TAG_ERROR_RESPONSE then ErrorResponse(fields.value) else NoticeResponse(fields.value));
    } else if tag == TAG_EMPTY_QUERY_RESPONSE {
      return Ok(EmptyQueryResponse);
    } else if tag == TAG_PARSE_COMPLETE {
      return Ok(ParseComplete);
    } else if tag == TAG_BIND_COMPLETE {
      return Ok(BindComplete);
    } else if tag == TAG_CLOSE_COMPLETE {
      return Ok(CloseComplete);
    } else if tag == TAG_NO_DATA {
      return Ok(NoData);
    } else if tag == TAG_PORTAL_SUSPENDED {
      return Ok(PortalSuspended);
    } else {
      return Ok(Other(tag, body.src));
    }
  }

  // ----- Frames -----------------------------------------------------------------------------------------

  /** How the bodies of frames are decoded; framing does not depend on it. */
  type BodyDecoder = (byte, bytes) -> Result<Message, WireError>

  /** What one `decode` makes of the buffer. */
  datatype Frame = NeedMore | Decoded(message: Message, rest: bytes) | Broken(error: WireError, left: bytes)

  function FrameOf(decode: BodyDecoder, src: bytes): Frame {
    if |src| < 5 then NeedMore
    else
      var len := U32At(src[1..]);
      if len < 4 then Broken(BadFrameLength(len), src)
      else if |src| < 1 + len then NeedMore
      else
        match decode(src[0], src[5..1 + len])
        case Ok(m) => Decoded(m, src[1 + len..])
        case Err(e) => Broken(e, src[1 + len..])
  }

  lemma FrameParts(tag: byte, body: bytes, tail: bytes, src: bytes)
    requires 4 + |body| < 0x1_0000_0000 && src == PutU8(tag, PutU32(4 + |body|, body + tail))
    ensures 5 + |body| <= |src| && src[0] == tag && U32At(src[1..]) == 4 + |body|
    ensures src[5..5 + |body|] == body && src[5 + |body|..] == tail
  {
    PutU32Shape(4 + |body|, body + tail);
    assert src[1..] == PutU32(4 + |body|, body + tail);
    assert src[5..] == src[1..][4..];
    assert src[5..5 + |body|] == src[5..][..|body|] && src[5 + |body|..] == src[5..][|body|..];
  }

  lemma PutBeforeTail(tag: byte, len: u32, body: bytes, tail: bytes)
    ensures PutU8(tag, PutU32(len, body)) + tail == PutU8(tag, PutU32(len, body + tail))
  {
    assert PutU32(len, body) + tail == PutU32(len, body + tail);
  }

  function FrameBytes(tag: byte, body: bytes): bytes {
    PutU8(tag, PutU32((4 + |body|) % 0x1_0000_0000, body))
  }

  function Framed(r: Result<Message, WireError>, tail: bytes): Frame {
    if r.Ok? then Decoded(r.value, tail) else Broken(r.error, tail)
  }

  lemma FrameOfParts(decode: BodyDecoder, src: bytes, body: bytes, tail: bytes)
    requires 5 + |body| <= |src| && U32At(src[1..]) == 4 + |body|
    requires src[5..5 + |body|] == body && src[5 + |body|..] == tail
    ensures FrameOf(decode, src) == Framed(decode(src[0], body), tail)
  {
  }

  lemma FrameOfBytes(decode: BodyDecoder, tag: byte, body: bytes, tail: bytes)
    requires 4 + |body| < 0x1_0000_0000
    ensures FrameOf(decode, FrameBytes(tag, body) + tail) == Framed(decode(tag, body), tail)
  {
    var src := FrameBytes(tag, body) + tail;
    PutBeforeTail(tag, 4 + |body|, body, tail);
    FrameParts(tag, body, tail, src);
    FrameOfParts(decode, src, body, tail);
  }

  /** Once something has been decoded, more bytes behind it change nothing. */
  lemma FrameIgnoresTail(decode: BodyDecoder, src: bytes, more: bytes)
    ensures FrameOf(decode, src).Decoded? ==>
              FrameOf(decode, src + more) == Decoded(FrameOf(decode, src).message, FrameOf(decode, src).rest + more)
    ensures FrameOf(decode, src).Broken? ==>
              FrameOf(decode, src + more) == Broken(FrameOf(decode, src).error, FrameOf(decode, src).left + more)
  {
    if |src| >= 5 {
      assert (src + more)[1..] == src[1..] + more;
      assert U32At((src + more)[1..]) == U32At(src[1..]);
      var len := U32At(src[1..]);
      if 4 <= len && 1 + len <= |src| {
        assert (src + more)[5..1 + len] == src[5..1 + len];
        assert (src + more)[1 + len..] == src[1 + len..] + more;
      }
    }
  }

  /** Decoding as far as the bytes allow: the messages, the error if there is one, and what is left. */
  datatype Drained = Drained(messages: seq<Message>, fault: Option<WireError>, left: bytes)

  function Drain(decode: BodyDecoder, src: bytes): Drained
    decreases |src|
  {
    match FrameOf(decode, src)
    case NeedMore => Drained([], None, src)
    case Broken(e, left) => Drained([], Some(e), left)
    case Decoded(m, rest) =>
      var more := Drain(decode, rest);
      Drained([m] + more.messages, more.fault, more.left)
  }

  /** A chunk added to what is left; after an error nothing more is decoded. */
  function Fed(decode: BodyDecoder, d: Drained, chunk: bytes): Drained {
    if d.fault.Some? then d.(left := d.left + chunk)
    else
      var more := Drain(decode, d.left + chunk);
      Drained(d.messages + more.messages, more.fault, more.left)
  }

  lemma {:induction false} DrainContinues(decode: BodyDecoder, src: bytes, more: bytes)
    ensures Drain(decode, src + more) == Fed(decode, Drain(decode, src), more)
    decreases |src|
  {
    FrameIgnoresTail(decode, src, more);
    var frame := FrameOf(decode, src);
    if frame.Decoded? {
      DrainContinues(decode, frame.rest, more);
      FedAfter(decode, frame.message, Drain(decode, frame.rest), more);
    } else if frame.NeedMore? {
      assert [] + Drain(decode, src + more).messages == Drain(decode, src + more).messages;
    }
  }

  lemma FedAfter(decode: BodyDecoder, m: Message, d: Drained, more: bytes)
    ensures Fed(decode, d.(messages := [m] + d.messages), more)
         == (var e := Fed(decode, d, more); e.(messages := [m] + e.messages))
  {
    var rest := Drain(decode, d.left + more).messages;
    assert [m] + (d.messages + rest) == ([m] + d.messages) + rest;
  }

  /** What is to come out in the end is what has been decoded and what is still to be decoded. */
  ghost predicate Continues(decode: BodyDecoder, whole: Drained, messages: seq<Message>, src: bytes) {
    var more := Drain(decode, src);
    whole == Drained(messages + more.messages, more.fault, more.left)
  }

  lemma DecodeContinues(decode: BodyDecoder, whole: Drained, messages: seq<Message>, src: bytes)
    requires Continues(decode, whole, messages, src)
    ensures match FrameOf(decode, src)
            case NeedMore => whole == Drained(messages, None, src)
            case Broken(e, left) => whole == Drained(messages, Some(e), left)
            case Decoded(m, rest) => Continues(decode, whole, messages + [m], rest)
  {
    assert messages + [] == messages;
    var frame := FrameOf(decode, src);
    if frame.Decoded? {
      var more := Drain(decode, frame.rest).messages;
      assert messages + ([frame.message] + more) == (messages + [frame.message]) + more;
    }
  }

  class FrameReader {
    var src: bytes
    var messages: seq<Message>
    var fault: Option<WireError>

    constructor ()
      ensures src == [] && messages == [] && fault == None
    {
      src, messages, fault := [], [], None;
    }

    /** `BackendCodec::decode`. */
    method Decode() returns (r: Result<Option<Message>, WireError>)
      modifies this`src
      ensures match FrameOf(BodyOf, old(src))
              case NeedMore => r == Ok(None) && src == old(src)
              case Decoded(m, rest) => r == Ok(Some(m)) && src == rest
              case Broken(e, left) => r == Err(e) && src == left
    {
      if |src| < 5 {
        return Ok(None);
      }
      var len: int := U32At(src[1..]);
      if len < 4 {
        return Err(BadFrameLength(len));
      }
      var total := 1 + len;
      if |src| < total {
        return Ok(None);
      }
      var tag := src[0];
      src := src[5..];
      var body := new Buffer(src[..len - 4]);
      src := src[len - 4..];
      assert old(src)[5..][..len - 4] == old(src)[5..total] && old(src)[5..][len - 4..] == old(src)[total..];
      var message := DecodeBody(tag, body);
      if message.Err? {
        return Err(message.error);
      }
      return Ok(Some(message.value));
    }

    /** A chunk has arrived; after an error nothing more is decoded. */
    method Feed(chunk: bytes)
      modifies this
      ensures State() == Fed(BodyOf, old(State()), chunk)
    {
      src := src + chunk;
      ghost var start := src;
      ghost var before := messages;
      if fault.Some? {
        return;
      }
      assert before + Drain(BodyOf, start).messages == Fed(BodyOf, old(State()), chunk).messages;
      while true
        invariant Continues(BodyOf, Fed(BodyOf, old(State()), chunk), messages, src) && fault == None
        decreases |src|
      {
        ghost var left := src;
        var r := Decode();
        DecodeContinues(BodyOf, Fed(BodyOf, old(State()), chunk), messages, left);
        if r.Err? {
          fault := Some(r.error);
          break;
        }
        if r.value.None? {
          break;
        }
        messages := messages + [r.value.value];
      }
    }

    function State(): Drained
      reads this
    {
      Drained(messages, fault, src)
    }
  }

  function FedAll(decode: BodyDecoder, d: Drained, chunks: seq<bytes>): Drained
    decreases |chunks|
  {
    if chunks == [] then d else FedAll(decode, Fed(decode, d, chunks[0]), chunks[1..])
  }

  function Joined(chunks: seq<bytes>): bytes {
    if chunks == [] then [] else chunks[0] + Joined(chunks[1..])
  }

  lemma FedTwice(decode: BodyDecoder, d: Drained, a: bytes, b: bytes)
    ensures Fed(decode, Fed(decode, d, a), b) == Fed(decode, d, a + b)
  {
    assert d.left + (a + b) == (d.left + a) + b;
    if d.fault.None? {
      DrainContinues(decode, d.left + a, b);
      var one := Drain(decode, d.left + a);
      var two := Drain(decode, one.left + b);
      assert d.messages + (one.messages + two.messages) == (d.messages + one.messages) + two.messages;
    }
  }

  lemma FedNothing(decode: BodyDecoder, d: Drained)
    requires d.fault.None? ==> FrameOf(decode, d.left) == NeedMore
    ensures Fed(decode, d, []) == d
  {
    assert d.left + [] == d.left && d.messages + [] == d.messages;
  }

  lemma {:induction false} FedAllIsFed(decode: BodyDecoder, d: Drained, chunks: seq<bytes>)
    requires d.fault.None? ==> FrameOf(decode, d.left) == NeedMore
    ensures FedAll(decode, d, chunks) == Fed(decode, d, Joined(chunks))
    decreases |chunks|
  {
    if chunks == [] {
      FedNothing(decode, d);
    } else {
      DrainStops(decode, d.left + chunks[0]);
      FedTwice(decode, d, chunks[0], Joined(chunks[1..]));
      FedAllIsFed(decode, Fed(decode, d, chunks[0]), chunks[1..]);
    }
  }

  lemma {:induction false} DrainStops(decode: BodyDecoder, src: bytes)
    ensures Drain(decode, src).fault.None? ==> FrameOf(decode, Drain(decode, src).left) == NeedMore
    decreases |src|
  {
    if FrameOf(decode, src).Decoded? {
      DrainStops(decode, FrameOf(decode, src).rest);
    }
  }

  /** Whatever chunks a stream is cut into, the same messages are decoded, with the same error and the
      same bytes left over. */
  lemma ChunksDoNotMatter(decode: BodyDecoder, chunks: seq<bytes>)
    ensures FedAll(decode, Drained([], None, []), chunks) == Drain(decode, Joined(chunks))
  {
    FedAllIsFed(decode, Drained([], None, []), chunks);
    assert [] + Joined(chunks) == Joined(chunks);
    var all := Drain(decode, Joined(chunks));
    assert [] + all.messages == all.messages;
  }

  /** `frame` is one whole frame for the decoder, with the outcome `r` whatever follows it. */
  ghost predicate IsFrameOf(decode: BodyDecoder, frame: bytes, r: Result<Message, WireError>) {
    forall t :: FrameOf(decode, frame + t) == Framed(r, t)
  }

  /** One more message in front of what a stream decodes to. */
  function AfterMessage(m: Message, d: Drained): Drained {
    Drained([m] + d.messages, d.fault, d.left)
  }

  lemma DrainsOne(decode: BodyDecoder, src: bytes, r: Result<Message, WireError>, rest: bytes)
    requires FrameOf(decode, src) == Framed(r, rest)
    ensures Drain(decode, src)
         == if r.Ok? then AfterMessage(r.value, Drain(decode, rest)) else Drained([], Some(r.error), rest)
  {
  }

  /** The messages up to the first refusal, which leaves the rest unread. */
  function UpToRefusal(frames: seq<bytes>, results: seq<Result<Message, WireError>>, tail: bytes): Drained
    requires |frames| == |results|
  {
    if frames == [] then Drained([], None, tail)
    else if results[0].Ok? then AfterMessage(results[0].value, UpToRefusal(frames[1..], results[1..], tail))
    else Drained([], Some(results[0].error), Joined(frames[1..]) + tail)
  }

  lemma {:induction false} FramesDrain(decode: BodyDecoder, frames: seq<bytes>,
                                       results: seq<Result<Message, WireError>>, tail: bytes)
    requires |frames| == |results| && forall i :: 0 <= i < |frames| ==> IsFrameOf(decode, frames[i], results[i])
    requires FrameOf(decode, tail) == NeedMore
    ensures Drain(decode, Joined(frames) + tail) == UpToRefusal(frames, results, tail)
  {
    if frames == [] {
      assert [] + tail == tail;
    } else {
      var rest := Joined(frames[1..]);
      FramesDrain(decode, frames[1..], results[1..], tail);
      assert (frames[0] + rest) + tail == frames[0] + (rest + tail);
      assert IsFrameOf(decode, frames[0], results[0]);
      DrainsOne(decode, frames[0] + (rest + tail), results[0], rest + tail);
    }
  }

  lemma {:induction false} RefusalAt(frames: seq<bytes>, results: seq<Result<Message, WireError>>, tail: bytes,
                                     messages: seq<Message>)
    requires |frames| == |results| && |messages| <= |results|
    requires forall i :: 0 <= i < |messages| ==> results[i] == Ok(messages[i])
    requires |messages| < |results| ==> results[|messages|].Err?
    ensures UpToRefusal(frames, results, tail)
         == if |messages| == |results| then Drained(messages, None, tail)
            else Drained(messages, Some(results[|messages|].error), Joined(frames[|messages| + 1..]) + tail)
  {
    if messages != [] {
      RefusalAt(frames[1..], results[1..], tail, messages[1..]);
      assert messages == [messages[0]] + messages[1..];
      assert |messages| < |results| ==> frames[1..][|messages[1..]| + 1..] == frames[|messages| + 1..];
    }
  }

  function Encode(m: Message): bytes {
    FrameBytes(TagOf(m), PutBody(m))
  }

  /** A whole message at the front of a buffer is decoded to what arrives of it, and exactly its bytes
      are consumed. */
  lemma FrameReadsBack(m: Message)
    requires Sendable(m)
    ensures IsFrameOf(BodyOf, Encode(m), Arrives(m))
  {
    BodyReadsBack(m);
    forall t
      ensures FrameOf(BodyOf, Encode(m) + t) == Framed(Arrives(m), t)
    {
      FrameOfBytes(BodyOf, TagOf(m), PutBody(m), t);
    }
  }

  function Frames(messages: seq<Message>): seq<bytes> {
    seq(|messages|, i requires 0 <= i < |messages| => Encode(messages[i]))
  }

  /** The length of the longest front of which every message arrives. */
  function Arriving(messages: seq<Message>): (n: nat)
    ensures n <= |messages| && (forall i :: 0 <= i < n ==> Arrives(messages[i]) == Ok(messages[i]))
    ensures n < |messages| ==> Arrives(messages[n]).Err?
  {
    if messages == [] || Arrives(messages[0]).Err? then 0 else 1 + Arriving(messages[1..])
  }

  function Arrivals(messages: seq<Message>): seq<Result<Message, WireError>> {
    seq(|messages|, i requires 0 <= i < |messages| => Arrives(messages[i]))
  }

  lemma MessagesDrain(messages: seq<Message>, tail: bytes)
    requires FrameOf(BodyOf, tail) == NeedMore && forall i :: 0 <= i < |messages| ==> Sendable(messages[i])
    ensures Drain(BodyOf, Joined(Frames(messages)) + tail) == UpToRefusal(Frames(messages), Arrivals(messages), tail)
  {
    forall i | 0 <= i < |messages|
      ensures IsFrameOf(BodyOf, Frames(messages)[i], Arrivals(messages)[i])
    {
      FrameReadsBack(messages[i]);
    }
    FramesDrain(BodyOf, Frames(messages), Arrivals(messages), tail);
  }

  lemma RefusalAmong(messages: seq<Message>, n: nat, tail: bytes)
    requires n == Arriving(messages)
    ensures UpToRefusal(Frames(messages), Arrivals(messages), tail)
         == if n == |messages| then Drained(messages, None, tail)
            else Drained(messages[..n], Some(Arrives(messages[n]).error), Joined(Frames(messages[n + 1..])) + tail)
  {
    RefusalAt(Frames(messages), Arrivals(messages), tail, messages[..n]);
    if n < |messages| {
      assert Frames(messages)[n + 1..] == Frames(messages[n + 1..]);
    } else {
      assert messages[..n] == messages;
    }
  }

  /** A server's messages arrive as they were sent, however the stream is cut, with an unfinished frame
      waiting in the buffer; or up to the first that is refused, with the error and the rest unread. */
  lemma StreamReadsBack(messages: seq<Message>, chunks: seq<bytes>, tail: bytes)
    requires forall i :: 0 <= i < |messages| ==> Sendable(messages[i])
    requires FrameOf(BodyOf, tail) == NeedMore && Joined(chunks) == Joined(Frames(messages)) + tail
    ensures var n := Arriving(messages);
      FedAll(BodyOf, Drained([], None, []), chunks)
      == if n == |messages| then Drained(messages, None, tail)
         else Drained(messages[..n], Some(Arrives(messages[n]).error), Joined(Frames(messages[n + 1..])) + tail)
  {
    ChunksDoNotMatter(BodyOf, chunks);
    MessagesDrain(messages, tail);
    RefusalAmong(messages, Arriving(messages), tail);
  }

  lemma KnownColumns(tail: bytes)
    ensures PutColumn(Some([88]), tail) == [0, 0, 0, 1, 88] + tail
    ensures PutColumn(None, []) == [255, 255, 255, 255]
  {
    assert PutU16(0, PutU16(1, [88] + tail)) == [0, 0, 0, 1, 88] + tail;
  }

  lemma KnownRow()
    ensures PutBody(DataRow([Some([88]), None])) == [0, 2, 0, 0, 0, 1, 88, 255, 255, 255, 255]
  {
    var columns: seq<Option<bytes>>, last: seq<Option<bytes>> := [Some([88]), None], [None];
    KnownColumns([255, 255, 255, 255]);
    assert columns[1..] == last && last[1..] == [];
    assert PutMany(PutColumn, last, []) == PutColumn(None, []);
    assert PutMany(PutColumn, columns, []) == PutColumn(Some([88]), PutColumn(None, []));
  }

  lemma KnownStart(tag: byte, body: bytes)
    requires |body| < 252
    ensures FrameBytes(tag, body) == [tag, 0, 0, 0, 4 + |body|] + body
  {
    assert PutU16(0, PutU16(4 + |body|, body)) == [0, 0, 0, 4 + |body|] + body;
  }

  lemma KnownLogin()
    ensures PutBody(Authentication(Md5Password([222, 173, 190, 239]))) == [0, 0, 0, 5, 222, 173, 190, 239]
  {
  }

  /** Three frames, as octets. */
  lemma KnownFrames()
    ensures Encode(ReadyForQuery(73)) == [90, 0, 0, 0, 5] + [73]
    ensures Encode(Authentication(Md5Password([222, 173, 190, 239])))
         == [82, 0, 0, 0, 12] + [0, 0, 0, 5, 222, 173, 190, 239]
    ensures Encode(DataRow([Some([88]), None])) == [68, 0, 0, 0, 15] + [0, 2, 0, 0, 0, 1, 88, 255, 255, 255, 255]
  {
    KnownLogin();
    KnownRow();
    KnownStart(90, [73]);
    KnownStart(82, [0, 0, 0, 5, 222, 173, 190, 239]);
    KnownStart(68, [0, 2, 0, 0, 0, 1, 88, 255, 255, 255, 255]);
  }
}

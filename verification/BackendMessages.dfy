/**
 Backend messages and their bodies on the wire: `decode_body` and `decode_auth` in
 `crates/core/src/protocol/codec.rs` as functions, beside an encoder that follows PostgreSQL 16,
 section 55.7 "Message Formats". Text is the UTF-8 bytes of a string.
 */
module BackendMessages {
  import opened Base
  import opened WireFormat

  datatype RowField = RowField(name: bytes, tableOid: u32, columnId: i16, typeOid: u32, typeSize: i16,
                               typeModifier: i32, format: i16)

  datatype AuthRequest =
    | AuthOk
    | CleartextPassword
    | Md5Password(salt: bytes)
    | SaslMechanisms(mechanisms: seq<bytes>)
    | SaslContinue(first: bytes)
    | SaslFinal(last: bytes)
    | Unsupported(code: i32)

  datatype ErrorField = ErrorField(code: byte, value: bytes)

  datatype Message =
    | Authentication(request: AuthRequest)
    | ParameterStatus(name: bytes, value: bytes)
    | BackendKeyData(processId: i32, secretKey: i32)
    | ReadyForQuery(status: byte)
    | RowDescription(fields: seq<RowField>)
    | DataRow(columns: seq<Option<bytes>>)
    | CopyInResponse(overallFormat: byte, columnFormats: seq<i16>)
    | CommandComplete(commandTag: bytes)
    | EmptyQueryResponse
    | ErrorResponse(errorFields: seq<ErrorField>)
    | NoticeResponse(noticeFields: seq<ErrorField>)
    | ParseComplete
    | BindComplete
    | CloseComplete
    | NoData
    | ParameterDescription(typeOids: seq<u32>)
    | PortalSuspended
    | Other(tag: byte, body: bytes)

  const TAG_AUTH: byte := 82                   // 'R'
  const TAG_PARAMETER_STATUS: byte := 83       // 'S'
  const TAG_BACKEND_KEY_DATA: byte := 75       // 'K'
  const TAG_READY_FOR_QUERY: byte := 90        // 'Z'
  const TAG_ROW_DESCRIPTION: byte := 84        // 'T'
  const TAG_DATA_ROW: byte := 68               // 'D'
  const TAG_COPY_IN_RESPONSE: byte := 71       // 'G'
  const TAG_COMMAND_COMPLETE: byte := 67       // 'C'
  const TAG_EMPTY_QUERY_RESPONSE: byte := 73   // 'I'
  const TAG_ERROR_RESPONSE: byte := 69         // 'E'
  const TAG_NOTICE_RESPONSE: byte := 78        // 'N'
  const TAG_PARSE_COMPLETE: byte := 49         // '1'
  const TAG_BIND_COMPLETE: byte := 50          // '2'
  const TAG_CLOSE_COMPLETE: byte := 51         // '3'
  const TAG_NO_DATA: byte := 110               // 'n'
  const TAG_PARAMETER_DESCRIPTION: byte := 116 // 't'
  const TAG_PORTAL_SUSPENDED: byte := 115      // 's'

  const KNOWN_TAGS: set<byte> := {TAG_AUTH, TAG_PARAMETER_STATUS, TAG_BACKEND_KEY_DATA, TAG_READY_FOR_QUERY,
    TAG_ROW_DESCRIPTION, TAG_DATA_ROW, TAG_COPY_IN_RESPONSE, TAG_COMMAND_COMPLETE, TAG_EMPTY_QUERY_RESPONSE,
    TAG_ERROR_RESPONSE, TAG_NOTICE_RESPONSE, TAG_PARSE_COMPLETE, TAG_BIND_COMPLETE, TAG_CLOSE_COMPLETE,
    TAG_NO_DATA, TAG_PARAMETER_DESCRIPTION, TAG_PORTAL_SUSPENDED}

  // ----- The parts of a body ------------------------------------------------------------------------------

  function TakeCount(b: bytes): Read<nat> {
    match TakeI16(b)
    case Bad(e) => Bad(e)
    case Got(n, rest) => if n < 0 then Bad(NegativeCount(n)) else Got(n, rest)
  }

  function PutCount(n: nat, tail: bytes): bytes {
    PutU16(n % 0x1_0000, tail)
  }

  function TakeRowField(b: bytes): Read<RowField> {
    match TakeText(b)
    case Bad(e) => Bad(e)
    case Got(name, rest) => TakeFieldTypes(name, rest)
  }

  /** The 18 bytes after the name. */
  function TakeFieldTypes(name: bytes, b: bytes): Read<RowField> {
    if |b| < 18 then Bad(OutOfBytes)
    else
      Got(RowField(name, U32At(b), I16At(b, 4), U32At(b[6..]), I16At(b, 10), I32At(b, 12), I16At(b, 16)), b[18..])
  }

  function I16At(b: bytes, i: nat): i16
    requires i + 2 <= |b|
  {
    Signed16(U16At(b[i..]))
  }

  function I32At(b: bytes, i: nat): i32
    requires i + 4 <= |b|
  {
    Signed32(U32At(b[i..]))
  }

  function PutRowField(f: RowField, tail: bytes): bytes {
    PutText(f.name, PutU32(f.tableOid, PutI16(f.columnId, PutU32(f.typeOid, PutTypeEnd(f, tail)))))
  }

  /** The size, modifier and format of the type. */
  function PutTypeEnd(f: RowField, tail: bytes): bytes {
    PutI16(f.typeSize, PutI32(f.typeModifier, PutI16(f.format, tail)))
  }

  lemma TypeEndReadsBack(f: RowField, tail: bytes)
    ensures var b := PutTypeEnd(f, tail);
      && |b| == 8 + |tail| && b[8..] == tail
      && I16At(b, 0) == f.typeSize && I32At(b, 2) == f.typeModifier && I16At(b, 6) == f.format
  {
    var t2 := PutI16(f.format, tail);
    var t1 := PutI32(f.typeModifier, t2);
    var b := PutTypeEnd(f, tail);
    IntegersReadBack(0, f.format, 0, 0, tail);
    IntegersReadBack(0, 0, f.typeModifier, 0, t2);
    IntegersReadBack(0, f.typeSize, 0, 0, t1);
    assert b[0..] == b && b[2..] == t1;
    assert b[6..] == t1[4..] == t2;
    assert b[8..] == t2[2..] == tail;
  }

  lemma TypeStartReadsBack(f: RowField, rest: bytes)
    ensures var b := PutU32(f.tableOid, PutI16(f.columnId, PutU32(f.typeOid, rest)));
      && |b| == 10 + |rest| && b[10..] == rest
      && U32At(b) == f.tableOid && I16At(b, 4) == f.columnId && U32At(b[6..]) == f.typeOid
  {
    var t2 := PutU32(f.typeOid, rest);
    var t1 := PutI16(f.columnId, t2);
    var b := PutU32(f.tableOid, t1);
    IntegersReadBack(0, 0, 0, f.typeOid, rest);
    IntegersReadBack(0, f.columnId, 0, 0, t2);
    IntegersReadBack(0, 0, 0, f.tableOid, t1);
    assert b[4..] == t1;
    assert b[6..] == t1[2..] == t2;
    assert b[10..] == t2[4..] == rest;
  }

  lemma TypesReadBack(f: RowField, tail: bytes)
    ensures TakeFieldTypes(f.name, PutU32(f.tableOid, PutI16(f.columnId, PutU32(f.typeOid, PutTypeEnd(f, tail)))))
         == Got(f, tail)
  {
    var rest := PutTypeEnd(f, tail);
    var b := PutU32(f.tableOid, PutI16(f.columnId, PutU32(f.typeOid, rest)));
    TypeEndReadsBack(f, tail);
    TypeStartReadsBack(f, rest);
    assert b[10..] == b[10..][0..] && b[12..] == b[10..][2..];
    assert b[16..] == b[10..][6..] && b[18..] == b[10..][8..];
  }

  lemma RowFieldReadsBack(f: RowField, tail: bytes)
    requires IsCString(f.name)
    ensures TakeRowField(PutRowField(f, tail)) == Got(f, tail)
  {
    var b := PutU32(f.tableOid, PutI16(f.columnId, PutU32(f.typeOid, PutTypeEnd(f, tail))));
    TypesReadBack(f, tail);
    TextReadsBack(f.name, b);
  }

  function TakeColumn(b: bytes): Read<Option<bytes>> {
    match TakeI32(b)
    case Bad(e) => Bad(e)
    case Got(length, rest) =>
      if length == -1 then Got(None, rest)
      else if length < 0 then Bad(BadColumnLength(length))
      else if |rest| < length then Bad(TruncatedColumn)
      else Got(Some(rest[..length]), rest[length..])
  }

  function PutColumn(c: Option<bytes>, tail: bytes): bytes {
    match c
    case None => PutI32(-1, tail)
    case Some(v) => PutU32(|v| % 0x1_0000_0000, v + tail)
  }

  lemma ValueReadsBack(v: bytes, tail: bytes, b: bytes)
    requires |v| < 0x8000_0000 && b == PutU32(|v|, v + tail)
    ensures TakeColumn(b) == Got(Some(v), tail)
  {
    PutU32Shape(|v|, v + tail);
    assert TakeI32(b) == Got(|v|, v + tail);
    assert (v + tail)[..|v|] == v;
    assert (v + tail)[|v|..] == tail;
  }

  lemma ColumnReadsBack(c: Option<bytes>, tail: bytes)
    requires c.Some? ==> |c.value| < 0x8000_0000
    ensures TakeColumn(PutColumn(c, tail)) == Got(c, tail)
  {
    if c.None? {
      IntegersReadBack(0, 0, -1, 0, tail);
    } else {
      ValueReadsBack(c.value, tail, PutColumn(c, tail));
    }
  }

  function TakeErrorFields(b: bytes): Read<seq<ErrorField>>
    decreases |b|
  {
    match TakeU8(b)
    case Bad(e) => Bad(e)
    case Got(code, rest) =>
      if code == 0 then Got([], rest)
      else
        var text := TakeText(rest);
        if text.Bad? then Bad(text.error)
        else
          var more := TakeErrorFields(text.rest);
          if more.Bad? then more else Got([ErrorField(code, text.value)] + more.value, more.rest)
  }

  function PutErrorFields(fields: seq<ErrorField>, tail: bytes): bytes {
    if fields == [] then PutU8(0, tail)
    else PutU8(fields[0].code, PutText(fields[0].value, PutErrorFields(fields[1..], tail)))
  }

  predicate ErrorFieldsOk(fields: seq<ErrorField>) {
    forall i :: 0 <= i < |fields| ==> fields[i].code != 0 && IsCString(fields[i].value)
  }

  lemma FirstErrorField(f: ErrorField, rest: bytes, more: seq<ErrorField>, tail: bytes)
    requires f.code != 0 && IsCString(f.value) && TakeErrorFields(rest) == Got(more, tail)
    ensures TakeErrorFields(PutU8(f.code, PutText(f.value, rest))) == Got([f] + more, tail)
  {
    var b := PutText(f.value, rest);
    TextReadsBack(f.value, rest);
    assert TakeU8(PutU8(f.code, b)) == Got(f.code, b);
  }

  lemma {:induction false} ErrorFieldsReadBack(fields: seq<ErrorField>, tail: bytes)
    requires ErrorFieldsOk(fields)
    ensures TakeErrorFields(PutErrorFields(fields, tail)) == Got(fields, tail)
  {
    if fields == [] {
      IntegersReadBack(0, 0, 0, 0, tail);
    } else {
      ErrorFieldsReadBack(fields[1..], tail);
      FirstErrorField(fields[0], PutErrorFields(fields[1..], tail), fields[1..], tail);
      assert [fields[0]] + fields[1..] == fields;
    }
  }

  function TakeMechanisms(b: bytes): Result<seq<bytes>, WireError>
    decreases |b|
  {
    if b == [] then Err(MissingTerminator)
    else if b[0] == 0 then Ok([])
    else
      var name := TakeText(b);
      if name.Bad? then Err(name.error)
      else
        var more := TakeMechanisms(name.rest);
        if more.Err? then more else Ok([name.value] + more.value)
  }

  function PutMechanisms(names: seq<bytes>): bytes {
    if names == [] then [0] else PutText(names[0], PutMechanisms(names[1..]))
  }

  predicate MechanismsOk(names: seq<bytes>) {
    forall i :: 0 <= i < |names| ==> names[i] != [] && IsCString(names[i])
  }

  lemma {:induction false} MechanismsReadBack(names: seq<bytes>)
    requires MechanismsOk(names)
    ensures TakeMechanisms(PutMechanisms(names)) == Ok(names)
  {
    if names != [] {
      MechanismsReadBack(names[1..]);
      TextReadsBack(names[0], PutMechanisms(names[1..]));
      assert PutMechanisms(names)[0] == names[0][0];
      assert [names[0]] + names[1..] == names;
    }
  }

  // ----- Bodies ------------------------------------------------------------------------------------------------

  function AuthOf(code: i32, body: bytes): Result<AuthRequest, WireError> {
    match code
    case 0 => Ok(AuthOk)
    case 3 => Ok(CleartextPassword)
    case 5 => if |body| != 4 then Err(BadSaltLength(|body|)) else Ok(Md5Password(body))
    case 10 => (match TakeMechanisms(body) case Ok(names) => Ok(SaslMechanisms(names)) case Err(e) => Err(e))
    case 11 => Ok(SaslContinue(body))
    case 12 => Ok(SaslFinal(body))
    case _ => Ok(Unsupported(code))
  }

  function PutAuth(request: AuthRequest): bytes {
    match request
    case AuthOk => PutI32(0, [])
    case CleartextPassword => PutI32(3, [])
    case Md5Password(salt) => PutI32(5, salt)
    case SaslMechanisms(names) => PutI32(10, PutMechanisms(names))
    case SaslContinue(data) => PutI32(11, data)
    case SaslFinal(data) => PutI32(12, data)
    case Unsupported(code) => PutI32(code, [])
  }

  function Counted<T>(b: bytes, take: bytes -> Read<T>): Read<seq<T>> {
    match TakeCount(b)
    case Bad(e) => Bad(e)
    case Got(n, rest) => TakeMany(take, n, rest)
  }

  function PutCounted<T>(put: (T, bytes) -> bytes, xs: seq<T>): bytes {
    PutCount(|xs|, PutMany(put, xs, []))
  }

  lemma CountedReadsBack<T>(take: bytes -> Read<T>, put: (T, bytes) -> bytes, xs: seq<T>)
    requires |xs| < 0x8000 && forall i, t :: 0 <= i < |xs| ==> take(put(xs[i], t)) == Got(xs[i], t)
    ensures Counted(PutCounted(put, xs), take) == Got(xs, [])
  {
    PutU16Shape(|xs|, PutMany(put, xs, []));
    ManyReadBack(take, put, xs, []);
  }

  function StatusOf(b: bytes): Result<Message, WireError> {
    match TakeText(b)
    case Bad(e) => Err(e)
    case Got(name, rest) =>
      match TakeText(rest)
      case Bad(e) => Err(e)
      case Got(value, _) => Ok(ParameterStatus(name, value))
  }

  function KeyDataOf(b: bytes): Result<Message, WireError> {
    match TakeI32(b)
    case Bad(e) => Err(e)
    case Got(pid, rest) =>
      match TakeI32(rest)
      case Bad(e) => Err(e)
      case Got(key, _) => Ok(BackendKeyData(pid, key))
  }

  function CopyInOf(b: bytes): Result<Message, WireError> {
    match TakeU8(b)
    case Bad(e) => Err(e)
    case Got(format, rest) =>
      match Counted(rest, TakeI16)
      case Bad(e) => Err(e)
      case Got(formats, _) => Ok(CopyInResponse(format, formats))
  }

  function AuthBodyOf(b: bytes): Result<Message, WireError> {
    match TakeI32(b)
    case Bad(e) => Err(e)
    case Got(code, rest) => (match AuthOf(code, rest) case Err(e) => Err(e) case Ok(a) => Ok(Authentication(a)))
  }

  /** A body that holds one value, and whatever follows it. */
  function Wrapped<T>(r: Read<T>, wrap: T -> Message): Result<Message, WireError> {
    match r
    case Bad(e) => Err(e)
    case Got(v, _) => Ok(wrap(v))
  }

  function BodyOf(tag: byte, b: bytes): Result<Message, WireError> {
    if tag == TAG_AUTH then AuthBodyOf(b)
    else if tag == TAG_PARAMETER_STATUS then StatusOf(b)
    else if tag == TAG_BACKEND_KEY_DATA then KeyDataOf(b)
    else if tag == TAG_READY_FOR_QUERY then Wrapped(TakeU8(b), s => ReadyForQuery(s))
    else if tag == TAG_ROW_DESCRIPTION then Wrapped(Counted(b, TakeRowField), fs => RowDescription(fs))
    else if tag == TAG_DATA_ROW then Wrapped(Counted(b, TakeColumn), cs => DataRow(cs))
    else if tag == TAG_COPY_IN_RESPONSE then CopyInOf(b)
    else if tag == TAG_COMMAND_COMPLETE then Wrapped(TakeText(b), t => CommandComplete(t))
    else if tag == TAG_EMPTY_QUERY_RESPONSE then Ok(EmptyQueryResponse)
    else if tag == TAG_ERROR_RESPONSE then Wrapped(TakeErrorFields(b), fs => ErrorResponse(fs))
    else if tag == TAG_NOTICE_RESPONSE then Wrapped(TakeErrorFields(b), fs => NoticeResponse(fs))
    else if tag == TAG_PARSE_COMPLETE then Ok(ParseComplete)
    else if tag == TAG_BIND_COMPLETE then Ok(BindComplete)
    else if tag == TAG_CLOSE_COMPLETE then Ok(CloseComplete)
    else if tag == TAG_NO_DATA then Ok(NoData)
    else if tag == TAG_PARAMETER_DESCRIPTION then Wrapped(Counted(b, TakeU32), os => ParameterDescription(os))
    else if tag == TAG_PORTAL_SUSPENDED then Ok(PortalSuspended)
    else Ok(Other(tag, b))
  }

  function TagOf(m: Message): byte {
    match m
    case Authentication(_) => TAG_AUTH
    case ParameterStatus(_, _) => TAG_PARAMETER_STATUS
    case BackendKeyData(_, _) => TAG_BACKEND_KEY_DATA
    case ReadyForQuery(_) => TAG_READY_FOR_QUERY
    case RowDescription(_) => TAG_ROW_DESCRIPTION
    case DataRow(_) => TAG_DATA_ROW
    case CopyInResponse(_, _) => TAG_COPY_IN_RESPONSE
    case CommandComplete(_) => TAG_COMMAND_COMPLETE
    case EmptyQueryResponse => TAG_EMPTY_QUERY_RESPONSE
    case ErrorResponse(_) => TAG_ERROR_RESPONSE
    case NoticeResponse(_) => TAG_NOTICE_RESPONSE
    case ParseComplete => TAG_PARSE_COMPLETE
    case BindComplete => TAG_BIND_COMPLETE
    case CloseComplete => TAG_CLOSE_COMPLETE
    case NoData => TAG_NO_DATA
    case ParameterDescription(_) => TAG_PARAMETER_DESCRIPTION
    case PortalSuspended => TAG_PORTAL_SUSPENDED
    case Other(tag, _) => tag
  }

  function PutBody(m: Message): bytes {
    match m
    case Authentication(request) => PutAuth(request)
    case ParameterStatus(name, value) => PutText(name, PutText(value, []))
    case BackendKeyData(pid, key) => PutI32(pid, PutI32(key, []))
    case ReadyForQuery(status) => PutU8(status, [])
    case RowDescription(fields) => PutCounted(PutRowField, fields)
    case DataRow(columns) => PutCounted(PutColumn, columns)
    case CopyInResponse(format, formats) => PutU8(format, PutCounted(PutI16, formats))
    case CommandComplete(tag) => PutText(tag, [])
    case ErrorResponse(fields) => PutErrorFields(fields, [])
    case NoticeResponse(fields) => PutErrorFields(fields, [])
    case ParameterDescription(oids) => PutCounted(PutU32, oids)
    case Other(_, body) => body
    case _ => []
  }

  predicate AuthOkToSend(request: AuthRequest) {
    match request
    case Md5Password(salt) => |salt| == 4
    case SaslMechanisms(names) => MechanismsOk(names)
    case Unsupported(code) => code !in {0, 3, 5, 10, 11, 12}
    case _ => true
  }

  /** The messages that a server can send: counts and lengths fit their fields, text has no NUL. */
  predicate Sendable(m: Message) {
    && |PutBody(m)| < 0xFFFF_FFFC
    && match m
       case Authentication(request) => AuthOkToSend(request)
       case ParameterStatus(name, value) => IsCString(name) && IsCString(value)
       case RowDescription(fields) =>
         |fields| < 0x8000 && forall i :: 0 <= i < |fields| ==> IsCString(fields[i].name)
       case DataRow(columns) =>
         |columns| < 0x8000
         && forall i :: 0 <= i < |columns| ==> columns[i].Some? ==> |columns[i].value| < 0x8000_0000
       case CopyInResponse(_, formats) => |formats| < 0x8000
       case CommandComplete(tag) => IsCString(tag)
       case ErrorResponse(fields) => ErrorFieldsOk(fields)
       case NoticeResponse(fields) => ErrorFieldsOk(fields)
       case ParameterDescription(oids) => |oids| < 0x1_0000
       case Other(tag, _) => tag !in KNOWN_TAGS
       case _ => true
  }

  /** What decoding makes of an encoded message: the count of parameters is read as a signed number. */
  function Arrives(m: Message): Result<Message, WireError> {
    if m.ParameterDescription? && |m.typeOids| >= 0x8000 then Err(NegativeCount(|m.typeOids| - 0x1_0000)) else Ok(m)
  }

  lemma AuthReadsBack(request: AuthRequest)
    requires AuthOkToSend(request)
    ensures AuthBodyOf(PutAuth(request)) == Ok(Authentication(request))
  {
    match request {
      case AuthOk => IntegersReadBack(0, 0, 0, 0, []);
      case CleartextPassword => IntegersReadBack(0, 0, 3, 0, []);
      case Md5Password(salt) => IntegersReadBack(0, 0, 5, 0, salt);
      case SaslMechanisms(names) =>
        MechanismsReadBack(names);
        IntegersReadBack(0, 0, 10, 0, PutMechanisms(names));
      case SaslContinue(data) => IntegersReadBack(0, 0, 11, 0, data);
      case SaslFinal(data) => IntegersReadBack(0, 0, 12, 0, data);
      case Unsupported(code) => IntegersReadBack(0, 0, code, 0, []);
    }
  }

  lemma RowFieldsReadBack(fields: seq<RowField>)
    requires |fields| < 0x8000 && forall i :: 0 <= i < |fields| ==> IsCString(fields[i].name)
    ensures Counted(PutCounted(PutRowField, fields), TakeRowField) == Got(fields, [])
  {
    forall i, t | 0 <= i < |fields|
      ensures TakeRowField(PutRowField(fields[i], t)) == Got(fields[i], t)
    {
      RowFieldReadsBack(fields[i], t);
    }
    CountedReadsBack(TakeRowField, PutRowField, fields);
  }

  lemma ColumnsReadBack(columns: seq<Option<bytes>>)
    requires |columns| < 0x8000
    requires forall i :: 0 <= i < |columns| ==> columns[i].Some? ==> |columns[i].value| < 0x8000_0000
    ensures Counted(PutCounted(PutColumn, columns), TakeColumn) == Got(columns, [])
  {
    forall i, t | 0 <= i < |columns|
      ensures TakeColumn(PutColumn(columns[i], t)) == Got(columns[i], t)
    {
      ColumnReadsBack(columns[i], t);
    }
    CountedReadsBack(TakeColumn, PutColumn, columns);
  }

  lemma FormatsReadBack(formats: seq<i16>)
    requires |formats| < 0x8000
    ensures Counted(PutCounted(PutI16, formats), TakeI16) == Got(formats, [])
  {
    forall i, t | 0 <= i < |formats|
      ensures TakeI16(PutI16(formats[i], t)) == Got(formats[i], t)
    {
      IntegersReadBack(0, formats[i], 0, 0, t);
    }
    CountedReadsBack(TakeI16, PutI16, formats);
  }

  lemma OidsReadBack(oids: seq<u32>)
    requires |oids| < 0x8000
    ensures Counted(PutCounted(PutU32, oids), TakeU32) == Got(oids, [])
  {
    forall i, t | 0 <= i < |oids|
      ensures TakeU32(PutU32(oids[i], t)) == Got(oids[i], t)
    {
      IntegersReadBack(0, 0, 0, oids[i], t);
    }
    CountedReadsBack(TakeU32, PutU32, oids);
  }

  lemma CopyInReadsBack(format: byte, formats: seq<i16>)
    requires |formats| < 0x8000
    ensures CopyInOf(PutU8(format, PutCounted(PutI16, formats))) == Ok(CopyInResponse(format, formats))
  {
    FormatsReadBack(formats);
    IntegersReadBack(format, 0, 0, 0, PutCounted(PutI16, formats));
  }

  lemma StatusReadsBack(name: bytes, value: bytes)
    requires IsCString(name) && IsCString(value)
    ensures StatusOf(PutText(name, PutText(value, []))) == Ok(ParameterStatus(name, value))
  {
    TextReadsBack(value, []);
    TextReadsBack(name, PutText(value, []));
  }

  lemma KeyDataReadsBack(pid: i32, key: i32)
    ensures KeyDataOf(PutI32(pid, PutI32(key, []))) == Ok(BackendKeyData(pid, key))
  {
    IntegersReadBack(0, 0, key, 0, []);
    IntegersReadBack(0, 0, pid, 0, PutI32(key, []));
  }

  predicate HasNoBody(m: Message) {
    m.EmptyQueryResponse? || m.ParseComplete? || m.BindComplete? || m.CloseComplete? || m.NoData? || m.PortalSuspended?
  }

  lemma TagReadsBack(m: Message)
    requires HasNoBody(m) || (m.Other? && m.tag !in KNOWN_TAGS)
    ensures BodyOf(TagOf(m), PutBody(m)) == Ok(m)
  {
  }

  lemma FieldListIs(b: bytes, fields: seq<RowField>)
    requires Counted(b, TakeRowField) == Got(fields, [])
    ensures BodyOf(TAG_ROW_DESCRIPTION, b) == Ok(RowDescription(fields))
  {
  }

  lemma ColumnListIs(b: bytes, columns: seq<Option<bytes>>)
    requires Counted(b, TakeColumn) == Got(columns, [])
    ensures BodyOf(TAG_DATA_ROW, b) == Ok(DataRow(columns))
  {
  }

  lemma OidListIs(b: bytes, oids: seq<u32>)
    requires Counted(b, TakeU32) == Got(oids, [])
    ensures BodyOf(TAG_PARAMETER_DESCRIPTION, b) == Ok(ParameterDescription(oids))
  {
  }

  lemma OverlongOids(oids: seq<u32>)
    requires 0x8000 <= |oids| < 0x1_0000
    ensures BodyOf(TAG_PARAMETER_DESCRIPTION, PutCounted(PutU32, oids)) == Err(NegativeCount(|oids| - 0x1_0000))
  {
    PutU16Shape(|oids|, PutMany(PutU32, oids, []));
    assert TakeCount(PutCounted(PutU32, oids)) == Bad(NegativeCount(|oids| - 0x1_0000));
    assert Counted(PutCounted(PutU32, oids), TakeU32) == Bad(NegativeCount(|oids| - 0x1_0000));
  }

  lemma CopyInIs(b: bytes, m: Message)
    requires CopyInOf(b) == Ok(m)
    ensures BodyOf(TAG_COPY_IN_RESPONSE, b) == Ok(m)
  {
  }

  lemma CompletionReadsBack(m: Message)
    requires Sendable(m) && (m.CommandComplete? || m.ReadyForQuery?)
    ensures BodyOf(TagOf(m), PutBody(m)) == Ok(m)
  {
    if m.ReadyForQuery? {
      IntegersReadBack(m.status, 0, 0, 0, []);
    } else {
      TextReadsBack(m.commandTag, []);
    }
  }

  lemma FieldsBodyIs(b: bytes, fields: seq<ErrorField>)
    requires TakeErrorFields(b) == Got(fields, [])
    ensures BodyOf(TAG_ERROR_RESPONSE, b) == Ok(ErrorResponse(fields))
    ensures BodyOf(TAG_NOTICE_RESPONSE, b) == Ok(NoticeResponse(fields))
  {
  }

  lemma SessionBodyReadsBack(m: Message)
    requires Sendable(m) && (m.Authentication? || m.ParameterStatus? || m.BackendKeyData?)
    ensures BodyOf(TagOf(m), PutBody(m)) == Ok(m)
  {
    match m {
      case Authentication(request) => AuthReadsBack(request);
      case ParameterStatus(name, value) => StatusReadsBack(name, value);
      case BackendKeyData(pid, key) => KeyDataReadsBack(pid, key);
    }
  }

  /** Decoding inverts the encoding of every message that a server can send, but for the description
      of 0x8000 parameters or more, which it refuses. */
  lemma BodyReadsBack(m: Message)
    requires Sendable(m)
    ensures BodyOf(TagOf(m), PutBody(m)) == Arrives(m)
  {
    if m.RowDescription? {
      RowFieldsReadBack(m.fields);
      FieldListIs(PutBody(m), m.fields);
    } else if m.DataRow? {
      ColumnsReadBack(m.columns);
      ColumnListIs(PutBody(m), m.columns);
    } else if m.CopyInResponse? {
      CopyInReadsBack(m.overallFormat, m.columnFormats);
      CopyInIs(PutBody(m), m);
    } else if m.ParameterDescription? {
      if |m.typeOids| >= 0x8000 {
        OverlongOids(m.typeOids);
      } else {
        OidsReadBack(m.typeOids);
        OidListIs(PutBody(m), m.typeOids);
      }
    } else if m.CommandComplete? || m.ReadyForQuery? {
      CompletionReadsBack(m);
    } else if m.ErrorResponse? {
      ErrorFieldsReadBack(m.errorFields, []);
      FieldsBodyIs(PutBody(m), m.errorFields);
    } else if m.NoticeResponse? {
      ErrorFieldsReadBack(m.noticeFields, []);
      FieldsBodyIs(PutBody(m), m.noticeFields);
    } else if m.Authentication? || m.ParameterStatus? || m.BackendKeyData? {
      SessionBodyReadsBack(m);
    } else {
      TagReadsBack(m);
    }
  }
}

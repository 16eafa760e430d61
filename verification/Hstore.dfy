/**
 The hstore text codec: `crates/core/src/codec/hstore.rs`. Strings are their UTF-8 bytes, in which a
 quote or a backslash occurs only as itself, so escaping by bytes is escaping by characters. An
 hstore is printed from its entries, each key once.
 */
module Hstore {
  import opened Base
  import opened WireFormat

  type Entry = (bytes, Option<bytes>)

  datatype HstoreError =
    | ExpectedQuote
    | UnterminatedEscape
    | UnterminatedString
    | NotText
    | Expected(token: bytes)
    | NoColumn
    | NullColumn

  datatype Taken<+T> = Taken(value: T, rest: bytes) | Wrong(error: HstoreError)

  const QUOTE: byte := 34
  const BACKSLASH: byte := 92
  const COMMA: byte := 44
  const SPACE: byte := 32
  const EQUALS: byte := 61
  const GREATER: byte := 62
  const LETTER_N: byte := 78
  const NULL_TEXT: bytes := [78, 85, 76, 76]

  // ----- Printing ------------------------------------------------------------------------------------

  predicate Special(b: byte) {
    b == QUOTE || b == BACKSLASH
  }

  function Escaped(s: bytes): bytes {
    if s == [] then [] else (if Special(s[0]) then [BACKSLASH, s[0]] else [s[0]]) + Escaped(s[1..])
  }

  function Quoted(s: bytes): bytes {
    [QUOTE] + (Escaped(s) + [QUOTE])
  }

  function ValueText(v: Option<bytes>): bytes {
    if v.Some? then Quoted(v.value) else NULL_TEXT
  }

  function EntryText(e: Entry): bytes {
    Quoted(e.0) + ([EQUALS, GREATER] + ValueText(e.1))
  }

  function Printed(entries: seq<Entry>): bytes {
    if entries == [] then []
    else if |entries| == 1 then EntryText(entries[0])
    else EntryText(entries[0]) + ([COMMA, SPACE] + Printed(entries[1..]))
  }

  lemma {:induction false} EscapedAppends(a: bytes, b: bytes)
    ensures Escaped(a + b) == Escaped(a) + Escaped(b)
  {
    if a == [] {
      assert a + b == b;
    } else {
      assert (a + b)[1..] == a[1..] + b;
      EscapedAppends(a[1..], b);
    }
  }

  lemma PrintedMore(entries: seq<Entry>, e: Entry)
    requires entries != []
    ensures Printed(entries + [e]) == Printed(entries) + ([COMMA, SPACE] + EntryText(e))
  {
    if |entries| == 1 {
      assert (entries + [e])[1..] == [e];
    } else {
      assert (entries + [e])[1..] == entries[1..] + [e];
      PrintedMore(entries[1..], e);
      var first, more, last := EntryText(entries[0]), Printed(entries[1..]), [COMMA, SPACE] + EntryText(e);
      assert first + ([COMMA, SPACE] + (more + last)) == (first + ([COMMA, SPACE] + more)) + last;
    }
  }

  class Output {
    var text: bytes

    constructor ()
      ensures text == []
    {
      text := [];
    }

    method PushQuoted(s: bytes)
      modifies this
      ensures text == old(text) + Quoted(s)
    {
      text := text + [QUOTE];
      ghost var start := text;
      for i := 0 to |s|
        invariant text == start + Escaped(s[..i])
      {
        assert s[..i + 1] == s[..i] + [s[i]];
        EscapedAppends(s[..i], [s[i]]);
        if Special(s[i]) {
          text := text + [BACKSLASH];
        }
        text := text + [s[i]];
      }
      assert s[..|s|] == s;
      text := text + [QUOTE];
    }

    method PushEntry(e: Entry)
      modifies this
      ensures text == old(text) + EntryText(e)
    {
      PushQuoted(e.0);
      text := text + [EQUALS, GREATER];
      match e.1 {
        case Some(value) => PushQuoted(value);
        case None => text := text + NULL_TEXT;
      }
    }
  }

  lemma PrintedNext(entries: seq<Entry>, i: nat)
    requires i < |entries|
    ensures Printed(entries[..i + 1])
         == (if i == 0 then [] else Printed(entries[..i]) + [COMMA, SPACE]) + EntryText(entries[i])
  {
    assert entries[..i + 1] == entries[..i] + [entries[i]];
    if i > 0 {
      PrintedMore(entries[..i], entries[i]);
    }
  }

  method Encode(entries: seq<Entry>) returns (text: bytes)
    ensures text == Printed(entries)
  {
    var out := new Output();
    for index := 0 to |entries|
      invariant out.text == Printed(entries[..index])
    {
      PrintedNext(entries, index);
      if index > 0 {
        out.text := out.text + [COMMA, SPACE];
      }
      out.PushEntry(entries[index]);
    }
    assert entries[..|entries|] == entries;
    return out.text;
  }

  // ----- Parsing ------------------------------------------------------------------------------------------

  predicate IsSpace(b: byte) {
    b == 32 || b == 9 || b == 10 || b == 13
  }

  function Skipped(b: bytes): (r: bytes)
    ensures |r| <= |b|
  {
    if b != [] && IsSpace(b[0]) then Skipped(b[1..]) else b
  }

  function Past(token: bytes, b: bytes): Taken<()> {
    if |token| <= |b| && b[..|token|] == token then Taken((), b[|token|..]) else Wrong(Expected(token))
  }

  function TakeEscaped(b: bytes): (r: Taken<bytes>)
    ensures r.Taken? ==> |r.rest| < |b|
    decreases |b|
  {
    if b == [] then Wrong(UnterminatedString)
    else if b[0] == QUOTE then Taken([], b[1..])
    else if b[0] == BACKSLASH && |b| < 2 then Wrong(UnterminatedEscape)
    else
      var n := if b[0] == BACKSLASH then 2 else 1;
      var more := TakeEscaped(b[n..]);
      if more.Wrong? then more else Taken([b[n - 1]] + more.value, more.rest)
  }

  function TakeQuoted(b: bytes): (r: Taken<bytes>)
    ensures r.Taken? ==> |r.rest| < |b|
  {
    if b == [] || b[0] != QUOTE then Wrong(ExpectedQuote)
    else
      var text := TakeEscaped(b[1..]);
      if text.Taken? && !Utf8(text.value) then Wrong(NotText) else text
  }

  function TakeValue(b: bytes): (r: Taken<Option<bytes>>)
    ensures r.Taken? ==> |r.rest| < |b|
  {
    if b != [] && b[0] == LETTER_N then
      match Past(NULL_TEXT, b)
      case Taken(_, rest) => Taken(None, rest)
      case Wrong(e) => Wrong(e)
    else
      match TakeQuoted(b)
      case Taken(v, rest) => Taken(Some(v), rest)
      case Wrong(e) => Wrong(e)
  }

  function TakeEntry(b: bytes): (r: Taken<Entry>)
    ensures r.Taken? ==> |r.rest| < |b|
  {
    var key := TakeQuoted(b);
    if key.Wrong? then Wrong(key.error) else
    var equals := Past([EQUALS], Skipped(key.rest));
    if equals.Wrong? then Wrong(equals.error) else
    var arrow := Past([GREATER], equals.rest);
    if arrow.Wrong? then Wrong(arrow.error) else
    var value := TakeValue(Skipped(arrow.rest));
    if value.Wrong? then Wrong(value.error) else Taken((key.value, value.value), value.rest)
  }

  /** The entries from here to the end; a comma may be the last thing. */
  function EntriesOf(b: bytes): Result<seq<Entry>, HstoreError>
    decreases |b|
  {
    if b == [] then Ok([])
    else
      var e := TakeEntry(b);
      if e.Wrong? then Err(e.error)
      else
        var rest := Skipped(e.rest);
        if rest == [] then Ok([e.value])
        else if rest[0] != COMMA then Err(Expected([COMMA]))
        else
          var more := EntriesOf(Skipped(rest[1..]));
          if more.Err? then more else Ok([e.value] + more.value)
  }

  /** The map that results from inserting the entries in order. */
  function MapOf(entries: seq<Entry>): map<bytes, Option<bytes>> {
    if entries == [] then map[]
    else
      var last := entries[|entries| - 1];
      MapOf(entries[..|entries| - 1])[last.0 := last.1]
  }

  function Parsed(b: bytes): Result<map<bytes, Option<bytes>>, HstoreError> {
    match EntriesOf(Skipped(b))
    case Ok(entries) => Ok(MapOf(entries))
    case Err(e) => Err(e)
  }

  class Cursor {
    const text: bytes
    var at: nat

    constructor (text: bytes)
      ensures this.text == text && at == 0
    {
      this.text := text;
      at := 0;
    }

    predicate Valid()
      reads this
    {
      at <= |text|
    }

    function Rest(): bytes
      reads this
      requires Valid()
    {
      text[at..]
    }

    method SkipWs()
      requires Valid()
      modifies this
      ensures Valid() && old(at) <= at && Rest() == Skipped(old(Rest()))
    {
      while at < |text| && IsSpace(text[at])
        invariant Valid() && old(at) <= at && Skipped(Rest()) == Skipped(old(Rest()))
      {
        assert text[at..][1..] == text[at + 1..];
        at := at + 1;
      }
    }

    method Expect(token: bytes) returns (r: Result<(), HstoreError>)
      requires Valid()
      modifies this
      ensures Valid() && old(at) <= at
      ensures match Past(token, old(Rest()))
              case Taken(_, rest) => r == Ok(()) && Rest() == rest
              case Wrong(e) => r == Err(e)
    {
      assert forall n :: 0 <= n <= |text| - at ==> text[at..][..n] == text[at..at + n];
      if at + |token| <= |text| && text[at..at + |token|] == token {
        assert text[at..][|token|..] == text[at + |token|..];
        at := at + |token|;
        return Ok(());
      }
      return Err(Expected(token));
    }

    /** After an entry comes the end, or a comma and more. */
    method EndEntry(ghost whole: Result<seq<Entry>, HstoreError>, ghost done: seq<Entry>)
      returns (r: Result<bool, HstoreError>)
      requires Valid() && EntryEnds(whole, done, Rest())
      modifies this
      ensures Valid() && old(at) <= at
      ensures match r
              case Err(e) => whole == Err(e)
              case Ok(more) => whole == if more then Behind(done, EntriesOf(Rest())) else Ok(done)
      ensures r == Ok(true) ==> |Rest()| < |old(Rest())|
    {
      SkipWs();
      if at >= |text| {
        return Ok(false);
      }
      CommaIs(Rest());
      var comma := Expect([COMMA]);
      if comma.Err? {
        return Err(comma.error);
      }
      SkipWs();
      return Ok(true);
    }

    method ParseQuoted() returns (r: Result<bytes, HstoreError>)
      requires Valid()
      modifies this
      ensures Valid() && old(at) <= at
      ensures match TakeQuoted(old(Rest()))
              case Taken(v, rest) => r == Ok(v) && Rest() == rest
              case Wrong(e) => r == Err(e)
    {
      if at == |text| || text[at] != QUOTE {
        return Err(ExpectedQuote);
      }
      at := at + 1;
      assert old(Rest())[1..] == Rest();
      r, at := ScanEscaped(text, at);
      if r.Ok? && !Utf8(r.value) {
        return Err(NotText);
      }
    }

    method ParseValue() returns (r: Result<Option<bytes>, HstoreError>)
      requires Valid()
      modifies this
      ensures Valid() && old(at) <= at
      ensures match TakeValue(old(Rest()))
              case Taken(v, rest) => r == Ok(v) && Rest() == rest
              case Wrong(e) => r == Err(e)
    {
      if at < |text| && text[at] == LETTER_N {
        var word := Expect(NULL_TEXT);
        return if word.Ok? then Ok(None) else Err(word.error);
      }
      var value := ParseQuoted();
      return if value.Ok? then Ok(Some(value.value)) else Err(value.error);
    }

    method ParseEntry() returns (r: Result<Entry, HstoreError>)
      requires Valid()
      modifies this
      ensures Valid()
      ensures match TakeEntry(old(Rest()))
              case Taken(v, rest) => r == Ok(v) && Rest() == rest
              case Wrong(e) => r == Err(e)
    {
      var key := ParseQuoted();
      if key.Err? {
        return Err(key.error);
      }
      SkipWs();
      var equals := Expect([EQUALS]);
      if equals.Err? {
        return Err(equals.error);
      }
      var arrow := Expect([GREATER]);
      if arrow.Err? {
        return Err(arrow.error);
      }
      SkipWs();
      var value := ParseValue();
      if value.Err? {
        return Err(value.error);
      }
      return Ok((key.value, value.value));
    }
  }

  ghost function TextAfter(done: bytes, more: Taken<bytes>): Taken<bytes> {
    if more.Wrong? then more else Taken(done + more.value, more.rest)
  }

  /** What is read in the end is what has been read and what is still to be read. */
  ghost predicate Unescaping(text: bytes, whole: Taken<bytes>, done: bytes, at: nat) {
    at <= |text| && whole == TextAfter(done, TakeEscaped(text[at..]))
  }

  /** The text has been read as far as its closing quote, or is wrong. */
  ghost predicate Unescaped(whole: Taken<bytes>, r: Result<bytes, HstoreError>, text: bytes, at: nat) {
    if whole.Taken? then r == Ok(whole.value) && at <= |text| && text[at..] == whole.rest else r == Err(whole.error)
  }

  lemma UnescapingStarts(text: bytes, at: nat)
    requires at <= |text|
    ensures Unescaping(text, TakeEscaped(text[at..]), [], at)
  {
    var whole := TakeEscaped(text[at..]);
    assert whole.Taken? ==> [] + whole.value == whole.value;
  }

  lemma UnescapingEnds(text: bytes, whole: Taken<bytes>, done: bytes, at: nat)
    requires at == |text| && Unescaping(text, whole, done, at)
    ensures whole == Wrong(UnterminatedString)
  {
  }

  lemma EscapedGoesOn(text: bytes, whole: Taken<bytes>, done: bytes, at: nat)
    requires at < |text| && Unescaping(text, whole, done, at)
    ensures text[at] == QUOTE ==> whole == Taken(done, text[at + 1..])
    ensures text[at] == BACKSLASH && at + 1 == |text| ==> whole == Wrong(UnterminatedEscape)
    ensures text[at] == BACKSLASH && at + 1 < |text| ==> Unescaping(text, whole, done + [text[at + 1]], at + 2)
    ensures !Special(text[at]) ==> Unescaping(text, whole, done + [text[at]], at + 1)
  {
    var b := text[at..];
    assert b[1..] == text[at + 1..] && done + [] == done;
    if text[at] == BACKSLASH && at + 1 < |text| {
      assert b[2..] == text[at + 2..] && b[1] == text[at + 1];
      var more := TakeEscaped(b[2..]);
      assert more.Taken? ==> done + ([b[1]] + more.value) == (done + [b[1]]) + more.value;
    } else if !Special(text[at]) {
      var more := TakeEscaped(b[1..]);
      assert more.Taken? ==> done + ([b[0]] + more.value) == (done + [b[0]]) + more.value;
    }
  }

  /** The loop of `parse_quoted`, from after the opening quote. */
  method ScanEscaped(text: bytes, start: nat) returns (r: Result<bytes, HstoreError>, at: nat)
    requires start <= |text|
    ensures start <= at <= |text| && Unescaped(TakeEscaped(text[start..]), r, text, at)
  {
    ghost var whole := TakeEscaped(text[start..]);
    UnescapingStarts(text, start);
    var out: bytes := [];
    at := start;
    while at < |text|
      invariant start <= at && Unescaping(text, whole, out, at)
    {
      EscapedGoesOn(text, whole, out, at);
      var b := text[at];
      at := at + 1;
      if b == QUOTE {
        return Ok(out), at;
      } else if b == BACKSLASH {
        if at == |text| {
          return Err(UnterminatedEscape), at;
        }
        out := out + [text[at]];
        at := at + 1;
      } else {
        out := out + [b];
      }
    }
    UnescapingEnds(text, whole, out, at);
    return Err(UnterminatedString), at;
  }

  /** What reading ends with when the entries `done` are read and `last` is behind them. */
  ghost predicate EntryEnds(whole: Result<seq<Entry>, HstoreError>, done: seq<Entry>, last: bytes) {
    var rest := Skipped(last);
    if rest == [] then whole == Ok(done)
    else if rest[0] != COMMA then whole == Err(Expected([COMMA]))
    else whole == Behind(done, EntriesOf(Skipped(rest[1..])))
  }

  lemma EntriesGoOn(whole: Result<seq<Entry>, HstoreError>, done: seq<Entry>, b: bytes, e: Entry, last: bytes)
    requires whole == Behind(done, EntriesOf(b)) && b != [] && TakeEntry(b) == Taken(e, last)
    ensures EntryEnds(whole, done + [e], last)
  {
    var rest := Skipped(last);
    if rest != [] {
      var more := EntriesOf(Skipped(rest[1..]));
      assert more.Ok? ==> done + ([e] + more.value) == (done + [e]) + more.value;
    }
  }

  lemma EntriesFail(whole: Result<seq<Entry>, HstoreError>, done: seq<Entry>, b: bytes)
    requires whole == Behind(done, EntriesOf(b)) && b != [] && TakeEntry(b).Wrong?
    ensures whole == Err(TakeEntry(b).error)
  {
  }

  lemma EntriesStart(b: bytes)
    ensures Behind([], EntriesOf(b)) == EntriesOf(b)
  {
    var whole := EntriesOf(b);
    assert whole.Ok? ==> [] + whole.value == whole.value;
  }

  lemma MapOfAppended(entries: seq<Entry>, e: Entry)
    ensures MapOf(entries + [e]) == MapOf(entries)[e.0 := e.1]
  {
    assert (entries + [e])[..|entries|] == entries;
  }

  lemma CommaIs(b: bytes)
    ensures Past([COMMA], b) == if b != [] && b[0] == COMMA then Taken((), b[1..]) else Wrong(Expected([COMMA]))
  {
    assert b != [] ==> b[..1] == [b[0]];
  }

  method Parse(text: bytes) returns (r: Result<map<bytes, Option<bytes>>, HstoreError>)
    ensures r == Parsed(text)
  {
    var cursor := new Cursor(text);
    var out: map<bytes, Option<bytes>> := map[];
    assert text[0..] == text;
    cursor.SkipWs();
    if cursor.at == |text| {
      return Ok(map[]);
    }
    ghost var done: seq<Entry> := [];
    ghost var whole := EntriesOf(cursor.Rest());
    EntriesStart(cursor.Rest());
    while cursor.at < |text|
      invariant cursor.Valid() && cursor.text == text && out == MapOf(done)
      invariant whole == Behind(done, EntriesOf(cursor.Rest()))
      decreases |cursor.Rest()|
    {
      ghost var before := cursor.Rest();
      var entry := cursor.ParseEntry();
      if entry.Err? {
        EntriesFail(whole, done, before);
        return Err(entry.error);
      }
      EntriesGoOn(whole, done, before, entry.value, cursor.Rest());
      MapOfAppended(done, entry.value);
      out := out[entry.value.0 := entry.value.1];
      done := done + [entry.value];
      var more := cursor.EndEntry(whole, done);
      if more.Err? {
        return Err(more.error);
      }
      if !more.value {
        return Ok(out);
      }
    }
    assert done + [] == done;
    return Ok(out);
  }
}

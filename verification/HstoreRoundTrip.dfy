/**
 Printing an hstore and parsing the text gives the hstore back, with NULL told from the text "NULL";
 the printed text is UTF-8, so that the decoder accepts the column.
 */
module HstoreRoundTrip {
  import opened Base
  import opened WireFormat
  import opened Hstore

  predicate EntryIsText(e: Entry) {
    Utf8(e.0) && (e.1.Some? ==> Utf8(e.1.value))
  }

  predicate EntriesAreText(entries: seq<Entry>) {
    forall i :: 0 <= i < |entries| ==> EntryIsText(entries[i])
  }

  lemma {:induction false} EscapedReadsBack(s: bytes, tail: bytes)
    ensures TakeEscaped(Escaped(s) + ([QUOTE] + tail)) == Taken(s, tail)
  {
    if s == [] {
      assert [] + ([QUOTE] + tail) == [QUOTE] + tail;
      assert ([QUOTE] + tail)[1..] == tail;
    } else {
      EscapedReadsBack(s[1..], tail);
      var first := if Special(s[0]) then [BACKSLASH, s[0]] else [s[0]];
      FirstReadsBack(s[0], Escaped(s[1..]) + ([QUOTE] + tail), s[1..], tail);
      Assoc(first, Escaped(s[1..]), [QUOTE] + tail);
      assert [s[0]] + s[1..] == s;
    }
  }

  lemma FirstReadsBack(c: byte, rest: bytes, more: bytes, tail: bytes)
    requires TakeEscaped(rest) == Taken(more, tail)
    ensures TakeEscaped((if Special(c) then [BACKSLASH, c] else [c]) + rest) == Taken([c] + more, tail)
  {
    if Special(c) {
      assert ([BACKSLASH, c] + rest)[2..] == rest;
    } else {
      assert ([c] + rest)[1..] == rest;
    }
  }

  lemma QuotedReadsBack(s: bytes, tail: bytes)
    requires Utf8(s)
    ensures TakeQuoted(Quoted(s) + tail) == Taken(s, tail)
  {
    EscapedReadsBack(s, tail);
    Assoc([QUOTE], Escaped(s) + [QUOTE], tail);
    Assoc(Escaped(s), [QUOTE], tail);
    QuotedIs([QUOTE] + (Escaped(s) + ([QUOTE] + tail)), Escaped(s) + ([QUOTE] + tail), s, tail);
  }

  lemma QuotedIs(b: bytes, inner: bytes, s: bytes, tail: bytes)
    requires b == [QUOTE] + inner && TakeEscaped(inner) == Taken(s, tail) && Utf8(s)
    ensures TakeQuoted(b) == Taken(s, tail)
  {
    assert b[1..] == inner;
  }

  /** A present value starts with its quote, whatever it says; only the bare word is NULL. */
  lemma ValueReadsBack(v: Option<bytes>, tail: bytes)
    requires v.Some? ==> Utf8(v.value)
    ensures TakeValue(ValueText(v) + tail) == Taken(v, tail)
    ensures ValueText(v) != [] && !IsSpace(ValueText(v)[0])
  {
    if v.Some? {
      QuotedReadsBack(v.value, tail);
    } else {
      assert (NULL_TEXT + tail)[..4] == NULL_TEXT && (NULL_TEXT + tail)[4..] == tail;
    }
  }

  lemma TokenReadsBack(token: bytes, tail: bytes)
    ensures Past(token, token + tail) == Taken((), tail)
  {
    assert (token + tail)[..|token|] == token && (token + tail)[|token|..] == tail;
  }

  lemma NotSkipped(b: bytes)
    requires b != [] && !IsSpace(b[0])
    ensures Skipped(b) == b
  {
  }

  lemma EntryIs(b: bytes, key: bytes, afterKey: bytes, afterEquals: bytes, afterArrow: bytes,
        v: Option<bytes>, tail: bytes)
    requires TakeQuoted(b) == Taken(key, afterKey) && Skipped(afterKey) == afterKey
    requires Past([EQUALS], afterKey) == Taken((), afterEquals) && Past([GREATER], afterEquals) == Taken((), afterArrow)
    requires Skipped(afterArrow) == afterArrow && TakeValue(afterArrow) == Taken(v, tail)
    ensures TakeEntry(b) == Taken((key, v), tail)
  {
  }

  lemma EntryTextParts(key: bytes, value: bytes, tail: bytes)
    ensures (key + ([EQUALS, GREATER] + value)) + tail == key + ([EQUALS] + ([GREATER] + (value + tail)))
  {
    Assoc(key, [EQUALS, GREATER] + value, tail);
    assert ([EQUALS, GREATER] + value) + tail == [EQUALS] + ([GREATER] + (value + tail));
  }

  lemma EntryReadsBack(e: Entry, tail: bytes)
    requires EntryIsText(e)
    ensures TakeEntry(EntryText(e) + tail) == Taken(e, tail)
  {
    var value := ValueText(e.1) + tail;
    var arrow := [GREATER] + value;
    var equals := [EQUALS] + arrow;
    ValueReadsBack(e.1, tail);
    assert value[0] == ValueText(e.1)[0];
    NotSkipped(value);
    NotSkipped(equals);
    QuotedReadsBack(e.0, equals);
    TokenReadsBack([EQUALS], arrow);
    TokenReadsBack([GREATER], value);
    EntryTextParts(Quoted(e.0), ValueText(e.1), tail);
    EntryIs(EntryText(e) + tail, e.0, equals, arrow, value, e.1, tail);
  }

  lemma PrintedStarts(entries: seq<Entry>)
    requires entries != []
    ensures Printed(entries) != [] && Printed(entries)[0] == QUOTE
  {
  }

  lemma MoreEntries(b: bytes, e: Entry, more: bytes, rest: seq<Entry>)
    requires b != [] && TakeEntry(b) == Taken(e, [COMMA, SPACE] + more)
    requires more != [] && !IsSpace(more[0]) && EntriesOf(more) == Ok(rest)
    ensures EntriesOf(b) == Ok([e] + rest)
  {
    SeparatorIsSkipped(more);
    EntryAndMore(b, e, [COMMA, SPACE] + more, more, rest);
  }

  lemma SeparatorIsSkipped(more: bytes)
    requires more != [] && !IsSpace(more[0])
    ensures var tail := [COMMA, SPACE] + more; Skipped(tail) == tail && Skipped(tail[1..]) == more
  {
    var tail := [COMMA, SPACE] + more;
    NotSkipped(tail);
    NotSkipped(more);
    assert tail[1..] == [SPACE] + more && ([SPACE] + more)[1..] == more;
  }

  lemma EntryAndMore(b: bytes, e: Entry, tail: bytes, more: bytes, rest: seq<Entry>)
    requires b != [] && TakeEntry(b) == Taken(e, tail) && tail != [] && tail[0] == COMMA
    requires Skipped(tail) == tail && Skipped(tail[1..]) == more && EntriesOf(more) == Ok(rest)
    ensures EntriesOf(b) == Ok([e] + rest)
  {
  }

  lemma LastEntry(b: bytes, e: Entry)
    requires b != [] && TakeEntry(b) == Taken(e, [])
    ensures EntriesOf(b) == Ok([e])
  {
    assert Skipped([]) == [];
  }

  lemma OneEntryReadsBack(e: Entry)
    requires EntryIsText(e)
    ensures EntriesOf(EntryText(e)) == Ok([e])
  {
    EntryReadsBack(e, []);
    assert EntryText(e) + [] == EntryText(e);
    LastEntry(EntryText(e), e);
  }

  lemma FirstEntryReadsBack(e: Entry, more: bytes, rest: seq<Entry>)
    requires EntryIsText(e) && more != [] && !IsSpace(more[0]) && EntriesOf(more) == Ok(rest)
    ensures EntriesOf(EntryText(e) + ([COMMA, SPACE] + more)) == Ok([e] + rest)
  {
    EntryReadsBack(e, [COMMA, SPACE] + more);
    MoreEntries(EntryText(e) + ([COMMA, SPACE] + more), e, more, rest);
  }

  lemma {:induction false} EntriesReadBack(entries: seq<Entry>)
    requires EntriesAreText(entries)
    ensures EntriesOf(Printed(entries)) == Ok(entries)
  {
    if |entries| == 1 {
      OneEntryReadsBack(entries[0]);
      assert [entries[0]] == entries;
    } else if |entries| > 1 {
      PrintedStarts(entries[1..]);
      EntriesReadBack(entries[1..]);
      FirstEntryReadsBack(entries[0], Printed(entries[1..]), entries[1..]);
      assert [entries[0]] + entries[1..] == entries;
    }
  }

  /** A listing of a map: each of its entries once, in some order, as a sorted map is iterated. */
  ghost predicate Lists(entries: seq<Entry>, m: map<bytes, Option<bytes>>) {
    && (forall i, j :: 0 <= i < j < |entries| ==> entries[i].0 != entries[j].0)
    && (forall i :: 0 <= i < |entries| ==> entries[i].0 in m && m[entries[i].0] == entries[i].1)
    && (forall key :: key in m ==> exists i :: 0 <= i < |entries| && entries[i].0 == key)
  }

  lemma {:induction false} MapOfKeys(entries: seq<Entry>)
    ensures forall key :: key in MapOf(entries) <==> exists i :: 0 <= i < |entries| && entries[i].0 == key
  {
    if entries != [] {
      var front := entries[..|entries| - 1];
      MapOfKeys(front);
      forall key
        ensures key in MapOf(entries) <==> exists i :: 0 <= i < |entries| && entries[i].0 == key
      {
        if i :| 0 <= i < |entries| && entries[i].0 == key {
          assert i < |front| ==> front[i].0 == key;
        }
        if i :| 0 <= i < |front| && front[i].0 == key {
          assert entries[i].0 == key;
        }
      }
    }
  }

  lemma {:induction false} MapOfValue(entries: seq<Entry>, i: nat)
    requires i < |entries| && forall j, k :: 0 <= j < k < |entries| ==> entries[j].0 != entries[k].0
    ensures entries[i].0 in MapOf(entries) && MapOf(entries)[entries[i].0] == entries[i].1
  {
    var front := entries[..|entries| - 1];
    if i < |front| {
      MapOfValue(front, i);
      assert entries[i].0 != entries[|entries| - 1].0;
    }
  }

  lemma ListingGivesTheMap(entries: seq<Entry>, m: map<bytes, Option<bytes>>)
    requires Lists(entries, m)
    ensures MapOf(entries) == m
  {
    MapOfKeys(entries);
    forall key | key in m
      ensures key in MapOf(entries) && MapOf(entries)[key] == m[key]
    {
      var i :| 0 <= i < |entries| && entries[i].0 == key;
      MapOfValue(entries, i);
    }
  }

  /** The round trip, for every finite map of texts to texts or NULL, printed in any order. */
  lemma RoundTrip(entries: seq<Entry>, m: map<bytes, Option<bytes>>)
    requires Lists(entries, m) && EntriesAreText(entries)
    ensures Parsed(Printed(entries)) == Ok(m)
  {
    EntriesReadBack(entries);
    ListingGivesTheMap(entries, m);
    if entries != [] {
      PrintedStarts(entries);
      NotSkipped(Printed(entries));
    }
  }

  // ----- The printed text is UTF-8 -----------------------------------------------------------------------

  lemma StepStays(a: bytes, b: bytes)
    requires Utf8Step(a) > 0
    ensures Utf8Step(a + b) == Utf8Step(a)
  {
  }

  lemma {:induction false} Utf8Appends(a: bytes, b: bytes)
    requires Utf8(a) && Utf8(b)
    ensures Utf8(a + b)
    decreases |a|
  {
    if a == [] {
      assert a + b == b;
    } else {
      var n := Utf8Step(a);
      StepStays(a, b);
      Utf8Appends(a[n..], b);
      StepBefore(a, b, n);
      Utf8From(a + b, n);
    }
  }

  lemma StepBefore(a: bytes, b: bytes, n: nat)
    requires n <= |a|
    ensures (a + b)[n..] == a[n..] + b
  {
  }

  lemma Utf8From(s: bytes, n: nat)
    requires n == Utf8Step(s) > 0 && Utf8(s[n..])
    ensures Utf8(s)
  {
  }

  lemma AsciiIsUtf8(s: bytes)
    requires forall i :: 0 <= i < |s| ==> s[i] < 0x80
    ensures Utf8(s)
    decreases |s|
  {
    if s != [] {
      AsciiIsUtf8(s[1..]);
    }
  }

  lemma {:induction false} PlainIsItself(s: bytes)
    requires forall i :: 0 <= i < |s| ==> !Special(s[i])
    ensures Escaped(s) == s
  {
    if s != [] {
      PlainIsItself(s[1..]);
    }
  }

  /** The bytes of a character of more than one byte are not special. */
  lemma CharIsEscaped(s: bytes)
    requires Utf8Step(s) > 0
    ensures Utf8(Escaped(s[..Utf8Step(s)]))
  {
    var n := Utf8Step(s);
    var c := s[..n];
    if n == 1 {
      assert c == [s[0]] && c[1..] == [];
      var e := if Special(s[0]) then [BACKSLASH, s[0]] else [s[0]];
      assert Escaped(c) == e + Escaped([]) == e;
      AsciiIsUtf8(e);
    } else {
      assert forall i :: 0 <= i < n ==> c[i] == s[i] && s[i] >= 0x80;
      PlainIsItself(c);
      assert Utf8Step(c) == n && c[n..] == [];
    }
  }

  lemma {:induction false} EscapedIsUtf8(s: bytes)
    requires Utf8(s)
    ensures Utf8(Escaped(s))
    decreases |s|
  {
    if s != [] {
      var n := Utf8Step(s);
      CharIsEscaped(s);
      EscapedIsUtf8(s[n..]);
      EscapedAppends(s[..n], s[n..]);
      assert s[..n] + s[n..] == s;
      Utf8Appends(Escaped(s[..n]), Escaped(s[n..]));
    }
  }

  lemma QuotedIsUtf8(s: bytes)
    requires Utf8(s)
    ensures Utf8(Quoted(s))
  {
    EscapedIsUtf8(s);
    AsciiIsUtf8([QUOTE]);
    Utf8Appends(Escaped(s), [QUOTE]);
    Utf8Appends([QUOTE], Escaped(s) + [QUOTE]);
  }

  lemma EntryTextIsUtf8(e: Entry)
    requires EntryIsText(e)
    ensures Utf8(EntryText(e))
  {
    QuotedIsUtf8(e.0);
    AsciiIsUtf8(NULL_TEXT);
    if e.1.Some? {
      QuotedIsUtf8(e.1.value);
    }
    AsciiIsUtf8([EQUALS, GREATER]);
    Utf8Appends([EQUALS, GREATER], ValueText(e.1));
    Utf8Appends(Quoted(e.0), [EQUALS, GREATER] + ValueText(e.1));
  }

  lemma {:induction false} PrintedIsUtf8(entries: seq<Entry>)
    requires EntriesAreText(entries)
    ensures Utf8(Printed(entries))
  {
    if entries != [] {
      EntryTextIsUtf8(entries[0]);
      if |entries| > 1 {
        PrintedIsUtf8(entries[1..]);
        AsciiIsUtf8([COMMA, SPACE]);
        Utf8Appends([COMMA, SPACE], Printed(entries[1..]));
        Utf8Appends(EntryText(entries[0]), [COMMA, SPACE] + Printed(entries[1..]));
      }
    }
  }

  /** The decoder: the first column, as UTF-8 text. */
  function DecodedColumn(columns: seq<Option<bytes>>): Result<map<bytes, Option<bytes>>, HstoreError> {
    if columns == [] then Err(NoColumn)
    else if columns[0].None? then Err(NullColumn)
    else if !Utf8(columns[0].value) then Err(NotText)
    else Parsed(columns[0].value)
  }

  lemma ColumnRoundTrip(entries: seq<Entry>, m: map<bytes, Option<bytes>>)
    requires Lists(entries, m) && EntriesAreText(entries)
    ensures DecodedColumn([Some(Printed(entries))]) == Ok(m)
  {
    RoundTrip(entries, m);
    PrintedIsUtf8(entries);
  }

  lemma KnownQuoted(b: byte)
    ensures !Special(b) ==> Quoted([b]) == [34, b, 34]
    ensures Quoted([98, 34, 99]) == [34, 98, 92, 34, 99, 34]
  {
    assert [b][1..] == [];
    assert [98, 34, 99][1..] == [34, 99] && [34, 99][1..] == [99];
  }

  lemma KnownEntries()
    ensures EntryText(([97], Some([98, 34, 99]))) == [34, 97, 34] + ([61, 62] + [34, 98, 92, 34, 99, 34])
    ensures EntryText(([100], None)) == [34, 100, 34] + ([61, 62] + [78, 85, 76, 76])
  {
    KnownQuoted(97);
    KnownQuoted(100);
  }

  /** A quote inside a text, and NULL. */
  lemma KnownText()
    ensures Printed([([97], Some([98, 34, 99])), ([100], None)])
         == ([34, 97, 34] + ([61, 62] + [34, 98, 92, 34, 99, 34]))
            + ([44, 32] + ([34, 100, 34] + ([61, 62] + [78, 85, 76, 76])))
  {
    var first: Entry, last: Entry := ([97], Some([98, 34, 99])), ([100], None);
    KnownEntries();
    assert [first, last][1..] == [last];
  }
}

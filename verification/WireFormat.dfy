/**
 Fixed-width integers in network byte order, NUL-terminated text and lists, written in front of a
 tail and taken from the front of a buffer. Taking inverts putting.
 */
module WireFormat {
  import opened Base

  type i16 = n: int | -0x8000 <= n < 0x8000
  type i32 = n: int | -0x8000_0000 <= n < 0x8000_0000
  type u16 = n: int | 0 <= n < 0x1_0000
  type u32 = n: int | 0 <= n < 0x1_0000_0000

  datatype WireError =
    | OutOfBytes
    | MissingNul
    | NotUtf8
    | NegativeCount(count: int)
    | BadColumnLength(length: int)
    | TruncatedColumn
    | BadSaltLength(length: int)
    | MissingTerminator
    | BadFrameLength(length: int)

  /** What a read leaves: a value and the bytes after it, or an error. */
  datatype Read<+T> = Got(value: T, rest: bytes) | Bad(error: WireError)

  lemma Assoc(a: bytes, b: bytes, c: bytes)
    ensures (a + b) + c == a + (b + c)
  {
  }

  // ----- Integers --------------------------------------------------------------------------------------

  function PutU8(n: byte, tail: bytes): bytes {
    [n] + tail
  }

  function PutU16(n: u16, tail: bytes): bytes {
    [n / 0x100, n % 0x100] + tail
  }

  function PutU32(n: u32, tail: bytes): bytes {
    PutU16(n / 0x1_0000, PutU16(n % 0x1_0000, tail))
  }

  function PutI16(n: i16, tail: bytes): bytes {
    PutU16(if n < 0 then n + 0x1_0000 else n, tail)
  }

  function PutI32(n: i32, tail: bytes): bytes {
    PutU32(if n < 0 then n + 0x1_0000_0000 else n, tail)
  }

  function U16At(b: bytes): u16
    requires |b| >= 2
  {
    var high: int, low: int := b[0], b[1];
    high * 0x100 + low
  }

  function U32At(b: bytes): u32
    requires |b| >= 4
  {
    var high: int, low: int := U16At(b), U16At(b[2..]);
    high * 0x1_0000 + low
  }

  function Signed16(n: u16): i16 {
    if n < 0x8000 then n else n - 0x1_0000
  }

  function Signed32(n: u32): i32 {
    if n < 0x8000_0000 then n else n - 0x1_0000_0000
  }

  function TakeU8(b: bytes): Read<byte> {
    if b == [] then Bad(OutOfBytes) else Got(b[0], b[1..])
  }

  function TakeI16(b: bytes): Read<i16> {
    if |b| < 2 then Bad(OutOfBytes) else Got(Signed16(U16At(b)), b[2..])
  }

  function TakeI32(b: bytes): Read<i32> {
    if |b| < 4 then Bad(OutOfBytes) else Got(Signed32(U32At(b)), b[4..])
  }

  function TakeU32(b: bytes): Read<u32> {
    if |b| < 4 then Bad(OutOfBytes) else Got(U32At(b), b[4..])
  }

  lemma PutU16Shape(n: u16, tail: bytes)
    ensures |PutU16(n, tail)| == 2 + |tail| && U16At(PutU16(n, tail)) == n && PutU16(n, tail)[2..] == tail
  {
  }

  lemma PutU32Shape(n: u32, tail: bytes)
    ensures |PutU32(n, tail)| == 4 + |tail| && U32At(PutU32(n, tail)) == n && PutU32(n, tail)[4..] == tail
  {
    var low := PutU16(n % 0x1_0000, tail);
    PutU16Shape(n % 0x1_0000, tail);
    PutU16Shape(n / 0x1_0000, low);
    assert PutU32(n, tail)[4..] == PutU32(n, tail)[2..][2..];
  }

  lemma IntegersReadBack(a: byte, b: i16, c: i32, d: u32, tail: bytes)
    ensures TakeU8(PutU8(a, tail)) == Got(a, tail)
    ensures TakeI16(PutI16(b, tail)) == Got(b, tail)
    ensures TakeI32(PutI32(c, tail)) == Got(c, tail)
    ensures TakeU32(PutU32(d, tail)) == Got(d, tail)
  {
    PutU16Shape(if b < 0 then b + 0x1_0000 else b, tail);
    PutU32Shape(if c < 0 then c + 0x1_0000_0000 else c, tail);
    PutU32Shape(d, tail);
  }

  // ----- Text -------------------------------------------------------------------------------------------

  predicate Continuation(b: byte) {
    0x80 <= b <= 0xBF
  }

  /** The length of the UTF-8 sequence at the start of `s`, or 0 if there is none (RFC 3629, section 4). */
  function Utf8Step(s: bytes): (n: nat)
    ensures n <= |s|
  {
    if s == [] then 0
    else if s[0] < 0x80 then 1
    else if |s| >= 2 && 0xC2 <= s[0] <= 0xDF && Continuation(s[1]) then 2
    else if |s| >= 3 && 0xE0 <= s[0] <= 0xEF && Continuation(s[1]) && Continuation(s[2])
            && (s[0] == 0xE0 ==> s[1] >= 0xA0) && (s[0] == 0xED ==> s[1] < 0xA0) then 3
    else if |s| >= 4 && 0xF0 <= s[0] <= 0xF4 && Continuation(s[1]) && Continuation(s[2]) && Continuation(s[3])
            && (s[0] == 0xF0 ==> s[1] >= 0x90) && (s[0] == 0xF4 ==> s[1] < 0x90) then 4
    else 0
  }

  predicate Utf8(s: bytes) {
    s == [] || (Utf8Step(s) > 0 && Utf8(s[Utf8Step(s)..]))
  }

  /** The position of the first NUL, or the length. */
  function NulAt(b: bytes): (n: nat)
    ensures n <= |b| && (n < |b| ==> b[n] == 0) && forall i :: 0 <= i < n ==> b[i] != 0
  {
    if b == [] || b[0] == 0 then 0 else 1 + NulAt(b[1..])
  }

  lemma NulAtIs(b: bytes, n: nat)
    requires n < |b| && b[n] == 0 && forall i :: 0 <= i < n ==> b[i] != 0
    ensures NulAt(b) == n
  {
  }

  predicate IsCString(s: bytes) {
    Utf8(s) && forall i :: 0 <= i < |s| ==> s[i] != 0
  }

  function PutText(s: bytes, tail: bytes): bytes {
    s + [0] + tail
  }

  function TakeText(b: bytes): Read<bytes> {
    var n := NulAt(b);
    if n == |b| then Bad(MissingNul) else if !Utf8(b[..n]) then Bad(NotUtf8) else Got(b[..n], b[n + 1..])
  }

  lemma TextReadsBack(s: bytes, tail: bytes)
    requires IsCString(s)
    ensures TakeText(PutText(s, tail)) == Got(s, tail)
  {
    var b := PutText(s, tail);
    assert forall i :: 0 <= i < |s| ==> b[i] == s[i];
    NulAtIs(b, |s|);
    assert b[..|s|] == s && b[|s| + 1..] == tail;
  }

  // ----- Lists of known length ------------------------------------------------------------------------------

  function PutMany<T>(put: (T, bytes) -> bytes, xs: seq<T>, tail: bytes): bytes {
    if xs == [] then tail else put(xs[0], PutMany(put, xs[1..], tail))
  }

  function TakeMany<T>(take: bytes -> Read<T>, n: nat, b: bytes): Read<seq<T>> {
    if n == 0 then Got([], b)
    else
      var first := take(b);
      if first.Bad? then Bad(first.error)
      else
        var more := TakeMany(take, n - 1, first.rest);
        if more.Bad? then more else Got([first.value] + more.value, more.rest)
  }

  lemma {:induction false} ManyReadBack<T>(take: bytes -> Read<T>, put: (T, bytes) -> bytes, xs: seq<T>, tail: bytes)
    requires forall i, t :: 0 <= i < |xs| ==> take(put(xs[i], t)) == Got(xs[i], t)
    ensures TakeMany(take, |xs|, PutMany(put, xs, tail)) == Got(xs, tail)
  {
    if xs != [] {
      var rest := PutMany(put, xs[1..], tail);
      assert take(put(xs[0], rest)) == Got(xs[0], rest);
      forall i, t | 0 <= i < |xs[1..]|
        ensures take(put(xs[1..][i], t)) == Got(xs[1..][i], t)
      {
        assert xs[1..][i] == xs[i + 1];
      }
      ManyReadBack(take, put, xs[1..], tail);
      assert [xs[0]] + xs[1..] == xs;
    }
  }

  /** A loop that takes one more element reads what the whole list reads. */
  function Prepended<T>(done: seq<T>, more: Read<seq<T>>): Read<seq<T>> {
    if more.Bad? then more else Got(done + more.value, more.rest)
  }

  /** A loop that has `done` some of a list and has `n` elements to go. */
  ghost predicate Collecting<T>(whole: Read<seq<T>>, done: seq<T>, take: bytes -> Read<T>, n: nat, b: bytes) {
    whole == Prepended(done, TakeMany(take, n, b))
  }

  /** A read has done what the taking function says; a failed read need not have kept the buffer. */
  ghost predicate Reads<T>(read: Read<T>, r: Result<T, WireError>, after: bytes) {
    match read
    case Got(v, rest) => r == Ok(v) && after == rest
    case Bad(e) => r == Err(e)
  }

  lemma CollectStart<T>(take: bytes -> Read<T>, n: nat, b: bytes)
    ensures Collecting(TakeMany(take, n, b), [], take, n, b)
  {
    var whole := TakeMany(take, n, b);
    assert whole.Got? ==> [] + whole.value == whole.value;
  }

  lemma CollectEnd<T>(whole: Read<seq<T>>, done: seq<T>, take: bytes -> Read<T>, b: bytes)
    requires Collecting(whole, done, take, 0, b)
    ensures whole == Got(done, b)
  {
    assert done + [] == done;
  }

  lemma CollectOne<T>(whole: Read<seq<T>>, done: seq<T>, take: bytes -> Read<T>, n: nat, b: bytes,
                      r: Result<T, WireError>, after: bytes)
    requires n > 0 && Collecting(whole, done, take, n, b) && Reads(take(b), r, after)
    ensures if r.Ok? then Collecting(whole, done + [r.value], take, n - 1, after) else whole == Bad(r.error)
  {
    if r.Ok? {
      var more := TakeMany(take, n - 1, after);
      assert more.Got? ==> done + ([r.value] + more.value) == (done + [r.value]) + more.value;
    }
  }
}

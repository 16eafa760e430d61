/**
 Compiled SQL text as the server reads it: ASCII characters and `$N` parameters, the longest run of
 digits after a `$` being the number. Renumbering a fragment is `renumber_into` in
 `crates/macros/src/lib.rs` and its twin `renumber_placeholders` in
 `crates/core/src/query/fragment.rs`.
 */
module SqlTokens {
  import opened Decimals

  /** A character of SQL text, or a hole: a slot number in compiled SQL, a codec in its expansion, a
      name in a template. */
  datatype Piece<+T> = Text(c: char) | Hole(of: T)

  /** How many characters at the start of `s` are digits. */
  function LeadingDigits(s: string): (n: nat)
    ensures n <= |s|
  {
    if s == "" || !IsDigit(s[0]) then 0 else 1 + LeadingDigits(s[1..])
  }

  predicate DigitFirst(s: string) {
    s != "" && IsDigit(s[0])
  }

  lemma {:induction false} LeadingDigitsIs(d: string, rest: string)
    requires AllDigits(d) && !DigitFirst(rest)
    ensures LeadingDigits(d + rest) == |d|
  {
    if d == "" {
      assert d + rest == rest;
    } else {
      assert (d + rest)[1..] == d[1..] + rest;
      LeadingDigitsIs(d[1..], rest);
    }
  }

  /** A text, cut after the digits it starts with. */
  lemma {:induction false} LeadingCut(b: string)
    ensures var n := LeadingDigits(b);
      AllDigits(b[..n]) && !DigitFirst(b[n..]) && b[..n] + b[n..] == b && (DigitFirst(b) <==> n > 0)
  {
    var n := LeadingDigits(b);
    if n > 0 {
      LeadingCut(b[1..]);
      var front := b[1..][..n - 1];
      assert b[..n] == [b[0]] + front;
      assert b[n..] == b[1..][n - 1..];
      assert AllDigits([b[0]] + front);
    }
  }

  predicate StartsWithSlot(s: string) {
    |s| > 1 && s[0] == '$' && IsDigit(s[1])
  }

  function Tokens(s: string): seq<Piece<nat>> {
    if s == "" then []
    else if StartsWithSlot(s) then
      var n := LeadingDigits(s[1..]);
      [Hole(Value(s[1..][..n]))] + Tokens(s[1 + n..])
    else [Text(s[0])] + Tokens(s[1..])
  }

  lemma TokensOfSlot(d: string, rest: string)
    requires d != "" && AllDigits(d) && !DigitFirst(rest)
    ensures Tokens("$" + d + rest) == [Hole(Value(d))] + Tokens(rest)
  {
    var s := "$" + d + rest;
    assert s[1..] == d + rest;
    LeadingDigitsIs(d, rest);
    assert s[1..][..|d|] == d && s[1 + |d|..] == rest;
  }

  /** A text that starts with a slot, cut after its digits. */
  lemma SlotIsCut(s: string, n: nat)
    requires StartsWithSlot(s) && n == LeadingDigits(s[1..])
    ensures 0 < n < |s| && AllDigits(s[1..1 + n]) && !DigitFirst(s[1 + n..]) && s == "$" + s[1..1 + n] + s[1 + n..]
  {
    LeadingCut(s[1..]);
    assert s[1..][0] == s[1];
    assert s[1..][..n] == s[1..1 + n] && s[1..][n..] == s[1 + n..];
  }

  function RenderPiece(p: Piece<nat>): string {
    match p
    case Text(c) => [c]
    case Hole(k) => "$" + Decimal(k)
  }

  function Render(ps: seq<Piece<nat>>): string {
    if ps == [] then "" else RenderPiece(ps[0]) + Render(ps[1..])
  }

  lemma {:induction false} RenderAppends(a: seq<Piece<nat>>, b: seq<Piece<nat>>)
    ensures Render(a + b) == Render(a) + Render(b)
  {
    if a == [] {
      assert a + b == b;
    } else {
      assert (a + b)[1..] == a[1..] + b;
      RenderAppends(a[1..], b);
    }
  }

  // ----- When concatenated texts are read piece by piece --------------------------------------------------

  /** A piece that would swallow a digit written directly after it. */
  predicate Open<T>(p: Piece<T>) {
    p.Hole? || p.c == '$'
  }

  predicate IsDigitText<T>(p: Piece<T>) {
    p.Text? && IsDigit(p.c)
  }

  predicate EndsOpen<T>(ps: seq<Piece<T>>) {
    ps != [] && Open(ps[|ps| - 1])
  }

  predicate StartsWithDigit<T>(ps: seq<Piece<T>>) {
    ps != [] && IsDigitText(ps[0])
  }

  /** No placeholder and no `$` is directly followed by a digit of the text. */
  ghost predicate Clean<T>(ps: seq<Piece<T>>) {
    forall i :: 0 <= i < |ps| - 1 ==> !(Open(ps[i]) && IsDigitText(ps[i + 1]))
  }

  lemma CleanAppends<T>(a: seq<Piece<T>>, b: seq<Piece<T>>)
    ensures Clean(a + b) <==> Clean(a) && Clean(b) && !(EndsOpen(a) && StartsWithDigit(b))
  {
    var ab := a + b;
    if Clean(a + b) {
      forall i | 0 <= i < |a| - 1
        ensures !(Open(a[i]) && IsDigitText(a[i + 1]))
      {
        assert a[i] == ab[i] && a[i + 1] == ab[i + 1];
      }
      forall i | 0 <= i < |b| - 1
        ensures !(Open(b[i]) && IsDigitText(b[i + 1]))
      {
        assert b[i] == ab[|a| + i] && b[i + 1] == ab[|a| + i + 1];
      }
      if a != [] && b != [] {
        assert a[|a| - 1] == ab[|a| - 1] && b[0] == ab[|a| - 1 + 1];
      }
    }
  }

  lemma TokensStart(s: string)
    ensures StartsWithDigit(Tokens(s)) <==> DigitFirst(s)
    ensures Tokens(s) == [] <==> s == ""
  {
  }

  lemma {:induction false} DigitsAreTokens(s: string)
    ensures |Tokens(s)| == LeadingDigits(s) + |Tokens(s[LeadingDigits(s)..])|
  {
    var n := LeadingDigits(s);
    if n == 0 {
      assert s[0..] == s;
    } else {
      DigitsAreTokens(s[1..]);
      assert s[1..][n - 1..] == s[n..];
    }
  }

  lemma LastSlotAppends(d: string, b: string)
    requires d != "" && AllDigits(d)
    ensures if DigitFirst(b) then |Tokens("$" + d + b)| < 1 + |Tokens(b)|
            else Tokens("$" + d + b) == [Hole(Value(d))] + Tokens(b)
  {
    if DigitFirst(b) {
      LeadingCut(b);
      DigitsAreTokens(b);
      LongerSlot(d, b[..LeadingDigits(b)], b[LeadingDigits(b)..]);
    } else {
      TokensOfSlot(d, b);
    }
  }

  lemma LongerSlot(d: string, more: string, rest: string)
    requires d != "" && AllDigits(d) && AllDigits(more) && !DigitFirst(rest)
    ensures |Tokens("$" + d + (more + rest))| == 1 + |Tokens(rest)|
  {
    assert "$" + (d + more) + rest == "$" + d + (more + rest);
    TokensOfSlot(d + more, rest);
  }

  /** The pieces of two texts, and those of the two in one. */
  predicate Joined(a: seq<Piece<nat>>, b: seq<Piece<nat>>, ab: seq<Piece<nat>>, digit: bool) {
    if EndsOpen(a) && digit then |ab| < |a| + |b| else ab == a + b
  }

  predicate ReadsAsOne(a: string, b: string) {
    Joined(Tokens(a), Tokens(b), Tokens(a + b), DigitFirst(b))
  }

  lemma JoinedAfter(p: Piece<nat>, a: seq<Piece<nat>>, b: seq<Piece<nat>>, ab: seq<Piece<nat>>, digit: bool)
    requires a != [] && Joined(a, b, ab, digit)
    ensures Joined([p] + a, b, [p] + ab, digit)
  {
    assert ([p] + a)[|a|] == a[|a| - 1];
    assert [p] + (a + b) == ([p] + a) + b;
  }

  lemma SlotThenMore(d: string, rest: string, b: string, a: string, ab: string)
    requires d != "" && AllDigits(d) && rest != "" && !DigitFirst(rest) && ReadsAsOne(rest, b)
    requires a == "$" + d + rest && ab == "$" + d + (rest + b)
    ensures Joined(Tokens(a), Tokens(b), Tokens(ab), DigitFirst(b))
  {
    var slot := Hole(Value(d));
    assert Tokens(rest) != [] by { TokensStart(rest); }
    JoinedAfter(slot, Tokens(rest), Tokens(b), Tokens(rest + b), DigitFirst(b));
    assert Tokens(a) == [slot] + Tokens(rest) by { TokensOfSlot(d, rest); }
    assert Tokens(ab) == [slot] + Tokens(rest + b) by {
      assert (rest + b)[0] == rest[0];
      TokensOfSlot(d, rest + b);
    }
  }

  lemma SlotThenNothing(d: string, b: string)
    requires d != "" && AllDigits(d)
    ensures ReadsAsOne("$" + d, b)
  {
    TokensOfSlot(d, "");
    assert "$" + d + "" == "$" + d;
    LastSlotAppends(d, b);
  }

  /** Reading two texts in one: piece by piece, unless the first ends open and the second starts with
      a digit; then a piece is lost. */
  lemma {:induction false} TokensAppend(a: string, b: string)
    ensures ReadsAsOne(a, b)
    decreases |a|
  {
    if a == "" {
      assert a + b == b;
    } else if StartsWithSlot(a) {
      var n := LeadingDigits(a[1..]);
      SlotIsCut(a, n);
      if a[1 + n..] == "" {
        SlotThenNothing(a[1..1 + n], b);
        assert "$" + a[1..1 + n] == a;
      } else {
        TokensAppend(a[1 + n..], b);
        assert a + b == "$" + a[1..1 + n] + (a[1 + n..] + b);
        SlotThenMore(a[1..1 + n], a[1 + n..], b, a, a + b);
      }
    } else {
      if |a| > 1 {
        TokensAppend(a[1..], b);
      }
      TextAppends(a, b);
    }
  }

  lemma TextAppends(a: string, b: string)
    requires a != "" && !StartsWithSlot(a) && (|a| > 1 ==> ReadsAsOne(a[1..], b))
    ensures ReadsAsOne(a, b)
  {
    assert (a + b)[1..] == a[1..] + b;
    assert Tokens(a) == [Text(a[0])] + Tokens(a[1..]);
    if |a| == 1 {
      DollarAppends(a, b);
    } else {
      assert (a + b)[1] == a[1];
      assert Tokens(a + b) == [Text(a[0])] + Tokens(a[1..] + b);
    }
  }

  lemma DollarAppends(a: string, b: string)
    requires |a| == 1
    ensures ReadsAsOne(a, b)
  {
    assert Tokens(a) == [Text(a[0])] by { assert a[1..] == ""; }
    if a[0] == '$' && DigitFirst(b) {
      DollarDigit(b);
      assert "$" + b == a + b;
    } else {
      assert Tokens(a + b) == [Text(a[0])] + Tokens(b) by { assert (a + b)[1..] == b; }
    }
  }

  lemma DollarDigit(b: string)
    requires DigitFirst(b)
    ensures |Tokens("$" + b)| < 1 + |Tokens(b)|
  {
    var n := LeadingDigits(b);
    LeadingCut(b);
    DigitsAreTokens(b);
    TokensOfSlot(b[..n], b[n..]);
    assert "$" + b[..n] + b[n..] == "$" + b;
  }

  /** What is read back from rendered pieces, if none of them swallows a digit. */
  lemma {:induction false} RenderReadsBack(ps: seq<Piece<nat>>)
    requires Clean(ps)
    ensures Tokens(Render(ps)) == ps
  {
    if ps != [] {
      var rest := Render(ps[1..]);
      assert ps == [ps[0]] + ps[1..];
      CleanAppends([ps[0]], ps[1..]);
      RenderReadsBack(ps[1..]);
      TokensStart(rest);
      PieceReadsBack(ps[0]);
      TokensAppend(RenderPiece(ps[0]), rest);
    }
  }

  lemma PieceReadsBack(p: Piece<nat>)
    ensures Tokens(RenderPiece(p)) == [p]
  {
    var s := RenderPiece(p);
    match p {
      case Text(c) =>
        assert s[1..] == "";
      case Hole(k) =>
        DecimalReadsBack(k);
        TokensOfSlot(Decimal(k), "");
        assert s == "$" + Decimal(k) + "";
    }
  }

  /** No text is read as pieces of which one should have swallowed a digit. */
  lemma {:induction false} TokensAreClean(s: string)
    ensures Clean(Tokens(s))
    decreases |s|
  {
    if StartsWithSlot(s) {
      var n := LeadingDigits(s[1..]);
      SlotIsCut(s, n);
      TokensAreClean(s[1 + n..]);
      TokenBeforeClean(Hole(Value(s[1..][..n])), s[1 + n..]);
    } else if s != "" {
      TokensAreClean(s[1..]);
      assert s[0] == '$' ==> !DigitFirst(s[1..]);
      TokenBeforeClean(Text(s[0]), s[1..]);
    }
  }

  lemma TokenBeforeClean(p: Piece<nat>, rest: string)
    requires Clean(Tokens(rest)) && !(Open(p) && DigitFirst(rest))
    ensures Clean([p] + Tokens(rest))
  {
    TokensStart(rest);
    CleanAppends([p], Tokens(rest));
  }

  // ----- Renumbering -----------------------------------------------------------------------------------------

  function Shift(ps: seq<Piece<nat>>, offset: nat): (r: seq<Piece<nat>>)
    ensures |r| == |ps|
    ensures forall i :: 0 <= i < |ps| ==> r[i] == if ps[i].Hole? then Hole(ps[i].of + offset) else ps[i]
  {
    if ps == [] then []
    else [if ps[0].Hole? then Hole(ps[0].of + offset) else ps[0]] + Shift(ps[1..], offset)
  }

  function Renumbered(sql: string, offset: nat): string {
    if offset == 0 then sql else Render(Shift(Tokens(sql), offset))
  }

  /** Renumbering adds the offset to every placeholder that is read and changes nothing else. */
  lemma RenumberedReads(sql: string, offset: nat)
    ensures Tokens(Renumbered(sql, offset)) == Shift(Tokens(sql), offset)
  {
    TokensAreClean(sql);
    if offset == 0 {
      assert Shift(Tokens(sql), 0) == Tokens(sql);
    } else {
      RenderReadsBack(Shift(Tokens(sql), offset));
    }
  }

  lemma ShiftedStart(out: string, p: Piece<nat>, ps: seq<Piece<nat>>, offset: nat)
    ensures var q := if p.Hole? then Hole(p.of + offset) else p;
      out + Render(Shift([p] + ps, offset)) == (out + RenderPiece(q)) + Render(Shift(ps, offset))
  {
    assert ([p] + ps)[1..] == ps;
  }

  ghost predicate RenumberedUpTo(sql: string, offset: nat, i: nat, done: string, whole: string)
    requires i <= |sql|
  {
    whole == done + Render(Shift(Tokens(sql[i..]), offset))
  }

  lemma RenumberSlot(sql: string, offset: nat, i: nat, j: nat, done: string, whole: string)
    requires i + 1 < j <= |sql| && sql[i] == '$' && AllDigits(sql[i + 1..j]) && !DigitFirst(sql[j..])
    requires RenumberedUpTo(sql, offset, i, done, whole)
    ensures RenumberedUpTo(sql, offset, j, done + ("$" + Decimal(Value(sql[i + 1..j]) + offset)), whole)
  {
    var d, rest := sql[i + 1..j], sql[j..];
    assert Tokens(sql[i..]) == [Hole(Value(d))] + Tokens(rest) by {
      assert sql[i..] == "$" + d + rest;
      TokensOfSlot(d, rest);
    }
    ShiftedStart(done, Hole(Value(d)), Tokens(rest), offset);
  }

  lemma RenumberText(sql: string, offset: nat, i: nat, done: string, whole: string)
    requires i < |sql| && !StartsWithSlot(sql[i..])
    requires RenumberedUpTo(sql, offset, i, done, whole)
    ensures RenumberedUpTo(sql, offset, i + 1, done + [sql[i]], whole)
  {
    assert sql[i..][1..] == sql[i + 1..];
    ShiftedStart(done, Text(sql[i]), Tokens(sql[i + 1..]), offset);
  }

  /** The end of the digits that start at `start`. */
  method ScanDigits(sql: string, start: nat) returns (j: nat)
    requires start < |sql| && IsDigit(sql[start])
    ensures start < j <= |sql| && AllDigits(sql[start..j]) && !DigitFirst(sql[j..])
  {
    j := start + 1;
    while j < |sql| && IsDigit(sql[j])
      invariant start < j <= |sql| && forall k :: start <= k < j ==> IsDigit(sql[k])
    {
      j := j + 1;
    }
  }

  method RenumberInto(sql: string, offset: nat, out: string) returns (r: string)
    ensures r == out + Renumbered(sql, offset)
  {
    if offset == 0 {
      return out + sql;
    }
    r := out;
    var i := 0;
    ghost var whole := out + Renumbered(sql, offset);
    assert sql[0..] == sql;
    while i < |sql|
      invariant i <= |sql|
      invariant RenumberedUpTo(sql, offset, i, r, whole)
    {
      if sql[i] == '$' && i + 1 < |sql| && IsDigit(sql[i + 1]) {
        var j := ScanDigits(sql, i + 1);
        var slot := Value(sql[i + 1..j]) + offset;
        RenumberSlot(sql, offset, i, j, r, whole);
        r := r + ("$" + Decimal(slot));
        i := j;
      } else {
        RenumberText(sql, offset, i, r, whole);
        r := r + [sql[i]];
        i := i + 1;
      }
    }
  }
}

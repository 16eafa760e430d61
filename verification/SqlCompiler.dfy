/**
 The placeholder compiler: `compile_input` in `crates/macros/src/lib.rs` flattens a template whose
 `$name` placeholders are bound to codecs or to further templates, and the `Fragment` builder in
 `crates/core/src/query/fragment.rs` does the same for values put together with `bind` and `plus`.

 The expansion of a template has a hole for each codec, in place. The compiled SQL means the same
 if its slots, filled with the collected codecs, give that expansion.
 */
module SqlCompiler {
  import opened Base
  import opened Decimals
  import opened SqlTokens

  datatype Template = Template(sql: string, bindings: seq<Binding>)
  datatype Binding = Binding(name: string, expr: Expr)
  datatype Expr = Codec(id: nat) | Nested(template: Template)

  datatype Compiled = Compiled(sql: string, codecs: seq<nat>)

  datatype CompileError = DuplicateBinding(name: string) | NoBinding(name: string) | UnusedBinding(name: string)

  // ----- Templates -------------------------------------------------------------------------------------

  predicate IsIdentStart(c: char) {
    c == '_' || 'a' <= c <= 'z' || 'A' <= c <= 'Z'
  }

  predicate IsIdentContinue(c: char) {
    IsIdentStart(c) || IsDigit(c)
  }

  function IdentLength(s: string): (n: nat)
    ensures n <= |s| && (forall i :: 0 <= i < n ==> IsIdentContinue(s[i]))
    ensures n < |s| ==> !IsIdentContinue(s[n])
  {
    if s == "" || !IsIdentContinue(s[0]) then 0 else 1 + IdentLength(s[1..])
  }

  predicate StartsWithName(s: string) {
    |s| > 1 && s[0] == '$' && IsIdentStart(s[1])
  }

  function Pieces(s: string): seq<Piece<string>> {
    if s == "" then []
    else if StartsWithName(s) then
      var n := IdentLength(s[1..]);
      [Hole(s[1..1 + n])] + Pieces(s[1 + n..])
    else [Text(s[0])] + Pieces(s[1..])
  }

  function IndexOf(bindings: seq<Binding>, name: string): (i: nat)
    ensures i <= |bindings| && (i < |bindings| ==> bindings[i].name == name)
    ensures forall j :: 0 <= j < i ==> bindings[j].name != name
  {
    if bindings == [] || bindings[0].name == name then 0 else 1 + IndexOf(bindings[1..], name)
  }

  function Names(ps: seq<Piece<string>>): set<string> {
    if ps == [] then {} else (if ps[0].Hole? then {ps[0].of} else {}) + Names(ps[1..])
  }

  predicate DistinctNames(bindings: seq<Binding>) {
    forall i, j :: 0 <= i < j < |bindings| ==> bindings[i].name != bindings[j].name
  }

  /** The templates that compile: every binding has its own name and is used, every placeholder is
      bound, and the nested templates compile. */
  ghost predicate Compiles(t: Template) {
    && DistinctNames(t.bindings)
    && (forall name :: name in Names(Pieces(t.sql)) ==> IndexOf(t.bindings, name) < |t.bindings|)
    && (forall i :: 0 <= i < |t.bindings| ==> t.bindings[i].name in Names(Pieces(t.sql)))
    && (forall i :: 0 <= i < |t.bindings| && t.bindings[i].expr.Nested? ==> Compiles(t.bindings[i].expr.template))
  }

  /** The recursive meaning: each placeholder replaced by its codec or by the expansion of its template. */
  function Expand(t: Template): seq<Piece<nat>>
    decreases t, 2, 0
  {
    ExpandAll(t, Pieces(t.sql))
  }

  function ExpandAll(t: Template, ps: seq<Piece<string>>): seq<Piece<nat>>
    decreases t, 1, |ps|
  {
    if ps == [] then [] else ExpandPiece(t, ps[0]) + ExpandAll(t, ps[1..])
  }

  function ExpandPiece(t: Template, p: Piece<string>): seq<Piece<nat>>
    decreases t, 0, 0
  {
    match p
    case Text(c) => [Text(c)]
    case Hole(name) =>
      var i := IndexOf(t.bindings, name);
      if i == |t.bindings| then []
      else
        match t.bindings[i].expr
        case Codec(id) => [Hole(id)]
        case Nested(n) => Expand(n)
  }

  // ----- Compilation, piece by piece -----------------------------------------------------------------------

  datatype State = State(sql: string, codecs: seq<nat>, slots: map<string, nat>)

  const NOTHING := State("", [], map[])

  function PutCodec(st: State, name: string, id: nat): State {
    if name in st.slots then st.(sql := st.sql + ("$" + Decimal(st.slots[name])))
    else
      var slot := |st.codecs| + 1;
      State(st.sql + ("$" + Decimal(slot)), st.codecs + [id], st.slots[name := slot])
  }

  function PutNested(st: State, c: Compiled): State {
    State(st.sql + Renumbered(c.sql, |st.codecs|), st.codecs + c.codecs, st.slots)
  }

  function Put(t: Template, st: State, p: Piece<string>): State
    decreases t, 0, 0
  {
    match p
    case Text(c) => st.(sql := st.sql + [c])
    case Hole(name) =>
      var i := IndexOf(t.bindings, name);
      if i == |t.bindings| then st
      else
        match t.bindings[i].expr
        case Codec(id) => PutCodec(st, name, id)
        case Nested(n) => PutNested(st, CompiledOf(n))
  }

  function PutAll(t: Template, st: State, ps: seq<Piece<string>>): State
    decreases t, 1, |ps|
  {
    if ps == [] then st else PutAll(t, Put(t, st, ps[0]), ps[1..])
  }

  function CompiledOf(t: Template): Compiled
    decreases t, 2, 0
  {
    var st := PutAll(t, NOTHING, Pieces(t.sql));
    Compiled(st.sql, st.codecs)
  }

  // ----- The compiled text means its expansion -----------------------------------------------------------------

  predicate Fits(token: Piece<nat>, piece: Piece<nat>, codecs: seq<nat>) {
    match piece
    case Text(_) => token == piece
    case Hole(id) => token.Hole? && 1 <= token.of <= |codecs| && codecs[token.of - 1] == id
  }

  /** The slots of `tokens`, filled with the codecs, give `meaning`. */
  ghost predicate Fills(tokens: seq<Piece<nat>>, codecs: seq<nat>, meaning: seq<Piece<nat>>) {
    |tokens| == |meaning| && forall i :: 0 <= i < |tokens| ==> Fits(tokens[i], meaning[i], codecs)
  }

  predicate HasSlot(tokens: seq<Piece<nat>>, k: nat) {
    Hole(k) in tokens
  }

  ghost predicate AllUsed(tokens: seq<Piece<nat>>, n: nat) {
    forall k: nat :: 1 <= k <= n ==> HasSlot(tokens, k)
  }

  predicate Canonical(sql: string) {
    Render(Tokens(sql)) == sql
  }

  /** What compiled text owes to its meaning: nothing is lost if no digit is swallowed, and if one is,
      there are fewer pieces than there should be. */
  ghost predicate Faithful(sql: string, codecs: seq<nat>, meaning: seq<Piece<nat>>) {
    if Clean(meaning) then Fills(Tokens(sql), codecs, meaning) && Canonical(sql)
    else |Tokens(sql)| < |meaning|
  }

  lemma FillsKeepsShape(tokens: seq<Piece<nat>>, codecs: seq<nat>, meaning: seq<Piece<nat>>)
    requires Fills(tokens, codecs, meaning)
    ensures EndsOpen(tokens) <==> EndsOpen(meaning)
    ensures StartsWithDigit(tokens) <==> StartsWithDigit(meaning)
  {
    if tokens != [] {
      assert Fits(tokens[0], meaning[0], codecs);
      assert Fits(tokens[|tokens| - 1], meaning[|meaning| - 1], codecs);
    }
  }

  lemma FillsAppends(a: seq<Piece<nat>>, x: seq<Piece<nat>>, b: seq<Piece<nat>>, y: seq<Piece<nat>>,
                     codecs: seq<nat>, more: seq<nat>)
    requires Fills(a, codecs, x) && Fills(b, codecs + more, y)
    ensures Fills(a + b, codecs + more, x + y)
  {
    forall i | 0 <= i < |a + b|
      ensures Fits((a + b)[i], (x + y)[i], codecs + more)
    {
      if i < |a| {
        assert Fits(a[i], x[i], codecs);
      } else {
        assert Fits(b[i - |a|], y[i - |a|], codecs + more);
      }
    }
  }

  lemma FaithfulAppends(a: string, x: seq<Piece<nat>>, b: string, y: seq<Piece<nat>>, codecs: seq<nat>, more: seq<nat>)
    requires Faithful(a, codecs, x) && Faithful(b, codecs + more, y)
    ensures Faithful(a + b, codecs + more, x + y)
    ensures Clean(x + y) ==> Clean(x) && Clean(y) && Tokens(a + b) == Tokens(a) + Tokens(b)
  {
    CleanAppends(x, y);
    TokensAppend(a, b);
    TokensStart(b);
    if Clean(x) && Clean(y) {
      FillsKeepsShape(Tokens(a), codecs, x);
      FillsKeepsShape(Tokens(b), codecs + more, y);
      FillsAppends(Tokens(a), x, Tokens(b), y, codecs, more);
      RenderAppends(Tokens(a), Tokens(b));
    }
  }

  lemma TextIsFaithful(c: char, codecs: seq<nat>)
    ensures Faithful([c], codecs, [Text(c)]) && Tokens([c]) == [Text(c)]
  {
    PieceReadsBack(Text(c));
    assert Render([Text(c)]) == [c];
  }

  lemma SlotIsFaithful(k: nat, codecs: seq<nat>)
    requires 1 <= k <= |codecs|
    ensures Faithful("$" + Decimal(k), codecs, [Hole(codecs[k - 1])]) && Tokens("$" + Decimal(k)) == [Hole(k)]
  {
    PieceReadsBack(Hole(k));
    assert Render([Hole(k)]) == "$" + Decimal(k);
  }

  lemma ShiftFills(tokens: seq<Piece<nat>>, codecs: seq<nat>, meaning: seq<Piece<nat>>, before: seq<nat>)
    requires Fills(tokens, codecs, meaning)
    ensures Fills(Shift(tokens, |before|), before + codecs, meaning)
  {
    var shifted := Shift(tokens, |before|);
    assert |shifted| == |tokens|;
    forall i | 0 <= i < |meaning|
      ensures Fits(shifted[i], meaning[i], before + codecs)
    {
      ShiftAt(tokens, |before|, i);
      ShiftFits(tokens[i], meaning[i], codecs, before);
    }
  }

  lemma ShiftAt(tokens: seq<Piece<nat>>, n: nat, i: nat)
    requires i < |tokens|
    ensures |Shift(tokens, n)| == |tokens|
    ensures Shift(tokens, n)[i] == if tokens[i].Hole? then Hole(tokens[i].of + n) else tokens[i]
  {
  }

  lemma ShiftFits(token: Piece<nat>, piece: Piece<nat>, codecs: seq<nat>, before: seq<nat>)
    requires Fits(token, piece, codecs)
    ensures Fits(if token.Hole? then Hole(token.of + |before|) else token, piece, before + codecs)
  {
  }

  lemma RenumberedIsFaithful(sql: string, codecs: seq<nat>, meaning: seq<Piece<nat>>, before: seq<nat>)
    requires Faithful(sql, codecs, meaning)
    ensures Faithful(Renumbered(sql, |before|), before + codecs, meaning)
    ensures Tokens(Renumbered(sql, |before|)) == Shift(Tokens(sql), |before|)
  {
    var tokens := Tokens(sql);
    RenumberedReads(sql, |before|);
    if Clean(meaning) {
      ShiftFills(tokens, codecs, meaning, before);
    }
  }

  // ----- The compiler ---------------------------------------------------------------------------------------

  /** The slots of the names seen so far hold their codecs. */
  ghost predicate SlotsOk(t: Template, st: State) {
    forall name :: name in st.slots ==> SlotOk(t, st, name)
  }

  ghost predicate SlotOk(t: Template, st: State, name: string)
    requires name in st.slots
  {
    var i := IndexOf(t.bindings, name);
    && i < |t.bindings| && t.bindings[i].expr.Codec?
    && 1 <= st.slots[name] <= |st.codecs|
    && st.codecs[st.slots[name] - 1] == t.bindings[i].expr.id
  }

  /** A state that stands for the expansion `meaning` of what has been read. */
  ghost predicate Stands(t: Template, st: State, meaning: seq<Piece<nat>>) {
    && SlotsOk(t, st)
    && Faithful(st.sql, st.codecs, meaning)
    && (Clean(meaning) ==> AllUsed(Tokens(st.sql), |st.codecs|))
  }

  lemma AllUsedGrows(a: seq<Piece<nat>>, n: nat, b: seq<Piece<nat>>, m: nat)
    requires AllUsed(a, n) && n <= m && (forall k: nat :: n < k <= m ==> HasSlot(b, k))
    ensures AllUsed(a + b, m)
  {
    forall k: nat | 1 <= k <= m
      ensures HasSlot(a + b, k)
    {
      assert HasSlot(if k <= n then a else b, k);
    }
  }

  /** A state grows by text that is faithful to what it stands for and that uses the new codecs. */
  lemma StandsGrows(t: Template, st: State, x: seq<Piece<nat>>, after: State, b: string, y: seq<Piece<nat>>,
                    more: seq<nat>)
    requires Stands(t, st, x) && after.sql == st.sql + b && after.codecs == st.codecs + more && SlotsOk(t, after)
    requires Faithful(b, after.codecs, y)
    requires Clean(y) ==> forall k: nat :: |st.codecs| < k <= |after.codecs| ==> HasSlot(Tokens(b), k)
    ensures Stands(t, after, x + y)
  {
    FaithfulAppends(st.sql, x, b, y, st.codecs, more);
    if Clean(x + y) {
      AllUsedGrows(Tokens(st.sql), |st.codecs|, Tokens(b), |after.codecs|);
    }
  }

  lemma PutTextStands(t: Template, st: State, x: seq<Piece<nat>>, c: char)
    requires Stands(t, st, x)
    ensures Stands(t, Put(t, st, Text(c)), x + [Text(c)])
  {
    TextIsFaithful(c, st.codecs);
    var after := Put(t, st, Text(c));
    assert st.codecs + [] == st.codecs;
    assert forall name :: name in after.slots ==> SlotOk(t, st, name);
    StandsGrows(t, st, x, after, [c], [Text(c)], []);
  }

  lemma SlotStays(t: Template, st: State, after: State, name: string)
    requires name in st.slots && SlotOk(t, st, name) && st.codecs <= after.codecs
    requires name in after.slots && after.slots[name] == st.slots[name]
    ensures SlotOk(t, after, name)
  {
  }

  lemma PutCodecSlots(t: Template, st: State, name: string, id: nat)
    requires SlotsOk(t, st) && IndexOf(t.bindings, name) < |t.bindings|
    requires t.bindings[IndexOf(t.bindings, name)].expr == Codec(id)
    ensures var after := PutCodec(st, name, id); name in after.slots && SlotsOk(t, after)
  {
    var after := PutCodec(st, name, id);
    forall other | other in after.slots
      ensures SlotOk(t, after, other)
    {
      if other in st.slots {
        assert SlotOk(t, st, other);
        SlotStays(t, st, after, other);
      }
    }
  }

  lemma SlotStands(t: Template, st: State, x: seq<Piece<nat>>, after: State, k: nat, more: seq<nat>)
    requires Stands(t, st, x) && SlotsOk(t, after) && 1 <= k <= |after.codecs|
    requires after.sql == st.sql + ("$" + Decimal(k)) && after.codecs == st.codecs + more
    requires |more| <= 1 && (more != [] ==> k == |after.codecs|)
    ensures Stands(t, after, x + [Hole(after.codecs[k - 1])])
  {
    SlotIsFaithful(k, after.codecs);
    assert HasSlot(Tokens("$" + Decimal(k)), k);
    StandsGrows(t, st, x, after, "$" + Decimal(k), [Hole(after.codecs[k - 1])], more);
  }

  lemma PutCodecStands(t: Template, st: State, x: seq<Piece<nat>>, name: string, id: nat)
    requires Stands(t, st, x) && IndexOf(t.bindings, name) < |t.bindings|
    requires t.bindings[IndexOf(t.bindings, name)].expr == Codec(id)
    ensures Stands(t, PutCodec(st, name, id), x + [Hole(id)])
  {
    var after := PutCodec(st, name, id);
    PutCodecSlots(t, st, name, id);
    assert SlotOk(t, after, name);
    SlotStands(t, st, x, after, after.slots[name], if name in st.slots then [] else [id]);
  }

  lemma ShiftHas(tokens: seq<Piece<nat>>, n: nat, own: nat, k: nat)
    requires HasSlot(tokens, own) && k == own + n
    ensures HasSlot(Shift(tokens, n), k)
  {
    var i :| 0 <= i < |tokens| && tokens[i] == Hole(own);
    ShiftAt(tokens, n, i);
  }

  lemma ShiftUsesOne(tokens: seq<Piece<nat>>, n: nat, used: nat, k: nat)
    requires AllUsed(tokens, used) && n < k <= n + used
    ensures HasSlot(Shift(tokens, n), k)
  {
    var own: nat := k - n;
    assert HasSlot(tokens, own);
    ShiftHas(tokens, n, own, k);
  }

  lemma ShiftUses(tokens: seq<Piece<nat>>, n: nat, used: nat)
    requires AllUsed(tokens, used)
    ensures forall k: nat :: n < k <= n + used ==> HasSlot(Shift(tokens, n), k)
  {
    forall k: nat | n < k <= n + used
      ensures HasSlot(Shift(tokens, n), k)
    {
      ShiftUsesOne(tokens, n, used, k);
    }
  }

  lemma PutNestedSlots(t: Template, st: State, c: Compiled)
    requires SlotsOk(t, st)
    ensures SlotsOk(t, PutNested(st, c))
  {
    forall other | other in st.slots
      ensures SlotOk(t, PutNested(st, c), other)
    {
      assert SlotOk(t, st, other);
    }
  }

  lemma PutNestedStands(t: Template, st: State, x: seq<Piece<nat>>, c: Compiled, y: seq<Piece<nat>>)
    requires Stands(t, st, x) && Faithful(c.sql, c.codecs, y)
    requires Clean(y) ==> AllUsed(Tokens(c.sql), |c.codecs|)
    ensures Stands(t, PutNested(st, c), x + y)
  {
    var after := PutNested(st, c);
    var n := |st.codecs|;
    RenumberedIsFaithful(c.sql, c.codecs, y, st.codecs);
    PutNestedSlots(t, st, c);
    if Clean(y) {
      ShiftUses(Tokens(c.sql), n, |c.codecs|);
    }
    StandsGrows(t, st, x, after, Renumbered(c.sql, n), y, c.codecs);
  }

  lemma {:induction false} PutAllStands(t: Template, st: State, x: seq<Piece<nat>>, ps: seq<Piece<string>>)
    requires Stands(t, st, x)
    ensures Stands(t, PutAll(t, st, ps), x + ExpandAll(t, ps))
    decreases t, 1, |ps|
  {
    if ps == [] {
      assert x + [] == x;
    } else {
      PutStands(t, st, x, ps[0]);
      PutAllStands(t, Put(t, st, ps[0]), x + ExpandPiece(t, ps[0]), ps[1..]);
      assert x + ExpandAll(t, ps) == (x + ExpandPiece(t, ps[0])) + ExpandAll(t, ps[1..]);
    }
  }

  lemma {:induction false} PutStands(t: Template, st: State, x: seq<Piece<nat>>, p: Piece<string>)
    requires Stands(t, st, x)
    ensures Stands(t, Put(t, st, p), x + ExpandPiece(t, p))
    decreases t, 0, 0
  {
    match p {
      case Text(c) => PutTextStands(t, st, x, c);
      case Hole(name) =>
        var i := IndexOf(t.bindings, name);
        if i == |t.bindings| {
          assert x + [] == x;
        } else {
          match t.bindings[i].expr {
            case Codec(id) => PutCodecStands(t, st, x, name, id);
            case Nested(n) =>
              CompiledStands(n);
              PutNestedStands(t, st, x, CompiledOf(n), Expand(n));
          }
        }
    }
  }

  lemma {:induction false} CompiledStands(t: Template)
    ensures var c := CompiledOf(t);
      Faithful(c.sql, c.codecs, Expand(t)) && (Clean(Expand(t)) ==> AllUsed(Tokens(c.sql), |c.codecs|))
    decreases t, 2, 0
  {
    PutAllStands(t, NOTHING, [], Pieces(t.sql));
    assert [] + Expand(t) == Expand(t);
  }

  /** Flattening preserves meaning exactly when, in the expansion, no placeholder and no `$` of the
      text is directly followed by a digit of the text. Every slot is then used. */
  lemma FlatteningPreservesMeaning(t: Template)
    ensures var c := CompiledOf(t);
      && (Fills(Tokens(c.sql), c.codecs, Expand(t)) <==> Clean(Expand(t)))
      && (Clean(Expand(t)) ==> AllUsed(Tokens(c.sql), |c.codecs|))
  {
    CompiledStands(t);
  }

  /** The names bound to codecs that occur in the pieces, and the slots taken by nested templates. */
  function PlainNames(t: Template, ps: seq<Piece<string>>): set<string> {
    if ps == [] then {} else (if IsPlain(t, ps[0]) then {ps[0].of} else {}) + PlainNames(t, ps[1..])
  }

  predicate IsPlain(t: Template, p: Piece<string>) {
    p.Hole? && IndexOf(t.bindings, p.of) < |t.bindings| && t.bindings[IndexOf(t.bindings, p.of)].expr.Codec?
  }

  predicate IsNested(t: Template, p: Piece<string>) {
    p.Hole? && IndexOf(t.bindings, p.of) < |t.bindings| && t.bindings[IndexOf(t.bindings, p.of)].expr.Nested?
  }

  function NestedSlots(t: Template, ps: seq<Piece<string>>): nat {
    if ps == [] then 0
    else
      (if IsNested(t, ps[0]) then |CompiledOf(t.bindings[IndexOf(t.bindings, ps[0].of)].expr.template).codecs| else 0)
      + NestedSlots(t, ps[1..])
  }

  lemma PutCounts(t: Template, st: State, p: Piece<string>)
    ensures Put(t, st, p).slots.Keys == st.slots.Keys + (if IsPlain(t, p) then {p.of} else {})
    ensures |Put(t, st, p).codecs| - |Put(t, st, p).slots.Keys| == |st.codecs| - |st.slots.Keys| + NestedSlots(t, [p])
  {
    assert [p][1..] == [];
    if IsPlain(t, p) {
      PutCodecCounts(st, p.of, t.bindings[IndexOf(t.bindings, p.of)].expr.id);
    }
  }

  lemma PutCodecCounts(st: State, name: string, id: nat)
    ensures PutCodec(st, name, id).slots.Keys == st.slots.Keys + {name}
    ensures |PutCodec(st, name, id).codecs| - |PutCodec(st, name, id).slots.Keys| == |st.codecs| - |st.slots.Keys|
  {
    var after := PutCodec(st, name, id);
    assert after.slots.Keys == st.slots.Keys + {name};
  }

  lemma UnionsRegroup(a: set<string>, b: set<string>, c: set<string>)
    ensures (a + b) + c == a + (b + c)
  {
  }

  lemma {:induction false} SlotNames(t: Template, st: State, ps: seq<Piece<string>>)
    ensures PutAll(t, st, ps).slots.Keys == st.slots.Keys + PlainNames(t, ps)
    decreases |ps|
  {
    if ps == [] {
      assert st.slots.Keys + {} == st.slots.Keys;
    } else {
      PutCounts(t, st, ps[0]);
      SlotNames(t, Put(t, st, ps[0]), ps[1..]);
      UnionsRegroup(st.slots.Keys, if IsPlain(t, ps[0]) then {ps[0].of} else {}, PlainNames(t, ps[1..]));
    }
  }

  lemma {:induction false} SlotNumbers(t: Template, st: State, ps: seq<Piece<string>>)
    ensures var after := PutAll(t, st, ps);
      |after.codecs| - |after.slots.Keys| == |st.codecs| - |st.slots.Keys| + NestedSlots(t, ps)
    decreases |ps|
  {
    if ps != [] {
      PutCounts(t, st, ps[0]);
      assert [ps[0]][1..] == [];
      SlotNumbers(t, Put(t, st, ps[0]), ps[1..]);
    }
  }

  /** Repeats of one name at one level share a slot; each use of a nested template brings its own. */
  lemma SlotCount(t: Template)
    ensures |CompiledOf(t).codecs| == |PlainNames(t, Pieces(t.sql))| + NestedSlots(t, Pieces(t.sql))
  {
    SlotNames(t, NOTHING, Pieces(t.sql));
    SlotNumbers(t, NOTHING, Pieces(t.sql));
    assert NOTHING.slots.Keys + PlainNames(t, Pieces(t.sql)) == PlainNames(t, Pieces(t.sql));
  }

  const FIVE := Template("5", [])

  const SLOT_THEN_FIVE := Template("$a$n", [Binding("a", Codec(0)), Binding("n", Nested(FIVE))])

  /** A template that compiles and does not mean its expansion: `$a` followed by a nested template
      that starts with a digit. */
  lemma SwallowedDigit()
    ensures Compiles(SLOT_THEN_FIVE)
    ensures var c := CompiledOf(SLOT_THEN_FIVE); !Fills(Tokens(c.sql), c.codecs, Expand(SLOT_THEN_FIVE))
  {
    FiveExpands();
    SlotThenFiveNames();
    SlotThenFiveCompiles();
    SlotThenFiveExpands();
    var pieces := Expand(SLOT_THEN_FIVE);
    assert Open(pieces[0]) && IsDigitText(pieces[0 + 1]);
    FlatteningPreservesMeaning(SLOT_THEN_FIVE);
  }

  lemma FiveExpands()
    ensures Compiles(FIVE) && Expand(FIVE) == [Text('5')]
  {
    assert "5"[1..] == "";
    assert Pieces("5") == [Text('5')];
    var ps := Pieces("5");
    assert ps[1..] == [];
  }

  lemma SlotThenFiveNames()
    ensures Names(Pieces(SLOT_THEN_FIVE.sql)) == {"a", "n"}
    ensures IndexOf(SLOT_THEN_FIVE.bindings, "a") == 0 && IndexOf(SLOT_THEN_FIVE.bindings, "n") == 1
  {
    var bindings := SLOT_THEN_FIVE.bindings;
    assert bindings[0].name == "a" && bindings[1].name == "n" && "a"[0] != "n"[0];
    assert bindings[1..][0].name == "n";
    TwoPlaceholders();
    var ps := Pieces(SLOT_THEN_FIVE.sql);
    assert ps[1..] == [Hole("n")] && ps[1..][1..] == [];
    assert Names(ps[1..]) == {"n"};
    assert Names(ps) == {"a", "n"};
  }

  lemma SlotThenFiveCompiles()
    requires Compiles(FIVE) && Names(Pieces(SLOT_THEN_FIVE.sql)) == {"a", "n"}
    ensures Compiles(SLOT_THEN_FIVE)
  {
    var bindings := SLOT_THEN_FIVE.bindings;
    assert bindings[0].name == "a" && bindings[1].name == "n" && "a"[0] != "n"[0];
  }

  lemma SlotThenFiveExpands()
    requires IndexOf(SLOT_THEN_FIVE.bindings, "a") == 0 && IndexOf(SLOT_THEN_FIVE.bindings, "n") == 1
    requires Expand(FIVE) == [Text('5')]
    ensures Expand(SLOT_THEN_FIVE) == [Hole(0), Text('5')]
  {
    TwoPlaceholders();
    var ps := Pieces(SLOT_THEN_FIVE.sql);
    assert ps[1..] == [Hole("n")] && ps[1..][1..] == [];
    assert ExpandPiece(SLOT_THEN_FIVE, Hole("n")) == [Text('5')];
    assert ExpandPiece(SLOT_THEN_FIVE, Hole("a")) == [Hole(0)];
    assert ExpandAll(SLOT_THEN_FIVE, ps[1..]) == [Text('5')];
  }

  lemma TwoPlaceholders()
    ensures Pieces("$a$n") == [Hole("a"), Hole("n")]
  {
    var s := "$a$n";
    assert s[1..] == "a$n" && s[1..][1..] == "$n" && s[2..] == "$n" && s[1..2] == "a";
    assert IdentLength("$n") == 0;
    assert IdentLength(s[1..]) == 1;
    assert s[2..][1..] == "n" && "n"[1..] == "" && s[2..][2..] == "" && s[2..][1..2] == "n";
    assert IdentLength("n") == 1;
  }

  // ----- `compile_input` ------------------------------------------------------------------------------------

  lemma IdentLengthIs(s: string, n: nat)
    requires n <= |s| && (forall i :: 0 <= i < n ==> IsIdentContinue(s[i])) && (n < |s| ==> !IsIdentContinue(s[n]))
    ensures IdentLength(s) == n
  {
  }

  /** Up to position `i` the source has been put into `st`, using the names `used`. */
  ghost predicate Scanned(t: Template, i: nat, st: State, used: set<string>) {
    && i <= |t.sql|
    && PutAll(t, NOTHING, Pieces(t.sql)) == PutAll(t, st, Pieces(t.sql[i..]))
    && Names(Pieces(t.sql)) == used + Names(Pieces(t.sql[i..]))
    && (forall name :: name in used ==> Bound(t, name))
  }

  ghost predicate Bound(t: Template, name: string) {
    var i := IndexOf(t.bindings, name);
    i < |t.bindings| && (t.bindings[i].expr.Nested? ==> Compiles(t.bindings[i].expr.template))
  }

  lemma FirstPiece(t: Template, st: State, p: Piece<string>, ps: seq<Piece<string>>)
    ensures PutAll(t, st, [p] + ps) == PutAll(t, Put(t, st, p), ps)
    ensures Names([p] + ps) == (if p.Hole? then {p.of} else {}) + Names(ps)
  {
    assert ([p] + ps)[1..] == ps;
  }

  lemma NameIsFirst(s: string, i: nat, j: nat)
    requires i + 2 <= j <= |s| && s[i] == '$' && IsIdentStart(s[i + 1])
    requires (forall k :: i < k < j ==> IsIdentContinue(s[k])) && (j < |s| ==> !IsIdentContinue(s[j]))
    ensures Pieces(s[i..]) == [Hole(s[i + 1..j])] + Pieces(s[j..])
  {
    var rest, n := s[i..], j - i - 1;
    assert rest[1..] == s[i + 1..];
    IdentLengthIs(s[i + 1..], n);
    assert rest[1..1 + n] == s[i + 1..j];
    assert rest[1 + n..] == s[j..];
  }

  lemma HoleIsScanned(t: Template, i: nat, j: nat, st: State, used: set<string>, name: string)
    requires Scanned(t, i, st, used) && i <= j <= |t.sql| && Pieces(t.sql[i..]) == [Hole(name)] + Pieces(t.sql[j..])
    ensures name in Names(Pieces(t.sql))
    ensures Bound(t, name) ==> Scanned(t, j, Put(t, st, Hole(name)), used + {name})
  {
    FirstPiece(t, st, Hole(name), Pieces(t.sql[j..]));
  }

  lemma NameIsScanned(t: Template, i: nat, j: nat, st: State, used: set<string>)
    requires Scanned(t, i, st, used) && i + 2 <= j <= |t.sql| && t.sql[i] == '$' && IsIdentStart(t.sql[i + 1])
    requires (forall k :: i < k < j ==> IsIdentContinue(t.sql[k])) && (j < |t.sql| ==> !IsIdentContinue(t.sql[j]))
    ensures t.sql[i + 1..j] in Names(Pieces(t.sql))
    ensures Bound(t, t.sql[i + 1..j]) ==>
      Scanned(t, j, Put(t, st, Hole(t.sql[i + 1..j])), used + {t.sql[i + 1..j]})
  {
    NameIsFirst(t.sql, i, j);
    HoleIsScanned(t, i, j, st, used, t.sql[i + 1..j]);
  }

  lemma TextIsScanned(t: Template, i: nat, st: State, used: set<string>)
    requires Scanned(t, i, st, used) && i < |t.sql| && !StartsWithName(t.sql[i..])
    ensures Scanned(t, i + 1, st.(sql := st.sql + [t.sql[i]]), used)
  {
    assert t.sql[i..][1..] == t.sql[i + 1..];
    assert Pieces(t.sql[i..]) == [Text(t.sql[i])] + Pieces(t.sql[i + 1..]);
    FirstPiece(t, st, Text(t.sql[i]), Pieces(t.sql[i + 1..]));
  }

  lemma AllBound(t: Template, st: State, used: set<string>)
    requires Scanned(t, |t.sql|, st, used) && DistinctNames(t.bindings)
    requires forall i :: 0 <= i < |t.bindings| ==> t.bindings[i].name in used
    ensures Compiles(t) && CompiledOf(t) == Compiled(st.sql, st.codecs)
  {
    assert t.sql[|t.sql|..] == "";
    assert Names(Pieces(t.sql)) == used;
    forall i | 0 <= i < |t.bindings| && t.bindings[i].expr.Nested?
      ensures Compiles(t.bindings[i].expr.template)
    {
      assert Bound(t, t.bindings[i].name);
      assert IndexOf(t.bindings, t.bindings[i].name) == i;
    }
  }

  /** What an error says of a template: it is so of the template or of one nested in it. */
  ghost predicate Blames(t: Template, e: CompileError) {
    || (match e
        case DuplicateBinding(name) => Duplicated(t.bindings, name)
        case NoBinding(name) => name in Names(Pieces(t.sql)) && IndexOf(t.bindings, name) == |t.bindings|
        case UnusedBinding(name) => IndexOf(t.bindings, name) < |t.bindings| && name !in Names(Pieces(t.sql)))
    || (exists i :: 0 <= i < |t.bindings| && t.bindings[i].expr.Nested? && Blames(t.bindings[i].expr.template, e))
  }

  ghost predicate Duplicated(bindings: seq<Binding>, name: string) {
    exists i, j :: 0 <= i < j < |bindings| && bindings[i].name == bindings[j].name == name
  }

  method CheckDuplicates(bindings: seq<Binding>) returns (duplicate: Option<string>)
    ensures duplicate.None? <==> DistinctNames(bindings)
    ensures duplicate.Some? ==> Duplicated(bindings, duplicate.value)
  {
    var seen: set<string> := {};
    for i := 0 to |bindings|
      invariant seen == set k | 0 <= k < i :: bindings[k].name
      invariant forall j, k :: 0 <= j < k < i ==> bindings[j].name != bindings[k].name
    {
      if bindings[i].name in seen {
        return Some(bindings[i].name);
      }
      seen := seen + {bindings[i].name};
    }
    return None;
  }

  method CheckUnused(bindings: seq<Binding>, used: set<string>) returns (unused: Option<string>)
    ensures unused.None? ==> forall i :: 0 <= i < |bindings| ==> bindings[i].name in used
    ensures unused.Some? ==> unused.value !in used && IndexOf(bindings, unused.value) < |bindings|
  {
    for k := 0 to |bindings|
      invariant forall m :: 0 <= m < k ==> bindings[m].name in used
    {
      if bindings[k].name !in used {
        return Some(bindings[k].name);
      }
    }
    return None;
  }

  /** The end of the name that starts after the `$` at `i`. */
  method ScanName(sql: string, i: nat) returns (j: nat)
    requires i + 1 < |sql| && IsIdentStart(sql[i + 1])
    ensures i + 2 <= j <= |sql| && (forall k :: i < k < j ==> IsIdentContinue(sql[k]))
    ensures j < |sql| ==> !IsIdentContinue(sql[j])
  {
    j := i + 2;
    while j < |sql| && IsIdentContinue(sql[j])
      invariant i + 2 <= j <= |sql| && forall k :: i < k < j ==> IsIdentContinue(sql[k])
    {
      j := j + 1;
    }
  }

  predicate Resolves(expr: Expr, name: string, st: State, after: State) {
    after == match expr
             case Codec(id) => PutCodec(st, name, id)
             case Nested(n) => PutNested(st, CompiledOf(n))
  }

  /** A placeholder whose binding has been found. */
  method PutBinding(expr: Expr, name: string, st: State) returns (r: Result<State, CompileError>)
    ensures r.Ok? <==> (expr.Nested? ==> Compiles(expr.template))
    ensures r.Ok? ==> Resolves(expr, name, st, r.value)
    ensures r.Err? ==> expr.Nested? && Blames(expr.template, r.error)
    decreases expr
  {
    match expr {
      case Nested(nested) =>
        var compiled := CompileInput(nested);
        if compiled.Err? {
          return Err(compiled.error);
        }
        var sql := RenumberInto(compiled.value.sql, |st.codecs|, st.sql);
        return Ok(State(sql, st.codecs + compiled.value.codecs, st.slots));
      case Codec(id) =>
        var next := st;
        if name !in st.slots {
          next := State(st.sql, st.codecs + [id], st.slots[name := |st.codecs| + 1]);
        }
        return Ok(next.(sql := next.sql + ("$" + Decimal(next.slots[name]))));
    }
  }

  /** `compile_input`: succeeds exactly for the templates that compile, with their flattened form. */
  method CompileInput(t: Template) returns (r: Result<Compiled, CompileError>)
    ensures r.Ok? <==> Compiles(t)
    ensures r.Ok? ==> r.value == CompiledOf(t)
    ensures r.Err? ==> Blames(t, r.error)
    decreases t
  {
    var duplicate := CheckDuplicates(t.bindings);
    if duplicate.Some? {
      return Err(DuplicateBinding(duplicate.value));
    }
    var st := NOTHING;
    var used: set<string> := {};
    var i := 0;
    assert t.sql[0..] == t.sql;
    while i < |t.sql|
      invariant Scanned(t, i, st, used)
    {
      if t.sql[i] == '$' && i + 1 < |t.sql| && IsIdentStart(t.sql[i + 1]) {
        var j := ScanName(t.sql, i);
        var name := t.sql[i + 1..j];
        NameIsScanned(t, i, j, st, used);
        var at := IndexOf(t.bindings, name);
        if at == |t.bindings| {
          return Err(NoBinding(name));
        }
        var next := PutBinding(t.bindings[at].expr, name, st);
        if next.Err? {
          return Err(next.error);
        }
        assert Bound(t, name);
        st, used, i := next.value, used + {name}, j;
      } else {
        TextIsScanned(t, i, st, used);
        st := st.(sql := st.sql + [t.sql[i]]);
        i := i + 1;
      }
    }
    assert t.sql[i..] == "" && Names(Pieces(t.sql)) == used;
    var unused := CheckUnused(t.bindings, used);
    if unused.Some? {
      return Err(UnusedBinding(unused.value));
    }
    AllBound(t, st, used);
    return Ok(Compiled(st.sql, st.codecs));
  }
}

/**
 The value-level builder of `crates/core/src/query/fragment.rs`: `lit`, `append_lit`, `bind` and
 `plus` consume fragments and return fragments. An encoder is the tree that they build; it encodes
 its head before its tail. A codec that is bound fills one slot.
 */
module QueryFragment {
  import opened Decimals
  import opened SqlTokens
  import opened SqlCompiler

  datatype Encoder = Unit | AppendOne(head: Encoder, codec: nat) | AppendChain(first: Encoder, second: Encoder)

  /** The codecs in the order in which their parameters are pushed. */
  function Pushes(e: Encoder): seq<nat> {
    match e
    case Unit => []
    case AppendOne(head, codec) => Pushes(head) + [codec]
    case AppendChain(first, second) => Pushes(first) + Pushes(second)
  }

  datatype Fragment = Fragment(sql: string, encoder: Encoder, params: nat)

  function Lit(sql: string): Fragment {
    Fragment(sql, Unit, 0)
  }

  function AppendLit(f: Fragment, sql: string): Fragment {
    f.(sql := f.sql + sql)
  }

  function Bind(f: Fragment, codec: nat): Fragment {
    Fragment(f.sql + ("$" + Decimal(f.params + 1)), AppendOne(f.encoder, codec), f.params + 1)
  }

  function Plus(f: Fragment, g: Fragment): Fragment {
    Fragment(f.sql + Renumbered(g.sql, f.params), AppendChain(f.encoder, g.encoder), f.params + g.params)
  }

  // ----- Builder expressions and their meaning ------------------------------------------------------------

  datatype Build =
    | LitOf(sql: string)
    | Appended(to: Build, text: string)
    | Bound(before: Build, codec: nat)
    | Sum(left: Build, right: Build)

  function Built(b: Build): Fragment {
    match b
    case LitOf(sql) => Lit(sql)
    case Appended(to, text) => AppendLit(Built(to), text)
    case Bound(before, codec) => Bind(Built(before), codec)
    case Sum(left, right) => Plus(Built(left), Built(right))
  }

  function TextPieces(s: string): seq<Piece<nat>> {
    if s == "" then [] else [Text(s[0])] + TextPieces(s[1..])
  }

  /** The text in order, with a hole for each codec. */
  function Meaning(b: Build): seq<Piece<nat>> {
    match b
    case LitOf(sql) => TextPieces(sql)
    case Appended(to, text) => Meaning(to) + TextPieces(text)
    case Bound(before, codec) => Meaning(before) + [Hole(codec)]
    case Sum(left, right) => Meaning(left) + Meaning(right)
  }

  lemma {:induction false} LiteralIsFaithful(s: string, codecs: seq<nat>)
    ensures Faithful(s, codecs, TextPieces(s))
  {
    if s != "" {
      LiteralIsFaithful(s[1..], codecs);
      TextIsFaithful(s[0], codecs);
      assert codecs + [] == codecs;
      assert [s[0]] + s[1..] == s;
      FaithfulAppends([s[0]], [Text(s[0])], s[1..], TextPieces(s[1..]), codecs, []);
    }
  }

  /** A fragment that stands for a meaning, with every parameter in use. */
  ghost predicate Carries(f: Fragment, meaning: seq<Piece<nat>>) {
    && f.params == |Pushes(f.encoder)|
    && Faithful(f.sql, Pushes(f.encoder), meaning)
    && (Clean(meaning) ==> AllUsed(Tokens(f.sql), f.params))
  }

  /** A fragment grows by text that is faithful to what it stands for and that uses the new codecs. */
  lemma CarriesGrows(f: Fragment, x: seq<Piece<nat>>, after: Fragment, b: string, y: seq<Piece<nat>>, more: seq<nat>)
    requires Carries(f, x) && after.sql == f.sql + b && Pushes(after.encoder) == Pushes(f.encoder) + more
    requires after.params == f.params + |more| && Faithful(b, Pushes(after.encoder), y)
    requires Clean(y) ==> forall k: nat :: f.params < k <= after.params ==> HasSlot(Tokens(b), k)
    ensures Carries(after, x + y)
  {
    FaithfulAppends(f.sql, x, b, y, Pushes(f.encoder), more);
    if Clean(x + y) {
      AllUsedGrows(Tokens(f.sql), f.params, Tokens(b), after.params);
    }
  }

  lemma AppendLitCarries(f: Fragment, x: seq<Piece<nat>>, text: string)
    requires Carries(f, x)
    ensures Carries(AppendLit(f, text), x + TextPieces(text))
  {
    LiteralIsFaithful(text, Pushes(f.encoder));
    assert Pushes(f.encoder) + [] == Pushes(f.encoder);
    CarriesGrows(f, x, AppendLit(f, text), text, TextPieces(text), []);
  }

  lemma BindCarries(f: Fragment, x: seq<Piece<nat>>, codec: nat)
    requires Carries(f, x)
    ensures Carries(Bind(f, codec), x + [Hole(codec)])
  {
    var k := f.params + 1;
    var text := "$" + Decimal(k);
    SlotIsFaithful(k, Pushes(f.encoder) + [codec]);
    assert HasSlot(Tokens(text), k);
    CarriesGrows(f, x, Bind(f, codec), text, [Hole(codec)], [codec]);
  }

  lemma PlusCarries(f: Fragment, x: seq<Piece<nat>>, g: Fragment, y: seq<Piece<nat>>)
    requires Carries(f, x) && Carries(g, y)
    ensures Carries(Plus(f, g), x + y)
  {
    RenumberedIsFaithful(g.sql, Pushes(g.encoder), y, Pushes(f.encoder));
    if Clean(y) {
      ShiftUses(Tokens(g.sql), f.params, g.params);
    }
    CarriesGrows(f, x, Plus(f, g), Renumbered(g.sql, f.params), y, Pushes(g.encoder));
  }

  lemma {:induction false} BuiltCarries(b: Build)
    ensures Carries(Built(b), Meaning(b))
  {
    match b {
      case LitOf(sql) => LiteralIsFaithful(sql, []);
      case Appended(to, text) =>
        BuiltCarries(to);
        AppendLitCarries(Built(to), Meaning(to), text);
      case Bound(before, codec) =>
        BuiltCarries(before);
        BindCarries(Built(before), Meaning(before), codec);
      case Sum(left, right) =>
        BuiltCarries(left);
        BuiltCarries(right);
        PlusCarries(Built(left), Meaning(left), Built(right), Meaning(right));
    }
  }

  /** Whatever way a fragment is put together, its slots filled with the codecs in the order of its
      encoder give its text, exactly when no placeholder and no `$` of the text is directly followed
      by a digit; its slots are then `$1` to `$n`, all used, for the `n` parameters it counts. */
  lemma BuilderPreservesMeaning(b: Build)
    ensures var f := Built(b);
      && f.params == |Pushes(f.encoder)|
      && (Fills(Tokens(f.sql), Pushes(f.encoder), Meaning(b)) <==> Clean(Meaning(b)))
      && (Clean(Meaning(b)) ==> AllUsed(Tokens(f.sql), f.params))
  {
    BuiltCarries(b);
  }
}

/**
 Composing codecs: tuples in `crates/core/src/codec/tuple.rs` and `nullable` in
 `crates/core/src/codec/nullable.rs`, over leaves that fill one slot. The unit codec is the tuple
 without components. A decoder may rely on at least as many columns as it declares, as its trait
 demands.
 */
module TupleCodec {
  import opened Base

  type Slot = Option<bytes>

  /** A primitive codec: its OID and the format codes that it declares, which may be none. */
  datatype Leaf = Leaf(id: nat, oid: nat, formats: seq<int>)

  datatype Codec = One(leaf: Leaf) | Tuple(parts: seq<Codec>) | Nullable(inner: Codec)

  datatype Value = Scalar(n: int) | TupleOf(items: seq<Value>) | Null | Present(value: Value)

  /** How the leaves encode and decode; an encoder may refuse a value. */
  datatype Scalars = Scalars(encode: (Leaf, int) -> Option<bytes>, decode: (Leaf, bytes) -> Option<int>) {
    ghost predicate RoundTrip() {
      forall l, n :: encode(l, n).Some? ==> decode(l, encode(l, n).value) == Some(n)
    }
  }

  function Rank(c: Codec): nat {
    if c.Tuple? then |c.parts| + 1 else 0
  }

  predicate WellTyped(c: Codec, v: Value)
    decreases c
  {
    match c
    case One(_) => v.Scalar?
    case Tuple(parts) =>
      v.TupleOf? && |v.items| == |parts| && forall i :: 0 <= i < |parts| ==> WellTyped(parts[i], v.items[i])
    case Nullable(inner) => v.Null? || (v.Present? && WellTyped(inner, v.value))
  }

  // ----- Metadata -------------------------------------------------------------------------------------

  function Width(c: Codec): nat
    decreases c, Rank(c)
  {
    match c
    case One(_) => 1
    case Tuple(parts) => WidthFrom(c, 0)
    case Nullable(inner) => Width(inner)
  }

  function WidthFrom(c: Codec, i: nat): nat
    requires c.Tuple? && i <= |c.parts|
    decreases c, |c.parts| - i
  {
    if i == |c.parts| then 0 else Width(c.parts[i]) + WidthFrom(c, i + 1)
  }

  function Oids(c: Codec): seq<nat>
    decreases c, Rank(c)
  {
    match c
    case One(leaf) => [leaf.oid]
    case Tuple(parts) => OidsFrom(c, 0)
    case Nullable(inner) => Oids(inner)
  }

  function OidsFrom(c: Codec, i: nat): seq<nat>
    requires c.Tuple? && i <= |c.parts|
    decreases c, |c.parts| - i
  {
    if i == |c.parts| then [] else Oids(c.parts[i]) + OidsFrom(c, i + 1)
  }

  function Formats(c: Codec): seq<int>
    decreases c, Rank(c)
  {
    match c
    case One(leaf) => leaf.formats
    case Tuple(parts) => FormatsFrom(c, 0)
    case Nullable(inner) => Formats(inner)
  }

  function FormatsFrom(c: Codec, i: nat): seq<int>
    requires c.Tuple? && i <= |c.parts|
    decreases c, |c.parts| - i
  {
    if i == |c.parts| then [] else Formats(c.parts[i]) + FormatsFrom(c, i + 1)
  }

  /** The leaves from left to right. */
  function Leaves(c: Codec): seq<Leaf>
    decreases c, Rank(c)
  {
    match c
    case One(leaf) => [leaf]
    case Tuple(parts) => LeavesFrom(c, 0)
    case Nullable(inner) => Leaves(inner)
  }

  function LeavesFrom(c: Codec, i: nat): seq<Leaf>
    requires c.Tuple? && i <= |c.parts|
    decreases c, |c.parts| - i
  {
    if i == |c.parts| then [] else Leaves(c.parts[i]) + LeavesFrom(c, i + 1)
  }

  ghost predicate Declares(leaves: seq<Leaf>, oids: seq<nat>, width: nat) {
    |leaves| == |oids| == width && forall i :: 0 <= i < |leaves| ==> oids[i] == leaves[i].oid
  }

  lemma {:induction false} OidsAreTheLeaves(c: Codec)
    ensures Declares(Leaves(c), Oids(c), Width(c))
    decreases c, Rank(c)
  {
    match c {
      case One(_) =>
      case Tuple(_) => OidsAreTheLeavesFrom(c, 0);
      case Nullable(inner) => OidsAreTheLeaves(inner);
    }
  }

  lemma {:induction false} OidsAreTheLeavesFrom(c: Codec, i: nat)
    requires c.Tuple? && i <= |c.parts|
    ensures Declares(LeavesFrom(c, i), OidsFrom(c, i), WidthFrom(c, i))
    decreases c, |c.parts| - i
  {
    if i < |c.parts| {
      OidsAreTheLeaves(c.parts[i]);
      OidsAreTheLeavesFrom(c, i + 1);
    }
  }

  /** Format codes collected from leaves of which each declares at most one. */
  function Codes(leaves: seq<Leaf>): seq<int> {
    if leaves == [] then [] else leaves[0].formats + Codes(leaves[1..])
  }

  lemma {:induction false} CodesAppend(a: seq<Leaf>, b: seq<Leaf>)
    ensures Codes(a + b) == Codes(a) + Codes(b)
  {
    if a == [] {
      assert a + b == b;
    } else {
      assert (a + b)[1..] == a[1..] + b;
      CodesAppend(a[1..], b);
    }
  }

  lemma {:induction false} FormatsAreTheCodes(c: Codec)
    ensures Formats(c) == Codes(Leaves(c))
    decreases c, Rank(c)
  {
    match c {
      case One(leaf) => assert [leaf][1..] == [] && leaf.formats + [] == leaf.formats;
      case Tuple(_) => FormatsAreTheCodesFrom(c, 0);
      case Nullable(inner) => FormatsAreTheCodes(inner);
    }
  }

  lemma {:induction false} FormatsAreTheCodesFrom(c: Codec, i: nat)
    requires c.Tuple? && i <= |c.parts|
    ensures FormatsFrom(c, i) == Codes(LeavesFrom(c, i))
    decreases c, |c.parts| - i
  {
    if i < |c.parts| {
      FormatsAreTheCodes(c.parts[i]);
      FormatsAreTheCodesFrom(c, i + 1);
      CodesAppend(Leaves(c.parts[i]), LeavesFrom(c, i + 1));
    }
  }

  lemma {:induction false} CodesAreAligned(leaves: seq<Leaf>)
    requires forall i :: 0 <= i < |leaves| ==> |leaves[i].formats| <= 1
    ensures |Codes(leaves)| <= |leaves|
    ensures |Codes(leaves)| == |leaves| <==> forall i :: 0 <= i < |leaves| ==> |leaves[i].formats| == 1
    ensures |Codes(leaves)| == |leaves| ==> forall i :: 0 <= i < |leaves| ==> [Codes(leaves)[i]] == leaves[i].formats
  {
    if leaves != [] {
      CodesAreAligned(leaves[1..]);
      if |Codes(leaves)| == |leaves| {
        assert |leaves[0].formats| == 1;
        forall i | 0 <= i < |leaves|
          ensures [Codes(leaves)[i]] == leaves[i].formats
        {
          assert i > 0 ==> leaves[i] == leaves[1..][i - 1] && Codes(leaves)[i] == Codes(leaves[1..])[i - 1];
        }
      }
      assert forall i :: 0 < i < |leaves| ==> leaves[i] == leaves[1..][i - 1];
      assert forall i :: 0 <= i < |leaves[1..]| ==> leaves[1..][i] == leaves[i + 1];
    }
  }

  /** However codecs are nested, slot, OID and format code belong to the same leaf, exactly when every
      leaf declares its format code. */
  lemma MetadataIsAligned(c: Codec)
    requires forall i :: 0 <= i < |Leaves(c)| ==> |Leaves(c)[i].formats| <= 1
    ensures Declares(Leaves(c), Oids(c), Width(c))
    ensures |Formats(c)| == |Oids(c)| <==> forall i :: 0 <= i < |Leaves(c)| ==> |Leaves(c)[i].formats| == 1
    ensures |Formats(c)| == |Oids(c)| ==> forall i :: 0 <= i < |Leaves(c)| ==> [Formats(c)[i]] == Leaves(c)[i].formats
  {
    OidsAreTheLeaves(c);
    FormatsAreTheCodes(c);
    CodesAreAligned(Leaves(c));
  }

  // ----- Encoding ----------------------------------------------------------------------------------------

  function Nulls(n: nat): (slots: seq<Slot>)
    ensures |slots| == n && forall i :: 0 <= i < n ==> slots[i] == None
  {
    seq(n, i => None)
  }

  /** The slots of a value, or None if a leaf refuses. */
  function Encoded(s: Scalars, c: Codec, v: Value): Option<seq<Slot>>
    requires WellTyped(c, v)
    decreases c, Rank(c)
  {
    match c
    case One(leaf) => (match s.encode(leaf, v.n) case Some(b) => Some([Some(b)]) case None => None)
    case Tuple(_) => EncodedFrom(s, c, v, 0)
    case Nullable(inner) => if v.Null? then Some(Nulls(|Oids(inner)|)) else Encoded(s, inner, v.value)
  }

  function EncodedFrom(s: Scalars, c: Codec, v: Value, i: nat): Option<seq<Slot>>
    requires c.Tuple? && WellTyped(c, v) && i <= |c.parts|
    decreases c, |c.parts| - i
  {
    if i == |c.parts| then Some([])
    else
      var first := Encoded(s, c.parts[i], v.items[i]);
      if first.None? then None
      else
        var rest := EncodedFrom(s, c, v, i + 1);
        if rest.None? then None else Some(first.value + rest.value)
  }

  /** A slot holds NULL or what the leaf in its place makes of some value. */
  ghost predicate FitsLeaf(s: Scalars, leaf: Leaf, slot: Slot) {
    slot.None? || exists n :: s.encode(leaf, n) == slot
  }

  ghost predicate FitLeaves(s: Scalars, leaves: seq<Leaf>, slots: seq<Slot>) {
    |slots| == |leaves| && forall i :: 0 <= i < |slots| ==> FitsLeaf(s, leaves[i], slots[i])
  }

  /** Encoding appends one slot for each leaf, each filled by that leaf. */
  lemma {:induction false} SlotsFitTheLeaves(s: Scalars, c: Codec, v: Value)
    requires WellTyped(c, v) && Encoded(s, c, v).Some?
    ensures FitLeaves(s, Leaves(c), Encoded(s, c, v).value)
    ensures |Encoded(s, c, v).value| == |Oids(c)| == Width(c)
    decreases c, Rank(c)
  {
    OidsAreTheLeaves(c);
    match c {
      case One(leaf) => assert FitsLeaf(s, leaf, s.encode(leaf, v.n));
      case Tuple(_) => SlotsFitTheLeavesFrom(s, c, v, 0);
      case Nullable(inner) =>
        if v.Present? {
          SlotsFitTheLeaves(s, inner, v.value);
        }
    }
  }

  lemma {:induction false} SlotsFitTheLeavesFrom(s: Scalars, c: Codec, v: Value, i: nat)
    requires c.Tuple? && WellTyped(c, v) && i <= |c.parts| && EncodedFrom(s, c, v, i).Some?
    ensures FitLeaves(s, LeavesFrom(c, i), EncodedFrom(s, c, v, i).value)
    decreases c, |c.parts| - i
  {
    if i < |c.parts| {
      SlotsFitTheLeaves(s, c.parts[i], v.items[i]);
      SlotsFitTheLeavesFrom(s, c, v, i + 1);
    }
  }

  // ----- Decoding -----------------------------------------------------------------------------------------

  function Decoded(s: Scalars, c: Codec, columns: seq<Slot>): Option<Value>
    requires |columns| >= Width(c)
    decreases c, Rank(c)
  {
    match c
    case One(leaf) =>
      if columns[0].None? then None
      else (match s.decode(leaf, columns[0].value) case Some(n) => Some(Scalar(n)) case None => None)
    case Tuple(_) =>
      var items := DecodedFrom(s, c, columns, 0);
      if items.None? then None else Some(TupleOf(items.value))
    case Nullable(inner) =>
      if forall i :: 0 <= i < Width(inner) ==> columns[i].None? then Some(Null)
      else
        var v := Decoded(s, inner, columns);
        if v.None? then None else Some(Present(v.value))
  }

  function DecodedFrom(s: Scalars, c: Codec, columns: seq<Slot>, i: nat): Option<seq<Value>>
    requires c.Tuple? && i <= |c.parts| && |columns| >= WidthFrom(c, i)
    decreases c, |c.parts| - i
  {
    if i == |c.parts| then Some([])
    else
      var n := Width(c.parts[i]);
      var first := Decoded(s, c.parts[i], columns[..n]);
      if first.None? then None
      else
        var rest := DecodedFrom(s, c, columns[n..], i + 1);
        if rest.None? then None else Some([first.value] + rest.value)
  }

  /** The value has a slot that is not NULL. */
  predicate Shows(c: Codec, v: Value)
    requires WellTyped(c, v)
    decreases c
  {
    match c
    case One(_) => true
    case Tuple(parts) => exists i :: 0 <= i < |parts| && Shows(parts[i], v.items[i])
    case Nullable(inner) => v.Present? && Shows(inner, v.value)
  }

  /** Every present value under a `nullable` has a slot that is not NULL. */
  predicate Visible(c: Codec, v: Value)
    requires WellTyped(c, v)
    decreases c
  {
    match c
    case One(_) => true
    case Tuple(parts) => forall i :: 0 <= i < |parts| ==> Visible(parts[i], v.items[i])
    case Nullable(inner) => v.Null? || (Shows(inner, v.value) && Visible(inner, v.value))
  }

  ghost predicate AllNull(slots: seq<Slot>) {
    forall i :: 0 <= i < |slots| ==> slots[i].None?
  }

  lemma {:induction false} ShowsIsNotNull(s: Scalars, c: Codec, v: Value)
    requires WellTyped(c, v) && Encoded(s, c, v).Some?
    ensures Shows(c, v) <==> !AllNull(Encoded(s, c, v).value)
    decreases c, Rank(c)
  {
    match c {
      case One(leaf) => assert Encoded(s, c, v).value[0].Some?;
      case Tuple(parts) =>
        ShowsIsNotNullFrom(s, c, v, 0);
      case Nullable(inner) =>
        if v.Present? {
          ShowsIsNotNull(s, inner, v.value);
        }
    }
  }

  lemma {:induction false} ShowsIsNotNullFrom(s: Scalars, c: Codec, v: Value, i: nat)
    requires c.Tuple? && WellTyped(c, v) && i <= |c.parts| && EncodedFrom(s, c, v, i).Some?
    ensures (exists k :: i <= k < |c.parts| && Shows(c.parts[k], v.items[k]))
       <==> !AllNull(EncodedFrom(s, c, v, i).value)
    decreases c, |c.parts| - i
  {
    if i < |c.parts| {
      var first := Encoded(s, c.parts[i], v.items[i]).value;
      var rest := EncodedFrom(s, c, v, i + 1).value;
      ShowsIsNotNull(s, c.parts[i], v.items[i]);
      ShowsIsNotNullFrom(s, c, v, i + 1);
      AllNullAppends(first, rest);
    }
  }

  lemma AllNullAppends(a: seq<Slot>, b: seq<Slot>)
    ensures AllNull(a + b) <==> AllNull(a) && AllNull(b)
  {
    assert forall i :: 0 <= i < |a| ==> a[i] == (a + b)[i];
    assert forall i :: 0 <= i < |b| ==> b[i] == (a + b)[|a| + i];
  }

  /** Decoding, with any columns behind, inverts encoding exactly when every present value under a
      `nullable` can be told from NULL. */
  lemma {:induction false} DecodingInverts(s: Scalars, c: Codec, v: Value, more: seq<Slot>)
    requires s.RoundTrip() && WellTyped(c, v) && Encoded(s, c, v).Some?
    ensures |Encoded(s, c, v).value| == Width(c)
    ensures Decoded(s, c, Encoded(s, c, v).value + more) == Some(v) <==> Visible(c, v)
    decreases c, Rank(c)
  {
    SlotsFitTheLeaves(s, c, v);
    var slots := Encoded(s, c, v).value;
    match c {
      case One(leaf) =>
      case Tuple(_) =>
        DecodingInvertsFrom(s, c, v, 0, more);
        assert v.items[0..] == v.items;
      case Nullable(inner) =>
        assert (forall i :: 0 <= i < Width(inner) ==> (slots + more)[i].None?) <==> AllNull(slots) by {
          assert forall i :: 0 <= i < |slots| ==> (slots + more)[i] == slots[i];
        }
        if v.Present? {
          ShowsIsNotNull(s, inner, v.value);
          DecodingInverts(s, inner, v.value, more);
        } else {
          assert AllNull(slots);
        }
    }
  }

  lemma {:induction false} DecodingInvertsFrom(s: Scalars, c: Codec, v: Value, i: nat, more: seq<Slot>)
    requires s.RoundTrip() && c.Tuple? && WellTyped(c, v) && i <= |c.parts| && EncodedFrom(s, c, v, i).Some?
    ensures |EncodedFrom(s, c, v, i).value| == WidthFrom(c, i)
    ensures DecodedFrom(s, c, EncodedFrom(s, c, v, i).value + more, i) == Some(v.items[i..])
       <==> forall k :: i <= k < |c.parts| ==> Visible(c.parts[k], v.items[k])
    decreases c, |c.parts| - i
  {
    if i < |c.parts| {
      var first := Encoded(s, c.parts[i], v.items[i]).value;
      var rest := EncodedFrom(s, c, v, i + 1).value;
      DecodingInverts(s, c.parts[i], v.items[i], []);
      DecodingInvertsFrom(s, c, v, i + 1, more);
      assert (first + rest + more)[..|first|] == first + [] && (first + rest + more)[|first|..] == rest + more;
      assert v.items[i..] == [v.items[i]] + v.items[i + 1..];
      assert v.items[i..][1..] == v.items[i + 1..];
    }
  }

  // ----- The codecs at work ---------------------------------------------------------------------------------

  class Params {
    var slots: seq<Slot>

    constructor ()
      ensures slots == []
    {
      slots := [];
    }

    /** `encode`: the slots are appended; when a leaf refuses, some may have been appended already. */
    method Encode(s: Scalars, c: Codec, v: Value) returns (ok: bool)
      requires WellTyped(c, v)
      modifies this
      ensures ok <==> Encoded(s, c, v).Some?
      ensures ok ==> slots == old(slots) + Encoded(s, c, v).value
      decreases c
    {
      match c {
        case One(leaf) =>
          var b := s.encode(leaf, v.n);
          if b.None? {
            return false;
          }
          slots := slots + [b];
          return true;
        case Nullable(inner) =>
          if v.Present? {
            ok := Encode(s, inner, v.value);
            return;
          }
          var count := |Oids(inner)|;
          for i := 0 to count
            invariant slots == old(slots) + Nulls(i)
          {
            assert Nulls(i + 1) == Nulls(i) + [None];
            slots := slots + [None];
          }
          return true;
        case Tuple(parts) =>
          for i := 0 to |parts|
            invariant Encoded(s, c, v).Some? <==> EncodedFrom(s, c, v, i).Some?
            invariant Encoded(s, c, v).Some? ==>
              old(slots) + Encoded(s, c, v).value == slots + EncodedFrom(s, c, v, i).value
          {
            ghost var before := slots;
            var done := Encode(s, parts[i], v.items[i]);
            if !done {
              return false;
            }
            if EncodedFrom(s, c, v, i).Some? {
              ghost var first, rest := Encoded(s, parts[i], v.items[i]).value, EncodedFrom(s, c, v, i + 1).value;
              assert before + (first + rest) == (before + first) + rest;
            }
          }
          return true;
      }
    }
  }

  ghost function After(done: seq<Value>, rest: Option<seq<Value>>): Option<seq<Value>> {
    if rest.None? then None else Some(done + rest.value)
  }

  lemma ItemAdded(done: seq<Value>, item: Value, rest: Option<seq<Value>>)
    ensures After(done + [item], rest) == After(done, if rest.None? then None else Some([item] + rest.value))
  {
    assert rest.Some? ==> done + ([item] + rest.value) == (done + [item]) + rest.value;
  }

  /** `decode`: a tuple moves an offset over its columns. */
  method Decode(s: Scalars, c: Codec, columns: seq<Slot>) returns (v: Option<Value>)
    requires |columns| >= Width(c)
    ensures v == Decoded(s, c, columns)
    decreases c
  {
    match c {
      case One(leaf) =>
        if columns[0].None? {
          return None;
        }
        var n := s.decode(leaf, columns[0].value);
        return if n.None? then None else Some(Scalar(n.value));
      case Nullable(inner) =>
        if forall i :: 0 <= i < Width(inner) ==> columns[i].None? {
          return Some(Null);
        }
        var w := Decode(s, inner, columns);
        return if w.None? then None else Some(Present(w.value));
      case Tuple(parts) =>
        var items: seq<Value> := [];
        var offset := 0;
        ghost var whole := DecodedFrom(s, c, columns, 0);
        assert columns[0..] == columns;
        assert whole.Some? ==> [] + whole.value == whole.value;
        for i := 0 to |parts|
          invariant offset + WidthFrom(c, i) <= |columns|
          invariant whole == After(items, DecodedFrom(s, c, columns[offset..], i))
        {
          var n := Width(parts[i]);
          assert columns[offset..][..n] == columns[offset..offset + n];
          assert columns[offset..][n..] == columns[offset + n..];
          var item := Decode(s, parts[i], columns[offset..offset + n]);
          if item.None? {
            return None;
          }
          ItemAdded(items, item.value, DecodedFrom(s, c, columns[offset + n..], i + 1));
          items := items + [item.value];
          offset := offset + n;
        }
        assert items + [] == items;
        return Some(TupleOf(items));
    }
  }
}

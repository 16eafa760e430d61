/**
 The SCRAM-SHA-256 client of `crates/core/src/auth/scram.rs`, against RFC 5802 and RFC 7677. The
 hash, HMAC, base64 and UTF-8 are uninterpreted functions; what is used of them is in `Lawful`.
 */
module Scram {
  import opened Base
  import opened Decimals

  type octets = seq<bv8>

  datatype Primitives = Primitives(
    hmac: (octets, octets) -> octets,
    hash: octets -> octets,
    encode64: octets -> string,
    decode64: string -> Option<octets>,
    toUtf8: string -> octets,
    fromUtf8: octets -> Option<string>)
  {
    ghost predicate Lawful() {
      && (forall k, d :: |hmac(k, d)| == 32)
      && (forall d :: |hash(d)| == 32)
      && (forall b :: decode64(encode64(b)) == Some(b) && ',' !in encode64(b))
      && (forall s :: fromUtf8(toUtf8(s)) == Some(s))
    }
  }

  // ----- Octet strings -------------------------------------------------------------------------------

  /** Exclusive or, octet by octet, as far as both go. */
  function Xor(a: octets, b: octets): octets {
    seq(|a|, i requires 0 <= i < |a| => if i < |b| then a[i] ^ b[i] else a[i])
  }

  lemma XorCancels(a: bv8, b: bv8)
    ensures (a ^ b) ^ b == a
  {
  }

  lemma XorUndoes(a: octets, b: octets)
    ensures Xor(Xor(a, b), b) == a
  {
    forall i | 0 <= i < |a|
      ensures Xor(Xor(a, b), b)[i] == a[i]
    {
      if i < |b| {
        XorCancels(a[i], b[i]);
      }
    }
  }

  /** An array is xored with an octet string in place. */
  method XorInto(out: array<bv8>, u: octets)
    modifies out
    ensures out[..] == Xor(old(out[..]), u)
  {
    var n := if out.Length <= |u| then out.Length else |u|;
    for i := 0 to n
      invariant forall k :: 0 <= k < out.Length ==> out[k] == if k < i then old(out[k]) ^ u[k] else old(out[k])
    {
      out[i] := out[i] ^ u[i];
    }
  }

  lemma DiffStep(diff: bv8, x: bv8, y: bv8)
    ensures (diff | (x ^ y)) == 0 <==> diff == 0 && x == y
  {
  }

  /** `constant_time_eq`: every octet is looked at, and the answer is equality. */
  method ConstantTimeEq(a: octets, b: octets) returns (equal: bool)
    ensures equal <==> a == b
  {
    if |a| != |b| {
      return false;
    }
    var diff: bv8 := 0;
    for i := 0 to |a|
      invariant diff == 0 <==> a[..i] == b[..i]
    {
      DiffStep(diff, a[i], b[i]);
      assert a[..i + 1] == a[..i] + [a[i]] && b[..i + 1] == b[..i] + [b[i]];
      diff := diff | (a[i] ^ b[i]);
    }
    assert a[..|a|] == a && b[..|a|] == b;
    return diff == 0;
  }

  // ----- RFC 5802, sections 2.2 and 3 -------------------------------------------------------------------

  const BLOCK_ONE: octets := [0, 0, 0, 1]

  function U(p: Primitives, password: octets, salt: octets, i: nat): octets {
    if i <= 1 then p.hmac(password, salt + BLOCK_ONE) else p.hmac(password, U(p, password, salt, i - 1))
  }

  /** U1 XOR U2 XOR ... XOR Ui. */
  function Hi(p: Primitives, password: octets, salt: octets, i: nat): octets {
    if i <= 1 then U(p, password, salt, 1) else Xor(Hi(p, password, salt, i - 1), U(p, password, salt, i))
  }

  method Pbkdf2(p: Primitives, password: octets, salt: octets, iterations: nat) returns (key: octets)
    ensures key == Hi(p, password, salt, iterations)
  {
    var u := p.hmac(password, salt + BLOCK_ONE);
    var out := new bv8[|u|](i requires 0 <= i < |u| => u[i]);
    assert out[..] == u;
    var i := 1;
    while i < iterations
      invariant 1 <= i && (i <= iterations || i == 1)
      invariant u == U(p, password, salt, i) && out[..] == Hi(p, password, salt, i)
    {
      u := p.hmac(password, u);
      XorInto(out, u);
      i := i + 1;
    }
    return out[..];
  }

  /** What a password stands for. The server keeps the last two. */
  datatype Keys = Keys(client: octets, stored: octets, server: octets)

  function KeysOf(p: Primitives, salted: octets): Keys {
    var client := p.hmac(salted, p.toUtf8("Client Key"));
    Keys(client, p.hash(client), p.hmac(salted, p.toUtf8("Server Key")))
  }

  // ----- Attributes ---------------------------------------------------------------------------------------

  function IndexOf(s: string, c: char): (i: nat)
    ensures i <= |s| && (i < |s| ==> s[i] == c) && forall k :: 0 <= k < i ==> s[k] != c
  {
    if s == "" || s[0] == c then 0 else 1 + IndexOf(s[1..], c)
  }

  function Split(s: string, c: char): seq<string> {
    var i := IndexOf(s, c);
    if i == |s| then [s] else [s[..i]] + Split(s[i + 1..], c)
  }

  /** A key and the value after the first `=`. */
  function KeyValue(attr: string): Option<(string, string)> {
    var i := IndexOf(attr, '=');
    if i == |attr| then None else Some((attr[..i], attr[i + 1..]))
  }

  /** `str::parse::<u32>`, which allows a leading plus sign. */
  function ParseU32(s: string): Option<nat> {
    var digits := if s != "" && s[0] == '+' then s[1..] else s;
    if digits == "" || !AllDigits(digits) || Value(digits) >= 0x1_0000_0000 then None else Some(Value(digits))
  }

  predicate WellFormed(attr: string) {
    var kv := KeyValue(attr);
    kv.Some? && (kv.value.0 == "i" ==> ParseU32(kv.value.1).Some?)
  }

  /** The value of the last attribute with the given key. */
  function Last(attrs: seq<string>, key: string): Option<string> {
    if attrs == [] then None
    else
      var attr := attrs[|attrs| - 1];
      var kv := KeyValue(attr);
      if kv.Some? && kv.value.0 == key then Some(kv.value.1) else Last(attrs[..|attrs| - 1], key)
  }

  datatype ServerFirst = ServerFirst(nonce: string, salt: string, iterations: nat)

  /** A server-first message: every attribute has a value, the iteration counts are numbers, and
      nonce, salt and count are present. */
  predicate IsServerFirst(s: string) {
    var attrs := Split(s, ',');
    && (forall i :: 0 <= i < |attrs| ==> WellFormed(attrs[i]))
    && Last(attrs, "r").Some? && Last(attrs, "s").Some? && Last(attrs, "i").Some?
    && ParseU32(Last(attrs, "i").value).Some?
  }

  function ServerFirstOf(s: string): ServerFirst
    requires IsServerFirst(s)
  {
    var attrs := Split(s, ',');
    ServerFirst(Last(attrs, "r").value, Last(attrs, "s").value, ParseU32(Last(attrs, "i").value).value)
  }

  lemma LastStep(attrs: seq<string>, i: nat, key: string)
    requires i < |attrs|
    ensures Last(attrs[..i + 1], key) ==
      var kv := KeyValue(attrs[i]); if kv.Some? && kv.value.0 == key then Some(kv.value.1) else Last(attrs[..i], key)
  {
    assert attrs[..i + 1][..i] == attrs[..i] && attrs[..i + 1][i] == attrs[i];
  }

  /** What the first `i` attributes have given. */
  ghost predicate HasRead(attrs: seq<string>, i: nat, nonce: Option<string>, salt: Option<string>, count: Option<nat>) {
    && i <= |attrs| && (forall k :: 0 <= k < i ==> WellFormed(attrs[k]))
    && nonce == Last(attrs[..i], "r") && salt == Last(attrs[..i], "s")
    && match Last(attrs[..i], "i")
       case None => count == None
       case Some(v) => count.Some? && count == ParseU32(v)
  }

  lemma ReadOneMore(attrs: seq<string>, i: nat, nonce: Option<string>, salt: Option<string>, count: Option<nat>)
    requires HasRead(attrs, i, nonce, salt, count) && i < |attrs| && WellFormed(attrs[i])
    ensures var (key, value) := KeyValue(attrs[i]).value;
      HasRead(attrs, i + 1, if key == "r" then Some(value) else nonce, if key == "s" then Some(value) else salt,
              if key == "i" then ParseU32(value) else count)
  {
    LastStep(attrs, i, "r");
    LastStep(attrs, i, "s");
    LastStep(attrs, i, "i");
  }

  lemma AllRead(s: string, nonce: Option<string>, salt: Option<string>, count: Option<nat>)
    requires HasRead(Split(s, ','), |Split(s, ',')|, nonce, salt, count)
    ensures IsServerFirst(s) <==> nonce.Some? && salt.Some? && count.Some?
    ensures IsServerFirst(s) ==> ServerFirstOf(s) == ServerFirst(nonce.value, salt.value, count.value)
  {
    var attrs := Split(s, ',');
    assert attrs[..|attrs|] == attrs;
  }

  method ParseServerFirst(s: string) returns (r: Option<ServerFirst>)
    ensures r == if IsServerFirst(s) then Some(ServerFirstOf(s)) else None
  {
    var attrs := Split(s, ',');
    var nonce: Option<string>, salt: Option<string>, iterations: Option<nat> := None, None, None;
    for i := 0 to |attrs|
      invariant HasRead(attrs, i, nonce, salt, iterations)
    {
      var kv := KeyValue(attrs[i]);
      if kv.None? {
        assert !WellFormed(attrs[i]);
        return None;
      }
      if WellFormed(attrs[i]) {
        ReadOneMore(attrs, i, nonce, salt, iterations);
      }
      if kv.value.0 == "r" {
        nonce := Some(kv.value.1);
      } else if kv.value.0 == "s" {
        salt := Some(kv.value.1);
      } else if kv.value.0 == "i" {
        iterations := ParseU32(kv.value.1);
        if iterations.None? {
          assert !WellFormed(attrs[i]);
          return None;
        }
      }
    }
    AllRead(s, nonce, salt, iterations);
    if nonce.None? || salt.None? || iterations.None? {
      return None;
    }
    return Some(ServerFirst(nonce.value, salt.value, iterations.value));
  }

  datatype ServerFinal = Verifier(text: string) | Reported(text: string)

  predicate HasPrefix(s: string, prefix: string) {
    |prefix| <= |s| && s[..|prefix|] == prefix
  }

  /** The first attribute that is a verifier or an error. */
  function ServerFinalOf(attrs: seq<string>): Option<ServerFinal> {
    if attrs == [] then None
    else if HasPrefix(attrs[0], "v=") then Some(Verifier(attrs[0][2..]))
    else if HasPrefix(attrs[0], "e=") then Some(Reported(attrs[0][2..]))
    else ServerFinalOf(attrs[1..])
  }

  method ParseServerFinal(s: string) returns (r: Option<ServerFinal>)
    ensures r == ServerFinalOf(Split(s, ','))
  {
    var attrs := Split(s, ',');
    assert attrs[0..] == attrs;
    for i := 0 to |attrs|
      invariant ServerFinalOf(attrs) == ServerFinalOf(attrs[i..])
    {
      assert attrs[i..][1..] == attrs[i + 1..];
      if HasPrefix(attrs[i], "v=") {
        return Some(Verifier(attrs[i][2..]));
      }
      if HasPrefix(attrs[i], "e=") {
        return Some(Reported(attrs[i][2..]));
      }
    }
    return None;
  }

  // ----- The client's stages ----------------------------------------------------------------------------

  datatype AuthError =
    | NotUtf8
    | Malformed
    | NonceNotExtended
    | SaltNotBase64
    | ZeroIterations
    | VerifierNotBase64
    | SignatureMismatch
    | ServerReported(text: string)

  /** Channel binding data for `tls-server-end-point`, if the connection has it. */
  type Binding = Option<octets>

  datatype ClientFirst = ClientFirst(message: octets, password: octets, binding: Binding, bare: string, nonce: string)

  datatype ClientFinal = ClientFinal(message: octets, serverKey: octets, authMessage: string)

  function Gs2Header(binding: Binding): string {
    if binding.Some? then "p=tls-server-end-point,," else "n,,"
  }

  function ChannelOctets(p: Primitives, binding: Binding): octets {
    p.toUtf8(Gs2Header(binding)) + if binding.Some? then binding.value else []
  }

  /** `start_with_nonce`. */
  function Start(p: Primitives, password: octets, binding: Binding, nonceOctets: octets): (first: ClientFirst)
    ensures first.message == p.toUtf8(Gs2Header(binding) + first.bare)
    ensures HasPrefix(first.bare, "n=,r=") && first.bare[5..] == first.nonce
  {
    var nonce := p.encode64(nonceOctets);
    var bare := "n=,r=" + nonce;
    ClientFirst(p.toUtf8(Gs2Header(binding) + bare), password, binding, bare, nonce)
  }

  function WithoutProof(p: Primitives, binding: Binding, serverNonce: string): string {
    "c=" + p.encode64(ChannelOctets(p, binding)) + ",r=" + serverNonce
  }

  function AuthMessage(bare: string, serverFirst: string, withoutProof: string): string {
    bare + "," + serverFirst + "," + withoutProof
  }

  function ClientProof(p: Primitives, keys: Keys, authMessage: string): octets {
    Xor(keys.client, p.hmac(keys.stored, p.toUtf8(authMessage)))
  }

  function ServerSignature(p: Primitives, serverKey: octets, authMessage: string): octets {
    p.hmac(serverKey, p.toUtf8(authMessage))
  }

  /** The server-first messages that the client goes on with. */
  predicate Acceptable(p: Primitives, first: ClientFirst, text: string) {
    && IsServerFirst(text)
    && HasPrefix(ServerFirstOf(text).nonce, first.nonce)
    && p.decode64(ServerFirstOf(text).salt).Some?
    && ServerFirstOf(text).iterations > 0
  }

  /** The final message that RFC 5802 asks for. */
  function FinalOf(p: Primitives, first: ClientFirst, text: string): ClientFinal
    requires Acceptable(p, first, text)
  {
    var sf := ServerFirstOf(text);
    var keys := KeysOf(p, Hi(p, first.password, p.decode64(sf.salt).value, sf.iterations));
    var withoutProof := WithoutProof(p, first.binding, sf.nonce);
    var authMessage := AuthMessage(first.bare, text, withoutProof);
    var proof := ClientProof(p, keys, authMessage);
    ClientFinal(p.toUtf8(withoutProof + ",p=" + p.encode64(proof)), keys.server, authMessage)
  }

  /** Why a server-first message is refused: the first condition that fails. */
  predicate Refuses(p: Primitives, first: ClientFirst, text: Option<string>, e: AuthError) {
    if text.None? then e == NotUtf8
    else if !IsServerFirst(text.value) then e == Malformed
    else if !HasPrefix(ServerFirstOf(text.value).nonce, first.nonce) then e == NonceNotExtended
    else if p.decode64(ServerFirstOf(text.value).salt).None? then e == SaltNotBase64
    else ServerFirstOf(text.value).iterations == 0 && e == ZeroIterations
  }

  method HandleServerFirst(p: Primitives, first: ClientFirst, serverFirst: octets)
    returns (r: Result<ClientFinal, AuthError>)
    ensures r.Ok? <==> p.fromUtf8(serverFirst).Some? && Acceptable(p, first, p.fromUtf8(serverFirst).value)
    ensures r.Ok? ==> r.value == FinalOf(p, first, p.fromUtf8(serverFirst).value)
    ensures r.Err? ==> Refuses(p, first, p.fromUtf8(serverFirst), r.error)
  {
    var text := p.fromUtf8(serverFirst);
    if text.None? {
      return Err(NotUtf8);
    }
    var parsed := ParseServerFirst(text.value);
    if parsed.None? {
      return Err(Malformed);
    }
    if !HasPrefix(parsed.value.nonce, first.nonce) {
      return Err(NonceNotExtended);
    }
    var salt := p.decode64(parsed.value.salt);
    if salt.None? {
      return Err(SaltNotBase64);
    }
    if parsed.value.iterations == 0 {
      return Err(ZeroIterations);
    }
    var salted := Pbkdf2(p, first.password, salt.value, parsed.value.iterations);
    var clientKey := p.hmac(salted, p.toUtf8("Client Key"));
    var storedKey := p.hash(clientKey);
    var serverKey := p.hmac(salted, p.toUtf8("Server Key"));
    var withoutProof := WithoutProof(p, first.binding, parsed.value.nonce);
    var authMessage := AuthMessage(first.bare, text.value, withoutProof);
    var signature := p.hmac(storedKey, p.toUtf8(authMessage));
    var proof := new bv8[|clientKey|](i requires 0 <= i < |clientKey| => clientKey[i]);
    assert proof[..] == clientKey;
    XorInto(proof, signature);
    var message := p.toUtf8(withoutProof + ",p=" + p.encode64(proof[..]));
    return Ok(ClientFinal(message, serverKey, authMessage));
  }

  /** Why a final message is not accepted. */
  predicate Complains(p: Primitives, serverFinal: octets, e: AuthError) {
    var text := p.fromUtf8(serverFinal);
    if text.None? then e == NotUtf8
    else match ServerFinalOf(Split(text.value, ','))
      case None => e == Malformed
      case Some(Verifier(encoded)) => e == if p.decode64(encoded).None? then VerifierNotBase64 else SignatureMismatch
      case Some(Reported(reason)) => e == ServerReported(reason)
  }

  /** The client accepts exactly a verifier that decodes to the server's signature. */
  method VerifyServerFinal(p: Primitives, final: ClientFinal, serverFinal: octets) returns (r: Result<(), AuthError>)
    ensures r.Ok? <==> Verifies(p, final, serverFinal)
    ensures r.Err? ==> Complains(p, serverFinal, r.error)
  {
    var text := p.fromUtf8(serverFinal);
    if text.None? {
      return Err(NotUtf8);
    }
    var parsed := ParseServerFinal(text.value);
    if parsed.None? {
      return Err(Malformed);
    }
    match parsed.value {
      case Verifier(encoded) =>
        var claimed := p.decode64(encoded);
        if claimed.None? {
          return Err(VerifierNotBase64);
        }
        var expected := p.hmac(final.serverKey, p.toUtf8(final.authMessage));
        var equal := ConstantTimeEq(claimed.value, expected);
        if !equal {
          return Err(SignatureMismatch);
        }
        return Ok(());
      case Reported(reason) =>
        return Err(ServerReported(reason));
    }
  }

  /** The final message carries a verifier that decodes to `claimed`. */
  predicate Claims(p: Primitives, serverFinal: octets, claimed: octets) {
    var text := p.fromUtf8(serverFinal);
    text.Some? &&
    match ServerFinalOf(Split(text.value, ','))
    case Some(Verifier(encoded)) => p.decode64(encoded) == Some(claimed)
    case _ => false
  }

  predicate Verifies(p: Primitives, final: ClientFinal, serverFinal: octets) {
    Claims(p, serverFinal, ServerSignature(p, final.serverKey, final.authMessage))
  }

  // ----- An honest run ----------------------------------------------------------------------------------------

  lemma IndexOfIs(s: string, c: char, i: nat)
    requires i <= |s| && (i < |s| ==> s[i] == c) && forall k :: 0 <= k < i ==> s[k] != c
    ensures IndexOf(s, c) == i
  {
  }

  lemma SplitFirst(a: string, c: char, b: string)
    requires c !in a
    ensures Split(a + [c] + b, c) == [a] + Split(b, c)
  {
    var s := a + [c] + b;
    assert forall k :: 0 <= k < |a| ==> s[k] == a[k];
    IndexOfIs(s, c, |a|);
    assert s[..|a|] == a && s[|a| + 1..] == b;
  }

  lemma SplitWhole(a: string, c: char)
    requires c !in a
    ensures Split(a, c) == [a]
  {
    IndexOfIs(a, c, |a|);
  }

  function Attribute(key: string, value: string): string {
    key + "=" + value
  }

  lemma KeyValueIs(key: string, value: string)
    requires '=' !in key && ',' !in key && ',' !in value
    ensures KeyValue(Attribute(key, value)) == Some((key, value)) && ',' !in Attribute(key, value)
  {
    var attr := Attribute(key, value);
    assert forall k :: 0 <= k < |key| ==> attr[k] == key[k];
    IndexOfIs(attr, '=', |key|);
    assert attr[..|key|] == key && attr[|key| + 1..] == value;
  }

  /** What a server sends first. */
  function ServerFirstText(p: Primitives, nonce: string, salt: octets, iterations: nat): string {
    Attribute("r", nonce) + [','] + (Attribute("s", p.encode64(salt)) + [','] + Attribute("i", Decimal(iterations)))
  }

  lemma DecimalParses(n: nat)
    requires n < 0x1_0000_0000
    ensures ParseU32(Decimal(n)) == Some(n) && ',' !in Decimal(n)
  {
    DecimalReadsBack(n);
    assert IsDigit(Decimal(n)[0]);
  }

  lemma ThreeAttributes(r: string, s: string, i: string)
    requires ',' !in r && ',' !in s && ',' !in i
    ensures Split(r + [','] + (s + [','] + i), ',') == [r, s, i]
  {
    SplitWhole(i, ',');
    SplitFirst(s, ',', i);
    SplitFirst(r, ',', s + [','] + i);
  }

  lemma ServerFirstIs(text: string, r: string, s: string, i: string, nonce: string, salt: string, count: string, n: nat)
    requires Split(text, ',') == [r, s, i] && ParseU32(count) == Some(n)
    requires KeyValue(r) == Some(("r", nonce)) && KeyValue(s) == Some(("s", salt)) && KeyValue(i) == Some(("i", count))
    ensures IsServerFirst(text) && ServerFirstOf(text) == ServerFirst(nonce, salt, n)
  {
    LastOfThree(r, s, i, nonce, salt, count);
    assert "r"[0] != "i"[0] && "s"[0] != "i"[0];
    assert WellFormed(r) && WellFormed(s) && WellFormed(i);
  }

  lemma ServerFirstParses(p: Primitives, nonce: string, salt: octets, iterations: nat)
    requires p.Lawful() && ',' !in nonce && iterations < 0x1_0000_0000
    ensures var text := ServerFirstText(p, nonce, salt, iterations);
      IsServerFirst(text) && ServerFirstOf(text) == ServerFirst(nonce, p.encode64(salt), iterations)
  {
    var encoded, count := p.encode64(salt), Decimal(iterations);
    DecimalParses(iterations);
    KeyValueIs("r", nonce);
    KeyValueIs("s", encoded);
    KeyValueIs("i", count);
    var r, s, i := Attribute("r", nonce), Attribute("s", encoded), Attribute("i", count);
    ThreeAttributes(r, s, i);
    ServerFirstIs(r + [','] + (s + [','] + i), r, s, i, nonce, encoded, count, iterations);
  }

  lemma LastOfThree(r: string, s: string, i: string, nonce: string, salt: string, count: string)
    requires KeyValue(r) == Some(("r", nonce)) && KeyValue(s) == Some(("s", salt)) && KeyValue(i) == Some(("i", count))
    ensures var attrs := [r, s, i];
      Last(attrs, "r") == Some(nonce) && Last(attrs, "s") == Some(salt) && Last(attrs, "i") == Some(count)
  {
    var attrs := [r, s, i];
    assert "r"[0] != "s"[0] && "r"[0] != "i"[0] && "s"[0] != "i"[0];
    assert attrs[..2] == [r, s] && [r, s][..1] == [r];
    assert Last([r], "r") == Some(nonce);
    assert Last([r, s], "r") == Last([r], "r") && Last([r, s], "s") == Some(salt);
  }

  /** What the server recovers from a proof. */
  function Recovered(p: Primitives, storedKey: octets, authMessage: string, proof: octets): octets {
    Xor(proof, p.hmac(storedKey, p.toUtf8(authMessage)))
  }

  /** The final message, by what it is made of. */
  lemma FinalIs(p: Primitives, first: ClientFirst, text: string, nonce: string, salt: octets, iterations: nat)
    requires IsServerFirst(text) && ServerFirstOf(text) == ServerFirst(nonce, p.encode64(salt), iterations)
    requires HasPrefix(nonce, first.nonce) && iterations > 0 && p.decode64(p.encode64(salt)) == Some(salt)
    ensures Acceptable(p, first, text)
    ensures var keys := KeysOf(p, Hi(p, first.password, salt, iterations));
      var withoutProof := WithoutProof(p, first.binding, nonce);
      var authMessage := AuthMessage(first.bare, text, withoutProof);
      FinalOf(p, first, text)
      == ClientFinal(p.toUtf8(withoutProof + ",p=" + p.encode64(ClientProof(p, keys, authMessage))), keys.server,
                     authMessage)
  {
  }

  /** What the server sees of the client's final message. */
  predicate ServerAccepts(p: Primitives, final: ClientFinal, keys: Keys, withoutProof: string, authMessage: string,
                          proof: octets)
  {
    && final.authMessage == authMessage && final.serverKey == keys.server
    && p.fromUtf8(final.message) == Some(withoutProof + ",p=" + p.encode64(proof))
    && p.decode64(p.encode64(proof)) == Some(proof)
    && Recovered(p, keys.stored, authMessage, proof) == keys.client
    && p.hash(Recovered(p, keys.stored, authMessage, proof)) == keys.stored
  }

  /** A server that keeps StoredKey and ServerKey, and sends a nonce that extends the client's: the
      client goes on, its message carries a proof from which the server recovers ClientKey, and both
      sides have the same AuthMessage. */
  lemma HonestRun(p: Primitives, password: octets, binding: Binding, nonceOctets: octets,
                  extension: string, salt: octets, iterations: nat)
    requires p.Lawful() && ',' !in extension && 0 < iterations < 0x1_0000_0000
    ensures var first := Start(p, password, binding, nonceOctets);
      var nonce := first.nonce + extension;
      var text := ServerFirstText(p, nonce, salt, iterations);
      var keys := KeysOf(p, Hi(p, password, salt, iterations));
      var withoutProof := WithoutProof(p, binding, nonce);
      var authMessage := AuthMessage(first.bare, text, withoutProof);
      && p.fromUtf8(p.toUtf8(text)) == Some(text) && Acceptable(p, first, text)
      && ServerAccepts(p, FinalOf(p, first, text), keys, withoutProof, authMessage, ClientProof(p, keys, authMessage))
  {
    var first := Start(p, password, binding, nonceOctets);
    var nonce := first.nonce + extension;
    var text := ServerFirstText(p, nonce, salt, iterations);
    assert nonce[..|first.nonce|] == first.nonce;
    ServerFirstParses(p, nonce, salt, iterations);
    FinalIs(p, first, text, nonce, salt, iterations);
    var keys := KeysOf(p, Hi(p, password, salt, iterations));
    ProofIsAccepted(p, keys, WithoutProof(p, binding, nonce),
                    AuthMessage(first.bare, text, WithoutProof(p, binding, nonce)));
  }

  lemma ProofIsAccepted(p: Primitives, keys: Keys, withoutProof: string, authMessage: string)
    requires p.Lawful() && p.hash(keys.client) == keys.stored
    ensures var proof := ClientProof(p, keys, authMessage);
      var final := ClientFinal(p.toUtf8(withoutProof + ",p=" + p.encode64(proof)), keys.server, authMessage);
      ServerAccepts(p, final, keys, withoutProof, authMessage, proof)
  {
    XorUndoes(keys.client, p.hmac(keys.stored, p.toUtf8(authMessage)));
  }

  /** Of the verifiers that a server may send, the client accepts the server's signature and no other. */
  lemma OnlyTheSignatureVerifies(p: Primitives, final: ClientFinal, claimed: octets)
    requires p.Lawful()
    ensures Verifies(p, final, p.toUtf8("v=" + p.encode64(claimed)))
       <==> claimed == ServerSignature(p, final.serverKey, final.authMessage)
  {
    var text := "v=" + p.encode64(claimed);
    SplitWhole(text, ',');
    assert text[..2] == "v=" && text[2..] == p.encode64(claimed);
    assert ServerFinalOf([text]) == Some(Verifier(p.encode64(claimed)));
    assert p.fromUtf8(p.toUtf8(text)) == Some(text);
  }
}

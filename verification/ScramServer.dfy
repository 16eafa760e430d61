/**
 A server of RFC 5802, section 3, that reads what the client sent: a login with the right password is
 accepted on both sides.
 */
module ScramServer {
  import opened Base
  import opened Decimals
  import opened Scram

  // ----- The AuthMessage ------------------------------------------------------------------------------

  lemma Reassociated(head: string, c: char, rest: string, b: string)
    ensures head + [c] + rest + [c] + b == head + [c] + (rest + [c] + b)
  {
  }

  lemma PartsBehind(head: string, parts: seq<string>, more: seq<string>)
    ensures [head] + (parts + more) == [head] + parts + more
  {
  }

  lemma SplitBehind(head: string, c: char, rest: string, tail: string, more: seq<string>)
    requires c !in head && Split(tail, c) == Split(rest, c) + more
    ensures Split(head + [c] + tail, c) == Split(head + [c] + rest, c) + more
  {
    SplitFirst(head, c, tail);
    SplitFirst(head, c, rest);
    PartsBehind(head, Split(rest, c), more);
  }

  lemma {:induction false} SplitJoined(a: string, c: char, b: string)
    ensures Split(a + [c] + b, c) == Split(a, c) + Split(b, c)
    decreases |a|
  {
    var i := IndexOf(a, c);
    if i == |a| {
      assert c !in a;
      SplitFirst(a, c, b);
      SplitWhole(a, c);
    } else {
      var head, rest := a[..i], a[i + 1..];
      CutAt(a, c, i);
      SplitJoined(rest, c, b);
      SplitBehind(head, c, rest, rest + [c] + b, Split(b, c));
      Reassociated(head, c, rest, b);
    }
  }

  lemma CutAt(a: string, c: char, i: nat)
    requires i < |a| && a[i] == c && forall k :: 0 <= k < i ==> a[k] != c
    ensures c !in a[..i] && a == a[..i] + [c] + a[i + 1..]
  {
    assert forall k :: 0 <= k < i ==> a[..i][k] == a[k];
  }

  /** It holds the attributes of the three messages, in order and nothing else... */
  lemma AuthMessageHolds(bare: string, serverFirst: string, withoutProof: string)
    ensures Split(AuthMessage(bare, serverFirst, withoutProof), ',')
         == Split(bare, ',') + Split(serverFirst, ',') + Split(withoutProof, ',')
  {
    SplitJoined(bare, ',', serverFirst);
    SplitJoined(bare + [','] + serverFirst, ',', withoutProof);
    assert AuthMessage(bare, serverFirst, withoutProof) == (bare + [','] + serverFirst) + [','] + withoutProof;
  }

  /** ... so that it binds the nonce, the salt and the iteration count of the server. */
  lemma AuthMessageBinds(bare: string, withoutProof: string, one: string, other: string)
    requires AuthMessage(bare, one, withoutProof) == AuthMessage(bare, other, withoutProof)
    ensures one == other
    ensures IsServerFirst(one) ==> ServerFirstOf(one) == ServerFirstOf(other)
  {
    var a, b := AuthMessage(bare, one, withoutProof), AuthMessage(bare, other, withoutProof);
    var n := |bare| + 1;
    assert a[n..n + |one|] == one && b[n..n + |other|] == other;
  }

  // ----- The server -----------------------------------------------------------------------------------

  /** The client-first message behind its GS2 header: two commas end that. */
  function BareOf(message: string): (bare: string)
    ensures |bare| <= |message|
  {
    var attrs := IndexOf(message, ',');
    if attrs == |message| then ""
    else
      var rest := message[attrs + 1..];
      var end := IndexOf(rest, ',');
      if end == |rest| then "" else rest[end + 1..]
  }

  /** Where the last attribute begins, at its comma. */
  function LastComma(s: string): (i: Option<nat>)
    ensures i.Some? ==> i.value < |s|
  {
    if s == "" then None
    else if s[|s| - 1] == ',' then Some(|s| - 1)
    else LastComma(s[..|s| - 1])
  }

  lemma {:induction false} LastCommaIs(a: string, b: string)
    requires ',' !in b
    ensures LastComma(a + [','] + b) == Some(|a|)
    decreases |b|
  {
    var s := a + [','] + b;
    if b != "" {
      assert s[..|s| - 1] == a + [','] + b[..|b| - 1];
      LastCommaIs(a, b[..|b| - 1]);
    }
  }

  /** What the server keeps of a password, as section 3 of RFC 5802 defines it. */
  datatype Record = Record(storedKey: octets, serverKey: octets)

  function RecordOf(p: Primitives, password: octets, salt: octets, iterations: nat): Record {
    var salted := Hi(p, password, salt, iterations);
    Record(p.hash(p.hmac(salted, p.toUtf8("Client Key"))), p.hmac(salted, p.toUtf8("Server Key")))
  }

  /** What `c=` has to carry: the GS2 header as it came, and the server's own view of the channel if
      the header asks for that to be bound. */
  function ChannelInput(p: Primitives, message: string, data: octets): octets {
    var header := message[..|message| - |BareOf(message)|];
    p.toUtf8(header) + if HasPrefix(header, "p=") then data else []
  }

  /** The server's answer to the final message, or None when it refuses the login. It reads the
      messages as they came, and knows what it sent and the channel that it is on. */
  function Answer(p: Primitives, record: Record, data: octets, nonce: string, serverFirst: string,
                  clientFirst: octets, clientFinal: octets): Option<octets>
  {
    var first, final := p.fromUtf8(clientFirst), p.fromUtf8(clientFinal);
    if first.None? || final.None? || LastComma(final.value).None? then None
    else
      var cut := LastComma(final.value).value;
      AnswerTo(p, record, ChannelInput(p, first.value, data), nonce, BareOf(first.value) + "," + serverFirst + ",",
               final.value[..cut], final.value[cut + 1..])
  }

  function AnswerTo(p: Primitives, record: Record, channel: octets, nonce: string, before: string,
                    withoutProof: string, last: string): Option<octets>
  {
    var proof := if HasPrefix(last, "p=") then p.decode64(last[2..]) else None;
    var authMessage := p.toUtf8(before + withoutProof);
    if proof.None? || Split(withoutProof, ',') != ["c=" + p.encode64(channel), "r=" + nonce] then None
    else if p.hash(Xor(proof.value, p.hmac(record.storedKey, authMessage))) != record.storedKey then None
    else Some(p.toUtf8("v=" + p.encode64(p.hmac(record.serverKey, authMessage))))
  }

  // ----- A login ----------------------------------------------------------------------------------------

  lemma BareIsRead(binding: Binding, bare: string)
    ensures BareOf(Gs2Header(binding) + bare) == bare
  {
    var header := Gs2Header(binding);
    var message := header + bare;
    var n := |header| - 2;
    assert header[n] == ',' && header[n + 1] == ',' && forall k :: 0 <= k < n ==> header[k] != ',';
    assert forall k :: 0 <= k < |header| ==> message[k] == header[k];
    IndexOfIs(message, ',', n);
    IndexOfIs(message[n + 1..], ',', 0);
    assert message[n + 1..][1..] == bare;
  }

  lemma ChannelIsRead(p: Primitives, binding: Binding, bare: string, data: octets)
    requires binding.Some? ==> binding.value == data
    ensures ChannelInput(p, Gs2Header(binding) + bare, data) == ChannelOctets(p, binding)
  {
    BareIsRead(binding, bare);
    var message := Gs2Header(binding) + bare;
    assert message[..|message| - |bare|] == Gs2Header(binding);
    assert p.toUtf8("n,,") + [] == p.toUtf8("n,,");
    if binding.Some? {
      assert "p=tls-server-end-point,,"[..2] == "p=";
    } else {
      assert "n,,"[..2][0] != "p="[0];
    }
  }

  lemma WithoutProofIsRead(p: Primitives, binding: Binding, nonce: string)
    requires p.Lawful() && ',' !in nonce
    ensures Split(WithoutProof(p, binding, nonce), ',') == ["c=" + p.encode64(ChannelOctets(p, binding)), "r=" + nonce]
  {
    var c, r := "c=" + p.encode64(ChannelOctets(p, binding)), "r=" + nonce;
    SplitFirst(c, ',', r);
    SplitWhole(r, ',');
    assert WithoutProof(p, binding, nonce) == c + [','] + r;
  }

  lemma FinalIsCut(p: Primitives, withoutProof: string, proof: octets)
    requires p.Lawful()
    ensures var text, last := withoutProof + ",p=" + p.encode64(proof), "p=" + p.encode64(proof);
      && LastComma(text) == Some(|withoutProof|) && text[..|withoutProof|] == withoutProof
      && text[|withoutProof| + 1..] == last && HasPrefix(last, "p=") && p.decode64(last[2..]) == Some(proof)
  {
    var last := "p=" + p.encode64(proof);
    assert withoutProof + ",p=" + p.encode64(proof) == withoutProof + [','] + last;
    LastCommaIs(withoutProof, last);
    assert last[..2] == "p=" && last[2..] == p.encode64(proof);
  }

  lemma ProofIsRead(p: Primitives, record: Record, salted: octets, authMessage: string)
    requires record == Record(p.hash(p.hmac(salted, p.toUtf8("Client Key"))), p.hmac(salted, p.toUtf8("Server Key")))
    ensures var keys := KeysOf(p, salted);
      && var signature := p.hmac(record.storedKey, p.toUtf8(authMessage));
      && p.hash(Xor(ClientProof(p, keys, authMessage), signature)) == record.storedKey
      && keys.server == record.serverKey
  {
    var keys := KeysOf(p, salted);
    XorUndoes(keys.client, p.hmac(keys.stored, p.toUtf8(authMessage)));
  }

  /** The server of an account with this password accepts the client's final message, and the client
      accepts its answer. */
  lemma LoginSucceeds(p: Primitives, password: octets, binding: Binding, data: octets, nonceOctets: octets,
                      extension: string, salt: octets, iterations: nat)
    requires binding.Some? ==> binding.value == data
    requires p.Lawful() && ',' !in extension && 0 < iterations < 0x1_0000_0000
    ensures var first := Start(p, password, binding, nonceOctets);
      var nonce := p.encode64(nonceOctets) + extension;
      var text := ServerFirstText(p, nonce, salt, iterations);
      && Acceptable(p, first, text)
      && var answer := Answer(p, RecordOf(p, password, salt, iterations), data, nonce, text, first.message,
                              FinalOf(p, first, text).message);
      answer.Some? && Verifies(p, FinalOf(p, first, text), answer.value)
  {
    var first := Start(p, password, binding, nonceOctets);
    var nonce := p.encode64(nonceOctets) + extension;
    var text := ServerFirstText(p, nonce, salt, iterations);
    assert nonce[..|first.nonce|] == first.nonce;
    ServerFirstParses(p, nonce, salt, iterations);
    FinalIs(p, first, text, nonce, salt, iterations);
    BareIsRead(binding, first.bare);
    FinalIsAnswered(p, Hi(p, password, salt, iterations), RecordOf(p, password, salt, iterations), binding, data,
                    nonce, first.bare, text);
  }

  lemma PartsAreAnswered(p: Primitives, record: Record, channel: octets, nonce: string, before: string,
                         withoutProof: string, last: string, proof: octets)
    requires HasPrefix(last, "p=") && p.decode64(last[2..]) == Some(proof)
    requires Split(withoutProof, ',') == ["c=" + p.encode64(channel), "r=" + nonce]
    requires p.hash(Xor(proof, p.hmac(record.storedKey, p.toUtf8(before + withoutProof)))) == record.storedKey
    ensures AnswerTo(p, record, channel, nonce, before, withoutProof, last)
         == Some(p.toUtf8("v=" + p.encode64(p.hmac(record.serverKey, p.toUtf8(before + withoutProof)))))
  {
  }

  lemma MessageIsAnswered(p: Primitives, record: Record, data: octets, nonce: string, text: string, first: string,
                          bare: string, withoutProof: string, proof: octets)
    requires p.Lawful() && BareOf(first) == bare
    requires Split(withoutProof, ',') == ["c=" + p.encode64(ChannelInput(p, first, data)), "r=" + nonce]
    requires var authMessage := p.toUtf8(bare + "," + text + "," + withoutProof);
      p.hash(Xor(proof, p.hmac(record.storedKey, authMessage))) == record.storedKey
    ensures var signature := p.hmac(record.serverKey, p.toUtf8(bare + "," + text + "," + withoutProof));
      Answer(p, record, data, nonce, text, p.toUtf8(first), p.toUtf8(withoutProof + ",p=" + p.encode64(proof)))
      == Some(p.toUtf8("v=" + p.encode64(signature)))
  {
    FinalIsCut(p, withoutProof, proof);
    var before, last := bare + "," + text + ",", "p=" + p.encode64(proof);
    assert before + withoutProof == bare + "," + text + "," + withoutProof;
    PartsAreAnswered(p, record, ChannelInput(p, first, data), nonce, before, withoutProof, last, proof);
    AnswerCuts(p, record, data, nonce, text, first, withoutProof + ",p=" + p.encode64(proof), |withoutProof|);
  }

  lemma AnswerCuts(p: Primitives, record: Record, data: octets, nonce: string, text: string, first: string,
                   final: string, cut: nat)
    requires p.Lawful() && LastComma(final) == Some(cut)
    ensures Answer(p, record, data, nonce, text, p.toUtf8(first), p.toUtf8(final))
         == AnswerTo(p, record, ChannelInput(p, first, data), nonce, BareOf(first) + "," + text + ",", final[..cut],
                     final[cut + 1..])
  {
  }

  lemma FinalIsAnswered(p: Primitives, salted: octets, record: Record, binding: Binding, data: octets, nonce: string,
                        bare: string, text: string)
    requires p.Lawful() && ',' !in nonce && (binding.Some? ==> binding.value == data)
    requires record == Record(p.hash(p.hmac(salted, p.toUtf8("Client Key"))), p.hmac(salted, p.toUtf8("Server Key")))
    ensures var keys, withoutProof := KeysOf(p, salted), WithoutProof(p, binding, nonce);
      var authMessage := AuthMessage(bare, text, withoutProof);
      var message := p.toUtf8(withoutProof + ",p=" + p.encode64(ClientProof(p, keys, authMessage)));
      var first := p.toUtf8(Gs2Header(binding) + bare);
      var answer := Answer(p, record, data, nonce, text, first, message);
      answer.Some? && Verifies(p, ClientFinal(message, keys.server, authMessage), answer.value)
  {
    var keys, withoutProof := KeysOf(p, salted), WithoutProof(p, binding, nonce);
    var authMessage := AuthMessage(bare, text, withoutProof);
    var proof := ClientProof(p, keys, authMessage);
    BareIsRead(binding, bare);
    ChannelIsRead(p, binding, bare, data);
    WithoutProofIsRead(p, binding, nonce);
    ProofIsRead(p, record, salted, authMessage);
    MessageIsAnswered(p, record, data, nonce, text, Gs2Header(binding) + bare, bare, withoutProof, proof);
    var final := ClientFinal(p.toUtf8(withoutProof + ",p=" + p.encode64(proof)), keys.server, authMessage);
    OnlyTheSignatureVerifies(p, final, ServerSignature(p, keys.server, authMessage));
  }
}

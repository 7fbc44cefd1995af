/** The IK message patterns as token lists, and one interpreter for both roles.

  This is the Noise framework's own description (revision 34, sections 5.3, 7.5 and
  9) with the source's deviations: the constructor hashes both static keys, and the
  reader of a static key compares it with the one it already holds.  The unrolled
  message methods of pkg/noise/handshake_state.go are proved equal to it in module
  Handshakes; here the two roles are proved to stay in step. */
module IKPattern {
  import opened Wrappers
  import opened Crypto
  import opened CipherStates
  import opened SymmetricStates

  datatype Token = E | S | EE | ES | SE | SS | Psk

  const MESSAGE_A: seq<Token> := [E, ES, S, SS]
  const MESSAGE_B: seq<Token> := [E, EE, SE, Psk]

  datatype Role = Initiator | Responder

  /** One side of a handshake: s and e are private keys, rs and re public ones. */
  datatype Party = Party(
    role: Role, s: Key, e: Key, rs: Key, re: Key,
    hasE: bool, hasRE: bool, psk: bytes, sym: Symmetric)

  /** A step fails without rolling back, so it yields a state in either case. */
  datatype Outcome = Outcome(party: Party, result: Result<bytes, Error>)

  function ProtocolName(): bytes {
    var name := "Noise_IK_25519_ChaChaPoly_BLAKE2s";
    seq(|name|, i requires 0 <= i < |name| => if name[i] as int < 256 then name[i] as int else 0)
  }

  function Started(c: Suite, role: Role, s: Key, rs: Key, psk: bytes): Result<Party, Error> {
    if |psk| > 0 && |psk| != KEY_LEN then Err(InvalidPsk)
    else
      match PublicFromPrivate(c, s)
      case None => Err(LowOrderPoint)
      case Some(pub) =>
        var named := Named(c, ProtocolName());
        var sym := if role.Initiator? then HashMixed(c, HashMixed(c, named, pub), rs)
                   else HashMixed(c, HashMixed(c, named, rs), pub);
        Ok(Party(role, s, ZERO_KEY, rs, ZERO_KEY, false, false, psk, sym))
  }

  // ---- Tokens ----

  function EphemeralMixed(c: Suite, p: Party, pub: Key): Party {
    var sym := HashMixed(c, p.sym, pub);
    p.(sym := if p.psk == [] then sym else KeyMixed(c, sym, pub))
  }

  /** The private and public key a Diffie-Hellman token combines, by role. */
  function DhPair(p: Party, t: Token): (Key, Key)
    requires t in {EE, ES, SE, SS}
  {
    match t
    case EE => (p.e, p.re)
    case ES => if p.role.Initiator? then (p.e, p.rs) else (p.s, p.re)
    case SE => if p.role.Initiator? then (p.s, p.re) else (p.e, p.rs)
    case SS => (p.s, p.rs)
  }

  function DhOf(c: Suite, p: Party, t: Token): Option<Key>
    requires t in {EE, ES, SE, SS}
  {
    Dh(c, DhPair(p, t).0, DhPair(p, t).1)
  }

  function DhMixed(c: Suite, p: Party, t: Token, out: bytes): Outcome
    requires t in {EE, ES, SE, SS}
  {
    match DhOf(c, p, t)
    case None => Outcome(p, Err(LowOrderPoint))
    case Some(k) => Outcome(p.(sym := KeyMixed(c, p.sym, k)), Ok(out))
  }

  function PskMixed(c: Suite, p: Party): Party {
    if p.psk == [] then p else p.(sym := KeyAndHashMixed(c, p.sym, p.psk))
  }

  /** The private ephemeral key a writer will use: the one it was given, or what it draws. */
  function EphemeralKey(p: Party, entropy: Option<Key>): Option<Key> {
    Ephemeral(if p.hasE then Some(p.e) else None, entropy)
  }

  function Ephemeral(injected: Option<Key>, entropy: Option<Key>): Option<Key> {
    if injected.Some? then injected else if entropy.Some? then Some(Clamp(entropy.value)) else None
  }

  function EphemeralWritten(c: Suite, p: Party, entropy: Option<Key>): Outcome {
    if !p.hasE && entropy.None? then Outcome(p, Err(NoEntropy))
    else
      var q := if p.hasE then p else p.(e := Clamp(entropy.value), hasE := true);
      match PublicFromPrivate(c, q.e)
      case None => Outcome(q, Err(LowOrderPoint))
      case Some(pub) => Outcome(EphemeralMixed(c, q, pub), Ok(pub))
  }

  function StaticWritten(c: Suite, p: Party): Outcome {
    match PublicFromPrivate(c, p.s)
    case None => Outcome(p, Err(LowOrderPoint))
    case Some(pub) =>
      var (sym, r) := HashEncrypted(c, p.sym, pub);
      Outcome(p.(sym := sym), r)
  }

  function TokenWritten(c: Suite, p: Party, t: Token, entropy: Option<Key>): Outcome {
    match t
    case E => EphemeralWritten(c, p, entropy)
    case S => StaticWritten(c, p)
    case Psk => Outcome(PskMixed(c, p), Ok([]))
    case _ => DhMixed(c, p, t, [])
  }

  function EphemeralRead(c: Suite, p: Party, m: bytes): Outcome {
    if |m| < KEY_LEN then Outcome(p, Err(MessageTooShort))
    else Outcome(EphemeralMixed(c, p.(re := m[..KEY_LEN], hasRE := true), m[..KEY_LEN]), Ok(m[KEY_LEN..]))
  }

  function StaticRead(c: Suite, p: Party, m: bytes): Outcome {
    var n := EncryptedLen(KEY_LEN, p.sym.cipher.hasKey);
    if |m| < n then Outcome(p, Err(MessageTooShort))
    else
      var (sym, r) := HashDecrypted(c, p.sym, m[..n]);
      var q := p.(sym := sym);
      if r.Err? then Outcome(q, r)
      else if |r.value| != KEY_LEN then Outcome(q, Err(InvalidKeyLength))
      else if r.value != p.rs then Outcome(q, Err(StaticKeyMismatch))
      else Outcome(q, Ok(m[n..]))
  }

  /** Reading a token consumes it from the front of the message. */
  function TokenRead(c: Suite, p: Party, t: Token, m: bytes): Outcome {
    match t
    case E => EphemeralRead(c, p, m)
    case S => StaticRead(c, p, m)
    case Psk => Outcome(PskMixed(c, p), Ok(m))
    case _ => DhMixed(c, p, t, m)
  }

  // ---- Messages ----

  function TokensWritten(c: Suite, p: Party, ts: seq<Token>, entropy: Option<Key>): Outcome
    decreases |ts|
  {
    if ts == [] then Outcome(p, Ok([]))
    else
      var first := TokenWritten(c, p, ts[0], entropy);
      if first.result.Err? then first
      else
        var rest := TokensWritten(c, first.party, ts[1..], entropy);
        if rest.result.Err? then rest
        else Outcome(rest.party, Ok(first.result.value + rest.result.value))
  }

  function TokensRead(c: Suite, p: Party, ts: seq<Token>, m: bytes): Outcome
    decreases |ts|
  {
    if ts == [] then Outcome(p, Ok(m))
    else
      var first := TokenRead(c, p, ts[0], m);
      if first.result.Err? then first
      else TokensRead(c, first.party, ts[1..], first.result.value)
  }

  function MessageWritten(c: Suite, p: Party, ts: seq<Token>, payload: bytes, entropy: Option<Key>): Outcome {
    var head := TokensWritten(c, p, ts, entropy);
    if head.result.Err? then head
    else
      var (sym, r) := HashEncrypted(c, head.party.sym, payload);
      Outcome(head.party.(sym := sym), if r.Err? then r else Ok(head.result.value + r.value))
  }

  function MessageRead(c: Suite, p: Party, ts: seq<Token>, m: bytes): Outcome {
    var head := TokensRead(c, p, ts, m);
    if head.result.Err? then head
    else
      var (sym, r) := HashDecrypted(c, head.party.sym, head.result.value);
      Outcome(head.party.(sym := sym), r)
  }

  function WrittenA(c: Suite, p: Party, payload: bytes, entropy: Option<Key>): Outcome {
    if !p.role.Initiator? then Outcome(p, Err(InvalidRole))
    else MessageWritten(c, p, MESSAGE_A, payload, entropy)
  }

  function ReadA(c: Suite, p: Party, m: bytes): Outcome {
    if !p.role.Responder? then Outcome(p, Err(InvalidRole))
    else MessageRead(c, p, MESSAGE_A, m)
  }

  function WrittenB(c: Suite, p: Party, payload: bytes, entropy: Option<Key>): Outcome {
    if !p.role.Responder? then Outcome(p, Err(InvalidRole))
    else if !p.hasRE then Outcome(p, Err(NoRemoteEphemeral))
    else MessageWritten(c, p, MESSAGE_B, payload, entropy)
  }

  function ReadB(c: Suite, p: Party, m: bytes): Outcome {
    if !p.role.Initiator? then Outcome(p, Err(InvalidRole))
    else if !p.hasE then Outcome(p, Err(NoLocalEphemeral))
    else MessageRead(c, p, MESSAGE_B, m)
  }

  /** Send cipher first, receive cipher second. */
  function TransportOf(c: Suite, p: Party): (Cipher, Cipher) {
    var (c1, c2) := SplitCiphers(c, p.sym);
    if p.role.Initiator? then (c1, c2) else (c2, c1)
  }

  // ---- The two roles stay in step ----

  /** x holds y's public keys. */
  ghost predicate Knows(c: Suite, x: Party, y: Party) {
    && PublicFromPrivate(c, y.s) == Some(x.rs)
    && (x.hasRE ==> y.hasE && PublicFromPrivate(c, y.e) == Some(x.re))
  }

  ghost predicate InStep(c: Suite, w: Party, r: Party) {
    w.role != r.role && w.psk == r.psk && w.sym == r.sym && Knows(c, w, r) && Knows(c, r, w)
  }

  /** Every Diffie-Hellman token finds the ephemeral keys it needs; wRE and rRE say
    whether writer and reader hold the other's ephemeral. */
  ghost predicate Playable(writer: Role, wRE: bool, rRE: bool, ts: seq<Token>)
    decreases |ts|
  {
    ts == [] ||
    match ts[0]
    case E => Playable(writer, wRE, true, ts[1..])
    case EE => wRE && rRE && Playable(writer, wRE, rRE, ts[1..])
    case ES => (if writer.Initiator? then rRE else wRE) && Playable(writer, wRE, rRE, ts[1..])
    case SE => (if writer.Initiator? then wRE else rRE) && Playable(writer, wRE, rRE, ts[1..])
    case _ => Playable(writer, wRE, rRE, ts[1..])
  }

  /** Both ends of a Diffie-Hellman token compute the same secret, or both fail. */
  lemma DhAgrees(c: Suite, w: Party, r: Party, t: Token)
    requires DhCommutes(c) && InStep(c, w, r)
    requires t in {EE, ES, SE, SS} && Playable(w.role, w.hasRE, r.hasRE, [t])
    ensures DhOf(c, w, t) == DhOf(c, r, t)
  {}

  /** Writer and reader moved on to w2 and r2 together: still in step, the reader knowing
    the writer's ephemeral if it was sent, and no key otherwise changed. */
  ghost predicate Carried(c: Suite, w: Party, r: Party, entropy: Option<Key>, sentE: bool, w2: Party, r2: Party) {
    && InStep(c, w2, r2) && w2.role == w.role
    && w2.hasRE == w.hasRE && r2.hasRE == (r.hasRE || sentE)
    && r2.hasE == r.hasE && r2.e == r.e
    && (w.hasE || sentE ==> w2.hasE) && EphemeralKey(w2, entropy) == EphemeralKey(w, entropy)
  }

  /** Whatever a token writes, the reader consumes exactly that and stays in step. */
  lemma TokenAgrees(c: Suite, w: Party, r: Party, t: Token, entropy: Option<Key>, rest: bytes)
    requires Lawful(c) && InStep(c, w, r) && Playable(w.role, w.hasRE, r.hasRE, [t])
    requires TokenWritten(c, w, t, entropy).result.Ok?
    ensures var sent := TokenWritten(c, w, t, entropy);
            var got := TokenRead(c, r, t, sent.result.value + rest);
            got.result == Ok(rest) && Carried(c, w, r, entropy, t.E?, sent.party, got.party)
  {
    var out := TokenWritten(c, w, t, entropy).result.value;
    assert (out + rest)[..|out|] == out && (out + rest)[|out|..] == rest;
    match t
    case E =>
    case S => EncryptedIsDecrypted(c, w.sym, PublicFromPrivate(c, w.s).value);
    case Psk => assert [] + rest == rest;
    case _ =>
      DhAgrees(c, w, r, t);
      assert [] + rest == rest;
  }

  lemma CarriedOn(c: Suite, w: Party, r: Party, entropy: Option<Key>, e1: bool, w1: Party, r1: Party, e2: bool, w2: Party, r2: Party)
    requires Carried(c, w, r, entropy, e1, w1, r1) && Carried(c, w1, r1, entropy, e2, w2, r2)
    ensures Carried(c, w, r, entropy, e1 || e2, w2, r2)
  {}

  lemma PlayableCons(writer: Role, wRE: bool, rRE: bool, ts: seq<Token>)
    requires ts != [] && Playable(writer, wRE, rRE, ts)
    ensures Playable(writer, wRE, rRE, [ts[0]]) && Playable(writer, wRE, rRE || ts[0].E?, ts[1..])
  {}

  lemma ReadCons(c: Suite, r: Party, ts: seq<Token>, m: bytes, r1: Party, tail: bytes)
    requires ts != [] && TokenRead(c, r, ts[0], m) == Outcome(r1, Ok(tail))
    ensures TokensRead(c, r, ts, m) == TokensRead(c, r1, ts[1..], tail)
  {}

  lemma {:induction false} TokensAgree(c: Suite, w: Party, r: Party, ts: seq<Token>, entropy: Option<Key>, rest: bytes)
    requires Lawful(c) && InStep(c, w, r) && Playable(w.role, w.hasRE, r.hasRE, ts)
    requires TokensWritten(c, w, ts, entropy).result.Ok?
    ensures var sent := TokensWritten(c, w, ts, entropy);
            var got := TokensRead(c, r, ts, sent.result.value + rest);
            got.result == Ok(rest) && Carried(c, w, r, entropy, E in ts, sent.party, got.party)
    decreases |ts|
  {
    if ts == [] {
      assert [] + rest == rest;
    } else {
      var first := TokenWritten(c, w, ts[0], entropy);
      var more := TokensWritten(c, first.party, ts[1..], entropy);
      var out, tail := first.result.value, more.result.value + rest;
      PlayableCons(w.role, w.hasRE, r.hasRE, ts);
      TokenAgrees(c, w, r, ts[0], entropy, tail);
      var r1 := TokenRead(c, r, ts[0], out + tail).party;
      TokensAgree(c, first.party, r1, ts[1..], entropy, rest);
      WriteCons(c, w, ts, entropy, more);
      assert out + more.result.value + rest == out + tail;
      ReadCons(c, r, ts, out + tail, r1, tail);
      CarriedOn(c, w, r, entropy, ts[0].E?, first.party, r1, E in ts[1..],
                more.party, TokensRead(c, r1, ts[1..], tail).party);
    }
  }

  /** A whole message: the payload arrives unchanged and both sides hold the same
    hash, chaining key, cipher key and nonce. */
  lemma MessageAgrees(c: Suite, w: Party, r: Party, ts: seq<Token>, payload: bytes, entropy: Option<Key>)
    requires Lawful(c) && InStep(c, w, r) && Playable(w.role, w.hasRE, r.hasRE, ts)
    requires MessageWritten(c, w, ts, payload, entropy).result.Ok?
    ensures var sent := MessageWritten(c, w, ts, payload, entropy);
            var got := MessageRead(c, r, ts, sent.result.value);
            got.result == Ok(payload) && Carried(c, w, r, entropy, E in ts, sent.party, got.party)
  {
    var head := TokensWritten(c, w, ts, entropy);
    var sealed := HashEncrypted(c, head.party.sym, payload).1.value;
    TokensAgree(c, w, r, ts, entropy, sealed);
    EncryptedIsDecrypted(c, head.party.sym, payload);
  }

  lemma StartedInStep(c: Suite, sI: Key, sR: Key, pubI: Key, pubR: Key, psk: bytes)
    requires PublicFromPrivate(c, sI) == Some(pubI) && PublicFromPrivate(c, sR) == Some(pubR)
    ensures var i, r := Started(c, Initiator, sI, pubR, psk), Started(c, Responder, sR, pubI, psk);
            && (i.Ok? <==> psk == [] || |psk| == KEY_LEN) && (r.Ok? <==> i.Ok?)
            && (i.Ok? ==> InStep(c, i.value, r.value))
  {}

  lemma PatternsPlayable()
    ensures Playable(Initiator, false, false, MESSAGE_A)
    ensures Playable(Responder, true, false, MESSAGE_B)
  {}

  /** The honest handshake.  For all keys, payloads, entropy and optional 32-byte
    PSK: every message that is written is read, both payloads arrive, the two sides
    agree after each message, and each one's send cipher is the other's receive
    cipher. */
  lemma HonestHandshake(c: Suite, i0: Party, r0: Party, payloadA: bytes, payloadB: bytes,
                        entropyI: Option<Key>, entropyR: Option<Key>)
    requires Lawful(c) && i0.role.Initiator? && InStep(c, i0, r0) && !i0.hasRE && !r0.hasRE
    requires WrittenA(c, i0, payloadA, entropyI).result.Ok?
    ensures var i1 := WrittenA(c, i0, payloadA, entropyI);
            var r1 := ReadA(c, r0, i1.result.value);
            && r1.result == Ok(payloadA) && r1.party.sym == i1.party.sym
            && var r2 := WrittenB(c, r1.party, payloadB, entropyR);
               r2.result.Ok? ==>
                 var i2 := ReadB(c, i1.party, r2.result.value);
                 && i2.result == Ok(payloadB) && i2.party.sym == r2.party.sym
                 && TransportOf(c, i2.party) == (TransportOf(c, r2.party).1, TransportOf(c, r2.party).0)
  {
    PatternsPlayable();
    MessageAgrees(c, i0, r0, MESSAGE_A, payloadA, entropyI);
    assert E in MESSAGE_A by { assert MESSAGE_A[0] == E; }
    var i1 := WrittenA(c, i0, payloadA, entropyI);
    var r1 := ReadA(c, r0, i1.result.value);
    if WrittenB(c, r1.party, payloadB, entropyR).result.Ok? {
      MessageAgrees(c, r1.party, i1.party, MESSAGE_B, payloadB, entropyR);
    }
  }

  // ---- A four-token message, unrolled ----

  function Join(first: Outcome, rest: Outcome): Outcome {
    if first.result.Err? then first
    else if rest.result.Err? then rest
    else Outcome(rest.party, Ok(first.result.value + rest.result.value))
  }

  /** What four token writes in a row amount to: the first failure, or the last
    state and all the bytes. */
  function JoinWrites(o1: Outcome, o2: Outcome, o3: Outcome, o4: Outcome): Outcome {
    Join(o1, Join(o2, Join(o3, o4)))
  }

  lemma JoinedBytes(o1: Outcome, o2: Outcome, o3: Outcome, o4: Outcome)
    requires o1.result.Ok? && o2.result == Ok([]) && o3.result.Ok? && o4.result == Ok([])
    ensures JoinWrites(o1, o2, o3, o4) == Outcome(o4.party, Ok(o1.result.value + o3.result.value))
  {
    assert o3.result.value + [] == o3.result.value && [] + o3.result.value == o3.result.value;
  }

  function JoinReads(o1: Outcome, o2: Outcome, o3: Outcome, o4: Outcome): Outcome {
    if o1.result.Err? then o1 else if o2.result.Err? then o2 else if o3.result.Err? then o3 else o4
  }

  lemma WriteCons(c: Suite, p: Party, ts: seq<Token>, entropy: Option<Key>, rest: Outcome)
    requires ts != []
    requires var first := TokenWritten(c, p, ts[0], entropy);
             first.result.Ok? ==> rest == TokensWritten(c, first.party, ts[1..], entropy)
    ensures TokensWritten(c, p, ts, entropy) == Join(TokenWritten(c, p, ts[0], entropy), rest)
  {}

  lemma WriteLast(c: Suite, p: Party, t: Token, entropy: Option<Key>)
    ensures TokensWritten(c, p, [t], entropy) == TokenWritten(c, p, t, entropy)
  {
    var one := TokenWritten(c, p, t, entropy);
    WriteCons(c, p, [t], entropy, Outcome(one.party, Ok([])));
    if one.result.Ok? {
      assert one.result.value + [] == one.result.value;
    }
  }

  lemma FourWrites(c: Suite, p: Party, ts: seq<Token>, entropy: Option<Key>,
                   o1: Outcome, o2: Outcome, o3: Outcome, o4: Outcome)
    requires |ts| == 4 && o1 == TokenWritten(c, p, ts[0], entropy)
    requires o1.result.Ok? ==> o2 == TokenWritten(c, o1.party, ts[1], entropy)
    requires o1.result.Ok? && o2.result.Ok? ==> o3 == TokenWritten(c, o2.party, ts[2], entropy)
    requires o1.result.Ok? && o2.result.Ok? && o3.result.Ok? ==> o4 == TokenWritten(c, o3.party, ts[3], entropy)
    ensures TokensWritten(c, p, ts, entropy) == JoinWrites(o1, o2, o3, o4)
  {
    if o1.result.Ok? {
      if o2.result.Ok? {
        if o3.result.Ok? {
          assert ts[2..][1..] == [ts[3]];
          WriteLast(c, o3.party, ts[3], entropy);
        }
        WriteCons(c, o2.party, ts[2..], entropy, o4);
        assert ts[1..][1..] == ts[2..];
      }
      WriteCons(c, o1.party, ts[1..], entropy, Join(o3, o4));
    }
    WriteCons(c, p, ts, entropy, Join(o2, Join(o3, o4)));
  }

  lemma FourReads(c: Suite, p: Party, ts: seq<Token>, m: bytes, o1: Outcome, o2: Outcome, o3: Outcome, o4: Outcome)
    requires |ts| == 4 && o1 == TokenRead(c, p, ts[0], m)
    requires o1.result.Ok? ==> o2 == TokenRead(c, o1.party, ts[1], o1.result.value)
    requires o1.result.Ok? && o2.result.Ok? ==> o3 == TokenRead(c, o2.party, ts[2], o2.result.value)
    requires o1.result.Ok? && o2.result.Ok? && o3.result.Ok? ==> o4 == TokenRead(c, o3.party, ts[3], o3.result.value)
    ensures TokensRead(c, p, ts, m) == JoinReads(o1, o2, o3, o4)
  {
    if o1.result.Ok? && o2.result.Ok? {
      if o3.result.Ok? {
        assert ts[2..][1..] == [ts[3]] && [ts[3]][1..] == [];
        assert TokensRead(c, o3.party, [ts[3]], o3.result.value) == o4;
      }
      assert TokensRead(c, o2.party, ts[2..], o2.result.value) == if o3.result.Err? then o3 else o4;
      assert ts[1..][1..] == ts[2..];
    }
  }

  // ---- When a handshake succeeds ----

  /** What the first message needs: an ephemeral, public keys, and two shared secrets. */
  ghost predicate FirstSecrets(c: Suite, e: Option<Key>, s: Key, rs: Key) {
    && e.Some? && PublicFromPrivate(c, e.value).Some? && PublicFromPrivate(c, s).Some?
    && Dh(c, e.value, rs).Some? && Dh(c, s, rs).Some?
  }

  /** What the second message needs. */
  ghost predicate SecondSecrets(c: Suite, e: Option<Key>, re: Key, rs: Key) {
    && e.Some? && PublicFromPrivate(c, e.value).Some?
    && Dh(c, e.value, re).Some? && Dh(c, e.value, rs).Some?
  }

  lemma EphemeralSucceeds(c: Suite, p: Party, entropy: Option<Key>)
    ensures var o, e := TokenWritten(c, p, E, entropy), EphemeralKey(p, entropy);
            && (o.result.Ok? <==> e.Some? && PublicFromPrivate(c, e.value).Some?)
            && (o.result.Ok? ==> o.party == p.(e := e.value, hasE := true, sym := o.party.sym))
  {}

  /** No nonce can run out during a handshake, for every MixKey restarts it. */
  lemma DhSucceeds(c: Suite, p: Party, t: Token, entropy: Option<Key>)
    requires t in {EE, ES, SE, SS}
    ensures var o := TokenWritten(c, p, t, entropy);
            && (o.result.Ok? <==> DhOf(c, p, t).Some?)
            && (o.result.Ok? ==> o.party == p.(sym := o.party.sym) && o.party.sym.cipher.nonce == 0)
  {}

  lemma SealSucceeds(c: Suite, s: Symmetric, plaintext: bytes)
    requires s.cipher.nonce == 0
    ensures HashEncrypted(c, s, plaintext).1.Ok?
  {}

  /** The first message is written exactly when what it needs exists. */
  lemma WriteASucceeds(c: Suite, p: Party, payload: bytes, entropy: Option<Key>)
    requires p.role.Initiator?
    ensures WrittenA(c, p, payload, entropy).result.Ok? <==> FirstSecrets(c, EphemeralKey(p, entropy), p.s, p.rs)
  {
    var o1 := TokenWritten(c, p, E, entropy);
    var o2 := TokenWritten(c, o1.party, ES, entropy);
    var o3 := TokenWritten(c, o2.party, S, entropy);
    var o4 := TokenWritten(c, o3.party, SS, entropy);
    FourWrites(c, p, MESSAGE_A, entropy, o1, o2, o3, o4);
    EphemeralSucceeds(c, p, entropy);
    if o1.result.Ok? {
      DhSucceeds(c, o1.party, ES, entropy);
      if o2.result.Ok? && PublicFromPrivate(c, p.s).Some? {
        SealSucceeds(c, o2.party.sym, PublicFromPrivate(c, p.s).value);
        DhSucceeds(c, o3.party, SS, entropy);
        if o4.result.Ok? {
          SealSucceeds(c, o4.party.sym, payload);
        }
      }
    }
  }

  /** And so is the second. */
  lemma WriteBSucceeds(c: Suite, p: Party, payload: bytes, entropy: Option<Key>)
    requires p.role.Responder? && p.hasRE
    ensures WrittenB(c, p, payload, entropy).result.Ok? <==> SecondSecrets(c, EphemeralKey(p, entropy), p.re, p.rs)
  {
    var o1 := TokenWritten(c, p, E, entropy);
    var o2 := TokenWritten(c, o1.party, EE, entropy);
    var o3 := TokenWritten(c, o2.party, SE, entropy);
    var o4 := TokenWritten(c, o3.party, Psk, entropy);
    FourWrites(c, p, MESSAGE_B, entropy, o1, o2, o3, o4);
    EphemeralSucceeds(c, p, entropy);
    if o1.result.Ok? {
      DhSucceeds(c, o1.party, EE, entropy);
      DhSucceeds(c, o2.party, SE, entropy);
      if o2.result.Ok? && o3.result.Ok? {
        SealSucceeds(c, o4.party.sym, payload);
      }
    }
  }

  lemma {:induction false} ReadKeepsStatic(c: Suite, p: Party, ts: seq<Token>, m: bytes)
    ensures var q := TokensRead(c, p, ts, m).party; q.rs == p.rs && q.role == p.role && q.psk == p.psk
    decreases |ts|
  {
    if ts != [] {
      var first := TokenRead(c, p, ts[0], m);
      if first.result.Ok? {
        ReadKeepsStatic(c, first.party, ts[1..], first.result.value);
      }
    }
  }

  /** After message A the responder holds the initiator's ephemeral public key, and its own
    keys are untouched. */
  lemma ResponderAfterA(c: Suite, i0: Party, r0: Party, payload: bytes, entropyI: Option<Key>)
    requires Lawful(c) && i0.role.Initiator? && InStep(c, i0, r0) && !i0.hasRE && !r0.hasRE
    requires WrittenA(c, i0, payload, entropyI).result.Ok?
    ensures var r1 := ReadA(c, r0, WrittenA(c, i0, payload, entropyI).result.value).party;
            var e := EphemeralKey(i0, entropyI);
            && r1.role == r0.role && r1.rs == r0.rs && r1.hasE == r0.hasE && r1.e == r0.e && r1.psk == r0.psk
            && r1.hasRE && e.Some? && PublicFromPrivate(c, e.value) == Some(r1.re)
  {
    PatternsPlayable();
    MessageAgrees(c, i0, r0, MESSAGE_A, payload, entropyI);
    assert E in MESSAGE_A by { assert MESSAGE_A[0] == E; }
    ReadKeepsStatic(c, r0, MESSAGE_A, WrittenA(c, i0, payload, entropyI).result.value);
  }

  /** The four calls of a handshake in turn; a message that was not written is empty. */
  datatype Exchange = Exchange(a: Outcome, gotA: Outcome, b: Outcome, gotB: Outcome)

  function Sent(o: Outcome): bytes {
    if o.result.Ok? then o.result.value else []
  }

  function Exchanged(c: Suite, i0: Party, r0: Party, payloadA: bytes, payloadB: bytes,
                     entropyI: Option<Key>, entropyR: Option<Key>): Exchange {
    var a := WrittenA(c, i0, payloadA, entropyI);
    var gotA := ReadA(c, r0, Sent(a));
    var b := WrittenB(c, gotA.party, payloadB, entropyR);
    Exchange(a, gotA, b, ReadB(c, a.party, Sent(b)))
  }

  /** A handshake completes exactly when the shared secrets it needs exist; then both
    payloads have arrived and the two sides agree on everything, ciphers included. */
  lemma HandshakeCompletes(c: Suite, i0: Party, r0: Party, payloadA: bytes, payloadB: bytes,
                           entropyI: Option<Key>, entropyR: Option<Key>)
    requires Lawful(c) && i0.role.Initiator? && InStep(c, i0, r0) && !i0.hasRE && !r0.hasRE
    ensures var x := Exchanged(c, i0, r0, payloadA, payloadB, entropyI, entropyR);
            var e := EphemeralKey(i0, entropyI);
            && (x.a.result.Ok? <==> FirstSecrets(c, e, i0.s, i0.rs))
            && (x.a.result.Ok? ==>
                  && x.gotA.result == Ok(payloadA)
                  && (x.b.result.Ok? <==>
                        SecondSecrets(c, EphemeralKey(r0, entropyR), PublicFromPrivate(c, e.value).value, r0.rs))
                  && (x.b.result.Ok? ==>
                        && x.gotB.result == Ok(payloadB) && x.gotB.party.sym == x.b.party.sym
                        && TransportOf(c, x.gotB.party) == (TransportOf(c, x.b.party).1, TransportOf(c, x.b.party).0)))
  {
    WriteASucceeds(c, i0, payloadA, entropyI);
    if WrittenA(c, i0, payloadA, entropyI).result.Ok? {
      HonestHandshake(c, i0, r0, payloadA, payloadB, entropyI, entropyR);
      ResponderAfterA(c, i0, r0, payloadA, entropyI);
      var r1 := ReadA(c, r0, WrittenA(c, i0, payloadA, entropyI).result.value).party;
      WriteBSucceeds(c, r1, payloadB, entropyR);
    }
  }

  /** A side that has been constructed and, perhaps, given an ephemeral key. */
  function Prepared(c: Suite, role: Role, s: Key, rs: Key, psk: bytes, injected: Option<Key>): Party
    requires Started(c, role, s, rs, psk).Ok?
  {
    var p := Started(c, role, s, rs, psk).value;
    if injected.Some? then p.(e := injected.value, hasE := true) else p
  }
}

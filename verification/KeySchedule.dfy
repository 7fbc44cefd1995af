/** What the two messages put on the wire and what keys they lead to, written out in the
  primitives alone: hash, HKDF blocks, Diffie-Hellman results and sealed boxes.

  The token interpreter and the objects behind it do not occur on the right-hand sides
  below; section 7.5 of the Noise framework, revision 34, and the source's deviations do. */
module KeySchedule {
  import opened Words
  import opened Wrappers
  import opened Crypto
  import opened CipherStates
  import opened SymmetricStates
  import opened IKPattern

  /** The chaining key after the ephemeral key: under a PSK it is mixed in. */
  function AfterEphemeral(c: Suite, ck: Key, psk: bytes, e: Key): Key {
    if psk == [] then ck else c.hkdf(ck, e, 0)
  }

  // ---- The constructor ----

  lemma ProtocolNameLength()
    ensures |ProtocolName()| == 33
  {}

  /** Both roles start from the hash of the protocol name and of the initiator's and then the
    responder's static public key, without a cipher key. */
  lemma StartSchedule(c: Suite, role: Role, s: Key, rs: Key, psk: bytes)
    requires Started(c, role, s, rs, psk).Ok?
    ensures var pub := PublicFromPrivate(c, s).value;
            var first, second := if role.Initiator? then pub else rs, if role.Initiator? then rs else pub;
            var name := c.hash(ProtocolName());
            Started(c, role, s, rs, psk).value
              == Party(role, s, ZERO_KEY, rs, ZERO_KEY, false, false, psk,
                       Symmetric(c.hash(c.hash(name + first) + second), name, Cipher(ZERO_KEY, 0, false)))
  {
    ProtocolNameLength();
  }

  // ---- One token at a time ----

  lemma DhToken(c: Suite, p: Party, t: Token, entropy: Option<Key>, m: bytes)
    requires t in {EE, ES, SE, SS}
    ensures var k, written, got := DhOf(c, p, t), TokenWritten(c, p, t, entropy), TokenRead(c, p, t, m);
            && written.result == (if k.Some? then Ok([]) else Err(LowOrderPoint))
            && got.result == (if k.Some? then Ok(m) else Err(LowOrderPoint))
            && written.party == got.party
            && (k.Some? ==> got.party.sym == SecretMixed(c, p.sym, k.value) && got.party == p.(sym := got.party.sym))
  {}

  function SecretMixed(c: Suite, s: Symmetric, k: bytes): Symmetric {
    Symmetric(s.h, c.hkdf(s.ck, k, 0), Cipher(c.hkdf(s.ck, k, 1), 0, true))
  }

  lemma EphemeralToken(c: Suite, p: Party, entropy: Option<Key>)
    requires TokenWritten(c, p, E, entropy).result.Ok?
    ensures var o, e := TokenWritten(c, p, E, entropy), EphemeralKey(p, entropy);
            && e.Some? && PublicFromPrivate(c, e.value) == Some(o.result.value)
            && o.party == p.(e := e.value, hasE := true, sym := o.party.sym)
            && o.party.sym.h == c.hash(p.sym.h + o.result.value)
            && o.party.sym.ck == AfterEphemeral(c, p.sym.ck, p.psk, o.result.value)
  {}

  lemma EphemeralReadToken(c: Suite, p: Party, m: bytes)
    requires |m| >= KEY_LEN
    ensures var o := TokenRead(c, p, E, m);
            && o.result == Ok(m[KEY_LEN..])
            && o.party == p.(re := m[..KEY_LEN], hasRE := true, sym := o.party.sym)
            && o.party.sym.h == c.hash(p.sym.h + m[..KEY_LEN])
            && o.party.sym.ck == AfterEphemeral(c, p.sym.ck, p.psk, m[..KEY_LEN])
  {}

  /** Sealing and opening under a cipher key that was just mixed. */
  lemma FreshSeal(c: Suite, s: Symmetric, plaintext: bytes)
    requires s.cipher.hasKey && s.cipher.nonce == 0
    ensures var box := c.seal(s.cipher.key, FormatNonce(0), plaintext, s.h);
            HashEncrypted(c, s, plaintext) == (Symmetric(c.hash(s.h + box), s.ck, Cipher(s.cipher.key, 1, true)), Ok(box))
  {}

  lemma FreshOpen(c: Suite, s: Symmetric, box: bytes)
    requires s.cipher.hasKey && s.cipher.nonce == 0
    ensures var (next, r) := HashDecrypted(c, s, box);
            var plain := c.open(s.cipher.key, FormatNonce(0), box, s.h);
            && (r.Ok? <==> plain.Some?)
            && (plain.Some? ==>
                  r == Ok(plain.value) && next == Symmetric(c.hash(s.h + box), s.ck, Cipher(s.cipher.key, 1, true)))
  {}

  // ---- Message A ----

  /** Message A in the primitives: e, the static key under the key of es, the payload under
    the key of ss, each box bound to the transcript so far. */
  function ReferenceA(c: Suite, h: Key, ck: Key, psk: bytes, pubE: Key, pubS: Key, es: Key, ss: Key, payload: bytes): (bytes, Symmetric) {
    var k0 := AfterEphemeral(c, ck, psk, pubE);
    var k1 := c.hkdf(k0, es, 0);
    var h1 := c.hash(h + pubE);
    var box1 := c.seal(c.hkdf(k0, es, 1), FormatNonce(0), pubS, h1);
    var h2 := c.hash(h1 + box1);
    var box2 := c.seal(c.hkdf(k1, ss, 1), FormatNonce(0), payload, h2);
    (pubE + box1 + box2, Symmetric(c.hash(h2 + box2), c.hkdf(k1, ss, 0), Cipher(c.hkdf(k1, ss, 1), 1, true)))
  }

  /** An initiator writes exactly that, whenever it can write at all. */
  lemma WriteASchedule(c: Suite, p: Party, payload: bytes, entropy: Option<Key>)
    requires p.role.Initiator? && FirstSecrets(c, EphemeralKey(p, entropy), p.s, p.rs)
    ensures var e := EphemeralKey(p, entropy).value;
            var (message, sym) := ReferenceA(c, p.sym.h, p.sym.ck, p.psk, PublicFromPrivate(c, e).value,
                                             PublicFromPrivate(c, p.s).value, Dh(c, e, p.rs).value, Dh(c, p.s, p.rs).value, payload);
            WrittenA(c, p, payload, entropy) == Outcome(p.(e := e, hasE := true, sym := sym), Ok(message))
  {
    WriteASucceeds(c, p, payload, entropy);
    EphemeralSucceeds(c, p, entropy);
    var o1 := TokenWritten(c, p, E, entropy);
    var o2 := TokenWritten(c, o1.party, ES, entropy);
    var o3 := TokenWritten(c, o2.party, S, entropy);
    var o4 := TokenWritten(c, o3.party, SS, entropy);
    EphemeralToken(c, p, entropy);
    DhToken(c, o1.party, ES, entropy, []);
    FreshSeal(c, o2.party.sym, PublicFromPrivate(c, p.s).value);
    DhToken(c, o3.party, SS, entropy, []);
    FreshSeal(c, o4.party.sym, payload);
    FourWrites(c, p, MESSAGE_A, entropy, o1, o2, o3, o4);
    JoinedBytes(o1, o2, o3, o4);
  }

  const SEALED_KEY_LEN: nat := 48

  /** What a responder needs of a message A: the secrets exist, the first box opens to the
    static key it expects, and the second opens. */
  ghost predicate AcceptsA(c: Suite, p: Party, m: bytes) {
    && |m| >= KEY_LEN + SEALED_KEY_LEN
    && var e, box1, box2 := m[..KEY_LEN], m[KEY_LEN..][..SEALED_KEY_LEN], m[KEY_LEN..][SEALED_KEY_LEN..];
       var es, ss := Dh(c, p.s, e), Dh(c, p.s, p.rs);
    && es.Some? && ss.Some?
    && var k0 := AfterEphemeral(c, p.sym.ck, p.psk, e);
       var k1 := c.hkdf(k0, es.value, 0);
       var h1 := c.hash(p.sym.h + e);
    && c.open(c.hkdf(k0, es.value, 1), FormatNonce(0), box1, h1) == Some(p.rs)
    && c.open(c.hkdf(k1, ss.value, 1), FormatNonce(0), box2, c.hash(h1 + box1)).Some?
  }

  /** A responder accepts a message exactly then, and returns what the second box holds. */
  lemma ReadASchedule(c: Suite, p: Party, m: bytes)
    requires p.role.Responder?
    ensures ReadA(c, p, m).result.Ok? <==> AcceptsA(c, p, m)
    ensures AcceptsA(c, p, m) ==>
              var e, box1, box2 := m[..KEY_LEN], m[KEY_LEN..][..SEALED_KEY_LEN], m[KEY_LEN..][SEALED_KEY_LEN..];
              var k1 := c.hkdf(AfterEphemeral(c, p.sym.ck, p.psk, e), Dh(c, p.s, e).value, 0);
              var h2 := c.hash(c.hash(p.sym.h + e) + box1);
              var key := c.hkdf(k1, Dh(c, p.s, p.rs).value, 1);
              ReadA(c, p, m) == Outcome(
                p.(re := e, hasRE := true,
                   sym := Symmetric(c.hash(h2 + box2), c.hkdf(k1, Dh(c, p.s, p.rs).value, 0), Cipher(key, 1, true))),
                Ok(c.open(key, FormatNonce(0), box2, h2).value))
  {
    var o1 := TokenRead(c, p, E, m);
    var o2 := if o1.result.Ok? then TokenRead(c, o1.party, ES, o1.result.value) else o1;
    var o3 := if o2.result.Ok? then TokenRead(c, o2.party, S, o2.result.value) else o2;
    var o4 := if o3.result.Ok? then TokenRead(c, o3.party, SS, o3.result.value) else o3;
    FourReads(c, p, MESSAGE_A, m, o1, o2, o3, o4);
    if |m| >= KEY_LEN {
      EphemeralReadToken(c, p, m);
      DhToken(c, o1.party, ES, None, m[KEY_LEN..]);
      if o2.result.Ok? && |m| >= KEY_LEN + SEALED_KEY_LEN {
        var rest := m[KEY_LEN..];
        FreshOpen(c, o2.party.sym, rest[..SEALED_KEY_LEN]);
        if o3.result.Ok? {
          DhToken(c, o3.party, SS, None, o3.result.value);
          if o4.result.Ok? {
            FreshOpen(c, o4.party.sym, o4.result.value);
          }
        }
      }
    }
  }

  // ---- Message B ----

  /** Under a PSK, three blocks of it go into chaining key, transcript and cipher key. */
  function AfterPsk(c: Suite, s: Symmetric, psk: bytes): Symmetric {
    if psk == [] then s
    else Symmetric(c.hash(s.h + c.hkdf(s.ck, psk, 1)), c.hkdf(s.ck, psk, 0), Cipher(c.hkdf(s.ck, psk, 2), 0, true))
  }

  lemma PskToken(c: Suite, p: Party, entropy: Option<Key>, m: bytes)
    ensures TokenWritten(c, p, Psk, entropy) == Outcome(p.(sym := AfterPsk(c, p.sym, p.psk)), Ok([]))
    ensures TokenRead(c, p, Psk, m) == Outcome(p.(sym := AfterPsk(c, p.sym, p.psk)), Ok(m))
  {}

  /** The state just before the payload of message B. */
  function BeforePayloadB(c: Suite, h: Key, ck: Key, psk: bytes, pubE: Key, ee: Key, se: Key): Symmetric {
    var k1 := c.hkdf(AfterEphemeral(c, ck, psk, pubE), ee, 0);
    AfterPsk(c, Symmetric(c.hash(h + pubE), c.hkdf(k1, se, 0), Cipher(c.hkdf(k1, se, 1), 0, true)), psk)
  }

  function ReferenceB(c: Suite, h: Key, ck: Key, psk: bytes, pubE: Key, ee: Key, se: Key, payload: bytes): (bytes, Symmetric) {
    var s := BeforePayloadB(c, h, ck, psk, pubE, ee, se);
    var box := c.seal(s.cipher.key, FormatNonce(0), payload, s.h);
    (pubE + box, Symmetric(c.hash(s.h + box), s.ck, Cipher(s.cipher.key, 1, true)))
  }

  lemma WriteBSchedule(c: Suite, p: Party, payload: bytes, entropy: Option<Key>)
    requires p.role.Responder? && p.hasRE && SecondSecrets(c, EphemeralKey(p, entropy), p.re, p.rs)
    ensures var e := EphemeralKey(p, entropy).value;
            var (message, sym) := ReferenceB(c, p.sym.h, p.sym.ck, p.psk, PublicFromPrivate(c, e).value,
                                             Dh(c, e, p.re).value, Dh(c, e, p.rs).value, payload);
            WrittenB(c, p, payload, entropy) == Outcome(p.(e := e, hasE := true, sym := sym), Ok(message))
  {
    WriteBSucceeds(c, p, payload, entropy);
    EphemeralSucceeds(c, p, entropy);
    var o1 := TokenWritten(c, p, E, entropy);
    var o2 := TokenWritten(c, o1.party, EE, entropy);
    var o3 := TokenWritten(c, o2.party, SE, entropy);
    var o4 := TokenWritten(c, o3.party, Psk, entropy);
    EphemeralToken(c, p, entropy);
    DhToken(c, o1.party, EE, entropy, []);
    DhToken(c, o2.party, SE, entropy, []);
    PskToken(c, o3.party, entropy, []);
    FreshSeal(c, o4.party.sym, payload);
    FourWrites(c, p, MESSAGE_B, entropy, o1, o2, o3, o4);
    JoinedBytes(o1, o2, o3, o4);
    assert o1.result.value + [] == o1.result.value;
  }

  ghost predicate AcceptsB(c: Suite, p: Party, m: bytes) {
    && |m| >= KEY_LEN
    && var e, box := m[..KEY_LEN], m[KEY_LEN..];
       var ee, se := Dh(c, p.e, e), Dh(c, p.s, e);
    && ee.Some? && se.Some?
    && var s := BeforePayloadB(c, p.sym.h, p.sym.ck, p.psk, e, ee.value, se.value);
       c.open(s.cipher.key, FormatNonce(0), box, s.h).Some?
  }

  lemma ReadBSchedule(c: Suite, p: Party, m: bytes)
    requires p.role.Initiator? && p.hasE
    ensures ReadB(c, p, m).result.Ok? <==> AcceptsB(c, p, m)
    ensures AcceptsB(c, p, m) ==>
              var e, box := m[..KEY_LEN], m[KEY_LEN..];
              var s := BeforePayloadB(c, p.sym.h, p.sym.ck, p.psk, e, Dh(c, p.e, e).value, Dh(c, p.s, e).value);
              ReadB(c, p, m) == Outcome(
                p.(re := e, hasRE := true, sym := Symmetric(c.hash(s.h + box), s.ck, Cipher(s.cipher.key, 1, true))),
                Ok(c.open(s.cipher.key, FormatNonce(0), box, s.h).value))
  {
    var o1 := TokenRead(c, p, E, m);
    var o2 := if o1.result.Ok? then TokenRead(c, o1.party, EE, o1.result.value) else o1;
    var o3 := if o2.result.Ok? then TokenRead(c, o2.party, SE, o2.result.value) else o2;
    var o4 := if o3.result.Ok? then TokenRead(c, o3.party, Psk, o3.result.value) else o3;
    FourReads(c, p, MESSAGE_B, m, o1, o2, o3, o4);
    if |m| >= KEY_LEN {
      EphemeralReadToken(c, p, m);
      DhToken(c, o1.party, EE, None, m[KEY_LEN..]);
      if o2.result.Ok? {
        DhToken(c, o2.party, SE, None, m[KEY_LEN..]);
        if o3.result.Ok? {
          PskToken(c, o3.party, None, m[KEY_LEN..]);
          FreshOpen(c, o4.party.sym, m[KEY_LEN..]);
        }
      }
    }
  }

  /** Calls out of turn are refused and leave no trace. */
  lemma OutOfTurn(c: Suite, p: Party, payload: bytes, entropy: Option<Key>, m: bytes)
    ensures !p.role.Initiator? ==> WrittenA(c, p, payload, entropy).result.Err? && WrittenA(c, p, payload, entropy).party == p
    ensures !p.role.Responder? ==> ReadA(c, p, m).result.Err? && ReadA(c, p, m).party == p
    ensures !p.role.Responder? || !p.hasRE ==> WrittenB(c, p, payload, entropy).result.Err? && WrittenB(c, p, payload, entropy).party == p
    ensures !p.role.Initiator? || !p.hasE ==> ReadB(c, p, m).result.Err? && ReadB(c, p, m).party == p
  {}

  // ---- From keys to transport keys ----

  /** The sending and the receiving key of either side are the two blocks of the final
    chaining key, crosswise, with the nonce at 0. */
  lemma TransportSchedule(c: Suite, p: Party)
    ensures var (send, receive) := TransportOf(c, p);
            && send == Cipher(c.hkdf(p.sym.ck, [], if p.role.Initiator? then 0 else 1), 0, true)
            && receive == Cipher(c.hkdf(p.sym.ck, [], if p.role.Initiator? then 1 else 0), 0, true)
  {}

  /** The whole handshake, from the state of two new sides: both messages and both final
    states are those of the reference, by the four shared secrets and the PSK. */
  lemma HandshakeSchedule(c: Suite, i0: Party, r0: Party, payloadA: bytes, payloadB: bytes, entropyI: Option<Key>, entropyR: Option<Key>)
    requires Lawful(c) && i0.role.Initiator? && InStep(c, i0, r0) && !i0.hasRE && !r0.hasRE
    requires FirstSecrets(c, EphemeralKey(i0, entropyI), i0.s, i0.rs)
    requires var pubE := PublicFromPrivate(c, EphemeralKey(i0, entropyI).value).value;
             SecondSecrets(c, EphemeralKey(r0, entropyR), pubE, r0.rs)
    ensures var x := Exchanged(c, i0, r0, payloadA, payloadB, entropyI, entropyR);
            var eI, eR := EphemeralKey(i0, entropyI).value, EphemeralKey(r0, entropyR).value;
            var pubE := PublicFromPrivate(c, eI).value;
            var (messageA, symA) := ReferenceA(c, i0.sym.h, i0.sym.ck, i0.psk, pubE, PublicFromPrivate(c, i0.s).value,
                                               Dh(c, eI, i0.rs).value, Dh(c, i0.s, i0.rs).value, payloadA);
            var (messageB, symB) := ReferenceB(c, symA.h, symA.ck, i0.psk, PublicFromPrivate(c, eR).value,
                                               Dh(c, eR, pubE).value, Dh(c, eR, r0.rs).value, payloadB);
            && x.a.result == Ok(messageA) && x.a.party.sym == symA && x.gotA.party.sym == symA
            && x.b.result == Ok(messageB) && x.b.party.sym == symB && x.gotB.party.sym == symB
  {
    WriteASchedule(c, i0, payloadA, entropyI);
    var r1 := ResponderReads(c, i0, r0, payloadA, entropyI);
    WriteBSchedule(c, r1, payloadB, entropyR);
    HonestHandshake(c, i0, r0, payloadA, payloadB, entropyI, entropyR);
  }

  lemma ResponderReads(c: Suite, i0: Party, r0: Party, payload: bytes, entropyI: Option<Key>) returns (r1: Party)
    requires Lawful(c) && i0.role.Initiator? && InStep(c, i0, r0) && !i0.hasRE && !r0.hasRE
    requires WrittenA(c, i0, payload, entropyI).result.Ok?
    ensures r1 == ReadA(c, r0, WrittenA(c, i0, payload, entropyI).result.value).party
    ensures r1.sym == WrittenA(c, i0, payload, entropyI).party.sym && r1.role.Responder? && r1.hasRE
    ensures r1.rs == r0.rs && r1.psk == i0.psk && r1.hasE == r0.hasE && r1.e == r0.e
    ensures EphemeralKey(i0, entropyI).Some? && PublicFromPrivate(c, EphemeralKey(i0, entropyI).value) == Some(r1.re)
  {
    r1 := ReadA(c, r0, WrittenA(c, i0, payload, entropyI).result.value).party;
    HonestHandshake(c, i0, r0, payload, [], entropyI, None);
    ResponderAfterA(c, i0, r0, payload, entropyI);
  }
}

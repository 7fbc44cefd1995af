/** The handshake object of pkg/noise/handshake_state.go, whose message methods are
  unrolled by hand, proved equal to the token interpreter of module IKPattern. */
module Handshakes {
  import opened Wrappers
  import opened Crypto
  import opened CipherStates
  import opened SymmetricStates
  import opened IKPattern

  class HandshakeState {
    const suite: Suite
    const ss: SymmetricState
    const role: Role
    const s: Key
    const rs: Key
    const psk: bytes
    var e: Key
    var re: Key
    var hasE: bool
    var hasRE: bool

    ghost predicate Valid()
      reads this, ss, ss.cs
    {
      ss.suite == suite && ss.Valid()
    }

    ghost function View(): Party
      reads this, ss, ss.cs
    {
      Party(role, s, e, rs, re, hasE, hasRE, psk, ss.View())
    }

    /** The state that Started computes, once its checks have passed. */
    constructor (suite: Suite, role: Role, s: Key, rs: Key, psk: bytes)
      requires Started(suite, role, s, rs, psk).Ok?
      ensures Valid() && fresh(ss) && fresh(ss.cs) && this.suite == suite
      ensures View() == Started(suite, role, s, rs, psk).value
    {
      this.suite, this.role, this.s, this.rs, this.psk := suite, role, s, rs, psk;
      e, re, hasE, hasRE := ZERO_KEY, ZERO_KEY, false, false;
      ss := new SymmetricState(suite, ProtocolName());
      new;
      var localPub := PublicFromPrivate(suite, s).value;
      if role.Initiator? {
        ss.MixHash(localPub);
        ss.MixHash(rs);
      } else {
        ss.MixHash(rs);
        ss.MixHash(localPub);
      }
    }

    method SetEphemeral(priv: Key)
      requires Valid()
      modifies this
      ensures Valid() && View() == old(View()).(e := priv, hasE := true)
    {
      e, hasE := priv, true;
    }

    /** The e token, written; entropy is what the random source returns, None when
      reading it fails. */
    method WriteEphemeral(entropy: Option<Key>) returns (r: Result<bytes, Error>)
      requires Valid()
      modifies this, ss, ss.cs
      ensures Valid() && Outcome(View(), r) == TokenWritten(suite, old(View()), E, entropy)
      ensures r.Ok? ==> |r.value| == KEY_LEN
    {
      if !hasE {
        if entropy.None? {
          return Err(NoEntropy);
        }
        e, hasE := Clamp(entropy.value), true;
      }
      var ePub := PublicFromPrivate(suite, e);
      if ePub.None? {
        return Err(LowOrderPoint);
      }
      ss.MixHash(ePub.value);
      if |psk| > 0 {
        ss.MixKey(ePub.value);
      }
      return Ok(ePub.value);
    }

    method ReadEphemeral(message: bytes) returns (r: Result<bytes, Error>)
      requires Valid()
      modifies this, ss, ss.cs
      ensures Valid() && Outcome(View(), r) == TokenRead(suite, old(View()), E, message)
    {
      if |message| < KEY_LEN {
        return Err(MessageTooShort);
      }
      re := message[..KEY_LEN];
      hasRE := true;
      ss.MixHash(re);
      if |psk| > 0 {
        ss.MixKey(re);
      }
      return Ok(message[KEY_LEN..]);
    }

    /** dh followed by MixKey, for the token whose key pair the caller passes. */
    method MixDh(priv: Key, pub: Key, ghost t: Token, ghost entropy: Option<Key>, ghost m: bytes) returns (ok: bool)
      requires Valid() && t in {EE, ES, SE, SS} && DhPair(View(), t) == (priv, pub)
      modifies ss, ss.cs
      ensures Valid()
      ensures Outcome(View(), if ok then Ok([]) else Err(LowOrderPoint)) == TokenWritten(suite, old(View()), t, entropy)
      ensures Outcome(View(), if ok then Ok(m) else Err(LowOrderPoint)) == TokenRead(suite, old(View()), t, m)
    {
      var secret := Dh(suite, priv, pub);
      ok := secret.Some?;
      if ok {
        ss.MixKey(secret.value);
      }
    }

    method WriteStatic(ghost entropy: Option<Key>) returns (r: Result<bytes, Error>)
      requires Valid()
      modifies ss, ss.cs
      ensures Valid() && Outcome(View(), r) == TokenWritten(suite, old(View()), S, entropy)
    {
      var sPub := PublicFromPrivate(suite, s);
      if sPub.None? {
        return Err(LowOrderPoint);
      }
      r := ss.EncryptAndHash(sPub.value);
    }

    method ReadStatic(message: bytes) returns (r: Result<bytes, Error>)
      requires Valid()
      modifies ss, ss.cs
      ensures Valid() && Outcome(View(), r) == TokenRead(suite, old(View()), S, message)
    {
      var n := EncryptedLen(KEY_LEN, ss.cs.hasKey);
      if |message| < n {
        return Err(MessageTooShort);
      }
      var remoteStatic := ss.DecryptAndHash(message[..n]);
      if remoteStatic.Err? {
        return remoteStatic;
      }
      if |remoteStatic.value| != KEY_LEN {
        return Err(InvalidKeyLength);
      }
      if remoteStatic.value != rs {
        return Err(StaticKeyMismatch);
      }
      return Ok(message[n..]);
    }

    method MixPsk()
      requires Valid()
      modifies ss, ss.cs
      ensures Valid() && View() == PskMixed(suite, old(View()))
    {
      if |psk| > 0 {
        ss.MixKeyAndHash(psk);
      }
    }

    method WriteMessageA(payload: bytes, entropy: Option<Key>) returns (r: Result<bytes, Error>)
      requires Valid()
      modifies this, ss, ss.cs
      ensures Valid() && Outcome(View(), r) == WrittenA(suite, old(View()), payload, entropy)
    {
      if !role.Initiator? {
        return Err(InvalidRole);
      }
      ghost var p := View();
      var ePub := WriteEphemeral(entropy);
      ghost var o1 := Outcome(View(), ePub);
      if ePub.Err? {
        FourWrites(suite, p, MESSAGE_A, entropy, o1, o1, o1, o1);
        return ePub;
      }
      var ok := MixDh(e, rs, ES, entropy, []);
      ghost var o2 := Outcome(View(), if ok then Ok([]) else Err(LowOrderPoint));
      if !ok {
        FourWrites(suite, p, MESSAGE_A, entropy, o1, o2, o2, o2);
        return Err(LowOrderPoint);
      }
      var encryptedStatic := WriteStatic(entropy);
      ghost var o3 := Outcome(View(), encryptedStatic);
      if encryptedStatic.Err? {
        FourWrites(suite, p, MESSAGE_A, entropy, o1, o2, o3, o3);
        return encryptedStatic;
      }
      ok := MixDh(s, rs, SS, entropy, []);
      ghost var o4 := Outcome(View(), if ok then Ok([]) else Err(LowOrderPoint));
      FourWrites(suite, p, MESSAGE_A, entropy, o1, o2, o3, o4);
      if !ok {
        return Err(LowOrderPoint);
      }
      JoinedBytes(o1, o2, o3, o4);
      var encryptedPayload := ss.EncryptAndHash(payload);
      if encryptedPayload.Err? {
        return encryptedPayload;
      }
      return Ok(ePub.value + encryptedStatic.value + encryptedPayload.value);
    }

    method ReadMessageA(message: bytes) returns (r: Result<bytes, Error>)
      requires Valid()
      modifies this, ss, ss.cs
      ensures Valid() && Outcome(View(), r) == ReadA(suite, old(View()), message)
    {
      if !role.Responder? {
        return Err(InvalidRole);
      }
      ghost var p := View();
      var rest := ReadEphemeral(message);
      ghost var o1 := Outcome(View(), rest);
      if rest.Err? {
        FourReads(suite, p, MESSAGE_A, message, o1, o1, o1, o1);
        return rest;
      }
      var ok := MixDh(s, re, ES, None, rest.value);
      ghost var o2 := Outcome(View(), if ok then rest else Err(LowOrderPoint));
      if !ok {
        FourReads(suite, p, MESSAGE_A, message, o1, o2, o2, o2);
        return Err(LowOrderPoint);
      }
      var sealed := ReadStatic(rest.value);
      ghost var o3 := Outcome(View(), sealed);
      if sealed.Err? {
        FourReads(suite, p, MESSAGE_A, message, o1, o2, o3, o3);
        return sealed;
      }
      ok := MixDh(s, rs, SS, None, sealed.value);
      FourReads(suite, p, MESSAGE_A, message, o1, o2, o3, Outcome(View(), if ok then sealed else Err(LowOrderPoint)));
      if !ok {
        return Err(LowOrderPoint);
      }
      r := ss.DecryptAndHash(sealed.value);
    }

    method WriteMessageB(payload: bytes, entropy: Option<Key>) returns (r: Result<bytes, Error>)
      requires Valid()
      modifies this, ss, ss.cs
      ensures Valid() && Outcome(View(), r) == WrittenB(suite, old(View()), payload, entropy)
    {
      if !role.Responder? {
        return Err(InvalidRole);
      }
      if !hasRE {
        return Err(NoRemoteEphemeral);
      }
      ghost var p := View();
      var ePub := WriteEphemeral(entropy);
      ghost var o1 := Outcome(View(), ePub);
      if ePub.Err? {
        FourWrites(suite, p, MESSAGE_B, entropy, o1, o1, o1, o1);
        return ePub;
      }
      var ok := MixDh(e, re, EE, entropy, []);
      ghost var o2 := Outcome(View(), if ok then Ok([]) else Err(LowOrderPoint));
      if !ok {
        FourWrites(suite, p, MESSAGE_B, entropy, o1, o2, o2, o2);
        return Err(LowOrderPoint);
      }
      ok := MixDh(e, rs, SE, entropy, []);
      ghost var o3 := Outcome(View(), if ok then Ok([]) else Err(LowOrderPoint));
      if !ok {
        FourWrites(suite, p, MESSAGE_B, entropy, o1, o2, o3, o3);
        return Err(LowOrderPoint);
      }
      MixPsk();
      ghost var o4 := Outcome(View(), Ok([]));
      FourWrites(suite, p, MESSAGE_B, entropy, o1, o2, o3, o4);
      JoinedBytes(o1, o2, o3, o4);
      assert ePub.value + [] == ePub.value;
      var encryptedPayload := ss.EncryptAndHash(payload);
      if encryptedPayload.Err? {
        return encryptedPayload;
      }
      return Ok(ePub.value + encryptedPayload.value);
    }

    method ReadMessageB(message: bytes) returns (r: Result<bytes, Error>)
      requires Valid()
      modifies this, ss, ss.cs
      ensures Valid() && Outcome(View(), r) == ReadB(suite, old(View()), message)
    {
      if !role.Initiator? {
        return Err(InvalidRole);
      }
      if !hasE {
        return Err(NoLocalEphemeral);
      }
      ghost var p := View();
      var rest := ReadEphemeral(message);
      ghost var o1 := Outcome(View(), rest);
      if rest.Err? {
        FourReads(suite, p, MESSAGE_B, message, o1, o1, o1, o1);
        return rest;
      }
      var ok := MixDh(e, re, EE, None, rest.value);
      ghost var o2 := Outcome(View(), if ok then rest else Err(LowOrderPoint));
      if !ok {
        FourReads(suite, p, MESSAGE_B, message, o1, o2, o2, o2);
        return Err(LowOrderPoint);
      }
      ok := MixDh(s, re, SE, None, rest.value);
      ghost var o3 := Outcome(View(), if ok then rest else Err(LowOrderPoint));
      if !ok {
        FourReads(suite, p, MESSAGE_B, message, o1, o2, o3, o3);
        return Err(LowOrderPoint);
      }
      MixPsk();
      FourReads(suite, p, MESSAGE_B, message, o1, o2, o3, Outcome(View(), rest));
      r := ss.DecryptAndHash(rest.value);
    }

    /** Send cipher first, receive cipher second. */
    method Transport() returns (send: CipherState, receive: CipherState)
      requires Valid()
      ensures fresh(send) && fresh(receive) && send != receive && send.Valid() && receive.Valid()
      ensures (send.View(), receive.View()) == TransportOf(suite, View())
    {
      var c1, c2 := ss.Split();
      if role.Initiator? {
        return c1, c2;
      }
      return c2, c1;
    }
  }

  /** NewHandshakeState: an object, or the error of the check that failed. */
  method NewHandshakeState(c: Suite, role: Role, s: Key, rs: Key, psk: bytes) returns (hs: Result<HandshakeState, Error>)
    ensures hs.Ok? <==> Started(c, role, s, rs, psk).Ok?
    ensures hs.Err? ==> hs.error == Started(c, role, s, rs, psk).error
    ensures hs.Ok? ==> fresh(hs.value) && hs.value.Valid() && hs.value.View() == Started(c, role, s, rs, psk).value
  {
    if |psk| > 0 && |psk| != KEY_LEN {
      return Err(InvalidPsk);
    }
    if PublicFromPrivate(c, s).None? {
      return Err(LowOrderPoint);
    }
    var state := new HandshakeState(c, role, s, rs, psk);
    return Ok(state);
  }

  /** A side ready for its first message: a given ephemeral key is set. */
  method Prepare(c: Suite, role: Role, s: Key, rs: Key, psk: bytes, injected: Option<Key>) returns (hs: HandshakeState)
    requires Started(c, role, s, rs, psk).Ok?
    ensures fresh(hs) && fresh(hs.ss) && fresh(hs.ss.cs) && hs.Valid() && hs.suite == c
    ensures hs.View() == Prepared(c, role, s, rs, psk, injected)
  {
    hs := new HandshakeState(c, role, s, rs, psk);
    if injected.Some? {
      hs.SetEphemeral(injected.value);
    }
  }

  /** The four calls of a handshake, over two objects. */
  method RunExchange(i: HandshakeState, r: HandshakeState, payloadA: bytes, payloadB: bytes,
                     entropyI: Option<Key>, entropyR: Option<Key>)
      returns (gotA: Result<bytes, Error>, gotB: Result<bytes, Error>)
    requires i.Valid() && r.Valid() && i.suite == r.suite && i != r && i.ss != r.ss && i.ss.cs != r.ss.cs
    modifies i, i.ss, i.ss.cs, r, r.ss, r.ss.cs
    ensures var x := Exchanged(i.suite, old(i.View()), old(r.View()), payloadA, payloadB, entropyI, entropyR);
            && (gotA == if x.a.result.Ok? then x.gotA.result else x.a.result)
            && (gotB == if x.a.result.Err? then x.a.result else if x.b.result.Err? then x.b.result else x.gotB.result)
            && (x.a.result.Ok? && x.b.result.Ok? ==> i.View() == x.gotB.party && r.View() == x.b.party)
  {
    var messageA := i.WriteMessageA(payloadA, entropyI);
    if messageA.Err? {
      return messageA, messageA;
    }
    gotA := r.ReadMessageA(messageA.value);
    gotB := r.WriteMessageB(payloadB, entropyR);
    if gotB.Ok? {
      gotB := i.ReadMessageB(gotB.value);
    }
  }

  /** A whole honest run over two objects, with given or generated ephemeral keys: each
    message gets through exactly when the shared secrets it needs exist, with its payload,
    and in the end both sides hold the same hash, chaining key, cipher key and nonce. */
  method RunHandshake(c: Suite, sI: Key, sR: Key, psk: bytes, injectI: Option<Key>, injectR: Option<Key>,
                      entropyI: Option<Key>, entropyR: Option<Key>, payloadA: bytes, payloadB: bytes)
      returns (gotA: Result<bytes, Error>, gotB: Result<bytes, Error>, ghost endI: Party, ghost endR: Party)
    requires Lawful(c) && (psk == [] || |psk| == KEY_LEN)
    requires PublicFromPrivate(c, sI).Some? && PublicFromPrivate(c, sR).Some?
    ensures gotA.Ok? <==> FirstSecrets(c, Ephemeral(injectI, entropyI), sI, PublicFromPrivate(c, sR).value)
    ensures gotB.Ok? <==> gotA.Ok? && SecondSecrets(c, Ephemeral(injectR, entropyR),
                            PublicFromPrivate(c, Ephemeral(injectI, entropyI).value).value, PublicFromPrivate(c, sI).value)
    ensures gotA.Ok? ==> gotA.value == payloadA
    ensures gotB.Ok? ==> gotB.value == payloadB && endI.sym == endR.sym
  {
    var pubI, pubR := PublicFromPrivate(c, sI).value, PublicFromPrivate(c, sR).value;
    StartedInStep(c, sI, sR, pubI, pubR, psk);
    var i := Prepare(c, Initiator, sI, pubR, psk, injectI);
    var r := Prepare(c, Responder, sR, pubI, psk, injectR);
    HandshakeCompletes(c, i.View(), r.View(), payloadA, payloadB, entropyI, entropyR);
    gotA, gotB := RunExchange(i, r, payloadA, payloadB, entropyI, entropyR);
    endI, endR := i.View(), r.View();
  }
}

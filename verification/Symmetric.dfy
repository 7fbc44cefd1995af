/** Handshake hash and chaining key: pkg/noise/symmetric_state.go. */
module SymmetricStates {
  import opened Wrappers
  import opened Crypto
  import opened CipherStates

  /** HKDF yields at most 255 blocks (section 2.3 of RFC 5869). */
  const MAX_BLOCKS: nat := 255

  /** The value of a SymmetricState. */
  datatype Symmetric = Symmetric(h: Key, ck: Key, cipher: Cipher)

  function Named(c: Suite, name: bytes): Symmetric {
    var h := if |name| > KEY_LEN then c.hash(name) else name + ZERO_KEY[|name|..];
    Symmetric(h, h, UNKEYED)
  }

  function HashMixed(c: Suite, s: Symmetric, data: bytes): Symmetric {
    s.(h := c.hash(s.h + data))
  }

  function KeyMixed(c: Suite, s: Symmetric, input: bytes): Symmetric {
    s.(ck := c.hkdf(s.ck, input, 0), cipher := Keyed(c.hkdf(s.ck, input, 1)))
  }

  function KeyAndHashMixed(c: Suite, s: Symmetric, input: bytes): Symmetric {
    HashMixed(c, s, c.hkdf(s.ck, input, 1))
      .(ck := c.hkdf(s.ck, input, 0), cipher := Keyed(c.hkdf(s.ck, input, 2)))
  }

  function HashEncrypted(c: Suite, s: Symmetric, plaintext: bytes): (Symmetric, Result<bytes, Error>) {
    var (cipher, r) := Encrypted(c, s.cipher, s.h, plaintext);
    (if r.Ok? then HashMixed(c, s.(cipher := cipher), r.value) else s.(cipher := cipher), r)
  }

  function HashDecrypted(c: Suite, s: Symmetric, ciphertext: bytes): (Symmetric, Result<bytes, Error>) {
    var (cipher, r) := Decrypted(c, s.cipher, s.h, ciphertext);
    (if r.Ok? then HashMixed(c, s.(cipher := cipher), ciphertext) else s.(cipher := cipher), r)
  }

  function SplitCiphers(c: Suite, s: Symmetric): (Cipher, Cipher) {
    (Keyed(c.hkdf(s.ck, [], 0)), Keyed(c.hkdf(s.ck, [], 1)))
  }

  function EncryptedLen(plainLen: nat, keyed: bool): nat {
    if keyed then plainLen + TAG_LEN else plainLen
  }

  /** A reader in the writer's state recovers what was written and follows it to the
    same new state; the ciphertext has the length the reader cuts off. */
  lemma EncryptedIsDecrypted(c: Suite, s: Symmetric, plaintext: bytes)
    requires SealOpens(c) && HashEncrypted(c, s, plaintext).1.Ok?
    ensures var (after, sealed) := HashEncrypted(c, s, plaintext);
            && HashDecrypted(c, s, sealed.value) == (after, Ok(plaintext))
            && |sealed.value| == EncryptedLen(|plaintext|, s.cipher.hasKey)
  {}

  /** A rejected ciphertext leaves nonce, key, chaining key and transcript hash as
    they were. */
  lemma RejectedChangesNothing(c: Suite, s: Symmetric, ciphertext: bytes)
    requires HashDecrypted(c, s, ciphertext).1.Err?
    ensures HashDecrypted(c, s, ciphertext).0 == s
  {}

  method HkdfMaterial(c: Suite, ck: Key, input: bytes, parts: int) returns (r: Result<seq<Key>, Error>)
    ensures r.Ok? <==> 0 < parts <= MAX_BLOCKS
    ensures r.Ok? ==> |r.value| == parts && forall i :: 0 <= i < parts ==> r.value[i] == c.hkdf(ck, input, i)
  {
    if parts <= 0 {
      return Err(InvalidParts);
    }
    var blocks: seq<Key> := [];
    for n := 0 to parts
      invariant |blocks| == n <= MAX_BLOCKS
      invariant forall i :: 0 <= i < n ==> blocks[i] == c.hkdf(ck, input, i)
    {
      if n == MAX_BLOCKS {
        return Err(InvalidParts);
      }
      blocks := blocks + [c.hkdf(ck, input, n)];
    }
    return Ok(blocks);
  }

  class SymmetricState {
    const suite: Suite
    const cs: CipherState
    var ck: Key
    var h: Key

    ghost predicate Valid()
      reads this, cs
    {
      cs.suite == suite && cs.Valid()
    }

    ghost function View(): Symmetric
      reads this, cs
    {
      Symmetric(h, ck, cs.View())
    }

    constructor (suite: Suite, protocolName: bytes)
      ensures Valid() && fresh(cs) && this.suite == suite && View() == Named(suite, protocolName)
    {
      this.suite := suite;
      cs := new CipherState(suite);
      var start: Key := if |protocolName| > KEY_LEN then suite.hash(protocolName)
                        else protocolName + ZERO_KEY[|protocolName|..];
      h, ck := start, start;
    }

    method MixHash(data: bytes)
      requires Valid()
      modifies this
      ensures Valid() && View() == HashMixed(suite, old(View()), data)
    {
      h := suite.hash(h + data);
    }

    method MixKey(input: bytes)
      requires Valid()
      modifies this, cs
      ensures Valid() && View() == KeyMixed(suite, old(View()), input)
    {
      var material := HkdfMaterial(suite, ck, input, 2);
      ck := material.value[0];
      var _ := cs.InitializeKey(material.value[1]);
    }

    method MixKeyAndHash(input: bytes)
      requires Valid()
      modifies this, cs
      ensures Valid() && View() == KeyAndHashMixed(suite, old(View()), input)
    {
      var material := HkdfMaterial(suite, ck, input, 3);
      ck := material.value[0];
      MixHash(material.value[1]);
      var _ := cs.InitializeKey(material.value[2]);
    }

    method EncryptAndHash(plaintext: bytes) returns (r: Result<bytes, Error>)
      requires Valid()
      modifies this, cs
      ensures Valid() && (View(), r) == HashEncrypted(suite, old(View()), plaintext)
    {
      r := cs.EncryptWithAd(h, plaintext);
      if r.Ok? {
        MixHash(r.value);
      }
    }

    method DecryptAndHash(ciphertext: bytes) returns (r: Result<bytes, Error>)
      requires Valid()
      modifies this, cs
      ensures Valid() && (View(), r) == HashDecrypted(suite, old(View()), ciphertext)
    {
      r := cs.DecryptWithAd(h, ciphertext);
      if r.Ok? {
        MixHash(ciphertext);
      }
    }

    method Split() returns (c1: CipherState, c2: CipherState)
      requires Valid()
      ensures fresh(c1) && fresh(c2) && c1 != c2 && c1.Valid() && c2.Valid()
      ensures c1.suite == suite && c2.suite == suite
      ensures (c1.View(), c2.View()) == SplitCiphers(suite, View())
    {
      var material := HkdfMaterial(suite, ck, [], 2);
      c1 := new CipherState(suite);
      var _ := c1.InitializeKey(material.value[0]);
      c2 := new CipherState(suite);
      var _ := c2.InitializeKey(material.value[1]);
    }
  }
}

/** One traffic direction: pkg/noise/cipher_state.go. */
module CipherStates {
  import opened Words
  import opened Wrappers
  import opened Crypto

  const MAX_NONCE: uint64 := 0xFFFF_FFFF_FFFF_FFFF

  /** The value of a CipherState. */
  datatype Cipher = Cipher(key: Key, nonce: uint64, hasKey: bool)

  const UNKEYED: Cipher := Cipher(ZERO_KEY, 0, false)

  function Keyed(key: Key): Cipher {
    Cipher(key, 0, true)
  }

  function Initialized(cs: Cipher, key: bytes): (Cipher, Result<(), Error>) {
    if |key| == 0 then (UNKEYED, Ok(()))
    else if |key| != KEY_LEN then (cs, Err(InvalidKeyLength))
    else (Keyed(key), Ok(()))
  }

  /** The arguments of a call of the AEAD's Seal. */
  datatype Seal = Seal(key: Key, nonce: bytes, plaintext: bytes, ad: bytes) {
    function Output(c: Suite): bytes {
      c.seal(key, nonce, plaintext, ad)
    }
  }

  function FrameSeal(cs: Cipher, ad: bytes, plaintext: bytes): Seal {
    Seal(cs.key, FormatNonce(cs.nonce), plaintext, ad)
  }

  function RekeySeal(cs: Cipher): Seal {
    Seal(cs.key, FormatNonce(MAX_NONCE), ZERO_KEY, [])
  }

  function Encrypted(c: Suite, cs: Cipher, ad: bytes, plaintext: bytes): (Cipher, Result<bytes, Error>) {
    if !cs.hasKey then (cs, Ok(plaintext))
    else if cs.nonce == MAX_NONCE then (cs, Err(NonceExhausted))
    else (cs.(nonce := cs.nonce + 1), Ok(FrameSeal(cs, ad, plaintext).Output(c)))
  }

  function Decrypted(c: Suite, cs: Cipher, ad: bytes, ciphertext: bytes): (Cipher, Result<bytes, Error>) {
    if !cs.hasKey then (cs, Ok(ciphertext))
    else if cs.nonce == MAX_NONCE then (cs, Err(NonceExhausted))
    else
      match c.open(cs.key, FormatNonce(cs.nonce), ciphertext, ad)
      case None => (cs, Err(OpenFailed))
      case Some(p) => (cs.(nonce := cs.nonce + 1), Ok(p))
  }

  function Rekeyed(c: Suite, cs: Cipher): (Cipher, Result<(), Error>) {
    if !cs.hasKey then (cs, Err(NotKeyed))
    else
      var material := RekeySeal(cs).Output(c);
      if |material| < KEY_LEN then (cs, Err(InvalidKeyLength))
      else (Keyed(material[..KEY_LEN]), Ok(()))
  }

  /** What a cipher can be asked to do. */
  datatype Op = Encrypt(ad: bytes, plaintext: bytes) | Decrypt(ad: bytes, ciphertext: bytes) | Rekey

  /** A Seal with the key epoch it was made in, and whether a rekey made it.  An epoch
    lasts from one InitializeKey to the next. */
  datatype Sealing = Sealing(epoch: nat, seal: Seal, byRekey: bool)

  function Applied(c: Suite, cs: Cipher, op: Op): Cipher {
    match op
    case Encrypt(ad, p) => Encrypted(c, cs, ad, p).0
    case Decrypt(ad, ct) => Decrypted(c, cs, ad, ct).0
    case Rekey => Rekeyed(c, cs).0
  }

  function EpochAfter(c: Suite, cs: Cipher, epoch: nat, op: Op): nat {
    if op.Rekey? && Rekeyed(c, cs).1.Ok? then epoch + 1 else epoch
  }

  /** The Seal calls of one operation. */
  function SealingsOf(cs: Cipher, epoch: nat, op: Op): seq<Sealing> {
    if !cs.hasKey then []
    else
      match op
      case Encrypt(ad, p) => if cs.nonce == MAX_NONCE then [] else [Sealing(epoch, FrameSeal(cs, ad, p), false)]
      case Decrypt(_, _) => []
      case Rekey => [Sealing(epoch, RekeySeal(cs), true)]
  }

  class CipherState {
    const suite: Suite
    var key: Key
    var nonce: uint64
    var hasKey: bool
    var aead: Option<Key>  // the AEAD instance, identified by the key it was built from
    ghost var epoch: nat
    ghost var log: seq<Sealing>  // every Seal ever made, in order

    ghost predicate Valid()
      reads this
    {
      aead == if hasKey then Some(key) else None
    }

    ghost function View(): Cipher
      reads this
    {
      Cipher(key, nonce, hasKey)
    }

    constructor (suite: Suite)
      ensures Valid() && View() == UNKEYED && this.suite == suite && log == []
    {
      this.suite := suite;
      key, nonce, hasKey, aead := ZERO_KEY, 0, false, None;
      epoch, log := 0, [];
    }

    method InitializeKey(k: bytes) returns (r: Result<(), Error>)
      requires Valid()
      modifies this
      ensures Valid() && (View(), r) == Initialized(old(View()), k)
      ensures |k| == KEY_LEN ==> r.Ok? && hasKey && key == k && nonce == 0
      ensures |k| == 0 ==> r.Ok? && !hasKey
      ensures |k| != 0 && |k| != KEY_LEN ==> r.Err? && View() == old(View())
      ensures log == old(log) && epoch == old(epoch) + (if r.Ok? then 1 else 0)
    {
      if |k| == 0 {
        key, nonce, hasKey, aead := ZERO_KEY, 0, false, None;
        epoch := epoch + 1;
        return Ok(());
      }
      if |k| != KEY_LEN {
        return Err(InvalidKeyLength);
      }
      key := k;
      aead := Some(key);
      hasKey := true;
      nonce := 0;
      epoch := epoch + 1;
      return Ok(());
    }

    method SetNonce(n: uint64)
      requires Valid()
      modifies this
      ensures Valid() && View() == old(View()).(nonce := n) && log == old(log) && epoch == old(epoch)
    {
      nonce := n;
    }

    /** The only place where the AEAD seals, so the log misses nothing. */
    method SealWith(n: bytes, plaintext: bytes, ad: bytes, ghost byRekey: bool) returns (sealed: bytes)
      requires Valid() && hasKey
      modifies this`log
      ensures sealed == Seal(key, n, plaintext, ad).Output(suite)
      ensures log == old(log) + [Sealing(epoch, Seal(key, n, plaintext, ad), byRekey)]
    {
      sealed := suite.seal(aead.value, n, plaintext, ad);
      log := log + [Sealing(epoch, Seal(aead.value, n, plaintext, ad), byRekey)];
    }

    method EncryptWithAd(ad: bytes, plaintext: bytes) returns (r: Result<bytes, Error>)
      requires Valid()
      modifies this
      ensures Valid() && (View(), r) == Encrypted(suite, old(View()), ad, plaintext)
      ensures old(hasKey) && r.Ok? ==>
                && r.value == suite.seal(old(key), FormatNonce(old(nonce)), plaintext, ad)
                && nonce == old(nonce) + 1 && key == old(key) && hasKey
      ensures r.Err? <==> old(hasKey) && old(nonce) == MAX_NONCE
      ensures !old(hasKey) ==> r == Ok(plaintext)
      ensures epoch == old(epoch) && log == old(log) + SealingsOf(old(View()), epoch, Encrypt(ad, plaintext))
    {
      if !hasKey {
        return Ok(plaintext);
      }
      if nonce == MAX_NONCE {
        return Err(NonceExhausted);
      }
      var ciphertext := SealWith(FormatNonce(nonce), plaintext, ad, false);
      nonce := nonce + 1;
      return Ok(ciphertext);
    }

    method DecryptWithAd(ad: bytes, ciphertext: bytes) returns (r: Result<bytes, Error>)
      requires Valid()
      modifies this
      ensures Valid() && (View(), r) == Decrypted(suite, old(View()), ad, ciphertext)
      ensures old(hasKey) && r.Ok? ==>
                && suite.open(old(key), FormatNonce(old(nonce)), ciphertext, ad) == Some(r.value)
                && nonce == old(nonce) + 1 && key == old(key) && hasKey
      ensures r.Err? <==> && old(hasKey)
                          && (old(nonce) == MAX_NONCE || suite.open(old(key), FormatNonce(old(nonce)), ciphertext, ad).None?)
      ensures r.Err? ==> View() == old(View())
      ensures epoch == old(epoch) && log == old(log)
    {
      if !hasKey {
        return Ok(ciphertext);
      }
      if nonce == MAX_NONCE {
        return Err(NonceExhausted);
      }
      var plaintext := suite.open(aead.value, FormatNonce(nonce), ciphertext, ad);
      if plaintext.None? {
        return Err(OpenFailed);
      }
      nonce := nonce + 1;
      return Ok(plaintext.value);
    }

    method Rekey() returns (r: Result<(), Error>)
      requires Valid()
      modifies this
      ensures Valid() && (View(), r) == Rekeyed(suite, old(View()))
      ensures old(hasKey) && SealOpens(suite) ==>
                && |suite.seal(old(key), FormatNonce(MAX_NONCE), ZERO_KEY, [])| >= KEY_LEN
                && key == suite.seal(old(key), FormatNonce(MAX_NONCE), ZERO_KEY, [])[..KEY_LEN]
                && r.Ok? && nonce == 0 && hasKey
      ensures epoch == EpochAfter(suite, old(View()), old(epoch), Op.Rekey)
      ensures log == old(log) + SealingsOf(old(View()), old(epoch), Op.Rekey)
    {
      if !hasKey {
        return Err(NotKeyed);
      }
      var material := SealWith(FormatNonce(MAX_NONCE), ZERO_KEY, [], true);
      if |material| < KEY_LEN {
        return Err(InvalidKeyLength);
      }
      r := InitializeKey(material[..KEY_LEN]);
    }

    method Perform(op: Op)
      requires Valid()
      modifies this
      ensures Valid() && View() == Applied(suite, old(View()), op)
      ensures epoch == EpochAfter(suite, old(View()), old(epoch), op)
      ensures log == old(log) + SealingsOf(old(View()), old(epoch), op)
    {
      match op
      case Encrypt(ad, p) => var _ := EncryptWithAd(ad, p);
      case Decrypt(ad, ct) => var _ := DecryptWithAd(ad, ct);
      case Rekey => var _ := this.Rekey();
    }

    /** Any run of operations: what is sealed along it never repeats a nonce within an
      epoch. */
    method PerformAll(ops: seq<Op>)
      requires Valid() && SealOpens(suite)
      modifies this
      ensures Valid()
      ensures log == old(log) + Sealings(suite, old(View()), old(epoch), ops)
      ensures NoncesDistinct(log[|old(log)|..])
    {
      NonceNeverReused(suite, View(), epoch, ops);
      ghost var all := log + Sealings(suite, View(), epoch, ops);
      assert ops[0..] == ops;
      for i := 0 to |ops|
        invariant Valid()
        invariant log + Sealings(suite, View(), epoch, ops[i..]) == all
      {
        assert ops[i..][1..] == ops[i + 1..];
        Perform(ops[i]);
      }
      assert log == all;
    }
  }

  // ---- Nonce discipline over whole runs ----

  /** The Seal calls of a whole run, in order. */
  function Sealings(c: Suite, cs: Cipher, epoch: nat, ops: seq<Op>): seq<Sealing>
    decreases |ops|
  {
    if ops == [] then []
    else
      SealingsOf(cs, epoch, ops[0])
      + Sealings(c, Applied(c, cs, ops[0]), EpochAfter(c, cs, epoch, ops[0]), ops[1..])
  }

  /** What every Seal of a run from nonce n in an epoch looks like. */
  ghost predicate LaterThan(s: Sealing, epoch: nat, n: nat) {
    && epoch <= s.epoch
    && (s.byRekey <==> s.seal.nonce == FormatNonce(MAX_NONCE))
    && (s.epoch == epoch && !s.byRekey ==> exists m: uint64 :: n <= m < MAX_NONCE && s.seal.nonce == FormatNonce(m))
  }

  /** No 12-byte nonce is sealed twice in one epoch, and the nonce 2^64 - 1 only by a
    rekey, as the epoch's last. */
  ghost predicate NoncesDistinct(log: seq<Sealing>) {
    && (forall s :: s in log ==> (s.byRekey <==> s.seal.nonce == FormatNonce(MAX_NONCE)))
    && forall i, j :: 0 <= i < j < |log| && log[i].epoch == log[j].epoch ==>
         log[i].seal.nonce != log[j].seal.nonce && !log[i].byRekey
  }

  lemma HeadIsLater(cs: Cipher, epoch: nat, op: Op, s: Sealing)
    requires s in SealingsOf(cs, epoch, op)
    ensures LaterThan(s, epoch, cs.nonce)
  {
    if op.Encrypt? && FormatNonce(cs.nonce) == FormatNonce(MAX_NONCE) {
      FormatNonceInjective(cs.nonce, MAX_NONCE);
    }
  }

  /** An operation opens a new epoch, or stays in its epoch without going back. */
  lemma EpochAdvances(c: Suite, cs: Cipher, epoch: nat, op: Op)
    ensures var next := EpochAfter(c, cs, epoch, op);
            next > epoch || (next == epoch && cs.nonce <= Applied(c, cs, op).nonce)
  {}

  lemma LaterWeakens(s: Sealing, next: nat, m: nat, epoch: nat, n: nat)
    requires LaterThan(s, next, m) && (next > epoch || (next == epoch && n <= m))
    ensures LaterThan(s, epoch, n)
  {}

  lemma {:induction false} SealingsAreLater(c: Suite, cs: Cipher, epoch: nat, ops: seq<Op>)
    requires SealOpens(c)
    ensures forall s :: s in Sealings(c, cs, epoch, ops) ==> LaterThan(s, epoch, cs.nonce)
    decreases |ops|
  {
    if ops != [] {
      SealingsAreLater(c, Applied(c, cs, ops[0]), EpochAfter(c, cs, epoch, ops[0]), ops[1..]);
      EpochAdvances(c, cs, epoch, ops[0]);
      forall s | s in Sealings(c, cs, epoch, ops)
        ensures LaterThan(s, epoch, cs.nonce)
      {
        if s in SealingsOf(cs, epoch, ops[0]) {
          HeadIsLater(cs, epoch, ops[0], s);
        } else {
          LaterWeakens(s, EpochAfter(c, cs, epoch, ops[0]), Applied(c, cs, ops[0]).nonce, epoch, cs.nonce);
        }
      }
    }
  }

  lemma HeadIsFresh(c: Suite, cs: Cipher, epoch: nat, op: Op, h: Sealing, s: Sealing)
    requires SealOpens(c) && h in SealingsOf(cs, epoch, op) && h.epoch == s.epoch
    requires LaterThan(s, EpochAfter(c, cs, epoch, op), Applied(c, cs, op).nonce)
    ensures h.seal.nonce != s.seal.nonce && !h.byRekey
  {
    if op.Encrypt? {
      FreshNonce(s, epoch, cs.nonce);
    }
  }

  /** Over every run of encrypts, decrypts and rekeys, from any nonce. */
  lemma {:induction false} NonceNeverReused(c: Suite, cs: Cipher, epoch: nat, ops: seq<Op>)
    requires SealOpens(c)
    ensures NoncesDistinct(Sealings(c, cs, epoch, ops))
    decreases |ops|
  {
    SealingsAreLater(c, cs, epoch, ops);
    if ops != [] {
      var next, after := EpochAfter(c, cs, epoch, ops[0]), Applied(c, cs, ops[0]);
      var head, rest := SealingsOf(cs, epoch, ops[0]), Sealings(c, after, next, ops[1..]);
      NonceNeverReused(c, after, next, ops[1..]);
      SealingsAreLater(c, after, next, ops[1..]);
      forall h, s | h in head && s in rest && h.epoch == s.epoch
        ensures h.seal.nonce != s.seal.nonce && !h.byRekey
      {
        HeadIsFresh(c, cs, epoch, ops[0], h, s);
      }
    }
  }

  lemma FreshNonce(s: Sealing, epoch: nat, n: uint64)
    requires n < MAX_NONCE && LaterThan(s, epoch, n + 1) && s.epoch == epoch
    ensures s.seal.nonce != FormatNonce(n)
  {
    if s.seal.nonce == FormatNonce(n) {
      if s.byRekey {
        FormatNonceInjective(n, MAX_NONCE);
      } else {
        var k: uint64 :| n + 1 <= k < MAX_NONCE && s.seal.nonce == FormatNonce(k);
        FormatNonceInjective(n, k);
      }
    }
  }

  // ---- Epochs and keys ----

  /** The key that a number of rekeys lead to. */
  function KeyAfter(c: Suite, key: Key, rekeys: nat): Key
    decreases rekeys
  {
    if rekeys == 0 then key
    else
      var material := c.seal(key, FormatNonce(MAX_NONCE), ZERO_KEY, []);
      if |material| < KEY_LEN then key else KeyAfter(c, material[..KEY_LEN], rekeys - 1)
  }

  lemma OpKeepsKeyed(c: Suite, cs: Cipher, epoch: nat, op: Op)
    requires SealOpens(c) && cs.hasKey
    ensures Applied(c, cs, op).hasKey
    ensures EpochAfter(c, cs, epoch, op) == if op.Rekey? then epoch + 1 else epoch
    ensures Applied(c, cs, op).key == if op.Rekey? then KeyAfter(c, cs.key, 1) else cs.key
  {
    if op.Rekey? {
      var material := c.seal(cs.key, FormatNonce(MAX_NONCE), ZERO_KEY, []);
      assert |material| == KEY_LEN + TAG_LEN;
      assert KeyAfter(c, cs.key, 1) == KeyAfter(c, material[..KEY_LEN], 0);
    }
  }

  lemma KeyAfterOneMore(c: Suite, key: Key, n: nat)
    requires SealOpens(c)
    ensures KeyAfter(c, KeyAfter(c, key, 1), n) == KeyAfter(c, key, n + 1)
  {
    var material := c.seal(key, FormatNonce(MAX_NONCE), ZERO_KEY, []);
    assert |material| == KEY_LEN + TAG_LEN;
    assert KeyAfter(c, key, 1) == KeyAfter(c, material[..KEY_LEN], 0);
  }

  /** In every run, all that is sealed in an epoch is sealed under the one key of that epoch,
    which is the first block of what the last epoch's key made of zeros. */
  lemma {:induction false} EpochHasOneKey(c: Suite, cs: Cipher, epoch: nat, ops: seq<Op>)
    requires SealOpens(c) && cs.hasKey
    ensures forall s :: s in Sealings(c, cs, epoch, ops) ==>
              epoch <= s.epoch <= epoch + |ops| && s.seal.key == KeyAfter(c, cs.key, s.epoch - epoch)
    decreases |ops|
  {
    if ops != [] {
      var after, next := Applied(c, cs, ops[0]), EpochAfter(c, cs, epoch, ops[0]);
      OpKeepsKeyed(c, cs, epoch, ops[0]);
      EpochHasOneKey(c, after, next, ops[1..]);
      forall s | s in Sealings(c, after, next, ops[1..])
        ensures epoch <= s.epoch <= epoch + |ops| && s.seal.key == KeyAfter(c, cs.key, s.epoch - epoch)
      {
        if ops[0].Rekey? {
          KeyAfterOneMore(c, cs.key, s.epoch - next);
        }
      }
    }
  }

  /** So unless rekeying comes back to an earlier key, no key is ever used twice with the
    same nonce. */
  lemma NoPairRepeats(c: Suite, cs: Cipher, epoch: nat, ops: seq<Op>, i: nat, j: nat)
    requires SealOpens(c) && cs.hasKey
    requires forall a, b :: 0 <= a < b <= |ops| ==> KeyAfter(c, cs.key, a) != KeyAfter(c, cs.key, b)
    requires i < j < |Sealings(c, cs, epoch, ops)|
    ensures var log := Sealings(c, cs, epoch, ops);
            log[i].seal.key != log[j].seal.key || log[i].seal.nonce != log[j].seal.nonce
  {
    var log := Sealings(c, cs, epoch, ops);
    EpochHasOneKey(c, cs, epoch, ops);
    NonceNeverReused(c, cs, epoch, ops);
    assert log[i] in log && log[j] in log;
  }
}

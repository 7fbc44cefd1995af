/** The primitives that pkg/noise calls but does not implement.

  BLAKE2s, HKDF, ChaCha20-Poly1305 and X25519 are the fields of a Suite.  Nothing is
  assumed about them beyond their output lengths, which their types carry, and the
  two laws of Lawful. */
module Crypto {
  import opened Words
  import opened Wrappers

  const KEY_LEN: nat := 32
  const TAG_LEN: nat := 16

  /** A 32-byte array: a key, a digest or a curve point. */
  type Key = k: bytes | |k| == KEY_LEN witness seq(KEY_LEN, _ => 0)

  const ZERO_KEY: Key := [
    0, 0, 0, 0, 0, 0, 0, 0, 0, 0, 0, 0, 0, 0, 0, 0,
    0, 0, 0, 0, 0, 0, 0, 0, 0, 0, 0, 0, 0, 0, 0, 0]
  const BASEPOINT: Key := ZERO_KEY[0 := 9]

  datatype Error =
    | InvalidRole
    | InvalidPsk
    | InvalidKeyLength
    | NotKeyed
    | NonceExhausted
    | OpenFailed
    | LowOrderPoint
    | NoEntropy
    | MessageTooShort
    | StaticKeyMismatch
    | NoRemoteEphemeral
    | NoLocalEphemeral
    | InvalidParts

  /** hkdf(ck, ikm, i) is the i-th 32-byte block of the HKDF output stream; open
    returns None when authentication fails; x25519 returns None on a low-order
    point. */
  datatype Suite = Suite(
    hash: bytes -> Key,
    hkdf: (Key, bytes, nat) -> Key,
    seal: (Key, bytes, bytes, bytes) -> bytes,
    open: (Key, bytes, bytes, bytes) -> Option<bytes>,
    x25519: (Key, Key) -> Option<Key>)

  /** Clears the low three bits of the first byte; clears the top bit of the last and sets
    the one below it. */
  function Clamp(s: Key): Key {
    s[0 := s[0] / 8 * 8][31 := if s[31] % 128 < 64 then s[31] % 128 + 64 else s[31] % 128]
  }

  function PublicFromPrivate(c: Suite, priv: Key): Option<Key> {
    c.x25519(Clamp(priv), BASEPOINT)
  }

  function Dh(c: Suite, priv: Key, pub: Key): Option<Key> {
    c.x25519(Clamp(priv), pub)
  }

  ghost predicate SealOpens(c: Suite) {
    forall k, n, p, a ::
      && |c.seal(k, n, p, a)| == |p| + TAG_LEN
      && c.open(k, n, c.seal(k, n, p, a), a) == Some(p)
  }

  ghost predicate DhCommutes(c: Suite) {
    forall a: Key, b: Key ::
      PublicFromPrivate(c, a).Some? && PublicFromPrivate(c, b).Some? ==>
        Dh(c, a, PublicFromPrivate(c, b).value) == Dh(c, b, PublicFromPrivate(c, a).value)
  }

  ghost predicate Lawful(c: Suite) {
    SealOpens(c) && DhCommutes(c)
  }

  /** The laws are consistent: a degenerate suite meets them. */
  lemma LawfulSuiteExists() returns (c: Suite)
    ensures Lawful(c)
  {
    c := Suite(
      _ => ZERO_KEY,
      (_, _, _) => ZERO_KEY,
      (_, _, p: bytes, _) => p + seq(TAG_LEN, _ => 0),
      (_, _, m: bytes, _) => if |m| < TAG_LEN then None else Some(m[..|m| - TAG_LEN]),
      (_, _) => Some(ZERO_KEY));
    forall k, n, p, a
      ensures |c.seal(k, n, p, a)| == |p| + TAG_LEN && c.open(k, n, c.seal(k, n, p, a), a) == Some(p)
    {
      assert (p + seq(TAG_LEN, _ => 0))[..|p|] == p;
    }
  }

  /** Clamping twice is clamping once, so a generated (already clamped) ephemeral
    behaves as an injected one. */
  lemma ClampIdempotent(s: Key)
    ensures Clamp(Clamp(s)) == Clamp(s)
  {}

  /** The low three bits of the first byte become 000 and its upper five stay; the upper two
    bits of the last byte become 01 and its lower six stay; nothing else changes. */
  lemma ClampFields(s: Key)
    ensures Clamp(s)[0] % 8 == 0 && Clamp(s)[0] / 8 == s[0] / 8
    ensures Clamp(s)[31] / 64 == 1 && Clamp(s)[31] % 64 == s[31] % 64
    ensures forall i :: 0 < i < 31 ==> Clamp(s)[i] == s[i]
  {}

  /** Only the clamped bits of a private key matter. */
  lemma DhIgnoresClampedBits(c: Suite, a: Key, b: Key, pub: Key)
    requires Clamp(a) == Clamp(b)
    ensures Dh(c, a, pub) == Dh(c, b, pub) && PublicFromPrivate(c, a) == PublicFromPrivate(c, b)
  {}

  // ---- Nonce formatting: four zero bytes, then the counter little-endian ----

  function LittleEndian(n: nat, width: nat): (b: bytes)
    ensures |b| == width
    decreases width
  {
    if width == 0 then [] else [n % 256] + LittleEndian(n / 256, width - 1)
  }

  function FormatNonce(counter: uint64): (b: bytes)
    ensures |b| == 12
  {
    [0, 0, 0, 0] + LittleEndian(counter, 8)
  }

  ghost function FromLittleEndian(b: bytes): nat {
    if b == [] then 0 else b[0] + 256 * FromLittleEndian(b[1..])
  }

  lemma {:induction false} LittleEndianRoundTrip(n: nat, width: nat)
    requires n < Pow2(8 * width)
    ensures FromLittleEndian(LittleEndian(n, width)) == n
    decreases width
  {
    if width > 0 {
      Pow2Byte(8 * (width - 1));
      LittleEndianRoundTrip(n / 256, width - 1);
      assert LittleEndian(n, width)[1..] == LittleEndian(n / 256, width - 1);
    }
  }

  /** Four zero bytes, then the counter in little-endian order. */
  lemma FormatNonceLayout(n: uint64)
    ensures FormatNonce(n)[..4] == [0, 0, 0, 0] && FromLittleEndian(FormatNonce(n)[4..]) == n
  {
    Pow2Values();
    LittleEndianRoundTrip(n, 8);
    assert FormatNonce(n)[4..] == LittleEndian(n, 8);
  }

  lemma FormatNonceInjective(m: uint64, n: uint64)
    requires FormatNonce(m) == FormatNonce(n)
    ensures m == n
  {
    FormatNonceLayout(m);
    FormatNonceLayout(n);
  }
}

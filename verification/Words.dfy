/** Go's uint64 as a natural number below 2^64, with its shifts, OR and AND.

  A shift by n is n shifts by one, as the Go specification words it; a left shift
  drops what passes bit 63.  Every lemma below is about single bits. */
module Words {
  const TWO64: nat := 0x1_0000_0000_0000_0000

  type uint64 = x: int | 0 <= x < TWO64

  predicate Bit(w: nat, k: nat)
    decreases k
  {
    if k == 0 then w % 2 == 1 else Bit(w / 2, k - 1)
  }

  function ShiftLeft(w: uint64, n: nat): uint64
    decreases n
  {
    if n == 0 then w else ShiftLeft(2 * w % TWO64, n - 1)
  }

  function ShiftRight(w: uint64, n: nat): uint64
    decreases n
  {
    if n == 0 then w else ShiftRight(w / 2, n - 1)
  }

  function Or(v: nat, w: nat): nat {
    if v == 0 && w == 0 then 0
    else 2 * Or(v / 2, w / 2) + (if v % 2 == 1 || w % 2 == 1 then 1 else 0)
  }

  function And(v: nat, w: nat): nat {
    if v == 0 || w == 0 then 0
    else 2 * And(v / 2, w / 2) + (if v % 2 == 1 && w % 2 == 1 then 1 else 0)
  }

  ghost function Pow2(n: nat): nat {
    if n == 0 then 1 else 2 * Pow2(n - 1)
  }

  lemma Pow2Values()
    ensures Pow2(63) == 0x8000_0000_0000_0000 && Pow2(64) == TWO64
  {
    Pow2Byte(0);
    Pow2Byte(8);
    Pow2Byte(16);
    Pow2Byte(24);
    Pow2Byte(32);
    Pow2Byte(40);
    Pow2Byte(48);
    Pow2Byte(56);
  }

  lemma Pow2Byte(n: nat)
    ensures Pow2(n + 8) == 256 * Pow2(n)
  {
    assert Pow2(n + 6) == 4 * Pow2(n + 4);
    assert Pow2(n + 4) == 4 * Pow2(n + 2);
  }

  lemma OrHalves(v: nat, w: nat)
    ensures Or(v, w) / 2 == Or(v / 2, w / 2)
    ensures Or(v, w) % 2 == 1 <==> v % 2 == 1 || w % 2 == 1
  {
    var low := if v % 2 == 1 || w % 2 == 1 then 1 else 0;
    assert Or(v, w) == 2 * Or(v / 2, w / 2) + low;
  }

  lemma {:induction false} BitOr(v: nat, w: nat, k: nat)
    ensures Bit(Or(v, w), k) <==> Bit(v, k) || Bit(w, k)
    decreases k
  {
    OrHalves(v, w);
    if k > 0 {
      BitOr(v / 2, w / 2, k - 1);
    }
  }

  lemma {:induction false} BitAnd(v: nat, w: nat, k: nat)
    ensures Bit(And(v, w), k) <==> Bit(v, k) && Bit(w, k)
    decreases k
  {
    if v == 0 || w == 0 {
      BitZero(k);
    } else if k > 0 {
      BitAnd(v / 2, w / 2, k - 1);
      assert And(v, w) / 2 == And(v / 2, w / 2);
    }
  }

  /** A word is non-zero exactly when it has a bit. */
  lemma {:induction false} NonZeroHasBit(w: nat) returns (k: nat)
    requires w != 0
    ensures Bit(w, k)
  {
    if w % 2 == 1 {
      k := 0;
    } else {
      k := NonZeroHasBit(w / 2);
      k := k + 1;
    }
  }

  lemma {:induction false} OrBound(v: nat, w: nat, n: nat)
    requires v < Pow2(n) && w < Pow2(n)
    ensures Or(v, w) < Pow2(n)
    decreases n
  {
    if n > 0 {
      OrBound(v / 2, w / 2, n - 1);
    }
  }

  lemma {:induction false} BitBeyond(w: nat, n: nat, k: nat)
    requires w < Pow2(n) && n <= k
    ensures !Bit(w, k)
    decreases k
  {
    if n > 0 {
      BitBeyond(w / 2, n - 1, k - 1);
    } else if k > 0 {
      BitBeyond(0, 0, k - 1);
    }
  }

  /** Dropping bit m leaves the bits below it alone. */
  lemma {:induction false} BitsBelow(w: nat, m: nat, k: nat)
    requires Pow2(m) <= w && k < m
    ensures Bit(w - Pow2(m), k) <==> Bit(w, k)
    decreases k
  {
    if k > 0 {
      BitsBelow(w / 2, m - 1, k - 1);
      assert (w - Pow2(m)) / 2 == w / 2 - Pow2(m - 1);
    }
  }

  lemma BitLeftOne(w: uint64, k: nat)
    requires k < 64
    ensures Bit(2 * w % TWO64, k) <==> k > 0 && Bit(w, k - 1)
  {
    Pow2Values();
    if k > 0 && 2 * w >= TWO64 {
      BitsBelow(w, 63, k - 1);
      assert 2 * w % TWO64 == 2 * (w - Pow2(63));
    }
  }

  lemma {:induction false} BitLeft(w: uint64, s: nat, k: nat)
    requires k < 64
    ensures Bit(ShiftLeft(w, s), k) <==> s <= k && Bit(w, k - s)
    decreases s
  {
    if s > 0 {
      BitLeft(2 * w % TWO64, s - 1, k);
      if s - 1 <= k {
        BitLeftOne(w, k - s + 1);
      }
    }
  }

  lemma {:induction false} BitRight(w: uint64, r: nat, k: nat)
    ensures Bit(ShiftRight(w, r), k) <==> Bit(w, k + r)
    decreases r
  {
    if r > 0 {
      BitRight(w / 2, r - 1, k);
    }
  }

  /** The OR of two words is a word. */
  function OrWord(v: uint64, w: uint64): (r: uint64)
    ensures forall k: nat :: Bit(r, k) <==> Bit(v, k) || Bit(w, k)
  {
    assert Or(v, w) < TWO64 by {
      Pow2Values();
      OrBound(v, w, 64);
    }
    assert forall k: nat :: Bit(Or(v, w), k) <==> Bit(v, k) || Bit(w, k) by {
      forall k: nat ensures Bit(Or(v, w), k) <==> Bit(v, k) || Bit(w, k) { BitOr(v, w, k); }
    }
    Or(v, w)
  }

  lemma {:induction false} BitZero(k: nat)
    ensures !Bit(0, k)
  {
    if k > 0 {
      BitZero(k - 1);
    }
  }

  lemma {:induction false} BitOne(k: nat)
    ensures Bit(1, k) <==> k == 0
  {
    if k > 0 {
      BitZero(k - 1);
    }
  }

  /** The bits of 1 << s. */
  lemma BitMask(s: nat, k: nat)
    requires s < 64
    ensures Bit(ShiftLeft(1, s), k) <==> k == s
  {
    if k < 64 {
      BitLeft(1, s, k);
      if s <= k {
        BitOne(k - s);
      }
    } else {
      Pow2Values();
      BitBeyond(ShiftLeft(1, s), 64, k);
    }
  }

  /** Masking a word with one bit leaves something exactly when the word has that bit. */
  lemma MaskTest(w: uint64, s: nat)
    requires s < 64
    ensures And(w, ShiftLeft(1, s)) != 0 <==> Bit(w, s)
  {
    var masked := And(w, ShiftLeft(1, s));
    if masked != 0 {
      var k := NonZeroHasBit(masked);
      BitAnd(w, ShiftLeft(1, s), k);
      BitMask(s, k);
    } else {
      BitZero(s);
      BitAnd(w, ShiftLeft(1, s), s);
      BitMask(s, s);
    }
  }

  /** One word of a wide left shift: the carry is the top of the word below. */
  lemma BitCarry(w: uint64, below: uint64, s: nat, k: nat)
    requires 0 < s < 64 && k < 64
    ensures Bit(OrWord(ShiftLeft(w, s), ShiftRight(below, 64 - s)), k)
       <==> if s <= k then Bit(w, k - s) else Bit(below, 64 + k - s)
  {
    BitLeft(w, s, k);
    BitRight(below, 64 - s, k);
    if s <= k {
      Pow2Values();
      BitBeyond(below, 64, k + 64 - s);
    }
  }
}

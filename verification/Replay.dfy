/** The sliding replay window of pkg/noise/replay.go.

  A 2048-bit bitmap, held in 32 words and shifted in place, is shown to decide
  exactly as a plain set of accepted counters would.  An offset counts backwards
  from the highest accepted counter. */
module ReplayWindow {
  import opened Words

  const WINDOW_BITS: nat := 2048
  const WINDOW_WORDS: nat := 32

  type Bitmap = b: seq<uint64> | |b| == WINDOW_WORDS witness seq(WINDOW_WORDS, _ => 0)

  /** The bit at offset d of a whole bitmap. */
  predicate Has(b: Bitmap, d: nat)
    requires d < WINDOW_BITS
  {
    Bit(b[d / 64], d % 64)
  }

  // ---- The specification: a plain set of accepted counters ----

  /** A counter is fresh when it was never accepted and no accepted counter is
    2048 or more ahead of it. */
  ghost predicate Fresh(seen: set<uint64>, c: uint64) {
    c !in seen && forall x :: x in seen ==> x - c < WINDOW_BITS
  }

  ghost function SeenAfter(cs: seq<uint64>): set<uint64> {
    if cs == [] then {}
    else
      var before := SeenAfter(cs[..|cs| - 1]);
      var c := cs[|cs| - 1];
      if Fresh(before, c) then before + {c} else before
  }

  /** The verdict on the i-th counter of a history. */
  ghost predicate AcceptedAt(cs: seq<uint64>, i: nat)
    requires i < |cs|
  {
    Fresh(SeenAfter(cs[..i]), cs[i])
  }

  /** What ties the three fields of the window to the set. */
  ghost predicate Represents(initialized: bool, highest: uint64, b: Bitmap, seen: set<uint64>) {
    && (!initialized ==> seen == {} && forall d :: 0 <= d < WINDOW_BITS ==> !Has(b, d))
    && (initialized ==>
          && highest in seen
          && (forall x :: x in seen ==> x <= highest)
          && forall d :: 0 <= d < WINDOW_BITS ==> (Has(b, d) <==> d <= highest && highest - d in seen))
  }

  // ---- The shift as two passes over values ----

  function ShiftWords(b: Bitmap, n: nat): Bitmap {
    seq(WINDOW_WORDS, i requires 0 <= i < WINDOW_WORDS => if n <= i then b[i - n] else 0)
  }

  function CarryInto(b: Bitmap, s: nat, i: nat): uint64
    requires i < WINDOW_WORDS && s < 64
  {
    OrWord(ShiftLeft(b[i], s), if i > 0 then ShiftRight(b[i - 1], 64 - s) else 0)
  }

  function ShiftBits(b: Bitmap, s: nat): Bitmap
    requires s < 64
  {
    if s == 0 then b
    else seq(WINDOW_WORDS, i requires 0 <= i < WINDOW_WORDS => CarryInto(b, s, i))
  }

  lemma CarryIntoBit(b: Bitmap, s: nat, i: nat, k: nat)
    requires i < WINDOW_WORDS && 0 < s < 64 && k < 64
    ensures Bit(CarryInto(b, s, i), k)
       <==> if s <= k then Bit(b[i], k - s) else i > 0 && Bit(b[i - 1], 64 + k - s)
  {
    if i > 0 {
      BitCarry(b[i], b[i - 1], s, k);
    } else {
      BitLeft(b[i], s, k);
      BitZero(k);
    }
  }

  /** The two passes are one 2048-bit left shift: bit d takes bit d - delta, and the
    low delta bits become 0. */
  lemma ShiftIsExact(b: Bitmap, delta: nat, d: nat)
    requires delta < WINDOW_BITS && d < WINDOW_BITS
    ensures Has(ShiftBits(ShiftWords(b, delta / 64), delta % 64), d)
       <==> delta <= d && Has(b, d - delta)
  {
    var m := ShiftWords(b, delta / 64);
    var i, s, k := d / 64, delta % 64, d % 64;
    if 0 < s {
      CarryIntoBit(m, s, i, k);
    }
    BitZero(k);
    if s <= k {
      BitZero(k - s);
      assert delta <= d ==> (d - delta) / 64 == i - delta / 64 && (d - delta) % 64 == k - s;
    } else {
      BitZero(64 + k - s);
      assert delta <= d ==> (d - delta) / 64 == i - delta / 64 - 1 && (d - delta) % 64 == 64 + k - s;
    }
  }

  // ---- The window object ----

  class Window {
    var highestSeen: uint64
    var initialized: bool
    const bitmap: array<uint64>
    ghost var seen: set<uint64>

    ghost predicate Valid()
      reads this, bitmap
    {
      bitmap.Length == WINDOW_WORDS && Represents(initialized, highestSeen, bitmap[..], seen)
    }

    constructor ()
      ensures Valid() && seen == {} && fresh(bitmap)
    {
      bitmap := new uint64[WINDOW_WORDS](_ => 0);
      highestSeen, initialized, seen := 0, false, {};
      new;
      forall d | 0 <= d < WINDOW_BITS ensures !Has(bitmap[..], d) { BitZero(d % 64); }
    }

    method Accept(counter: uint64) returns (ok: bool)
      requires Valid()
      modifies this, bitmap
      ensures Valid()
      ensures ok <==> Fresh(old(seen), counter)
      ensures ok <==> || !old(initialized)
                      || counter > old(highestSeen)
                      || (old(highestSeen) - counter < WINDOW_BITS && counter !in old(seen))
      ensures seen == if ok then old(seen) + {counter} else old(seen)
    {
      if !initialized {
        initialized := true;
        highestSeen := counter;
        MarkDelta(0);
        seen := {counter};
        return true;
      }
      if counter > highestSeen {
        var delta := counter - highestSeen;
        AdvanceLocked(delta);
        highestSeen := counter;
        MarkDelta(0);
        seen := seen + {counter};
        return true;
      }
      var delta := highestSeen - counter;
      if delta >= WINDOW_BITS {
        return false;
      }
      var marked := HasDelta(delta);
      if marked {
        return false;
      }
      MarkDelta(delta);
      seen := seen + {counter};
      return true;
    }

    method HasDelta(delta: nat) returns (r: bool)
      requires bitmap.Length == WINDOW_WORDS && delta < WINDOW_BITS
      ensures r == Has(bitmap[..], delta)
    {
      var word, bit := delta / 64, delta % 64;
      r := And(bitmap[word], ShiftLeft(1, bit)) != 0;
      MaskTest(bitmap[word], bit);
    }

    method MarkDelta(delta: nat)
      requires bitmap.Length == WINDOW_WORDS && delta < WINDOW_BITS
      modifies bitmap
      ensures forall d :: 0 <= d < WINDOW_BITS ==>
                (Has(bitmap[..], d) <==> d == delta || Has(old(bitmap[..]), d))
    {
      bitmap[delta / 64] := OrWord(bitmap[delta / 64], ShiftLeft(1, delta % 64));
      forall d | 0 <= d < WINDOW_BITS
        ensures Has(bitmap[..], d) <==> d == delta || Has(old(bitmap[..]), d)
      {
        BitMask(delta % 64, d % 64);
      }
    }

    /** Both loops run downwards over the one array, so every word is read before it
      is overwritten. */
    method AdvanceLocked(delta: nat)
      requires bitmap.Length == WINDOW_WORDS
      modifies bitmap
      ensures forall d :: 0 <= d < WINDOW_BITS ==>
                (Has(bitmap[..], d) <==> delta <= d && Has(old(bitmap[..]), d - delta))
    {
      if delta >= WINDOW_BITS {
        for i := 0 to WINDOW_WORDS
          invariant forall k :: 0 <= k < i ==> bitmap[k] == 0
        {
          bitmap[i] := 0;
        }
        forall d | 0 <= d < WINDOW_BITS ensures !Has(bitmap[..], d) { BitZero(d % 64); }
        return;
      }
      ghost var before := bitmap[..];
      var wordShift, bitShift := delta / 64, delta % 64;
      if wordShift > 0 {
        for i := WINDOW_WORDS downto 0
          invariant forall k :: i <= k < WINDOW_WORDS ==> bitmap[k] == ShiftWords(before, wordShift)[k]
          invariant forall k :: 0 <= k < i ==> bitmap[k] == before[k]
        {
          bitmap[i] := if i - wordShift >= 0 then bitmap[i - wordShift] else 0;
        }
      }
      ghost var middle := bitmap[..];
      assert middle == ShiftWords(before, wordShift);
      if bitShift > 0 {
        for i := WINDOW_WORDS downto 0
          invariant forall k :: i <= k < WINDOW_WORDS ==> bitmap[k] == CarryInto(middle, bitShift, k)
          invariant forall k :: 0 <= k < i ==> bitmap[k] == middle[k]
        {
          var carry: uint64 := 0;
          if i > 0 {
            carry := ShiftRight(bitmap[i - 1], 64 - bitShift);
          }
          bitmap[i] := OrWord(ShiftLeft(bitmap[i], bitShift), carry);
        }
      }
      assert bitmap[..] == ShiftBits(middle, bitShift);
      forall d | 0 <= d < WINDOW_BITS
        ensures Has(bitmap[..], d) <==> delta <= d && Has(before, d - delta)
      {
        ShiftIsExact(before, delta, d);
      }
    }
  }

  // ---- Whole runs ----

  /** Feeding any history to a new window yields the set's verdicts, one by one. */
  method Replay(cs: seq<uint64>) returns (verdicts: seq<bool>)
    ensures |verdicts| == |cs|
    ensures forall i :: 0 <= i < |cs| ==> (verdicts[i] <==> AcceptedAt(cs, i))
  {
    var w := new Window();
    verdicts := [];
    for n := 0 to |cs|
      invariant w.Valid() && fresh(w) && fresh(w.bitmap)
      invariant w.seen == SeenAfter(cs[..n]) && |verdicts| == n
      invariant forall i :: 0 <= i < n ==> (verdicts[i] <==> AcceptedAt(cs, i))
    {
      var ok := w.Accept(cs[n]);
      verdicts := verdicts + [ok];
      assert cs[..n + 1][..n] == cs[..n];
    }
  }

  lemma {:induction false} SeenGrows(cs: seq<uint64>, i: nat, j: nat)
    requires i <= j <= |cs|
    ensures SeenAfter(cs[..i]) <= SeenAfter(cs[..j])
  {
    if i < j {
      SeenGrows(cs, i, j - 1);
      assert cs[..j][..j - 1] == cs[..j - 1];
    }
  }

  /** Replay protection: no counter is accepted twice in any history. */
  lemma NoCounterAcceptedTwice(cs: seq<uint64>, i: nat, j: nat)
    requires i < j < |cs| && cs[i] == cs[j] && AcceptedAt(cs, i)
    ensures !AcceptedAt(cs, j)
  {
    assert cs[..i + 1][..i] == cs[..i];
    SeenGrows(cs, i + 1, j);
  }
}

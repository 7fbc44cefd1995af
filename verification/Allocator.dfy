/** The virtual address allocator of pkg/netutil/ip.go.

  Addresses are Go's uint32 with explicit wrap-around; net.IP values are byte
  sequences in their 4-byte or 16-byte layout.  Parsing of text is not modelled: a
  CIDR arrives as its address and prefix length, a used address as the bytes that
  net.ParseIP returns, empty for nil. */
module Allocator {
  import opened Words
  import opened Wrappers
  import opened NetIP

  const TWO32: nat := 0x1_0000_0000

  type uint32 = x: int | 0 <= x < TWO32

  /** A parsed IPv4 CIDR. */
  datatype IPNet = IPNet(ip: uint32, prefix: nat)

  // ---- net.IP layouts ----

  /** The four bytes shifted into place, most significant first. */
  function Assembled(a: byte, b: byte, c: byte, d: byte): uint32 {
    (((a as int) * 256 + b as int) * 256 + c as int) * 256 + d as int
  }

  function IpToUint32(ip: bytes): uint32 {
    var v := To4(ip);
    if v == [] then 0 else Assembled(v[0], v[1], v[2], v[3])
  }

  /** net.IPv4 always builds the 16-byte layout; dividing by 256 is a shift by 8. */
  function Uint32ToIp(v: uint32): (ip: bytes)
    ensures |ip| == 16
  {
    V4_IN_V6 + [v / 256 / 256 / 256, v / 256 / 256 % 256, v / 256 % 256, v % 256]
  }

  lemma LastByte(high: nat, d: byte)
    ensures (high * 256 + d as int) / 256 == high && (high * 256 + d as int) % 256 == d
  {}

  lemma RoundTripFromUint32(v: uint32)
    ensures To4(Uint32ToIp(v)) != [] && IpToUint32(Uint32ToIp(v)) == v
  {
    assert To4(Uint32ToIp(v)) == [v / 256 / 256 / 256, v / 256 / 256 % 256, v / 256 % 256, v % 256];
  }

  lemma RoundTripFromIp(ip: bytes)
    requires To4(ip) != []
    ensures Uint32ToIp(IpToUint32(ip)) == V4_IN_V6 + To4(ip)
  {
    var q := To4(ip);
    var h2: nat := (q[0] as int) * 256 + q[1] as int;
    var h3: nat := h2 * 256 + q[2] as int;
    LastByte(q[0], q[1]);
    LastByte(h2, q[2]);
    LastByte(h3, q[3]);
    assert q == [q[0], q[1], q[2], q[3]];
  }

  /** The byte tested for 255 belongs to the fixed prefix, so the test never skips. */
  lemma FourthByteIsPrefix(v: uint32)
    ensures Uint32ToIp(v)[3] == 0
  {}

  // ---- Masks ----

  /** ip & mask, for a mask whose low m bits are clear. */
  function LowCleared(w: nat, m: nat): nat
    decreases m
  {
    if m == 0 then w else 2 * LowCleared(w / 2, m - 1)
  }

  /** ip | ^mask. */
  function LowSet(w: nat, m: nat): nat
    decreases m
  {
    if m == 0 then w else 2 * LowSet(w / 2, m - 1) + 1
  }

  /** Both are the bitwise operations they stand for. */
  lemma {:induction false} MaskBits(w: nat, m: nat, k: nat)
    ensures Bit(LowCleared(w, m), k) <==> m <= k && Bit(w, k)
    ensures Bit(LowSet(w, m), k) <==> k < m || Bit(w, k)
    decreases k
  {
    if m > 0 {
      assert LowCleared(w, m) / 2 == LowCleared(w / 2, m - 1) && LowSet(w, m) / 2 == LowSet(w / 2, m - 1);
      if k > 0 {
        MaskBits(w / 2, m - 1, k - 1);
      }
    }
  }

  lemma {:induction false} MaskBounds(w: nat, m: nat, bits: nat)
    requires m <= bits && w < Pow2(bits)
    ensures LowCleared(w, m) <= w <= LowSet(w, m) < Pow2(bits)
    ensures LowSet(w, m) == LowCleared(w, m) + Pow2(m) - 1
    ensures LowSet(LowCleared(w, m), m) == LowSet(w, m)
    decreases m
  {
    if m > 0 {
      MaskBounds(w / 2, m - 1, bits - 1);
    }
  }

  /** An address lies between network and broadcast exactly when its masked value is
    the network. */
  lemma {:induction false} BlockMembership(w: nat, c: nat, m: nat)
    ensures LowCleared(w, m) <= c <= LowSet(w, m) <==> LowCleared(c, m) == LowCleared(w, m)
    decreases m
  {
    if m > 0 {
      BlockMembership(w / 2, c / 2, m - 1);
    }
  }

  lemma Pow2At32()
    ensures Pow2(32) == TWO32 && Pow2(31) == 0x8000_0000 && Pow2(2) == 4
  {
    Pow2Byte(0);
    Pow2Byte(8);
    Pow2Byte(16);
    Pow2Byte(24);
  }

  function Network(net: IPNet): (r: uint32)
    requires net.prefix <= 32
  {
    assert LowCleared(net.ip, 32 - net.prefix) < TWO32 by {
      Pow2At32();
      MaskBounds(net.ip, 32 - net.prefix, 32);
    }
    LowCleared(net.ip, 32 - net.prefix)
  }

  function Broadcast(net: IPNet): (r: uint32)
    requires net.prefix <= 32
  {
    assert LowSet(Network(net), 32 - net.prefix) < TWO32 by {
      Pow2At32();
      MaskBounds(Network(net), 32 - net.prefix, 32);
    }
    LowSet(Network(net), 32 - net.prefix)
  }

  predicate Contains(net: IPNet, c: uint32)
    requires net.prefix <= 32
  {
    LowCleared(c, 32 - net.prefix) == Network(net)
  }

  // ---- Allocation ----

  predicate Free(net: IPNet, used: set<uint32>, c: uint32)
    requires net.prefix <= 32
  {
    c !in used && Contains(net, c)
  }

  function FirstFree(net: IPNet, used: set<uint32>, from: nat, to: uint32): Option<uint32>
    requires net.prefix <= 32
    decreases (to as int) - from
  {
    if from >= to then None
    else if Free(net, used, from) then Some(from)
    else FirstFree(net, used, from + 1, to)
  }

  /** The first candidate, in uint32 arithmetic. */
  function Start(net: IPNet): uint32
    requires net.prefix <= 32
  {
    (Network(net) + 2) % TWO32
  }

  function Allocate(net: IPNet, used: set<uint32>): Option<uint32>
    requires net.prefix <= 32
  {
    if net.prefix == 0 || Broadcast(net) <= Start(net) then None
    else FirstFree(net, used, Start(net), Broadcast(net))
  }

  lemma {:induction false} FirstFreeIsLeast(net: IPNet, used: set<uint32>, from: nat, to: uint32)
    requires net.prefix <= 32
    ensures match FirstFree(net, used, from, to)
            case None => (forall c :: from <= c < to ==> !Free(net, used, c))
            case Some(a) => from <= a < to && Free(net, used, a) && forall c :: from <= c < a ==> !Free(net, used, c)
    decreases (to as int) - from
  {
    if from < to && !Free(net, used, from) {
      FirstFreeIsLeast(net, used, from + 1, to);
    }
  }

  /** Host addresses that may be handed out. */
  ghost predicate InHostRange(net: IPNet, a: uint32)
    requires net.prefix <= 32
  {
    Network(net) + 2 <= a < Broadcast(net)
  }

  lemma WideBlock(net: IPNet)
    requires 1 <= net.prefix <= 30
    ensures Start(net) == Network(net) + 2 < Broadcast(net)
  {
    Pow2At32();
    var m := 32 - net.prefix;
    MaskBounds(net.ip, m, 32);
    MaskBounds(Network(net), m, 32);
    Pow2Grows(2, m);
  }

  lemma {:induction false} Pow2Grows(i: nat, j: nat)
    requires i <= j
    ensures Pow2(i) <= Pow2(j)
    decreases j
  {
    if i < j {
      Pow2Grows(i, j - 1);
    }
  }

  lemma BroadcastOfAddress(net: IPNet)
    requires net.prefix <= 32
    ensures Broadcast(net) == LowSet(net.ip, 32 - net.prefix)
  {
    Pow2At32();
    MaskBounds(net.ip, 32 - net.prefix, 32);
  }

  lemma HostRangeIsContained(net: IPNet, a: uint32)
    requires net.prefix <= 32
    ensures Contains(net, a) <==> Network(net) <= a <= Broadcast(net)
  {
    BroadcastOfAddress(net);
    BlockMembership(net.ip, a, 32 - net.prefix);
  }

  /** For prefixes 1 to 30: the smallest unused address of [network + 2, broadcast - 1],
    and none exactly when all of them are used. */
  lemma AllocatesLeastFree(net: IPNet, used: set<uint32>)
    requires 1 <= net.prefix <= 30
    ensures match Allocate(net, used)
            case Some(a) =>
              && InHostRange(net, a) && a !in used
              && (forall c: uint32 :: InHostRange(net, c) && c < a ==> c in used)
            case None => (forall c: uint32 :: InHostRange(net, c) ==> c in used)
  {
    WideBlock(net);
    FirstFreeIsLeast(net, used, Start(net), Broadcast(net));
    forall c: uint32 | InHostRange(net, c)
      ensures Free(net, used, c) <==> c !in used
    {
      HostRangeIsContained(net, c);
    }
  }

  /** Blocks of one or two addresses yield nothing, except that network + 2 wraps to 0
    for the very last /31, whose network address is then handed out. */
  lemma NarrowBlocks(net: IPNet, used: set<uint32>)
    requires 31 <= net.prefix <= 32
    ensures Allocate(net, used) ==
              if net.prefix == 31 && Network(net) == TWO32 - 2 && TWO32 - 2 !in used then Some(TWO32 - 2) else None
  {
    Pow2At32();
    MaskBounds(net.ip, 32 - net.prefix, 32);
    MaskBounds(Network(net), 32 - net.prefix, 32);
    assert Pow2(1) == 2 && Pow2(0) == 1;
    FirstFreeIsLeast(net, used, Start(net), Broadcast(net));
    HostRangeIsContained(net, TWO32 - 2);
    forall c: uint32
      ensures Free(net, used, c) <==> c !in used && Network(net) <= c <= Broadcast(net)
    {
      HostRangeIsContained(net, c);
    }
  }

  /** A real, assignable address of a network: in the host range, wherever the network
    has one. */
  ghost predicate IsHost(net: IPNet, a: uint32)
    requires net.prefix <= 32
  {
    a != 0 && Contains(net, a) && (net.prefix <= 30 ==> InHostRange(net, a))
  }

  /** Whatever is allocated, for any prefix, is an unused host address. */
  lemma AllocatesHosts(net: IPNet, used: set<uint32>)
    requires net.prefix <= 32 && Allocate(net, used).Some?
    ensures Allocate(net, used).value !in used && IsHost(net, Allocate(net, used).value)
  {
    FirstFreeIsLeast(net, used, Start(net), Broadcast(net));
    if net.prefix <= 30 {
      AllocatesLeastFree(net, used);
    } else {
      NarrowBlocks(net, used);
    }
  }

  ghost function UsedSet(existing: seq<bytes>): set<uint32> {
    set i | 0 <= i < |existing| && |To4(existing[i])| == 4 :: IpToUint32(existing[i])
  }

  /** The first loop: unparsable and IPv6 addresses are skipped. */
  method CollectUsed(existing: seq<bytes>) returns (used: set<uint32>)
    ensures used == UsedSet(existing)
  {
    used := {};
    for i := 0 to |existing|
      invariant used == UsedSet(existing[..i])
    {
      if To4(existing[i]) != [] {
        used := used + {IpToUint32(existing[i])};
      }
      assert existing[..i + 1] == existing[..i] + [existing[i]];
      UsedSetExtends(existing[..i], existing[i]);
    }
    assert existing[..|existing|] == existing;
  }

  /** The three tests of the counting loop; the first never fails. */
  method Admit(net: IPNet, used: set<uint32>, candidate: uint32) returns (ok: bool, ip: bytes)
    requires net.prefix <= 32
    ensures ok == Free(net, used, candidate) && ip == Uint32ToIp(candidate)
  {
    ip := Uint32ToIp(candidate);
    RoundTripFromUint32(candidate);
    FourthByteIsPrefix(candidate);
    ok := ip[3] != 255 && candidate !in used && Contains(net, IpToUint32(ip));
  }

  /** The allocator with its counting loop; cidr is None when parsing failed or the
    network is not IPv4. */
  method AllocateIP(cidr: Option<IPNet>, existing: seq<bytes>) returns (r: Option<bytes>)
    requires cidr.Some? ==> cidr.value.prefix <= 32
    ensures cidr.None? ==> r == None
    ensures cidr.Some? ==> r == match Allocate(cidr.value, UsedSet(existing))
                                case None => None
                                case Some(a) => Some(Uint32ToIp(a))
  {
    if cidr.None? {
      return None;
    }
    var net := cidr.value;
    if net.prefix == 0 {
      return None;
    }
    var start, broadcast := Start(net), Broadcast(net);
    if broadcast <= start {
      return None;
    }
    var used := CollectUsed(existing);
    var candidate := start;
    while candidate < broadcast
      invariant start <= candidate <= broadcast
      invariant FirstFree(net, used, candidate, broadcast) == FirstFree(net, used, start, broadcast)
    {
      var ok, ip := Admit(net, used, candidate);
      if ok {
        return Some(ip);
      }
      candidate := candidate + 1;
    }
    return None;
  }

  lemma UsedSetExtends(existing: seq<bytes>, ip: bytes)
    ensures UsedSet(existing + [ip]) == UsedSet(existing) + (if To4(ip) != [] then {IpToUint32(ip)} else {})
  {
    var more := existing + [ip];
    assert more[|existing|] == ip && forall i :: 0 <= i < |existing| ==> more[i] == existing[i];
    if To4(ip) != [] {
      assert IpToUint32(more[|existing|]) in UsedSet(more);
    }
    forall a | a in UsedSet(existing)
      ensures a in UsedSet(more)
    {
      var i :| 0 <= i < |existing| && |To4(existing[i])| == 4 && a == IpToUint32(existing[i]);
      assert more[i] == existing[i];
    }
  }
}

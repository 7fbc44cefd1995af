/** Peer registration as server/internal/api/peer_handler.go runs it: a snapshot, two
  scans, an allocation and an upsert, inside a loop of at most three attempts. */
module PeerHandler {
  import opened Wrappers
  import opened NetIP
  import opened Allocator
  import opened Registry
  import opened RegistryRuns

  const MAX_REGISTER_ATTEMPTS: nat := 3

  /** The peers table behind its statements. */
  class PeerStore {
    var rows: Rows

    constructor ()
      ensures rows == map[]
    {
      rows := map[];
    }

    /** INSERT ... ON CONFLICT (machine_id) DO UPDATE; false when the address index
      refuses it. */
    method RegisterPeer(network: string, machine: string, key: string, vip: uint32, status: Status, newId: string)
        returns (ok: bool)
      requires Unique(rows) && newId !in rows
      modifies this
      ensures rows == Committed(old(rows), Register(network, machine, key, vip, status), newId)
      ensures ok ==> exists i :: i in rows && rows[i].machine == machine && rows[i].network == network
                              && rows[i].vip == vip && rows[i].key == key && rows[i].online
      ensures !ok ==> && rows == old(rows) && vip != 0
                      && exists j :: j in rows && HeldByOther(rows[j], network, machine, vip)
    {
      if i :| i in rows && rows[i].machine == machine {
        HolderIsUnique(rows, i);
        var r := rows[i].(network := network, key := key, vip := vip, online := true);
        ok := !Clashes(rows, i, r);
        rows := Put(rows, i, r);
        assert ok ==> i in rows && rows[i] == r;
      } else {
        var r := Row(network, machine, key, vip, status, true);
        ok := !Clashes(rows, newId, r);
        rows := Put(rows, newId, r);
        assert ok ==> newId in rows && rows[newId] == r;
      }
    }

    method ListNetworkPeers(network: string) returns (peers: seq<Row>)
      ensures forall r :: r in peers <==> exists i :: i in Listed(rows, network) && Listed(rows, network)[i] == r
    {
      peers := [];
      var todo := rows.Keys;
      while todo != {}
        invariant todo <= rows.Keys
        invariant forall r :: r in peers <==>
                    exists i :: i in rows && i !in todo && rows[i].network == network && rows[i] == r
        decreases |todo|
      {
        var i :| i in todo;
        if rows[i].network == network {
          peers := peers + [rows[i]];
        }
        todo := todo - {i};
      }
      assert forall i :: i in Listed(rows, network) <==> i in rows && rows[i].network == network;
    }
  }

  /** A listing shows exactly the rows of a table. */
  ghost predicate Shows(peers: seq<Row>, table: Rows) {
    forall r :: r in peers <==> exists i :: i in table && table[i] == r
  }

  function AddressBytes(peers: seq<Row>): (out: seq<bytes>)
    ensures |out| == |peers|
  {
    seq(|peers|, i requires 0 <= i < |peers| => Uint32ToIp(peers[i].vip))
  }

  lemma UsedAreAddresses(peers: seq<Row>, table: Rows)
    requires Shows(peers, table)
    ensures UsedSet(AddressBytes(peers)) == Addresses(table)
  {
    var used := AddressBytes(peers);
    forall i | 0 <= i < |peers|
      ensures |To4(used[i])| == 4 && IpToUint32(used[i]) == peers[i].vip
    {
      RoundTripFromUint32(peers[i].vip);
    }
    forall a | a in Addresses(table)
      ensures a in UsedSet(used)
    {
      var k :| k in table && table[k].vip == a;
      assert table[k] in peers;
      var i :| 0 <= i < |peers| && peers[i] == table[k];
      assert IpToUint32(used[i]) in UsedSet(used);
    }
    forall a | a in UsedSet(used)
      ensures a in Addresses(table)
    {
      var i :| 0 <= i < |used| && |To4(used[i])| == 4 && a == IpToUint32(used[i]);
      assert peers[i] in peers;
    }
  }

  /** The two scans of a listing: the machine's own address, dropped when another
    machine has it as well. */
  method OwnAddress(peers: seq<Row>, machine: string) returns (own: Option<uint32>)
    requires forall r, s :: r in peers && s in peers && r.machine == machine && s.machine == machine ==> r == s
    ensures own.Some? <==> exists r :: r in peers && r.machine == machine
                             && forall s :: s in peers && s.machine != machine ==> s.vip != r.vip
    ensures own.Some? ==> exists r :: r in peers && r.machine == machine && r.vip == own.value
  {
    own := None;
    for i := 0 to |peers|
      invariant own.Some? <==> exists k :: 0 <= k < i && peers[k].machine == machine
      invariant own.Some? ==> exists r :: r in peers && r.machine == machine && r.vip == own.value
    {
      if peers[i].machine == machine {
        own := Some(peers[i].vip);
      }
    }
    if own.Some? {
      ghost var mine :| mine in peers && mine.machine == machine && mine.vip == own.value;
      for i := 0 to |peers|
        invariant forall k :: 0 <= k < i && peers[k].machine != machine ==> peers[k].vip != own.value
      {
        if peers[i].machine != machine && peers[i].vip == own.value {
          assert peers[i] in peers && peers[i].vip == mine.vip;
          return None;
        }
      }
      assert mine in peers && forall s :: s in peers && s.machine != machine ==> s.vip != mine.vip;
    }
  }

  lemma OwnIsChoice(net: IPNet, peers: seq<Row>, table: Rows, machine: string, own: Option<uint32>)
    requires net.prefix <= 32 && Shows(peers, table) && MachinesUnique(table)
    requires own.Some? <==> exists r :: r in peers && r.machine == machine
                              && forall s :: s in peers && s.machine != machine ==> s.vip != r.vip
    requires own.Some? ==> exists r :: r in peers && r.machine == machine && r.vip == own.value
    ensures RegisterChoice(net, table, machine) == if own.Some? then own else Allocate(net, Addresses(table))
  {}

  /** The address chosen from this very table is held by another machine. */
  ghost predicate Refused(rows: Rows, network: string, net: IPNet, machine: string)
    requires net.prefix <= 32
  {
    var choice := RegisterChoice(net, Listed(rows, network), machine);
    choice.Some? && exists j :: j in rows && HeldByOther(rows[j], network, machine, choice.value)
  }

  ghost predicate HeldByOther(r: Row, network: string, machine: string, vip: uint32) {
    r.machine != machine && r.network == network && r.vip == vip
  }

  lemma NeverRefused(rows: Rows, network: string, net: IPNet, machine: string)
    requires net.prefix <= 32
    ensures !Refused(rows, network, net, machine)
  {
    if Refused(rows, network, net, machine) {
      var j :| j in rows && HeldByOther(rows[j], network, machine, RegisterChoice(net, Listed(rows, network), machine).value);
      DecisionAvoidsOthers(map[network := net], rows, RegisterPeer(network, machine, ""), j);
    }
  }

  lemma OthersDoNotHold(rows: Rows, network: string, machine: string, key: string, vip: uint32, newId: string)
    requires forall j :: j in rows ==> !HeldByOther(rows[j], network, machine, vip)
    ensures var after := Committed(rows, Write.Register(network, machine, key, vip, Blank), newId);
            forall j :: j in after ==> !HeldByOther(after[j], network, machine, vip)
  {}

  /** Registration with no concurrent writer.  The retry loop is there, and it is never
    taken: the first write succeeds with an address no other row of the network
    holds, or there is no address left. */
  method Register(store: PeerStore, network: string, net: IPNet, machine: string, key: string, newId: string)
      returns (chosen: Option<uint32>, attempts: nat)
    requires net.prefix <= 32 && Unique(store.rows) && newId !in store.rows
    modifies store
    ensures attempts == 1
    ensures chosen == RegisterChoice(net, Listed(old(store.rows), network), machine)
    ensures chosen.None? ==> store.rows == old(store.rows)
    ensures chosen.Some? ==>
              && store.rows == Committed(old(store.rows), Write.Register(network, machine, key, chosen.value, Blank), newId)
              && (exists i :: i in store.rows && store.rows[i].machine == machine && store.rows[i].network == network
                           && store.rows[i].vip == chosen.value && store.rows[i].key == key)
              && (forall j :: j in store.rows ==> !HeldByOther(store.rows[j], network, machine, chosen.value))
  {
    attempts := 0;
    chosen := None;
    while attempts < MAX_REGISTER_ATTEMPTS
      invariant store.rows == old(store.rows)
      invariant attempts > 0 ==> Refused(old(store.rows), network, net, machine)
      decreases MAX_REGISTER_ATTEMPTS - attempts
    {
      if attempts > 0 {
        NeverRefused(store.rows, network, net, machine);
        assert false;
      }
      attempts := attempts + 1;
      var peers := store.ListNetworkPeers(network);
      ghost var table := Listed(store.rows, network);
      assert MachinesUnique(table);
      chosen := OwnAddress(peers, machine);
      OwnIsChoice(net, peers, table, machine, chosen);
      if chosen.None? {
        UsedAreAddresses(peers, table);
        var ip := AllocateIP(Some(net), AddressBytes(peers));
        if ip.None? {
          return;
        }
        RoundTripFromUint32(Allocate(net, Addresses(table)).value);
        chosen := Some(IpToUint32(ip.value));
      }
      var ok := store.RegisterPeer(network, machine, key, chosen.value, Blank, newId);
      if ok {
        NeverRefused(old(store.rows), network, net, machine);
        OthersDoNotHold(old(store.rows), network, machine, key, chosen.value, newId);
        return;
      }
    }
    NeverRefused(store.rows, network, net, machine);
    assert false;
  }
}

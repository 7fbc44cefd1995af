/** What the registry guarantees over histories of uninterrupted handlers: every approved
  peer has a real address of its network.  Module RegistryRaces has the interleaved runs. */
module RegistryRuns {
  import opened Words
  import opened Wrappers
  import opened Allocator
  import opened Registry

  // ---- Addresses ----

  ghost predicate RowAddressed(nets: Networks, r: Row) {
    r.network in nets && (r.vip == 0 || IsHost(nets[r.network], r.vip))
  }

  /** Every address in the table is the placeholder or a host of its network. */
  ghost predicate Addressed(nets: Networks, rows: Rows) {
    forall i :: i in rows ==> RowAddressed(nets, rows[i])
  }

  ghost predicate ApprovedReal(rows: Rows) {
    forall i :: i in rows && rows[i].status == Approved ==> rows[i].vip != 0
  }

  ghost predicate Good(nets: Networks, rows: Rows) {
    Unique(rows) && Addressed(nets, rows) && ApprovedReal(rows)
  }

  /** An approval never assigns the placeholder, nor does a register as approved. */
  ghost predicate WriteReal(w: Write) {
    (w.Register? && w.status == Approved ==> w.vip != 0) && (w.Approve? ==> w.vip != 0)
  }

  /** A register assigns an address that its network can hold. */
  ghost predicate WriteAddressed(nets: Networks, w: Write) {
    && WriteReal(w)
    && (w.Register? ==> w.network in nets && (w.vip == 0 || IsHost(nets[w.network], w.vip)))
    && (w.RegisterPending? ==> w.network in nets)
  }

  lemma HolderIsUnique(rows: Rows, i: string)
    requires MachinesUnique(rows) && i in rows
    ensures Holder(rows, rows[i].machine) == Some(i)
  {}

  /** A register that carries the placeholder, for an approved peer. */
  ghost predicate ErasesApproved(rows: Rows, w: Write) {
    w.Register? && w.vip == 0
      && exists i :: i in rows && rows[i].machine == w.machine && rows[i].status == Approved
  }

  /** An approval, not refused by the index, whose address is none of the network that the
    row is in by now. */
  ghost predicate Misplaces(nets: Networks, rows: Rows, w: Write) {
    && w.Approve? && w.id in rows
    && var r := rows[w.id].(status := Approved, vip := w.vip, online := false);
       !Clashes(rows, w.id, r) && !RowAddressed(nets, r)
  }

  /** A committed statement leaves every approved peer with a real address exactly when
    it does not erase one: a test that could be made before writing. */
  lemma CommitKeepsApprovedReal(rows: Rows, w: Write, newId: string)
    requires MachinesUnique(rows) && ApprovedReal(rows) && WriteReal(w) && newId !in rows
    ensures ApprovedReal(Committed(rows, w, newId)) <==> !ErasesApproved(rows, w)
  {
    if ErasesApproved(rows, w) {
      var i :| i in rows && rows[i].machine == w.machine && rows[i].status == Approved;
      HolderIsUnique(rows, i);
      assert Committed(rows, w, newId)[i].status == Approved && Committed(rows, w, newId)[i].vip == 0;
    }
  }

  lemma CommitKeepsAddressed(nets: Networks, rows: Rows, w: Write, newId: string)
    requires Addressed(nets, rows) && WriteAddressed(nets, w) && newId !in rows
    ensures Addressed(nets, Committed(rows, w, newId)) <==> !Misplaces(nets, rows, w)
  {
    if Misplaces(nets, rows, w) {
      assert w.id in Committed(rows, w, newId);
    }
  }

  /** And it keeps the addresses of all rows in order exactly when, moreover, it does not
    misplace one. */
  lemma CommitKeepsGood(nets: Networks, rows: Rows, w: Write, newId: string)
    requires Good(nets, rows) && WriteAddressed(nets, w) && newId !in rows
    ensures Good(nets, Committed(rows, w, newId)) <==> !ErasesApproved(rows, w) && !Misplaces(nets, rows, w)
  {
    CommitKeepsUnique(rows, w, newId);
    CommitKeepsApprovedReal(rows, w, newId);
    CommitKeepsAddressed(nets, rows, w, newId);
  }

  // ---- Decisions ----

  lemma ListedAddressed(nets: Networks, rows: Rows, network: string)
    requires Addressed(nets, rows)
    ensures Addressed(nets, Listed(rows, network))
  {}

  /** Whatever the snapshot, a decision assigns the placeholder or a host address; only
    RegisterPeer assigns the placeholder. */
  lemma DecisionAssignsHosts(nets: Networks, seen: Rows, q: Request)
    requires WellFormed(nets, q) && Addressed(nets, seen) && Decision(nets, seen, q).Some?
    requires forall i :: i in seen ==> seen[i].network == q.network
    ensures var vip := Decision(nets, seen, q).value.vip;
            (vip == 0 && q.RegisterPeer?) || IsHost(nets[q.network], vip)
  {
    var net := nets[q.network];
    if Allocate(net, Addresses(seen)).Some? {
      AllocatesHosts(net, Addresses(seen));
    }
    if Allocate(net, Addresses(seen) - {0}).Some? {
      AllocatesHosts(net, Addresses(seen) - {0});
    }
  }

  /** The row that a request is about. */
  ghost predicate IsOwn(q: Request, id: string, r: Row)
    requires q.JoinAuto? ==> |q.key| >= KEY_PREFIX
  {
    match q
    case RegisterPeer(_, m, _) => r.machine == m
    case JoinAuto(_, k) => r.machine == JoinMachine(k)
    case ApproveMember(_, i) => id == i
  }

  /** An address chosen from the current table, the placeholder included, is held by no
    other row of the network. */
  lemma DecisionAvoidsOthers(nets: Networks, rows: Rows, q: Request, j: string)
    requires WellFormed(nets, q) && Decision(nets, Listed(rows, q.network), q).Some?
    requires j in rows && rows[j].network == q.network && !IsOwn(q, j, rows[j])
    ensures rows[j].vip != Decision(nets, Listed(rows, q.network), q).value.vip
  {
    var seen := Listed(rows, q.network);
    var net := nets[q.network];
    assert j in seen && seen[j].vip in Addresses(seen);
    if Allocate(net, Addresses(seen)).Some? {
      AllocatesHosts(net, Addresses(seen));
    }
    if Allocate(net, Addresses(seen) - {0}).Some? {
      AllocatesHosts(net, Addresses(seen) - {0});
    }
  }

  /** The row of a machine after RegisterPeer. */
  ghost function RegisteredRow(rows: Rows, network: string, machine: string, key: string, vip: uint32): Row {
    match Holder(rows, machine)
    case Some(i) => rows[i].(network := network, key := key, vip := vip, online := true)
    case None => Row(network, machine, key, vip, Blank, true)
  }

  /** RegisterPeer without a concurrent writer: the row is written at the first attempt,
    with an address no other row of the network holds. */
  lemma RegisterNeedsNoRetry(nets: Networks, rows: Rows, network: string, machine: string, key: string, newId: string)
    requires Unique(rows) && network in nets && newId !in rows
    requires RegisterChoice(nets[network], Listed(rows, network), machine).Some?
    ensures var vip := RegisterChoice(nets[network], Listed(rows, network), machine).value;
            var after := Handled(nets, rows, RegisterPeer(network, machine, key), newId);
            && (exists i :: i in after && after == rows[i := after[i]]
                         && after[i] == RegisteredRow(rows, network, machine, key, vip))
            && forall j :: j in after && after[j].machine != machine && after[j].network == network ==>
                 after[j].vip != vip
  {
    var q := RegisterPeer(network, machine, key);
    var w := Decision(nets, Listed(rows, network), q).value;
    forall j | j in rows && rows[j].network == network && rows[j].machine != machine
      ensures rows[j].vip != w.vip
    {
      DecisionAvoidsOthers(nets, rows, q, j);
    }
    var i := if Holder(rows, machine).Some? then Holder(rows, machine).value else newId;
    var r := RegisteredRow(rows, network, machine, key, w.vip);
    assert !Clashes(rows, i, r);
    var after := Handled(nets, rows, q, newId);
    assert after == rows[i := r] && i in after && after[i] == r;
    forall j | j in after && after[j].machine != machine && after[j].network == network
      ensures after[j].vip != w.vip
    {
      assert j != i && after[j] == rows[j];
    }
  }

  /** A machine that registers again in its network keeps its address. */
  lemma RegisteringAgainKeepsAddress(nets: Networks, rows: Rows, i: string)
    requires Unique(rows) && i in rows && rows[i].network in nets && rows[i].vip != 0
    ensures RegisterChoice(nets[rows[i].network], Listed(rows, rows[i].network), rows[i].machine) == Some(rows[i].vip)
  {
    var seen := Listed(rows, rows[i].network);
    assert i in seen;
    HolderIsUnique(seen, i);
    forall j | j in seen && seen[j].machine != rows[i].machine
      ensures seen[j].vip != rows[i].vip
    {
      assert SameAddress(rows[i], rows[j]) == (rows[i].vip == rows[j].vip);
    }
  }

  // ---- Uninterrupted handlers ----

  datatype Event = Handle(request: Request, newId: string) | Statement(write: Write, newId: string)

  ghost predicate Legal(nets: Networks, rows: Rows, e: Event) {
    e.newId !in rows && (e.Statement? ==> SingleStatement(nets, e.write))
  }

  ghost function Applied(nets: Networks, rows: Rows, e: Event): Rows {
    match e
    case Handle(q, newId) => Handled(nets, rows, q, newId)
    case Statement(w, newId) => Committed(rows, w, newId)
  }

  ghost predicate History(nets: Networks, tables: seq<Rows>, events: seq<Event>) {
    && |tables| == |events| + 1
    && tables[0] == map[]
    && forall i :: 0 <= i < |events| ==> Legal(nets, tables[i], events[i]) && tables[i + 1] == Applied(nets, tables[i], events[i])
  }

  /** RegisterPeer reuses the placeholder only for a row that is not approved. */
  lemma PlaceholderIsNotApproved(nets: Networks, rows: Rows, q: Request)
    requires Good(nets, rows) && WellFormed(nets, q) && Decision(nets, Listed(rows, q.network), q).Some?
    ensures !ErasesApproved(rows, Decision(nets, Listed(rows, q.network), q).value)
  {
    var w := Decision(nets, Listed(rows, q.network), q).value;
    var seen := Listed(rows, q.network);
    if ErasesApproved(rows, w) {
      var i :| i in rows && rows[i].machine == w.machine && rows[i].status == Approved;
      HolderIsUnique(rows, i);
      ListedAddressed(nets, rows, q.network);
      DecisionAssignsHosts(nets, seen, q);
      var net := nets[q.network];
      if Allocate(net, Addresses(seen)).Some? {
        AllocatesHosts(net, Addresses(seen));
      }
    }
  }

  lemma EventKeepsGood(nets: Networks, rows: Rows, e: Event)
    requires Good(nets, rows) && Legal(nets, rows, e)
    ensures Good(nets, Applied(nets, rows, e))
  {
    match e
    case Statement(w, newId) => CommitKeepsGood(nets, rows, w, newId);
    case Handle(q, newId) =>
      if Admitted(nets, rows, q) && Decision(nets, Listed(rows, q.network), q).Some? {
        var w := Decision(nets, Listed(rows, q.network), q).value;
        ListedAddressed(nets, rows, q.network);
        DecisionAssignsHosts(nets, Listed(rows, q.network), q);
        PlaceholderIsNotApproved(nets, rows, q);
        CommitKeepsGood(nets, rows, w, newId);
      }
  }

  /** From an empty registry, every approved row always has a host address of its
    network. */
  lemma {:induction false} HistoriesStayGood(nets: Networks, tables: seq<Rows>, events: seq<Event>, n: nat)
    requires History(nets, tables, events) && n < |tables|
    ensures Good(nets, tables[n])
  {
    if n > 0 {
      HistoriesStayGood(nets, tables, events, n - 1);
      EventKeepsGood(nets, tables[n - 1], events[n - 1]);
    }
  }

  // ---- The online list ----

  ghost function OnlinePeers(rows: Rows, network: string): set<string> {
    set i | i in rows && rows[i].network == network && rows[i].online && rows[i].status == Approved
  }

  /** Peers listed together have distinct host addresses, and none of them is pending or
    rejected. */
  lemma OnlineListIsRoutable(nets: Networks, tables: seq<Rows>, events: seq<Event>, n: nat, network: string)
    requires History(nets, tables, events) && n < |tables|
    ensures forall i :: i in OnlinePeers(tables[n], network) ==>
              && network in nets && IsHost(nets[network], tables[n][i].vip)
              && tables[n][i].status != Pending && tables[n][i].status != Rejected
    ensures forall i, j :: i in OnlinePeers(tables[n], network) && j in OnlinePeers(tables[n], network) && i != j ==>
              tables[n][i].vip != tables[n][j].vip
  {
    HistoriesStayGood(nets, tables, events, n);
    forall i, j | i in OnlinePeers(tables[n], network) && j in OnlinePeers(tables[n], network) && i != j
      ensures tables[n][i].vip != tables[n][j].vip
    {
      assert SameAddress(tables[n][i], tables[n][j]) == (tables[n][i].vip == tables[n][j].vip);
    }
  }

  /** The stored status of a peer that RegisterPeer created is blank: a scan reads it as
    approved, so ApproveMember declines, yet the online query wants the word itself. */
  lemma BlankStaysBlank(nets: Networks, rows: Rows, e: Event, i: string)
    requires Unique(rows) && Legal(nets, rows, e) && i in rows && rows[i].status == Blank
    requires e != Statement(Reject(i), e.newId)
    ensures var after := Applied(nets, rows, e);
            i in after ==> after[i].status == Blank
  {
    match e
    case Statement(w, newId) => CommitKeepsBlank(rows, w, newId, i);
    case Handle(q, newId) =>
      if Admitted(nets, rows, q) && Decision(nets, Listed(rows, q.network), q).Some? {
        CommitKeepsBlank(rows, Decision(nets, Listed(rows, q.network), q).value, newId, i);
      }
  }

  lemma CommitKeepsBlank(rows: Rows, w: Write, newId: string, i: string)
    requires newId !in rows && i in rows && rows[i].status == Blank
    requires w != Reject(i) && !(w.Approve? && w.id == i)
    ensures i in Committed(rows, w, newId) ==> Committed(rows, w, newId)[i].status == Blank
  {}

  /** So until an administrator rejects it, such a peer is never listed as online,
    however often it registers, beats or is approved. */
  lemma {:induction false} RegisteredPeerIsNotListed(nets: Networks, tables: seq<Rows>, events: seq<Event>, m: nat, n: nat, i: string, network: string)
    requires History(nets, tables, events) && m <= n < |tables|
    requires i in tables[m] && tables[m][i].status == Blank
    requires forall k :: m <= k < n ==> events[k] != Statement(Reject(i), events[k].newId) && events[k].newId != i
    ensures i !in OnlinePeers(tables[n], network)
    ensures i in tables[n] ==> tables[n][i].status == Blank
  {
    if m < n {
      RegisteredPeerIsNotListed(nets, tables, events, m, n - 1, i, network);
      HistoriesStayGood(nets, tables, events, n - 1);
      if i in tables[n - 1] {
        BlankStaysBlank(nets, tables[n - 1], events[n - 1], i);
      } else {
        MissingStaysMissing(nets, tables[n - 1], events[n - 1], i);
      }
    }
  }

  lemma MissingStaysMissing(nets: Networks, rows: Rows, e: Event, i: string)
    requires Legal(nets, rows, e) && i !in rows && e.newId != i
    ensures i !in Applied(nets, rows, e)
  {}

  /** Right after an uninterrupted RegisterPeer with an address to give, the machine is
    listed online exactly when it already had a row stored as approved. */
  lemma RegisteredIsListedExactlyWhen(nets: Networks, rows: Rows, network: string, machine: string, key: string, newId: string)
    requires Unique(rows) && network in nets && newId !in rows
    requires RegisterChoice(nets[network], Listed(rows, network), machine).Some?
    ensures var after := Handled(nets, rows, RegisterPeer(network, machine, key), newId);
            (exists i :: i in OnlinePeers(after, network) && after[i].machine == machine) <==>
              (exists i :: i in rows && rows[i].machine == machine && rows[i].status == Approved)
  {
    var q := RegisterPeer(network, machine, key);
    var vip := RegisterChoice(nets[network], Listed(rows, network), machine).value;
    var after := Handled(nets, rows, q, newId);
    RegisterNeedsNoRetry(nets, rows, network, machine, key, newId);
    CommitKeepsUnique(rows, Decision(nets, Listed(rows, network), q).value, newId);
    var i :| i in after && after == rows[i := after[i]] && after[i] == RegisteredRow(rows, network, machine, key, vip);
    assert i in OnlinePeers(after, network) <==> after[i].status == Approved;
    if j :| j in rows && rows[j].machine == machine {
      HolderIsUnique(rows, j);
      assert after[i].status == rows[j].status;
    }
  }

  /** What it takes to list such a peer: reject it, approve it again and let it beat.  That
    works exactly when the network has an address to give. */
  lemma RejectedAndApprovedIsListed(nets: Networks, rows: Rows, i: string, newId: string)
    requires Unique(rows) && i in rows && rows[i].network in nets && newId !in rows
    ensures var n := rows[i].network;
            var approved := Handled(nets, Committed(rows, Reject(i), newId), ApproveMember(n, i), newId);
            i in OnlinePeers(Committed(approved, Heartbeat(i), newId), n) <==>
              FreshChoice(nets[n], Listed(rows, n)).Some?
  {
    var n := rows[i].network;
    var rejected := Committed(rows, Reject(i), newId);
    assert rejected == rows[i := rows[i].(status := Rejected)];
    var seen := Listed(rejected, n);
    SameAddressesListed(rows, i, n);
    if FreshChoice(nets[n], seen).Some? {
      var w := Decision(nets, seen, ApproveMember(n, i)).value;
      forall j | j in rejected && j != i && rejected[j].network == n
        ensures rejected[j].vip != w.vip
      {
        DecisionAvoidsOthers(nets, rejected, ApproveMember(n, i), j);
      }
      assert !Clashes(rejected, i, rejected[i].(status := Approved, vip := w.vip, online := false));
    }
  }

  lemma SameAddressesListed(rows: Rows, i: string, network: string)
    requires i in rows
    ensures Addresses(Listed(rows[i := rows[i].(status := Rejected)], network)) == Addresses(Listed(rows, network))
  {
    var seen, was := Listed(rows[i := rows[i].(status := Rejected)], network), Listed(rows, network);
    assert seen.Keys == was.Keys && forall j :: j in was ==> seen[j].vip == was[j].vip;
  }
}
